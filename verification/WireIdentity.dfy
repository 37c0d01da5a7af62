// wire_identity.py: the stateless identity of a listing card and of a merged title.
module WireIdentity {
  import opened Wrappers
  import Lex

  datatype Form = Movie | Series

  // The fields of a listing card that identity and provenance read.
  datatype SearchResult = SearchResult(
    id: string,
    provider: string,
    form: Form,
    title: string,
    year: Option<int>,
    imdb: Option<string>)

  // The parts of the identity rules that stay abstract: title normalisation, the year
  // parsed out of a title, and the 16-digit SHA-1 digest of "alias|form|year".
  datatype Rules = Rules(
    aliases: string -> seq<string>,
    titleYear: string -> Option<int>,
    digest: (string, Form, Option<int>) -> string)

  // What is assumed of them. Punctuation is replaced by spaces, so no alias holds a colon,
  // and the digest is taken to be injective. (The digested text itself determines its
  // three parts: neither the form nor the year can hold the separator.)
  ghost predicate Lawful(r: Rules) {
    && (forall t, a :: a in r.aliases(t) ==> ':' !in a)
    && (forall a, f, y, b, g, z :: r.digest(a, f, y) == r.digest(b, g, z) ==> a == b && f == g && y == z)
  }

  function EffectiveYear(r: Rules, it: SearchResult): Option<int> {
    if it.year.Some? then it.year else r.titleYear(it.title)
  }

  // The card's own year, and only without one the year its title names.
  lemma EffectiveYearIs(r: Rules, it: SearchResult, year: int)
    ensures EffectiveYear(r, it) == Some(year) <==>
      it.year == Some(year) || (it.year.None? && r.titleYear(it.title) == Some(year))
  {}

  // `year or ''`: an unknown year and the year 0 are written alike.
  function YearField(year: Option<int>): Option<int> {
    if year == Some(0) then None else year
  }

  // `tt\d{7,10}`, over the ASCII digits.
  predicate ImdbId(s: string) {
    9 <= |s| <= 12 && s[..2] == "tt" && forall i :: 2 <= i < |s| ==> '0' <= s[i] <= '9'
  }

  // `tt` and seven to ten digits.
  lemma ImdbIdIff(s: string)
    ensures ImdbId(s) <==> |s| >= 2 && s[..2] == "tt" && 7 <= |s[2..]| <= 10 && Decimal(s[2..])
  {
    if |s| >= 2 {
      assert forall i :: 0 <= i < |s[2..]| ==> s[2..][i] == s[i + 2];
      assert Decimal(s[2..]) ==> forall i :: 2 <= i < |s| ==> s[i] == s[2..][i - 2];
    }
  }

  predicate Decimal(digits: string) {
    forall i :: 0 <= i < |digits| ==> '0' <= digits[i] <= '9'
  }

  predicate HasImdb(it: SearchResult) {
    it.imdb.Some? && ImdbId(it.imdb.value)
  }

  function GroupKey(r: Rules, alias: string, form: Form, year: Option<int>): string {
    "g2:" + r.digest(alias, form, YearField(year))
  }

  function GroupKeyFromImdb(imdb: string): string {
    "g3:" + imdb
  }

  function KeyAlias(r: Rules, it: SearchResult): string {
    if r.aliases(it.title) != [] then Lex.Min(r.aliases(it.title)) else "id:" + it.id
  }

  function ItemGroupKey(r: Rules, it: SearchResult): string {
    if HasImdb(it) then GroupKeyFromImdb(it.imdb.value)
    else GroupKey(r, KeyAlias(r, it), it.form, EffectiveYear(r, it))
  }

  // Neither the order of a title's aliases nor their repeats matter, nor how the year was found.
  lemma KeyOfAliasSet(r: Rules, a: SearchResult, b: SearchResult)
    requires r.aliases(a.title) != [] && r.aliases(b.title) != []
    requires Lex.Elements(r.aliases(a.title)) == Lex.Elements(r.aliases(b.title))
    requires a.form == b.form && EffectiveYear(r, a) == EffectiveYear(r, b)
    requires if HasImdb(a) then a.imdb == b.imdb else !HasImdb(b)
    ensures ItemGroupKey(r, a) == ItemGroupKey(r, b)
  {
    Lex.MinOfSet(r.aliases(a.title), r.aliases(b.title));
  }

  // The asserted id itself; failing that the digest of form, year and the least alias, or of
  // the card's own id where the title has none.
  lemma ItemKeyIs(r: Rules, it: SearchResult) returns (alias: string)
    ensures HasImdb(it) ==> ItemGroupKey(r, it) == "g3:" + it.imdb.value
    ensures !HasImdb(it) ==>
      && (if r.aliases(it.title) == [] then alias == "id:" + it.id
          else Lex.IsLeast(alias, Lex.Elements(r.aliases(it.title))))
      && ItemGroupKey(r, it) == "g2:" + r.digest(alias, it.form,
           if EffectiveYear(r, it) == Some(0) then None else EffectiveYear(r, it))
  {
    alias := KeyAlias(r, it);
  }

  // ---- The match relation of the merge core (merge.py) ----

  predicate YearsMatch(a: Option<int>, b: Option<int>) {
    a.None? || b.None? || a == b
  }

  predicate ShareAlias(r: Rules, a: SearchResult, b: SearchResult) {
    exists alias :: alias in r.aliases(a.title) && alias in r.aliases(b.title)
  }

  predicate AliasLinked(r: Rules, a: SearchResult, b: SearchResult) {
    ShareAlias(r, a, b) && a.form == b.form && YearsMatch(EffectiveYear(r, a), EffectiveYear(r, b))
  }

  predicate ImdbLinked(a: SearchResult, b: SearchResult) {
    HasImdb(a) && HasImdb(b) && a.imdb == b.imdb
  }

  predicate Linked(r: Rules, a: SearchResult, b: SearchResult) {
    AliasLinked(r, a, b) || ImdbLinked(a, b)
  }

  // A card that normalises to no alias and asserts no IMDb id: nothing links it.
  predicate Blank(r: Rules, it: SearchResult) {
    r.aliases(it.title) == [] && !HasImdb(it)
  }

  // Two cards whose stateless keys coincide although nothing links them.
  predicate Twins(r: Rules, a: SearchResult, b: SearchResult) {
    && Blank(r, a) && Blank(r, b) && a.id == b.id && a.form == b.form
    && YearField(EffectiveYear(r, a)) == YearField(EffectiveYear(r, b))
  }

  // Equal stateless keys mean a direct match, except for twins; and twins do collide.
  lemma KeyCollision(r: Rules, a: SearchResult, b: SearchResult)
    requires Lawful(r)
    ensures ItemGroupKey(r, a) == ItemGroupKey(r, b) ==> Linked(r, a, b) || Twins(r, a, b)
    ensures Twins(r, a, b) ==> ItemGroupKey(r, a) == ItemGroupKey(r, b) && !Linked(r, a, b)
  {
    var k, l := ItemGroupKey(r, a), ItemGroupKey(r, b);
    assert HasImdb(a) ==> k[1] == '3' && k[3..] == a.imdb.value;
    assert HasImdb(b) ==> l[1] == '3' && l[3..] == b.imdb.value;
    if k == l && !HasImdb(a) && !HasImdb(b) {
      var x, y := KeyAlias(r, a), KeyAlias(r, b);
      assert k[3..] == r.digest(x, a.form, YearField(EffectiveYear(r, a)));
      assert l[3..] == r.digest(y, b.form, YearField(EffectiveYear(r, b)));
      assert x == y;
      assert r.aliases(a.title) == [] ==> x[2] == ':' && x[3..] == a.id;
      assert r.aliases(b.title) == [] ==> y[2] == ':' && y[3..] == b.id;
      assert r.aliases(a.title) != [] ==> x in r.aliases(a.title) && ':' !in x;
      assert r.aliases(b.title) != [] ==> y in r.aliases(b.title) && ':' !in y;
    }
  }
}
