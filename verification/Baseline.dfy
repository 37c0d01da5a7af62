// drift/baseline.py: the calibrated signature of a listing, and the verdict against it.
module Baseline {
  import opened Wrappers
  import opened Ratios
  import opened WireIdentity

  const MIN_CARDS := 2
  const SIGNIFICANT_SHARE := 0.2
  const BAND_FLOOR := 0.05

  datatype Style = Anime | Cartoon | Dorama

  // A set of styles, member by member.
  datatype Styles = Styles(anime: bool, cartoon: bool, dorama: bool)

  // `titled` and `linked`: the title and the url are not blank.
  datatype Card = Card(titled: bool, linked: bool, form: Form, styles: Styles)

  // A listing probe: whether it answered, and the cards.
  datatype Listing = Listing(answered: bool, cards: seq<Card>)

  datatype Attribute = ByForm | ByStyle

  // What a distribution counts.
  datatype Value = FormOf(form: Form) | StyleOf(style: Style)

  type Shares = map<Value, real>

  datatype Signature = Signature(countLow: int, countHigh: int, forms: Shares, styles: Shares, fieldsOk: bool)

  datatype Kind = Healthy | Shape | Broken

  function Values(card: Card, a: Attribute): seq<Value> {
    if a.ByForm? then [FormOf(card.form)] else Tags(card.styles)
  }

  // The members of the set, sorted by name.
  function Tags(styles: Styles): seq<Value> {
    If(styles.anime, StyleOf(Anime)) + If(styles.cartoon, StyleOf(Cartoon)) + If(styles.dorama, StyleOf(Dorama))
  }

  function If(b: bool, value: Value): seq<Value> {
    if b then [value] else []
  }

  // Every value the cards carry, card by card.
  function AllValues(cards: seq<Card>, a: Attribute): seq<Value> {
    if cards == [] then [] else Values(cards[0], a) + AllValues(cards[1..], a)
  }

  function Carries(card: Card, a: Attribute, value: Value): nat {
    match value
    case FormOf(form) => if a.ByForm? && card.form == form then 1 else 0
    case StyleOf(Anime) => if a.ByStyle? && card.styles.anime then 1 else 0
    case StyleOf(Cartoon) => if a.ByStyle? && card.styles.cartoon then 1 else 0
    case StyleOf(Dorama) => if a.ByStyle? && card.styles.dorama then 1 else 0
  }

  // How often a value is in a list.
  function Occurs(values: seq<Value>, value: Value): (n: nat)
    ensures n > 0 <==> value in values
  {
    if values == [] then 0
    else
      var last := |values| - 1;
      assert value in values <==> value in values[..last] || value == values[last];
      Occurs(values[..last], value) + if values[last] == value then 1 else 0
  }

  lemma {:induction false} OccursConcat(xs: seq<Value>, ys: seq<Value>, value: Value)
    ensures Occurs(xs + ys, value) == Occurs(xs, value) + Occurs(ys, value)
  {
    if ys == [] {
      assert xs + ys == xs;
    } else {
      assert (xs + ys)[..|xs + ys| - 1] == xs + ys[..|ys| - 1];
      OccursConcat(xs, ys[..|ys| - 1], value);
    }
  }

  function Number(card: Card, a: Attribute): nat {
    if a.ByForm? then 1
    else
      (if card.styles.anime then 1 else 0) + (if card.styles.cartoon then 1 else 0)
      + (if card.styles.dorama then 1 else 0)
  }

  // How often a value occurs, and how many values there are.
  function Tally(cards: seq<Card>, a: Attribute, value: Value): nat {
    if cards == [] then 0 else Carries(cards[0], a, value) + Tally(cards[1..], a, value)
  }

  function Total(cards: seq<Card>, a: Attribute): nat {
    if cards == [] then 0 else Number(cards[0], a) + Total(cards[1..], a)
  }

  lemma CardValues(card: Card, a: Attribute, value: Value)
    ensures |Values(card, a)| == Number(card, a) && Occurs(Values(card, a), value) == Carries(card, a, value)
  {
    if a.ByStyle? {
      TagsCounted(card.styles, value);
    } else {
      assert [FormOf(card.form)][..0] == [];
    }
  }

  lemma TagsCounted(styles: Styles, value: Value)
    ensures |Tags(styles)| == Number(Card(true, true, Movie, styles), ByStyle)
    ensures Occurs(Tags(styles), value) == Carries(Card(true, true, Movie, styles), ByStyle, value)
  {
    var x, y := If(styles.anime, StyleOf(Anime)), If(styles.cartoon, StyleOf(Cartoon));
    var z := If(styles.dorama, StyleOf(Dorama));
    OccursConcat(x, y, value);
    OccursConcat(x + y, z, value);
  }

  lemma {:induction false} ValuesCounted(cards: seq<Card>, a: Attribute, value: Value)
    ensures |AllValues(cards, a)| == Total(cards, a) && Occurs(AllValues(cards, a), value) == Tally(cards, a, value)
  {
    if cards != [] {
      CardValues(cards[0], a, value);
      ValuesCounted(cards[1..], a, value);
      OccursConcat(Values(cards[0], a), AllValues(cards[1..], a), value);
    }
  }

  function AtLeastOne(n: nat): (m: nat)
    ensures m >= 1
  {
    if n > 1 then n else 1
  }

  function Part(tally: nat, total: nat): real {
    tally as real / AtLeastOne(total) as real
  }

  function Share(cards: seq<Card>, a: Attribute, value: Value): real {
    Part(Tally(cards, a, value), Total(cards, a))
  }

  function Distribution(cards: seq<Card>, a: Attribute): Shares {
    map value | value in AllValues(cards, a) :: Share(cards, a, value)
  }

  lemma {:induction false} ValuesConcat(xs: seq<Card>, ys: seq<Card>, a: Attribute)
    ensures AllValues(xs + ys, a) == AllValues(xs, a) + AllValues(ys, a)
  {
    if xs == [] {
      assert xs + ys == ys;
    } else {
      assert (xs + ys)[1..] == xs[1..] + ys;
      ValuesConcat(xs[1..], ys, a);
    }
  }

  lemma ValuesOfOne(card: Card, a: Attribute)
    ensures AllValues([card], a) == Values(card, a)
  {
    assert [card][1..] == [];
  }

  lemma NextCard(cards: seq<Card>, i: nat, a: Attribute)
    requires i < |cards|
    ensures AllValues(cards[..i + 1], a) == AllValues(cards[..i], a) + Values(cards[i], a)
  {
    assert cards[..i + 1] == cards[..i] + [cards[i]];
    ValuesConcat(cards[..i], [cards[i]], a);
    ValuesOfOne(cards[i], a);
  }

  function GetCount(counts: map<Value, nat>, value: Value): nat {
    if value in counts then counts[value] else 0
  }

  // The counts after some values.
  ghost predicate Counted(counts: map<Value, nat>, values: seq<Value>) {
    && (forall value :: value in counts <==> value in values)
    && (forall value :: GetCount(counts, value) == Occurs(values, value))
  }

  lemma CountOne(counts: map<Value, nat>, values: seq<Value>, value: Value)
    requires Counted(counts, values)
    ensures Counted(counts[value := GetCount(counts, value) + 1], values + [value])
  {
    var next := counts[value := GetCount(counts, value) + 1];
    assert (values + [value])[..|values|] == values;
    forall v ensures GetCount(next, v) == Occurs(values + [value], v) {
      assert GetCount(counts, v) == Occurs(values, v);
    }
  }

  method CountValues(counts: map<Value, nat>, values: seq<Value>, ghost before: seq<Value>)
    returns (out: map<Value, nat>)
    requires Counted(counts, before)
    ensures Counted(out, before + values)
  {
    out := counts;
    var i := 0;
    assert before + values[..0] == before;
    while i < |values|
      invariant 0 <= i <= |values| && Counted(out, before + values[..i])
    {
      CountOne(out, before + values[..i], values[i]);
      assert before + values[..i] + [values[i]] == before + values[..i + 1];
      out := out[values[i] := GetCount(out, values[i]) + 1];
      i := i + 1;
    }
    assert values[..i] == values;
  }

  method CountCard(cards: seq<Card>, i: nat, a: Attribute, counts: map<Value, nat>, sum: nat)
    returns (counts': map<Value, nat>, sum': nat)
    requires i < |cards| && Counted(counts, AllValues(cards[..i], a)) && sum == |AllValues(cards[..i], a)|
    ensures Counted(counts', AllValues(cards[..i + 1], a)) && sum' == |AllValues(cards[..i + 1], a)|
  {
    NextCard(cards, i, a);
    counts' := CountValues(counts, Values(cards[i], a), AllValues(cards[..i], a));
    sum' := sum + |Values(cards[i], a)|;
  }

  method ComputeDistribution(cards: seq<Card>, a: Attribute) returns (shares: Shares)
    ensures shares == Distribution(cards, a)
  {
    var counts: map<Value, nat> := map[];
    var sum := 0;
    var i := 0;
    while i < |cards|
      invariant 0 <= i <= |cards| && Counted(counts, AllValues(cards[..i], a)) && sum == |AllValues(cards[..i], a)|
    {
      counts, sum := CountCard(cards, i, a, counts, sum);
      i := i + 1;
    }
    assert cards[..i] == cards;
    ValuesCounted(cards, a, FormOf(Movie));
    shares := map value | value in counts :: Part(GetCount(counts, value), sum);
    SharesOf(counts, cards, a);
  }

  lemma SharesOf(counts: map<Value, nat>, cards: seq<Card>, a: Attribute)
    requires Counted(counts, AllValues(cards, a))
    ensures (map value | value in counts :: Part(GetCount(counts, value), Total(cards, a))) == Distribution(cards, a)
  {
    forall value ensures GetCount(counts, value) == Tally(cards, a, value) {
      ValuesCounted(cards, a, value);
    }
  }

  predicate FieldsOk(cards: seq<Card>) {
    forall card :: card in cards ==> card.titled && card.linked
  }

  // A value that held a significant share and has all but vanished.
  predicate LeftBand(expected: Shares, actual: Shares, value: Value)
    requires value in expected
  {
    expected[value] >= SIGNIFICANT_SHARE && (if value in actual then actual[value] else 0.0) < BAND_FLOOR
  }

  predicate InBand(expected: Shares, actual: Shares) {
    forall value :: value in expected ==> !LeftBand(expected, actual, value)
  }

  predicate Unusable(listing: Listing) {
    !listing.answered || listing.cards == [] || !FieldsOk(listing.cards) || |listing.cards| < MIN_CARDS
  }

  function Verdict(listing: Listing, signature: Option<Signature>): Kind {
    if Unusable(listing) then Broken
    else
      match signature
      case None => Healthy
      case Some(s) =>
        if |listing.cards| < s.countLow then Shape
        else if !InBand(s.forms, Distribution(listing.cards, ByForm)) then Shape
        else if s.styles != map[] && !InBand(s.styles, Distribution(listing.cards, ByStyle)) then Shape
        else Healthy
  }

  function UpdateSignature(signature: Option<Signature>, listing: Listing): Signature {
    var count := |listing.cards|;
    var forms, styles := Distribution(listing.cards, ByForm), Distribution(listing.cards, ByStyle);
    match signature
    case None => Signature(count, count, forms, styles, FieldsOk(listing.cards))
    case Some(s) =>
      Signature(if count < s.countLow then count else s.countLow,
                if count > s.countHigh then count else s.countHigh, forms, styles, FieldsOk(listing.cards))
  }

  // Calibration converges: whatever was expected before, a listing is healthy against the
  // signature updated with it, exactly unless it is unusable.
  lemma HealthyAgainstItself(listing: Listing, signature: Option<Signature>)
    ensures Verdict(listing, Some(UpdateSignature(signature, listing))).Healthy? <==> !Unusable(listing)
  {}

  // A value of a significant share whose share of this listing is next to nothing.
  ghost predicate Vanished(shares: Shares, cards: seq<Card>, a: Attribute, value: Value) {
    value in shares && shares[value] >= 0.2 && Share(cards, a, value) < 0.05
  }

  lemma LeftBandIff(shares: Shares, cards: seq<Card>, a: Attribute)
    ensures InBand(shares, Distribution(cards, a)) <==> forall value :: !Vanished(shares, cards, a, value)
  {
    forall value | value in shares
      ensures LeftBand(shares, Distribution(cards, a), value) <==> Vanished(shares, cards, a, value)
    {
      DistributionShare(cards, a, value);
    }
  }

  // Unusable listings are broken, and no others. A usable one has lost its shape exactly if it
  // has fewer cards than any healthy pass had, or a form or a style of a significant share has
  // all but vanished; without a signature it never has.
  lemma VerdictIs(listing: Listing, signature: Option<Signature>)
    ensures Verdict(listing, signature).Broken? <==>
      || !listing.answered || |listing.cards| < 2
      || exists card :: card in listing.cards && !(card.titled && card.linked)
    ensures Verdict(listing, None) != Shape
    ensures signature.Some? && !Verdict(listing, signature).Broken? ==>
      var s := signature.value;
      (Verdict(listing, signature).Shape? <==>
        || |listing.cards| < s.countLow
        || (exists value :: Vanished(s.forms, listing.cards, ByForm, value))
        || (exists value :: Vanished(s.styles, listing.cards, ByStyle, value)))
  {
    if signature.Some? {
      LeftBandIff(signature.value.forms, listing.cards, ByForm);
      LeftBandIff(signature.value.styles, listing.cards, ByStyle);
    }
  }

  // A share is the part the value's occurrences make of all there are.
  lemma ShareIs(cards: seq<Card>, a: Attribute, value: Value)
    ensures Share(cards, a, value) == Part(Occurs(AllValues(cards, a), value), |AllValues(cards, a)|)
    ensures Occurs(AllValues(cards, a), value) <= |AllValues(cards, a)|
  {
    ValuesCounted(cards, a, value);
    TallyWithin(cards, a, value);
  }

  // And a part times the total is what it is a part of.
  lemma PartTimes(tally: nat, total: nat)
    requires tally <= total
    ensures total == 0 ==> Part(tally, total) == 0.0
    ensures Part(tally, total) * total as real == tally as real
  {
    if total == 0 {
      NoPart(0);
    } else {
      assert AtLeastOne(total) == total;
      QuotientBack(tally as real, total as real);
    }
  }

  lemma {:induction false} TallyWithin(cards: seq<Card>, a: Attribute, value: Value)
    ensures Tally(cards, a, value) <= Total(cards, a)
  {
    if cards != [] {
      TallyWithin(cards[1..], a, value);
    }
  }

  // ---- Growth ----

  ghost predicate Growth(before: seq<Card>, after: seq<Card>) {
    multiset(before) <= multiset(after)
  }

  lemma Extract(cards: seq<Card>, j: nat)
    requires j < |cards|
    ensures multiset(cards) == multiset{cards[j]} + multiset(cards[..j] + cards[j + 1..])
  {
    assert cards == cards[..j] + ([cards[j]] + cards[j + 1..]);
  }

  lemma RemoveFromBoth(x: Card, before: multiset<Card>, after: multiset<Card>)
    requires multiset{x} + before <= multiset{x} + after
    ensures before <= after
  {
    forall y ensures before[y] <= after[y] {
      assert (multiset{x} + before)[y] <= (multiset{x} + after)[y];
    }
  }

  lemma Peel(before: seq<Card>, after: seq<Card>) returns (j: nat)
    requires before != [] && Growth(before, after)
    ensures j < |after| && after[j] == before[0] && Growth(before[1..], after[..j] + after[j + 1..])
  {
    assert before[0] in multiset(before);
    assert before[0] in multiset(after);
    j :| 0 <= j < |after| && after[j] == before[0];
    assert before == [before[0]] + before[1..];
    Extract(after, j);
    RemoveFromBoth(before[0], multiset(before[1..]), multiset(after[..j] + after[j + 1..]));
  }

  // Counts add up over one card and the others.
  lemma {:induction false} CountsSplit(cards: seq<Card>, j: nat, a: Attribute, value: Value)
    requires j < |cards|
    ensures Total(cards, a) == Total(cards[..j] + cards[j + 1..], a) + Number(cards[j], a)
    ensures Tally(cards, a, value) == Tally(cards[..j] + cards[j + 1..], a, value) + Carries(cards[j], a, value)
  {
    var rest := cards[..j] + cards[j + 1..];
    if j == 0 {
      assert rest == cards[1..];
    } else {
      CountsSplit(cards[1..], j - 1, a, value);
      assert rest[1..] == cards[1..][..j - 1] + cards[1..][j..];
    }
  }

  lemma {:induction false} CountsConcat(xs: seq<Card>, ys: seq<Card>, a: Attribute, value: Value)
    ensures Total(xs + ys, a) == Total(xs, a) + Total(ys, a)
    ensures Tally(xs + ys, a, value) == Tally(xs, a, value) + Tally(ys, a, value)
  {
    if xs == [] {
      assert xs + ys == ys;
    } else {
      assert (xs + ys)[1..] == xs[1..] + ys;
      CountsConcat(xs[1..], ys, a, value);
    }
  }

  // A grown listing has every value at least as often.
  lemma {:induction false} CountsGrow(before: seq<Card>, after: seq<Card>, a: Attribute, value: Value)
    requires Growth(before, after)
    ensures Tally(before, a, value) <= Tally(after, a, value) && Total(before, a) <= Total(after, a)
  {
    if before != [] {
      var j := Peel(before, after);
      CountsSplit(after, j, a, value);
      CountsGrow(before[1..], after[..j] + after[j + 1..], a, value);
    }
  }

  // The share a value has in a listing: nothing for one it does not show.
  lemma DistributionShare(cards: seq<Card>, a: Attribute, value: Value)
    ensures (if value in Distribution(cards, a) then Distribution(cards, a)[value] else 0.0) == Share(cards, a, value)
    ensures value in Distribution(cards, a) <==> Tally(cards, a, value) > 0
  {
    ValuesCounted(cards, a, value);
    if Tally(cards, a, value) == 0 {
      NoPart(Total(cards, a));
    }
  }

  lemma NoPart(total: nat)
    ensures Part(0, total) == 0.0
  {}

  lemma ShareBounds(t: nat, u: nat, n: nat, m: nat)
    requires 1 <= n && 1 <= m <= 4 * n && t <= u && t as real / n as real >= SIGNIFICANT_SHARE
    ensures u as real / m as real >= BAND_FLOOR
  {
    QuotientAtLeast(t as real, n as real, SIGNIFICANT_SHARE);
    QuotientAtLeast(u as real, m as real, BAND_FLOOR);
    var x, y := n as real, m as real;
    assert y <= 4.0 * x;
    assert u as real >= t as real;
  }

  lemma GrowthInBand(before: seq<Card>, after: seq<Card>, a: Attribute)
    requires Growth(before, after) && Total(after, a) <= 4 * AtLeastOne(Total(before, a))
    ensures InBand(Distribution(before, a), Distribution(after, a))
  {
    var old', new' := Distribution(before, a), Distribution(after, a);
    forall value | value in old' && old'[value] >= SIGNIFICANT_SHARE
      ensures (if value in new' then new'[value] else 0.0) >= BAND_FLOOR
    {
      DistributionShare(before, a, value);
      DistributionShare(after, a, value);
      CountsGrow(before, after, a, value);
      ShareBounds(Tally(before, a, value), Tally(after, a, value),
                  AtLeastOne(Total(before, a)), AtLeastOne(Total(after, a)));
    }
  }

  // A catalog that grows up to fourfold in cards and in style tags never trips the verdict.
  lemma GrowthIsHealthy(before: Listing, after: Listing, signature: Option<Signature>)
    requires !Unusable(before) && !Unusable(after) && Growth(before.cards, after.cards)
    requires Total(after.cards, ByForm) <= 4 * Total(before.cards, ByForm)
    requires Total(after.cards, ByStyle) <= 4 * AtLeastOne(Total(before.cards, ByStyle))
    ensures Verdict(after, Some(UpdateSignature(signature, before))).Healthy?
  {
    GrowthInBand(before.cards, after.cards, ByForm);
    GrowthInBand(before.cards, after.cards, ByStyle);
    SizeGrows(before.cards, after.cards);
  }

  lemma SizeGrows(before: seq<Card>, after: seq<Card>)
    requires Growth(before, after)
    ensures |before| <= |after|
  {
    assert |multiset(before)| == |before| && |multiset(after)| == |after|;
    var more := multiset(after) - multiset(before);
    assert multiset(after) == multiset(before) + more;
  }

  // ---- Exactly which growth is safe ----

  ghost predicate Significant(cards: seq<Card>, a: Attribute, value: Value) {
    Share(cards, a, value) >= SIGNIFICANT_SHARE
  }

  // All values are still in band exactly when each significant one still has a twentieth.
  lemma InBandIff(before: seq<Card>, after: seq<Card>, a: Attribute)
    requires Growth(before, after)
    ensures InBand(Distribution(before, a), Distribution(after, a)) <==>
      forall value :: Significant(before, a, value) ==> Total(after, a) <= 20 * Tally(after, a, value)
  {
    var expected, actual := Distribution(before, a), Distribution(after, a);
    forall value ensures Significant(before, a, value) ==>
      value in expected && (LeftBand(expected, actual, value) <==> Total(after, a) > 20 * Tally(after, a, value))
    {
      if Significant(before, a, value) {
        DistributionShare(before, a, value);
        DistributionShare(after, a, value);
        CountsGrow(before, after, a, value);
        TwentiethIff(Tally(after, a, value), Total(after, a));
      }
    }
    forall value | value in expected && !Significant(before, a, value) ensures !LeftBand(expected, actual, value) {
      DistributionShare(before, a, value);
    }
  }

  lemma TwentiethIff(t: nat, m: nat)
    ensures t > 0 ==> (Part(t, m) < BAND_FLOOR <==> m > 20 * t)
  {
    var n := AtLeastOne(m);
    QuotientAtLeast(t as real, n as real, BAND_FLOOR);
    assert (20 * t) as real == 20.0 * t as real;
  }

  // Against the signature of the listing it grew from, only a band can trip a usable listing.
  lemma GrownVerdictIff(before: Listing, after: Listing, signature: Option<Signature>)
    requires !Unusable(before) && !Unusable(after) && Growth(before.cards, after.cards)
    ensures Verdict(after, Some(UpdateSignature(signature, before))).Healthy? <==>
      && InBand(Distribution(before.cards, ByForm), Distribution(after.cards, ByForm))
      && InBand(Distribution(before.cards, ByStyle), Distribution(after.cards, ByStyle))
  {
    SizeGrows(before.cards, after.cards);
  }

  lemma {:induction false} FormTotal(cards: seq<Card>)
    ensures Total(cards, ByForm) == |cards|
  {
    if cards != [] {
      FormTotal(cards[1..]);
    }
  }

  // A card has at most two tags besides any one style, so more tags than that must repeat it.
  ghost function Slack(cards: seq<Card>, style: Style): int {
    2 * |cards| - Total(cards, ByStyle) + Tally(cards, ByStyle, StyleOf(style))
  }

  lemma SlackSplit(cards: seq<Card>, j: nat, style: Style)
    requires j < |cards|
    ensures Slack(cards, style) == Slack(cards[..j] + cards[j + 1..], style) + CardSlack(cards[j], style)
  {
    CountsSplit(cards, j, ByStyle, StyleOf(style));
  }

  function CardSlack(card: Card, style: Style): nat {
    2 - Number(card, ByStyle) + Carries(card, ByStyle, StyleOf(style))
  }

  lemma {:induction false} SlackNonnegative(cards: seq<Card>, style: Style)
    ensures Slack(cards, style) >= 0
  {
    if cards != [] {
      assert Slack(cards, style) == Slack(cards[1..], style) + CardSlack(cards[0], style);
      SlackNonnegative(cards[1..], style);
    }
  }

  lemma {:induction false} SlackGrows(before: seq<Card>, after: seq<Card>, style: Style)
    requires Growth(before, after)
    ensures Slack(before, style) <= Slack(after, style)
  {
    if before == [] {
      SlackNonnegative(after, style);
    } else {
      var j := Peel(before, after);
      assert Slack(before, style) == Slack(before[1..], style) + CardSlack(before[0], style);
      SlackSplit(after, j, style);
      SlackGrows(before[1..], after[..j] + after[j + 1..], style);
    }
  }

  // How often `count` new cards with `tags` tags cannot avoid a style.
  function Forced(count: nat, tags: nat): nat {
    if tags > 2 * count then tags - 2 * count else 0
  }

  // Up to two tags avoid the style; three are all there are.
  function Tagged(form: Form, tags: nat, avoided: Style): Card
    requires tags <= 3
  {
    var styles :=
      match avoided
      case Anime => Styles(tags == 3, tags >= 1, tags >= 2)
      case Cartoon => Styles(tags >= 1, tags == 3, tags >= 2)
      case Dorama => Styles(tags >= 1, tags >= 2, tags == 3);
    Card(true, true, form, styles)
  }

  function Repeat(card: Card, n: nat): (cards: seq<Card>)
    ensures |cards| == n
  {
    if n == 0 then [] else [card] + Repeat(card, n - 1)
  }

  lemma {:induction false} RepeatCounts(card: Card, n: nat, a: Attribute, value: Value)
    ensures Total(Repeat(card, n), a) == n * Number(card, a)
    ensures Tally(Repeat(card, n), a, value) == n * Carries(card, a, value)
  {
    if n > 0 {
      RepeatCounts(card, n - 1, a, value);
      assert Repeat(card, n)[1..] == Repeat(card, n - 1);
      OneMore(n, Number(card, a));
      OneMore(n, Carries(card, a, value));
    }
  }

  lemma OneMore(n: nat, k: nat)
    requires n > 0
    ensures n * k == k + (n - 1) * k
  {}

  lemma {:induction false} RepeatFields(card: Card, n: nat)
    requires card.titled && card.linked
    ensures FieldsOk(Repeat(card, n))
  {
    if n > 0 {
      RepeatFields(card, n - 1);
    }
  }

  // New cards of one form with this many tags, which avoid the style where they can.
  function More(form: Form, count: nat, tags: nat, avoided: Style): (cards: seq<Card>)
    requires tags <= 3 * count
    ensures |cards| == count
  {
    var threes := Forced(count, tags);
    var twos := if threes > 0 then count - threes else tags / 2;
    var ones := if threes > 0 then 0 else tags % 2;
    Repeat(Tagged(form, 3, avoided), threes) + (Repeat(Tagged(form, 2, avoided), twos)
      + (Repeat(Tagged(form, 1, avoided), ones) + Repeat(Tagged(form, 0, avoided), count - threes - twos - ones)))
  }

  lemma FourParts(w: seq<Card>, x: seq<Card>, y: seq<Card>, z: seq<Card>, a: Attribute, value: Value)
    ensures Total(w + (x + (y + z)), a) == Total(w, a) + Total(x, a) + Total(y, a) + Total(z, a)
    ensures Tally(w + (x + (y + z)), a, value) ==
      Tally(w, a, value) + Tally(x, a, value) + Tally(y, a, value) + Tally(z, a, value)
  {
    CountsConcat(w, x + (y + z), a, value);
    CountsConcat(x, y + z, a, value);
    CountsConcat(y, z, a, value);
  }

  // The counts of such cards, one kind after the other.
  lemma MoreCounts(form: Form, count: nat, tags: nat, avoided: Style, a: Attribute, value: Value)
    requires tags <= 3 * count
    ensures a.ByStyle? && value == StyleOf(avoided) ==>
      && Total(More(form, count, tags, avoided), a) == tags
      && Tally(More(form, count, tags, avoided), a, value) == Forced(count, tags)
    ensures a.ByForm? && value.FormOf? && value.form != form ==> Tally(More(form, count, tags, avoided), a, value) == 0
    ensures FieldsOk(More(form, count, tags, avoided))
  {
    var threes := Forced(count, tags);
    var twos := if threes > 0 then count - threes else tags / 2;
    var ones := if threes > 0 then 0 else tags % 2;
    var none := count - threes - twos - ones;
    OneKind(form, 3, avoided, threes, a, value);
    OneKind(form, 2, avoided, twos, a, value);
    OneKind(form, 1, avoided, ones, a, value);
    OneKind(form, 0, avoided, none, a, value);
    FourParts(Repeat(Tagged(form, 3, avoided), threes), Repeat(Tagged(form, 2, avoided), twos),
              Repeat(Tagged(form, 1, avoided), ones), Repeat(Tagged(form, 0, avoided), none), a, value);
  }

  lemma OneKind(form: Form, tags: nat, avoided: Style, n: nat, a: Attribute, value: Value)
    requires tags <= 3
    ensures var cards := Repeat(Tagged(form, tags, avoided), n);
      && (a.ByStyle? && value == StyleOf(avoided) ==>
          Total(cards, a) == n * tags && Tally(cards, a, value) == if tags == 3 then n else 0)
      && (a.ByForm? && value.FormOf? && value.form != form ==> Tally(cards, a, value) == 0)
      && FieldsOk(cards)
  {
    var card := Tagged(form, tags, avoided);
    TaggedCounts(form, tags, avoided);
    RepeatCounts(card, n, a, value);
    RepeatFields(card, n);
  }

  lemma TaggedCounts(form: Form, tags: nat, avoided: Style)
    requires tags <= 3
    ensures Number(Tagged(form, tags, avoided), ByStyle) == tags
    ensures Carries(Tagged(form, tags, avoided), ByStyle, StyleOf(avoided)) == if tags == 3 then 1 else 0
  {}

  lemma Grown(before: seq<Card>, more: seq<Card>, a: Attribute, value: Value)
    ensures Growth(before, before + more) && Total(before + more, a) == Total(before, a) + Total(more, a)
    ensures Tally(before + more, a, value) == Tally(before, a, value) + Tally(more, a, value)
  {
    CountsConcat(before, more, a, value);
  }

  ghost predicate GrownTo(before: seq<Card>, after: Listing, size: nat, tags: nat) {
    !Unusable(after) && Growth(before, after.cards) && |after.cards| == size && Total(after.cards, ByStyle) == tags
  }

  ghost predicate StaysHealthy(before: Listing, signature: Option<Signature>, after: Listing, size: nat, tags: nat) {
    GrownTo(before.cards, after, size, tags) ==> Verdict(after, Some(UpdateSignature(signature, before))).Healthy?
  }

  ghost predicate AlwaysHealthy(before: Listing, signature: Option<Signature>, size: nat, tags: nat) {
    forall after: Listing :: StaysHealthy(before, signature, after, size, tags)
  }

  // What no growth to `size` cards with `tags` tags can break: no significant form may be
  // outgrown twentyfold, nor any significant style, counting the tags that must repeat it.
  ghost predicate Roomy(before: seq<Card>, size: nat, tags: nat)
    requires |before| <= size && Total(before, ByStyle) <= tags
  {
    && (forall form :: Significant(before, ByForm, FormOf(form)) ==> size <= 20 * Tally(before, ByForm, FormOf(form)))
    && (forall style :: Significant(before, ByStyle, StyleOf(style)) ==>
          tags <= 20 * (Tally(before, ByStyle, StyleOf(style))
            + Forced(size - |before|, tags - Total(before, ByStyle))))
  }

  // The documentation says a growing catalog never trips the verdict. For every usable listing
  // and every size and number of tags it can grow to: no growth trips exactly if it is roomy.
  lemma GrowthSafeIff(before: Listing, signature: Option<Signature>, size: nat, tags: nat)
    requires !Unusable(before) && |before.cards| <= size
    requires Total(before.cards, ByStyle) <= tags <= Total(before.cards, ByStyle) + 3 * (size - |before.cards|)
    ensures AlwaysHealthy(before, signature, size, tags) <==> Roomy(before.cards, size, tags)
  {
    if Roomy(before.cards, size, tags) {
      forall after: Listing ensures StaysHealthy(before, signature, after, size, tags) {
        if GrownTo(before.cards, after, size, tags) {
          RoomyIsSafe(before, after, signature, size, tags);
        }
      }
    } else if form :|
      && Significant(before.cards, ByForm, FormOf(form))
      && size > 20 * Tally(before.cards, ByForm, FormOf(form))
    {
      var after := FormOutgrown(before, signature, size, tags, form);
      assert !StaysHealthy(before, signature, after, size, tags);
    } else {
      var style :| Significant(before.cards, ByStyle, StyleOf(style))
        && tags > 20 * (Tally(before.cards, ByStyle, StyleOf(style))
          + Forced(size - |before.cards|, tags - Total(before.cards, ByStyle)));
      var after := StyleOutgrown(before, signature, size, tags, style);
      assert !StaysHealthy(before, signature, after, size, tags);
    }
  }

  lemma RoomyIsSafe(before: Listing, after: Listing, signature: Option<Signature>, size: nat, tags: nat)
    requires !Unusable(before) && GrownTo(before.cards, after, size, tags)
    requires |before.cards| <= size && Total(before.cards, ByStyle) <= tags && Roomy(before.cards, size, tags)
    ensures Verdict(after, Some(UpdateSignature(signature, before))).Healthy?
  {
    RoomyForms(before.cards, after.cards);
    RoomyStyles(before.cards, after.cards);
    GrownVerdictIff(before, after, signature);
  }

  lemma RoomyForms(before: seq<Card>, after: seq<Card>)
    requires Growth(before, after)
    requires forall form :: Significant(before, ByForm, FormOf(form)) ==>
      |after| <= 20 * Tally(before, ByForm, FormOf(form))
    ensures InBand(Distribution(before, ByForm), Distribution(after, ByForm))
  {
    FormTotal(after);
    forall value | Significant(before, ByForm, value) ensures Total(after, ByForm) <= 20 * Tally(after, ByForm, value) {
      SignificantShows(before, ByForm, value);
      CountsGrow(before, after, ByForm, value);
    }
    InBandIff(before, after, ByForm);
  }

  lemma RoomyStyles(before: seq<Card>, after: seq<Card>)
    requires Growth(before, after) && |before| <= |after| && Total(before, ByStyle) <= Total(after, ByStyle)
    requires forall style :: Significant(before, ByStyle, StyleOf(style)) ==>
      Total(after, ByStyle) <= 20 * (Tally(before, ByStyle, StyleOf(style))
        + Forced(|after| - |before|, Total(after, ByStyle) - Total(before, ByStyle)))
    ensures InBand(Distribution(before, ByStyle), Distribution(after, ByStyle))
  {
    forall value | Significant(before, ByStyle, value)
      ensures Total(after, ByStyle) <= 20 * Tally(after, ByStyle, value)
    {
      SignificantShows(before, ByStyle, value);
      TallyForced(before, after, value.style);
    }
    InBandIff(before, after, ByStyle);
  }

  // A style occurs at least as often as before, and as often as the new tags force.
  lemma TallyForced(before: seq<Card>, after: seq<Card>, style: Style)
    requires Growth(before, after) && |before| <= |after| && Total(before, ByStyle) <= Total(after, ByStyle)
    ensures Tally(after, ByStyle, StyleOf(style)) >=
      Tally(before, ByStyle, StyleOf(style))
        + Forced(|after| - |before|, Total(after, ByStyle) - Total(before, ByStyle))
  {
    CountsGrow(before, after, ByStyle, StyleOf(style));
    SlackGrows(before, after, style);
  }

  // A significant value is one the attribute takes, and occurs.
  lemma SignificantShows(cards: seq<Card>, a: Attribute, value: Value)
    requires Significant(cards, a, value)
    ensures Tally(cards, a, value) > 0 && value.FormOf? == a.ByForm?
  {
    OtherKind(cards, a, value);
  }

  lemma {:induction false} OtherKind(cards: seq<Card>, a: Attribute, value: Value)
    ensures value.FormOf? != a.ByForm? ==> Tally(cards, a, value) == 0
  {
    if cards != [] {
      OtherKind(cards[1..], a, value);
    }
  }

  lemma UsableGrown(before: Listing, more: seq<Card>)
    requires !Unusable(before) && FieldsOk(more)
    ensures !Unusable(Listing(true, before.cards + more))
  {}

  lemma Outgrown(before: Listing, more: seq<Card>, signature: Option<Signature>, a: Attribute, value: Value)
    returns (after: Listing)
    requires !Unusable(before) && FieldsOk(more) && Significant(before.cards, a, value)
    requires Total(before.cards, a) + Total(more, a) > 20 * (Tally(before.cards, a, value) + Tally(more, a, value))
    ensures after == Listing(true, before.cards + more) && Trips(before, signature, after)
    ensures GrownTo(before.cards, after, |before.cards| + |more|, Total(before.cards, ByStyle) + Total(more, ByStyle))
  {
    after := Listing(true, before.cards + more);
    Grown(before.cards, more, a, value);
    Grown(before.cards, more, ByStyle, value);
    UsableGrown(before, more);
    InBandIff(before.cards, after.cards, a);
    GrownVerdictIff(before, after, signature);
  }

  ghost predicate Trips(before: Listing, signature: Option<Signature>, after: Listing) {
    Verdict(after, Some(UpdateSignature(signature, before))).Shape?
  }

  lemma FormOutgrown(before: Listing, signature: Option<Signature>, size: nat, tags: nat, form: Form)
    returns (after: Listing)
    requires !Unusable(before) && |before.cards| <= size
    requires Total(before.cards, ByStyle) <= tags <= Total(before.cards, ByStyle) + 3 * (size - |before.cards|)
    requires Significant(before.cards, ByForm, FormOf(form)) && size > 20 * Tally(before.cards, ByForm, FormOf(form))
    ensures GrownTo(before.cards, after, size, tags) && Trips(before, signature, after)
  {
    var other := if form.Movie? then Series else Movie;
    var count, extra := size - |before.cards|, tags - Total(before.cards, ByStyle);
    var more := More(other, count, extra, Anime);
    MoreCounts(other, count, extra, Anime, ByStyle, StyleOf(Anime));
    MoreCounts(other, count, extra, Anime, ByForm, FormOf(form));
    FormTotal(before.cards);
    FormTotal(more);
    after := Outgrown(before, more, signature, ByForm, FormOf(form));
  }

  lemma StyleOutgrown(before: Listing, signature: Option<Signature>, size: nat, tags: nat, style: Style)
    returns (after: Listing)
    requires !Unusable(before) && |before.cards| <= size
    requires Total(before.cards, ByStyle) <= tags <= Total(before.cards, ByStyle) + 3 * (size - |before.cards|)
    requires Significant(before.cards, ByStyle, StyleOf(style))
    requires tags > 20 * (Tally(before.cards, ByStyle, StyleOf(style))
      + Forced(size - |before.cards|, tags - Total(before.cards, ByStyle)))
    ensures GrownTo(before.cards, after, size, tags) && Trips(before, signature, after)
  {
    var count, extra := size - |before.cards|, tags - Total(before.cards, ByStyle);
    MoreCounts(Movie, count, extra, style, ByStyle, StyleOf(style));
    after := Outgrown(before, More(Movie, count, extra, style), signature, ByStyle, StyleOf(style));
  }

  const MOVIE := Card(true, true, Movie, Styles(false, false, false))
  const ANIME := Card(true, true, Movie, Styles(true, false, false))
  const CARTOON := Card(true, true, Movie, Styles(false, true, false))

  // Two movies, one of them anime, and any twenty cartoons or more on top: the anime has
  // vanished from the distribution, and the healthy listing trips.
  lemma GrowthTrips(n: nat)
    requires n >= 20
    ensures var before, after := Listing(true, [ANIME, MOVIE]), Listing(true, [ANIME, MOVIE] + Repeat(CARTOON, n));
      && !Unusable(before) && !Unusable(after) && Growth(before.cards, after.cards)
      && Verdict(after, Some(UpdateSignature(None, before))).Shape?
  {
    var before := Listing(true, [ANIME, MOVIE]);
    AnimeShare();
    RepeatCounts(CARTOON, n, ByStyle, StyleOf(Anime));
    RepeatFields(CARTOON, n);
    var after := Outgrown(before, Repeat(CARTOON, n), None, ByStyle, StyleOf(Anime));
  }

  lemma AnimeShare()
    ensures Total([ANIME, MOVIE], ByStyle) == Tally([ANIME, MOVIE], ByStyle, StyleOf(Anime)) == 1
    ensures Significant([ANIME, MOVIE], ByStyle, StyleOf(Anime))
  {
    var cards := [ANIME, MOVIE];
    assert cards[1..] == [MOVIE] && cards[1..][1..] == [];
    assert Total(cards[1..], ByStyle) == Tally(cards[1..], ByStyle, StyleOf(Anime)) == 0;
    assert Total(cards, ByStyle) == Tally(cards, ByStyle, StyleOf(Anime)) == 1;
  }
}
