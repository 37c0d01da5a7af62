// crawl_guard.py ProviderGuard: stand down from a provider that keeps answering 403.
module CrawlGuard {
  import opened Wrappers
  import opened Dates
  import opened Lex
  import opened VersionedStore

  datatype Verdict = Ok | Forbidden | Other

  // Dates are kept as ISO strings.
  datatype Entry = Entry(nights: nat, skipUntil: Option<string>, lastCounted: Option<string>)

  datatype SkipInfo = SkipInfo(nights: nat, retryAfter: string)

  type Entries = map<string, Entry>

  // A block threshold of 0 disables the breaker.
  datatype Config = Config(blockAfter: nat, cooldownDays: nat)

  function Until(day: Date, c: Config): string
    requires Real(day)
  {
    Iso(AddDays(day, c.cooldownDays))
  }

  function Counted(entry: Entry, day: Date): Entry {
    if entry.lastCounted == Some(Iso(day)) then entry
    else entry.(nights := entry.nights + 1, lastCounted := Some(Iso(day)))
  }

  function Recorded(entries: Entries, c: Config, id: string, verdict: Verdict, day: Date): Entries
    requires Real(day)
  {
    var entry := if id in entries then entries[id] else Entry(0, None, None);
    if c.blockAfter == 0 then entries
    else
      match verdict
      case Ok => entries - {id}
      case Other => entries[id := entry.(nights := 0, lastCounted := None)]
      case Forbidden =>
        var counted := Counted(entry, day);
        entries[id := if counted.nights >= c.blockAfter then counted.(skipUntil := Some(Until(day, c))) else counted]
  }

  function Blocked(entries: Entries, c: Config, id: string, today: Date): Option<SkipInfo> {
    if c.blockAfter == 0 || id !in entries then None
    else
      match entries[id].skipUntil
      case None => None
      case Some(until) =>
        if until == "" || Le(until, Iso(today)) then None else Some(SkipInfo(entries[id].nights, until))
  }

  // ---- The state file ----

  function Text(x: Option<string>): Json {
    if x.Some? then Str(x.value) else Null
  }

  function TextOf(j: Json): Option<string> {
    if j.Str? then Some(j.text) else None
  }

  function Count(j: Json): nat {
    match j
    case Int(i) => if i >= 0 then i else 0
    case Bool(b) => if b then 1 else 0
    case _ => 0
  }

  function EncodeEntry(e: Entry): Json {
    Obj(map["nights" := Int(e.nights), "skip_until" := Text(e.skipUntil), "last_counted" := Text(e.lastCounted)])
  }

  function SavedFile(entries: Entries): File {
    Document(Obj(map["version" := Int(1), "providers" := Obj(map id | id in entries :: EncodeEntry(entries[id]))]))
  }

  function DecodeEntry(fields: map<string, Json>): Entry {
    Entry(Count(Get(fields, "nights")), TextOf(Get(fields, "skip_until")), TextOf(Get(fields, "last_counted")))
  }

  // Anything but a document with a providers map starts clean; entries that are no map are skipped.
  function LoadedFile(file: File): Entries {
    if file.Document? && file.doc.Obj? && Get(file.doc.fields, "providers").Obj? then
      var providers := Get(file.doc.fields, "providers").fields;
      map id | id in providers && providers[id].Obj? :: DecodeEntry(providers[id].fields)
    else map[]
  }

  lemma SaveLoad(entries: Entries)
    ensures LoadedFile(SavedFile(entries)) == entries
  {
    forall id | id in entries ensures DecodeEntry(EncodeEntry(entries[id]).fields) == entries[id] {}
  }

  // ---- The guard ----

  class ProviderGuard {
    const config: Config
    var entries: Entries
    var file: File

    // Every ValueError is caught; RecursionError is not, and then there is no guard.
    constructor (blockAfter: int, cooldownDays: int, file: File)
      requires !file.TooDeep?
      ensures config == Config(if blockAfter > 0 then blockAfter else 0, if cooldownDays > 1 then cooldownDays else 1)
      ensures entries == LoadedFile(file) && this.file == file
    {
      config := Config(if blockAfter > 0 then blockAfter else 0, if cooldownDays > 1 then cooldownDays else 1);
      this.file := file;
      entries := LoadedFile(file);
    }

    method IsBlocked(id: string, today: Date) returns (info: Option<SkipInfo>)
      ensures info == Blocked(entries, config, id, today)
    {
      if config.blockAfter == 0 || id !in entries || entries[id].skipUntil.None? || entries[id].skipUntil.value == "" {
        return None;
      }
      var until := entries[id].skipUntil.value;
      if Le(until, Iso(today)) {
        return None;
      }
      info := Some(SkipInfo(entries[id].nights, until));
    }

    // Says when the report trips the breaker, and until when.
    method Record(id: string, verdict: Verdict, day: Date) returns (tripped: Option<SkipInfo>)
      requires Real(day)
      modifies this`entries
      ensures entries == Recorded(old(entries), config, id, verdict, day)
      ensures tripped.Some? <==> config.blockAfter > 0 && verdict.Forbidden? && entries[id].nights >= config.blockAfter
      ensures tripped.Some? ==>
        && tripped.value == SkipInfo(entries[id].nights, Until(day, config))
        && entries[id].skipUntil == Some(Until(day, config))
    {
      tripped := None;
      if config.blockAfter == 0 {
        return;
      }
      if id !in entries {
        entries := entries[id := Entry(0, None, None)];
      }
      match verdict {
        case Ok =>
          entries := entries - {id};
        case Other =>
          entries := entries[id := entries[id].(nights := 0, lastCounted := None)];
        case Forbidden =>
          if entries[id].lastCounted != Some(Iso(day)) {
            entries := entries[id := entries[id].(nights := entries[id].nights + 1, lastCounted := Some(Iso(day)))];
          }
          if entries[id].nights >= config.blockAfter {
            entries := entries[id := entries[id].(skipUntil := Some(Until(day, config)))];
            tripped := Some(SkipInfo(entries[id].nights, Until(day, config)));
          }
      }
    }

    // The selection, split into what to walk and what to skip, each in its order.
    method Partition(ids: seq<string>, today: Date) returns (active: seq<string>, skipped: seq<(string, SkipInfo)>)
      ensures active == Active(entries, config, ids, today)
      ensures skipped == Skipped(entries, config, ids, today)
    {
      active, skipped := [], [];
      var i := 0;
      while i < |ids|
        invariant 0 <= i <= |ids|
        invariant active == Active(entries, config, ids[..i], today)
        invariant skipped == Skipped(entries, config, ids[..i], today)
      {
        assert ids[..i + 1][..i] == ids[..i];
        var info := IsBlocked(ids[i], today);
        if info.None? {
          active := active + [ids[i]];
        } else {
          skipped := skipped + [(ids[i], info.value)];
        }
        i := i + 1;
      }
      assert ids[..i] == ids;
    }

    method Save()
      modifies this`file
      ensures LoadedFile(file) == entries
    {
      SaveLoad(entries);
      file := SavedFile(entries);
    }
  }

  function Active(entries: Entries, c: Config, ids: seq<string>, today: Date): seq<string> {
    if ids == [] then []
    else
      var last := ids[|ids| - 1];
      Active(entries, c, ids[..|ids| - 1], today) + if Blocked(entries, c, last, today).None? then [last] else []
  }

  function Skipped(entries: Entries, c: Config, ids: seq<string>, today: Date): seq<(string, SkipInfo)> {
    if ids == [] then []
    else
      var last := ids[|ids| - 1];
      var info := Blocked(entries, c, last, today);
      Skipped(entries, c, ids[..|ids| - 1], today) + if info.Some? then [(last, info.value)] else []
  }

  // `out` are the ones of the selection that `pick` picks, in order.
  ghost predicate Picks(ids: seq<string>, pick: string -> bool, out: seq<string>, at: seq<nat>) {
    && |at| == |out| && (forall a, b :: 0 <= a < b < |at| ==> at[a] < at[b])
    && (forall a :: 0 <= a < |at| ==> at[a] < |ids| && out[a] == ids[at[a]])
    && (forall i :: 0 <= i < |ids| ==> (i in at <==> pick(ids[i])))
  }

  function Names(skipped: seq<(string, SkipInfo)>): seq<string> {
    seq(|skipped|, i requires 0 <= i < |skipped| => skipped[i].0)
  }

  lemma PlacesSnoc(at: seq<nat>, n: nat)
    ensures forall i :: i in at + [n] <==> i in at || i == n
    ensures forall a :: 0 <= a < |at| ==> at[a] in at
  {}

  lemma PicksSnoc(ids: seq<string>, last: string, all: seq<string>, pick: string -> bool, out: seq<string>,
      at: seq<nat>)
    returns (at': seq<nat>)
    requires all == ids + [last] && Picks(ids, pick, out, at)
    ensures Picks(all, pick, if pick(last) then out + [last] else out, at')
  {
    PlacesSnoc(at, |ids|);
    at' := if pick(last) then at + [|ids|] else at;
    forall i | 0 <= i < |all| ensures i in at' <==> pick(all[i]) {
      assert i < |ids| ==> all[i] == ids[i];
    }
  }

  ghost function Walked(entries: Entries, c: Config, today: Date): string -> bool {
    id => Blocked(entries, c, id, today).None?
  }

  ghost function Stood(entries: Entries, c: Config, today: Date): string -> bool {
    id => Blocked(entries, c, id, today).Some?
  }

  // The selection falls apart into the providers that are not blocked and the ones that are,
  // each in its order, the latter with what blocks them.
  lemma {:induction false} PartitionIs(entries: Entries, c: Config, ids: seq<string>, today: Date)
    returns (at: seq<nat>, skip: seq<nat>)
    ensures Picks(ids, Walked(entries, c, today), Active(entries, c, ids, today), at)
    ensures Picks(ids, Stood(entries, c, today), Names(Skipped(entries, c, ids, today)), skip)
    ensures forall pair :: pair in Skipped(entries, c, ids, today) ==>
      Blocked(entries, c, pair.0, today) == Some(pair.1)
  {
    at, skip := [], [];
    if ids != [] {
      var n := |ids| - 1;
      assert ids == ids[..n] + [ids[n]];
      at, skip := PartitionIs(entries, c, ids[..n], today);
      at := PicksSnoc(ids[..n], ids[n], ids, Walked(entries, c, today), Active(entries, c, ids[..n], today), at);
      var front := Skipped(entries, c, ids[..n], today);
      NamesSnoc(front, ids[n], Blocked(entries, c, ids[n], today));
      skip := PicksSnoc(ids[..n], ids[n], ids, Stood(entries, c, today), Names(front), skip);
    }
  }

  lemma NamesSnoc(skipped: seq<(string, SkipInfo)>, id: string, info: Option<SkipInfo>)
    ensures Names(skipped + if info.Some? then [(id, info.value)] else []) ==
      if info.Some? then Names(skipped) + [id] else Names(skipped)
    ensures forall pair :: pair in skipped + (if info.Some? then [(id, info.value)] else []) ==>
      pair in skipped || (info.Some? && pair == (id, info.value))
  {}

  // ---- Runs, and what a provider's history says ----

  datatype Event = Report(id: string, verdict: Verdict, day: Date) | Restart

  datatype Night = Night(verdict: Verdict, day: Date)

  ghost predicate Dated(events: seq<Event>, c: Config) {
    forall i :: 0 <= i < |events| && events[i].Report? ==>
      InRange(events[i].day) && InRange(AddDays(events[i].day, c.cooldownDays))
  }

  // Saving and starting again may come at any point.
  ghost function Replay(events: seq<Event>, c: Config): Entries
    requires Dated(events, c)
  {
    if events == [] then map[]
    else
      var before := Replay(events[..|events| - 1], c);
      match events[|events| - 1]
      case Report(id, verdict, day) => Recorded(before, c, id, verdict, day)
      case Restart => LoadedFile(SavedFile(before))
  }

  ghost function HistoryOf(events: seq<Event>, id: string): seq<Night> {
    if events == [] then []
    else
      var before := HistoryOf(events[..|events| - 1], id);
      var last := events[|events| - 1];
      if last.Report? && last.id == id then before + [Night(last.verdict, last.day)] else before
  }

  ghost predicate InOrder(h: seq<Night>) {
    forall i, j :: 0 <= i < j < |h| ==> NotLater(h[i].day, h[j].day)
  }

  ghost predicate DatedNights(h: seq<Night>, c: Config) {
    forall i :: 0 <= i < |h| ==> InRange(h[i].day) && InRange(AddDays(h[i].day, c.cooldownDays))
  }

  // The days of the run of 403s the history ends with.
  ghost function Streak(h: seq<Night>): seq<Date> {
    if h == [] || !h[|h| - 1].verdict.Forbidden? then []
    else Streak(h[..|h| - 1]) + [h[|h| - 1].day]
  }

  // How many nights: several reports of one day are one night.
  ghost function Nights(h: seq<Night>): nat {
    |Elements(Streak(h))|
  }

  // The i-th report tripped the breaker, and the provider has not answered since.
  ghost predicate Trip(h: seq<Night>, c: Config, i: nat)
    requires i < |h|
  {
    && h[i].verdict.Forbidden? && Nights(h[..i + 1]) >= c.blockAfter
    && forall j :: i < j < |h| ==> !h[j].verdict.Ok?
  }

  ghost function LastTrip(h: seq<Night>, c: Config): Option<Date> {
    if h == [] then None
    else
      var last, before := h[|h| - 1], h[..|h| - 1];
      if last.verdict.Ok? then None
      else if last.verdict.Forbidden? && Nights(h) >= c.blockAfter then Some(last.day)
      else LastTrip(before, c)
  }

  ghost predicate Cleared(h: seq<Night>) {
    h == [] || h[|h| - 1].verdict.Ok?
  }

  // What the guard holds for a provider with this history.
  ghost predicate Reflects(entries: Entries, c: Config, id: string, h: seq<Night>)
    requires DatedNights(h, c)
  {
    && (id in entries <==> !Cleared(h))
    && (id in entries ==>
          && entries[id].nights == Nights(h)
          && entries[id].lastCounted == (if Streak(h) == [] then None else Some(Iso(Streak(h)[|Streak(h)| - 1])))
          && SkipOf(h, c) == entries[id].skipUntil)
  }

  ghost function SkipOf(h: seq<Night>, c: Config): Option<string>
    requires DatedNights(h, c)
  {
    LastTripReal(h, c);
    if LastTrip(h, c).Some? then Some(Until(LastTrip(h, c).value, c)) else None
  }

  lemma {:induction false} LastTripReal(h: seq<Night>, c: Config)
    requires DatedNights(h, c)
    ensures LastTrip(h, c).Some? ==>
      InRange(LastTrip(h, c).value) && InRange(AddDays(LastTrip(h, c).value, c.cooldownDays))
  {
    if h != [] {
      LastTripReal(h[..|h| - 1], c);
    }
  }

  // The trailing run's days are days of the history; the last of them is its last day.
  lemma {:induction false} StreakDays(h: seq<Night>)
    ensures |Streak(h)| <= |h|
    ensures forall d :: d in Streak(h) ==> exists i :: 0 <= i < |h| && h[i].day == d
    ensures Streak(h) != [] ==> Streak(h)[|Streak(h)| - 1] == h[|h| - 1].day
  {
    if h != [] {
      StreakDays(h[..|h| - 1]);
    }
  }

  lemma ElementsSnoc<T>(xs: seq<T>, x: T)
    ensures Elements(xs + [x]) == Elements(xs) + {x}
  {}

  // In order of days, one more 403 is a new night exactly if its day is not the last counted.
  lemma NewNight(h: seq<Night>, n: Night)
    requires n.verdict.Forbidden? && InOrder(h + [n])
    ensures var s := Streak(h);
      && Streak(h + [n]) == s + [n.day]
      && Nights(h + [n]) == if s != [] && s[|s| - 1] == n.day then Nights(h) else Nights(h) + 1
  {
    var s := Streak(h);
    assert (h + [n])[..|h|] == h;
    StreakDays(h);
    ElementsSnoc(s, n.day);
    if s != [] {
      assert s[|s| - 1] in s;
    }
    if n.day in s {
      LastDayAgain(h, n);
      assert Elements(s) + {n.day} == Elements(s);
    } else {
      assert n.day !in Elements(s);
    }
  }

  // Days that come in order repeat only the latest of them.
  lemma LastDayAgain(h: seq<Night>, n: Night)
    requires InOrder(h + [n]) && exists i :: 0 <= i < |h| && h[i].day == n.day
    ensures h[|h| - 1].day == n.day
  {
    var g := h + [n];
    var i :| 0 <= i < |h| && h[i].day == n.day;
    assert g[i].day == n.day && g[|h|].day == n.day;
    if i < |h| - 1 {
      assert NotLater(g[i].day, g[|h| - 1].day);
      assert NotLater(g[|h| - 1].day, g[|h|].day);
    }
  }

  ghost predicate DatedNight(n: Night, c: Config) {
    InRange(n.day) && InRange(AddDays(n.day, c.cooldownDays))
  }

  lemma ReflectsStep(entries: Entries, c: Config, id: string, h: seq<Night>, n: Night)
    requires c.blockAfter > 0 && DatedNight(n, c) && InOrder(h + [n]) && DatedNights(h, c) && DatedNights(h + [n], c)
    requires Reflects(entries, c, id, h)
    ensures Reflects(Recorded(entries, c, id, n.verdict, n.day), c, id, h + [n])
  {
    var g := h + [n];
    assert g[..|h|] == h && g[|h|] == n;
    ClearedHistory(h, c);
    match n.verdict {
      case Ok =>
      case Other =>
        assert Streak(g) == [];
        assert LastTrip(g, c) == LastTrip(h, c);
      case Forbidden =>
        NewNight(h, n);
        StreakDays(h);
        if Streak(h) != [] {
          IsoOrder(Streak(h)[|Streak(h)| - 1], n.day);
        }
    }
  }

  lemma ClearedHistory(h: seq<Night>, c: Config)
    ensures Cleared(h) ==> Streak(h) == [] && LastTrip(h, c) == None && Nights(h) == 0
  {}

  lemma OtherEntry(entries: Entries, c: Config, id: string, h: seq<Night>, other: string, verdict: Verdict, day: Date)
    requires Real(day) && id != other && DatedNights(h, c) && Reflects(entries, c, id, h)
    ensures Reflects(Recorded(entries, c, other, verdict, day), c, id, h)
  {
    var after := Recorded(entries, c, other, verdict, day);
    assert id in after <==> id in entries;
    assert id in entries ==> after[id] == entries[id];
  }

  lemma {:induction false} HistoryDated(events: seq<Event>, c: Config, id: string)
    requires Dated(events, c)
    ensures DatedNights(HistoryOf(events, id), c)
  {
    if events != [] {
      HistoryDated(events[..|events| - 1], c, id);
    }
  }

  // For every run, restarts included, in which this provider's reports come in order of days:
  // the guard counts the distinct days of its current run of 403s, and keeps its last trip.
  lemma {:induction false} ReplayReflects(events: seq<Event>, c: Config, id: string)
    requires c.blockAfter > 0 && Dated(events, c) && InOrder(HistoryOf(events, id))
    requires DatedNights(HistoryOf(events, id), c)
    ensures Reflects(Replay(events, c), c, id, HistoryOf(events, id))
  {
    if events != [] {
      var earlier, last := events[..|events| - 1], events[|events| - 1];
      var h := HistoryOf(earlier, id);
      assert InOrder(h) by {
        var whole := HistoryOf(events, id);
        assert forall i :: 0 <= i < |h| ==> h[i] == whole[i];
      }
      HistoryDated(earlier, c, id);
      ReplayReflects(earlier, c, id);
      match last {
        case Restart => SaveLoad(Replay(earlier, c));
        case Report(other, verdict, day) =>
          if other == id {
            ReflectsStep(Replay(earlier, c), c, id, h, Night(verdict, day));
          } else {
            OtherEntry(Replay(earlier, c), c, id, h, other, verdict, day);
          }
      }
    }
  }

  ghost predicate IsLatest(h: seq<Night>, c: Config, d: Option<Date>) {
    match d
    case None => forall i :: 0 <= i < |h| ==> !Trip(h, c, i)
    case Some(day) =>
      && (exists i :: 0 <= i < |h| && Trip(h, c, i) && h[i].day == day)
      && forall i :: 0 <= i < |h| && Trip(h, c, i) ==> NotLater(h[i].day, day)
  }

  lemma {:induction false} LastTripIsLatest(h: seq<Night>, c: Config)
    requires InOrder(h)
    ensures IsLatest(h, c, LastTrip(h, c))
  {
    if h != [] {
      var before, last := h[..|h| - 1], h[|h| - 1];
      LastTripIsLatest(before, c);
      TripsBefore(h, c);
      if last.verdict.Forbidden? && Nights(h) >= c.blockAfter {
        assert h[..|h|] == h;
        assert Trip(h, c, |h| - 1);
      } else if !last.verdict.Ok? {
        assert !Trip(h, c, |h| - 1) by { assert h[..|h|] == h; }
        LatestStays(h, c, LastTrip(before, c));
      }
    }
  }

  // A report that neither trips nor answers leaves the latest trip the latest.
  lemma LatestStays(h: seq<Night>, c: Config, d: Option<Date>)
    requires h != [] && IsLatest(h[..|h| - 1], c, d)
    requires !h[|h| - 1].verdict.Ok? && !Trip(h, c, |h| - 1)
    ensures IsLatest(h, c, d)
  {
    var before := h[..|h| - 1];
    TripsBefore(h, c);
    if d.Some? {
      var i :| 0 <= i < |before| && Trip(before, c, i) && before[i].day == d.value;
      assert Trip(h, c, i) && h[i].day == d.value;
    }
  }

  // An earlier trip still counts unless the last report is an answer.
  lemma TripsBefore(h: seq<Night>, c: Config)
    requires h != []
    ensures forall i :: 0 <= i < |h| - 1 ==> (Trip(h, c, i) <==> Trip(h[..|h| - 1], c, i) && !h[|h| - 1].verdict.Ok?)
    ensures h[|h| - 1].verdict.Ok? ==> !Trip(h, c, |h| - 1)
  {
    var before := h[..|h| - 1];
    forall i | 0 <= i < |h| - 1 ensures Trip(h, c, i) <==> Trip(before, c, i) && !h[|h| - 1].verdict.Ok? {
      assert before[..i + 1] == h[..i + 1];
      assert forall j :: i < j < |before| ==> before[j] == h[j];
    }
  }

  // A provider is blocked on a day exactly if some report tripped the breaker since it last
  // answered, less than the cooldown before that day.
  lemma BlockedIff(events: seq<Event>, c: Config, id: string, today: Date)
    requires c.blockAfter > 0 && Dated(events, c) && InRange(today) && InOrder(HistoryOf(events, id))
    ensures DatedNights(HistoryOf(events, id), c)
    ensures Blocked(Replay(events, c), c, id, today).Some? <==>
      exists i :: 0 <= i < |HistoryOf(events, id)| && Trip(HistoryOf(events, id), c, i)
                  && Earlier(today, AddDays(HistoryOf(events, id)[i].day, c.cooldownDays))
  {
    var h := HistoryOf(events, id);
    HistoryDated(events, c, id);
    ReplayReflects(events, c, id);
    ClearedHistory(h, c);
    LastTripIsLatest(h, c);
    LastTripReal(h, c);
    var d := LastTrip(h, c);
    if d.Some? {
      var until := AddDays(d.value, c.cooldownDays);
      IsoOrder(until, today);
      forall i | 0 <= i < |h| && Trip(h, c, i) && Earlier(today, AddDays(h[i].day, c.cooldownDays))
        ensures Earlier(today, until)
      {
        AddDaysOrder(h[i].day, d.value, c.cooldownDays);
      }
    }
  }

  // What blocks it are the nights of its current run of 403s, until the cooldown after its
  // latest trip is over.
  lemma BlockedUntil(events: seq<Event>, c: Config, id: string, today: Date)
    requires c.blockAfter > 0 && Dated(events, c) && InRange(today) && InOrder(HistoryOf(events, id))
    ensures DatedNights(HistoryOf(events, id), c)
    ensures var h, info := HistoryOf(events, id), Blocked(Replay(events, c), c, id, today);
      info.Some? ==>
        && info.value.nights == Nights(h)
        && exists i :: 0 <= i < |h| && Trip(h, c, i) && info.value.retryAfter == Until(h[i].day, c)
             && forall j :: 0 <= j < |h| && Trip(h, c, j) ==> NotLater(h[j].day, h[i].day)
  {
    var h := HistoryOf(events, id);
    HistoryDated(events, c, id);
    ReplayReflects(events, c, id);
    ClearedHistory(h, c);
    LastTripIsLatest(h, c);
    LastTripReal(h, c);
  }

  // A threshold of 0 blocks nobody and remembers nothing.
  lemma {:induction false} Disabled(events: seq<Event>, c: Config, id: string, today: Date)
    requires c.blockAfter == 0 && Dated(events, c)
    ensures Replay(events, c) == map[] && Blocked(Replay(events, c), c, id, today) == None
  {
    if events != [] {
      Disabled(events[..|events| - 1], c, id, today);
      SaveLoad(map[]);
    }
  }
}
