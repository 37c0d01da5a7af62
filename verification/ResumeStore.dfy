// resume_store.py over AsyncDebouncedSave: the playback state, its file, and its debounced writes.
module ResumeStore {
  import opened Seqs
  import opened Wrappers
  import opened VersionedStore
  import Lex

  const MAX_QUERIES := 50
  const MAX_ITEMS := 50
  const FINISHED_FRACTION := 0.95

  // A position entry; its numbers are kept as they were read or reported.
  datatype Entry = Entry(position: Json, runtime: Option<Json>, updatedAt: Option<Json>)

  datatype State = State(items: map<string, Entry>, queries: seq<string>, finished: map<string, real>)

  const EMPTY := State(map[], [], map[])

  predicate Number(x: Option<Json>) {
    x.Some? ==> IsNumber(x.value)
  }

  predicate EntryOk(e: Entry) {
    IsInt(e.position) && Value(e.position) > 0.0 && Number(e.runtime) && Number(e.updatedAt)
  }

  ghost predicate StateOk(s: State) {
    (forall k :: k in s.items ==> EntryOk(s.items[k])) && |s.queries| <= MAX_QUERIES
  }

  // ---- Encode and decode ----

  function Numeric(fields: map<string, Json>, key: string): (r: Option<Json>)
    ensures Number(r)
  {
    if key in fields && IsNumber(fields[key]) then Some(fields[key]) else None
  }

  function CleanEntry(raw: Json): (r: Option<Entry>)
    ensures r.Some? ==> EntryOk(r.value)
  {
    if !raw.Obj? then None
    else
      var pos := Get(raw.fields, "position_ticks");
      if !IsInt(pos) || Value(pos) <= 0.0 then None
      else Some(Entry(pos, Numeric(raw.fields, "runtime_ticks"), Numeric(raw.fields, "updated_at")))
  }

  function EncodeEntry(e: Entry): Json {
    Obj(map["position_ticks" := e.position]
        + (if e.runtime.Some? then map["runtime_ticks" := e.runtime.value] else map[])
        + (if e.updatedAt.Some? then map["updated_at" := e.updatedAt.value] else map[]))
  }

  function Strings(xs: seq<Json>): (r: seq<string>) {
    if xs == [] then []
    else if xs[0].Str? then [xs[0].text] + Strings(xs[1..])
    else Strings(xs[1..])
  }

  function CleanItems(raw: map<string, Json>): map<string, Entry> {
    map k | k in raw && CleanEntry(raw[k]).Some? :: CleanEntry(raw[k]).value
  }

  function CleanFinished(raw: map<string, Json>): map<string, real> {
    map k | k in raw && IsNumber(raw[k]) :: Value(raw[k])
  }

  function Decode(data: Json): (r: Option<State>)
    ensures r.Some? ==> StateOk(r.value)
  {
    if !data.Obj? || !Get(data.fields, "items").Obj? then None
    else
      var queries := Get(data.fields, "queries");
      var finished := Get(data.fields, "finished");
      Some(State(CleanItems(Get(data.fields, "items").fields),
                 if queries.Arr? then Front(Strings(queries.elements), MAX_QUERIES) else [],
                 if finished.Obj? then CleanFinished(finished.fields) else map[]))
  }

  // What a file's data is read as: nothing without a map of items. Of those, the objects with a
  // whole positive position, their other fields as far as they are numbers; the strings among
  // the queries, up to 50; the numbers of the history.
  lemma DecodeIs(data: Json)
    ensures Decode(data).Some? <==> data.Obj? && Get(data.fields, "items").Obj?
    ensures Decode(data).Some? ==>
      var raw, items := Get(data.fields, "items").fields, Decode(data).value.items;
      && (forall k :: k in items <==> k in raw && raw[k].Obj? && WholePositive(Get(raw[k].fields, "position_ticks")))
      && (forall k :: k in items ==> ReadFrom(raw[k].fields, items[k]))
    ensures Decode(data).Some? ==>
      var raw, queries := Get(data.fields, "queries"), Decode(data).value.queries;
      && (raw.Arr? ==> queries <= Strings(raw.elements))
      && |queries| == if raw.Arr? then Least(|Strings(raw.elements)|, 50) else 0
    ensures Decode(data).Some? ==>
      var raw, finished := Get(data.fields, "finished"), Decode(data).value.finished;
      && (forall k :: k in finished <==> raw.Obj? && k in raw.fields && IsNumber(raw.fields[k]))
      && (forall k :: k in finished ==> finished[k] == Value(raw.fields[k]))
  {}

  predicate WholePositive(j: Json) {
    IsInt(j) && Value(j) > 0.0
  }

  ghost predicate ReadFrom(fields: map<string, Json>, entry: Entry) {
    && entry.position == Get(fields, "position_ticks")
    && entry.runtime == NumberAt(fields, "runtime_ticks") && entry.updatedAt == NumberAt(fields, "updated_at")
  }

  ghost function NumberAt(fields: map<string, Json>, key: string): Option<Json> {
    if IsNumber(Get(fields, key)) then Some(Get(fields, key)) else None
  }

  // The strings of a list, in their order, and nothing else.
  lemma {:induction false} StringsConcat(xs: seq<Json>, ys: seq<Json>)
    ensures Strings(xs + ys) == Strings(xs) + Strings(ys)
  {
    if xs == [] {
      assert xs + ys == ys;
    } else {
      assert (xs + ys)[1..] == xs[1..] + ys;
      StringsConcat(xs[1..], ys);
    }
  }

  lemma StringsOfOne(x: Json)
    ensures Strings([x]) == if x.Str? then [x.text] else []
  {
    assert [x][1..] == [];
  }

  function EncodeItems(items: map<string, Entry>): map<string, Json> {
    map k | k in items :: EncodeEntry(items[k])
  }

  function EncodeFinished(finished: map<string, real>): map<string, Json> {
    map k | k in finished :: Float(finished[k])
  }

  function EncodeQueries(queries: seq<string>): (r: seq<Json>) {
    if queries == [] then [] else [Str(queries[0])] + EncodeQueries(queries[1..])
  }

  function Encode(s: State): Json {
    Obj(map["items" := Obj(EncodeItems(s.items)), "queries" := Arr(EncodeQueries(s.queries)),
            "finished" := Obj(EncodeFinished(s.finished))])
  }

  lemma CleanEncodedEntry(e: Entry)
    requires EntryOk(e)
    ensures CleanEntry(EncodeEntry(e)) == Some(e)
  {}

  lemma {:induction false} StringsEncoded(queries: seq<string>)
    ensures Strings(EncodeQueries(queries)) == queries
  {
    if queries != [] {
      StringsEncoded(queries[1..]);
    }
  }

  lemma CleanEncodedItems(items: map<string, Entry>)
    requires forall k :: k in items ==> EntryOk(items[k])
    ensures CleanItems(EncodeItems(items)) == items
  {
    forall k | k in items ensures CleanEntry(EncodeItems(items)[k]) == Some(items[k]) {
      CleanEncodedEntry(items[k]);
    }
  }

  lemma CleanEncodedFinished(finished: map<string, real>)
    ensures CleanFinished(EncodeFinished(finished)) == finished
  {}

  // Decoding what was encoded gives the state back: every state decoding or the operations
  // produce is one of these.
  lemma DecodeEncode(s: State)
    requires StateOk(s)
    ensures Decode(Encode(s)) == Some(s)
  {
    CleanEncodedItems(s.items);
    StringsEncoded(s.queries);
    CleanEncodedFinished(s.finished);
    var fields := Encode(s).fields;
    assert Get(fields, "items") == Obj(EncodeItems(s.items));
    assert Get(fields, "queries") == Arr(EncodeQueries(s.queries));
    assert Get(fields, "finished") == Obj(EncodeFinished(s.finished));
  }

  // ---- The file ----

  function FileOf(s: State): File {
    Saved([1], Encode(s))
  }

  // What a process that starts on this file holds: a file that loads without a payload means empty.
  function Restart(file: File): State {
    match Load(file, [1], Decode)
    case Payload(s) => s
    case _ => EMPTY
  }

  lemma RestartOfFile(s: State)
    requires StateOk(s)
    ensures Restart(FileOf(s)) == s
  {
    DecodeEncode(s);
    LoadSaved([1], Encode(s), Decode);
  }

  lemma RestartOk(file: File)
    ensures StateOk(Restart(file))
  {}

  // ---- The operations on the state ----

  // `float(entry.get("updated_at", 0.0))`
  function Stamp(e: Entry): real {
    if e.updatedAt.Some? && IsNumber(e.updatedAt.value) then Value(e.updatedAt.value) else 0.0
  }

  // An entry that was never stamped counts as the oldest.
  lemma StampIs(e: Entry)
    requires EntryOk(e)
    ensures Stamp(e) == if e.updatedAt.None? then 0.0 else Value(e.updatedAt.value)
  {}

  // (stamp, key) at or before (stamp, key), as Python compares tuples.
  predicate Before(s: real, k: string, t: real, l: string) {
    s < t || (s == t && Lex.Le(k, l))
  }

  ghost predicate IsStalest(items: map<string, Entry>, k: string) {
    k in items && forall l :: l in items ==> Before(Stamp(items[k]), k, Stamp(items[l]), l)
  }

  lemma StalestUnique(items: map<string, Entry>, k: string, l: string)
    requires IsStalest(items, k) && IsStalest(items, l)
    ensures k == l
  {
    if Stamp(items[k]) == Stamp(items[l]) {
      Lex.LeAntisymmetric(k, l);
    }
  }

  ghost function Stalest(items: map<string, Entry>): (k: string)
    requires |items| > 0
    ensures IsStalest(items, k)
  {
    StalestExists(items);
    var k :| IsStalest(items, k);
    k
  }

  lemma {:induction false} StalestExists(items: map<string, Entry>)
    requires |items| > 0
    ensures exists k :: IsStalest(items, k)
    decreases |items|
  {
    var x :| x in items;
    var rest := items - {x};
    Lex.LeTotal(x, x);
    if |rest| == 0 {
      assert forall l :: l in items ==> l == x || l in rest;
      assert IsStalest(items, x);
    } else {
      StalestExists(rest);
      var y :| IsStalest(rest, y);
      Lex.LeTotal(x, y);
      if Before(Stamp(items[x]), x, Stamp(items[y]), y) {
        StalerThanAll(items, x, y);
      } else {
        assert forall l :: l in items ==> l == x || l in rest;
        assert IsStalest(items, y);
      }
    }
  }

  lemma StalerThanAll(items: map<string, Entry>, x: string, y: string)
    requires x in items && IsStalest(items - {x}, y) && Before(Stamp(items[x]), x, Stamp(items[y]), y)
    ensures IsStalest(items, x)
  {
    Lex.LeTotal(x, x);
    forall l | l in items ensures Before(Stamp(items[x]), x, Stamp(items[l]), l) {
      if l != x {
        assert l in items - {x};
        if Lex.Le(x, y) && Lex.Le(y, l) {
          Lex.LeTransitive(x, y, l);
        }
      }
    }
  }

  ghost function Capped(items: map<string, Entry>): map<string, Entry> {
    if |items| <= MAX_ITEMS then items else items - {Stalest(items)}
  }

  // The runtime the watched-to-the-end test uses: the report's, else the stored entry's.
  function KnownRuntime(s: State, id: string, runtime: Option<int>): Option<real> {
    if runtime.Some? then Some(runtime.value as real)
    else if id in s.items && s.items[id].runtime.Some? && IsNumber(s.items[id].runtime.value)
    then Some(Value(s.items[id].runtime.value))
    else None
  }

  predicate Finishes(s: State, id: string, position: int, runtime: Option<int>) {
    KnownRuntime(s, id, runtime).Some? && position as real >= FINISHED_FRACTION * KnownRuntime(s, id, runtime).value
  }

  function Updated(s: State, id: string, position: int, runtime: Option<int>, now: real): Entry {
    Entry(Int(position),
          if runtime.Some? then Some(Int(runtime.value)) else if id in s.items then s.items[id].runtime else None,
          Some(Float(now)))
  }

  ghost function Recorded(s: State, id: string, position: int, runtime: Option<int>, now: real): State {
    if position <= 0 then s
    else if Finishes(s, id, position, runtime) then
      State(s.items - {id}, s.queries, s.finished[id := now])
    else s.(items := Capped(s.items[id := Updated(s, id, position, runtime, now)]))
  }

  function Without(xs: seq<string>, x: string): (r: seq<string>)
    ensures |r| <= |xs|
  {
    if xs == [] then [] else if xs[0] == x then Without(xs[1..], x) else [xs[0]] + Without(xs[1..], x)
  }

  function QueryRecorded(s: State, q: string): State {
    if q == "" then s else s.(queries := Front([q] + Without(s.queries, q), MAX_QUERIES))
  }

  lemma RecordedOk(s: State, id: string, position: int, runtime: Option<int>, now: real)
    requires StateOk(s)
    ensures StateOk(Recorded(s, id, position, runtime, now))
  {}

  // A report ends an item exactly if 95 percent of its known runtime is reached: the report's
  // runtime, or failing that the one stored for it.
  lemma FinishesIff(s: State, id: string, position: int, runtime: Option<int>)
    ensures Finishes(s, id, position, runtime) <==>
      if runtime.Some? then 20 * position >= 19 * runtime.value
      else
        && id in s.items && s.items[id].runtime.Some? && IsNumber(s.items[id].runtime.value)
        && 20.0 * position as real >= 19.0 * Value(s.items[id].runtime.value)
  {}

  // What the shelf holds of a reported item: the reported position and time, and the reported
  // runtime or else the one it had.
  ghost predicate Reports(s: State, id: string, position: int, runtime: Option<int>, now: real, entry: Entry) {
    && entry.position == Int(position) && entry.updatedAt == Some(Float(now))
    && (runtime.Some? ==> entry.runtime == Some(Int(runtime.value)))
    && (runtime.None? ==> entry.runtime == if id in s.items then s.items[id].runtime else None)
  }

  // A report without a position changes nothing. One that ends the item moves it to the history
  // and touches nothing else. Any other puts the report on the shelf and touches no other entry,
  // except that a shelf grown over the cap loses its stalest one.
  lemma RecordedIs(s: State, id: string, position: int, runtime: Option<int>, now: real)
    ensures var t := Recorded(s, id, position, runtime, now);
      && (position <= 0 ==> t == s) && t.queries == s.queries
      && (position > 0 && Finishes(s, id, position, runtime) ==>
            t.items == s.items - {id} && t.finished == s.finished[id := now])
      && (position > 0 && !Finishes(s, id, position, runtime) ==>
            && t.finished == s.finished
            && (id in t.items ==> Reports(s, id, position, runtime, now, t.items[id]))
            && (forall other :: other in t.items && other != id ==>
                  other in s.items && t.items[other] == s.items[other])
            && |s.items.Keys + {id}| - |t.items| == (if |s.items.Keys + {id}| > 50 then 1 else 0))
  {
    var grown := s.items[id := Updated(s, id, position, runtime, now)];
    assert grown.Keys == s.items.Keys + {id};
    if |grown| > MAX_ITEMS {
      assert (grown - {Stalest(grown)}).Keys == grown.Keys - {Stalest(grown)};
    }
  }

  // A report leaves the shelf within the cap exactly when it was within, or one over and the
  // report added no entry: only one entry is ever evicted.
  lemma WithinCapIff(s: State, id: string, position: int, runtime: Option<int>, now: real)
    requires position > 0
    ensures |Recorded(s, id, position, runtime, now).items| <= MAX_ITEMS <==>
      |s.items| <= MAX_ITEMS || (|s.items| == MAX_ITEMS + 1 && id in s.items)
  {
    var grown := s.items[id := Updated(s, id, position, runtime, now)];
    assert grown.Keys == s.items.Keys + {id};
    if Finishes(s, id, position, runtime) {
      assert (s.items - {id}).Keys == s.items.Keys - {id};
    } else if |grown| > MAX_ITEMS {
      assert (grown - {Stalest(grown)}).Keys == grown.Keys - {Stalest(grown)};
    }
  }

  // A report on an item not watched to the end stays unless the shelf is full and every other
  // entry is newer (or as new, with a greater key): a clock set back drops the report itself.
  lemma ReportStaysIff(s: State, id: string, position: int, runtime: Option<int>, now: real)
    requires position > 0 && !Finishes(s, id, position, runtime)
    ensures var grown := s.items[id := Updated(s, id, position, runtime, now)];
      && (id in Recorded(s, id, position, runtime, now).items <==>
            |grown| <= MAX_ITEMS || exists l :: l in s.items && l != id && !Before(now, id, Stamp(s.items[l]), l))
      && forall l :: l in Recorded(s, id, position, runtime, now).items ==>
          Recorded(s, id, position, runtime, now).items[l] == grown[l]
  {
    var grown := s.items[id := Updated(s, id, position, runtime, now)];
    Lex.LeTotal(id, id);
    assert Stamp(grown[id]) == now;
    if |grown| > MAX_ITEMS {
      if forall l :: l in s.items && l != id ==> Before(now, id, Stamp(s.items[l]), l) {
        assert IsStalest(grown, id);
        StalestUnique(grown, id, Stalest(grown));
      } else {
        var l :| l in s.items && l != id && !Before(now, id, Stamp(s.items[l]), l);
        assert grown[l] == s.items[l];
        assert !IsStalest(grown, id);
      }
    }
  }

  // ---- A file over the cap, and a clock set back ----

  const SEEN := Entry(Int(60), None, Some(Float(1.0)))

  function Name(n: nat): string {
    if n == 0 then "" else Name(n - 1) + "a"
  }

  function Shelf(n: nat): map<string, Entry> {
    if n == 0 then map[] else Shelf(n - 1)[Name(n) := SEEN]
  }

  lemma {:induction false} NameLength(n: nat)
    ensures |Name(n)| == n
  {
    if n > 0 {
      NameLength(n - 1);
    }
  }

  lemma {:induction false} ShelfSize(n: nat)
    ensures |Shelf(n)| == n
    ensures forall k :: k in Shelf(n) ==> Shelf(n)[k] == SEEN && 1 <= |k| <= n && k[|k| - 1] == 'a'
  {
    if n > 0 {
      ShelfSize(n - 1);
      NameLength(n);
      OneLonger(Shelf(n - 1), Name(n), n);
    }
  }

  lemma OneLonger(items: map<string, Entry>, name: string, n: nat)
    requires |name| == n && forall k :: k in items ==> |k| < n
    ensures |items[name := SEEN]| == |items| + 1
  {
    assert items[name := SEEN].Keys == items.Keys + {name};
  }

  // A file of n entries, two more than the cap or more, is read in full, and after any report
  // the shelf is still over its cap.
  lemma OverCapStays(n: nat, id: string, position: int, runtime: Option<int>, now: real)
    requires n >= MAX_ITEMS + 2 && position > 0
    ensures var s := Restart(FileOf(State(Shelf(n), [], map[])));
      |s.items| == n && |Recorded(s, id, position, runtime, now).items| > MAX_ITEMS
  {
    var s := State(Shelf(n), [], map[]);
    ShelfSize(n);
    RestartOfFile(s);
    WithinCapIff(s, id, position, runtime, now);
  }

  // A full shelf and a report of a new item under a clock set back: the report is gone.
  lemma SetBackDropsReport(n: nat, position: int)
    requires n >= MAX_ITEMS && position > 0
    ensures "new" !in Recorded(State(Shelf(n), [], map[]), "new", position, None, 0.0).items
  {
    ShelfSize(n);
    DroppedWhenOlder(State(Shelf(n), [], map[]), "new", position, 0.0);
  }

  lemma DroppedWhenOlder(s: State, id: string, position: int, now: real)
    requires position > 0 && id !in s.items && |s.items| >= MAX_ITEMS
    requires forall l :: l in s.items ==> now < Stamp(s.items[l])
    ensures id !in Recorded(s, id, position, None, now).items
  {
    var grown := s.items[id := Updated(s, id, position, None, now)];
    assert grown.Keys == s.items.Keys + {id};
    ReportStaysIff(s, id, position, None, now);
  }

  // ---- The store with its file and its timer ----

  // The pending payload is the store itself, encoded when it is written, so a flag stands for
  // it. `handles` are the timer callbacks the loop will still run.
  datatype Box = Box(persistent: bool, state: State, disk: File, hasPending: bool, timer: Option<nat>,
                     handles: set<nat>, next: nat)

  function Opened(persistent: bool, disk: File): Box {
    Box(persistent, if persistent then Restart(disk) else EMPTY, disk, false, None, {}, 0)
  }

  function Write(b: Box): Box {
    b.(disk := FileOf(b.state))
  }

  function WritePending(b: Box): Box {
    if b.hasPending then Write(b.(timer := None, hasPending := false)) else b.(timer := None)
  }

  function Cancelled(b: Box): set<nat> {
    if b.timer.Some? then b.handles - {b.timer.value} else b.handles
  }

  function Requested(b: Box, loop: bool): Box {
    if loop then b.(hasPending := true, handles := Cancelled(b) + {b.next}, timer := Some(b.next), next := b.next + 1)
    else WritePending(b.(hasPending := true))
  }

  function Fired(b: Box, handle: nat): Box {
    WritePending(b.(handles := b.handles - {handle}))
  }

  function Flushed(b: Box): Box {
    if b.persistent then WritePending(b.(handles := Cancelled(b))) else b
  }

  function Scheduled(b: Box, immediate: bool, loop: bool): Box {
    if !b.persistent then b else if immediate then Write(b) else Requested(b, loop)
  }

  // In a running loop a request writes nothing yet: it cancels the timer that is armed and arms
  // a new one. Without a loop it writes at once. Only a pending write is ever written by a timer
  // or a flush.
  lemma RequestWaits(b: Box)
    requires b.timer.Some? ==> b.timer.value < b.next
    requires forall handle :: handle in b.handles ==> handle < b.next
    ensures var c := Requested(b, true);
      && c.disk == b.disk && c.state == b.state && c.hasPending && c.timer.Some? && c.timer.value !in b.handles
      && c.handles == (if b.timer.Some? then b.handles - {b.timer.value} else b.handles) + {c.timer.value}
    ensures var c := Requested(b, false); c.disk == FileOf(b.state) && !c.hasPending && c.timer.None?
    ensures forall handle :: !b.hasPending ==> Fired(b, handle).disk == b.disk
    ensures !b.hasPending ==> Flushed(b).disk == b.disk
  {}

  datatype Op =
    | Record(id: string, position: int, runtime: Option<int>, flush: bool, now: real, loop: bool)
    | RecordQuery(query: string, loop: bool)
    | Clear(loop: bool)
    | Fire(handle: nat)
    | Flush

  ghost predicate Enabled(b: Box, op: Op) {
    op.Fire? ==> op.handle in b.handles
  }

  ghost function Step(b: Box, op: Op): Box {
    match op
    case Record(id, position, runtime, flush, now, loop) =>
      if position <= 0 then b
      else Scheduled(b.(state := Recorded(b.state, id, position, runtime, now)), flush, loop)
    case RecordQuery(query, loop) =>
      if query == "" then b else Scheduled(b.(state := QueryRecorded(b.state, query)), false, loop)
    case Clear(loop) => Scheduled(b.(state := EMPTY), false, loop)
    case Fire(handle) => Fired(b, handle)
    case Flush => Flushed(b)
  }

  // A restart now gives the state in memory.
  ghost predicate InSync(b: Box) {
    !Escapes(b.disk) && Restart(b.disk) == b.state
  }

  ghost predicate Armed(b: Box) {
    b.hasPending && b.timer.Some? && b.timer.value in b.handles
  }

  ghost predicate Inv(b: Box) {
    && StateOk(b.state)
    && (b.hasPending ==> Armed(b))
    && (b.persistent ==> InSync(b) || Armed(b))
    && (b.persistent && !b.hasPending ==> InSync(b))
    && (!b.persistent ==> !b.hasPending)
  }

  lemma StepKeepsInv(b: Box, op: Op)
    requires Inv(b) && Enabled(b, op)
    ensures Inv(Step(b, op))
    // Flush and a Stopped report (one that says where playback stopped) leave the file up to date.
    ensures b.persistent && (op.Flush? || (op.Record? && op.flush && op.position > 0)) ==> InSync(Step(b, op))
    // So does a timer callback.
    ensures b.persistent && op.Fire? ==> InSync(Step(b, op))
    // Whatever the file held, it now loads as that or as the state of this moment.
    ensures b.persistent ==> Restart(Step(b, op).disk) in {Restart(b.disk), Step(b, op).state}
  {
    match op {
      case Record(id, position, runtime, _, now, _) => RecordedOk(b.state, id, position, runtime, now);
      case _ =>
    }
    RestartOfFile(Step(b, op).state);
  }

  // In a running loop a heartbeat report, a query and a clear reach the file only by the timer
  // they arm; a Stopped report with a position is in it at once.
  lemma StepWaits(b: Box, op: Op)
    requires b.persistent
    ensures var c := Step(b, op);
      && (op.Record? && op.position > 0 && !op.flush && op.loop ==> c.disk == b.disk && c.hasPending && c.timer.Some?)
      && (op.RecordQuery? && op.query != "" && op.loop ==> c.disk == b.disk && c.hasPending && c.timer.Some?)
      && (op.Clear? ==> c.state == State(map[], [], map[]))
      && (op.Clear? && op.loop ==> c.disk == b.disk && c.hasPending && c.timer.Some?)
      && (op.Record? && op.position > 0 && op.flush ==> c.disk == FileOf(c.state) && c.timer == b.timer)
      && ((op.Record? && op.position <= 0) || (op.RecordQuery? && op.query == "") ==> c == b)
  {}

  ghost predicate Runs(b: Box, ops: seq<Op>, c: Box)
    decreases |ops|
  {
    if ops == [] then b == c else Enabled(b, ops[0]) && Runs(Step(b, ops[0]), ops[1..], c)
  }

  lemma {:induction false} RunKeepsInv(b: Box, ops: seq<Op>, c: Box)
    requires Inv(b) && Runs(b, ops, c)
    ensures Inv(c) && c.persistent == b.persistent
    decreases |ops|
  {
    if ops != [] {
      StepKeepsInv(b, ops[0]);
      RunKeepsInv(Step(b, ops[0]), ops[1..], c);
    }
  }

  // Over every run from every readable file: a crash now and a restart give exactly the state
  // in memory, or a write is pending with its timer armed; that callback, when it runs, brings
  // the file up to date.
  lemma RestartEquivalence(disk: File, ops: seq<Op>, c: Box)
    requires !Escapes(disk) && Runs(Opened(true, disk), ops, c)
    ensures InSync(c) || (Armed(c) && InSync(Step(c, Fire(c.timer.value))))
    ensures InSync(Step(c, Flush))
  {
    RestartOk(disk);
    RunKeepsInv(Opened(true, disk), ops, c);
    StepKeepsInv(c, Flush);
    if Armed(c) {
      StepKeepsInv(c, Fire(c.timer.value));
    }
  }

  // The store: its fields, and its methods step by step.
  class Resume {
    const persistent: bool
    var items: map<string, Entry>
    var queries: seq<string>
    var finished: map<string, real>
    var disk: File
    var hasPending: bool
    var timer: Option<nat>
    var handles: set<nat>
    var next: nat

    function Contents(): Box
      reads this
    {
      Box(persistent, State(items, queries, finished), disk, hasPending, timer, handles, next)
    }

    // Loading raises, and there is no store, on some files.
    constructor (persistent: bool, disk: File)
      requires persistent ==> !Escapes(disk)
      ensures Contents() == Opened(persistent, disk) && Inv(Contents())
    {
      this.persistent, this.disk := persistent, disk;
      items, queries, finished := map[], [], map[];
      hasPending, timer, handles, next := false, None, {}, 0;
      new;
      if persistent {
        match Load(disk, [1], Decode) {
          case Payload(s) => items, queries, finished := s.items, s.queries, s.finished;
          case _ =>
        }
      }
    }

    method WriteNow()
      modifies this`disk
      ensures Contents() == Write(old(Contents()))
    {
      disk := FileOf(State(items, queries, finished));
    }

    method WritePendingNow()
      modifies this`disk, this`timer, this`hasPending
      ensures Contents() == WritePending(old(Contents()))
    {
      timer := None;
      if !hasPending {
        return;
      }
      hasPending := false;
      WriteNow();
    }

    method CancelTimer()
      modifies this`handles
      ensures Contents() == old(Contents()).(handles := Cancelled(old(Contents())))
    {
      if timer.Some? {
        handles := handles - {timer.value};
      }
    }

    method Request(loop: bool)
      modifies this`disk, this`timer, this`hasPending, this`handles, this`next
      ensures Contents() == Requested(old(Contents()), loop)
    {
      hasPending := true;
      if !loop {
        WritePendingNow();
        return;
      }
      CancelTimer();
      timer, handles, next := Some(next), handles + {next}, next + 1;
    }

    method ScheduleWrite(immediate: bool, loop: bool)
      modifies this`disk, this`timer, this`hasPending, this`handles, this`next
      ensures Contents() == Scheduled(old(Contents()), immediate, loop)
    {
      if !persistent {
        return;
      }
      if immediate {
        WriteNow();
      } else {
        Request(loop);
      }
    }

    method TimerFires(handle: nat)
      requires Inv(Contents()) && handle in handles
      modifies this
      ensures Contents() == Step(old(Contents()), Fire(handle)) && Inv(Contents())
    {
      StepKeepsInv(Contents(), Fire(handle));
      handles := handles - {handle};
      WritePendingNow();
    }

    method FlushNow()
      requires Inv(Contents())
      modifies this
      ensures Contents() == Step(old(Contents()), Flush) && Inv(Contents())
      ensures persistent ==> InSync(Contents())
    {
      StepKeepsInv(Contents(), Flush);
      if persistent {
        CancelTimer();
        WritePendingNow();
      }
    }

    // `record`: a report of position 0 or less changes nothing and writes nothing.
    method RecordPosition(id: string, position: int, runtime: Option<int>, flush: bool, now: real, loop: bool)
      requires Inv(Contents())
      modifies this
      ensures Contents() == Step(old(Contents()), Record(id, position, runtime, flush, now, loop)) && Inv(Contents())
      ensures persistent && flush && position > 0 ==> InSync(Contents())
    {
      StepKeepsInv(Contents(), Record(id, position, runtime, flush, now, loop));
      if position <= 0 {
        return;
      }
      Note(id, position, runtime, now);
      ScheduleWrite(flush, loop);
    }

    // What `record` does to the entries.
    method Note(id: string, position: int, runtime: Option<int>, now: real)
      requires StateOk(State(items, queries, finished)) && position > 0
      modifies this`items, this`finished
      ensures State(items, queries, finished) ==
        Recorded(old(State(items, queries, finished)), id, position, runtime, now)
    {
      var existing := if id in items then Some(items[id]) else None;
      var stored := if existing.Some? then existing.value.runtime else None;
      var known := if runtime.Some? then Some(Int(runtime.value)) else stored;
      if known.Some? && position as real >= FINISHED_FRACTION * Value(known.value) {
        items := items - {id};
        finished := finished[id := now];
        return;
      }
      var entry := if existing.Some? then existing.value else Entry(Int(position), None, None);
      entry := entry.(position := Int(position), updatedAt := Some(Float(now)));
      if runtime.Some? {
        entry := entry.(runtime := Some(Int(runtime.value)));
      }
      items := items[id := entry];
      Cap();
    }

    method Cap()
      modifies this`items
      ensures items == Capped(old(items))
    {
      if |items| <= MAX_ITEMS {
        return;
      }
      StalestExists(items);
      var keys := items.Keys;
      var oldest :| oldest in keys;
      keys := keys - {oldest};
      Lex.LeTotal(oldest, oldest);
      while keys != {}
        invariant keys <= items.Keys && oldest in items && oldest !in keys && items == old(items)
        invariant forall l :: l in items && l !in keys ==> Before(Stamp(items[oldest]), oldest, Stamp(items[l]), l)
        decreases |keys|
      {
        var k :| k in keys;
        keys := keys - {k};
        Lex.LeTotal(k, k);
        Lex.LeTotal(k, oldest);
        if !Before(Stamp(items[oldest]), oldest, Stamp(items[k]), k) {
          forall l | l in items && l !in keys ensures Before(Stamp(items[k]), k, Stamp(items[l]), l) {
            if Lex.Le(k, oldest) && Lex.Le(oldest, l) {
              Lex.LeTransitive(k, oldest, l);
            }
          }
          oldest := k;
        }
      }
      assert IsStalest(items, oldest);
      StalestUnique(items, oldest, Stalest(items));
      items := items - {oldest};
    }

    // `record_query`, with the query already stripped.
    method RecordSearch(query: string, loop: bool)
      requires Inv(Contents())
      modifies this
      ensures Contents() == Step(old(Contents()), RecordQuery(query, loop)) && Inv(Contents())
    {
      StepKeepsInv(Contents(), RecordQuery(query, loop));
      if query == "" {
        return;
      }
      queries := [query] + Without(queries, query);
      queries := Front(queries, MAX_QUERIES);
      ScheduleWrite(false, loop);
    }

    method ClearAll(loop: bool)
      requires Inv(Contents())
      modifies this
      ensures Contents() == Step(old(Contents()), Clear(loop)) && Inv(Contents())
    {
      StepKeepsInv(Contents(), Clear(loop));
      items, queries, finished := map[], [], map[];
      ScheduleWrite(false, loop);
    }
  }
}
