// drift/attestation.py: what the playback counters of two sweeps say about the time between.
module Attestation {
  import opened Lex
  import opened Wrappers

  datatype Counters = Counters(served: int, noProgress: int)

  datatype Kind = Clean | NoProgress | NoEvidence

  datatype PlayVerdict = PlayVerdict(kind: Kind, servedDelta: int, noProgressDelta: int)

  function Judge(last: Option<Counters>, current: Counters): PlayVerdict {
    match last
    case None => PlayVerdict(NoEvidence, 0, 0)
    case Some(l) =>
      if current.served < l.served || current.noProgress < l.noProgress then PlayVerdict(NoEvidence, 0, 0)
      else
        var served, noProgress := current.served - l.served, current.noProgress - l.noProgress;
        if served == 0 then PlayVerdict(NoEvidence, 0, noProgress)
        else if noProgress == 0 then PlayVerdict(Clean, served, 0)
        else if noProgress >= served then PlayVerdict(NoProgress, served, noProgress)
        else PlayVerdict(Clean, served, noProgress)
  }

  // There is no evidence exactly on a first sweep, after a restart of the API, or if nothing was
  // served; the counts of the verdict are the differences.
  lemma NoEvidenceIff(last: Option<Counters>, current: Counters)
    ensures Judge(last, current).kind.NoEvidence? <==>
      || last.None?
      || current.served < last.value.served || current.noProgress < last.value.noProgress
      || current.served == last.value.served
    ensures !Judge(last, current).kind.NoEvidence? ==>
      && Judge(last, current).servedDelta == current.served - last.value.served
      && Judge(last, current).noProgressDelta == current.noProgress - last.value.noProgress
  {}

  // The verdict of a window without a restart of the API.
  function Window(last: Counters, served: nat, stopped: nat): PlayVerdict {
    Judge(Some(last), Counters(last.served + served, last.noProgress + stopped))
  }

  lemma WindowKind(last: Counters, served: nat, stopped: nat)
    ensures Window(last, served, stopped).kind.NoProgress? <==> served > 0 && stopped >= served
    ensures Window(last, served, stopped).kind.Clean? <==> stopped < served
    ensures Window(last, served, stopped).servedDelta == served
  {}

  // ---- What the streams did ----

  // What the API counts for a provider: a request that resolved to a stream, and a report that
  // a stream stopped at zero. One press can make several requests, nothing drops a repeated
  // report, and nothing ties a report to the sweep window its stream was served in.
  datatype Event = Serve(stream: nat) | Stop(stream: nat)

  function Serves(events: seq<Event>): seq<nat> {
    if events == [] then []
    else Serves(events[..|events| - 1]) + if events[|events| - 1].Serve? then [events[|events| - 1].stream] else []
  }

  function Stops(events: seq<Event>): seq<nat> {
    if events == [] then []
    else Stops(events[..|events| - 1]) + if events[|events| - 1].Stop? then [events[|events| - 1].stream] else []
  }

  // The totals after these events, as the API counts them.
  function Totals(start: Counters, events: seq<Event>): Counters {
    Counters(start.served + |Serves(events)|, start.noProgress + |Stops(events)|)
  }

  // The window's own streams that did not stop in it, and the stopped streams of other windows.
  ghost function Playing(events: seq<Event>): set<nat> {
    Elements(Serves(events)) - Elements(Stops(events))
  }

  ghost function Late(events: seq<Event>): set<nat> {
    Elements(Stops(events)) - Elements(Serves(events))
  }

  // The entries that repeat an earlier one.
  ghost function Repeats(xs: seq<nat>): int {
    |xs| - |Elements(xs)|
  }

  // The requests that count for no stop, and the reports that count for no stream of the window.
  ghost function Unstopped(events: seq<Event>): int {
    |Playing(events)| + Repeats(Serves(events))
  }

  ghost function Surplus(events: seq<Event>): int {
    |Late(events)| + Repeats(Stops(events))
  }

  // Every stream the window served stopped at zero in it.
  ghost predicate AllStopped(events: seq<Event>) {
    Serves(events) != [] && forall stream :: stream in Serves(events) ==> stream in Stops(events)
  }

  // Some stream the window served did not.
  ghost predicate SomePlays(events: seq<Event>) {
    exists stream :: stream in Serves(events) && stream !in Stops(events)
  }

  lemma SplitSizes(a: set<nat>, b: set<nat>)
    ensures |a| == |a * b| + |a - b| && |b| == |a * b| + |b - a|
  {
    assert a == (a * b) + (a - b) && (a * b) !! (a - b);
    assert b == (a * b) + (b - a) && (a * b) !! (b - a);
  }

  // The verdict in terms of the streams, for every window: what counts for no stop stands
  // against what counts for no stream.
  lemma JudgeIff(start: Counters, events: seq<Event>)
    ensures var kind := Judge(Some(start), Totals(start, events)).kind;
      && (kind.NoProgress? <==> Serves(events) != [] && Unstopped(events) <= Surplus(events))
      && (kind.Clean? <==> Unstopped(events) > Surplus(events))
  {
    WindowKind(start, |Serves(events)|, |Stops(events)|);
    SplitSizes(Elements(Serves(events)), Elements(Stops(events)));
  }

  lemma AllStoppedIff(events: seq<Event>)
    ensures SomePlays(events) <==> |Playing(events)| > 0
    ensures AllStopped(events) <==> Serves(events) != [] && |Playing(events)| == 0
  {
    if stream :| stream in Serves(events) && stream !in Stops(events) {
      assert stream in Playing(events);
    }
    if |Playing(events)| > 0 {
      var stream :| stream in Playing(events);
      assert stream in Serves(events) && stream !in Stops(events);
    }
  }

  // It accuses exactly if every stream stopped, and acquits exactly if one plays.
  ghost predicate JudgedRight(kind: Kind, events: seq<Event>) {
    (kind.NoProgress? <==> AllStopped(events)) && (kind.Clean? <==> SomePlays(events))
  }

  // Where none plays, repeated requests may not outnumber the surplus reports; where some play,
  // the surplus reports may not make up for them.
  ghost predicate CountsTell(events: seq<Event>) {
    if |Playing(events)| == 0 then Serves(events) == [] || Repeats(Serves(events)) <= Surplus(events)
    else Surplus(events) < Unstopped(events)
  }

  lemma VerdictRightIff(start: Counters, events: seq<Event>)
    ensures JudgedRight(Judge(Some(start), Totals(start, events)).kind, events) <==> CountsTell(events)
  {
    JudgeIff(start, events);
    AllStoppedIff(events);
    NothingPlays(events);
  }

  lemma NothingPlays(events: seq<Event>)
    ensures Serves(events) == [] ==> Unstopped(events) == 0 <= Surplus(events)
  {
    SizeOfElements(Stops(events));
    if Serves(events) == [] {
      assert Playing(events) == {};
    }
  }

  // ---- Consecutive windows ----

  ghost function After(windows: seq<seq<Event>>): Counters {
    if windows == [] then Counters(0, 0) else Totals(After(windows[..|windows| - 1]), windows[|windows| - 1])
  }

  ghost function VerdictOf(windows: seq<seq<Event>>, k: nat): Kind
    requires k < |windows|
  {
    Judge(Some(After(windows[..k])), After(windows[..k + 1])).kind
  }

  // In every run of windows without a restart, each window is judged right exactly if its own
  // counts tell, whatever came before.
  lemma WindowJudgedRightIff(windows: seq<seq<Event>>, k: nat)
    requires k < |windows|
    ensures JudgedRight(VerdictOf(windows, k), windows[k]) <==> CountsTell(windows[k])
  {
    assert windows[..k + 1][..k] == windows[..k];
    VerdictRightIff(After(windows[..k]), windows[k]);
  }

  // Each stream is reported in its own window, and if at all then once for every request.
  ghost predicate Paired(events: seq<Event>) {
    var served, stopped := multiset(Serves(events)), multiset(Stops(events));
    forall stream :: stopped[stream] == 0 || stopped[stream] == served[stream]
  }

  // Then the verdict is right, however often a press asks.
  lemma PairedStopsJudgedRight(windows: seq<seq<Event>>, k: nat)
    requires k < |windows| && Paired(windows[k])
    ensures JudgedRight(VerdictOf(windows, k), windows[k])
  {
    assert windows[..k + 1][..k] == windows[..k];
    var start, events := After(windows[..k]), windows[k];
    WindowKind(start, |Serves(events)|, |Stops(events)|);
    PairedCounts(Serves(events), Stops(events));
  }

  lemma PairedCounts(serves: seq<nat>, stops: seq<nat>)
    requires forall x :: multiset(stops)[x] == 0 || multiset(stops)[x] == multiset(serves)[x]
    ensures |stops| <= |serves|
    ensures |stops| == |serves| <==> forall x :: x in serves ==> x in stops
  {
    var served, stopped := multiset(serves), multiset(stops);
    assert stopped <= served;
    assert |served - stopped| == |served| - |stopped|;
    if |stops| == |serves| {
      assert served - stopped == multiset{};
      assert served == stopped;
      forall x | x in serves ensures x in stops {
        assert x in served;
      }
    }
    if forall x :: x in serves ==> x in stops {
      forall x ensures served[x] == stopped[x] {
        assert served[x] > 0 ==> x in serves && x in stopped;
      }
      assert served == stopped;
    }
  }

  // A stop that comes a window late: the first window is acquitted although its only stream
  // failed, the second accused although its only stream plays.
  const LATE_STOP := [[Serve(0)], [Serve(1), Stop(0)]]

  lemma LateStopMisjudged()
    ensures VerdictOf(LATE_STOP, 0).Clean?
    ensures VerdictOf(LATE_STOP, 1).NoProgress? && SomePlays(LATE_STOP[1])
    ensures Stops(LATE_STOP[1]) == Serves(LATE_STOP[0])
  {
    var first, second := LATE_STOP[0], LATE_STOP[1];
    assert first[..0] == [] && second[..1] == [Serve(1)] && second[..1][..0] == [];
    assert Serves(first) == [0] && Stops(first) == [];
    assert Serves(second) == [1] && Stops(second) == [0];
    assert LATE_STOP[..1] == [first] && LATE_STOP[..1][..0] == [] && LATE_STOP[..0] == [];
    assert LATE_STOP[..2] == LATE_STOP && LATE_STOP[..2][..1] == LATE_STOP[..1];
    assert After(LATE_STOP[..1]) == Counters(1, 0);
    assert After(LATE_STOP[..2]) == Counters(2, 1);
    assert 1 in Serves(second);
  }

  // One press that asks twice and one report: the stream stopped, the window is acquitted.
  const ASKED_TWICE := [Serve(0), Serve(0), Stop(0)]

  lemma RepeatedRequestAcquits(start: Counters)
    ensures AllStopped(ASKED_TWICE) && Judge(Some(start), Totals(start, ASKED_TWICE)).kind.Clean?
  {
    ThreeEvents(Serve(0), Serve(0), Stop(0));
    assert Serves(ASKED_TWICE) == [0, 0] && Stops(ASKED_TWICE) == [0];
  }

  // One stop reported twice, of two streams: the other plays, the window is accused, and no
  // stop came late.
  const STOPPED_TWICE := [Serve(0), Serve(1), Stop(0)] + [Stop(0)]

  lemma RepeatedReportAccuses(start: Counters)
    ensures SomePlays(STOPPED_TWICE) && Late(STOPPED_TWICE) == {}
    ensures Judge(Some(start), Totals(start, STOPPED_TWICE)).kind.NoProgress?
  {
    ThreeEvents(Serve(0), Serve(1), Stop(0));
    assert STOPPED_TWICE[..3] == [Serve(0), Serve(1), Stop(0)];
    assert Serves(STOPPED_TWICE) == [0, 1] && Stops(STOPPED_TWICE) == [0, 0];
    assert 1 in Serves(STOPPED_TWICE);
  }

  lemma ThreeEvents(a: Event, b: Event, c: Event)
    ensures Serves([a, b, c]) == Serves([a]) + Serves([b]) + Serves([c])
    ensures Stops([a, b, c]) == Stops([a]) + Stops([b]) + Stops([c])
  {
    assert [a, b, c][..2] == [a, b] && [a, b][..1] == [a] && [a][..0] == [] && [b][..0] == [] && [c][..0] == [];
  }

  // The windows of consecutive sweeps add up: nothing served is judged twice or missed, as
  // long as the counters never go back.
  function Served(sweeps: seq<Counters>): int {
    if |sweeps| < 2 then 0
    else Judge(Some(sweeps[|sweeps| - 2]), sweeps[|sweeps| - 1]).servedDelta + Served(sweeps[..|sweeps| - 1])
  }

  ghost predicate NeverBack(sweeps: seq<Counters>) {
    forall i :: 0 < i < |sweeps| ==>
      sweeps[i - 1].served <= sweeps[i].served && sweeps[i - 1].noProgress <= sweeps[i].noProgress
  }

  lemma {:induction false} WindowsAddUp(sweeps: seq<Counters>)
    requires sweeps != [] && NeverBack(sweeps)
    ensures Served(sweeps) == sweeps[|sweeps| - 1].served - sweeps[0].served
  {
    if |sweeps| >= 2 {
      WindowsAddUp(sweeps[..|sweeps| - 1]);
    }
  }
}
