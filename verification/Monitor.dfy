// drift/monitor.py: the sweep's bookkeeping per provider, and the issues it opens and closes.
module Monitor {
  import opened Wrappers
  import B = Baseline
  import A = Attestation

  const SHAPE_RECALIBRATE_AFTER := 3

  datatype ProviderState = ProviderState(
    consecutiveFailures: int,
    shapeStreak: int,
    signature: Option<B.Signature>,
    playFailures: int,
    lastPlay: Option<A.Counters>)

  const FRESH := ProviderState(0, 0, None, 0, None)

  // How one gateway call ends: done, or raised before or after it took effect.
  datatype Outcome = Done | Refused | Lost

  // How the tracker answers the calls of one sweep of one provider.
  datatype Service = Service(find: bool, open: Outcome, comment: bool, close: Outcome)

  predicate Working(s: Service) {
    s.find && s.open.Done? && s.comment && s.close.Done?
  }

  // A provider's state and its open issues in the tracker, one count for each fault.
  datatype Lane = Lane(state: ProviderState, listingIssues: nat, playbackIssues: nat)

  // What a sweep observes. `issues`: None when the run files nothing.
  datatype Observation =
    | Probed(listing: B.Listing, deepOk: bool, issues: Option<Service>)
    | Played(counters: A.Counters, issues: Option<Service>)

  // ---- The issue protocol ----

  // _maybe_file_issue: from the second failure on, unless one is open.
  function Filed(open: nat, failures: int, issues: Option<Service>): nat {
    if issues.None? || failures < 2 || !issues.value.find || open > 0 || issues.value.open.Refused? then open
    else open + 1
  }

  // _maybe_close_issue: comment, then close, the one that is open.
  function Closed(open: nat, issues: Option<Service>): nat {
    if issues.None? || !issues.value.find || open == 0 || !issues.value.comment || issues.value.close.Refused? then open
    else open - 1
  }

  // ---- The listing axis ----

  function Verdict(state: ProviderState, listing: B.Listing): B.Kind {
    B.Verdict(listing, state.signature)
  }

  function StreakAfter(state: ProviderState, o: Observation): int
    requires o.Probed?
  {
    if Verdict(state, o.listing).Shape? && o.deepOk then state.shapeStreak + 1 else 0
  }

  predicate Healthy(state: ProviderState, o: Observation)
    requires o.Probed?
  {
    Verdict(state, o.listing).Healthy? && o.deepOk
  }

  predicate Recalibrates(state: ProviderState, o: Observation)
    requires o.Probed?
  {
    !Healthy(state, o) && StreakAfter(state, o) >= SHAPE_RECALIBRATE_AFTER
  }

  // The sweep reports the provider as failed.
  predicate Fails(state: ProviderState, o: Observation)
    requires o.Probed?
  {
    !Healthy(state, o) && !Recalibrates(state, o)
  }

  function Probe(lane: Lane, o: Observation): Lane
    requires o.Probed?
  {
    var state := lane.state;
    if Fails(state, o) then
      var failures := state.consecutiveFailures + 1;
      lane.(state := state.(consecutiveFailures := failures, shapeStreak := StreakAfter(state, o)),
            listingIssues := Filed(lane.listingIssues, failures, o.issues))
    else
      lane.(state := state.(consecutiveFailures := 0, shapeStreak := 0,
                            signature := Some(B.UpdateSignature(state.signature, o.listing))),
            listingIssues := Closed(lane.listingIssues, o.issues))
  }

  // ---- The playback axis ----

  function Play(lane: Lane, o: Observation): Lane
    requires o.Played?
  {
    var state := lane.state;
    var seen := state.(lastPlay := Some(o.counters));
    match A.Judge(state.lastPlay, o.counters).kind
    case NoProgress =>
      var failures := state.playFailures + 1;
      lane.(state := seen.(playFailures := failures), playbackIssues := Filed(lane.playbackIssues, failures, o.issues))
    case Clean => lane.(state := seen.(playFailures := 0), playbackIssues := Closed(lane.playbackIssues, o.issues))
    case NoEvidence => lane.(state := seen)
  }

  function Observe(lane: Lane, o: Observation): Lane {
    if o.Probed? then Probe(lane, o) else Play(lane, o)
  }

  // A provider's lane after everything the sweeps observed of anyone, in order.
  function After(lane: Lane, id: string, seen: seq<(string, Observation)>): Lane {
    if seen == [] then lane
    else
      var before, last := After(lane, id, seen[..|seen| - 1]), seen[|seen| - 1];
      if last.0 == id then Observe(before, last.1) else before
  }

  // ---- The monitor ----

  class Monitor {
    var states: map<string, ProviderState>
    var listingIssues: map<string, nat>
    var playbackIssues: map<string, nat>

    constructor (states: map<string, ProviderState>, listingIssues: map<string, nat>, playbackIssues: map<string, nat>)
      ensures this.states == states && this.listingIssues == listingIssues && this.playbackIssues == playbackIssues
    {
      this.states, this.listingIssues, this.playbackIssues := states, listingIssues, playbackIssues;
    }

    function LaneOf(id: string): Lane
      reads this
    {
      Lane(if id in states then states[id] else FRESH, OpenIn(listingIssues, id), OpenIn(playbackIssues, id))
    }

    // _maybe_file_issue and _maybe_file_play_issue, on the open issues of one fault.
    static method MaybeFile(open: map<string, nat>, id: string, failures: int, issues: Option<Service>)
      returns (now: map<string, nat>)
      ensures now == open[id := Filed(OpenIn(open, id), failures, issues)]
    {
      now := open[id := OpenIn(open, id)];
      if issues.None? || failures < 2 {
        return;
      }
      if !issues.value.find {
        return;
      }
      if now[id] > 0 {
        return;
      }
      if !issues.value.open.Refused? {
        now := now[id := 1];
      }
    }

    static method MaybeClose(open: map<string, nat>, id: string, issues: Option<Service>)
      returns (now: map<string, nat>)
      ensures now == open[id := Closed(OpenIn(open, id), issues)]
    {
      now := open[id := OpenIn(open, id)];
      if issues.None? || !issues.value.find || now[id] == 0 {
        return;
      }
      if issues.value.comment && !issues.value.close.Refused? {
        now := now[id := now[id] - 1];
      }
    }

    method SweepListing(id: string, o: Observation) returns (ok: bool)
      requires o.Probed?
      modifies this`states, this`listingIssues
      ensures forall p :: LaneOf(p) == if p == id then Probe(old(LaneOf(p)), o) else old(LaneOf(p))
      ensures ok <==> !Fails(old(LaneOf(id)).state, o)
    {
      var state := if id in states then states[id] else FRESH;
      var verdict := B.Verdict(o.listing, state.signature);
      ok := verdict.Healthy? && o.deepOk;
      if ok {
        state := state.(consecutiveFailures := 0, shapeStreak := 0,
                        signature := Some(B.UpdateSignature(state.signature, o.listing)));
        listingIssues := MaybeClose(listingIssues, id, o.issues);
      } else {
        state := state.(consecutiveFailures := state.consecutiveFailures + 1,
                        shapeStreak := if verdict.Shape? && o.deepOk then state.shapeStreak + 1 else 0);
        if state.shapeStreak >= SHAPE_RECALIBRATE_AFTER {
          state := state.(consecutiveFailures := 0, shapeStreak := 0,
                          signature := Some(B.UpdateSignature(state.signature, o.listing)));
          ok := true;
          listingIssues := MaybeClose(listingIssues, id, o.issues);
        } else {
          listingIssues := MaybeFile(listingIssues, id, state.consecutiveFailures, o.issues);
        }
      }
      states := states[id := state];
    }

    method SweepPlayback(id: string, o: Observation) returns (ok: bool)
      requires o.Played?
      modifies this`states, this`playbackIssues
      ensures forall p :: LaneOf(p) == if p == id then Play(old(LaneOf(p)), o) else old(LaneOf(p))
      ensures ok <==> !A.Judge(old(LaneOf(id)).state.lastPlay, o.counters).kind.NoProgress?
    {
      var state := if id in states then states[id] else FRESH;
      var verdict := A.Judge(state.lastPlay, o.counters);
      ok := !verdict.kind.NoProgress?;
      if verdict.kind.NoProgress? {
        state := state.(playFailures := state.playFailures + 1);
        playbackIssues := MaybeFile(playbackIssues, id, state.playFailures, o.issues);
      } else if verdict.kind.Clean? {
        state := state.(playFailures := 0);
        playbackIssues := MaybeClose(playbackIssues, id, o.issues);
      }
      states := states[id := state.(lastPlay := Some(o.counters))];
    }

    method ProbeAll(probed: seq<(string, Observation)>)
      requires forall i :: 0 <= i < |probed| ==> probed[i].1.Probed?
      modifies this
      ensures forall p :: LaneOf(p) == After(old(LaneOf(p)), p, probed)
    {
      var i := 0;
      while i < |probed|
        invariant 0 <= i <= |probed|
        invariant forall p :: LaneOf(p) == After(old(LaneOf(p)), p, probed[..i])
      {
        assert probed[..i + 1][..i] == probed[..i];
        var _ := SweepListing(probed[i].0, probed[i].1);
        i := i + 1;
      }
      assert probed[..i] == probed;
    }

    // Every lane the health surface reported, but the key that names none.
    method SweepPlaybacks(played: seq<(string, Observation)>)
      requires forall i :: 0 <= i < |played| ==> played[i].1.Played?
      modifies this
      ensures forall p :: LaneOf(p) == After(old(LaneOf(p)), p, Lanes(played))
    {
      var j := 0;
      while j < |played|
        invariant 0 <= j <= |played|
        invariant forall p :: LaneOf(p) == After(old(LaneOf(p)), p, Lanes(played[..j]))
      {
        LanesSnoc(played, j);
        if played[j].0 != "unknown" {
          assert (Lanes(played[..j]) + [played[j]])[..|Lanes(played[..j])|] == Lanes(played[..j]);
          var _ := SweepPlayback(played[j].0, played[j].1);
        } else {
          assert Lanes(played[..j + 1]) == Lanes(played[..j]);
        }
        j := j + 1;
      }
      assert played[..j] == played;
    }

    // One run: the probed providers, then the lanes of the playback snapshot.
    method RunOnce(probed: seq<(string, Observation)>, played: seq<(string, Observation)>)
      requires forall i :: 0 <= i < |probed| ==> probed[i].1.Probed?
      requires forall i :: 0 <= i < |played| ==> played[i].1.Played?
      modifies this
      ensures forall p :: LaneOf(p) == After(old(LaneOf(p)), p, probed + Lanes(played))
    {
      ProbeAll(probed);
      SweepPlaybacks(played);
      forall p ensures LaneOf(p) == After(old(LaneOf(p)), p, probed + Lanes(played)) {
        AfterBoth(old(LaneOf(p)), p, probed, Lanes(played));
      }
    }
  }

  lemma {:induction false} AfterBoth(lane: Lane, id: string, first: seq<(string, Observation)>,
      then': seq<(string, Observation)>)
    ensures After(After(lane, id, first), id, then') == After(lane, id, first + then')
    decreases |then'|
  {
    if then' == [] {
      assert first + then' == first;
    } else {
      var n := |then'| - 1;
      assert (first + then')[..|first| + n] == first + then'[..n];
      AfterBoth(lane, id, first, then'[..n]);
    }
  }

  function OpenIn(open: map<string, nat>, id: string): nat {
    if id in open then open[id] else 0
  }

  // The key that names no lane is skipped.
  function Lanes(played: seq<(string, Observation)>): seq<(string, Observation)> {
    if played == [] then []
    else Lanes(played[..|played| - 1]) + if played[|played| - 1].0 != "unknown" then [played[|played| - 1]] else []
  }

  lemma LanesSnoc(played: seq<(string, Observation)>, j: nat)
    requires j < |played|
    ensures Lanes(played[..j + 1]) == Lanes(played[..j]) + if played[j].0 != "unknown" then [played[j]] else []
  {
    assert played[..j + 1][..j] == played[..j];
  }
}
