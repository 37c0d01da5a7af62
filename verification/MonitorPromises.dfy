// drift/monitor.py: what every run of sweeps keeps, how it converges, and when issues are open.
module MonitorPromises {
  import opened Wrappers
  import opened Monitor
  import B = Baseline
  import A = Attestation

  type Seen = seq<(string, Observation)>

  // ---- One sweep ----

  // A probe is reported as failed exactly if its listing is unusable or its deep probe failed,
  // or the listing lost its shape for the first or the second time in a row.
  lemma FailsIff(state: ProviderState, o: Observation)
    requires o.Probed?
    ensures Fails(state, o) <==>
      var kind := B.Verdict(o.listing, state.signature);
      kind.Broken? || !o.deepOk || (kind.Shape? && state.shapeStreak < 2)
  {}

  // A sweep opens at most one issue, and only from the second failure on, with none open, the
  // lookup answered and the creation not refused; it closes at most one, after its comment.
  lemma IssueMovesIff(open: nat, failures: int, issues: Option<Service>)
    ensures Filed(open, failures, issues) == open + 1 || Filed(open, failures, issues) == open
    ensures Filed(open, failures, issues) > open <==>
      && failures >= 2 && open == 0
      && issues.Some? && issues.value.find && !issues.value.open.Refused?
    ensures Closed(open, issues) == open || (open > 0 && Closed(open, issues) == open - 1)
    ensures Closed(open, issues) < open <==>
      && open > 0
      && issues.Some? && issues.value.find && issues.value.comment && !issues.value.close.Refused?
  {}

  // ---- The counters ----

  // How many of the provider's probes failed since the last that did not.
  ghost function FailedInARow(lane: Lane, id: string, seen: Seen): nat {
    if seen == [] then 0
    else
      var before, last := seen[..|seen| - 1], seen[|seen| - 1];
      if last.0 != id || last.1.Played? then FailedInARow(lane, id, before)
      else if Fails(After(lane, id, before).state, last.1) then FailedInARow(lane, id, before) + 1
      else 0
  }

  // How many of its listings lost their shape, with a passing deep probe, since the last probe
  // that ended otherwise or was excused.
  ghost function ShapeInARow(lane: Lane, id: string, seen: Seen): nat {
    if seen == [] then 0
    else
      var before, last := seen[..|seen| - 1], seen[|seen| - 1];
      if last.0 != id || last.1.Played? then ShapeInARow(lane, id, before)
      else
        var state := After(lane, id, before).state;
        if Fails(state, last.1) && Verdict(state, last.1.listing).Shape? && last.1.deepOk
        then ShapeInARow(lane, id, before) + 1 else 0
  }

  // The counters the provider's last sweep reported, from `from` on.
  ghost function LastCounters(from: Option<A.Counters>, id: string, seen: Seen): Option<A.Counters> {
    if seen == [] then from
    else
      var last := seen[|seen| - 1];
      if last.0 == id && last.1.Played? then Some(last.1.counters) else LastCounters(from, id, seen[..|seen| - 1])
  }

  // How many of its playback windows were accused since the last one that was acquitted; a
  // window without evidence changes nothing.
  ghost function AccusedInARow(from: Option<A.Counters>, id: string, seen: Seen): nat {
    if seen == [] then 0
    else
      var before, last := seen[..|seen| - 1], seen[|seen| - 1];
      if last.0 != id || last.1.Probed? then AccusedInARow(from, id, before)
      else
        match A.Judge(LastCounters(from, id, before), last.1.counters).kind
        case NoProgress => AccusedInARow(from, id, before) + 1
        case Clean => 0
        case NoEvidence => AccusedInARow(from, id, before)
  }

  // Over every run from a fresh provider the three counters are these, and each playback window
  // is judged from the provider's last counters.
  lemma {:induction false} CountersAre(lane: Lane, id: string, seen: Seen)
    requires lane.state == FRESH
    ensures var state := After(lane, id, seen).state;
      && state.consecutiveFailures == FailedInARow(lane, id, seen)
      && state.shapeStreak == ShapeInARow(lane, id, seen)
      && state.playFailures == AccusedInARow(None, id, seen)
      && state.lastPlay == LastCounters(None, id, seen)
  {
    if seen != [] {
      var before := seen[..|seen| - 1];
      CountersAre(lane, id, before);
      CountersStayOk(lane, id, before);
    }
  }

  ghost predicate CountersOk(s: ProviderState) {
    0 <= s.shapeStreak < SHAPE_RECALIBRATE_AFTER && s.shapeStreak <= s.consecutiveFailures && 0 <= s.playFailures
  }

  // Along every run a shape streak stays under three, and never exceeds the failures in a row.
  lemma {:induction false} CountersStayOk(lane: Lane, id: string, seen: Seen)
    requires CountersOk(lane.state)
    ensures CountersOk(After(lane, id, seen).state)
  {
    if seen != [] {
      CountersStayOk(lane, id, seen[..|seen| - 1]);
    }
  }

  ghost predicate Widens(before: Option<B.Signature>, after: Option<B.Signature>) {
    before.Some? ==>
      after.Some? && after.value.countLow <= before.value.countLow && after.value.countHigh >= before.value.countHigh
  }

  // A calibrated band only ever widens, and is never lost.
  lemma {:induction false} BandWidens(lane: Lane, id: string, seen: Seen)
    ensures Widens(lane.state.signature, After(lane, id, seen).state.signature)
  {
    if seen != [] {
      BandWidens(lane, id, seen[..|seen| - 1]);
    }
  }

  // The listings a provider was calibrated with: those of its probes that were not reported.
  ghost function Calibrations(lane: Lane, id: string, seen: Seen): seq<B.Listing> {
    if seen == [] then []
    else
      var before, last := seen[..|seen| - 1], seen[|seen| - 1];
      var used := last.0 == id && last.1.Probed? && !Fails(After(lane, id, before).state, last.1);
      Calibrations(lane, id, before) + if used then [last.1.listing] else []
  }

  ghost predicate SizesFrom(listings: seq<B.Listing>, low: int) {
    && (exists i :: 0 <= i < |listings| && |listings[i].cards| == low)
    && (forall i :: 0 <= i < |listings| ==> low <= |listings[i].cards|)
  }

  ghost predicate SizesUpTo(listings: seq<B.Listing>, high: int) {
    && (exists i :: 0 <= i < |listings| && |listings[i].cards| == high)
    && (forall i :: 0 <= i < |listings| ==> |listings[i].cards| <= high)
  }

  // The distributions are those of the listing.
  ghost predicate FromListing(signature: B.Signature, listing: B.Listing) {
    && signature.forms == B.Distribution(listing.cards, B.ByForm)
    && signature.styles == B.Distribution(listing.cards, B.ByStyle)
  }

  // The signature these calibrations give: the band reaches from the smallest to the largest
  // listing, and the distributions are the last one's.
  ghost predicate Explains(used: seq<B.Listing>, signature: Option<B.Signature>) {
    if used == [] then signature.None?
    else
      && signature.Some? && FromListing(signature.value, used[|used| - 1])
      && SizesFrom(used, signature.value.countLow) && SizesUpTo(used, signature.value.countHigh)
  }

  // From a provider never calibrated, over every run, that is its signature.
  lemma {:induction false} SignatureIs(lane: Lane, id: string, seen: Seen)
    requires lane.state.signature.None?
    ensures Explains(Calibrations(lane, id, seen), After(lane, id, seen).state.signature)
  {
    if seen != [] {
      var before, last := seen[..|seen| - 1], seen[|seen| - 1];
      SignatureIs(lane, id, before);
      var now := After(lane, id, before);
      if last.0 == id {
        SignatureStep(now, last.1);
        if last.1.Probed? && !Fails(now.state, last.1) {
          SizesSnoc(Calibrations(lane, id, before), now.state.signature, last.1.listing);
        }
      }
      assert Calibrations(lane, id, before) + [] == Calibrations(lane, id, before);
    }
  }

  lemma SignatureStep(lane: Lane, o: Observation)
    ensures Observe(lane, o).state.signature ==
      if o.Probed? && !Fails(lane.state, o) then Some(B.UpdateSignature(lane.state.signature, o.listing))
      else lane.state.signature
  {}

  lemma SizesSnoc(used: seq<B.Listing>, signature: Option<B.Signature>, listing: B.Listing)
    requires Explains(used, signature)
    ensures Explains(used + [listing], Some(B.UpdateSignature(signature, listing)))
  {
    var all := used + [listing];
    assert all[|used|] == listing;
    if used != [] {
      var i :| 0 <= i < |used| && |used[i].cards| == signature.value.countLow;
      var j :| 0 <= j < |used| && |used[j].cards| == signature.value.countHigh;
      assert all[i] == used[i] && all[j] == used[j];
    }
  }

  // So a listing smaller than every listing a provider was calibrated with fails its probe,
  // unless it is usable, its deep probe passes and it is the third in a row to lose its shape.
  lemma SmallerFails(lane: Lane, id: string, seen: Seen, o: Observation)
    requires lane.state.signature.None? && CountersOk(lane.state) && o.Probed?
    requires Calibrations(lane, id, seen) != []
    requires forall i :: 0 <= i < |Calibrations(lane, id, seen)| ==>
      |o.listing.cards| < |Calibrations(lane, id, seen)[i].cards|
    ensures var state := After(lane, id, seen).state;
      Fails(state, o) <==> B.Unusable(o.listing) || !o.deepOk || state.shapeStreak < 2
  {
    SignatureIs(lane, id, seen);
    CountersStayOk(lane, id, seen);
    B.VerdictIs(o.listing, After(lane, id, seen).state.signature);
  }

  // ---- Convergence ----

  // One provider's observations: how many of its probes are reported as failures.
  ghost function Failures(lane: Lane, seen: seq<Observation>): nat
    decreases |seen|
  {
    if seen == [] then 0
    else (if seen[0].Probed? && Fails(lane.state, seen[0]) then 1 else 0) + Failures(Observe(lane, seen[0]), seen[1..])
  }

  ghost function Probes(seen: seq<Observation>): nat {
    if seen == [] then 0 else (if seen[0].Probed? then 1 else 0) + Probes(seen[1..])
  }

  // The probes answer with the same listing and their deep probes pass; playback is free.
  ghost predicate Serves(listing: B.Listing, seen: seq<Observation>) {
    forall i :: 0 <= i < |seen| && seen[i].Probed? ==> seen[i].listing == listing && seen[i].deepOk
  }

  // From any state, a provider that keeps serving one usable listing fails at most two probes
  // ever: none if it is in band, else exactly what the streak still lacks to two.
  lemma {:induction false} Converges(lane: Lane, listing: B.Listing, seen: seq<Observation>)
    requires lane.state.shapeStreak >= 0 && !B.Unusable(listing) && Serves(listing, seen)
    ensures Failures(lane, seen) ==
      if Verdict(lane.state, listing).Healthy? || lane.state.shapeStreak >= 2 then 0
      else Least(Probes(seen), 2 - lane.state.shapeStreak)
    decreases |seen|
  {
    if seen != [] {
      var o := seen[0];
      B.HealthyAgainstItself(listing, lane.state.signature);
      assert Serves(listing, seen[1..]);
      Converges(Observe(lane, o), listing, seen[1..]);
    }
  }

  // A provider that answers nothing usable, or whose deep probes fail, fails every probe.
  lemma {:induction false} NeverExcused(lane: Lane, seen: seq<Observation>)
    requires lane.state.shapeStreak >= 0
    requires forall i :: 0 <= i < |seen| && seen[i].Probed? ==> B.Unusable(seen[i].listing) || !seen[i].deepOk
    ensures Failures(lane, seen) == Probes(seen)
    decreases |seen|
  {
    if seen != [] {
      NeverExcused(Observe(lane, seen[0]), seen[1..]);
    }
  }

  // ---- Issues ----

  ghost predicate Matches(open: nat, failures: int) {
    open == if failures >= 2 then 1 else 0
  }

  ghost predicate Consistent(lane: Lane) {
    Matches(lane.listingIssues, lane.state.consecutiveFailures) && Matches(lane.playbackIssues, lane.state.playFailures)
  }

  // The tracker works whenever this provider is swept.
  ghost predicate AllWorking(id: string, seen: Seen) {
    forall i :: 0 <= i < |seen| && seen[i].0 == id ==> seen[i].1.issues.Some? && Working(seen[i].1.issues.value)
  }

  // With a tracker that works for this provider, after every sweep an issue is open, and only
  // one, exactly for the axes with two failures in a row or more.
  lemma {:induction false} IssuesMatch(lane: Lane, id: string, seen: Seen)
    requires Consistent(lane) && CountersOk(lane.state) && AllWorking(id, seen)
    ensures Consistent(After(lane, id, seen))
  {
    if seen != [] {
      var before := seen[..|seen| - 1];
      assert AllWorking(id, before);
      IssuesMatch(lane, id, before);
      CountersStayOk(lane, id, before);
      assert seen[|seen| - 1].0 == id ==> Working(seen[|seen| - 1].1.issues.value);
    }
  }

  // However the tracker fails, there is never a second open issue for one provider and fault.
  lemma {:induction false} NeverTwoIssues(lane: Lane, id: string, seen: Seen)
    requires lane.listingIssues <= 1 && lane.playbackIssues <= 1
    ensures After(lane, id, seen).listingIssues <= 1 && After(lane, id, seen).playbackIssues <= 1
  {
    if seen != [] {
      NeverTwoIssues(lane, id, seen[..|seen| - 1]);
    }
  }

  // The listing axis of a lane, and the playback axis.
  ghost function ListingAxis(lane: Lane): (int, int, Option<B.Signature>, nat) {
    (lane.state.consecutiveFailures, lane.state.shapeStreak, lane.state.signature, lane.listingIssues)
  }

  ghost function PlaybackAxis(lane: Lane): (int, Option<A.Counters>, nat) {
    (lane.state.playFailures, lane.state.lastPlay, lane.playbackIssues)
  }

  ghost function ProbesOf(id: string, seen: Seen): Seen {
    if seen == [] then []
    else
      var last := seen[|seen| - 1];
      ProbesOf(id, seen[..|seen| - 1]) + if last.0 == id && last.1.Probed? then [last] else []
  }

  ghost function PlaysOf(id: string, seen: Seen): Seen {
    if seen == [] then []
    else
      var last := seen[|seen| - 1];
      PlaysOf(id, seen[..|seen| - 1]) + if last.0 == id && last.1.Played? then [last] else []
  }

  lemma AfterSnoc(lane: Lane, id: string, seen: Seen, last: (string, Observation))
    ensures After(lane, id, seen + [last]) ==
      if last.0 == id then Observe(After(lane, id, seen), last.1) else After(lane, id, seen)
  {
    assert (seen + [last])[..|seen|] == seen;
  }

  // An observation moves its own axis as that axis alone says, and not the other.
  lemma ObserveAxes(lane: Lane, same: Lane, o: Observation)
    ensures ListingAxis(lane) == ListingAxis(same) ==>
      ListingAxis(Observe(lane, o)) == if o.Probed? then ListingAxis(Observe(same, o)) else ListingAxis(same)
    ensures PlaybackAxis(lane) == PlaybackAxis(same) ==>
      PlaybackAxis(Observe(lane, o)) == if o.Played? then PlaybackAxis(Observe(same, o)) else PlaybackAxis(same)
  {}

  // Each axis of a provider, its issue included, is what its own observations alone make of
  // it: the other axis and the other providers leave it untouched.
  lemma {:induction false} ListingIndependent(lane: Lane, id: string, seen: Seen)
    ensures ListingAxis(After(lane, id, seen)) == ListingAxis(After(lane, id, ProbesOf(id, seen)))
  {
    if seen != [] {
      var before, last := seen[..|seen| - 1], seen[|seen| - 1];
      ListingIndependent(lane, id, before);
      AfterSnoc(lane, id, ProbesOf(id, before), last);
      ObserveAxes(After(lane, id, before), After(lane, id, ProbesOf(id, before)), last.1);
      assert ProbesOf(id, before) + [] == ProbesOf(id, before);
    }
  }

  lemma {:induction false} PlaybackIndependent(lane: Lane, id: string, seen: Seen)
    ensures PlaybackAxis(After(lane, id, seen)) == PlaybackAxis(After(lane, id, PlaysOf(id, seen)))
  {
    if seen != [] {
      var before, last := seen[..|seen| - 1], seen[|seen| - 1];
      PlaybackIndependent(lane, id, before);
      AfterSnoc(lane, id, PlaysOf(id, before), last);
      ObserveAxes(After(lane, id, before), After(lane, id, PlaysOf(id, before)), last.1);
      assert PlaysOf(id, before) + [] == PlaysOf(id, before);
    }
  }

  // After an outage, one working probe makes the listing issue right again unless it is a
  // first failure with a stale issue open; the next working probe then does.
  lemma ProbeRepairsIff(lane: Lane, o: Observation)
    requires o.Probed? && o.issues.Some? && Working(o.issues.value)
    requires lane.listingIssues <= 1 && lane.state.consecutiveFailures >= 0
    ensures Matches(Observe(lane, o).listingIssues, Observe(lane, o).state.consecutiveFailures) <==>
      !(Fails(lane.state, o) && lane.state.consecutiveFailures == 0 && lane.listingIssues == 1)
  {}

  lemma TwoProbesRepair(lane: Lane, o: Observation, p: Observation)
    requires o.Probed? && o.issues.Some? && Working(o.issues.value)
    requires p.Probed? && p.issues.Some? && Working(p.issues.value)
    requires lane.listingIssues <= 1 && lane.state.consecutiveFailures >= 0
    ensures var repaired := Observe(Observe(lane, o), p);
      Matches(repaired.listingIssues, repaired.state.consecutiveFailures)
  {
    ProbeRepairsIff(lane, o);
    ProbeRepairsIff(Observe(lane, o), p);
  }

  // The same on the playback axis, counting the sweeps with evidence.
  lemma TwoPlaysRepair(lane: Lane, o: Observation, p: Observation)
    requires o.Played? && o.issues.Some? && Working(o.issues.value)
    requires p.Played? && p.issues.Some? && Working(p.issues.value)
    requires lane.playbackIssues <= 1 && lane.state.playFailures >= 0
    requires !A.Judge(lane.state.lastPlay, o.counters).kind.NoEvidence?
    requires !A.Judge(Some(o.counters), p.counters).kind.NoEvidence?
    ensures var repaired := Observe(Observe(lane, o), p); Matches(repaired.playbackIssues, repaired.state.playFailures)
  {
    assert Observe(lane, o).state.lastPlay == Some(o.counters);
  }
}
