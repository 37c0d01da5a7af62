// versioned_store.py DebouncedSave: one requester and the worker thread it starts. A step is
// one critical section or one write of the file; the two threads' steps interleave freely, and
// a wait on the condition may end at any time.
module DebouncedSave {
  import opened Seqs
  import opened Wrappers

  // The n-th request asks for payload n.
  datatype Worker = NotStarted | Looping | Saving(payload: nat) | Exited

  datatype Requester = Ready | FlushSaving(payload: nat) | SavingNow(payload: nat) | Joining

  datatype State = State(
    pending: Option<nat>,
    closed: bool,
    worker: Worker,
    requester: Requester,
    // The history: how many requests were made, every payload the file held, in order, and the
    // payloads that `flush` wrote while the worker was writing one of its own.
    requested: nat,
    written: seq<nat>,
    overtaking: set<nat>)

  const START := State(None, false, NotStarted, Ready, 0, [], {})

  datatype Step =
    | Request       // request(): record the payload and start the worker; after close, go to write it
    | SaveNow       // request() after close: the immediate write
    | FlushTake     // flush(): consume the pending payload
    | FlushSave     // flush(): write it
    | Close         // close(): mark and notify
    | Joined        // close() returns
    | Take          // worker: consume the pending payload
    | Save          // worker: write it
    | Exit          // worker: closed and nothing pending

  ghost predicate Enabled(s: State, step: Step) {
    match step
    case Request => s.requester.Ready?
    case SaveNow => s.requester.SavingNow?
    case FlushTake => s.requester.Ready?
    case FlushSave => s.requester.FlushSaving?
    case Close => s.requester.Ready?
    case Joined => s.requester.Joining? && (s.worker.NotStarted? || s.worker.Exited?)
    case Take => s.worker.Looping? && s.pending.Some?
    case Save => s.worker.Saving?
    case Exit => s.worker.Looping? && s.closed && s.pending.None?
  }

  ghost function Next(s: State, step: Step): State
    requires Enabled(s, step)
  {
    match step
    case Request =>
      var n := s.requested + 1;
      if s.closed then s.(requested := n, requester := SavingNow(n))
      else s.(requested := n, pending := Some(n), worker := if s.worker.NotStarted? then Looping else s.worker)
    case SaveNow => s.(written := s.written + [s.requester.payload], requester := Ready)
    case FlushTake =>
      if s.pending.None? then s else s.(pending := None, requester := FlushSaving(s.pending.value))
    case FlushSave =>
      var p := s.requester.payload;
      s.(written := s.written + [p], requester := Ready,
         overtaking := if s.worker.Saving? then s.overtaking + {p} else s.overtaking)
    case Close => s.(closed := true, requester := Joining)
    case Joined => s.(requester := Ready)
    case Take => s.(pending := None, worker := Saving(s.pending.value))
    case Save => s.(written := s.written + [s.worker.payload], worker := Looping)
    case Exit => s.(worker := Exited)
  }

  ghost predicate Increasing(xs: seq<nat>) {
    forall i, j :: 0 <= i < j < |xs| ==> xs[i] < xs[j]
  }

  // What the file holds, or 0 before the first write.
  ghost function Disk(s: State): nat {
    if s.written == [] then 0 else s.written[|s.written| - 1]
  }

  // Payload x is accepted and not written yet.
  ghost predicate Awaits(s: State, x: nat) {
    s.pending == Some(x) || s.worker == Saving(x) || s.requester == FlushSaving(x) || s.requester == SavingNow(x)
  }

  ghost predicate AllBelow(xs: seq<nat>, p: nat) {
    forall x :: x in xs ==> x < p
  }

  ghost predicate Threads(s: State) {
    && (s.pending.Some? ==> s.worker.Looping? || s.worker.Saving?)
    && (s.pending.Some? ==> s.pending.value == s.requested && (s.requester.Ready? || s.requester.Joining?))
    && (s.requester.FlushSaving? || s.requester.SavingNow? ==> s.pending.None? && s.requester.payload == s.requested)
    && (s.requester.SavingNow? ==> s.closed)
    && (s.requester.Joining? ==> s.closed)
    && (s.closed ==> s.requester.Joining? || s.worker.NotStarted? || s.worker.Exited?)
    && (s.worker.Exited? ==> s.closed)
    && (s.worker.Saving? ==> s.worker.payload <= s.requested)
    && (s.worker.Saving? && (s.pending.Some? || s.requester.FlushSaving?) ==> s.worker.payload < s.requested)
  }

  // Every write is of one request; the newest one waits, is being written, or was.
  ghost predicate Writes(s: State) {
    && Distinct(s.written)
    && (forall x :: x in s.written ==> 0 < x <= s.requested && !Awaits(s, x))
    && (forall x :: Awaits(s, x) ==> 0 < x)
    && (forall x :: x in s.overtaking ==> x in s.written)
    && (s.requested > 0 && !Awaits(s, s.requested) ==>
          if s.requested in s.overtaking then s.worker.Saving? <==> Disk(s) == s.requested
          else Disk(s) == s.requested && !s.worker.Saving?)
  }

  ghost predicate Order(s: State) {
    && (s.overtaking == {} ==> Increasing(s.written) && forall y :: Awaits(s, y) ==> AllBelow(s.written, y))
    && (s.overtaking != {} ==> !Increasing(s.written) || (s.worker.Saving? && s.worker.payload < Disk(s)))
  }

  ghost predicate Inv(s: State) {
    Threads(s) && Writes(s) && Order(s)
  }

  lemma ThreadsStep(s: State, step: Step)
    requires Threads(s) && Enabled(s, step)
    ensures Threads(Next(s, step))
  {}

  lemma Append(xs: seq<nat>, p: nat)
    ensures Increasing(xs + [p]) <==> Increasing(xs) && AllBelow(xs, p)
    ensures Distinct(xs + [p]) <==> Distinct(xs) && p !in xs
    ensures forall x :: x in xs + [p] <==> x in xs || x == p
    ensures (xs + [p])[|xs|] == p
  {
    var ys := xs + [p];
    assert forall i :: 0 <= i < |xs| ==> ys[i] == xs[i];
    assert ys[|xs|] == p;
    assert forall i :: 0 <= i < |xs| ==> xs[i] in xs;
    if Increasing(ys) {
      forall i, j | 0 <= i < j < |xs| ensures xs[i] < xs[j] {
        assert ys[i] < ys[j];
      }
      forall x | x in xs ensures x < p {
        var i :| 0 <= i < |xs| && xs[i] == x;
        assert ys[i] < ys[|xs|];
      }
    }
    if Distinct(ys) {
      forall i, j | 0 <= i < j < |xs| ensures xs[i] != xs[j] {
        assert ys[i] != ys[j];
      }
      forall i | 0 <= i < |xs| ensures xs[i] != p {
        assert ys[i] != ys[|xs|];
      }
    }
  }

  // The payload a step writes to the file.
  ghost function Writing(s: State, step: Step): Option<nat>
    requires Enabled(s, step)
  {
    match step
    case SaveNow => Some(s.requester.payload)
    case FlushSave => Some(s.requester.payload)
    case Save => Some(s.worker.payload)
    case _ => None
  }

  // A step adds nothing to the unwritten payloads but a new request.
  lemma AwaitsStep(s: State, step: Step)
    requires Threads(s) && Enabled(s, step)
    ensures forall x :: Awaits(Next(s, step), x) ==> Awaits(s, x) || (step.Request? && x == s.requested + 1)
  {}

  lemma WritesStep(s: State, step: Step)
    requires Threads(s) && Writes(s) && Enabled(s, step)
    ensures Writes(Next(s, step))
  {
    AwaitsStep(s, step);
    var w := Writing(s, step);
    if w.Some? {
      Append(s.written, w.value);
      assert Awaits(s, w.value);
    }
  }

  lemma OrderStep(s: State, step: Step)
    requires Inv(s) && Enabled(s, step)
    ensures Order(Next(s, step))
  {
    AwaitsStep(s, step);
    var w := Writing(s, step);
    if w.Some? {
      OrderWrite(s, step, w.value);
    }
  }

  lemma OrderWrite(s: State, step: Step, p: nat)
    requires Inv(s) && Enabled(s, step) && Writing(s, step) == Some(p)
    ensures Order(Next(s, step))
  {
    Append(s.written, p);
    AwaitsStep(s, step);
    assert Awaits(s, p);
    if s.overtaking != {} && step.Save? && Increasing(s.written) {
      assert Disk(s) in s.written && p < Disk(s);
    }
  }

  ghost predicate Runs(s: State, steps: seq<Step>, t: State)
    decreases |steps|
  {
    if steps == [] then s == t else Enabled(s, steps[0]) && Runs(Next(s, steps[0]), steps[1..], t)
  }

  lemma {:induction false} RunKeepsInv(s: State, steps: seq<Step>, t: State)
    requires Inv(s) && Runs(s, steps, t)
    ensures Inv(t)
    decreases |steps|
  {
    if steps != [] {
      ThreadsStep(s, steps[0]);
      WritesStep(s, steps[0]);
      OrderStep(s, steps[0]);
      RunKeepsInv(Next(s, steps[0]), steps[1..], t);
    }
  }

  // In every interleaving no request is written twice; and once the worker has finished its
  // write, the file went through the requests in order if and only if no flush was overtaken.
  lemma InOrderIff(steps: seq<Step>, t: State)
    requires Runs(START, steps, t)
    ensures Distinct(t.written) && forall x :: x in t.written ==> 0 < x <= t.requested
    ensures !t.worker.Saving? ==> (Increasing(t.written) <==> t.overtaking == {})
  {
    RunKeepsInv(START, steps, t);
  }

  // Until the next request, a file that holds the last one keeps it.
  lemma {:induction false} SettledStays(s: State, steps: seq<Step>, t: State)
    requires Inv(s) && s.pending.None? && (s.requester.Ready? || s.requester.Joining?)
    requires !s.worker.Saving? && Runs(s, steps, t) && Request !in steps
    ensures t.written == s.written
    decreases |steps|
  {
    if steps != [] {
      ThreadsStep(s, steps[0]);
      WritesStep(s, steps[0]);
      OrderStep(s, steps[0]);
      SettledStays(Next(s, steps[0]), steps[1..], t);
    }
  }

  // The file holds the last request at every moment until the next request.
  ghost predicate Kept(t: State) {
    forall steps, u :: Runs(t, steps, u) && Request !in steps ==> Disk(u) == t.requested
  }

  // When nothing is pending and the requester is not writing (as when flush or close has
  // returned), the file keeps the last request if and only if the worker is not in the middle
  // of a write and no worker's write outlasted the flush of that request.
  lemma SettledIff(steps: seq<Step>, t: State)
    requires Runs(START, steps, t) && t.requested > 0
    requires t.pending.None? && (t.requester.Ready? || t.requester.Joining?)
    ensures Kept(t) <==> !t.worker.Saving? && t.requested !in t.overtaking
  {
    RunKeepsInv(START, steps, t);
    if !t.worker.Saving? && t.requested !in t.overtaking {
      forall more, u | Runs(t, more, u) && Request !in more ensures Disk(u) == t.requested {
        SettledStays(t, more, u);
      }
    } else if t.worker.Saving? && Disk(t) == t.requested {
      var u := Next(t, Save);
      assert [Save][1..] == [] && Runs(u, [], u);
      assert Runs(t, [Save], u) && Request !in [Save];
      assert Awaits(t, t.worker.payload) && Disk(t) in t.written;
      assert Disk(u) != t.requested;
    } else {
      assert Runs(t, [], t);
    }
  }

  // When close() returns, the file holds the last request, unless its flush was overtaken;
  // then it holds an older one.
  lemma ClosedDisk(steps: seq<Step>, s: State)
    requires Runs(START, steps, s) && Enabled(s, Joined) && s.requested > 0
    ensures Disk(s) == s.requested <==> s.requested !in s.overtaking
    ensures Next(s, Joined).written == s.written
  {
    RunKeepsInv(START, steps, s);
  }

  lemma RunsCons(s: State, step: Step, t: State, rest: seq<Step>, u: State)
    requires Enabled(s, step) && Next(s, step) == t && Runs(t, rest, u)
    ensures Runs(s, [step] + rest, u)
  {
    assert ([step] + rest)[1..] == rest;
  }

  const OVERTAKEN := State(None, true, Exited, Joining, 2, [2, 1], {2})
  const WRITING_FIRST := State(Some(2), false, Saving(1), Ready, 2, [], {})

  lemma FlushDuringWrite()
    ensures exists steps :: Runs(WRITING_FIRST, steps, OVERTAKEN)
  {
    var t := OVERTAKEN;
    RunsCons(State(None, true, Looping, Joining, 2, [2, 1], {2}), Exit, t, [], t);
    RunsCons(State(None, false, Looping, Ready, 2, [2, 1], {2}), Close,
             State(None, true, Looping, Joining, 2, [2, 1], {2}), [Exit] + [], t);
    var rest := [Close] + ([Exit] + []);
    var flushed := State(None, false, Saving(1), Ready, 2, [2], {2});
    RunsCons(flushed, Save, State(None, false, Looping, Ready, 2, [2, 1], {2}), rest, t);
    rest := [Save] + rest;
    var flushing := State(None, false, Saving(1), FlushSaving(2), 2, [], {});
    RunsCons(flushing, FlushSave, flushed, rest, t);
    rest := [FlushSave] + rest;
    RunsCons(WRITING_FIRST, FlushTake, flushing, rest, t);
  }

  // The overtaking is possible: flush during a worker's write, then close.
  lemma FlushOvertaken()
    ensures exists steps, t :: Runs(START, steps, t) && Enabled(t, Joined) && t.requested == 2 && Disk(t) == 1
  {
    FlushDuringWrite();
    var rest :| Runs(WRITING_FIRST, rest, OVERTAKEN);
    var taken := State(None, false, Saving(1), Ready, 1, [], {});
    RunsCons(taken, Request, WRITING_FIRST, rest, OVERTAKEN);
    rest := [Request] + rest;
    var first := State(Some(1), false, Looping, Ready, 1, [], {});
    RunsCons(first, Take, taken, rest, OVERTAKEN);
    rest := [Take] + rest;
    RunsCons(START, Request, first, rest, OVERTAKEN);
  }
}
