// resolution.py resolve_group_content: one resolution per group key at a time, shared by
// whoever asks meanwhile. A step is what runs between two awaits.
module SingleFlight {
  import opened Wrappers

  type Key = string
  type Verdict = nat

  // A resolution task, created for a key by the caller that leads it.
  datatype Task = Task(key: Key, leader: nat, verdict: Option<Verdict>)

  // A caller awaiting a resolution, or the one whose verdict it returned.
  datatype Caller = Waiting(task: nat) | Returned(task: nat, verdict: Verdict)

  // Tasks are numbered in order of creation; `_resolve_inflight` is the map.
  datatype State = State(inflight: map<Key, nat>, tasks: seq<Task>, callers: map<nat, Caller>)

  datatype Step =
    | Arrive(caller: nat, key: Key)
    | Finish(task: nat, verdict: Verdict)
    | Wake(caller: nat)

  const START := State(map[], [], map[])

  ghost predicate Enabled(s: State, step: Step) {
    match step
    case Arrive(c, _) => c !in s.callers
    case Finish(t, _) => t < |s.tasks| && s.tasks[t].verdict.None?
    case Wake(c) =>
      && c in s.callers && s.callers[c].Waiting? && s.callers[c].task < |s.tasks|
      && s.tasks[s.callers[c].task].verdict.Some?
  }

  ghost function Next(s: State, step: Step): State
    requires Enabled(s, step)
  {
    match step
    case Arrive(c, key) =>
      if key in s.inflight then s.(callers := s.callers[c := Waiting(s.inflight[key])])
      else
        var t := |s.tasks|;
        State(s.inflight[key := t], s.tasks + [Task(key, c, None)], s.callers[c := Waiting(t)])
    case Finish(t, v) =>
      s.(tasks := s.tasks[t := s.tasks[t].(verdict := Some(v))])
    case Wake(c) =>
      var t := s.callers[c].task;
      var task := s.tasks[t];
      // The leader's `finally` drops the entry if it still is its own task.
      var inflight := if task.leader == c && task.key in s.inflight && s.inflight[task.key] == t
                      then s.inflight - {task.key} else s.inflight;
      State(inflight, s.tasks, s.callers[c := Returned(t, task.verdict.value)])
  }

  ghost predicate Inv(s: State) {
    // The map leads to a task of that key, whose leader is still waiting for it.
    && (forall key :: key in s.inflight ==> Led(s, key))
    // An unfinished task is the one in the map under its key.
    && (forall t :: 0 <= t < |s.tasks| && s.tasks[t].verdict.None? ==>
          s.tasks[t].key in s.inflight && s.inflight[s.tasks[t].key] == t)
    // A task stays in the map until the caller that leads it wakes.
    && (forall t :: 0 <= t < |s.tasks| ==> Leads(s, t))
    // Callers await existing tasks, and returned what their task concluded.
    && (forall c :: c in s.callers ==> Bound(s, c))
  }

  ghost predicate Led(s: State, key: Key)
    requires key in s.inflight
  {
    var t := s.inflight[key];
    && t < |s.tasks| && s.tasks[t].key == key && s.tasks[t].leader in s.callers
    && s.callers[s.tasks[t].leader] == Waiting(t)
  }

  ghost predicate Leads(s: State, t: nat)
    requires t < |s.tasks|
  {
    var task := s.tasks[t];
    && task.leader in s.callers && s.callers[task.leader].task == t
    && (s.callers[task.leader].Waiting? ==> task.key in s.inflight && s.inflight[task.key] == t)
  }

  ghost predicate Bound(s: State, c: nat)
    requires c in s.callers
  {
    var t := s.callers[c].task;
    t < |s.tasks| && (s.callers[c].Returned? ==> s.tasks[t].verdict == Some(s.callers[c].verdict))
  }

  lemma StepKeepsInv(s: State, step: Step)
    requires Inv(s) && Enabled(s, step)
    ensures Inv(Next(s, step))
  {
    var n := Next(s, step);
    forall key | key in n.inflight ensures Led(n, key) {
      assert key in s.inflight ==> Led(s, key);
    }
    forall t | 0 <= t < |n.tasks| ensures Leads(n, t) {
      assert t < |s.tasks| ==> Leads(s, t);
    }
    forall c | c in n.callers ensures Bound(n, c) {
      assert c in s.callers ==> Bound(s, c);
    }
  }

  ghost predicate Runs(s: State, steps: seq<Step>, t: State)
    decreases |steps|
  {
    if steps == [] then s == t
    else Enabled(s, steps[0]) && Runs(Next(s, steps[0]), steps[1..], t)
  }

  lemma {:induction false} RunKeepsInv(s: State, steps: seq<Step>, t: State)
    requires Inv(s) && Runs(s, steps, t)
    ensures Inv(t)
    decreases |steps|
  {
    if steps != [] {
      StepKeepsInv(s, steps[0]);
      RunKeepsInv(Next(s, steps[0]), steps[1..], t);
    }
  }

  // In every interleaving: never two unfinished resolutions of one key; the map holds exactly
  // the resolutions whose leader has not returned yet; once nobody is waiting it is empty.
  lemma OneFlightPerKey(steps: seq<Step>, t: State)
    requires Runs(START, steps, t)
    ensures forall a, b | 0 <= a < |t.tasks| && 0 <= b < |t.tasks| && t.tasks[a].key == t.tasks[b].key ::
      t.tasks[a].verdict.None? && t.tasks[b].verdict.None? ==> a == b
    ensures forall a :: 0 <= a < |t.tasks| ==>
      && t.tasks[a].leader in t.callers
      && (t.callers[t.tasks[a].leader].Waiting? <==> InFlight(t, a))
    ensures (forall c :: c in t.callers ==> t.callers[c].Returned?) ==> t.inflight == map[]
  {
    RunKeepsInv(START, steps, t);
    forall a | 0 <= a < |t.tasks|
      ensures t.tasks[a].leader in t.callers && (t.callers[t.tasks[a].leader].Waiting? <==> InFlight(t, a))
    {
      assert Leads(t, a);
      assert InFlight(t, a) ==> Led(t, t.tasks[a].key);
    }
    if forall c :: c in t.callers ==> t.callers[c].Returned? {
      forall key ensures key !in t.inflight {}
    }
  }

  ghost predicate InFlight(s: State, t: nat)
    requires t < |s.tasks|
  {
    s.tasks[t].key in s.inflight && s.inflight[s.tasks[t].key] == t
  }

  // What a caller is bound to at the moment it arrives.
  ghost function BoundTo(s: State, key: Key): nat {
    if key in s.inflight then s.inflight[key] else |s.tasks|
  }

  lemma {:induction false} BindingStays(s: State, steps: seq<Step>, t: State, c: nat)
    requires Inv(s) && Runs(s, steps, t) && c in s.callers
    ensures c in t.callers && t.callers[c].task == s.callers[c].task
    ensures |s.tasks| <= |t.tasks| && t.tasks[s.callers[c].task].key == s.tasks[s.callers[c].task].key
    decreases |steps|
  {
    if steps != [] {
      StepKeepsInv(s, steps[0]);
      BindingStays(Next(s, steps[0]), steps[1..], t, c);
    }
  }

  // Every caller that returns has the verdict of the resolution that was in the map when it
  // arrived, or of the one it created then: one for the key it asked for.
  lemma VerdictIsShared(before: seq<Step>, s: State, c: nat, key: Key, after: seq<Step>, t: State)
    requires Runs(START, before, s) && Enabled(s, Arrive(c, key)) && Runs(Next(s, Arrive(c, key)), after, t)
    ensures c in t.callers && t.callers[c].task == BoundTo(s, key) < |t.tasks|
    ensures t.tasks[BoundTo(s, key)].key == key
    ensures t.callers[c].Returned? ==> t.tasks[BoundTo(s, key)].verdict == Some(t.callers[c].verdict)
  {
    RunKeepsInv(START, before, s);
    StepKeepsInv(s, Arrive(c, key));
    RunKeepsInv(Next(s, Arrive(c, key)), after, t);
    BindingStays(Next(s, Arrive(c, key)), after, t, c);
  }
}
