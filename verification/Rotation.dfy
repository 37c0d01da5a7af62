// drift/probe.py rotate_deep_providers: which providers one day's run probes deeply.
module Rotation {
  import opened Seqs
  import opened Lex
  import opened Modular

  // Python's floor division; Dafny's agrees with it for a positive divisor.
  function FloorDiv(a: int, b: int): int
    requires b != 0
  {
    if b > 0 then a / b else (-a) / (-b)
  }

  function StepSize(count: nat, everyDays: int): (step: nat)
    requires everyDays != 0
    ensures step >= 1 && (count >= 1 && everyDays >= 1 ==> step <= count)
  {
    var step := FloorDiv(count + everyDays - 1, everyDays);
    if count >= 1 && everyDays >= 1 then
      CeilAtMost(count, everyDays);
      if step > 1 then step else 1
    else if step > 1 then step else 1
  }

  lemma CeilAtMost(count: nat, n: int)
    requires count >= 1 && n >= 1
    ensures 1 <= (count + n - 1) / n <= count
    ensures ((count + n - 1) / n) * n >= count
  {
    var q := (count + n - 1) / n;
    assert q * n <= count + n - 1 < (q + 1) * n;
    assert count * n >= count;
    LeByMul(q, count, n);
  }

  function Eligible(ids: seq<string>, excluded: set<string>): seq<string> {
    if ids == [] then []
    else if ids[0] in excluded then Eligible(ids[1..], excluded)
    else [ids[0]] + Eligible(ids[1..], excluded)
  }

  // The `step` entries from `start` on, around the end of the list.
  function Window(ids: seq<string>, start: nat, step: nat): (w: seq<string>)
    requires ids != []
    ensures |w| == step
  {
    seq(step, i => ids[(start + i) % |ids|])
  }

  function Subset(ids: seq<string>, day: int, everyDays: int): set<string>
    requires everyDays != 0
  {
    if ids == [] then {}
    else
      var step := StepSize(|ids|, everyDays);
      Elements(Window(ids, (day * step) % |ids|, step))
  }

  method RotateDeepProviders(providerIds: seq<string>, excluded: set<string>, dayOffset: int, everyDays: int)
    returns (subset: set<string>)
    requires everyDays != 0
    ensures subset == Subset(Eligible(providerIds, excluded), dayOffset, everyDays)
  {
    var ids := Eligible(providerIds, excluded);
    if ids == [] {
      return {};
    }
    var step := StepSize(|ids|, everyDays);
    var picked := Pick(ids, (dayOffset * step) % |ids|, step);
    subset := set x | x in picked;
  }

  method Pick(ids: seq<string>, start: nat, step: nat) returns (picked: seq<string>)
    requires start < |ids|
    ensures picked == Window(ids, start, step)
  {
    picked := [];
    var i := start;
    ghost var k := 0;
    while |picked| < step
      invariant |picked| == k <= step && 0 <= i < |ids| && i == (start + k) % |ids|
      invariant picked == Window(ids, start, step)[..k]
      decreases step - |picked|
    {
      WindowGrows(ids, start, step, k);
      NextIndex(start, k, |ids|);
      picked := picked + [ids[i]];
      i := (i + 1) % |ids|;
      k := k + 1;
    }
  }

  lemma WindowGrows(ids: seq<string>, start: nat, step: nat, k: nat)
    requires ids != [] && k < step
    ensures Window(ids, start, step)[..k + 1] == Window(ids, start, step)[..k] + [ids[(start + k) % |ids|]]
  {}

  lemma NextIndex(start: nat, k: nat, n: nat)
    requires n > 0
    ensures ((start + k) % n + 1) % n == (start + (k + 1)) % n
  {
    SameRemainder((start + k) % n + 1, start + (k + 1), n, (start + k) / n);
  }

  // The entry at position `day * step + i` of the endless list is in that day's subset.
  lemma InSubset(ids: seq<string>, day: int, everyDays: int, i: nat)
    requires ids != [] && everyDays != 0 && i < StepSize(|ids|, everyDays)
    ensures ids[(day * StepSize(|ids|, everyDays) + i) % |ids|] in Subset(ids, day, everyDays)
  {
    var step, n := StepSize(|ids|, everyDays), |ids|;
    var start := (day * step) % n;
    SameRemainder(start + i, day * step + i, n, (day * step) / n);
    var w := Window(ids, start, step);
    assert w[i] in w;
  }

  ghost function Days(ids: seq<string>, day: int, everyDays: int, days: nat): set<string>
    requires everyDays != 0
  {
    if days == 0 then {} else Days(ids, day, everyDays, days - 1) + Subset(ids, day + days - 1, everyDays)
  }

  lemma {:induction false} InDays(ids: seq<string>, day: int, everyDays: int, days: nat, k: nat, x: string)
    requires everyDays != 0 && k < days && x in Subset(ids, day + k, everyDays)
    ensures x in Days(ids, day, everyDays, days)
  {
    if k < days - 1 {
      InDays(ids, day, everyDays, days - 1, k, x);
    }
  }

  // Offset 0 <= q < days * step falls on one of the days, at one of its places.
  lemma Place(q: nat, step: nat, days: nat)
    requires step >= 1 && q < days * step
    ensures q / step < days && q == (q / step) * step + q % step && q % step < step
  {
    assert (q / step) * step <= q < ((days - 1) + 1) * step;
    LeByMul(q / step, days - 1, step);
  }

  lemma Covered(ids: seq<string>, day: int, everyDays: int, days: nat, k: nat)
    requires k < |ids| && everyDays != 0 && days * StepSize(|ids|, everyDays) >= |ids|
    ensures ids[k] in Days(ids, day, everyDays, days)
  {
    var n, step := |ids|, StepSize(|ids|, everyDays);
    var q := (k - day * step) % n;
    Place(q, step, days);
    var d, i := q / step, q % step;
    OnDay(day, d, i, step, q);
    BackToPlace(k, day * step, n);
    InSubset(ids, day + d, everyDays, i);
    InDays(ids, day, everyDays, days, d, ids[k]);
  }

  lemma OnDay(day: int, d: nat, i: nat, step: nat, q: nat)
    requires q == d * step + i
    ensures (day + d) * step + i == day * step + q
  {}

  lemma BackToPlace(k: nat, from: int, n: nat)
    requires k < n
    ensures (from + (k - from) % n) % n == k
  {
    SameRemainder(from + (k - from) % n, k, n, (k - from) / n);
    Remainder(k, n, 0, k);
  }

  lemma {:induction false} SizeOfDays(ids: seq<string>, day: int, everyDays: int, days: nat)
    requires ids != [] && everyDays != 0
    ensures |Days(ids, day, everyDays, days)| <= days * StepSize(|ids|, everyDays)
    ensures forall x :: x in Days(ids, day, everyDays, days) ==> x in ids
  {
    var step := StepSize(|ids|, everyDays);
    if days > 0 {
      SizeOfDays(ids, day, everyDays, days - 1);
      var w := Window(ids, ((day + days - 1) * step) % |ids|, step);
      SizeOfElements(w);
      assert Subset(ids, day + days - 1, everyDays) == Elements(w);
      SizeOfUnion(Days(ids, day, everyDays, days - 1), Elements(w));
      OneMore(days, step);
    }
  }

  lemma SizeOfUnion(a: set<string>, b: set<string>)
    ensures |a + b| <= |a| + |b|
  {
    assert |a + b| == |a| + |b| - |a * b|;
  }

  lemma OneMore(days: nat, step: nat)
    requires days >= 1
    ensures days * step == (days - 1) * step + step
  {}

  // The rotation is over the providers that are not excluded, each once.
  lemma {:induction false} EligibleIs(ids: seq<string>, excluded: set<string>)
    requires Distinct(ids)
    ensures Distinct(Eligible(ids, excluded))
    ensures forall x :: x in Eligible(ids, excluded) <==> x in ids && x !in excluded
  {
    if ids != [] {
      var rest := ids[1..];
      assert forall i :: 0 <= i < |rest| ==> rest[i] == ids[i + 1];
      assert forall x :: x in ids <==> x == ids[0] || x in rest;
      EligibleIs(rest, excluded);
    }
  }

  // From any day on, the subsets of a number of consecutive days cover every provider exactly
  // when that many days' probes are at least as many as the providers.
  lemma CoverageIff(ids: seq<string>, day: int, everyDays: int, days: nat)
    requires ids != [] && everyDays != 0 && Distinct(ids)
    ensures Days(ids, day, everyDays, days) == Elements(ids) <==> days * StepSize(|ids|, everyDays) >= |ids|
  {
    SizeOfDays(ids, day, everyDays, days);
    DistinctCount(ids);
    if days * StepSize(|ids|, everyDays) >= |ids| {
      forall x | x in ids ensures x in Days(ids, day, everyDays, days) {
        var k :| 0 <= k < |ids| && ids[k] == x;
        Covered(ids, day, everyDays, days, k);
      }
    }
  }

  const FOUR := ["a", "b", "c", "d"]

  // Four providers over a period of three days: two a day, so two days cover them all.
  lemma EarlyCoverage(day: int)
    ensures Days(FOUR, day, 3, 2) == Elements(FOUR)
  {
    assert StepSize(4, 3) == 2;
    CoverageIff(FOUR, day, 3, 2);
  }

  // So the period covers every provider once it is over, whatever day it starts; each subset
  // has ceil(count / period) providers.
  lemma FullPeriod(ids: seq<string>, day: int, everyDays: int)
    requires ids != [] && everyDays >= 1 && Distinct(ids)
    ensures Days(ids, day, everyDays, everyDays) == Elements(ids)
    ensures |Subset(ids, day, everyDays)| == StepSize(|ids|, everyDays) == (|ids| + everyDays - 1) / everyDays
  {
    PeriodSuffices(|ids|, everyDays);
    CoverageIff(ids, day, everyDays, everyDays);
    DistinctWindow(ids, (day * StepSize(|ids|, everyDays)) % |ids|, StepSize(|ids|, everyDays));
  }

  lemma PeriodSuffices(count: nat, n: int)
    requires count >= 1 && n >= 1
    ensures StepSize(count, n) == (count + n - 1) / n && n * StepSize(count, n) >= count
  {
    CeilAtMost(count, n);
  }

  lemma DistinctWindow(ids: seq<string>, start: nat, step: nat)
    requires ids != [] && Distinct(ids) && step <= |ids|
    ensures |Elements(Window(ids, start, step))| == step
  {
    var w := Window(ids, start, step);
    forall i, j | 0 <= i < j < step ensures w[i] != w[j] {
      DistinctPlaces(start, i, j, |ids|);
    }
    DistinctCount(w);
  }

  lemma DistinctPlaces(start: nat, i: nat, j: nat, n: nat)
    requires i < j < n + i
    ensures (start + i) % n != (start + j) % n
  {
    if (start + i) % n == (start + j) % n {
      var a, b := (start + i) / n, (start + j) / n;
      Apart(a, b, start + i, start + j, n, (start + i) % n);
    }
  }

  lemma Apart(a: int, b: int, x: int, y: int, n: int, r: int)
    requires n >= 1 && x == a * n + r && y == b * n + r && x < y
    ensures y - x >= n
  {
    assert (b - a) * n == y - x;
    LeByMul(a, b, n);
    assert b - a >= 1;
  }
}
