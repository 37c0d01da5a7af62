// teleport.py match_fingerprints: where a reference fingerprint occurs in a candidate's.
module Teleport {
  import opened Wrappers
  import opened Ratios

  const TRIM_SECONDS := 2.0
  const MATCHED_CONFIDENCE := 0.80
  const MATCHED_MARGIN := 0.05
  const AMBIGUOUS_FLOOR := 0.60
  const MIN_REFERENCE_HASHES := 30
  const MIN_LOW_ENTROPY_POPCOUNT := 6
  const MAX_LOW_ENTROPY_POPCOUNT := 26
  const MIN_VALID_HASH_FRACTION := 0.60

  datatype Status = Matched | Ambiguous | NoMatch

  datatype Reason = DecodeFailed | ReferenceQuiet | CandidateNoAudio | LowConfidence

  datatype Match = Match(status: Status, offset: Option<real>, confidence: Option<real>, margin: Option<real>,
                         reason: Option<Reason>)

  function Rejected(reason: Reason): Match {
    Match(NoMatch, None, None, None, Some(reason))
  }

  // The hashes are compared in their low 32 bits; Python's `&` is two's complement.
  const WORD := 0x1_0000_0000

  // In how many bits two numbers differ.
  function Differ(a: nat, b: nat): nat
    decreases a + b
  {
    if a == 0 && b == 0 then 0 else (if a % 2 != b % 2 then 1 else 0) + Differ(a / 2, b / 2)
  }

  function HashDistance(a: int, b: int): (d: nat)
    ensures d <= 32
    ensures d == 0 <==> a % WORD == b % WORD
  {
    Within(a % WORD, b % WORD);
    DifferZeroIff(a % WORD, b % WORD);
    Differ(a % WORD, b % WORD)
  }

  function PopCount(x: int): nat {
    HashDistance(x, 0)
  }

  function Two(bits: nat): nat {
    if bits == 0 then 1 else 2 * Two(bits - 1)
  }

  lemma {:induction false} DifferBound(a: nat, b: nat, bits: nat)
    requires a < Two(bits) && b < Two(bits)
    ensures Differ(a, b) <= bits
    decreases bits
  {
    if bits > 0 {
      DifferBound(a / 2, b / 2, bits - 1);
    }
  }

  lemma Regroup(p: nat, q: nat)
    ensures 2 * (p * q) == p * (2 * q)
  {}

  lemma {:induction false} TwoSum(m: nat, n: nat)
    ensures Two(m + n) == Two(m) * Two(n)
    decreases n
  {
    if n > 0 {
      TwoSum(m, n - 1);
      Regroup(Two(m), Two(n - 1));
    }
  }

  lemma Within(a: nat, b: nat)
    requires a < WORD && b < WORD
    ensures Differ(a, b) <= 32
  {
    TwoSum(8, 8);
    TwoSum(16, 16);
    assert Two(8) == 256;
    DifferBound(a, b, 32);
  }

  lemma {:induction false} DifferZeroIff(a: nat, b: nat)
    ensures Differ(a, b) == 0 <==> a == b
    decreases a + b
  {
    if a != 0 || b != 0 {
      DifferZeroIff(a / 2, b / 2);
    }
  }

  function Rate(reference: int, candidate: int, referenceDuration: real, candidateDuration: real): real
    requires candidateDuration > 0.0
  {
    if candidateDuration - referenceDuration > 0.5 && candidate - reference > 0
    then (candidate - reference) as real / (candidateDuration - referenceDuration)
    else candidate as real / candidateDuration
  }

  // Python's `round`: to the nearest integer, ties to the even one.
  function Round(x: real): int {
    var down := x.Floor;
    var rest := x - down as real;
    if rest < 0.5 || (rest == 0.5 && down % 2 == 0) then down else down + 1
  }

  function Trim(rate: real): (t: nat)
    ensures t >= 1
  {
    if Round(TRIM_SECONDS * rate) > 1 then Round(TRIM_SECONDS * rate) else 1
  }

  function Valid(core: seq<int>): (n: nat)
    ensures n <= |core|
  {
    if core == [] then 0
    else (if MIN_LOW_ENTROPY_POPCOUNT <= PopCount(core[0]) <= MAX_LOW_ENTROPY_POPCOUNT then 1 else 0) + Valid(core[1..])
  }

  // Silence, static, or too little variety.
  predicate Quiet(core: seq<int>) {
    || |core| < MIN_REFERENCE_HASHES
    || Valid(core) as real < MIN_VALID_HASH_FRACTION * |core| as real
    || |set h | h in core| < MIN_REFERENCE_HASHES
  }

  // The bits by which the core differs from the candidate's hashes from j on.
  function Distance(core: seq<int>, window: seq<int>): (d: nat)
    requires |core| == |window|
    ensures d <= 32 * |core|
  {
    if core == [] then 0 else HashDistance(core[0], window[0]) + Distance(core[1..], window[1..])
  }

  function Score(core: seq<int>, candidate: seq<int>, j: nat): real
    requires core != [] && j + |core| <= |candidate|
  {
    1.0 - Distance(core, candidate[j..j + |core|]) as real / (32 * |core|) as real
  }

  datatype Scored = Scored(confidence: real, j: nat)

  function Offsets(core: seq<int>, candidate: seq<int>, trim: nat): nat {
    if |candidate| >= |core| + trim then |candidate| - |core| - trim + 1 else 0
  }

  function Scores(core: seq<int>, candidate: seq<int>, trim: nat): (s: seq<Scored>)
    requires core != []
    ensures |s| == Offsets(core, candidate, trim)
    ensures forall i :: 0 <= i < |s| ==> s[i] == Scored(Score(core, candidate, trim + i), trim + i)
  {
    seq(Offsets(core, candidate, trim), i requires 0 <= i < Offsets(core, candidate, trim) =>
      Scored(Score(core, candidate, trim + i), trim + i))
  }

  // Python's `max` of the pairs: the highest confidence, at the largest offset that has it.
  function Best(scores: seq<Scored>): (b: Scored)
    requires scores != []
  {
    if |scores| == 1 then scores[0]
    else
      var b, last := Best(scores[..|scores| - 1]), scores[|scores| - 1];
      if last.confidence > b.confidence || (last.confidence == b.confidence && last.j >= b.j) then last else b
  }

  predicate Far(rate: real, a: nat, b: nat) {
    (if a < b then b - a else a - b) as real > 2.0 * rate
  }

  // The highest confidence further than two seconds of frames from the best; 0 if none is.
  function Second(scores: seq<Scored>, best: nat, rate: real): real {
    if scores == [] then 0.0
    else
      var rest, last := Second(scores[..|scores| - 1], best, rate), scores[|scores| - 1];
      if Far(rate, last.j, best) && last.confidence > rest then last.confidence else rest
  }

  function Verdict(best: Scored, margin: real, trim: nat, rate: real): Match
    requires rate > 0.0
  {
    var offset := (best.j - trim) as real / rate;
    if best.confidence >= MATCHED_CONFIDENCE && margin >= MATCHED_MARGIN then
      Match(Matched, Some(offset), Some(best.confidence), Some(margin), None)
    else if best.confidence >= AMBIGUOUS_FLOOR then
      Match(Ambiguous, Some(offset), Some(best.confidence), Some(margin), Some(LowConfidence))
    else Match(NoMatch, None, Some(best.confidence), Some(margin), Some(LowConfidence))
  }

  method ComputeScores(core: seq<int>, candidate: seq<int>, trim: nat) returns (scores: seq<Scored>)
    requires core != []
    ensures scores == Scores(core, candidate, trim)
  {
    scores := [];
    var j := trim;
    while j + |core| <= |candidate|
      invariant trim <= j && |scores| == j - trim <= Offsets(core, candidate, trim)
      invariant forall i :: 0 <= i < |scores| ==> scores[i] == Scored(Score(core, candidate, trim + i), trim + i)
    {
      scores := scores + [Scored(Score(core, candidate, j), j)];
      j := j + 1;
    }
  }

  // The trimmed reference, searched for in the candidate.
  method SearchFor(core: seq<int>, candidate: seq<int>, trim: nat, rate: real) returns (m: Match)
    requires core != [] && rate > 0.0
    ensures m == Searched(core, candidate, trim, rate)
  {
    if |candidate| < |core| {
      return Rejected(CandidateNoAudio);
    }
    var scores := ComputeScores(core, candidate, trim);
    m := Chosen(scores, trim, rate);
  }

  function Chosen(scores: seq<Scored>, trim: nat, rate: real): Match
    requires rate > 0.0
  {
    if |scores| == 0 then Rejected(CandidateNoAudio)
    else
      var best := Best(scores);
      Verdict(best, best.confidence - Second(scores, best.j, rate), trim, rate)
  }

  method MatchFingerprints(reference: seq<int>, candidate: seq<int>, referenceDuration: real, candidateDuration: real)
    returns (m: Match)
    ensures m == Matching(reference, candidate, referenceDuration, candidateDuration)
  {
    if referenceDuration <= 0.0 || candidateDuration <= 0.0 {
      return Rejected(DecodeFailed);
    }
    if reference == [] || candidate == [] {
      return Rejected(ReferenceQuiet);
    }
    var rate := Rate(|reference|, |candidate|, referenceDuration, candidateDuration);
    if rate <= 0.0 {
      return Rejected(DecodeFailed);
    }
    var trim := Trim(rate);
    if |reference| <= 2 * trim + MIN_REFERENCE_HASHES {
      return Rejected(DecodeFailed);
    }
    var core := CoreOf(reference, trim);
    if Quiet(core) {
      return Rejected(ReferenceQuiet);
    }
    m := SearchFor(core, candidate, trim, rate);
  }

  function CoreOf(reference: seq<int>, trim: nat): seq<int>
    requires 2 * trim <= |reference|
  {
    reference[trim..|reference| - trim]
  }

  function Searched(core: seq<int>, candidate: seq<int>, trim: nat, rate: real): Match
    requires core != [] && rate > 0.0
  {
    if |candidate| < |core| then Rejected(CandidateNoAudio) else Chosen(Scores(core, candidate, trim), trim, rate)
  }

  function AtRate(reference: seq<int>, candidate: seq<int>, rate: real): Match {
    if rate <= 0.0 || |reference| <= 2 * Trim(rate) + MIN_REFERENCE_HASHES then Rejected(DecodeFailed)
    else if Quiet(CoreOf(reference, Trim(rate))) then Rejected(ReferenceQuiet)
    else Searched(CoreOf(reference, Trim(rate)), candidate, Trim(rate), rate)
  }

  // What the matcher answers, guard by guard.
  function Matching(reference: seq<int>, candidate: seq<int>, referenceDuration: real, candidateDuration: real): Match {
    if referenceDuration <= 0.0 || candidateDuration <= 0.0 then Rejected(DecodeFailed)
    else if reference == [] || candidate == [] then Rejected(ReferenceQuiet)
    else AtRate(reference, candidate, Rate(|reference|, |candidate|, referenceDuration, candidateDuration))
  }

  // ---- What the parts compute ----

  function Bit(a: nat, i: nat): nat {
    if i == 0 then a % 2 else Bit(a / 2, i - 1)
  }

  // In how many of their low bits two numbers differ.
  function DifferentBits(a: nat, b: nat, bits: nat): nat {
    if bits == 0 then 0
    else DifferentBits(a, b, bits - 1) + if Bit(a, bits - 1) != Bit(b, bits - 1) then 1 else 0
  }

  lemma {:induction false} DifferentShift(a: nat, b: nat, bits: nat)
    ensures DifferentBits(a, b, bits + 1) == (if a % 2 != b % 2 then 1 else 0) + DifferentBits(a / 2, b / 2, bits)
  {
    if bits > 0 {
      DifferentShift(a, b, bits - 1);
    }
  }

  lemma {:induction false} DifferIs(a: nat, b: nat, bits: nat)
    requires a < Two(bits) && b < Two(bits)
    ensures Differ(a, b) == DifferentBits(a, b, bits)
    decreases bits
  {
    if bits > 0 {
      DifferIs(a / 2, b / 2, bits - 1);
      DifferentShift(a, b, bits - 1);
    }
  }

  // The distance of two hashes is the number of their low 32 bits that differ.
  lemma HashDistanceIs(a: int, b: int)
    ensures HashDistance(a, b) == DifferentBits(a % WORD, b % WORD, 32)
  {
    TwoSum(8, 8);
    TwoSum(16, 16);
    assert Two(8) == 256;
    DifferIs(a % WORD, b % WORD, 32);
  }

  // That of two stretches adds up hash by hash.
  lemma {:induction false} DistanceConcat(xs: seq<int>, ys: seq<int>, us: seq<int>, vs: seq<int>)
    requires |xs| == |us| && |ys| == |vs|
    ensures Distance(xs + ys, us + vs) == Distance(xs, us) + Distance(ys, vs)
  {
    if xs == [] {
      assert xs + ys == ys && us + vs == vs;
    } else {
      assert (xs + ys)[1..] == xs[1..] + ys && (us + vs)[1..] == us[1..] + vs;
      DistanceConcat(xs[1..], ys, us[1..], vs);
    }
  }

  lemma DistanceOfOne(x: int, u: int)
    ensures Distance([x], [u]) == HashDistance(x, u)
  {
    assert [x][1..] == [] && [u][1..] == [];
  }

  // A score is the part of the core's bits that agree.
  lemma ScoreIs(core: seq<int>, candidate: seq<int>, j: nat, bits: real, score: real)
    requires core != [] && j + |core| <= |candidate|
    requires bits == (32 * |core|) as real && score == Score(core, candidate, j)
    ensures score * bits == bits - Distance(core, candidate[j..j + |core|]) as real
  {
    PartOf(Distance(core, candidate[j..j + |core|]) as real, bits, score);
  }

  lemma PartOf(d: real, n: real, score: real)
    requires n > 0.0 && score == 1.0 - d / n
    ensures score * n == n - d
  {
    QuotientBack(d, n);
  }

  // Frames a second: those by which the candidate is longer, over the seconds by which it is; a
  // candidate that is not, by half a second and a frame, gives its own frames over its seconds.
  lemma RateIs(reference: int, candidate: int, longer: real, candidateDuration: real, rate: real)
    requires candidateDuration > 0.0
    requires rate == Rate(reference, candidate, candidateDuration - longer, candidateDuration)
    ensures if longer > 0.5 && candidate > reference then rate * longer == (candidate - reference) as real
      else rate * candidateDuration == candidate as real
  {
    assert candidateDuration - (candidateDuration - longer) == longer;
    if longer > 0.5 && candidate > reference {
      QuotientBack((candidate - reference) as real, longer);
    } else {
      QuotientBack(candidate as real, candidateDuration);
    }
  }

  // Two seconds of frames, to the nearest whole number and at least one; halves go to the even.
  lemma TrimIs(rate: real)
    ensures var t := Trim(rate) as real;
      || (-0.5 < t - 2.0 * rate < 0.5)
      || ((t - 2.0 * rate == 0.5 || t - 2.0 * rate == -0.5) && Trim(rate) % 2 == 0)
      || (t == 1.0 && 2.0 * rate < 1.5)
  {}

  // A core is turned away exactly with fewer than thirty hashes, fewer than thirty different
  // ones, or fewer than three in five of a middling number of bits.
  lemma QuietIff(core: seq<int>)
    ensures Quiet(core) <==> |core| < 30 || |set h | h in core| < 30 || 5 * Valid(core) < 3 * |core|
  {
    assert (5 * Valid(core)) as real == 5.0 * Valid(core) as real;
    assert (3 * |core|) as real == 3.0 * |core| as real;
  }

  lemma {:induction false} ValidConcat(xs: seq<int>, ys: seq<int>)
    ensures Valid(xs + ys) == Valid(xs) + Valid(ys)
  {
    if xs == [] {
      assert xs + ys == ys;
    } else {
      assert (xs + ys)[1..] == xs[1..] + ys;
      ValidConcat(xs[1..], ys);
    }
  }

  lemma ValidOfOne(x: int)
    ensures Valid([x]) == if 6 <= HashDistance(x, 0) <= 26 then 1 else 0
  {
    assert [x][1..] == [];
  }

  // ---- Scores ----

  // Equal in their low 32 bits, hash by hash.
  ghost predicate SameHashes(xs: seq<int>, ys: seq<int>)
    requires |xs| == |ys|
  {
    forall i :: 0 <= i < |xs| ==> xs[i] % WORD == ys[i] % WORD
  }

  lemma {:induction false} DistanceZeroIff(core: seq<int>, window: seq<int>)
    requires |core| == |window|
    ensures Distance(core, window) == 0 <==> SameHashes(core, window)
  {
    if core != [] {
      DistanceZeroIff(core[1..], window[1..]);
      if SameHashes(core[1..], window[1..]) && core[0] % WORD == window[0] % WORD {
        forall i | 0 <= i < |core| ensures core[i] % WORD == window[i] % WORD {
          if i > 0 {
            assert core[1..][i - 1] % WORD == window[1..][i - 1] % WORD;
          }
        }
      }
      if SameHashes(core, window) {
        forall i | 0 <= i < |core[1..]| ensures core[1..][i] % WORD == window[1..][i] % WORD {
          assert core[i + 1] % WORD == window[i + 1] % WORD;
        }
      }
    }
  }

  // A score is between 0 and 1, and 1 exactly where the core occurs.
  lemma ScoreBounds(core: seq<int>, candidate: seq<int>, j: nat)
    requires core != [] && j + |core| <= |candidate|
    ensures 0.0 <= Score(core, candidate, j) <= 1.0
    ensures Score(core, candidate, j) == 1.0 <==> SameHashes(core, candidate[j..j + |core|])
  {
    var d, n := Distance(core, candidate[j..j + |core|]), 32 * |core|;
    DistanceZeroIff(core, candidate[j..j + |core|]);
    Fraction(d, n);
  }

  lemma Fraction(d: nat, n: nat)
    requires d <= n && n > 0
    ensures 0.0 <= d as real / n as real <= 1.0
    ensures d as real / n as real == 0.0 <==> d == 0
  {
    QuotientAtLeast(d as real, n as real, 0.0);
    QuotientAtMost(d as real, n as real, 0.0);
    QuotientAtMost(d as real, n as real, 1.0);
  }

  predicate NoBetter(x: Scored, y: Scored) {
    x.confidence < y.confidence || (x.confidence == y.confidence && x.j <= y.j)
  }

  // The best pair is one of them, none scores higher, and none as high lies further on.
  lemma {:induction false} BestIsMax(scores: seq<Scored>)
    requires scores != []
    ensures Best(scores) in scores
    ensures forall i :: 0 <= i < |scores| ==> NoBetter(scores[i], Best(scores))
  {
    if |scores| > 1 {
      BestIsMax(scores[..|scores| - 1]);
    }
  }

  // The margin is kept to every far pair exactly if it is kept to the second best.
  lemma {:induction false} SecondIsMax(scores: seq<Scored>, best: nat, rate: real)
    requires forall i :: 0 <= i < |scores| ==> scores[i].confidence >= 0.0
    ensures Second(scores, best, rate) >= 0.0
    ensures forall i :: 0 <= i < |scores| && Far(rate, scores[i].j, best) ==>
      scores[i].confidence <= Second(scores, best, rate)
    ensures Second(scores, best, rate) == 0.0 || exists i ::
      0 <= i < |scores| && Far(rate, scores[i].j, best) && scores[i].confidence == Second(scores, best, rate)
  {
    if scores != [] {
      SecondIsMax(scores[..|scores| - 1], best, rate);
    }
  }

  // ---- The verdict ----

  // The reference passes the guards that look at it alone.
  ghost predicate Usable(reference: seq<int>, rate: real) {
    |reference| > 2 * Trim(rate) + MIN_REFERENCE_HASHES && !Quiet(CoreOf(reference, Trim(rate)))
  }

  // The core occurs in the candidate from frame j on, where the search looks.
  ghost predicate OccursAt(core: seq<int>, candidate: seq<int>, trim: nat, j: nat) {
    trim <= j && j + |core| <= |candidate| && SameHashes(core, candidate[j..j + |core|])
  }

  // Every searched frame further than two seconds from `best` scores at least the margin lower.
  ghost predicate Unrivalled(core: seq<int>, candidate: seq<int>, trim: nat, rate: real, best: Scored)
    requires core != []
  {
    forall j: nat :: trim <= j && j + |core| <= |candidate| && Far(rate, j, best.j) ==>
      Score(core, candidate, j) <= best.confidence - MATCHED_MARGIN
  }

  lemma RatePositive(reference: seq<int>, candidate: seq<int>, referenceDuration: real, candidateDuration: real)
    requires reference != [] && candidate != [] && referenceDuration > 0.0 && candidateDuration > 0.0
    ensures Rate(|reference|, |candidate|, referenceDuration, candidateDuration) > 0.0
  {
    var longer, frames := candidateDuration - referenceDuration, |candidate| - |reference|;
    if longer > 0.5 && frames > 0 {
      QuotientPositive(frames as real, longer);
    } else {
      QuotientPositive(|candidate| as real, candidateDuration);
    }
  }

  lemma AllBounded(core: seq<int>, candidate: seq<int>, trim: nat)
    requires core != []
    ensures forall i :: 0 <= i < |Scores(core, candidate, trim)| ==>
      0.0 <= Scores(core, candidate, trim)[i].confidence <= 1.0
  {
    forall i | 0 <= i < |Scores(core, candidate, trim)|
      ensures 0.0 <= Scores(core, candidate, trim)[i].confidence <= 1.0
    {
      ScoreBounds(core, candidate, trim + i);
    }
  }

  // The winner is a searched frame with its score, which lies in [0, 1]; the margin reaches the
  // threshold exactly if no far frame rivals it.
  lemma WinnerMargin(core: seq<int>, candidate: seq<int>, trim: nat, rate: real)
    requires core != [] && Scores(core, candidate, trim) != []
    ensures var best := Best(Scores(core, candidate, trim));
      && trim <= best.j && best.j + |core| <= |candidate| && best.confidence == Score(core, candidate, best.j)
      && 0.0 <= best.confidence <= 1.0
      && (best.confidence >= MATCHED_CONFIDENCE ==>
            (Unrivalled(core, candidate, trim, rate, best) <==>
               best.confidence - Second(Scores(core, candidate, trim), best.j, rate) >= MATCHED_MARGIN))
  {
    var scores := Scores(core, candidate, trim);
    var best := Best(scores);
    AllBounded(core, candidate, trim);
    BestIsMax(scores);
    SecondIsMax(scores, best.j, rate);
    if best.confidence - Second(scores, best.j, rate) >= MATCHED_MARGIN {
      forall j: nat | trim <= j && j + |core| <= |candidate| && Far(rate, j, best.j)
        ensures Score(core, candidate, j) <= best.confidence - MATCHED_MARGIN
      {
        assert scores[j - trim] == Scored(Score(core, candidate, j), j);
      }
    }
  }

  // The search reports a match exactly when the best score reaches the threshold and nothing
  // further than two seconds from it comes within the margin.
  lemma MatchedIff(core: seq<int>, candidate: seq<int>, trim: nat, rate: real)
    requires core != [] && rate > 0.0
    ensures Searched(core, candidate, trim, rate).status.Matched? <==> Stands(core, candidate, trim, rate)
  {
    if Scores(core, candidate, trim) != [] {
      WinnerMargin(core, candidate, trim, rate);
    }
  }

  ghost predicate Stands(core: seq<int>, candidate: seq<int>, trim: nat, rate: real)
    requires core != []
  {
    var scores := Scores(core, candidate, trim);
    && scores != [] && Best(scores).confidence >= MATCHED_CONFIDENCE
    && Unrivalled(core, candidate, trim, rate, Best(scores))
  }

  // The whole answer of a search: without a frame to search, no audio; otherwise the winner's
  // confidence, its margin, and its place in seconds unless the confidence is below 0.60. It is
  // a match from a confidence of 0.80 and a margin of 0.05 on.
  lemma OutcomeIs(core: seq<int>, candidate: seq<int>, trim: nat, rate: real)
    requires core != [] && rate > 0.0
    ensures var m, scores := Searched(core, candidate, trim, rate), Scores(core, candidate, trim);
      && (scores == [] <==> |candidate| < |core| + trim)
      && (scores == [] ==> m == Match(NoMatch, None, None, None, Some(CandidateNoAudio)))
      && (scores != [] ==>
            var best, margin := Best(scores), Best(scores).confidence - Second(scores, Best(scores).j, rate);
            && m.confidence == Some(best.confidence) && m.margin == Some(margin)
            && (m.status.NoMatch? <==> best.confidence < 0.60)
            && (m.status.Matched? <==> best.confidence >= 0.80 && margin >= 0.05)
            && m.offset == (if best.confidence < 0.60 then None else Some((best.j - trim) as real / rate))
            && m.reason == if m.status.Matched? then None else Some(LowConfidence))
  {}

  // Why the matcher turns a pair away before it searches; what it searches otherwise is the
  // reference without two seconds at either end.
  lemma TurnedAwayIff(reference: seq<int>, candidate: seq<int>, referenceDuration: real, candidateDuration: real)
    ensures var m := Matching(reference, candidate, referenceDuration, candidateDuration);
      && (m.reason == Some(DecodeFailed) <==>
            || referenceDuration <= 0.0 || candidateDuration <= 0.0
            || (reference != [] && candidate != [] &&
                  |reference| <= 2 * Trim(Rate(|reference|, |candidate|, referenceDuration, candidateDuration)) + 30))
      && (m.reason == Some(ReferenceQuiet) <==>
            && referenceDuration > 0.0 && candidateDuration > 0.0
            && (reference == [] || candidate == [] ||
                  var trim := Trim(Rate(|reference|, |candidate|, referenceDuration, candidateDuration));
                  |reference| > 2 * trim + 30 && Quiet(reference[trim..|reference| - trim])))
      && (m.reason != Some(DecodeFailed) && m.reason != Some(ReferenceQuiet) ==>
            var rate := Rate(|reference|, |candidate|, referenceDuration, candidateDuration);
            var trim := Trim(rate);
            m == Searched(reference[trim..|reference| - trim], candidate, trim, rate))
  {
    if referenceDuration > 0.0 && candidateDuration > 0.0 && reference != [] && candidate != [] {
      RatePositive(reference, candidate, referenceDuration, candidateDuration);
    }
  }

  // The best score of a candidate that contains the core is 1, and the winner another place
  // of it, or this one.
  lemma ContainedWins(core: seq<int>, candidate: seq<int>, trim: nat, j: nat)
    requires core != [] && OccursAt(core, candidate, trim, j)
    ensures Scores(core, candidate, trim) != []
    ensures var best := Best(Scores(core, candidate, trim));
      best.confidence == 1.0 && OccursAt(core, candidate, trim, best.j) && j <= best.j
  {
    var scores := Scores(core, candidate, trim);
    ScoreBounds(core, candidate, j);
    assert scores[j - trim] == Scored(1.0, j);
    BestIsMax(scores);
    AllBounded(core, candidate, trim);
    var best := Best(scores);
    WinnerMargin(core, candidate, trim, 1.0);
    ScoreBounds(core, candidate, best.j);
    assert NoBetter(scores[j - trim], best);
  }

  lemma SecondsApart(a: nat, b: nat, trim: nat, rate: real)
    requires rate > 0.0 && trim <= a && trim <= b && !Far(rate, a, b)
    ensures -2.0 <= (a - trim) as real / rate - (b - trim) as real / rate <= 2.0
  {
    var p, q := (a - trim) as real, (b - trim) as real;
    var d := (if a < b then b - a else a - b) as real;
    assert p - q == d || p - q == -d;
    QuotientsApart(p, q, rate);
    QuotientsApart(q, p, rate);
  }

  // A candidate that contains the core is never answered with no match: its confidence is 1,
  // and it is a match exactly if no frame further than two seconds from the winner scores above
  // 0.95. A match is then within two seconds of every such occurrence.
  lemma ContainedIsFound(core: seq<int>, candidate: seq<int>, trim: nat, rate: real, j: nat)
    requires core != [] && rate > 0.0 && OccursAt(core, candidate, trim, j)
    ensures Scores(core, candidate, trim) != []
    ensures var best := Best(Scores(core, candidate, trim));
      var m := Searched(core, candidate, trim, rate);
      && !m.status.NoMatch? && m.confidence == Some(1.0) && m.offset == Some((best.j - trim) as real / rate)
      && (m.status.Matched? <==> Unrivalled(core, candidate, trim, rate, best))
      && (m.status.Matched? ==> !Far(rate, j, best.j) && -2.0 <= m.offset.value - (j - trim) as real / rate <= 2.0)
  {
    ContainedWins(core, candidate, trim, j);
    WinnerMargin(core, candidate, trim, rate);
    var best := Best(Scores(core, candidate, trim));
    if Unrivalled(core, candidate, trim, rate, best) {
      ScoreBounds(core, candidate, j);
      assert !Far(rate, j, best.j);
      SecondsApart(best.j, j, trim, rate);
    }
  }

  // The whole matcher, on a reference that occurs in full at frame `at` of the candidate: no
  // guard but the reference's own can turn it away, the answer is never no match, and a match
  // is within two seconds of where the reference starts.
  lemma ReferenceIsFound(reference: seq<int>, candidate: seq<int>, referenceDuration: real, candidateDuration: real,
      rate: real, at: nat)
    requires reference != [] && referenceDuration > 0.0 && candidateDuration > 0.0
    requires rate == Rate(|reference|, |candidate|, referenceDuration, candidateDuration) && Usable(reference, rate)
    requires at + |reference| <= |candidate| && SameHashes(reference, candidate[at..at + |reference|])
    ensures var m := Matching(reference, candidate, referenceDuration, candidateDuration);
      && rate > 0.0 && !m.status.NoMatch? && m.confidence == Some(1.0)
      && (m.status.Matched? ==> m.offset.Some? && -2.0 <= m.offset.value - at as real / rate <= 2.0)
  {
    RatePositive(reference, candidate, referenceDuration, candidateDuration);
    var trim := Trim(rate);
    var core := CoreOf(reference, trim);
    CoreOccurs(reference, candidate, trim, at);
    ContainedIsFound(core, candidate, trim, rate, at + trim);
  }

  lemma CoreOccurs(reference: seq<int>, candidate: seq<int>, trim: nat, at: nat)
    requires 2 * trim <= |reference|
    requires at + |reference| <= |candidate| && SameHashes(reference, candidate[at..at + |reference|])
    ensures OccursAt(CoreOf(reference, trim), candidate, trim, at + trim)
  {
    var core := CoreOf(reference, trim);
    var whole, window := candidate[at..at + |reference|], candidate[at + trim..at + trim + |core|];
    forall i | 0 <= i < |core| ensures core[i] % WORD == window[i] % WORD {
      assert core[i] == reference[i + trim] && window[i] == whole[i + trim];
    }
  }

  // A constant reference, such as silence, never matches anything.
  lemma ConstantNeverMatches(reference: seq<int>, candidate: seq<int>, referenceDuration: real, candidateDuration: real)
    requires forall i, j :: 0 <= i < j < |reference| ==> reference[i] == reference[j]
    ensures Matching(reference, candidate, referenceDuration, candidateDuration).status.NoMatch?
    ensures Matching(reference, candidate, referenceDuration, candidateDuration).confidence.None?
  {
    if |reference| > 0 && candidateDuration > 0.0 {
      var trim := Trim(Rate(|reference|, |candidate|, referenceDuration, candidateDuration));
      if |reference| > 2 * trim + MIN_REFERENCE_HASHES {
        var core := CoreOf(reference, trim);
        var x := reference[0];
        assert forall h :: h in core ==> h == x;
        var hashes := set h | h in core;
        assert hashes <= {x};
        SubsetSize(hashes, {x});
      }
    }
  }

  lemma SubsetSize(a: set<int>, b: set<int>)
    requires a <= b
    ensures |a| <= |b|
  {
    assert b == a + (b - a);
  }
}
