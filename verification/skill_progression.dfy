/** Skill progression rules: a cumulative explanation count determines one of
    three tiers, and the progress queries interpolate between the floor of a
    tier and the floor of the next one (src/hooks/useLocalSession.tsx). */
module SkillProgression {
  import opened Wrappers

  /** The three tiers, in ascending order. */
  datatype SkillLevel = Beginner | Intermediate | Advanced

  /** Position of a tier in the ascending order. */
  function Rank(level: SkillLevel): nat {
    match level
    case Beginner => 0
    case Intermediate => 1
    case Advanced => 2
  }

  /** The `min` column of the threshold table: 0, 10 and 50 in tier order. */
  function MinOf(level: SkillLevel): (m: nat)
    ensures m == [0, 10, 50][Rank(level)]
    ensures m == 0 <==> level == Beginner
  {
    match level
    case Beginner => 0
    case Intermediate => 10
    case Advanced => 50
  }

  /** The `max` column of the threshold table; `None` stands for Infinity.
      Each bounded tier ends one below the floor of the next tier. */
  function MaxOf(level: SkillLevel): (m: Option<nat>)
    ensures m.None? <==> level == Advanced
    ensures m.Some? ==> m.value + 1 == MinOf(Successor(level).value)
  {
    match level
    case Beginner => Some(9)
    case Intermediate => Some(49)
    case Advanced => None
  }

  /** The tier after `level`, if any. */
  function Successor(level: SkillLevel): (next: Option<SkillLevel>)
    ensures next.None? <==> level == Advanced
    ensures next.Some? ==> Rank(next.value) == Rank(level) + 1
  {
    match level
    case Beginner => Some(Intermediate)
    case Intermediate => Some(Advanced)
    case Advanced => None
  }

  /** `e` lies in the closed band [min, max] the table gives for `level`. */
  predicate InBand(e: int, level: SkillLevel) {
    MinOf(level) <= e && (MaxOf(level).Some? ==> e <= MaxOf(level).value)
  }

  /** The tier for a cumulative explanation count, checking the floors from
      the top down; counts below zero fall through to beginner. */
  function CalculateSkillLevel(explanations: int): (level: SkillLevel)
    ensures explanations >= 0 ==> InBand(explanations, level)
    ensures explanations < 0 ==> level == Beginner
  {
    if explanations >= MinOf(Advanced) then Advanced
    else if explanations >= MinOf(Intermediate) then Intermediate
    else Beginner
  }

  /** Every non-negative count lies in exactly one band, the one
      CalculateSkillLevel picks. */
  lemma BandIsUnique(e: int, level: SkillLevel)
    requires e >= 0
    ensures InBand(e, level) <==> level == CalculateSkillLevel(e)
  {
  }

  /** More explanations never give a lower tier. */
  lemma CalculateSkillLevelMonotone(a: int, b: int)
    requires a <= b
    ensures Rank(CalculateSkillLevel(a)) <= Rank(CalculateSkillLevel(b))
  {
  }

  /** `q` is what `Math.round(num / den)` yields: the nearest integer to the
      quotient, a half rounded up (q - 1/2 <= num/den < q + 1/2). */
  predicate IsRoundOf(q: int, num: int, den: int)
    requires den > 0
  {
    2 * den * q - den <= 2 * num < 2 * den * q + den
  }

  /** `Math.round(num / den)` over exact rationals: floor(num/den + 1/2). */
  function RoundDiv(num: int, den: int): (q: int)
    requires den > 0
    ensures IsRoundOf(q, num, den)
  {
    (2 * num + den) / (2 * den)
  }

  /** Only one integer is the rounding of a quotient. */
  lemma RoundOfUnique(q1: int, q2: int, num: int, den: int)
    requires den > 0
    requires IsRoundOf(q1, num, den) && IsRoundOf(q2, num, den)
    ensures q1 == q2
  {
    if q1 < q2 {
      assert 2 * den * (q2 - q1) < 2 * den;
      MulStrictBound(den, q2 - q1);
    } else if q2 < q1 {
      assert 2 * den * (q1 - q2) < 2 * den;
      MulStrictBound(den, q1 - q2);
    }
  }

  lemma MulStrictBound(den: int, k: int)
    requires den > 0 && k >= 1
    ensures 2 * den * k >= 2 * den
  {
  }

  /** Rounding is monotone in the numerator. */
  lemma RoundDivMonotone(a: int, b: int, den: int)
    requires den > 0 && a <= b
    ensures RoundDiv(a, den) <= RoundDiv(b, den)
  {
    var qa, qb := RoundDiv(a, den), RoundDiv(b, den);
    if qb < qa {
      assert 2 * den * (qa - qb) < 2 * den;
      MulStrictBound(den, qa - qb);
    }
  }

  /** Percentage of the way from the floor of `currentLevel` to the floor of
      the next tier, rounded and capped at 100; `None` at the top tier. */
  function ProgressToNextLevel(explanations: int, currentLevel: SkillLevel): (r: Option<int>)
    ensures r.None? <==> currentLevel == Advanced
    ensures r.Some? ==> r.value <= 100
    ensures r.Some? ==>
      var lo, hi := MinOf(currentLevel), MinOf(Successor(currentLevel).value);
      (r.value < 100 ==> IsRoundOf(r.value, 100 * (explanations - lo), hi - lo)) &&
      (r.value == 100 ==> 2 * 100 * (explanations - lo) >= 2 * 100 * (hi - lo) - (hi - lo))
  {
    match Successor(currentLevel)
    case None => None
    case Some(nextLevel) =>
      var range := MinOf(nextLevel) - MinOf(currentLevel);
      var progress := explanations - MinOf(currentLevel);
      var rounded := RoundDiv(100 * progress, range);
      Some(if rounded < 100 then rounded else 100)
  }

  /** At the floor of a tier that has a successor the progress is 0. */
  lemma ProgressZeroAtFloor(level: SkillLevel)
    requires level != Advanced
    ensures ProgressToNextLevel(MinOf(level), level) == Some(0)
  {
  }

  /** When the tier is the one the count determines, the progress lies in
      [0, 100): it is never negative and the cap is never reached. */
  lemma ProgressInRangeWhenConsistent(e: int)
    requires e >= 0
    ensures CalculateSkillLevel(e) != Advanced ==>
      var p := ProgressToNextLevel(e, CalculateSkillLevel(e));
      p.Some? && 0 <= p.value < 100
  {
    var level := CalculateSkillLevel(e);
    if level != Advanced {
      var lo, hi := MinOf(level), MinOf(Successor(level).value);
      RoundDivMonotone(0, 100 * (e - lo), hi - lo);
      RoundDivMonotone(100 * (e - lo), 100 * (hi - 1 - lo), hi - lo);
    }
  }

  /** For a fixed tier the progress never decreases as the count grows. */
  lemma ProgressMonotone(a: int, b: int, level: SkillLevel)
    requires a <= b
    requires level != Advanced
    ensures ProgressToNextLevel(a, level).value <= ProgressToNextLevel(b, level).value
  {
    var lo, hi := MinOf(level), MinOf(Successor(level).value);
    RoundDivMonotone(100 * (a - lo), 100 * (b - lo), hi - lo);
  }

  /** What the next tier is and how many explanations are still missing. */
  datatype NextLevelInfo = NextLevelInfo(nextLevel: SkillLevel, threshold: nat, remaining: nat)

  /** The next tier, its floor and the explanations missing to reach it
      (never negative); `None` at the top tier. */
  function NextLevel(explanations: int, currentLevel: SkillLevel): (r: Option<NextLevelInfo>)
    ensures r.None? <==> currentLevel == Advanced
    ensures r.Some? ==> Successor(currentLevel) == Some(r.value.nextLevel)
    ensures r.Some? ==> r.value.threshold == MinOf(r.value.nextLevel)
    ensures r.Some? ==> (r.value.remaining == 0 <==> explanations >= r.value.threshold)
    ensures r.Some? && r.value.remaining > 0 ==> explanations + r.value.remaining == r.value.threshold
  {
    match Successor(currentLevel)
    case None => None
    case Some(nextLevel) =>
      var threshold := MinOf(nextLevel);
      var remaining := threshold - explanations;
      Some(NextLevelInfo(nextLevel, threshold, if remaining > 0 then remaining else 0))
  }

  /** When the tier is the one the count determines, something is always
      still missing, and the progress percentage and the remaining count
      describe the same position. */
  lemma NextLevelAgreesWithProgress(e: int)
    requires e >= 0
    requires CalculateSkillLevel(e) != Advanced
    ensures
      var level := CalculateSkillLevel(e);
      var info := NextLevel(e, level).value;
      info.remaining > 0 &&
      IsRoundOf(ProgressToNextLevel(e, level).value,
                100 * (info.threshold - info.remaining - MinOf(level)),
                info.threshold - MinOf(level))
  {
    ProgressInRangeWhenConsistent(e);
  }
}
