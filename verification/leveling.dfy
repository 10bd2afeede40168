/**
 * The leveling rule: how much XP leaves a level, and the chained level-up a
 * message's gain can trigger on the monthly track.
 */
module Leveling {

  /** The loop in the message handler stops at this level. */
  const MaxLevel: nat := 100

  /** `xp_para_subir`: the XP needed to leave `level`; 100 at level 1, seven more per level. */
  function Threshold(level: int): (t: int)
    ensures level >= 0 ==> t >= 93
  {
    100 + 7 * (level - 1)
  }

  lemma ThresholdSteps(level: int)
    ensures Threshold(1) == 100
    ensures Threshold(level + 1) == Threshold(level) + 7
    ensures level >= 0 ==> Threshold(level) >= 93
  {
  }

  /** The monthly XP and level the level-up loop works on. */
  datatype Progress = Progress(xp: nat, level: nat)

  /** The guard of the level-up loop. */
  predicate CanAdvance(p: Progress)
  {
    p.level < MaxLevel && p.xp >= Threshold(p.level)
  }

  /** One iteration of the loop: pay the threshold, go up one level. */
  function Advance(p: Progress): (q: Progress)
    requires CanAdvance(p)
    ensures q.level == p.level + 1 && q.xp + 93 <= p.xp
  {
    Progress(p.xp - Threshold(p.level), p.level + 1)
  }

  /** Where the loop leaves the monthly track. */
  function LevelUp(p: Progress): (r: Progress)
    ensures p.level <= r.level
    ensures p.level <= MaxLevel ==> r.level <= MaxLevel
    ensures r.xp <= p.xp
    ensures !CanAdvance(r)
    decreases (MaxLevel as int) - (p.level as int)
  {
    if CanAdvance(p) then LevelUp(Advance(p)) else p
  }

  /** One turn of the loop, or its exit. */
  lemma LevelUpUnfold(p: Progress)
    ensures CanAdvance(p) ==> LevelUp(p) == LevelUp(Advance(p))
    ensures !CanAdvance(p) ==> LevelUp(p) == p
  {
  }

  /** The XP needed to climb from level `from` to level `to`. */
  function SumThresholds(from: nat, to: nat): int
    decreases (to as int) - (from as int)
  {
    if to <= from then 0 else Threshold(from) + SumThresholds(from + 1, to)
  }

  lemma {:induction false} SumThresholdsAppend(from: nat, to: nat)
    requires from <= to
    ensures SumThresholds(from, to + 1) == SumThresholds(from, to) + Threshold(to)
    decreases (to as int) - (from as int)
  {
    if from < to {
      SumThresholdsAppend(from + 1, to);
    }
  }

  /** Every level climbed costs at least 93 XP. */
  lemma {:induction false} SumThresholdsAtLeast(from: nat, to: nat)
    requires from <= to
    ensures SumThresholds(from, to) >= 93 * (to - from)
    decreases (to as int) - (from as int)
  {
    if from < to {
      SumThresholdsAtLeast(from + 1, to);
    }
  }

  lemma SumThresholdsMonotone(from: nat, mid: nat, to: nat)
    requires from <= mid <= to
    ensures SumThresholds(from, mid) <= SumThresholds(from, to)
    decreases (to as int) - (mid as int)
  {
    if mid < to {
      SumThresholdsAppend(from, mid);
      SumThresholdsMonotone(from, mid + 1, to);
    }
  }

  /** No XP is lost or made up: what is left plus the thresholds paid is what went in. */
  lemma {:induction false} LevelUpConserves(p: Progress)
    ensures p.xp == LevelUp(p).xp + SumThresholds(p.level, LevelUp(p).level)
    decreases (MaxLevel as int) - (p.level as int)
  {
    if CanAdvance(p) {
      LevelUpConserves(Advance(p));
    }
  }

  /** The number of levels one gain climbs is bounded by the XP spent, 93 per level. */
  lemma LevelUpBound(p: Progress)
    ensures 93 * (LevelUp(p).level - p.level) <= p.xp - LevelUp(p).xp
  {
    LevelUpConserves(p);
    SumThresholdsAtLeast(p.level, LevelUp(p).level);
  }

  /** A stopping point reached by paying thresholds from `p` is the highest level `p.xp` covers. */
  lemma HighestAffordable(p: Progress, r: Progress)
    requires p.level <= r.level
    requires p.xp == r.xp + SumThresholds(p.level, r.level)
    requires r.level < MaxLevel ==> r.xp < Threshold(r.level)
    ensures SumThresholds(p.level, r.level) <= p.xp
    ensures r.level < MaxLevel ==> p.xp < SumThresholds(p.level, r.level + 1)
  {
    SumThresholdsAppend(p.level, r.level);
  }

  /**
   * An independent description of the loop's result: the final level is the
   * highest level up to `MaxLevel` whose cumulative thresholds the XP covers.
   */
  lemma LevelUpIsHighestAffordable(p: Progress)
    requires p.level <= MaxLevel
    ensures SumThresholds(p.level, LevelUp(p).level) <= p.xp
    ensures LevelUp(p).level < MaxLevel ==> p.xp < SumThresholds(p.level, LevelUp(p).level + 1)
  {
    LevelUpConserves(p);
    HighestAffordable(p, LevelUp(p));
  }

  /** Any level meeting that description is the loop's result, and the XP left is what it did not pay. */
  lemma LevelUpReference(p: Progress, k: nat)
    requires p.level <= k <= MaxLevel
    requires SumThresholds(p.level, k) <= p.xp
    requires k < MaxLevel ==> p.xp < SumThresholds(p.level, k + 1)
    ensures LevelUp(p) == Progress(p.xp - SumThresholds(p.level, k), k)
  {
    var r := LevelUp(p);
    LevelUpIsHighestAffordable(p);
    if k < r.level {
      SumThresholdsMonotone(p.level, k + 1, r.level);
      assert false;
    } else if r.level < k {
      SumThresholdsMonotone(p.level, r.level + 1, k);
      assert false;
    }
    LevelUpConserves(p);
  }

  /** At the top level the loop stops and keeps the surplus XP. */
  lemma LevelUpKeepsSurplusAtMax(p: Progress)
    requires p.level >= MaxLevel
    ensures LevelUp(p) == p
  {
  }

  /** A worked chain: 95 XP at level 1 plus 140 climbs twice and keeps 28. */
  lemma ChainedLevelUpExample()
    ensures LevelUp(Progress(95 + 140, 1)) == Progress(28, 3)
  {
    assert CanAdvance(Progress(235, 1));
    assert Advance(Progress(235, 1)) == Progress(135, 2);
    assert Advance(Progress(135, 2)) == Progress(28, 3);
    assert !CanAdvance(Progress(28, 3));
  }
}
