/**
 * PlayerExperience: the per-player level, XP and XP-to-next-level counters.
 * AddXP adds a reward and levels up as many times as the reward pays for;
 * each level-up grows the threshold by a factor and a flat increment.
 */
module Experience {
  import opened Mathf

  /** The three counters PlayerExperience keeps. */
  datatype Progress = Progress(level: int, xp: int, toNext: int)

  /**
   * The threshold after a level-up: the old one times max(1, growth) plus the
   * flat increment, rounded half-to-even and clamped to [1, int.MaxValue].
   */
  function NextThreshold(toNext: int, growth: real, flat: int): (r: int)
    ensures 1 <= r <= IntMax
  {
    ClampInt(RoundToInt(toNext as real * MaxReal(1.0, growth) + flat as real), 1, IntMax)
  }

  /** A non-negative flat increment never lets the threshold shrink. */
  lemma ThresholdNeverDecreases(toNext: int, growth: real, flat: int)
    requires flat >= 0 && toNext <= IntMax
    ensures NextThreshold(toNext, growth, flat) >= toNext
  {
    // A threshold of 0 or less is overtaken by the clamp to 1.
    if toNext >= 1 {
      var g := MaxReal(1.0, growth);
      assert toNext as real * g == toNext as real + toNext as real * (g - 1.0);
      RoundAtLeast(toNext as real * g + flat as real, toNext);
    }
  }

  /** One pass of the AddXP loop: pay the threshold, then LevelUp. */
  function Step(p: Progress, growth: real, flat: int): Progress
  {
    Progress(p.level + 1, p.xp - p.toNext, NextThreshold(p.toNext, growth, flat))
  }

  /**
   * The state the AddXP loop stops in. A threshold of 0 or less is replaced
   * by one of at least 1 on the first level-up, so the loop always ends.
   */
  function Settle(p: Progress, growth: real, flat: int): (r: Progress)
    ensures r.xp < r.toNext
    ensures r.level >= p.level
    decreases if p.toNext >= 1 then 0 else 1, p.xp
  {
    if p.xp >= p.toNext then Settle(Step(p, growth, flat), growth, flat) else p
  }

  /** The thresholds the loop pays, in order; one per level-up. */
  function Consumed(p: Progress, growth: real, flat: int): seq<int>
    decreases if p.toNext >= 1 then 0 else 1, p.xp
  {
    if p.xp >= p.toNext then [p.toNext] + Consumed(Step(p, growth, flat), growth, flat) else []
  }

  /** The effect of AddXP(amount) on the counters. */
  function AfterAddXP(p: Progress, amount: int, growth: real, flat: int): Progress
  {
    if amount <= 0 then p else Settle(Progress(p.level, p.xp + amount, p.toNext), growth, flat)
  }

  /**
   * XP is conserved (what is left plus what was paid is what there was), and
   * the level rises by exactly the number of thresholds paid.
   */
  lemma {:induction false} SettleConserves(p: Progress, growth: real, flat: int)
    ensures Settle(p, growth, flat).xp + Sum(Consumed(p, growth, flat)) == p.xp
    ensures Settle(p, growth, flat).level == p.level + |Consumed(p, growth, flat)|
    decreases if p.toNext >= 1 then 0 else 1, p.xp
  {
    if p.xp >= p.toNext {
      var q := Step(p, growth, flat);
      SettleConserves(q, growth, flat);
      SumAppend([p.toNext], Consumed(q, growth, flat));
      assert Sum([p.toNext]) == p.toNext;
    }
  }

  /**
   * From non-negative XP and a threshold of at least 1, the XP left is in
   * [0, threshold) and the threshold stays at least 1.
   */
  lemma {:induction false} SettleBounds(p: Progress, growth: real, flat: int)
    requires 0 <= p.xp && 1 <= p.toNext
    ensures 0 <= Settle(p, growth, flat).xp < Settle(p, growth, flat).toNext
    ensures Settle(p, growth, flat).toNext >= 1
    decreases p.xp
  {
    if p.xp >= p.toNext {
      SettleBounds(Step(p, growth, flat), growth, flat);
    }
  }

  /**
   * With a non-negative flat increment the thresholds paid never decrease,
   * and the final threshold is at least the initial one.
   */
  lemma {:induction false} ThresholdsGrow(p: Progress, growth: real, flat: int)
    requires flat >= 0 && p.toNext <= IntMax
    ensures forall i, j :: 0 <= i < j < |Consumed(p, growth, flat)| ==>
      Consumed(p, growth, flat)[i] <= Consumed(p, growth, flat)[j]
    ensures forall i :: 0 <= i < |Consumed(p, growth, flat)| ==>
      p.toNext <= Consumed(p, growth, flat)[i]
    ensures p.toNext <= Settle(p, growth, flat).toNext
    decreases if p.toNext >= 1 then 0 else 1, p.xp
  {
    if p.xp >= p.toNext {
      var q := Step(p, growth, flat);
      ThresholdNeverDecreases(p.toNext, growth, flat);
      ThresholdsGrow(q, growth, flat);
    }
  }

  /** 10 * 1.25 + 2 = 14.5 rounds to the even 14. */
  lemma DefaultSecondThreshold()
    ensures NextThreshold(10, 1.25, 2) == 14
  {
    RoundToIntUnique(14.5, 14);
  }

  /**
   * With the defaults, a reward of 25 at level 1 pays 10 and then 14
   * (14 * 1.25 + 2 = 19.5 rounds to the even 20): two level-ups, 1 XP left.
   */
  lemma TwoLevelUpsFromOneReward()
    ensures AfterAddXP(Progress(1, 0, 10), 25, 1.25, 2) == Progress(3, 1, 20)
    ensures Consumed(Progress(1, 25, 10), 1.25, 2) == [10, 14]
  {
    DefaultSecondThreshold();
    RoundToIntUnique(19.5, 20);
    assert NextThreshold(14, 1.25, 2) == 20;
    assert Step(Progress(1, 25, 10), 1.25, 2) == Progress(2, 15, 14);
    assert Step(Progress(2, 15, 14), 1.25, 2) == Progress(3, 1, 20);
  }

  class PlayerExperience {
    var level: int
    var currentXP: int
    var xpToNext: int
    var xpGrowth: real
    var xpFlatIncrement: int

    /** The inspector defaults. */
    constructor ()
      ensures State() == Progress(1, 0, 10)
      ensures xpGrowth == 1.25 && xpFlatIncrement == 2
    {
      level, currentXP, xpToNext := 1, 0, 10;
      xpGrowth, xpFlatIncrement := 1.25, 2;
    }

    function State(): Progress
      reads this
    {
      Progress(level, currentXP, xpToNext)
    }

    /**
     * A non-positive amount changes nothing; otherwise the counters end where
     * Settle says, with the XP left below the threshold, the level raised by one
     * per threshold paid and XP conserved.
     */
    method AddXP(amount: int)
      modifies this
      ensures xpGrowth == old(xpGrowth) && xpFlatIncrement == old(xpFlatIncrement)
      ensures State() == AfterAddXP(old(State()), amount, xpGrowth, xpFlatIncrement)
      ensures amount <= 0 ==> State() == old(State())
      ensures amount > 0 ==> currentXP < xpToNext
      ensures amount > 0 ==>
        var paid := Consumed(Progress(old(level), old(currentXP) + amount, old(xpToNext)), xpGrowth, xpFlatIncrement);
        old(currentXP) + amount == currentXP + Sum(paid) && level == old(level) + |paid|
    {
      if amount <= 0 {
        return;
      }
      currentXP := currentXP + amount;
      ghost var start := State();
      while currentXP >= xpToNext
        invariant xpGrowth == old(xpGrowth) && xpFlatIncrement == old(xpFlatIncrement)
        invariant Settle(State(), xpGrowth, xpFlatIncrement) == Settle(start, xpGrowth, xpFlatIncrement)
        decreases if xpToNext >= 1 then 0 else 1, currentXP
      {
        currentXP := currentXP - xpToNext;
        LevelUp();
      }
      SettleConserves(start, xpGrowth, xpFlatIncrement);
    }

    /** One level more, and the threshold recomputed from the old one. */
    method LevelUp()
      modifies this
      ensures level == old(level) + 1 && currentXP == old(currentXP)
      ensures xpToNext == NextThreshold(old(xpToNext), xpGrowth, xpFlatIncrement)
      ensures xpGrowth == old(xpGrowth) && xpFlatIncrement == old(xpFlatIncrement)
    {
      level := level + 1;
      var next := xpToNext as real * MaxReal(1.0, xpGrowth) + xpFlatIncrement as real;
      assert NextThreshold(xpToNext, xpGrowth, xpFlatIncrement) == ClampInt(RoundToInt(next), 1, IntMax);
      xpToNext := ClampInt(RoundToInt(next), 1, IntMax);
    }
  }
}
