/**
 * PlayerXP: the game-wide (static) level counter. Add pays thresholds that
 * grow by a factor of 1.6 each level and reports whether any level was gained,
 * which is when the upgrade offer is requested.
 */
module GlobalXP {
  import opened Mathf

  /** Level, XP and NextXP, the three static properties. */
  datatype Tally = Tally(level: int, xp: int, next: int)

  /** NextXP after a level-up: NextXP * 1.6, rounded half-to-even. It always grows. */
  function GrowNextXP(n: int): (r: int)
    ensures n >= 1 ==> r > n
  {
    RoundToInt(n as real * 1.6)
  }

  /** 5, 8, 13, 21, 34: the first thresholds from the initial NextXP of 5. */
  lemma FirstThresholds()
    ensures GrowNextXP(5) == 8 && GrowNextXP(8) == 13 && GrowNextXP(13) == 21
    ensures GrowNextXP(21) == 34
  {
    RoundToIntUnique(8.0, 8);
    RoundToIntUnique(12.8, 13);
    RoundToIntUnique(20.8, 21);
    RoundToIntUnique(33.6, 34);
  }

  function Step(t: Tally): (r: Tally)
    requires t.next >= 1
    ensures r.next > t.next
  {
    Tally(t.level + 1, t.xp - t.next, GrowNextXP(t.next))
  }

  /** Where the Add loop stops. */
  function Settle(t: Tally): (r: Tally)
    requires t.next >= 1
    ensures r.xp < r.next && r.next >= t.next && r.level >= t.level
    decreases t.xp
  {
    if t.xp >= t.next then Settle(Step(t)) else t
  }

  /** The thresholds the Add loop pays, in order. */
  function Consumed(t: Tally): seq<int>
    requires t.next >= 1
    decreases t.xp
  {
    if t.xp >= t.next then [t.next] + Consumed(Step(t)) else []
  }

  /**
   * XP is conserved, each paid threshold is one level, XP never goes negative,
   * and at least one level is gained exactly when the XP reached the threshold.
   */
  lemma {:induction false} SettleFacts(t: Tally)
    requires t.next >= 1 && t.xp >= 0
    ensures Settle(t).xp + Sum(Consumed(t)) == t.xp
    ensures Settle(t).level == t.level + |Consumed(t)|
    ensures 0 <= Settle(t).xp
    ensures |Consumed(t)| > 0 <==> t.xp >= t.next
    decreases t.xp
  {
    if t.xp >= t.next {
      SettleFacts(Step(t));
      SumAppend([t.next], Consumed(Step(t)));
      assert Sum([t.next]) == t.next;
    }
  }

  class PlayerXP {
    var level: int
    var xp: int
    var nextXP: int

    /** Only Add writes the properties, so XP stays below NextXP and NextXP at least 5. */
    ghost predicate Valid()
      reads this
    {
      0 <= xp < nextXP && 5 <= nextXP && 0 <= level
    }

    function State(): Tally
      reads this
    {
      Tally(level, xp, nextXP)
    }

    /** The static initial values: Level 0, XP 0, NextXP 5. */
    constructor ()
      ensures Valid() && State() == Tally(0, 0, 5)
    {
      level, xp, nextXP := 0, 0, 5;
    }

    /**
     * A negative amount counts as 0. Afterwards XP < NextXP again, XP is
     * conserved, and `leveled` (the upgrade-offer request) is true exactly when
     * at least one level was gained.
     */
    method Add(amount: int) returns (leveled: bool)
      requires Valid()
      modifies this
      ensures Valid()
      ensures State() == Settle(Tally(old(level), old(xp) + MaxInt(0, amount), old(nextXP)))
      ensures var paid := Consumed(Tally(old(level), old(xp) + MaxInt(0, amount), old(nextXP)));
        old(xp) + MaxInt(0, amount) == xp + Sum(paid) && level == old(level) + |paid|
      ensures leveled <==> level > old(level)
      ensures leveled <==> old(xp) + MaxInt(0, amount) >= old(nextXP)
    {
      xp := xp + MaxInt(0, amount);
      ghost var start := State();
      leveled := false;
      while xp >= nextXP
        invariant 5 <= nextXP && 0 <= xp && level >= old(level)
        invariant Settle(State()) == Settle(start)
        invariant leveled <==> level > old(level)
        invariant !leveled ==> State() == start
        decreases xp
      {
        xp := xp - nextXP;
        level := level + 1;
        nextXP := RoundToInt(nextXP as real * 1.6);
        leveled := true;
      }
      SettleFacts(start);
    }
  }
}
