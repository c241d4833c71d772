/**
 * AbilityBase: the cooldown gate shared by cast abilities. A cast needs the
 * cooldown to have run out, and the ability's own effect may still veto it;
 * only a cast that fires starts a new cooldown.
 */
module Abilities {
  import opened Mathf

  /** The smallest cooldown multiplier the gate honours. */
  const MinMultiplier: real := 0.01

  class AbilityBase {
    var cooldown: real
    var cooldownMultiplier: real
    var nextReadyTime: real

    /** Inspector defaults: a 5 s cooldown at multiplier 1, ready at time 0. */
    constructor ()
      ensures cooldown == 5.0 && cooldownMultiplier == 1.0 && nextReadyTime == 0.0
    {
      cooldown, cooldownMultiplier, nextReadyTime := 5.0, 1.0, 0.0;
    }

    /** The cooldown one cast starts: cooldown * max(0.01, multiplier). */
    function EffectiveCooldown(): real
      reads this
    {
      cooldown * MaxReal(MinMultiplier, cooldownMultiplier)
    }

    /** The gate: open exactly when the remaining cooldown has reached 0. */
    predicate CanCast(now: real): (r: bool)
      reads this
      ensures r <==> CooldownRemaining(now) == 0.0
    {
      now >= nextReadyTime
    }

    /**
     * A cast fires exactly when the gate is open and the effect (`effectFires`,
     * what OnCast returns when it is invoked) does not veto it; only then does
     * the next ready time move to now plus the effective cooldown.
     */
    method TryCast(now: real, effectFires: bool) returns (cast: bool)
      modifies this
      ensures cast <==> old(CanCast(now)) && effectFires
      ensures cast ==> nextReadyTime == now + EffectiveCooldown()
      ensures !cast ==> nextReadyTime == old(nextReadyTime)
      ensures cooldown == old(cooldown) && cooldownMultiplier == old(cooldownMultiplier)
      ensures cast && cooldown > 0.0 ==> CooldownPercent(now) == 1.0
    {
      if !CanCast(now) {
        return false;
      }
      if !effectFires {
        return false;
      }
      nextReadyTime := now + cooldown * MaxReal(MinMultiplier, cooldownMultiplier);
      cast := true;
      if cooldown > 0.0 {
        assert EffectiveCooldown() > 0.0;
        assert CooldownRemaining(now) == EffectiveCooldown();
      }
    }

    /** Time left until the gate opens: never negative, and 0 exactly when a cast may go. */
    function CooldownRemaining(now: real): (r: real)
      reads this
      ensures r >= 0.0
      ensures r == 0.0 <==> now >= nextReadyTime
      ensures r > 0.0 ==> now + r == nextReadyTime
    {
      MaxReal(0.0, nextReadyTime - now)
    }

    /**
     * The share of the effective cooldown still to run, in [0, 1]: 0 for a
     * non-positive cooldown, and otherwise 0 exactly when a cast may go.
     */
    function CooldownPercent(now: real): (r: real)
      reads this
      ensures 0.0 <= r <= 1.0
      ensures cooldown <= 0.0 ==> r == 0.0
      ensures cooldown > 0.0 ==> (r == 0.0 <==> CanCast(now))
    {
      if cooldown <= 0.0 then 0.0
      else Clamp01(CooldownRemaining(now) / (cooldown * MaxReal(MinMultiplier, cooldownMultiplier)))
    }
  }

  /**
   * Two casts that both fire are at least one effective cooldown apart: a
   * second attempt inside the window is refused whatever the effect says.
   */
  method CastTwice(a: AbilityBase, t1: real, t2: real, fires1: bool, fires2: bool)
    returns (first: bool, second: bool)
    requires t1 <= t2
    modifies a
    ensures first && second ==> t2 - t1 >= old(a.EffectiveCooldown())
    ensures !first ==> (second <==> old(a.CanCast(t2)) && fires2)
  {
    first := a.TryCast(t1, fires1);
    second := a.TryCast(t2, fires2);
  }
}
