/**
 * The upgrades a player can pick: each adds a fixed amount to one stat of
 * the player's auto-fire weapon, if the player has one. Nothing limits how
 * often an upgrade is taken (the catalog's maxStacks is never consulted).
 */
module Upgrades {
  import opened AutoFire

  /** Inspector defaults: half a shot per second more, two points of damage more. */
  const DefaultAddFireRate := 0.5
  const DefaultAddDamage := 2.0

  /** An upgrade asset and the amount it adds. */
  datatype Upgrade =
    | FireRateUpgrade(addFireRate: real)
    | DamageUpgrade(addDamage: real)

  /** What one application adds to the weapon's fire rate. */
  function FireRateGain(u: Upgrade): (r: real)
    ensures u.DamageUpgrade? ==> r == 0.0
  {
    if u.FireRateUpgrade? then u.addFireRate else 0.0
  }

  /** What one application adds to the weapon's damage. */
  function DamageGain(u: Upgrade): (r: real)
    ensures u.FireRateUpgrade? ==> r == 0.0
  {
    if u.DamageUpgrade? then u.addDamage else 0.0
  }

  /**
   * Apply to a player whose auto-fire weapon is `w` (null: the player has
   * none, and nothing changes). The upgrade's stat grows by its amount; the
   * weapon's other state stays as it was.
   */
  method Apply(u: Upgrade, w: AutoFireWeapon?)
    modifies w
    ensures w != null ==> w.fireRate == old(w.fireRate) + FireRateGain(u)
    ensures w != null ==> w.damage == old(w.damage) + DamageGain(u)
    ensures w != null ==> w.timer == old(w.timer)
  {
    if w != null {
      match u
      case FireRateUpgrade(add) => w.fireRate := w.fireRate + add;
      case DamageUpgrade(add) => w.damage := w.damage + add;
    }
  }

  /** Taking the same upgrade n times adds n times its amount: stacking is unbounded. */
  method ApplyRepeatedly(u: Upgrade, w: AutoFireWeapon, n: nat)
    modifies w
    ensures w.fireRate == old(w.fireRate) + n as real * FireRateGain(u)
    ensures w.damage == old(w.damage) + n as real * DamageGain(u)
  {
    var i := 0;
    while i < n
      invariant 0 <= i <= n
      invariant w.fireRate == old(w.fireRate) + i as real * FireRateGain(u)
      invariant w.damage == old(w.damage) + i as real * DamageGain(u)
    {
      Apply(u, w);
      i := i + 1;
    }
  }

  /** Two upgrades give the same weapon whichever is taken first. */
  method ApplyBothOrders(u1: Upgrade, u2: Upgrade, w1: AutoFireWeapon, w2: AutoFireWeapon)
    requires w1 != w2 && w1.fireRate == w2.fireRate && w1.damage == w2.damage
    modifies w1, w2
    ensures w1.fireRate == w2.fireRate && w1.damage == w2.damage
  {
    Apply(u1, w1);
    Apply(u2, w1);
    Apply(u2, w2);
    Apply(u1, w2);
  }
}
