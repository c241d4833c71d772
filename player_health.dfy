/**
 * PlayerHealth: the player's hit points with invulnerability frames after
 * each hit. The first hit that brings HP to 0 kills the player once and for
 * all and ends the run through the GameLoop.
 */
module Player {
  import opened Mathf
  import opened Run

  class PlayerHealth {
    var maxHP: real
    const iFrameDuration: real
    var hp: real
    /** Invulnerability time left; a hit is taken only when it is not positive. */
    var iFrameT: real
    var dead: bool
    /** Times onDamaged and onDeath were raised. */
    var damagedNotices: nat
    var deathNotices: nat

    /** onDeath has been raised once if the player is dead, and never otherwise. */
    ghost predicate Valid()
      reads this
    {
      deathNotices == (if dead then 1 else 0)
    }

    /** Awake: full health, no invulnerability, alive. */
    constructor (maxHP: real, iFrameDuration: real)
      ensures Valid() && !dead && hp == maxHP && iFrameT == 0.0
      ensures this.maxHP == maxHP && this.iFrameDuration == iFrameDuration
      ensures damagedNotices == 0
    {
      this.maxHP, this.iFrameDuration := maxHP, iFrameDuration;
      hp, iFrameT, dead := maxHP, 0.0, false;
      damagedNotices, deathNotices := 0, 0;
    }

    /** Per frame: the invulnerability timer runs down while positive. */
    method Update(dt: real)
      modifies this
      ensures old(iFrameT) > 0.0 ==> iFrameT == old(iFrameT) - dt
      ensures old(iFrameT) <= 0.0 ==> iFrameT == old(iFrameT)
      ensures hp == old(hp) && maxHP == old(maxHP) && dead == old(dead)
      ensures damagedNotices == old(damagedNotices) && deathNotices == old(deathNotices)
    {
      if iFrameT > 0.0 {
        iFrameT := iFrameT - dt;
      }
    }

    /**
     * Ignored when dead or invulnerable. Otherwise HP drops by the amount
     * (unclamped, so a negative amount raises it), invulnerability restarts,
     * onDamaged is raised, and when HP reaches 0 the player dies: onDeath once,
     * and GameOver on the GameLoop if there is one.
     */
    method TakeDamage(amount: real, loop: GameLoop?, time: TimeScale)
      requires Valid()
      modifies this, loop, time
      ensures Valid()
      ensures old(dead) || old(iFrameT) > 0.0 ==> unchanged(this) && (loop == null || unchanged(loop)) && unchanged(time)
      ensures !old(dead) && old(iFrameT) <= 0.0 ==>
        iFrameT == iFrameDuration && damagedNotices == old(damagedNotices) + 1
        && hp == MaxReal(0.0, old(hp) - amount) && (dead <==> old(hp) - amount <= 0.0)
      ensures !old(dead) && dead && loop != null ==> loop.state == GameState.GameOver && time.value == 0.0
      ensures !dead && loop != null ==> unchanged(loop) && unchanged(time)
      ensures loop == null ==> unchanged(time)
      ensures maxHP == old(maxHP)
    {
      if dead || iFrameT > 0.0 {
        return;
      }
      hp := hp - amount;
      iFrameT := iFrameDuration;
      damagedNotices := damagedNotices + 1;
      if hp <= 0.0 {
        hp := 0.0;
        dead := true;
        deathNotices := deathNotices + 1;
        if loop != null {
          loop.GameOver(time);
        }
      }
    }

    /** Ignored when dead; otherwise adds |amount|, capped at max HP. */
    method Heal(amount: real)
      modifies this
      ensures old(dead) ==> unchanged(this)
      ensures !old(dead) ==> hp == MinReal(maxHP, old(hp) + Abs(amount))
      ensures !old(dead) && old(hp) <= maxHP ==> old(hp) <= hp <= maxHP
      ensures maxHP == old(maxHP) && dead == old(dead) && iFrameT == old(iFrameT)
      ensures damagedNotices == old(damagedNotices) && deathNotices == old(deathNotices)
    {
      if dead {
        return;
      }
      hp := MinReal(maxHP, hp + Abs(amount));
    }

    /** Max HP grows by |amount|; with healToFull HP is refilled, even when dead. */
    method AddMaxHealth(amount: real, healToFull: bool)
      modifies this
      ensures maxHP == old(maxHP) + Abs(amount) && maxHP >= old(maxHP)
      ensures hp == (if healToFull then maxHP else old(hp))
      ensures dead == old(dead) && iFrameT == old(iFrameT)
      ensures damagedNotices == old(damagedNotices) && deathNotices == old(deathNotices)
    {
      maxHP := maxHP + Abs(amount);
      if healToFull {
        hp := maxHP;
      }
    }
  }

  /**
   * A hit opens an invulnerability window: a second hit after frames whose
   * total time is still short of the window changes nothing.
   */
  method HitDuringIFrames(p: PlayerHealth, a1: real, a2: real, dt: real, loop: GameLoop?, time: TimeScale)
    requires p.Valid() && !p.dead && p.iFrameT <= 0.0
    requires 0.0 <= dt < p.iFrameDuration
    modifies p, loop, time
    ensures p.Valid() && p.damagedNotices == old(p.damagedNotices) + 1
    ensures p.hp == MaxReal(0.0, old(p.hp) - a1)
  {
    p.TakeDamage(a1, loop, time);
    p.Update(dt);
    p.TakeDamage(a2, loop, time);
  }

  /**
   * Death is final for damage and healing: the first lethal hit raises
   * onDeath once, and a hit after the invulnerability window has run out is
   * still ignored (no second onDamaged).
   */
  method DiesOnce(p: PlayerHealth, a1: real, a2: real, h: real, loop: GameLoop?, time: TimeScale)
    requires p.Valid() && !p.dead && p.iFrameT <= 0.0 && p.hp - a1 <= 0.0
    modifies p, loop, time
    ensures p.Valid() && p.dead && p.deathNotices == 1 && p.hp == 0.0
    ensures p.damagedNotices == old(p.damagedNotices) + 1
  {
    p.TakeDamage(a1, loop, time);
    p.Update(p.iFrameDuration);
    p.TakeDamage(a2, loop, time);
    p.Heal(h);
  }
}
