/**
 * ShockwaveAbility: on its key, and when its own cooldown allows, damages
 * every damageable around the player (optionally only those in line of
 * sight). The cooldown is spent on every cast, whether or not anything is hit.
 */
module Shockwave {
  import opened Mathf
  import opened Run

  /** The smallest cooldown a cast starts. */
  const MinCooldown := 0.01

  /** Distances up to this count as "on top of the caster": always in sight. */
  const LosEpsilon := 0.0001

  /** The layer mask meaning "every layer" (~0). */
  const AllLayers := -1

  /**
   * What the cast learns about one collider in the sphere: the damageable
   * found on it or a parent, the distance from the caster to the target
   * position, and whether a ray of that length towards it hits a blocker.
   */
  datatype Collider = Collider(damageable: Option<nat>, dist: real, rayBlocked: bool)

  /** One TakeDamage call. */
  datatype Hit = Hit(target: nat, amount: real)

  /** The query mask: the enemy layers, or every layer when that mask is 0. */
  function ScanMask(enemyLayers: int): (r: int)
    ensures enemyLayers != 0 ==> r == enemyLayers
    ensures enemyLayers == 0 ==> r == AllLayers
    ensures r != 0
  {
    if enemyLayers != 0 then enemyLayers else AllLayers
  }

  /**
   * Line of sight holds with no blocker layers, for a target at the caster's
   * position, and otherwise exactly when the ray is not blocked.
   */
  function HasLineOfSight(losBlockers: int, dist: real, rayBlocked: bool): (r: bool)
    ensures losBlockers == 0 ==> r
    ensures dist <= LosEpsilon ==> r
    ensures losBlockers != 0 && dist > LosEpsilon ==> (r <==> !rayBlocked)
  {
    if losBlockers == 0 then true
    else if dist <= LosEpsilon then true
    else !rayBlocked
  }

  /** A collider the cast damages: present, with a damageable, and in sight when sight is required. */
  predicate Struck(c: Option<Collider>, requireLineOfSight: bool, losBlockers: int)
  {
    && c.Some? && c.value.damageable.Some?
    && (requireLineOfSight ==> HasLineOfSight(losBlockers, c.value.dist, c.value.rayBlocked))
  }

  /** The damageables a cast hits, one per struck collider, in scan order. */
  function Victims(s: seq<Option<Collider>>, requireLineOfSight: bool, losBlockers: int): (r: seq<nat>)
    ensures |r| <= |s|
    ensures r == [] <==> forall i :: 0 <= i < |s| ==> !Struck(s[i], requireLineOfSight, losBlockers)
  {
    if |s| == 0 then []
    else
      var last := s[|s| - 1];
      Victims(s[..|s| - 1], requireLineOfSight, losBlockers)
        + (if Struck(last, requireLineOfSight, losBlockers) then [last.value.damageable.value] else [])
  }

  /**
   * A damageable is among the victims exactly when some struck collider
   * resolves to it, and there are never more victims than colliders.
   */
  lemma {:induction false} VictimsExactly(s: seq<Option<Collider>>, los: bool, blockers: int, x: nat)
    ensures |Victims(s, los, blockers)| <= |s|
    ensures x in Victims(s, los, blockers) <==>
      exists i :: 0 <= i < |s| && Struck(s[i], los, blockers) && s[i].value.damageable.value == x
  {
    if |s| > 0 {
      var init := s[..|s| - 1];
      VictimsExactly(init, los, blockers, x);
      if x in Victims(init, los, blockers) {
        var i :| 0 <= i < |init| && Struck(init[i], los, blockers) && init[i].value.damageable.value == x;
        assert s[i] == init[i];
      }
      if exists i :: 0 <= i < |s| && Struck(s[i], los, blockers) && s[i].value.damageable.value == x {
        var i :| 0 <= i < |s| && Struck(s[i], los, blockers) && s[i].value.damageable.value == x;
        if i < |s| - 1 {
          assert init[i] == s[i];
        }
      }
    }
  }

  /** With no sight requirement, every collider that has a damageable is hit. */
  lemma {:induction false} NoSightRuleHitsAllDamageables(s: seq<Option<Collider>>, blockers: int)
    requires forall i :: 0 <= i < |s| ==> s[i].Some? && s[i].value.damageable.Some?
    ensures |Victims(s, false, blockers)| == |s|
  {
    if |s| > 0 {
      NoSightRuleHitsAllDamageables(s[..|s| - 1], blockers);
    }
  }

  class ShockwaveAbility {
    const damage: real
    const cooldown: real
    const enemyLayers: int
    const requireLineOfSight: bool
    const losBlockers: int
    var cooldownUntil: real

    /** Stats as configured; ready from time 0. */
    constructor (damage: real, cooldown: real, enemyLayers: int, requireLineOfSight: bool, losBlockers: int)
      ensures this.damage == damage && this.cooldown == cooldown && this.enemyLayers == enemyLayers
      ensures this.requireLineOfSight == requireLineOfSight && this.losBlockers == losBlockers
      ensures cooldownUntil == 0.0
    {
      this.damage, this.cooldown, this.enemyLayers := damage, cooldown, enemyLayers;
      this.requireLineOfSight, this.losBlockers := requireLineOfSight, losBlockers;
      cooldownUntil := 0.0;
    }

    /**
     * One cast. `overlap` stands for the physics query on the given mask.
     * Every struck collider's damageable takes `damage` once, in scan order,
     * and hitCount counts exactly those hits.
     */
    method CastShockwave(overlap: int -> seq<Option<Collider>>) returns (hits: seq<Hit>, hitCount: int)
      ensures hitCount == |hits|
      ensures |hits| == |Victims(overlap(ScanMask(enemyLayers)), requireLineOfSight, losBlockers)|
      ensures forall k :: 0 <= k < |hits| ==>
        hits[k] == Hit(Victims(overlap(ScanMask(enemyLayers)), requireLineOfSight, losBlockers)[k], damage)
    {
      var cols := overlap(ScanMask(enemyLayers));
      hits, hitCount := [], 0;
      if |cols| == 0 {
        return;
      }
      for i := 0 to |cols|
        invariant hitCount == |hits| == |Victims(cols[..i], requireLineOfSight, losBlockers)|
        invariant forall k :: 0 <= k < |hits| ==> hits[k] == Hit(Victims(cols[..i], requireLineOfSight, losBlockers)[k], damage)
      {
        assert cols[..i + 1][..i] == cols[..i];
        var col := cols[i];
        if col.None? {
          continue;
        }
        var dmg := col.value.damageable;
        if dmg.None? {
          continue;
        }
        if requireLineOfSight && !HasLineOfSight(losBlockers, col.value.dist, col.value.rayBlocked) {
          continue;
        }
        hits := hits + [Hit(dmg.value, damage)];
        hitCount := hitCount + 1;
      }
      assert cols[..|cols|] == cols;
    }

    /**
     * Refused while now < cooldownUntil. Otherwise it casts and the cooldown
     * always restarts at now + max(0.01, cooldown), even when nothing is hit.
     */
    method TryCast(now: real, overlap: int -> seq<Option<Collider>>) returns (cast: bool, hits: seq<Hit>)
      modifies this
      ensures cast <==> now >= old(cooldownUntil)
      ensures !cast ==> hits == [] && cooldownUntil == old(cooldownUntil)
      ensures cast ==> cooldownUntil == now + MaxReal(MinCooldown, cooldown) && cooldownUntil > now
      ensures cast ==> |hits| == |Victims(overlap(ScanMask(enemyLayers)), requireLineOfSight, losBlockers)|
      ensures cast ==> forall k :: 0 <= k < |hits| ==>
        hits[k] == Hit(Victims(overlap(ScanMask(enemyLayers)), requireLineOfSight, losBlockers)[k], damage)
    {
      if now < cooldownUntil {
        return false, [];
      }
      var hitCount;
      hits, hitCount := CastShockwave(overlap);
      cooldownUntil := now + MaxReal(MinCooldown, cooldown);
      cast := true;
    }

    /** Per frame: input is ignored unless there is no GameLoop or it is Playing. */
    method Update(loop: GameLoop?, keyDown: bool, now: real, overlap: int -> seq<Option<Collider>>)
      returns (cast: bool, hits: seq<Hit>)
      modifies this
      ensures !AllowsInput(loop) || !keyDown ==> !cast && hits == [] && cooldownUntil == old(cooldownUntil)
      ensures cast <==> AllowsInput(loop) && keyDown && now >= old(cooldownUntil)
      ensures cast ==> cooldownUntil == now + MaxReal(MinCooldown, cooldown)
    {
      if !AllowsInput(loop) {
        return false, [];
      }
      cast, hits := false, [];
      if keyDown {
        cast, hits := TryCast(now, overlap);
      }
    }
  }

  /** Casting twice within the cooldown: the second attempt is refused. */
  method CastTwiceQuickly(a: ShockwaveAbility, t: real, dt: real, overlap: int -> seq<Option<Collider>>)
    returns (second: bool)
    requires t >= a.cooldownUntil && 0.0 <= dt < MaxReal(MinCooldown, a.cooldown)
    modifies a
    ensures !second
  {
    var first, h1 := a.TryCast(t, overlap);
    var h2;
    second, h2 := a.TryCast(t + dt, overlap);
  }
}
