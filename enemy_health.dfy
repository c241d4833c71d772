/**
 * EnemyHealth: an enemy's hit points, its once-only death, and the death
 * routine that drops XP orbs (on an animation event or after a delay, with a
 * timeout fallback) and then removes the enemy.
 */
module Enemy {
  import opened Mathf

  /**
   * Where the death routine is. Idle: not dying. AwaitingDrop: waiting since
   * `since` for the drop. AwaitingDestroy: drops done at `since`, waiting to be
   * removed. Destroyed: the game object is gone.
   */
  datatype DeathPhase = Idle | AwaitingDrop(since: real) | AwaitingDestroy(since: real) | Destroyed

  /** Orbs actually spawned: orbCount, at least 1. */
  function OrbCount(orbCount: int): int
  {
    MaxInt(1, orbCount)
  }

  /** The value every orb gets: total / count, at least 1. */
  function OrbBase(total: int, orbCount: int): int
  {
    MaxInt(1, DivTrunc(total, OrbCount(orbCount)))
  }

  /** How many leading orbs carry one extra point. */
  function OrbRemainder(total: int, orbCount: int): int
  {
    MaxInt(0, total - OrbBase(total, orbCount) * OrbCount(orbCount))
  }

  /**
   * The orb values SpawnXPOrbs hands out, in spawn order: each at least 1,
   * non-increasing, and no two more than 1 apart.
   */
  function OrbSplit(total: int, orbCount: int): (r: seq<int>)
    ensures |r| == MaxInt(1, orbCount)
    ensures forall i :: 0 <= i < |r| ==> r[i] >= 1
    ensures forall i, j :: 0 <= i <= j < |r| ==> r[j] <= r[i] <= r[j] + 1
  {
    seq(OrbCount(orbCount), i => OrbBase(total, orbCount) + (if i < OrbRemainder(total, orbCount) then 1 else 0))
  }

  lemma {:induction false} OrbSplitPrefixSum(total: int, orbCount: int, k: int)
    requires 0 <= k <= OrbCount(orbCount)
    ensures Sum(OrbSplit(total, orbCount)[..k])
      == OrbBase(total, orbCount) * k + MinInt(k, OrbRemainder(total, orbCount))
  {
    var s := OrbSplit(total, orbCount);
    var b := OrbBase(total, orbCount);
    if k > 0 {
      OrbSplitPrefixSum(total, orbCount, k - 1);
      assert s[..k][..k - 1] == s[..k - 1];
      assert b * k == b * (k - 1) + b;
    }
  }

  /**
   * When orbs are dropped (positive total and count) their values add up to
   * the total, or to the count when the total is smaller (every orb is worth
   * at least 1).
   */
  lemma OrbSplitSum(total: int, orbCount: int)
    requires total > 0 && orbCount > 0
    ensures Sum(OrbSplit(total, orbCount)) == MaxInt(total, orbCount)
  {
    var s := OrbSplit(total, orbCount);
    OrbSplitPrefixSum(total, orbCount, orbCount);
    assert s[..orbCount] == s;
    OrbTotal(total, orbCount);
  }

  /** The base value on every orb plus the extra points on the leading ones make max(total, count). */
  lemma OrbTotal(total: int, n: int)
    requires total > 0 && n > 0
    ensures OrbBase(total, n) * n + MinInt(n, OrbRemainder(total, n)) == MaxInt(total, n)
  {
    var q, r := total / n, total % n;
    assert total == q * n + r && 0 <= r < n;
    if total >= n {
      QuotientPositive(q, r, n);
      assert OrbBase(total, n) == q;
      assert OrbRemainder(total, n) == r;
    } else {
      assert q == 0;
      assert OrbBase(total, n) == 1 && OrbRemainder(total, n) == 0;
    }
  }

  /** A quotient below 1 would leave the total below the divisor. */
  lemma QuotientPositive(q: int, r: int, n: int)
    requires n > 0 && 0 <= r < n && q * n + r >= n
    ensures q >= 1
  {
  }

  /** 10 XP over 3 orbs: 4, 3, 3. */
  lemma TenOverThree()
    ensures OrbSplit(10, 3) == [4, 3, 3]
  {
    assert OrbBase(10, 3) == 3 && OrbRemainder(10, 3) == 1;
  }

  class EnemyHealth {
    // Configuration (inspector fields that this script never writes).
    const spawnOnAnimationEvent: bool
    const dropDelaySeconds: real
    const destroyDelay: real
    const hasDeathVFX: bool
    const hasXPOrbPrefab: bool
    const totalXPValue: int
    const orbCount: int

    var maxHP: real
    var currentHP: real
    var dead: bool
    var orbsDropped: bool
    var phase: DeathPhase
    /** XP values of the orbs instantiated, in order. */
    var spawnedOrbs: seq<int>
    /** Death VFX instantiated. */
    var vfxSpawned: nat
    /** The orbs and VFX already spawned when this life began (the last OnEnable). */
    ghost var lifeStartOrbs: seq<int>
    ghost var lifeStartVFX: nat

    /**
     * What one life has spawned: exactly one drop's worth once the orbs have
     * dropped and nothing before, however the drop was triggered. The
     * routine runs exactly when the enemy is dead, and never reaches removal
     * without the drop.
     */
    ghost predicate Valid()
      reads this
    {
      && spawnedOrbs == lifeStartOrbs + (if orbsDropped then DropOrbs() else [])
      && vfxSpawned == lifeStartVFX + (if orbsDropped then DropVFX() else 0)
      && (dead <==> phase != Idle)
      && (phase.AwaitingDestroy? || phase.Destroyed? ==> orbsDropped)
    }

    /** The orbs one drop spawns: OrbSplit when there is a prefab and both the total and the count are positive. */
    function DropOrbs(): (r: seq<int>)
      reads this
      ensures |r| == (if hasXPOrbPrefab && totalXPValue > 0 && orbCount > 0 then orbCount else 0)
    {
      if hasXPOrbPrefab && totalXPValue > 0 && orbCount > 0 then OrbSplit(totalXPValue, orbCount) else []
    }

    /** The VFX one drop spawns. */
    function DropVFX(): nat
      reads this
    {
      if hasDeathVFX then 1 else 0
    }

    constructor (maxHP: real, spawnOnAnimationEvent: bool, dropDelaySeconds: real, destroyDelay: real,
                 hasDeathVFX: bool, hasXPOrbPrefab: bool, totalXPValue: int, orbCount: int)
      ensures Valid() && !dead && !orbsDropped && phase == Idle
      ensures this.maxHP == maxHP && currentHP == 0.0 && spawnedOrbs == [] && vfxSpawned == 0
      ensures this.spawnOnAnimationEvent == spawnOnAnimationEvent && this.dropDelaySeconds == dropDelaySeconds
      ensures this.destroyDelay == destroyDelay && this.hasDeathVFX == hasDeathVFX
      ensures this.hasXPOrbPrefab == hasXPOrbPrefab && this.totalXPValue == totalXPValue
      ensures this.orbCount == orbCount
    {
      this.spawnOnAnimationEvent, this.dropDelaySeconds, this.destroyDelay := spawnOnAnimationEvent, dropDelaySeconds, destroyDelay;
      this.hasDeathVFX, this.hasXPOrbPrefab := hasDeathVFX, hasXPOrbPrefab;
      this.totalXPValue, this.orbCount := totalXPValue, orbCount;
      this.maxHP, currentHP := maxHP, 0.0;
      dead, orbsDropped, phase := false, false, Idle;
      spawnedOrbs, vfxSpawned := [], 0;
      lifeStartOrbs, lifeStartVFX := [], 0;
    }

    /** Alive: HP left and no death sequence, so (in a valid state) no routine running. */
    predicate IsAlive(): (r: bool)
      reads this
      ensures r ==> currentHP > 0.0 && !dead
      ensures r && Valid() ==> phase == Idle
    {
      !dead && currentHP > 0.0
    }

    /** The fallback bound on waiting for the animation event. */
    function DropTimeout(): (r: real)
      reads this
      ensures r >= 2.25
    {
      MaxReal(0.25, dropDelaySeconds) + 2.0
    }

    /** The longest the routine waits before dropping, whatever happens. */
    function DropWait(): real
      reads this
    {
      if spawnOnAnimationEvent then DropTimeout() else MaxReal(0.0, dropDelaySeconds)
    }

    /**
     * Whether a routine waiting since `since` drops at `now`: in event mode once
     * the event has dropped the orbs or the timeout has run out, otherwise once
     * the fixed delay has passed. It is always due after DropWait().
     */
    predicate DropDue(since: real, now: real)
      reads this
      ensures now - since >= DropWait() ==> DropDue(since, now)
    {
      if spawnOnAnimationEvent then orbsDropped || now - since >= DropTimeout()
      else dropDelaySeconds <= 0.0 || now - since >= dropDelaySeconds
    }

    /**
     * Whether a routine started now drops on its first run: in event mode
     * only when the event has already dropped the orbs (the timeout is never
     * 0), otherwise only for a non-positive delay.
     */
    predicate DueAtStart(): (r: bool)
      reads this
      ensures forall t :: r <==> DropDue(t, t)
    {
      if spawnOnAnimationEvent then orbsDropped else dropDelaySeconds <= 0.0
    }

    /** Re-enabling starts a new life: HP back in (0, maxHP], flags cleared. */
    method OnEnable()
      modifies this
      ensures Valid() && !dead && !orbsDropped && phase == Idle
      ensures old(currentHP) <= 0.0 || old(currentHP) > maxHP ==> currentHP == maxHP
      ensures 0.0 < old(currentHP) <= maxHP ==> currentHP == old(currentHP)
      ensures maxHP == old(maxHP) && spawnedOrbs == old(spawnedOrbs) && vfxSpawned == old(vfxSpawned)
    {
      if currentHP <= 0.0 || currentHP > maxHP {
        currentHP := maxHP;
      }
      dead, orbsDropped, phase := false, false, Idle;
      lifeStartOrbs, lifeStartVFX := spawnedOrbs, vfxSpawned;
    }

    /**
     * Ignored unless alive and the amount is positive. Otherwise HP drops by
     * the amount; at 0 or below it is set to 0 and the death sequence starts.
     */
    method TakeDamage(amount: real, now: real)
      requires Valid()
      modifies this
      ensures Valid()
      ensures !old(IsAlive()) || amount <= 0.0 ==> unchanged(this)
      ensures old(IsAlive()) && amount > 0.0 && old(currentHP) - amount > 0.0 ==>
        currentHP == old(currentHP) - amount && !dead && phase == Idle
        && orbsDropped == old(orbsDropped) && spawnedOrbs == old(spawnedOrbs) && vfxSpawned == old(vfxSpawned)
      ensures old(IsAlive()) && amount > 0.0 && old(currentHP) - amount <= 0.0 ==>
        currentHP == 0.0 && dead && !IsAlive()
      ensures old(IsAlive()) && amount > 0.0 && old(currentHP) - amount <= 0.0 && !old(DueAtStart()) ==>
        phase == AwaitingDrop(now) && orbsDropped == old(orbsDropped)
        && spawnedOrbs == old(spawnedOrbs) && vfxSpawned == old(vfxSpawned)
      ensures old(IsAlive()) && amount > 0.0 && old(currentHP) - amount <= 0.0 && old(DueAtStart()) ==>
        orbsDropped && phase == (if destroyDelay > 0.0 then AwaitingDestroy(now) else Destroyed)
        && spawnedOrbs == old(spawnedOrbs) + (if old(orbsDropped) then [] else DropOrbs())
        && vfxSpawned == old(vfxSpawned) + (if old(orbsDropped) then 0 else DropVFX())
      ensures maxHP == old(maxHP)
    {
      if !IsAlive() {
        return;
      }
      var dmg := MaxReal(0.0, amount);
      if dmg <= 0.0 {
        return;
      }
      currentHP := currentHP - dmg;
      if currentHP <= 0.0 {
        currentHP := 0.0;
        StartDeathSequence(now);
      }
    }

    /**
     * Scales max HP by a positive multiplier; current HP is scaled too, or
     * refilled to the new max when it was not positive.
     */
    method ApplyHealthMultiplier(mult: real)
      modifies this
      ensures mult <= 0.0 ==> unchanged(this)
      ensures mult > 0.0 ==> maxHP == old(maxHP) * mult
      ensures mult > 0.0 && old(currentHP) <= 0.0 ==> currentHP == maxHP
      ensures mult > 0.0 && old(currentHP) > 0.0 ==> currentHP == old(currentHP) * mult
      ensures mult > 0.0 && 0.0 < old(currentHP) <= old(maxHP) ==> 0.0 < currentHP <= maxHP
      ensures dead == old(dead) && orbsDropped == old(orbsDropped) && phase == old(phase)
      ensures spawnedOrbs == old(spawnedOrbs) && vfxSpawned == old(vfxSpawned)
      ensures lifeStartOrbs == old(lifeStartOrbs) && lifeStartVFX == old(lifeStartVFX)
    {
      if mult <= 0.0 {
        return;
      }
      maxHP := maxHP * mult;
      if currentHP <= 0.0 {
        currentHP := maxHP;
      } else {
        currentHP := currentHP * mult;
      }
    }

    /**
     * Once per life: mark dead and start the death routine at `now`. The
     * routine's first run waits for the drop unless DueAtStart(); a due drop
     * spawns (unless already done) and moves on to the removal wait, or
     * straight to removal.
     */
    method StartDeathSequence(now: real)
      requires Valid()
      modifies this
      ensures Valid() && dead
      ensures old(dead) ==> unchanged(this)
      ensures !old(dead) && !old(DueAtStart()) ==>
        phase == AwaitingDrop(now) && orbsDropped == old(orbsDropped)
        && spawnedOrbs == old(spawnedOrbs) && vfxSpawned == old(vfxSpawned)
      ensures !old(dead) && old(DueAtStart()) ==>
        orbsDropped && phase == (if destroyDelay > 0.0 then AwaitingDestroy(now) else Destroyed)
        && spawnedOrbs == old(spawnedOrbs) + (if old(orbsDropped) then [] else DropOrbs())
        && vfxSpawned == old(vfxSpawned) + (if old(orbsDropped) then 0 else DropVFX())
      ensures maxHP == old(maxHP) && currentHP == old(currentHP)
    {
      if dead {
        return;
      }
      dead := true;
      phase := AwaitingDrop(now);
      ResumeDeathRoutine(now);
    }

    /**
     * One resumption of the death routine at `now` (the coroutine runs once
     * when started and then once per frame). A due drop happens through
     * OnDeathDropOrbs; removal follows after destroyDelay. The drop is never
     * later than DropWait() after the routine started.
     */
    method ResumeDeathRoutine(now: real)
      requires Valid()
      modifies this
      ensures Valid()
      ensures old(phase).Idle? || old(phase).Destroyed? ==> unchanged(this)
      ensures old(phase).AwaitingDrop? && !old(DropDue(phase.since, now)) ==> unchanged(this)
      ensures old(phase).AwaitingDrop? && old(DropDue(phase.since, now)) ==>
        orbsDropped && phase == (if destroyDelay > 0.0 then AwaitingDestroy(now) else Destroyed)
        && spawnedOrbs == old(spawnedOrbs) + (if old(orbsDropped) then [] else DropOrbs())
        && vfxSpawned == old(vfxSpawned) + (if old(orbsDropped) then 0 else DropVFX())
      ensures old(phase).AwaitingDrop? && now - old(phase).since >= DropWait() ==> !phase.AwaitingDrop?
      ensures old(phase).AwaitingDestroy? ==>
        phase == (if now - old(phase).since >= destroyDelay then Destroyed else old(phase))
      ensures old(phase).AwaitingDestroy? ==> spawnedOrbs == old(spawnedOrbs) && vfxSpawned == old(vfxSpawned)
      ensures maxHP == old(maxHP) && currentHP == old(currentHP) && dead == old(dead)
    {
      match phase
      case AwaitingDrop(since) =>
        if DropDue(since, now) {
          OnDeathDropOrbs();
          phase := if destroyDelay > 0.0 then AwaitingDestroy(now) else Destroyed;
        }
      case AwaitingDestroy(since) =>
        if now - since >= destroyDelay {
          phase := Destroyed;
        }
      case _ =>
    }

    /**
     * The drop (called by the animation event or by the routine): only the
     * first call in a life does anything. It spawns the VFX if configured and,
     * when there is an orb prefab and both the total and the count are
     * positive, the orbs of OrbSplit.
     */
    method OnDeathDropOrbs()
      requires Valid()
      modifies this
      ensures Valid() && orbsDropped
      ensures old(orbsDropped) ==> unchanged(this)
      ensures !old(orbsDropped) ==> vfxSpawned == old(vfxSpawned) + DropVFX() && spawnedOrbs == old(spawnedOrbs) + DropOrbs()
      ensures maxHP == old(maxHP) && currentHP == old(currentHP) && dead == old(dead) && phase == old(phase)
    {
      if orbsDropped {
        return;
      }
      orbsDropped := true;
      if hasDeathVFX {
        vfxSpawned := vfxSpawned + 1;
      }
      if hasXPOrbPrefab && totalXPValue > 0 && orbCount > 0 {
        SpawnXPOrbs();
      }
    }

    /** Instantiates the orbs one by one, with the values of OrbSplit. */
    method SpawnXPOrbs()
      modifies this
      ensures spawnedOrbs == old(spawnedOrbs) + OrbSplit(totalXPValue, orbCount)
      ensures maxHP == old(maxHP) && currentHP == old(currentHP) && dead == old(dead) && phase == old(phase)
      ensures orbsDropped == old(orbsDropped) && vfxSpawned == old(vfxSpawned)
      ensures lifeStartOrbs == old(lifeStartOrbs) && lifeStartVFX == old(lifeStartVFX)
    {
      var count := MaxInt(1, orbCount);
      var baseValue := MaxInt(1, DivTrunc(totalXPValue, count));
      var remainder := MaxInt(0, totalXPValue - baseValue * count);
      for i := 0 to count
        invariant spawnedOrbs == old(spawnedOrbs) + OrbSplit(totalXPValue, orbCount)[..i]
        invariant maxHP == old(maxHP) && currentHP == old(currentHP) && dead == old(dead) && phase == old(phase)
        invariant orbsDropped == old(orbsDropped) && vfxSpawned == old(vfxSpawned)
        invariant lifeStartOrbs == old(lifeStartOrbs) && lifeStartVFX == old(lifeStartVFX)
      {
        var value := baseValue + (if i < remainder then 1 else 0);
        spawnedOrbs := spawnedOrbs + [value];
        assert OrbSplit(totalXPValue, orbCount)[..i + 1] == OrbSplit(totalXPValue, orbCount)[..i] + [value];
      }
      assert OrbSplit(totalXPValue, orbCount)[..count] == OrbSplit(totalXPValue, orbCount);
    }
  }

  /**
   * Any number of lethal hits on one enemy start the death sequence once: a
   * second hit finds it dead and changes nothing, so the routine keeps the
   * start time of the first hit and at most one drop is spawned.
   */
  method KilledTwice(e: EnemyHealth, amount: real, now: real, later: real)
    requires e.Valid() && e.IsAlive() && amount >= e.currentHP
    modifies e
    ensures e.Valid() && e.dead && e.currentHP == 0.0
    ensures e.phase.AwaitingDrop? || e.phase.AwaitingDestroy? ==> e.phase.since == now
    ensures e.spawnedOrbs == old(e.spawnedOrbs) + (if old(e.orbsDropped) || !e.orbsDropped then [] else e.DropOrbs())
  {
    e.TakeDamage(amount, now);
    e.TakeDamage(amount, later);
  }

  /**
   * Event mode: the animation event drops the orbs, the routine then finds
   * the drop done and moves on, and a repeated event and any later frame
   * spawn nothing more. One drop's worth is spawned in all.
   */
  method EventThenRoutine(e: EnemyHealth, amount: real, now: real, t1: real, t2: real)
    requires e.Valid() && e.IsAlive() && amount >= e.currentHP
    requires e.spawnOnAnimationEvent && !e.orbsDropped
    modifies e
    ensures e.Valid() && e.orbsDropped
    ensures e.spawnedOrbs == old(e.spawnedOrbs) + e.DropOrbs()
    ensures e.vfxSpawned == old(e.vfxSpawned) + e.DropVFX()
  {
    e.TakeDamage(amount, now);
    e.OnDeathDropOrbs();
    e.ResumeDeathRoutine(t1);
    e.OnDeathDropOrbs();
    e.ResumeDeathRoutine(t2);
  }

  /**
   * Event mode without the event in time: the timeout drops the orbs, and
   * an animation event arriving afterwards spawns nothing. One drop's worth
   * is spawned in all.
   */
  method TimeoutThenEvent(e: EnemyHealth, amount: real, now: real, late: real)
    requires e.Valid() && e.IsAlive() && amount >= e.currentHP
    requires e.spawnOnAnimationEvent && !e.orbsDropped && late - now >= e.DropTimeout()
    modifies e
    ensures e.Valid() && e.orbsDropped && !e.phase.AwaitingDrop?
    ensures e.spawnedOrbs == old(e.spawnedOrbs) + e.DropOrbs()
    ensures e.vfxSpawned == old(e.vfxSpawned) + e.DropVFX()
  {
    e.TakeDamage(amount, now);
    e.ResumeDeathRoutine(late);
    e.OnDeathDropOrbs();
  }
}
