/**
 * WaveDirector: while a run is Playing, a countdown fires a scaled wave every
 * waveInterval seconds. The wave's size and the enemies' health multiplier
 * are read off two curves of the run time in minutes.
 */
module Waves {
  import opened Mathf
  import opened Run
  import opened Spawner

  /** Seconds between waves by default. */
  const DefaultWaveInterval := 2.0

  /**
   * A two-key linear curve with keys at 0 and 10 minutes, held at its end
   * values outside that span (the default curves are of this form).
   */
  function TwoKeyLinear(v0: real, v1: real, tMin: real): (r: real)
    ensures tMin <= 0.0 ==> r == v0
    ensures tMin >= 10.0 ==> r == v1
    ensures v0 <= v1 ==> v0 <= r <= v1
  {
    var c := Clamp01(tMin / 10.0);
    Scaled(c, v1 - v0) + v0
  }

  /** Enemies per wave by default: 4 at the start of a run, 35 from ten minutes on. */
  function DefaultCountCurve(tMin: real): real
  {
    TwoKeyLinear(4.0, 35.0, tMin)
  }

  /** Health multiplier by default: 1 at the start of a run, 3 from ten minutes on. */
  function DefaultHealthCurve(tMin: real): real
  {
    TwoKeyLinear(1.0, 3.0, tMin)
  }

  /** A rising two-key curve never falls as the run goes on. */
  lemma TwoKeyLinearMonotone(v0: real, v1: real, t1: real, t2: real)
    requires v0 <= v1 && t1 <= t2
    ensures TwoKeyLinear(v0, v1, t1) <= TwoKeyLinear(v0, v1, t2)
  {
    var c1, c2 := Clamp01(t1 / 10.0), Clamp01(t2 / 10.0);
    assert t1 / 10.0 <= t2 / 10.0;
    assert c1 <= c2;
    ScaledMonotone(c1, c2, v1 - v0);
  }

  lemma ScaledMonotone(c1: real, c2: real, d: real)
    requires 0.0 <= c1 <= c2 <= 1.0 && d >= 0.0
    ensures Scaled(c1, d) <= Scaled(c2, d)
  {
    assert c2 * d - c1 * d == (c2 - c1) * d;
  }

  /** The number of enemies a wave asks for at `elapsed` seconds of run time. */
  function WaveCount(countCurve: real -> real, elapsed: real): (r: int)
    ensures -0.5 <= r as real - countCurve(elapsed / 60.0) <= 0.5
  {
    RoundToInt(countCurve(elapsed / 60.0))
  }

  /**
   * With the default curve, waves never shrink as the run goes on, and a
   * wave asks for between 4 and 35 enemies.
   */
  lemma DefaultWavesGrow(e1: real, e2: real)
    requires e1 <= e2
    ensures WaveCount(DefaultCountCurve, e1) <= WaveCount(DefaultCountCurve, e2)
    ensures 4 <= WaveCount(DefaultCountCurve, e1) <= 35
  {
    assert e1 / 60.0 <= e2 / 60.0;
    TwoKeyLinearMonotone(4.0, 35.0, e1 / 60.0, e2 / 60.0);
    RoundMonotone(DefaultCountCurve(e1 / 60.0), DefaultCountCurve(e2 / 60.0));
    RoundAtLeast(DefaultCountCurve(e1 / 60.0), 4);
    RoundMonotone(DefaultCountCurve(e1 / 60.0), 35.0);
    RoundIntegral(35);
  }

  /**
   * Worked values of the default curves: 4 enemies at the start, 20 at five
   * minutes (19.5 rounds to the even 20) with health doubled, 35 at ten.
   */
  lemma DefaultCurveValues()
    ensures WaveCount(DefaultCountCurve, 0.0) == 4
    ensures WaveCount(DefaultCountCurve, 300.0) == 20 && DefaultHealthCurve(300.0 / 60.0) == 2.0
    ensures WaveCount(DefaultCountCurve, 600.0) == 35 && DefaultHealthCurve(600.0 / 60.0) == 3.0
  {
    RoundIntegral(4);
    assert DefaultCountCurve(300.0 / 60.0) == 19.5;
    RoundToIntUnique(19.5, 20);
    RoundIntegral(35);
  }

  /** What one Update did. */
  datatype WaveOutcome =
    | NoWave
      /** A wave of `count` enemies scaled by `mult` was requested; `spawned` is what the spawner placed. */
    | Wave(count: int, mult: real, spawned: seq<Spawned>)
      /** The timer ran out but no spawner is set: the frame fails before the timer is reset. */
    | SpawnerMissing

  class WaveDirector {
    const spawner: EnemySpawner?
    const enemiesPerWave: real -> real
    const enemyHealthMult: real -> real
    const waveInterval: real
    var timer: real

    /** The timer starts at 0, so the first Playing frame fires a wave. */
    constructor (spawner: EnemySpawner?, enemiesPerWave: real -> real, enemyHealthMult: real -> real, waveInterval: real)
      ensures this.spawner == spawner && this.enemiesPerWave == enemiesPerWave
      ensures this.enemyHealthMult == enemyHealthMult && this.waveInterval == waveInterval
      ensures timer == 0.0
    {
      this.spawner := spawner;
      this.enemiesPerWave, this.enemyHealthMult := enemiesPerWave, enemyHealthMult;
      this.waveInterval := waveInterval;
      timer := 0.0;
    }

    /** The director as configured out of the box: the default curves, a wave every 2 seconds. */
    constructor Default(spawner: EnemySpawner?)
      ensures this.spawner == spawner && this.enemiesPerWave == DefaultCountCurve
      ensures this.enemyHealthMult == DefaultHealthCurve && this.waveInterval == DefaultWaveInterval
      ensures timer == 0.0
    {
      this.spawner := spawner;
      this.enemiesPerWave, this.enemyHealthMult := DefaultCountCurve, DefaultHealthCurve;
      this.waveInterval := DefaultWaveInterval;
      timer := 0.0;
    }

    /**
     * Per frame (`now` is the clock, `dt` the frame time). Nothing happens
     * unless a GameLoop exists and is Playing. Then the timer drops by dt;
     * at or below 0 a wave is requested from the spawner with the rounded
     * count curve and the health curve at the run time in minutes, and the
     * timer restarts at waveInterval.
     */
    method Update(dt: real, loop: GameLoop?, now: real, w: World) returns (outcome: WaveOutcome)
      modifies this
      ensures !AllowsPlay(loop) ==> unchanged(this) && outcome == NoWave
      ensures AllowsPlay(loop) ==> (outcome != NoWave <==> old(timer) - dt <= 0.0)
      ensures outcome == NoWave && AllowsPlay(loop) ==> timer == old(timer) - dt
      ensures outcome == SpawnerMissing <==> AllowsPlay(loop) && old(timer) - dt <= 0.0 && spawner == null
      ensures outcome == SpawnerMissing ==> timer == old(timer) - dt
      ensures outcome.Wave? ==> spawner != null && timer == waveInterval
      ensures outcome.Wave? ==>
        loop != null
        && outcome.count == WaveCount(enemiesPerWave, loop.Elapsed(now))
        && outcome.mult == enemyHealthMult(loop.Elapsed(now) / 60.0)
      ensures outcome.Wave? ==> |outcome.spawned| <= MaxInt(0, outcome.count)
      ensures outcome.Wave? ==> forall k :: 0 <= k < |outcome.spawned| ==>
        outcome.spawned[k].scaledBy == HealthMultApplied(outcome.mult)
      ensures outcome.Wave? ==>
        outcome.spawned == spawner.WaveSpawns(spawner.CurrentLayout(), MaxInt(0, outcome.count), outcome.mult, w)
    {
      if !AllowsPlay(loop) {
        return NoWave;
      }
      timer := timer - dt;
      if timer > 0.0 {
        return NoWave;
      }
      var tMin := loop.Elapsed(now) / 60.0;
      var count := RoundToInt(enemiesPerWave(tMin));
      var hpMult := enemyHealthMult(tMin);
      if spawner == null {
        return SpawnerMissing;
      }
      var spawned, attempts := spawner.SpawnWaveScaled(count, hpMult, w);
      timer := waveInterval;
      outcome := Wave(count, hpMult, spawned);
    }
  }

  /** A fresh director fires on the first Playing frame of non-negative length. */
  method FirstFrameFires(spawner: EnemySpawner, loop: GameLoop, now: real, dt: real, w: World)
    returns (outcome: WaveOutcome)
    requires loop.state == Playing && dt >= 0.0
    ensures outcome.Wave? && outcome.count == WaveCount(DefaultCountCurve, loop.Elapsed(now))
  {
    var d := new WaveDirector.Default(spawner);
    outcome := d.Update(dt, loop, now, w);
  }

  lemma MulMonotone(a: nat, b: nat, dt: real)
    requires a <= b && dt >= 0.0
    ensures a as real * dt <= b as real * dt
  {
    assert b as real * dt - a as real * dt == (b - a) as real * dt;
  }

  /**
   * After a wave, frames of length dt that add up to less than waveInterval
   * fire nothing: waves are at least waveInterval of Playing time apart.
   */
  method QuietAfterWave(d: WaveDirector, loop: GameLoop, now: real, dt: real, frames: nat, w: World)
    returns (fired: bool)
    requires d.timer == d.waveInterval && loop.state == Playing
    requires dt >= 0.0 && frames as real * dt < d.waveInterval
    modifies d
    ensures !fired && d.timer == d.waveInterval - frames as real * dt
  {
    fired := false;
    var i := 0;
    while i < frames
      invariant 0 <= i <= frames && !fired
      invariant d.timer == d.waveInterval - i as real * dt
    {
      MulMonotone(i + 1, frames, dt);
      assert (i + 1) as real * dt == i as real * dt + dt;
      var outcome := d.Update(dt, loop, now, w);
      fired := outcome != NoWave;
      i := i + 1;
    }
  }
}
