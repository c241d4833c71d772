/**
 * DashAbility: on its key, a short burst of movement over dashDuration
 * seconds, refused while a dash is under way or the cooldown has not run out.
 * The movement routine advances once per frame; its interpolation factor k
 * goes from 0 to 1.
 */
module Dash {
  import opened Mathf
  import opened Run

  /** Shortest duration the routine uses. */
  const MinDuration := 0.01

  /** Input below this squared magnitude counts as "no direction": dash forward. */
  const DeadZone := 0.0001

  class DashAbility {
    const dashDistance: real
    const dashDuration: real
    const cooldown: real

    var dashing: bool
    /** Set by the first dash and never cleared: from then on the timestamp gates. */
    var coolingDown: bool
    var cooldownUntil: real
    /** The running dash: distance, duration, time so far, and interpolation factor. */
    var dist: real
    var dur: real
    var t: real
    var k: real

    /** The routine's state: time so far is not negative and k is the clamped share of the duration. */
    ghost predicate Valid()
      reads this
    {
      dur >= MinDuration && 0.0 <= t && k == Clamp01(t / dur) && dist >= 0.0
    }

    /** Not dashing, never dashed. */
    constructor (dashDistance: real, dashDuration: real, cooldown: real)
      ensures Valid() && !dashing && !coolingDown && cooldownUntil == 0.0
      ensures this.dashDistance == dashDistance && this.dashDuration == dashDuration && this.cooldown == cooldown
    {
      this.dashDistance, this.dashDuration, this.cooldown := dashDistance, dashDuration, cooldown;
      dashing, coolingDown, cooldownUntil := false, false, 0.0;
      dist, dur, t, k := 0.0, MinDuration, 0.0, 0.0;
    }

    /** How far along the dash line the player is: k of the distance, never past it. */
    function Travelled(): (r: real)
      requires 0.0 <= k <= 1.0 && dist >= 0.0
      reads this
      ensures 0.0 <= r <= dist
      ensures k == 1.0 ==> r == dist
      ensures k == 0.0 ==> r == 0.0
    {
      dist * k
    }

    /**
     * One resumption of the routine. While the time so far is short of the
     * duration it advances by dt and k follows it (reaching 1 at the end);
     * otherwise the dash is over.
     */
    method ResumeDash(dt: real)
      requires Valid() && dt >= 0.0
      modifies this
      ensures Valid()
      ensures !old(dashing) ==> unchanged(this)
      ensures old(dashing) && old(t) < dur ==> dashing && t == old(t) + dt && k == Clamp01(t / dur)
      ensures old(dashing) && old(t) < dur && t >= dur ==> k == 1.0
      ensures old(dashing) && old(t) >= dur ==> !dashing && t == old(t)
      ensures dur == old(dur) && dist == old(dist) && k >= old(k)
      ensures coolingDown == old(coolingDown) && cooldownUntil == old(cooldownUntil)
    {
      if !dashing {
        return;
      }
      if t < dur {
        t := t + dt;
        k := Clamp01(t / dur);
      } else {
        dashing := false;
      }
    }

    /**
     * Refused while dashing, or while cooling down before cooldownUntil.
     * Otherwise a dash starts: both flags set, the cooldown (unclamped) runs
     * from now, distance and duration are clamped, and the routine's first
     * step runs in this same frame. `usedForward` tells whether the input was
     * too small and the facing direction was used instead.
     */
    method TryDash(now: real, dt: real, inputSqrMag: real) returns (started: bool, usedForward: bool)
      requires Valid() && dt >= 0.0
      modifies this
      ensures Valid()
      ensures started <==> !old(dashing) && !(old(coolingDown) && now < old(cooldownUntil))
      ensures !started ==> unchanged(this) && !usedForward
      ensures started ==> usedForward == (inputSqrMag < DeadZone)
      ensures started ==> dashing && coolingDown && cooldownUntil == now + cooldown
      ensures started ==> dist == MaxReal(0.0, dashDistance) && dur == MaxReal(MinDuration, dashDuration)
      ensures started ==> t == dt && k == Clamp01(dt / dur)
    {
      if dashing {
        return false, false;
      }
      if coolingDown && now < cooldownUntil {
        return false, false;
      }
      usedForward := inputSqrMag < DeadZone;
      dashing, coolingDown := true, true;
      cooldownUntil := now + cooldown;
      dist := MaxReal(0.0, dashDistance);
      dur := MaxReal(MinDuration, dashDuration);
      t, k := 0.0, 0.0;
      ResumeDash(dt);
      started := true;
    }

    /** Per frame: input is ignored unless there is no GameLoop or it is Playing. */
    method Update(loop: GameLoop?, keyDown: bool, now: real, dt: real, inputSqrMag: real) returns (started: bool)
      requires Valid() && dt >= 0.0
      modifies this
      ensures Valid()
      ensures !AllowsInput(loop) || !keyDown ==> unchanged(this) && !started
      ensures started <==> AllowsInput(loop) && keyDown && !old(dashing) && !(old(coolingDown) && now < old(cooldownUntil))
    {
      started := false;
      if !AllowsInput(loop) {
        return;
      }
      if keyDown {
        var usedForward;
        started, usedForward := TryDash(now, dt, inputSqrMag);
      }
    }
  }

  /** Enough frames of length dt to cover `rem` seconds, with one frame to spare. */
  lemma FrameBudget(rem: real, dt: real) returns (budget: int)
    requires dt > 0.0
    ensures budget >= 1 && (budget - 1) as real * dt >= rem
  {
    var x := rem / dt;
    budget := MaxInt(1, x.Floor + 2);
    assert x * dt == rem;
    assert (budget - 1) as real >= x;
    MulLe(x, (budget - 1) as real, dt);
  }

  lemma MulLe(a: real, b: real, c: real)
    requires a <= b && c >= 0.0
    ensures a * c <= b * c
  {
  }

  /** Once the time so far reaches the duration, the interpolation factor is 1. */
  lemma FactorAtEnd(t: real, dur: real)
    requires dur > 0.0 && t >= dur
    ensures Clamp01(t / dur) == 1.0
  {
    assert t / dur >= 1.0;
  }

  /**
   * With frames of a fixed positive length, a running dash ends: dashing is
   * false again and k has reached 1, so the full distance was covered.
   */
  method DashToEnd(d: DashAbility, dt: real) returns (frames: nat)
    requires d.Valid() && d.dashing && dt > 0.0
    modifies d
    ensures d.Valid() && !d.dashing && d.k == 1.0 && d.Travelled() == d.dist
    ensures d.dur == old(d.dur) && d.cooldownUntil == old(d.cooldownUntil)
  {
    frames := 0;
    // budget - 1 frames of dt reach the duration, and one more frame ends the routine.
    ghost var budget := FrameBudget(d.dur - d.t, dt);
    while d.dashing
      invariant d.Valid() && d.dur == old(d.dur) && d.cooldownUntil == old(d.cooldownUntil)
      invariant !d.dashing ==> d.t >= d.dur
      invariant d.dashing ==> budget >= 1 && d.t + (budget - 1) as real * dt >= d.dur
      decreases budget
    {
      d.ResumeDash(dt);
      StepDown(budget, dt);
      budget := budget - 1;
      frames := frames + 1;
    }
    FactorAtEnd(d.t, d.dur);
  }

  lemma StepDown(b: int, dt: real)
    ensures (b - 2) as real * dt + dt == (b - 1) as real * dt
  {
  }

  /** Two dashes that both start are at least one cooldown apart. */
  method DashTwice(d: DashAbility, t1: real, t2: real, dt: real, frames: nat) returns (first: bool, second: bool)
    requires d.Valid() && dt > 0.0
    modifies d
    ensures first && second ==> t2 >= t1 + d.cooldown
  {
    var f1, f2;
    first, f1 := d.TryDash(t1, dt, 0.0);
    var i := 0;
    while i < frames
      invariant d.Valid() && (first ==> d.coolingDown && d.cooldownUntil == t1 + d.cooldown)
    {
      d.ResumeDash(dt);
      i := i + 1;
    }
    second, f2 := d.TryDash(t2, dt, 1.0);
  }
}
