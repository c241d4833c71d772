/**
 * GameLoop: the single run-state machine (Menu, Playing, Paused, GameOver)
 * and the run clock, which counts time since StartRun minus time spent paused.
 */
module Run {

  datatype GameState = Menu | Playing | Paused | GameOver

  /** The engine's global Time.timeScale, shared by everything that pauses the game. */
  class TimeScale {
    var value: real

    constructor (value: real)
      ensures this.value == value
    {
      this.value := value;
    }
  }

  /**
   * The gate every per-frame behaviour that reads input applies: act when
   * there is no GameLoop at all, or when it is Playing.
   */
  predicate AllowsInput(loop: GameLoop?)
    reads loop
  {
    loop == null || loop.state == Playing
  }

  class GameLoop {
    var state: GameState
    var runStartTime: real
    var pausedTimeAccumulated: real
    var lastPauseTime: real

    /** A fresh GameLoop sits in the menu with its timing fields at 0. */
    constructor ()
      ensures state == Menu && runStartTime == 0.0
      ensures pausedTimeAccumulated == 0.0 && lastPauseTime == 0.0
    {
      state := Menu;
      runStartTime, pausedTimeAccumulated, lastPauseTime := 0.0, 0.0, 0.0;
    }

    /**
     * Run time at `now`, excluding pauses: 0 in Menu and GameOver, frozen at
     * the pause instant while Paused.
     */
    function Elapsed(now: real): (r: real)
      reads this
      ensures state == Menu || state == GameState.GameOver ==> r == 0.0
    {
      if state == Menu || state == GameState.GameOver then 0.0
      else if state == Paused then (lastPauseTime - runStartTime) - pausedTimeAccumulated
      else (now - runStartTime) - pausedTimeAccumulated
    }

    /** From any state: Playing, the clock restarted at `now`, time running. */
    method StartRun(now: real, time: TimeScale)
      modifies this, time
      ensures state == Playing && time.value == 1.0
      ensures Elapsed(now) == 0.0
      ensures runStartTime == now && pausedTimeAccumulated == 0.0 && lastPauseTime == 0.0
    {
      time.value := 1.0;
      state := Playing;
      runStartTime := now;
      pausedTimeAccumulated := 0.0;
      lastPauseTime := 0.0;
    }

    /**
     * Only from Playing: Paused, time stopped, and the clock frozen at the
     * value it had at `now`. Otherwise nothing changes.
     */
    method Pause(now: real, time: TimeScale)
      modifies this, time
      ensures old(state) != Playing ==> unchanged(this) && unchanged(time)
      ensures old(state) == Playing ==> state == Paused && lastPauseTime == now && time.value == 0.0
      ensures old(state) == Playing ==>
        runStartTime == old(runStartTime) && pausedTimeAccumulated == old(pausedTimeAccumulated)
      ensures old(state) == Playing ==> forall t :: Elapsed(t) == old(Elapsed(now))
    {
      if state != Playing {
        return;
      }
      state := Paused;
      lastPauseTime := now;
      time.value := 0.0;
    }

    /**
     * Only from Paused: Playing again, the paused span added to the paused
     * total, time running; the clock resumes from its frozen value.
     */
    method Resume(now: real, time: TimeScale)
      modifies this, time
      ensures old(state) != Paused ==> unchanged(this) && unchanged(time)
      ensures old(state) == Paused ==> state == Playing && time.value == 1.0 && lastPauseTime == 0.0
      ensures old(state) == Paused ==>
        pausedTimeAccumulated == old(pausedTimeAccumulated) + (now - old(lastPauseTime))
      ensures old(state) == Paused ==> runStartTime == old(runStartTime)
      ensures old(state) == Paused ==> Elapsed(now) == old(Elapsed(now))
    {
      if state != Paused {
        return;
      }
      state := Playing;
      pausedTimeAccumulated := pausedTimeAccumulated + (now - lastPauseTime);
      lastPauseTime := 0.0;
      time.value := 1.0;
    }

    /** From any state: Menu with time running; the timing fields are kept. */
    method EndRunToMenu(time: TimeScale)
      modifies this, time
      ensures state == Menu && time.value == 1.0
      ensures runStartTime == old(runStartTime) && pausedTimeAccumulated == old(pausedTimeAccumulated)
      ensures lastPauseTime == old(lastPauseTime)
    {
      state := Menu;
      time.value := 1.0;
    }

    /** From any state: GameOver with time stopped; the clock reads 0. */
    method GameOver(time: TimeScale)
      modifies this, time
      ensures state == GameState.GameOver && time.value == 0.0
      ensures forall t :: Elapsed(t) == 0.0
      ensures runStartTime == old(runStartTime) && pausedTimeAccumulated == old(pausedTimeAccumulated)
      ensures lastPauseTime == old(lastPauseTime)
    {
      state := GameState.GameOver;
      time.value := 0.0;
    }
  }

  /** While Playing, the clock never runs backwards. */
  lemma ElapsedMonotoneWhilePlaying(g: GameLoop, t1: real, t2: real)
    requires g.state == Playing && t1 <= t2
    ensures g.Elapsed(t1) <= g.Elapsed(t2)
    ensures g.Elapsed(t2) - g.Elapsed(t1) == t2 - t1
  {
  }

  /** While Paused, the clock does not depend on the time it is read at. */
  lemma ElapsedFrozenWhilePaused(g: GameLoop, t1: real, t2: real)
    requires g.state == Paused
    ensures g.Elapsed(t1) == g.Elapsed(t2)
  {
  }

  /**
   * Pausing at t and resuming at any later t2 leaves the clock at t2 where it
   * was just before the pause: paused time is not counted.
   */
  method PauseThenResume(g: GameLoop, time: TimeScale, t: real, t2: real)
    requires g.state == Playing && t <= t2
    modifies g, time
    ensures g.state == Playing && time.value == 1.0
    ensures g.Elapsed(t2) == old(g.Elapsed(t))
  {
    g.Pause(t, time);
    g.Resume(t2, time);
  }
}
