/**
 * EnemyChaseAI: every so often an enemy picks the nearest player within its
 * chase distance (from the player registry, or by tag when the registry is
 * empty), and every so often it re-paths towards that target.
 */
module Chase {
  import opened Mathf

  /** A player transform as the AI sees it: identity and squared distance to the enemy. */
  datatype Seen = Seen(id: nat, sqrDist: real)

  /** A list entry worth chasing: not destroyed, and within the squared chase distance. */
  predicate InRange(c: Option<Seen>, maxSqr: real)
  {
    c.Some? && c.value.sqrDist <= maxSqr
  }

  /**
   * `i` is the entry NearestFromList settles on: in range, no in-range entry
   * is nearer, and every earlier in-range entry is strictly farther.
   */
  predicate IsNearest(s: seq<Option<Seen>>, i: int, maxSqr: real)
  {
    && 0 <= i < |s| && InRange(s[i], maxSqr)
    && (forall j :: 0 <= j < |s| && InRange(s[j], maxSqr) ==> s[i].value.sqrDist <= s[j].value.sqrDist)
    && (forall j :: 0 <= j < i && InRange(s[j], maxSqr) ==> s[i].value.sqrDist < s[j].value.sqrDist)
  }

  predicate NoneInRange(s: seq<Option<Seen>>, maxSqr: real)
  {
    forall j :: 0 <= j < |s| ==> !InRange(s[j], maxSqr)
  }

  /** What a search over `s` may return: nothing iff nothing is in range, else the position of the nearest. */
  predicate NearestResult(s: seq<Option<Seen>>, maxSqr: real, r: Option<nat>)
  {
    && (r.None? <==> NoneInRange(s, maxSqr))
    && (r.Some? ==> IsNearest(s, r.value, maxSqr))
  }

  /** A target picked from `s`: none iff nothing is in range, else the identity of the nearest. */
  ghost predicate TargetOf(s: seq<Option<Seen>>, maxSqr: real, target: Option<nat>)
  {
    && (target.None? <==> NoneInRange(s, maxSqr))
    && (target.Some? ==> exists i :: IsNearest(s, i, maxSqr) && target.value == s[i].value.id)
  }

  /** The squared chase distance (the distance is squared as given, sign and all). */
  function MaxSqr(maxChaseDistance: real): (r: real)
    ensures r >= 0.0
  {
    maxChaseDistance * maxChaseDistance
  }

  /**
   * The best-so-far loop: the position of the nearest entry within the chase
   * distance, the first of equally near ones, or None exactly when no entry
   * is in range.
   */
  method NearestFromList(list: seq<Option<Seen>>, maxChaseDistance: real) returns (best: Option<nat>)
    ensures NearestResult(list, MaxSqr(maxChaseDistance), best)
  {
    var maxSqr := maxChaseDistance * maxChaseDistance;
    var bestSqr: real := 0.0;
    best := None;
    for i := 0 to |list|
      invariant best.None? <==> NoneInRange(list[..i], maxSqr)
      invariant best.Some? ==> IsNearest(list[..i], best.value, maxSqr) && bestSqr == list[best.value].value.sqrDist
    {
      var t := list[i];
      if t.None? {
        continue;
      }
      var sqr := t.value.sqrDist;
      if (best.None? || sqr < bestSqr) && sqr <= maxSqr {
        bestSqr := sqr;
        best := Some(i);
      }
    }
    assert list[..|list|] == list;
  }

  /** The source the search uses: the registry whenever it has entries, else the tagged objects. */
  function Source(registry: seq<Option<Seen>>, tagged: seq<Option<Seen>>): (r: seq<Option<Seen>>)
    ensures |registry| > 0 ==> r == registry
    ensures |registry| == 0 ==> r == tagged
  {
    if |registry| > 0 then registry else tagged
  }

  /**
   * The registry is preferred whenever it is non-empty; otherwise the objects
   * tagged as players are searched (none tagged: no target). The result is a
   * position in the list searched. Destroyed tagged objects are skipped, as
   * the search skips them anyway.
   */
  method FindNearestPlayer(registry: seq<Option<Seen>>, tagged: seq<Option<Seen>>, maxChaseDistance: real)
    returns (r: Option<nat>)
    ensures NearestResult(Source(registry, tagged), MaxSqr(maxChaseDistance), r)
  {
    if |registry| > 0 {
      r := NearestFromList(registry, maxChaseDistance);
      return;
    }
    if |tagged| == 0 {
      return None;
    }
    r := NearestFromList(tagged, maxChaseDistance);
  }

  class EnemyChaseAI {
    const retargetInterval: real
    const repathEvery: real
    const maxChaseDistance: real
    /** Whether the agent stands on the navigation mesh. */
    var onNavMesh: bool
    var target: Option<nat>
    var retargetTimer: real
    var repathTimer: real

    constructor (retargetInterval: real, repathEvery: real, maxChaseDistance: real, onNavMesh: bool)
      ensures this.retargetInterval == retargetInterval && this.repathEvery == repathEvery
      ensures this.maxChaseDistance == maxChaseDistance && this.onNavMesh == onNavMesh
      ensures target == None && retargetTimer == 0.0 && repathTimer == 0.0
    {
      this.retargetInterval, this.repathEvery, this.maxChaseDistance := retargetInterval, repathEvery, maxChaseDistance;
      this.onNavMesh, target := onNavMesh, None;
      retargetTimer, repathTimer := 0.0, 0.0;
    }

    /**
     * Off the mesh, the agent is warped onto it when a mesh point is found
     * nearby (`sampleFound`). Both timers start at random points of their
     * intervals (`draw1`, `draw2`), so enemies do not all act on one frame.
     */
    method OnEnable(sampleFound: bool, draw1: real, draw2: real)
      requires MinReal(0.0, retargetInterval) <= draw1 <= MaxReal(0.0, retargetInterval)
      requires MinReal(0.0, repathEvery) <= draw2 <= MaxReal(0.0, repathEvery)
      modifies this
      ensures onNavMesh == (old(onNavMesh) || sampleFound)
      ensures retargetTimer == draw1 && repathTimer == draw2 && target == old(target)
      ensures retargetInterval >= 0.0 ==> 0.0 <= retargetTimer <= retargetInterval
      ensures repathEvery >= 0.0 ==> 0.0 <= repathTimer <= repathEvery
    {
      if !onNavMesh && sampleFound {
        onNavMesh := true;
      }
      retargetTimer := draw1;
      repathTimer := draw2;
    }

    /**
     * Per frame; nothing happens off the mesh. The retarget timer drops by dt
     * and at or below 0 restarts at retargetInterval with a new search. Then,
     * with a live target (`targetDestroyed`: the kept target has been
     * destroyed), the repath timer drops by dt and at or below 0 restarts at
     * repathEvery and a path to the target is requested (`destination`).
     */
    method Update(dt: real, registry: seq<Option<Seen>>, tagged: seq<Option<Seen>>, targetDestroyed: bool)
      returns (destination: Option<nat>)
      modifies this
      ensures !old(onNavMesh) ==> unchanged(this) && destination.None?
      ensures onNavMesh == old(onNavMesh)
      ensures var retargeted := old(retargetTimer) - dt <= 0.0;
        && (old(onNavMesh) && retargeted ==>
              retargetTimer == retargetInterval
              && TargetOf(Source(registry, tagged), MaxSqr(maxChaseDistance), target))
        && (old(onNavMesh) && !retargeted ==>
              retargetTimer == old(retargetTimer) - dt
              && target == (if targetDestroyed then None else old(target)))
      ensures old(onNavMesh) && target.None? ==> repathTimer == old(repathTimer) && destination.None?
      ensures old(onNavMesh) && target.Some? && old(repathTimer) - dt <= 0.0 ==>
        repathTimer == repathEvery && destination == target
      ensures old(onNavMesh) && target.Some? && old(repathTimer) - dt > 0.0 ==>
        repathTimer == old(repathTimer) - dt && destination.None?
    {
      destination := None;
      if !onNavMesh {
        return;
      }
      retargetTimer := retargetTimer - dt;
      if retargetTimer <= 0.0 {
        retargetTimer := retargetInterval;
        var found := FindNearestPlayer(registry, tagged, maxChaseDistance);
        target := if found.Some? then Some(Source(registry, tagged)[found.value].value.id) else None;
        if target.None? {
          return;
        }
      } else if targetDestroyed {
        target := None;
      }
      if target.None? {
        return;
      }
      repathTimer := repathTimer - dt;
      if repathTimer <= 0.0 {
        repathTimer := repathEvery;
        destination := target;
      }
    }
  }
}
