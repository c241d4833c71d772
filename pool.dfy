/**
 * SimplePool: a FIFO queue of inactive copies of one prefab. Get hands out
 * the oldest queued object (or a new one when the queue is empty), placed
 * and activated; Return deactivates an object and queues it again.
 */
module Pool {
  import opened Mathf

  /** A rotation, as its quaternion components. */
  datatype Quat = Quat(x: real, y: real, z: real, w: real)

  /** A pooled game object: whether it is active, and where it stands. */
  class PooledObject {
    var active: bool
    var pos: Vec3
    var rot: Quat

    /** A new copy of the prefab, active as the prefab is, at the pool's pose. */
    constructor (pos: Vec3, rot: Quat)
      ensures active && this.pos == pos && this.rot == rot
    {
      active := true;
      this.pos, this.rot := pos, rot;
    }
  }

  /** No object is queued twice. */
  ghost predicate Distinct(q: seq<PooledObject>)
  {
    forall i, j :: 0 <= i < j < |q| ==> q[i] != q[j]
  }

  class SimplePool {
    const prewarm: int
    /** Where new copies are made (the pool's own transform). */
    const home: Vec3
    const homeRot: Quat
    var q: seq<PooledObject>

    /** Every queued object is inactive and none is queued twice. */
    ghost predicate Valid()
      reads this, q
    {
      Distinct(q) && forall i :: 0 <= i < |q| ==> !q[i].active
    }

    /** An empty queue. */
    constructor (prewarm: int, home: Vec3, homeRot: Quat)
      ensures Valid() && q == []
      ensures this.prewarm == prewarm && this.home == home && this.homeRot == homeRot
    {
      this.prewarm, this.home, this.homeRot := prewarm, home, homeRot;
      q := [];
    }

    /** Prewarm: max(0, prewarm) new copies, deactivated, are queued behind what is there. */
    method Awake()
      modifies this
      ensures old(Valid()) ==> Valid()
      ensures |q| == |old(q)| + MaxInt(0, prewarm) && q[..|old(q)|] == old(q)
      ensures forall i :: |old(q)| <= i < |q| ==> fresh(q[i]) && !q[i].active
    {
      var n := MaxInt(0, prewarm);
      ghost var q0 := q;
      for i := 0 to n
        invariant |q| == |q0| + i && q[..|q0|] == q0
        invariant forall k :: |q0| <= k < |q| ==> fresh(q[k]) && !q[k].active
        invariant old(Valid()) ==> Valid()
      {
        var go := new PooledObject(home, homeRot);
        go.active := false;
        q := q + [go];
      }
    }

    /**
     * Hand out an object at the given pose, active: the front of the queue,
     * which leaves it, or a new copy when the queue is empty.
     */
    method Get(pos: Vec3, rot: Quat) returns (go: PooledObject)
      modifies this, if |q| > 0 then {q[0]} else {}
      ensures old(Valid()) ==> Valid()
      ensures go.active && go.pos == pos && go.rot == rot
      ensures |old(q)| > 0 ==> go == old(q[0]) && q == old(q[1..])
      ensures |old(q)| == 0 ==> fresh(go) && q == []
    {
      if |q| > 0 {
        go := q[0];
        q := q[1..];
      } else {
        go := new PooledObject(home, homeRot);
      }
      go.pos, go.rot := pos, rot;
      go.active := true;
    }

    /**
     * Take an object back: deactivated and queued at the back. Nothing checks
     * that it is not queued already; a queue that did not hold it stays valid.
     */
    method Return(go: PooledObject)
      modifies this, go
      ensures !go.active && go.pos == old(go.pos) && go.rot == old(go.rot)
      ensures q == old(q) + [go]
      ensures old(Valid()) && go !in old(q) ==> Valid()
    {
      go.active := false;
      q := q + [go];
    }
  }

  /**
   * Returning one object twice queues it twice, so after the first copy is
   * handed out again the queue still holds an object that is in use.
   */
  method DoubleReturn(p: SimplePool, go: PooledObject, pos: Vec3, rot: Quat) returns (out: PooledObject)
    requires p.q == []
    modifies p, go
    ensures out == go && out.active && go in p.q
  {
    p.Return(go);
    p.Return(go);
    out := p.Get(pos, rot);
  }
}
