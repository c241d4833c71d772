/**
 * AutoFireWeapon: a countdown that, when it runs out, scans for damageable
 * targets in range and shoots the nearest one. A shot restarts the countdown
 * at 1/fireRate; a scan that finds nothing retries soon after.
 */
module AutoFire {
  import opened Mathf

  /** Capacity of the overlap buffer: at most this many colliders per scan. */
  const BufferSize := 128

  /** The layer mask meaning "every layer" (~0). */
  const AllLayers := -1

  /**
   * What the scan learns about one collider: the damageable it resolves to
   * (on itself, its rigidbody or a parent), whether that damageable has a
   * transform, and the squared distance from the weapon to that transform.
   */
  datatype Candidate = Candidate(damageable: Option<nat>, hasTransform: bool, sqrDist: real)

  /** One TakeDamage call: which damageable, and how much. */
  datatype Shot = Shot(target: nat, amount: real)

  /** A buffer slot worth shooting at: a collider with a damageable that has a transform. */
  predicate Targetable(c: Option<Candidate>)
  {
    c.Some? && c.value.damageable.Some? && c.value.hasTransform
  }

  /**
   * `i` is the slot the scan settles on: targetable, no targetable slot is
   * nearer, and every earlier targetable slot is strictly farther (the first
   * of equally near ones wins).
   */
  predicate IsNearest(s: seq<Option<Candidate>>, i: int)
  {
    && 0 <= i < |s| && Targetable(s[i])
    && (forall j :: 0 <= j < |s| && Targetable(s[j]) ==> s[i].value.sqrDist <= s[j].value.sqrDist)
    && (forall j :: 0 <= j < i && Targetable(s[j]) ==> s[i].value.sqrDist < s[j].value.sqrDist)
  }

  predicate NoTarget(s: seq<Option<Candidate>>)
  {
    forall j :: 0 <= j < |s| ==> !Targetable(s[j])
  }

  /**
   * The selection loop over the first `count` buffer slots: the slot of the
   * nearest targetable collider, or None exactly when there is none.
   */
  method NearestSlot(buf: array<Option<Candidate>>, count: int) returns (best: Option<nat>)
    requires 0 <= count <= buf.Length
    ensures best.None? <==> NoTarget(buf[..count])
    ensures best.Some? ==> IsNearest(buf[..count], best.value)
  {
    best := None;
    var bestSqr: real := 0.0;
    for i := 0 to count
      invariant best.None? <==> NoTarget(buf[..i])
      invariant best.Some? ==> IsNearest(buf[..i], best.value) && bestSqr == buf[best.value].value.sqrDist
    {
      var c := buf[i];
      if !Targetable(c) {
        continue;
      }
      var sqr := c.value.sqrDist;
      if best.None? || sqr < bestSqr {
        bestSqr := sqr;
        best := Some(i);
      }
    }
  }

  class AutoFireWeapon {
    var fireRate: real
    var damage: real
    const useLayerFilter: bool
    const targetLayers: int
    /** The reused collider buffer (null slots are None). */
    const hits: array<Option<Candidate>>
    var timer: real

    ghost predicate Valid()
      reads this
    {
      hits.Length == BufferSize
    }

    /** Inspector defaults: 2 shots per second, 5 damage; the countdown starts at 0. */
    constructor (useLayerFilter: bool, targetLayers: int)
      ensures Valid() && fresh(hits)
      ensures fireRate == 2.0 && damage == 5.0 && timer == 0.0
      ensures this.useLayerFilter == useLayerFilter && this.targetLayers == targetLayers
    {
      fireRate, damage, timer := 2.0, 5.0, 0.0;
      this.useLayerFilter, this.targetLayers := useLayerFilter, targetLayers;
      hits := new Option<Candidate>[BufferSize](_ => None);
    }

    /** The mask the overlap query uses: the target layers, or every layer when filtering is off. */
    function ScanMask(): (r: int)
      reads this
      ensures useLayerFilter ==> r == targetLayers
      ensures !useLayerFilter ==> r == AllLayers
    {
      if useLayerFilter then targetLayers else AllLayers
    }

    /**
     * One scan. `overlap` stands for the physics query: the colliders in
     * range on the given mask. At most BufferSize of them are written into the
     * buffer; the rest of the buffer keeps stale slots that are not read. The
     * nearest targetable one among those written is shot with `damage`; with
     * none, nothing is shot.
     */
    method TryFireOnce(overlap: int -> seq<Option<Candidate>>) returns (shot: Option<Shot>, count: int)
      requires Valid()
      modifies hits
      ensures count == MinInt(|overlap(ScanMask())|, BufferSize)
      ensures hits[..count] == overlap(ScanMask())[..count]
      ensures forall j :: count <= j < BufferSize ==> hits[j] == old(hits[j])
      ensures shot.None? <==> NoTarget(hits[..count])
      ensures shot.Some? ==>
        exists i :: IsNearest(hits[..count], i) && shot.value == Shot(hits[i].value.damageable.value, damage)
    {
      var found := overlap(ScanMask());
      count := MinInt(|found|, BufferSize);
      for i := 0 to count
        invariant hits[..i] == found[..i]
        invariant forall j :: i <= j < BufferSize ==> hits[j] == old(hits[j])
      {
        hits[i] := found[i];
      }
      var best := NearestSlot(hits, count);
      if best.None? {
        return None, count;
      }
      shot := Some(Shot(hits[best.value].value.damageable.value, damage));
    }

    /**
     * Per frame: the countdown drops by dt, and only when it is at or below 0
     * is a scan made. A shot restarts it at 1/fireRate; a miss sets it to
     * min(timer + 0.05, 0), so the next frame scans again.
     */
    method Update(dt: real, overlap: int -> seq<Option<Candidate>>) returns (shot: Option<Shot>)
      requires Valid() && fireRate != 0.0
      modifies this, hits
      ensures Valid() && fireRate == old(fireRate) && damage == old(damage)
      ensures old(timer) - dt > 0.0 ==> shot.None? && timer == old(timer) - dt && unchanged(hits)
      ensures old(timer) - dt <= 0.0 && shot.Some? ==> timer == 1.0 / fireRate
      ensures old(timer) - dt <= 0.0 && shot.None? ==> timer == MinReal(old(timer) - dt + 0.05, 0.0) && timer <= 0.0
      ensures old(timer) - dt <= 0.0 ==> var n := MinInt(|overlap(ScanMask())|, BufferSize);
        hits[..n] == overlap(ScanMask())[..n] && (shot.None? <==> NoTarget(hits[..n]))
      ensures shot.Some? ==> var n := MinInt(|overlap(ScanMask())|, BufferSize);
        exists i :: IsNearest(hits[..n], i) && shot.value == Shot(hits[i].value.damageable.value, damage)
    {
      timer := timer - dt;
      shot := None;
      if timer <= 0.0 {
        var count;
        shot, count := TryFireOnce(overlap);
        if shot.Some? {
          timer := 1.0 / fireRate;
        } else {
          timer := MinReal(timer + 0.05, 0.0);
        }
      }
    }
  }
}
