/**
 * EnemySpawner: once the run is Playing, spawns a wave of enemies every
 * spawnInterval seconds, at random spawn points when there are any, otherwise
 * around the player. Positions are snapped onto the navigation mesh, and near
 * the player a bounded number of random placements is tried.
 */
module Spawner {
  import opened Mathf
  import opened Run

  /** Placement attempts around the player per enemy. */
  const MaxTries := 12

  /** Lower bounds OnValidate enforces. */
  const MinSpawnInterval := 0.1
  const MinSnapDistance := 0.1

  /** Multipliers at or below this leave the enemy's health alone. */
  const HealthMultThreshold := 1.001

  /** One random placement draw: an angle, and where in the radius range (0 to 1) the radius falls. */
  datatype Draw = Draw(angle: real, u: real)

  /**
   * The engine services a wave consults: where a transform is, the mesh point
   * found near a position (within the snap distance), whether a complete path
   * joins two points, the point on a ring around a centre at an angle and
   * radius, the spawn point drawn for the i-th enemy, the placement draws of
   * attempt j for the i-th enemy, and the random mesh point picked for it
   * (None when the mesh has no triangles).
   */
  datatype World = World(
    position: nat -> Vec3,
    sample: Vec3 -> Option<Vec3>,
    hasPath: (Vec3, Vec3) -> bool,
    ring: (Vec3, real, real) -> Vec3,
    pick: nat -> nat,
    draw: (nat, nat) -> Draw,
    meshPoint: nat -> Option<Vec3>)

  /** One instantiated enemy: where, and the health multiplier applied to it (if any). */
  datatype Spawned = Spawned(pos: Vec3, scaledBy: Option<real>)

  /** Which way a wave places its enemies. */
  datatype WaveMode = NoPrefab | AtPoints | NearPlayer | Nowhere

  /** A wave's placement settings: its mode, the spawn points, the player and the ring radii. */
  datatype Layout = Layout(mode: WaveMode, points: seq<Option<nat>>, player: Option<nat>, minR: real, maxR: real)

  /** The start-up coroutine, then the spawn loop, then nothing. */
  datatype LoopPhase = AwaitingPlay | Spawning | Stopped

  /** ApplyHealthMult: the multiplier reaches the enemy only when above 1.001. */
  function HealthMultApplied(mult: real): (r: Option<real>)
    ensures r.Some? <==> mult > HealthMultThreshold
    ensures r.Some? ==> r.value == mult && r.value > 1.0
  {
    if mult <= HealthMultThreshold then None else Some(mult)
  }

  /**
   * Random.Range over [max(1, minR), max(minR + 1, maxR)], with `u` the
   * position in the range. For a non-negative minimum distance the range is
   * well formed, starts at 1 or more, and its top exceeds minR.
   */
  function Radius(minR: real, maxR: real, u: real): (r: real)
    ensures minR >= 0.0 ==> 1.0 <= MaxReal(1.0, minR) <= r <= MaxReal(minR + 1.0, maxR)
    ensures minR >= 0.0 ==> r >= minR
  {
    var lo := MaxReal(1.0, minR);
    var hi := MaxReal(minR + 1.0, maxR);
    lo + Scaled(Clamp01(u), hi - lo)
  }

  /** The entries kept by OnValidate: the non-null ones, in their original order. */
  function Compact(s: seq<Option<nat>>): seq<Option<nat>>
  {
    if |s| == 0 then []
    else Compact(s[..|s| - 1]) + (if s[|s| - 1].Some? then [s[|s| - 1]] else [])
  }

  predicate NoNulls(s: seq<Option<nat>>)
  {
    forall i :: 0 <= i < |s| ==> s[i].Some?
  }

  /** What Compact keeps is non-null, and an entry is kept exactly when it is a non-null entry of the input. */
  lemma {:induction false} CompactMembers(s: seq<Option<nat>>)
    ensures NoNulls(Compact(s))
    ensures forall e :: e in Compact(s) <==> e in s && e.Some?
  {
    if |s| > 0 {
      var init, last := s[..|s| - 1], s[|s| - 1];
      CompactMembers(init);
      assert s == init + [last];
      var tail := if last.Some? then [last] else [];
      assert Compact(s) == Compact(init) + tail;
    }
  }

  /** Compact never lengthens, keeps the length exactly when there are no nulls, and then keeps the list whole. */
  lemma {:induction false} CompactLength(s: seq<Option<nat>>)
    ensures |Compact(s)| <= |s|
    ensures |Compact(s)| == |s| <==> NoNulls(s)
    ensures NoNulls(s) ==> Compact(s) == s
  {
    if |s| > 0 {
      var init, last := s[..|s| - 1], s[|s| - 1];
      CompactLength(init);
      var tail := if last.Some? then [last] else [];
      assert Compact(s) == Compact(init) + tail;
      NoNullsSplit(s);
      if NoNulls(s) {
        assert s == init + [last];
      }
    }
  }

  /** A list has no nulls exactly when its initial part has none and its last entry is non-null. */
  lemma NoNullsSplit(s: seq<Option<nat>>)
    requires |s| > 0
    ensures NoNulls(s) <==> NoNulls(s[..|s| - 1]) && s[|s| - 1].Some?
  {
    var init := s[..|s| - 1];
    if NoNulls(init) && s[|s| - 1].Some? {
      forall i | 0 <= i < |s|
        ensures s[i].Some?
      {
        if i < |s| - 1 {
          assert s[i] == init[i];
        }
      }
    }
  }

  /**
   * Compact drops exactly the nulls: what it keeps is non-null and comes from
   * the input, every non-null entry is kept, and a list without nulls is
   * kept whole.
   */
  lemma CompactFacts(s: seq<Option<nat>>)
    ensures NoNulls(Compact(s))
    ensures forall e :: e in Compact(s) <==> e in s && e.Some?
    ensures |Compact(s)| <= |s|
    ensures |Compact(s)| == |s| <==> NoNulls(s)
    ensures NoNulls(s) ==> Compact(s) == s
  {
    CompactMembers(s);
    CompactLength(s);
  }

  /** Compacting a longer prefix keeps at least as many entries. */
  lemma {:induction false} CompactPrefixGrows(s: seq<Option<nat>>, i: nat, k: nat)
    requires i <= k <= |s|
    ensures |Compact(s[..i])| <= |Compact(s[..k])|
    decreases k - i
  {
    if i < k {
      CompactPrefixGrows(s, i, k - 1);
      assert s[..k][..k - 1] == s[..k - 1];
    }
  }

  /** Compacting one entry more appends that entry when it is non-null. */
  lemma CompactSnoc(s: seq<Option<nat>>, i: nat)
    requires i < |s|
    ensures Compact(s[..i + 1]) == Compact(s[..i]) + (if s[i].Some? then [s[i]] else [])
  {
    assert s[..i + 1][..i] == s[..i];
  }

  /**
   * The counting loop and, when there are nulls, the copying loop of
   * OnValidate: the array of the non-null entries, in order; the same array
   * when there are none.
   */
  method CompactArray(points: array<Option<nat>>) returns (r: array<Option<nat>>)
    ensures r[..] == Compact(points[..])
    ensures NoNulls(points[..]) ==> r == points
    ensures r != points ==> fresh(r)
  {
    var valid := 0;
    for i := 0 to points.Length
      invariant valid == |Compact(points[..i])|
    {
      CompactSnoc(points[..], i);
      assert points[..][..i + 1] == points[..i + 1] && points[..][..i] == points[..i];
      if points[i].Some? {
        valid := valid + 1;
      }
    }
    assert points[..points.Length] == points[..];
    CompactLength(points[..]);
    if valid == points.Length {
      return points;
    }
    r := CopyNonNull(points, valid);
  }

  /** The copying loop: a new array of exactly the `valid` non-null entries, in order. */
  method CopyNonNull(points: array<Option<nat>>, valid: nat) returns (r: array<Option<nat>>)
    requires valid == |Compact(points[..])|
    ensures fresh(r) && r[..] == Compact(points[..])
  {
    r := new Option<nat>[valid](_ => None);
    var j := 0;
    for i := 0 to points.Length
      invariant j == |Compact(points[..i])| <= valid
      invariant r[..j] == Compact(points[..i])
    {
      CompactSnoc(points[..], i);
      assert points[..][..i + 1] == points[..i + 1] && points[..][..i] == points[..i];
      CompactPrefixGrows(points[..], i + 1, points.Length);
      assert points[..][..points.Length] == points[..];
      if points[i].Some? {
        r[j] := points[i];
        j := j + 1;
      }
    }
    assert points[..points.Length] == points[..];
    assert r[..] == r[..j];
  }

  class EnemySpawner {
    const hasEnemyPrefab: bool
    var spawnInterval: real
    var enemiesPerWave: int
    var spawnPoints: array?<Option<nat>>
    var player: Option<nat>
    var spawnRadius: real
    var minDistanceFromPlayer: real
    const snapToNavMesh: bool
    var navMeshSnapMaxDist: real
    const requireReachableFromPlayer: bool
    var timer: real
    var phase: LoopPhase

    constructor (hasEnemyPrefab: bool, spawnPoints: array?<Option<nat>>, player: Option<nat>,
                 snapToNavMesh: bool, requireReachableFromPlayer: bool)
      ensures this.hasEnemyPrefab == hasEnemyPrefab && this.spawnPoints == spawnPoints && this.player == player
      ensures this.snapToNavMesh == snapToNavMesh && this.requireReachableFromPlayer == requireReachableFromPlayer
      ensures spawnInterval == 2.0 && enemiesPerWave == 5 && spawnRadius == 20.0
      ensures minDistanceFromPlayer == 8.0 && navMeshSnapMaxDist == 8.0
      ensures timer == 0.0 && phase == AwaitingPlay
    {
      this.hasEnemyPrefab, this.spawnPoints, this.player := hasEnemyPrefab, spawnPoints, player;
      this.snapToNavMesh, this.requireReachableFromPlayer := snapToNavMesh, requireReachableFromPlayer;
      spawnInterval, enemiesPerWave, spawnRadius := 2.0, 5, 20.0;
      minDistanceFromPlayer, navMeshSnapMaxDist := 8.0, 8.0;
      timer, phase := 0.0, AwaitingPlay;
    }

    /**
     * Clamps the settings to their lower bounds and replaces the spawn points
     * by a fresh array of exactly their non-null entries, in order (the array
     * is kept as it is when it has no nulls).
     */
    method OnValidate()
      modifies this
      ensures spawnInterval == MaxReal(MinSpawnInterval, old(spawnInterval))
      ensures enemiesPerWave == MaxInt(0, old(enemiesPerWave))
      ensures spawnRadius == MaxReal(0.0, old(spawnRadius))
      ensures minDistanceFromPlayer == MaxReal(0.0, old(minDistanceFromPlayer))
      ensures navMeshSnapMaxDist == MaxReal(MinSnapDistance, old(navMeshSnapMaxDist))
      ensures old(spawnPoints) == null ==> spawnPoints == null
      ensures old(spawnPoints) != null ==> spawnPoints != null && spawnPoints[..] == Compact(old(spawnPoints[..]))
      ensures spawnPoints != null ==> NoNulls(spawnPoints[..])
      ensures old(spawnPoints) != null && NoNulls(old(spawnPoints[..])) ==> spawnPoints == old(spawnPoints)
      ensures player == old(player) && timer == old(timer) && phase == old(phase)
    {
      // Each `if (x < lo) x = lo;` of the source, as a max.
      spawnInterval := MaxReal(MinSpawnInterval, spawnInterval);
      enemiesPerWave := MaxInt(0, enemiesPerWave);
      spawnRadius := MaxReal(0.0, spawnRadius);
      minDistanceFromPlayer := MaxReal(0.0, minDistanceFromPlayer);
      navMeshSnapMaxDist := MaxReal(MinSnapDistance, navMeshSnapMaxDist);

      if spawnPoints != null {
        CompactSpawnPoints();
      }
    }

    /** The spawn-point part of OnValidate: the points become their non-null entries, in order. */
    method CompactSpawnPoints()
      requires spawnPoints != null
      modifies this
      ensures spawnPoints != null && spawnPoints[..] == Compact(old(spawnPoints[..])) && NoNulls(spawnPoints[..])
      ensures NoNulls(old(spawnPoints[..])) ==> spawnPoints == old(spawnPoints)
      ensures spawnInterval == old(spawnInterval) && enemiesPerWave == old(enemiesPerWave)
      ensures spawnRadius == old(spawnRadius) && minDistanceFromPlayer == old(minDistanceFromPlayer)
      ensures navMeshSnapMaxDist == old(navMeshSnapMaxDist)
      ensures player == old(player) && timer == old(timer) && phase == old(phase)
    {
      ghost var points := spawnPoints[..];
      CompactFacts(points);
      var kept := CompactArray(spawnPoints);
      spawnPoints := kept;
    }

    /** The snap: the candidate itself when snapping is off, else the mesh point found near it (if any). */
    function TrySnapToNavMesh(candidate: Vec3, w: World): (r: Option<Vec3>)
      ensures !snapToNavMesh ==> r == Some(candidate)
      ensures snapToNavMesh ==> r == w.sample(candidate)
    {
      if !snapToNavMesh then Some(candidate) else w.sample(candidate)
    }

    /** Attempt j for enemy e around `center`: the ring point for that attempt's draws. */
    function Candidate(center: Vec3, minR: real, maxR: real, e: nat, j: nat, w: World): Vec3
    {
      var d := w.draw(e, j);
      w.ring(center, d.angle, Radius(minR, maxR, d.u))
    }

    /** Attempt j succeeds: its candidate snaps, and (when required) a path leads from it to the centre. */
    predicate Accepts(center: Vec3, minR: real, maxR: real, e: nat, j: nat, w: World)
    {
      var s := TrySnapToNavMesh(Candidate(center, minR, maxR, e, j, w), w);
      s.Some? && (!requireReachableFromPlayer || w.hasPath(s.value, center))
    }

    /**
     * The first attempt from `j` on (below MaxTries) that succeeds, if any:
     * every attempt before it fails, and with none, every attempt fails.
     */
    function FirstAccepting(center: Vec3, minR: real, maxR: real, e: nat, j: nat, w: World): (r: Option<nat>)
      ensures r.Some? ==> j <= r.value < MaxTries && Accepts(center, minR, maxR, e, r.value, w)
      ensures r.Some? ==> forall k :: j <= k < r.value ==> !Accepts(center, minR, maxR, e, k, w)
      ensures r.None? ==> forall k :: j <= k < MaxTries ==> !Accepts(center, minR, maxR, e, k, w)
      decreases MaxTries - j
    {
      if j >= MaxTries then None
      else if Accepts(center, minR, maxR, e, j, w) then Some(j)
      else FirstAccepting(center, minR, maxR, e, j + 1, w)
    }

    /** The spawn at a point, as SpawnAtPoint makes it: none for a null point or a failed snap. */
    function PointSpawn(point: Option<nat>, mult: real, w: World): Option<Spawned>
    {
      if point.None? then None
      else
        var pos := TrySnapToNavMesh(w.position(point.value), w);
        if pos.None? then None else Some(Spawned(pos.value, HealthMultApplied(mult)))
    }

    /**
     * The spawn near `player` for the e-th enemy, as SpawnNearPlayer makes
     * it: the snapped candidate of the first successful attempt, else the
     * snapped random mesh point, else none.
     */
    function NearPlayerSpawn(player: Option<nat>, minR: real, maxR: real, e: nat, mult: real, w: World): Option<Spawned>
    {
      if player.None? then None
      else
        var center := w.position(player.value);
        var first := FirstAccepting(center, minR, maxR, e, 0, w);
        var pos :=
          if first.Some? then TrySnapToNavMesh(Candidate(center, minR, maxR, e, first.value, w), w)
          else if w.meshPoint(e).Some? then TrySnapToNavMesh(w.meshPoint(e).value, w)
          else None;
        if pos.None? then None else Some(Spawned(pos.value, HealthMultApplied(mult)))
    }

    /** The settings a wave reads, taken at the moment it starts. */
    function CurrentLayout(): (l: Layout)
      reads this, spawnPoints
      ensures l.mode == Mode()
      ensures l.mode == AtPoints ==> |l.points| > 0
    {
      Layout(Mode(), if spawnPoints == null then [] else spawnPoints[..], player, minDistanceFromPlayer, spawnRadius)
    }

    /** What the i-th attempt of a wave spawns: at a picked point, near the player, or nothing. */
    function AttemptSpawn(l: Layout, i: nat, mult: real, w: World): Option<Spawned>
    {
      match l.mode
      case AtPoints => if |l.points| == 0 then None else PointSpawn(l.points[w.pick(i) % |l.points|], mult, w)
      case NearPlayer => NearPlayerSpawn(l.player, l.minR, l.maxR, i, mult, w)
      case _ => None
    }

    /** The enemies the first n attempts of a wave spawn, in order, skipping the attempts that spawn none. */
    function WaveSpawns(l: Layout, n: nat, mult: real, w: World): (r: seq<Spawned>)
      ensures |r| <= n
    {
      if n == 0 then []
      else WaveSpawns(l, n - 1, mult, w) + (if AttemptSpawn(l, n - 1, mult, w).Some? then [AttemptSpawn(l, n - 1, mult, w).value] else [])
    }

    /** One attempt more appends what that attempt spawns, if anything. */
    lemma WaveSpawnsStep(l: Layout, i: nat, mult: real, w: World, s: Option<Spawned>)
      requires s == AttemptSpawn(l, i, mult, w)
      ensures WaveSpawns(l, i + 1, mult, w) == WaveSpawns(l, i, mult, w) + (if s.Some? then [s.value] else [])
    {
    }

    /** Every enemy of a wave carries the multiplier exactly when it exceeds 1.001. */
    lemma {:induction false} WaveSpawnsScaled(l: Layout, n: nat, mult: real, w: World)
      ensures forall k :: 0 <= k < |WaveSpawns(l, n, mult, w)| ==> WaveSpawns(l, n, mult, w)[k].scaledBy == HealthMultApplied(mult)
    {
      if n > 0 {
        WaveSpawnsScaled(l, n - 1, mult, w);
      }
    }

    /** Without a prefab, or with neither spawn points nor a player, a wave spawns nothing. */
    lemma {:induction false} NoModeNoSpawns(l: Layout, n: nat, mult: real, w: World)
      requires l.mode == NoPrefab || l.mode == Nowhere
      ensures WaveSpawns(l, n, mult, w) == []
    {
      if n > 0 {
        NoModeNoSpawns(l, n - 1, mult, w);
      }
    }

    /**
     * At most MaxTries attempts; the first that succeeds gives the position.
     * `tries` is the number of attempts made.
     */
    method TryGetSpawnPositionNearPlayer(center: Vec3, minR: real, maxR: real, e: nat, w: World)
      returns (pos: Option<Vec3>, tries: nat)
      ensures 1 <= tries <= MaxTries
      ensures pos.None? ==> tries == MaxTries && forall j :: 0 <= j < MaxTries ==> !Accepts(center, minR, maxR, e, j, w)
      ensures pos.Some? ==>
        Accepts(center, minR, maxR, e, tries - 1, w)
        && pos == TrySnapToNavMesh(Candidate(center, minR, maxR, e, tries - 1, w), w)
      ensures pos.Some? ==> forall j :: 0 <= j < tries - 1 ==> !Accepts(center, minR, maxR, e, j, w)
    {
      var i := 0;
      while i < MaxTries
        invariant 0 <= i <= MaxTries
        invariant forall j :: 0 <= j < i ==> !Accepts(center, minR, maxR, e, j, w)
      {
        var d := w.draw(e, i);
        var r := Radius(minR, maxR, d.u);
        var candidate := w.ring(center, d.angle, r);
        var snapped := TrySnapToNavMesh(candidate, w);
        if snapped.Some? {
          if !requireReachableFromPlayer || w.hasPath(snapped.value, center) {
            return snapped, i + 1;
          }
        }
        i := i + 1;
      }
      return None, MaxTries;
    }

    /** A spawn at a point: skipped for a null point or one the snap rejects. */
    method SpawnAtPoint(point: Option<nat>, mult: real, w: World) returns (spawned: Option<Spawned>)
      ensures point.None? ==> spawned.None?
      ensures point.Some? ==> (spawned.None? <==> TrySnapToNavMesh(w.position(point.value), w).None?)
      ensures spawned.Some? ==>
        point.Some? && spawned.value.scaledBy == HealthMultApplied(mult)
        && Some(spawned.value.pos) == TrySnapToNavMesh(w.position(point.value), w)
      ensures spawned == PointSpawn(point, mult, w)
    {
      if point.None? {
        return None;
      }
      var pos := TrySnapToNavMesh(w.position(point.value), w);
      if pos.None? {
        return None;
      }
      spawned := Some(Spawned(pos.value, HealthMultApplied(mult)));
    }

    /**
     * A spawn near the player for the e-th enemy of a wave: the placement
     * attempts, then a random mesh point as fallback; skipped when neither
     * gives a position.
     */
    method SpawnNearPlayer(e: nat, mult: real, w: World) returns (spawned: Option<Spawned>)
      ensures player.None? ==> spawned.None?
      ensures player.Some? ==>
        var center := w.position(player.value);
        (spawned.None? <==>
          (forall j :: 0 <= j < MaxTries ==> !Accepts(center, minDistanceFromPlayer, spawnRadius, e, j, w))
          && (w.meshPoint(e).None? || TrySnapToNavMesh(w.meshPoint(e).value, w).None?))
      ensures spawned.Some? ==> spawned.value.scaledBy == HealthMultApplied(mult)
      ensures spawned.Some? ==>
        var center := w.position(player.value);
        var first := FirstAccepting(center, minDistanceFromPlayer, spawnRadius, e, 0, w);
        && (first.Some? ==> Some(spawned.value.pos) == TrySnapToNavMesh(Candidate(center, minDistanceFromPlayer, spawnRadius, e, first.value, w), w))
        && (first.None? ==> w.meshPoint(e).Some? && Some(spawned.value.pos) == TrySnapToNavMesh(w.meshPoint(e).value, w))
      ensures spawned == NearPlayerSpawn(player, minDistanceFromPlayer, spawnRadius, e, mult, w)
    {
      if player.None? {
        return None;
      }
      var pos, tries := TryGetSpawnPositionNearPlayer(w.position(player.value), minDistanceFromPlayer, spawnRadius, e, w);
      if pos.None? {
        var raw := w.meshPoint(e);
        pos := if raw.Some? then TrySnapToNavMesh(raw.value, w) else None;
        if pos.None? {
          return None;
        }
      }
      spawned := Some(Spawned(pos.value, HealthMultApplied(mult)));
    }

    /** How a wave places enemies: nothing without a prefab, then spawn points, then the player. */
    function Mode(): (m: WaveMode)
      reads this
      ensures m == AtPoints ==> hasEnemyPrefab && spawnPoints != null && spawnPoints.Length > 0
      ensures m == NearPlayer ==> hasEnemyPrefab && (spawnPoints == null || spawnPoints.Length == 0) && player.Some?
    {
      if !hasEnemyPrefab then NoPrefab
      else if spawnPoints != null && spawnPoints.Length > 0 then AtPoints
      else if player.Some? then NearPlayer
      else Nowhere
    }

    /** The attempt loop at spawn points: attempt i uses the point w.pick(i) picks. */
    method SpawnAtPoints(n: nat, mult: real, w: World) returns (spawned: seq<Spawned>)
      requires Mode() == AtPoints
      ensures spawned == WaveSpawns(CurrentLayout(), n, mult, w)
      ensures !snapToNavMesh && NoNulls(spawnPoints[..]) ==> |spawned| == n
    {
      ghost var l := CurrentLayout();
      spawned := [];
      var points := spawnPoints;
      for i := 0 to n
        invariant !snapToNavMesh && NoNulls(points[..]) ==> |spawned| == i
        invariant spawned == WaveSpawns(l, i, mult, w)
      {
        var p := points[w.pick(i) % points.Length];
        var s := SpawnAtPoint(p, mult, w);
        assert s == AttemptSpawn(l, i, mult, w);
        if s.Some? {
          spawned := spawned + [s.value];
        }
      }
    }

    /** One attempt near the player: what the wave's attempt of that index spawns. */
    method AttemptNearPlayer(i: nat, mult: real, w: World) returns (s: Option<Spawned>)
      requires Mode() == NearPlayer
      ensures s == AttemptSpawn(CurrentLayout(), i, mult, w)
    {
      s := SpawnNearPlayer(i, mult, w);
    }

    /** The attempt loop near the player: attempt i places the i-th enemy. */
    method SpawnAroundPlayer(n: nat, mult: real, w: World) returns (spawned: seq<Spawned>)
      requires Mode() == NearPlayer
      ensures spawned == WaveSpawns(CurrentLayout(), n, mult, w)
    {
      ghost var l := CurrentLayout();
      spawned := [];
      for i := 0 to n
        invariant spawned == WaveSpawns(l, i, mult, w)
      {
        var s := AttemptNearPlayer(i, mult, w);
        WaveSpawnsStep(l, i, mult, w, s);
        if s.Some? {
          spawned := spawned + [s.value];
        }
      }
    }

    /**
     * A wave of `count` enemies scaled by `mult`. At points or near the player
     * exactly max(0, count) spawn attempts are made; otherwise none. The
     * enemies spawned are, in order, those of the attempts that spawn one.
     * Every enemy spawned carries the multiplier exactly when it exceeds
     * 1.001. With snapping off and no null points, every attempt at a point
     * spawns.
     */
    method SpawnWaveScaled(count: int, mult: real, w: World) returns (spawned: seq<Spawned>, attempts: nat)
      ensures attempts == (if Mode() == AtPoints || Mode() == NearPlayer then MaxInt(0, count) else 0)
      ensures |spawned| <= attempts
      ensures forall k :: 0 <= k < |spawned| ==> spawned[k].scaledBy == HealthMultApplied(mult)
      ensures Mode() == AtPoints && !snapToNavMesh && NoNulls(spawnPoints[..]) ==> |spawned| == attempts
      ensures spawned == WaveSpawns(CurrentLayout(), MaxInt(0, count), mult, w)
    {
      WaveSpawnsScaled(CurrentLayout(), MaxInt(0, count), mult, w);
      spawned, attempts := [], 0;
      if !hasEnemyPrefab {
        NoModeNoSpawns(CurrentLayout(), MaxInt(0, count), mult, w);
        return;
      }
      if spawnPoints != null && spawnPoints.Length > 0 {
        spawned := SpawnAtPoints(MaxInt(0, count), mult, w);
        attempts := MaxInt(0, count);
      } else if player.Some? {
        spawned := SpawnAroundPlayer(MaxInt(0, count), mult, w);
        attempts := MaxInt(0, count);
      } else {
        NoModeNoSpawns(CurrentLayout(), MaxInt(0, count), mult, w);
      }
    }

    /** The regular wave: enemiesPerWave enemies, unscaled. */
    method SpawnWave(w: World) returns (spawned: seq<Spawned>, attempts: nat)
      ensures attempts == (if Mode() == AtPoints || Mode() == NearPlayer then MaxInt(0, enemiesPerWave) else 0)
      ensures |spawned| <= attempts
      ensures forall k :: 0 <= k < |spawned| ==> spawned[k].scaledBy.None?
      ensures spawned == WaveSpawns(CurrentLayout(), MaxInt(0, enemiesPerWave), 1.0, w)
    {
      spawned, attempts := SpawnWaveScaled(enemiesPerWave, 1.0, w);
    }

    /**
     * One frame of the start-up coroutine and the spawn loop. The start waits
     * for a Playing GameLoop, looks the player up by tag if none is set, and
     * gives up for good without a prefab or without any way to place enemies;
     * otherwise the loop starts with the timer at 0, in the same frame. Each
     * loop frame ends the loop for good once the run is not Playing, and
     * otherwise counts the timer down by dt and, at or below 0, spawns a wave
     * and restarts the timer at max(0.1, spawnInterval).
     */
    method Frame(dt: real, loop: GameLoop?, tagged: Option<nat>, w: World)
      returns (waved: bool, spawned: seq<Spawned>)
      modifies this
      ensures old(phase) == Stopped ==> unchanged(this) && !waved
      ensures old(phase) == AwaitingPlay && !AllowsPlay(loop) ==> unchanged(this) && !waved
      ensures old(phase) == Spawning && !AllowsPlay(loop) ==> phase == Stopped && !waved && timer == old(timer)
      ensures phase == Spawning ==> AllowsPlay(loop)
      ensures old(phase) == Spawning && AllowsPlay(loop) ==>
        phase == Spawning && (waved <==> old(timer) - dt <= 0.0)
        && timer == (if waved then MaxReal(MinSpawnInterval, spawnInterval) else old(timer) - dt)
      ensures old(phase) == AwaitingPlay && AllowsPlay(loop) ==>
        player == (if old(player).Some? then old(player) else tagged)
        && phase == (if !hasEnemyPrefab || ((spawnPoints == null || spawnPoints.Length == 0) && player.None?) then Stopped else Spawning)
      ensures old(phase) == AwaitingPlay && phase == Stopped ==> !waved && timer == old(timer)
      ensures old(phase) == AwaitingPlay && phase == Spawning ==>
        (waved <==> dt >= 0.0) && timer == (if waved then MaxReal(MinSpawnInterval, spawnInterval) else -dt)
      ensures old(phase) != AwaitingPlay ==> player == old(player)
      ensures waved ==> |spawned| <= MaxInt(0, enemiesPerWave) && forall k :: 0 <= k < |spawned| ==> spawned[k].scaledBy.None?
      ensures waved ==> spawned == WaveSpawns(CurrentLayout(), MaxInt(0, enemiesPerWave), 1.0, w)
      ensures !waved ==> spawned == []
      ensures spawnInterval == old(spawnInterval) && enemiesPerWave == old(enemiesPerWave)
      ensures spawnRadius == old(spawnRadius) && minDistanceFromPlayer == old(minDistanceFromPlayer)
      ensures navMeshSnapMaxDist == old(navMeshSnapMaxDist)
      ensures spawnPoints == old(spawnPoints)
    {
      waved, spawned := false, [];
      if phase == Stopped {
        return;
      }
      if phase == AwaitingPlay {
        if !AllowsPlay(loop) {
          return;
        }
        if player.None? {
          player := tagged;
        }
        if !hasEnemyPrefab {
          phase := Stopped;
          return;
        }
        if (spawnPoints == null || spawnPoints.Length == 0) && player.None? {
          phase := Stopped;
          return;
        }
        timer := 0.0;
        phase := Spawning;
      }
      if !AllowsPlay(loop) {
        phase := Stopped;
        return;
      }
      timer := timer - dt;
      if timer <= 0.0 {
        var attempts;
        spawned, attempts := SpawnWave(w);
        waved := true;
        timer := MaxReal(MinSpawnInterval, spawnInterval);
        assert spawned == WaveSpawns(CurrentLayout(), MaxInt(0, enemiesPerWave), 1.0, w);
      }
    }
  }

  /** The spawn loop runs only while a GameLoop exists and is Playing. */
  predicate AllowsPlay(loop: GameLoop?)
    reads loop
  {
    loop != null && loop.state == Playing
  }

  /**
   * Once the run leaves Playing (a pause included) the spawn loop is over:
   * no later frame spawns a wave, whatever the run does next.
   */
  method LeavingPlayStopsSpawning(s: EnemySpawner, loop: GameLoop, w: World, dt: real, frames: nat)
    requires s.phase == Spawning && loop.state != Playing
    modifies s
    ensures s.phase == Stopped
  {
    var waved, spawned := s.Frame(dt, loop, None, w);
    var i := 0;
    while i < frames
      invariant s.phase == Stopped
    {
      waved, spawned := s.Frame(dt, loop, None, w);
      assert !waved;
      i := i + 1;
    }
  }
}
