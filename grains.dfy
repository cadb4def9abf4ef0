/** The grain descriptor `GrainData` and the sequences of descriptors the
    granulator queues: emitter grains for one update and collision bursts. */
module Grains {
  import opened GrainProps
  import opened Timing

  /** A position in the grain parent's local frame. Only carried along. */
  datatype Vec3 = Vec3(x: real, y: real, z: real)

  /** The zero vector. */
  const Zero: Vec3 := Vec3(0.0, 0.0, 0.0)

  /** `GrainData`: the sample offset within the update at which the grain
      starts, its duration in milliseconds and the position it is played
      from. Velocity, mass, clip, playhead, pitch and volume are not part of
      this model. */
  datatype GrainData = GrainData(position: Vec3, offset: int, grainDuration: int)

  /** The first `n` emitter grains of an update, one per offset. Each grain
      draws its own duration (`draws(i)` for the i-th grain). Emitter grains
      take their position from `_TempParticle`, a particle field that is never
      assigned, so it is the zero vector. */
  function EmitterGrains(offsets: seq<int>, props: GrainEmissionProps, draws: nat -> int, n: nat): (r: seq<GrainData>)
    requires n <= |offsets|
    ensures |r| == n
    decreases n
  {
    if n == 0 then []
    else EmitterGrains(offsets, props, draws, n - 1) + [GrainData(Zero, offsets[n - 1], Duration(props, draws(n - 1)))]
  }

  /** The i-th emitter grain starts at the i-th offset and has the i-th
      duration draw; its position is the zero vector. */
  lemma {:induction false} EmitterGrainsAt(offsets: seq<int>, props: GrainEmissionProps, draws: nat -> int, n: nat)
    requires n <= |offsets|
    ensures var r := EmitterGrains(offsets, props, draws, n);
            forall i :: 0 <= i < n ==> r[i] == GrainData(Zero, offsets[i], Duration(props, draws(i)))
    decreases n
  {
    if n > 0 {
      EmitterGrainsAt(offsets, props, draws, n - 1);
    }
  }

  /** The offset of the j-th grain of a collision burst:
      `j * _CollisionDensity * (_SampleRate / 1000)`. */
  function BurstOffset(j: int, collisionDensity: int): int
  {
    j * collisionDensity * SamplesPerMs
  }

  /** The inner loop's bound: a negative `_CollisionGrainBurst` runs it zero
      times. */
  function BurstSize(collisionGrainBurst: int): nat
  {
    if collisionGrainBurst < 0 then 0 else collisionGrainBurst
  }

  /** The first `m` grains of the burst for collision `i` at `point`. */
  function Burst(point: Vec3, i: nat, m: nat, collisionDensity: int, props: GrainEmissionProps,
                 draws: (nat, nat) -> int): (r: seq<GrainData>)
    ensures |r| == m
    decreases m
  {
    if m == 0 then []
    else
      Burst(point, i, m - 1, collisionDensity, props, draws)
        + [GrainData(point, BurstOffset(m - 1, collisionDensity), Duration(props, draws(i, m - 1)))]
  }

  /** The j-th grain of a burst is at the collision point, starts
      `BurstOffset(j)` samples after the burst start and has draw `(i, j)`. */
  lemma {:induction false} BurstAt(point: Vec3, i: nat, m: nat, collisionDensity: int, props: GrainEmissionProps,
                                   draws: (nat, nat) -> int)
    ensures var r := Burst(point, i, m, collisionDensity, props, draws);
            forall j :: 0 <= j < m ==>
              r[j] == GrainData(point, BurstOffset(j, collisionDensity), Duration(props, draws(i, j)))
    decreases m
  {
    if m > 0 {
      BurstAt(point, i, m - 1, collisionDensity, props, draws);
    }
  }

  /** The bursts of the first `n` collisions, one after the other. */
  function CollisionGrains(points: seq<Vec3>, n: nat, burst: nat, collisionDensity: int,
                           props: GrainEmissionProps, draws: (nat, nat) -> int): (r: seq<GrainData>)
    requires n <= |points|
    decreases n
  {
    if n == 0 then []
    else
      CollisionGrains(points, n - 1, burst, collisionDensity, props, draws)
        + Burst(points[n - 1], n - 1, burst, collisionDensity, props, draws)
  }

  /** Collision-major order: the grain at index k of `r` is grain
      `k % burst` of the burst of collision `k / burst` (one of the first
      `n`), at that collision's point, starting `BurstOffset(k % burst)`
      samples after the burst start and with draw `(k / burst, k % burst)`. */
  predicate CollisionMajor(r: seq<GrainData>, points: seq<Vec3>, n: nat, burst: nat, collisionDensity: int,
                           props: GrainEmissionProps, draws: (nat, nat) -> int)
    requires n <= |points| && burst > 0
  {
    forall k :: 0 <= k < |r| ==>
      k / burst < n
      && r[k] == GrainData(points[k / burst], BurstOffset(k % burst, collisionDensity),
                           Duration(props, draws(k / burst, k % burst)))
  }

  /** `n` collisions give `n * burst` grains, in collision-major order. */
  lemma {:induction false} CollisionGrainsAt(points: seq<Vec3>, n: nat, burst: nat, collisionDensity: int,
                                             props: GrainEmissionProps, draws: (nat, nat) -> int)
    requires n <= |points|
    ensures |CollisionGrains(points, n, burst, collisionDensity, props, draws)| == n * burst
    ensures burst > 0 ==>
              CollisionMajor(CollisionGrains(points, n, burst, collisionDensity, props, draws),
                             points, n, burst, collisionDensity, props, draws)
    decreases n
  {
    if n > 0 {
      CollisionGrainsAt(points, n - 1, burst, collisionDensity, props, draws);
      var prefix := CollisionGrains(points, n - 1, burst, collisionDensity, props, draws);
      var last := Burst(points[n - 1], n - 1, burst, collisionDensity, props, draws);
      MulStep(n, burst);
      if burst > 0 {
        AppendBlock(points, n, burst, collisionDensity, props, draws, prefix, last);
      }
    }
  }

  /** The induction step of `CollisionGrainsAt`: appending the burst of
      collision `n - 1` to the bursts of the collisions before it. */
  lemma AppendBlock(points: seq<Vec3>, n: nat, burst: nat, collisionDensity: int,
                    props: GrainEmissionProps, draws: (nat, nat) -> int,
                    prefix: seq<GrainData>, last: seq<GrainData>)
    requires 0 < n <= |points| && burst > 0
    requires |prefix| == (n - 1) * burst
    requires CollisionMajor(prefix, points, n - 1, burst, collisionDensity, props, draws)
    requires last == Burst(points[n - 1], n - 1, burst, collisionDensity, props, draws)
    ensures CollisionMajor(prefix + last, points, n, burst, collisionDensity, props, draws)
  {
    var r := prefix + last;
    BurstAt(points[n - 1], n - 1, burst, collisionDensity, props, draws);
    forall k | 0 <= k < |r|
      ensures k / burst < n
      ensures r[k] == GrainData(points[k / burst], BurstOffset(k % burst, collisionDensity),
                                Duration(props, draws(k / burst, k % burst)))
    {
      if k >= |prefix| {
        var j := k - |prefix|;
        DivModOfBlock(k, n - 1, burst, j);
        assert r[k] == last[j];
      } else {
        assert r[k] == prefix[k];
      }
    }
  }

  /** Every grain of a burst starts a whole number of collision spacings
      after the burst start: never before it, and strictly later for each
      next grain. */
  lemma BurstOffsetsSpaced(j: nat, collisionDensity: int)
    requires collisionDensity >= 1
    ensures BurstOffset(j, collisionDensity) >= 0
    ensures BurstOffset(j + 1, collisionDensity) == BurstOffset(j, collisionDensity) + collisionDensity * SamplesPerMs
  {
    MulNonneg(j, collisionDensity);
    assert (j + 1) * collisionDensity == j * collisionDensity + collisionDensity;
  }
}
