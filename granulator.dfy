/** The granulator (`Granulator`): once per update it reclaims finished
    voices, schedules the emitter grains of the update, appends the queued
    collision grains, hands every queued grain to a free voice and clears the
    queue. Collision bursts are queued between updates. */
module Grainulator {
  import opened GrainProps
  import opened Timing
  import opened VoicePool
  import opened Grains

  /** A grain voice (`Grain`), by identity: the index of its creation at
      start-up. Its playback is not part of this model; its `_IsPlaying` flag
      is an input of `Update`. */
  datatype VoiceId = Voice(index: nat)

  /** One call `grain.Initialise(grainData)`: the voice and the data it was
      given. */
  datatype Dispatch = Dispatch(voice: VoiceId, grain: GrainData)

  /** The inspector fields the scheduler reads. */
  datatype Config = Config(
    timeBetweenGrains: int,        // `_TimeBetweenGrains`, ms
    timeBetweenGrainsRandom: int,  // `_TimeBetweenGrainsRandom`, ms
    emitGrainProps: GrainEmissionProps,
    collisionGrainProps: GrainEmissionProps,
    collisionGrainBurst: int,      // `_CollisionGrainBurst`
    collisionDensity: int)         // `_CollisionDensity`, ms

  /** The inspector ranges `Update` relies on: at least 1 ms between emitter
      grains and a non-negative jitter, so the cadence in samples is
      positive. */
  predicate ConfigOk(cfg: Config)
  {
    cfg.timeBetweenGrains >= 1 && cfg.timeBetweenGrainsRandom >= 0
  }

  /** The `Initialise` calls of a dispatch loop: the i-th grain goes to the
      i-th voice. */
  function Pairs(voices: seq<VoiceId>, grains: seq<GrainData>): seq<Dispatch>
    requires |voices| == |grains|
  {
    seq(|grains|, i requires 0 <= i < |grains| => Dispatch(voices[i], grains[i]))
  }

  /** The emitter grains an update queues, from the counters before it. */
  function EmitterQueue(cfg: Config, c: CadenceState, samples: nat, densityDraw: int, draws: nat -> int): seq<GrainData>
    requires ConfigOk(cfg) && densityDraw >= 0
  {
    var density := DensityInSamples(cfg.timeBetweenGrains, densityDraw);
    var t := TimingOf(c, samples, density);
    if cfg.emitGrainProps.emit
    then EmitterGrains(Offsets(t.firstOffset, density, t.count), cfg.emitGrainProps, draws, t.count)
    else []
  }

  /** Everything an update dispatches: its emitter grains, then the queued
      collision grains when collision emission is on. */
  function TickQueue(cfg: Config, c: CadenceState, samples: nat, densityDraw: int, draws: nat -> int,
                     collisionQueue: seq<GrainData>): seq<GrainData>
    requires ConfigOk(cfg) && densityDraw >= 0
  {
    EmitterQueue(cfg, c, samples, densityDraw, draws)
      + (if cfg.collisionGrainProps.emit then collisionQueue else [])
  }

  /** The emitter grains of an update: as many as the timing counts when
      emission is on and none otherwise; offsets never negative, starting at
      the first offset and exactly one cadence apart; durations within
      [2, 1000] ms; and the last one's offset becomes the residue counter. */
  lemma EmitterQueueTiming(cfg: Config, c: CadenceState, samples: nat, densityDraw: int, draws: nat -> int)
    requires ConfigOk(cfg) && densityDraw >= 0
    ensures var density := DensityInSamples(cfg.timeBetweenGrains, densityDraw);
            var t := TimingOf(c, samples, density);
            var q := EmitterQueue(cfg, c, samples, densityDraw, draws);
            && |q| == (if cfg.emitGrainProps.emit then t.count else 0)
            && (|q| > 0 ==> q[0].offset == t.firstOffset)
            && (forall i :: 0 <= i < |q| ==> q[i].offset >= 0 && MinDurationMs <= q[i].grainDuration <= MaxDurationMs)
            && (forall i :: 0 < i < |q| ==> q[i].offset == q[i - 1].offset + density)
            && (|q| > 0 ==> Advance(c, samples, density, cfg.emitGrainProps.emit).sinceLastGrain == q[|q| - 1].offset)
  {
    var density := DensityInSamples(cfg.timeBetweenGrains, densityDraw);
    var t := TimingOf(c, samples, density);
    OffsetsSpaced(t.firstOffset, density, t.count);
    EmitterGrainsAt(Offsets(t.firstOffset, density, t.count), cfg.emitGrainProps, draws, t.count);
  }

  /** Collision grains never disturb emitter timing: whatever the collision
      queue holds, an update dispatches the same emitter grains first and
      the collision grains after them. */
  lemma CollisionsFollowEmitterGrains(cfg: Config, c: CadenceState, samples: nat, densityDraw: int, draws: nat -> int,
                                      collisionQueue: seq<GrainData>)
    requires ConfigOk(cfg) && densityDraw >= 0
    ensures var e := EmitterQueue(cfg, c, samples, densityDraw, draws);
            var q := TickQueue(cfg, c, samples, densityDraw, draws, collisionQueue);
            && q[..|e|] == e
            && q[|e|..] == (if cfg.collisionGrainProps.emit then collisionQueue else [])
            && q[..|e|] == TickQueue(cfg, c, samples, densityDraw, draws, [])
  {
  }

  class Granulator {
    /** The inspector fields. */
    var config: Config
    /** The voices created at start-up. */
    ghost const voices: set<VoiceId>
    /** `_SamplesSinceLastGrain` and `_EmitterGrainsLastUpdate`. */
    var samplesSinceLastGrain: int
    var emitterGrainsLastUpdate: int
    /** `_GrainQueue` and `_CollisionQueue`. */
    var grainQueue: seq<GrainData>
    var collisionQueue: seq<GrainData>
    /** `_GrainsActive` and `_GrainsInactive`. */
    var grainsActive: seq<VoiceId>
    var grainsInactive: seq<VoiceId>

    /** Every voice is in exactly one of the two lists, once. */
    ghost predicate PoolValid()
      reads this
    {
      Partitions(grainsActive, grainsInactive, voices)
    }

    /** The state between updates: the configuration in range, the pool
      partitioned and the grain queue empty. */
    ghost predicate Valid()
      reads this
    {
      ConfigOk(config) && PoolValid() && grainQueue == []
    }

    /** The two timing counters. */
    function Cadence(): CadenceState
      reads this
    {
      CadenceState(samplesSinceLastGrain, emitterGrainsLastUpdate)
    }

    /** `Start`: `maxGrains` voices are created and put in the inactive list
      in creation order; both counters start at zero. `Start` does not check
      the configuration: the state is ready for `Update` when the
      configuration is inside its inspector ranges. */
    constructor (maxGrains: int, cfg: Config)
      ensures PoolValid() && grainQueue == []
      ensures ConfigOk(cfg) ==> Valid()
      ensures config == cfg
      ensures forall v: VoiceId :: v in voices <==> v.index < maxGrains
      ensures |voices| == if maxGrains < 0 then 0 else maxGrains
      ensures grainsActive == []
      ensures |grainsInactive| == |voices| && forall k :: 0 <= k < |grainsInactive| ==> grainsInactive[k] == Voice(k)
      ensures Cadence() == Initial && collisionQueue == []
    {
      var ids: seq<VoiceId> := [];
      ghost var pool: set<VoiceId> := {};
      var i := 0;
      while i < maxGrains
        invariant 0 <= i <= if maxGrains < 0 then 0 else maxGrains
        invariant |ids| == i && forall k :: 0 <= k < i ==> ids[k] == Voice(k)
        invariant forall v: VoiceId :: v in pool <==> v.index < i
        invariant multiset(ids) == multiset(pool)
      {
        assert Voice(i) !in pool;
        ids := ids + [Voice(i)];
        pool := pool + {Voice(i)};
        i := i + 1;
      }
      assert i == if maxGrains < 0 then 0 else maxGrains;
      config := cfg;
      voices := pool;
      samplesSinceLastGrain := 0;
      emitterGrainsLastUpdate := 0;
      grainQueue := [];
      collisionQueue := [];
      grainsActive := [];
      grainsInactive := ids;
      new;
      PartitionFacts(grainsActive, grainsInactive, voices);
    }

    /** `EmitGrain`: the first inactive voice is initialised with the grain
      and moved to the end of the active list. The pool must not be empty:
      the source indexes `_GrainsInactive[0]` unguarded. */
    method EmitGrain(grainData: GrainData) returns (d: Dispatch)
      requires PoolValid() && grainsInactive != []
      modifies this`grainsActive, this`grainsInactive
      ensures d == Dispatch(old(grainsInactive[0]), grainData)
      ensures grainsInactive == old(grainsInactive[1..])
      ensures grainsActive == old(grainsActive) + [d.voice]
      ensures PoolValid()
      ensures |grainsActive| + |grainsInactive| == old(|grainsActive| + |grainsInactive|)
    {
      var grain := grainsInactive[0];
      grainsInactive := RemoveFirst(grainsInactive, grain);
      grainsActive := grainsActive + [grain];
      d := Dispatch(grain, grainData);
    }

    /** `GrainNotPlaying`: the voice is appended to the inactive list and its
      first occurrence, if any, removed from the active list. The pool stays
      partitioned exactly when the voice was active; otherwise it is now
      listed twice. */
    method GrainNotPlaying(grain: VoiceId)
      requires PoolValid()
      modifies this`grainsActive, this`grainsInactive
      ensures grainsInactive == old(grainsInactive) + [grain]
      ensures grainsActive == RemoveFirst(old(grainsActive), grain)
      ensures PoolValid() <==> grain in old(grainsActive)
      ensures |grainsActive| + |grainsInactive| == old(|grainsActive| + |grainsInactive|) <==> grain in old(grainsActive)
    {
      grainsInactive := grainsInactive + [grain];
      grainsActive := RemoveFirst(grainsActive, grain);
      if grain !in old(grainsActive) {
        assert multiset(grainsActive) + multiset(grainsInactive) == multiset(voices) + multiset{grain};
        assert (multiset(voices) + multiset{grain})[grain] == multiset(voices)[grain] + 1;
      }
    }

    /** Update step 1: a pass from the last active voice down to the first
      moves every finished voice to the end of the inactive list. */
    method ReclaimFinished(playing: set<VoiceId>)
      requires PoolValid()
      modifies this`grainsActive, this`grainsInactive
      ensures grainsActive == Kept(old(grainsActive), playing)
      ensures grainsInactive == old(grainsInactive) + FinishedReversed(old(grainsActive), playing)
      ensures PoolValid()
    {
      ReclaimKeepsPartition(grainsActive, grainsInactive, voices, playing);
      grainsActive, grainsInactive := ReclaimPass(grainsActive, grainsInactive, playing);
    }

    /** Update step 3: when emitter emission is on, queue one grain per
      offset, each with its own duration draw, and set the residue counter to
      the last queued grain's offset. */
    method QueueEmitterGrains(firstGrainOffset: int, densityInSamples: int, emitterGrainsToPlay: nat, draws: nat -> int)
      requires firstGrainOffset >= 0 && densityInSamples > 0
      modifies this`grainQueue, this`samplesSinceLastGrain
      ensures grainQueue == old(grainQueue) +
                (if config.emitGrainProps.emit
                 then EmitterGrains(Offsets(firstGrainOffset, densityInSamples, emitterGrainsToPlay),
                                    config.emitGrainProps, draws, emitterGrainsToPlay)
                 else [])
      ensures samplesSinceLastGrain ==
                if config.emitGrainProps.emit && grainQueue != [] then grainQueue[|grainQueue| - 1].offset
                else old(samplesSinceLastGrain)
    {
      if config.emitGrainProps.emit {
        ghost var offsets := Offsets(firstGrainOffset, densityInSamples, emitterGrainsToPlay);
        var queue := grainQueue;
        var props := config.emitGrainProps;
        for i := 0 to emitterGrainsToPlay
          invariant queue == old(grainQueue) + EmitterGrains(offsets, props, draws, i)
          modifies {}
        {
          var duration := Duration(props, draws(i));
          var offset := firstGrainOffset + i * densityInSamples;
          OffsetsAt(firstGrainOffset, densityInSamples, emitterGrainsToPlay, i);
          queue := queue + [GrainData(Zero, offset, duration)];
        }
        grainQueue := queue;
        if |grainQueue| > 0 {
          samplesSinceLastGrain := grainQueue[|grainQueue| - 1].offset;
        }
      }
    }

    /** Update step 4: when collision emission is on, append the collision
      queue to the grain queue and clear it. */
    method MergeCollisionGrains()
      modifies this`grainQueue, this`collisionQueue
      ensures grainQueue == old(grainQueue) + (if config.collisionGrainProps.emit then old(collisionQueue) else [])
      ensures collisionQueue == if config.collisionGrainProps.emit then [] else old(collisionQueue)
    {
      if config.collisionGrainProps.emit {
        for k := 0 to |collisionQueue|
          invariant collisionQueue == old(collisionQueue)
          invariant grainQueue == old(grainQueue) + collisionQueue[..k]
        {
          assert collisionQueue[..k + 1] == collisionQueue[..k] + [collisionQueue[k]];
          grainQueue := grainQueue + [collisionQueue[k]];
        }
        assert collisionQueue[..|collisionQueue|] == collisionQueue;
        collisionQueue := [];
      }
    }

    /** Update step 5: every queued grain, in order, goes to the first free
      voice. */
    method DispatchQueue() returns (dispatched: seq<Dispatch>)
      requires PoolValid() && |grainQueue| <= |grainsInactive|
      modifies this`grainsActive, this`grainsInactive
      ensures grainsActive == old(grainsActive) + old(grainsInactive)[..|grainQueue|]
      ensures grainsInactive == old(grainsInactive)[|grainQueue|..]
      ensures dispatched == Pairs(old(grainsInactive)[..|grainQueue|], grainQueue)
      ensures PoolValid()
    {
      dispatched := [];
      for k := 0 to |grainQueue|
        invariant PoolValid()
        invariant grainsActive == old(grainsActive) + old(grainsInactive)[..k]
        invariant grainsInactive == old(grainsInactive)[k..]
        invariant dispatched == Pairs(old(grainsInactive)[..k], grainQueue[..k])
      {
        var d := EmitGrain(grainQueue[k]);
        assert old(grainsInactive)[..k + 1] == old(grainsInactive)[..k] + [d.voice];
        assert old(grainsInactive)[k..][1..] == old(grainsInactive)[k + 1..];
        dispatched := dispatched + [d];
      }
      assert grainQueue[..|grainQueue|] == grainQueue;
    }

    /** `Update`, one tick: reclaim finished voices, compute this update's
      emitter timing, queue the emitter grains, append the collision grains,
      dispatch everything to free voices and clear the queue. The free voices
      must cover the queue: the source indexes an empty inactive list
      otherwise. */
    method Update(samplesLastUpdate: nat, densityDraw: int, playing: set<VoiceId>, emitDraws: nat -> int)
      returns (dispatched: seq<Dispatch>)
      requires Valid()
      requires IsRangeDraw(config.timeBetweenGrainsRandom, densityDraw)
      requires |grainsInactive| + |FinishedReversed(grainsActive, playing)|
                 >= |TickQueue(config, Cadence(), samplesLastUpdate, densityDraw, emitDraws, collisionQueue)|
      modifies this`samplesSinceLastGrain, this`emitterGrainsLastUpdate, this`grainQueue, this`collisionQueue,
               this`grainsActive, this`grainsInactive
      ensures Valid()
      ensures Cadence() == Advance(old(Cadence()), samplesLastUpdate,
                                   DensityInSamples(config.timeBetweenGrains, densityDraw), config.emitGrainProps.emit)
      ensures var queued := TickQueue(config, old(Cadence()), samplesLastUpdate, densityDraw, emitDraws, old(collisionQueue));
              var free := old(grainsInactive) + FinishedReversed(old(grainsActive), playing);
              && grainsActive == Kept(old(grainsActive), playing) + free[..|queued|]
              && grainsInactive == free[|queued|..]
              && dispatched == Pairs(free[..|queued|], queued)
      ensures collisionQueue == if config.collisionGrainProps.emit then [] else old(collisionQueue)
    {
      ghost var free := grainsInactive + FinishedReversed(grainsActive, playing);
      ghost var kept := Kept(grainsActive, playing);
      ghost var queued := TickQueue(config, Cadence(), samplesLastUpdate, densityDraw, emitDraws, collisionQueue);

      // Reclaim finished voices.
      ReclaimFinished(playing);
      assert grainsActive == kept && grainsInactive == free;

      // Timing, emitter grains, collision grains.
      QueueTickGrains(samplesLastUpdate, densityDraw, emitDraws);
      assert grainQueue == queued;

      // Dispatch and clear.
      dispatched := DispatchQueue();
      assert grainsActive == kept + free[..|queued|];
      assert grainsInactive == free[|queued|..];
      assert dispatched == Pairs(free[..|queued|], queued);
      grainQueue := [];
    }

    /** Update steps 2 to 4: the emitter timing of this update, its emitter
      grains and the queued collision grains, in that order, in the grain
      queue; the counters advanced. */
    method QueueTickGrains(samplesLastUpdate: nat, densityDraw: int, emitDraws: nat -> int)
      requires ConfigOk(config) && densityDraw >= 0 && grainQueue == []
      modifies this`samplesSinceLastGrain, this`emitterGrainsLastUpdate, this`grainQueue, this`collisionQueue
      ensures grainQueue == TickQueue(config, old(Cadence()), samplesLastUpdate, densityDraw, emitDraws, old(collisionQueue))
      ensures Cadence() == Advance(old(Cadence()), samplesLastUpdate,
                                   DensityInSamples(config.timeBetweenGrains, densityDraw), config.emitGrainProps.emit)
      ensures collisionQueue == if config.collisionGrainProps.emit then [] else old(collisionQueue)
    {
      ghost var c0 := Cadence();
      ghost var emitted := EmitterQueue(config, c0, samplesLastUpdate, densityDraw, emitDraws);
      var densityInSamples := DensityInSamples(config.timeBetweenGrains, densityDraw);
      var emitterGrainsToPlay, firstGrainOffset := ScheduleEmitterGrains(samplesLastUpdate, densityInSamples);
      QueueEmitterGrains(firstGrainOffset, densityInSamples, emitterGrainsToPlay, emitDraws);
      assert grainQueue == emitted;
      EmitterQueueTiming(config, c0, samplesLastUpdate, densityDraw, emitDraws);
      MergeCollisionGrains();
    }

    /** Update step 2: the timing of this update's emitter grains. The
      residue counter is carried over from the previous update, and the
      count is recorded whether or not emitter emission is on. */
    method ScheduleEmitterGrains(samplesLastUpdate: nat, densityInSamples: int)
      returns (emitterGrainsToPlay: nat, firstGrainOffset: int)
      requires densityInSamples > 0
      modifies this`samplesSinceLastGrain, this`emitterGrainsLastUpdate
      ensures TimingOf(old(Cadence()), samplesLastUpdate, densityInSamples)
                == TickTiming(samplesSinceLastGrain, emitterGrainsToPlay, firstGrainOffset)
      ensures emitterGrainsLastUpdate == emitterGrainsToPlay
    {
      emitterGrainsToPlay := 0;
      firstGrainOffset := 0;
      if emitterGrainsLastUpdate == 0 {
        samplesSinceLastGrain := samplesSinceLastGrain + samplesLastUpdate;
      } else {
        samplesSinceLastGrain := samplesLastUpdate - samplesSinceLastGrain;
      }
      if densityInSamples - samplesSinceLastGrain < samplesLastUpdate {
        emitterGrainsToPlay := samplesLastUpdate / densityInSamples + 1;
        firstGrainOffset := densityInSamples - samplesSinceLastGrain;
        if firstGrainOffset < 0 {
          firstGrainOffset := 0;
        }
      }
      emitterGrainsLastUpdate := emitterGrainsToPlay;
    }

    /** `TriggerCollision`: when collision emission is on, queue a burst of
      `_CollisionGrainBurst` grains for each collision, collision by
      collision; the j-th grain of a burst starts `j * _CollisionDensity`
      ms after the burst start. The points are the intersections already in
      the grain parent's local frame. */
    method TriggerCollision(collisions: seq<Vec3>, draws: (nat, nat) -> int)
      modifies this`collisionQueue
      ensures collisionQueue == old(collisionQueue) +
                (if config.collisionGrainProps.emit
                 then CollisionGrains(collisions, |collisions|, BurstSize(config.collisionGrainBurst),
                                      config.collisionDensity, config.collisionGrainProps, draws)
                 else [])
    {
      if !config.collisionGrainProps.emit {
        return;
      }
      var burst := BurstSize(config.collisionGrainBurst);
      var props, collisionDensity := config.collisionGrainProps, config.collisionDensity;
      var queue := collisionQueue;
      ghost var queue0 := queue;
      for i := 0 to |collisions|
        invariant queue == queue0 + CollisionGrains(collisions, i, burst, collisionDensity, props, draws)
        modifies {}
      {
        ghost var before := queue;
        var j := 0;
        while j < config.collisionGrainBurst
          invariant 0 <= j <= burst
          invariant queue == before + Burst(collisions[i], i, j, collisionDensity, props, draws)
          modifies {}
        {
          var offset := j * collisionDensity * SamplesPerMs;
          var pos := collisions[i];
          queue := queue + [GrainData(pos, offset, Duration(props, draws(i, j)))];
          j := j + 1;
        }
      }
      collisionQueue := queue;
    }
  }
}
