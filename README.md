# Grainulator grain scheduler in Dafny

This project models the grain scheduler of the Grainulator granular
synthesiser (`Granulator` in `Granulator.cs`). On each frame the scheduler:

1. moves voices that have finished playing from the active list to the
   inactive list;
2. turns the frame's sample count and the cadence (time between grains) into
   a number of emitter grains and the sample offset of the first one. A
   residue counter is carried from frame to frame;
3. queues the emitter grains one cadence apart;
4. appends the collision grains queued since the last frame;
5. hands every queued grain to the first free voice;
6. clears the queue.

Between frames, collision events queue bursts of grains.

The model has five modules:

- `GrainProps`: the emission parameter set `GrainEmissionProps`, reduced to
  its emission switch and its duration pair. This module holds the duration
  getter and setter, Unity's `Mathf.Clamp` and the granulator's own `Clamp`.
- `Timing`: the cadence arithmetic of one frame (`TimingOf`, `Offsets`,
  `Advance`). It also proves what happens over many frames. At a constant
  cadence and frame length, from any state, the emitter grains of any number
  of frames start exactly one cadence apart (`RunIsArithmetic`). The first
  one starts at the due point, or at 0 when that point has already passed.
  The grain count and the elapsed time agree exactly up to the due points at
  both ends (`RunCount`).
- `VoicePool`: the list operations behind the voice pool. These are the
  backwards reclaim pass, `List.Remove`, and the invariant that the active
  and inactive lists together hold every voice exactly once.
- `Grains`: the grain descriptor `GrainData` (position, sample offset,
  duration) and the sequences of descriptors queued for emitter grains and
  collision bursts.
- `Grainulator`: the class `Granulator`. Its fields are the two counters and
  the four lists of the source. Its methods are `Start` (the constructor),
  `Update` (split into one method per step), `EmitGrain`, `GrainNotPlaying`
  and `TriggerCollision`. Each is proved against the functions above.

The model replaces the engine's inputs with parameters:

- The frame's sample count `(int)(Time.deltaTime * 44100)` is the parameter
  `samplesLastUpdate`.
- Every `Random.Range` result is a parameter: the cadence jitter draw, and one
  duration draw per grain, given as a function of the grain's index.
- Each voice's `_IsPlaying` flag is the set `playing` of voices still
  playing.
- Each call `grain.Initialise(grainData)` is returned as a `Dispatch` value
  (voice, grain data), in call order.
- Collision points are given already in the grain parent's local frame,
  because `InverseTransformPoint` is an engine call.

Points where the source itself flags doubt, or relies on something it does
not check:

- The source doubts its own `+ 1` in the grain count (its comment at line 244
  says it is not sure it is correct). Because of it, the last grain of a frame
  can start at or after the frame's sample count (line 246).
  `Timing.LastGrainMayStartAfterTheUpdate` shows a case. The grains still
  keep exact spacing across frames (`Timing.RunIsArithmetic`).
- An exhausted pool is not handled. `EmitGrain` prints a warning when the
  inactive list is empty (line 358) and then indexes `_GrainsInactive[0]`
  without a guard (line 361). On an empty list that throws, which aborts the
  rest of the frame. The model makes enough free voices a precondition of
  `EmitGrain` and `Update`.
- The cadence is never clamped in code. The only bounds are the inspector
  attributes `[Range(1, 1000)]` on `_TimeBetweenGrains` and
  `_CollisionDensity`, and `[Range(0, 1000)]` on `_TimeBetweenGrainsRandom`
  (lines 123-126 and 136-137). The TODO at line 194 leaves the clamping for
  later. The model states the two ranges `Update` relies on, those of
  `_TimeBetweenGrains` and `_TimeBetweenGrainsRandom`, as
  `Grainulator.ConfigOk`. `Update` never reads `_CollisionDensity`, so its
  range is not required; `Grains.BurstOffsetsSpaced` assumes it only for its
  own statement.
- The code computes samples per millisecond in integer arithmetic as
  `_SampleRate / 1000 = 44`, not 44.1.

## Model

| member | source | states |
|---|---|---|
| GrainProps.MathfClamp | Assets/_Project/Packages/Grainulator/Scripts/Granulator.cs:48 | The integer `Mathf.Clamp`: the result lies within [min, max]. It is the value when the value is in range, min below the range and max above it. |
| GrainProps.MathfClampReal | Assets/_Project/Packages/Grainulator/Scripts/Granulator.cs:52 | The float `Mathf.Clamp` over the reals, with the same four cases. |
| GrainProps.Truncate | Assets/_Project/Packages/Grainulator/Scripts/Granulator.cs:52 | The `(int)` cast truncates toward zero: the result is within one of the input, on the side of zero. |
| GrainProps.Clamp | Assets/_Project/Packages/Grainulator/Scripts/Granulator.cs:407-412 | The result never exceeds max, and is at least min when min <= max. An in-range value is returned unchanged, a value below the range returns min and a value above max returns max. When the bounds are crossed, max is returned. The result is always one of val, min, max. |
| GrainProps.ClampIdempotent | Assets/_Project/Packages/Grainulator/Scripts/Granulator.cs:407-412 | Clamping an already clamped value changes nothing. |
| GrainProps.Duration | Assets/_Project/Packages/Grainulator/Scripts/Granulator.cs:44-49 | Every drawn grain duration is a whole number of milliseconds in [2, 1000]. It equals base plus draw when that sum is in range, 2 when the sum is below 2 and 1000 when it is above 1000. A non-negative draw never gives less than the clamped base. |
| GrainProps.SetDuration | Assets/_Project/Packages/Grainulator/Scripts/Granulator.cs:50-53 | The stored duration is the truncated clamp of the written value, always in [2, 1000]. A write below 2 stores 2 and a write above 1000 stores 1000. An in-range write stores its whole part. The emission switch and the jitter are unchanged. |
| GrainProps.SetThenGetDuration | Assets/_Project/Packages/Grainulator/Scripts/Granulator.cs:44-54 | Writing a whole duration in [2, 1000] and reading it back with a zero draw returns it. Writing the same value twice equals writing it once. |
| Timing.DensityInSamples | Assets/_Project/Packages/Grainulator/Scripts/Granulator.cs:227 | The cadence in samples is a multiple of 44. It is at least 44 whenever the time between grains is >= 1 and the jitter draw is >= 0, so the division at line 246 is safe. |
| Timing.TimingOf | Assets/_Project/Packages/Grainulator/Scripts/Granulator.cs:225-257 | The carried residue follows the carry rule of lines 234-237. The count is positive exactly when cadence minus residue is below the frame's sample count, and then satisfies (count − 1)·cadence <= samples < count·cadence, i.e. count = samples / cadence + 1. The first offset is never negative, is 0 when there are no grains, and is cadence minus residue unless that is negative. |
| Timing.OffsetsSpaced | Assets/_Project/Packages/Grainulator/Scripts/Granulator.cs:266-275 | Emitter offsets start at the first offset, never lie before it, follow one another exactly one cadence apart, and are strictly increasing. |
| Timing.Advance | Assets/_Project/Packages/Grainulator/Scripts/Granulator.cs:257-288 | The grain count is recorded even when emitter emission is off. The residue becomes the last emitter grain's offset only when grains were queued; otherwise it keeps the carried value. When grains were queued, the new residue lies at or after the first grain's offset and less than `count` cadences after it. |
| Timing.NextGrainOneCadenceAfterLast | Assets/_Project/Packages/Grainulator/Scripts/Granulator.cs:234-254 | The next frame's first grain starts one cadence after the last grain of this frame, unless that moment has passed; then it is clamped to offset 0. |
| Timing.DueAfterOneTick | Assets/_Project/Packages/Grainulator/Scripts/Granulator.cs:234-288 | From any state, one frame moves the due point to the first grain's offset plus its grains times the cadence, less its length. With emission on, the next grain is therefore never overdue after one frame, even from a state where it was. |
| Timing.RunIsArithmetic | Assets/_Project/Packages/Grainulator/Scripts/Granulator.cs:225-288 | No drift, from any state: at constant cadence and frame length, the start times of all emitter grains over any number of frames form an arithmetic progression. It starts at the due point, or at 0 when that point had passed (lines 253-254), and steps by one cadence. |
| Timing.RunCount | Assets/_Project/Packages/Grainulator/Scripts/Granulator.cs:225-288 | From any state, grains × cadence − frames × samples equals the offset at which the next grain is due after the run, less the offset of the run's first grain. |
| Timing.ShortTicksKeepDueBounded | Assets/_Project/Packages/Grainulator/Scripts/Granulator.cs:234-257 | With frames shorter than the cadence, the due point stays in [0, cadence]. |
| Timing.ShortTickGrainCount | Assets/_Project/Packages/Grainulator/Scripts/Granulator.cs:225-288 | With frames shorter than the cadence, n frames start n·samples / cadence grains, give or take one. |
| Timing.TenThousandShortTicks | Assets/_Project/Packages/Grainulator/Scripts/Granulator.cs:225-288 | 10,000 frames of 441 samples at a 100 ms cadence from the start state give exactly 1002 grains. |
| Timing.LastGrainMayStartAfterTheUpdate | Assets/_Project/Packages/Grainulator/Scripts/Granulator.cs:246-275 | Because of the `+ 1`, a frame of 100 samples can schedule grains at 34, 78 and 122. The next frame's first grain is still one cadence after 122. |
| VoicePool.ReclaimPass | Assets/_Project/Packages/Grainulator/Scripts/Granulator.cs:205-214 | The backwards `RemoveAt` pass leaves exactly the still-playing voices in the active list. It appends the finished ones to the inactive list, last to first. |
| VoicePool.ReclaimConserves | Assets/_Project/Packages/Grainulator/Scripts/Granulator.cs:205-214 | The kept and moved voices are together exactly the voices of the active list before the pass: as multisets, and in count. |
| VoicePool.ReclaimMembership | Assets/_Project/Packages/Grainulator/Scripts/Granulator.cs:205-214 | A voice stays active iff it was active and is playing. It is moved iff it was active and has finished. |
| VoicePool.KeptKeepsOrder | Assets/_Project/Packages/Grainulator/Scripts/Granulator.cs:205-214 | The still-playing voices keep their relative order. |
| VoicePool.ReclaimIdempotent | Assets/_Project/Packages/Grainulator/Scripts/Granulator.cs:205-214 | A second pass with no newly finished voice changes nothing and moves nothing. |
| VoicePool.ReclaimKeepsPartition | Assets/_Project/Packages/Grainulator/Scripts/Granulator.cs:205-214 | After the pass, the two lists still hold every voice of the pool exactly once. |
| VoicePool.RemoveFirst | Assets/_Project/Packages/Grainulator/Scripts/Granulator.cs:362-402 | `List.Remove` deletes one occurrence when the element is present and changes nothing otherwise. When the element is at the front, it removes the front. |
| VoicePool.RemoveFirstRemovesFirst | Assets/_Project/Packages/Grainulator/Scripts/Granulator.cs:362-402 | The occurrence `List.Remove` deletes is the first one: at the first index holding the element, the result is the list without that index. |
| VoicePool.RemoveFirstKeepsOrder | Assets/_Project/Packages/Grainulator/Scripts/Granulator.cs:402 | `List.Remove` keeps the order of the remaining elements. |
| VoicePool.PartitionFacts | Assets/_Project/Packages/Grainulator/Scripts/Granulator.cs:173-186 | When the two lists partition the pool: their sizes add up to the pool size; every voice is in exactly one of them; neither lists a voice twice. |
| Grains.EmitterGrainsAt | Assets/_Project/Packages/Grainulator/Scripts/Granulator.cs:266-281 | The i-th emitter grain has the i-th offset and the i-th duration draw. Its position is the zero vector, because `_TempParticle` is never assigned. |
| Grains.BurstAt | Assets/_Project/Packages/Grainulator/Scripts/Granulator.cs:382-393 | The j-th grain of a burst is at the collision point, with offset `j * _CollisionDensity * 44` and draw (i, j). |
| Grains.CollisionGrainsAt | Assets/_Project/Packages/Grainulator/Scripts/Granulator.cs:380-395 | n collisions give exactly n · burst grains, in collision-major order: grain k belongs to collision k / burst, position k % burst. |
| Grains.BurstOffsetsSpaced | Assets/_Project/Packages/Grainulator/Scripts/Granulator.cs:385 | Burst offsets are never negative and step by `_CollisionDensity * 44`. |
| Grainulator.EmitterQueueTiming | Assets/_Project/Packages/Grainulator/Scripts/Granulator.cs:264-288 | A frame queues `count` emitter grains when emission is on and none otherwise. Their offsets are never negative, start at the first offset and are one cadence apart. Their durations lie in [2, 1000] ms. The last one's offset becomes the residue. |
| Grainulator.CollisionsFollowEmitterGrains | Assets/_Project/Packages/Grainulator/Scripts/Granulator.cs:300-312 | By the definition of the frame's queue: whatever the collision queue holds, the queue starts with the same emitter grains, and the collision grains follow only when collision emission is on. That the timing counters do not depend on the collision queue is stated by `Grainulator.Granulator.Update` (its `Cadence()` clause does not mention the collision queue) and by `Grainulator.Granulator.TriggerCollision`, which may change only the collision queue. |
| Grainulator.Granulator.constructor | Assets/_Project/Packages/Grainulator/Scripts/Granulator.cs:164-189 | `Start` creates `_MaxGrains` voices, none if negative, all inactive in creation order, with both counters zero and both queues empty. The pool is partitioned for any configuration. The state is ready for `Update` when the configuration is inside the inspector ranges; `Start` itself checks nothing. |
| Grainulator.Granulator.EmitGrain | Assets/_Project/Packages/Grainulator/Scripts/Granulator.cs:355-369 | With a non-empty inactive list, the first inactive voice receives the grain and moves to the end of the active list. Nothing else changes, the total count is conserved and the pool stays valid. |
| Grainulator.Granulator.GrainNotPlaying | Assets/_Project/Packages/Grainulator/Scripts/Granulator.cs:398-403 | The voice is appended to the inactive list and its first occurrence removed from the active list. The pool stays valid, and the count conserved, iff the voice was active. |
| Grainulator.Granulator.ReclaimFinished | Assets/_Project/Packages/Grainulator/Scripts/Granulator.cs:205-214 | The reclaim step on the fields: the active list becomes the still-playing voices, and the inactive list gains the finished ones last to first. The pool stays valid. |
| Grainulator.Granulator.ScheduleEmitterGrains | Assets/_Project/Packages/Grainulator/Scripts/Granulator.cs:225-257 | The counters and the returned count and offset are exactly `Timing.TimingOf` of the counters before the frame. The count is recorded. |
| Grainulator.Granulator.QueueEmitterGrains | Assets/_Project/Packages/Grainulator/Scripts/Granulator.cs:264-289 | When emission is on, the queue gains the emitter grains of the offsets and the residue becomes the last queued offset. Otherwise nothing changes. |
| Grainulator.Granulator.MergeCollisionGrains | Assets/_Project/Packages/Grainulator/Scripts/Granulator.cs:305-312 | When collision emission is on, the collision queue is appended to the grain queue and cleared. Otherwise both are unchanged. |
| Grainulator.Granulator.QueueTickGrains | Assets/_Project/Packages/Grainulator/Scripts/Granulator.cs:225-312 | After steps 2-4, the grain queue is the frame's emitter grains followed by the queued collision grains. The counters advance as `Timing.Advance` says. |
| Grainulator.Granulator.DispatchQueue | Assets/_Project/Packages/Grainulator/Scripts/Granulator.cs:324-339 | The i-th queued grain goes to the i-th free voice. Those voices move, in order, to the end of the active list, and the pool stays valid. |
| Grainulator.Granulator.Update | Assets/_Project/Packages/Grainulator/Scripts/Granulator.cs:191-349 | One frame: the counters advance as `Timing.Advance` says. The i-th grain of the frame's queue goes to the i-th free voice, where free voices are the inactive ones followed by the reclaimed ones. The active list becomes the still-playing voices followed by the voices just used. The collision queue is cleared iff collision emission is on. The pool stays valid and the grain queue ends empty. |
| Grainulator.Granulator.TriggerCollision | Assets/_Project/Packages/Grainulator/Scripts/Granulator.cs:376-396 | When collision emission is on, the collision queue gains the bursts of all collisions in collision-major order (see `Grains.CollisionGrainsAt`). When it is off, nothing changes. |

## Left out

- Unity engine calls are not modelled: `ParticleManager` (including `SpawnEmitterParticle` in the emitter loop), `Instantiate`, `AddComponent`, the `Rigidbody` velocity, `SetMass`, `EnableCollisions`, `InverseTransformPoint`, `Initialise` and `print`. They are foreign calls. Their only effect on the scheduler is the data they hand on, which the model takes as inputs or returns as `Dispatch` values.
- The float fields of `GrainData` are not modelled: velocity, mass, clip, parent transform, playhead position, pitch and volume. Neither are the float getters and setters `Position`, `Pitch` and `Volume` and `CreateWindowingLookupTable`. They are float numerics that carry no scheduling meaning. `grainDuration` is a float in the source but always holds a whole number of milliseconds in [2, 1000], which the model's `int` represents exactly.
- `Time.deltaTime` and its truncation to samples are not modelled; the sample count is an input.
- `Random.Range` draws are inputs. The model does not capture which pseudo-random values Unity would produce or the order they are consumed in.
- Grain playback and the `_IsPlaying` transitions of the `Grain` class are not modelled, because the class is not part of this model. The flags are the input `playing`.
- Grainulator.Granulator.EmitGrain: requires a non-empty inactive list. The source prints a warning and then throws on `_GrainsInactive[0]`, and that exception path is not modelled.
- Grainulator.Granulator.Update: requires enough free voices for the whole queue, for the same reason. It also requires the configuration to be inside the inspector ranges (`ConfigOk`); outside them a zero or negative cadence would make the division at line 246 throw.
- Grainulator.Granulator.constructor: promises a state ready for `Update` only for configurations inside the inspector ranges, because `Start` does not check them and `Update` needs them.
- GrainProps.SetDuration: takes the written value as a real, so it does not model a NaN write. In C#, `Mathf.Clamp` passes NaN through and the `(int)` cast of NaN is unspecified (int.MinValue on x86), so the stored `_Duration` would leave [2, 1000].
- Grainulator.Granulator.Update: does not model 32-bit overflow of `_SamplesSinceLastGrain` or of the offsets. All integers are unbounded, and with values inside the inspector ranges and realistic frame lengths they stay far below 2^31.
- The unused `GameObject other` parameter of `TriggerCollision` and the unused `_DEBUG_NewListManager` field are not modelled.
- The spatial bucket index is not modelled, because its source is not part of this model. `Granulator_TestInput.cs` (input smoothing) and `GameObjectExtensions.cs` (transform helpers) are not modelled either, because they hold no scheduler logic.
- Concurrency is not modelled. Collision callbacks and `Update` both run on the main thread, so the model is sequential.
