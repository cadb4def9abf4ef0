/** Emitter-grain timing of the granulator: from the number of samples of an
    update and the cadence, how many emitter grains start in the update and
    at which sample offsets, with the timing residue carried to the next
    update.

    All quantities are whole samples. `samples` is the update's sample count
    `(int)(Time.deltaTime * 44100)`, which is never negative; the cadence is
    positive whenever the configuration is inside its inspector ranges, so
    C#'s truncating `/` agrees with Dafny's `/` everywhere below. */
module Timing {

  /** `_SampleRate`. */
  const SampleRate: int := 44100

  /** `_SampleRate / 1000` in C# integer arithmetic: 44 samples per
      millisecond (the true rate is 44.1). */
  const SamplesPerMs: int := SampleRate / 1000

  /** `densityInSamples`: the cadence in samples, from the time between grains
      and this update's jitter draw, both in milliseconds. */
  function DensityInSamples(timeBetweenGrains: int, jitter: int): (d: int)
    ensures d % SamplesPerMs == 0
    ensures timeBetweenGrains >= 1 && jitter >= 0 ==> d >= SamplesPerMs
  {
    var d := (timeBetweenGrains + jitter) * SamplesPerMs;
    DivModOfBlock(d, timeBetweenGrains + jitter, SamplesPerMs, 0);
    AtLeastOneBlock(timeBetweenGrains + jitter, SamplesPerMs);
    d
  }

  /** The two counters kept between updates: `_SamplesSinceLastGrain` and
      `_EmitterGrainsLastUpdate`. */
  datatype CadenceState = CadenceState(sinceLastGrain: int, grainsLastUpdate: int)

  /** The start state: both counters zero. */
  const Initial: CadenceState := CadenceState(0, 0)

  /** The timing of one update: the carried residue, the number of emitter
      grains and the offset of the first one. */
  datatype TickTiming = TickTiming(carried: int, count: nat, firstOffset: int)

  /** Residue carry: after an update without emitter grains the counter keeps
      growing by the samples of the update; after one with grains it becomes
      the samples elapsed since the last of those grains started. */
  function Carry(c: CadenceState, samples: int): int
  {
    if c.grainsLastUpdate == 0 then c.sinceLastGrain + samples else samples - c.sinceLastGrain
  }

  /** How many emitter grains start in this update and where the first one
      starts. */
  function TimingOf(c: CadenceState, samples: nat, density: int): (t: TickTiming)
    requires density > 0
    ensures t.carried == Carry(c, samples)
    ensures t.count > 0 <==> density - t.carried < samples
    ensures t.count > 0 ==> (t.count - 1) * density <= samples < t.count * density
    ensures t.firstOffset >= 0
    ensures t.count == 0 ==> t.firstOffset == 0
    ensures t.count > 0 ==> t.firstOffset >= density - t.carried
    ensures t.count > 0 && t.firstOffset > 0 ==> t.firstOffset == density - t.carried
    ensures t.count > 0 ==> t.firstOffset < samples || t.firstOffset == 0
  {
    var carried := Carry(c, samples);
    if density - carried < samples then
      var first := density - carried;
      TickTiming(carried, samples / density + 1, if first < 0 then 0 else first)
    else
      TickTiming(carried, 0, 0)
  }

  /** The emitter grain offsets of an update: `count` grains, the i-th at
      `first + i * density`. */
  function Offsets(first: int, density: int, count: nat): (o: seq<int>)
    requires first >= 0 && density > 0
    ensures |o| == count
  {
    seq(count, i requires 0 <= i < count => first + i * density)
  }

  /** The offsets of an update start at `first`, never lie before it, and
      follow one another exactly one cadence apart, strictly increasing. */
  lemma OffsetsSpaced(first: int, density: int, count: nat)
    requires first >= 0 && density > 0
    ensures var o := Offsets(first, density, count);
            && (count > 0 ==> o[0] == first)
            && (forall i :: 0 < i < count ==> o[i] == o[i - 1] + density)
            && (forall i :: 0 <= i < count ==> o[i] >= first)
            && (forall i, j :: 0 <= i < j < count ==> o[i] < o[j])
  {
    var o := Offsets(first, density, count);
    forall i | 0 < i < count ensures o[i] == o[i - 1] + density { MulStep(i, density); }
    forall i | 0 <= i < count ensures o[i] >= first { MulNonneg(i, density); }
    forall i, j | 0 <= i < j < count ensures o[i] < o[j] { MulDiffPositive(i, j, density); }
  }

  /** Index `q * b + j` with `j < b` lies in block `q` at position `j`. */
  lemma DivModOfBlock(k: int, q: int, b: int, j: int)
    requires b > 0 && 0 <= j < b && k == q * b + j
    ensures k / b == q && k % b == j
  {
    var d := k / b - q;
    assert k == b * (k / b) + k % b;
    assert d * b == j - k % b by {
      assert (k / b) * b - q * b == d * b;
    }
    AtLeastOneBlock(d, b);
    AtLeastOneBlock(-d, b);
    assert (-d) * b == -(d * b);
  }

  lemma AtLeastOneBlock(d: int, b: int)
    requires b >= 0
    ensures d >= 1 ==> d * b >= b
  {
    if d >= 1 {
      MulNonneg(d - 1, b);
      MulStep(d, b);
    }
  }

  lemma MulStep(i: int, d: int)
    ensures (i - 1) * d + d == i * d
  {
  }

  lemma MulNonneg(i: int, d: int)
    requires i >= 0 && d >= 0
    ensures i * d >= 0
  {
  }

  lemma MulDiffPositive(i: int, j: int, d: int)
    requires i < j && d > 0
    ensures i * d < j * d
  {
    assert j * d - i * d == (j - i) * d;
  }

  lemma Distribute(a: int, b: int, d: int)
    ensures a * d + b * d == (a + b) * d
  {
  }

  /** The counters after the timing steps of an update. The count is recorded
      even when emitter emission is switched off; the residue becomes the
      offset of the last emitter grain only when grains were queued, and then
      lies between the first grain's offset and `count` cadences after it. */
  function Advance(c: CadenceState, samples: nat, density: int, emit: bool): (next: CadenceState)
    requires density > 0
    ensures next.grainsLastUpdate == TimingOf(c, samples, density).count
    ensures var t := TimingOf(c, samples, density);
            var o := Offsets(t.firstOffset, density, t.count);
            next.sinceLastGrain == if emit && t.count > 0 then o[t.count - 1] else t.carried
    ensures var t := TimingOf(c, samples, density);
            emit && t.count > 0 ==> t.firstOffset <= next.sinceLastGrain < t.firstOffset + t.count * density
  {
    var t := TimingOf(c, samples, density);
    if emit && t.count > 0 then
      MulStep(t.count, density);
      MulNonneg(t.count - 1, density);
      CadenceState(Offsets(t.firstOffset, density, t.count)[t.count - 1], t.count)
    else
      CadenceState(t.carried, t.count)
  }

  /** The next update's first grain starts exactly one (new) cadence after the
      last grain of the previous update, measured from the previous update's
      start, unless that moment has already passed and the offset is clamped
      to zero. `samples2` is the length of the previous update as measured by
      the next one. */
  lemma NextGrainOneCadenceAfterLast(c: CadenceState, samples1: nat, density1: int, samples2: nat, density2: int)
    requires density1 > 0 && density2 > 0
    requires TimingOf(c, samples1, density1).count > 0
    requires TimingOf(Advance(c, samples1, density1, true), samples2, density2).count > 0
    ensures var t1 := TimingOf(c, samples1, density1);
            var last := Offsets(t1.firstOffset, density1, t1.count)[t1.count - 1];
            var t2 := TimingOf(Advance(c, samples1, density1, true), samples2, density2);
            t2.firstOffset == if last + density2 - samples2 < 0 then 0 else last + density2 - samples2
  {
  }

  /** Samples from the start of an update until the next emitter grain is
      due. */
  function Due(c: CadenceState, samples: int, density: int): int
  {
    density - Carry(c, samples)
  }

  /** The offset of the first emitter grain of an update in which the next
      grain is due: the due point, or 0 when it has already passed. */
  function FirstDue(c: CadenceState, samples: int, density: int): int
  {
    var d := Due(c, samples, density);
    if d < 0 then 0 else d
  }

  /** `s` with `d` added to every element. */
  function Shift(s: seq<int>, d: int): (r: seq<int>)
    ensures |r| == |s| && forall i :: 0 <= i < |s| ==> r[i] == s[i] + d
  {
    seq(|s|, i requires 0 <= i < |s| => s[i] + d)
  }

  /** The counters after `ticks` updates of `samples` samples each, at a
      constant cadence and with emission on. */
  function AfterTicks(c: CadenceState, samples: nat, density: int, ticks: nat): CadenceState
    requires density > 0
    decreases ticks
  {
    if ticks == 0 then c else AfterTicks(Advance(c, samples, density, true), samples, density, ticks - 1)
  }

  /** The start times of all emitter grains of `ticks` updates of `samples`
      samples each, measured from the start of the first update. */
  function Run(c: CadenceState, samples: nat, density: int, ticks: nat): seq<int>
    requires density > 0
    decreases ticks
  {
    if ticks == 0 then []
    else
      var t := TimingOf(c, samples, density);
      Offsets(t.firstOffset, density, t.count)
        + Shift(Run(Advance(c, samples, density, true), samples, density, ticks - 1), samples)
  }

  /** One update, from any state, moves the due point to where its first
      grain started plus the grains it started, less its own length; this is
      never negative, so after one update with emission on the next grain is
      never overdue. */
  lemma DueAfterOneTick(c: CadenceState, samples: nat, density: int)
    requires density > 0
    ensures var t := TimingOf(c, samples, density);
            Due(Advance(c, samples, density, true), samples, density)
              == FirstDue(c, samples, density) + t.count * density - samples
    ensures Due(Advance(c, samples, density, true), samples, density) >= 0
  {
    var t := TimingOf(c, samples, density);
    if t.count > 0 {
      var q := samples / density;
      assert t.count == q + 1;
      assert samples == q * density + samples % density;
      assert t.count * density == q * density + density;
      MulStep(t.count, density);
    }
  }

  /** No drift: at a constant cadence and update length, from any state, the
      emitter grains of any number of updates start exactly one cadence
      apart. The first starts at the due point, or at 0 when the next grain
      was already overdue. */
  lemma {:induction false} RunIsArithmetic(c: CadenceState, samples: nat, density: int, ticks: nat)
    requires density > 0
    ensures var r := Run(c, samples, density, ticks);
            (|r| > 0 ==> r[0] == FirstDue(c, samples, density))
            && forall m :: 0 < m < |r| ==> r[m] == r[m - 1] + density
    decreases ticks
  {
    if ticks > 0 {
      var t := TimingOf(c, samples, density);
      var next := Advance(c, samples, density, true);
      var d := FirstDue(c, samples, density);
      DueAfterOneTick(c, samples, density);
      RunIsArithmetic(next, samples, density, ticks - 1);
      assert FirstDue(next, samples, density) == Due(next, samples, density);
      var o := Offsets(t.firstOffset, density, t.count);
      OffsetsSpaced(t.firstOffset, density, t.count);
      var rest := Run(next, samples, density, ticks - 1);
      var shifted := Shift(rest, samples);
      var r := Run(c, samples, density, ticks);
      assert r == o + shifted;
      assert t.count > 0 ==> t.firstOffset == d;
      if t.count > 0 && |rest| > 0 {
        OffsetsAt(t.firstOffset, density, t.count, t.count - 1);
        MulStep(t.count, density);
        assert r[t.count] == shifted[0] == rest[0] + samples;
        assert r[t.count - 1] == o[t.count - 1];
        assert r[t.count] == r[t.count - 1] + density;
      }
      if t.count == 0 && |rest| > 0 {
        assert r[0] == rest[0] + samples;
      }
      forall m | 0 < m < |r|
        ensures r[m] == r[m - 1] + density
      {
        if m < t.count {
        } else if m > t.count {
          assert r[m] == shifted[m - t.count] && r[m - 1] == shifted[m - 1 - t.count];
        }
      }
    }
  }

  /** The closed form of `Offsets`, as the source computes each offset. */
  lemma OffsetsAt(first: int, density: int, count: nat, i: int)
    requires first >= 0 && density > 0 && 0 <= i < count
    ensures Offsets(first, density, count)[i] == first + i * density
  {
  }

  /** Grain count and elapsed time agree exactly up to the due points at
      both ends: from any state, `n * density - ticks * samples` is the
      offset at which the first grain after the run is due less the offset of
      the first grain of the run. */
  lemma {:induction false} RunCount(c: CadenceState, samples: nat, density: int, ticks: nat)
    requires density > 0
    ensures |Run(c, samples, density, ticks)| * density - ticks * samples
              == FirstDue(AfterTicks(c, samples, density, ticks), samples, density) - FirstDue(c, samples, density)
    decreases ticks
  {
    if ticks > 0 {
      var t := TimingOf(c, samples, density);
      var next := Advance(c, samples, density, true);
      DueAfterOneTick(c, samples, density);
      RunCount(next, samples, density, ticks - 1);
      var n' := |Run(next, samples, density, ticks - 1)|;
      assert |Run(c, samples, density, ticks)| == t.count + n';
      Distribute(t.count, n', density);
      MulStep(ticks, samples);
    }
  }

  /** When updates are shorter than the cadence, the due point stays within
      one cadence of the update start. */
  lemma {:induction false} ShortTicksKeepDueBounded(c: CadenceState, samples: nat, density: int, ticks: nat)
    requires 0 <= samples < density
    requires 0 <= Due(c, samples, density) <= density
    ensures 0 <= Due(AfterTicks(c, samples, density, ticks), samples, density) <= density
    decreases ticks
  {
    if ticks > 0 {
      var t := TimingOf(c, samples, density);
      DueAfterOneTick(c, samples, density);
      assert samples / density == 0;
      ShortTicksKeepDueBounded(Advance(c, samples, density, true), samples, density, ticks - 1);
    }
  }

  /** With updates shorter than the cadence, `ticks` updates start
      `ticks * samples / density` emitter grains, give or take one. */
  lemma ShortTickGrainCount(c: CadenceState, samples: nat, density: int, ticks: nat)
    requires 0 <= samples < density
    requires 0 <= Due(c, samples, density) <= density
    ensures var n := |Run(c, samples, density, ticks)|;
            -density <= n * density - ticks * samples <= density
  {
    RunCount(c, samples, density, ticks);
    ShortTicksKeepDueBounded(c, samples, density, ticks);
  }

  /** Ten thousand updates of 441 samples (10 ms) at a 100 ms cadence, from
      the start state: 4,410,000 samples at 4400 samples per grain, so
      exactly 1002 grains. */
  lemma TenThousandShortTicks()
    ensures |Run(Initial, 441, DensityInSamples(100, 0), 10000)| == 1002
  {
    var density := DensityInSamples(100, 0);
    assert density == 4400;
    assert Due(Initial, 441, density) == 3959;
    RunCount(Initial, 441, density, 10000);
    ShortTicksKeepDueBounded(Initial, 441, density, 10000);
  }

  /** The `+ 1` in the count can place the last emitter grain of an update
      at or after the update's own sample count: at a 1 ms cadence (44
      samples), 100-sample updates and the previous grain 10 samples before
      the update start, the grains start at 34, 78 and 122. The next update's
      residue then goes negative and its first grain still starts one cadence
      after 122. */
  lemma LastGrainMayStartAfterTheUpdate()
    ensures var density := DensityInSamples(1, 0);
            var t := TimingOf(CadenceState(90, 3), 100, density);
            && t.count == 3
            && Offsets(t.firstOffset, density, t.count) == [34, 78, 122]
            && TimingOf(Advance(CadenceState(90, 3), 100, density, true), 100, density).firstOffset == 66
  {
    var density := DensityInSamples(1, 0);
    assert density == 44;
    var o := Offsets(34, density, 3);
    assert o[0] == 34 && o[1] == 78 && o[2] == 122;
  }
}
