/** Per-category emission parameters of the granulator (`GrainEmissionProps`)
    and the clamping helpers they rely on.

    Only the parts with integer meaning are modelled: the emission switch and
    the grain duration in milliseconds. The float position, pitch and volume
    parameters are not part of this model. */
module GrainProps {

  /** Lower and upper bound of a grain duration, in milliseconds. */
  const MinDurationMs: int := 2
  const MaxDurationMs: int := 1000

  /** The emission switch `_Emit` (on by default) and the duration pair
      `_Duration` / `_DurationRandom` of one grain category. */
  datatype GrainEmissionProps = GrainEmissionProps(emit: bool, duration: int, durationRandom: int)

  /** A value that `Random.Range(0, n)` may return for integer arguments:
      in `[0, n)`, and `0` itself when the range is empty. */
  predicate IsRangeDraw(n: int, r: int)
  {
    if n <= 0 then r == 0 else 0 <= r < n
  }

  /** Unity's integer `Mathf.Clamp(value, min, max)`. */
  function MathfClamp(value: int, min: int, max: int): (r: int)
    ensures min <= max ==> min <= r <= max
    ensures min <= value <= max ==> r == value
    ensures value < min ==> r == min
    ensures min <= max < value ==> r == max
  {
    if value < min then min else if value > max then max else value
  }

  /** Unity's float `Mathf.Clamp(value, min, max)`, over the reals. */
  function MathfClampReal(value: real, min: real, max: real): (r: real)
    ensures min <= max ==> min <= r <= max
    ensures min <= value <= max ==> r == value
    ensures value < min ==> r == min
    ensures min <= max < value ==> r == max
  {
    if value < min then min else if value > max then max else value
  }

  /** C#'s `(int)` cast of a float: truncation toward zero. */
  function Truncate(x: real): (n: int)
    ensures x >= 0.0 ==> n as real <= x < n as real + 1.0
    ensures x < 0.0 ==> n as real - 1.0 < x <= n as real
  {
    if x >= 0.0 then x.Floor else -((-x).Floor)
  }

  /** The granulator's own `Clamp`: first raise `val` to `min`, then lower it
      to `max`, so `max` wins when the bounds are crossed. */
  function Clamp(val: real, min: real, max: real): (r: real)
    ensures r <= max
    ensures min <= max ==> min <= r
    ensures min <= val <= max ==> r == val
    ensures min <= max && val < min ==> r == min
    ensures val > max ==> r == max
    ensures max < min ==> r == max
    ensures r == val || r == min || r == max
  {
    var raised := if val > min then val else min;
    if raised < max then raised else max
  }

  /** Clamping twice is clamping once. */
  lemma ClampIdempotent(val: real, min: real, max: real)
    requires min <= max
    ensures Clamp(Clamp(val, min, max), min, max) == Clamp(val, min, max)
  {
  }

  /** The `Duration` getter: the base duration plus a draw of
      `Random.Range(0, _DurationRandom)`, clamped to [2, 1000] ms. The integer
      overload of `Mathf.Clamp` is the one chosen, so the result is whole. */
  function Duration(p: GrainEmissionProps, draw: int): (d: int)
    ensures MinDurationMs <= d <= MaxDurationMs
    ensures MinDurationMs <= p.duration + draw <= MaxDurationMs ==> d == p.duration + draw
    ensures p.duration + draw < MinDurationMs ==> d == MinDurationMs
    ensures p.duration + draw > MaxDurationMs ==> d == MaxDurationMs
    ensures draw >= 0 ==> d >= MathfClamp(p.duration, MinDurationMs, MaxDurationMs)
  {
    MathfClamp(p.duration + draw, MinDurationMs, MaxDurationMs)
  }

  /** The `Duration` setter: the float is clamped to [2, 1000] and then cast
      to an integer; nothing else in the parameter set changes. */
  function SetDuration(p: GrainEmissionProps, value: real): (q: GrainEmissionProps)
    ensures MinDurationMs <= q.duration <= MaxDurationMs
    ensures q.emit == p.emit && q.durationRandom == p.durationRandom
    ensures 2.0 <= value <= 1000.0 ==> q.duration as real <= value < q.duration as real + 1.0
    ensures value < 2.0 ==> q.duration == MinDurationMs
    ensures value > 1000.0 ==> q.duration == MaxDurationMs
  {
    p.(duration := Truncate(MathfClampReal(value, 2.0, 1000.0)))
  }

  /** Setting a whole duration inside the range and reading it back without
      jitter returns that duration; setting is idempotent. */
  lemma SetThenGetDuration(p: GrainEmissionProps, ms: int)
    requires MinDurationMs <= ms <= MaxDurationMs
    ensures Duration(SetDuration(p, ms as real), 0) == ms
    ensures SetDuration(SetDuration(p, ms as real), ms as real) == SetDuration(p, ms as real)
  {
    assert (ms as real).Floor == ms;
  }
}
