/** JavaScript-level value notions shared by every component of the dashboard:
    an optional value (a property that may be `undefined` or `null`), the outcome
    of a call that may throw, and the outcome of a division whose divisor may be zero. */
module Values {

  /** `undefined`/`null` versus a present value. */
  datatype Option<+T> = None | Some(value: T)

  /** The completion of a call: a normal value, or a thrown exception. */
  datatype Completion<+T> = Normal(value: T) | Throws(reason: string)

  /** A JavaScript number produced by a division: finite, NaN (zero divided by zero), or an
      infinity of either sign (a non-zero number divided by zero). */
  datatype Ratio = Finite(value: real) | NaN | Infinity(negative: bool)

  /** `numerator / denominator` as JavaScript evaluates it on finite operands. */
  function Divide(numerator: real, denominator: real): (r: Ratio)
    ensures r.Finite? <==> denominator != 0.0
    ensures r.Finite? ==> r.value * denominator == numerator
    ensures r.NaN? <==> denominator == 0.0 && numerator == 0.0
    ensures r.Infinity? ==> (r.negative <==> numerator < 0.0)
  {
    if denominator == 0.0 then (if numerator == 0.0 then NaN else Infinity(numerator < 0.0))
    else Finite(numerator / denominator)
  }

  /** `r * factor` for a positive factor: NaN and infinities are unchanged. */
  function Scale(r: Ratio, factor: real): (s: Ratio)
    requires factor > 0.0
    ensures s.Finite? <==> r.Finite?
    ensures s.Finite? ==> s.value == r.value * factor
    ensures !s.Finite? ==> s == r
  {
    if r.Finite? then Finite(r.value * factor) else r
  }

  /** JavaScript truthiness of a number that may be NaN or infinite. */
  predicate RatioTruthy(r: Ratio)
  {
    (r.Finite? && r.value != 0.0) || r.Infinity?
  }

  /** JavaScript truthiness of an optional number (`!previous` is true for undefined and 0). */
  predicate IsTruthy(x: Option<real>)
  {
    x.Some? && x.value != 0.0
  }

  /** The percentage change `((current - previous) / previous) * 100` for a non-zero previous value. */
  function PercentChange(current: real, previous: real): (change: real)
    requires previous != 0.0
    ensures change * previous == (current - previous) * 100.0
    ensures change > 0.0 <==> (previous > 0.0 && current > previous) || (previous < 0.0 && current < previous)
  {
    var q := (current - previous) / previous;
    assert q * previous == current - previous;
    assert previous > 0.0 ==> (q > 0.0 <==> current > previous);
    assert previous < 0.0 ==> (q > 0.0 <==> current < previous);
    q * 100.0
  }

  /** `r > 0` for a number that may be NaN or infinite. */
  predicate Positive(r: Ratio)
  {
    (r.Finite? && r.value > 0.0) || (r.Infinity? && !r.negative)
  }

  /** `a >= b` for numbers that may be NaN or infinite: false whenever either is NaN. */
  predicate AtLeast(a: Ratio, b: Ratio)
  {
    if a.NaN? || b.NaN? then false
    else if a.Infinity? then !a.negative || (b.Infinity? && b.negative)
    else if b.Infinity? then b.negative
    else a.value >= b.value
  }

  /** `((current - previous) / previous) * 100` as JavaScript evaluates it, for a truthy
      previous value: an infinite previous value or a NaN current value gives NaN, an infinite
      current value over a finite previous value stays infinite. */
  function ChangePercent(current: Ratio, previous: Ratio): (r: Ratio)
    requires RatioTruthy(previous)
    ensures current.Finite? && previous.Finite? ==> r == Finite(PercentChange(current.value, previous.value))
    ensures previous.Infinity? || current.NaN? ==> r.NaN?
    ensures current.Infinity? && previous.Finite? ==> r.Infinity? && (r.negative <==> (current.negative != (previous.value < 0.0)))
  {
    match (current, previous)
    case (Finite(c), Finite(p)) => Finite(PercentChange(c, p))
    case (Infinity(negative), Finite(p)) => Infinity(negative != (p < 0.0))
    case (_, _) => NaN
  }

  /** On finite numbers the change is positive exactly when the value moved away from zero past
      the previous one: up from a positive previous value, down from a negative one. */
  lemma ChangePercentPositive(current: real, previous: real)
    requires previous != 0.0
    ensures Positive(ChangePercent(Finite(current), Finite(previous))) <==>
      (previous > 0.0 && current > previous) || (previous < 0.0 && current < previous)
  {
  }

  /** A share of nothing is 0 percent. */
  lemma ZeroPercentage(part: real, whole: real)
    requires part == 0.0 && whole > 0.0
    ensures part / whole * 100.0 == 0.0
  {
  }

  /** A share of at most the whole, as a percentage, lies between 0 and 100. */
  lemma PercentageBounds(part: real, whole: real)
    requires 0.0 <= part <= whole && whole > 0.0
    ensures 0.0 <= part / whole * 100.0 <= 100.0
  {
    var q := part / whole;
    assert q * whole == part;
  }
}
