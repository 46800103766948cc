/** The change labels the tables and KPI cards show next to a value and its comparison value:
    the signed one-decimal percentage text and the green/red colour class. */
module Change {
  import opened Values
  import opened Text

  /** `x.toFixed(digits)` for a number that may be NaN or infinite. */
  function RatioToFixed(x: Ratio, digits: nat): (s: string)
    ensures |s| >= 1
    ensures x.Finite? ==> s == ToFixed(x.value, digits)
    ensures s[0] == '-' <==> (x.Finite? && x.value < 0.0) || (x.Infinity? && x.negative)
    ensures s[0] != '+'
  {
    match x
    case Finite(v) => ToFixed(v, digits)
    case NaN => "NaN"
    case Infinity(negative) => if negative then "-Infinity" else "Infinity"
  }

  /** `${change > 0 ? '+' : ''}${change.toFixed(1)}%`. */
  function SignedPercent(change: Ratio): (s: string)
    ensures |s| >= 2 && s[|s| - 1] == '%'
    ensures s[0] == '+' <==> Positive(change)
    ensures s[0] == '-' <==> (change.Finite? && change.value < 0.0) || (change.Infinity? && change.negative)
  {
    (if Positive(change) then "+" else "") + RatioToFixed(change, 1) + "%"
  }

  /** JavaScript truthiness of an optional comparison value: `!previous` holds for undefined,
      0 and NaN. */
  predicate PreviousTruthy(previous: Option<Ratio>)
  {
    previous.Some? && RatioTruthy(previous.value)
  }

  /** `calculateChange(current, previous)` of the city table and the KPI cards: nothing for a
      falsy previous value, otherwise the signed percentage change. */
  function CalculateChange(current: Ratio, previous: Option<Ratio>): (s: string)
    ensures s == "" <==> !PreviousTruthy(previous)
    ensures PreviousTruthy(previous) ==> s == SignedPercent(ChangePercent(current, previous.value))
  {
    if !PreviousTruthy(previous) then "" else SignedPercent(ChangePercent(current, previous.value))
  }

  /** `getChangeColor(current, previous)`: no class for a falsy previous value, green when the
      value did not fall below it, red otherwise. */
  function ChangeColor(current: Ratio, previous: Option<Ratio>): (c: string)
    ensures c == "" <==> !PreviousTruthy(previous)
    ensures c == "text-green-600" <==> PreviousTruthy(previous) && AtLeast(current, previous.value)
    ensures c == "text-red-600" <==> PreviousTruthy(previous) && !AtLeast(current, previous.value)
  {
    if !PreviousTruthy(previous) then ""
    else if AtLeast(current, previous.value) then "text-green-600"
    else "text-red-600"
  }

  /** On finite numbers: an undefined or zero previous value shows nothing; otherwise the label
      is the one-decimal change with a '+' exactly when the value grew away from zero, and the
      colour is green exactly when the value did not fall. */
  lemma FiniteChange(current: real, previous: Option<real>)
    ensures var prev := if previous.Some? then Some(Finite(previous.value)) else None;
      && (CalculateChange(Finite(current), prev) == "" <==> previous.None? || previous.value == 0.0)
      && (previous.Some? && previous.value != 0.0 ==>
            var s := CalculateChange(Finite(current), prev);
            && s == SignedPercent(Finite(PercentChange(current, previous.value)))
            && (s[0] == '+' <==> (previous.value > 0.0 && current > previous.value) || (previous.value < 0.0 && current < previous.value))
            && (ChangeColor(Finite(current), prev) == "text-green-600" <==> current >= previous.value))
  {
    if previous.Some? && previous.value != 0.0 {
      ChangePercentPositive(current, previous.value);
    }
  }
}
