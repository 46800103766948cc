/** The cancellation overview: bookings and cancelled bookings, the commission kept and the
    commission lost to cancellations, and the two rates (no guard against a zero divisor), for
    the current and, when given, the comparison records; and the change indicator of a rate. */
module CancellationRateOverview {
  import opened Values
  import opened Sequences
  import opened Bookings
  import Change

  datatype CancellationStats = CancellationStats(
    totalBookings: int,
    cancelledBookings: int,
    cancellationRate: Ratio,
    totalCommission: real,
    cancelledCommission: real,
    commissionLossRate: Ratio)

  /** The commission of every cancelled booking. */
  function CancelledCommission(bookings: seq<Booking>): real
  {
    Sum(Filter(bookings, IsCancelled), Commission)
  }

  /** `calculateStats(bookings)`. */
  function StatsOf(bookings: seq<Booking>): (s: CancellationStats)
    ensures s.totalBookings == |bookings|
    ensures s.cancelledBookings == Count(bookings, IsCancelled) <= s.totalBookings
    ensures s.totalCommission == Sum(bookings, NetCommission)
    ensures s.cancelledCommission == CancelledCommission(bookings)
    ensures s.cancellationRate == Scale(Divide(s.cancelledBookings as real, s.totalBookings as real), 100.0)
    ensures s.commissionLossRate == Scale(Divide(s.cancelledCommission, s.totalCommission + s.cancelledCommission), 100.0)
  {
    var totalBookings := |bookings|;
    var cancelledBookings := |Filter(bookings, IsCancelled)|;
    CountFilter(bookings, IsCancelled);
    var totalCommission := Sum(bookings, NetCommission);
    var cancelledCommission := Sum(Filter(bookings, IsCancelled), Commission);
    CancellationStats(totalBookings, cancelledBookings,
      Scale(Divide(cancelledBookings as real, totalBookings as real), 100.0),
      totalCommission, cancelledCommission,
      Scale(Divide(cancelledCommission, totalCommission + cancelledCommission), 100.0))
  }

  /** The kept and the lost commission split the commission of all bookings. */
  lemma {:induction false} CommissionSplit(bookings: seq<Booking>)
    ensures StatsOf(bookings).totalCommission + StatsOf(bookings).cancelledCommission == Sum(bookings, Commission)
    decreases |bookings|
  {
    if bookings != [] {
      var prefix := bookings[..|bookings| - 1];
      var last := bookings[|bookings| - 1];
      CommissionSplit(prefix);
      var f := Filter(prefix, IsCancelled);
      if last.cancelled {
        var f' := f + [last];
        assert Filter(bookings, IsCancelled) == f';
        assert f'[..|f'| - 1] == f;
      } else {
        assert Filter(bookings, IsCancelled) == f;
      }
    }
  }

  /** Without bookings the cancellation rate is 0 / 0, which is NaN; with bookings it lies between 0 and 100. */
  lemma CancellationRateRange(bookings: seq<Booking>)
    ensures bookings == [] ==> StatsOf(bookings).cancellationRate.NaN?
    ensures bookings != [] ==>
      StatsOf(bookings).cancellationRate.Finite? && 0.0 <= StatsOf(bookings).cancellationRate.value <= 100.0
  {
    var s := StatsOf(bookings);
    if bookings != [] {
      var q := Divide(s.cancelledBookings as real, s.totalBookings as real);
      assert q.value == s.cancelledBookings as real / s.totalBookings as real;
      PercentageBounds(s.cancelledBookings as real, s.totalBookings as real);
    }
  }

  /** `Math.abs(x)`. */
  function Abs(x: Ratio): (r: Ratio)
    ensures !r.Infinity? || !r.negative
    ensures r.Finite? ==> r.value >= 0.0
  {
    match x
    case Finite(v) => Finite(if v < 0.0 then -v else v)
    case NaN => NaN
    case Infinity(_) => Infinity(false)
  }

  /** What `renderChangeIndicator` draws: a colour, an arrow and the magnitude of the change. */
  datatype ChangeIndicator = ChangeIndicator(color: string, arrow: string, magnitude: string)

  /** `renderChangeIndicator(current, previous)`: nothing for a falsy previous rate; otherwise red
      and '↑' for a positive change, green and '↓' for any other (a NaN change included). */
  function Indicator(current: Ratio, previous: Option<Ratio>): (r: Option<ChangeIndicator>)
    ensures r.None? <==> !Change.PreviousTruthy(previous)
    ensures r.Some? ==> var change := ChangePercent(current, previous.value);
      && (r.value.color == "text-red-600" <==> Positive(change))
      && (r.value.color == "text-green-600" <==> !Positive(change))
      && (r.value.arrow == "↑" <==> Positive(change))
      && r.value.magnitude == Change.RatioToFixed(Abs(change), 1) + "%"
  {
    if !Change.PreviousTruthy(previous) then None
    else
      var change := ChangePercent(current, previous.value);
      var isPositive := Positive(change);
      Some(ChangeIndicator(if isPositive then "text-red-600" else "text-green-600",
        if isPositive then "↑" else "↓",
        Change.RatioToFixed(Abs(change), 1) + "%"))
  }

  /** On finite rates: a rise is shown red, anything else green, and a zero previous rate shows nothing. */
  lemma FiniteIndicator(current: real, previous: real)
    ensures previous == 0.0 ==> Indicator(Finite(current), Some(Finite(previous))).None?
    ensures previous > 0.0 ==>
      && Indicator(Finite(current), Some(Finite(previous))).Some?
      && (Indicator(Finite(current), Some(Finite(previous))).value.color == "text-red-600" <==> current > previous)
  {
    if previous != 0.0 {
      ChangePercentPositive(current, previous);
    }
  }
}
