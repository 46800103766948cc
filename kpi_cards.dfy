/** The KPI cards: totals over the current records and, when given, the comparison records; and
    the change label and colour of each card. The average commission divides by the number of
    bookings that were not cancelled without checking that there is one, so it can be NaN or
    infinite. */
module KPICards {
  import opened Values
  import opened Sequences
  import opened Bookings
  import Change

  datatype Stats = Stats(
    totalRevenue: real,
    totalCommission: real,
    totalBookings: int,
    averageCommission: Ratio,
    cancelledBookings: int,
    cancellationRate: real)

  /** The totals of `stats` (and, with the same formulas, of `comparisonStats`). */
  function StatsOf(data: seq<Booking>): (s: Stats)
    ensures s.totalBookings == |data|
    ensures s.cancelledBookings == Count(data, IsCancelled)
    ensures 0 <= s.cancelledBookings <= s.totalBookings
    ensures s.totalRevenue == Sum(data, NetPrice) && s.totalCommission == Sum(data, NetCommission)
    ensures data == [] ==> s.cancellationRate == 0.0 && s.averageCommission == Finite(0.0)
    ensures data != [] ==> s.cancellationRate == s.cancelledBookings as real / s.totalBookings as real * 100.0
    ensures data != [] ==> s.averageCommission == Divide(s.totalCommission, (s.totalBookings - s.cancelledBookings) as real)
  {
    var totalBookings := |data|;
    var cancelledBookings := |Filter(data, IsCancelled)|;
    CountFilter(data, IsCancelled);
    var totalRevenue := Sum(data, NetPrice);
    var totalCommission := Sum(data, NetCommission);
    var cancellationRate := if totalBookings > 0 then (cancelledBookings as real / totalBookings as real) * 100.0 else 0.0;
    var averageCommission := if totalBookings > 0 then Divide(totalCommission, (totalBookings - cancelledBookings) as real) else Finite(0.0);
    Stats(totalRevenue, totalCommission, totalBookings, averageCommission, cancelledBookings, cancellationRate)
  }

  /** `comparisonStats`: undefined exactly when there are no comparison records. */
  function ComparisonStatsOf(comparisonData: Option<seq<Booking>>): (s: Option<Stats>)
    ensures s.None? <==> comparisonData.None?
    ensures s.Some? ==> s.value == StatsOf(comparisonData.value)
  {
    if comparisonData.None? then None else Some(StatsOf(comparisonData.value))
  }

  /** Cancelled bookings never outnumber the bookings, so the cancellation rate lies between 0 and 100. */
  lemma CancellationRateBounds(data: seq<Booking>)
    ensures 0.0 <= StatsOf(data).cancellationRate <= 100.0
  {
    var s := StatsOf(data);
    if data != [] {
      PercentageBounds(s.cancelledBookings as real, |data| as real);
    }
  }

  /** A cancelled booking adds nothing to revenue or commission. */
  lemma {:induction false} CancelledAddNothing(data: seq<Booking>)
    requires forall b :: b in data ==> b.cancelled
    ensures StatsOf(data).totalRevenue == 0.0 && StatsOf(data).totalCommission == 0.0
    decreases |data|
  {
    if data != [] {
      CancelledAddNothing(data[..|data| - 1]);
    }
  }

  /** When every booking is cancelled the average commission is 0 / 0, which is NaN. */
  lemma AllCancelledAverageIsNaN(data: seq<Booking>)
    requires data != []
    requires forall b :: b in data ==> b.cancelled
    ensures StatsOf(data).averageCommission.NaN?
  {
    CancelledAddNothing(data);
    AllCounted(data);
  }

  lemma {:induction false} AllCounted(data: seq<Booking>)
    requires forall b :: b in data ==> b.cancelled
    ensures Count(data, IsCancelled) == |data|
    decreases |data|
  {
    if data != [] {
      AllCounted(data[..|data| - 1]);
    }
  }

  /** The label under a card: only in year-comparison mode and with a comparison value. */
  function CardChange(isYearComparison: bool, value: Ratio, comparisonValue: Option<Ratio>): (shown: Option<string>)
    ensures shown.Some? <==> isYearComparison && comparisonValue.Some?
    ensures shown.Some? ==> shown.value == Change.CalculateChange(value, comparisonValue)
  {
    if isYearComparison && comparisonValue.Some? then Some(Change.CalculateChange(value, comparisonValue)) else None
  }

  /** The average commission card: without comparison records there is no label; against a
      comparison average of NaN (all comparison bookings cancelled) the label is empty. */
  lemma AverageCommissionLabel(data: seq<Booking>, comparisonData: Option<seq<Booking>>)
    requires comparisonData.Some? && comparisonData.value != []
    requires forall b :: b in comparisonData.value ==> b.cancelled
    ensures var previous := ComparisonStatsOf(comparisonData).value.averageCommission;
      CardChange(true, StatsOf(data).averageCommission, Some(previous)) == Some("")
  {
    AllCancelledAverageIsNaN(comparisonData.value);
  }
}
