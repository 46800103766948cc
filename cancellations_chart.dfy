/** The cancellations chart: per month of the booking date (`yyyy-MM`), the bookings and the
    cancelled bookings, the cancellation rate in percent, in ascending month order. */
module CancellationsChart {
  import opened Values
  import opened Text
  import opened Calendar
  import opened Sequences
  import opened Groups
  import opened Bookings

  /** The accumulator of one month; `cancellationRate` stays 0 until the rate pass. */
  datatype MonthTotals = MonthTotals(month: string, total: int, cancelled: int, cancellationRate: real)

  /** `format(bookingDate, 'yyyy-MM')`: the month the booking was made in, not the arrival month. */
  function BookingMonth(b: Booking): Option<string>
  {
    Some(YearMonthKey(b.bookingDate))
  }

  /** The accumulator created for a month not seen before. */
  function Fresh(b: Booking): MonthTotals
  {
    MonthTotals(YearMonthKey(b.bookingDate), 0, 0, 0.0)
  }

  /** One more booking: one more in the total, and one more cancelled when it is cancelled. */
  function AddBooking(t: MonthTotals, b: Booking): MonthTotals
  {
    t.(total := t.total + 1, cancelled := t.cancelled + (if b.cancelled then 1 else 0))
  }

  /** What the `reduce` leaves in `monthlyData`. */
  function MonthlyData(data: seq<Booking>): seq<Entry<string, MonthTotals>>
  {
    GroupBy(data, BookingMonth, Fresh, AddBooking)
  }

  /** The `reduce`: reads the booking's month (or creates it) and stores it back with the booking added. */
  method GroupByBookingMonth(data: seq<Booking>) returns (monthlyData: seq<Entry<string, MonthTotals>>)
    ensures monthlyData == MonthlyData(data)
  {
    monthlyData := [];
    var i := 0;
    while i < |data|
      invariant 0 <= i <= |data|
      invariant monthlyData == GroupBy(data[..i], BookingMonth, Fresh, AddBooking)
    {
      var booking := data[i];
      var monthKey := YearMonthKey(booking.bookingDate);
      GroupByStepKeyed(data, i, BookingMonth, Fresh, AddBooking, monthKey);
      var current := Current(monthlyData, monthKey, booking, Fresh);
      var updated := current.(total := current.total + 1);
      if booking.cancelled {
        updated := updated.(cancelled := updated.cancelled + 1);
        assert updated == AddBooking(current, booking);
      } else {
        assert updated == AddBooking(current, booking);
      }
      monthlyData := Put(monthlyData, monthKey, updated);
      i := i + 1;
    }
    assert data[..i] == data;
  }

  function TotalOf(t: MonthTotals): int
  {
    t.total
  }

  /** A month has an accumulator exactly when some booking was made in it; the accumulator
      carries the month, counts those bookings and the cancelled ones among them. */
  lemma MonthTotalsMeaning(data: seq<Booking>, month: string)
    ensures var g := Group(data, BookingMonth, month);
      && (forall b :: b in g <==> b in data && YearMonthKey(b.bookingDate) == month)
      && (Find(MonthlyData(data), month).None? <==> g == [])
      && (g != [] ==>
            var t := Find(MonthlyData(data), month).value;
            && t.month == month
            && t.total == |g|
            && t.cancelled == Count(g, IsCancelled)
            && 0 <= t.cancelled <= t.total)
  {
    var g := Group(data, BookingMonth, month);
    GroupByFind(data, BookingMonth, Fresh, AddBooking, month);
    forall b | b in data && YearMonthKey(b.bookingDate) == month ensures b in g {
      GroupHas(data, BookingMonth, Fresh, AddBooking, b);
    }
    if g != [] {
      AccumulateCount(g, Fresh, AddBooking, TotalOf);
      AccumulateSumInt(g, Fresh, AddBooking, (t: MonthTotals) => t.cancelled, CancelledOne);
      AccumulateFirst(g, Fresh, AddBooking, (t: MonthTotals) => t.month, (b: Booking) => YearMonthKey(b.bookingDate));
      CancelledCount(g);
      assert g[0] in g;
    }
  }

  /** Every stored accumulator is filed under its own month, has at least one booking, and has
      no more cancelled bookings than bookings. */
  lemma StoredTotals(data: seq<Booking>)
    ensures DistinctKeys(MonthlyData(data))
    ensures forall e :: e in MonthlyData(data) ==> e.acc.month == e.key && 0 <= e.acc.cancelled <= e.acc.total && e.acc.total >= 1
  {
    var t := MonthlyData(data);
    GroupByDistinct(data, BookingMonth, Fresh, AddBooking);
    GroupByInvariant(data, BookingMonth, Fresh, AddBooking, (a: MonthTotals) => 0 <= a.cancelled <= a.total && a.total >= 1);
    forall e | e in t ensures e.acc.month == e.key {
      FindDistinct(t, e.key, e.acc);
      MonthTotalsMeaning(data, e.key);
    }
  }

  /** One point of the chart (the month label is left to the renderer). */
  datatype MonthPoint = MonthPoint(month: string, total: int, cancelled: int, cancellationRate: Ratio)

  /** `{ ...monthData, cancellationRate: (cancelled / total) * 100 }`. */
  function PointOf(e: Entry<string, MonthTotals>): MonthPoint
  {
    MonthPoint(e.acc.month, e.acc.total, e.acc.cancelled, Scale(Divide(e.acc.cancelled as real, e.acc.total as real), 100.0))
  }

  /** `chartData`: the points ordered by month. A point's month is the key of its accumulator
      (`StoredTotals`), so sorting the accumulators by key and then making the points gives the
      points sorted by month. */
  function ChartDataOf(data: seq<Booking>): seq<MonthPoint>
  {
    Map(SortByKey(MonthlyData(data)), PointOf)
  }

  /** The memo body: the `reduce`, the rate and the sort. */
  method ComputeChartData(data: seq<Booking>) returns (chartData: seq<MonthPoint>)
    ensures chartData == ChartDataOf(data)
  {
    var monthlyData := GroupByBookingMonth(data);
    chartData := Map(SortByKey(monthlyData), PointOf);
  }

  /** The sorted accumulators keep what `StoredTotals` says of the unsorted ones, and are in
      ascending key order with each key once. */
  lemma SortedTotals(data: seq<Booking>)
    ensures var sorted := SortByKey(MonthlyData(data));
      && SortedByKey(sorted) && DistinctKeys(sorted)
      && (forall e :: e in sorted ==> e.acc.month == e.key && 0 <= e.acc.cancelled <= e.acc.total && e.acc.total >= 1)
  {
    var t := MonthlyData(data);
    var sorted := SortByKey(t);
    StoredTotals(data);
    SortByKeySorted(t);
    PermutationDistinctKeys(t, sorted);
    forall e | e in sorted ensures e in t {
      assert e in multiset(t);
    }
  }

  /** The chart lists each month once, in ascending order. */
  lemma ChartMonths(data: seq<Booking>)
    ensures var chart := ChartDataOf(data);
      forall i, j :: 0 <= i < j < |chart| ==> StrLe(chart[i].month, chart[j].month) && chart[i].month != chart[j].month
  {
    var sorted := SortByKey(MonthlyData(data));
    var chart := ChartDataOf(data);
    SortedTotals(data);
    forall i | 0 <= i < |chart| ensures chart[i].month == sorted[i].key {
      assert sorted[i] in sorted;
    }
  }

  /** Every point has at least one booking, no more cancelled bookings than bookings, and a
      finite rate between 0 and 100. */
  lemma ChartRates(data: seq<Booking>)
    ensures forall p :: p in ChartDataOf(data) ==>
      && p.total >= 1 && 0 <= p.cancelled <= p.total
      && p.cancellationRate.Finite? && 0.0 <= p.cancellationRate.value <= 100.0
  {
    var sorted := SortByKey(MonthlyData(data));
    var chart := ChartDataOf(data);
    SortedTotals(data);
    forall p | p in chart
      ensures p.total >= 1 && 0 <= p.cancelled <= p.total
      ensures p.cancellationRate.Finite? && 0.0 <= p.cancellationRate.value <= 100.0
    {
      var i :| 0 <= i < |chart| && chart[i] == p;
      assert sorted[i] in sorted;
      PercentageBounds(p.cancelled as real, p.total as real);
    }
  }

  /** Every booking is counted in exactly one month, so the totals of all points add up to the
      number of bookings. */
  lemma TotalsPartition(data: seq<Booking>)
    ensures SumInt(ChartDataOf(data), (p: MonthPoint) => p.total) == |data|
  {
    var t := MonthlyData(data);
    GroupByCount(data, BookingMonth, Fresh, AddBooking, TotalOf);
    SortByKeySum(t, TotalOf);
    SumByMap(SortByKey(t), TotalOf, PointOf, (p: MonthPoint) => p.total);
  }
}
