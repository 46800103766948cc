/** The commissions chart: the commission per month (`yyyy-MM` of the arrival date), cancelled
    bookings included, of the records whose arrival lies in the effective range, listed in
    ascending month order. */
module CommissionsChart {
  import opened Values
  import opened Calendar
  import opened Sequences
  import opened Groups
  import opened Bookings
  import opened ChartRange

  /** `monthlyData.get(monthKey) || 0` for a month not seen before. */
  function Zero(b: Booking): real
  {
    0.0
  }

  /** `current + (booking.commission || 0)`. */
  function AddCommission(sum: real, b: Booking): real
  {
    sum + b.commission
  }

  /** `monthlyCommissions`: nothing without records; otherwise the `forEach` over the records in
      the effective range, which throws when that range is inverted, and the month sums sorted
      by their key. */
  function MonthlyCommissionsOf(data: seq<Booking>, dateRange: DateRange): Completion<seq<Entry<string, real>>>
  {
    if data == [] then Normal([])
    else
      var effective := EffectiveRange(data, dateRange);
      if effective.start.None? || effective.end.None? then Normal([])
      else if Time(effective.start.value) > Time(effective.end.value) then Throws("Invalid interval")
      else Normal(SortByKey(GroupBy(data, MonthIn(effective.start.value, effective.end.value), Zero, AddCommission)))
  }

  /** The `forEach`: the range test of each record and the sum of its month; the first
      test throws when the range is inverted. */
  method MonthlyData(data: seq<Booking>, start: Date, end: Date) returns (result: Completion<seq<Entry<string, real>>>)
    ensures data != [] && Time(start) > Time(end) ==> result == Throws("Invalid interval")
    ensures data == [] || Time(start) <= Time(end) ==> result == Normal(GroupBy(data, MonthIn(start, end), Zero, AddCommission))
  {
    var monthlyData: seq<Entry<string, real>> := [];
    var i := 0;
    while i < |data|
      invariant 0 <= i <= |data|
      invariant monthlyData == GroupBy(data[..i], MonthIn(start, end), Zero, AddCommission)
      invariant i > 0 ==> Time(start) <= Time(end)
    {
      var booking := data[i];
      var within := IsWithinInterval(booking.arrivalDate, start, end);
      if within.Throws? {
        return Throws(within.reason);
      }
      if within.value {
        var monthKey := YearMonthKey(booking.arrivalDate);
        var current := Current(monthlyData, monthKey, booking, Zero);
        var sum := current + booking.commission;
        assert Put(monthlyData, monthKey, sum) == GroupBy(data[..i + 1], MonthIn(start, end), Zero, AddCommission) by {
          assert MonthIn(start, end)(booking) == Some(monthKey);
          GroupByStepKeyed(data, i, MonthIn(start, end), Zero, AddCommission, monthKey);
          assert sum == AddCommission(current, booking);
        }
        monthlyData := Put(monthlyData, monthKey, sum);
      } else {
        assert monthlyData == GroupBy(data[..i + 1], MonthIn(start, end), Zero, AddCommission) by {
          assert MonthIn(start, end)(booking).None?;
          GroupByStepUnkeyed(data, i, MonthIn(start, end), Zero, AddCommission);
        }
      }
      i := i + 1;
    }
    assert data[..i] == data;
    result := Normal(monthlyData);
  }

  /** The memo body: the effective range, the `forEach`, then the sort by month key. */
  method ComputeMonthlyCommissions(data: seq<Booking>, dateRange: DateRange) returns (result: Completion<seq<Entry<string, real>>>)
    ensures result == MonthlyCommissionsOf(data, dateRange)
  {
    if |data| == 0 {
      return Normal([]);
    }
    var effectiveDateRange := EffectiveRange(data, dateRange);
    if effectiveDateRange.start.None? || effectiveDateRange.end.None? {
      return Normal([]);
    }
    var monthlyData := MonthlyData(data, effectiveDateRange.start.value, effectiveDateRange.end.value);
    if monthlyData.Throws? {
      return monthlyData;
    }
    result := Normal(SortByKey(monthlyData.value));
  }

  /** Without records the chart is empty; with records the effective range has both bounds, and
      the computation throws exactly when the range is inverted. */
  lemma CommissionsOutcome(data: seq<Booking>, dateRange: DateRange)
    ensures data == [] ==> MonthlyCommissionsOf(data, dateRange) == Normal([])
    ensures data != [] ==>
      var effective := EffectiveRange(data, dateRange);
      && effective.start.Some? && effective.end.Some?
      && (MonthlyCommissionsOf(data, dateRange).Throws? <==> Time(effective.start.value) > Time(effective.end.value))
  {
  }

  /** In the result, months are in ascending key order, each once; a month is listed exactly when
      some record in the range arrives in it, with the commissions of those records, cancelled
      ones included. */
  lemma CommissionsMeaning(data: seq<Booking>, dateRange: DateRange, month: string)
    requires data != [] && MonthlyCommissionsOf(data, dateRange).Normal?
    ensures var effective := EffectiveRange(data, dateRange);
      var start, end := effective.start.value, effective.end.value;
      var r := MonthlyCommissionsOf(data, dateRange).value;
      var g := Group(data, MonthIn(start, end), month);
      && SortedByKey(r) && DistinctKeys(r)
      && (forall b :: b in g <==> b in data && InRange(start, end)(b) && YearMonthKey(b.arrivalDate) == month)
      && Find(r, month) == (if g == [] then None else Some(Sum(g, Commission)))
  {
    var effective := EffectiveRange(data, dateRange);
    var start, end := effective.start.value, effective.end.value;
    var key := MonthIn(start, end);
    assert MonthlyCommissionsOf(data, dateRange).value == SortByKey(GroupBy(data, key, Zero, AddCommission));
    SumsMeaning(data, key, month);
    forall b ensures key(b) == Some(month) <==> InRange(start, end)(b) && YearMonthKey(b.arrivalDate) == month {
      MonthInMeaning(start, end, b, month);
    }
  }

  /** The sorted sums of any bucketing of the records: keys ascending and distinct, a bucket
      listed exactly when some record falls in it, with the sum of those records' commissions. */
  lemma SumsMeaning(data: seq<Booking>, key: Booking -> Option<string>, month: string)
    ensures var r := SortByKey(GroupBy(data, key, Zero, AddCommission));
      var g := Group(data, key, month);
      && SortedByKey(r) && DistinctKeys(r)
      && (forall b :: b in g <==> b in data && key(b) == Some(month))
      && Find(r, month) == (if g == [] then None else Some(Sum(g, Commission)))
  {
    var t := GroupBy(data, key, Zero, AddCommission);
    var g := Group(data, key, month);
    GroupByDistinct(data, key, Zero, AddCommission);
    SortByKeySorted(t);
    SortByKeyFind(t, month);
    GroupByFind(data, key, Zero, AddCommission, month);
    forall b | b in data && key(b) == Some(month) ensures b in g {
      GroupHas(data, key, Zero, AddCommission, b);
    }
    if g != [] {
      AccumulateSum(g, Zero, AddCommission, (sum: real) => sum, Commission);
    }
  }

  /** Without a selected range nothing throws and the arrival month of every record is listed. */
  lemma OpenRangeListsAll(data: seq<Booking>)
    ensures MonthlyCommissionsOf(data, DateRange(None, None)).Normal?
    ensures forall b :: b in data ==> YearMonthKey(b.arrivalDate) in Keys(MonthlyCommissionsOf(data, DateRange(None, None)).value)
  {
    if data != [] {
      var effective := EffectiveRange(data, DateRange(None, None));
      var start, end := effective.start.value, effective.end.value;
      OpenRangeCoversAll(data);
      var t := GroupBy(data, MonthIn(start, end), Zero, AddCommission);
      GroupByDistinct(data, MonthIn(start, end), Zero, AddCommission);
      forall b | b in data ensures YearMonthKey(b.arrivalDate) in Keys(SortByKey(t)) {
        var k := YearMonthKey(b.arrivalDate);
        GroupHas(data, MonthIn(start, end), Zero, AddCommission, b);
        SortByKeyFind(t, k);
      }
    }
  }
}
