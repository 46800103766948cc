/** The arrivals chart: the number of arrivals per month (`yyyy-MM` of the arrival date) among
    the records whose arrival lies in the effective range, listed in ascending month order. */
module ArrivalsChart {
  import opened Values
  import opened Calendar
  import opened Sequences
  import opened Groups
  import opened Bookings
  import opened ChartRange

  /** `monthlyData.get(monthKey) || 0` for a month not seen before. */
  function Zero(b: Booking): int
  {
    0
  }

  /** `current + 1`. */
  function AddOne(count: int, b: Booking): int
  {
    count + 1
  }

  function CountOf(count: int): int
  {
    count
  }

  /** `monthlyArrivals`: nothing without records; otherwise the `forEach` over the records in
      the effective range, which throws when that range is inverted, and the month counts sorted
      by their key. */
  function MonthlyArrivalsOf(data: seq<Booking>, dateRange: DateRange): Completion<seq<Entry<string, int>>>
  {
    if data == [] then Normal([])
    else
      var effective := EffectiveRange(data, dateRange);
      if effective.start.None? || effective.end.None? then Normal([])
      else if Time(effective.start.value) > Time(effective.end.value) then Throws("Invalid interval")
      else Normal(SortByKey(GroupBy(data, MonthIn(effective.start.value, effective.end.value), Zero, AddOne)))
  }

  /** The `forEach`: the range test of each record and the count of its month; the first
      test throws when the range is inverted. */
  method MonthlyData(data: seq<Booking>, start: Date, end: Date) returns (result: Completion<seq<Entry<string, int>>>)
    ensures data != [] && Time(start) > Time(end) ==> result == Throws("Invalid interval")
    ensures data == [] || Time(start) <= Time(end) ==> result == Normal(GroupBy(data, MonthIn(start, end), Zero, AddOne))
  {
    var monthlyData: seq<Entry<string, int>> := [];
    var i := 0;
    while i < |data|
      invariant 0 <= i <= |data|
      invariant monthlyData == GroupBy(data[..i], MonthIn(start, end), Zero, AddOne)
      invariant i > 0 ==> Time(start) <= Time(end)
    {
      var booking := data[i];
      var within := IsWithinInterval(booking.arrivalDate, start, end);
      if within.Throws? {
        return Throws(within.reason);
      }
      if within.value {
        var monthKey := YearMonthKey(booking.arrivalDate);
        var current := Current(monthlyData, monthKey, booking, Zero);
        var count := current + 1;
        assert Put(monthlyData, monthKey, count) == GroupBy(data[..i + 1], MonthIn(start, end), Zero, AddOne) by {
          assert MonthIn(start, end)(booking) == Some(monthKey);
          GroupByStepKeyed(data, i, MonthIn(start, end), Zero, AddOne, monthKey);
          assert count == AddOne(current, booking);
        }
        monthlyData := Put(monthlyData, monthKey, count);
      } else {
        assert monthlyData == GroupBy(data[..i + 1], MonthIn(start, end), Zero, AddOne) by {
          assert MonthIn(start, end)(booking).None?;
          GroupByStepUnkeyed(data, i, MonthIn(start, end), Zero, AddOne);
        }
      }
      i := i + 1;
    }
    assert data[..i] == data;
    result := Normal(monthlyData);
  }

  /** The memo body: the effective range, the `forEach`, then the sort by month key. */
  method ComputeMonthlyArrivals(data: seq<Booking>, dateRange: DateRange) returns (result: Completion<seq<Entry<string, int>>>)
    ensures result == MonthlyArrivalsOf(data, dateRange)
  {
    if |data| == 0 {
      return Normal([]);
    }
    var effectiveDateRange := EffectiveRange(data, dateRange);
    if effectiveDateRange.start.None? || effectiveDateRange.end.None? {
      return Normal([]);
    }
    var monthlyData := MonthlyData(data, effectiveDateRange.start.value, effectiveDateRange.end.value);
    if monthlyData.Throws? {
      return monthlyData;
    }
    result := Normal(SortByKey(monthlyData.value));
  }

  /** Without records the chart is empty; with records the effective range has both bounds, and
      the computation throws exactly when the range is inverted. */
  lemma ArrivalsOutcome(data: seq<Booking>, dateRange: DateRange)
    ensures data == [] ==> MonthlyArrivalsOf(data, dateRange) == Normal([])
    ensures data != [] ==>
      var effective := EffectiveRange(data, dateRange);
      && effective.start.Some? && effective.end.Some?
      && (MonthlyArrivalsOf(data, dateRange).Throws? <==> Time(effective.start.value) > Time(effective.end.value))
  {
  }

  /** In the result, months are in ascending key order, each once; a month is listed exactly when
      some record in the range arrives in it, with the number of those records, at least one. */
  lemma ArrivalsMeaning(data: seq<Booking>, dateRange: DateRange, month: string)
    requires data != [] && MonthlyArrivalsOf(data, dateRange).Normal?
    ensures var effective := EffectiveRange(data, dateRange);
      var start, end := effective.start.value, effective.end.value;
      var r := MonthlyArrivalsOf(data, dateRange).value;
      var g := Group(data, MonthIn(start, end), month);
      && SortedByKey(r) && DistinctKeys(r)
      && (forall b :: b in g <==> b in data && InRange(start, end)(b) && YearMonthKey(b.arrivalDate) == month)
      && Find(r, month) == (if g == [] then None else Some(|g|))
      && (forall e :: e in r ==> e.acc >= 1)
  {
    var effective := EffectiveRange(data, dateRange);
    var start, end := effective.start.value, effective.end.value;
    var key := MonthIn(start, end);
    assert MonthlyArrivalsOf(data, dateRange).value == SortByKey(GroupBy(data, key, Zero, AddOne));
    CountsMeaning(data, key, month);
    forall b ensures key(b) == Some(month) <==> InRange(start, end)(b) && YearMonthKey(b.arrivalDate) == month {
      MonthInMeaning(start, end, b, month);
    }
  }

  /** The sorted counts of any bucketing of the records: keys ascending and distinct, a bucket
      listed exactly when some record falls in it, with the number of those records. */
  lemma CountsMeaning(data: seq<Booking>, key: Booking -> Option<string>, month: string)
    ensures var r := SortByKey(GroupBy(data, key, Zero, AddOne));
      var g := Group(data, key, month);
      && SortedByKey(r) && DistinctKeys(r)
      && (forall b :: b in g <==> b in data && key(b) == Some(month))
      && Find(r, month) == (if g == [] then None else Some(|g|))
      && (forall e :: e in r ==> e.acc >= 1)
  {
    var t := GroupBy(data, key, Zero, AddOne);
    var r := SortByKey(t);
    var g := Group(data, key, month);
    assert SortedByKey(r) && DistinctKeys(r) && Find(r, month) == Find(t, month) by {
      GroupByDistinct(data, key, Zero, AddOne);
      SortByKeySorted(t);
      SortByKeyFind(t, month);
    }
    forall b | b in data && key(b) == Some(month) ensures b in g {
      GroupHas(data, key, Zero, AddOne, b);
    }
    assert Find(t, month) == (if g == [] then None else Some(|g|)) by {
      GroupByFind(data, key, Zero, AddOne, month);
      if g != [] {
        AccumulateCount(g, Zero, AddOne, CountOf);
      }
    }
    forall e | e in r ensures e.acc >= 1 {
      GroupByInvariant(data, key, Zero, AddOne, (c: int) => c >= 1);
      assert e in multiset(t);
    }
  }

  /** The counts of all months add up to the number of records in the effective range. */
  lemma ArrivalsTotal(data: seq<Booking>, dateRange: DateRange)
    requires data != [] && MonthlyArrivalsOf(data, dateRange).Normal?
    ensures var effective := EffectiveRange(data, dateRange);
      SumBy(MonthlyArrivalsOf(data, dateRange).value, CountOf) == Count(data, InRange(effective.start.value, effective.end.value))
  {
    var effective := EffectiveRange(data, dateRange);
    var start, end := effective.start.value, effective.end.value;
    var t := GroupBy(data, MonthIn(start, end), Zero, AddOne);
    GroupByCountWhere(data, MonthIn(start, end), Zero, AddOne, CountOf, InRange(start, end));
    SortByKeySum(t, CountOf);
  }

  /** Without a selected range nothing throws and every record is counted. */
  lemma OpenRangeCountsAll(data: seq<Booking>)
    ensures MonthlyArrivalsOf(data, DateRange(None, None)).Normal?
    ensures SumBy(MonthlyArrivalsOf(data, DateRange(None, None)).value, CountOf) == |data|
  {
    if data != [] {
      var effective := EffectiveRange(data, DateRange(None, None));
      OpenRangeCoversAll(data);
      ArrivalsTotal(data, DateRange(None, None));
      var p := InRange(effective.start.value, effective.end.value);
      FilterAll(data, p);
      CountFilter(data, p);
    }
  }
}
