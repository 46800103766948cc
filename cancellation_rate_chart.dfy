/** The cancellation-rate chart: per month (`yyyy-MM` of the arrival date) of the records whose
    arrival lies in the selected range, the share of cancelled records in percent, in ascending
    month order. The counter tests the property `isCancelled`, which no imported record has
    (`CsvUploader.NeverIsCancelled`), so as written every rate is 0. */
module CancellationRateChart {
  import opened Values
  import opened Text
  import opened Calendar
  import opened Sequences
  import opened Groups
  import opened Bookings
  import opened ChartRange

  /** `{ total, cancelled }` of one month. */
  datatype Counter = Counter(total: int, cancelled: int)

  /** `booking.isCancelled` as written: the record carries `cancelled`, not `isCancelled`, so the
      read gives `undefined`, which the `if` treats as false. */
  predicate IsCancelledProperty(b: Booking)
  {
    false
  }

  /** `monthlyData.get(monthKey) || { total: 0, cancelled: 0 }`. */
  function Zero(b: Booking): Counter
  {
    Counter(0, 0)
  }

  /** `current.total += 1` and, when the record counts as cancelled, `current.cancelled += 1`. */
  function Tally(cancelledOf: Booking -> bool): (Counter, Booking) -> Counter
  {
    (c: Counter, b: Booking) => Counter(c.total + 1, c.cancelled + (if cancelledOf(b) then 1 else 0))
  }

  /** What the `forEach` leaves in `monthlyData` for a range that is not inverted. */
  function Counters(data: seq<Booking>, start: Date, end: Date, cancelledOf: Booking -> bool): seq<Entry<string, Counter>>
  {
    GroupBy(data, MonthIn(start, end), Zero, Tally(cancelledOf))
  }

  /** One point: the month key (its label is left to the renderer) and the rate. */
  datatype RatePoint = RatePoint(month: string, rate: Ratio)

  /** `{ month, rate: (stats.cancelled / stats.total) * 100 }`. */
  function RateOf(e: Entry<string, Counter>): RatePoint
  {
    RatePoint(e.key, Scale(Divide(e.acc.cancelled as real, e.acc.total as real), 100.0))
  }

  /** The counters sorted by month key, each made a point. */
  function Rates(data: seq<Booking>, start: Date, end: Date, cancelledOf: Booking -> bool): seq<RatePoint>
  {
    Map(SortByKey(Counters(data, start, end, cancelledOf)), RateOf)
  }

  /** `monthlyCancellationRates` with the counter testing `cancelledOf`: nothing without both
      bounds or without records; otherwise the `forEach`, which throws when the range is
      inverted, the sort by month key and the rate of each month. */
  function MonthlyRatesOf(data: seq<Booking>, dateRange: DateRange, cancelledOf: Booking -> bool): Completion<seq<RatePoint>>
  {
    if dateRange.start.None? || dateRange.end.None? || data == [] then Normal([])
    else if Time(dateRange.start.value) > Time(dateRange.end.value) then Throws("Invalid interval")
    else Normal(Rates(data, dateRange.start.value, dateRange.end.value, cancelledOf))
  }

  /** The `forEach`: the range test of each record and the update of its month's counter; the
      first test throws when the range is inverted. */
  method MonthlyData(data: seq<Booking>, start: Date, end: Date, cancelledOf: Booking -> bool)
    returns (result: Completion<seq<Entry<string, Counter>>>)
    ensures data != [] && Time(start) > Time(end) ==> result == Throws("Invalid interval")
    ensures data == [] || Time(start) <= Time(end) ==> result == Normal(Counters(data, start, end, cancelledOf))
  {
    var monthlyData: seq<Entry<string, Counter>> := [];
    var i := 0;
    while i < |data|
      invariant 0 <= i <= |data|
      invariant monthlyData == GroupBy(data[..i], MonthIn(start, end), Zero, Tally(cancelledOf))
      invariant i > 0 ==> Time(start) <= Time(end)
    {
      var booking := data[i];
      var within := IsWithinInterval(booking.arrivalDate, start, end);
      if within.Throws? {
        return Throws(within.reason);
      }
      if within.value {
        var monthKey := YearMonthKey(booking.arrivalDate);
        var previous := Current(monthlyData, monthKey, booking, Zero);
        ghost var next := Tally(cancelledOf)(previous, booking);
        assert Put(monthlyData, monthKey, next) == GroupBy(data[..i + 1], MonthIn(start, end), Zero, Tally(cancelledOf)) by {
          assert MonthIn(start, end)(booking) == Some(monthKey);
          GroupByStepKeyed(data, i, MonthIn(start, end), Zero, Tally(cancelledOf), monthKey);
        }
        var current := previous.(total := previous.total + 1);
        if cancelledOf(booking) {
          current := current.(cancelled := current.cancelled + 1);
          assert current == next;
        } else {
          assert current == next;
        }
        monthlyData := Put(monthlyData, monthKey, current);
      } else {
        assert monthlyData == GroupBy(data[..i + 1], MonthIn(start, end), Zero, Tally(cancelledOf)) by {
          assert MonthIn(start, end)(booking).None?;
          GroupByStepUnkeyed(data, i, MonthIn(start, end), Zero, Tally(cancelledOf));
        }
      }
      i := i + 1;
    }
    assert data[..i] == data;
    result := Normal(monthlyData);
  }

  /** The memo body, with the counter testing `cancelledOf` (as written: `IsCancelledProperty`). */
  method ComputeMonthlyRates(data: seq<Booking>, dateRange: DateRange, cancelledOf: Booking -> bool)
    returns (result: Completion<seq<RatePoint>>)
    ensures result == MonthlyRatesOf(data, dateRange, cancelledOf)
  {
    if dateRange.start.None? || dateRange.end.None? || |data| == 0 {
      return Normal([]);
    }
    var monthlyData := MonthlyData(data, dateRange.start.value, dateRange.end.value, cancelledOf);
    if monthlyData.Throws? {
      return Throws(monthlyData.reason);
    }
    result := Normal(Map(SortByKey(monthlyData.value), RateOf));
  }

  /** The chart is empty without both bounds or without records; otherwise it throws exactly when
      the range is inverted. */
  lemma RatesOutcome(data: seq<Booking>, dateRange: DateRange, cancelledOf: Booking -> bool)
    ensures dateRange.start.None? || dateRange.end.None? || data == [] ==> MonthlyRatesOf(data, dateRange, cancelledOf) == Normal([])
    ensures dateRange.start.Some? && dateRange.end.Some? && data != [] ==>
      (MonthlyRatesOf(data, dateRange, cancelledOf).Throws? <==> Time(dateRange.start.value) > Time(dateRange.end.value))
  {
  }

  /** A month has a counter exactly when some record in the range arrives in it; the counter
      counts those records and, among them, the ones `cancelledOf` holds for. */
  lemma CounterMeaning(data: seq<Booking>, start: Date, end: Date, cancelledOf: Booking -> bool, month: string)
    ensures var g := Group(data, MonthIn(start, end), month);
      && (forall b :: b in g <==> b in data && InRange(start, end)(b) && YearMonthKey(b.arrivalDate) == month)
      && Find(Counters(data, start, end, cancelledOf), month) ==
           (if g == [] then None else Some(Counter(|g|, Count(g, cancelledOf))))
  {
    var key := MonthIn(start, end);
    KeyedCounterMeaning(data, key, cancelledOf, month);
    forall b ensures key(b) == Some(month) <==> InRange(start, end)(b) && YearMonthKey(b.arrivalDate) == month {
      MonthInMeaning(start, end, b, month);
    }
  }

  /** The counter of a bucket, for any bucketing of the records. */
  lemma KeyedCounterMeaning(data: seq<Booking>, key: Booking -> Option<string>, cancelledOf: Booking -> bool, month: string)
    ensures var g := Group(data, key, month);
      && (forall b :: b in g <==> b in data && key(b) == Some(month))
      && Find(GroupBy(data, key, Zero, Tally(cancelledOf)), month) ==
           (if g == [] then None else Some(Counter(|g|, Count(g, cancelledOf))))
  {
    var g := Group(data, key, month);
    GroupByFind(data, key, Zero, Tally(cancelledOf), month);
    forall b | b in data && key(b) == Some(month) ensures b in g {
      GroupHas(data, key, Zero, Tally(cancelledOf), b);
    }
    if g != [] {
      AccumulateCount(g, Zero, Tally(cancelledOf), (c: Counter) => c.total);
      AccumulateSumInt(g, Zero, Tally(cancelledOf), (c: Counter) => c.cancelled, Indicator(cancelledOf));
      CountIndicator(g, cancelledOf);
    }
  }

  /** A stored counter belongs to a month with at least one record in the range, and its point's
      rate is the share in percent of the records `cancelledOf` holds for, between 0 and 100. */
  lemma EntryRate(data: seq<Booking>, start: Date, end: Date, cancelledOf: Booking -> bool, e: Entry<string, Counter>)
    requires e in Counters(data, start, end, cancelledOf)
    ensures var g := Group(data, MonthIn(start, end), e.key);
      && g != []
      && RateOf(e).rate == Finite(Count(g, cancelledOf) as real / |g| as real * 100.0)
      && 0.0 <= RateOf(e).rate.value <= 100.0
  {
    KeyedEntryRate(data, MonthIn(start, end), cancelledOf, e);
  }

  /** The rate of a stored counter, for any bucketing of the records. */
  lemma KeyedEntryRate(data: seq<Booking>, key: Booking -> Option<string>, cancelledOf: Booking -> bool, e: Entry<string, Counter>)
    requires e in GroupBy(data, key, Zero, Tally(cancelledOf))
    ensures var g := Group(data, key, e.key);
      && g != []
      && RateOf(e).rate == Finite(Count(g, cancelledOf) as real / |g| as real * 100.0)
      && 0.0 <= RateOf(e).rate.value <= 100.0
  {
    var t := GroupBy(data, key, Zero, Tally(cancelledOf));
    GroupByDistinct(data, key, Zero, Tally(cancelledOf));
    FindDistinct(t, e.key, e.acc);
    KeyedCounterMeaning(data, key, cancelledOf, e.key);
    var g := Group(data, key, e.key);
    PercentageBounds(Count(g, cancelledOf) as real, |g| as real);
  }

  /** Each month is listed once, in ascending order, and its rate is the share in percent of the
      records `cancelledOf` holds for among the month's records in the range, of which there is
      at least one; the rate lies between 0 and 100. */
  lemma RatesMeaning(data: seq<Booking>, start: Date, end: Date, cancelledOf: Booking -> bool)
    ensures var r := Rates(data, start, end, cancelledOf);
      && (forall i, j :: 0 <= i < j < |r| ==> StrLe(r[i].month, r[j].month) && r[i].month != r[j].month)
      && (forall i :: 0 <= i < |r| ==>
            var g := Group(data, MonthIn(start, end), r[i].month);
            && g != []
            && r[i].rate == Finite(Count(g, cancelledOf) as real / |g| as real * 100.0)
            && 0.0 <= r[i].rate.value <= 100.0)
  {
    KeyedRatesMeaning(data, MonthIn(start, end), cancelledOf, Rates(data, start, end, cancelledOf));
  }

  /** The sorted points, for any bucketing of the records. */
  lemma KeyedRatesMeaning(data: seq<Booking>, key: Booking -> Option<string>, cancelledOf: Booking -> bool, r: seq<RatePoint>)
    requires r == Map(SortByKey(GroupBy(data, key, Zero, Tally(cancelledOf))), RateOf)
    ensures && (forall i, j :: 0 <= i < j < |r| ==> StrLe(r[i].month, r[j].month) && r[i].month != r[j].month)
      && (forall i :: 0 <= i < |r| ==>
            var g := Group(data, key, r[i].month);
            && g != []
            && r[i].rate == Finite(Count(g, cancelledOf) as real / |g| as real * 100.0)
            && 0.0 <= r[i].rate.value <= 100.0)
  {
    var t := GroupBy(data, key, Zero, Tally(cancelledOf));
    var sorted := SortByKey(t);
    GroupByDistinct(data, key, Zero, Tally(cancelledOf));
    SortByKeySorted(t);
    PermutationDistinctKeys(t, sorted);
    forall i, j | 0 <= i < j < |r| ensures StrLe(r[i].month, r[j].month) && r[i].month != r[j].month {
      assert r[i].month == sorted[i].key && r[j].month == sorted[j].key;
    }
    forall i | 0 <= i < |r|
      ensures var g := Group(data, key, r[i].month);
        && g != []
        && r[i].rate == Finite(Count(g, cancelledOf) as real / |g| as real * 100.0)
        && 0.0 <= r[i].rate.value <= 100.0
    {
      KeyedPointRate(data, key, cancelledOf, r, i);
    }
  }

  /** The rate of one point of the sorted list, for any bucketing of the records. */
  lemma KeyedPointRate(data: seq<Booking>, key: Booking -> Option<string>, cancelledOf: Booking -> bool, r: seq<RatePoint>, i: int)
    requires r == Map(SortByKey(GroupBy(data, key, Zero, Tally(cancelledOf))), RateOf)
    requires 0 <= i < |r|
    ensures var g := Group(data, key, r[i].month);
      && g != []
      && r[i].rate == Finite(Count(g, cancelledOf) as real / |g| as real * 100.0)
      && 0.0 <= r[i].rate.value <= 100.0
  {
    var t := GroupBy(data, key, Zero, Tally(cancelledOf));
    var sorted := SortByKey(t);
    assert sorted[i] in multiset(t);
    KeyedEntryRate(data, key, cancelledOf, sorted[i]);
    assert r[i] == RateOf(sorted[i]);
  }

  /** The records counted in the range add up over the months to the records in the range. */
  lemma TotalsPartition(data: seq<Booking>, start: Date, end: Date, cancelledOf: Booking -> bool)
    ensures SumBy(SortByKey(Counters(data, start, end, cancelledOf)), (c: Counter) => c.total) == Count(data, InRange(start, end))
  {
    var t := Counters(data, start, end, cancelledOf);
    GroupByCountWhere(data, MonthIn(start, end), Zero, Tally(cancelledOf), (c: Counter) => c.total, InRange(start, end));
    SortByKeySum(t, (c: Counter) => c.total);
  }

  /** As written, every month's rate is 0, whatever the records' `cancelled` flags say. */
  lemma AsWrittenRatesZero(data: seq<Booking>, start: Date, end: Date)
    ensures forall p :: p in Rates(data, start, end, IsCancelledProperty) ==> p.rate == Finite(0.0)
  {
    var key := MonthIn(start, end);
    var r := Rates(data, start, end, IsCancelledProperty);
    assert r == Map(SortByKey(GroupBy(data, key, Zero, Tally(IsCancelledProperty))), RateOf);
    forall i | 0 <= i < |r| ensures r[i].rate == Finite(0.0) {
      KeyedPointRate(data, key, IsCancelledProperty, r, i);
      NoneCountedZero(Group(data, key, r[i].month));
    }
  }

  /** Counting with `IsCancelledProperty` gives a share of 0 percent. */
  lemma NoneCountedZero(g: seq<Booking>)
    requires g != []
    ensures Count(g, IsCancelledProperty) as real / |g| as real * 100.0 == 0.0
  {
    CountNone(g, IsCancelledProperty);
    ZeroPercentage(Count(g, IsCancelledProperty) as real, |g| as real);
  }

  /** A single record arriving inside the range gives one counter. */
  lemma SingleRecord(b: Booking, start: Date, end: Date, cancelledOf: Booking -> bool)
    requires Time(start) <= Time(b.arrivalDate) <= Time(end)
    ensures Rates([b], start, end, cancelledOf) ==
      [RateOf(Entry(YearMonthKey(b.arrivalDate), Counter(1, if cancelledOf(b) then 1 else 0)))]
  {
    var k := YearMonthKey(b.arrivalDate);
    assert [b][..0] == [];
    assert MonthIn(start, end)(b) == Some(k);
    var t := Counters([b], start, end, cancelledOf);
    var empty: seq<Entry<string, Counter>> := [];
    assert GroupBy([b][..0], MonthIn(start, end), Zero, Tally(cancelledOf)) == empty;
    assert Current(empty, k, b, Zero) == Counter(0, 0);
    assert Tally(cancelledOf)(Counter(0, 0), b) == Counter(1, if cancelledOf(b) then 1 else 0);
    assert t == Put(empty, k, Counter(1, if cancelledOf(b) then 1 else 0));
    assert t == [Entry(k, Counter(1, if cancelledOf(b) then 1 else 0))];
    assert SortByKey(t) == t;
  }

  /** One cancelled booking in a one-day range: as written the chart shows a rate of 0, while the
      booking's own flag gives 100. */
  lemma OneCancelledBooking(b: Booking)
    requires b.cancelled
    ensures var range := DateRange(Some(b.arrivalDate), Some(b.arrivalDate));
      var month := YearMonthKey(b.arrivalDate);
      && MonthlyRatesOf([b], range, IsCancelledProperty) == Normal([RatePoint(month, Finite(0.0))])
      && MonthlyRatesOf([b], range, IsCancelled) == Normal([RatePoint(month, Finite(100.0))])
  {
    var d := b.arrivalDate;
    SingleRecord(b, d, d, IsCancelledProperty);
    SingleRecord(b, d, d, IsCancelled);
  }
}
