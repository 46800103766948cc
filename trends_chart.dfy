/** The trends chart: bookings grouped by the start of their booking day (revenue, bookings and
    commission, cancelled bookings included), then one point per calendar day from the first
    to the last such day, with zeros on days without bookings. The source keys its groups by
    the ISO text of the day's start and sorts those texts; texts of one format sort as their
    days do, so the first and last key are the earliest and latest day. */
module TrendsChart {
  import opened Values
  import opened Calendar
  import opened Sequences
  import opened Groups
  import opened Bookings

  datatype DayTotals = DayTotals(revenue: real, bookings: int, commissions: real)

  /** `startOfDay(booking.bookingDate)`: every booking has a day. */
  function DayKey(b: Booking): Option<Date>
  {
    Some(StartOfDay(b.bookingDate))
  }

  function Fresh(b: Booking): DayTotals
  {
    DayTotals(0.0, 0, 0.0)
  }

  /** The day's totals after one more booking, cancelled or not. */
  function AddBooking(t: DayTotals, b: Booking): DayTotals
  {
    DayTotals(t.revenue + b.totalPrice, t.bookings + 1, t.commissions + b.commission)
  }

  /** What the `reduce` leaves in `bookingsByDate`. */
  function BookingsByDate(data: seq<Booking>): seq<Entry<Date, DayTotals>>
  {
    GroupBy(data, DayKey, Fresh, AddBooking)
  }

  /** The `reduce`: reads each booking's day entry (or a fresh one) and stores it back with the booking added. */
  method GroupByDay(data: seq<Booking>) returns (bookingsByDate: seq<Entry<Date, DayTotals>>)
    ensures bookingsByDate == BookingsByDate(data)
  {
    bookingsByDate := [];
    var i := 0;
    while i < |data|
      invariant 0 <= i <= |data|
      invariant bookingsByDate == GroupBy(data[..i], DayKey, Fresh, AddBooking)
    {
      var booking := data[i];
      var date := StartOfDay(booking.bookingDate);
      var current := Current(bookingsByDate, date, booking, Fresh);
      assert Put(bookingsByDate, date, AddBooking(current, booking)) == GroupBy(data[..i + 1], DayKey, Fresh, AddBooking) by {
        assert DayKey(booking) == Some(date);
        GroupByStepKeyed(data, i, DayKey, Fresh, AddBooking, date);
      }
      bookingsByDate := Put(bookingsByDate, date, AddBooking(current, booking));
      i := i + 1;
    }
    assert data[..i] == data;
  }

  function BookingsOf(t: DayTotals): int
  {
    t.bookings
  }

  /** A day has an entry exactly when some booking was made on it; the entry counts that day's
      bookings and sums their full prices and commissions. */
  lemma DayTotalsMeaning(data: seq<Booking>, day: Date)
    ensures var g := Group(data, DayKey, day);
      && (Find(BookingsByDate(data), day).None? <==> g == [])
      && (g != [] ==>
            var t := Find(BookingsByDate(data), day).value;
            && t.bookings == |g|
            && t.revenue == Sum(g, Price)
            && t.commissions == Sum(g, Commission))
  {
    var g := Group(data, DayKey, day);
    GroupByFind(data, DayKey, Fresh, AddBooking, day);
    if g != [] {
      AccumulateCount(g, Fresh, AddBooking, BookingsOf);
      AccumulateSum(g, Fresh, AddBooking, (t: DayTotals) => t.revenue, Price);
      AccumulateSum(g, Fresh, AddBooking, (t: DayTotals) => t.commissions, Commission);
    }
  }

  /** One point of the chart. */
  datatype Point = Point(date: string, revenue: real, bookings: int, commissions: real)

  /** The point of a day: `format(currentDate, 'dd.MM.yyyy')` and the day's totals, or 0 for each
      (`?.revenue ?? 0`) when no booking was made on it. */
  function PointOf(t: seq<Entry<Date, DayTotals>>, d: Date): (p: Point)
    ensures p.date == FormatDate(d)
    ensures p.bookings == Lookup(t, d, BookingsOf)
    ensures Find(t, d).None? ==> p.revenue == 0.0 && p.bookings == 0 && p.commissions == 0.0
    ensures Find(t, d).Some? ==> p.revenue == Find(t, d).value.revenue && p.commissions == Find(t, d).value.commissions
  {
    match Find(t, d)
    case Some(a) => Point(FormatDate(d), a.revenue, a.bookings, a.commissions)
    case None => Point(FormatDate(d), 0.0, 0, 0.0)
  }

  function PointsOf(t: seq<Entry<Date, DayTotals>>): Date -> Point
  {
    (d: Date) => PointOf(t, d)
  }

  /** The days the filling loop visits: `d`, then `addDays(d, 1)` and so on while not after `end`
      (a day past the modelled calendar is after every end). */
  function Days(d: Date, end: Date): (days: seq<Date>)
    ensures Time(d) > Time(end) ==> days == []
    ensures Time(d) <= Time(end) ==> days != [] && days[0] == d
    decreases DayNumber(end) - DayNumber(d) + 1
  {
    if Time(d) > Time(end) then []
    else
      TimeOrder(d, end);
      match NextDay(d)
      case None => [d]
      case Some(next) =>
        TimeOrder(next, end);
        [d] + Days(next, end)
  }

  /** The visited days are consecutive and all at the time of day of the first. */
  lemma {:induction false} DaysConsecutive(d: Date, end: Date)
    ensures forall i :: 0 <= i < |Days(d, end)| ==> DayNumber(Days(d, end)[i]) == DayNumber(d) + i && Days(d, end)[i].ms == d.ms
    decreases DayNumber(end) - DayNumber(d) + 1
  {
    var next := NextDay(d);
    if Time(d) <= Time(end) && next.Some? {
      var n := next.value;
      TimeOrder(d, end);
      DaysConsecutive(n, end);
      var rest := Days(n, end);
      assert Days(d, end) == [d] + rest;
      forall i | 0 < i < |rest| + 1 ensures DayNumber(([d] + rest)[i]) == DayNumber(d) + i && ([d] + rest)[i].ms == d.ms {
        assert ([d] + rest)[i] == rest[i - 1];
        assert DayNumber(rest[i - 1]) == DayNumber(n) + (i - 1) && rest[i - 1].ms == n.ms;
      }
    }
  }

  /** From a day to an end at the same time of day, one day is visited per calendar day. */
  lemma {:induction false} DaysCount(d: Date, end: Date)
    requires d.ms == end.ms && Time(d) <= Time(end)
    ensures |Days(d, end)| == DayNumber(end) - DayNumber(d) + 1
    decreases DayNumber(end) - DayNumber(d) + 1
  {
    TimeOrder(d, end);
    var next := NextDay(d);
    if next.None? {
      DayNumberAtMost(end);
      assert Days(d, end) == [d];
    } else {
      var n := next.value;
      assert Days(d, end) == [d] + Days(n, end);
      TimeOrder(n, end);
      if Time(n) <= Time(end) {
        DaysCount(n, end);
      }
    }
  }

  /** No day is visited twice. */
  lemma DaysDistinct(d: Date, end: Date)
    ensures Distinct(Days(d, end))
  {
    var days := Days(d, end);
    DaysConsecutive(d, end);
    forall i, j | 0 <= i < j < |days| ensures days[i] != days[j] {
      assert DayNumber(days[i]) < DayNumber(days[j]);
    }
  }

  /** Every midnight from a midnight `d` to a midnight `end` is visited. */
  lemma DaysCover(d: Date, end: Date, k: Date)
    requires d.ms == 0 && end.ms == 0 && k.ms == 0
    requires Time(d) <= Time(k) <= Time(end)
    ensures k in Days(d, end)
  {
    TimeOrder(d, k);
    TimeOrder(k, end);
    TimeOrder(d, end);
    DaysCount(d, end);
    var days := Days(d, end);
    var n := DayNumber(k) - DayNumber(d);
    assert 0 <= n < |days|;
    DaysConsecutive(d, end);
    var m := days[n];
    assert m.ms == 0 && DayNumber(m) == DayNumber(k);
    DayNumberInjective(m, k);
    assert m == k;
  }

  /** One step of the visit: a day not after the end is visited, then the days from the next one. */
  lemma DaysStep(d: Date, end: Date)
    requires Time(d) <= Time(end)
    ensures NextDay(d).None? ==> Days(d, end) == [d]
    ensures NextDay(d).Some? ==> Days(d, end) == [d] + Days(NextDay(d).value, end)
  {
  }

  /** The days of a non-empty map: from its earliest to its latest key. */
  function ChartDays(t: seq<Entry<Date, DayTotals>>): seq<Date>
    requires t != []
  {
    Days(Earliest(Keys(t)), Latest(Keys(t)))
  }

  /** `filledData`: nothing without bookings, otherwise the point of every day from the first
      to the last booking day. */
  function ChartDataOf(data: seq<Booking>): seq<Point>
  {
    var t := BookingsByDate(data);
    if t == [] then [] else Map(ChartDays(t), PointsOf(t))
  }

  /** The `while` loop: from `currentDate`, push the point of each day and step to the next
      one, until the day is after `endDate`. */
  method FillDays(bookingsByDate: seq<Entry<Date, DayTotals>>, startDate: Date, endDate: Date) returns (filledData: seq<Point>)
    ensures filledData == Map(Days(startDate, endDate), PointsOf(bookingsByDate))
  {
    filledData := [];
    var currentDate := startDate;
    ghost var visited: seq<Date> := [];
    var more := true;
    while more && Time(currentDate) <= Time(endDate)
      invariant more ==> Days(startDate, endDate) == visited + Days(currentDate, endDate)
      invariant !more ==> Days(startDate, endDate) == visited
      invariant filledData == Map(visited, PointsOf(bookingsByDate))
      decreases if more then |Days(currentDate, endDate)| else 0
    {
      FillStep(startDate, endDate, visited, currentDate);
      MapAppend(visited, currentDate, PointsOf(bookingsByDate));
      var next := NextDay(currentDate);
      filledData := filledData + [PointOf(bookingsByDate, currentDate)];
      visited := visited + [currentDate];
      if next.None? {
        more := false;
      } else {
        currentDate := next.value;
      }
    }
    if more {
      assert visited + [] == visited;
    }
  }

  /** One turn of the filling loop keeps its invariant: the visit goes on from the next day, if
      there is one, and the days left shrink. */
  lemma FillStep(startDate: Date, endDate: Date, visited: seq<Date>, d: Date)
    requires Days(startDate, endDate) == visited + Days(d, endDate)
    requires Time(d) <= Time(endDate)
    ensures NextDay(d).None? ==> Days(startDate, endDate) == visited + [d]
    ensures NextDay(d).Some? ==>
      && Days(startDate, endDate) == (visited + [d]) + Days(NextDay(d).value, endDate)
      && |Days(NextDay(d).value, endDate)| < |Days(d, endDate)|
  {
    DaysStep(d, endDate);
    var next := NextDay(d);
    if next.Some? {
      var rest := Days(next.value, endDate);
      assert Days(d, endDate) == [d] + rest;
      assert visited + ([d] + rest) == (visited + [d]) + rest;
    } else {
      assert Days(d, endDate) == [d];
    }
  }

  /** The memo body: the `reduce`, then the filling loop from the first key to the last. */
  method ComputeChartData(data: seq<Booking>) returns (filledData: seq<Point>)
    ensures filledData == ChartDataOf(data)
  {
    var bookingsByDate := GroupByDay(data);
    filledData := [];
    if |bookingsByDate| > 0 {
      var sortedDates := Keys(bookingsByDate);
      filledData := FillDays(bookingsByDate, Earliest(sortedDates), Latest(sortedDates));
    }
  }

  /** The chart is empty exactly when there are no bookings. */
  lemma EmptyChart(data: seq<Booking>)
    ensures ChartDataOf(data) == [] <==> data == []
  {
    if data != [] {
      var b := data[|data| - 1];
      GroupByKeys(data, DayKey, Fresh, AddBooking, StartOfDay(b.bookingDate));
      assert b in Group(data, DayKey, StartOfDay(b.bookingDate));
      var t := BookingsByDate(data);
      assert Time(Earliest(Keys(t))) <= Time(Latest(Keys(t)));
      assert Earliest(Keys(t)).ms == 0 && Latest(Keys(t)).ms == 0 by {
        KeysAreDays(data);
      }
    }
  }

  /** Every key is the start of some booking's day. */
  lemma KeysAreDays(data: seq<Booking>)
    ensures forall k :: k in Keys(BookingsByDate(data)) ==> k.ms == 0 && exists b :: b in data && StartOfDay(b.bookingDate) == k
  {
    forall k | k in Keys(BookingsByDate(data)) ensures k.ms == 0 && exists b :: b in data && StartOfDay(b.bookingDate) == k {
      GroupByKeys(data, DayKey, Fresh, AddBooking, k);
      var g := Group(data, DayKey, k);
      assert g[0] in g;
    }
  }

  /** The first and the last key of the map of some bookings. */
  function FirstDay(data: seq<Booking>): Date
    requires data != []
  {
    EmptyChart(data);
    Earliest(Keys(BookingsByDate(data)))
  }

  function LastDay(data: seq<Booking>): Date
    requires data != []
  {
    EmptyChart(data);
    Latest(Keys(BookingsByDate(data)))
  }

  /** The chart has one point per day from the first key to the last, in order, each labelled
      with its day. */
  lemma ChartSpan(data: seq<Booking>)
    requires data != []
    ensures var t := BookingsByDate(data);
      t != [] &&
      var days := ChartDays(t);
      && |ChartDataOf(data)| == |days| == DayNumber(LastDay(data)) - DayNumber(FirstDay(data)) + 1
      && (forall i :: 0 <= i < |days| ==>
            DayNumber(days[i]) == DayNumber(FirstDay(data)) + i && ChartDataOf(data)[i].date == FormatDate(days[i]))
  {
    var t := BookingsByDate(data);
    var first, last := FirstDay(data), LastDay(data);
    assert first.ms == 0 && last.ms == 0 && Time(first) <= Time(last) by {
      EmptyChart(data);
      KeysAreDays(data);
    }
    DaysConsecutive(first, last);
    DaysCount(first, last);
    var days := ChartDays(t);
    var points := ChartDataOf(data);
    assert days == Days(first, last) && points == Map(days, PointsOf(t));
    forall i | 0 <= i < |days| ensures points[i].date == FormatDate(days[i]) {
      assert points[i] == PointOf(t, days[i]);
    }
  }

  /** The first key is the day of the earliest booking and the last key the day of the latest:
      every booking falls between them, and some booking falls on each. */
  lemma ChartBounds(data: seq<Booking>)
    requires data != []
    ensures forall b :: b in data ==> DayNumber(FirstDay(data)) <= DayNumber(b.bookingDate) <= DayNumber(LastDay(data))
    ensures exists b :: b in data && DayNumber(b.bookingDate) == DayNumber(FirstDay(data))
    ensures exists b :: b in data && DayNumber(b.bookingDate) == DayNumber(LastDay(data))
  {
    KeysAreDays(data);
    var first := FirstDay(data);
    var last := LastDay(data);
    forall b | b in data ensures DayNumber(first) <= DayNumber(b.bookingDate) <= DayNumber(last) {
      var k := StartOfDay(b.bookingDate);
      GroupHas(data, DayKey, Fresh, AddBooking, b);
      TimeOrder(first, k);
      TimeOrder(k, last);
    }
    var b1 :| b1 in data && StartOfDay(b1.bookingDate) == first;
    var b2 :| b2 in data && StartOfDay(b2.bookingDate) == last;
  }

  /** Every booking is counted on exactly one day of the chart, so the bookings of all points
      add up to the number of bookings. */
  lemma TotalBookings(data: seq<Booking>)
    ensures SumInt(ChartDataOf(data), (p: Point) => p.bookings) == |data|
  {
    var t := BookingsByDate(data);
    GroupByCount(data, DayKey, Fresh, AddBooking, BookingsOf);
    if t == [] {
      assert data == [] by {
        EmptyChart(data);
      }
    } else {
      var days := ChartDays(t);
      var lookup := (d: Date) => Lookup(t, d, BookingsOf);
      assert SumInt(ChartDataOf(data), (p: Point) => p.bookings) == SumInt(days, lookup) by {
        SumIntMap(days, PointsOf(t), (p: Point) => p.bookings, lookup);
      }
      ChartLookups(data, t, lookup);
    }
  }

  /** Summing the bookings looked up on each chart day counts every table entry once. */
  lemma ChartLookups(data: seq<Booking>, t: seq<Entry<Date, DayTotals>>, lookup: Date -> int)
    requires t == BookingsByDate(data) && t != []
    requires forall d :: lookup(d) == Lookup(t, d, BookingsOf)
    ensures SumInt(ChartDays(t), lookup) == SumBy(t, BookingsOf)
  {
    GroupByDistinct(data, DayKey, Fresh, AddBooking);
    DaysDistinct(Earliest(Keys(t)), Latest(Keys(t)));
    KeysInChart(data, t);
    SumLookups(ChartDays(t), t, BookingsOf, lookup);
  }

  /** Every booking day lies on the chart. */
  lemma KeysInChart(data: seq<Booking>, t: seq<Entry<Date, DayTotals>>)
    requires t == BookingsByDate(data) && t != []
    ensures forall i :: 0 <= i < |t| ==> t[i].key in ChartDays(t)
  {
    var first, last := Earliest(Keys(t)), Latest(Keys(t));
    KeysAreDays(data);
    forall i | 0 <= i < |t| ensures t[i].key in ChartDays(t) {
      var k := t[i].key;
      assert k == Keys(t)[i];
      DaysCover(first, last, k);
    }
  }
}
