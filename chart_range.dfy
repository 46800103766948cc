/** The date range of the arrivals and commissions charts: each bound of the selected range
    that is not set falls back to the earliest or latest arrival of the records, and a record
    counts in the month of its arrival when the arrival lies in the range (both ends included). */
module ChartRange {
  import opened Values
  import opened Calendar
  import opened Sequences
  import opened Bookings

  /** `{ start: Date | null, end: Date | null }`. */
  datatype DateRange = DateRange(start: Option<Date>, end: Option<Date>)

  function Arrival(b: Booking): Date
  {
    b.arrivalDate
  }

  /** `fullDateRange`: no bounds without records, otherwise the earliest and the latest arrival. */
  function FullDateRange(data: seq<Booking>): (r: DateRange)
    ensures data == [] <==> r.start.None?
    ensures data == [] <==> r.end.None?
  {
    if data == [] then DateRange(None, None)
    else DateRange(Some(Earliest(Map(data, Arrival))), Some(Latest(Map(data, Arrival))))
  }

  /** The full range runs from an arrival of some record to an arrival of some record, and every
      arrival lies in it. */
  lemma FullDateRangeBounds(data: seq<Booking>)
    requires data != []
    ensures var r := FullDateRange(data);
      && (forall b :: b in data ==> Time(r.start.value) <= Time(b.arrivalDate) <= Time(r.end.value))
      && (exists b :: b in data && r.start.value == b.arrivalDate)
      && (exists b :: b in data && r.end.value == b.arrivalDate)
  {
    var dates := Map(data, Arrival);
    forall b | b in data ensures b.arrivalDate in dates {
      var i :| 0 <= i < |data| && data[i] == b;
      assert dates[i] == b.arrivalDate;
    }
    var first := Earliest(dates);
    var last := Latest(dates);
    var i :| 0 <= i < |dates| && dates[i] == first;
    var j :| 0 <= j < |dates| && dates[j] == last;
    assert data[i] in data && data[j] in data;
  }

  /** `effectiveDateRange`: each bound of the selection, or the full range's bound where the
      selection has none. */
  function EffectiveRange(data: seq<Booking>, dateRange: DateRange): (r: DateRange)
    ensures dateRange.start.Some? ==> r.start == dateRange.start
    ensures dateRange.end.Some? ==> r.end == dateRange.end
    ensures dateRange.start.None? ==> r.start == FullDateRange(data).start
    ensures dateRange.end.None? ==> r.end == FullDateRange(data).end
  {
    var full := FullDateRange(data);
    DateRange(if dateRange.start.Some? then dateRange.start else full.start,
              if dateRange.end.Some? then dateRange.end else full.end)
  }

  /** The month bucket of a record: `format(startOfMonth(arrival), 'yyyy-MM')` when the arrival
      lies in [start, end], none otherwise (the start of the month has the month's key). */
  function MonthIn(start: Date, end: Date): Booking -> Option<string>
  {
    (b: Booking) => if Time(start) <= Time(b.arrivalDate) <= Time(end) then Some(YearMonthKey(b.arrivalDate)) else None
  }

  /** The records that the range test lets through. */
  function InRange(start: Date, end: Date): Booking -> bool
  {
    (b: Booking) => Time(start) <= Time(b.arrivalDate) <= Time(end)
  }

  /** A record falls in a month's bucket exactly when the range test lets it through and it
      arrives in that month. */
  lemma MonthInMeaning(start: Date, end: Date, b: Booking, month: string)
    ensures MonthIn(start, end)(b) == Some(month) <==> InRange(start, end)(b) && YearMonthKey(b.arrivalDate) == month
  {
  }

  /** Without a selection, the effective range is the full one, and every record lies in it. */
  lemma OpenRangeCoversAll(data: seq<Booking>)
    requires data != []
    ensures var r := EffectiveRange(data, DateRange(None, None));
      && r.start.Some? && r.end.Some? && Time(r.start.value) <= Time(r.end.value)
      && forall b :: b in data ==> InRange(r.start.value, r.end.value)(b)
  {
    FullDateRangeBounds(data);
    assert data[0] in data;
  }
}
