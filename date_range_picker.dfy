/** The range-mode filter bar: the region options, the earliest and latest selectable day, and
    the reset control. Its "all regions" entry and its reset write the literal region
    `Alle Regionen`, while the filter engine treats only the empty region as "no restriction". */
module DateRangePicker {
  import opened Values
  import opened Text
  import opened Calendar
  import opened Sequences
  import opened Bookings
  import opened ChartRange
  import opened DashboardLayout

  /** The label of the first option and the region the reset writes. */
  const AllRegions: string := "Alle Regionen"

  /** `regions`: the distinct regions of the records sorted (the empty region included), then
      `unshift('Alle Regionen')` puts the label in front. */
  method RegionOptions(data: seq<Booking>) returns (regions: seq<string>)
    ensures |regions| >= 1 && regions[0] == AllRegions
    ensures Sorted(regions[1..]) && Distinct(regions[1..])
    ensures forall x :: x in regions[1..] <==> exists b :: b in data && b.region == x
  {
    regions := SortedSet(Map(data, Region));
    SortedSetMembers(Map(data, Region));
    forall x ensures x in Map(data, Region) <==> exists b :: b in data && b.region == x {
      if x in Map(data, Region) {
        var i :| 0 <= i < |data| && Map(data, Region)[i] == x;
        assert data[i] in data;
      }
      if b :| b in data && b.region == x {
        var i :| 0 <= i < |data| && data[i] == b;
        assert Map(data, Region)[i] == x;
      }
    }
    regions := [AllRegions] + regions;
    assert regions[1..] == SortedSet(Map(data, Region));
  }

  /** `minDate`: nothing without records, otherwise the start of the day of the earliest arrival:
      midnight of a day some record arrives on, and not after any arrival. */
  function MinDate(data: seq<Booking>): (r: Option<Date>)
    ensures r.None? <==> data == []
    ensures r.Some? ==> r.value.ms == 0
    ensures r.Some? ==> exists b :: b in data && DayNumber(r.value) == DayNumber(b.arrivalDate)
    ensures r.Some? ==> forall b :: b in data ==> Time(r.value) <= Time(b.arrivalDate)
  {
    if data == [] then None
    else
      EarliestDay(data);
      Some(StartOfDay(Earliest(Map(data, Arrival))))
  }

  /** `maxDate`: nothing without records, otherwise the end of the day of the latest arrival:
      the last millisecond of a day some record arrives on, and not before any arrival. */
  function MaxDate(data: seq<Booking>): (r: Option<Date>)
    ensures r.None? <==> data == []
    ensures r.Some? ==> r.value.ms == DayMs - 1
    ensures r.Some? ==> exists b :: b in data && DayNumber(r.value) == DayNumber(b.arrivalDate)
    ensures r.Some? ==> forall b :: b in data ==> Time(b.arrivalDate) <= Time(r.value)
  {
    if data == [] then None
    else
      LatestDay(data);
      Some(EndOfDay(Latest(Map(data, Arrival))))
  }

  /** The earliest arrival lies on the day of some record's arrival and not after any arrival. */
  lemma EarliestDay(data: seq<Booking>)
    requires data != []
    ensures var first := Earliest(Map(data, Arrival));
      && (exists b :: b in data && DayNumber(first) == DayNumber(b.arrivalDate))
      && (forall b :: b in data ==> Time(first) <= Time(b.arrivalDate))
  {
    FullDateRangeBounds(data);
    var first := Earliest(Map(data, Arrival));
    var b :| b in data && first == b.arrivalDate;
    assert DayNumber(first) == DayNumber(b.arrivalDate);
  }

  /** The latest arrival lies on the day of some record's arrival and not before any arrival. */
  lemma LatestDay(data: seq<Booking>)
    requires data != []
    ensures var last := Latest(Map(data, Arrival));
      && (exists b :: b in data && DayNumber(last) == DayNumber(b.arrivalDate))
      && (forall b :: b in data ==> Time(b.arrivalDate) <= Time(last))
  {
    FullDateRangeBounds(data);
    var last := Latest(Map(data, Arrival));
    var b :| b in data && last == b.arrivalDate;
    assert DayNumber(last) == DayNumber(b.arrivalDate);
  }

  /** The selectable days run from midnight of the earliest arrival's day to the last millisecond
      of the latest arrival's day: both bounds lie on the day of some arrival, no arrival falls on
      an earlier day than the minimum or a later day than the maximum, and every arrival lies
      between them; in particular the minimum does not come after the maximum. */
  lemma SelectableDays(data: seq<Booking>)
    requires data != []
    ensures var lo, hi := MinDate(data).value, MaxDate(data).value;
      && lo.ms == 0 && hi.ms == DayMs - 1
      && Time(lo) <= Time(hi)
      && (forall b :: b in data ==> Time(lo) <= Time(b.arrivalDate) <= Time(hi))
      && (forall b :: b in data ==> DayNumber(lo) <= DayNumber(b.arrivalDate) <= DayNumber(hi))
      && (exists b :: b in data && DayNumber(lo) == DayNumber(b.arrivalDate))
      && (exists b :: b in data && DayNumber(hi) == DayNumber(b.arrivalDate))
  {
    var lo, hi := MinDate(data).value, MaxDate(data).value;
    forall b | b in data ensures DayNumber(lo) <= DayNumber(b.arrivalDate) <= DayNumber(hi) {
      TimeOrder(lo, b.arrivalDate);
      TimeOrder(b.arrivalDate, hi);
    }
    assert data[0] in data;
  }

  /** The selection the picker edits: the date range and the region. */
  datatype Selection = Selection(dateRange: DateRange, region: string)

  /** The reset control is shown when a bound is set or the region is not `Alle Regionen`. */
  predicate ShowReset(s: Selection)
  {
    s.dateRange.start.Some? || s.dateRange.end.Some? || s.region != AllRegions
  }

  /** The selection after the reset control: no bounds, region `Alle Regionen`. */
  function Reset(): Selection
  {
    Selection(DateRange(None, None), AllRegions)
  }

  /** The control is shown exactly when the selection differs from what the reset writes. */
  lemma ShowResetUnlessReset(s: Selection)
    ensures ShowReset(s) <==> s != Reset()
  {
  }

  /** The dashboard starts with no bounds and the empty region, which filters nothing, yet the
      reset control is shown. */
  lemma InitialShowsReset(data: seq<Booking>)
    ensures var initial := Selection(DateRange(None, None), "");
      && ShowReset(initial)
      && FilteredData(data, false, 0, None, None, initial.region) == data
  {
    NoRestrictionKeepsAll(data, None, None);
  }

  /** As written, after the reset only records whose region is literally `Alle Regionen` remain:
      one booking from any other region disappears. */
  lemma ResetHidesRecords(data: seq<Booking>, b: Booking)
    requires b.region != AllRegions
    ensures var s := Reset();
      && (forall x :: x in FilteredData(data, false, 0, s.dateRange.start, s.dateRange.end, s.region) ==> x.region == AllRegions)
      && FilteredData([b], false, 0, s.dateRange.start, s.dateRange.end, s.region) == []
  {
    OpenRangeKeeps([b], None, None, AllRegions, b);
  }

  /** The reset as evidently intended: no bounds and the empty region, which the filter engine
      reads as "all regions". */
  function CorrectedReset(): Selection
  {
    Selection(DateRange(None, None), "")
  }

  /** After the corrected reset every record is kept. */
  lemma CorrectedResetKeepsAll(data: seq<Booking>)
    ensures var s := CorrectedReset();
      FilteredData(data, false, 0, s.dateRange.start, s.dateRange.end, s.region) == data
  {
    NoRestrictionKeepsAll(data, None, None);
  }
}
