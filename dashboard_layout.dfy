/** The dashboard's filter engine: the list of regions offered for selection, the "current"
    records (by calendar year of arrival in year-comparison mode, by an inclusive arrival-date
    range otherwise, and in both modes by region) and the comparison records of a second year. */
module DashboardLayout {
  import opened Values
  import opened Text
  import opened Calendar
  import opened Sequences
  import opened Bookings

  function Region(b: Booking): string
  {
    b.region
  }

  // ---------------------------------------------------------------- uniqueRegions

  /** `uniqueRegions`: every non-empty region is added to a `Set` in a `forEach`, and the set is
      listed and sorted. */
  method UniqueRegions(data: seq<Booking>) returns (regions: seq<string>)
    ensures regions == SortedSet(Filter(Map(data, Region), NonEmpty))
    ensures Sorted(regions) && Distinct(regions)
    ensures forall x :: x in regions <==> x != "" && exists b :: b in data && b.region == x
  {
    var seen: seq<string> := [];
    var i := 0;
    while i < |data|
      invariant 0 <= i <= |data|
      invariant seen == PresentValues(data[..i], Region)
    {
      PresentValuesStep(data, Region, i);
      if data[i].region != "" {
        seen := AddDistinct(seen, data[i].region);
      }
      i := i + 1;
    }
    assert data[..i] == data;
    regions := SortStrings(seen);
    PresentValuesMembers(data, Region);
  }

  // ---------------------------------------------------------------- filteredData and comparisonData

  /** The region test: an empty selection imposes none. */
  predicate InRegion(b: Booking, region: string)
  {
    region == "" || b.region == region
  }

  /** The year-mode test: the arrival falls in `year` and the region matches. */
  predicate InYear(b: Booking, year: int, region: string)
  {
    Year(b.arrivalDate) == year && InRegion(b, region)
  }

  /** The range-mode test as it completes: with both bounds set, `isWithinInterval` of the arrival
      in [start of the start day, end of the end day], which throws for an inverted interval;
      without both bounds, only the region test. */
  function RangeTest(b: Booking, start: Option<Date>, end: Option<Date>, region: string): (c: Completion<bool>)
    ensures (start.None? || end.None?) ==> c == Normal(InRegion(b, region))
    ensures start.Some? && end.Some? ==>
      (c.Throws? <==> Time(StartOfDay(start.value)) > Time(EndOfDay(end.value)))
    ensures start.Some? && end.Some? && c.Normal? ==>
      (c.value <==> Time(StartOfDay(start.value)) <= Time(b.arrivalDate) <= Time(EndOfDay(end.value)) && InRegion(b, region))
  {
    if start.Some? && end.Some? then
      match IsWithinInterval(b.arrivalDate, StartOfDay(start.value), EndOfDay(end.value))
      case Throws(reason) => Throws(reason)
      case Normal(isInDateRange) => Normal(isInDateRange && InRegion(b, region))
    else
      Normal(InRegion(b, region))
  }

  /** `try { return test } catch { return false }`: a test that throws rejects the record. */
  predicate Passes(c: Completion<bool>)
  {
    c.Normal? && c.value
  }

  /** The records of `year` in the region, in input order. */
  function YearData(data: seq<Booking>, year: int, region: string): (r: seq<Booking>)
    ensures forall b :: b in r ==> b in data && InYear(b, year, region)
  {
    Filter(data, b => InYear(b, year, region))
  }

  /** The records passing the range-mode test, in input order. */
  function RangeData(data: seq<Booking>, start: Option<Date>, end: Option<Date>, region: string): (r: seq<Booking>)
    ensures forall b :: b in r ==> b in data && Passes(RangeTest(b, start, end, region))
  {
    Filter(data, b => Passes(RangeTest(b, start, end, region)))
  }

  /** `filteredData`. */
  function FilteredData(data: seq<Booking>, isYearComparison: bool, year1: int, start: Option<Date>, end: Option<Date>, region: string): (r: seq<Booking>)
    ensures |r| <= |data|
    ensures isYearComparison ==> forall b :: b in r ==> Year(b.arrivalDate) == year1 && InRegion(b, region)
    ensures !isYearComparison ==> forall b :: b in r ==> InRegion(b, region)
  {
    if isYearComparison then YearData(data, year1, region) else RangeData(data, start, end, region)
  }

  /** `comparisonData`: undefined outside year mode. */
  function ComparisonData(data: seq<Booking>, isYearComparison: bool, year2: int, region: string): (r: Option<seq<Booking>>)
    ensures r.None? <==> !isYearComparison
    ensures r.Some? ==> forall b :: b in r.value ==> b in data && Year(b.arrivalDate) == year2 && InRegion(b, region)
  {
    if isYearComparison then Some(YearData(data, year2, region)) else None
  }

  /** Both selections keep their records in input order. */
  lemma SelectionsAreSubsequences(data: seq<Booking>, isYearComparison: bool, year1: int, year2: int, start: Option<Date>, end: Option<Date>, region: string)
    ensures IsSubsequence(FilteredData(data, isYearComparison, year1, start, end, region), data)
    ensures var c := ComparisonData(data, isYearComparison, year2, region); c.Some? ==> IsSubsequence(c.value, data)
  {
    FilterIsSubsequence(data, b => InYear(b, year1, region));
    FilterIsSubsequence(data, b => Passes(RangeTest(b, start, end, region)));
    FilterIsSubsequence(data, b => InYear(b, year2, region));
  }

  /** In year mode a record is kept exactly when it arrives in the selected year and matches the region. */
  lemma YearModeKeeps(data: seq<Booking>, year: int, start: Option<Date>, end: Option<Date>, region: string, b: Booking)
    requires b in data
    ensures b in FilteredData(data, true, year, start, end, region) <==> Year(b.arrivalDate) == year && (region == "" || b.region == region)
  {
    if InYear(b, year, region) {
      FilterKeeps(data, b => InYear(b, year, region), b);
    }
  }

  /** Unless both bounds are set, the range mode applies only the region test. */
  lemma OpenRangeKeeps(data: seq<Booking>, start: Option<Date>, end: Option<Date>, region: string, b: Booking)
    requires b in data
    requires start.None? || end.None?
    ensures b in FilteredData(data, false, 0, start, end, region) <==> region == "" || b.region == region
  {
    if InRegion(b, region) {
      FilterKeeps(data, b => Passes(RangeTest(b, start, end, region)), b);
    }
  }

  /** With both bounds set, a record is kept exactly when its arrival lies between the start of
      the first day and the end of the last day, both included, and it matches the region. */
  lemma BoundedRangeKeeps(data: seq<Booking>, start: Date, end: Date, region: string, b: Booking)
    requires b in data
    ensures b in FilteredData(data, false, 0, Some(start), Some(end), region) <==>
      Time(StartOfDay(start)) <= Time(b.arrivalDate) <= Time(EndOfDay(end)) && (region == "" || b.region == region)
  {
    var test := RangeTest(b, Some(start), Some(end), region);
    if Time(StartOfDay(start)) <= Time(b.arrivalDate) <= Time(EndOfDay(end)) && InRegion(b, region) {
      assert Passes(test);
      FilterKeeps(data, b => Passes(RangeTest(b, Some(start), Some(end), region)), b);
    }
  }

  /** When the interval is inverted the test throws for every record, and every record is dropped. */
  lemma InvertedRangeDropsAll(data: seq<Booking>, start: Date, end: Date, region: string)
    requires Time(StartOfDay(start)) > Time(EndOfDay(end))
    ensures FilteredData(data, false, 0, Some(start), Some(end), region) == []
  {
    FilterNone(data, b => Passes(RangeTest(b, Some(start), Some(end), region)));
  }

  /** With no region selected and no complete range, every record is kept. */
  lemma NoRestrictionKeepsAll(data: seq<Booking>, start: Option<Date>, end: Option<Date>)
    requires start.None? || end.None?
    ensures FilteredData(data, false, 0, start, end, "") == data
  {
    FilterAll(data, b => Passes(RangeTest(b, start, end, "")));
  }

  /** In year mode the comparison records follow the same rule as the current ones, for the second year. */
  lemma ComparisonKeeps(data: seq<Booking>, year2: int, region: string, b: Booking)
    requires b in data
    ensures b in ComparisonData(data, true, year2, region).value <==> Year(b.arrivalDate) == year2 && (region == "" || b.region == region)
  {
    YearModeKeeps(data, year2, None, None, region, b);
  }
}
