/** The accommodation table: per service name, the kept revenue and commission, the bookings,
    the nights and the cancelled bookings of the current and, when given, the comparison records
    (optionally of one service city only); the thirty accommodations with the highest revenue,
    the city list of the city selector, the colour of a cancellation rate and the CSV export. */
module TopAccommodationsTable {
  import opened Values
  import opened Text
  import opened Sequences
  import opened Groups
  import opened Bookings

  /** The per-accommodation accumulator of `calculateStats`. */
  datatype AccommodationTotals = AccommodationTotals(revenue: real, bookings: int, commission: real, nights: int, cancelledBookings: int, city: string)

  /** `if (!booking.serviceName) return`: a booking without a name is not folded. */
  function AccommodationKey(b: Booking): (k: Option<string>)
    ensures k.None? <==> b.serviceName == ""
    ensures k.Some? ==> k.value == b.serviceName
  {
    if b.serviceName == "" then None else Some(b.serviceName)
  }

  /** `booking.serviceCity || 'Unbekannt'`. */
  function CityOrUnknown(b: Booking): (city: string)
    ensures city != ""
    ensures b.serviceCity != "" ==> city == b.serviceCity
  {
    if b.serviceCity == "" then "Unbekannt" else b.serviceCity
  }

  /** The accumulator of a name not seen before: zeros and the city of this first booking. */
  function Fresh(b: Booking): AccommodationTotals
  {
    AccommodationTotals(0.0, 0, 0.0, 0, 0, CityOrUnknown(b))
  }

  /** The accumulator after one more booking. */
  function AddBooking(t: AccommodationTotals, b: Booking): AccommodationTotals
  {
    AccommodationTotals(t.revenue + NetPrice(b), t.bookings + 1, t.commission + NetCommission(b),
      t.nights + Nights(b), t.cancelledBookings + CancelledOne(b), t.city)
  }

  /** The bookings of the selected city, all of them when none is selected. */
  function InCity(bookings: seq<Booking>, selectedCity: string): (r: seq<Booking>)
    ensures forall b :: b in r ==> b in bookings && (selectedCity == "" || b.serviceCity == selectedCity)
  {
    if selectedCity != "" then Filter(bookings, (b: Booking) => b.serviceCity == selectedCity) else bookings
  }

  /** What `calculateStats(bookings)` leaves in its map. */
  function TotalsOf(bookings: seq<Booking>, selectedCity: string): seq<Entry<string, AccommodationTotals>>
  {
    GroupBy(InCity(bookings, selectedCity), AccommodationKey, Fresh, AddBooking)
  }

  /** `calculateStats`: the city filter, then a `forEach` that skips unnamed bookings and stores
      each named one into its accommodation's entry. */
  method CalculateStats(bookings: seq<Booking>, selectedCity: string) returns (stats: seq<Entry<string, AccommodationTotals>>)
    ensures stats == TotalsOf(bookings, selectedCity)
    ensures DistinctKeys(stats)
  {
    var filteredBookings := if selectedCity != "" then Filter(bookings, (b: Booking) => b.serviceCity == selectedCity) else bookings;
    stats := [];
    var i := 0;
    while i < |filteredBookings|
      invariant 0 <= i <= |filteredBookings|
      invariant stats == GroupBy(filteredBookings[..i], AccommodationKey, Fresh, AddBooking)
    {
      var booking := filteredBookings[i];
      if booking.serviceName != "" {
        GroupByStepKeyed(filteredBookings, i, AccommodationKey, Fresh, AddBooking, booking.serviceName);
        var current := Current(stats, booking.serviceName, booking, Fresh);
        stats := Put(stats, booking.serviceName, AddBooking(current, booking));
      } else {
        GroupByStepUnkeyed(filteredBookings, i, AccommodationKey, Fresh, AddBooking);
      }
      i := i + 1;
    }
    assert filteredBookings[..i] == filteredBookings;
    assert filteredBookings == InCity(bookings, selectedCity);
    GroupByDistinct(filteredBookings, AccommodationKey, Fresh, AddBooking);
  }

  /** An accommodation has an entry exactly when some booking of the selected city carries its
      (non-empty) name. The entry counts those bookings and the cancelled ones among them, sums
      their kept revenue and commission and their nights, and carries the city of the first one. */
  lemma TotalsMeaning(bookings: seq<Booking>, selectedCity: string, name: string)
    ensures var g := Group(InCity(bookings, selectedCity), AccommodationKey, name);
      && (forall b :: b in g ==> b in bookings && b.serviceName == name && name != "" && (selectedCity == "" || b.serviceCity == selectedCity))
      && (Find(TotalsOf(bookings, selectedCity), name).None? <==> g == [])
      && (g != [] ==>
            var t := Find(TotalsOf(bookings, selectedCity), name).value;
            && t.bookings == |g|
            && t.revenue == Sum(g, NetPrice)
            && t.commission == Sum(g, NetCommission)
            && t.nights == SumInt(g, Nights)
            && t.cancelledBookings == Count(g, IsCancelled)
            && 0 <= t.cancelledBookings <= t.bookings
            && t.city == CityOrUnknown(g[0]))
  {
    var s := InCity(bookings, selectedCity);
    var g := Group(s, AccommodationKey, name);
    GroupByFind(s, AccommodationKey, Fresh, AddBooking, name);
    if g != [] {
      AccumulateCount(g, Fresh, AddBooking, (t: AccommodationTotals) => t.bookings);
      AccumulateSum(g, Fresh, AddBooking, (t: AccommodationTotals) => t.revenue, NetPrice);
      AccumulateSum(g, Fresh, AddBooking, (t: AccommodationTotals) => t.commission, NetCommission);
      AccumulateSumInt(g, Fresh, AddBooking, (t: AccommodationTotals) => t.nights, Nights);
      AccumulateSumInt(g, Fresh, AddBooking, (t: AccommodationTotals) => t.cancelledBookings, CancelledOne);
      AccumulateFirst(g, Fresh, AddBooking, (t: AccommodationTotals) => t.city, CityOrUnknown);
      CancelledCount(g);
    }
  }

  /** Every stored accumulator has at least one booking and no more cancelled bookings than bookings. */
  lemma TotalsBounds(bookings: seq<Booking>, selectedCity: string)
    ensures forall e :: e in TotalsOf(bookings, selectedCity) ==> 0 <= e.acc.cancelledBookings <= e.acc.bookings && e.acc.bookings >= 1
  {
    GroupByInvariant(InCity(bookings, selectedCity), AccommodationKey, Fresh, AddBooking,
      (t: AccommodationTotals) => 0 <= t.cancelledBookings <= t.bookings && t.bookings >= 1);
  }

  /** With a city selected, every stored accumulator carries that city. */
  lemma TotalsInSelectedCity(bookings: seq<Booking>, selectedCity: string, e: Entry<string, AccommodationTotals>)
    requires selectedCity != ""
    requires e in TotalsOf(bookings, selectedCity)
    ensures e.acc.city == selectedCity
  {
    var s := InCity(bookings, selectedCity);
    var t := TotalsOf(bookings, selectedCity);
    GroupByDistinct(s, AccommodationKey, Fresh, AddBooking);
    FindDistinct(t, e.key, e.acc);
    TotalsMeaning(bookings, selectedCity, e.key);
    var g := Group(s, AccommodationKey, e.key);
    assert g[0] in g;
  }

  // ---------------------------------------------------------------- merge and top 30

  /** A row of the table. The `*Change` fields are declared but never assigned. */
  datatype AccommodationStats = AccommodationStats(
    name: string,
    city: string,
    revenue: real,
    bookings: int,
    commission: real,
    nights: int,
    cancelledBookings: int,
    comparisonRevenue: Option<real>,
    comparisonBookings: Option<int>,
    comparisonCommission: Option<real>,
    comparisonNights: Option<int>,
    comparisonCancelledBookings: Option<int>,
    revenueChange: Option<real>,
    bookingsChange: Option<real>,
    commissionChange: Option<real>,
    nightsChange: Option<real>,
    cancellationRateChange: Option<real>)

  /** The row of one current entry, with the comparison entry of the same name when there is one. */
  function Row(current: Entry<string, AccommodationTotals>, comparison: Option<AccommodationTotals>): AccommodationStats
  {
    var c := current.acc;
    AccommodationStats(current.key, c.city, c.revenue, c.bookings, c.commission, c.nights, c.cancelledBookings,
      if comparison.Some? then Some(comparison.value.revenue) else None,
      if comparison.Some? then Some(comparison.value.bookings) else None,
      if comparison.Some? then Some(comparison.value.commission) else None,
      if comparison.Some? then Some(comparison.value.nights) else None,
      if comparison.Some? then Some(comparison.value.cancelledBookings) else None,
      None, None, None, None, None)
  }

  function RowOf(compStats: seq<Entry<string, AccommodationTotals>>): Entry<string, AccommodationTotals> -> AccommodationStats
  {
    (e: Entry<string, AccommodationTotals>) => Row(e, Find(compStats, e.key))
  }

  /** No change field is ever set. */
  predicate NoChanges(s: AccommodationStats)
  {
    s.revenueChange.None? && s.bookingsChange.None? && s.commissionChange.None? && s.nightsChange.None? && s.cancellationRateChange.None?
  }

  /** The comparison fields of a row for name `k`: all five hold the comparison totals of `k`
      when the comparison map has it, and all five are unset otherwise. */
  predicate ComparedWith(r: AccommodationStats, compStats: seq<Entry<string, AccommodationTotals>>, k: string)
  {
    if k in Keys(compStats) then
      var c := Find(compStats, k).value;
      && r.comparisonRevenue == Some(c.revenue)
      && r.comparisonBookings == Some(c.bookings)
      && r.comparisonCommission == Some(c.commission)
      && r.comparisonNights == Some(c.nights)
      && r.comparisonCancelledBookings == Some(c.cancelledBookings)
    else
      && r.comparisonRevenue.None?
      && r.comparisonBookings.None?
      && r.comparisonCommission.None?
      && r.comparisonNights.None?
      && r.comparisonCancelledBookings.None?
  }

  /** The combined rows: one per current accommodation, in the map's order, carrying its totals;
      the comparison fields are set exactly when the comparison map has the name, and then hold
      its values; no change field is set. */
  function Combined(currentStats: seq<Entry<string, AccommodationTotals>>, compStats: seq<Entry<string, AccommodationTotals>>): (rows: seq<AccommodationStats>)
    ensures |rows| == |currentStats|
    ensures forall i :: 0 <= i < |rows| ==>
      && rows[i].name == currentStats[i].key
      && rows[i].city == currentStats[i].acc.city
      && rows[i].revenue == currentStats[i].acc.revenue
      && rows[i].bookings == currentStats[i].acc.bookings
      && rows[i].commission == currentStats[i].acc.commission
      && rows[i].nights == currentStats[i].acc.nights
      && rows[i].cancelledBookings == currentStats[i].acc.cancelledBookings
    ensures forall i :: 0 <= i < |rows| ==> ComparedWith(rows[i], compStats, currentStats[i].key) && NoChanges(rows[i])
  {
    Map(currentStats, RowOf(compStats))
  }

  /** The merge: `currentStats.forEach` pushes one row per current accommodation. */
  method Merge(currentStats: seq<Entry<string, AccommodationTotals>>, compStats: seq<Entry<string, AccommodationTotals>>) returns (combinedStats: seq<AccommodationStats>)
    ensures combinedStats == Combined(currentStats, compStats)
  {
    combinedStats := [];
    var i := 0;
    while i < |currentStats|
      invariant 0 <= i <= |currentStats|
      invariant combinedStats == Map(currentStats[..i], RowOf(compStats))
    {
      assert currentStats[..i + 1][..i] == currentStats[..i];
      var current := currentStats[i];
      var comparison := Find(compStats, current.key);
      combinedStats := combinedStats + [Row(current, comparison)];
      i := i + 1;
    }
    assert currentStats[..i] == currentStats;
  }

  function Revenue(s: AccommodationStats): real
  {
    s.revenue
  }

  /** The comparison map: empty without comparison records. */
  function ComparisonTotals(comparisonData: Option<seq<Booking>>, selectedCity: string): seq<Entry<string, AccommodationTotals>>
  {
    if comparisonData.Some? then TotalsOf(comparisonData.value, selectedCity) else []
  }

  /** All combined rows before sorting and cutting. */
  function AllRows(data: seq<Booking>, comparisonData: Option<seq<Booking>>, selectedCity: string): seq<AccommodationStats>
  {
    Combined(TotalsOf(data, selectedCity), ComparisonTotals(comparisonData, selectedCity))
  }

  /** `accommodationStats`: the combined rows sorted by revenue, highest first, cut to thirty. */
  function AccommodationStatsOf(data: seq<Booking>, comparisonData: Option<seq<Booking>>, selectedCity: string): seq<AccommodationStats>
  {
    TopBy(AllRows(data, comparisonData, selectedCity), Revenue, 30)
  }

  /** The memo body: both folds, the merge, the sort and the cut. */
  method ComputeAccommodationStats(data: seq<Booking>, comparisonData: Option<seq<Booking>>, selectedCity: string) returns (rows: seq<AccommodationStats>)
    ensures rows == AccommodationStatsOf(data, comparisonData, selectedCity)
  {
    var currentStats := CalculateStats(data, selectedCity);
    var compStats: seq<Entry<string, AccommodationTotals>> := [];
    if comparisonData.Some? {
      compStats := CalculateStats(comparisonData.value, selectedCity);
    }
    var combinedStats := Merge(currentStats, compStats);
    rows := TopBy(combinedStats, Revenue, 30);
  }

  /** The table is sorted by revenue, highest first, holds at most thirty of the combined rows,
      and no row left out has more revenue than a listed one. */
  lemma AccommodationStatsTop(data: seq<Booking>, comparisonData: Option<seq<Booking>>, selectedCity: string)
    ensures var rows := AccommodationStatsOf(data, comparisonData, selectedCity);
      var all := AllRows(data, comparisonData, selectedCity);
      && SortedDesc(rows, Revenue)
      && |rows| == (if |all| <= 30 then |all| else 30)
      && multiset(rows) <= multiset(all)
      && (forall x, y :: x in multiset(all) - multiset(rows) && y in rows ==> Revenue(x) <= Revenue(y))
  {
    TopByProperties(AllRows(data, comparisonData, selectedCity), Revenue, 30);
  }

  /** Every combined row has a name, at least one booking, no more cancelled bookings than
      bookings, no change values, and, with a city selected, that city. */
  lemma CombinedRowFacts(data: seq<Booking>, comparisonData: Option<seq<Booking>>, selectedCity: string, i: int)
    requires 0 <= i < |AllRows(data, comparisonData, selectedCity)|
    ensures var r := AllRows(data, comparisonData, selectedCity)[i];
      && r.name != ""
      && 0 <= r.cancelledBookings <= r.bookings && r.bookings >= 1
      && NoChanges(r)
      && (selectedCity != "" ==> r.city == selectedCity)
  {
    var current := TotalsOf(data, selectedCity);
    var e := current[i];
    assert e in current;
    TotalsBounds(data, selectedCity);
    assert Keys(current)[i] == e.key;
    assert Find(current, e.key).Some?;
    TotalsMeaning(data, selectedCity, e.key);
    var g := Group(InCity(data, selectedCity), AccommodationKey, e.key);
    assert g != [] && g[0] in g;
    if selectedCity != "" {
      TotalsInSelectedCity(data, selectedCity, e);
    }
  }

  /** Every listed row has a name, at least one booking, no more cancelled bookings than
      bookings, no change values, and, with a city selected, that city. */
  lemma ListedRows(data: seq<Booking>, comparisonData: Option<seq<Booking>>, selectedCity: string)
    ensures forall r :: r in AccommodationStatsOf(data, comparisonData, selectedCity) ==>
      && r.name != ""
      && 0 <= r.cancelledBookings <= r.bookings && r.bookings >= 1
      && NoChanges(r)
      && (selectedCity != "" ==> r.city == selectedCity)
  {
    var all := AllRows(data, comparisonData, selectedCity);
    var rows := AccommodationStatsOf(data, comparisonData, selectedCity);
    TopByProperties(all, Revenue, 30);
    forall r | r in rows
      ensures r.name != "" && 0 <= r.cancelledBookings <= r.bookings && r.bookings >= 1 && NoChanges(r)
      ensures selectedCity != "" ==> r.city == selectedCity
    {
      assert r in multiset(all);
      var i :| 0 <= i < |all| && all[i] == r;
      CombinedRowFacts(data, comparisonData, selectedCity, i);
    }
  }

  /** `filteredAccommodationStats`: the rows of the selected city, all rows when none is selected. */
  function FilteredAccommodationStats(stats: seq<AccommodationStats>, selectedCity: string): seq<AccommodationStats>
  {
    Filter(stats, (s: AccommodationStats) => s.city == selectedCity || selectedCity == "")
  }

  /** The table's rows already belong to the selected city, so the second city filter removes nothing. */
  lemma SecondCityFilterKeepsAll(data: seq<Booking>, comparisonData: Option<seq<Booking>>, selectedCity: string)
    ensures var rows := AccommodationStatsOf(data, comparisonData, selectedCity);
      FilteredAccommodationStats(rows, selectedCity) == rows
  {
    ListedRows(data, comparisonData, selectedCity);
    FilterAll(AccommodationStatsOf(data, comparisonData, selectedCity), (s: AccommodationStats) => s.city == selectedCity || selectedCity == "");
  }

  // ---------------------------------------------------------------- cities and colours

  function ServiceCity(b: Booking): string
  {
    b.serviceCity
  }

  /** `cities`: every non-empty service city is added to a `Set` in a `forEach`, and the set is
      listed and sorted. */
  method Cities(data: seq<Booking>) returns (cities: seq<string>)
    ensures cities == SortedSet(Filter(Map(data, ServiceCity), NonEmpty))
    ensures Sorted(cities) && Distinct(cities)
    ensures forall x :: x in cities <==> x != "" && exists b :: b in data && b.serviceCity == x
  {
    var citySet: seq<string> := [];
    var i := 0;
    while i < |data|
      invariant 0 <= i <= |data|
      invariant citySet == PresentValues(data[..i], ServiceCity)
    {
      PresentValuesStep(data, ServiceCity, i);
      if data[i].serviceCity != "" {
        citySet := AddDistinct(citySet, data[i].serviceCity);
      }
      i := i + 1;
    }
    assert data[..i] == data;
    cities := SortStrings(citySet);
    PresentValuesMembers(data, ServiceCity);
  }

  /** `getCancellationRateColor(rate)`: red from 0.2 on, yellow from 0.1 on, green below. */
  function CancellationRateColor(rate: real): (c: string)
    ensures c == "text-red-600" <==> rate >= 0.2
    ensures c == "text-yellow-600" <==> 0.1 <= rate < 0.2
    ensures c == "text-green-600" <==> rate < 0.1
  {
    if rate >= 0.2 then "text-red-600"
    else if rate >= 0.1 then "text-yellow-600"
    else "text-green-600"
  }

  // ---------------------------------------------------------------- CSV export

  /** The eight columns every export has. */
  const BaseHeaders: seq<string> := ["Rang", "Unterkunft", "Stadt", "Umsatz", "Buchungen", "Provision", "Übernachtungen", "Stornierungen"]

  /** The nine columns added with comparison records. */
  const ComparisonHeaders: seq<string> :=
    ["Umsatz Vorjahr", "Buchungen Vorjahr", "Provision Vorjahr", "Übernachtungen Vorjahr", "Stornierungen Vorjahr",
     "Umsatz Änderung", "Buchungen Änderung", "Provision Änderung", "Übernachtungen Änderung"]

  /** The header of the CSV export: eight columns, seventeen with comparison records. */
  function CsvHeaders(hasComparison: bool): (headers: seq<string>)
    ensures |headers| == if hasComparison then 17 else 8
    ensures headers[..8] == BaseHeaders
    ensures hasComparison ==> headers[8..] == ComparisonHeaders
  {
    BaseHeaders + (if hasComparison then ComparisonHeaders else [])
  }

  /** `value?.toFixed(2) ?? ''`. */
  function OptionalFixed(value: Option<real>): (s: string)
    ensures s == "" <==> value.None?
  {
    if value.Some? then ToFixed(value.value, 2) else ""
  }

  /** `value?.toString() ?? ''`. */
  function OptionalInt(value: Option<int>): (s: string)
    ensures s == "" <==> value.None?
  {
    if value.Some? then IntToString(value.value) else ""
  }

  /** `change ? formatPercentage(change) : ''`, with the locale percentage format as a parameter. */
  function OptionalChange(change: Option<real>, formatPercentage: real -> string): (s: string)
    ensures change.None? || change.value == 0.0 ==> s == ""
  {
    if change.Some? && change.value != 0.0 then formatPercentage(change.value) else ""
  }

  /** The fields of the row at position `index` (rank `index + 1`): rank, name and city, the five
      figures, and with comparison records the five comparison figures, each empty exactly when
      the row has no comparison value, then the four change columns. */
  function CsvFields(stat: AccommodationStats, index: nat, hasComparison: bool, formatPercentage: real -> string): (fields: seq<string>)
    ensures |fields| == |CsvHeaders(hasComparison)|
    ensures fields[0] == NatToString(index + 1) && fields[1] == stat.name && fields[2] == stat.city
    ensures fields[3] == ToFixed(stat.revenue, 2) && fields[4] == IntToString(stat.bookings)
    ensures fields[5] == ToFixed(stat.commission, 2) && fields[6] == IntToString(stat.nights)
    ensures fields[7] == IntToString(stat.cancelledBookings)
    ensures hasComparison ==>
      && (fields[8] == "" <==> stat.comparisonRevenue.None?)
      && (fields[9] == "" <==> stat.comparisonBookings.None?)
      && (fields[10] == "" <==> stat.comparisonCommission.None?)
      && (fields[11] == "" <==> stat.comparisonNights.None?)
      && (fields[12] == "" <==> stat.comparisonCancelledBookings.None?)
    ensures hasComparison ==>
      && (stat.comparisonRevenue.Some? ==> fields[8] == ToFixed(stat.comparisonRevenue.value, 2))
      && (stat.comparisonBookings.Some? ==> fields[9] == IntToString(stat.comparisonBookings.value))
      && (stat.comparisonCommission.Some? ==> fields[10] == ToFixed(stat.comparisonCommission.value, 2))
      && (stat.comparisonNights.Some? ==> fields[11] == IntToString(stat.comparisonNights.value))
      && (stat.comparisonCancelledBookings.Some? ==> fields[12] == IntToString(stat.comparisonCancelledBookings.value))
  {
    [IntToString(index + 1), stat.name, stat.city, ToFixed(stat.revenue, 2), IntToString(stat.bookings),
     ToFixed(stat.commission, 2), IntToString(stat.nights), IntToString(stat.cancelledBookings)] +
    (if hasComparison then
      [OptionalFixed(stat.comparisonRevenue), OptionalInt(stat.comparisonBookings), OptionalFixed(stat.comparisonCommission),
       OptionalInt(stat.comparisonNights), OptionalInt(stat.comparisonCancelledBookings),
       OptionalChange(stat.revenueChange, formatPercentage), OptionalChange(stat.bookingsChange, formatPercentage),
       OptionalChange(stat.commissionChange, formatPercentage), OptionalChange(stat.nightsChange, formatPercentage)]
    else [])
  }

  /** `headers.join(';')`. */
  function HeaderLine(hasComparison: bool): string
  {
    Join(CsvHeaders(hasComparison), ";")
  }

  /** `row.join(';')` of the row at position `index`. */
  function CsvLine(stat: AccommodationStats, index: nat, hasComparison: bool, formatPercentage: real -> string): string
  {
    Join(CsvFields(stat, index, hasComparison, formatPercentage), ";")
  }

  /** The lines of the rows, in table order. */
  function CsvBody(stats: seq<AccommodationStats>, hasComparison: bool, formatPercentage: real -> string): (lines: seq<string>)
    ensures |lines| == |stats|
    ensures forall i :: 0 <= i < |stats| ==> lines[i] == CsvLine(stats[i], i, hasComparison, formatPercentage)
  {
    seq(|stats|, i requires 0 <= i < |stats| => CsvLine(stats[i], i, hasComparison, formatPercentage))
  }

  /** The CSV text: the header line, then one line per row in table order, lines joined by a line
      break. */
  function CsvContent(stats: seq<AccommodationStats>, hasComparison: bool, formatPercentage: real -> string): string
  {
    Join([HeaderLine(hasComparison)] + CsvBody(stats, hasComparison, formatPercentage), "\n")
  }

  /** No field of the row holds the character `c`. */
  predicate FieldsAvoid(stat: AccommodationStats, index: nat, hasComparison: bool, formatPercentage: real -> string, c: char)
  {
    forall j :: 0 <= j < |CsvHeaders(hasComparison)| ==> c !in CsvFields(stat, index, hasComparison, formatPercentage)[j]
  }

  /** No header holds a semicolon or a line break. */
  lemma BaseHeadersPlain()
    ensures forall j :: 0 <= j < 8 ==> ';' !in BaseHeaders[j] && '\n' !in BaseHeaders[j]
  {
  }

  /** Neither a semicolon nor a line break. */
  predicate Plain(h: string)
  {
    ';' !in h && '\n' !in h
  }

  lemma ComparisonHeadersPlain()
    ensures forall j :: 0 <= j < 9 ==> ';' !in ComparisonHeaders[j] && '\n' !in ComparisonHeaders[j]
  {
    PreviousYearHeadersPlain();
    ChangeHeadersPlain();
  }

  lemma PreviousYearHeadersPlain()
    ensures forall j :: 0 <= j < 5 ==> ';' !in ComparisonHeaders[j] && '\n' !in ComparisonHeaders[j]
  {
    assert Plain("Umsatz Vorjahr");
    assert Plain("Buchungen Vorjahr");
    assert Plain("Provision Vorjahr");
    assert Plain("Übernachtungen Vorjahr");
    assert Plain("Stornierungen Vorjahr");
  }

  lemma ChangeHeadersPlain()
    ensures forall j :: 5 <= j < 9 ==> ';' !in ComparisonHeaders[j] && '\n' !in ComparisonHeaders[j]
  {
    assert Plain("Umsatz Änderung");
    assert Plain("Buchungen Änderung");
    assert Plain("Provision Änderung");
    assert Plain("Übernachtungen Änderung");
  }

  /** The header line splits back into the headers and holds no line break. */
  lemma HeaderFields(hasComparison: bool)
    ensures Split(HeaderLine(hasComparison), ';') == CsvHeaders(hasComparison)
    ensures '\n' !in HeaderLine(hasComparison)
  {
    var headers := CsvHeaders(hasComparison);
    BaseHeadersPlain();
    ComparisonHeadersPlain();
    forall j | 0 <= j < |headers| ensures ';' !in headers[j] && '\n' !in headers[j] {
      if j < 8 {
        assert headers[j] == headers[..8][j];
      } else {
        assert headers[j] == headers[8..][j - 8];
      }
    }
    SplitJoin(headers, ';');
    JoinAvoids(headers, ";", '\n');
  }

  /** The numbers are written with digits, a minus sign and a decimal point only, so a row whose
      name and city hold no semicolon or line break, and whose change columns are empty, has no
      field holding one. */
  lemma PlainFields(stat: AccommodationStats, index: nat, hasComparison: bool, formatPercentage: real -> string, c: char)
    requires c == ';' || c == '\n'
    requires c !in stat.name && c !in stat.city
    requires NoChanges(stat)
    ensures FieldsAvoid(stat, index, hasComparison, formatPercentage, c)
  {
    var fields := CsvFields(stat, index, hasComparison, formatPercentage);
    forall j | 0 <= j < |fields| ensures c !in fields[j] {
      if j == 0 || j == 4 || j == 6 || j == 7 {
        IntToStringAvoids([index + 1, 0, 0, 0, stat.bookings, 0, stat.nights, stat.cancelledBookings][j], c);
      } else if j == 3 || j == 5 {
        ToFixedAvoids(if j == 3 then stat.revenue else stat.commission, 2, c);
      } else if j == 8 || j == 10 {
        var v := if j == 8 then stat.comparisonRevenue else stat.comparisonCommission;
        if v.Some? {
          ToFixedAvoids(v.value, 2, c);
        }
      } else if j == 9 || j == 11 || j == 12 {
        var v := if j == 9 then stat.comparisonBookings else if j == 11 then stat.comparisonNights else stat.comparisonCancelledBookings;
        if v.Some? {
          IntToStringAvoids(v.value, c);
        }
      }
    }
  }

  /** When no field holds a semicolon, a row's line splits back into its fields. */
  lemma CsvLineFields(stat: AccommodationStats, index: nat, hasComparison: bool, formatPercentage: real -> string)
    requires FieldsAvoid(stat, index, hasComparison, formatPercentage, ';')
    ensures Split(CsvLine(stat, index, hasComparison, formatPercentage), ';') == CsvFields(stat, index, hasComparison, formatPercentage)
  {
    SplitJoin(CsvFields(stat, index, hasComparison, formatPercentage), ';');
  }

  /** When no field holds a line break, the text splits back into the header line followed by
      one line per row, in table order. */
  lemma CsvContentLines(stats: seq<AccommodationStats>, hasComparison: bool, formatPercentage: real -> string)
    requires forall i :: 0 <= i < |stats| ==> FieldsAvoid(stats[i], i, hasComparison, formatPercentage, '\n')
    ensures Split(CsvContent(stats, hasComparison, formatPercentage), '\n') == [HeaderLine(hasComparison)] + CsvBody(stats, hasComparison, formatPercentage)
    ensures |Split(CsvContent(stats, hasComparison, formatPercentage), '\n')| == |stats| + 1
  {
    var body := CsvBody(stats, hasComparison, formatPercentage);
    var lines := [HeaderLine(hasComparison)] + body;
    assert "\n" == ['\n'];
    HeaderFields(hasComparison);
    BodyLinesAvoid(stats, hasComparison, formatPercentage, body);
    forall i | 0 <= i < |lines| ensures '\n' !in lines[i] {
      if i > 0 {
        assert lines[i] == body[i - 1];
      }
    }
    SplitJoin(lines, '\n');
  }

  /** No row's line holds a line break when none of its fields does. */
  lemma BodyLinesAvoid(stats: seq<AccommodationStats>, hasComparison: bool, formatPercentage: real -> string, body: seq<string>)
    requires forall i :: 0 <= i < |stats| ==> FieldsAvoid(stats[i], i, hasComparison, formatPercentage, '\n')
    requires body == CsvBody(stats, hasComparison, formatPercentage)
    ensures forall i :: 0 <= i < |body| ==> '\n' !in body[i]
  {
    forall i | 0 <= i < |body| ensures '\n' !in body[i] {
      JoinAvoids(CsvFields(stats[i], i, hasComparison, formatPercentage), ";", '\n');
    }
  }

  /** The exported table: when no listed name or city holds a semicolon or a line break, the CSV
      text splits back into the header line and one line per listed row in table order, and each
      line into that row's fields. */
  lemma ExportedTable(data: seq<Booking>, comparisonData: Option<seq<Booking>>, selectedCity: string, formatPercentage: real -> string)
    requires forall r :: r in AccommodationStatsOf(data, comparisonData, selectedCity) ==>
      ';' !in r.name && ';' !in r.city && '\n' !in r.name && '\n' !in r.city
    ensures var rows := FilteredAccommodationStats(AccommodationStatsOf(data, comparisonData, selectedCity), selectedCity);
      var h := comparisonData.Some?;
      && Split(CsvContent(rows, h, formatPercentage), '\n') == [HeaderLine(h)] + CsvBody(rows, h, formatPercentage)
      && (forall i :: 0 <= i < |rows| ==> Split(CsvBody(rows, h, formatPercentage)[i], ';') == CsvFields(rows[i], i, h, formatPercentage))
  {
    var rows := AccommodationStatsOf(data, comparisonData, selectedCity);
    var h := comparisonData.Some?;
    SecondCityFilterKeepsAll(data, comparisonData, selectedCity);
    ListedRows(data, comparisonData, selectedCity);
    forall i | 0 <= i < |rows|
      ensures FieldsAvoid(rows[i], i, h, formatPercentage, '\n')
      ensures Split(CsvBody(rows, h, formatPercentage)[i], ';') == CsvFields(rows[i], i, h, formatPercentage)
    {
      assert rows[i] in rows;
      PlainFields(rows[i], i, h, formatPercentage, '\n');
      PlainFields(rows[i], i, h, formatPercentage, ';');
      CsvLineFields(rows[i], i, h, formatPercentage);
    }
    CsvContentLines(rows, h, formatPercentage);
  }

  /** Since no change field is ever set, the four change columns of every exported row are empty. */
  lemma ChangeColumnsEmpty(stat: AccommodationStats, index: nat, formatPercentage: real -> string)
    requires NoChanges(stat)
    ensures var fields := CsvFields(stat, index, true, formatPercentage);
      fields[13] == "" && fields[14] == "" && fields[15] == "" && fields[16] == ""
  {
  }
}
