/** The city table: per service city (or "Unbekannt"), the kept revenue and commission, the
    number of bookings and of cancelled bookings, for the current and, when given, the comparison
    records; the thirty cities with the highest revenue. */
module TopCitiesTable {
  import opened Values
  import opened Sequences
  import opened Groups
  import opened Bookings

  /** The per-city accumulator of `calculateStats`. */
  datatype CityTotals = CityTotals(revenue: real, bookings: int, commission: real, nights: int, cancelledBookings: int)

  /** `booking.serviceCity || 'Unbekannt'`: every record has a city key. */
  function CityName(b: Booking): (name: string)
    ensures name != ""
    ensures b.serviceCity != "" ==> name == b.serviceCity
  {
    if b.serviceCity == "" then "Unbekannt" else b.serviceCity
  }

  function CityKey(b: Booking): Option<string>
  {
    Some(CityName(b))
  }

  /** The accumulator of a city not seen before. */
  function Fresh(b: Booking): CityTotals
  {
    CityTotals(0.0, 0, 0.0, 0, 0)
  }

  /** The accumulator after one more booking: nights is carried over unchanged. */
  function AddBooking(t: CityTotals, b: Booking): CityTotals
  {
    CityTotals(t.revenue + NetPrice(b), t.bookings + 1, t.commission + NetCommission(b), t.nights, t.cancelledBookings + CancelledOne(b))
  }

  /** What `calculateStats(bookings)` leaves in its map. */
  function CityTotalsOf(bookings: seq<Booking>): seq<Entry<string, CityTotals>>
  {
    GroupBy(bookings, CityKey, Fresh, AddBooking)
  }

  /** `calculateStats`: a `forEach` that reads each booking's city entry (or a fresh one) and
      stores it back with the booking added. */
  method CalculateStats(bookings: seq<Booking>) returns (stats: seq<Entry<string, CityTotals>>)
    ensures stats == CityTotalsOf(bookings)
    ensures DistinctKeys(stats)
  {
    stats := [];
    var i := 0;
    while i < |bookings|
      invariant 0 <= i <= |bookings|
      invariant stats == GroupBy(bookings[..i], CityKey, Fresh, AddBooking)
    {
      var booking := bookings[i];
      assert bookings[..i + 1][..i] == bookings[..i] && bookings[..i + 1][i] == booking;
      var cityName := CityName(booking);
      var current := Current(stats, cityName, booking, Fresh);
      stats := Put(stats, cityName, AddBooking(current, booking));
      i := i + 1;
    }
    assert bookings[..i] == bookings;
    GroupByDistinct(bookings, CityKey, Fresh, AddBooking);
  }

  /** A city has an entry exactly when some booking falls under it, and its entry counts that
      city's bookings and cancelled bookings and sums their kept revenue and commission. */
  lemma CityTotalsMeaning(bookings: seq<Booking>, name: string)
    ensures var g := Group(bookings, CityKey, name);
      && (Find(CityTotalsOf(bookings), name).None? <==> g == [])
      && (g != [] ==>
            var t := Find(CityTotalsOf(bookings), name).value;
            && t.bookings == |g|
            && t.revenue == Sum(g, NetPrice)
            && t.commission == Sum(g, NetCommission)
            && t.cancelledBookings == Count(g, IsCancelled)
            && 0 <= t.cancelledBookings <= t.bookings)
  {
    var g := Group(bookings, CityKey, name);
    GroupByFind(bookings, CityKey, Fresh, AddBooking, name);
    if g != [] {
      AccumulateCount(g, Fresh, AddBooking, (t: CityTotals) => t.bookings);
      AccumulateSum(g, Fresh, AddBooking, (t: CityTotals) => t.revenue, NetPrice);
      AccumulateSum(g, Fresh, AddBooking, (t: CityTotals) => t.commission, NetCommission);
      AccumulateSumInt(g, Fresh, AddBooking, (t: CityTotals) => t.cancelledBookings, CancelledOne);
      CancelledCount(g);
    }
  }

  /** Every booking falls under some city, so the cities' booking counts add up to the number of bookings. */
  lemma BookingsPartition(bookings: seq<Booking>)
    ensures SumBy(CityTotalsOf(bookings), (t: CityTotals) => t.bookings) == |bookings|
  {
    GroupByCount(bookings, CityKey, Fresh, AddBooking, (t: CityTotals) => t.bookings);
  }

  /** Nights are never added to, so every city reports zero nights. */
  lemma NightsStayZero(bookings: seq<Booking>)
    ensures forall e :: e in CityTotalsOf(bookings) ==> e.acc.nights == 0
  {
    GroupByInvariant(bookings, CityKey, Fresh, AddBooking, (t: CityTotals) => t.nights == 0);
  }

  // ---------------------------------------------------------------- merge and top 30

  /** A row of the table. */
  datatype CityStats = CityStats(
    name: string,
    revenue: real,
    bookings: int,
    commission: real,
    nights: int,
    cancelledBookings: int,
    comparisonRevenue: Option<real>,
    comparisonBookings: Option<int>,
    comparisonCommission: Option<real>,
    comparisonNights: Option<int>,
    comparisonCancelledBookings: Option<int>)

  /** The row of one current entry, with the comparison entry of the same name when there is one. */
  function Row(current: Entry<string, CityTotals>, comparison: Option<CityTotals>): CityStats
  {
    var c := current.acc;
    CityStats(current.key, c.revenue, c.bookings, c.commission, c.nights, c.cancelledBookings,
      if comparison.Some? then Some(comparison.value.revenue) else None,
      if comparison.Some? then Some(comparison.value.bookings) else None,
      if comparison.Some? then Some(comparison.value.commission) else None,
      if comparison.Some? then Some(comparison.value.nights) else None,
      if comparison.Some? then Some(comparison.value.cancelledBookings) else None)
  }

  function RowOf(compStats: seq<Entry<string, CityTotals>>): Entry<string, CityTotals> -> CityStats
  {
    (e: Entry<string, CityTotals>) => Row(e, Find(compStats, e.key))
  }

  /** The comparison fields of a row for city `k`: all five hold the comparison totals of `k` when
      the comparison map has it, and all five are unset otherwise. */
  predicate ComparedWith(r: CityStats, compStats: seq<Entry<string, CityTotals>>, k: string)
  {
    if k in Keys(compStats) then
      var c := Find(compStats, k).value;
      && r.comparisonRevenue == Some(c.revenue)
      && r.comparisonBookings == Some(c.bookings)
      && r.comparisonCommission == Some(c.commission)
      && r.comparisonNights == Some(c.nights)
      && r.comparisonCancelledBookings == Some(c.cancelledBookings)
    else
      && r.comparisonRevenue.None?
      && r.comparisonBookings.None?
      && r.comparisonCommission.None?
      && r.comparisonNights.None?
      && r.comparisonCancelledBookings.None?
  }

  /** The combined rows: one per current city, in the map's order, carrying its totals; the
      comparison fields are set exactly when the comparison map has the city, and then hold its
      values. */
  function Combined(currentStats: seq<Entry<string, CityTotals>>, compStats: seq<Entry<string, CityTotals>>): (rows: seq<CityStats>)
    ensures |rows| == |currentStats|
    ensures forall i :: 0 <= i < |rows| ==>
      && rows[i].name == currentStats[i].key
      && rows[i].revenue == currentStats[i].acc.revenue
      && rows[i].bookings == currentStats[i].acc.bookings
      && rows[i].commission == currentStats[i].acc.commission
      && rows[i].nights == currentStats[i].acc.nights
      && rows[i].cancelledBookings == currentStats[i].acc.cancelledBookings
    ensures forall i :: 0 <= i < |rows| ==> ComparedWith(rows[i], compStats, currentStats[i].key)
  {
    Map(currentStats, RowOf(compStats))
  }

  /** The merge: `currentStats.forEach` pushes one row per current city. */
  method Merge(currentStats: seq<Entry<string, CityTotals>>, compStats: seq<Entry<string, CityTotals>>) returns (combinedStats: seq<CityStats>)
    ensures combinedStats == Combined(currentStats, compStats)
  {
    combinedStats := [];
    var i := 0;
    while i < |currentStats|
      invariant 0 <= i <= |currentStats|
      invariant combinedStats == Map(currentStats[..i], RowOf(compStats))
    {
      assert currentStats[..i + 1][..i] == currentStats[..i];
      var current := currentStats[i];
      var comparison := Find(compStats, current.key);
      combinedStats := combinedStats + [Row(current, comparison)];
      i := i + 1;
    }
    assert currentStats[..i] == currentStats;
  }

  function Revenue(s: CityStats): real
  {
    s.revenue
  }

  /** The comparison map: empty without comparison records. */
  function ComparisonTotals(comparisonData: Option<seq<Booking>>): seq<Entry<string, CityTotals>>
  {
    if comparisonData.Some? then CityTotalsOf(comparisonData.value) else []
  }

  /** All combined rows before sorting and cutting. */
  function AllRows(data: seq<Booking>, comparisonData: Option<seq<Booking>>): seq<CityStats>
  {
    Combined(CityTotalsOf(data), ComparisonTotals(comparisonData))
  }

  /** `cityStats`: the combined rows sorted by revenue, highest first, cut to thirty. */
  function CityStatsOf(data: seq<Booking>, comparisonData: Option<seq<Booking>>): seq<CityStats>
  {
    TopBy(AllRows(data, comparisonData), Revenue, 30)
  }

  /** The memo body: both folds, the merge, the sort and the cut. */
  method ComputeCityStats(data: seq<Booking>, comparisonData: Option<seq<Booking>>) returns (rows: seq<CityStats>)
    ensures rows == CityStatsOf(data, comparisonData)
  {
    var currentStats := CalculateStats(data);
    var compStats: seq<Entry<string, CityTotals>> := [];
    if comparisonData.Some? {
      compStats := CalculateStats(comparisonData.value);
    }
    var combinedStats := Merge(currentStats, compStats);
    rows := TopBy(combinedStats, Revenue, 30);
  }

  /** The table is sorted by revenue, highest first, holds at most thirty rows, each one a
      combined row, and no row left out has more revenue than a listed one. */
  lemma CityStatsTop(data: seq<Booking>, comparisonData: Option<seq<Booking>>)
    ensures var rows := CityStatsOf(data, comparisonData);
      var all := AllRows(data, comparisonData);
      && SortedDesc(rows, Revenue)
      && |rows| == (if |all| <= 30 then |all| else 30)
      && multiset(rows) <= multiset(all)
      && (forall x, y :: x in multiset(all) - multiset(rows) && y in rows ==> Revenue(x) <= Revenue(y))
  {
    TopByProperties(AllRows(data, comparisonData), Revenue, 30);
  }

  /** Without comparison records no row has comparison values. */
  lemma NoComparisonNoValues(data: seq<Booking>)
    ensures forall r :: r in CityStatsOf(data, None) ==>
      && r.comparisonRevenue.None?
      && r.comparisonBookings.None?
      && r.comparisonCommission.None?
      && r.comparisonNights.None?
      && r.comparisonCancelledBookings.None?
  {
    var all := AllRows(data, None);
    TopByProperties(all, Revenue, 30);
    forall r | r in CityStatsOf(data, None) ensures ComparedWith(r, [], r.name) {
      assert r in multiset(all);
      var i :| 0 <= i < |all| && all[i] == r;
    }
  }
}
