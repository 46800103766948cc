/** The accommodation bar chart: every booking (cancelled ones and those without a name
    included) is added to the group of its service name, each group gets its average revenue
    per booking, and the ten groups ranking highest by the selected metric are shown. */
module TopAccommodationsChart {
  import opened Values
  import opened Sequences
  import opened Groups
  import opened Bookings

  /** The accumulator of one service name. */
  datatype ServiceTotals = ServiceTotals(name: string, revenue: real, bookings: int)

  /** `acc[booking.serviceName]`: every booking has a group, the empty name too. */
  function NameKey(b: Booking): Option<string>
  {
    Some(b.serviceName)
  }

  /** The accumulator created for a name not seen before. */
  function Fresh(b: Booking): ServiceTotals
  {
    ServiceTotals(b.serviceName, 0.0, 0)
  }

  /** The accumulator after one more booking: its full price and one booking. */
  function AddBooking(t: ServiceTotals, b: Booking): ServiceTotals
  {
    t.(revenue := t.revenue + b.totalPrice, bookings := t.bookings + 1)
  }

  /** What the `reduce` leaves in `serviceStats`, in the order the names were first seen. */
  function ServiceStats(data: seq<Booking>): seq<Entry<string, ServiceTotals>>
  {
    GroupBy(data, NameKey, Fresh, AddBooking)
  }

  /** The `reduce`: reads the booking's group (or creates it) and stores it back with the booking added. */
  method GroupByService(data: seq<Booking>) returns (serviceStats: seq<Entry<string, ServiceTotals>>)
    ensures serviceStats == ServiceStats(data)
  {
    serviceStats := [];
    var i := 0;
    while i < |data|
      invariant 0 <= i <= |data|
      invariant serviceStats == GroupBy(data[..i], NameKey, Fresh, AddBooking)
    {
      var booking := data[i];
      assert data[..i + 1][..i] == data[..i] && data[..i + 1][i] == booking;
      var name := booking.serviceName;
      var current := Current(serviceStats, name, booking, Fresh);
      serviceStats := Put(serviceStats, name, AddBooking(current, booking));
      i := i + 1;
    }
    assert data[..i] == data;
  }

  function BookingsOf(t: ServiceTotals): int
  {
    t.bookings
  }

  /** A name has a group exactly when some booking carries it; the group carries the name, counts
      those bookings and sums their full prices, cancelled bookings included. */
  lemma ServiceTotalsMeaning(data: seq<Booking>, name: string)
    ensures var g := Group(data, NameKey, name);
      && (forall b :: b in g <==> b in data && b.serviceName == name)
      && (Find(ServiceStats(data), name).None? <==> g == [])
      && (g != [] ==>
            var t := Find(ServiceStats(data), name).value;
            && t.name == name
            && t.bookings == |g|
            && t.revenue == Sum(g, Price))
  {
    var g := Group(data, NameKey, name);
    GroupByFind(data, NameKey, Fresh, AddBooking, name);
    forall b | b in data && b.serviceName == name ensures b in g {
      GroupHas(data, NameKey, Fresh, AddBooking, b);
    }
    if g != [] {
      AccumulateCount(g, Fresh, AddBooking, BookingsOf);
      AccumulateSum(g, Fresh, AddBooking, (t: ServiceTotals) => t.revenue, Price);
      AccumulateFirst(g, Fresh, AddBooking, (t: ServiceTotals) => t.name, (b: Booking) => b.serviceName);
      assert g[0] in g;
    }
  }

  /** Every booking lands in exactly one group, so the groups' bookings add up to the number of
      bookings (before the cut to ten). */
  lemma BookingsPartition(data: seq<Booking>)
    ensures SumBy(ServiceStats(data), BookingsOf) == |data|
  {
    GroupByCount(data, NameKey, Fresh, AddBooking, BookingsOf);
  }

  /** One bar of the chart. */
  datatype ServicePoint = ServicePoint(name: string, revenue: real, bookings: int, average: Ratio)

  /** `{ ...stat, average: stat.revenue / stat.bookings }`. */
  function PointOf(e: Entry<string, ServiceTotals>): (p: ServicePoint)
    ensures p.name == e.acc.name && p.revenue == e.acc.revenue && p.bookings == e.acc.bookings
    ensures e.acc.bookings > 0 ==> p.average == Finite(e.acc.revenue / e.acc.bookings as real)
  {
    ServicePoint(e.acc.name, e.acc.revenue, e.acc.bookings, Divide(e.acc.revenue, e.acc.bookings as real))
  }

  /** `Object.values(serviceStats).map(...)`. */
  function Points(t: seq<Entry<string, ServiceTotals>>): seq<ServicePoint>
  {
    Map(t, PointOf)
  }

  /** No group is empty, so every average is a finite number: revenue over bookings. */
  lemma AveragesDefined(data: seq<Booking>)
    ensures forall p :: p in Points(ServiceStats(data)) ==>
      p.bookings >= 1 && p.average == Finite(p.revenue / p.bookings as real)
  {
    var t := ServiceStats(data);
    GroupByInvariant(data, NameKey, Fresh, AddBooking, (a: ServiceTotals) => a.bookings >= 1);
    forall p | p in Points(t) ensures p.bookings >= 1 && p.average == Finite(p.revenue / p.bookings as real) {
      var i :| 0 <= i < |t| && Points(t)[i] == p;
      assert t[i] in t;
    }
  }

  /** The chart's metric selector. */
  datatype Metric = Revenue | Bookings | Average

  /** What the comparator of `metric` orders by; an average is always finite (see
      `AveragesDefined`), and the other arm is never taken. */
  function Score(metric: Metric): ServicePoint -> real
  {
    match metric
    case Revenue => (p: ServicePoint) => p.revenue
    case Bookings => (p: ServicePoint) => p.bookings as real
    case Average => (p: ServicePoint) => if p.average.Finite? then p.average.value else 0.0
  }

  /** `chartData`: the points sorted by the metric, highest first, cut to ten. */
  function ChartDataOf(data: seq<Booking>, metric: Metric): seq<ServicePoint>
  {
    TopBy(Points(ServiceStats(data)), Score(metric), 10)
  }

  /** The memo body: the `reduce`, then the average, the sort and the cut. */
  method ComputeChartData(data: seq<Booking>, metric: Metric) returns (chartData: seq<ServicePoint>)
    ensures chartData == ChartDataOf(data, metric)
  {
    var serviceStats := GroupByService(data);
    var processedData := Map(serviceStats, PointOf);
    chartData := TopBy(processedData, Score(metric), 10);
  }

  /** The chart is sorted by the metric, highest first, shows at most ten of the groups (all of
      them when there are no more), no group left out ranks higher than a shown one, and every
      shown bar has at least one booking and a finite average. */
  lemma ChartTop(data: seq<Booking>, metric: Metric)
    ensures var all := Points(ServiceStats(data));
      var chart := ChartDataOf(data, metric);
      && SortedDesc(chart, Score(metric))
      && |chart| == (if |all| <= 10 then |all| else 10)
      && multiset(chart) <= multiset(all)
      && (forall x, y :: x in multiset(all) - multiset(chart) && y in chart ==> Score(metric)(x) <= Score(metric)(y))
      && (forall p :: p in chart ==> p.bookings >= 1 && p.average == Finite(p.revenue / p.bookings as real))
  {
    var all := Points(ServiceStats(data));
    TopByProperties(all, Score(metric), 10);
    AveragesDefined(data);
    forall p | p in ChartDataOf(data, metric) ensures p in all {
      assert p in multiset(ChartDataOf(data, metric));
    }
  }

  /** The chart is empty exactly when there are no bookings. */
  lemma EmptyChart(data: seq<Booking>, metric: Metric)
    ensures ChartDataOf(data, metric) == [] <==> data == []
  {
    if data != [] {
      GroupHas(data, NameKey, Fresh, AddBooking, data[0]);
    }
  }
}
