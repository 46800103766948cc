/** The year comparison table: twelve month buckets keyed '01' to '12', filled from the records by
    arrival month (revenue and commission of every record, cancelled ones included), then a pass
    that turns each month's cancelled count into a percentage; and the change label of a pair of
    monthly values. */
module YearComparisonTable {
  import opened Values
  import opened Text
  import opened Calendar
  import opened Sequences
  import opened Groups
  import opened Bookings
  import Change

  /** One month's bucket. Until the rate pass, `cancellationRate` holds the cancelled count. */
  datatype MonthlyStats = MonthlyStats(revenue: real, commission: real, bookings: int, nights: int, cancellationRate: real)

  const Zero: MonthlyStats := MonthlyStats(0.0, 0.0, 0, 0, 0.0)

  /** The bucket after one more booking of its month. */
  function Add(s: MonthlyStats, b: Booking): MonthlyStats
  {
    MonthlyStats(s.revenue + b.totalPrice, s.commission + b.commission, s.bookings + 1, s.nights + Nights(b),
      s.cancellationRate + (if b.cancelled then 1.0 else 0.0))
  }

  /** The bucket of `month` (1 to 12) after the fold over `data`. */
  function Tally(data: seq<Booking>, month: int): MonthlyStats
    decreases |data|
  {
    if data == [] then Zero
    else
      var t := Tally(data[..|data| - 1], month);
      if data[|data| - 1].arrivalDate.month == month then Add(t, data[|data| - 1]) else t
  }

  /** The rate pass: `cancelled / bookings * 100` for a month with bookings. */
  function WithRate(s: MonthlyStats): MonthlyStats
  {
    if s.bookings > 0 then s.(cancellationRate := s.cancellationRate / s.bookings as real * 100.0) else s
  }

  /** The final bucket of `month`. */
  function MonthSummary(data: seq<Booking>, month: int): MonthlyStats
  {
    WithRate(Tally(data, month))
  }

  /** The records arriving in `month`. */
  function InMonth(data: seq<Booking>, month: int): seq<Booking>
  {
    Filter(data, (b: Booking) => b.arrivalDate.month == month)
  }

  /** A month's bucket counts the bookings arriving in that month and the cancelled ones among
      them, and sums their full prices and commissions (cancelled ones included) and their nights. */
  lemma {:induction false} TallyMeaning(data: seq<Booking>, month: int)
    ensures var g := InMonth(data, month);
      && Tally(data, month).bookings == |g|
      && Tally(data, month).revenue == Sum(g, Price)
      && Tally(data, month).commission == Sum(g, Commission)
      && Tally(data, month).nights == SumInt(g, Nights)
      && Tally(data, month).cancellationRate == Count(g, IsCancelled) as real
    decreases |data|
  {
    if data != [] {
      var prefix := data[..|data| - 1];
      var last := data[|data| - 1];
      TallyMeaning(prefix, month);
      var g := InMonth(prefix, month);
      assert data[..|data| - 1] == prefix;
      if last.arrivalDate.month == month {
        var g' := g + [last];
        assert InMonth(data, month) == g';
        assert g'[..|g'| - 1] == g && g'[|g'| - 1] == last;
        assert Sum(g', Price) == Sum(g, Price) + last.totalPrice;
        assert Sum(g', Commission) == Sum(g, Commission) + last.commission;
        assert SumInt(g', Nights) == SumInt(g, Nights) + Nights(last);
        assert Count(g', IsCancelled) == Count(g, IsCancelled) + (if last.cancelled then 1 else 0);
      } else {
        assert InMonth(data, month) == g;
      }
    }
  }

  /** The final rate of every month lies between 0 and 100, and is 0 for a month without bookings. */
  lemma RateBounds(data: seq<Booking>, month: int)
    ensures 0.0 <= MonthSummary(data, month).cancellationRate <= 100.0
    ensures MonthSummary(data, month).bookings == 0 ==> MonthSummary(data, month).cancellationRate == 0.0
  {
    var g := InMonth(data, month);
    TallyMeaning(data, month);
    CountFilter(g, IsCancelled);
    var t := Tally(data, month);
    if t.bookings > 0 {
      PercentageBounds(t.cancellationRate, t.bookings as real);
    }
  }

  /** The bookings of months 1 to k. */
  function BookingsUpTo(data: seq<Booking>, k: nat): int
  {
    if k == 0 then 0 else BookingsUpTo(data, k - 1) + Tally(data, k).bookings
  }

  lemma {:induction false} NoBookingsUpTo(data: seq<Booking>, k: nat)
    requires data == []
    ensures BookingsUpTo(data, k) == 0
  {
    if k > 0 {
      NoBookingsUpTo(data, k - 1);
    }
  }

  lemma {:induction false} BookingsUpToStep(data: seq<Booking>, k: nat)
    requires data != []
    ensures var m := data[|data| - 1].arrivalDate.month;
      BookingsUpTo(data, k) == BookingsUpTo(data[..|data| - 1], k) + (if 1 <= m <= k then 1 else 0)
  {
    if k > 0 {
      BookingsUpToStep(data, k - 1);
    }
  }

  /** Every record lands in exactly one of the twelve months, so the months' bookings add up to
      the number of records. */
  lemma {:induction false} BookingsPartition(data: seq<Booking>)
    ensures BookingsUpTo(data, 12) == |data|
    decreases |data|
  {
    if data != [] {
      var prefix := data[..|data| - 1];
      BookingsPartition(prefix);
      BookingsUpToStep(data, 12);
      assert ValidDateTime(data[|data| - 1].arrivalDate);
      assert BookingsUpTo(data, 12) == BookingsUpTo(prefix, 12) + 1;
    } else {
      NoBookingsUpTo(data, 12);
    }
  }

  /** `calculateMonthlyStats(data)`: twelve zero buckets under the keys '01'..'12', a `forEach`
      adding each record to the bucket of its arrival month, and a pass over the buckets that
      turns the cancelled count into a rate. */
  method CalculateMonthlyStats(data: seq<Booking>) returns (monthlyStats: seq<Entry<string, MonthlyStats>>)
    ensures Keys(monthlyStats) == MonthKeys
    ensures forall m :: 0 <= m < 12 ==> monthlyStats[m].acc == MonthSummary(data, m + 1)
  {
    var buckets := new MonthlyStats[12];
    var month := 0;
    while month < 12
      invariant 0 <= month <= 12
      invariant forall m :: 0 <= m < month ==> buckets[m] == Zero
    {
      buckets[month] := Zero;
      month := month + 1;
    }

    AddAll(buckets, data);
    ApplyRates(buckets, data);
    monthlyStats := seq(12, m requires 0 <= m < 12 reads buckets => Entry(MonthKeys[m], buckets[m]));
  }

  /** The `forEach` over the records: each one is added to the bucket of its arrival month. */
  method AddAll(buckets: array<MonthlyStats>, data: seq<Booking>)
    requires buckets.Length == 12
    requires forall m :: 0 <= m < 12 ==> buckets[m] == Zero
    modifies buckets
    ensures forall m :: 0 <= m < 12 ==> buckets[m] == Tally(data, m + 1)
  {
    var i := 0;
    while i < |data|
      invariant 0 <= i <= |data|
      invariant forall m :: 0 <= m < 12 ==> buckets[m] == Tally(data[..i], m + 1)
    {
      var booking := data[i];
      ghost var seen := data[..i + 1];
      assert seen[..i] == data[..i] && seen[i] == booking;
      // the bucket under format(arrivalDate, 'MM') is the one at month - 1
      MonthKeyInMonthKeys(booking.arrivalDate);
      var k := booking.arrivalDate.month - 1;
      buckets[k] := Add(buckets[k], booking);
      forall m | 0 <= m < 12 ensures buckets[m] == Tally(seen, m + 1) {
        assert Tally(seen, m + 1) == if m == k then Add(Tally(data[..i], m + 1), booking) else Tally(data[..i], m + 1);
      }
      i := i + 1;
    }
    assert data[..i] == data;
  }

  /** The `forEach` over the buckets: a month with bookings gets its cancelled count turned into a rate. */
  method ApplyRates(buckets: array<MonthlyStats>, data: seq<Booking>)
    requires buckets.Length == 12
    requires forall m :: 0 <= m < 12 ==> buckets[m] == Tally(data, m + 1)
    modifies buckets
    ensures forall m :: 0 <= m < 12 ==> buckets[m] == MonthSummary(data, m + 1)
  {
    var j := 0;
    while j < 12
      invariant 0 <= j <= 12
      invariant forall m :: 0 <= m < j ==> buckets[m] == MonthSummary(data, m + 1)
      invariant forall m :: j <= m < 12 ==> buckets[m] == Tally(data, m + 1)
    {
      if buckets[j].bookings > 0 {
        buckets[j] := buckets[j].(cancellationRate := buckets[j].cancellationRate / buckets[j].bookings as real * 100.0);
      }
      j := j + 1;
    }
  }

  /** `calculateChange(current, previous)` of the table: '-' for a zero previous value, otherwise
      the signed one-decimal percentage change. */
  function CalculateChange(current: real, previous: real): (s: string)
    ensures s == "-" <==> previous == 0.0
    ensures previous != 0.0 ==> s == Change.SignedPercent(Finite(PercentChange(current, previous)))
    ensures previous != 0.0 ==> (s[0] == '+' <==> (previous > 0.0 && current > previous) || (previous < 0.0 && current < previous))
  {
    if previous == 0.0 then "-"
    else
      ChangePercentPositive(current, previous);
      Change.SignedPercent(Finite(PercentChange(current, previous)))
  }
}
