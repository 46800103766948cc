/** The booking record every component works on, as the importer produces it, and the
    per-record quantities several components add up. */
module Bookings {
  import opened Values
  import opened Calendar
  import opened Sequences

  /** One booking. Dates are always present and valid here; money is exact. */
  datatype Booking = Booking(
    bookingCode: string,
    bookingDate: Date,
    bookingTime: string,
    arrivalDate: Date,
    departureDate: Date,
    serviceCity: string,
    serviceName: string,
    serviceRegion: string,
    region: string,
    totalPrice: real,
    adults: int,
    children: int,
    persons: int,
    country: string,
    postalCode: string,
    city: string,
    serviceCountry: string,
    cancelled: bool,
    cancellationDate: Option<Date>,
    commission: real)

  predicate IsCancelled(b: Booking)
  {
    b.cancelled
  }

  /** `booking.cancelled ? 0 : price`: the revenue a booking keeps. */
  function NetPrice(b: Booking): (p: real)
    ensures b.cancelled ==> p == 0.0
    ensures !b.cancelled ==> p == b.totalPrice
  {
    if b.cancelled then 0.0 else b.totalPrice
  }

  /** `booking.cancelled ? 0 : commission`: the commission a booking keeps. */
  function NetCommission(b: Booking): (c: real)
    ensures b.cancelled ==> c == 0.0
    ensures !b.cancelled ==> c == b.commission
  {
    if b.cancelled then 0.0 else b.commission
  }

  function Price(b: Booking): real
  {
    b.totalPrice
  }

  function Commission(b: Booking): real
  {
    b.commission
  }

  /** `differenceInDays(departureDate, arrivalDate)`, not clamped: a departure before the
      arrival gives a negative number. */
  function Nights(b: Booking): int
  {
    DifferenceInDays(b.departureDate, b.arrivalDate)
  }

  /** 1 for a cancelled booking, 0 otherwise. */
  function CancelledOne(b: Booking): (n: int)
    ensures n == (if b.cancelled then 1 else 0)
  {
    if b.cancelled then 1 else 0
  }

  /** Adding one per cancelled booking counts the cancelled bookings, which are at most all of them. */
  lemma {:induction false} CancelledCount(s: seq<Booking>)
    ensures SumInt(s, CancelledOne) == Count(s, IsCancelled)
    ensures 0 <= SumInt(s, CancelledOne) <= |s|
    decreases |s|
  {
    if s != [] {
      CancelledCount(s[..|s| - 1]);
    }
  }
}
