/**
 Date arithmetic of internal/booking/pricing.go. A date is the number of its day, and a parsed date is the
 midnight (UTC) that starts it, so instants are nanosecond counts.
 */
module Pricing {
  import opened Wrappers

  const NANOS_PER_DAY := 86_400_000_000_000
  const MAX_DURATION := 0x7FFF_FFFF_FFFF_FFFF
  const MIN_DURATION := -0x8000_0000_0000_0000
  // The largest distance in days that a duration holds without saturating.
  const MAX_DAYS_APART := 106751

  datatype PriceError = InvalidDateRange

  /** time.Time.Sub: the distance in nanoseconds, clamped to a signed 64-bit duration. */
  function Sub(end: int, start: int): int {
    var d := end - start;
    if d > MAX_DURATION then MAX_DURATION else if d < MIN_DURATION then MIN_DURATION else d
  }

  /** Conversion of a floating-point number to an integer drops the fraction. */
  function Truncate(x: real): int {
    if x >= 0.0 then x.Floor else -((-x).Floor)
  }

  function NightsBetween(start: int, end: int): int {
    var days := Truncate(Sub(end, start) as real / 3_600_000_000_000.0 / 24.0) + 1;
    if days < 1 then 0 else days
  }

  /** A product of two signed 64-bit integers, with wrap-around. */
  function MulInt64(a: int, b: int): int {
    (a * b + 0x8000_0000_0000_0000) % 0x1_0000_0000_0000_0000 - 0x8000_0000_0000_0000
  }

  function CalculateTotalPriceCents(start: int, end: int, pricePerDayCents: int): Result<int, PriceError> {
    if end < start then Err(InvalidDateRange)
    else Ok(MulInt64(NightsBetween(start, end), pricePerDayCents))
  }

  /** The product modulo 2^64, as a signed 64-bit integer. */
  lemma MulInt64Wraps(a: int, b: int)
    ensures MIN_DURATION <= MulInt64(a, b) <= MAX_DURATION
    ensures (MulInt64(a, b) - a * b) % 0x1_0000_0000_0000_0000 == 0
  {
    var x := a * b + 0x8000_0000_0000_0000;
    assert x == x / 0x1_0000_0000_0000_0000 * 0x1_0000_0000_0000_0000 + x % 0x1_0000_0000_0000_0000;
  }

  /** For any two instants in order, not only midnights: whole days between them, and one more. */
  lemma NightsBetweenInstants(start: int, end: int)
    requires start <= end && end - start <= MAX_DURATION
    ensures (NightsBetween(start, end) - 1) * NANOS_PER_DAY <= end - start < NightsBetween(start, end) * NANOS_PER_DAY
  {
    var d := end - start;
    var q := d as real / 3_600_000_000_000.0 / 24.0;
    assert q == d as real / 86_400_000_000_000.0;
    var n := q.Floor;
    assert n as real <= q < n as real + 1.0;
    assert n as real * 86_400_000_000_000.0 <= d as real < (n as real + 1.0) * 86_400_000_000_000.0;
  }

  predicate DatesOverlap(aStart: int, aEnd: int, bStart: int, bEnd: int) {
    !(aEnd < bStart) && !(bEnd < aStart)
  }

  /** The price of the days from `first` to `last`, both given as day numbers. */
  function PriceOfDays(first: int, last: int, pricePerDayCents: int): Result<int, PriceError> {
    CalculateTotalPriceCents(first * NANOS_PER_DAY, last * NANOS_PER_DAY, pricePerDayCents)
  }

  lemma NightsOfDays(first: int, last: int)
    requires first <= last
    ensures NightsBetween(first * NANOS_PER_DAY, last * NANOS_PER_DAY)
         == (if last - first <= MAX_DAYS_APART then last - first else MAX_DAYS_APART) + 1
  {
    var n := last - first;
    var d := Sub(last * NANOS_PER_DAY, first * NANOS_PER_DAY);
    var q := d as real / 3_600_000_000_000.0 / 24.0;
    assert q == d as real / 86_400_000_000_000.0;
    if n <= MAX_DAYS_APART {
      assert d == n * NANOS_PER_DAY;
      assert q == n as real;
    } else {
      assert d == MAX_DURATION;
      assert 106751.0 <= q < 106752.0;
    }
  }

  /** The days a rental is charged for: all of them, until the duration saturates. */
  function ChargedDays(first: int, last: int): int {
    if last - first <= MAX_DAYS_APART then last - first + 1 else MAX_DAYS_APART + 1
  }

  lemma PriceOfChargedDays(first: int, last: int, rate: int)
    requires first <= last
    requires 0 <= rate < 0x1_0000_0000
    ensures PriceOfDays(first, last, rate) == Ok(ChargedDays(first, last) * rate)
    ensures 0 <= ChargedDays(first, last) * rate <= (MAX_DAYS_APART + 1) * rate
  {
    var nights := ChargedDays(first, last);
    NightsOfDays(first, last);
    Monotone(nights, MAX_DAYS_APART + 1, rate);
    Monotone(0, nights, rate);
    assert MulInt64(nights, rate) == nights * rate;
  }

  lemma Monotone(a: int, b: int, rate: int)
    requires a <= b && 0 <= rate
    ensures a * rate <= b * rate
  {
  }

  lemma EqualProducts(a: int, b: int, rate: int)
    ensures a * rate == b * rate <==> a == b || rate == 0
  {
  }

  /**
   For every pair of dates and every price an INT UNSIGNED column can hold: a reversed range is refused; any
   other price fits 64 bits and is days times price exactly when the dates are at most 106751 days apart or the
   gear is free.
   */
  lemma PriceIsDaysTimesRate(first: int, last: int, rate: int)
    requires 0 <= rate < 0x1_0000_0000
    ensures PriceOfDays(first, last, rate).Err? <==> last < first
    ensures first <= last ==> 0 <= PriceOfDays(first, last, rate).value <= (MAX_DAYS_APART + 1) * rate
    ensures first <= last ==>
      (PriceOfDays(first, last, rate) == Ok((last - first + 1) * rate) <==> last - first <= MAX_DAYS_APART || rate == 0)
  {
    if first <= last {
      PriceOfChargedDays(first, last, rate);
      EqualProducts(ChargedDays(first, last), last - first + 1, rate);
    }
  }

  /**
   Splitting a rental into two adjacent ones keeps the total exactly when the whole range does not saturate the
   duration, or the gear is free.
   */
  lemma PriceIsAdditive(first: int, mid: int, last: int, rate: int)
    requires 0 <= rate < 0x1_0000_0000
    requires first <= mid < last
    ensures PriceOfDays(first, mid, rate).Ok? && PriceOfDays(mid + 1, last, rate).Ok? && PriceOfDays(first, last, rate).Ok?
    ensures (PriceOfDays(first, last, rate).value
          == PriceOfDays(first, mid, rate).value + PriceOfDays(mid + 1, last, rate).value)
       <==> last - first <= MAX_DAYS_APART || rate == 0
  {
    var a, b, c := ChargedDays(first, mid), ChargedDays(mid + 1, last), ChargedDays(first, last);
    PriceOfChargedDays(first, mid, rate);
    PriceOfChargedDays(mid + 1, last, rate);
    PriceOfChargedDays(first, last, rate);
    SumOfProducts(a, b, c, rate);
  }

  lemma SumOfProducts(a: int, b: int, c: int, rate: int)
    ensures c * rate == a * rate + b * rate <==> c == a + b || rate == 0
  {
    assert a * rate + b * rate == (a + b) * rate;
    EqualProducts(c, a + b, rate);
  }

  predicate OnDay(day: int, start: int, end: int) {
    start <= day <= end
  }

  /** Two proper ranges overlap, in this predicate, exactly when some day belongs to both. */
  lemma OverlapMeansSharedDay(aStart: int, aEnd: int, bStart: int, bEnd: int)
    ensures DatesOverlap(aStart, aEnd, bStart, bEnd) && aStart <= aEnd && bStart <= bEnd
       <==> exists day :: OnDay(day, aStart, aEnd) && OnDay(day, bStart, bEnd)
  {
    if DatesOverlap(aStart, aEnd, bStart, bEnd) && aStart <= aEnd && bStart <= bEnd {
      var day := if aStart < bStart then bStart else aStart;
      assert OnDay(day, aStart, aEnd) && OnDay(day, bStart, bEnd);
    }
  }
}
