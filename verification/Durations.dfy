/**
 Validated durations at the two boundaries: `std::time::Duration` on the Rust side and
 the PostgreSQL interval, with its CHECK constraints, on the other.
 */
module Durations {
  import opened Rows

  const I64_MAX: int := 0x7FFF_FFFF_FFFF_FFFF
  const U64_MAX: int := 0xFFFF_FFFF_FFFF_FFFF
  const I32_MAX: int := 0x7FFF_FFFF
  const U32_MAX: int := 0xFFFF_FFFF

  /** `std::time::Duration`: whole seconds and the nanoseconds below one second. */
  datatype Duration = Duration(secs: int, nanos: int) {
    predicate Valid() {
      0 <= secs <= U64_MAX && 0 <= nanos < 1_000_000_000
    }

    function AsMicros(): int {
      secs * 1_000_000 + nanos / 1000
    }

    function AsNanos(): int {
      secs * 1_000_000_000 + nanos
    }
  }

  function FromMicros(micros: int): Duration {
    Duration(micros / 1_000_000, micros % 1_000_000 * 1000)
  }

  datatype PgInterval = PgInterval(months: int, days: int, microseconds: int)

  datatype DurationError =
    | Zero
    | PrecisionLoss
    | TooLarge
    | CalendarComponent(months: int, days: int)
    | Negative(microseconds: int)

  datatype Parsed<T> = Accepted(value: T) | Rejected(error: DurationError)

  datatype LeaseDuration = LeaseDuration(micros: int)
  datatype RetryBackoff = RetryBackoff(micros: int)

  // ---------------------------------------------------------------------------
  // Input boundary
  // ---------------------------------------------------------------------------

  function LeaseTryFrom(d: Duration): Parsed<LeaseDuration> {
    if d.nanos % 1000 != 0 then Rejected(PrecisionLoss)
    else if d.AsMicros() > I64_MAX then Rejected(TooLarge)
    else if d.AsMicros() == 0 then Rejected(Zero)
    else Accepted(LeaseDuration(d.AsMicros()))
  }

  function BackoffTryFrom(d: Duration): Parsed<RetryBackoff> {
    if d.nanos % 1000 != 0 then Rejected(PrecisionLoss)
    else if d.AsMicros() > I64_MAX then Rejected(TooLarge)
    else Accepted(RetryBackoff(d.AsMicros()))
  }

  // ---------------------------------------------------------------------------
  // Storage boundary
  // ---------------------------------------------------------------------------

  function FromMicroseconds(micros: int): PgInterval {
    PgInterval(0, 0, micros)
  }

  function LeaseFromPg(iv: PgInterval): Parsed<LeaseDuration> {
    if iv.months != 0 || iv.days != 0 then Rejected(CalendarComponent(iv.months, iv.days))
    else if iv.microseconds < 0 then Rejected(Negative(iv.microseconds))
    else if iv.microseconds == 0 then Rejected(Zero)
    else Accepted(LeaseDuration(iv.microseconds))
  }

  function BackoffFromPg(iv: PgInterval): Parsed<RetryBackoff> {
    if iv.months != 0 || iv.days != 0 then Rejected(CalendarComponent(iv.months, iv.days))
    else if iv.microseconds < 0 then Rejected(Negative(iv.microseconds))
    else Accepted(RetryBackoff(iv.microseconds))
  }

  /** `as_duration`: micros.unsigned_abs() as a Duration. */
  function AsDuration(micros: int): Duration {
    FromMicros(if micros < 0 then -micros else micros)
  }

  /** C division, truncating toward zero, and its remainder. */
  function Quot(a: int, b: int): int
    requires b > 0
  {
    if a >= 0 then a / b else -(-a / b)
  }

  function Rem(a: int, b: int): int
    requires b > 0
  {
    a - b * Quot(a, b)
  }

  /** Interval comparison: a month counts 30 days and a day 24 hours. */
  function Span(iv: PgInterval): int {
    (iv.months * 30 + iv.days) * 86_400_000_000 + iv.microseconds
  }

  /** EXTRACT(YEAR), EXTRACT(MONTH) and EXTRACT(DAY) of an interval are all zero. */
  predicate NoCalendarPart(iv: PgInterval) {
    Quot(iv.months, 12) == 0 && Rem(iv.months, 12) == 0 && iv.days == 0
  }

  predicate LeaseCheck(iv: PgInterval) {
    Span(iv) > 0 && NoCalendarPart(iv)
  }

  predicate BackoffCheck(iv: PgInterval) {
    Span(iv) >= 0 && NoCalendarPart(iv)
  }

  // ---------------------------------------------------------------------------
  // What the boundaries promise
  // ---------------------------------------------------------------------------

  /** Rust's microseconds-to-Duration conversion loses nothing either way. */
  lemma MicrosRoundTrip(d: Duration)
    requires d.Valid()
    ensures d.AsMicros() >= 0
    ensures FromMicros(d.AsMicros()) == d <==> d.nanos % 1000 == 0
  {
    var m := d.nanos / 1000;
    assert d.AsMicros() / 1_000_000 == d.secs && d.AsMicros() % 1_000_000 == m by {
      assert 0 <= m < 1_000_000;
    }
  }

  /**
   A lease is accepted exactly when it is a positive whole number of microseconds that
   fits i64, and then it comes back from the database as the duration that went in.
   */
  lemma LeaseRoundTrip(d: Duration)
    requires d.Valid()
    ensures LeaseTryFrom(d).Accepted? <==>
      d.AsNanos() % 1000 == 0 && 0 < d.AsNanos() <= 9_223_372_036_854_775_807_000
    ensures LeaseTryFrom(d).Accepted? ==>
      var l := LeaseTryFrom(d).value; var iv := FromMicroseconds(l.micros);
      && LeaseCheck(iv) && LeaseFromPg(iv) == Accepted(l)
      && AsDuration(l.micros) == d
      && PolicyCheck(1, l.micros, 0)
  {
    MicrosRoundTrip(d);
    NanosSplit(d);
  }

  lemma BackoffRoundTrip(d: Duration)
    requires d.Valid()
    ensures BackoffTryFrom(d).Accepted? <==>
      d.AsNanos() % 1000 == 0 && d.AsNanos() <= 9_223_372_036_854_775_807_000
    ensures BackoffTryFrom(d).Accepted? ==>
      var b := BackoffTryFrom(d).value; var iv := FromMicroseconds(b.micros);
      && BackoffCheck(iv) && BackoffFromPg(iv) == Accepted(b)
      && AsDuration(b.micros) == d
      && PolicyCheck(1, 1, b.micros)
  {
    MicrosRoundTrip(d);
    NanosSplit(d);
  }

  /** Which duration is refused for which reason, on its way in. */
  lemma RefusedDurations(d: Duration)
    requires d.Valid()
    ensures LeaseTryFrom(d) == Rejected(PrecisionLoss) <==> d.AsNanos() % 1000 != 0
    ensures LeaseTryFrom(d) == Rejected(TooLarge) <==>
      d.AsNanos() % 1000 == 0 && d.AsNanos() > 9_223_372_036_854_775_807_000
    ensures LeaseTryFrom(d) == Rejected(Zero) <==> d.AsNanos() == 0
    ensures BackoffTryFrom(d) == Rejected(PrecisionLoss) <==> d.AsNanos() % 1000 != 0
    ensures BackoffTryFrom(d) == Rejected(TooLarge) <==>
      d.AsNanos() % 1000 == 0 && d.AsNanos() > 9_223_372_036_854_775_807_000
  {
    NanosSplit(d);
    hide Duration.AsNanos, Duration.AsMicros;
  }

  /** Which stored interval is refused for which reason, calendar parts first. */
  lemma RefusedIntervals(iv: PgInterval)
    ensures LeaseFromPg(iv) == Rejected(CalendarComponent(iv.months, iv.days)) <==> iv.months != 0 || iv.days != 0
    ensures iv.months == 0 && iv.days == 0 ==>
      && (LeaseFromPg(iv) == Rejected(Negative(iv.microseconds)) <==> iv.microseconds < 0)
      && (LeaseFromPg(iv) == Rejected(Zero) <==> iv.microseconds == 0)
      && (LeaseFromPg(iv) == Accepted(LeaseDuration(iv.microseconds)) <==> iv.microseconds > 0)
      && (BackoffFromPg(iv) == Rejected(Negative(iv.microseconds)) <==> iv.microseconds < 0)
      && (BackoffFromPg(iv) == Accepted(RetryBackoff(iv.microseconds)) <==> iv.microseconds >= 0)
    ensures BackoffFromPg(iv) == Rejected(CalendarComponent(iv.months, iv.days)) <==> iv.months != 0 || iv.days != 0
  {
  }

  lemma NanosSplit(d: Duration)
    requires d.Valid()
    ensures d.AsNanos() == 1000 * d.AsMicros() + d.nanos % 1000
    ensures d.AsNanos() % 1000 == d.nanos % 1000
  {
    var m, rest := d.nanos / 1000, d.nanos % 1000;
    assert d.AsNanos() == 1000 * (d.secs * 1_000_000 + m) + rest;
    LowDigits(d.AsMicros(), rest);
  }

  lemma LowDigits(high: int, low: int)
    requires 0 <= low < 1000
    ensures (1000 * high + low) % 1000 == low
  {
  }

  /** The CHECK constraints admit exactly the intervals the read boundary accepts. */
  lemma ChecksMatchReaders(iv: PgInterval)
    ensures LeaseCheck(iv) <==> LeaseFromPg(iv).Accepted?
    ensures BackoffCheck(iv) <==> BackoffFromPg(iv).Accepted?
  {
    NoMonths(iv.months);
    hide Quot, Rem;
  }

  lemma NoMonths(months: int)
    ensures Quot(months, 12) == 0 && Rem(months, 12) == 0 <==> months == 0
  {
  }

  // ---------------------------------------------------------------------------
  // MaxAttempts
  // ---------------------------------------------------------------------------

  datatype AttemptsError = NonPositive | AttemptsTooLarge
  datatype MaxAttempts = MaxAttempts(count: int) | NoAttempts(error: AttemptsError)

  function MaxAttemptsTryFrom(v: int): MaxAttempts {
    if v > I32_MAX then NoAttempts(AttemptsTooLarge)
    else if v == 0 then NoAttempts(NonPositive)
    else MaxAttempts(v)
  }

  function MaxAttemptsFromDb(i: int): MaxAttempts {
    if i > 0 then MaxAttempts(i) else NoAttempts(NonPositive)
  }

  /** Every accepted attempt limit is stored and read back as itself and passes its CHECK. */
  lemma MaxAttemptsRoundTrip(v: int)
    requires 0 <= v <= U32_MAX
    ensures MaxAttemptsTryFrom(v).MaxAttempts? <==> 1 <= v <= 2_147_483_647
    ensures MaxAttemptsTryFrom(v) == NoAttempts(NonPositive) <==> v == 0
    ensures MaxAttemptsTryFrom(v).MaxAttempts? ==>
      MaxAttemptsFromDb(MaxAttemptsTryFrom(v).count) == MaxAttempts(v) && PolicyCheck(v, 1, 0)
  {
  }
}
