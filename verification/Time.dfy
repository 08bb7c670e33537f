/** The two time types on the S2 wire, with the machine integers they are held in. */
module Time {

  const I64_MIN: int := -0x8000_0000_0000_0000
  const I64_MAX: int := 0x7FFF_FFFF_FFFF_FFFF
  const U64_MAX: int := 0xFFFF_FFFF_FFFF_FFFF
  const NANOS_PER_SECOND: int := 1_000_000_000
  const NANOS_PER_MILLI: int := 1_000_000

  type I64 = x: int | I64_MIN <= x <= I64_MAX
  type U64 = x: int | 0 <= x <= U64_MAX
  type SubsecondNanos = x: int | 0 <= x < NANOS_PER_SECOND

  /** A span in whole milliseconds. */
  type Duration = U64

  datatype Option<+T> = None | Some(value: T)

  /** Seconds and nanoseconds since the Unix epoch, UTC; the derived order is field by field. */
  datatype Timestamp = Timestamp(secs: I64, nanos: SubsecondNanos) {

    /** The instant as one mathematical number of nanoseconds. */
    ghost function Instant(): int {
      secs * NANOS_PER_SECOND + nanos
    }

    predicate Before(other: Timestamp) {
      secs < other.secs || (secs == other.secs && nanos < other.nanos)
    }

    predicate AtMost(other: Timestamp) {
      this == other || Before(other)
    }
  }

  const UNIX_EPOCH := Timestamp(0, 0)

  function CheckedI64(x: int): (r: Option<I64>) {
    if I64_MIN <= x <= I64_MAX then Some(x) else None
  }

  function CheckedU64(x: int): (r: Option<U64>) {
    if 0 <= x <= U64_MAX then Some(x) else None
  }

  /** The field-by-field order is the order of the instants. */
  lemma {:induction false} OrderIsChronological(a: Timestamp, b: Timestamp)
    ensures a.Before(b) <==> a.Instant() < b.Instant()
    ensures a.AtMost(b) <==> a.Instant() <= b.Instant()
  {
    if a.secs < b.secs {
      assert a.Instant() < (a.secs + 1) * NANOS_PER_SECOND <= b.secs * NANOS_PER_SECOND;
    } else if b.secs < a.secs {
      assert b.Instant() < (b.secs + 1) * NANOS_PER_SECOND <= a.secs * NANOS_PER_SECOND;
    }
  }

  /** Every nanosecond count has one representation as whole seconds and a remainder. */
  ghost predicate Representable(instant: int) {
    I64_MIN <= instant / NANOS_PER_SECOND <= I64_MAX
  }

  /** `t + d`, with the carry handled by hand as the wire type does. */
  function CheckedAdd(t: Timestamp, d: Duration): (r: Option<Timestamp>)
    ensures r.Some? <==> Representable(t.Instant() + d * NANOS_PER_MILLI)
    ensures r.Some? ==> r.value.Instant() == t.Instant() + d * NANOS_PER_MILLI
  {
    var addSecs := d / 1_000;
    var addNanos := (d % 1_000) * 1_000_000;
    var nanos := t.nanos + addNanos;
    var carry := if nanos >= 1_000_000_000 then 1 else 0;
    var rest := if nanos >= 1_000_000_000 then nanos - 1_000_000_000 else nanos;
    assert t.Instant() + d * NANOS_PER_MILLI == (t.secs + addSecs + carry) * NANOS_PER_SECOND + rest;
    match CheckedI64(t.secs + addSecs)
    case None => None
    case Some(s) =>
      match CheckedI64(s + carry)
      case None => None
      case Some(s') => Some(Timestamp(s', rest))
  }

  /** `t - d`, with the borrow handled by hand. */
  function CheckedSub(t: Timestamp, d: Duration): (r: Option<Timestamp>)
    ensures r.Some? <==> Representable(t.Instant() - d * NANOS_PER_MILLI)
    ensures r.Some? ==> r.value.Instant() == t.Instant() - d * NANOS_PER_MILLI
  {
    var subSecs := d / 1_000;
    var subNanos := (d % 1_000) * 1_000_000;
    var borrow := if t.nanos >= subNanos then 0 else 1;
    var rest := if t.nanos >= subNanos then t.nanos - subNanos else t.nanos + 1_000_000_000 - subNanos;
    assert t.Instant() - d * NANOS_PER_MILLI == (t.secs - subSecs - borrow) * NANOS_PER_SECOND + rest;
    match CheckedI64(t.secs - subSecs)
    case None => None
    case Some(s) =>
      match CheckedI64(s - borrow)
      case None => None
      case Some(s') => Some(Timestamp(s', rest))
  }

  /** How long after `earlier` this instant is: the gap rounded down to a millisecond, or
      nothing exactly when the gap is negative or no `Duration` can hold it. */
  function CheckedDurationSince(t: Timestamp, earlier: Timestamp): (r: Option<Duration>)
    ensures r.Some? <==> 0 <= (t.Instant() - earlier.Instant()) / NANOS_PER_MILLI <= U64_MAX
    ensures r.Some? ==> r.value == (t.Instant() - earlier.Instant()) / NANOS_PER_MILLI
  {
    GapInMillis(t, earlier);
    match CheckedI64(t.secs - earlier.secs)
    case None => None
    case Some(secs) =>
      if t.nanos >= earlier.nanos then
        MillisOf(secs, t.nanos - earlier.nanos)
      else
        match CheckedI64(secs - 1)
        case None => None
        case Some(borrowed) => MillisOf(borrowed, t.nanos + 1_000_000_000 - earlier.nanos)
  }

  function MillisOf(secs: I64, nanos: SubsecondNanos): (r: Option<Duration>) {
    if secs < 0 then None
    else
      match CheckedU64(secs * 1_000)
      case None => None
      case Some(ms) => CheckedU64(ms + nanos / 1_000_000)
  }

  ghost function GapSecs(t: Timestamp, earlier: Timestamp): int {
    if t.nanos >= earlier.nanos then t.secs - earlier.secs else t.secs - earlier.secs - 1
  }

  ghost function GapNanos(t: Timestamp, earlier: Timestamp): (n: SubsecondNanos) {
    if t.nanos >= earlier.nanos then t.nanos - earlier.nanos else t.nanos + 1_000_000_000 - earlier.nanos
  }

  lemma {:induction false} GapInMillis(t: Timestamp, earlier: Timestamp)
    ensures (t.Instant() - earlier.Instant()) / NANOS_PER_MILLI
         == GapSecs(t, earlier) * 1_000 + GapNanos(t, earlier) / 1_000_000
  {
    var s, n := GapSecs(t, earlier), GapNanos(t, earlier);
    assert t.Instant() - earlier.Instant() == s * NANOS_PER_SECOND + n;
    assert s * NANOS_PER_SECOND + n == (s * 1_000) * NANOS_PER_MILLI + n;
  }

  function SaturatingDurationSince(t: Timestamp, earlier: Timestamp): (r: Duration) {
    match CheckedDurationSince(t, earlier)
    case Some(d) => d
    case None => 0
  }

  lemma {:induction false} SameInstantSameTimestamp(a: Timestamp, b: Timestamp)
    requires a.Instant() == b.Instant()
    ensures a == b
  {
    OrderIsChronological(a, b);
    OrderIsChronological(b, a);
  }

  lemma {:induction false} WholeMillis(d: int)
    ensures d * NANOS_PER_MILLI / NANOS_PER_MILLI == d
  {
  }

  lemma {:induction false} TimestampIsRepresentable(t: Timestamp)
    ensures Representable(t.Instant())
  {
    assert t.Instant() / NANOS_PER_SECOND == t.secs;
  }

  /** Going forward and back returns, and the span travelled is the span measured. */
  lemma {:induction false} AddThenSubtract(t: Timestamp, d: Duration)
    requires CheckedAdd(t, d).Some?
    ensures CheckedSub(CheckedAdd(t, d).value, d) == Some(t)
    ensures CheckedDurationSince(CheckedAdd(t, d).value, t) == Some(d)
  {
    var later := CheckedAdd(t, d).value;
    WholeMillis(d);
    assert later.Instant() - t.Instant() == d * NANOS_PER_MILLI;
    assert CheckedDurationSince(later, t) == Some(d);
    ReturnsBy(later, t, d);
  }

  lemma {:induction false} ReturnsBy(later: Timestamp, t: Timestamp, d: Duration)
    requires later.Instant() - d * NANOS_PER_MILLI == t.Instant()
    ensures CheckedSub(later, d) == Some(t)
  {
    TimestampIsRepresentable(t);
    var back := CheckedSub(later, d);
    assert back.Some? && back.value.Instant() == t.Instant();
    SameInstantSameTimestamp(back.value, t);
  }

  /** Adding back a measured span lands at most a millisecond short, and never beyond. */
  lemma {:induction false} MeasureThenAdd(t: Timestamp, u: Timestamp)
    requires CheckedDurationSince(u, t).Some?
    ensures var d := CheckedDurationSince(u, t).value;
            CheckedAdd(t, d).Some?
            && CheckedAdd(t, d).value.AtMost(u)
            && u.Instant() - CheckedAdd(t, d).value.Instant() < NANOS_PER_MILLI
  {
    var d := CheckedDurationSince(u, t).value;
    var landed := t.Instant() + d * NANOS_PER_MILLI;
    assert t.Instant() <= landed <= u.Instant() < landed + NANOS_PER_MILLI;
    assert I64_MIN <= t.Instant() / NANOS_PER_SECOND <= landed / NANOS_PER_SECOND;
    assert landed / NANOS_PER_SECOND <= u.Instant() / NANOS_PER_SECOND <= I64_MAX;
    OrderIsChronological(CheckedAdd(t, d).value, u);
  }

  function FromUnixMillis(millis: I64): (t: Timestamp)
    ensures t.Instant() == millis * NANOS_PER_MILLI
  {
    Timestamp(millis / 1_000, (millis % 1_000) * 1_000_000)
  }

  function UnixMillis(t: Timestamp): (r: Option<I64>) {
    match CheckedI64(t.secs * 1_000)
    case None => None
    case Some(ms) => CheckedI64(ms + t.nanos / 1_000_000)
  }

  /** The first whole second whose milliseconds fit in 64 bits. */
  const LOWEST_WHOLE_SECOND_MILLIS: int := -9_223_372_036_854_775_000

  /** Milliseconds survive the trip except in the lowest, partial second, where the
      multiplication overflows although the sum would have fitted. */
  lemma {:induction false} UnixMillisRoundTrip(millis: I64)
    ensures UnixMillis(FromUnixMillis(millis))
         == if millis >= LOWEST_WHOLE_SECOND_MILLIS then Some(millis) else None
  {
    var t := FromUnixMillis(millis);
    assert t.nanos / 1_000_000 == millis % 1_000;
    assert t.secs * 1_000 + millis % 1_000 == millis;
  }
}
