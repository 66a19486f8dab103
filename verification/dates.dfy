/** Calendar dates and .NET `DateTime` values, and the "yyyy-MM-dd" text form
    that the flight catalog uses for flight dates. */
module Dates {
  import opened Wrappers

  /** A proleptic Gregorian calendar date. */
  datatype Date = Date(year: int, month: int, day: int)

  /** A `DateTime`: a date plus the ticks elapsed since its midnight. */
  datatype DateTime = DateTime(date: Date, timeOfDay: nat)

  /** `default(DateTime)`, i.e. 0001-01-01 00:00:00: the value a builder
      field of type DateTime holds before its setter runs. */
  const MinValue: DateTime := DateTime(Date(1, 1, 1), 0)

  predicate IsLeapYear(y: int) {
    y % 4 == 0 && (y % 100 != 0 || y % 400 == 0)
  }

  function DaysInMonth(y: int, m: int): int
    requires 1 <= m <= 12
  {
    if m == 2 then (if IsLeapYear(y) then 29 else 28)
    else if m == 4 || m == 6 || m == 9 || m == 11 then 30
    else 31
  }

  /** The dates a `DateTime` can represent. */
  predicate IsValidDate(d: Date) {
    && 1 <= d.year <= 9999
    && 1 <= d.month <= 12
    && 1 <= d.day <= DaysInMonth(d.year, d.month)
  }

  /** Strict chronological order on dates. */
  predicate DateBefore(a: Date, b: Date) {
    || a.year < b.year
    || (a.year == b.year && a.month < b.month)
    || (a.year == b.year && a.month == b.month && a.day < b.day)
  }

  /** The `<` operator on `DateTime`. */
  predicate Before(a: DateTime, b: DateTime) {
    DateBefore(a.date, b.date) || (a.date == b.date && a.timeOfDay < b.timeOfDay)
  }

  /** The `DateTime.Date` property: the same day at midnight, the earliest
      instant of that day. */
  function StartOfDay(t: DateTime): (r: DateTime)
    ensures r.date == t.date && !Before(t, r)
    ensures forall u: DateTime | u.date == t.date :: !Before(u, r)
  {
    DateTime(t.date, 0)
  }

  /** Comparing an instant with a midnight is comparing their dates: an
      instant is before the start of `now`'s day exactly when its date is an
      earlier date, so anything on `now`'s own date is not before it. */
  lemma BeforeStartOfDayIsEarlierDate(t: DateTime, now: DateTime)
    ensures Before(t, StartOfDay(now)) <==> DateBefore(t.date, now.date)
  {
  }

  lemma DateBeforeIsStrictOrder(a: Date, b: Date, c: Date)
    ensures !DateBefore(a, a)
    ensures DateBefore(a, b) ==> !DateBefore(b, a)
    ensures DateBefore(a, b) && DateBefore(b, c) ==> DateBefore(a, c)
    ensures a != b ==> DateBefore(a, b) || DateBefore(b, a)
  {
  }

  // ---------------------------------------------------------------------
  // The "yyyy-MM-dd" text form.

  predicate IsDigit(c: char) {
    '0' <= c <= '9'
  }

  function DigitValue(c: char): (n: nat)
    requires IsDigit(c)
    ensures n < 10
  {
    (c as int - '0' as int) as nat
  }

  function DigitChar(n: nat): (c: char)
    requires n < 10
    ensures IsDigit(c) && DigitValue(c) == n
  {
    ('0' as int + n) as char
  }

  lemma DigitCharOfValue(c: char)
    requires IsDigit(c)
    ensures DigitChar(DigitValue(c)) == c
  {
  }

  /** Two decimal digits, most significant first. */
  function Format2(n: nat): (s: string)
    requires n < 100
    ensures |s| == 2 && IsDigit(s[0]) && IsDigit(s[1])
  {
    [DigitChar(n / 10), DigitChar(n % 10)]
  }

  function Parse2(s: string): (r: Option<nat>)
    requires |s| == 2
    ensures r.Some? <==> IsDigit(s[0]) && IsDigit(s[1])
    ensures r.Some? ==> r.value < 100
  {
    if IsDigit(s[0]) && IsDigit(s[1]) then Some(10 * DigitValue(s[0]) + DigitValue(s[1])) else None
  }

  /** Four decimal digits, most significant first. */
  function Format4(n: nat): (s: string)
    requires n < 10000
    ensures |s| == 4
  {
    Format2(n / 100) + Format2(n % 100)
  }

  function Parse4(s: string): (r: Option<nat>)
    requires |s| == 4
    ensures r.Some? ==> r.value < 10000
  {
    match (Parse2(s[..2]), Parse2(s[2..]))
    case (Some(hi), Some(lo)) => Some(100 * hi + lo)
    case _ => None
  }

  lemma {:induction false} Parse2Format2(n: nat)
    requires n < 100
    ensures Parse2(Format2(n)) == Some(n)
  {
    var s := Format2(n);
    assert DigitValue(s[0]) == n / 10 && DigitValue(s[1]) == n % 10;
  }

  lemma {:induction false} Format2Parse2(s: string)
    requires |s| == 2 && Parse2(s).Some?
    ensures Format2(Parse2(s).value) == s
  {
    var hi, lo := DigitValue(s[0]), DigitValue(s[1]);
    var n := 10 * hi + lo;
    assert n / 10 == hi && n % 10 == lo;
    DigitCharOfValue(s[0]);
    DigitCharOfValue(s[1]);
  }

  lemma {:induction false} Parse4Format4(n: nat)
    requires n < 10000
    ensures Parse4(Format4(n)) == Some(n)
  {
    var s := Format4(n);
    assert s[..2] == Format2(n / 100) && s[2..] == Format2(n % 100);
    Parse2Format2(n / 100);
    Parse2Format2(n % 100);
  }

  lemma {:induction false} Format4Parse4(s: string)
    requires |s| == 4 && Parse4(s).Some?
    ensures Format4(Parse4(s).value) == s
  {
    var hi, lo := Parse2(s[..2]).value, Parse2(s[2..]).value;
    var n := 100 * hi + lo;
    assert n / 100 == hi && n % 100 == lo;
    Format2Parse2(s[..2]);
    Format2Parse2(s[2..]);
    assert s == s[..2] + s[2..];
  }

  /** The canonical "yyyy-MM-dd" text of a valid date. */
  function FormatIsoDate(d: Date): (s: string)
    requires IsValidDate(d)
    ensures |s| == 10 && s[4] == '-' && s[7] == '-'
  {
    Format4(d.year) + "-" + Format2(d.month) + "-" + Format2(d.day)
  }

  /** `DateTime.Parse`/`TryParse` under the invariant culture, restricted to
      the "yyyy-MM-dd" form: `None` when the text is not such a date (wrong
      shape, non-digits, or a day that does not exist), otherwise the
      midnight at the start of that date. */
  function ParseIsoDate(s: string): (r: Option<DateTime>)
    ensures r.Some? ==> IsValidDate(r.value.date) && r.value.timeOfDay == 0
  {
    if |s| != 10 || s[4] != '-' || s[7] != '-' then None
    else
      match (Parse4(s[..4]), Parse2(s[5..7]), Parse2(s[8..]))
      case (Some(y), Some(m), Some(d)) =>
        if IsValidDate(Date(y, m, d)) then Some(DateTime(Date(y, m, d), 0)) else None
      case _ => None
  }

  /** Formatting then parsing gives back the date, at midnight. */
  lemma {:induction false} ParseFormatRoundTrip(d: Date)
    requires IsValidDate(d)
    ensures ParseIsoDate(FormatIsoDate(d)) == Some(DateTime(d, 0))
  {
    var s := FormatIsoDate(d);
    assert s[..4] == Format4(d.year);
    assert s[5..7] == Format2(d.month);
    assert s[8..] == Format2(d.day);
    Parse4Format4(d.year);
    Parse2Format2(d.month);
    Parse2Format2(d.day);
  }

  /** Every text the parser accepts is the canonical text of its date, so
      two different texts never denote the same date. */
  lemma {:induction false} FormatParseRoundTrip(s: string)
    requires ParseIsoDate(s).Some?
    ensures FormatIsoDate(ParseIsoDate(s).value.date) == s
  {
    Format4Parse4(s[..4]);
    Format2Parse2(s[5..7]);
    Format2Parse2(s[8..]);
    assert s == s[..4] + [s[4]] + s[5..7] + [s[7]] + s[8..];
  }
}
