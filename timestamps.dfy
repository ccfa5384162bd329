/**
 * `parse_iso_8601_string`: `datetime.strptime(s, "%Y-%m-%dT%H:%M:%S.%fZ")`
 * read as a UTC instant.  Instants throughout the model are integers counting
 * microseconds since 1970-01-01T00:00:00Z.
 */
module Timestamps {
  import opened Wrappers
  import opened Text

  const MicrosPerSecond: int := 1_000_000

  datatype DateTime = DateTime(year: nat, month: nat, day: nat,
                               hour: nat, minute: nat, second: nat, microsecond: nat)

  predicate IsLeapYear(y: nat) {
    y % 4 == 0 && (y % 100 != 0 || y % 400 == 0)
  }

  function DaysInMonth(y: nat, m: nat): nat
    requires 1 <= m <= 12
  {
    if m == 2 then (if IsLeapYear(y) then 29 else 28)
    else if m == 4 || m == 6 || m == 9 || m == 11 then 30
    else 31
  }

  /** The field ranges `datetime` accepts (year 1 to 9999, a real day of the month, ...). */
  predicate ValidDateTime(dt: DateTime) {
    && 1 <= dt.year <= 9999
    && 1 <= dt.month <= 12
    && 1 <= dt.day <= DaysInMonth(dt.year, dt.month)
    && dt.hour < 24 && dt.minute < 60 && dt.second < 60
    && dt.microsecond < MicrosPerSecond
  }

  function Pow10(n: nat): (r: nat)
    ensures r >= 1
  {
    if n == 0 then 1 else 10 * Pow10(n - 1)
  }

  /** The text matches `dddd-dd-ddTdd:dd:dd.f+Z` with one to six fraction digits. */
  predicate HasIsoShape(s: string) {
    && 22 <= |s| <= 27
    && AllDigits(s[0..4]) && s[4] == '-'
    && AllDigits(s[5..7]) && s[7] == '-'
    && AllDigits(s[8..10]) && (s[10] == 'T' || s[10] == 't')
    && AllDigits(s[11..13]) && s[13] == ':'
    && AllDigits(s[14..16]) && s[16] == ':'
    && AllDigits(s[17..19]) && s[19] == '.'
    && AllDigits(s[20..|s| - 1]) && (s[|s| - 1] == 'Z' || s[|s| - 1] == 'z')
  }

  /**
   * The fields of a well-shaped text.  `%f` right-pads its digits to six,
   * so ".5" is 500000 microseconds.
   */
  function Fields(s: string): DateTime
    requires HasIsoShape(s)
  {
    var fraction := s[20..|s| - 1];
    DateTime(DecimalValue(s[0..4]), DecimalValue(s[5..7]), DecimalValue(s[8..10]),
             DecimalValue(s[11..13]), DecimalValue(s[14..16]), DecimalValue(s[17..19]),
             DecimalValue(fraction) * Pow10(6 - |fraction|))
  }

  /**
   * `parse_iso_8601_string`: None where Python raises ValueError.  The
   * format matches case-insensitively, needs the whole text, a `.` fraction
   * and the trailing `Z`.
   */
  function ParseIso8601(s: string): (r: Option<DateTime>)
    ensures r.Some? ==> HasIsoShape(s) && ValidDateTime(r.value)
    ensures !HasIsoShape(s) ==> r.None?
  {
    if HasIsoShape(s) && ValidDateTime(Fields(s)) then Some(Fields(s)) else None
  }

  /** `n` written with exactly `width` digits, zero-padded on the left. */
  function PadDecimal(n: nat, width: nat): (r: string)
    ensures |r| == width && AllDigits(r)
  {
    if width == 0 then "" else PadDecimal(n / 10, width - 1) + [DigitChar(n % 10)]
  }

  lemma {:induction false} PadDecimalValue(n: nat, width: nat)
    requires n < Pow10(width)
    ensures DecimalValue(PadDecimal(n, width)) == n
  {
    if width > 0 {
      var r := PadDecimal(n, width);
      assert r[..|r| - 1] == PadDecimal(n / 10, width - 1);
      assert r[|r| - 1] == DigitChar(n % 10);
      assert n / 10 < Pow10(width - 1);
      PadDecimalValue(n / 10, width - 1);
      assert DecimalValue(r) == (n / 10) * 10 + n % 10;
    }
  }

  /** `YYYY-MM-DD` */
  function DatePart(dt: DateTime): (r: string)
    ensures |r| == 10
    ensures r[0..4] == PadDecimal(dt.year, 4) && r[4] == '-'
    ensures r[5..7] == PadDecimal(dt.month, 2) && r[7] == '-'
    ensures r[8..10] == PadDecimal(dt.day, 2)
  {
    var y, m, d := PadDecimal(dt.year, 4), PadDecimal(dt.month, 2), PadDecimal(dt.day, 2);
    var r := y + "-" + m + "-" + d;
    assert r[0..4] == y && r[5..7] == m && r[8..10] == d;
    r
  }

  /** `HH:MM:SS` */
  function TimePart(dt: DateTime): (r: string)
    ensures |r| == 8
    ensures r[0..2] == PadDecimal(dt.hour, 2) && r[2] == ':'
    ensures r[3..5] == PadDecimal(dt.minute, 2) && r[5] == ':'
    ensures r[6..8] == PadDecimal(dt.second, 2)
  {
    var h, m, s := PadDecimal(dt.hour, 2), PadDecimal(dt.minute, 2), PadDecimal(dt.second, 2);
    var r := h + ":" + m + ":" + s;
    assert r[0..2] == h && r[3..5] == m && r[6..8] == s;
    r
  }

  /** The canonical `YYYY-MM-DDTHH:MM:SS.ffffffZ` rendering. */
  function FormatIso8601(dt: DateTime): (r: string)
    ensures |r| == 27
  {
    DatePart(dt) + "T" + TimePart(dt) + "." + PadDecimal(dt.microsecond, 6) + "Z"
  }

  /** Where each part sits in the canonical rendering. */
  lemma FormatLayout(dt: DateTime)
    ensures var s := FormatIso8601(dt);
      && s[0..10] == DatePart(dt) && s[10] == 'T'
      && s[11..19] == TimePart(dt) && s[19] == '.'
      && s[20..26] == PadDecimal(dt.microsecond, 6) && s[26] == 'Z'
  {
    var s := FormatIso8601(dt);
    var date, time, frac := DatePart(dt), TimePart(dt), PadDecimal(dt.microsecond, 6);
    assert s == date + "T" + time + "." + frac + "Z";
    assert s[0..10] == date;
    assert s[11..19] == time;
    assert s[20..26] == frac;
  }

  /** The canonical rendering has the shape the parser accepts. */
  lemma FormatShape(dt: DateTime)
    ensures HasIsoShape(FormatIso8601(dt))
  {
    var s := FormatIso8601(dt);
    FormatLayout(dt);
    var date, time := DatePart(dt), TimePart(dt);
    assert s[0..4] == date[0..4] && s[5..7] == date[5..7] && s[8..10] == date[8..10];
    assert s[11..13] == time[0..2] && s[14..16] == time[3..5] && s[17..19] == time[6..8];
  }

  /** The parser reads back every field of the canonical rendering. */
  lemma FormatFields(dt: DateTime)
    requires ValidDateTime(dt)
    ensures HasIsoShape(FormatIso8601(dt)) && Fields(FormatIso8601(dt)) == dt
  {
    var s := FormatIso8601(dt);
    FormatShape(dt);
    FormatLayout(dt);
    var date, time := DatePart(dt), TimePart(dt);
    assert s[0..4] == date[0..4] && s[5..7] == date[5..7] && s[8..10] == date[8..10];
    assert s[11..13] == time[0..2] && s[14..16] == time[3..5] && s[17..19] == time[6..8];
    PadDecimalValue(dt.year, 4);
    PadDecimalValue(dt.month, 2);
    PadDecimalValue(dt.day, 2);
    PadDecimalValue(dt.hour, 2);
    PadDecimalValue(dt.minute, 2);
    PadDecimalValue(dt.second, 2);
    PadDecimalValue(dt.microsecond, 6);
  }

  /** Every valid date-time written in the canonical profile parses back to itself. */
  lemma FormatParseRoundTrip(dt: DateTime)
    requires ValidDateTime(dt)
    ensures ParseIso8601(FormatIso8601(dt)) == Some(dt)
  {
    FormatShape(dt);
    FormatFields(dt);
  }

  /** The example written in the command's help text has no fraction and is refused. */
  lemma HelpTextExampleRejected()
    ensures ParseIso8601("2017-01-01T00:00:00Z") == None
  {
  }

  /** Days from 1970-01-01 to the given proleptic Gregorian date. */
  function DaysFromCivil(y: nat, m: nat, d: nat): int
    requires 1 <= y && 1 <= m <= 12
  {
    var y' := if m <= 2 then y - 1 else y;
    var era := y' / 400;
    var yoe := y' - era * 400;
    var mp := if m > 2 then m - 3 else m + 9;
    var doy := (153 * mp + 2) / 5 + d - 1;
    var doe := yoe * 365 + yoe / 4 - yoe / 100 + doy;
    era * 146097 + doe - 719468
  }

  /** The instant a UTC date-time denotes, in microseconds since the Unix epoch. */
  function ToInstant(dt: DateTime): (r: int)
    requires ValidDateTime(dt)
    ensures r % MicrosPerSecond == dt.microsecond
    ensures (r / MicrosPerSecond) % 86400 == (dt.hour * 60 + dt.minute) * 60 + dt.second
  {
    var days := DaysFromCivil(dt.year, dt.month, dt.day);
    var seconds := ((days * 24 + dt.hour) * 60 + dt.minute) * 60 + dt.second;
    DivModExact(seconds * MicrosPerSecond + dt.microsecond, MicrosPerSecond, seconds, dt.microsecond);
    DivModExact(seconds, 86400, days, (dt.hour * 60 + dt.minute) * 60 + dt.second);
    seconds * MicrosPerSecond + dt.microsecond
  }

  /** Euclidean division recovers the quotient and remainder it was built from. */
  lemma DivModExact(a: int, b: int, q: int, rem: int)
    requires 0 < b && 0 <= rem < b && a == q * b + rem
    ensures a / b == q && a % b == rem
  {
    var q0, r0 := a / b, a % b;
    assert (q - q0) * b == r0 - rem by {
      assert q0 * b + r0 == a;
    }
    if q > q0 {
      MulAtLeast(q - q0, b);
    } else if q < q0 {
      MulAtLeast(q0 - q, b);
    }
  }

  lemma MulAtLeast(x: int, b: int)
    requires x >= 1 && b > 0
    ensures x * b >= b
  {
  }
}
