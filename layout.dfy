/** Times as Go's time package holds them, and the one layout the adapter uses,
    "2006-01-02T15:04:05": the extended local date-time form of ISO 8601, that is
    `full-date "T" partial-time` of section 5.6 of RFC 3339 with no fractional
    seconds and no `time-offset`. */
module DateTimeLayout {
  import opened Wrappers
  import opened CivilCalendar

  type Nanos = n: int | 0 <= n < 1000000000

  /** A Go `time.Time`: an instant (whole seconds since 1970-01-01T00:00:00Z and the
      nanoseconds within that second) and the offset, in seconds east of UTC, of the
      zone in which it is displayed. */
  datatype Time = Time(sec: int, nsec: Nanos, offset: int)

  predicate SameInstant(a: Time, b: Time) {
    a.sec == b.sec && a.nsec == b.nsec
  }

  /** Go's `t.In(loc)` for a zone at a fixed offset: the same instant, displayed elsewhere. */
  function In(t: Time, offset: int): (u: Time)
    ensures SameInstant(u, t) && u.offset == offset
  {
    t.(offset := offset)
  }

  /** The wall clock of `t` as a count of seconds since 1970-01-01T00:00:00 on that clock. */
  function WallSeconds(t: Time): int {
    t.sec + t.offset
  }

  /** Civil fields of a wall clock reading, to the second. */
  datatype Clock = Clock(date: Date, hour: int, minute: int, second: int)

  predicate ValidClock(c: Clock) {
    ValidDate(c.date) && 0 <= c.hour < 24 && 0 <= c.minute < 60 && 0 <= c.second < 60
  }

  /** Wall seconds of a clock reading; fields out of range carry over as in Go's `time.Date`. */
  function ClockSeconds(c: Clock): int {
    DaysFromCivil(c.date) * 86400 + c.hour * 3600 + c.minute * 60 + c.second
  }

  /** The clock reading of a count of wall seconds. */
  function ClockOf(w: int): (c: Clock)
    ensures ValidClock(c) && ClockSeconds(c) == w
  {
    var days, sod := w / 86400, w % 86400;
    CivilFromDaysValid(days);
    DaysFromCivilOfCivil(days);
    SecondsOfDay(sod);
    Clock(CivilFromDays(days), sod / 3600, sod % 3600 / 60, sod % 60)
  }

  lemma SecondsOfDay(sod: int)
    requires 0 <= sod < 86400
    ensures 0 <= sod / 3600 < 24 && 0 <= sod % 3600 / 60 < 60
    ensures sod / 3600 * 3600 + sod % 3600 / 60 * 60 + sod % 60 == sod
  {
  }

  /** Go's `time.Date(y, m, d, hh, mm, ss, 0, loc)` for a zone at a fixed offset: the
      instant whose wall clock in that zone reads `c`. */
  function DateIn(c: Clock, offset: int): (t: Time)
    ensures WallSeconds(t) == ClockSeconds(c) && t.nsec == 0 && t.offset == offset
  {
    Time(ClockSeconds(c) - offset, 0, offset)
  }

  lemma ClockOfClockSeconds(c: Clock)
    requires ValidClock(c)
    ensures ClockOf(ClockSeconds(c)) == c
  {
    var n := DaysFromCivil(c.date);
    var sod := c.hour * 3600 + c.minute * 60 + c.second;
    assert 0 <= sod < 86400;
    assert ClockSeconds(c) / 86400 == n && ClockSeconds(c) % 86400 == sod;
    CivilFromDaysOfCivil(c.date);
  }

  // ---------------------------------------------------------------------------
  // Formatting

  predicate IsDigit(ch: char) {
    '0' <= ch <= '9'
  }

  function DigitChar(d: int): (ch: char)
    requires 0 <= d < 10
    ensures IsDigit(ch) && ch as int - '0' as int == d
  {
    ('0' as int + d) as char
  }

  function DigitValue(ch: char): (d: int)
    requires IsDigit(ch)
    ensures 0 <= d < 10 && DigitChar(d) == ch
  {
    ch as int - '0' as int
  }

  /** Decimal digits of `n`, most significant first, without leading zeros. */
  function Decimal(n: nat): (s: string)
    ensures |s| >= 1 && forall i :: 0 <= i < |s| ==> IsDigit(s[i])
  {
    if n < 10 then [DigitChar(n)] else Decimal(n / 10) + [DigitChar(n % 10)]
  }

  /** Go's `appendInt(b, x, width)`: a minus sign for a negative `x`, then the digits of
      its magnitude, padded with leading zeros to at least `width` digits. */
  function PaddedInt(x: int, width: nat): string {
    var digits := Decimal(if x < 0 then -x else x);
    var padding := if |digits| < width then seq(width - |digits|, _ => '0') else [];
    (if x < 0 then "-" else "") + padding + digits
  }

  function Digits2(n: int): string
    requires 0 <= n < 100
  {
    [DigitChar(n / 10), DigitChar(n % 10)]
  }

  function Digits4(n: int): string
    requires 0 <= n < 10000
  {
    [DigitChar(n / 1000), DigitChar(n / 100 % 10), DigitChar(n / 10 % 10), DigitChar(n % 10)]
  }

  lemma PaddedInt2(n: int)
    requires 0 <= n < 100
    ensures PaddedInt(n, 2) == Digits2(n)
  {
    if n >= 10 {
      assert Decimal(n) == Decimal(n / 10) + [DigitChar(n % 10)];
    }
  }

  lemma PaddedInt4(n: int)
    requires 0 <= n < 10000
    ensures PaddedInt(n, 4) == Digits4(n)
  {
    assert n / 10 / 10 == n / 100 && n / 100 / 10 == n / 1000;
    var a, b, c, d := DigitChar(n / 1000), DigitChar(n / 100 % 10), DigitChar(n / 10 % 10), DigitChar(n % 10);
    if n >= 1000 {
      assert Decimal(n / 100) == [a, b];
      assert Decimal(n / 10) == [a, b, c];
      assert Decimal(n) == [a, b, c, d];
    } else if n >= 100 {
      assert Decimal(n / 10) == [b, c];
      assert Decimal(n) == [b, c, d];
      assert seq(1, _ => '0') == [a];
    } else if n >= 10 {
      assert Decimal(n) == [c, d];
      assert seq(2, _ => '0') == [a, b];
    } else {
      assert Decimal(n) == [d];
      assert seq(3, _ => '0') == [a, b, c];
    }
  }

  /** A clock reading in layout "2006-01-02T15:04:05". */
  function FormatClock(c: Clock): string {
    PaddedInt(c.date.year, 4) + "-" + PaddedInt(c.date.month, 2) + "-" + PaddedInt(c.date.day, 2)
    + "T" + PaddedInt(c.hour, 2) + ":" + PaddedInt(c.minute, 2) + ":" + PaddedInt(c.second, 2)
  }

  /** Go's `t.Format("2006-01-02T15:04:05")`: the wall clock of `t` in its own zone; the
      nanoseconds and the zone are not written. */
  function Format(t: Time): string {
    FormatClock(ClockOf(WallSeconds(t)))
  }

  /** The wall clock of `t` has a year that the layout writes with four digits. */
  predicate FourDigitYear(t: Time) {
    0 <= ClockOf(WallSeconds(t)).date.year <= 9999
  }

  /** The 19-character shape of the layout: digits, with '-' at 4 and 7, 'T' at 10 and
      ':' at 13 and 16. */
  predicate LayoutShape(s: string) {
    && |s| == 19
    && s[4] == '-' && s[7] == '-' && s[10] == 'T' && s[13] == ':' && s[16] == ':'
    && forall i :: 0 <= i < 19 && i != 4 && i != 7 && i != 10 && i != 13 && i != 16 ==> IsDigit(s[i])
  }

  /** Every field of `c` fits the width the layout gives it. */
  predicate FitsLayout(c: Clock) {
    && 0 <= c.date.year < 10000 && 0 <= c.date.month < 100 && 0 <= c.date.day < 100
    && 0 <= c.hour < 100 && 0 <= c.minute < 100 && 0 <= c.second < 100
  }

  /** The text of a clock reading whose fields fit the layout, written right-nested. */
  function CanonicalText(c: Clock): string
    requires FitsLayout(c)
  {
    Digits4(c.date.year) + ("-" + (Digits2(c.date.month) + ("-" + (Digits2(c.date.day)
    + ("T" + (Digits2(c.hour) + (":" + (Digits2(c.minute) + (":" + Digits2(c.second))))))))))
  }

  lemma FormatClockCanonical(c: Clock)
    requires 0 <= c.date.year < 10000 && ValidClock(c)
    ensures FormatClock(c) == CanonicalText(c)
  {
    PaddedInt4(c.date.year);
    PaddedInt2(c.date.month);
    PaddedInt2(c.date.day);
    PaddedInt2(c.hour);
    PaddedInt2(c.minute);
    PaddedInt2(c.second);
  }

  /** A time whose year has four digits formats to 19 characters of the layout's shape. */
  lemma FormatShape(t: Time)
    requires FourDigitYear(t)
    ensures LayoutShape(Format(t))
  {
    var c := ClockOf(WallSeconds(t));
    FormatClockCanonical(c);
    CanonicalShape(c);
  }

  /** Canonical text has the layout's shape. */
  lemma CanonicalShape(c: Clock)
    requires FitsLayout(c)
    ensures LayoutShape(CanonicalText(c))
  {
  }

  // ---------------------------------------------------------------------------
  // Parsing

  /** Go's `getnum(s, fixed)`: one digit, or two when a second digit follows; `fixed`
      demands two. */
  function GetNum(s: string, fixed: bool): Option<(int, string)> {
    if |s| == 0 || !IsDigit(s[0]) then None
    else if |s| == 1 || !IsDigit(s[1]) then
      (if fixed then None else Some((DigitValue(s[0]), s[1..])))
    else Some((10 * DigitValue(s[0]) + DigitValue(s[1]), s[2..]))
  }

  /** The "2006" element: exactly four digits. */
  function LongYear(s: string): Option<(int, string)> {
    if |s| < 4 || !IsDigit(s[0]) || !IsDigit(s[1]) || !IsDigit(s[2]) || !IsDigit(s[3]) then None
    else Some((1000 * DigitValue(s[0]) + 100 * DigitValue(s[1]) + 10 * DigitValue(s[2]) + DigitValue(s[3]), s[4..]))
  }

  /** A literal character of the layout. */
  function Skip(s: string, ch: char): Option<string> {
    if |s| > 0 && s[0] == ch then Some(s[1..]) else None
  }

  /** Number of leading digits of `s`. */
  function DigitRun(s: string): (n: nat)
    ensures n <= |s| && (forall i :: 0 <= i < n ==> IsDigit(s[i])) && (n < |s| ==> !IsDigit(s[n]))
  {
    if |s| == 0 || !IsDigit(s[0]) then 0 else 1 + DigitRun(s[1..])
  }

  /** Nanoseconds of fraction digits `ds` whose first digit is worth `unit`; the digits
      past the ninth are worth nothing. */
  function FractionValue(ds: string, unit: nat): (r: int)
    requires forall i :: 0 <= i < |ds| ==> IsDigit(ds[i])
    ensures 0 <= r && (unit == 0 ==> r == 0) && (unit > 0 ==> r < 10 * unit)
    decreases |ds|
  {
    if |ds| == 0 || unit == 0 then 0
    else
      var rest := FractionValue(ds[1..], unit / 10);
      var d := DigitValue(ds[0]);
      assert rest <= unit by {
        assert 10 * (unit / 10) <= unit;
      }
      DigitWeight(d, unit);
      d * unit + rest
  }

  lemma DigitWeight(d: int, unit: nat)
    requires 0 <= d < 10
    ensures 0 <= d * unit <= 9 * unit
  {
  }

  /** Go's special case after the seconds: a fraction that the layout does not mention,
      introduced by '.' or ',' and at least one digit, is read (its digits past the ninth
      ignored) and the rest of the text returned. */
  function Fraction(s: string): (Nanos, string) {
    if |s| >= 2 && (s[0] == '.' || s[0] == ',') && IsDigit(s[1]) then
      var n := 1 + DigitRun(s[1..]);
      (FractionValue(s[1..n], 100000000), s[n..])
    else (0, s)
  }

  /** The fields of text in layout "2006-01-02T15:04:05", in the order Go reads them,
      before their range checks; no text may follow. */
  function ParseFields(s: string): Option<(Clock, Nanos)> {
    var year :- LongYear(s);
    var r1 :- Skip(year.1, '-');
    var month :- GetNum(r1, true);
    var r2 :- Skip(month.1, '-');
    var day :- GetNum(r2, true);
    var r3 :- Skip(day.1, 'T');
    var hour :- GetNum(r3, false);
    var r4 :- Skip(hour.1, ':');
    var minute :- GetNum(r4, true);
    var r5 :- Skip(minute.1, ':');
    var second :- GetNum(r5, true);
    var fraction := Fraction(second.1);
    if fraction.1 != [] then None
    else Some((Clock(Date(year.0, month.0, day.0), hour.0, minute.0, second.0), fraction.0))
  }

  /** Go's `time.Parse("2006-01-02T15:04:05", s)`: the wall clock is read as UTC; month,
      hour, minute, second and the day of the month must be in range. */
  function Parse(s: string): (r: Option<Time>)
    ensures r.Some? ==> r.value.offset == 0
  {
    var fields :- ParseFields(s);
    if !ValidClock(fields.0) then None
    else Some(Time(ClockSeconds(fields.0), fields.1, 0))
  }

  lemma GetNumDigits2(n: int, rest: string, fixed: bool)
    requires 0 <= n < 100 && (rest == [] || !IsDigit(rest[0]))
    ensures GetNum(Digits2(n) + rest, fixed) == Some((n, rest))
  {
  }

  lemma LongYearDigits4(n: int, rest: string)
    requires 0 <= n < 10000
    ensures LongYear(Digits4(n) + rest) == Some((n, rest))
  {
    var s := Digits4(n) + rest;
    assert s[4..] == rest;
    assert DigitValue(s[0]) == n / 1000 && DigitValue(s[1]) == n / 100 % 10;
    assert DigitValue(s[2]) == n / 10 % 10 && DigitValue(s[3]) == n % 10;
    FourDigits(n);
  }

  /** A number below 10000 is the sum of its four decimal digits' place values. */
  lemma FourDigits(n: int)
    requires 0 <= n < 10000
    ensures 1000 * (n / 1000) + 100 * (n / 100 % 10) + 10 * (n / 10 % 10) + n % 10 == n
  {
    assert n / 10 == 10 * (n / 100) + n / 10 % 10;
    assert n / 100 == 10 * (n / 1000) + n / 100 % 10;
  }

  lemma SkipLiteral(ch: char, rest: string)
    ensures Skip([ch] + rest, ch) == Some(rest)
  {
  }

  /** The fields of canonical text parse back, whatever follows the seconds; what follows
      is read as Go's unlisted fraction and must leave nothing behind. */
  lemma ParseFieldsTail(c: Clock, tail: string)
    requires FitsLayout(c) && (tail == [] || !IsDigit(tail[0]))
    ensures ParseFields(CanonicalText(c) + tail)
            == (if Fraction(tail).1 == [] then Some((c, Fraction(tail).0)) else None)
  {
    var t6 := Digits2(c.second) + tail;
    var t5 := ":" + t6;
    var t4 := Digits2(c.minute) + t5;
    var t3 := ":" + t4;
    var t2 := Digits2(c.hour) + t3;
    var t1 := "T" + t2;
    var d2 := Digits2(c.date.day) + t1;
    var d1 := "-" + d2;
    var m2 := Digits2(c.date.month) + d1;
    var m1 := "-" + m2;
    assert CanonicalText(c) + tail == Digits4(c.date.year) + m1;
    LongYearDigits4(c.date.year, m1);
    SkipLiteral('-', m2);
    GetNumDigits2(c.date.month, d1, true);
    SkipLiteral('-', d2);
    GetNumDigits2(c.date.day, t1, true);
    SkipLiteral('T', t2);
    GetNumDigits2(c.hour, t3, false);
    SkipLiteral(':', t4);
    GetNumDigits2(c.minute, t5, true);
    SkipLiteral(':', t6);
    GetNumDigits2(c.second, tail, true);
  }

  lemma ParseFieldsCanonical(c: Clock)
    requires FitsLayout(c)
    ensures ParseFields(CanonicalText(c)) == Some((c, 0))
  {
    ParseFieldsTail(c, []);
    assert CanonicalText(c) + [] == CanonicalText(c);
  }

  /** A run made only of digits is read whole. */
  lemma DigitRunAll(ds: string)
    requires forall i :: 0 <= i < |ds| ==> IsDigit(ds[i])
    ensures DigitRun(ds) == |ds|
  {
  }

  /** A separator followed by digits only is read whole as Go's unlisted fraction. */
  lemma FractionWhole(sep: char, ds: string)
    requires (sep == '.' || sep == ',') && |ds| > 0 && forall i :: 0 <= i < |ds| ==> IsDigit(ds[i])
    ensures Fraction([sep] + ds) == (FractionValue(ds, 100000000), [])
  {
    var tail := [sep] + ds;
    assert tail[1..] == ds;
    DigitRunAll(ds);
    assert tail[1..|tail|] == ds && tail[|tail|..] == [];
  }

  /** The fields of shaped text, with and without a trailing fraction. */
  lemma ParseFieldsFraction(s: string, sep: char, ds: string)
    requires LayoutShape(s) && (sep == '.' || sep == ',')
    requires |ds| > 0 && forall i :: 0 <= i < |ds| ==> IsDigit(ds[i])
    ensures ParseFields(s + [sep] + ds) == Some((ShapeFields(s), FractionValue(ds, 100000000)))
    ensures ParseFields(s) == Some((ShapeFields(s), 0))
  {
    var c := ShapeFields(s);
    ShapeIsCanonical(s);
    FractionWhole(sep, ds);
    assert s + [sep] + ds == CanonicalText(c) + ([sep] + ds);
    ParseFieldsTail(c, [sep] + ds);
    ParseFieldsCanonical(c);
  }

  /** Text of the layout's shape followed by a fraction ('.' or ',' and digits) parses
      exactly when the text alone does, to the same second, with the fraction's
      nanoseconds (digits past the ninth ignored). */
  lemma ParseFraction(s: string, sep: char, ds: string)
    requires LayoutShape(s) && (sep == '.' || sep == ',')
    requires |ds| > 0 && forall i :: 0 <= i < |ds| ==> IsDigit(ds[i])
    ensures Parse(s + [sep] + ds).Some? <==> Parse(s).Some?
    ensures Parse(s).Some?
            ==> Parse(s + [sep] + ds) == Some(Parse(s).value.(nsec := FractionValue(ds, 100000000)))
  {
    ParseFieldsFraction(s, sep, ds);
  }

  /** Parsing a formatted time gives back its wall clock read as UTC, to the second: for a
      time in UTC, the instant itself truncated to whole seconds. */
  lemma ParseFormat(t: Time)
    requires FourDigitYear(t)
    ensures Parse(Format(t)) == Some(Time(WallSeconds(t), 0, 0))
  {
    var c := ClockOf(WallSeconds(t));
    FormatClockCanonical(c);
    ParseFieldsCanonical(c);
  }

  /** The fields written in text of the layout's shape. */
  function ShapeFields(s: string): (c: Clock)
    requires LayoutShape(s)
    ensures FitsLayout(c)
  {
    var year := 1000 * DigitValue(s[0]) + 100 * DigitValue(s[1]) + 10 * DigitValue(s[2]) + DigitValue(s[3]);
    Clock(Date(year, Pair(s, 5), Pair(s, 8)), Pair(s, 11), Pair(s, 14), Pair(s, 17))
  }

  function Pair(s: string, i: int): (n: int)
    requires 0 <= i < i + 1 < |s| && IsDigit(s[i]) && IsDigit(s[i + 1])
    ensures 0 <= n < 100 && Digits2(n) == s[i..i + 2]
  {
    10 * DigitValue(s[i]) + DigitValue(s[i + 1])
  }

  lemma ShapeYear(s: string)
    requires LayoutShape(s)
    ensures Digits4(ShapeFields(s).date.year) == s[0..4]
  {
    var y := ShapeFields(s).date.year;
    var a, b, c, d := DigitValue(s[0]), DigitValue(s[1]), DigitValue(s[2]), DigitValue(s[3]);
    assert y == 1000 * a + 100 * b + 10 * c + d;
    assert y / 10 == 100 * a + 10 * b + c && y % 10 == d;
    assert y / 100 == 10 * a + b;
    assert y / 1000 == a && y / 100 % 10 == b && y / 10 % 10 == c;
  }

  lemma ShapeIsCanonical(s: string)
    requires LayoutShape(s)
    ensures CanonicalText(ShapeFields(s)) == s
  {
    var c := ShapeFields(s);
    ShapeYear(s);
    assert Digits2(c.date.month) == s[5..7] && Digits2(c.date.day) == s[8..10];
    assert Digits2(c.hour) == s[11..13] && Digits2(c.minute) == s[14..16] && Digits2(c.second) == s[17..19];
    assert s[14..19] == s[14..16] + ([s[16]] + s[17..19]);
    assert s[11..19] == s[11..13] + ([s[13]] + s[14..19]);
    assert s[8..19] == s[8..10] + ([s[10]] + s[11..19]);
    assert s[5..19] == s[5..7] + ([s[7]] + s[8..19]);
    assert s[0..19] == s[0..4] + ([s[4]] + s[5..19]);
    assert s == s[0..19];
  }

  /** For text of the layout's shape, parsing succeeds exactly when the fields are in
      range, and formatting the result gives the text back. */
  lemma FormatParse(s: string)
    requires LayoutShape(s)
    ensures Parse(s).Some? <==> ValidClock(ShapeFields(s))
    ensures Parse(s).Some? ==> Parse(s).value.nsec == 0 && Format(Parse(s).value) == s
  {
    var c := ShapeFields(s);
    ShapeIsCanonical(s);
    ParseFieldsCanonical(c);
    if ValidClock(c) {
      ClockOfClockSeconds(c);
      FormatClockCanonical(c);
    }
  }

  // ---------------------------------------------------------------------------
  // Order

  /** Go's `a <= b` on strings: byte-wise lexicographic order (all the text here is ASCII). */
  predicate LexLe(a: string, b: string)
    decreases |a|
  {
    |a| == 0 || (|b| > 0 && (a[0] < b[0] || (a[0] == b[0] && LexLe(a[1..], b[1..]))))
  }

  /** Order of clock readings: by date, then hour, minute and second. */
  predicate ClockLe(a: Clock, b: Clock) {
    || DateLt(a.date, b.date)
    || (a.date == b.date && a.hour < b.hour)
    || (a.date == b.date && a.hour == b.hour && a.minute < b.minute)
    || (a.date == b.date && a.hour == b.hour && a.minute == b.minute && a.second <= b.second)
  }

  lemma LexCons(c: char, d: char, a: string, b: string)
    ensures LexLe([c] + a, [d] + b) <==> c < d || (c == d && LexLe(a, b))
  {
  }

  lemma LexDigits2(x: int, y: int, a: string, b: string)
    requires 0 <= x < 100 && 0 <= y < 100
    ensures LexLe(Digits2(x) + a, Digits2(y) + b) <==> x < y || (x == y && LexLe(a, b))
  {
  }

  lemma Digits4Split(x: int)
    requires 0 <= x < 10000
    ensures Digits4(x) == Digits2(x / 100) + Digits2(x % 100)
  {
    assert x / 100 / 10 == x / 1000;
    assert x % 100 / 10 == x / 10 % 10;
    assert x % 100 % 10 == x % 10;
  }

  lemma LexDigits4(x: int, y: int, a: string, b: string)
    requires 0 <= x < 10000 && 0 <= y < 10000
    ensures LexLe(Digits4(x) + a, Digits4(y) + b) <==> x < y || (x == y && LexLe(a, b))
  {
    Digits4Split(x);
    Digits4Split(y);
    assert Digits4(x) + a == Digits2(x / 100) + (Digits2(x % 100) + a);
    assert Digits4(y) + b == Digits2(y / 100) + (Digits2(y % 100) + b);
    LexDigits2(x / 100, y / 100, Digits2(x % 100) + a, Digits2(y % 100) + b);
    LexDigits2(x % 100, y % 100, a, b);
    assert x == 100 * (x / 100) + x % 100 && y == 100 * (y / 100) + y % 100;
  }

  lemma LexCanonical(c1: Clock, c2: Clock)
    requires FitsLayout(c1) && FitsLayout(c2)
    ensures LexLe(CanonicalText(c1), CanonicalText(c2)) <==> ClockLe(c1, c2) || c1 == c2
  {
    var s6, u6 := Digits2(c1.second), Digits2(c2.second);
    var s5, u5 := Digits2(c1.minute) + (":" + s6), Digits2(c2.minute) + (":" + u6);
    var s4, u4 := Digits2(c1.hour) + (":" + s5), Digits2(c2.hour) + (":" + u5);
    var s3, u3 := Digits2(c1.date.day) + ("T" + s4), Digits2(c2.date.day) + ("T" + u4);
    var s2, u2 := Digits2(c1.date.month) + ("-" + s3), Digits2(c2.date.month) + ("-" + u3);
    LexDigits4(c1.date.year, c2.date.year, "-" + s2, "-" + u2);
    LexCons('-', '-', s2, u2);
    LexDigits2(c1.date.month, c2.date.month, "-" + s3, "-" + u3);
    LexCons('-', '-', s3, u3);
    LexDigits2(c1.date.day, c2.date.day, "T" + s4, "T" + u4);
    LexCons('T', 'T', s4, u4);
    LexDigits2(c1.hour, c2.hour, ":" + s5, ":" + u5);
    LexCons(':', ':', s5, u5);
    LexDigits2(c1.minute, c2.minute, ":" + s6, ":" + u6);
    LexCons(':', ':', s6, u6);
    assert s6 == Digits2(c1.second) + [] && u6 == Digits2(c2.second) + [];
    LexDigits2(c1.second, c2.second, [], []);
  }

  /** Later wall seconds give later clock readings. */
  lemma ClockOfOrder(w1: int, w2: int)
    ensures w1 <= w2 <==> ClockLe(ClockOf(w1), ClockOf(w2))
  {
    var d1, d2 := w1 / 86400, w2 / 86400;
    CivilFromDaysMonotone(d1, d2);
    CivilFromDaysMonotone(d2, d1);
    var c1, c2 := ClockOf(w1), ClockOf(w2);
    if d1 == d2 {
      SecondsOfDay(w1 % 86400);
      SecondsOfDay(w2 % 86400);
    }
  }

  /** For times whose years have four digits, formatted text compares as the wall clocks do. */
  lemma FormatOrder(t1: Time, t2: Time)
    requires FourDigitYear(t1) && FourDigitYear(t2)
    ensures WallSeconds(t1) <= WallSeconds(t2) <==> LexLe(Format(t1), Format(t2))
  {
    var c1, c2 := ClockOf(WallSeconds(t1)), ClockOf(WallSeconds(t2));
    FormatClockCanonical(c1);
    FormatClockCanonical(c2);
    LexCanonical(c1, c2);
    ClockOfOrder(WallSeconds(t1), WallSeconds(t2));
  }
}
