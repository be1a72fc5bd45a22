/** Proleptic Gregorian calendar arithmetic, as Go's time package uses it to turn a
    count of days since 1970-01-01 into a civil date and back.

    Day numbers are computed on a calendar whose years start on March 1, so that the
    leap day is the last day of its year; months are numbered from March of year 0
    ("month index"), and years, centuries and 400-year eras split evenly. */
module CivilCalendar {

  /** A civil date: year, month 1..12 and day of the month. */
  datatype Date = Date(year: int, month: int, day: int)

  predicate IsLeap(y: int) {
    y % 4 == 0 && (y % 100 != 0 || y % 400 == 0)
  }

  function DaysInMonth(y: int, m: int): (n: int)
    requires 1 <= m <= 12
    ensures 28 <= n <= 31
    ensures m == 2 ==> (n == 29 <==> IsLeap(y))
  {
    if m == 2 then (if IsLeap(y) then 29 else 28)
    else if m == 4 || m == 6 || m == 9 || m == 11 then 30
    else 31
  }

  predicate ValidDate(d: Date) {
    1 <= d.month <= 12 && 1 <= d.day <= DaysInMonth(d.year, d.month)
  }

  /** Strict order of dates: by year, then month, then day. */
  predicate DateLt(a: Date, b: Date) {
    a.year < b.year
    || (a.year == b.year && a.month < b.month)
    || (a.year == b.year && a.month == b.month && a.day < b.day)
  }

  /** Days from 0000-03-01 to March 1 of year `y`. */
  function MarchYearStart(y: int): int {
    365 * y + y / 4 - y / 100 + y / 400
  }

  /** Days from March 1 to the first day of the month `mp` months later. */
  function MonthOffset(mp: int): int
    requires 0 <= mp < 12
  {
    (153 * mp + 2) / 5
  }

  /** Days from 0000-03-01 to 1970-01-01. */
  const EpochShift: int := 719468

  /** Months since March of year 0; January and February count towards the year before. */
  function MonthIndex(d: Date): int {
    12 * d.year + d.month - 3
  }

  /** The year and month of month index `k` (with the given day). */
  function IndexDate(k: int, day: int): (d: Date)
    ensures 1 <= d.month <= 12 && MonthIndex(d) == k && d.day == day
  {
    Date((k + 2) / 12, (k + 2) % 12 + 1, day)
  }

  /** Day number (days since 1970-01-01) of the first day of month index `k`. */
  function MonthStart(k: int): int {
    MarchYearStart(k / 12) + MonthOffset(k % 12) - EpochShift
  }

  /** Day number of a civil date: 1970-01-01 is day 0. Months outside 1..12 and days
      outside the month carry into the neighbouring months and years, as Go's `time.Date`
      normalises them. */
  function DaysFromCivil(d: Date): int {
    MonthStart(MonthIndex(d)) + d.day - 1
  }

  /** The position of a day number in the March-based calendar:
      `days + EpochShift == 146097 * era + 36524 * century + 1461 * block + 365 * year + dayOfYear`. */
  datatype EraSplit = EraSplit(era: int, century: int, block: int, year: int, dayOfYear: int)

  function Split(n: int): (s: EraSplit)
    ensures n + EpochShift
            == 146097 * s.era + 36524 * s.century + 1461 * s.block + 365 * s.year + s.dayOfYear
    ensures 0 <= s.century <= 3 && 0 <= s.block <= 24 && 0 <= s.year <= 3 && 0 <= s.dayOfYear <= 365
    ensures s.dayOfYear == 365 ==> s.year == 3 && (s.century == 3 || s.block < 24)
  {
    var z := n + EpochShift;
    var era := z / 146097;
    var doe := z % 146097;
    var c := if doe / 36524 < 3 then doe / 36524 else 3;
    var doc := doe - 36524 * c;
    var q := doc / 1461;
    var doq := doc % 1461;
    var yq := if doq / 365 < 3 then doq / 365 else 3;
    EraSplit(era, c, q, yq, doq - 365 * yq)
  }

  /** The month (counted from March) holding day `doy` of a March-based year. */
  function MarchMonth(doy: int): (mp: int)
    requires 0 <= doy <= 365
    ensures 0 <= mp <= 11
    ensures MonthOffset(mp) <= doy
    ensures mp < 11 ==> doy < MonthOffset(mp + 1)
    ensures mp == 11 ==> doy - MonthOffset(mp) <= 28
  {
    (5 * doy + 2) / 153
  }

  /** Civil date of a day number (1970-01-01 is day 0). */
  function CivilFromDays(n: int): Date {
    var s := Split(n);
    var mp := MarchMonth(s.dayOfYear);
    var y := 400 * s.era + 100 * s.century + 4 * s.block + s.year;
    if mp < 10 then Date(y, mp + 3, s.dayOfYear - MonthOffset(mp) + 1)
    else Date(y + 1, mp - 9, s.dayOfYear - MonthOffset(mp) + 1)
  }

  lemma MarchYearStartOfEra(e: int, r: int)
    requires 0 <= r < 400
    ensures MarchYearStart(400 * e + r) == 146097 * e + 365 * r + r / 4 - r / 100
  {
    assert (400 * e + r) / 4 == 100 * e + r / 4;
    assert (400 * e + r) / 100 == 4 * e + r / 100;
    assert (400 * e + r) / 400 == e;
  }

  lemma MarchYearStartStep(y: int)
    ensures MarchYearStart(y + 1) == MarchYearStart(y) + 365 + (if IsLeap(y + 1) then 1 else 0)
  {
    assert (y + 1) / 4 == y / 4 + (if (y + 1) % 4 == 0 then 1 else 0);
    assert (y + 1) / 100 == y / 100 + (if (y + 1) % 100 == 0 then 1 else 0);
    assert (y + 1) / 400 == y / 400 + (if (y + 1) % 400 == 0 then 1 else 0);
  }

  /** Every day number names a valid date. */
  lemma CivilFromDaysValid(n: int)
    ensures ValidDate(CivilFromDays(n))
  {
    var s := Split(n);
    var mp := MarchMonth(s.dayOfYear);
    var d := CivilFromDays(n);
    if mp == 11 && s.dayOfYear == 365 {
      // February 29: the year is a multiple of 4, and of 400 when it is a multiple of 100
      var k := 400 * s.era + 100 * s.century + 4 * s.block + 4;
      assert d.year == k;
      assert k % 4 == 0;
      if s.century < 3 {
        assert k % 100 == 4 * s.block + 4;
      } else if s.block < 24 {
        assert k % 100 == 4 * s.block + 4;
      } else {
        assert k == 400 * (s.era + 1);
      }
      assert IsLeap(d.year);
    }
  }

  /** Converting a day number to a date and back gives the day number. */
  lemma DaysFromCivilOfCivil(n: int)
    ensures DaysFromCivil(CivilFromDays(n)) == n
  {
    var s := Split(n);
    var mp := MarchMonth(s.dayOfYear);
    var yoe := 100 * s.century + 4 * s.block + s.year;
    var d := CivilFromDays(n);
    assert MonthIndex(d) == 12 * (400 * s.era + yoe) + mp;
    assert MonthIndex(d) / 12 == 400 * s.era + yoe;
    assert MonthIndex(d) % 12 == mp;
    MarchYearStartOfEra(s.era, yoe);
    assert yoe / 4 == 25 * s.century + s.block;
    assert yoe / 100 == s.century;
  }

  /** Length of the month `mp` months after March; for February (11) that of a common year. */
  lemma MonthOffsetStep(mp: int)
    requires 0 <= mp < 11
    ensures MonthOffset(mp + 1) - MonthOffset(mp)
            == DaysInMonth(1, if mp < 10 then mp + 3 else mp - 9)
  {
  }

  /** Moving to the next month advances the day number by the length of the month. */
  lemma MonthStartStep(k: int)
    ensures MonthStart(k + 1) == MonthStart(k) + DaysInMonth(IndexDate(k, 1).year, IndexDate(k, 1).month)
  {
    var y, mp := k / 12, k % 12;
    assert k == 12 * y + mp;
    if mp < 10 {
      assert (k + 1) / 12 == y && (k + 1) % 12 == mp + 1;
      assert IndexDate(k, 1) == Date(y, mp + 3, 1);
      MonthOffsetStep(mp);
    } else if mp == 10 {
      assert (k + 1) / 12 == y && (k + 1) % 12 == 11;
      assert IndexDate(k, 1) == Date(y + 1, 1, 1);
      MonthOffsetStep(mp);
    } else {
      assert (k + 1) / 12 == y + 1 && (k + 1) % 12 == 0;
      assert IndexDate(k, 1) == Date(y + 1, 2, 1);
      MarchYearStartStep(y);
    }
  }

  /** A later month starts no earlier than the end of an earlier one. */
  lemma {:induction false} MonthStartMonotone(k1: int, k2: int)
    requires k1 < k2
    ensures MonthStart(k1) + DaysInMonth(IndexDate(k1, 1).year, IndexDate(k1, 1).month) <= MonthStart(k2)
    decreases k2 - k1
  {
    MonthStartStep(k1);
    if k1 + 1 < k2 {
      MonthStartMonotone(k1 + 1, k2);
    }
  }

  /** Day numbers grow strictly with the order of valid dates. */
  lemma DaysFromCivilStrict(a: Date, b: Date)
    requires ValidDate(a) && ValidDate(b) && DateLt(a, b)
    ensures DaysFromCivil(a) < DaysFromCivil(b)
  {
    var ka, kb := MonthIndex(a), MonthIndex(b);
    if ka < kb {
      assert IndexDate(ka, 1) == Date(a.year, a.month, 1);
      MonthStartMonotone(ka, kb);
    }
  }

  /** Converting a valid date to its day number and back gives the date. */
  lemma CivilFromDaysOfCivil(d: Date)
    requires ValidDate(d)
    ensures CivilFromDays(DaysFromCivil(d)) == d
  {
    var n := DaysFromCivil(d);
    var e := CivilFromDays(n);
    CivilFromDaysValid(n);
    DaysFromCivilOfCivil(n);
    if DateLt(d, e) {
      DaysFromCivilStrict(d, e);
    } else if DateLt(e, d) {
      DaysFromCivilStrict(e, d);
    }
  }

  /** Later day numbers name later dates. */
  lemma CivilFromDaysMonotone(n1: int, n2: int)
    ensures n1 < n2 <==> DateLt(CivilFromDays(n1), CivilFromDays(n2))
  {
    var a, b := CivilFromDays(n1), CivilFromDays(n2);
    CivilFromDaysValid(n1);
    CivilFromDaysValid(n2);
    DaysFromCivilOfCivil(n1);
    DaysFromCivilOfCivil(n2);
    if DateLt(a, b) {
      DaysFromCivilStrict(a, b);
    } else if DateLt(b, a) {
      DaysFromCivilStrict(b, a);
    } else {
      assert a == b;
    }
  }

  lemma EpochIsDayZero()
    ensures DaysFromCivil(Date(1970, 1, 1)) == 0
    ensures CivilFromDays(0) == Date(1970, 1, 1)
  {
    assert MonthIndex(Date(1970, 1, 1)) == 23638;
    assert 23638 / 12 == 1969 && 23638 % 12 == 10;
    assert MarchYearStart(1969) == 719162;
    assert Split(0) == EraSplit(4, 3, 17, 1, 306);
  }
}
