/**
 * The proleptic Gregorian calendar that Python's `datetime` uses, on
 * unbounded integers.
 *
 * A civil (wall-clock) time is modelled as a count of seconds since
 * 1970-01-01T00:00:00 on the same clock; its date is found from its day
 * number (days since 1970-01-01) and its clock fields from the second of
 * that day. Dafny's `/` and `%` by a positive constant round towards minus
 * infinity, as Python's do, so times before 1970 get the right fields.
 */
module Calendar {

  const SecondsPerMinute := 60
  const SecondsPerHour := 3600
  const SecondsPerDay := 86400

  const DaysPer400Years := 146097
  const DaysPer100Years := 36524
  const DaysPer4Years := 1461
  const DaysPerYear := 365

  /** Days from 0000-03-01 to 1970-01-01. */
  const MarchEpochShift := 719468

  /**
   * First day of each month within a year that starts on 1 March:
   * index 0 is March, index 10 January, index 11 February, so that the
   * leap day is the last day of such a year.
   */
  const MarchMonthStarts: seq<int> := [0, 31, 61, 92, 122, 153, 184, 214, 245, 275, 306, 337]

  datatype Date = Date(year: int, month: int, day: int)

  predicate IsLeapYear(y: int) {
    y % 4 == 0 && (y % 100 != 0 || y % 400 == 0)
  }

  function DaysInMonth(y: int, m: int): (n: int)
    requires 1 <= m <= 12
    ensures 28 <= n <= 31
  {
    if m == 2 then (if IsLeapYear(y) then 29 else 28)
    else if m == 4 || m == 6 || m == 9 || m == 11 then 30
    else 31
  }

  predicate ValidDate(d: Date) {
    1 <= d.month <= 12 && 1 <= d.day <= DaysInMonth(d.year, d.month)
  }

  /** The month, counted from March, that holds day `doy` of a March-based year. */
  function MarchMonth(doy: int): (mp: int)
    requires 0 <= doy <= 365
    ensures 0 <= mp < 12 && MarchMonthStarts[mp] <= doy
    ensures mp < 11 ==> doy < MarchMonthStarts[mp + 1]
  {
    if doy < 31 then 0
    else if doy < 61 then 1
    else if doy < 92 then 2
    else if doy < 122 then 3
    else if doy < 153 then 4
    else if doy < 184 then 5
    else if doy < 214 then 6
    else if doy < 245 then 7
    else if doy < 275 then 8
    else if doy < 306 then 9
    else if doy < 337 then 10
    else 11
  }

  /** Day number (days since 1970-01-01) of a date; the day may overflow its month. */
  function DaysFromCivil(d: Date): int
    requires 1 <= d.month <= 12
  {
    var y := if d.month <= 2 then d.year - 1 else d.year;
    var mp := if d.month > 2 then d.month - 3 else d.month + 9;
    var yoe := y % 400;
    var doe := DaysPerYear * yoe + yoe / 4 - yoe / 100 + MarchMonthStarts[mp] + d.day - 1;
    (y / 400) * DaysPer400Years + doe - MarchEpochShift
  }

  /**
   * Position of a day within its 400-year era, split into the century, the
   * four-year block, the year and the day of a March-based year.
   */
  datatype EraSplit = EraSplit(era: int, c: int, q: int, y1: int, doy: int)

  function SplitDays(z: int): (s: EraSplit)
    ensures 0 <= s.c <= 3 && 0 <= s.q <= 24 && 0 <= s.y1 <= 3 && 0 <= s.doy <= 365
    ensures z + MarchEpochShift
      == s.era * DaysPer400Years + DaysPer100Years * s.c + DaysPer4Years * s.q + DaysPerYear * s.y1 + s.doy
    ensures s.doy == 365 ==> s.y1 == 3 && (s.q < 24 || s.c == 3)
  {
    var n := z + MarchEpochShift;
    var doe := n % DaysPer400Years;
    var c := if doe / DaysPer100Years == 4 then 3 else doe / DaysPer100Years;
    var doc := doe - DaysPer100Years * c;
    var q := doc / DaysPer4Years;
    var doq := doc % DaysPer4Years;
    var y1 := if doq / DaysPerYear == 4 then 3 else doq / DaysPerYear;
    EraSplit(n / DaysPer400Years, c, q, y1, doq - DaysPerYear * y1)
  }

  /** The date of a day number (days since 1970-01-01). */
  function CivilFromDays(z: int): (d: Date)
    ensures 1 <= d.month <= 12
  {
    var s := SplitDays(z);
    var mp := MarchMonth(s.doy);
    var yoe := 100 * s.c + 4 * s.q + s.y1;
    Date(400 * s.era + yoe + (if mp >= 10 then 1 else 0),
         if mp < 10 then mp + 3 else mp - 9,
         s.doy - MarchMonthStarts[mp] + 1)
  }

  lemma MulAtLeast(k: int, d: int)
    requires k >= 1 && d > 0
    ensures k * d >= d
  {
  }

  /** Division by a positive number is pinned down by any quotient and remainder that fit. */
  lemma DivModUnique(n: int, d: int, q: int, r: int)
    requires d > 0 && n == q * d + r && 0 <= r < d
    ensures n / d == q && n % d == r
  {
    var q', r' := n / d, n % d;
    assert n == q' * d + r';
    if q' > q {
      assert (q' - q) * d == q' * d - q * d;
      MulAtLeast(q' - q, d);
    } else if q' < q {
      assert (q - q') * d == q * d - q' * d;
      MulAtLeast(q - q', d);
    }
  }

  /** Every day number names a real calendar date. */
  lemma CivilFromDaysValid(z: int)
    ensures ValidDate(CivilFromDays(z))
  {
    var s := SplitDays(z);
    var d := CivilFromDays(z);
    if s.doy == 365 {
      // The leap day closes a March-based year whose January and February
      // belong to the next calendar year.
      var y := 400 * s.era + 100 * s.c + 4 * s.q + 4;
      assert d.year == y && d.month == 2 && d.day == 29;
      if s.q < 24 {
        DivModUnique(y, 4, 100 * s.era + 25 * s.c + s.q + 1, 0);
        DivModUnique(y, 100, 4 * s.era + s.c, 4 * (s.q + 1));
      } else {
        DivModUnique(y, 4, 100 * (s.era + 1), 0);
        DivModUnique(y, 400, s.era + 1, 0);
      }
      assert IsLeapYear(y);
    }
  }

  /** Counting days back from a date returns the day number it came from. */
  lemma DaysFromCivilFromDays(z: int)
    ensures DaysFromCivil(CivilFromDays(z)) == z
  {
    var s := SplitDays(z);
    var mp := MarchMonth(s.doy);
    var d := CivilFromDays(z);
    var yoe := 100 * s.c + 4 * s.q + s.y1;
    var y := if d.month <= 2 then d.year - 1 else d.year;
    assert y == 400 * s.era + yoe;
    assert y % 400 == yoe && y / 400 == s.era;
    assert yoe / 4 == 25 * s.c + s.q;
    assert yoe / 100 == s.c;
    assert (if d.month > 2 then d.month - 3 else d.month + 9) == mp;
  }

  /** The constraints that `SplitDays` meets pin its result down. */
  predicate IsSplitOf(z: int, s: EraSplit) {
    && 0 <= s.c <= 3 && 0 <= s.q <= 24 && 0 <= s.y1 <= 3 && 0 <= s.doy <= 365
    && z + MarchEpochShift
       == s.era * DaysPer400Years + DaysPer100Years * s.c + DaysPer4Years * s.q + DaysPerYear * s.y1 + s.doy
    && (s.doy == 365 ==> s.y1 == 3 && (s.q < 24 || s.c == 3))
  }

  lemma SplitUnique(z: int, s: EraSplit)
    requires IsSplitOf(z, s)
    ensures SplitDays(z) == s
  {
    var t := SplitDays(z);
    var inner := DaysPer100Years * s.c + DaysPer4Years * s.q + DaysPerYear * s.y1 + s.doy;
    assert 0 <= inner < DaysPer400Years;
    assert t.era == s.era;
    assert t.c == s.c;
    assert t.q == s.q;
    assert t.y1 == s.y1;
  }

  /** The leap day of a March-based year of its era is where `SplitDays` allows it. */
  lemma LeapDayPosition(era: int, yoe: int)
    requires 0 <= yoe < 400 && IsLeapYear(400 * era + yoe + 1)
    ensures yoe % 4 == 3 && ((yoe % 100) / 4 < 24 || yoe / 100 == 3)
  {
    var a, m := yoe / 100, yoe % 100;
    var b, r := m / 4, m % 4;
    DivModUnique(yoe, 4, 25 * a + b, r);
    var y := 400 * era + yoe + 1;
    var k := 100 * era + 25 * a + b;
    assert y == 4 * k + r + 1;
    if r < 3 {
      DivModUnique(y, 4, k, r + 1);
    }
    if b == 24 && a < 3 {
      DivModUnique(y, 100, 4 * era + a + 1, 0);
      DivModUnique(y, 400, era, 100 * (a + 1));
    }
  }

  /** A day of a month, counted within the March-based year that holds it. */
  lemma DayOfMarchYear(y: int, month: int, day: int)
    requires 1 <= month <= 12 && 1 <= day <= DaysInMonth(y, month)
    ensures var mp := if month > 2 then month - 3 else month + 9;
      var doy := MarchMonthStarts[mp] + day - 1;
      && 0 <= doy <= 365 && MarchMonth(doy) == mp
      && (doy == 365 ==> month == 2 && day == 29 && IsLeapYear(y))
  {
  }

  /** Every real date survives the trip to its day number and back. */
  lemma CivilFromDaysFromCivil(d: Date)
    requires ValidDate(d)
    ensures CivilFromDays(DaysFromCivil(d)) == d
  {
    var y := if d.month <= 2 then d.year - 1 else d.year;
    var mp := if d.month > 2 then d.month - 3 else d.month + 9;
    var yoe := y % 400;
    var doy := MarchMonthStarts[mp] + d.day - 1;
    DayOfMarchYear(d.year, d.month, d.day);
    var a, m := yoe / 100, yoe % 100;
    var b, r := m / 4, m % 4;
    DivModUnique(yoe, 4, 25 * a + b, r);
    var s := EraSplit(y / 400, a, b, r, doy);
    if doy == 365 {
      LeapDayPosition(s.era, yoe);
    }
    assert IsSplitOf(DaysFromCivil(d), s);
    SplitUnique(DaysFromCivil(d), s);
  }

  /** Clock fields and date of a wall time given in seconds since 1970-01-01T00:00:00. */
  function Hour(w: int): (h: int) ensures 0 <= h < 24 { (w % SecondsPerDay) / SecondsPerHour }
  function Minute(w: int): (m: int) ensures 0 <= m < 60 { (w % SecondsPerHour) / SecondsPerMinute }
  function Second(w: int): (s: int) ensures 0 <= s < 60 { w % SecondsPerMinute }
  function DateOf(w: int): Date { CivilFromDays(w / SecondsPerDay) }

  /** The wall time that a date and clock reading name. */
  function WallOf(d: Date, h: int, m: int, s: int): int
    requires 1 <= d.month <= 12
  {
    DaysFromCivil(d) * SecondsPerDay + h * SecondsPerHour + m * SecondsPerMinute + s
  }

  /** Taking a reading apart returns the fields it was built from. */
  lemma FieldsOfWall(d: Date, h: int, m: int, s: int)
    requires 1 <= d.month <= 12
    requires 0 <= h < 24 && 0 <= m < 60 && 0 <= s < 60
    ensures Hour(WallOf(d, h, m, s)) == h
    ensures Minute(WallOf(d, h, m, s)) == m
    ensures Second(WallOf(d, h, m, s)) == s
    ensures WallOf(d, h, m, s) / SecondsPerDay == DaysFromCivil(d)
  {
    var z := DaysFromCivil(d);
    var w := WallOf(d, h, m, s);
    var ms := m * SecondsPerMinute + s;
    DivModUnique(w, SecondsPerDay, z, h * SecondsPerHour + ms);
    DivModUnique(h * SecondsPerHour + ms, SecondsPerHour, h, ms);
    DivModUnique(w, SecondsPerHour, 24 * z + h, ms);
    DivModUnique(ms, SecondsPerMinute, m, s);
    DivModUnique(w, SecondsPerMinute, 60 * (24 * z + h) + m, s);
  }
}
