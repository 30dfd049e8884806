/**
 * The display strings of a row: the clock reading, as `strftime` renders
 * "%H:%M:%S" (24-hour) or "%I:%M:%S %p" (12-hour, C locale), and the date,
 * as "%Y-%m-%d".
 *
 * Every string is specified by reading it back: the digits at fixed
 * positions spell the fields it was made from.
 */
module Clock {
  import opened Calendar

  predicate IsDigit(c: char) {
    '0' <= c <= '9'
  }

  function Digit(n: int): (c: char)
    requires 0 <= n < 10
    ensures IsDigit(c)
  {
    ('0' as int + n) as char
  }

  /** The number a string of decimal digits spells. */
  function ReadNumber(s: string): int {
    if s == [] then 0 else 10 * ReadNumber(s[..|s| - 1]) + (s[|s| - 1] as int - '0' as int)
  }

  predicate AllDigits(s: string) {
    forall i :: 0 <= i < |s| ==> IsDigit(s[i])
  }

  function Pow10(k: nat): (p: nat)
    ensures p >= 1
  {
    if k == 0 then 1 else 10 * Pow10(k - 1)
  }

  /** `n` in decimal, zero-padded on the left to at least `width` digits. */
  function Decimal(n: nat, width: nat): (r: string)
    ensures AllDigits(r) && ReadNumber(r) == n
    ensures |r| >= width && |r| >= 1
    ensures n < Pow10(width) ==> |r| == width || (width == 0 && |r| == 1)
    decreases n + width
  {
    if n < 10 && width <= 1 then
      [Digit(n)]
    else
      var r := Decimal(n / 10, if width == 0 then 0 else width - 1) + [Digit(n % 10)];
      assert r[..|r| - 1] == Decimal(n / 10, if width == 0 then 0 else width - 1);
      r
  }

  /** A two-digit field, "00" to "99". */
  function Pad2(n: int): (r: string)
    requires 0 <= n < 100
    ensures |r| == 2 && AllDigits(r) && ReadNumber(r) == n
  {
    Decimal(n, 2)
  }

  /** The hour as a 12-hour clock shows it: 12, 1, ..., 11, 12, 1, ..., 11. */
  function Hour12(h: int): (h12: int)
    requires 0 <= h < 24
    ensures 1 <= h12 <= 12
    ensures h12 % 12 == h % 12
  {
    if h % 12 == 0 then 12 else h % 12
  }

  function Meridiem(h: int): string {
    if h < 12 then "AM" else "PM"
  }

  /** ":MM:SS", the part both clocks share. */
  function MinutesSeconds(m: int, s: int): (r: string)
    requires 0 <= m < 60 && 0 <= s < 60
    ensures |r| == 6 && r[0] == ':' && r[3] == ':'
    ensures AllDigits(r[1..3]) && AllDigits(r[4..6])
    ensures ReadNumber(r[1..3]) == m && ReadNumber(r[4..6]) == s
  {
    var r := ":" + Pad2(m) + ":" + Pad2(s);
    assert r[1..3] == Pad2(m) && r[4..6] == Pad2(s);
    r
  }

  /** "HH:MM:SS" (`%H:%M:%S`). */
  function Clock24(h: int, m: int, s: int): (r: string)
    requires 0 <= h < 24 && 0 <= m < 60 && 0 <= s < 60
    ensures |r| == 8 && AllDigits(r[0..2]) && ReadNumber(r[0..2]) == h
    ensures r[2..] == MinutesSeconds(m, s)
  {
    var hh := Pad2(h);
    var r := hh + MinutesSeconds(m, s);
    assert r[0..2] == hh;
    r
  }

  /** "II:MM:SS AM" or "II:MM:SS PM" (`%I:%M:%S %p`). */
  function Clock12(h: int, m: int, s: int): (r: string)
    requires 0 <= h < 24 && 0 <= m < 60 && 0 <= s < 60
    ensures |r| == 11 && AllDigits(r[0..2]) && 1 <= ReadNumber(r[0..2]) <= 12
    ensures r[2..8] == MinutesSeconds(m, s) && r[8] == ' '
    ensures r[9..] == (if h < 12 then "AM" else "PM")
    ensures ReadNumber(r[0..2]) % 12 + (if r[9..] == "PM" then 12 else 0) == h
  {
    var hh := Pad2(Hour12(h));
    var ms := MinutesSeconds(m, s);
    var tail := " " + Meridiem(h);
    var r := hh + ms + tail;
    assert r[0..2] == hh && r[2..8] == ms && r[8..] == tail;
    r
  }

  /** The clock string of a wall time (`format_time`). */
  function FormatTime(w: int, amPm: bool): (r: string)
    ensures |r| == (if amPm then 11 else 8)
  {
    if amPm then Clock12(Hour(w), Minute(w), Second(w)) else Clock24(Hour(w), Minute(w), Second(w))
  }

  /**
   * The year as `%Y` writes it, zero-padded to four digits. Whether a C
   * library pads years below 1000 varies; this model always pads.
   */
  function YearString(y: int): (r: string)
    ensures 0 <= y < 10000 ==> |r| == 4 && AllDigits(r) && ReadNumber(r) == y
  {
    if y >= 0 then Decimal(y, 4) else "-" + Decimal(-y, 4)
  }

  /** "YYYY-MM-DD" of the date a wall time falls on (`%Y-%m-%d`). */
  function FormatDate(w: int): (r: string)
    ensures 0 <= DateOf(w).year < 10000 ==> |r| == 10 && r[4] == '-' && r[7] == '-'
    ensures 0 <= DateOf(w).year < 10000 ==>
      ReadNumber(r[0..4]) == DateOf(w).year && ReadNumber(r[5..7]) == DateOf(w).month && ReadNumber(r[8..10]) == DateOf(w).day
  {
    var d := DateOf(w);
    CivilFromDaysValid(w / SecondsPerDay);
    var r := YearString(d.year) + "-" + Pad2(d.month) + "-" + Pad2(d.day);
    assert 0 <= d.year < 10000 ==> r[0..4] == YearString(d.year) && r[5..7] == Pad2(d.month) && r[8..10] == Pad2(d.day);
    r
  }

  /** Midnight shows as "12 ... AM"; noon as "12 ... PM". */
  lemma MidnightAndNoon(m: int, s: int)
    requires 0 <= m < 60 && 0 <= s < 60
    ensures Clock12(0, m, s)[0..2] == "12" && Clock12(0, m, s)[9..] == "AM"
    ensures Clock12(12, m, s)[0..2] == "12" && Clock12(12, m, s)[9..] == "PM"
  {
    assert Pad2(12) == "12";
  }

  /** In the afternoon the 12-hour clock shows the hour less twelve. */
  lemma AfternoonHours(h: int, m: int, s: int)
    requires 13 <= h < 24 && 0 <= m < 60 && 0 <= s < 60
    ensures ReadNumber(Clock12(h, m, s)[0..2]) == h - 12 && Clock12(h, m, s)[9..] == "PM"
  {
  }

  /** The 24-hour clock shows the hour unchanged. */
  lemma FormatTime24Fields(w: int)
    ensures ReadNumber(FormatTime(w, false)[0..2]) == Hour(w)
    ensures FormatTime(w, false)[2..] == MinutesSeconds(Minute(w), Second(w))
  {
  }

  /** The 12-hour clock shows the hour of the wall reading, up to the twelve AM/PM carries. */
  lemma FormatTime12Fields(w: int)
    ensures 1 <= ReadNumber(FormatTime(w, true)[0..2]) <= 12
    ensures FormatTime(w, true)[9..] == (if Hour(w) < 12 then "AM" else "PM")
    ensures ReadNumber(FormatTime(w, true)[0..2]) % 12 + (if Hour(w) < 12 then 0 else 12) == Hour(w)
    ensures FormatTime(w, true)[2..8] == MinutesSeconds(Minute(w), Second(w))
  {
  }

  /** What the clock string of either mode shows of a wall reading. */
  lemma FormatTimeFields(w: int, amPm: bool)
    ensures |FormatTime(w, amPm)| == (if amPm then 11 else 8)
    ensures FormatTime(w, amPm)[2..8] == MinutesSeconds(Minute(w), Second(w))
    ensures !amPm ==> ReadNumber(FormatTime(w, amPm)[0..2]) == Hour(w)
    ensures amPm ==> FormatTime(w, amPm)[9..] == (if Hour(w) < 12 then "AM" else "PM")
  {
    FormatTime12Fields(w);
    FormatTime24Fields(w);
  }

  /** Both clocks agree on minutes and seconds. */
  lemma ClocksShareMinutesSeconds(w: int)
    ensures FormatTime(w, false)[2..8] == FormatTime(w, true)[2..8]
  {
  }

  /** A wall time built from a date and clock fields is printed with those very fields. */
  lemma FormatWallOf(d: Date, h: int, m: int, s: int)
    requires ValidDate(d) && 0 <= h < 24 && 0 <= m < 60 && 0 <= s < 60
    ensures FormatTime(WallOf(d, h, m, s), false) == Clock24(h, m, s)
    ensures FormatTime(WallOf(d, h, m, s), true) == Clock12(h, m, s)
    ensures FormatDate(WallOf(d, h, m, s)) == YearString(d.year) + "-" + Pad2(d.month) + "-" + Pad2(d.day)
  {
    FieldsOfWall(d, h, m, s);
    CivilFromDaysFromCivil(d);
  }
}
