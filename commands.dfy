/**
 * The three commands of the tool: `now` (current time in the zones asked
 * for), `convert` (one given time, from a source zone into target zones)
 * and the default view (current time in UTC and in the popular cities).
 *
 * Each command fills a fresh table row by row. A zone id the database does
 * not know costs only its own row: an error line is printed and the loop
 * goes on. In `convert` a time that does not parse, or a source zone that
 * is not known, aborts the whole command with status 1 before any table is
 * made.
 *
 * The wall clock and the date parser are inputs: the current instant is a
 * parameter, and the parser's answer is a `Parsed` value.
 */
module Commands {
  import opened Aliases
  import opened Calendar
  import opened Clock
  import opened Zones

  /**
   * A table row: the location label, the zone id, and the aware time the
   * row shows. Its Time and Date cells are rendered from that time.
   */
  datatype Row = Row(location: string, zone: string, at: ZonedTime)

  /** The four cells of a row as printed: Location, Timezone, Time, Date. */
  function Cells(r: Row, amPm: bool): (c: seq<string>)
    ensures |c| == 4 && c[0] == r.location && c[1] == r.zone
    ensures |c[2]| == (if amPm then 11 else 8)
    ensures c[2][2..8] == MinutesSeconds(Minute(r.at.wall), Second(r.at.wall))
    ensures !amPm ==> ReadNumber(c[2][0..2]) == Hour(r.at.wall)
    ensures amPm ==> c[2][9..] == (if Hour(r.at.wall) < 12 then "AM" else "PM")
    ensures 0 <= DateOf(r.at.wall).year < 10000 ==>
      |c[3]| == 10 && ReadNumber(c[3][0..4]) == DateOf(r.at.wall).year
      && ReadNumber(c[3][5..7]) == DateOf(r.at.wall).month && ReadNumber(c[3][8..10]) == DateOf(r.at.wall).day
  {
    FormatTimeFields(r.at.wall, amPm);
    [r.location, r.zone, FormatTime(r.at.wall, amPm), FormatDate(r.at.wall)]
  }

  /** The table a command prints; rows are appended in place. */
  class Table {
    const title: string
    var rows: seq<Row>

    constructor (title: string)
      ensures this.title == title && rows == []
    {
      this.title := title;
      rows := [];
    }

    method AddRow(r: Row)
      modifies this
      ensures rows == old(rows) + [r]
    {
      rows := rows + [r];
    }
  }

  /** What the date parser made of the time string. */
  datatype Parsed =
    | Naive(wall: int)          // a reading without zone information
    | Aware(time: ZonedTime)    // a reading with an explicit offset
    | ParseErr                  // not recognisable as a date or time

  datatype SourceError = BadTime | UnknownSourceZone(id: string)

  datatype SourceOutcome = SourceOk(time: ZonedTime) | SourceFailed(error: SourceError)

  /** How `convert` ends: aborted before the table, or with its rows and the targets it skipped. */
  datatype ConvertOutcome =
    | Aborted(error: SourceError)
    | Converted(source: ZonedTime, rows: seq<Row>, skipped: seq<string>)

  /**
   * What resolving and opening a zone consult: the alias table and the
   * zone database. The tool itself uses `CityTimezones`.
   */
  datatype Env = Env(aliases: map<string, string>, db: ZoneDb)

  function Tool(db: ZoneDb): (env: Env)
    ensures env.aliases == CityTimezones && env.db == db
  {
    Env(CityTimezones, db)
  }

  /** The commands differ in how a row is labelled and which name an error line quotes. */
  datatype Command = NowCommand | ConvertCommand | DefaultView

  /** `s.replace("_", " ")`. */
  function ReplaceUnderscores(s: string): (r: string)
    ensures |r| == |s| && '_' !in r
    ensures forall i :: 0 <= i < |s| ==> r[i] == (if s[i] == '_' then ' ' else s[i])
  {
    if s == [] then [] else [if s[0] == '_' then ' ' else s[0]] + ReplaceUnderscores(s[1..])
  }

  /** The location label: what was typed, or for a popular city its key with spaces. */
  function Label(cmd: Command, input: string): (l: string)
    ensures |l| == |input|
    ensures cmd != DefaultView ==> l == input
    ensures cmd == DefaultView ==> '_' !in l
  {
    if cmd == DefaultView then ReplaceUnderscores(input) else input
  }

  /** The name an error line quotes: the typed target in `convert`, the resolved id otherwise. */
  function Reported(env: Env, cmd: Command, input: string): (name: string)
    ensures name == input || name in env.aliases.Values
    ensures cmd == ConvertCommand || Normalise(input) !in env.aliases ==> name == input
  {
    if cmd == ConvertCommand then input else ResolveIn(env.aliases, input)
  }

  /** Whether the zone an input names is in the database. */
  predicate Known(env: Env, input: string) {
    ResolveIn(env.aliases, input) in env.db
  }

  /** The row of a known input: its label, its zone id, and the instant read in that zone. */
  function RowFor(env: Env, cmd: Command, input: string, instant: int): Row
    requires Known(env, input)
  {
    Row(Label(cmd, input), ResolveIn(env.aliases, input), AtInstant(env.db[ResolveIn(env.aliases, input)], instant))
  }

  /** The row one input contributes: none when its zone is unknown. */
  function RowsOf(env: Env, cmd: Command, input: string, instant: int): seq<Row> {
    if Known(env, input) then [RowFor(env, cmd, input, instant)] else []
  }

  /** The error line one input contributes: one when its zone is unknown. */
  function FailuresOf(env: Env, cmd: Command, input: string): seq<string> {
    if Known(env, input) then [] else [Reported(env, cmd, input)]
  }

  /**
   * The rows of a table that projects one instant into the zones of
   * `inputs`, in input order; every row shows that instant, read with the
   * offset its own zone has at it.
   */
  function Projection(env: Env, cmd: Command, inputs: seq<string>, instant: int): (rows: seq<Row>)
    decreases |inputs|
  {
    if inputs == [] then []
    else Projection(env, cmd, inputs[..|inputs| - 1], instant) + RowsOf(env, cmd, inputs[|inputs| - 1], instant)
  }

  /** Every row of one table shows the same instant, read with the offset its own zone has at it. */
  lemma {:induction false} ProjectionShowsOneInstant(env: Env, cmd: Command, inputs: seq<string>, instant: int)
    ensures forall k :: 0 <= k < |Projection(env, cmd, inputs, instant)| ==>
      var row := Projection(env, cmd, inputs, instant)[k];
      row.zone in env.db && Instant(row.at) == instant && row.at.offset == env.db[row.zone].utcOffset(instant)
    decreases |inputs|
  {
    if inputs != [] {
      ProjectionShowsOneInstant(env, cmd, inputs[..|inputs| - 1], instant);
    }
  }

  /** The error lines of the same loop, in input order. */
  function Failures(env: Env, cmd: Command, inputs: seq<string>): (errors: seq<string>)
    decreases |inputs|
  {
    if inputs == [] then []
    else Failures(env, cmd, inputs[..|inputs| - 1]) + FailuresOf(env, cmd, inputs[|inputs| - 1])
  }

  /** The inputs whose zone is known, in input order. */
  function KnownInputs(env: Env, inputs: seq<string>): seq<string>
    decreases |inputs|
  {
    if inputs == [] then []
    else KnownInputs(env, inputs[..|inputs| - 1]) + (if Known(env, inputs[|inputs| - 1]) then [inputs[|inputs| - 1]] else [])
  }

  /** One more input extends the rows and the error lines by what that input contributes. */
  lemma ProjectionStep(env: Env, cmd: Command, inputs: seq<string>, i: int, instant: int)
    requires 0 <= i < |inputs|
    ensures Projection(env, cmd, inputs[..i + 1], instant)
         == Projection(env, cmd, inputs[..i], instant) + RowsOf(env, cmd, inputs[i], instant)
    ensures Failures(env, cmd, inputs[..i + 1]) == Failures(env, cmd, inputs[..i]) + FailuresOf(env, cmd, inputs[i])
  {
    assert inputs[..i + 1][..i] == inputs[..i];
  }

  /** The same step, for rows that follow rows already in the table. */
  lemma ProjectionStepAfter(head: seq<Row>, env: Env, cmd: Command, inputs: seq<string>, i: int, instant: int)
    requires 0 <= i < |inputs|
    ensures head + Projection(env, cmd, inputs[..i + 1], instant)
         == head + Projection(env, cmd, inputs[..i], instant) + RowsOf(env, cmd, inputs[i], instant)
    ensures Failures(env, cmd, inputs[..i + 1]) == Failures(env, cmd, inputs[..i]) + FailuresOf(env, cmd, inputs[i])
  {
    ProjectionStep(env, cmd, inputs, i, instant);
  }

  lemma WholePrefix<T>(s: seq<T>)
    ensures s[..|s|] == s
  {
  }

  /** The last element of a concatenation with a non-empty right part, and what precedes it. */
  lemma SplitLast<T>(a: seq<T>, b: seq<T>)
    requires b != []
    ensures (a + b)[..|a + b| - 1] == a + b[..|b| - 1]
    ensures (a + b)[|a + b| - 1] == b[|b| - 1]
  {
    assert (a + b)[..|a + b| - 1] == a + b[..|b| - 1];
  }

  /** Running over two lists one after the other is running over their concatenation. */
  lemma {:induction false} ProjectionAppend(env: Env, cmd: Command, a: seq<string>, b: seq<string>, instant: int)
    ensures Projection(env, cmd, a + b, instant) == Projection(env, cmd, a, instant) + Projection(env, cmd, b, instant)
    decreases |b|
  {
    if b == [] {
      assert a + b == a;
    } else {
      var b', x := b[..|b| - 1], b[|b| - 1];
      SplitLast(a, b);
      ProjectionAppend(env, cmd, a, b', instant);
      calc {
        Projection(env, cmd, a + b, instant);
        Projection(env, cmd, a + b', instant) + RowsOf(env, cmd, x, instant);
        Projection(env, cmd, a, instant) + Projection(env, cmd, b', instant) + RowsOf(env, cmd, x, instant);
        Projection(env, cmd, a, instant) + (Projection(env, cmd, b', instant) + RowsOf(env, cmd, x, instant));
      }
    }
  }

  /** The same holds of the error lines. */
  lemma {:induction false} FailuresAppend(env: Env, cmd: Command, a: seq<string>, b: seq<string>)
    ensures Failures(env, cmd, a + b) == Failures(env, cmd, a) + Failures(env, cmd, b)
    decreases |b|
  {
    if b == [] {
      assert a + b == a;
    } else {
      var b', x := b[..|b| - 1], b[|b| - 1];
      SplitLast(a, b);
      FailuresAppend(env, cmd, a, b');
      calc {
        Failures(env, cmd, a + b);
        Failures(env, cmd, a + b') + FailuresOf(env, cmd, x);
        Failures(env, cmd, a) + Failures(env, cmd, b') + FailuresOf(env, cmd, x);
        Failures(env, cmd, a) + (Failures(env, cmd, b') + FailuresOf(env, cmd, x));
      }
    }
  }

  /**
   * Every input is accounted for exactly once: as a row when its zone is
   * known, as an error line when it is not.
   */
  lemma {:induction false} RowsAndErrorsCoverInputs(env: Env, cmd: Command, inputs: seq<string>, instant: int)
    ensures |Projection(env, cmd, inputs, instant)| == |KnownInputs(env, inputs)|
    ensures |Projection(env, cmd, inputs, instant)| + |Failures(env, cmd, inputs)| == |inputs|
    decreases |inputs|
  {
    if inputs != [] {
      RowsAndErrorsCoverInputs(env, cmd, inputs[..|inputs| - 1], instant);
    }
  }

  /** Row k of the table is the row of the k-th input whose zone is known. */
  lemma {:induction false} RowsFollowKnownInputs(env: Env, cmd: Command, inputs: seq<string>, instant: int)
    ensures |Projection(env, cmd, inputs, instant)| == |KnownInputs(env, inputs)|
    ensures forall k :: 0 <= k < |KnownInputs(env, inputs)| ==>
      Known(env, KnownInputs(env, inputs)[k])
      && Projection(env, cmd, inputs, instant)[k] == RowFor(env, cmd, KnownInputs(env, inputs)[k], instant)
    decreases |inputs|
  {
    RowsAndErrorsCoverInputs(env, cmd, inputs, instant);
    if inputs != [] {
      RowsFollowKnownInputs(env, cmd, inputs[..|inputs| - 1], instant);
    }
  }

  /** When every zone is known, there is one row per input, in input order, and no error line. */
  lemma AllKnownAllRows(env: Env, cmd: Command, inputs: seq<string>, instant: int)
    requires forall k :: 0 <= k < |inputs| ==> Known(env, inputs[k])
    ensures |Projection(env, cmd, inputs, instant)| == |inputs|
    ensures forall k :: 0 <= k < |inputs| ==> Projection(env, cmd, inputs, instant)[k] == RowFor(env, cmd, inputs[k], instant)
    ensures Failures(env, cmd, inputs) == []
  {
    AllKnownInputsKept(env, inputs);
    RowsFollowKnownInputs(env, cmd, inputs, instant);
    NoFailuresWhenKnown(env, cmd, inputs);
  }

  lemma {:induction false} AllKnownInputsKept(env: Env, inputs: seq<string>)
    requires forall k :: 0 <= k < |inputs| ==> Known(env, inputs[k])
    ensures KnownInputs(env, inputs) == inputs
    decreases |inputs|
  {
    if inputs != [] {
      AllKnownInputsKept(env, inputs[..|inputs| - 1]);
    }
  }

  lemma {:induction false} NoFailuresWhenKnown(env: Env, cmd: Command, inputs: seq<string>)
    requires forall k :: 0 <= k < |inputs| ==> Known(env, inputs[k])
    ensures Failures(env, cmd, inputs) == []
    decreases |inputs|
  {
    if inputs != [] {
      NoFailuresWhenKnown(env, cmd, inputs[..|inputs| - 1]);
    }
  }

  /**
   * An unknown zone only skips its own row: the other inputs give the
   * rows they would give without it.
   */
  lemma UnknownInputSkipped(env: Env, cmd: Command, a: seq<string>, x: string, b: seq<string>, instant: int)
    requires !Known(env, x)
    ensures Projection(env, cmd, a + [x] + b, instant) == Projection(env, cmd, a + b, instant)
  {
    assert [x][..0] == [];
    assert Projection(env, cmd, [x], instant) == [];
    ProjectionAppend(env, cmd, a, [x], instant);
    ProjectionAppend(env, cmd, a + [x], b, instant);
    ProjectionAppend(env, cmd, a, b, instant);
  }

  /** ... and its error line comes in its place among the others. */
  lemma UnknownInputReported(env: Env, cmd: Command, a: seq<string>, x: string, b: seq<string>)
    requires !Known(env, x)
    ensures Failures(env, cmd, a + [x] + b) == Failures(env, cmd, a) + [Reported(env, cmd, x)] + Failures(env, cmd, b)
  {
    assert [x][..0] == [];
    assert Failures(env, cmd, [x]) == [Reported(env, cmd, x)];
    FailuresAppend(env, cmd, a, [x]);
    FailuresAppend(env, cmd, a + [x], b);
  }

  /** Two rows of one table in the same zone show the same reading; rows differ only by zone. */
  lemma RowsInOneZoneAgree(env: Env, cmd: Command, inputs: seq<string>, instant: int, j: int, k: int)
    requires 0 <= j < |Projection(env, cmd, inputs, instant)| && 0 <= k < |Projection(env, cmd, inputs, instant)|
    requires Projection(env, cmd, inputs, instant)[j].zone == Projection(env, cmd, inputs, instant)[k].zone
    ensures Projection(env, cmd, inputs, instant)[j].at == Projection(env, cmd, inputs, instant)[k].at
  {
    var rows := Projection(env, cmd, inputs, instant);
    ProjectionShowsOneInstant(env, cmd, inputs, instant);
    SameInstantSameOffset(rows[j].at, rows[k].at);
  }

  /** The source side of `convert`: parse, open the source zone, then localize or re-express. */
  function SourceTime(db: ZoneDb, parsed: Parsed, fromId: string): (r: SourceOutcome)
    ensures r.SourceFailed? <==> parsed.ParseErr? || fromId !in db
    ensures r.SourceFailed? ==> r.error == (if parsed.ParseErr? then BadTime else UnknownSourceZone(fromId))
    ensures parsed.Naive? && r.SourceOk? ==> r.time.wall == parsed.wall
    ensures parsed.Naive? && r.SourceOk? ==> r.time.offset == db[fromId].localizeOffset(parsed.wall)
    ensures parsed.Aware? && r.SourceOk? ==> Instant(r.time) == Instant(parsed.time)
    ensures parsed.Aware? && r.SourceOk? ==> r.time.offset == db[fromId].utcOffset(Instant(parsed.time))
  {
    match parsed
    case ParseErr => SourceFailed(BadTime)
    case Naive(wall) =>
      if fromId in db then SourceOk(Localize(db[fromId], wall)) else SourceFailed(UnknownSourceZone(fromId))
    case Aware(t) =>
      if fromId in db then SourceOk(AsTimezone(t, db[fromId])) else SourceFailed(UnknownSourceZone(fromId))
  }

  /** The exit status of `convert`. */
  function ExitStatus(o: ConvertOutcome): (status: int)
    ensures status == 1 <==> o.Aborted?
    ensures status == 0 <==> o.Converted?
  {
    if o.Aborted? then 1 else 0
  }

  /**
   * An aware time names the same instant whichever known zone it comes
   * from, so the rows of `convert` do not depend on `--from`.
   */
  lemma AwareSourceZoneIrrelevant(db: ZoneDb, t: ZonedTime, f: string, g: string)
    requires f in db && g in db
    ensures Instant(SourceTime(db, Aware(t), f).time) == Instant(SourceTime(db, Aware(t), g).time)
  {
  }

  /**
   * Converting a naive time into its own source zone gives back the
   * reading that was typed, when no transition of the zone skips it.
   */
  lemma NaiveBackIntoSourceZone(db: ZoneDb, wall: int, fromId: string, target: string)
    requires fromId in db && Resolve(target) == fromId && LocalizeConsistent(db[fromId], wall)
    ensures Known(Tool(db), target)
    ensures RowFor(Tool(db), ConvertCommand, target, Instant(SourceTime(db, Naive(wall), fromId).time)).at
         == SourceTime(db, Naive(wall), fromId).time
    ensures RowFor(Tool(db), ConvertCommand, target, Instant(SourceTime(db, Naive(wall), fromId).time)).at.wall == wall
  {
    LocalizeThenReadBack(db[fromId], wall);
  }

  /** `now faketown`: no row, and one error line that names "faketown" as it was typed. */
  lemma NowUnknownCity(db: ZoneDb, nowUtc: int)
    requires "faketown" !in db
    ensures Projection(Tool(db), NowCommand, ["faketown"], nowUtc) == []
    ensures Failures(Tool(db), NowCommand, ["faketown"]) == ["faketown"]
  {
    ResolveUnknownCity();
    assert ["faketown"][..0] == [];
  }

  lemma Clock24At17() ensures Clock24(17, 0, 0) == "17:00:00" {
    assert Pad2(17) == "17" && Pad2(0) == "00";
  }

  lemma NewYear2026Text() ensures YearString(2026) + "-" + Pad2(1) + "-" + Pad2(1) == "2026-01-01" {
    assert Pad2(1) == "01";
    assert YearString(2026) == "2026";
  }

  /** The date and clock a row of the date-line example shows. */
  lemma SydneyNewYearCells()
    ensures FormatTime(WallOf(Date(2026, 1, 1), 17, 0, 0), false) == "17:00:00"
    ensures FormatDate(WallOf(Date(2026, 1, 1), 17, 0, 0)) == "2026-01-01"
  {
    FormatWallOf(Date(2026, 1, 1), 17, 0, 0);
    Clock24At17();
    NewYear2026Text();
  }

  /** 22:00 on the last day of 2025, less eight hours of offset, plus eleven, is 17:00 on New Year's Day. */
  lemma DateLineArithmetic()
    ensures WallOf(Date(2025, 12, 31), 22, 0, 0) + 8 * SecondsPerHour + 11 * SecondsPerHour == WallOf(Date(2026, 1, 1), 17, 0, 0)
  {
    assert DaysFromCivil(Date(2026, 1, 1)) == DaysFromCivil(Date(2025, 12, 31)) + 1;
  }

  /**
   * `convert "2025-12-31 10:00pm" --from la --to sydney`, with both zones
   * held at the offsets they have that night (UTC-8 and UTC+11): the one
   * row shows 17:00:00 on 2026-01-01.
   */
  lemma DateLineConversion(db: ZoneDb)
    requires "America/Los_Angeles" in db && db["America/Los_Angeles"] == FixedZone(-8 * SecondsPerHour)
    requires "Australia/Sydney" in db && db["Australia/Sydney"] == FixedZone(11 * SecondsPerHour)
    ensures var src := SourceTime(db, Naive(WallOf(Date(2025, 12, 31), 22, 0, 0)), Resolve("la"));
      && src.SourceOk?
      && |Projection(Tool(db), ConvertCommand, ["sydney"], Instant(src.time))| == 1
      && Cells(Projection(Tool(db), ConvertCommand, ["sydney"], Instant(src.time))[0], false)
         == ["sydney", "Australia/Sydney", "17:00:00", "2026-01-01"]
  {
    ResolveKeyLa();
    ResolveKeySydney();
    var w := WallOf(Date(2025, 12, 31), 22, 0, 0);
    var src := SourceTime(db, Naive(w), "America/Los_Angeles");
    assert Instant(src.time) == w + 8 * SecondsPerHour;
    assert ["sydney"][..0] == [];
    var row := Projection(Tool(db), ConvertCommand, ["sydney"], Instant(src.time))[0];
    DateLineArithmetic();
    assert row.at.wall == WallOf(Date(2026, 1, 1), 17, 0, 0);
    SydneyNewYearCells();
  }

  /** The UTC row that heads the default view. */
  function UtcRow(nowUtc: int): (r: Row)
    ensures Instant(r.at) == nowUtc && r.at.offset == 0
  {
    Row("UTC", "Etc/UTC", ZonedTime(nowUtc, 0))
  }

  /**
   * When every popular city's zone is in the database, the default view
   * lists the six cities in order after the UTC row, each labelled by its
   * key with spaces and shown in the zone the table gives it, and prints no
   * error line.
   */
  lemma DefaultViewComplete(db: ZoneDb, nowUtc: int)
    requires forall k :: 0 <= k < |PopularCities| ==> Known(Tool(db), PopularCities[k])
    ensures |Projection(Tool(db), DefaultView, PopularCities, nowUtc)| == |PopularCities| == 6
    ensures Failures(Tool(db), DefaultView, PopularCities) == []
    ensures forall k :: 0 <= k < |PopularCities| ==>
      && Projection(Tool(db), DefaultView, PopularCities, nowUtc)[k].location == ReplaceUnderscores(PopularCities[k])
      && PopularCities[k] in CityTimezones
      && Projection(Tool(db), DefaultView, PopularCities, nowUtc)[k].zone == CityTimezones[PopularCities[k]]
  {
    AllKnownAllRows(Tool(db), DefaultView, PopularCities, nowUtc);
    PopularCitiesAreAliases();
    forall k | 0 <= k < |PopularCities|
      ensures PopularCities[k] in PopularCities
    {
    }
  }

  /**
   * One pass of a command's loop: resolve the input, open its zone, and
   * either add the row showing `instant` there or give back the error line.
   */
  method AddZoneRow(table: Table, db: ZoneDb, cmd: Command, input: string, instant: int) returns (error: seq<string>)
    modifies table
    ensures table.rows == old(table.rows) + RowsOf(Tool(db), cmd, input, instant)
    ensures error == FailuresOf(Tool(db), cmd, input)
  {
    var tzStr := Resolve(input);
    if tzStr in db {
      var dt := AtInstant(db[tzStr], instant);
      table.AddRow(Row(Label(cmd, input), tzStr, dt));
      error := [];
    } else {
      error := [Reported(Tool(db), cmd, input)];
    }
  }

  /** `now`: the current time in each of `zones`. */
  method Now(db: ZoneDb, zones: seq<string>, nowUtc: int) returns (rows: seq<Row>, errors: seq<string>)
    ensures rows == Projection(Tool(db), NowCommand, zones, nowUtc)
    ensures errors == Failures(Tool(db), NowCommand, zones)
  {
    var table := new Table("Current Time");
    errors := [];
    for i := 0 to |zones|
      invariant table.rows == Projection(Tool(db), NowCommand, zones[..i], nowUtc)
      invariant errors == Failures(Tool(db), NowCommand, zones[..i])
    {
      ProjectionStep(Tool(db), NowCommand, zones, i, nowUtc);
      var error := AddZoneRow(table, db, NowCommand, zones[i], nowUtc);
      errors := errors + error;
    }
    WholePrefix(zones);
    rows := table.rows;
  }

  /** `convert`: one time, from `frm` into each of `to`. */
  method Convert(db: ZoneDb, parsed: Parsed, frm: string, to: seq<string>) returns (out: ConvertOutcome)
    ensures SourceTime(db, parsed, Resolve(frm)).SourceFailed? <==> out.Aborted?
    ensures out.Aborted? ==> out.error == SourceTime(db, parsed, Resolve(frm)).error
    ensures ExitStatus(out) == 1 <==> parsed.ParseErr? || Resolve(frm) !in db
    ensures out.Converted? ==>
      && out.source == SourceTime(db, parsed, Resolve(frm)).time
      && out.rows == Projection(Tool(db), ConvertCommand, to, Instant(out.source))
      && out.skipped == Failures(Tool(db), ConvertCommand, to)
  {
    var fromTzStr := Resolve(frm);
    var sourceDt: ZonedTime;
    match parsed {
      case ParseErr =>
        return Aborted(BadTime);
      case Naive(wall) =>
        if fromTzStr !in db {
          return Aborted(UnknownSourceZone(fromTzStr));
        }
        sourceDt := Localize(db[fromTzStr], wall);
      case Aware(t) =>
        if fromTzStr !in db {
          return Aborted(UnknownSourceZone(fromTzStr));
        }
        sourceDt := AsTimezone(t, db[fromTzStr]);
    }
    var table := new Table("Conversion");
    var skipped: seq<string> := [];
    for i := 0 to |to|
      invariant table.rows == Projection(Tool(db), ConvertCommand, to[..i], Instant(sourceDt))
      invariant skipped == Failures(Tool(db), ConvertCommand, to[..i])
    {
      ProjectionStep(Tool(db), ConvertCommand, to, i, Instant(sourceDt));
      var error := AddZoneRow(table, db, ConvertCommand, to[i], Instant(sourceDt));
      skipped := skipped + error;
    }
    WholePrefix(to);
    return Converted(sourceDt, table.rows, skipped);
  }

  /** The default view: UTC first, then each popular city. */
  method DefaultClocks(db: ZoneDb, nowUtc: int) returns (rows: seq<Row>, errors: seq<string>)
    ensures rows == [UtcRow(nowUtc)] + Projection(Tool(db), DefaultView, PopularCities, nowUtc)
    ensures errors == Failures(Tool(db), DefaultView, PopularCities)
  {
    var table := new Table("Live World Clocks");
    table.AddRow(UtcRow(nowUtc));
    errors := [];
    for i := 0 to |PopularCities|
      invariant table.rows == [UtcRow(nowUtc)] + Projection(Tool(db), DefaultView, PopularCities[..i], nowUtc)
      invariant errors == Failures(Tool(db), DefaultView, PopularCities[..i])
    {
      ProjectionStepAfter([UtcRow(nowUtc)], Tool(db), DefaultView, PopularCities, i, nowUtc);
      var error := AddZoneRow(table, db, DefaultView, PopularCities[i], nowUtc);
      errors := errors + error;
    }
    WholePrefix(PopularCities);
    rows := table.rows;
  }
}
