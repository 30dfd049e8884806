# chrononav, modelled in Dafny

chrononav is a small command-line tool for timezones. It has three commands:

- The default view lists the current time in UTC and in six popular cities.
- `now` shows the current time in the zones or cities it is given.
- `convert` takes one time from a source zone and shows it in target zones.

Each target can be a zone id (`Europe/Rome`) or a city alias. An alias is looked up, after lower-casing and turning spaces into underscores, in a fixed table of 21 aliases. A name that is not an alias is passed on unchanged. The tool makes a table and adds one row per target that the timezone database knows. Each row gives a label, the zone id, the clock time and the date. A target the database does not know only costs its own row: the tool prints an error line and moves on. In `convert`, a time that will not parse, or a source zone that is not known, stops the command with exit status 1.

The project is organised as five modules:

- `Aliases` (aliases.dfy): the alias table, the list of popular cities, the normaliser and the resolver. Facts about particular spellings are proved one per lemma.
- `Calendar` (calendar.dfy): the proleptic Gregorian calendar. It converts between day numbers and dates in both directions, with both round trips proved. It also splits a wall-clock reading into hour, minute and second.
- `Clock` (clock.dfy): the strings `strftime` produces for `%H:%M:%S`, `%I:%M:%S %p` and `%Y-%m-%d`. Each string is specified by reading its digits back.
- `Zones` (zones.dfy): an abstract timezone database. Its behaviour is inferred from what the tool asks pytz to do.
  - A zone is known only through two rules. The first gives the offset at an instant (what `astimezone` uses). The second gives the offset `localize` picks for a wall reading.
  - An aware time is a wall reading together with its offset.
- `Commands` (commands.dfy): the three commands, written as methods.
  - Each method fills a `Table` object row by row in a loop, as the tool does.
  - Each method is proved equal to a specification function. `Projection` gives the rows and `Failures` gives the error lines.
  - The lemmas about these functions state the tool's guarantees: order is preserved, failures are isolated, and every row shows the same instant.

The current instant and the date parser's answer are parameters. The zone database is a parameter too: a map from zone ids to `Zone` values.

## Model

| member | source | states |
|---|---|---|
| Aliases.Normalise | chrononav/main.py:55 | the key has the name's length, and each character is lower-cased (ASCII), with a space turned into an underscore |
| Aliases.ResolveIn | chrononav/main.py:55-56 | the resolved name is either the input itself or one of the table's zone ids, and it is the input itself whenever the input's key is not in the table |
| Aliases.Resolve | chrononav/main.py:54-56 | `resolve_timezone_str` returns the input or a zone id of the alias table; both branches of the `.get` are pinned down by `ResolveBySpelling` and `ResolvePassthrough`, and its idempotence by `ResolveIdempotent` |
| Aliases.NormaliseIdempotent | chrononav/main.py:55 | normalising twice equals normalising once; the result contains no capital letter and no space |
| Aliases.KeysAreNormal | chrononav/main.py:28-50 | every key in the table is already in normal form |
| Aliases.ResolveBySpelling | chrononav/main.py:54-56 | two names with the same key resolve to the same zone id, and that id is the table's entry for the key |
| Aliases.ResolvePassthrough | chrononav/main.py:56 | a name whose key is not in the table comes back exactly as typed |
| Aliases.ResolveNewYork | chrononav/main.py:31-32 | "New York", "new_york", "NYC" and "nyc" all resolve to America/New_York |
| Aliases.ResolveLosAngeles | chrononav/main.py:42-43 | "la", "Los Angeles" and "los_angeles" all resolve to America/Los_Angeles |
| Aliases.ResolveIndianCities | chrononav/main.py:47-49 | "mumbai", "Delhi" and "kolkata" all resolve to Asia/Kolkata |
| Aliases.ResolveUnknownCity | tests/test_main.py:33-37 | "faketown" is no alias and resolves to itself |
| Aliases.ResolveUnknownZone | chrononav/main.py:56 | a zone-like name that is no alias, "Not/AZone", comes back with its capitals kept |
| Aliases.LongNamePassesThrough | chrononav/main.py:28-56 | a name of ten characters or more, other than eleven, is not an alias in any spelling and passes through |
| Aliases.ValuesResolveToThemselves | chrononav/main.py:28-56 | every zone id in the table resolves to itself |
| Aliases.ResolveIdempotent | chrononav/main.py:28-56 | resolving a resolved name changes nothing, for every input |
| Aliases.PopularCitiesAreAliases | chrononav/main.py:51 | each popular city is a key of the table and resolves to that key's entry |
| Calendar.CivilFromDaysValid | chrononav/main.py:102 | the date of any day number is a valid date: month 1..12 and day within the month's length, leap years included |
| Calendar.DaysFromCivilFromDays | chrononav/main.py:102 | turning a day number into a date and back gives the same day number |
| Calendar.CivilFromDaysFromCivil | chrononav/main.py:102 | turning a valid date into a day number and back gives the same date |
| Calendar.FieldsOfWall | chrononav/main.py:59-63 | the wall reading built from a date and clock fields has exactly those hour, minute, second and date |
| Clock.Decimal | chrononav/main.py:61-63 | the string is all digits, spells n, and is zero-padded to the requested width |
| Clock.Hour12 | chrononav/main.py:61 | the 12-hour hour is in 1..12 and agrees with the hour modulo 12 |
| Clock.Clock24 | chrononav/main.py:63 | `%H:%M:%S` has eight characters, and its first two digits spell the hour unchanged; minutes and seconds follow as ":MM:SS" |
| Clock.Clock12 | chrononav/main.py:61 | `%I:%M:%S %p` has eleven characters, and its hour digits are in 1..12; AM is shown exactly before noon, and the hour digits modulo 12, plus 12 for PM, give back the hour |
| Clock.MidnightAndNoon | chrononav/main.py:61 | hour 0 shows as "12 … AM" and hour 12 as "12 … PM" |
| Clock.AfternoonHours | chrononav/main.py:61 | hours 13..23 show as the hour less twelve, with PM |
| Clock.FormatTime | chrononav/main.py:59-63 | `format_time` output is eleven characters in 12-hour mode and eight otherwise |
| Clock.FormatTime24Fields | chrononav/main.py:63 | in 24-hour mode the shown hour, minute and second are those of the wall reading |
| Clock.FormatTime12Fields | chrononav/main.py:61 | for every wall reading, the 12-hour string shows an hour in 1..12 and the right AM/PM; that hour modulo 12, plus 12 for PM, is the reading's hour, and minutes and seconds follow as ":MM:SS" |
| Clock.FormatTimeFields | chrononav/main.py:59-63 | in either mode the clock string has its fixed width and shows the reading's minutes and seconds; in 24-hour mode it shows the hour, and in 12-hour mode the AM/PM half |
| Clock.ClocksShareMinutesSeconds | chrononav/main.py:59-63 | both modes show the same minutes and seconds |
| Clock.FormatDate | chrononav/main.py:102 | `%Y-%m-%d` is ten characters with dashes at positions 4 and 7, and for a year in 0..9999 its digit groups spell the year, month and day |
| Clock.YearString | chrononav/main.py:102 | for a year in 0..9999, `%Y` gives four digits that spell the year |
| Clock.FormatWallOf | chrononav/main.py:59-63 | a wall reading built from a date and clock fields prints as those fields, in both clock modes and as a date |
| Zones.AtInstant | chrononav/main.py:109 | a zone's reading of an instant names that instant, with the zone's offset at it |
| Zones.AsTimezone | chrononav/main.py:193 | `astimezone` keeps the instant and takes the target zone's offset at it |
| Zones.Localize | chrononav/main.py:179 | `localize` keeps the wall reading and anchors it with the zone's localize offset |
| Zones.AsTimezoneIdempotent | chrononav/main.py:181 | re-expressing a time in the zone it is already in changes nothing |
| Zones.AsTimezoneRoundTrip | chrononav/main.py:193 | going from zone A to zone B and back to A reproduces the reading in A |
| Zones.LocalizeThenReadBack | chrononav/main.py:179 | a reading localized in a zone and read back in that zone keeps its clock, provided no transition of the zone skips it |
| Commands.ReplaceUnderscores | chrononav/main.py:111 | the label keeps the key's length and has every underscore turned into a space |
| Commands.Label | chrononav/main.py:111 | the location label has the input's length; it is the input unchanged in `now` and `convert` (chrononav/main.py:141, 195), and has no underscore in the default view |
| Commands.Reported | chrononav/main.py:200-203 | the name an error line quotes is the input or a zone id of the alias table; `convert` quotes the target as typed (chrononav/main.py:202), and an input whose key is no alias is quoted as typed in every command (chrononav/main.py:118, 147) |
| Commands.Cells | chrononav/main.py:194-199 | a row prints four cells, in the same layout at chrononav/main.py:101-102, 110-115 and 140-145. The cells are the label, then the zone id, then a clock string of the mode's width that shows the row's minutes, seconds and hour (or AM/PM), then a date whose digits spell the row's year, month and day |
| Commands.Table.constructor | chrononav/main.py:66-77 | a new table has its title and no rows |
| Commands.Table.AddRow | chrononav/main.py:194-199 | `add_row` appends exactly the given row after the existing ones |
| Commands.ProjectionShowsOneInstant | chrononav/main.py:135-139 | every row of one table shows the same instant, with the offset its own zone has at that instant |
| Commands.RowsInOneZoneAgree | chrononav/main.py:193 | two rows of one table in the same zone show the same reading |
| Commands.ProjectionAppend | chrononav/main.py:189-203 | running the loop over two lists in turn gives the rows of running it over their concatenation |
| Commands.FailuresAppend | chrononav/main.py:189-203 | the same holds of the error lines |
| Commands.RowsAndErrorsCoverInputs | chrononav/main.py:136-148 | each input gives exactly one row or one error line: the rows are as many as the known inputs, and rows plus errors are as many as the inputs |
| Commands.RowsFollowKnownInputs | chrononav/main.py:136-148 | row k is the row of the k-th known input, in input order |
| Commands.AllKnownAllRows | chrononav/main.py:189-203 | when every zone is known there is one row per input, in order, and no error line |
| Commands.UnknownInputSkipped | chrononav/main.py:146-148 | an unknown target only drops its own row; the other targets give the rows they would give without it |
| Commands.UnknownInputReported | chrononav/main.py:200-203 | an unknown target's error line comes in its place among the others; in `convert` it names the target as typed |
| Commands.SourceTime | chrononav/main.py:174-184 | the source fails exactly when the time does not parse or the source zone is unknown, and the parse error wins. A naive time keeps its clock and takes the localize offset. An aware time keeps its instant and takes the source zone's offset |
| Commands.ExitStatus | chrononav/main.py:182-184 | the status is 1 exactly when `convert` aborted on its source, and 0 exactly when it produced its table |
| Commands.AwareSourceZoneIrrelevant | chrononav/main.py:181 | for an aware time, every known source zone gives the same instant |
| Commands.NaiveBackIntoSourceZone | chrononav/main.py:179-193 | converting a naive time into its own source zone shows the reading that was typed, when no transition of the source zone skips that reading |
| Commands.NowUnknownCity | tests/test_main.py:33-37 | `now faketown` makes no row and one error line naming "faketown" |
| Commands.DateLineConversion | tests/test_main.py:59-69 | with Los Angeles at UTC-8 and Sydney at UTC+11, 22:00 on 2025-12-31 in "la" gives one Sydney row reading 17:00:00 on 2026-01-01 |
| Commands.UtcRow | chrononav/main.py:101-103 | the default view's first row shows the current instant at offset zero |
| Commands.DefaultViewComplete | chrononav/main.py:106-119 | when the six popular zones are known, the default view gives six rows in order, labelled with the key's spaces and using the table's zone ids, and no error line |
| Commands.AddZoneRow | chrononav/main.py:137-148 | one pass of a loop adds the input's row when its zone is known, and otherwise returns the input's error line |
| Commands.Now | chrononav/main.py:134-149 | the rows of `now` are the projection of the one current instant into the given zones, and its error lines are their failures |
| Commands.Convert | chrononav/main.py:174-204 | `convert` aborts with the source error, and exit status 1, exactly when the source fails. Otherwise its rows project the source instant into the targets, and it returns the skipped targets |
| Commands.DefaultClocks | chrononav/main.py:93-121 | the default view gives the UTC row, then the projection of the current instant into the popular cities, plus their error lines |

## Left out

- Label casing: `str.title()` on the labels of `now`, `convert` and the default view is not modelled. A row's label is the input as typed, and in the default view the key with spaces for underscores.
- Normalisation uses ASCII lower-casing only. Python's full Unicode `lower()` is not modelled.
- The timezone database is abstract:
  - pytz's zone data, DST rules and case-insensitive name lookup are not modelled.
  - So is the way `localize(is_dst=False)` settles skipped and repeated readings.
  - The database is a map from the exact id string to a `Zone` with two offset functions.
- The date-line conversion holds only under the two fixed offsets it assumes, not from real zone data.
- Parsing: dateutil's `parse` is an abstract `Parsed` value, and the `ValueError` it may raise is folded into `ParseErr`.
- Microseconds are not modelled. Neither is the range of years `datetime` accepts, with its `OverflowError`.
- Inputs rather than calls: `datetime.now(pytz.utc)` is an input instant. The command-line wiring (typer) is left out; each command is a method taking its arguments.
- Output: error lines are returned as the name each one quotes, and the message text around it is left out.
- Printing and layout are left out:
  - the rich console and table styling;
  - `create_time_table`'s columns;
  - `add_section`;
  - the pyfiglet banner.
- The table title of `convert` is modelled as a fixed string; the `strftime` text in it is left out.
- The `--am-pm` option only selects which clock string `Cells` renders. The rows themselves do not depend on it.
- Clock.YearString: years below 1000 are always zero-padded to four digits. Whether `%Y` pads them depends on the C library underneath `strftime`.
- Commands.Convert: the exceptions are modelled as ordered results. The parse comes first, then opening the source zone. The `astimezone` and `localize` steps cannot fail in the model.
