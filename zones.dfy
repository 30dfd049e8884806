/**
 * An abstract timezone database, standing for what the tool asks of pytz.
 *
 * A zone is known only through two offset rules, in seconds east of UTC:
 * the offset in force at an instant (what `astimezone` and `fromutc` use),
 * and the offset `localize` gives a wall-clock reading with the library's
 * default `is_dst=False`, which settles readings that a transition makes
 * ambiguous or skips. Which names the database knows, and the rules behind
 * them, are parameters of the model.
 *
 * An aware time is a wall-clock reading with the offset that anchors it;
 * the instant it names is in seconds since 1970-01-01T00:00:00Z.
 */
module Zones {

  datatype Zone = Zone(utcOffset: int -> int, localizeOffset: int -> int)

  /** Zone ids that `pytz.timezone` accepts, with the zone each one opens. */
  type ZoneDb = map<string, Zone>

  /** An aware time: a wall-clock reading (seconds since 1970-01-01T00:00:00) and its UTC offset. */
  datatype ZonedTime = ZonedTime(wall: int, offset: int)

  function Instant(t: ZonedTime): int {
    t.wall - t.offset
  }

  /** The reading a zone shows at an instant (`astimezone` applied to an instant). */
  function AtInstant(z: Zone, instant: int): (t: ZonedTime)
    ensures Instant(t) == instant
    ensures t.offset == z.utcOffset(instant)
  {
    ZonedTime(instant + z.utcOffset(instant), z.utcOffset(instant))
  }

  /** `t.astimezone(z)`: the same instant, read in another zone. */
  function AsTimezone(t: ZonedTime, z: Zone): (r: ZonedTime)
    ensures Instant(r) == Instant(t)
    ensures r.offset == z.utcOffset(Instant(t))
  {
    AtInstant(z, Instant(t))
  }

  /** `z.localize(naive)`: attach a zone to a reading without moving its clock. */
  function Localize(z: Zone, wall: int): (t: ZonedTime)
    ensures t.wall == wall
    ensures Instant(t) == wall - z.localizeOffset(wall)
  {
    ZonedTime(wall, z.localizeOffset(wall))
  }

  /**
   * The offset `localize` picks for a reading is one the zone has in force
   * at the instant it then names: the reading is not skipped by a
   * transition. A repeated reading qualifies too, whichever of its two
   * offsets `localize` picks.
   */
  predicate LocalizeConsistent(z: Zone, wall: int) {
    z.utcOffset(wall - z.localizeOffset(wall)) == z.localizeOffset(wall)
  }

  /** A fixed-offset zone such as UTC, or any zone over a stretch without transitions. */
  function FixedZone(offset: int): (z: Zone)
    ensures forall t :: z.utcOffset(t) == offset && z.localizeOffset(t) == offset
  {
    Zone(_ => offset, _ => offset)
  }

  /** Re-expressing a time in the zone it is already in changes nothing. */
  lemma AsTimezoneIdempotent(t: ZonedTime, z: Zone)
    ensures AsTimezone(AsTimezone(t, z), z) == AsTimezone(t, z)
  {
  }

  /** Going from A to B and back to A reproduces the reading in A. */
  lemma AsTimezoneRoundTrip(t: ZonedTime, a: Zone, b: Zone)
    ensures AsTimezone(AsTimezone(AsTimezone(t, a), b), a) == AsTimezone(t, a)
  {
  }

  /** Two readings of one instant that share their offset are the same reading. */
  lemma SameInstantSameOffset(s: ZonedTime, t: ZonedTime)
    requires Instant(s) == Instant(t) && s.offset == t.offset
    ensures s == t
  {
  }

  /**
   * A reading localized in a zone and read back in that zone keeps its
   * clock, provided a transition does not skip it.
   */
  lemma LocalizeThenReadBack(z: Zone, wall: int)
    requires LocalizeConsistent(z, wall)
    ensures AsTimezone(Localize(z, wall), z) == Localize(z, wall)
  {
    SameInstantSameOffset(AsTimezone(Localize(z, wall), z), Localize(z, wall));
  }
}
