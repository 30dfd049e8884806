/**
 * The fixed table of city aliases and the resolver that turns what a user
 * typed into a timezone identifier.
 *
 * A name is normalised by lower-casing it and turning spaces into
 * underscores; a normalised name found in the table resolves to the
 * table's zone id, and anything else is handed back exactly as typed so
 * that raw zone ids ("Europe/Rome") can be used directly.
 */
module Aliases {

  /** The alias table; every key is already in normal form. */
  const CityTimezones: map<string, string> := map[
    "utc" := "UTC",
    "gmt" := "GMT",
    "new_york" := "America/New_York",
    "nyc" := "America/New_York",
    "london" := "Europe/London",
    "ist" := "Europe/Dublin",
    "tokyo" := "Asia/Tokyo",
    "sydney" := "Australia/Sydney",
    "dubai" := "Asia/Dubai",
    "paris" := "Europe/Paris",
    "berlin" := "Europe/Berlin",
    "beijing" := "Asia/Shanghai",
    "shanghai" := "Asia/Shanghai",
    "los_angeles" := "America/Los_Angeles",
    "la" := "America/Los_Angeles",
    "chicago" := "America/Chicago",
    "moscow" := "Europe/Moscow",
    "cairo" := "Africa/Cairo",
    "kolkata" := "Asia/Kolkata",
    "mumbai" := "Asia/Kolkata",
    "delhi" := "Asia/Kolkata"
  ]

  /** The cities shown by the default view, in display order. */
  const PopularCities: seq<string> := ["new_york", "london", "tokyo", "dubai", "sydney", "kolkata"]

  /** ASCII lower-casing; every other character is left alone. */
  function LowerChar(c: char): char {
    if 'A' <= c <= 'Z' then (c as int + 32) as char else c
  }

  /** One character of the normal form: lower-cased, a space becomes an underscore. */
  function NormalChar(c: char): char {
    if c == ' ' then '_' else LowerChar(c)
  }

  /** The lookup key of a name. */
  function Normalise(s: string): (k: string)
    ensures |k| == |s|
    ensures forall i :: 0 <= i < |s| ==> k[i] == NormalChar(s[i])
  {
    if s == [] then [] else [NormalChar(s[0])] + Normalise(s[1..])
  }

  /** A key is in normal form when normalising leaves it as it is. */
  predicate IsNormal(s: string) {
    forall i :: 0 <= i < |s| ==> NormalChar(s[i]) == s[i]
  }

  /** The zone id a user-supplied name stands for, under an alias table. */
  function ResolveIn(aliases: map<string, string>, name: string): (id: string)
    ensures id == name || id in aliases.Values
    ensures Normalise(name) !in aliases ==> id == name
  {
    var key := Normalise(name);
    if key in aliases then aliases[key] else name
  }

  /** The zone id a user-supplied name stands for (`resolve_timezone_str`). */
  function Resolve(name: string): (id: string)
    ensures id == name || id in CityTimezones.Values
  {
    ResolveIn(CityTimezones, name)
  }

  /** Normalising twice is normalising once, and the result has no capital or space left. */
  lemma NormaliseIdempotent(s: string)
    ensures Normalise(Normalise(s)) == Normalise(s)
    ensures IsNormal(Normalise(s))
    ensures ' ' !in Normalise(s)
  {
    var k := Normalise(s);
    assert forall i :: 0 <= i < |k| ==> NormalChar(k[i]) == k[i];
    assert Normalise(k) == k;
  }

  /** The characters of every key are already normal. */
  lemma KeyCharactersNormal(key: string)
    requires key in CityTimezones
    ensures forall i :: 0 <= i < |key| ==> NormalChar(key[i]) == key[i]
  {
  }

  /** Every key of the table is in normal form, so it can be typed as it stands. */
  lemma KeysAreNormal()
    ensures forall key :: key in CityTimezones ==> Normalise(key) == key
  {
    forall key | key in CityTimezones
      ensures Normalise(key) == key
    {
      KeyCharactersNormal(key);
      NormalisesTo(key, key);
    }
  }

  /**
   * Two spellings with the same normal form resolve alike; in particular
   * an alias may be typed in any case and with spaces for underscores.
   */
  lemma ResolveBySpelling(a: string, b: string)
    requires Normalise(a) == Normalise(b) && Normalise(a) in CityTimezones
    ensures Resolve(a) == Resolve(b) == CityTimezones[Normalise(a)]
  {
  }

  /** A name whose key is missing comes back exactly as given, not normalised. */
  lemma ResolvePassthrough(name: string)
    requires Normalise(name) !in CityTimezones
    ensures Resolve(name) == name
  {
  }

  /** Keys are short; a name longer than eight characters can only match "los_angeles". */
  lemma KeyLengths()
    ensures forall key :: key in CityTimezones ==> |key| <= 8 || key == "los_angeles"
  {
  }

  /** No key has ten characters or more, apart from the eleven of "los_angeles". */
  lemma NoLongKey(key: string)
    requires |key| >= 10 && |key| != 11
    ensures key !in CityTimezones
  {
    KeyLengths();
  }

  /** The zone id under a key is "UTC", "GMT", or at least ten characters long and not eleven. */
  lemma ValueLength(key: string)
    requires key in CityTimezones
    ensures var id := CityTimezones[key]; id == "UTC" || id == "GMT" || (|id| >= 10 && |id| != 11)
  {
  }

  /** Apart from "UTC" and "GMT", every zone id in the table is longer than any key. */
  lemma ValueLengths()
    ensures forall id :: id in CityTimezones.Values ==> id == "UTC" || id == "GMT" || (|id| >= 10 && |id| != 11)
  {
    forall id | id in CityTimezones.Values
      ensures id == "UTC" || id == "GMT" || (|id| >= 10 && |id| != 11)
    {
      var key :| key in CityTimezones && CityTimezones[key] == id;
      ValueLength(key);
    }
  }

  /** A name of ten characters or more, other than eleven, is no alias in any spelling. */
  lemma LongNamePassesThrough(name: string)
    requires |name| >= 10 && |name| != 11
    ensures Resolve(name) == name
  {
    var key := Normalise(name);
    assert |key| == |name|;
    NoLongKey(key);
    ResolveThroughKey(name, key);
  }

  /** A name whose characters normalise one by one to `key` has normal form `key`. */
  lemma NormalisesTo(name: string, key: string)
    requires |name| == |key| && forall i :: 0 <= i < |name| ==> NormalChar(name[i]) == key[i]
    ensures Normalise(name) == key
  {
  }

  /** A name resolves through the key it normalises to. */
  lemma ResolveThroughKey(name: string, key: string)
    requires Normalise(name) == key
    ensures key in CityTimezones ==> Resolve(name) == CityTimezones[key]
    ensures key !in CityTimezones ==> Resolve(name) == name
  {
  }

  /** "UTC" and "GMT" are both zone ids and keys of themselves, in lower case. */
  lemma UtcAndGmtResolveToThemselves()
    ensures Resolve("UTC") == "UTC" && Resolve("GMT") == "GMT"
  {
    NormalisesTo("UTC", "utc");
    ResolveThroughKey("UTC", "utc");
    NormalisesTo("GMT", "gmt");
    ResolveThroughKey("GMT", "gmt");
  }

  /** Every zone id in the table resolves to itself. */
  lemma ValuesResolveToThemselves(id: string)
    requires id in CityTimezones.Values
    ensures Resolve(id) == id
  {
    ValueLengths();
    if id == "UTC" || id == "GMT" {
      UtcAndGmtResolveToThemselves();
    } else {
      LongNamePassesThrough(id);
    }
  }

  /**
   * Resolution is idempotent: a table value either normalises to a key that
   * maps back to it ("UTC", "GMT") or normalises to no key and passes through.
   */
  lemma ResolveIdempotent(name: string)
    ensures Resolve(Resolve(name)) == Resolve(name)
  {
    if Normalise(name) in CityTimezones {
      ValuesResolveToThemselves(CityTimezones[Normalise(name)]);
    }
  }

  // Single spellings, one lemma each so that every proof handles one literal.

  lemma ResolveSpacedNewYork() ensures Resolve("New York") == "America/New_York" {
    NewYorkEntry();
    NormalisesTo("New York", "new_york");
    ResolveThroughKey("New York", "new_york");
  }

  lemma ResolveKeyNewYork() ensures Resolve("new_york") == "America/New_York" {
    NewYorkEntry();
    NormalisesTo("new_york", "new_york");
    ResolveThroughKey("new_york", "new_york");
  }

  lemma ResolveUpperNyc() ensures Resolve("NYC") == "America/New_York" {
    NycEntry();
    NormalisesTo("NYC", "nyc");
    ResolveThroughKey("NYC", "nyc");
  }

  lemma ResolveKeyNyc() ensures Resolve("nyc") == "America/New_York" {
    NycEntry();
    NormalisesTo("nyc", "nyc");
    ResolveThroughKey("nyc", "nyc");
  }

  lemma ResolveKeyLa() ensures Resolve("la") == "America/Los_Angeles" {
    LaEntry();
    NormalisesTo("la", "la");
    ResolveThroughKey("la", "la");
  }

  lemma ResolveSpacedLosAngeles() ensures Resolve("Los Angeles") == "America/Los_Angeles" {
    LosAngelesEntry();
    NormalisesTo("Los Angeles", "los_angeles");
    ResolveThroughKey("Los Angeles", "los_angeles");
  }

  lemma ResolveKeyLosAngeles() ensures Resolve("los_angeles") == "America/Los_Angeles" {
    LosAngelesEntry();
    NormalisesTo("los_angeles", "los_angeles");
    ResolveThroughKey("los_angeles", "los_angeles");
  }

  lemma ResolveKeyMumbai() ensures Resolve("mumbai") == "Asia/Kolkata" {
    MumbaiEntry();
    NormalisesTo("mumbai", "mumbai");
    ResolveThroughKey("mumbai", "mumbai");
  }

  lemma ResolveCapitalDelhi() ensures Resolve("Delhi") == "Asia/Kolkata" {
    DelhiEntry();
    NormalisesTo("Delhi", "delhi");
    ResolveThroughKey("Delhi", "delhi");
  }

  lemma ResolveKeyKolkata() ensures Resolve("kolkata") == "Asia/Kolkata" {
    KolkataEntry();
    NormalisesTo("kolkata", "kolkata");
    ResolveThroughKey("kolkata", "kolkata");
  }

  lemma ResolveKeySydney() ensures Resolve("sydney") == "Australia/Sydney" {
    SydneyEntry();
    NormalisesTo("sydney", "sydney");
    ResolveThroughKey("sydney", "sydney");
  }

  lemma NewYorkEntry() ensures "new_york" in CityTimezones && CityTimezones["new_york"] == "America/New_York" {
  }

  lemma NycEntry() ensures "nyc" in CityTimezones && CityTimezones["nyc"] == "America/New_York" {
  }

  lemma LaEntry() ensures "la" in CityTimezones && CityTimezones["la"] == "America/Los_Angeles" {
  }

  lemma MumbaiEntry() ensures "mumbai" in CityTimezones && CityTimezones["mumbai"] == "Asia/Kolkata" {
  }

  lemma DelhiEntry() ensures "delhi" in CityTimezones && CityTimezones["delhi"] == "Asia/Kolkata" {
  }

  lemma KolkataEntry() ensures "kolkata" in CityTimezones && CityTimezones["kolkata"] == "Asia/Kolkata" {
  }

  lemma SydneyEntry() ensures "sydney" in CityTimezones && CityTimezones["sydney"] == "Australia/Sydney" {
  }

  lemma LosAngelesEntry() ensures "los_angeles" in CityTimezones && CityTimezones["los_angeles"] == "America/Los_Angeles" {
  }

  /** "New York", "new_york", "NYC" and "nyc" all name one zone. */
  lemma ResolveNewYork()
    ensures Resolve("New York") == Resolve("new_york") == Resolve("NYC") == Resolve("nyc") == "America/New_York"
  {
    ResolveSpacedNewYork();
    ResolveKeyNewYork();
    ResolveUpperNyc();
    ResolveKeyNyc();
  }

  /** The Los Angeles aliases resolve to one zone. */
  lemma ResolveLosAngeles()
    ensures Resolve("la") == Resolve("Los Angeles") == Resolve("los_angeles") == "America/Los_Angeles"
  {
    ResolveKeyLa();
    ResolveSpacedLosAngeles();
    ResolveKeyLosAngeles();
  }

  /** Three Indian cities share one zone. */
  lemma ResolveIndianCities()
    ensures Resolve("mumbai") == Resolve("Delhi") == Resolve("kolkata") == "Asia/Kolkata"
  {
    ResolveKeyMumbai();
    ResolveCapitalDelhi();
    ResolveKeyKolkata();
  }

  /** An unknown city passes through untouched. */
  lemma ResolveUnknownCity()
    ensures Resolve("faketown") == "faketown"
  {
    FaketownIsNoKey();
    NormalisesTo("faketown", "faketown");
    ResolveThroughKey("faketown", "faketown");
  }

  lemma FaketownIsNoKey() ensures "faketown" !in CityTimezones {
  }

  /** A zone-like name that is not an alias passes through untouched, capitals and all. */
  lemma ResolveUnknownZone()
    ensures Resolve("Not/AZone") == "Not/AZone"
  {
    NotAZoneIsNoKey();
    NormalisesTo("Not/AZone", "not/azone");
    ResolveThroughKey("Not/AZone", "not/azone");
  }

  lemma NotAZoneIsNoKey() ensures "not/azone" !in CityTimezones {
  }

  /** Every popular city is an alias in the table. */
  lemma PopularCitiesAreAliases()
    ensures forall city :: city in PopularCities ==> city in CityTimezones && Resolve(city) == CityTimezones[city]
  {
    KeysAreNormal();
  }
}
