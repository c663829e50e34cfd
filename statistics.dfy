/**
 * The location and vertical helpers of the statistical report: a founder
 * location such as "Austin, Texas, United States" gives the state "TX" and
 * the city "Austin", and a company's verticals field is a comma-separated
 * list. A missing value (pandas' NaN) is `None`.
 */
module Statistics {
  import opened Wrappers
  import opened Text

  /** The location names a US country in one of the three spellings looked for. */
  predicate IsUsLocation(s: string) {
    Contains(s, "United States") || Contains(s, "USA") || Contains(s, ", US")
  }

  /** The long country name, after which the state is the second-to-last part. */
  predicate NamesUnitedStates(s: string) {
    Contains(s, "United States")
  }

  /** The twelve state names the report abbreviates. */
  const StateCodes: map<string, string> := map[
    "Texas" := "TX", "California" := "CA", "New York" := "NY",
    "Massachusetts" := "MA", "Colorado" := "CO", "Washington" := "WA",
    "Illinois" := "IL", "Florida" := "FL", "Georgia" := "GA",
    "Pennsylvania" := "PA", "Ohio" := "OH", "Michigan" := "MI"]

  /** `state_map.get(state, state)`. */
  function StateCode(state: string): string {
    if state in StateCodes then StateCodes[state] else state
  }

  /** `extract_state`. */
  function ExtractState(location: Option<string>): Option<string> {
    match location
    case None => None
    case Some(s) =>
      if !IsUsLocation(s) then None
      else
        var parts := Split(s, ',');
        if |parts| < 2 then None
        else
          var state := if NamesUnitedStates(s) then Strip(parts[|parts| - 2]) else Strip(parts[|parts| - 1]);
          Some(StateCode(state))
  }

  /** `extract_city`: the first comma-separated part, trimmed. */
  function ExtractCity(location: Option<string>): Option<string> {
    match location
    case None => None
    case Some(s) =>
      var parts := Split(s, ',');
      if parts != [] then Some(Strip(parts[0])) else None
  }

  /** `extract_verticals`: the comma-separated parts, each trimmed. */
  function ExtractVerticals(verticals: Option<string>): seq<string> {
    match verticals
    case None => []
    case Some(s) =>
      var parts := Split(s, ',');
      seq(|parts|, k requires 0 <= k < |parts| => Strip(parts[k]))
  }

  /** A listed name becomes a two-letter upper-case code; any other text is
      returned unchanged. */
  lemma StateCodeShape(state: string)
    ensures state in StateCodes ==> |StateCode(state)| == 2 && IsUpper(StateCode(state)[0]) && IsUpper(StateCode(state)[1])
    ensures state !in StateCodes ==> StateCode(state) == state
  {
  }

  /** No state comes out of a missing location, of one naming no US country,
      or of one without a comma. */
  lemma ExtractStateNone(location: Option<string>)
    ensures ExtractState(location).None? <==>
      location.None? || !IsUsLocation(location.value) || Count(location.value, ',') == 0
  {
    if location.Some? {
      SplitCount(location.value, ',');
    }
  }

  /** A leading space adds no comma. */
  lemma SpacedFree(s: string)
    requires !HasChar(s, ',')
    ensures !HasChar(" " + s, ',')
  {
    forall i | 0 <= i < |" " + s| ensures (" " + s)[i] != ',' {
      if i > 0 { assert (" " + s)[i] == s[i - 1]; }
    }
  }

  /** "a, b, c" split at its commas, for comma-free `a` and `b` and country `c`. */
  lemma SplitLocation(city: string, state: string, country: string)
    requires !HasChar(city, ',') && !HasChar(state, ',') && !HasChar(country, ',')
    ensures Split(city + ", " + state + ", " + country, ',') == [city, " " + state, " " + country]
  {
    var mid := " " + state;
    var tail := " " + country;
    SpacedFree(state);
    SpacedFree(country);
    SplitFree(tail, ',');
    SplitAfterFree(mid, tail, ',');
    SplitAfterFree(city, mid + [','] + tail, ',');
    assert city + ", " + state + ", " + country == city + [','] + (mid + [','] + tail) by {
      assert ", " == [','] + " ";
    }
  }

  /** With the long country name last, the state is the part before it. */
  lemma UnitedStatesTail(city: string, state: string)
    requires !HasChar(city, ',') && !HasChar(state, ',')
    ensures ExtractState(Some(city + ", " + state + ", United States")) == Some(StateCode(Strip(state)))
  {
    var country := "United States";
    assert !HasChar(country, ',');
    SplitLocation(city, state, country);
    ContainsInfix(city + ", " + state + ", ", country, "");
    var s := city + ", " + state + ", United States";
    assert ", United States" == ", " + country;
    assert s == city + ", " + state + ", " + country + "";
    assert s == city + ", " + state + ", " + country;
    assert NamesUnitedStates(s);
    assert IsUsLocation(s);
    var parts := Split(s, ',');
    assert parts == [city, " " + state, " " + country];
    StripLeadingSpace(state);
    assert Strip(parts[|parts| - 2]) == Strip(state);
  }

  /** With the short spellings the last part is taken, which after a state is
      the country itself: "Austin, Texas, USA" gives "USA", not "TX". */
  lemma ShortCountryTail(city: string, state: string)
    requires !HasChar(city, ',') && !HasChar(state, ',')
    requires !NamesUnitedStates(city + ", " + state + ", USA")
    ensures ExtractState(Some(city + ", " + state + ", USA")) == Some("USA")
  {
    var country := "USA";
    assert !HasChar(country, ',');
    SplitLocation(city, state, country);
    ContainsInfix(city + ", " + state + ", ", country, "");
    var s := city + ", " + state + ", USA";
    assert ", USA" == ", " + country;
    assert s == city + ", " + state + ", " + country + "";
    assert s == city + ", " + state + ", " + country;
    assert IsUsLocation(s);
    var parts := Split(s, ',');
    assert parts == [city, " " + state, " " + country];
    StripLeadingSpace(country);
    assert Strip(country) == country;
    assert Strip(parts[|parts| - 1]) == country;
    assert country !in StateCodes;
  }

  /** A city always comes out of a present location: a split has at least one part. */
  lemma ExtractCityPresent(location: Option<string>)
    ensures ExtractCity(location).Some? <==> location.Some?
  {
  }

  /** The city is trimmed, holds no comma, and is the trimmed text before the
      first comma. */
  lemma ExtractCityShape(city: string, rest: string)
    requires !HasChar(city, ',')
    ensures ExtractCity(Some(city + "," + rest)) == Some(Strip(city))
    ensures ExtractCity(Some(city)) == Some(Strip(city))
    ensures !HasChar(Strip(city), ',')
    ensures Strip(city) != [] ==> !IsSpace(Strip(city)[0]) && !IsSpace(Strip(city)[|Strip(city)| - 1])
  {
    SplitAfterFree(city, rest, ',');
    assert city + "," + rest == city + [','] + rest;
    SplitFree(city, ',');
    StripKeepsCharFree(city, ',');
    StripShape(city);
  }

  /** One vertical per comma-separated part; none for a missing value. */
  lemma ExtractVerticalsCount(verticals: Option<string>)
    ensures verticals.None? ==> ExtractVerticals(verticals) == []
    ensures verticals.Some? ==> |ExtractVerticals(verticals)| == Count(verticals.value, ',') + 1
  {
    if verticals.Some? {
      SplitCount(verticals.value, ',');
    }
  }

  /** Every vertical is trimmed and holds no comma. */
  lemma ExtractVerticalsClean(s: string)
    ensures forall k :: 0 <= k < |ExtractVerticals(Some(s))| ==>
      !HasChar(ExtractVerticals(Some(s))[k], ',') &&
      (ExtractVerticals(Some(s))[k] == [] ||
       (!IsSpace(ExtractVerticals(Some(s))[k][0]) &&
        !IsSpace(ExtractVerticals(Some(s))[k][|ExtractVerticals(Some(s))[k]| - 1])))
  {
    var parts := Split(s, ',');
    var vs := ExtractVerticals(Some(s));
    SplitPartsFree(s, ',');
    forall k | 0 <= k < |vs|
      ensures !HasChar(vs[k], ',') && (vs[k] == [] || (!IsSpace(vs[k][0]) && !IsSpace(vs[k][|vs[k]| - 1])))
    {
      assert vs[k] == Strip(parts[k]);
      StripKeepsCharFree(parts[k], ',');
      StripShape(parts[k]);
    }
  }

  /** A list of comma-free names joined by commas splits back into those names. */
  lemma {:induction false} SplitJoinFree(ps: seq<string>)
    requires |ps| >= 1
    requires forall k :: 0 <= k < |ps| ==> !HasChar(ps[k], ',')
    ensures Split(Join(ps, ","), ',') == ps
  {
    if |ps| == 1 {
      SplitFree(ps[0], ',');
    } else {
      SplitJoinFree(ps[1..]);
      assert Join(ps, ",") == ps[0] + [','] + Join(ps[1..], ",");
      SplitAfterFree(ps[0], Join(ps[1..], ","), ',');
      assert [ps[0]] + ps[1..] == ps;
    }
  }

  /** Round trip: verticals written as a comma-joined list are read back as the
      same names, trimmed. */
  lemma ExtractVerticalsOfJoin(ps: seq<string>)
    requires |ps| >= 1
    requires forall k :: 0 <= k < |ps| ==> !HasChar(ps[k], ',')
    ensures |ExtractVerticals(Some(Join(ps, ",")))| == |ps|
    ensures forall k :: 0 <= k < |ps| ==> ExtractVerticals(Some(Join(ps, ",")))[k] == Strip(ps[k])
  {
    SplitJoinFree(ps);
  }
}
