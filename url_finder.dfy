/**
 * Phase one of the restaurant-longevity study: find the Yelp business page of
 * each location by web search. Each location gets a prioritised list of
 * search queries; the first query whose results hold a Yelp business URL
 * wins, and every input row becomes one result row. A run resumes after the
 * rows already in the output file.
 *
 * The search service is a parameter: `respond(q)` is what the service
 * answers for the query text `q`, either a list of results or a failure
 * (an HTTP status other than 200, a timeout, any exception).
 */
module UrlFinder {
  import opened Wrappers
  import opened Text
  import opened Seqs

  /** A table cell as pandas reads it: text, or NaN for an empty cell. */
  datatype Cell = Value(text: string) | Missing

  /** A cell formatted into an f-string: NaN prints as `nan`. */
  function Render(c: Cell): string {
    match c
    case Value(s) => s
    case Missing => "nan"
  }

  /** The four search strategies, most specific first. */
  datatype Strategy = NameStreetCityState | NameCityState | ProjectName | BaseName

  function StrategyName(s: Strategy): string {
    match s
    case NameStreetCityState => "name_street_city_state"
    case NameCityState => "name_city_state"
    case ProjectName => "project_name"
    case BaseName => "base_name"
  }

  /** Position of a strategy in the fixed priority order. */
  function Rank(s: Strategy): nat {
    match s
    case NameStreetCityState => 0
    case NameCityState => 1
    case ProjectName => 2
    case BaseName => 3
  }

  datatype Search = Search(query: string, strategy: Strategy)

  // ---------------------------------------------------------------------
  // Street names and base names
  // ---------------------------------------------------------------------

  /** A word that starts with a digit, a house number such as `501` or `12B`. */
  predicate StartsWithDigit(w: string) {
    w != [] && IsDigit(w[0])
  }

  predicate KeepsWord(w: string) {
    !StartsWithDigit(w)
  }

  /** The address words that are not house numbers, in order. */
  function StreetWords(address: string): seq<string> {
    Filter(SplitWs(address), KeepsWord)
  }

  /** `_extract_street_name`: the address without its number words, joined by single spaces. */
  function ExtractStreetName(address: string): string {
    Join(StreetWords(address), " ")
  }

  /** The street name keeps exactly the address words that do not start with a
      digit, in their order: read back as words it is that filtered list, a
      subsequence of the address words holding each such word. */
  lemma StreetNameWords(address: string)
    ensures SplitWs(ExtractStreetName(address)) == StreetWords(address)
    ensures IsSubsequence(StreetWords(address), SplitWs(address))
    ensures forall w :: w in SplitWs(address) && !StartsWithDigit(w) ==> w in StreetWords(address)
    ensures forall k :: 0 <= k < |StreetWords(address)| ==> !StartsWithDigit(StreetWords(address)[k])
  {
    var ws := SplitWs(address);
    SplitWsTokens(address);
    FilterIsSubsequence(ws, KeepsWord);
    var kept := StreetWords(address);
    forall k | 0 <= k < |kept| ensures IsToken(kept[k]) {
      assert kept[k] in ws;
    }
    SplitWsJoin(kept);
  }

  /** `location_name.split('–')[0].split('—')[0].split('-')[0].strip()`: the
      name before the first en dash, em dash or hyphen, trimmed. */
  function BaseNameOf(locationName: string): string {
    Strip(Before(Before(Before(locationName, '–'), '—'), '-'))
  }

  // ---------------------------------------------------------------------
  // Search strategies
  // ---------------------------------------------------------------------

  /** The street strategy is tried when the address has non-space text. */
  predicate HasAddress(address: string) {
    address != "" && Strip(address) != ""
  }

  /** `if project_name and project_name != location_name`: a NaN project name
      is truthy and differs from every name. */
  predicate ProjectIncluded(projectName: Cell, locationName: string) {
    match projectName
    case Missing => true
    case Value(p) => p != "" && p != locationName
  }

  function StreetSearches(locationName: string, city: string, state: string, address: string): seq<Search> {
    if HasAddress(address) && ExtractStreetName(address) != "" then
      [Search(locationName + " " + ExtractStreetName(address) + " " + city + " " + state, NameStreetCityState)]
    else []
  }

  function ProjectSearches(locationName: string, city: string, state: string, projectName: Cell): seq<Search> {
    if ProjectIncluded(projectName, locationName) then
      [Search(Render(projectName) + " " + city + " " + state, ProjectName)]
    else []
  }

  function BaseSearches(locationName: string, city: string, state: string): seq<Search> {
    if BaseNameOf(locationName) != locationName then
      [Search(BaseNameOf(locationName) + " " + city + " " + state, BaseName)]
    else []
  }

  /** The strategy list `_build_search_strategies` returns. */
  function Strategies(locationName: string, city: string, state: string, address: string, projectName: Cell): seq<Search> {
    StreetSearches(locationName, city, state, address) +
    [Search(locationName + " " + city + " " + state, NameCityState)] +
    ProjectSearches(locationName, city, state, projectName) +
    BaseSearches(locationName, city, state)
  }

  /** `_build_search_strategies`: appends each strategy whose rule holds, in priority order. */
  method BuildSearchStrategies(locationName: string, city: string, state: string, address: string, projectName: Cell)
    returns (searches: seq<Search>)
    ensures searches == Strategies(locationName, city, state, address, projectName)
  {
    searches := [];
    if address != "" && Strip(address) != "" {
      var streetOnly := ExtractStreetName(address);
      if streetOnly != "" {
        searches := searches + [Search(locationName + " " + streetOnly + " " + city + " " + state, NameStreetCityState)];
      }
    }
    assert searches == StreetSearches(locationName, city, state, address);
    searches := searches + [Search(locationName + " " + city + " " + state, NameCityState)];
    ghost var upToCity := searches;
    if ProjectIncluded(projectName, locationName) {
      searches := searches + [Search(Render(projectName) + " " + city + " " + state, ProjectName)];
    }
    assert searches == upToCity + ProjectSearches(locationName, city, state, projectName);
    ghost var upToProject := searches;
    var baseName := BaseNameOf(locationName);
    if baseName != locationName {
      searches := searches + [Search(baseName + " " + city + " " + state, BaseName)];
    }
    assert searches == upToProject + BaseSearches(locationName, city, state);
  }

  predicate HasStrategy(searches: seq<Search>, s: Strategy) {
    exists k :: 0 <= k < |searches| && searches[k].strategy == s
  }

  /** Four groups of at most one search each, with the strategies in rank
      order, laid end to end. */
  lemma StrategyGroups(a: seq<Search>, m: Search, p: seq<Search>, b: seq<Search>)
    requires |a| <= 1 && |p| <= 1 && |b| <= 1
    requires a != [] ==> a[0].strategy == NameStreetCityState
    requires m.strategy == NameCityState
    requires p != [] ==> p[0].strategy == ProjectName
    requires b != [] ==> b[0].strategy == BaseName
    ensures var ss := a + [m] + p + b;
      1 <= |ss| <= 4 &&
      (forall i, j :: 0 <= i < j < |ss| ==> Rank(ss[i].strategy) < Rank(ss[j].strategy)) &&
      m in ss &&
      (HasStrategy(ss, NameStreetCityState) <==> a != []) &&
      (HasStrategy(ss, ProjectName) <==> p != []) &&
      (HasStrategy(ss, BaseName) <==> b != [])
  {
    var ss := a + [m] + p + b;
    assert ss[|a|] == m;
    assert forall k :: 0 <= k < |ss| ==>
      Rank(ss[k].strategy) == (if k < |a| then 0 else if k == |a| then 1 else if k <= |a| + |p| then 2 else 3);
    if p != [] {
      assert ss[|a| + 1].strategy == ProjectName;
    }
    if b != [] {
      assert ss[|ss| - 1].strategy == BaseName;
    }
    if a != [] {
      assert ss[0].strategy == NameStreetCityState;
    }
  }

  /** What the strategy list is: one to four searches in strictly increasing
      priority rank, always the name-city-state search, and each of the other
      three exactly when its rule holds. */
  lemma StrategiesShape(locationName: string, city: string, state: string, address: string, projectName: Cell)
    ensures var ss := Strategies(locationName, city, state, address, projectName);
      1 <= |ss| <= 4 &&
      (forall i, j :: 0 <= i < j < |ss| ==> Rank(ss[i].strategy) < Rank(ss[j].strategy)) &&
      Search(locationName + " " + city + " " + state, NameCityState) in ss &&
      (HasStrategy(ss, NameStreetCityState) <==> HasAddress(address) && ExtractStreetName(address) != "") &&
      (HasStrategy(ss, ProjectName) <==> ProjectIncluded(projectName, locationName)) &&
      (HasStrategy(ss, BaseName) <==> BaseNameOf(locationName) != locationName)
  {
    StrategyGroups(StreetSearches(locationName, city, state, address),
                   Search(locationName + " " + city + " " + state, NameCityState),
                   ProjectSearches(locationName, city, state, projectName),
                   BaseSearches(locationName, city, state));
  }

  // ---------------------------------------------------------------------
  // One search: the Yelp page among the results
  // ---------------------------------------------------------------------

  /** One search result; a key the result lacks reads as "". */
  datatype Candidate = Candidate(url: string, title: string, snippet: string)

  /** What the search service answers. */
  datatype Response = Answered(results: seq<Candidate>) | Failed

  /** A Yelp business page found by a search. */
  datatype Hit = Hit(url: string, title: string, snippet: string, urlBusinessName: string)

  /** A business page URL: it has `/biz/` and `yelp.com`. */
  predicate IsBizUrl(url: string) {
    Contains(url, "/biz/") && Contains(url, "yelp.com")
  }

  /** `url.split('?')[0]`: the URL without its query string. */
  function CleanUrl(url: string): string {
    Before(url, '?')
  }

  /** `s.split(sep)[-1]` for a separator of several characters: the text after
      the last occurrence, occurrences being found left to right without
      overlap. `start` is where the current piece begins, `i` the next
      position to try. */
  function LastPieceFrom(s: string, sep: string, start: nat, i: nat): (r: string)
    requires sep != [] && start <= i <= |s|
    ensures |r| <= |s|
    decreases |s| - i
  {
    if i + |sep| > |s| then s[start..]
    else if s[i..i + |sep|] == sep then LastPieceFrom(s, sep, i + |sep|, i + |sep|)
    else LastPieceFrom(s, sep, start, i + 1)
  }

  function LastPiece(s: string, sep: string): (r: string)
    requires sep != []
    ensures |r| <= |s|
  {
    LastPieceFrom(s, sep, 0, 0)
  }

  /** `clean_url.split('/biz/')[-1].replace('-', ' ').title()`. */
  function BusinessName(cleanUrl: string): string {
    Title(ReplaceChar(LastPiece(cleanUrl, "/biz/"), '-', ' '))
  }

  function HitOf(c: Candidate): Hit {
    Hit(CleanUrl(c.url), c.title, c.snippet, BusinessName(CleanUrl(c.url)))
  }

  /** The first result that is a business page, as a hit. */
  function FirstBiz(results: seq<Candidate>): Option<Hit> {
    if results == [] then None
    else if IsBizUrl(results[0].url) then Some(HitOf(results[0]))
    else FirstBiz(results[1..])
  }

  /** The query text sent for a search. */
  function SiteQuery(query: string): string {
    query + " site:yelp.com"
  }

  /** What `_search_yelp(query)` returns. */
  function YelpHit(query: string, respond: string -> Response): Option<Hit> {
    match respond(SiteQuery(query))
    case Failed => None
    case Answered(results) => FirstBiz(results)
  }

  /** The piece after the last separator is a suffix of `s` with no separator in it. */
  lemma {:induction false} LastPieceFromShape(s: string, sep: string, start: nat, i: nat)
    requires sep != [] && start <= i <= |s|
    requires forall q :: start <= q < i ==> !OccursAt(s, sep, q)
    ensures LastPieceFrom(s, sep, start, i) == s[|s| - |LastPieceFrom(s, sep, start, i)|..]
    ensures forall q :: 0 <= q ==> !OccursAt(LastPieceFrom(s, sep, start, i), sep, q)
    decreases |s| - i
  {
    if i + |sep| > |s| {
      var r := s[start..];
      forall q | 0 <= q ensures !OccursAt(r, sep, q) {
        if OccursAt(r, sep, q) {
          assert r[q..q + |sep|] == s[start + q..start + q + |sep|];
          assert OccursAt(s, sep, start + q);
        }
      }
    } else if s[i..i + |sep|] == sep {
      LastPieceFromShape(s, sep, i + |sep|, i + |sep|);
    } else {
      LastPieceFromShape(s, sep, start, i + 1);
    }
  }

  /** The business-name source is what follows the last `/biz/`: a suffix of
      the URL without `/biz/`, and the whole URL when it has none. */
  lemma LastPieceShape(s: string, sep: string)
    requires sep != []
    ensures LastPiece(s, sep) == s[|s| - |LastPiece(s, sep)|..]
    ensures !Contains(LastPiece(s, sep), sep)
    ensures !Contains(s, sep) ==> LastPiece(s, sep) == s
  {
    LastPieceFromShape(s, sep, 0, 0);
    ContainsExists(LastPiece(s, sep), sep);
    if !Contains(s, sep) {
      ContainsExists(s, sep);
      LastPieceWhole(s, sep, 0);
    }
  }

  lemma {:induction false} LastPieceWhole(s: string, sep: string, i: nat)
    requires sep != [] && i <= |s|
    requires forall q :: !OccursAt(s, sep, q)
    ensures LastPieceFrom(s, sep, 0, i) == s
    decreases |s| - i
  {
    if i + |sep| <= |s| {
      assert !OccursAt(s, sep, i);
      LastPieceWhole(s, sep, i + 1);
    }
  }

  /** An accepted hit: its URL is the result's URL cut before the first `?`,
      and its business name is, up to letter case, the text after the last
      `/biz/` of that URL with dashes turned into spaces. */
  lemma HitShape(c: Candidate)
    ensures |HitOf(c).url| <= |c.url|
    ensures HitOf(c).url == c.url[..|HitOf(c).url|]
    ensures !HasChar(HitOf(c).url, '?')
    ensures |HitOf(c).url| < |c.url| ==> c.url[|HitOf(c).url|] == '?'
    ensures |HitOf(c).urlBusinessName| == |LastPiece(HitOf(c).url, "/biz/")|
    ensures Lower(HitOf(c).urlBusinessName) == Lower(ReplaceChar(LastPiece(HitOf(c).url, "/biz/"), '-', ' '))
    ensures HitOf(c).title == c.title && HitOf(c).snippet == c.snippet
  {
    BeforeMaximal(c.url, '?');
    TitleAfterLower(ReplaceChar(LastPiece(CleanUrl(c.url), "/biz/"), '-', ' '), false);
    JoinSplit(c.url, '?');
    SplitPartsFree(c.url, '?');
    var parts := Split(c.url, '?');
    if |parts| > 1 {
      assert Join(parts, "?") == parts[0] + "?" + Join(parts[1..], "?");
    }
  }

  /** `_search_yelp` over the service's answer: the first business-page result. */
  method SearchYelp(query: string, respond: string -> Response) returns (result: Option<Hit>)
    ensures result == YelpHit(query, respond)
  {
    var searchQuery := query + " site:yelp.com";
    var response := respond(searchQuery);
    if response.Failed? {
      return None;
    }
    var results := response.results;
    var k := 0;
    while k < |results|
      invariant 0 <= k <= |results|
      invariant FirstBiz(results[k..]) == FirstBiz(results)
    {
      var url := results[k].url;
      assert results[k..][1..] == results[k + 1..];
      if Contains(url, "/biz/") && Contains(url, "yelp.com") {
        var cleanUrl := CleanUrl(url);
        var bizName := BusinessName(cleanUrl);
        return Some(Hit(cleanUrl, results[k].title, results[k].snippet, bizName));
      }
      k := k + 1;
    }
    return None;
  }

  /** A hit tagged with the strategy and query that found it. */
  datatype Found = Found(hit: Hit, strategy: Strategy, query: string)

  /** The first search that finds a page, tagged. */
  function FirstFound(searches: seq<Search>, respond: string -> Response): Option<Found> {
    if searches == [] then None
    else match YelpHit(searches[0].query, respond)
      case Some(h) => Some(Found(h, searches[0].strategy, searches[0].query))
      case None => FirstFound(searches[1..], respond)
  }

  /** The cascade returns nothing exactly when every search fails, and
      otherwise the hit of some search, tagged with it, after which no earlier
      search found anything. */
  lemma {:induction false} FirstFoundSpec(searches: seq<Search>, respond: string -> Response)
    ensures FirstFound(searches, respond).None? <==>
      forall k :: 0 <= k < |searches| ==> YelpHit(searches[k].query, respond).None?
    ensures FirstFound(searches, respond).Some? ==>
      exists k :: 0 <= k < |searches| &&
        YelpHit(searches[k].query, respond).Some? &&
        FirstFound(searches, respond).value ==
          Found(YelpHit(searches[k].query, respond).value, searches[k].strategy, searches[k].query) &&
        forall j :: 0 <= j < k ==> YelpHit(searches[j].query, respond).None?
  {
    if searches != [] {
      FirstFoundSpec(searches[1..], respond);
      if YelpHit(searches[0].query, respond).None? {
        var rest := searches[1..];
        assert forall k :: 1 <= k < |searches| ==> searches[k] == rest[k - 1];
        if FirstFound(rest, respond).Some? {
          var k :| 0 <= k < |rest| && YelpHit(rest[k].query, respond).Some? &&
            FirstFound(rest, respond).value == Found(YelpHit(rest[k].query, respond).value, rest[k].strategy, rest[k].query) &&
            forall j :: 0 <= j < k ==> YelpHit(rest[j].query, respond).None?;
          assert searches[k + 1] == rest[k];
        }
      } else {
        assert YelpHit(searches[0].query, respond).Some?;
      }
    }
  }

  /** `search_business`: the strategies in order, returning the first that finds a page. */
  method SearchBusiness(locationName: string, city: string, state: string, address: string, projectName: Cell,
                        respond: string -> Response)
    returns (found: Option<Found>)
    ensures found == FirstFound(Strategies(locationName, city, state, address, projectName), respond)
  {
    var searches := BuildSearchStrategies(locationName, city, state, address, projectName);
    var k := 0;
    while k < |searches|
      invariant 0 <= k <= |searches|
      invariant FirstFound(searches[k..], respond) == FirstFound(searches, respond)
    {
      var search := searches[k];
      assert searches[k..][1..] == searches[k + 1..];
      var result := SearchYelp(search.query, respond);
      if result.Some? {
        return Some(Found(result.value, search.strategy, search.query));
      }
      k := k + 1;
    }
    return None;
  }

  // ---------------------------------------------------------------------
  // Result rows and the resumable run
  // ---------------------------------------------------------------------

  /** The input columns the finder reads. */
  datatype InputRow = InputRow(
    adminProjectId: Cell,
    projectLocationId: Cell,
    locationName: string,
    city: string,
    state: string,
    address: Cell,
    projectName: Cell)

  /** One output row: the input's identifying columns and the search outcome. */
  datatype ResultRow = ResultRow(
    adminProjectId: Cell,
    projectLocationId: Cell,
    locationName: string,
    projectName: Cell,
    address: string,
    city: string,
    state: string,
    yelpUrl: string,
    yelpUrlSorted: string,
    yelpTitle: string,
    urlBusinessName: string,
    searchStrategy: string,
    searchQuery: string,
    found: bool)

  /** The parameter appended to a found URL to list reviews oldest first. */
  const SortParameter := "?sort_by=date_asc"

  /** `_build_result_row`. */
  function BuildResultRow(row: InputRow, result: Option<Found>, address: string): ResultRow {
    match result
    case Some(f) =>
      ResultRow(row.adminProjectId, row.projectLocationId, row.locationName, row.projectName, address, row.city, row.state,
                f.hit.url, f.hit.url + SortParameter, f.hit.title, f.hit.urlBusinessName,
                StrategyName(f.strategy), f.query, true)
    case None =>
      ResultRow(row.adminProjectId, row.projectLocationId, row.locationName, row.projectName, address, row.city, row.state,
                "", "", "", "", "", "", false)
  }

  /** A row is found exactly when a search found a page; then the sorted URL
      is the URL with the sort parameter, and otherwise every search field is
      empty. The input columns are copied either way. */
  lemma BuildResultRowShape(row: InputRow, result: Option<Found>, address: string)
    ensures var r := BuildResultRow(row, result, address);
      (r.found <==> result.Some?) &&
      (r.found ==> r.yelpUrl == result.value.hit.url && r.yelpUrlSorted == r.yelpUrl + SortParameter &&
                    r.searchQuery == result.value.query) &&
      (!r.found ==> r.yelpUrl == "" && r.yelpUrlSorted == "" && r.yelpTitle == "" &&
                     r.urlBusinessName == "" && r.searchStrategy == "" && r.searchQuery == "") &&
      r.adminProjectId == row.adminProjectId && r.projectLocationId == row.projectLocationId &&
      r.locationName == row.locationName && r.projectName == row.projectName &&
      r.city == row.city && r.state == row.state && r.address == address
  {
  }

  /** The address as searched: a NaN address becomes "". */
  function AddressText(c: Cell): string {
    match c
    case Value(s) => s
    case Missing => ""
  }

  /** What the cascade finds for one input row. */
  function Outcome(row: InputRow, respond: string -> Response): Option<Found> {
    FirstFound(Strategies(row.locationName, row.city, row.state, AddressText(row.address), row.projectName), respond)
  }

  /** The result row the loop produces for one input row. */
  function RowResult(row: InputRow, respond: string -> Response): ResultRow {
    BuildResultRow(row, Outcome(row, respond), AddressText(row.address))
  }

  /** `sum(1 for r in results if r['found'])`. */
  function FoundCount(results: seq<ResultRow>): nat {
    if results == [] then 0 else FoundCount(results[..|results| - 1]) + (if results[|results| - 1].found then 1 else 0)
  }

  /** The input rows from `lo` up to `hi` that satisfy `p`. */
  function CountBetween(rows: seq<InputRow>, p: InputRow -> bool, lo: nat, hi: nat): nat
    requires hi <= |rows|
    decreases hi
  {
    if hi <= lo then 0
    else CountBetween(rows, p, lo, hi - 1) + (if p(rows[hi - 1]) then 1 else 0)
  }

  /** A search finds a page for the row. */
  function Finds(respond: string -> Response): InputRow -> bool {
    row => Outcome(row, respond).Some?
  }

  /** The periodic saves: after each row whose 1-based number is a multiple
      of 50, from row `lo` up to row `hi`. Each entry is the number of
      rows saved. */
  function SavePoints(lo: nat, hi: nat): seq<nat>
    decreases hi
  {
    if hi <= lo then [] else SavePoints(lo, hi - 1) + (if hi % 50 == 0 then [hi] else [])
  }

  /** `results` is what a run over `rows` writes when the rows `existing`
      were already saved: those rows first and unchanged, then the result
      row of every later input row, in order. */
  predicate IsRun(results: seq<ResultRow>, existing: seq<ResultRow>, rows: seq<InputRow>, respond: string -> Response) {
    |results| == (if |existing| <= |rows| then |rows| else |existing|) &&
    results[..|existing|] == existing &&
    forall k :: |existing| <= k < |rows| ==> results[k] == RowResult(rows[k], respond)
  }

  /** Resuming is running on: a run resumed from any prefix of a complete
      run's output writes that complete output again. */
  lemma ResumeAgrees(full: seq<ResultRow>, partial: seq<ResultRow>, rows: seq<InputRow>, respond: string -> Response, m: nat)
    requires IsRun(full, [], rows, respond)
    requires m <= |rows|
    requires IsRun(partial, full[..m], rows, respond)
    ensures partial == full
  {
    forall k | 0 <= k < |full| ensures partial[k] == full[k] {
      if k < m {
        assert partial[..m][k] == full[..m][k];
      }
    }
  }

  /** Counting the found rows of a prefix, row by row. */
  lemma {:induction false} FoundCountPrefix(results: seq<ResultRow>, rows: seq<InputRow>, p: InputRow -> bool, lo: nat, hi: nat)
    requires lo <= hi <= |results| && hi <= |rows|
    requires forall k :: lo <= k < hi ==> (results[k].found <==> p(rows[k]))
    ensures FoundCount(results[..hi]) == FoundCount(results[..lo]) + CountBetween(rows, p, lo, hi)
    decreases hi
  {
    if lo < hi {
      FoundCountPrefix(results, rows, p, lo, hi - 1);
      assert results[..hi][..hi - 1] == results[..hi - 1];
    }
  }

  /** The found count of a run is that of the rows it started from plus the
      number of new rows for which a search finds a page. */
  lemma FoundCountOfRun(results: seq<ResultRow>, existing: seq<ResultRow>, rows: seq<InputRow>, respond: string -> Response)
    requires IsRun(results, existing, rows, respond)
    requires |existing| <= |rows|
    ensures FoundCount(results) == FoundCount(existing) + CountBetween(rows, Finds(respond), |existing|, |rows|)
  {
    forall k | |existing| <= k < |rows| ensures results[k].found <==> Finds(respond)(rows[k]) {
      BuildResultRowShape(rows[k], Outcome(rows[k], respond), AddressText(rows[k].address));
    }
    FoundCountPrefix(results, rows, Finds(respond), |existing|, |rows|);
    assert results[..|rows|] == results;
  }

  /** Appending the next input row's result row keeps a partial run a
      partial run. */
  lemma RunExtends(results: seq<ResultRow>, rowResult: ResultRow, existing: seq<ResultRow>, rows: seq<InputRow>,
                   respond: string -> Response, index: nat)
    requires |existing| <= index == |results| < |rows|
    requires results[..|existing|] == existing
    requires forall k :: |existing| <= k < index ==> results[k] == RowResult(rows[k], respond)
    requires rowResult == RowResult(rows[index], respond)
    ensures (results + [rowResult])[..|existing|] == existing
    ensures forall k :: |existing| <= k < index + 1 ==> (results + [rowResult])[k] == RowResult(rows[k], respond)
  {
    assert (results + [rowResult])[..|existing|] == results[..|existing|];
  }

  /** The body of the loop over the input rows: search the row's location
      and build its result row. */
  method ProcessRow(row: InputRow, respond: string -> Response) returns (rowResult: ResultRow)
    ensures rowResult == RowResult(row, respond)
  {
    var address := AddressText(row.address);
    var result := SearchBusiness(row.locationName, row.city, row.state, address, row.projectName, respond);
    rowResult := BuildResultRow(row, result, address);
  }

  /** `process_csv`: skips the rows already in the output, searches each
      remaining row, appends its result row, saves after every fiftieth row
      and once at the end, and returns the row count and the found count.
      `saves` lists the number of rows each save writes. */
  method ProcessCsv(existing: seq<ResultRow>, rows: seq<InputRow>, respond: string -> Response)
    returns (results: seq<ResultRow>, saves: seq<nat>, total: nat, foundCount: nat)
    ensures IsRun(results, existing, rows, respond)
    ensures |existing| <= |rows| ==> saves == SavePoints(|existing|, |rows|) + [|rows|]
    ensures |existing| > |rows| ==> saves == [|existing|]
    ensures total == |results| && foundCount == FoundCount(results)
  {
    results := existing;
    var startRow := |results|;
    if startRow > |rows| {
      saves := [|results|];
      total := |results|;
      foundCount := FoundCount(results);
      return;
    }
    saves := [];
    var index := startRow;
    while index < |rows|
      invariant startRow <= index <= |rows|
      invariant |results| == index
      invariant results[..startRow] == existing
      invariant forall k :: startRow <= k < index ==> results[k] == RowResult(rows[k], respond)
      invariant saves == SavePoints(startRow, index)
      decreases |rows| - index
    {
      var rowResult := ProcessRow(rows[index], respond);
      RunExtends(results, rowResult, existing, rows, respond, index);
      results := results + [rowResult];
      if (index + 1) % 50 == 0 {
        saves := saves + [|results|];
      }
      index := index + 1;
    }
    saves := saves + [|results|];
    total := |results|;
    foundCount := FoundCount(results);
  }
}
