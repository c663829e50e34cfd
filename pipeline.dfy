/**
 * The three-step enrichment pipeline: find LinkedIn URLs for founders who
 * have none (keeping only URLs whose profile id matches the founder's
 * name), fetch locations for pending profiles from Bright Data, and
 * regenerate the CSV exports.
 *
 * The web search is the parameter `replies` (per worklist entry, what the
 * primary and the fallback query return), the thread pool's completion
 * order is `arrival`, and the Bright Data snapshot is `submitted` plus
 * `download` (per polling attempt). The checkpoint file is `results`.
 */
module Pipeline {
  import opened Wrappers
  import opened Text
  import opened Seqs
  import opened Founders
  import EnrichLocations
  import GenerateCsvs

  // ---------------------------------------------------------------------------
  // extract_linkedin_name
  // ---------------------------------------------------------------------------

  const ProfileMarker: string := "linkedin.com/in/"

  /** A character of the regex group `[^/?]`. */
  predicate IdChar(c: char) {
    c != '/' && c != '?'
  }

  /** The greedy group `([^/?]+)` read from the start of `s`. */
  function IdRun(s: string): (r: string)
    ensures |r| <= |s|
  {
    if s == [] || !IdChar(s[0]) then "" else [s[0]] + IdRun(s[1..])
  }

  /** The run is a prefix of `s` made of id characters, and it stops only
      at the end of `s` or at a `/` or `?`. */
  lemma {:induction false} IdRunShape(s: string)
    ensures IdRun(s) <= s
    ensures forall k :: 0 <= k < |IdRun(s)| ==> IdChar(IdRun(s)[k])
    ensures |IdRun(s)| < |s| ==> !IdChar(s[|IdRun(s)|])
  {
    if s != [] && IdChar(s[0]) {
      IdRunShape(s[1..]);
    }
  }

  /** The pattern `linkedin\.com/in/([^/?]+)` matches at position `p`: the
      marker is there and at least one id character follows it. */
  predicate MatchesAt(url: string, p: int) {
    0 <= p && p + |ProfileMarker| < |url| &&
    url[p..p + |ProfileMarker|] == ProfileMarker && IdChar(url[p + |ProfileMarker|])
  }

  /** The leftmost position at or after `i` where the pattern matches: where `re.search` matches. */
  function FirstMatch(url: string, i: nat): (r: Option<nat>)
    requires i <= |url|
    ensures r.Some? ==> i <= r.value && r.value + |ProfileMarker| < |url|
    decreases |url| - i
  {
    if i == |url| then None
    else if MatchesAt(url, i) then Some(i)
    else FirstMatch(url, i + 1)
  }

  /** The search finds the leftmost match at or after `i`, and finds none
      exactly when there is none. */
  lemma {:induction false} FirstMatchSpec(url: string, i: nat)
    requires i <= |url|
    ensures FirstMatch(url, i).Some? ==> MatchesAt(url, FirstMatch(url, i).value)
    ensures FirstMatch(url, i).Some? ==> forall q :: i <= q < FirstMatch(url, i).value ==> !MatchesAt(url, q)
    ensures FirstMatch(url, i).None? ==> forall q :: i <= q < |url| ==> !MatchesAt(url, q)
    decreases |url| - i
  {
    if i < |url| && !MatchesAt(url, i) {
      FirstMatchSpec(url, i + 1);
    }
  }

  /** `match.group(1)`: the profile id as it stands in the URL. */
  function ProfileId(url: string): Option<string> {
    match FirstMatch(url, 0)
    case None => None
    case Some(p) => Some(IdRun(url[p + |ProfileMarker|..]))
  }

  /** Number of decimal digits at the end of `s`. */
  function TrailingDigits(s: string): (n: nat)
    ensures n <= |s|
    ensures forall k :: |s| - n <= k < |s| ==> IsDigit(s[k])
    ensures n < |s| ==> !IsDigit(s[|s| - n - 1])
  {
    if s != [] && IsDigit(s[|s| - 1]) then TrailingDigits(s[..|s| - 1]) + 1 else 0
  }

  /** `-\d+` removed from the very end of `s`, when it is there. */
  function DropNumberAtEnd(s: string): string {
    var n := TrailingDigits(s);
    if 0 < n < |s| && s[|s| - n - 1] == '-' then s[..|s| - n - 1] else s
  }

  /** `re.sub(r'-\d+$', '', s)`: `$` matches at the end and also just before a final newline. */
  function DropNumberSuffix(s: string): string {
    if s != [] && s[|s| - 1] == '\n' then DropNumberAtEnd(s[..|s| - 1]) + "\n" else DropNumberAtEnd(s)
  }

  /** `extract_linkedin_name`: the lower-cased profile id with one trailing `-digits` removed. */
  function ExtractLinkedinName(url: string): Option<string> {
    match ProfileId(url)
    case None => None
    case Some(id) => Some(Lower(DropNumberSuffix(id)))
  }

  /** At most one `-digits` goes, and only from the end: the result is `s`
      itself or `s` with a dash and at least one digit cut off its end. */
  lemma DropNumberAtEndShape(s: string)
    ensures var r := DropNumberAtEnd(s);
      && r <= s
      && (r == s || (|r| + 1 < |s| && s[|r|] == '-' && forall k :: |r| < k < |s| ==> IsDigit(s[k])))
  {
  }

  /** None exactly when the pattern matches nowhere; otherwise the first
      match's group, with its `-digits` suffix cut and lower-cased. */
  lemma ExtractLinkedinNameSpec(url: string)
    ensures ExtractLinkedinName(url).None? <==> forall p :: 0 <= p < |url| ==> !MatchesAt(url, p)
    ensures ExtractLinkedinName(url).Some? ==>
      exists p :: 0 <= p < |url| && MatchesAt(url, p) && (forall q :: 0 <= q < p ==> !MatchesAt(url, q)) &&
        ExtractLinkedinName(url).value == Lower(DropNumberSuffix(IdRun(url[p + |ProfileMarker|..])))
  {
    FirstMatchSpec(url, 0);
    match FirstMatch(url, 0)
    case None =>
    case Some(p) =>
  }

  /** A URL from which a name is extracted carries the profile marker. */
  lemma ExtractedHasMarker(url: string)
    requires ExtractLinkedinName(url).Some?
    ensures Contains(url, ProfileMarker)
  {
    FirstMatchSpec(url, 0);
    var p := FirstMatch(url, 0).value;
    ContainsAt(url, ProfileMarker, p);
  }

  lemma {:induction false} IdRunOf(id: string, rest: string)
    requires forall k :: 0 <= k < |id| ==> IdChar(id[k])
    requires rest == [] || !IdChar(rest[0])
    ensures IdRun(id + rest) == id
    decreases |id|
  {
    if id == [] {
      assert id + rest == rest;
    } else {
      assert (id + rest)[1..] == id[1..] + rest;
      IdRunOf(id[1..], rest);
    }
  }

  /** A match starts with the marker's first letter. */
  lemma MatchHead(url: string, p: int)
    ensures MatchesAt(url, p) ==> url[p] == ProfileMarker[0]
  {
    if MatchesAt(url, p) {
      assert url[p..p + |ProfileMarker|][0] == url[p];
    }
  }

  lemma {:induction false} NoMatchBefore(url: string, i: nat, j: nat)
    requires i <= j <= |url|
    requires forall k :: i <= k < j ==> url[k] != ProfileMarker[0]
    ensures FirstMatch(url, i) == FirstMatch(url, j)
    decreases j - i
  {
    if i < j {
      MatchHead(url, i);
      NoMatchBefore(url, i + 1, j);
    }
  }

  const ProfileHost: string := "https://www."
  const ProfilePrefix: string := ProfileHost + ProfileMarker

  /** The canonical profile URL of `id`, as LinkedIn writes it: `https://www.linkedin.com/in/<id>`. */
  function ProfileUrl(id: string): string {
    ProfilePrefix + id
  }

  /** The marker ends the prefix, and the host before it has no `l`, where a match would have to start. */
  lemma ProfilePrefixShape()
    ensures |ProfilePrefix| == |ProfileHost| + |ProfileMarker|
    ensures ProfilePrefix[|ProfileHost|..] == ProfileMarker
    ensures forall k :: 0 <= k < |ProfileHost| ==> ProfilePrefix[k] != ProfileMarker[0]
  {
    assert ProfilePrefix[|ProfileHost|..] == ProfileMarker;
    forall k | 0 <= k < |ProfileHost| ensures ProfilePrefix[k] != ProfileMarker[0] {
      assert ProfilePrefix[k] == ProfileHost[k];
      assert k == 0 || k == 1 || k == 2 || k == 3 || k == 4 || k == 5 || k == 6 || k == 7 || k == 8 || k == 9 || k == 10 || k == 11;
    }
  }

  /** Within the URL of `id`, the pattern first matches where the marker sits. */
  lemma {:induction false} ProfileUrlMatch(id: string, rest: string)
    requires id != [] && IdChar(id[0])
    ensures var url := ProfileUrl(id) + rest;
      FirstMatch(url, 0) == Some(|ProfileHost|) &&
      url[|ProfilePrefix|..] == id + rest
  {
    var url := ProfileUrl(id) + rest;
    ProfilePrefixShape();
    var p := |ProfileHost|;
    assert url == ProfilePrefix + (id + rest);
    assert url[p..p + |ProfileMarker|] == ProfilePrefix[p..];
    assert url[|ProfilePrefix|..] == id + rest;
    assert url[p + |ProfileMarker|] == id[0];
    assert MatchesAt(url, p);
    forall k | 0 <= k < p ensures url[k] != ProfileMarker[0] {
      assert url[k] == ProfilePrefix[k];
    }
    NoMatchBefore(url, 0, p);
  }

  /**
   * Round trip: the name extracted from the profile URL of a lower-case id
   * (followed by nothing, or by a path or query) is the id itself, when the
   * id does not end in a digit or a newline.
   */
  lemma ProfileUrlRoundTrip(id: string, rest: string)
    requires id != [] && NoUpper(id)
    requires forall k :: 0 <= k < |id| ==> IdChar(id[k])
    requires !IsDigit(id[|id| - 1]) && id[|id| - 1] != '\n'
    requires rest == [] || !IdChar(rest[0])
    ensures ExtractLinkedinName(ProfileUrl(id) + rest) == Some(id)
  {
    ProfileUrlMatch(id, rest);
    IdRunOf(id, rest);
    assert ProfileId(ProfileUrl(id) + rest) == Some(id);
    assert TrailingDigits(id) == 0;
    assert DropNumberSuffix(id) == id;
    LowerOfNoUpper(id);
  }

  // ---------------------------------------------------------------------------
  // verify_name_match
  // ---------------------------------------------------------------------------

  /** How many distinct strings `ws` holds: `len(set(ws))`. */
  function DistinctCount(ws: seq<string>): nat {
    if ws == [] then 0
    else
      var w := ws[|ws| - 1];
      DistinctCount(ws[..|ws| - 1]) + (if w in ws[..|ws| - 1] then 0 else 1)
  }

  /** How many distinct strings of `ws` also occur in `other`: `len(set(ws) & set(other))`. */
  function SharedCount(ws: seq<string>, other: seq<string>): nat {
    if ws == [] then 0
    else
      var w := ws[|ws| - 1];
      SharedCount(ws[..|ws| - 1], other) + (if w !in ws[..|ws| - 1] && w in other then 1 else 0)
  }

  /** `set(ws)`, built element by element. */
  function TokenSet(ws: seq<string>): set<string> {
    if ws == [] then {} else TokenSet(ws[..|ws| - 1]) + {ws[|ws| - 1]}
  }

  lemma {:induction false} TokenSetIs(ws: seq<string>)
    ensures TokenSet(ws) == set w | w in ws
  {
    if ws != [] {
      TokenSetIs(ws[..|ws| - 1]);
      assert ws == ws[..|ws| - 1] + [ws[|ws| - 1]];
    }
  }

  /** The count of distinct tokens is the cardinality of the token set. */
  lemma {:induction false} DistinctIsCardinality(ws: seq<string>)
    ensures DistinctCount(ws) == |TokenSet(ws)|
  {
    if ws != [] {
      var init := ws[..|ws| - 1];
      var x := ws[|ws| - 1];
      DistinctIsCardinality(init);
      TokenSetIs(init);
      if x in init {
        assert x in TokenSet(init);
        assert TokenSet(ws) == TokenSet(init);
      } else {
        assert x !in TokenSet(init);
      }
    }
  }

  /** The count of shared tokens is the cardinality of the intersection of the two token sets. */
  lemma {:induction false} SharedIsCardinality(ws: seq<string>, other: seq<string>)
    ensures SharedCount(ws, other) == |TokenSet(ws) * TokenSet(other)|
  {
    if ws != [] {
      var init := ws[..|ws| - 1];
      var x := ws[|ws| - 1];
      SharedIsCardinality(init, other);
      TokenSetIs(init);
      TokenSetIs(other);
      var a := TokenSet(init);
      var o := TokenSet(other);
      assert TokenSet(ws) == a + {x};
      if x in init {
        assert x in a;
        assert a + {x} == a;
      } else if x in other {
        assert x !in a * o && x in o;
        IntersectAddIn(a, x, o);
      } else {
        assert x !in o;
        IntersectAddOut(a, x, o);
      }
    }
  }

  lemma IntersectAddIn<T>(a: set<T>, x: T, o: set<T>)
    requires x in o
    ensures (a + {x}) * o == (a * o) + {x}
  {
  }

  lemma IntersectAddOut<T>(a: set<T>, x: T, o: set<T>)
    requires x !in o
    ensures (a + {x}) * o == a * o
  {
  }

  /** Hence the two counts are `len(set(ws))` and `len(set(ws) & set(other))`. */
  lemma CountsAreCardinalities(ws: seq<string>, other: seq<string>)
    ensures DistinctCount(ws) == |set w | w in ws|
    ensures SharedCount(ws, other) == |(set w | w in ws) * (set w | w in other)|
  {
    DistinctIsCardinality(ws);
    SharedIsCardinality(ws, other);
    TokenSetIs(ws);
    TokenSetIs(other);
  }

  function FirstToken(s: string): string {
    var ws := SplitWs(s);
    if ws != [] then ws[0] else ""
  }

  function LastToken(s: string): string {
    var ws := SplitWs(s);
    if |ws| > 1 then ws[|ws| - 1] else ""
  }

  /** The name, dashed or with spaces removed, occurs in the id. */
  predicate ExactForm(name: string, id: string) {
    Contains(id, ReplaceChar(name, ' ', '-')) || Contains(id, RemoveChar(name, ' '))
  }

  /** The name has at least two distinct tokens and shares two with the dash-split id. */
  predicate SharedTokens(name: string, id: string) {
    DistinctCount(SplitWs(name)) >= 2 && SharedCount(SplitWs(name), SplitWs(ReplaceChar(id, '-', ' '))) >= 2
  }

  /** First+last, last+first or initial+last occurs in the id without its dashes. */
  predicate PatternForm(name: string, id: string) {
    var first := FirstToken(name);
    var last := LastToken(name);
    var letters := RemoveChar(id, '-');
    first != "" && last != "" &&
    (Contains(letters, first + last) || Contains(letters, last + first) || Contains(letters, [first[0]] + last))
  }

  /** `verify_name_match`: the URL yields a non-empty id, and the lower-cased
      name matches it in one of the three ways, tried in order. */
  function VerifyNameMatch(founderName: string, linkedinUrl: string): (r: bool)
    ensures r ==> ExtractLinkedinName(linkedinUrl).Some? && ExtractLinkedinName(linkedinUrl).value != ""
  {
    match ExtractLinkedinName(linkedinUrl)
    case None => false
    case Some(id) =>
      var name := Lower(founderName);
      var lid := Lower(id);
      id != "" && (ExactForm(name, lid) || SharedTokens(name, lid) || PatternForm(name, lid))
  }

  /** A name of one token can only match through its exact form: the token
      tests need two name tokens. */
  lemma SingleTokenNeedsExactForm(founderName: string, linkedinUrl: string)
    requires |SplitWs(Lower(founderName))| <= 1
    ensures VerifyNameMatch(founderName, linkedinUrl) ==>
      ExactForm(Lower(founderName), Lower(ExtractLinkedinName(linkedinUrl).value))
  {
    var ws := SplitWs(Lower(founderName));
    if |ws| == 1 {
      assert ws[..0] == [];
    }
    assert DistinctCount(ws) <= 1;
    assert LastToken(Lower(founderName)) == "";
  }

  /** A name made of letters and spaces. */
  predicate PlainName(s: string) {
    s != [] && IsLetter(s[|s| - 1]) && forall k :: 0 <= k < |s| ==> IsLetter(s[k]) || s[k] == ' '
  }

  /** The dashed, lower-cased name: the id LinkedIn gives such a founder. */
  function DashedId(founderName: string): string {
    ReplaceChar(Lower(founderName), ' ', '-')
  }

  /** The canonical profile URL of a plain name's dashed id passes the check. */
  lemma DashedIdVerifies(founderName: string)
    requires PlainName(founderName)
    ensures VerifyNameMatch(founderName, ProfileUrl(DashedId(founderName)))
  {
    var name := Lower(founderName);
    var id := DashedId(founderName);
    LowerAt(founderName);
    assert NoUpper(id);
    assert forall k :: 0 <= k < |id| ==> IdChar(id[k]);
    assert IsLetter(id[|id| - 1]);
    ProfileUrlRoundTrip(id, "");
    assert ProfileUrl(id) + "" == ProfileUrl(id);
    LowerOfNoUpper(id);
    ContainsAt(id, id, 0);
    assert id[0..|id|] == id;
    assert ExactForm(name, id);
  }

  // ---------------------------------------------------------------------------
  // find_linkedin_url
  // ---------------------------------------------------------------------------

  /** The three outcomes of a search. */
  datatype SearchStatus = Verified | NotVerified | SearchError

  /** What one search query returns: an exception, or the hit URLs in rank
      order (a hit without a URL reads as ""). */
  datatype SearchReply = SearchFailed | SearchHits(urls: seq<string>)

  /** `url.split('?')[0]`. */
  function CleanUrl(url: string): string {
    Before(url, '?')
  }

  /** A hit the filter keeps: a profile URL whose cleaned form matches the name. */
  predicate Accepted(founderName: string, url: string) {
    Contains(url, ProfileMarker) && VerifyNameMatch(founderName, CleanUrl(url))
  }

  /** The first hit the filter keeps. */
  function FirstAccepted(founderName: string, urls: seq<string>): Option<nat> {
    FirstWhere(urls, url => Accepted(founderName, url))
  }

  /** The hit found passes the filter and none before it does; None means
      none passes. */
  lemma FirstAcceptedSpec(founderName: string, urls: seq<string>)
    ensures FirstAccepted(founderName, urls).Some? ==> Accepted(founderName, urls[FirstAccepted(founderName, urls).value])
    ensures FirstAccepted(founderName, urls).Some? ==>
      forall k :: 0 <= k < FirstAccepted(founderName, urls).value ==> !Accepted(founderName, urls[k])
    ensures FirstAccepted(founderName, urls).None? ==> forall k :: 0 <= k < |urls| ==> !Accepted(founderName, urls[k])
  {
    FirstWhereSpec(urls, url => Accepted(founderName, url));
  }

  /** The cleaned URL of the first kept hit. */
  function FirstProfile(founderName: string, urls: seq<string>): Option<string> {
    match FirstAccepted(founderName, urls)
    case None => None
    case Some(k) => Some(CleanUrl(urls[k]))
  }

  /** One filter loop of `find_linkedin_url`: skip non-profile URLs, return
      the first cleaned URL that matches the name. */
  method ScanHits(founderName: string, urls: seq<string>) returns (found: Option<string>)
    ensures found == FirstProfile(founderName, urls)
  {
    var k := 0;
    while k < |urls|
      invariant 0 <= k <= |urls|
      invariant FirstAccepted(founderName, urls[..k]) == None
    {
      var accepted := CheckHit(founderName, urls[k]);
      FirstAcceptedStep(founderName, urls, k);
      if accepted {
        return Some(CleanUrl(urls[k]));
      }
      k := k + 1;
    }
    assert urls[..k] == urls;
    return None;
  }

  /** The test one hit goes through: a profile URL whose cleaned form matches the name. */
  method CheckHit(founderName: string, url: string) returns (accepted: bool)
    ensures accepted == Accepted(founderName, url)
  {
    if !Contains(url, ProfileMarker) {
      return false;
    }
    var cleanUrl := CleanUrl(url);
    accepted := VerifyNameMatch(founderName, cleanUrl);
  }

  /** With no hit kept among the first `k`, hit `k` is the first kept one
      exactly when it passes the filter. */
  lemma FirstAcceptedStep(founderName: string, urls: seq<string>, k: nat)
    requires k < |urls| && FirstAccepted(founderName, urls[..k]) == None
    ensures Accepted(founderName, urls[k]) ==> FirstAccepted(founderName, urls) == Some(k)
    ensures !Accepted(founderName, urls[k]) ==> FirstAccepted(founderName, urls[..k + 1]) == None
  {
    var p := url => Accepted(founderName, url);
    assert urls[..k + 1] == urls[..k] + [urls[k]];
    FirstWhereSnoc(urls[..k], urls[k], p);
    if Accepted(founderName, urls[k]) {
      FirstWhereKeeps(urls[..k + 1], urls[k + 1..], p);
      assert urls[..k + 1] + urls[k + 1..] == urls;
    }
  }

  /** What `find_linkedin_url` returns for these two replies. */
  function SearchOutcome(founderName: string, primary: SearchReply, fallback: SearchReply): (SearchStatus, Option<string>) {
    match primary
    case SearchFailed => (SearchError, None)
    case SearchHits(urls) =>
      match FirstProfile(founderName, urls)
      case Some(u) => (Verified, Some(u))
      case None =>
        match fallback
        case SearchFailed => (SearchError, None)
        case SearchHits(more) =>
          match FirstProfile(founderName, more)
          case Some(u) => (Verified, Some(u))
          case None => (NotVerified, None)
  }

  /** `find_linkedin_url`: the company query, then the name-only fallback;
      an exception in either ends the search with an error. */
  method FindLinkedinUrl(founderName: string, primary: SearchReply, fallback: SearchReply)
    returns (status: SearchStatus, url: Option<string>)
    ensures (status, url) == SearchOutcome(founderName, primary, fallback)
  {
    if primary.SearchFailed? {
      return SearchError, None;
    }
    var found := ScanHits(founderName, primary.urls);
    if found.Some? {
      return Verified, found;
    }
    if fallback.SearchFailed? {
      return SearchError, None;
    }
    found := ScanHits(founderName, fallback.urls);
    if found.Some? {
      return Verified, found;
    }
    return NotVerified, None;
  }

  /** A verified URL is a LinkedIn profile URL without a query string whose
      id matches the name; only a verified search carries a URL. */
  lemma VerifiedUrlIsProfile(founderName: string, primary: SearchReply, fallback: SearchReply)
    ensures var (status, url) := SearchOutcome(founderName, primary, fallback);
      (status == Verified <==> url.Some?) &&
      (url.Some? ==> Contains(url.value, ProfileMarker) && !HasChar(url.value, '?') && VerifyNameMatch(founderName, url.value))
  {
    var (status, url) := SearchOutcome(founderName, primary, fallback);
    if url.Some? {
      var hits := if FirstProfile(founderName, primary.urls).Some? then primary.urls else fallback.urls;
      var k := FirstAccepted(founderName, hits).value;
      FirstAcceptedSpec(founderName, hits);
      assert url.value == CleanUrl(hits[k]);
      ExtractedHasMarker(url.value);
      SplitPartsFree(hits[k], '?');
    }
  }

  /** A URL the search may write back for this founder: a LinkedIn profile
      URL without a query string whose id matches the name. */
  predicate VerifiedProfile(founderName: string, url: string) {
    Contains(url, ProfileMarker) && !HasChar(url, '?') && VerifyNameMatch(founderName, url)
  }

  // ---------------------------------------------------------------------------
  // find_missing_linkedin_urls
  // ---------------------------------------------------------------------------

  /** One worklist entry: a founder to search for and where to write the URL. */
  datatype Missing = Missing(companyIndex: nat, companyName: string, founderIndex: nat, founderName: string)

  /** The founder has a name to search for and no URL yet. */
  predicate NeedsUrl(f: Founder) {
    HasName(f) && f.linkedinUrl == ""
  }

  /** The entry for founder `j` of `r`; `j` is its `enumerate` position. */
  function MissingAt(r: CompanyResult, j: nat): Missing
    requires j < |r.founders|
  {
    Missing(r.companyIndex, r.companyName, j, FullName(r.founders[j]))
  }

  /** The entries for the founders among the first `n` of `r` that need a URL. */
  function MissingAmong(r: CompanyResult, n: nat): seq<Missing>
    requires n <= |r.founders|
  {
    if n == 0 then []
    else MissingAmong(r, n - 1) + (if NeedsUrl(r.founders[n - 1]) then [MissingAt(r, n - 1)] else [])
  }

  /** The worklist of the whole checkpoint, in checkpoint order. */
  function MissingOf(results: seq<CompanyResult>): seq<Missing> {
    if results == [] then []
    else
      var last := results[|results| - 1];
      MissingOf(results[..|results| - 1]) + MissingAmong(last, |last.founders|)
  }

  /** The collection loop of `find_missing_linkedin_urls`. */
  method CollectMissing(results: seq<CompanyResult>) returns (missing: seq<Missing>)
    ensures missing == MissingOf(results)
  {
    missing := [];
    var i := 0;
    while i < |results|
      invariant 0 <= i <= |results|
      invariant missing == MissingOf(results[..i])
    {
      var entries := MissingOfResult(results[i]);
      missing := missing + entries;
      assert results[..i + 1][..i] == results[..i];
      i := i + 1;
    }
    assert results[..i] == results;
  }

  /** The inner loop: the founders of one result that need a URL. */
  method MissingOfResult(result: CompanyResult) returns (entries: seq<Missing>)
    ensures entries == MissingAmong(result, |result.founders|)
  {
    entries := [];
    var j := 0;
    while j < |result.founders|
      invariant 0 <= j <= |result.founders|
      invariant entries == MissingAmong(result, j)
    {
      var founder := result.founders[j];
      var fullName := FullName(founder);
      HasNameFullName(founder);
      if fullName != "" && founder.linkedinUrl == "" {
        entries := entries + [Missing(result.companyIndex, result.companyName, j, fullName)];
      }
      j := j + 1;
    }
  }

  /** Entry `e` comes from founder `j` of result `i`. */
  predicate MissingFrom(results: seq<CompanyResult>, e: Missing, i: nat, j: nat) {
    i < |results| && j < |results[i].founders| && NeedsUrl(results[i].founders[j]) && e == MissingAt(results[i], j)
  }

  lemma {:induction false} MissingAmongExact(r: CompanyResult, n: nat)
    requires n <= |r.founders|
    ensures forall e :: e in MissingAmong(r, n) ==>
      exists j :: 0 <= j < n && NeedsUrl(r.founders[j]) && e == MissingAt(r, j)
    ensures forall j :: 0 <= j < n && NeedsUrl(r.founders[j]) ==> MissingAt(r, j) in MissingAmong(r, n)
  {
    if n > 0 {
      MissingAmongExact(r, n - 1);
    }
  }

  /** Every worklist entry comes from a founder with a name and no URL,
      with its company index, company name, `enumerate` position and full name. */
  lemma {:induction false} MissingSound(results: seq<CompanyResult>)
    ensures forall e :: e in MissingOf(results) ==> exists i: nat, j: nat :: MissingFrom(results, e, i, j)
  {
    if results != [] {
      var n := |results| - 1;
      var init := results[..n];
      var last := results[n];
      MissingSound(init);
      MissingAmongExact(last, |last.founders|);
      forall e | e in MissingOf(results) ensures exists i: nat, j: nat :: MissingFrom(results, e, i, j) {
        if e in MissingOf(init) {
          var i: nat, j: nat :| MissingFrom(init, e, i, j);
          assert results[i] == init[i];
          assert MissingFrom(results, e, i, j);
        } else {
          var j :| 0 <= j < |last.founders| && NeedsUrl(last.founders[j]) && e == MissingAt(last, j);
          assert MissingFrom(results, e, n, j);
        }
      }
    }
  }

  /** Every founder with a name and no URL has its worklist entry. */
  lemma MissingComplete(results: seq<CompanyResult>)
    ensures forall i, j ::
      (0 <= i < |results| && 0 <= j < |results[i].founders| && NeedsUrl(results[i].founders[j])) ==>
      MissingAt(results[i], j) in MissingOf(results)
  {
    forall i, j | 0 <= i < |results| && 0 <= j < |results[i].founders| && NeedsUrl(results[i].founders[j])
      ensures MissingAt(results[i], j) in MissingOf(results)
    {
      MissingCompleteAt(results, i, j);
    }
  }

  lemma {:induction false} MissingCompleteAt(results: seq<CompanyResult>, i: nat, j: nat)
    requires i < |results| && j < |results[i].founders| && NeedsUrl(results[i].founders[j])
    ensures MissingAt(results[i], j) in MissingOf(results)
  {
    var n := |results| - 1;
    var init := results[..n];
    var last := results[n];
    assert MissingOf(results) == MissingOf(init) + MissingAmong(last, |last.founders|);
    if i < n {
      assert results[i] == init[i];
      MissingCompleteAt(init, i, j);
    } else {
      MissingAmongHas(last, |last.founders|, j);
    }
  }

  lemma {:induction false} MissingAmongHas(r: CompanyResult, n: nat, j: nat)
    requires j < n <= |r.founders| && NeedsUrl(r.founders[j])
    ensures MissingAt(r, j) in MissingAmong(r, n)
  {
    if j < n - 1 {
      MissingAmongHas(r, n - 1, j);
    }
  }

  /** One search's result: the entry, the status and the verified URL. */
  datatype Outcome = Outcome(info: Missing, status: SearchStatus, url: Option<string>)

  /** `process_founder_search`: the search for one entry; `replies` gives the
      primary and the fallback reply the search engine sends for it. */
  function OutcomeOf(e: Missing, replies: Missing -> (SearchReply, SearchReply)): Outcome {
    var (status, url) := SearchOutcome(e.founderName, replies(e).0, replies(e).1);
    Outcome(e, status, url)
  }

  /** The searches of one chunk, in submission order. */
  function Searched(chunk: seq<Missing>, replies: Missing -> (SearchReply, SearchReply)): (outs: seq<Outcome>)
    ensures |outs| == |chunk|
    ensures forall k :: 0 <= k < |chunk| ==> outs[k] == OutcomeOf(chunk[k], replies)
  {
    seq(|chunk|, k requires 0 <= k < |chunk| => OutcomeOf(chunk[k], replies))
  }

  /** `as_completed` yields every submitted search exactly once: a completion
      order of `n` searches lists each submission position once. */
  predicate IsCompletionOrder(order: seq<nat>, n: nat) {
    multiset(order) == multiset(Positions(n))
  }

  /** What the search at submission position `k` contributes when it completes. */
  function ArriveFrom(outs: seq<Outcome>): nat -> seq<Outcome> {
    (k: nat) => if k < |outs| then [outs[k]] else []
  }

  /** The outcomes in the order `as_completed` yields them: `order` lists
      submission positions by completion. */
  function Arrived(outs: seq<Outcome>, order: seq<nat>): seq<Outcome> {
    FlatMap(ArriveFrom(outs), order)
  }

  lemma ArrivedFrom(outs: seq<Outcome>, order: seq<nat>)
    ensures forall o :: o in Arrived(outs, order) ==> o in outs
  {
    FlatMapFrom(ArriveFrom(outs), order);
  }

  /** In submission order the outcomes arrive as they were produced. */
  lemma {:induction false} ArrivedInOrder(outs: seq<Outcome>, m: nat)
    requires m <= |outs|
    ensures Arrived(outs, Positions(m)) == outs[..m]
  {
    if m > 0 {
      assert Positions(m)[..m - 1] == Positions(m - 1);
      ArrivedInOrder(outs, m - 1);
      assert outs[..m] == outs[..m - 1] + [outs[m - 1]];
    }
  }

  /** Whatever the completion order, every outcome arrives exactly once: the
      arrived outcomes are a permutation of the submitted ones. */
  lemma ArrivedPermutes(outs: seq<Outcome>, order: seq<nat>)
    requires IsCompletionOrder(order, |outs|)
    ensures multiset(Arrived(outs, order)) == multiset(outs)
    ensures forall k :: 0 <= k < |outs| ==> outs[k] in Arrived(outs, order)
  {
    FlatMapPerm(ArriveFrom(outs), order, Positions(|outs|));
    ArrivedInOrder(outs, |outs|);
    assert outs[..|outs|] == outs;
    forall k | 0 <= k < |outs| ensures outs[k] in Arrived(outs, order) {
      assert outs[k] in multiset(outs);
    }
  }

  /** The write a verified outcome makes. */
  function OutcomeWrite(o: Outcome): Write
    requires o.url.Some?
  {
    Write(o.info.companyIndex, o.info.founderIndex, SetLinkedin(o.url.value))
  }

  /** The search verified a profile URL. */
  predicate Verifies(o: Outcome) {
    o.status == Verified && o.url.Some?
  }

  /** The write of one outcome: one for a verified URL, none otherwise. */
  function WritesOf(o: Outcome): seq<Write> {
    if Verifies(o) then [OutcomeWrite(o)] else []
  }

  /** The writes of the outcomes, in order: one per verified outcome. */
  function OutcomeWrites(outcomes: seq<Outcome>): (ws: seq<Write>)
    ensures forall m :: 0 <= m < |ws| ==> ws[m].edit.SetLinkedin?
  {
    FlatMapFrom(WritesOf, outcomes);
    assert forall w :: w in FlatMap(WritesOf, outcomes) ==> w.edit.SetLinkedin?;
    FlatMap(WritesOf, outcomes)
  }

  lemma OutcomeWritesFrom(outcomes: seq<Outcome>)
    ensures forall w :: w in OutcomeWrites(outcomes) ==>
      exists o :: o in outcomes && Verifies(o) && w == OutcomeWrite(o)
  {
    FlatMapFrom(WritesOf, outcomes);
  }

  /** Outcomes that are not verified write nothing. */
  lemma {:induction false} UnverifiedWriteNothing(outcomes: seq<Outcome>)
    requires forall k :: 0 <= k < |outcomes| ==> outcomes[k].status != Verified
    ensures OutcomeWrites(outcomes) == []
  {
    if outcomes != [] {
      UnverifiedWriteNothing(outcomes[..|outcomes| - 1]);
    }
  }

  /** The write-back loop over one chunk's outcomes: each verified URL goes
      to its founder with the location set to the sentinel; `verifiedCount`
      counts the founders written. */
  method WriteBack(results: seq<CompanyResult>, outcomes: seq<Outcome>)
    returns (updated: seq<CompanyResult>, verifiedCount: nat)
    ensures updated == ApplyWrites(results, OutcomeWrites(outcomes))
    ensures verifiedCount == HitCount(results, OutcomeWrites(outcomes))
  {
    updated, verifiedCount := results, 0;
    var n := 0;
    while n < |outcomes|
      invariant n <= |outcomes|
      invariant updated == ApplyWrites(results, OutcomeWrites(outcomes[..n]))
      invariant verifiedCount == HitCount(results, OutcomeWrites(outcomes[..n]))
    {
      var o := outcomes[n];
      assert outcomes[..n + 1][..n] == outcomes[..n];
      ghost var ws := OutcomeWrites(outcomes[..n]);
      if o.status == Verified && o.url.Some? {
        var w := OutcomeWrite(o);
        var hit;
        ApplyWritesKeepsShape(results, ws);
        HitsShape(updated, results, w);
        ApplyWritesSnoc(results, ws, w);
        updated, hit := UpdateFounder(updated, w);
        if hit {
          verifiedCount := verifiedCount + 1;
        }
      } else {
        assert OutcomeWrites(outcomes[..n + 1]) == ws + [];
        assert ws + [] == ws;
      }
      n := n + 1;
    }
    assert outcomes[..n] == outcomes;
  }

  const SearchChunkSize: nat := 50

  /** What one chunk writes, with its outcomes in completion order `order`. */
  function ChunkSearchWrites(chunk: seq<Missing>, replies: Missing -> (SearchReply, SearchReply), order: seq<nat>): seq<Write> {
    OutcomeWrites(Arrived(Searched(chunk, replies), order))
  }

  /** The writes of the chunks in order; chunk `c` completes in order `arrival(c)`. */
  function SearchWrites(chunks: seq<seq<Missing>>, replies: Missing -> (SearchReply, SearchReply),
                        arrival: nat -> seq<nat>): (ws: seq<Write>)
    ensures forall m :: 0 <= m < |ws| ==> ws[m].edit.SetLinkedin?
  {
    if chunks == [] then []
    else
      var c := |chunks| - 1;
      SearchWrites(chunks[..c], replies, arrival) + ChunkSearchWrites(chunks[c], replies, arrival(c))
  }

  /** The state of the checkpoint after the chunks `done`; `saved` is the file's content. */
  ghost predicate SearchSoFar(results: seq<CompanyResult>, replies: Missing -> (SearchReply, SearchReply),
                              arrival: nat -> seq<nat>, done: seq<seq<Missing>>,
                              updated: seq<CompanyResult>, total: nat, saved: Option<seq<CompanyResult>>)
  {
    && updated == ApplyWrites(results, SearchWrites(done, replies, arrival))
    && total == HitCount(results, SearchWrites(done, replies, arrival))
    && (saved.Some? <==> done != [])
    && (saved.Some? ==> saved.value == updated)
  }

  lemma SearchStep(results: seq<CompanyResult>, replies: Missing -> (SearchReply, SearchReply),
                   arrival: nat -> seq<nat>, done: seq<seq<Missing>>, chunk: seq<Missing>,
                   before: seq<CompanyResult>, total: nat, saved: Option<seq<CompanyResult>>,
                   after: seq<CompanyResult>, count: nat)
    requires SearchSoFar(results, replies, arrival, done, before, total, saved)
    requires after == ApplyWrites(before, ChunkSearchWrites(chunk, replies, arrival(|done|)))
    requires count == HitCount(before, ChunkSearchWrites(chunk, replies, arrival(|done|)))
    ensures SearchSoFar(results, replies, arrival, done + [chunk], after, total + count, Some(after))
  {
    var ws := SearchWrites(done, replies, arrival);
    var more := ChunkSearchWrites(chunk, replies, arrival(|done|));
    assert (done + [chunk])[..|done|] == done;
    assert SearchWrites(done + [chunk], replies, arrival) == ws + more;
    ApplyWritesAppend(results, ws, more);
    ApplyWritesKeepsShape(results, ws);
    HitCountShape(before, results, more);
  }

  /** One chunk: every entry searched, then the outcomes written back in
      completion order. */
  method SearchChunk(results: seq<CompanyResult>, chunk: seq<Missing>,
                     replies: Missing -> (SearchReply, SearchReply), order: seq<nat>)
    returns (updated: seq<CompanyResult>, verifiedCount: nat)
    requires IsCompletionOrder(order, |chunk|)
    ensures updated == ApplyWrites(results, ChunkSearchWrites(chunk, replies, order))
    ensures verifiedCount == HitCount(results, ChunkSearchWrites(chunk, replies, order))
    ensures multiset(ChunkSearchWrites(chunk, replies, order)) == multiset(OutcomeWrites(Searched(chunk, replies)))
  {
    var outs: seq<Outcome> := [];
    var k := 0;
    while k < |chunk|
      invariant k <= |chunk| && |outs| == k
      invariant forall m :: 0 <= m < k ==> outs[m] == OutcomeOf(chunk[m], replies)
    {
      var e := chunk[k];
      var status, url := FindLinkedinUrl(e.founderName, replies(e).0, replies(e).1);
      outs := outs + [Outcome(e, status, url)];
      k := k + 1;
    }
    assert outs == Searched(chunk, replies);
    var arrived := Arrived(outs, order);
    ArrivedPermutes(outs, order);
    FlatMapPerm(WritesOf, arrived, outs);
    updated, verifiedCount := WriteBack(results, arrived);
  }

  /**
   * `find_missing_linkedin_urls`: collect the worklist, search it in chunks
   * of 50, write back each chunk's verified URLs and save the checkpoint
   * after every chunk. With nothing missing there is no chunk and no save.
   */
  method FindMissingLinkedinUrls(results: seq<CompanyResult>, replies: Missing -> (SearchReply, SearchReply),
                                 arrival: nat -> seq<nat>)
    returns (updated: seq<CompanyResult>, totalVerified: nat, saved: Option<seq<CompanyResult>>)
    requires CompletionOrders(Chunks(MissingOf(results), SearchChunkSize), arrival)
    ensures var ws := SearchWrites(Chunks(MissingOf(results), SearchChunkSize), replies, arrival);
      updated == ApplyWrites(results, ws) && totalVerified == HitCount(results, ws)
    ensures DistinctIndices(results) ==> totalVerified == VerifiedCount(MissingOf(results), replies)
    ensures saved.Some? <==> MissingOf(results) != []
    ensures saved.Some? ==> saved.value == updated
  {
    var missing := CollectMissing(results);
    if missing == [] {
      FindMissingCount(results, replies, arrival);
      return results, 0, None;
    }
    updated, totalVerified, saved := results, 0, None;
    var start, chunkNum := 0, 0;
    ghost var done: seq<seq<Missing>> := [];
    while start < |missing|
      invariant 0 <= start <= |missing|
      invariant |done| == chunkNum
      invariant Chunks(missing, SearchChunkSize) == done + ChunksFrom(missing, SearchChunkSize, start)
      invariant SearchSoFar(results, replies, arrival, done, updated, totalVerified, saved)
      invariant start > 0 <==> done != []
      decreases |missing| - start
    {
      var end, after, count := SearchNextChunk(results, replies, arrival, missing, done, chunkNum, start, updated, totalVerified, saved);
      done := done + [missing[start..end]];
      updated, totalVerified := after, totalVerified + count;
      saved := Some(updated);
      start, chunkNum := end, chunkNum + 1;
    }
    assert done == Chunks(missing, SearchChunkSize);
    FindMissingCount(results, replies, arrival);
  }

  /** One pass of the chunk loop: the next 50 entries are searched and written back. */
  method SearchNextChunk(ghost results: seq<CompanyResult>, replies: Missing -> (SearchReply, SearchReply),
                         arrival: nat -> seq<nat>, missing: seq<Missing>, ghost done: seq<seq<Missing>>,
                         chunkNum: nat, start: nat, updated: seq<CompanyResult>, totalVerified: nat,
                         ghost saved: Option<seq<CompanyResult>>)
    returns (end: nat, after: seq<CompanyResult>, count: nat)
    requires CompletionOrders(Chunks(missing, SearchChunkSize), arrival)
    requires start < |missing| && chunkNum == |done|
    requires Chunks(missing, SearchChunkSize) == done + ChunksFrom(missing, SearchChunkSize, start)
    requires SearchSoFar(results, replies, arrival, done, updated, totalVerified, saved)
    ensures start < end <= |missing| && end == ChunkEnd(|missing|, SearchChunkSize, start)
    ensures Chunks(missing, SearchChunkSize) == (done + [missing[start..end]]) + ChunksFrom(missing, SearchChunkSize, end)
    ensures SearchSoFar(results, replies, arrival, done + [missing[start..end]], after, totalVerified + count, Some(after))
  {
    end := if start + SearchChunkSize <= |missing| then start + SearchChunkSize else |missing|;
    var chunk := missing[start..end];
    ChunksFromStep(missing, SearchChunkSize, done, start);
    after, count := SearchChunk(updated, chunk, replies, arrival(chunkNum));
    SearchStep(results, replies, arrival, done, chunk, updated, totalVerified, saved, after, count);
  }

  /** `w` is the write a verified search for entry `e` makes. */
  predicate VerifiedWriteFor(e: Missing, w: Write) {
    w.edit.SetLinkedin? && w == Write(e.companyIndex, e.founderIndex, w.edit) && VerifiedProfile(e.founderName, w.edit.url)
  }

  lemma ChunkWritesVerified(chunk: seq<Missing>, replies: Missing -> (SearchReply, SearchReply), order: seq<nat>)
    ensures forall w :: w in ChunkSearchWrites(chunk, replies, order) ==> exists e :: e in chunk && VerifiedWriteFor(e, w)
  {
    var outs := Searched(chunk, replies);
    OutcomeWritesFrom(Arrived(outs, order));
    ArrivedFrom(outs, order);
    forall w | w in ChunkSearchWrites(chunk, replies, order) ensures exists e :: e in chunk && VerifiedWriteFor(e, w) {
      var o :| o in Arrived(outs, order) && o.status == Verified && o.url.Some? && w == OutcomeWrite(o);
      var k :| 0 <= k < |outs| && outs[k] == o;
      var e := chunk[k];
      VerifiedUrlIsProfile(e.founderName, replies(e).0, replies(e).1);
      assert VerifiedWriteFor(e, w);
    }
  }

  /** Every write of the search step is a verified URL for some worklist entry, at that entry's position. */
  lemma {:induction false} SearchWritesVerified(chunks: seq<seq<Missing>>, replies: Missing -> (SearchReply, SearchReply),
                                                arrival: nat -> seq<nat>)
    ensures forall w :: w in SearchWrites(chunks, replies, arrival) ==> exists e :: e in Concat(chunks) && VerifiedWriteFor(e, w)
  {
    if chunks != [] {
      var c := |chunks| - 1;
      SearchWritesVerified(chunks[..c], replies, arrival);
      ChunkWritesVerified(chunks[c], replies, arrival(c));
      assert Concat(chunks) == Concat(chunks[..c]) + chunks[c];
    }
  }

  /**
   * What the search step does to one founder: nothing, or it sets the
   * LinkedIn URL to a verified profile URL of a worklist entry whose write
   * lands there, and marks the location pending.
   */
  lemma FindMissingEffect(results: seq<CompanyResult>, replies: Missing -> (SearchReply, SearchReply),
                          arrival: nat -> seq<nat>, i: nat, j: nat)
    requires i < |results| && j < |results[i].founders|
    ensures var ws := SearchWrites(Chunks(MissingOf(results), SearchChunkSize), replies, arrival);
      |ApplyWrites(results, ws)| == |results| && j < |ApplyWrites(results, ws)[i].founders|
    ensures var ws := SearchWrites(Chunks(MissingOf(results), SearchChunkSize), replies, arrival);
      var f := results[i].founders[j];
      var g := ApplyWrites(results, ws)[i].founders[j];
      g == f ||
      exists e, u :: e in MissingOf(results) && VerifiedProfile(e.founderName, u) &&
        g == f.(linkedinUrl := u, location := PendingSentinel) &&
        Targets(results, Write(e.companyIndex, e.founderIndex, SetLinkedin(u)), i, j)
  {
    var missing := MissingOf(results);
    var chunks := Chunks(missing, SearchChunkSize);
    var ws := SearchWrites(chunks, replies, arrival);
    ChunksPartition(missing, SearchChunkSize, 0);
    assert missing[0..] == missing;
    SearchWritesVerified(chunks, replies, arrival);
    ApplyWritesAt(results, ws, i, j);
    LastEditFrom(results, ws, i, j);
    match LastEdit(results, ws, i, j)
    case None =>
    case Some(edit) =>
      var k :| 0 <= k < |ws| && ws[k].edit == edit && Targets(results, ws[k], i, j);
      assert ws[k] in ws;
      var e :| e in Concat(chunks) && VerifiedWriteFor(e, ws[k]);
      assert Targets(results, Write(e.companyIndex, e.founderIndex, SetLinkedin(edit.url)), i, j);
  }

  /** No two results carry the same company index. */
  predicate DistinctIndices(results: seq<CompanyResult>) {
    forall a, b :: 0 <= a < |results| && 0 <= b < |results| && results[a].companyIndex == results[b].companyIndex ==> a == b
  }

  /** With distinct company indices, a write aimed at a worklist entry's
      position lands on the founder the entry came from. */
  lemma MissingTargetsOwnFounder(results: seq<CompanyResult>, e: Missing, edit: FounderEdit, i: nat, j: nat)
    requires DistinctIndices(results)
    requires e in MissingOf(results)
    requires Targets(results, Write(e.companyIndex, e.founderIndex, edit), i, j)
    ensures NeedsUrl(results[i].founders[j]) && e == MissingAt(results[i], j)
  {
    MissingSound(results);
    var i': nat, j': nat :| MissingFrom(results, e, i', j');
    assert results[i].companyIndex == results[i'].companyIndex;
  }

  /**
   * With distinct company indices the search only fills in missing URLs: a
   * founder changes only when it had a name and no URL, and then it gets a
   * URL verified against its own full name, with the location marked pending.
   */
  lemma FindFillsOnlyMissing(results: seq<CompanyResult>, replies: Missing -> (SearchReply, SearchReply),
                             arrival: nat -> seq<nat>, i: nat, j: nat)
    requires DistinctIndices(results)
    requires i < |results| && j < |results[i].founders|
    ensures var ws := SearchWrites(Chunks(MissingOf(results), SearchChunkSize), replies, arrival);
      |ApplyWrites(results, ws)| == |results| && j < |ApplyWrites(results, ws)[i].founders|
    ensures var ws := SearchWrites(Chunks(MissingOf(results), SearchChunkSize), replies, arrival);
      var f := results[i].founders[j];
      var g := ApplyWrites(results, ws)[i].founders[j];
      g == f ||
      (NeedsUrl(f) && exists u :: VerifiedProfile(FullName(f), u) && g == f.(linkedinUrl := u, location := PendingSentinel))
  {
    FindMissingEffect(results, replies, arrival, i, j);
    var ws := SearchWrites(Chunks(MissingOf(results), SearchChunkSize), replies, arrival);
    var f := results[i].founders[j];
    var g := ApplyWrites(results, ws)[i].founders[j];
    if g != f {
      var e, u :| e in MissingOf(results) && VerifiedProfile(e.founderName, u) &&
        g == f.(linkedinUrl := u, location := PendingSentinel) &&
        Targets(results, Write(e.companyIndex, e.founderIndex, SetLinkedin(u)), i, j);
      MissingTargetsOwnFounder(results, e, SetLinkedin(u), i, j);
    }
  }

  /** Every chunk's searches complete in an order that yields each of them once. */
  predicate CompletionOrders(chunks: seq<seq<Missing>>, arrival: nat -> seq<nat>) {
    forall c :: 0 <= c < |chunks| ==> IsCompletionOrder(arrival(c), |chunks[c]|)
  }

  lemma SearchedAppend(a: seq<Missing>, b: seq<Missing>, replies: Missing -> (SearchReply, SearchReply))
    ensures Searched(a + b, replies) == Searched(a, replies) + Searched(b, replies)
  {
    assert forall k :: 0 <= k < |b| ==> (a + b)[|a| + k] == b[k];
  }

  /** The writes of the whole run are the writes of the searches in submission
      order, reordered: each verified search is written exactly once. */
  lemma {:induction false} SearchWritesPermutes(chunks: seq<seq<Missing>>, replies: Missing -> (SearchReply, SearchReply),
                                                arrival: nat -> seq<nat>)
    requires CompletionOrders(chunks, arrival)
    ensures multiset(SearchWrites(chunks, replies, arrival)) == multiset(OutcomeWrites(Searched(Concat(chunks), replies)))
  {
    if chunks != [] {
      var c := |chunks| - 1;
      assert forall k :: 0 <= k < c ==> chunks[..c][k] == chunks[k];
      SearchWritesPermutes(chunks[..c], replies, arrival);
      var outs := Searched(chunks[c], replies);
      ArrivedPermutes(outs, arrival(c));
      FlatMapPerm(WritesOf, Arrived(outs, arrival(c)), outs);
      SearchedAppend(Concat(chunks[..c]), chunks[c], replies);
      FlatMapAppend(WritesOf, Searched(Concat(chunks[..c]), replies), outs);
    }
  }

  /** Every write of the run is the write of a verified search of some worklist entry. */
  lemma {:induction false} SearchWritesFrom(chunks: seq<seq<Missing>>, replies: Missing -> (SearchReply, SearchReply),
                                            arrival: nat -> seq<nat>)
    ensures forall w :: w in SearchWrites(chunks, replies, arrival) ==>
      exists e :: e in Concat(chunks) && Verifies(OutcomeOf(e, replies)) && w == OutcomeWrite(OutcomeOf(e, replies))
  {
    if chunks != [] {
      var c := |chunks| - 1;
      SearchWritesFrom(chunks[..c], replies, arrival);
      var outs := Searched(chunks[c], replies);
      OutcomeWritesFrom(Arrived(outs, arrival(c)));
      ArrivedFrom(outs, arrival(c));
      forall w | w in ChunkSearchWrites(chunks[c], replies, arrival(c))
        ensures exists e :: e in Concat(chunks) && Verifies(OutcomeOf(e, replies)) && w == OutcomeWrite(OutcomeOf(e, replies))
      {
        var o :| o in Arrived(outs, arrival(c)) && Verifies(o) && w == OutcomeWrite(o);
        var k :| 0 <= k < |outs| && outs[k] == o;
        assert chunks[c][k] in Concat(chunks);
      }
    }
  }

  /** A verified search of a worklist entry is written, whatever the completion order. */
  lemma {:induction false} SearchWritesHas(chunks: seq<seq<Missing>>, replies: Missing -> (SearchReply, SearchReply),
                                           arrival: nat -> seq<nat>, e: Missing)
    requires CompletionOrders(chunks, arrival)
    requires e in Concat(chunks) && Verifies(OutcomeOf(e, replies))
    ensures OutcomeWrite(OutcomeOf(e, replies)) in SearchWrites(chunks, replies, arrival)
  {
    var c := |chunks| - 1;
    var prefix := SearchWrites(chunks[..c], replies, arrival);
    var more := ChunkSearchWrites(chunks[c], replies, arrival(c));
    assert SearchWrites(chunks, replies, arrival) == prefix + more;
    if e in Concat(chunks[..c]) {
      assert forall k :: 0 <= k < c ==> chunks[..c][k] == chunks[k];
      SearchWritesHas(chunks[..c], replies, arrival, e);
    } else {
      var outs := Searched(chunks[c], replies);
      var k :| 0 <= k < |chunks[c]| && chunks[c][k] == e;
      ArrivedPermutes(outs, arrival(c));
      FlatMapHas(WritesOf, Arrived(outs, arrival(c)), outs[k], OutcomeWrite(outs[k]));
    }
  }

  /** How many worklist entries have a search that verifies a profile URL. */
  function VerifiedCount(missing: seq<Missing>, replies: Missing -> (SearchReply, SearchReply)): nat {
    if missing == [] then 0
    else VerifiedCount(missing[..|missing| - 1], replies) + (if Verifies(OutcomeOf(missing[|missing| - 1], replies)) then 1 else 0)
  }

  lemma {:induction false} VerifiedCountWrites(missing: seq<Missing>, replies: Missing -> (SearchReply, SearchReply))
    ensures |OutcomeWrites(Searched(missing, replies))| == VerifiedCount(missing, replies)
  {
    if missing != [] {
      var n := |missing| - 1;
      VerifiedCountWrites(missing[..n], replies);
      assert Searched(missing, replies)[..n] == Searched(missing[..n], replies);
    }
  }

  /** With distinct company indices, a write at a founder's own position lands on it. */
  lemma OwnPositionTargets(results: seq<CompanyResult>, i: nat, j: nat, edit: FounderEdit)
    requires DistinctIndices(results)
    requires i < |results| && j < |results[i].founders|
    ensures Targets(results, Write(results[i].companyIndex, j, edit), i, j)
  {
    match FirstWithIndex(results, results[i].companyIndex)
    case None =>
    case Some(k) =>
  }

  /**
   * `total_verified` is exact: with distinct company indices every verified
   * search of the worklist lands once, so the total is the number of entries
   * whose search verifies a URL.
   */
  lemma FindMissingCount(results: seq<CompanyResult>, replies: Missing -> (SearchReply, SearchReply),
                         arrival: nat -> seq<nat>)
    requires CompletionOrders(Chunks(MissingOf(results), SearchChunkSize), arrival)
    ensures DistinctIndices(results) ==>
      HitCount(results, SearchWrites(Chunks(MissingOf(results), SearchChunkSize), replies, arrival)) ==
      VerifiedCount(MissingOf(results), replies)
  {
    if DistinctIndices(results) {
      var missing := MissingOf(results);
      var chunks := Chunks(missing, SearchChunkSize);
      var ws := SearchWrites(chunks, replies, arrival);
      ChunksPartition(missing, SearchChunkSize, 0);
      assert missing[0..] == missing;
      SearchWritesFrom(chunks, replies, arrival);
      MissingSound(results);
      forall m | 0 <= m < |ws| ensures Hits(results, ws[m]) {
        assert ws[m] in ws;
        var e :| e in missing && Verifies(OutcomeOf(e, replies)) && ws[m] == OutcomeWrite(OutcomeOf(e, replies));
        var i: nat, j: nat :| MissingFrom(results, e, i, j);
        OwnPositionTargets(results, i, j, ws[m].edit);
      }
      HitCountAll(results, ws);
      SearchWritesPermutes(chunks, replies, arrival);
      assert |ws| == |multiset(ws)| == |multiset(OutcomeWrites(Searched(missing, replies)))|;
      VerifiedCountWrites(missing, replies);
    }
  }

  /**
   * The search step's effect on one founder, both directions: with distinct
   * company indices a founder changes exactly when it had a name and no URL
   * and its own search verified, and it then gets that search's URL with the
   * location marked pending.
   */
  lemma FindMissingExact(results: seq<CompanyResult>, replies: Missing -> (SearchReply, SearchReply),
                         arrival: nat -> seq<nat>, i: nat, j: nat)
    requires DistinctIndices(results)
    requires CompletionOrders(Chunks(MissingOf(results), SearchChunkSize), arrival)
    requires i < |results| && j < |results[i].founders|
    ensures var ws := SearchWrites(Chunks(MissingOf(results), SearchChunkSize), replies, arrival);
      |ApplyWrites(results, ws)| == |results| && j < |ApplyWrites(results, ws)[i].founders|
    ensures var ws := SearchWrites(Chunks(MissingOf(results), SearchChunkSize), replies, arrival);
      var f := results[i].founders[j];
      var o := OutcomeOf(MissingAt(results[i], j), replies);
      ApplyWrites(results, ws)[i].founders[j] ==
        if NeedsUrl(f) && Verifies(o) then f.(linkedinUrl := o.url.value, location := PendingSentinel) else f
  {
    var missing := MissingOf(results);
    var chunks := Chunks(missing, SearchChunkSize);
    var ws := SearchWrites(chunks, replies, arrival);
    var f := results[i].founders[j];
    var e := MissingAt(results[i], j);
    ChunksPartition(missing, SearchChunkSize, 0);
    assert missing[0..] == missing;
    ApplyWritesAt(results, ws, i, j);
    LastEditFrom(results, ws, i, j);
    match LastEdit(results, ws, i, j)
    case None =>
      if NeedsUrl(f) && Verifies(OutcomeOf(e, replies)) {
        MissingCompleteAt(results, i, j);
        SearchWritesHas(chunks, replies, arrival, e);
        var w := OutcomeWrite(OutcomeOf(e, replies));
        OwnPositionTargets(results, i, j, w.edit);
      }
    case Some(edit) =>
      var k :| 0 <= k < |ws| && ws[k].edit == edit && Targets(results, ws[k], i, j);
      SearchWritesFrom(chunks, replies, arrival);
      assert ws[k] in ws;
      var e' :| e' in missing && Verifies(OutcomeOf(e', replies)) && ws[k] == OutcomeWrite(OutcomeOf(e', replies));
      MissingTargetsOwnFounder(results, e', edit, i, j);
  }

  // ---------------------------------------------------------------------------
  // enrich_with_brightdata
  // ---------------------------------------------------------------------------

  /** A downloaded profile as this step reads it: `input.url` is the key
      (a missing key reads as ""). */
  datatype BrightProfile = BrightProfile(inputUrl: string, location: string, city: string, countryCode: string)

  function AsProfile(p: BrightProfile): EnrichLocations.Profile {
    EnrichLocations.Profile(p.inputUrl, p.location, p.city, p.countryCode)
  }

  function AsProfiles(ps: seq<BrightProfile>): (r: seq<EnrichLocations.Profile>)
    ensures |r| == |ps|
    ensures forall k :: 0 <= k < |ps| ==> r[k] == AsProfile(ps[k])
  {
    seq(|ps|, k requires 0 <= k < |ps| => AsProfile(ps[k]))
  }

  /** The entry for founder `j` of `r`, at its `enumerate` position; this
      step records no company name. */
  function PendingAt(r: CompanyResult, j: nat): EnrichLocations.Pending
    requires j < |r.founders|
  {
    var f := r.founders[j];
    EnrichLocations.Pending(FullName(f), f.linkedinUrl, "", r.companyIndex, j)
  }

  function PendingAmong(r: CompanyResult, n: nat): seq<EnrichLocations.Pending>
    requires n <= |r.founders|
  {
    if n == 0 then []
    else PendingAmong(r, n - 1) + (if EnrichLocations.IsPending(r.founders[n - 1]) then [PendingAt(r, n - 1)] else [])
  }

  /** The pending founders of the whole checkpoint, in checkpoint order. */
  function PendingOf(results: seq<CompanyResult>): seq<EnrichLocations.Pending> {
    if results == [] then []
    else
      var last := results[|results| - 1];
      PendingOf(results[..|results| - 1]) + PendingAmong(last, |last.founders|)
  }

  /** The collection loop of `enrich_with_brightdata`. */
  method CollectPending(results: seq<CompanyResult>) returns (pending: seq<EnrichLocations.Pending>)
    ensures pending == PendingOf(results)
  {
    pending := [];
    var i := 0;
    while i < |results|
      invariant 0 <= i <= |results|
      invariant pending == PendingOf(results[..i])
    {
      var entries := PendingOfResult(results[i]);
      pending := pending + entries;
      assert results[..i + 1][..i] == results[..i];
      i := i + 1;
    }
    assert results[..i] == results;
  }

  /** The inner loop: the pending founders of one result. */
  method PendingOfResult(result: CompanyResult) returns (entries: seq<EnrichLocations.Pending>)
    ensures entries == PendingAmong(result, |result.founders|)
  {
    entries := [];
    var j := 0;
    while j < |result.founders|
      invariant 0 <= j <= |result.founders|
      invariant entries == PendingAmong(result, j)
    {
      var founder := result.founders[j];
      if EnrichLocations.IsPending(founder) {
        entries := entries + [PendingAt(result, j)];
      }
      j := j + 1;
    }
  }

  /** Entry `e` comes from pending founder `j` of result `i`. */
  predicate PendingFrom(results: seq<CompanyResult>, e: EnrichLocations.Pending, i: nat, j: nat) {
    i < |results| && j < |results[i].founders| && EnrichLocations.IsPending(results[i].founders[j]) &&
    e == PendingAt(results[i], j)
  }

  lemma {:induction false} PendingAmongExact(r: CompanyResult, n: nat)
    requires n <= |r.founders|
    ensures forall e :: e in PendingAmong(r, n) ==>
      exists j :: 0 <= j < n && EnrichLocations.IsPending(r.founders[j]) && e == PendingAt(r, j)
    ensures forall j :: 0 <= j < n && EnrichLocations.IsPending(r.founders[j]) ==> PendingAt(r, j) in PendingAmong(r, n)
  {
    if n > 0 {
      PendingAmongExact(r, n - 1);
    }
  }

  /** Every pending entry comes from a pending founder, at its own position. */
  lemma {:induction false} PendingSound(results: seq<CompanyResult>)
    ensures forall e :: e in PendingOf(results) ==> exists i: nat, j: nat :: PendingFrom(results, e, i, j)
  {
    if results != [] {
      var n := |results| - 1;
      var init := results[..n];
      var last := results[n];
      PendingSound(init);
      PendingAmongExact(last, |last.founders|);
      forall e | e in PendingOf(results) ensures exists i: nat, j: nat :: PendingFrom(results, e, i, j) {
        if e in PendingOf(init) {
          var i: nat, j: nat :| PendingFrom(init, e, i, j);
          assert results[i] == init[i];
          assert PendingFrom(results, e, i, j);
        } else {
          var j :| 0 <= j < |last.founders| && EnrichLocations.IsPending(last.founders[j]) && e == PendingAt(last, j);
          assert PendingFrom(results, e, n, j);
        }
      }
    }
  }

  /** Every pending founder has its entry. */
  lemma {:induction false} PendingComplete(results: seq<CompanyResult>)
    ensures forall i, j ::
      (0 <= i < |results| && 0 <= j < |results[i].founders| && EnrichLocations.IsPending(results[i].founders[j])) ==>
      PendingAt(results[i], j) in PendingOf(results)
  {
    if results != [] {
      var n := |results| - 1;
      var init := results[..n];
      var last := results[n];
      PendingComplete(init);
      PendingAmongExact(last, |last.founders|);
      forall i, j | 0 <= i < |results| && 0 <= j < |results[i].founders| && EnrichLocations.IsPending(results[i].founders[j])
        ensures PendingAt(results[i], j) in PendingOf(results)
      {
        if i < n {
          assert results[i] == init[i];
        }
      }
    }
  }

  /** With distinct company indices, a write aimed at a pending entry's
      position lands on the founder the entry came from. */
  lemma PendingTargetsOwnFounder(results: seq<CompanyResult>, e: EnrichLocations.Pending, edit: FounderEdit, i: nat, j: nat)
    requires DistinctIndices(results)
    requires e in PendingOf(results)
    requires Targets(results, Write(e.companyIndex, e.founderIndex, edit), i, j)
    ensures EnrichLocations.IsPending(results[i].founders[j]) && e == PendingAt(results[i], j)
  {
    PendingSound(results);
    var i': nat, j': nat :| PendingFrom(results, e, i', j');
    assert results[i].companyIndex == results[i'].companyIndex;
  }

  const PollAttempts: nat := 60

  /** A download that ends the polling: a non-empty list of profiles. */
  predicate Ready(d: Option<seq<BrightProfile>>) {
    d.Some? && |d.value| > 0
  }

  /** The first attempt from `a` on whose download is ready. */
  function FirstReady(download: nat -> Option<seq<BrightProfile>>, a: nat): (r: Option<nat>)
    requires a <= PollAttempts
    ensures r.Some? ==> a <= r.value < PollAttempts && Ready(download(r.value))
    ensures r.Some? ==> forall b :: a <= b < r.value ==> !Ready(download(b))
    ensures r.None? ==> forall b :: a <= b < PollAttempts ==> !Ready(download(b))
    decreases PollAttempts - a
  {
    if a == PollAttempts then None
    else if Ready(download(a)) then Some(a)
    else FirstReady(download, a + 1)
  }

  /** The profiles the step works on: the first ready download, when the
      submission succeeded and one arrived within the polling budget. */
  function Downloaded(submitted: bool, download: nat -> Option<seq<BrightProfile>>): Option<seq<BrightProfile>> {
    if !submitted then None
    else match FirstReady(download, 0)
      case None => None
      case Some(a) => download(a)
  }

  /**
   * `enrich_with_brightdata`: collect the pending founders, submit their
   * URLs in one batch, poll up to 60 times, and apply the first non-empty
   * download (matched on `input.url`), saving the checkpoint once. An empty
   * worklist, a failed submission or a timeout changes nothing.
   * `submitted` is whether the submission succeeded; `download(a)` is the
   * result of attempt `a` (None for an error).
   */
  method EnrichWithBrightdata(results: seq<CompanyResult>, submitted: bool, download: nat -> Option<seq<BrightProfile>>)
    returns (updated: seq<CompanyResult>, updatedCount: nat, saved: Option<seq<CompanyResult>>)
    ensures var pending := PendingOf(results);
      match (if pending == [] then None else Downloaded(submitted, download))
      case None => updated == results && updatedCount == 0 && saved == None
      case Some(ps) =>
        && updated == ApplyWrites(results, EnrichLocations.ResponseWrites(pending, AsProfiles(ps)))
        && updatedCount == HitCount(results, EnrichLocations.ResponseWrites(pending, AsProfiles(ps)))
        && saved == Some(updated)
  {
    var pending := CollectPending(results);
    if pending == [] || !submitted {
      return results, 0, None;
    }
    var attempt := 0;
    while attempt < PollAttempts
      invariant attempt <= PollAttempts
      invariant FirstReady(download, 0) == FirstReady(download, attempt)
    {
      var reply := download(attempt);
      if reply.Some? && |reply.value| > 0 {
        var profiles := AsProfiles(reply.value);
        var skipped;
        updated, updatedCount, skipped := EnrichLocations.ProcessResponse(results, pending, profiles);
        return updated, updatedCount, Some(updated);
      }
      attempt := attempt + 1;
    }
    return results, 0, None;
  }

  /** The profile `p` supplies location `loc`. */
  predicate Supplies(p: BrightProfile, loc: string) {
    EnrichLocations.ChooseLocation(AsProfile(p)) == Some(loc)
  }

  /** Every write of a download comes from a profile with a location and a
      pending entry whose URL equals the profile's `input.url`. */
  lemma MergeByInputUrl(results: seq<CompanyResult>, ps: seq<BrightProfile>)
    ensures forall w :: w in EnrichLocations.ResponseWrites(PendingOf(results), AsProfiles(ps)) ==>
      exists p, e, loc :: (p in ps && e in PendingOf(results) && e.linkedinUrl == p.inputUrl &&
        Supplies(p, loc) && w == EnrichLocations.WriteFor(e, loc))
  {
    var pending := PendingOf(results);
    var qs := AsProfiles(ps);
    EnrichLocations.ResponseWritesFrom(pending, qs);
    forall w | w in EnrichLocations.ResponseWrites(pending, qs)
      ensures exists p, e, loc :: (p in ps && e in pending && e.linkedinUrl == p.inputUrl &&
        Supplies(p, loc) && w == EnrichLocations.WriteFor(e, loc))
    {
      var q, e :| q in qs && e in pending && EnrichLocations.ChooseLocation(q).Some? && e.linkedinUrl == q.url &&
        w == EnrichLocations.WriteFor(e, EnrichLocations.ChooseLocation(q).value);
      var k :| 0 <= k < |qs| && qs[k] == q;
      assert ps[k] in ps && Supplies(ps[k], EnrichLocations.ChooseLocation(q).value);
    }
  }

  /**
   * With distinct company indices a founder gets only the location of its
   * own profile: after a download each founder is unchanged, or it was
   * pending and now carries the location of a profile whose `input.url` is
   * its own URL, with `is_austin` derived from that location.
   */
  lemma OwnProfileLocation(results: seq<CompanyResult>, ps: seq<BrightProfile>, i: nat, j: nat)
    requires DistinctIndices(results)
    requires i < |results| && j < |results[i].founders|
    ensures var ws := EnrichLocations.ResponseWrites(PendingOf(results), AsProfiles(ps));
      |ApplyWrites(results, ws)| == |results| && j < |ApplyWrites(results, ws)[i].founders|
    ensures var ws := EnrichLocations.ResponseWrites(PendingOf(results), AsProfiles(ps));
      var f := results[i].founders[j];
      var g := ApplyWrites(results, ws)[i].founders[j];
      g == f ||
      (EnrichLocations.IsPending(f) &&
       exists p, loc :: p in ps && p.inputUrl == f.linkedinUrl && Supplies(p, loc) &&
         g == f.(location := loc, isAustin := IsAustinLocation(loc)))
  {
    var pending := PendingOf(results);
    var ws := EnrichLocations.ResponseWrites(pending, AsProfiles(ps));
    ApplyWritesAt(results, ws, i, j);
    LastEditFrom(results, ws, i, j);
    if LastEdit(results, ws, i, j).Some? {
      var k :| 0 <= k < |ws| && ws[k].edit == LastEdit(results, ws, i, j).value && Targets(results, ws[k], i, j);
      assert ws[k] in ws;
      MergeByInputUrl(results, ps);
      var p, e, loc :| p in ps && e in pending && e.linkedinUrl == p.inputUrl && Supplies(p, loc) &&
        ws[k] == EnrichLocations.WriteFor(e, loc);
      PendingTargetsOwnFounder(results, e, SetLocation(loc), i, j);
    }
  }

  // ---------------------------------------------------------------------------
  // regenerate_csvs
  // ---------------------------------------------------------------------------

  /** `any(f.get('is_austin', False) for f in founders)`. */
  function AnyAustin(fs: seq<Founder>): bool {
    fs != [] && (AnyAustin(fs[..|fs| - 1]) || fs[|fs| - 1].isAustin)
  }

  /** `any` over the flags agrees with a positive count of them. */
  lemma {:induction false} AnyAustinCount(fs: seq<Founder>)
    ensures AnyAustin(fs) <==> GenerateCsvs.AustinFounders(fs) > 0
  {
    if fs != [] {
      AnyAustinCount(fs[..|fs| - 1]);
    }
  }

  /** The aggregated row as this step builds it, `has_austin_founder` from `any`. */
  function RegeneratedRowOf(c: CompanyRow, fs: seq<Founder>): GenerateCsvs.AggregatedRow {
    GenerateCsvs.AggregatedRow(c, |fs|, GenerateCsvs.AustinFounders(fs), GenerateCsvs.TrueFalse(AnyAustin(fs)),
      Join(GenerateCsvs.NamesOf(fs), GenerateCsvs.Bar), Join(GenerateCsvs.LocationsOf(fs), GenerateCsvs.Bar),
      Join(GenerateCsvs.UrlsOf(fs), GenerateCsvs.Bar))
  }

  /** The aggregation loop of `regenerate_csvs`: it builds the rows the
      standalone exporter builds. */
  method RegenerateAggregated(companies: seq<CompanyRow>, index: map<nat, seq<Founder>>)
    returns (rows: seq<GenerateCsvs.AggregatedRow>)
    ensures rows == GenerateCsvs.Aggregated(companies, index)
  {
    rows := [];
    var idx := 0;
    while idx < |companies|
      invariant 0 <= idx <= |companies|
      invariant rows == GenerateCsvs.Aggregated(companies[..idx], index)
    {
      assert companies[..idx + 1][..idx] == companies[..idx];
      var founders := GenerateCsvs.FoundersOf(index, idx);
      AnyAustinCount(founders);
      rows := rows + [RegeneratedRowOf(companies[idx], founders)];
      idx := idx + 1;
    }
    assert companies[..idx] == companies;
  }

  /** `regenerate_csvs`: the pipeline's last step writes exactly the four
      exports the standalone exporter writes for the same checkpoint. */
  method RegenerateCsvs(results: seq<CompanyResult>, columns: seq<string>, companies: seq<CompanyRow>)
    returns (out: GenerateCsvs.Exports)
    ensures out == GenerateCsvs.ExportsOf(results, columns, companies)
  {
    var index := GenerateCsvs.BuildIndex(results);
    var expandedRows, austinCount := GenerateCsvs.ExpandRows(companies, index);
    var fieldnames := columns + GenerateCsvs.ExpandedColumns;
    var austinRows := GenerateCsvs.AustinRows(expandedRows);
    var aggRows := RegenerateAggregated(companies, index);
    var aggFieldnames := columns + GenerateCsvs.AggregatedColumns;
    var austinCompanyRows := GenerateCsvs.AustinCompanies(aggRows);
    out := GenerateCsvs.Exports(
      GenerateCsvs.Table(fieldnames, expandedRows), GenerateCsvs.Table(fieldnames, austinRows),
      GenerateCsvs.Table(aggFieldnames, aggRows), GenerateCsvs.Table(aggFieldnames, austinCompanyRows),
      austinCount, |austinCompanyRows|);
  }
}
