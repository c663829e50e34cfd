/**
 * The post-search enrichment step: collect every founder whose location is
 * the Bright Data sentinel, send their LinkedIn URLs in chunks, and write
 * the location each returned profile carries back onto the founder.
 *
 * The Bright Data round trip (submit, poll, download) is the parameter
 * `reply`: chunk number to the downloaded profiles, or None when the chunk
 * failed or timed out. Polling accepts only a non-empty list, so an empty
 * download `Some([])` is treated like None: nothing is merged or saved. The checkpoint file is the `results` sequence.
 */
module EnrichLocations {
  import opened Wrappers
  import opened Text
  import opened Seqs
  import opened Founders

  /** One worklist entry: a pending founder and where to write its location. */
  datatype Pending = Pending(
    founderName: string,
    linkedinUrl: string,
    companyName: string,
    companyIndex: nat,
    founderIndex: nat)

  /** A downloaded Bright Data profile; a key the record lacks reads as "". */
  datatype Profile = Profile(url: string, location: string, city: string, countryCode: string)

  /** The founder awaits Bright Data and has a URL to send. */
  predicate IsPending(f: Founder) {
    f.location == PendingSentinel && f.linkedinUrl != ""
  }

  /** `list.index(f)`: the position of the first founder equal to `f`. */
  function IndexOf(fs: seq<Founder>, f: Founder): (r: nat)
    requires f in fs
    ensures r < |fs| && fs[r] == f
    ensures forall k :: 0 <= k < r ==> fs[k] != f
  {
    if fs[0] == f then 0 else 1 + IndexOf(fs[1..], f)
  }

  /** The worklist entry for founder `f` of result `r`. */
  function EntryFor(r: CompanyResult, f: Founder): Pending
    requires f in r.founders
  {
    Pending(FullName(f), f.linkedinUrl, r.companyName, r.companyIndex, IndexOf(r.founders, f))
  }

  /** The entries for the pending founders among the first `n` of `r`. */
  function PendingAmong(r: CompanyResult, n: nat): seq<Pending>
    requires n <= |r.founders|
  {
    if n == 0 then []
    else
      var f := r.founders[n - 1];
      PendingAmong(r, n - 1) + (if IsPending(f) then [EntryFor(r, f)] else [])
  }

  /** The whole worklist: the pending founders of every result, in checkpoint order. */
  function Collected(results: seq<CompanyResult>): seq<Pending> {
    if results == [] then []
    else
      var last := results[|results| - 1];
      Collected(results[..|results| - 1]) + PendingAmong(last, |last.founders|)
  }

  /** How many of the founders are pending. */
  function PendingFounders(fs: seq<Founder>): nat {
    if fs == [] then 0
    else PendingFounders(fs[..|fs| - 1]) + (if IsPending(fs[|fs| - 1]) then 1 else 0)
  }

  /** How many founders of the results are pending. */
  function PendingCount(results: seq<CompanyResult>): nat {
    if results == [] then 0
    else PendingCount(results[..|results| - 1]) + PendingFounders(results[|results| - 1].founders)
  }

  /** `collect_pending_profiles`. */
  method CollectPendingProfiles(results: seq<CompanyResult>) returns (pending: seq<Pending>)
    ensures pending == Collected(results)
  {
    pending := [];
    var i := 0;
    while i < |results|
      invariant 0 <= i <= |results|
      invariant pending == Collected(results[..i])
    {
      var result := results[i];
      ghost var before := pending;
      var j := 0;
      while j < |result.founders|
        invariant 0 <= j <= |result.founders|
        invariant pending == before + PendingAmong(result, j)
      {
        var founder := result.founders[j];
        if IsPending(founder) {
          pending := pending + [Pending(FullName(founder), founder.linkedinUrl, result.companyName,
                                        result.companyIndex, IndexOf(result.founders, founder))];
        }
        j := j + 1;
      }
      assert results[..i + 1][..i] == results[..i];
      i := i + 1;
    }
    assert results[..i] == results;
  }

  /** Entry `e` was collected from founder `j` of result `i`. */
  predicate CollectedFrom(results: seq<CompanyResult>, e: Pending, i: nat, j: nat) {
    i < |results| && j < |results[i].founders| && IsPending(results[i].founders[j]) &&
    e == EntryFor(results[i], results[i].founders[j])
  }

  lemma {:induction false} PendingAmongExact(r: CompanyResult, n: nat)
    requires n <= |r.founders|
    ensures |PendingAmong(r, n)| == PendingFounders(r.founders[..n])
    ensures forall e :: e in PendingAmong(r, n) ==>
      exists j :: 0 <= j < n && IsPending(r.founders[j]) && e == EntryFor(r, r.founders[j])
    ensures forall j :: 0 <= j < n && IsPending(r.founders[j]) ==> EntryFor(r, r.founders[j]) in PendingAmong(r, n)
  {
    if n > 0 {
      PendingAmongExact(r, n - 1);
      assert r.founders[..n][..n - 1] == r.founders[..n - 1];
    }
  }

  /** The worklist has one entry per pending founder. */
  lemma {:induction false} CollectedCount(results: seq<CompanyResult>)
    ensures |Collected(results)| == PendingCount(results)
  {
    if results != [] {
      var last := results[|results| - 1];
      CollectedCount(results[..|results| - 1]);
      PendingAmongExact(last, |last.founders|);
      assert last.founders[..|last.founders|] == last.founders;
    }
  }

  /** Every entry comes from a pending founder, whose name, URL and company it carries. */
  lemma {:induction false} CollectedSound(results: seq<CompanyResult>)
    ensures forall e :: e in Collected(results) ==> exists i: nat, j: nat :: CollectedFrom(results, e, i, j)
  {
    if results != [] {
      var init := results[..|results| - 1];
      var last := results[|results| - 1];
      CollectedSound(init);
      PendingAmongExact(last, |last.founders|);
      forall e | e in Collected(results) ensures exists i: nat, j: nat :: CollectedFrom(results, e, i, j) {
        if e in Collected(init) {
          var i: nat, j: nat :| CollectedFrom(init, e, i, j);
          assert results[i] == init[i];
          assert CollectedFrom(results, e, i, j);
        } else {
          var j :| 0 <= j < |last.founders| && IsPending(last.founders[j]) && e == EntryFor(last, last.founders[j]);
          assert CollectedFrom(results, e, |results| - 1, j);
        }
      }
    }
  }

  /** Every pending founder (location the sentinel, URL non-empty) has its entry. */
  lemma {:induction false} CollectedComplete(results: seq<CompanyResult>)
    ensures forall i, j :: 0 <= i < |results| && 0 <= j < |results[i].founders| && IsPending(results[i].founders[j]) ==>
      EntryFor(results[i], results[i].founders[j]) in Collected(results)
  {
    if results != [] {
      var init := results[..|results| - 1];
      var last := results[|results| - 1];
      CollectedComplete(init);
      PendingAmongExact(last, |last.founders|);
      forall i, j | 0 <= i < |results| && 0 <= j < |results[i].founders| && IsPending(results[i].founders[j])
        ensures EntryFor(results[i], results[i].founders[j]) in Collected(results)
      {
        if i < |init| {
          assert results[i] == init[i];
        }
      }
    }
  }

  /**
   * `founder_index` is the first position holding an equal founder, so it
   * names the founder an entry came from exactly when no earlier founder of
   * that company is equal to it.
   */
  lemma FounderIndexIsFirstEqual(r: CompanyResult, j: nat)
    requires j < |r.founders|
    ensures EntryFor(r, r.founders[j]).founderIndex <= j
    ensures r.founders[EntryFor(r, r.founders[j]).founderIndex] == r.founders[j]
    ensures EntryFor(r, r.founders[j]).founderIndex == j <==> forall k :: 0 <= k < j ==> r.founders[k] != r.founders[j]
  {
  }

  /** Bright Data's location, preferring `city`, then `location`, then
      `country_code`; None when the profile has none of them. */
  function ChooseLocation(p: Profile): Option<string> {
    if p.city != "" then Some(p.city)
    else if p.location != "" then Some(p.location)
    else if p.countryCode != "" then Some(p.countryCode)
    else None
  }

  predicate NoLocation(p: Profile) {
    ChooseLocation(p).None?
  }

  lemma ChooseLocationPriority(p: Profile)
    ensures ChooseLocation(p).None? <==> p.city == "" && p.location == "" && p.countryCode == ""
    ensures ChooseLocation(p).Some? ==> ChooseLocation(p).value != ""
    ensures p.city != "" ==> ChooseLocation(p) == Some(p.city)
    ensures p.city == "" && p.location != "" ==> ChooseLocation(p) == Some(p.location)
    ensures p.city == "" && p.location == "" && p.countryCode != "" ==> ChooseLocation(p) == Some(p.countryCode)
  {
  }

  function WriteFor(e: Pending, loc: string): Write {
    Write(e.companyIndex, e.founderIndex, SetLocation(loc))
  }

  /** The writes of one profile: one per chunk entry whose URL equals the
      profile's, compared as plain strings, in chunk order. */
  function MatchWrites(chunk: seq<Pending>, url: string, loc: string): (ws: seq<Write>)
    ensures forall k :: 0 <= k < |ws| ==> ws[k].edit == SetLocation(loc)
  {
    if chunk == [] then []
    else
      var e := chunk[|chunk| - 1];
      MatchWrites(chunk[..|chunk| - 1], url, loc) + (if e.linkedinUrl == url then [WriteFor(e, loc)] else [])
  }

  function ProfileWrites(chunk: seq<Pending>, p: Profile): seq<Write> {
    match ChooseLocation(p)
    case None => []
    case Some(loc) => MatchWrites(chunk, p.url, loc)
  }

  /** The writes of a whole download, profile by profile. */
  function ResponseWrites(chunk: seq<Pending>, profiles: seq<Profile>): (ws: seq<Write>)
    ensures forall k :: 0 <= k < |ws| ==> ws[k].edit.SetLocation?
  {
    if profiles == [] then []
    else ResponseWrites(chunk, profiles[..|profiles| - 1]) + ProfileWrites(chunk, profiles[|profiles| - 1])
  }

  /** A profile writes to exactly the chunk entries carrying its URL, each
      with its chosen location. */
  lemma {:induction false} MatchWritesExact(chunk: seq<Pending>, url: string, loc: string)
    ensures forall w :: w in MatchWrites(chunk, url, loc) <==>
      exists e :: e in chunk && e.linkedinUrl == url && w == WriteFor(e, loc)
    ensures |MatchWrites(chunk, url, loc)| <= |chunk|
  {
    if chunk != [] {
      var init := chunk[..|chunk| - 1];
      MatchWritesExact(init, url, loc);
      assert chunk == init + [chunk[|chunk| - 1]];
    }
  }

  /** One pass of the loop in `MatchProfile` at an entry carrying the URL: its write is added. */
  lemma MatchStep(results: seq<CompanyResult>, chunk: seq<Pending>, m: nat, url: string, loc: string)
    requires m < |chunk| && chunk[m].linkedinUrl == url
    ensures ApplyWrites(results, MatchWrites(chunk[..m + 1], url, loc)) ==
      ApplyWrite(ApplyWrites(results, MatchWrites(chunk[..m], url, loc)), WriteFor(chunk[m], loc))
    ensures HitCount(results, MatchWrites(chunk[..m + 1], url, loc)) ==
      HitCount(results, MatchWrites(chunk[..m], url, loc)) +
      (if Hits(ApplyWrites(results, MatchWrites(chunk[..m], url, loc)), WriteFor(chunk[m], loc)) then 1 else 0)
  {
    assert chunk[..m + 1][..m] == chunk[..m];
    var sofar := MatchWrites(chunk[..m], url, loc);
    var w := WriteFor(chunk[m], loc);
    assert MatchWrites(chunk[..m + 1], url, loc) == sofar + [w];
    ApplyWritesSnoc(results, sofar, w);
    HitsAfterWrites(results, sofar, w);
  }

  /** The same pass at an entry with another URL: nothing is added. */
  lemma MatchSkip(chunk: seq<Pending>, m: nat, url: string, loc: string)
    requires m < |chunk| && chunk[m].linkedinUrl != url
    ensures MatchWrites(chunk[..m + 1], url, loc) == MatchWrites(chunk[..m], url, loc)
  {
    assert chunk[..m + 1][..m] == chunk[..m];
  }

  /** A profile without location data is skipped and writes nothing. */
  lemma SkippedProfileWritesNothing(chunk: seq<Pending>, p: Profile, results: seq<CompanyResult>)
    requires NoLocation(p)
    ensures ApplyWrites(results, ProfileWrites(chunk, p)) == results
  {
  }

  /** The loop over the chunk for one profile with a location: each entry
      carrying the profile's URL edits its founder. `count` is how many of
      those edits landed. */
  method MatchProfile(results: seq<CompanyResult>, chunk: seq<Pending>, url: string, location: string)
    returns (updated: seq<CompanyResult>, count: nat)
    ensures updated == ApplyWrites(results, MatchWrites(chunk, url, location))
    ensures count == HitCount(results, MatchWrites(chunk, url, location))
  {
    updated, count := results, 0;
    var m := 0;
    while m < |chunk|
      invariant 0 <= m <= |chunk|
      invariant updated == ApplyWrites(results, MatchWrites(chunk[..m], url, location))
      invariant count == HitCount(results, MatchWrites(chunk[..m], url, location))
    {
      updated, count := MatchEntry(results, chunk, m, url, location, updated, count);
      m := m + 1;
    }
    assert chunk[..m] == chunk;
  }

  /** One pass of the loop in `MatchProfile`: entry `m` edits its founder when it carries the URL. */
  method MatchEntry(ghost results: seq<CompanyResult>, chunk: seq<Pending>, m: nat, url: string, location: string,
                    before: seq<CompanyResult>, counted: nat)
    returns (updated: seq<CompanyResult>, count: nat)
    requires m < |chunk|
    requires before == ApplyWrites(results, MatchWrites(chunk[..m], url, location))
    requires counted == HitCount(results, MatchWrites(chunk[..m], url, location))
    ensures updated == ApplyWrites(results, MatchWrites(chunk[..m + 1], url, location))
    ensures count == HitCount(results, MatchWrites(chunk[..m + 1], url, location))
  {
    var entry := chunk[m];
    if entry.linkedinUrl == url {
      MatchStep(results, chunk, m, url, location);
      var hit;
      updated, hit := UpdateFounder(before, WriteFor(entry, location));
      count := if hit then counted + 1 else counted;
    } else {
      MatchSkip(chunk, m, url, location);
      updated, count := before, counted;
    }
  }

  /** The body of the loop over a download, for one profile: the location by
      priority, then the chunk loop; `skipped` when there is no location. */
  method ProcessProfile(results: seq<CompanyResult>, chunk: seq<Pending>, profile: Profile)
    returns (updated: seq<CompanyResult>, count: nat, skipped: bool)
    ensures updated == ApplyWrites(results, ProfileWrites(chunk, profile))
    ensures count == HitCount(results, ProfileWrites(chunk, profile))
    ensures skipped == NoLocation(profile)
  {
    var location: string;
    if profile.city != "" {
      location := profile.city;
    } else if profile.location != "" {
      location := profile.location;
    } else if profile.countryCode != "" {
      location := profile.countryCode;
    } else {
      return results, 0, true;
    }
    updated, count := MatchProfile(results, chunk, profile.url, location);
    skipped := false;
  }

  /**
   * The update loop over one download: for each profile with a location, each
   * matching chunk entry edits its founder (at the first result with its
   * company index, when the position is in range). `updatedCount` counts the
   * edits made, `skippedCount` the profiles without location data.
   */
  method ProcessResponse(results: seq<CompanyResult>, chunk: seq<Pending>, profiles: seq<Profile>)
    returns (updated: seq<CompanyResult>, updatedCount: nat, skippedCount: nat)
    ensures updated == ApplyWrites(results, ResponseWrites(chunk, profiles))
    ensures updatedCount == HitCount(results, ResponseWrites(chunk, profiles))
    ensures skippedCount == SkippedCount(profiles)
  {
    updated, updatedCount, skippedCount := results, 0, 0;
    var n := 0;
    assert profiles[..0] == [];
    while n < |profiles|
      invariant n <= |profiles|
      invariant ResponseSoFar(results, chunk, profiles[..n], updated, updatedCount, skippedCount)
    {
      updated, updatedCount, skippedCount := ResponseLoopStep(results, chunk, profiles, n, updated, updatedCount, skippedCount);
      n := n + 1;
    }
    assert profiles[..n] == profiles;
  }

  /** One iteration of the update loop: the profile `profiles[n]`. */
  method ResponseLoopStep(results: seq<CompanyResult>, chunk: seq<Pending>, profiles: seq<Profile>, n: nat,
                          updated: seq<CompanyResult>, updatedCount: nat, skippedCount: nat)
    returns (updated1: seq<CompanyResult>, updatedCount1: nat, skippedCount1: nat)
    requires n < |profiles|
    requires ResponseSoFar(results, chunk, profiles[..n], updated, updatedCount, skippedCount)
    ensures ResponseSoFar(results, chunk, profiles[..n + 1], updated1, updatedCount1, skippedCount1)
  {
    var profile := profiles[n];
    var after, count, skipped := ProcessProfile(updated, chunk, profile);
    ResponseStep(results, chunk, profiles, n, updated, updatedCount, skippedCount, after, count, skipped);
    updated1 := after;
    updatedCount1 := updatedCount + count;
    skippedCount1 := skippedCount;
    if skipped {
      skippedCount1 := skippedCount1 + 1;
    }
  }

  /** How many profiles carry no location data. */
  function SkippedCount(profiles: seq<Profile>): nat {
    if profiles == [] then 0
    else SkippedCount(profiles[..|profiles| - 1]) + (if NoLocation(profiles[|profiles| - 1]) then 1 else 0)
  }

  /** The state of the update loop after the profiles `done`: the writes they make, applied and counted. */
  ghost predicate ResponseSoFar(results: seq<CompanyResult>, chunk: seq<Pending>, done: seq<Profile>,
                                updated: seq<CompanyResult>, updatedCount: nat, skippedCount: nat)
  {
    var ws := ResponseWrites(chunk, done);
    && updated == ApplyWrites(results, ws)
    && updatedCount == HitCount(results, ws)
    && skippedCount == SkippedCount(done)
  }

  lemma ResponseStep(results: seq<CompanyResult>, chunk: seq<Pending>, profiles: seq<Profile>, n: nat,
                     before: seq<CompanyResult>, updatedCount: nat, skippedCount: nat,
                     after: seq<CompanyResult>, count: nat, skipped: bool)
    requires n < |profiles|
    requires ResponseSoFar(results, chunk, profiles[..n], before, updatedCount, skippedCount)
    requires after == ApplyWrites(before, ProfileWrites(chunk, profiles[n]))
    requires count == HitCount(before, ProfileWrites(chunk, profiles[n]))
    requires skipped == NoLocation(profiles[n])
    ensures ResponseSoFar(results, chunk, profiles[..n + 1], after,
                          updatedCount + count, skippedCount + (if skipped then 1 else 0))
  {
    var done := ResponseWrites(chunk, profiles[..n]);
    var more := ProfileWrites(chunk, profiles[n]);
    assert profiles[..n + 1][..n] == profiles[..n];
    assert profiles[..n + 1][n] == profiles[n];
    assert ResponseWrites(chunk, profiles[..n + 1]) == done + more;
    assert SkippedCount(profiles[..n + 1]) == skippedCount + (if skipped then 1 else 0);
    ApplyWritesAppend(results, done, more);
    ApplyWritesKeepsShape(results, done);
    HitCountShape(before, results, more);
  }

  /**
   * An update changes only `location` and `is_austin`: every founder after
   * the download is its old record, either untouched or with the location of
   * some profile whose URL a chunk entry carries, and `is_austin` derived
   * from that location.
   */
  lemma ResponseOnlySetsLocations(results: seq<CompanyResult>, chunk: seq<Pending>, profiles: seq<Profile>, i: nat, j: nat)
    requires i < |results| && j < |results[i].founders|
    ensures |ApplyWrites(results, ResponseWrites(chunk, profiles))| == |results|
    ensures j < |ApplyWrites(results, ResponseWrites(chunk, profiles))[i].founders|
    ensures var f := results[i].founders[j];
      var g := ApplyWrites(results, ResponseWrites(chunk, profiles))[i].founders[j];
      g == f ||
      exists loc :: (g == f.(location := loc, isAustin := IsAustinLocation(loc)) &&
        exists w :: w in ResponseWrites(chunk, profiles) && w.edit == SetLocation(loc) && Targets(results, w, i, j))
  {
    var ws := ResponseWrites(chunk, profiles);
    ApplyWritesAt(results, ws, i, j);
    LastEditFrom(results, ws, i, j);
    match LastEdit(results, ws, i, j)
    case None =>
    case Some(e) =>
      var k :| 0 <= k < |ws| && ws[k].edit == e && Targets(results, ws[k], i, j);
      assert ws[k] in ws;
  }

  /** Every write of a download comes from a profile with a location and a
      chunk entry carrying that profile's URL. */
  lemma {:induction false} ResponseWritesFrom(chunk: seq<Pending>, profiles: seq<Profile>)
    ensures forall w :: w in ResponseWrites(chunk, profiles) ==>
      exists p, e :: (p in profiles && e in chunk && ChooseLocation(p).Some? && e.linkedinUrl == p.url &&
        w == WriteFor(e, ChooseLocation(p).value))
  {
    if profiles != [] {
      var init := profiles[..|profiles| - 1];
      var p := profiles[|profiles| - 1];
      ResponseWritesFrom(chunk, init);
      forall w | w in ResponseWrites(chunk, profiles)
        ensures exists p, e :: (p in profiles && e in chunk && ChooseLocation(p).Some? && e.linkedinUrl == p.url &&
          w == WriteFor(e, ChooseLocation(p).value))
      {
        if w in ResponseWrites(chunk, init) {
          var q, e :| q in init && e in chunk && ChooseLocation(q).Some? && e.linkedinUrl == q.url &&
            w == WriteFor(e, ChooseLocation(q).value);
          assert q in profiles;
        } else {
          MatchWritesExact(chunk, p.url, ChooseLocation(p).value);
        }
      }
    }
  }

  /** The writes of a download depend only on the chunk and the profiles, so
      processing the same download a second time changes nothing more. */
  lemma ResponseIdempotent(results: seq<CompanyResult>, chunk: seq<Pending>, profiles: seq<Profile>)
    ensures var once := ApplyWrites(results, ResponseWrites(chunk, profiles));
      ApplyWrites(once, ResponseWrites(chunk, profiles)) == once
  {
    var ws := ResponseWrites(chunk, profiles);
    assert Uniform(ws);
    ApplyWritesIdempotent(results, ws);
  }

  /** What one chunk contributes: its download's writes, or nothing when the
      download failed. */
  function ChunkWrites(chunk: seq<Pending>, reply: Option<seq<Profile>>): seq<Write> {
    match reply
    case None => []
    case Some(profiles) => ResponseWrites(chunk, profiles)
  }

  /** The writes of the chunks in order; chunk `k` gets download `reply(k)`. */
  function BatchWrites(chunks: seq<seq<Pending>>, reply: nat -> Option<seq<Profile>>): (ws: seq<Write>)
    ensures forall m :: 0 <= m < |ws| ==> ws[m].edit.SetLocation?
  {
    if chunks == [] then []
    else
      var k := |chunks| - 1;
      BatchWrites(chunks[..k], reply) + ChunkWrites(chunks[k], reply(k))
  }

  lemma BatchWritesSnoc(done: seq<seq<Pending>>, chunk: seq<Pending>, reply: nat -> Option<seq<Profile>>)
    ensures BatchWrites(done + [chunk], reply) == BatchWrites(done, reply) + ChunkWrites(chunk, reply(|done|))
  {
    assert (done + [chunk])[..|done|] == done;
  }

  /** What the checkpoint and its file hold after the chunks `done`. */
  ghost predicate BatchSoFar(results: seq<CompanyResult>, reply: nat -> Option<seq<Profile>>,
                             done: seq<seq<Pending>>, updated: seq<CompanyResult>, saved: Option<seq<CompanyResult>>)
  {
    && updated == ApplyWrites(results, BatchWrites(done, reply))
    && (saved.Some? <==> AnyReply(|done|, reply))
    && (saved.Some? ==> saved.value == updated)
  }

  lemma BatchStep(results: seq<CompanyResult>, reply: nat -> Option<seq<Profile>>, done: seq<seq<Pending>>,
                  chunk: seq<Pending>, before: seq<CompanyResult>, saved: Option<seq<CompanyResult>>, after: seq<CompanyResult>)
    requires BatchSoFar(results, reply, done, before, saved)
    requires after == ApplyWrites(before, ChunkWrites(chunk, reply(|done|)))
    ensures BatchSoFar(results, reply, done + [chunk], after, if Downloaded(reply(|done|)) then Some(after) else saved)
  {
    BatchWritesSnoc(done, chunk, reply);
    ApplyWritesAppend(results, BatchWrites(done, reply), ChunkWrites(chunk, reply(|done|)));
  }

  /** Without any download there are no writes. */
  lemma {:induction false} NoReplyNoWrites(chunks: seq<seq<Pending>>, reply: nat -> Option<seq<Profile>>)
    ensures !AnyReply(|chunks|, reply) ==> BatchWrites(chunks, reply) == []
  {
    if chunks != [] {
      NoReplyNoWrites(chunks[..|chunks| - 1], reply);
    }
  }

  /** A download the polling loop accepts: a non-empty list of profiles. */
  predicate Downloaded(response: Option<seq<Profile>>) {
    response.Some? && response.value != []
  }

  /** Some chunk among the first `count` got a non-empty download. */
  predicate AnyReply(count: nat, reply: nat -> Option<seq<Profile>>) {
    count > 0 && (Downloaded(reply(count - 1)) || AnyReply(count - 1, reply))
  }

  lemma {:induction false} AnyReplyExists(count: nat, reply: nat -> Option<seq<Profile>>)
    ensures AnyReply(count, reply) <==> exists k :: 0 <= k < count && Downloaded(reply(k))
  {
    if count > 0 {
      AnyReplyExists(count - 1, reply);
    }
  }

  /** One chunk's turn: when a non-empty download arrived, apply it; `save`
      says the checkpoint is written afterwards. */
  method ProcessChunk(results: seq<CompanyResult>, chunk: seq<Pending>, response: Option<seq<Profile>>)
    returns (updated: seq<CompanyResult>, save: bool)
    ensures updated == ApplyWrites(results, ChunkWrites(chunk, response))
    ensures save == (response.Some? && response.value != [])
  {
    if response.Some? && response.value != [] {
      var updatedCount, skippedCount;
      updated, updatedCount, skippedCount := ProcessResponse(results, chunk, response.value);
      save := true;
    } else {
      updated, save := results, false;
    }
  }

  /**
   * `process_batch`: chunk the worklist, apply each chunk's download in
   * chunk order, and save the checkpoint after each chunk that got one.
   * `saved` is the last content written to the checkpoint file.
   */
  method ProcessBatch(results: seq<CompanyResult>, pending: seq<Pending>, batchSize: nat,
                      reply: nat -> Option<seq<Profile>>)
    returns (updated: seq<CompanyResult>, saved: Option<seq<CompanyResult>>)
    requires batchSize > 0
    ensures updated == ApplyWrites(results, BatchWrites(Chunks(pending, batchSize), reply))
    ensures saved.Some? <==> AnyReply(|Chunks(pending, batchSize)|, reply)
    ensures saved.Some? ==> saved.value == updated
    ensures saved.None? ==> updated == results
  {
    updated, saved := results, None;
    var total := |pending|;
    var i := 0;
    var chunkNum := 0;
    ghost var done: seq<seq<Pending>> := [];
    while i < total
      invariant 0 <= i <= total
      invariant |done| == chunkNum
      invariant Chunks(pending, batchSize) == done + ChunksFrom(pending, batchSize, i)
      invariant BatchSoFar(results, reply, done, updated, saved)
      decreases total - i
    {
      var end := if i + batchSize <= total then i + batchSize else total;
      var chunk := pending[i..end];
      ChunksFromStep(pending, batchSize, done, i);
      ghost var before := updated;
      var save;
      updated, save := ProcessChunk(updated, chunk, reply(chunkNum));
      BatchStep(results, reply, done, chunk, before, saved, updated);
      if save {
        saved := Some(updated);
      }
      done := done + [chunk];
      i := end;
      chunkNum := chunkNum + 1;
    }
    assert done == Chunks(pending, batchSize);
    NoReplyNoWrites(done, reply);
  }

  /** A second run with the same worklist and the same downloads leaves the
      checkpoint as the first run left it. */
  lemma BatchIdempotent(results: seq<CompanyResult>, pending: seq<Pending>, batchSize: nat,
                        reply: nat -> Option<seq<Profile>>)
    requires batchSize > 0
    ensures var once := ApplyWrites(results, BatchWrites(Chunks(pending, batchSize), reply));
      ApplyWrites(once, BatchWrites(Chunks(pending, batchSize), reply)) == once
  {
    var ws := BatchWrites(Chunks(pending, batchSize), reply);
    assert Uniform(ws);
    ApplyWritesIdempotent(results, ws);
  }

  /**
   * An entry's write reaches the founder it was collected from when its
   * result is the first carrying that company index and no earlier founder
   * of the company is equal to it.
   */
  lemma EntryTargetsItsFounder(results: seq<CompanyResult>, i: nat, j: nat, loc: string)
    requires i < |results| && j < |results[i].founders|
    requires FirstWithIndex(results, results[i].companyIndex) == Some(i)
    requires forall k :: 0 <= k < j ==> results[i].founders[k] != results[i].founders[j]
    ensures Targets(results, WriteFor(EntryFor(results[i], results[i].founders[j]), loc), i, j)
  {
    FounderIndexIsFirstEqual(results[i], j);
  }
}
