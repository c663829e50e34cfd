/**
 * The records kept in a founder-search checkpoint: one `CompanyResult` per
 * processed company, each holding its founders, and the in-place edits the
 * enrichment steps make to one founder of one result.
 *
 * An edit is addressed the way the source addresses it: by `company_index`
 * and position in that company's founder list. It lands on the FIRST result
 * carrying that `company_index`, and only when the position is inside the
 * list; otherwise it changes nothing.
 */
module Founders {
  import opened Wrappers
  import opened Text

  /** A founder record. A key the record lacks reads as "" (and `is_austin` as false).
      `extra` holds every other key of the dict (`confidence`, `source_url`,
      `verification_method`, `current_location`, ...), which no step here reads or
      edits; it makes equality of founders the equality of whole dicts. */
  datatype Founder = Founder(
    name: string,
    firstName: string,
    lastName: string,
    linkedinUrl: string,
    location: string,
    isAustin: bool,
    extra: map<string, string>)

  /** One completed unit of work: a company and the founders found for it. */
  datatype CompanyResult = CompanyResult(
    companyIndex: nat,
    companyName: string,
    companyYear: string,
    companyLocation: string,
    founders: seq<Founder>,
    austinFoundersCount: int)

  /** A row of the input companies CSV, read by position; the columns the code
      reads by name. The exporters copy the whole row. */
  datatype CompanyRow = CompanyRow(
    name: string,
    year: string,
    location: string,
    website: string,
    crunchbase: string,
    linkedin: string)

  /** The location sentinel for a founder whose LinkedIn profile awaits Bright Data. */
  const PendingSentinel: string := "PENDING_BRIGHTDATA"

  /** `any(k in location.lower() for k in ['austin', 'atx'])`. */
  predicate IsAustinLocation(location: string) {
    Contains(Lower(location), "austin") || Contains(Lower(location), "atx")
  }

  /** `f"{first_name} {last_name}".strip()`. */
  function FullName(f: Founder): string {
    Strip(f.firstName + " " + f.lastName)
  }

  /** `full_name` is non-empty: the first or last name holds a non-space character. */
  predicate HasName(f: Founder) {
    !AllSpace(f.firstName + " " + f.lastName)
  }

  lemma HasNameFullName(f: Founder)
    ensures HasName(f) <==> FullName(f) != ""
  {
    StripEmpty(f.firstName + " " + f.lastName);
  }

  /** The two in-place updates the enrichment steps make to a founder. */
  datatype FounderEdit =
    | SetLocation(location: string)   // Bright Data: location and derived is_austin
    | SetLinkedin(url: string)        // verified search: URL, and location becomes pending

  function Edited(f: Founder, e: FounderEdit): Founder {
    match e
    case SetLocation(loc) => f.(location := loc, isAustin := IsAustinLocation(loc))
    case SetLinkedin(url) => f.(linkedinUrl := url, location := PendingSentinel)
  }

  /** Applying an edit after one of the same kind overwrites it completely. */
  lemma EditAbsorbs(f: Founder, e1: FounderEdit, e2: FounderEdit)
    requires e1.SetLocation? == e2.SetLocation?
    ensures Edited(Edited(f, e1), e2) == Edited(f, e2)
  {
  }

  /** An edit of founder `founderIndex` of the result with `companyIndex`. */
  datatype Write = Write(companyIndex: nat, founderIndex: nat, edit: FounderEdit)

  /** Position of the first result carrying `companyIndex`. */
  function FirstWithIndex(results: seq<CompanyResult>, companyIndex: nat): (r: Option<nat>)
    ensures r.Some? ==> r.value < |results| && results[r.value].companyIndex == companyIndex
    ensures r.Some? ==> forall k :: 0 <= k < r.value ==> results[k].companyIndex != companyIndex
    ensures r.None? ==> forall k :: 0 <= k < |results| ==> results[k].companyIndex != companyIndex
  {
    if results == [] then None
    else if results[0].companyIndex == companyIndex then Some(0)
    else match FirstWithIndex(results[1..], companyIndex)
      case None => None
      case Some(k) => Some(k + 1)
  }

  /** The write lands: the company is present and the position is inside its founder list. */
  predicate Hits(results: seq<CompanyResult>, w: Write) {
    match FirstWithIndex(results, w.companyIndex)
    case None => false
    case Some(k) => w.founderIndex < |results[k].founders|
  }

  /** The write lands on founder `j` of result `i`. */
  predicate Targets(results: seq<CompanyResult>, w: Write, i: nat, j: nat) {
    FirstWithIndex(results, w.companyIndex) == Some(i) && w.founderIndex == j && j < |results[i].founders|
  }

  function ApplyWrite(results: seq<CompanyResult>, w: Write): seq<CompanyResult> {
    match FirstWithIndex(results, w.companyIndex)
    case None => results
    case Some(k) =>
      var fs := results[k].founders;
      if w.founderIndex < |fs| then
        results[k := results[k].(founders := fs[w.founderIndex := Edited(fs[w.founderIndex], w.edit)])]
      else results
  }

  /** The writes applied one after another, in order. */
  function ApplyWrites(results: seq<CompanyResult>, ws: seq<Write>): seq<CompanyResult> {
    if ws == [] then results
    else ApplyWrite(ApplyWrites(results, ws[..|ws| - 1]), ws[|ws| - 1])
  }

  /** How many of the writes land. */
  function HitCount(results: seq<CompanyResult>, ws: seq<Write>): nat {
    if ws == [] then 0
    else HitCount(results, ws[..|ws| - 1]) + (if Hits(results, ws[|ws| - 1]) then 1 else 0)
  }

  /** The same companies, in the same order, with founder lists of the same lengths. */
  predicate SameShape(a: seq<CompanyResult>, b: seq<CompanyResult>) {
    && |a| == |b|
    && (forall k :: 0 <= k < |a| ==> a[k].companyIndex == b[k].companyIndex)
    && (forall k :: 0 <= k < |a| ==> |a[k].founders| == |b[k].founders|)
  }

  lemma {:induction false} FirstWithIndexShape(a: seq<CompanyResult>, b: seq<CompanyResult>, ci: nat)
    requires SameShape(a, b)
    ensures FirstWithIndex(a, ci) == FirstWithIndex(b, ci)
  {
    if a != [] {
      assert SameShape(a[1..], b[1..]);
      FirstWithIndexShape(a[1..], b[1..], ci);
    }
  }

  lemma HitsShape(a: seq<CompanyResult>, b: seq<CompanyResult>, w: Write)
    requires SameShape(a, b)
    ensures Hits(a, w) == Hits(b, w)
    ensures forall i: nat, j: nat :: Targets(a, w, i, j) == Targets(b, w, i, j)
  {
    FirstWithIndexShape(a, b, w.companyIndex);
  }

  /** One write: the shape is kept, only the targeted founder changes, and
      every field of every result other than its founders is kept. */
  lemma ApplyWriteAt(results: seq<CompanyResult>, w: Write)
    ensures SameShape(ApplyWrite(results, w), results)
    ensures forall i :: 0 <= i < |results| ==>
      ApplyWrite(results, w)[i] == results[i].(founders := ApplyWrite(results, w)[i].founders)
    ensures forall i: nat, j: nat :: i < |results| && j < |results[i].founders| ==>
      ApplyWrite(results, w)[i].founders[j] ==
        if Targets(results, w, i, j) then Edited(results[i].founders[j], w.edit) else results[i].founders[j]
  {
  }

  lemma {:induction false} ApplyWritesShape(results: seq<CompanyResult>, ws: seq<Write>)
    ensures SameShape(ApplyWrites(results, ws), results)
    ensures forall i :: 0 <= i < |results| ==>
      ApplyWrites(results, ws)[i] == results[i].(founders := ApplyWrites(results, ws)[i].founders)
  {
    if ws != [] {
      var init := ApplyWrites(results, ws[..|ws| - 1]);
      ApplyWritesShape(results, ws[..|ws| - 1]);
      ApplyWriteAt(init, ws[|ws| - 1]);
    }
  }

  lemma ApplyWritesKeepsShape(results: seq<CompanyResult>, ws: seq<Write>)
    ensures SameShape(ApplyWrites(results, ws), results)
  {
    ApplyWritesShape(results, ws);
  }

  /** The landed-write count does not depend on what earlier writes did. */
  lemma HitsAfterWrites(results: seq<CompanyResult>, ws: seq<Write>, w: Write)
    ensures Hits(ApplyWrites(results, ws), w) == Hits(results, w)
  {
    ApplyWritesKeepsShape(results, ws);
    HitsShape(ApplyWrites(results, ws), results, w);
  }

  /** The landed-write count depends only on the shape. */
  lemma {:induction false} HitCountShape(a: seq<CompanyResult>, b: seq<CompanyResult>, ws: seq<Write>)
    requires SameShape(a, b)
    ensures HitCount(a, ws) == HitCount(b, ws)
  {
    if ws != [] {
      HitCountShape(a, b, ws[..|ws| - 1]);
      HitsShape(a, b, ws[|ws| - 1]);
    }
  }

  /** When every write lands, each one counts. */
  lemma {:induction false} HitCountAll(results: seq<CompanyResult>, ws: seq<Write>)
    requires forall m :: 0 <= m < |ws| ==> Hits(results, ws[m])
    ensures HitCount(results, ws) == |ws|
  {
    if ws != [] {
      HitCountAll(results, ws[..|ws| - 1]);
    }
  }

  lemma ApplyWritesSnoc(results: seq<CompanyResult>, ws: seq<Write>, w: Write)
    ensures ApplyWrites(results, ws + [w]) == ApplyWrite(ApplyWrites(results, ws), w)
    ensures HitCount(results, ws + [w]) == HitCount(results, ws) + (if Hits(results, w) then 1 else 0)
  {
    assert (ws + [w])[..|ws|] == ws;
  }

  lemma {:induction false} ApplyWritesAppend(results: seq<CompanyResult>, ws: seq<Write>, vs: seq<Write>)
    ensures ApplyWrites(results, ws + vs) == ApplyWrites(ApplyWrites(results, ws), vs)
    ensures HitCount(results, ws + vs) == HitCount(results, ws) + HitCount(results, vs)
  {
    if vs == [] {
      assert ws + vs == ws;
    } else {
      var init := vs[..|vs| - 1];
      var last := vs[|vs| - 1];
      assert ws + vs == (ws + init) + [last];
      assert vs == init + [last];
      ApplyWritesAppend(results, ws, init);
      ApplyWritesSnoc(results, ws + init, last);
      ApplyWritesSnoc(ApplyWrites(results, ws), init, last);
      ApplyWritesSnoc(results, init, last);
    }
  }

  /** The edit of the last write in `ws` that lands on founder `j` of result `i`. */
  function LastEdit(results: seq<CompanyResult>, ws: seq<Write>, i: nat, j: nat): Option<FounderEdit> {
    if ws == [] then None
    else if Targets(results, ws[|ws| - 1], i, j) then Some(ws[|ws| - 1].edit)
    else LastEdit(results, ws[..|ws| - 1], i, j)
  }

  /** All writes edit the same kind of field set (all locations, or all URLs). */
  predicate Uniform(ws: seq<Write>) {
    (forall k :: 0 <= k < |ws| ==> ws[k].edit.SetLocation?) ||
    (forall k :: 0 <= k < |ws| ==> ws[k].edit.SetLinkedin?)
  }

  lemma UniformPrefix(ws: seq<Write>, n: nat)
    requires Uniform(ws) && n <= |ws|
    ensures Uniform(ws[..n])
  {
    assert forall k :: 0 <= k < n ==> ws[..n][k] == ws[k];
  }

  /** Last write wins: after uniform writes, each founder is its original
      record with the last edit that landed on it, if any. */
  lemma {:induction false} ApplyWritesAt(results: seq<CompanyResult>, ws: seq<Write>, i: nat, j: nat)
    requires Uniform(ws)
    requires i < |results| && j < |results[i].founders|
    ensures |ApplyWrites(results, ws)| == |results| && j < |ApplyWrites(results, ws)[i].founders|
    ensures ApplyWrites(results, ws)[i].founders[j] ==
      match LastEdit(results, ws, i, j)
      case None => results[i].founders[j]
      case Some(e) => Edited(results[i].founders[j], e)
  {
    ApplyWritesShape(results, ws);
    if ws != [] {
      var init := ws[..|ws| - 1];
      var w := ws[|ws| - 1];
      UniformPrefix(ws, |ws| - 1);
      ApplyWritesAt(results, init, i, j);
      var before := ApplyWrites(results, init);
      ApplyWritesShape(results, init);
      ApplyWriteAt(before, w);
      HitsShape(before, results, w);
      if !Targets(results, w, i, j) {
        assert LastEdit(results, ws, i, j) == LastEdit(results, init, i, j);
      } else {
        match LastEdit(results, init, i, j)
        case None =>
        case Some(e) =>
          LastEditFrom(results, init, i, j);
          var k :| 0 <= k < |init| && init[k].edit == e;
          assert ws[k] == init[k];
          EditAbsorbs(results[i].founders[j], e, w.edit);
      }
    }
  }

  lemma {:induction false} LastEditFrom(results: seq<CompanyResult>, ws: seq<Write>, i: nat, j: nat)
    ensures LastEdit(results, ws, i, j).Some? ==>
      exists k :: 0 <= k < |ws| && ws[k].edit == LastEdit(results, ws, i, j).value && Targets(results, ws[k], i, j)
    ensures LastEdit(results, ws, i, j).None? <==> forall k :: 0 <= k < |ws| ==> !Targets(results, ws[k], i, j)
  {
    if ws != [] {
      var init := ws[..|ws| - 1];
      LastEditFrom(results, init, i, j);
      assert forall k :: 0 <= k < |init| ==> init[k] == ws[k];
    }
  }

  /** Equal shapes, equal non-founder fields and equal founders give equal results. */
  lemma ResultsExt(a: seq<CompanyResult>, b: seq<CompanyResult>)
    requires SameShape(a, b)
    requires forall i :: 0 <= i < |a| ==> a[i] == b[i].(founders := a[i].founders)
    requires forall i: nat, j: nat :: i < |a| && j < |a[i].founders| ==> a[i].founders[j] == b[i].founders[j]
    ensures a == b
  {
    forall i | 0 <= i < |a| ensures a[i] == b[i] {
      assert a[i].founders == b[i].founders;
    }
  }

  /** Re-applying the same uniform writes changes nothing more. */
  lemma ApplyWritesIdempotent(results: seq<CompanyResult>, ws: seq<Write>)
    requires Uniform(ws)
    ensures ApplyWrites(ApplyWrites(results, ws), ws) == ApplyWrites(results, ws)
  {
    var once := ApplyWrites(results, ws);
    var twice := ApplyWrites(once, ws);
    ApplyWritesShape(results, ws);
    ApplyWritesShape(once, ws);
    forall i: nat, j: nat | i < |twice| && j < |twice[i].founders|
      ensures twice[i].founders[j] == once[i].founders[j]
    {
      ApplyWritesAt(results, ws, i, j);
      ApplyWritesAt(once, ws, i, j);
      LastEditShape(once, results, ws, i, j);
      match LastEdit(results, ws, i, j)
      case None =>
      case Some(e) =>
        LastEditFrom(results, ws, i, j);
        var k :| 0 <= k < |ws| && ws[k].edit == e && Targets(results, ws[k], i, j);
        EditAbsorbs(results[i].founders[j], e, e);
    }
    ResultsExt(twice, once);
  }

  lemma {:induction false} LastEditShape(a: seq<CompanyResult>, b: seq<CompanyResult>, ws: seq<Write>, i: nat, j: nat)
    requires SameShape(a, b)
    ensures LastEdit(a, ws, i, j) == LastEdit(b, ws, i, j)
  {
    if ws != [] {
      HitsShape(a, b, ws[|ws| - 1]);
      LastEditShape(a, b, ws[..|ws| - 1], i, j);
    }
  }

  /**
   * The loop shared by every write-back: walk the results, stop at the first
   * one carrying the company index, and edit the founder there when the
   * position is in range. `hit` says whether a founder was edited.
   */
  method UpdateFounder(results: seq<CompanyResult>, w: Write) returns (updated: seq<CompanyResult>, hit: bool)
    ensures updated == ApplyWrite(results, w)
    ensures hit == Hits(results, w)
  {
    updated, hit := results, false;
    var k := 0;
    while k < |results|
      invariant 0 <= k <= |results|
      invariant forall m :: 0 <= m < k ==> results[m].companyIndex != w.companyIndex
    {
      if results[k].companyIndex == w.companyIndex {
        var fs := results[k].founders;
        if w.founderIndex < |fs| {
          updated := results[k := results[k].(founders := fs[w.founderIndex := Edited(fs[w.founderIndex], w.edit)])];
          hit := true;
        }
        assert FirstWithIndex(results, w.companyIndex) == Some(k);
        return;
      }
      k := k + 1;
    }
  }
}
