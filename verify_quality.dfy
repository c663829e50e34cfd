/**
 * The LinkedIn URL quality report: each founder that has a URL gets the
 * name-to-profile-id similarity of its name, and the report counts the four
 * grades and lists the URLs that match nothing.
 *
 * The id is read from the URL by the same extraction the search uses
 * (`Pipeline.ExtractLinkedinName`). The grading here is a different, graded
 * classifier: it tries the exact forms first, then shared tokens, and only
 * then a few abbreviations, which it accepts only when the name's letters
 * are no longer than the id's.
 */
module VerifyQuality {
  import opened Wrappers
  import opened Text
  import opened Founders
  import Pipeline

  /** The grades `'perfect'`, `'good'`, `'partial'` and the `False` of no match. */
  datatype Similarity = Perfect | Good | Partial | NoMatch

  /** `''.join(s.split())`: the name's tokens run together. */
  function NameLetters(s: string): string {
    Join(SplitWs(s), "")
  }

  /** The name and the dash-split id share at least one distinct token. */
  predicate SharesToken(name: string, id: string) {
    Pipeline.SharedCount(SplitWs(name), SplitWs(ReplaceChar(id, '-', ' '))) >= 1
  }

  /** One of the abbreviations first+last, initial+last or first+last-initial
      occurs in the dashless id. */
  predicate Abbreviated(name: string, id: string) {
    var first := Pipeline.FirstToken(name);
    var last := Pipeline.LastToken(name);
    var letters := RemoveChar(id, '-');
    (first + last != "" && Contains(letters, first + last)) ||
    (first != "" && last != "" && (Contains(letters, [first[0]] + last) || Contains(letters, first + [last[0]])))
  }

  /** The abbreviation test runs only when the name's letters fit in the dashless id. */
  predicate LettersFit(name: string, id: string) {
    |NameLetters(name)| <= |RemoveChar(id, '-')|
  }

  /** `name_similarity`: the grade of a founder name against a profile id. */
  function NameSimilarity(founderName: string, linkedinId: Option<string>): (r: Similarity)
    ensures founderName == "" || linkedinId.None? || linkedinId == Some("") ==> r == NoMatch
  {
    if linkedinId.None? || linkedinId.value == "" || founderName == "" then NoMatch
    else
      var name := Lower(founderName);
      var id := Lower(linkedinId.value);
      if Pipeline.ExactForm(name, id) then Perfect
      else if Pipeline.SharedTokens(name, id) then Good
      else if SharesToken(name, id) then Partial
      else if LettersFit(name, id) && Abbreviated(name, id) then Good
      else NoMatch
  }

  /** The exact forms are tried first: on a non-empty name and id the grade is
      perfect exactly when the dashed or spaceless name occurs in the id. */
  lemma PerfectFirst(founderName: string, linkedinId: string)
    requires founderName != "" && linkedinId != ""
    ensures NameSimilarity(founderName, Some(linkedinId)) == Perfect <==>
      Pipeline.ExactForm(Lower(founderName), Lower(linkedinId))
  {
  }

  /** Two shared tokens of a name with two distinct tokens give at least `'good'`,
      whatever the abbreviation test would say. */
  lemma SharedTokensAreGood(founderName: string, linkedinId: string)
    requires founderName != "" && linkedinId != ""
    requires Pipeline.SharedTokens(Lower(founderName), Lower(linkedinId))
    ensures NameSimilarity(founderName, Some(linkedinId)) in {Perfect, Good}
    ensures !Pipeline.ExactForm(Lower(founderName), Lower(linkedinId)) ==>
      NameSimilarity(founderName, Some(linkedinId)) == Good
  {
  }

  /** `'partial'` is exactly: no exact form, not the two-token rule, and one shared token. */
  lemma PartialExactly(founderName: string, linkedinId: string)
    requires founderName != "" && linkedinId != ""
    ensures NameSimilarity(founderName, Some(linkedinId)) == Partial <==>
      var name := Lower(founderName);
      var id := Lower(linkedinId);
      !Pipeline.ExactForm(name, id) && !Pipeline.SharedTokens(name, id) && SharesToken(name, id)
  {
  }

  /** A grade reached through the abbreviations needs the letters to fit: when
      no token is shared, `'good'` implies that the abbreviation test ran and
      passed. */
  lemma AbbreviationNeedsFit(founderName: string, linkedinId: string)
    requires founderName != "" && linkedinId != ""
    requires !SharesToken(Lower(founderName), Lower(linkedinId))
    ensures NameSimilarity(founderName, Some(linkedinId)) == Good ==>
      LettersFit(Lower(founderName), Lower(linkedinId)) && Abbreviated(Lower(founderName), Lower(linkedinId))
  {
  }

  /** A name made only of spaces has an empty spaceless form, which occurs in
      every id: such a name grades `'perfect'` against any non-empty id. */
  lemma SpacesOnlyNameIsPerfect(founderName: string, linkedinId: string)
    requires founderName != "" && linkedinId != ""
    requires forall k :: 0 <= k < |founderName| ==> founderName[k] == ' '
    ensures NameSimilarity(founderName, Some(linkedinId)) == Perfect
  {
    var name := Lower(founderName);
    LowerAt(founderName);
    SpacesRemoved(name);
    assert "" <= Lower(linkedinId);
  }

  lemma {:induction false} SpacesRemoved(s: string)
    requires forall k :: 0 <= k < |s| ==> s[k] == ' '
    ensures RemoveChar(s, ' ') == ""
  {
    if s != [] {
      SpacesRemoved(s[1..]);
    }
  }

  /** The grade of a search hit agrees with the search's own check where the
      two classifiers share a rule: a perfect grade passes the search's
      check, and a hit the search accepts by an exact form or by two shared
      tokens grades perfect or good. */
  lemma AgreesWithSearch(founderName: string, linkedinUrl: string)
    ensures NameSimilarity(founderName, Pipeline.ExtractLinkedinName(linkedinUrl)) == Perfect ==>
      Pipeline.VerifyNameMatch(founderName, linkedinUrl)
    ensures
      (founderName != "" && Pipeline.VerifyNameMatch(founderName, linkedinUrl) &&
       (Pipeline.ExactForm(Lower(founderName), Lower(Pipeline.ExtractLinkedinName(linkedinUrl).value)) ||
        Pipeline.SharedTokens(Lower(founderName), Lower(Pipeline.ExtractLinkedinName(linkedinUrl).value)))) ==>
      NameSimilarity(founderName, Pipeline.ExtractLinkedinName(linkedinUrl)) in {Perfect, Good}
  {
  }

  /** A founder whose URL matched nothing, as the report lists it. */
  datatype SuspiciousUrl = SuspiciousUrl(
    company: string,
    founderName: string,
    linkedinUrl: string,
    linkedinId: Option<string>)

  /** The counters and the suspicious list of `analyze_linkedin_urls`. */
  datatype QualityReport = QualityReport(
    total: nat,
    perfect: nat,
    good: nat,
    partial: nat,
    noMatch: nat,
    suspicious: seq<SuspiciousUrl>)

  const EmptyReport := QualityReport(0, 0, 0, 0, 0, [])

  /** The grade the report gives a founder. */
  function Quality(f: Founder): Similarity {
    NameSimilarity(FullName(f), Pipeline.ExtractLinkedinName(f.linkedinUrl))
  }

  /** The report entry of a founder of `company`. */
  function Flagged(company: string, f: Founder): SuspiciousUrl {
    SuspiciousUrl(company, FullName(f), f.linkedinUrl, Pipeline.ExtractLinkedinName(f.linkedinUrl))
  }

  /** A founder with a URL and the grade `q` counted in: one more URL and one
      more of its grade, and a no-match is listed as `entry`. */
  function Counted(rep: QualityReport, entry: SuspiciousUrl, q: Similarity): QualityReport {
    var counted := rep.(total := rep.total + 1);
    match q
    case Perfect => counted.(perfect := rep.perfect + 1)
    case Good => counted.(good := rep.good + 1)
    case Partial => counted.(partial := rep.partial + 1)
    case NoMatch => counted.(noMatch := rep.noMatch + 1, suspicious := rep.suspicious + [entry])
  }

  /** One founder's effect on the report: none without a URL. */
  function Tallied(rep: QualityReport, company: string, f: Founder): QualityReport {
    if f.linkedinUrl == "" then rep else Counted(rep, Flagged(company, f), Quality(f))
  }

  /** The report after a company's founders, in order. */
  function TallyFounders(rep: QualityReport, company: string, fs: seq<Founder>): QualityReport {
    if fs == [] then rep
    else Tallied(TallyFounders(rep, company, fs[..|fs| - 1]), company, fs[|fs| - 1])
  }

  /** The report after every result of the checkpoint, in order. */
  function TallyResults(results: seq<CompanyResult>): QualityReport {
    if results == [] then EmptyReport
    else
      var last := results[|results| - 1];
      TallyFounders(TallyResults(results[..|results| - 1]), last.companyName, last.founders)
  }

  /** Founders of `fs` that have a URL and the grade `q`. */
  function GradedAmong(fs: seq<Founder>, q: Similarity): nat {
    if fs == [] then 0
    else GradedAmong(fs[..|fs| - 1], q) + (if fs[|fs| - 1].linkedinUrl != "" && Quality(fs[|fs| - 1]) == q then 1 else 0)
  }

  /** Founders of `fs` that have a URL. */
  function WithUrlAmong(fs: seq<Founder>): nat {
    if fs == [] then 0 else WithUrlAmong(fs[..|fs| - 1]) + (if fs[|fs| - 1].linkedinUrl != "" then 1 else 0)
  }

  /** Founders of all results that have a URL and the grade `q`. */
  function Graded(results: seq<CompanyResult>, q: Similarity): nat {
    if results == [] then 0 else Graded(results[..|results| - 1], q) + GradedAmong(results[|results| - 1].founders, q)
  }

  /** Founders of all results that have a URL. */
  function WithUrl(results: seq<CompanyResult>): nat {
    if results == [] then 0 else WithUrl(results[..|results| - 1]) + WithUrlAmong(results[|results| - 1].founders)
  }

  /** Every URL gets exactly one grade: the four graded counts add up to the URLs. */
  lemma {:induction false} GradesPartitionAmong(fs: seq<Founder>)
    ensures GradedAmong(fs, Perfect) + GradedAmong(fs, Good) + GradedAmong(fs, Partial) + GradedAmong(fs, NoMatch) ==
      WithUrlAmong(fs)
  {
    if fs != [] {
      GradesPartitionAmong(fs[..|fs| - 1]);
    }
  }

  lemma {:induction false} GradesPartition(results: seq<CompanyResult>)
    ensures Graded(results, Perfect) + Graded(results, Good) + Graded(results, Partial) + Graded(results, NoMatch) ==
      WithUrl(results)
  {
    if results != [] {
      GradesPartition(results[..|results| - 1]);
      GradesPartitionAmong(results[|results| - 1].founders);
    }
  }

  /** A listed entry: a URL whose extracted id grades as no match against the name. */
  predicate IsNoMatch(s: SuspiciousUrl) {
    s.linkedinUrl != "" && s.linkedinId == Pipeline.ExtractLinkedinName(s.linkedinUrl) &&
    NameSimilarity(s.founderName, s.linkedinId) == NoMatch
  }

  predicate AllNoMatch(ss: seq<SuspiciousUrl>) {
    forall k :: 0 <= k < |ss| ==> IsNoMatch(ss[k])
  }

  /** The counters of `TallyFounders(rep, ..)` grow by the founders' counts, and
      the list only grows by no-match entries. */
  lemma {:induction false} TallyFoundersCounts(rep: QualityReport, company: string, fs: seq<Founder>)
    ensures var out := TallyFounders(rep, company, fs);
      out.total == rep.total + WithUrlAmong(fs) &&
      out.perfect == rep.perfect + GradedAmong(fs, Perfect) &&
      out.good == rep.good + GradedAmong(fs, Good) &&
      out.partial == rep.partial + GradedAmong(fs, Partial) &&
      out.noMatch == rep.noMatch + GradedAmong(fs, NoMatch) &&
      |out.suspicious| == |rep.suspicious| + GradedAmong(fs, NoMatch) &&
      (AllNoMatch(rep.suspicious) ==> AllNoMatch(out.suspicious))
  {
    if fs != [] {
      var init := fs[..|fs| - 1];
      TallyFoundersCounts(rep, company, init);
      var mid := TallyFounders(rep, company, init);
      var f := fs[|fs| - 1];
      if f.linkedinUrl != "" && Quality(f) == NoMatch {
        var out := Tallied(mid, company, f);
        assert out.suspicious == mid.suspicious + [Flagged(company, f)];
        assert IsNoMatch(Flagged(company, f));
      }
    }
  }

  /** What the report holds: each counter is the number of founders with a URL
      of that grade, the grades partition the URLs, exactly the no-matches are
      listed, and each listed entry is a no-match. */
  lemma {:induction false} ReportCounts(results: seq<CompanyResult>)
    ensures var rep := TallyResults(results);
      rep.total == WithUrl(results) &&
      rep.perfect == Graded(results, Perfect) &&
      rep.good == Graded(results, Good) &&
      rep.partial == Graded(results, Partial) &&
      rep.noMatch == Graded(results, NoMatch) &&
      rep.perfect + rep.good + rep.partial + rep.noMatch == rep.total &&
      |rep.suspicious| == rep.noMatch &&
      AllNoMatch(rep.suspicious)
  {
    if results != [] {
      var init := results[..|results| - 1];
      var last := results[|results| - 1];
      ReportCounts(init);
      TallyFoundersCounts(TallyResults(init), last.companyName, last.founders);
    }
    GradesPartition(results);
  }

  /** The counting branch of the loop body: one more URL, one more of grade
      `q`, and a no-match listed as `entry`. */
  method CountGrade(rep: QualityReport, entry: SuspiciousUrl, q: Similarity) returns (out: QualityReport)
    ensures out == Counted(rep, entry, q)
  {
    out := rep.(total := rep.total + 1);
    if q == Perfect {
      out := out.(perfect := out.perfect + 1);
    } else if q == Good {
      out := out.(good := out.good + 1);
    } else if q == Partial {
      out := out.(partial := out.partial + 1);
    } else {
      out := out.(noMatch := out.noMatch + 1);
      out := out.(suspicious := out.suspicious + [entry]);
    }
  }

  /** One founder's step of the loop body: a founder without a URL is skipped;
      otherwise its name and id are graded and counted. */
  method TallyFounder(rep: QualityReport, company: string, founder: Founder) returns (out: QualityReport)
    ensures out == Tallied(rep, company, founder)
  {
    if founder.linkedinUrl == "" {
      return rep;
    }
    out := CountGrade(rep, Flagged(company, founder), Quality(founder));
  }

  /** `analyze_linkedin_urls` without its printing: the report of every result
      in order, which holds the counts `ReportCounts` states. */
  method AnalyzeLinkedinUrls(results: seq<CompanyResult>) returns (report: QualityReport)
    ensures report == TallyResults(results)
    ensures report.total == WithUrl(results)
    ensures report.perfect + report.good + report.partial + report.noMatch == report.total
    ensures |report.suspicious| == report.noMatch && AllNoMatch(report.suspicious)
  {
    report := EmptyReport;
    var i := 0;
    while i < |results|
      invariant 0 <= i <= |results|
      invariant report == TallyResults(results[..i])
    {
      report := TallyCompany(report, results[i]);
      assert results[..i + 1][..i] == results[..i];
      i := i + 1;
    }
    assert results[..i] == results;
    ReportCounts(results);
  }

  /** The inner loop over one company's founders. */
  method TallyCompany(before: QualityReport, result: CompanyResult) returns (report: QualityReport)
    ensures report == TallyFounders(before, result.companyName, result.founders)
  {
    report := before;
    var j := 0;
    while j < |result.founders|
      invariant 0 <= j <= |result.founders|
      invariant report == TallyFounders(before, result.companyName, result.founders[..j])
    {
      report := TallyFounder(report, result.companyName, result.founders[j]);
      assert result.founders[..j + 1][..j] == result.founders[..j];
      j := j + 1;
    }
    assert result.founders[..j] == result.founders;
  }
}
