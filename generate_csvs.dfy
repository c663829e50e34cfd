/**
 * The CSV exports built from the founder-search checkpoint and the input
 * companies CSV: a map from company index to founders, one row per founder
 * (or one empty-founder row per company without founders), one aggregated
 * row per company, and the Austin-only views of both.
 *
 * Row `k` of the companies CSV has pandas index `k`, which is the key looked
 * up in the map. A written CSV file is a `Table`: its header and its rows.
 */
module GenerateCsvs {
  import opened Wrappers
  import opened Text
  import opened Seqs
  import opened Founders

  /** A row of the per-founder export: the company's own columns, then the six founder columns. */
  datatype ExpandedRow = ExpandedRow(
    company: CompanyRow,
    firstName: string,
    lastName: string,
    fullName: string,
    linkedinUrl: string,
    location: string,
    isAustin: string)

  /** A row of the per-company export. */
  datatype AggregatedRow = AggregatedRow(
    company: CompanyRow,
    totalFounders: nat,
    austinFounders: nat,
    hasAustinFounder: string,
    founderNames: string,
    founderLocations: string,
    founderLinkedinUrls: string)

  /** A CSV file as `csv.DictWriter` writes it: the header, then the rows. */
  datatype Table<R> = Table(fieldnames: seq<string>, rows: seq<R>)

  const ExpandedColumns: seq<string> := [
    "founder_first_name", "founder_last_name", "founder_full_name",
    "founder_linkedin_url", "founder_location", "founder_is_austin"]

  const AggregatedColumns: seq<string> := [
    "total_founders", "austin_founders", "has_austin_founder",
    "founder_names", "founder_locations", "founder_linkedin_urls"]

  /** The spelling of a flag in the exports. */
  function TrueFalse(b: bool): string {
    if b then "TRUE" else "FALSE"
  }

  /** A CSV flag cell that reads `TRUE`. */
  predicate IsTrueText(cell: string) {
    cell == "TRUE"
  }

  // ---------------------------------------------------------------------------
  // The company index → founders map
  // ---------------------------------------------------------------------------

  /** `index_to_founders`: each result, in checkpoint order, overwrites the entry for its company index. */
  function IndexMap(results: seq<CompanyResult>): map<nat, seq<Founder>> {
    if results == [] then map[]
    else
      var last := results[|results| - 1];
      IndexMap(results[..|results| - 1])[last.companyIndex := last.founders]
  }

  /** Position of the last result carrying `k`, the reference for `IndexMap`. */
  function LastWithIndex(results: seq<CompanyResult>, k: nat): (r: Option<nat>)
    ensures r.Some? ==> r.value < |results| && results[r.value].companyIndex == k
    ensures r.Some? ==> forall i :: r.value < i < |results| ==> results[i].companyIndex != k
    ensures r.None? ==> forall i :: 0 <= i < |results| ==> results[i].companyIndex != k
  {
    if results == [] then None
    else if results[|results| - 1].companyIndex == k then Some(|results| - 1)
    else LastWithIndex(results[..|results| - 1], k)
  }

  /** The map holds exactly the company indices the results carry, each
      with the founders of the LAST result carrying it. */
  lemma {:induction false} IndexMapLastWins(results: seq<CompanyResult>, k: nat)
    ensures k in IndexMap(results) <==> LastWithIndex(results, k).Some?
    ensures k in IndexMap(results) ==> IndexMap(results)[k] == results[LastWithIndex(results, k).value].founders
  {
    if results != [] {
      IndexMapLastWins(results[..|results| - 1], k);
    }
  }

  /** The loop building `index_to_founders`. */
  method BuildIndex(results: seq<CompanyResult>) returns (index: map<nat, seq<Founder>>)
    ensures index == IndexMap(results)
  {
    index := map[];
    var i := 0;
    while i < |results|
      invariant 0 <= i <= |results|
      invariant index == IndexMap(results[..i])
    {
      assert results[..i + 1][..i] == results[..i];
      index := index[results[i].companyIndex := results[i].founders];
      i := i + 1;
    }
    assert results[..i] == results;
  }

  /** `index_to_founders.get(idx, [])`. */
  function FoundersOf(index: map<nat, seq<Founder>>, idx: nat): seq<Founder> {
    if idx in index then index[idx] else []
  }

  // ---------------------------------------------------------------------------
  // Expanded rows: one per founder, or one empty-founder row
  // ---------------------------------------------------------------------------

  function EmptyFounderRow(c: CompanyRow): ExpandedRow {
    ExpandedRow(c, "", "", "", "", "", "FALSE")
  }

  function FounderRowOf(c: CompanyRow, f: Founder): ExpandedRow {
    ExpandedRow(c, f.firstName, f.lastName, FullName(f), f.linkedinUrl, f.location, TrueFalse(f.isAustin))
  }

  /** The rows of founders `fs`, in order. */
  function FounderRowsOf(c: CompanyRow, fs: seq<Founder>): (r: seq<ExpandedRow>)
    ensures |r| == |fs|
  {
    if fs == [] then [] else FounderRowsOf(c, fs[..|fs| - 1]) + [FounderRowOf(c, fs[|fs| - 1])]
  }

  lemma {:induction false} FounderRowsAt(c: CompanyRow, fs: seq<Founder>)
    ensures forall k :: 0 <= k < |fs| ==> FounderRowsOf(c, fs)[k] == FounderRowOf(c, fs[k])
  {
    if fs != [] {
      FounderRowsAt(c, fs[..|fs| - 1]);
    }
  }

  /** The rows one company contributes. */
  function CompanyExpanded(c: CompanyRow, fs: seq<Founder>): seq<ExpandedRow> {
    if fs == [] then [EmptyFounderRow(c)] else FounderRowsOf(c, fs)
  }

  /** The expanded export of the companies, in CSV order. */
  function Expanded(companies: seq<CompanyRow>, index: map<nat, seq<Founder>>): seq<ExpandedRow> {
    if companies == [] then []
    else
      var k := |companies| - 1;
      Expanded(companies[..k], index) + CompanyExpanded(companies[k], FoundersOf(index, k))
  }

  /** `[row for row in rows if row['founder_is_austin'] == 'TRUE']`. */
  function AustinRows(rows: seq<ExpandedRow>): seq<ExpandedRow> {
    if rows == [] then []
    else
      var last := rows[|rows| - 1];
      AustinRows(rows[..|rows| - 1]) + (if IsTrueText(last.isAustin) then [last] else [])
  }

  /** How many of the founders are flagged Austin. */
  function AustinFounders(fs: seq<Founder>): nat {
    if fs == [] then 0
    else AustinFounders(fs[..|fs| - 1]) + (if fs[|fs| - 1].isAustin then 1 else 0)
  }

  /** The expected size of the expanded export: Σ max(1, |founders|). */
  function ExpandedSize(companies: seq<CompanyRow>, index: map<nat, seq<Founder>>): nat {
    if companies == [] then 0
    else
      var k := |companies| - 1;
      var n := |FoundersOf(index, k)|;
      ExpandedSize(companies[..k], index) + (if n == 0 then 1 else n)
  }

  /** Austin founders over all companies of the export. */
  function AustinTotal(companies: seq<CompanyRow>, index: map<nat, seq<Founder>>): nat {
    if companies == [] then 0
    else
      var k := |companies| - 1;
      AustinTotal(companies[..k], index) + AustinFounders(FoundersOf(index, k))
  }

  /**
   * The loop writing the expanded rows: for each company, the empty-founder
   * row or one row per founder, counting the Austin founders on the way.
   */
  method ExpandRows(companies: seq<CompanyRow>, index: map<nat, seq<Founder>>)
    returns (rows: seq<ExpandedRow>, austinCount: nat)
    ensures rows == Expanded(companies, index)
    ensures austinCount == |AustinRows(rows)|
  {
    rows, austinCount := [], 0;
    var idx := 0;
    while idx < |companies|
      invariant 0 <= idx <= |companies|
      invariant rows == Expanded(companies[..idx], index)
      invariant austinCount == |AustinRows(rows)|
    {
      var more, austin := ExpandCompany(companies[idx], FoundersOf(index, idx));
      ExpandedStep(companies, index, idx);
      AustinRowsAppend(rows, more);
      rows := rows + more;
      austinCount := austinCount + austin;
      idx := idx + 1;
    }
    assert companies[..idx] == companies;
  }

  /** One more company appends its own rows. */
  lemma ExpandedStep(companies: seq<CompanyRow>, index: map<nat, seq<Founder>>, idx: nat)
    requires idx < |companies|
    ensures Expanded(companies[..idx + 1], index) ==
      Expanded(companies[..idx], index) + CompanyExpanded(companies[idx], FoundersOf(index, idx))
  {
    assert companies[..idx + 1][..idx] == companies[..idx];
  }

  /** The body of the loop for one company. */
  method ExpandCompany(companyRow: CompanyRow, founders: seq<Founder>) returns (rows: seq<ExpandedRow>, austinCount: nat)
    ensures rows == CompanyExpanded(companyRow, founders)
    ensures austinCount == |AustinRows(rows)|
  {
    if founders == [] {
      rows := [EmptyFounderRow(companyRow)];
      assert AustinRows(rows) == AustinRows([]) + [];
      return rows, 0;
    }
    rows, austinCount := [], 0;
    var j := 0;
    while j < |founders|
      invariant 0 <= j <= |founders|
      invariant rows == FounderRowsOf(companyRow, founders[..j])
      invariant austinCount == |AustinRows(rows)|
    {
      var founder := founders[j];
      assert founders[..j + 1][..j] == founders[..j];
      var row := FounderRowOf(companyRow, founder);
      assert (rows + [row])[..|rows|] == rows;
      rows := rows + [row];
      if founder.isAustin {
        austinCount := austinCount + 1;
      }
      j := j + 1;
    }
    assert founders[..j] == founders;
  }

  lemma {:induction false} AustinRowsAppend(a: seq<ExpandedRow>, b: seq<ExpandedRow>)
    ensures AustinRows(a + b) == AustinRows(a) + AustinRows(b)
    decreases |b|
  {
    if b == [] {
      assert a + b == a;
    } else {
      var init := b[..|b| - 1];
      assert (a + b)[..|a + b| - 1] == a + init;
      AustinRowsAppend(a, init);
    }
  }

  lemma {:induction false} AustinRowsOfFounders(c: CompanyRow, fs: seq<Founder>)
    ensures |AustinRows(FounderRowsOf(c, fs))| == AustinFounders(fs)
  {
    if fs != [] {
      var init := fs[..|fs| - 1];
      AustinRowsOfFounders(c, init);
      assert FounderRowsOf(c, fs)[..|fs| - 1] == FounderRowsOf(c, init);
    }
  }

  /** The export has Σ max(1, |founders|) rows, and its Austin-only view
      has one row per Austin founder of the listed companies. */
  lemma {:induction false} ExpandedCounts(companies: seq<CompanyRow>, index: map<nat, seq<Founder>>)
    ensures |Expanded(companies, index)| == ExpandedSize(companies, index)
    ensures |AustinRows(Expanded(companies, index))| == AustinTotal(companies, index)
  {
    if companies != [] {
      var k := |companies| - 1;
      ExpandedCounts(companies[..k], index);
      var fs := FoundersOf(index, k);
      AustinRowsAppend(Expanded(companies[..k], index), CompanyExpanded(companies[k], fs));
      if fs == [] {
        assert AustinRows([EmptyFounderRow(companies[k])]) == [];
      } else {
        AustinRowsOfFounders(companies[k], fs);
      }
    }
  }

  /** Every input company appears in the export at least once. */
  lemma {:induction false} ExpandedHasCompany(companies: seq<CompanyRow>, index: map<nat, seq<Founder>>, k: nat)
    requires k < |companies|
    ensures exists r :: r in Expanded(companies, index) && r.company == companies[k]
  {
    var n := |companies| - 1;
    var mine := CompanyExpanded(companies[n], FoundersOf(index, n));
    if FoundersOf(index, n) != [] {
      FounderRowsAt(companies[n], FoundersOf(index, n));
    }
    if k == n {
      assert mine[0] in Expanded(companies, index);
    } else {
      ExpandedHasCompany(companies[..n], index, k);
      var r :| r in Expanded(companies[..n], index) && r.company == companies[..n][k];
      assert r in Expanded(companies, index);
    }
  }

  /** Only input companies appear in the export. */
  lemma {:induction false} ExpandedOnlyCompanies(companies: seq<CompanyRow>, index: map<nat, seq<Founder>>)
    ensures forall r :: r in Expanded(companies, index) ==> r.company in companies
  {
    if companies != [] {
      var n := |companies| - 1;
      var init := companies[..n];
      ExpandedOnlyCompanies(init, index);
      var fs := FoundersOf(index, n);
      if fs != [] {
        FounderRowsAt(companies[n], fs);
      }
      forall r | r in Expanded(companies, index) ensures r.company in companies {
        if r in Expanded(init, index) {
          assert r.company in init;
        } else {
          assert r in CompanyExpanded(companies[n], fs);
        }
      }
    }
  }

  /** A company without founders gives exactly one row, with empty founder
      fields and `founder_is_austin` FALSE; otherwise its rows are its
      founders in order, with the stripped full name and the flag spelled out. */
  lemma CompanyRowsShape(c: CompanyRow, fs: seq<Founder>)
    ensures fs == [] ==> CompanyExpanded(c, fs) == [ExpandedRow(c, "", "", "", "", "", "FALSE")]
    ensures fs != [] ==> |CompanyExpanded(c, fs)| == |fs|
    ensures fs != [] ==> forall k :: 0 <= k < |fs| ==>
      && CompanyExpanded(c, fs)[k].company == c
      && CompanyExpanded(c, fs)[k].fullName == Strip(fs[k].firstName + " " + fs[k].lastName)
      && (IsTrueText(CompanyExpanded(c, fs)[k].isAustin) <==> fs[k].isAustin)
  {
    FounderRowsAt(c, fs);
  }

  /** The Austin-only view keeps the rows flagged TRUE, all of them, in order. */
  lemma {:induction false} AustinRowsIsSubset(rows: seq<ExpandedRow>)
    ensures IsSubsequence(AustinRows(rows), rows)
    ensures forall r :: r in AustinRows(rows) <==> r in rows && IsTrueText(r.isAustin)
  {
    if rows != [] {
      var init := rows[..|rows| - 1];
      var last := rows[|rows| - 1];
      AustinRowsIsSubset(init);
      assert rows == init + [last];
      if IsTrueText(last.isAustin) {
        SubsequenceAppendBoth(AustinRows(init), init, last);
      } else {
        assert AustinRows(rows) == AustinRows(init) + [];
        assert AustinRows(init) + [] == AustinRows(init);
        SubsequenceExtend(AustinRows(init), init, last);
      }
    }
  }

  // ---------------------------------------------------------------------------
  // Aggregated rows: one per company
  // ---------------------------------------------------------------------------

  function NamesOf(fs: seq<Founder>): (r: seq<string>)
    ensures |r| == |fs|
  {
    if fs == [] then [] else NamesOf(fs[..|fs| - 1]) + [FullName(fs[|fs| - 1])]
  }

  function LocationsOf(fs: seq<Founder>): (r: seq<string>)
    ensures |r| == |fs|
  {
    if fs == [] then [] else LocationsOf(fs[..|fs| - 1]) + [fs[|fs| - 1].location]
  }

  function UrlsOf(fs: seq<Founder>): (r: seq<string>)
    ensures |r| == |fs|
  {
    if fs == [] then [] else UrlsOf(fs[..|fs| - 1]) + [fs[|fs| - 1].linkedinUrl]
  }

  const Bar: string := " | "

  function AggregateRowOf(c: CompanyRow, fs: seq<Founder>): AggregatedRow {
    var austin := AustinFounders(fs);
    AggregatedRow(c, |fs|, austin, TrueFalse(austin > 0),
      Join(NamesOf(fs), Bar), Join(LocationsOf(fs), Bar), Join(UrlsOf(fs), Bar))
  }

  /** The aggregated export of the companies, in CSV order. */
  function Aggregated(companies: seq<CompanyRow>, index: map<nat, seq<Founder>>): seq<AggregatedRow> {
    if companies == [] then []
    else
      var k := |companies| - 1;
      Aggregated(companies[..k], index) + [AggregateRowOf(companies[k], FoundersOf(index, k))]
  }

  /** The loop writing the aggregated rows. */
  method AggregateRows(companies: seq<CompanyRow>, index: map<nat, seq<Founder>>) returns (rows: seq<AggregatedRow>)
    ensures rows == Aggregated(companies, index)
  {
    rows := [];
    var idx := 0;
    while idx < |companies|
      invariant 0 <= idx <= |companies|
      invariant rows == Aggregated(companies[..idx], index)
    {
      assert companies[..idx + 1][..idx] == companies[..idx];
      var founders := FoundersOf(index, idx);
      rows := rows + [AggregateRowOf(companies[idx], founders)];
      idx := idx + 1;
    }
    assert companies[..idx] == companies;
  }

  lemma {:induction false} AustinFoundersPositive(fs: seq<Founder>)
    ensures AustinFounders(fs) <= |fs|
    ensures AustinFounders(fs) > 0 <==> exists f :: f in fs && f.isAustin
  {
    if fs != [] {
      var init := fs[..|fs| - 1];
      AustinFoundersPositive(init);
      assert fs == init + [fs[|fs| - 1]];
    }
  }

  /** One aggregated row per input company, in order: `total_founders` is
      the founder count, `austin_founders` at most that, and
      `has_austin_founder` is TRUE exactly when some founder is Austin. */
  lemma {:induction false} AggregatedShape(companies: seq<CompanyRow>, index: map<nat, seq<Founder>>)
    ensures |Aggregated(companies, index)| == |companies|
    ensures forall k :: 0 <= k < |companies| ==>
      var r := Aggregated(companies, index)[k];
      && r.company == companies[k]
      && r.totalFounders == |FoundersOf(index, k)|
      && r.austinFounders <= r.totalFounders
      && (IsTrueText(r.hasAustinFounder) <==> exists f :: f in FoundersOf(index, k) && f.isAustin)
  {
    AggregatedLength(companies, index);
    forall k | 0 <= k < |companies|
      ensures var r := Aggregated(companies, index)[k];
        && r.company == companies[k]
        && r.totalFounders == |FoundersOf(index, k)|
        && r.austinFounders <= r.totalFounders
        && (IsTrueText(r.hasAustinFounder) <==> exists f :: f in FoundersOf(index, k) && f.isAustin)
    {
      AggregatedAt(companies, index, k);
      AustinFoundersPositive(FoundersOf(index, k));
    }
  }

  lemma {:induction false} AggregatedLength(companies: seq<CompanyRow>, index: map<nat, seq<Founder>>)
    ensures |Aggregated(companies, index)| == |companies|
  {
    if companies != [] {
      AggregatedLength(companies[..|companies| - 1], index);
    }
  }

  /** Row `k` is built from company `k` and the founders indexed under `k`. */
  lemma {:induction false} AggregatedAt(companies: seq<CompanyRow>, index: map<nat, seq<Founder>>, k: nat)
    requires k < |companies|
    ensures |Aggregated(companies, index)| == |companies|
    ensures Aggregated(companies, index)[k] == AggregateRowOf(companies[k], FoundersOf(index, k))
  {
    var n := |companies| - 1;
    var init := companies[..n];
    AggregatedLength(companies, index);
    AggregatedLength(init, index);
    if k < n {
      assert Aggregated(companies, index)[k] == Aggregated(init, index)[k] by {
        assert Aggregated(companies, index) == Aggregated(init, index) + [AggregateRowOf(companies[n], FoundersOf(index, n))];
      }
      AggregatedAt(init, index, k);
      assert init[k] == companies[k];
    }
  }

  /** `[row for row in agg_rows if row['has_austin_founder'] == 'TRUE']`. */
  function AustinCompanies(rows: seq<AggregatedRow>): seq<AggregatedRow> {
    if rows == [] then []
    else
      var last := rows[|rows| - 1];
      AustinCompanies(rows[..|rows| - 1]) + (if IsTrueText(last.hasAustinFounder) then [last] else [])
  }

  /** The Austin-company view keeps the rows flagged TRUE, all of them, in order. */
  lemma {:induction false} AustinCompaniesIsSubset(rows: seq<AggregatedRow>)
    ensures IsSubsequence(AustinCompanies(rows), rows)
    ensures forall r :: r in AustinCompanies(rows) <==> r in rows && IsTrueText(r.hasAustinFounder)
  {
    if rows != [] {
      var init := rows[..|rows| - 1];
      var last := rows[|rows| - 1];
      AustinCompaniesIsSubset(init);
      assert rows == init + [last];
      if IsTrueText(last.hasAustinFounder) {
        SubsequenceAppendBoth(AustinCompanies(init), init, last);
      } else {
        assert AustinCompanies(rows) == AustinCompanies(init) + [];
        assert AustinCompanies(init) + [] == AustinCompanies(init);
        SubsequenceExtend(AustinCompanies(init), init, last);
      }
    }
  }

  // ---------------------------------------------------------------------------
  // The script
  // ---------------------------------------------------------------------------

  /** The four files the exporters write, and the two totals they report. */
  datatype Exports = Exports(
    expanded: Table<ExpandedRow>,
    austinExpanded: Table<ExpandedRow>,
    aggregated: Table<AggregatedRow>,
    austinCompanies: Table<AggregatedRow>,
    austinCount: nat,
    austinCompanyCount: nat)

  /** What the exporters write for these results and companies. */
  function ExportsOf(results: seq<CompanyResult>, columns: seq<string>, companies: seq<CompanyRow>): Exports {
    var index := IndexMap(results);
    var rows := Expanded(companies, index);
    var agg := Aggregated(companies, index);
    Exports(
      Table(columns + ExpandedColumns, rows),
      Table(columns + ExpandedColumns, AustinRows(rows)),
      Table(columns + AggregatedColumns, agg),
      Table(columns + AggregatedColumns, AustinCompanies(agg)),
      |AustinRows(rows)|,
      |AustinCompanies(agg)|)
  }

  /**
   * The script body: the map, the expanded rows with `austin_count`, the
   * Austin-only view, the aggregated rows, the Austin-company count and
   * view. `columns` is the companies CSV header. An empty checkpoint stops
   * the script before any file is written: reporting the index range takes
   * `min` of the map's keys, which raises on an empty map (None here).
   */
  method GenerateCsvs(results: seq<CompanyResult>, columns: seq<string>, companies: seq<CompanyRow>)
    returns (out: Option<Exports>)
    ensures out.None? <==> results == []
    ensures out.Some? ==> out.value == ExportsOf(results, columns, companies)
  {
    var index := BuildIndex(results);
    if |index| == 0 {
      return None;
    }
    var rows, austinCount := ExpandRows(companies, index);
    var fieldnames := columns + ExpandedColumns;
    var austinRows := AustinRows(rows);
    var aggRows := AggregateRows(companies, index);
    var aggFieldnames := columns + AggregatedColumns;
    var austinCompanyRows := AustinCompanies(aggRows);
    out := Some(Exports(
      Table(fieldnames, rows), Table(fieldnames, austinRows),
      Table(aggFieldnames, aggRows), Table(aggFieldnames, austinCompanyRows),
      austinCount, |austinCompanyRows|));
  }

  /** The exports' guarantees together: row counts, one aggregated row per
      company, `austin_count` counting the Austin-only rows, and every
      Austin-only view an order-preserving part of its full view under the
      same header. */
  lemma ExportsFacts(results: seq<CompanyResult>, columns: seq<string>, companies: seq<CompanyRow>)
    ensures var out := ExportsOf(results, columns, companies);
      && |out.expanded.rows| == ExpandedSize(companies, IndexMap(results))
      && out.austinCount == |out.austinExpanded.rows| == AustinTotal(companies, IndexMap(results))
      && |out.aggregated.rows| == |companies|
      && out.austinExpanded.fieldnames == out.expanded.fieldnames == columns + ExpandedColumns
      && out.austinCompanies.fieldnames == out.aggregated.fieldnames == columns + AggregatedColumns
      && IsSubsequence(out.austinExpanded.rows, out.expanded.rows)
      && IsSubsequence(out.austinCompanies.rows, out.aggregated.rows)
      && out.austinCompanyCount == |out.austinCompanies.rows|
  {
    var index := IndexMap(results);
    ExpandedCounts(companies, index);
    AggregatedShape(companies, index);
    AustinRowsIsSubset(Expanded(companies, index));
    AustinCompaniesIsSubset(Aggregated(companies, index));
  }
}
