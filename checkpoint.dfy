/**
 * The resumable founder search's checkpoint (`FounderSearchCheckpoint`): a
 * cursor, a counter and the list of recorded company results, kept in one
 * object and rewritten to its file after every change.
 *
 * The file is modelled by `persisted` (its content, or None while no file
 * exists) and `backups` (the files a reset renamed aside). Timestamps are
 * opaque strings passed in as `now`.
 */
module Checkpoint {
  import opened Wrappers
  import opened Text
  import opened Seqs
  import opened Founders

  /** The persisted state: everything the checkpoint file holds. */
  datatype Snapshot = Snapshot(
    lastProcessedIndex: int,
    totalProcessed: int,
    results: seq<CompanyResult>,
    startedAt: string,
    lastUpdated: string,
    status: string)

  /** A new, empty state with the given status label. */
  function Fresh(now: string, status: string): (s: Snapshot)
    ensures s.lastProcessedIndex == -1 && s.totalProcessed == 0 && s.results == []
    ensures s.startedAt == now && s.lastUpdated == now && s.status == status
  {
    Snapshot(-1, 0, [], now, now, status)
  }

  /** One company of the next batch, as handed to the search. */
  datatype BatchEntry = BatchEntry(
    companyIndex: nat,
    companyName: string,
    companyYear: string,
    companyLocation: string,
    website: string,
    crunchbase: string,
    linkedin: string)

  function EntryOf(index: nat, row: CompanyRow): BatchEntry {
    BatchEntry(index, row.name, row.year, row.location, row.website, row.crunchbase, row.linkedin)
  }

  /** Python's `if max_total:` — a cap given as 0 is no cap. */
  predicate HasCap(maxTotal: Option<int>) {
    maxTotal.Some? && maxTotal.value != 0
  }

  /** The batch is empty because the cap is reached. */
  predicate CapReached(maxTotal: Option<int>, totalProcessed: int) {
    HasCap(maxTotal) && totalProcessed >= maxTotal.value
  }

  /** How many companies the batch may hold before the input runs out. */
  function Budget(batchSize: nat, maxTotal: Option<int>, totalProcessed: int): int {
    if HasCap(maxTotal) then Min(batchSize, maxTotal.value - totalProcessed) else batchSize
  }

  function Min(a: int, b: int): int { if a <= b then a else b }
  function Max(a: int, b: int): int { if a >= b then a else b }

  /** The columns of one exported row: the company part, plus the founder part
      when the company has founders. `fields` stands for the founder's own keys,
      which the row carries apart from `name`. */
  datatype FounderColumns = FounderColumns(
    founderFirstName: string,
    founderLastName: string,
    founderFullName: string,
    fields: Founder)

  datatype FlatRow = FlatRow(
    companyIndex: nat,
    companyName: string,
    companyYear: string,
    companyLocation: string,
    founderCount: nat,
    austinFoundersCount: int,
    founder: Option<FounderColumns>)

  /** `name.split()[0]`, or "" for a name without tokens. */
  function FirstName(name: string): string {
    var parts := SplitWs(name);
    if |parts| > 0 then parts[0] else ""
  }

  /** `' '.join(name.split()[1:])`, or "" for fewer than two tokens. */
  function LastName(name: string): string {
    var parts := SplitWs(name);
    if |parts| > 1 then Join(parts[1..], " ") else ""
  }

  function BaseRow(c: CompanyResult): FlatRow {
    FlatRow(c.companyIndex, c.companyName, c.companyYear, c.companyLocation, |c.founders|, c.austinFoundersCount, None)
  }

  function FounderRow(c: CompanyResult, f: Founder): FlatRow {
    BaseRow(c).(founder := Some(FounderColumns(FirstName(f.name), LastName(f.name), f.name, f)))
  }

  /** One row per founder in `fs`, in order. */
  function FounderRows(c: CompanyResult, fs: seq<Founder>): (r: seq<FlatRow>)
    ensures |r| == |fs|
    ensures forall k :: 0 <= k < |fs| ==> r[k] == FounderRow(c, fs[k])
  {
    if fs == [] then [] else FounderRows(c, fs[..|fs| - 1]) + [FounderRow(c, fs[|fs| - 1])]
  }

  /** The rows of one company: one per founder, or the base row alone. */
  function CompanyRows(c: CompanyResult): seq<FlatRow> {
    if c.founders == [] then [BaseRow(c)] else FounderRows(c, c.founders)
  }

  /** All results flattened, in order. */
  function Flatten(results: seq<CompanyResult>): seq<FlatRow> {
    if results == [] then []
    else Flatten(results[..|results| - 1]) + CompanyRows(results[|results| - 1])
  }

  /** Σ max(1, |founders|) over the results. */
  function ExpectedRows(results: seq<CompanyResult>): nat {
    if results == [] then 0
    else ExpectedRows(results[..|results| - 1]) + Max(1, |results[|results| - 1].founders|)
  }

  predicate IsAustinRow(r: FlatRow) {
    r.founder.Some? && r.founder.value.fields.isAustin
  }

  /** `df[df['is_austin'] == True]`: a company row without founders has no
      `is_austin` value and is never selected. */
  function AustinOnly(rows: seq<FlatRow>): seq<FlatRow> {
    Filter(rows, IsAustinRow)
  }

  /** Σ austin_founders_count over the results. */
  function AustinTally(results: seq<CompanyResult>): int {
    if results == [] then 0
    else AustinTally(results[..|results| - 1]) + results[|results| - 1].austinFoundersCount
  }

  datatype Status = Status(totalProcessed: int, austinFounders: int, canResume: bool)

  class FounderSearchCheckpoint {
    var lastProcessedIndex: int
    var totalProcessed: int
    var results: seq<CompanyResult>
    var startedAt: string
    var lastUpdated: string
    var status: string
    /** The checkpoint file's content; None while there is no file. */
    var persisted: Option<Snapshot>
    /** The files `reset` renamed aside, oldest first. */
    var backups: seq<Snapshot>

    /** `company_index` values are row positions, so the cursor is never below -1. */
    ghost predicate Valid()
      reads this
    {
      lastProcessedIndex >= -1
    }

    /** The counter agrees with the list of results. */
    ghost predicate Counted()
      reads this
    {
      totalProcessed == |results|
    }

    function State(): Snapshot
      reads this
    {
      Snapshot(lastProcessedIndex, totalProcessed, results, startedAt, lastUpdated, status)
    }

    /** `load_checkpoint`: the file's content when the file exists, otherwise a
        fresh state with status "initialized". Nothing is written yet. The
        file is one this program wrote, so its cursor is at least -1. */
    constructor (file: Option<Snapshot>, now: string)
      requires file.Some? ==> file.value.lastProcessedIndex >= -1
      ensures Valid()
      ensures persisted == file && backups == []
      ensures file.Some? ==> State() == file.value
      ensures file.None? ==> State() == Fresh(now, "initialized") && Counted()
    {
      var s := if file.Some? then file.value else Fresh(now, "initialized");
      lastProcessedIndex := s.lastProcessedIndex;
      totalProcessed := s.totalProcessed;
      results := s.results;
      startedAt := s.startedAt;
      lastUpdated := s.lastUpdated;
      status := s.status;
      persisted := file;
      backups := [];
    }

    /** `save_checkpoint`: stamp `last_updated` and rewrite the file with the
        whole state. */
    method Save(now: string)
      modifies this
      ensures State() == old(State()).(lastUpdated := now)
      ensures persisted == Some(State()) && backups == old(backups)
    {
      lastUpdated := now;
      persisted := Some(State());
    }

    /** `add_result`: append the result, count it, move the cursor to its
        index (an assignment: a smaller index moves the cursor back) and save. */
    method AddResult(r: CompanyResult, now: string)
      requires Valid()
      modifies this
      ensures Valid()
      ensures results == old(results) + [r]
      ensures totalProcessed == old(totalProcessed) + 1
      ensures lastProcessedIndex == r.companyIndex
      ensures startedAt == old(startedAt) && status == old(status) && lastUpdated == now
      ensures persisted == Some(State()) && backups == old(backups)
      ensures old(Counted()) ==> Counted()
    {
      results := results + [r];
      totalProcessed := totalProcessed + 1;
      lastProcessedIndex := r.companyIndex;
      Save(now);
    }

    /**
     * `get_next_batch`: the companies at positions `last_processed_index + 1`
     * onwards, at most `batch_size` of them, no more than the cap leaves
     * (`max_total - total_processed`), and none past the end of the input. A
     * reached cap gives the empty batch.
     */
    method GetNextBatch(rows: seq<CompanyRow>, batchSize: nat, maxTotal: Option<int>) returns (batch: seq<BatchEntry>)
      requires Valid()
      ensures CapReached(maxTotal, totalProcessed) ==> batch == []
      ensures !CapReached(maxTotal, totalProcessed) ==>
        |batch| == Max(0, Min(lastProcessedIndex + 1 + Budget(batchSize, maxTotal, totalProcessed), |rows|) - (lastProcessedIndex + 1))
      ensures forall k :: 0 <= k < |batch| ==>
        lastProcessedIndex + 1 + k < |rows| && batch[k] == EntryOf(lastProcessedIndex + 1 + k, rows[lastProcessedIndex + 1 + k])
      ensures forall k :: 0 <= k < |batch| ==> batch[k].companyIndex > lastProcessedIndex
      ensures HasCap(maxTotal) ==> |batch| <= Max(0, maxTotal.value - totalProcessed)
      ensures |batch| <= batchSize
    {
      var start: nat := lastProcessedIndex + 1;
      if CapReached(maxTotal, totalProcessed) {
        return [];
      }
      var size := batchSize as int;
      if HasCap(maxTotal) {
        size := Min(size, maxTotal.value - totalProcessed);
      }
      var end := Min(start + size, |rows|);
      batch := [];
      var idx := start;
      while idx < end
        invariant start <= idx && (idx <= end || idx == start)
        invariant |batch| == idx - start
        invariant forall k :: 0 <= k < |batch| ==> start + k < |rows| && batch[k] == EntryOf(start + k, rows[start + k])
      {
        batch := batch + [EntryOf(idx, rows[idx])];
        idx := idx + 1;
      }
    }

    /** `export_results`: one row per founder of each result, or the company's
        base row when it has none, and the rows whose founder is in Austin.
        The source writes no Austin file when the frame lacks an `is_austin`
        column (no founder carries that key); here that case is the empty
        `austinRows`, so "no file" and "an empty Austin file" are not told apart. */
    method ExportResults() returns (rows: seq<FlatRow>, austinRows: seq<FlatRow>)
      ensures rows == Flatten(results)
      ensures austinRows == AustinOnly(rows)
    {
      rows := [];
      var i := 0;
      while i < |results|
        invariant 0 <= i <= |results|
        invariant rows == Flatten(results[..i])
      {
        var company := results[i];
        ghost var prefix := rows;
        if company.founders != [] {
          var j := 0;
          while j < |company.founders|
            invariant 0 <= j <= |company.founders|
            invariant rows == prefix + FounderRows(company, company.founders[..j])
          {
            rows := rows + [FounderRow(company, company.founders[j])];
            assert company.founders[..j + 1][..j] == company.founders[..j];
            j := j + 1;
          }
          assert company.founders[..j] == company.founders;
        } else {
          rows := rows + [BaseRow(company)];
        }
        assert rows == prefix + CompanyRows(company);
        FlattenSnoc(results, i);
        i := i + 1;
      }
      assert results[..i] == results;
      austinRows := AustinOnly(rows);
    }

    /** `get_status`: the counter, and the sum of the results' Austin counts. */
    method GetStatus() returns (s: Status)
      ensures s.totalProcessed == totalProcessed
      ensures s.austinFounders == AustinTally(results)
      ensures s.canResume
    {
      var austinCount := 0;
      var i := 0;
      while i < |results|
        invariant 0 <= i <= |results|
        invariant austinCount == AustinTally(results[..i])
      {
        austinCount := austinCount + results[i].austinFoundersCount;
        assert results[..i + 1][..i] == results[..i];
        i := i + 1;
      }
      assert results[..i] == results;
      s := Status(totalProcessed, austinCount, true);
    }

    /** `reset`: move the existing file aside as a backup, start over with
        status "reset" and save. */
    method Reset(now: string)
      modifies this
      ensures Valid() && Counted()
      ensures State() == Fresh(now, "reset")
      ensures persisted == Some(State())
      ensures backups == old(backups) + (if old(persisted).Some? then [old(persisted).value] else [])
    {
      if persisted.Some? {
        backups := backups + [persisted.value];
        persisted := None;
      }
      var s := Fresh(now, "reset");
      lastProcessedIndex := s.lastProcessedIndex;
      totalProcessed := s.totalProcessed;
      results := s.results;
      startedAt := s.startedAt;
      lastUpdated := s.lastUpdated;
      status := s.status;
      Save(now);
    }
  }

  lemma FlattenSnoc(results: seq<CompanyResult>, i: nat)
    requires i < |results|
    ensures Flatten(results[..i + 1]) == Flatten(results[..i]) + CompanyRows(results[i])
  {
    assert results[..i + 1][..i] == results[..i];
  }

  /** The export has Σ max(1, |founders|) rows: every result appears at least once. */
  lemma {:induction false} FlattenRowCount(results: seq<CompanyResult>)
    ensures |Flatten(results)| == ExpectedRows(results)
    ensures |Flatten(results)| >= |results|
  {
    if results != [] {
      FlattenRowCount(results[..|results| - 1]);
    }
  }

  /** Every exported row belongs to a recorded result, and carries its founder count. */
  lemma {:induction false} FlattenRowsFromResults(results: seq<CompanyResult>)
    ensures forall r :: r in Flatten(results) ==>
      exists c :: c in results && r.companyIndex == c.companyIndex && r.founderCount == |c.founders|
  {
    if results != [] {
      var init := results[..|results| - 1];
      var last := results[|results| - 1];
      FlattenRowsFromResults(init);
      forall r | r in Flatten(results)
        ensures exists c :: c in results && r.companyIndex == c.companyIndex && r.founderCount == |c.founders|
      {
        if r in Flatten(init) {
          var c :| c in init && r.companyIndex == c.companyIndex && r.founderCount == |c.founders|;
          assert c in results;
        } else {
          assert r in CompanyRows(last);
        }
      }
    }
  }

  /** The first- and last-name columns together hold exactly the tokens of
      the founder's name, in order. */
  lemma NameColumns(name: string)
    ensures SplitWs(FirstName(name)) + SplitWs(LastName(name)) == SplitWs(name)
    ensures FirstName(name) == "" <==> SplitWs(name) == []
  {
    var parts := SplitWs(name);
    SplitWsTokens(name);
    if |parts| == 0 {
    } else {
      SplitWsJoin([parts[0]]);
      if |parts| == 1 {
        assert SplitWs(LastName(name)) == [];
      } else {
        SplitWsJoin(parts[1..]);
      }
      assert [parts[0]] + parts[1..] == parts;
    }
  }

  /** The Austin rows are those exported rows whose founder is flagged, in
      export order. */
  lemma AustinOnlyIsSubset(rows: seq<FlatRow>)
    ensures IsSubsequence(AustinOnly(rows), rows)
    ensures forall r :: r in AustinOnly(rows) <==> r in rows && IsAustinRow(r)
  {
    FilterIsSubsequence(rows, IsAustinRow);
  }

  /** The tally of a longer list is the tally of its parts. */
  lemma {:induction false} AustinTallyAppend(a: seq<CompanyResult>, b: seq<CompanyResult>)
    ensures AustinTally(a + b) == AustinTally(a) + AustinTally(b)
  {
    if b == [] {
      assert a + b == a;
    } else {
      assert (a + b)[..|a + b| - 1] == a + b[..|b| - 1];
      AustinTallyAppend(a, b[..|b| - 1]);
    }
  }

  /**
   * The batch/record cycle as the search scripts run it: take the next batch,
   * then record one result per entry in batch order. Every recorded index lies
   * above the old cursor, the indices are consecutive, and afterwards the next
   * batch starts right after the last one recorded.
   */
  method RunBatch(cp: FounderSearchCheckpoint, rows: seq<CompanyRow>, batchSize: nat, maxTotal: Option<int>,
                  work: BatchEntry -> seq<Founder>, now: string)
    returns (batch: seq<BatchEntry>)
    requires cp.Valid()
    modifies cp
    ensures cp.Valid()
    ensures |cp.results| == |old(cp.results)| + |batch|
    ensures cp.results[..|old(cp.results)|] == old(cp.results)
    ensures forall k :: |old(cp.results)| <= k < |cp.results| ==>
      cp.results[k].companyIndex == old(cp.lastProcessedIndex) + 1 + (k - |old(cp.results)|)
    ensures batch != [] ==> cp.lastProcessedIndex == old(cp.lastProcessedIndex) + |batch|
    ensures batch == [] ==> cp.lastProcessedIndex == old(cp.lastProcessedIndex)
    ensures cp.totalProcessed == old(cp.totalProcessed) + |batch|
  {
    batch := cp.GetNextBatch(rows, batchSize, maxTotal);
    ghost var before := cp.results;
    ghost var cursor := cp.lastProcessedIndex;
    var i := 0;
    while i < |batch|
      invariant 0 <= i <= |batch|
      invariant cp.Valid()
      invariant |cp.results| == |before| + i && cp.results[..|before|] == before
      invariant forall k :: |before| <= k < |cp.results| ==> cp.results[k].companyIndex == cursor + 1 + (k - |before|)
      invariant i > 0 ==> cp.lastProcessedIndex == cursor + i
      invariant i == 0 ==> cp.lastProcessedIndex == cursor
      invariant cp.totalProcessed == old(cp.totalProcessed) + i
    {
      var e := batch[i];
      var r := CompanyResult(e.companyIndex, e.companyName, e.companyYear, e.companyLocation, work(e), 0);
      cp.AddResult(r, now);
      i := i + 1;
    }
  }
}
