# Founder intelligence and restaurant longevity pipelines, modelled in Dafny

This project models the bookkeeping and string logic of two data pipelines.

The **Techstars founder study** works in four stages:

1. A resumable search records one result per company, with its founders, in a checkpoint file.
2. Enrichment steps fill in LinkedIn profile URLs, but only when the profile id matches the founder's name.
3. Further enrichment writes Bright Data locations back onto founders marked with the `PENDING_BRIGHTDATA` sentinel.
4. Exporters flatten the checkpoint into expanded, aggregated and Austin-only CSV row sets. A quality report grades every stored URL against its founder's name. A statistics script reads the state, the city and the industry verticals out of the exported text.

The **Yelp restaurant longevity study** works in two phases:

1. The first phase finds a Yelp business page for every input location. It tries a cascade of search queries, and it resumes a partially written output by row count.
2. The second phase opens each page sorted by date and reads the oldest review's date, rating and text, plus a "closed" notice. It resumes by the set of ids already written and saves every ten rows.

Every network search, Bright Data snapshot and browser page is a function parameter or an input sequence. The files are values held by the model: the checkpoint's `persisted` field and the run's list of save points.

One module per source file:

| module | file | form |
|---|---|---|
| `Wrappers`, `Text`, `Seqs` | `text.dfy` | shared: `Option`, ASCII string helpers (`Lower`, `Contains`, `Split`, `SplitWs`, `Strip`, `Join`, `Title`), first-match, filter, count and chunking over sequences |
| `Founders` | `founders.dfy` | the checkpoint records, and the addressed in-place edit of one founder shared by the enrichment steps |
| `Checkpoint` | `checkpoint.dfy` | class `FounderSearchCheckpoint` with `modifies` methods |
| `EnrichLocations` | `enrich_locations.dfy` | worklist scan and merge loops, each proved against a function |
| `Pipeline` | `pipeline.dfy` | pure id extraction and name matching; search, write-back, merge and export loops |
| `GenerateCsvs` | `generate_csvs.dfy` | index map, expanded, aggregated and Austin-only exports, as loops against functions |
| `VerifyQuality` | `verify_quality.dfy` | the graded classifier and the counting loop |
| `Statistics` | `statistics.dfy` | `extract_state`, `extract_city`, `extract_verticals` as functions |
| `UrlFinder` | `url_finder.dfy` | search strategies, the first-success cascade, result rows and the resume loop |
| `ReviewScraper` | `review_scraper.dfy` | URL sorting, date filters, first-match extraction and the resume-by-id loop |

## Model

| member | source | states |
|---|---|---|
| `Checkpoint.Fresh` | techstars-founder-intelligence/src/utils.py:26-33 | A new state has cursor -1, no processed companies, no results, both timestamps equal to `now`, and the given status label. |
| `Checkpoint.FounderSearchCheckpoint.constructor` | techstars-founder-intelligence/src/utils.py:16-33 | With a file, the state is the file's content. Without one, it is the fresh "initialized" state, whose counter agrees with its results. No backups exist yet. |
| `Checkpoint.FounderSearchCheckpoint.Save` | techstars-founder-intelligence/src/utils.py:35-39 | Only `last_updated` changes. The file then holds exactly the whole state, and the backups are untouched. |
| `Checkpoint.FounderSearchCheckpoint.AddResult` | techstars-founder-intelligence/src/utils.py:41-46 | The result is appended and all earlier results are kept. The counter goes up by one. The cursor is assigned the result's `company_index`, not the larger of the two. The counter agreement is preserved and the file is rewritten. |
| `Checkpoint.FounderSearchCheckpoint.GetNextBatch` | techstars-founder-intelligence/src/utils.py:48-80 | The batch is empty once the cap is reached. Otherwise its length is max(0, min(start + budget, n) - start). Entry k is input row start + k with its position as `company_index`, so every index lies above the cursor. With a cap, the length is at most the cap minus the count processed. A cap of 0 counts as no cap. |
| `Checkpoint.FounderSearchCheckpoint.ExportResults` | techstars-founder-intelligence/src/utils.py:82-133 | The rows are the flattening of the results, and the Austin rows are exactly the flattened rows whose founder is flagged. |
| `Checkpoint.FounderSearchCheckpoint.GetStatus` | techstars-founder-intelligence/src/utils.py:135-157 | Returns the counter, the sum of the results' Austin counts, and a resumable flag that is always true. |
| `Checkpoint.FounderSearchCheckpoint.Reset` | techstars-founder-intelligence/src/utils.py:159-176 | The state becomes the fresh "reset" state and the counter agrees with it. The old file, if there was one, is appended to the backups. The new state is written out. |
| `Checkpoint.FounderRows` | techstars-founder-intelligence/src/utils.py:100-117 | One export row per founder, in founder order. |
| `Checkpoint.FlattenRowCount` | techstars-founder-intelligence/src/utils.py:89-120 | The export has Σ max(1, \|founders\|) rows, so it has at least one row per result. |
| `Checkpoint.FlattenRowsFromResults` | techstars-founder-intelligence/src/utils.py:90-98 | Every exported row carries the `company_index` of a recorded result and that result's founder count. |
| `Checkpoint.NameColumns` | techstars-founder-intelligence/src/utils.py:104-108 | Together, the first-name and last-name columns hold exactly the whitespace tokens of the full name, in order. The first name is empty iff the name has no token. |
| `Checkpoint.AustinOnlyIsSubset` | techstars-founder-intelligence/src/utils.py:126-129 | The Austin export is an order-preserving subsequence of the export. A row is in it iff it is exported and its founder is flagged. |
| `Checkpoint.AustinTallyAppend` | techstars-founder-intelligence/src/utils.py:146-148 | The Austin tally of a concatenation is the sum of the tallies of its parts. |
| `Checkpoint.RunBatch` | techstars-founder-intelligence/src/utils.py:48-80 | A batch taken and then recorded entry by entry appends results with consecutive `company_index` values from cursor + 1. It advances the cursor by the batch length and raises the counter by the same amount. |
| `Founders.HasNameFullName` | techstars-founder-intelligence/src/pipeline.py:139-143 | The stripped "first last" name is non-empty iff the first or last name holds a non-space character. |
| `Founders.EditAbsorbs` | techstars-founder-intelligence/src/3_enrich_locations.py:117-121 | A location edit after a location edit, or a URL edit after a URL edit, leaves the founder exactly as the second edit alone does. |
| `Founders.FirstWithIndex` | techstars-founder-intelligence/src/3_enrich_locations.py:114-116 | Returns the position of the first result carrying the `company_index`, or None when no result carries it. |
| `Founders.ApplyWriteAt` | techstars-founder-intelligence/src/3_enrich_locations.py:114-125 | One write keeps every result's company fields and the length of every founder list. It changes only the founder at `founder_index` of the first result with that index, and only when the position is inside the list. |
| `Founders.ApplyWritesShape` | techstars-founder-intelligence/src/3_enrich_locations.py:89-125 | Any sequence of writes keeps the companies, their order and the lengths of their founder lists. |
| `Founders.HitsAfterWrites` | techstars-founder-intelligence/src/3_enrich_locations.py:114-123 | Whether a write lands does not depend on the writes before it, so the updated count depends only on the input checkpoint. |
| `Founders.ApplyWritesAppend` | techstars-founder-intelligence/src/3_enrich_locations.py:89-125 | Applying two write lists in turn equals applying their concatenation, and the landed counts add up. |
| `Founders.ApplyWritesAt` | techstars-founder-intelligence/src/3_enrich_locations.py:89-125 | Last write wins: after writes of one kind, each founder is its original edited by the last write that targets it, or unchanged if none does. |
| `Founders.LastEditFrom` | techstars-founder-intelligence/src/3_enrich_locations.py:108-117 | The winning edit comes from a write that targets the founder. There is none iff no write targets it. |
| `Founders.ApplyWritesIdempotent` | techstars-founder-intelligence/src/3_enrich_locations.py:89-125 | Re-applying the same writes of one kind changes nothing further. |
| `Founders.UpdateFounder` | techstars-founder-intelligence/src/3_enrich_locations.py:114-125 | The in-place scan over the results performs exactly one write, and reports whether it landed. |
| `EnrichLocations.IndexOf` | techstars-founder-intelligence/src/3_enrich_locations.py:36 | `list.index`: the result is a position holding an equal founder, and no earlier position does. Equality is of whole records, the keys no step reads (`extra`) included. |
| `EnrichLocations.CollectPendingProfiles` | techstars-founder-intelligence/src/3_enrich_locations.py:24-39 | The nested scan builds exactly the worklist `Collected`. |
| `EnrichLocations.CollectedCount` | techstars-founder-intelligence/src/3_enrich_locations.py:28-37 | The worklist has one entry per pending founder, a pending founder being one whose location is the sentinel and whose URL is non-empty. |
| `EnrichLocations.CollectedSound` | techstars-founder-intelligence/src/3_enrich_locations.py:28-37 | Every entry comes from a pending founder, and carries its name, its URL, its company's name and index, and its `list.index` position under whole-record equality. |
| `EnrichLocations.CollectedComplete` | techstars-founder-intelligence/src/3_enrich_locations.py:28-37 | Every pending founder has its entry in the worklist. |
| `EnrichLocations.FounderIndexIsFirstEqual` | techstars-founder-intelligence/src/3_enrich_locations.py:36 | An entry's `founder_index` is at most the founder's position and holds an equal founder. It is the founder's own position iff no earlier founder of that company is equal to it as a whole record. |
| `EnrichLocations.ChooseLocationPriority` | techstars-founder-intelligence/src/3_enrich_locations.py:95-105 | The location is `city` if non-empty, else `location`, else `country_code`, and it is never empty. There is none iff all three are empty. |
| `EnrichLocations.MatchWrites` | techstars-founder-intelligence/src/3_enrich_locations.py:108-117 | Every write made for one profile sets the chosen location. |
| `EnrichLocations.MatchWritesExact` | techstars-founder-intelligence/src/3_enrich_locations.py:108-113 | A profile writes for exactly the chunk entries whose URL equals the profile's URL as a string, and for no others. At most one write is made per entry. |
| `EnrichLocations.ResponseWrites` | techstars-founder-intelligence/src/3_enrich_locations.py:89-125 | Every write a response makes is a location edit. |
| `EnrichLocations.SkippedProfileWritesNothing` | techstars-founder-intelligence/src/3_enrich_locations.py:100-105 | A profile without any location data changes nothing. |
| `EnrichLocations.MatchProfile` | techstars-founder-intelligence/src/3_enrich_locations.py:108-125 | The match-and-update loop for one profile gives the checkpoint its writes produce, and counts those that land. |
| `EnrichLocations.MatchEntry` | techstars-founder-intelligence/src/3_enrich_locations.py:108-125 | One pass of that loop: an entry carrying the profile's URL adds its write to the checkpoint and to the landed count; any other entry changes nothing. |
| `EnrichLocations.ProcessProfile` | techstars-founder-intelligence/src/3_enrich_locations.py:89-125 | One profile either is skipped (reported, with no change) or has its matching writes applied and counted. |
| `EnrichLocations.ProcessResponse` | techstars-founder-intelligence/src/3_enrich_locations.py:87-125 | The loop over a downloaded response yields the checkpoint after all its writes, in response order. It also yields the landed count and the number of profiles without location data. |
| `EnrichLocations.ResponseOnlySetsLocations` | techstars-founder-intelligence/src/3_enrich_locations.py:114-125 | After a response, each founder is unchanged, or has only `location` and `is_austin` changed. The new `is_austin` is the austin/atx test of the new location, and a write of that location targets this founder. |
| `EnrichLocations.ResponseWritesFrom` | techstars-founder-intelligence/src/3_enrich_locations.py:89-117 | Every write comes from a response profile that has a location, and from a chunk entry whose URL equals that profile's URL. |
| `EnrichLocations.ResponseIdempotent` | techstars-founder-intelligence/src/3_enrich_locations.py:89-125 | Merging the same response into the merged checkpoint again changes nothing. |
| `EnrichLocations.BatchWrites` | techstars-founder-intelligence/src/3_enrich_locations.py:52-125 | Every write made across the chunks is a location edit. |
| `EnrichLocations.NoReplyNoWrites` | techstars-founder-intelligence/src/3_enrich_locations.py:72-141 | When no chunk's polling ever returns a non-empty download, nothing is written. |
| `EnrichLocations.ProcessChunk` | techstars-founder-intelligence/src/3_enrich_locations.py:64-145 | A chunk with a non-empty download merges it and is saved. A chunk whose polling failed, timed out or only ever got an empty list changes nothing and is not saved. |
| `EnrichLocations.ProcessBatch` | techstars-founder-intelligence/src/3_enrich_locations.py:52-145 | The chunk loop yields the checkpoint after every chunk's writes. A save happens iff some chunk got a non-empty download, and the last save holds the final checkpoint. With no response at all the checkpoint is unchanged. |
| `EnrichLocations.BatchIdempotent` | techstars-founder-intelligence/src/3_enrich_locations.py:52-125 | Running the same batch over the same responses a second time changes nothing further. |
| `EnrichLocations.EntryTargetsItsFounder` | techstars-founder-intelligence/src/3_enrich_locations.py:111-117 | If a founder's result is the first with its `company_index` and no earlier founder equals it as a whole record, the write built from its entry lands on that founder. |
| `Seqs.ChunksPartition` | techstars-founder-intelligence/src/3_enrich_locations.py:52-53 | The chunks, laid end to end, are the list they were cut from, and each holds from 1 to `batch_size` entries. |
| `Seqs.ChunksCount` | techstars-founder-intelligence/src/3_enrich_locations.py:54-55 | There are ⌈total / batch_size⌉ chunks. |
| `Pipeline.IdRunShape` | techstars-founder-intelligence/src/pipeline.py:37 | The group `([^/?]+)` is a prefix made of id characters, and it stops only at the end of the text or at a `/` or `?`. |
| `Pipeline.FirstMatchSpec` | techstars-founder-intelligence/src/pipeline.py:37 | `re.search` finds the leftmost position where `linkedin.com/in/` is followed by an id character, or reports that no position qualifies. |
| `Pipeline.TrailingDigits` | techstars-founder-intelligence/src/pipeline.py:40 | Counts the maximal run of digits at the end of the id. |
| `Pipeline.DropNumberAtEndShape` | techstars-founder-intelligence/src/pipeline.py:40 | `re.sub(r'-\d+$', '')` returns a prefix of the id. It is either the id itself, or the id with one dash and a final non-empty run of digits removed. |
| `Pipeline.ExtractLinkedinNameSpec` | techstars-founder-intelligence/src/pipeline.py:35-42 | The result is None iff no position matches. Otherwise it is the lower-cased, suffix-stripped id group at the leftmost match. |
| `Pipeline.ExtractedHasMarker` | techstars-founder-intelligence/src/pipeline.py:37-42 | A URL that yields an id contains `linkedin.com/in/`. |
| `Pipeline.ProfileUrlRoundTrip` | techstars-founder-intelligence/src/pipeline.py:35-42 | A lower-case id that does not end in a digit, placed in a profile URL, is extracted back unchanged. |
| `Pipeline.CountsAreCardinalities` | techstars-founder-intelligence/src/pipeline.py:59-62 | The distinct-token and shared-token counts are the sizes of Python's `set(...)` and of `set(...) & set(...)`. |
| `Pipeline.VerifyNameMatch` | techstars-founder-intelligence/src/pipeline.py:46-48 | A match requires a URL from which a non-empty id can be extracted. |
| `Pipeline.SingleTokenNeedsExactForm` | techstars-founder-intelligence/src/pipeline.py:59-77 | A one-token name matches only through its dashed or spaceless form, because the token and pattern tests need two tokens. |
| `Pipeline.DashedIdVerifies` | techstars-founder-intelligence/src/pipeline.py:53-57 | A name of letters and spaces always matches the profile URL of its dashed, lower-cased form. |
| `Pipeline.FirstAcceptedSpec` | techstars-founder-intelligence/src/pipeline.py:90-99 | The hit chosen passes the profile and name filters, and no earlier hit does. There is none iff no hit passes. |
| `Pipeline.ScanHits` | techstars-founder-intelligence/src/pipeline.py:90-99 | The filter loop returns the cleaned URL of the first accepted hit, or nothing. |
| `Pipeline.CheckHit` | techstars-founder-intelligence/src/pipeline.py:93-98 | A hit is kept iff it contains `linkedin.com/in/` and its URL, cut at `?`, passes `verify_name_match`. |
| `Pipeline.FindLinkedinUrl` | techstars-founder-intelligence/src/pipeline.py:81-118 | The search tries the primary query and then the fallback query. It yields verified with a URL, not verified, or error when a search raises. |
| `Pipeline.VerifiedUrlIsProfile` | techstars-founder-intelligence/src/pipeline.py:94-118 | The status is verified iff a URL is returned. That URL contains `linkedin.com/in/`, has no `?`, and passes `verify_name_match`. |
| `Pipeline.CollectMissing` | techstars-founder-intelligence/src/pipeline.py:136-151 | The nested scan builds exactly the missing-URL worklist. |
| `Pipeline.MissingOfResult` | techstars-founder-intelligence/src/pipeline.py:137-151 | The scan of one result yields the entries for its founders that lack a URL, in order. |
| `Pipeline.MissingSound` | techstars-founder-intelligence/src/pipeline.py:136-151 | Every worklist entry comes from a founder that has a non-empty stripped name and an empty URL, and it carries that founder's `enumerate` position. |
| `Pipeline.MissingComplete` | techstars-founder-intelligence/src/pipeline.py:136-151 | Every founder with a name and no URL has its entry. |
| `Pipeline.Searched` | techstars-founder-intelligence/src/pipeline.py:169-171 | Each chunk entry gets its own search outcome. |
| `Pipeline.ArrivedFrom` | techstars-founder-intelligence/src/pipeline.py:171 | Whatever the completion order, only outcomes of the chunk arrive. |
| `Pipeline.ArrivedPermutes` | techstars-founder-intelligence/src/pipeline.py:170-171 | When the completion order is a permutation of the submissions, the arrived outcomes are a permutation of the chunk's outcomes, and each outcome arrives. |
| `Pipeline.OutcomeWrites` | techstars-founder-intelligence/src/pipeline.py:174-186 | Every write made from search outcomes sets a LinkedIn URL. |
| `Pipeline.OutcomeWritesFrom` | techstars-founder-intelligence/src/pipeline.py:174-183 | Every write comes from a verified outcome that has a URL. |
| `Pipeline.UnverifiedWriteNothing` | techstars-founder-intelligence/src/pipeline.py:174-175 | Outcomes that are not verified write nothing. |
| `Pipeline.WriteBack` | techstars-founder-intelligence/src/pipeline.py:173-186 | The write-back loop gives the checkpoint after the verified outcomes' writes, and counts those that land. |
| `Pipeline.SearchWrites` | techstars-founder-intelligence/src/pipeline.py:164-186 | Every write of a whole run sets a LinkedIn URL. |
| `Pipeline.SearchChunk` | techstars-founder-intelligence/src/pipeline.py:164-191 | One chunk is searched and written back in its completion order, a permutation of the submissions. The writes are those of the chunk's verified searches, each exactly once. |
| `Pipeline.SearchWritesPermutes` | techstars-founder-intelligence/src/pipeline.py:164-186 | Over all chunks, the writes made are a permutation of the writes of every verified search in worklist order. |
| `Pipeline.SearchWritesFrom` | techstars-founder-intelligence/src/pipeline.py:170-183 | Every write of the run comes from a verified search of a worklist entry and carries that search's URL. |
| `Pipeline.SearchWritesHas` | techstars-founder-intelligence/src/pipeline.py:170-183 | Every verified search of a worklist entry is written, whatever the completion order. |
| `Pipeline.VerifiedCountWrites` | techstars-founder-intelligence/src/pipeline.py:174-186 | The number of writes equals the number of worklist entries whose search verifies a URL. |
| `Pipeline.FindMissingCount` | techstars-founder-intelligence/src/pipeline.py:164-197 | With distinct company indices, the landed count equals the number of verified searches. |
| `Pipeline.FindMissingExact` | techstars-founder-intelligence/src/pipeline.py:127-197 | With distinct company indices, after the run each founder is exactly: given its search's URL and the sentinel location when it needed a URL and the search verified one, and unchanged otherwise. |
| `Pipeline.FindMissingLinkedinUrls` | techstars-founder-intelligence/src/pipeline.py:127-197 | The run applies every chunk's writes in turn and returns the total landed count. With distinct company indices, that count is the number of verified searches. It saves iff the worklist is non-empty, and the last save holds the final checkpoint. |
| `Pipeline.SearchNextChunk` | techstars-founder-intelligence/src/pipeline.py:164-188 | One pass of the chunk loop takes the next chunk of at most 50 entries, searches it, writes it back, and extends the run by it. |
| `Pipeline.ChunkWritesVerified` | techstars-founder-intelligence/src/pipeline.py:174-186 | Every write of a chunk is a verified URL for an entry of that chunk. |
| `Pipeline.SearchWritesVerified` | techstars-founder-intelligence/src/pipeline.py:164-186 | Every write of a run is a verified URL for some worklist entry. |
| `Pipeline.FindMissingEffect` | techstars-founder-intelligence/src/pipeline.py:164-186 | After the run, each founder is unchanged, or has its URL set to a verified profile URL for a worklist entry and its location set to the sentinel. Such a write targets that founder. |
| `Pipeline.MissingTargetsOwnFounder` | techstars-founder-intelligence/src/pipeline.py:176-182 | When `company_index` values are distinct, an entry's write lands only on the founder the entry was made from. |
| `Pipeline.FindFillsOnlyMissing` | techstars-founder-intelligence/src/pipeline.py:136-186 | When `company_index` values are distinct, the run changes only founders that had a name and no URL. It gives each a URL verified against its own name, and marks its location pending. |
| `Pipeline.AsProfiles` | techstars-founder-intelligence/src/pipeline.py:248-253 | Each Bright Data record is read with its `input.url` as the match key. |
| `Pipeline.CollectPending` | techstars-founder-intelligence/src/pipeline.py:212-220 | The nested scan builds exactly the pending worklist, indexed by `enumerate`. |
| `Pipeline.PendingOfResult` | techstars-founder-intelligence/src/pipeline.py:213-220 | The scan of one result yields the entries for its pending founders, in order. |
| `Pipeline.PendingSound` | techstars-founder-intelligence/src/pipeline.py:212-220 | Every entry comes from a pending founder at that `enumerate` position. |
| `Pipeline.PendingComplete` | techstars-founder-intelligence/src/pipeline.py:212-220 | Every pending founder has its entry. |
| `Pipeline.PendingTargetsOwnFounder` | techstars-founder-intelligence/src/pipeline.py:264-271 | When `company_index` values are distinct, a pending entry's write lands only on its own founder. |
| `Pipeline.FirstReady` | techstars-founder-intelligence/src/pipeline.py:238-244 | Finds the first of the 60 polling attempts that returns a non-empty list, or reports that none does. |
| `Pipeline.EnrichWithBrightdata` | techstars-founder-intelligence/src/pipeline.py:203-295 | With nothing pending, or no snapshot, nothing changes, nothing is counted and nothing is saved. Otherwise the first ready download is merged through `input.url` and saved, and the landed count is returned. |
| `Pipeline.MergeByInputUrl` | techstars-founder-intelligence/src/pipeline.py:248-275 | Every write comes from a downloaded record that supplies a location, and from a pending entry whose URL equals the record's `input.url`. |
| `Pipeline.OwnProfileLocation` | techstars-founder-intelligence/src/pipeline.py:248-275 | When `company_index` values are distinct, a founder is unchanged or was pending. In the second case a record with its URL as `input.url` supplied the new location, and `is_austin` was derived from that location. |
| `Pipeline.AnyAustinCount` | techstars-founder-intelligence/src/pipeline.py:376-377 | `has_austin_founder` computed with `any` agrees with the `austin_founders > 0` test of the other exporter. |
| `Pipeline.RegenerateAggregated` | techstars-founder-intelligence/src/pipeline.py:370-382 | The aggregated loop yields exactly the aggregated rows of the exporter module. |
| `Pipeline.RegenerateCsvs` | techstars-founder-intelligence/src/pipeline.py:301-405 | The step-3 exports are the exports of the checkpoint and companies: for a non-empty checkpoint, those of the stand-alone exporter. On an empty checkpoint this step still writes them, where the exporter stops. |
| `GenerateCsvs.LastWithIndex` | techstars-founder-intelligence/src/4_generate_csvs.py:18-21 | Returns the position of the last result carrying the index, or None when no result carries it. |
| `GenerateCsvs.IndexMapLastWins` | techstars-founder-intelligence/src/4_generate_csvs.py:17-21 | An index is in the map iff some result carries it, and it maps to the founders of the last such result. |
| `GenerateCsvs.BuildIndex` | techstars-founder-intelligence/src/4_generate_csvs.py:17-21 | The map-filling loop builds exactly that map. |
| `GenerateCsvs.FounderRowsAt` | techstars-founder-intelligence/src/4_generate_csvs.py:68-76 | Founder k of a company gives expanded row k. |
| `GenerateCsvs.ExpandRows` | techstars-founder-intelligence/src/4_generate_csvs.py:50-79 | The expansion loop yields the expanded rows. Its `austin_count` is the size of the Austin-only view. |
| `GenerateCsvs.ExpandCompany` | techstars-founder-intelligence/src/4_generate_csvs.py:54-79 | One company's rows, and the number of them that are Austin rows. |
| `GenerateCsvs.AustinRowsOfFounders` | techstars-founder-intelligence/src/4_generate_csvs.py:75-79 | A company's founder rows contain exactly as many Austin rows as it has Austin founders. |
| `GenerateCsvs.ExpandedCounts` | techstars-founder-intelligence/src/4_generate_csvs.py:53-79 | There are Σ max(1, \|founders\|) expanded rows, and the Austin rows number as many as the Austin founders. |
| `GenerateCsvs.ExpandedHasCompany` | techstars-founder-intelligence/src/4_generate_csvs.py:53-79 | Every input company appears in at least one expanded row. |
| `GenerateCsvs.ExpandedOnlyCompanies` | techstars-founder-intelligence/src/4_generate_csvs.py:53-79 | Every expanded row belongs to an input company. |
| `GenerateCsvs.CompanyRowsShape` | techstars-founder-intelligence/src/4_generate_csvs.py:56-76 | A company with no founders gets one row with empty founder fields and `'FALSE'`. Otherwise it gets one row per founder with the stripped full name, and `'TRUE'` iff the founder is flagged. |
| `GenerateCsvs.AustinRowsIsSubset` | techstars-founder-intelligence/src/4_generate_csvs.py:102 | The Austin-only view is an order-preserving subsequence of the expanded rows. It holds exactly the `'TRUE'` rows. |
| `GenerateCsvs.AggregateRows` | techstars-founder-intelligence/src/4_generate_csvs.py:115-127 | The aggregation loop yields the aggregated rows. |
| `GenerateCsvs.AustinFoundersPositive` | techstars-founder-intelligence/src/4_generate_csvs.py:121-122 | The Austin count is at most the number of founders. It is positive iff some founder is flagged. |
| `GenerateCsvs.AggregatedShape` | techstars-founder-intelligence/src/4_generate_csvs.py:115-127 | There is one aggregated row per input company, in order, with `total_founders = \|founders\|`. `has_austin_founder` is `'TRUE'` iff some founder is flagged. |
| `GenerateCsvs.AggregatedAt` | techstars-founder-intelligence/src/4_generate_csvs.py:116-127 | Aggregated row k is built from company k and its mapped founders. |
| `GenerateCsvs.AustinCompaniesIsSubset` | techstars-founder-intelligence/src/4_generate_csvs.py:149 | The Austin-company view is an order-preserving subsequence of the aggregated rows. It holds exactly the `'TRUE'` rows. |
| `GenerateCsvs.GenerateCsvs` | techstars-founder-intelligence/src/4_generate_csvs.py:17-154 | On an empty checkpoint the script fails (`min` of no keys). Otherwise it produces the four exports and their counts. |
| `GenerateCsvs.ExportsFacts` | techstars-founder-intelligence/src/4_generate_csvs.py:82-154 | The exports obey the row counts above. `austin_count` equals the Austin view's size. Each Austin view is a subsequence of its full view with the same fieldnames: the input columns plus six fixed columns. |
| `VerifyQuality.NameSimilarity` | techstars-founder-intelligence/src/verify_quality.py:28-29 | An empty name, a missing id or an empty id grades as no match. |
| `VerifyQuality.PerfectFirst` | techstars-founder-intelligence/src/verify_quality.py:36-45 | The grade is perfect iff the dashed or spaceless lower-cased name occurs in the id. This test comes before all the others. |
| `VerifyQuality.SharedTokensAreGood` | techstars-founder-intelligence/src/verify_quality.py:48-53 | A name with at least two distinct tokens, two of them shared with the id, grades perfect or good, and good when it is not perfect. |
| `VerifyQuality.PartialExactly` | techstars-founder-intelligence/src/verify_quality.py:48-58 | The grade is partial iff the name is not perfect, does not share two tokens, and shares at least one token. |
| `VerifyQuality.AbbreviationNeedsFit` | techstars-founder-intelligence/src/verify_quality.py:62-79 | Without a shared token, a good grade needs the name's letters to fit in the dashless id and one abbreviation pattern to occur. |
| `VerifyQuality.SpacesOnlyNameIsPerfect` | techstars-founder-intelligence/src/verify_quality.py:36-45 | A name made only of spaces grades perfect against any non-empty id, because its spaceless form is empty. |
| `VerifyQuality.AgreesWithSearch` | techstars-founder-intelligence/src/verify_quality.py:36-53 | A perfect grade implies that the search's `verify_name_match` accepts the URL. If the search accepted it through the exact form or shared tokens, the report grades it perfect or good. |
| `VerifyQuality.GradesPartition` | techstars-founder-intelligence/src/verify_quality.py:98-123 | The four grades partition the founders that have a URL. |
| `VerifyQuality.TallyFoundersCounts` | techstars-founder-intelligence/src/verify_quality.py:101-129 | Tallying one company adds its founders with URLs to the total and each grade to its counter. Every no-match gets one suspicious entry. |
| `VerifyQuality.ReportCounts` | techstars-founder-intelligence/src/verify_quality.py:98-129 | Over the checkpoint, the counters are the grade counts. perfect + good + partial + no_match = total, and \|suspicious\| = no_match. |
| `VerifyQuality.CountGrade` | techstars-founder-intelligence/src/verify_quality.py:116-129 | The if-chain bumps the right counter and records a suspicious entry only for no match. |
| `VerifyQuality.TallyFounder` | techstars-founder-intelligence/src/verify_quality.py:101-129 | A founder without a URL is skipped. Otherwise it is counted and graded. |
| `VerifyQuality.AnalyzeLinkedinUrls` | techstars-founder-intelligence/src/verify_quality.py:83-160 | The analysis loop returns the report. Its counters partition the total, and its suspicious entries are exactly the no-match founders. |
| `VerifyQuality.TallyCompany` | techstars-founder-intelligence/src/verify_quality.py:99-129 | The inner loop tallies one company's founders, in order, onto the running report. |
| `Statistics.StateCodeShape` | techstars-founder-intelligence/analysis/statistics.py:48-54 | A listed state name becomes a two-letter upper-case code. Any other text is returned unchanged. |
| `Statistics.ExtractStateNone` | techstars-founder-intelligence/analysis/statistics.py:41-55 | The state is None iff the location is missing, names no US spelling, or has no comma. |
| `Statistics.SplitLocation` | techstars-founder-intelligence/analysis/statistics.py:45 | "city, state, country" with comma-free parts splits into the three parts, the last two with their leading space. |
| `Statistics.UnitedStatesTail` | techstars-founder-intelligence/analysis/statistics.py:47 | With "United States" last, the state is the abbreviated, trimmed second-to-last part. |
| `Statistics.ShortCountryTail` | techstars-founder-intelligence/analysis/statistics.py:47 | With the spelling "USA" and no "United States", the last part is taken, so "Austin, Texas, USA" gives "USA". |
| `Statistics.ExtractCityPresent` | techstars-founder-intelligence/analysis/statistics.py:57-62 | A city comes out iff the location is present. |
| `Statistics.ExtractCityShape` | techstars-founder-intelligence/analysis/statistics.py:61-62 | The city is the trimmed text before the first comma, holds no comma, and has no space at either end. |
| `Statistics.ExtractVerticalsCount` | techstars-founder-intelligence/analysis/statistics.py:135-139 | A missing value gives no verticals. Otherwise there are as many verticals as commas plus one. |
| `Statistics.ExtractVerticalsClean` | techstars-founder-intelligence/analysis/statistics.py:139 | Every vertical is trimmed and holds no comma. |
| `Statistics.ExtractVerticalsOfJoin` | techstars-founder-intelligence/analysis/statistics.py:139 | Comma-free names joined by commas are read back as the same names, trimmed. |
| `UrlFinder.StreetNameWords` | yelp-restaurant-longevity/src/url_finder.py:123-132 | The street name's tokens are the address tokens that do not start with a digit. They are kept in order, and no token that qualifies is dropped. |
| `UrlFinder.BuildSearchStrategies` | yelp-restaurant-longevity/src/url_finder.py:88-120 | The appending builder yields exactly the strategy list. |
| `UrlFinder.StrategiesShape` | yelp-restaurant-longevity/src/url_finder.py:88-120 | The list holds 1 to 4 searches in strategy order, always including name_city_state. The street search appears iff the address is present and its street part non-empty. The project search appears iff the project name is present and differs from the location name. The base-name search appears iff the base name differs. |
| `UrlFinder.LastPieceShape` | yelp-restaurant-longevity/src/url_finder.py:167 | `split('/biz/')[-1]` is a suffix of the URL holding no `/biz/`, and it is the whole URL when there is no separator. |
| `UrlFinder.HitShape` | yelp-restaurant-longevity/src/url_finder.py:163-174 | The kept URL is the prefix before the first `?`: it has no `?`, and the character after it, if any, is `?`. Up to letter case, the business name is the text after the last `/biz/` with dashes turned into spaces. Title and snippet are passed through. |
| `Text.BeforeMaximal` | yelp-restaurant-longevity/src/url_finder.py:166 | `split('?')[0]` is a prefix that stops exactly at the first separator, or is the whole text. |
| `Text.TitleAfterLower` | yelp-restaurant-longevity/src/url_finder.py:167 | `title()` changes only the case of letters. |
| `UrlFinder.SearchYelp` | yelp-restaurant-longevity/src/url_finder.py:134-178 | Returns the first result whose URL holds `/biz/` and `yelp.com`. A failed request or a status other than 200 gives None. |
| `UrlFinder.FirstFoundSpec` | yelp-restaurant-longevity/src/url_finder.py:63-72 | The cascade returns None iff every strategy's search fails. Otherwise it returns the first successful search's hit, tagged with that strategy and query, and every search before it failed. |
| `UrlFinder.SearchBusiness` | yelp-restaurant-longevity/src/url_finder.py:35-72 | The early-return loop yields the cascade's result. |
| `UrlFinder.BuildResultRowShape` | yelp-restaurant-longevity/src/url_finder.py:258-299 | `found` is true iff there is a result. A found row carries its URL, that URL plus `?sort_by=date_asc`, and its query. A row with no result has every result field empty. The base fields are copied. |
| `UrlFinder.ResumeAgrees` | yelp-restaurant-longevity/src/url_finder.py:201-231 | A run resumed from a prefix of a complete run's output gives the complete run's output. |
| `UrlFinder.FoundCountOfRun` | yelp-restaurant-longevity/src/url_finder.py:248 | The found count of a resumed run is the existing found count plus the number of new rows whose cascade succeeds. |
| `UrlFinder.ProcessRow` | yelp-restaurant-longevity/src/url_finder.py:214-231 | One input row gives its result row. |
| `UrlFinder.ProcessCsv` | yelp-restaurant-longevity/src/url_finder.py:181-255 | The results keep the existing rows and append one row per input row from `start_row` on. A save falls at every multiple of 50 and at the end. The totals are the row count and the found count. |
| `ReviewScraper.AddSortParameterShape` | yelp-restaurant-longevity/src/review_scraper.py:135-139 | The result contains `?sort_by=date_asc`. It is the URL unchanged iff the URL already contains it, and the URL plus the parameter otherwise. Applying it twice is the same as applying it once. |
| `ReviewScraper.FallbackSortedUrlShape` | yelp-restaurant-longevity/src/review_scraper.py:281-284 | The separator is `?` for a URL without `?` and `&` otherwise. Without a `?`, the result already counts as sorted. |
| `ReviewScraper.FoundRowNeedsNoSort` | yelp-restaurant-longevity/src/review_scraper.py:137-139 | The sorted URL the first phase writes is left unchanged when the scraper adds the sort parameter. |
| `ReviewScraper.HasYearIff` | yelp-restaurant-longevity/src/review_scraper.py:201 | Some year from 1990 to 2029 occurs as a substring iff four digits somewhere in the text read as such a year. |
| `ReviewScraper.NoDigitNoYear` | yelp-restaurant-longevity/src/review_scraper.py:201 | Text without digits contains no year. |
| `ReviewScraper.ReviewDateChecks` | yelp-restaurant-longevity/src/review_scraper.py:157-161 | A span in a valid date format is taken iff it has no promotional phrase. The promotional test ignores case. |
| `ReviewScraper.NoReviewsFoundIsNoDate` | yelp-restaurant-longevity/src/review_scraper.py:174-179 | The "No reviews found" default is not itself a date the filters accept. |
| `ReviewScraper.Truncate` | yelp-restaurant-longevity/src/review_scraper.py:228 | `text[:500]` is no longer than the limit or the text. |
| `ReviewScraper.ReviewTextSpec` | yelp-restaurant-longevity/src/review_scraper.py:219-230 | The text is "N/A" iff no span's stripped text exceeds 100 characters. Otherwise it is the first such text cut to 500, so its length lies between 101 and 500. |
| `ReviewScraper.ExtractReviewText` | yelp-restaurant-longevity/src/review_scraper.py:219-230 | The early-return loop yields that text. |
| `ReviewScraper.NotAvailableIsNoNumber` | yelp-restaurant-longevity/src/review_scraper.py:242-245 | "N/A" cannot be mistaken for a rating. |
| `ReviewScraper.RatingSpec` | yelp-restaurant-longevity/src/review_scraper.py:232-245 | The rating is "N/A" iff no element has a 'star rating' label whose first token is digits once '.' is removed. Otherwise it is that first token of the first such element. |
| `ReviewScraper.ExtractRating` | yelp-restaurant-longevity/src/review_scraper.py:232-245 | The early-return loop yields that rating. |
| `ReviewScraper.ReviewDataSpec` | yelp-restaurant-longevity/src/review_scraper.py:153-179 | The date is "No reviews found", with rating and text "N/A", iff no span passes both date checks. Otherwise the data is that of the first span that does. It is never marked closed. |
| `ReviewScraper.ExtractReviewData` | yelp-restaurant-longevity/src/review_scraper.py:141-179 | The span loop yields that data. |
| `ReviewScraper.OldestReviewShape` | yelp-restaurant-longevity/src/review_scraper.py:101-128 | The page opened is the sorted URL. The result is None iff the page fails to load. Otherwise it is marked closed iff the page source holds the closed notice, and carries the page's first review data. |
| `ReviewScraper.GetOldestReview` | yelp-restaurant-longevity/src/review_scraper.py:90-132 | The scrape yields that result. |
| `ReviewScraper.BuildReviewRowShape` | yelp-restaurant-longevity/src/review_scraper.py:344-361 | `is_closed` is "Yes" iff the business is closed and "No" otherwise. The review fields and the row's id, URL and business name are copied. |
| `ReviewScraper.SaveCountsShape` | yelp-restaurant-longevity/src/review_scraper.py:322-325 | The save points are exactly the multiples of ten between the bounds, in increasing order. |
| `ReviewScraper.RunKeeps` | yelp-restaurant-longevity/src/review_scraper.py:300-325 | A run keeps the existing results as a prefix. Results are added at most once per row scraped, and rows are scraped at most once per row processed. |
| `ReviewScraper.StepAdds` | yelp-restaurant-longevity/src/review_scraper.py:303-325 | A row already processed, or one whose scrape failed, adds nothing. Otherwise the row is appended, its id added, a dated review counted, and a save made when the count reaches a multiple of ten. |
| `ReviewScraper.RunIds` | yelp-restaurant-longevity/src/review_scraper.py:303-320 | The processed ids grow by exactly the ids of the appended rows. |
| `ReviewScraper.RunSuccesses` | yelp-restaurant-longevity/src/review_scraper.py:311-316 | `successful_scrapes` counts exactly the appended rows whose date is not "No reviews found". |
| `ReviewScraper.RunSaves` | yelp-restaurant-longevity/src/review_scraper.py:322-325 | The saves are the multiples of ten between the starting and the final result counts. |
| `ReviewScraper.RunFresh` | yelp-restaurant-longevity/src/review_scraper.py:303-320 | No scraped row and no appended row has an id that was processed at the start. No id is appended twice. |
| `ReviewScraper.ResumedRun` | yelp-restaurant-longevity/src/review_scraper.py:291-325 | Resumed from an existing output, a run keeps that output as a prefix. It never scrapes a row whose id is already there, and appends distinct new ids. It counts the dated new rows, and saves at every multiple of ten above the existing count. |
| `ReviewScraper.VisitRow` | yelp-restaurant-longevity/src/review_scraper.py:301-329 | One loop iteration takes the run one step, scraping the row's sorted URL. |
| `ReviewScraper.ProcessUrls` | yelp-restaurant-longevity/src/review_scraper.py:253-341 | Over the selected rows, the loop returns the run's results and successful-scrape count. It makes the run's periodic saves plus a final save when there are results. |

## Left out

- Network calls are not modelled. These are the Tavily searches, the Bright Data submission and download, and the requests timeout. The replies are function parameters, and polling is a per-attempt download function. Waiting and `time.sleep` are not modelled.
- Browser automation is not modelled. This covers Selenium setup, the CAPTCHA prompt, page loading, scrolling and closing the driver. A page is a value: its source text and a list of spans, each span with its container's elements. `_find_review_container` (the DOM parent walk) is not part of this model, so each span carries its container.
- The page is read once. The closed check and the parse see the same page, although the source reads `page_source` twice around a scroll.
- File I/O is not modelled. JSON and CSV reading and writing, `os.path.exists` and `os.rename` become a `persisted` snapshot, a list of backups, an `existing` input sequence and a list of save points. Saves rewrite the file in place and no atomicity is claimed.
- Timestamps are opaque strings passed in. Random delays, logging, prints, the interactive `input()` confirmations and `KeyboardInterrupt` are left out. Among the prints, the alignment check of `4_generate_csvs.py` (lines 33-41) reads `df.iloc[idx]['name']` and raises, aborting before any export, when the companies file has no `name` column; that failure is not modelled.
- Founder fields are modelled as strings that may be absent (read as ""). A stored JSON `null` is not modelled; Python would render it as "None" in the f-strings that build full names.
- Thread-pool concurrency in the URL search is a completion order per chunk (`arrival`): some permutation of the chunk's submission positions, so every search of the chunk is yielded exactly once. Which permutation occurs is not modelled, and nothing else about the threads is.
- String functions (`lower`, `split`, `strip`, `isdigit`, `title`) are modelled for ASCII only. Unicode case mapping and Unicode whitespace are not modelled.
- pandas NaN is a `Cell` that is `Missing` or a value. `str()` of a missing cell renders as "nan", so a missing project name that passes the truthiness test gives a "nan ..." query. Numeric cell values rendered as floats on a re-read CSV (for example "12.0" against "12") are not modelled.
- The numerical analysis in `statistics.py` is out of scope: percentages, concentration figures, groupby counts and report assembly.
- `verify_quality.py` divides by `total_with_linkedin` in its summary prints. That fails when no founder has a URL; the prints are not modelled, so the model returns the report.
- The founder search driver of the first stage, and the plotting scripts, are not part of this model.
- `Checkpoint.FounderSearchCheckpoint.AddResult` assigns the cursor rather than taking a maximum, so a result with a smaller `company_index` moves it backwards. The model follows the code.
- `Checkpoint.FounderSearchCheckpoint.Save` rewrites the file in place, with no temporary file or rename.
- `Checkpoint.FounderSearchCheckpoint.constructor` requires a loaded file's `last_processed_index` to be at least -1, as every file this program writes is. A hand-edited file with a smaller cursor is not modelled.
- `ReviewScraper.BuildReviewRow` takes the business name from `url_business_name`, because the first phase writes no `yelp_business_name` column.
- `ReviewScraper.FallbackSortedUrlShape` does not state the whole chain: a fallback URL built with `&` does not contain `?sort_by=date_asc`, so the scraper appends the parameter a second time.
