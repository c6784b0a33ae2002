# OpenAlex AI papers → Postgres pipeline, modelled in Dafny

This project models the core of a small ETL that tracks recent
artificial-intelligence papers. It has four parts:

- **Topic search.** `search_ai_field_subfield` searches the OpenAlex Topics
  for the field or subfield named "artificial intelligence" and extracts
  its id.
- **Fetch.** `fetch_recent_works` pages through the works filtered by that
  field and then by that subfield. It de-duplicates the works by id and
  stops a filter at an empty or short page.
- **Flattener.** `extract_doi` and `process_paper` turn one work into the
  22 column values of a `papers` row.
- **Batch upserter.** `insert_papers_with_deduplication` flattens every
  record, skipping failures and empty ids. It writes the rows in batches,
  one transaction each, with `INSERT … ON CONFLICT (openalex_id) DO UPDATE`.
  After a rollback it retries the batch row by row.

Two drivers tie the parts together:

- **The pipeline object.** `PapersDataPipeline` runs query, table setup,
  upload and the inlined data-quality tests, and turns the run into an exit
  status.
- **The loader script.** It loads a saved JSON snapshot.

The data-quality validator `PapersDataValidator` runs ten counting queries
against the table and keeps counters of passed and failed tests.

Modules, one per file:

- `Wrappers`: `Option`, and `Result` with the Python exceptions that matter.
- `JsonValue`: decoded JSON, Python truthiness, `dict.get` and `or`.
- `Text`: `str.replace` with an empty replacement, `split('/')[-1]`,
  ASCII `lower`, and `in` on strings.
- `Normalize`: the flattener.
- `Upsert`: the table, the transaction semantics and the upserter.
- `UpsertFacts`: lemmas about the upserter.
- `Validation`: the validator.
- `TopicSearch`: the topic search.
- `WorkFetch`: the fetch.
- `Pipeline`: the pipeline object.
- `Loader`: the loader script.

Everything outside the process is a parameter, never a call:

- The HTTP answers are sequences of topics and of pages of works.
- Whether the DDL raises is a boolean.
- Whether the database refuses a row is a predicate `rejects`.
- Whether a quality query raises is a predicate `fails`.
- The order in which a query scans the table is a function `scan`.
- Opening and parsing the snapshot file gives a `FileState`.
- The table is a map from `openalex_id` to a row holding the 22 values and
  the `created_at` and `updated_at` stamps. `CURRENT_TIMESTAMP` is a clock
  that ticks once per transaction.

Where the code and its documentation disagree, the model follows the code:

- Negative `cited_by_count` and count values pass through the flattener
  unchanged. `or 0` replaces only falsy values.
- In the validator script the duplicate-DOI check fails the run like any
  other check. In the pipeline it always counts as passed.
- A `batch_size` of 0 makes `range` raise ValueError. A negative one makes
  the batch loop empty, so nothing is written and 0 is returned.
- `run_data_quality_tests` calls `table_exists()` and the `COUNT(*)` query
  outside any `try`. So their failure (`ProbeRaises`) propagates to `run`,
  which returns 1.

## Model

| member | source | states |
|---|---|---|
| Normalize.ExtractDoi | pipeline.py:368-376 | raises exactly when `doi` is truthy and not a string |
| Normalize.ExtractDoiRules | load_papers_from_json.py:136-144 | None exactly for a missing or falsy `doi`; a string starting with `https://doi.org/` loses every occurrence of the prefix; any other non-empty string is returned unchanged |
| Normalize.ExtractDoiStripsResolver | pipeline.py:371-374 | `https://doi.org/<t>` gives back `t` when `t` does not contain the prefix again |
| Normalize.TopicColumns | pipeline.py:396-407 | the primary-topic columns are read without raising exactly when the topic, and each of its subfield, field and domain, is falsy or a dict |
| Normalize.OpenAccessColumns | pipeline.py:410-412 | reading `open_access` raises exactly when it is truthy and not a dict |
| Normalize.CitationColumns | pipeline.py:417-424 | the citation columns raise exactly when either percentile object is truthy and not a dict |
| Normalize.ProcessPaper | pipeline.py:378-456 | `process_paper` succeeds exactly on well-shaped records (a dict, `id` absent or a string, nested objects falsy or dicts); `fwci` is always None |
| Normalize.OpenAlexIdRule | load_papers_from_json.py:155 | a non-string `id` raises; otherwise `openalex_id` is the `id` with every `https://openalex.org/` removed, or "" when absent |
| Normalize.OpenAlexIdFromUrl | pipeline.py:386 | `https://openalex.org/W…` gives the bare `W…` id |
| Normalize.TitleFallback | pipeline.py:390 | the title is `title` when truthy, else `display_name`, else "" |
| Normalize.TopicNesting | pipeline.py:396-407 | a falsy primary topic gives five Nones; otherwise its name and score, and the display name of each truthy level |
| Normalize.TopicMustBeDict | load_papers_from_json.py:165-166 | a truthy primary topic that is not a dict makes `process_paper` raise |
| Normalize.Defaults | pipeline.py:410-431 | the counts default to 0 when missing or falsy; a falsy `open_access` gives False and None; `is_oa` defaults to False; a falsy normalized percentile gives None, False, False; a truthy one lacking `is_in_top_1_percent` or `is_in_top_10_percent` gives False for that flag; `fwci` is None |
| Normalize.NonObjectRaises | pipeline.py:386 | a record that is not a dict raises AttributeError |
| Text.RemoveAll | pipeline.py:374 | `replace(p, '')` never lengthens the string |
| Text.RemoveAllAbsent | pipeline.py:374 | removing an absent substring changes nothing |
| Text.StripPrefixOnce | pipeline.py:373-374 | removing `p` from `p + t` gives `t` when `t` does not contain `p` |
| Text.LastSegmentShape | fetch_ai_papers.py:40-41 | `split('/')[-1]` is a suffix with no '/', preceded by a '/' whenever the string has one, and the whole string otherwise |
| Upsert.Keep | pipeline.py:513-519 | a kept row always has a non-empty `openalex_id` |
| Upsert.PartitionTotal | pipeline.py:507-523 | corrected processing loop: every record is counted exactly once, as processed or skipped, and every processed row has a non-empty id |
| Upsert.ProcessAll | pipeline.py:507-523 | the processing loop yields exactly the corrected partition: the processed rows and the skip count |
| Upsert.PaperStore.Execute | pipeline.py:540-542 | one transaction: all statements are applied at one timestamp and committed, or the table is rolled back if any statement fails; the clock ticks once |
| Upsert.RetryRows | pipeline.py:553-562 | after a rollback, each row of the batch is its own transaction; the count is the rows that committed |
| Upsert.WriteBatch | pipeline.py:537-562 | a batch is committed whole and counts its length, or is retried row by row |
| Upsert.BatchesFrom | pipeline.py:536-537 | the slices from `start` are the slice `[start:start+size]` followed by the slices from its end |
| Upsert.WriteBatches | pipeline.py:530-562 | the batch loop over `range(0, n, batch_size)` leaves the table and `total_inserted` of committing the slices in order |
| Upsert.InsertPapersWithDeduplication | pipeline.py:458-565 | the whole call: ValueError for batch size 0, nothing written for a negative size, otherwise the processed rows written batch by batch |
| UpsertFacts.PartitionAccounts | load_papers_from_json.py:305-317 | processed plus skipped equals the number of records; each processed row has a non-empty id and is the flattening of some input record |
| UpsertFacts.BatchesCover | load_papers_from_json.py:330-331 | the slices concatenate back to the processed rows; each is non-empty and at most `batch_size` long, and all but the last are exactly `batch_size` |
| UpsertFacts.AcceptedAppend | pipeline.py:549-562 | the accepted rows of a concatenation are the concatenation of the accepted rows |
| UpsertFacts.AcceptedAll | pipeline.py:540-545 | when no row is refused, every row is accepted |
| UpsertFacts.AcceptedFrom | pipeline.py:553-557 | every accepted row comes from the input and was not refused |
| UpsertFacts.AcceptedLength | pipeline.py:553-557 | no more rows are accepted than offered |
| UpsertFacts.ApplyAllAppend | pipeline.py:481-504 | upserting `a` then `b` is upserting `a + b` |
| UpsertFacts.UpsertAllView | pipeline.py:481-504 | ON CONFLICT DO UPDATE replaces every column by the new values: the column view of the table is last-writer-wins by key |
| UpsertFacts.RetryEachEffect | pipeline.py:553-562 | row-by-row retry counts exactly the accepted rows and writes exactly them, in order |
| UpsertFacts.CommitBatchEffect | pipeline.py:539-562 | a batch counts and writes exactly its accepted rows, whether or not the batch transaction failed |
| UpsertFacts.CommitBatchesEffect | pipeline.py:536-562 | `total_inserted` is the number of accepted rows; the table's columns are those of writing exactly the accepted rows in order |
| UpsertFacts.InsertOutcome | load_papers_from_json.py:251-362 | for a positive batch size the result is the number of accepted processed rows, at most the processed rows and at most the records; the table ends as the accepted rows written in input order |
| UpsertFacts.InsertAllAccepted | pipeline.py:536-547 | when the database refuses nothing, every processed row is counted |
| UpsertFacts.PoisonedBatch | pipeline.py:549-562 | 150 rows with one refused row in the first batch of 100: two batches of 100 and 50, and 149 rows counted |
| UpsertFacts.KeysAppend | pipeline.py:481 | the written keys of a concatenation are the union of the written keys |
| UpsertFacts.StampedTrans | pipeline.py:504 | stamping composes across consecutive writes |
| UpsertFacts.UpsertAllStamps | pipeline.py:481-504 | one transaction keeps existing keys and their `created_at`, adds only written keys, leaves unwritten rows untouched, and stamps written rows with the transaction time |
| UpsertFacts.TransactionStamps | pipeline.py:540-551 | a transaction keeps the table consistent and stamps what it commits, or nothing after a rollback |
| UpsertFacts.RetryEachStamps | pipeline.py:553-562 | row-by-row retry stamps exactly the accepted rows |
| UpsertFacts.CommitBatchStamps | pipeline.py:539-562 | a batch stamps exactly its accepted rows |
| UpsertFacts.CommitBatchesStamps | pipeline.py:536-562 | all batches stamp exactly the accepted rows |
| UpsertFacts.InsertStamps | pipeline.py:458-565 | the insert keeps the table consistent; a raising call leaves it unchanged; no row disappears and no `created_at` changes |
| UpsertFacts.ApplyAllOverride | pipeline.py:481-504 | upserting onto a table overrides exactly the written keys |
| UpsertFacts.ApplyAllIdempotent | pipeline.py:481-504 | writing the same rows twice is writing them once |
| UpsertFacts.ReloadIdempotent | load_papers_from_json.py:251-362 | loading the same snapshot twice leaves the same keys, the same column values and the same `created_at` stamps |
| UpsertFacts.SecondLoadWins | pipeline.py:481-504 | a second write of a key keeps the first `created_at` and takes the new values and a later `updated_at` |
| UpsertFacts.NonObjectAborts | pipeline.py:512-523 | as written, `[{}, null]` makes the whole insert raise AttributeError; the corrected loop skips both |
| UpsertFacts.PartitionAgrees | load_papers_from_json.py:305-317 | the as-written loop succeeds exactly when every record is a dict, and then agrees with the corrected loop |
| Validation.Evaluate | data_quality_tests.py:26-81 | a raising query gives ERROR, no count and not passed; a missing row counts 0; the test passes exactly when it fetched and the count is 0 (or positive when not expecting 0) |
| Validation.CountRows | data_quality_tests.py:89-148 | a row count never exceeds the number of rows |
| Validation.IdKeys | data_quality_tests.py:203-206 | the grouped ids are never NULL |
| Validation.DoiKeys | data_quality_tests.py:219-222 | the grouped DOIs are never NULL or empty |
| Validation.RunEach | data_quality_tests.py:83-227 | one result per check |
| Validation.PapersDataValidator.constructor | data_quality_tests.py:20-24 | no results and all counters 0 |
| Validation.PapersDataValidator.RunTest | data_quality_tests.py:26-81 | appends the evaluated result, counts the test once, and counts it as passed or failed |
| Validation.PapersDataValidator.Run | data_quality_tests.py:90-98 | one check appends its result and keeps the counters consistent |
| Validation.PapersDataValidator.TestMissingRequiredFields | data_quality_tests.py:83-109 | appends the results of the missing-id and missing-title checks |
| Validation.PapersDataValidator.TestCitationCountValidation | data_quality_tests.py:111-148 | appends the three negative-count checks |
| Validation.PapersDataValidator.TestScoreRangeValidation | data_quality_tests.py:150-189 | appends the two [0, 1] range checks and the negative-fwci check |
| Validation.PapersDataValidator.TestDuplicateDetection | data_quality_tests.py:191-227 | appends the duplicate-id and duplicate-DOI checks |
| Validation.PapersDataValidator.PrintResults | data_quality_tests.py:229-259 | 0 exactly when no test failed, that is, when every recorded result passed |
| Validation.PapersDataValidator.RunAllTests | data_quality_tests.py:261-300 | a missing table or a raising probe returns 1 and records nothing; otherwise the ten results are appended in order and the status is 0 when all passed and 1 otherwise |
| Validation.RunEachAppend | data_quality_tests.py:294-297 | running two groups of checks in sequence runs their concatenation |
| Validation.PassedCountAll | data_quality_tests.py:254-259 | the passed counter equals the test count exactly when every result passed |
| Validation.CountRowsZero | data_quality_tests.py:89-186 | a count is zero exactly when no row matches the WHERE clause |
| Validation.OccPositive | data_quality_tests.py:203-207 | a key's group is non-empty exactly when the key occurs |
| Validation.DupGroupsZero | data_quality_tests.py:197-227 | no group has more than one row exactly when the keys are pairwise distinct |
| Validation.TwoCopies | data_quality_tests.py:197-211 | any two rows sharing a non-NULL `openalex_id` form exactly one duplicate group |
| Validation.ValidationExitZero | data_quality_tests.py:261-300 | the script exits 0 exactly when the table is there and every check ran and counted zero |
| Validation.CleanCount | data_quality_tests.py:261-300 | after a clean run, each check did not raise and counted zero |
| Validation.CleanRows | data_quality_tests.py:83-189 | after a clean run, every row has an id and a title, non-negative counters, scores in [0, 1] and a non-negative fwci |
| Validation.CleanKeys | data_quality_tests.py:191-227 | after a clean run, neither ids nor DOIs repeat |
| TopicSearch.NameMatches | fetch_ai_papers.py:36-37 | only a dict level can match |
| TopicSearch.LevelHit | fetch_ai_papers.py:34-37 | a matching level is a dict |
| TopicSearch.SearchAiFieldSubfield | fetch_ai_papers.py:20-98 | the search: the first pass, the broad pass when nothing was found, ValueError when both ids are still falsy |
| TopicSearch.ScanFirst | pipeline.py:55-84 | the first loop breaks at the first topic whose field, or else subfield, matches |
| TopicSearch.ScanBroad | pipeline.py:87-117 | the broad loop fills each id on its first match while it is still falsy |
| TopicSearch.BroadPassErrExtends | fetch_ai_papers.py:67-92 | once a topic raises, the whole broad pass raises the same error |
| TopicSearch.ExtractIdRule | fetch_ai_papers.py:39-43 | an id with a '/' becomes its last segment; one without is kept |
| TopicSearch.FirstPassAtMostOne | fetch_ai_papers.py:32-59 | the first pass assigns at most one of the two ids |
| TopicSearch.FirstPassFieldHit | fetch_ai_papers.py:32-45 | the first topic with a matching field decides the field id, and the subfield id stays unset |
| TopicSearch.FirstPassSubfieldHit | fetch_ai_papers.py:47-59 | the first match that is only on the subfield decides the subfield id, and the field id stays unset |
| TopicSearch.FirstPassNoHit | fetch_ai_papers.py:30-59 | no matching topic leaves both ids unset |
| TopicSearch.BroadPassKeeps | fetch_ai_papers.py:72-85 | the broad pass never replaces a truthy id |
| TopicSearch.BroadPassFieldFirst | fetch_ai_papers.py:66-79 | a topic whose field matches with a truthy id, reached while the field id is still falsy, decides the field id the pass ends with |
| TopicSearch.BroadPassSubfieldFirst | fetch_ai_papers.py:81-90 | a topic whose subfield matches with a truthy id, reached while the subfield id is still falsy, decides the subfield id the pass ends with |
| TopicSearch.SearchOutcome | fetch_ai_papers.py:62-98 | a successful search has a truthy id; a truthy first pass is returned as it is; ValueError exactly when both passes end with both ids falsy |
| TopicSearch.NeverValueError | fetch_ai_papers.py:67-92 | the broad pass itself never raises ValueError |
| TopicSearch.NeverValueErrorFirst | fetch_ai_papers.py:32-59 | the first pass itself never raises ValueError |
| TopicSearch.CaseInsensitive | fetch_ai_papers.py:36-37 | every name matches exactly when its lower-cased form does, so "Artificial Intelligence" matches |
| WorkFetch.ReadPages | fetch_ai_papers.py:124-145 | the page loop merges pages until an empty or short page |
| WorkFetch.FetchRecentWorks | pipeline.py:125-194 | field pages, then subfield pages, each only when its id is truthy, into one seen-id set |
| WorkFetch.MergeErrExtends | fetch_ai_papers.py:135-141 | once a work raises, the whole page raises the same error |
| WorkFetch.ReadCountStops | fetch_ai_papers.py:131-144 | the pages read are non-empty, all but the last are full, and reading stops at an empty page, a short page or the end |
| WorkFetch.ConcatAppend | fetch_ai_papers.py:124-145 | concatenating pages distributes over appending page lists |
| WorkFetch.MergeAppend | fetch_ai_papers.py:135-141 | merging `a + b` is merging `a` then `b` |
| WorkFetch.WalkMergesPagesRead | fetch_ai_papers.py:124-145 | the page loop is one merge over the works of the pages read |
| WorkFetch.FetchIsMerge | fetch_ai_papers.py:101-175 | the fetch is one merge, from nothing, over every work read |
| WorkFetch.MergeKeepsFirsts | fetch_ai_papers.py:135-141 | the merge succeeds exactly when every id can be read, and keeps exactly the first work of each truthy id |
| WorkFetch.FirstsUnique | fetch_ai_papers.py:137-139 | the kept works have truthy, pairwise distinct ids covering every truthy id read |
| WorkFetch.FetchResult | fetch_ai_papers.py:101-175 | the fetch raises exactly when some id cannot be read; otherwise it returns the first work of each truthy id in reading order, with no id twice |
| Loader.LoadJsonFile | load_papers_from_json.py:228-248 | a loaded value has a length; ValueError exactly for a parsed value that is neither a list nor a dict with `papers` |
| Loader.LoadMainStatus | load_papers_from_json.py:365-404 | no argument or an unloadable file exits 1 with the table untouched; otherwise it exits 1 exactly when the papers are truthy and table setup raises, else 0; a non-list snapshot leaves the table unchanged |
| Loader.LoadMainList | load_papers_from_json.py:376-392 | a non-empty list leaves the table the insert leaves, exits 0, and counts at most one row per record |
| Loader.LoadMainAsWrittenStatus | load_papers_from_json.py:300-404 | `main` as written exits 0 or 1, and 1 leaves the table unchanged; once the file is loaded it exits 1 exactly when the papers are truthy and table setup raises or some paper is not a dict |
| Loader.LoadMainAgrees | load_papers_from_json.py:305-392 | `main` as written and `main` on the corrected loop agree exactly unless a truthy snapshot reaches the insert holding something other than dicts; `[{}, null]` exits 1 as written and 0 corrected |
| Loader.LoaderInsert | load_papers_from_json.py:251-362 | with batches of 100 the insert succeeds and counts at most one row per record |
| Pipeline.PapersDataPipeline.constructor | pipeline.py:29-39 | keeps `days` and `batch_size`, with no papers yet |
| Pipeline.PapersDataPipeline.QueryApi | pipeline.py:196-209 | search then fetch; on success the works are also stored in `self.papers` |
| Pipeline.PapersDataPipeline.UploadPapers | pipeline.py:567-580 | without an argument the stored works are used; an empty list returns 0 without touching the table; otherwise the insert |
| Pipeline.PapersDataPipeline.RunDataQualityTests | pipeline.py:636-823 | with its running counters: 0 exactly when every check but the DOI one passed; the ten results in the validator's order; a missing table gives 1 and a raising probe raises |
| Pipeline.PapersDataPipeline.Run | pipeline.py:829-874 | any exception gives 1; no works gives 0 before the table is touched; skipping the tests gives 0; otherwise the status of the tests |
| Pipeline.QualityExitZero | pipeline.py:636-823 | the tests raise exactly when the probe does, otherwise give 0 or 1, and 0 exactly when the table is there and every check but the DOI one ran and counted zero |
| Pipeline.ValidatorStricter | pipeline.py:792-801 | a table the validator script accepts passes the pipeline's tests |
| Pipeline.DuplicateDoiInformational | pipeline.py:792-801 | two clean rows sharing a DOI pass the pipeline's tests and fail the validator script |
| Pipeline.SnapshotKeys | pipeline.py:481 | every scanned id is a held key |
| Pipeline.SnapshotDistinct | pipeline.py:481 | a scan that visits each key once shows pairwise distinct ids |
| Pipeline.SnapshotNoMissing | pipeline.py:516-518 | a table without an empty key shows no missing `openalex_id` |
| Pipeline.UploadKeepsKeysNonEmpty | pipeline.py:507-565 | an upload never writes a row under the empty key and keeps the table consistent |
| Pipeline.UploadedIdsClean | pipeline.py:507-565 | after an upload the missing-id and duplicate-id checks count zero |
| Pipeline.FetchedAreObjects | fetch_ai_papers.py:135-141 | every fetched work is a dict |
| Pipeline.FetchedNeverAbort | pipeline.py:512-523 | on fetched works, the as-written processing loop never raises, and agrees with the corrected one |
| Pipeline.RunOutcome | pipeline.py:829-874 | the status is 0 or 1 and the table stays consistent; a failed query gives 1 and no works gives 0 with the table untouched; table setup raising gives 1 with the table untouched; with works and a table, skipping the tests gives 0 and a batch size of 0 gives 1 with the table untouched; otherwise the status is the tests' status on the uploaded table, and 1 when they raise, as when the probe raises |

## Left out

- Printing, logging, the pretty summaries and the result descriptions are
  not modelled. The `status` strings are the enum `Pass | Fail | Error`.
- DDL (`create_table_if_needed`, the indexes, the comments and `pg_trgm`)
  becomes a single flag saying whether setup raises. `table_exists` is the
  `Probe` value.
- Connections, cursors, `close_all_connections` and connection errors are
  not modelled. A failing statement is the predicate `rejects`, and a
  failing quality query is the predicate `fails`.
- The date window is not modelled. `days` and the `from_publication_date`
  filter are computed from the clock and only select what the API returns,
  so the pages are given directly.
- The HTTP client is not modelled. `Topics().search` and
  `Works().filter(...).get` are answered by the sequences of an `Api` value.
  The page list is finite, so a server that never sends a short or empty
  page is not modelled.
- The fetch script's `save_to_json` and `main` are not modelled. Neither is
  the validator's `main`, which only adds exit-code plumbing and
  KeyboardInterrupt handling.
- Python's cross-type equality in `seen_ids` is not modelled. `1 == 1.0`
  and `True == 1` are equal in Python but distinct JSON values here.
- `Text.Lower`: Unicode case folding is not modelled.
- The scan order `scan` is an arbitrary function of the table. A
  `SELECT` lists each key exactly once; only the lemmas that need it
  (`Pipeline.SnapshotDistinct`, `Pipeline.UploadedIdsClean`) assume a scan
  without repeats, and `Pipeline.PapersDataPipeline.Run` does not constrain
  it.
- Implicit casts on insert are not modelled. A stored row keeps the JSON
  value it was given, so `cited_by_count: "-5"` (which PostgreSQL would
  store as the integer -5) is not counted by the negative-count check, and
  a float in an INTEGER column is not rounded.
- `Validation.RunEach`: the query texts are not modelled. Each check is its
  WHERE clause or GROUP BY key, evaluated on the rows in scan order.
- Loader: a truthy snapshot that is not a list is iterated element by
  element (the characters of a string, the keys of a dict). Every element
  is a string, so the corrected insert skips them all and the insert as
  written raises at the first one. Dict iteration order is therefore
  irrelevant.
- `Loader.LoadMainStatus` states the exit status of `main` on the
  corrected processing loop. As written, a truthy snapshot holding a record
  that is not a dict (or a truthy string or dict) exits 1 after table
  setup; that case is stated by `Loader.LoadMainAsWrittenStatus`.
- `Loader.LoadMainList` states exit 0 for every non-empty list on the
  corrected loop. As written, a list holding a record that is not a dict
  exits 1 with the table unchanged (`Loader.LoadMainAgrees`).
- The `metadata` key of a snapshot only feeds a print, so it is not
  modelled.
- `Upsert.InsertPapersWithDeduplication`: rows are written by `executemany`
  of a single statement, one at a time. Rows of one batch that share a key
  are applied in order, as PostgreSQL would; a statement that would affect
  the same row twice is not modelled.

## Findings

| source | as written | input that shows it | evidently intended | confidence | as-written member | corrected member |
|---|---|---|---|---|---|---|
| pipeline.py:512-523 (and load_papers_from_json.py:305-317) | the `except` handler prints `paper.get('id', 'unknown')`, which itself raises AttributeError when the record is not a dict, so the whole insert aborts instead of skipping the record | `[{}, null]` | count the record as skipped and go on with the next one | not executed | UpsertFacts.NonObjectAborts (on Upsert.Partition) | Upsert.PartitionTotal (agreement: UpsertFacts.PartitionAgrees) |

The upserter, the loader and the pipeline are all built on the corrected
loop. `Loader.LoadMainAsWritten` is the loader's `main` on the loop as
written, and `Loader.LoadMainAgrees` says exactly where the two differ. `Pipeline.FetchedNeverAbort` shows that works coming from the API
are always dicts, so the pipeline's own query path cannot trigger the bug.
A JSON snapshot given to the loader can.
