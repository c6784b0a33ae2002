/**
 * The end-to-end pipeline of `pipeline.py`: query the API (topic search, then
 * the paginated fetch), upload the works with the batch upserter, and run
 * the inlined data-quality tests, turning the whole run into an exit status.
 *
 * The API's answers are the four sequences of an `Api` value; creating the
 * table and extension (DDL only) is reduced to whether it raises; the order
 * in which the table is scanned is a parameter `scan`.
 */
module Pipeline {
  import opened Wrappers
  import opened JsonValue
  import opened Normalize
  import opened Upsert
  import UpsertFacts
  import opened Validation
  import opened TopicSearch
  import opened WorkFetch

  /** What the API answers: the topic searches and the pages of works for each filter. */
  datatype Api = Api(
    topics: seq<Json>,
    allTopics: seq<Json>,
    fieldPages: seq<seq<Json>>,
    subfieldPages: seq<seq<Json>>)

  /** `query_api`: find the ids, then fetch the works they select. */
  function QuerySpec(api: Api): Result<seq<Json>>
  {
    var ids :- Search(api.topics, api.allTopics);
    Fetch(ids.fieldId, ids.subfieldId, api.fieldPages, api.subfieldPages)
  }

  // ---------------------------------------------------------------------
  // The table as the quality queries see it
  // ---------------------------------------------------------------------

  /** The columns the checks read, from a stored row. */
  function RecordOf(p: Paper): Record
  {
    Record(JStr(p.openalexId), p.doi, p.title, p.citedByCount, p.countriesCount,
           p.institutionsCount, p.citationPercentile, p.primaryTopicScore, p.fwci)
  }

  /** The table scanned in the order `order`, skipping keys it does not hold. */
  function Snapshot(rows: map<string, Row>, order: seq<string>): seq<Record>
  {
    if order == [] then []
    else
      var k := order[|order| - 1];
      Snapshot(rows, order[..|order| - 1]) + (if k in rows then [RecordOf(rows[k].paper)] else [])
  }

  predicate Distinct(order: seq<string>)
  {
    forall i, j | 0 <= i < j < |order| :: order[i] != order[j]
  }

  predicate Unique(keys: seq<Json>)
  {
    forall i, j | 0 <= i < j < |keys| :: keys[i] != keys[j]
  }

  // ---------------------------------------------------------------------
  // Step 4: the inlined quality tests
  // ---------------------------------------------------------------------

  /** The checks whose failure counts against the run; the DOI check is informational. */
  const MustPass: seq<Check> := RequiredFields + CitationCounts + ScoreRanges + [DuplicateOpenalexId]

  /**
   * `run_data_quality_tests`: a raising existence probe leaves the method; a
   * missing table returns 1; otherwise the status is 0 exactly when every
   * check but the DOI one passed.
   */
  function QualitySpec(probe: Probe, table: seq<Record>, fails: Check -> bool): Result<int>
  {
    match probe
    case ProbeRaises => Err(DatabaseError)
    case TableMissing => Ok(1)
    case TablePresent => Ok(if AllPassed(RunEach(MustPass, table, fails)) then 0 else 1)
  }

  // ---------------------------------------------------------------------
  // Step 5: the whole run
  // ---------------------------------------------------------------------

  /**
   * `run`: any exception ends the run with status 1; no works ends it with
   * status 0 before the table is touched; the upload's count is ignored;
   * skipping the tests gives 0, otherwise the tests' status is returned.
   */
  function RunSpec(db: Db, batchSize: int, skipTests: bool, api: Api, setupRaises: bool,
                   rejects: Paper -> bool, probe: Probe,
                   scan: map<string, Row> -> seq<string>, fails: Check -> bool): (Db, int)
  {
    match QuerySpec(api)
    case Err(_) => (db, 1)
    case Ok(papers) =>
      if papers == [] then (db, 0)
      else if setupRaises then (db, 1)
      else
        var up := InsertSpec(db, papers, batchSize, rejects);
        if up.1.Err? then (up.0, 1)
        else if skipTests then (up.0, 0)
        else
          match QualitySpec(probe, Snapshot(up.0.rows, scan(up.0.rows)), fails)
          case Err(_) => (up.0, 1)
          case Ok(code) => (up.0, code)
  }

  class PapersDataPipeline {
    var days: int
    var batchSize: int
    var papers: seq<Json>

    /** `__init__`; the defaults are 3 days and batches of 100. */
    constructor (days: int, batchSize: int)
      ensures this.days == days && this.batchSize == batchSize && papers == []
    {
      this.days := days;
      this.batchSize := batchSize;
      papers := [];
    }

    /** `query_api`: the fetched works are also kept in `papers`. */
    method QueryApi(api: Api) returns (r: Result<seq<Json>>)
      modifies this
      ensures r == QuerySpec(api)
      ensures papers == (if r.Ok? then r.value else old(papers))
      ensures days == old(days) && batchSize == old(batchSize)
    {
      var ids :- SearchAiFieldSubfield(api.topics, api.allTopics);
      var works :- FetchRecentWorks(ids.fieldId, ids.subfieldId, api.fieldPages, api.subfieldPages);
      papers := works;
      r := Ok(works);
    }

    /**
     * `upload_papers`: without an argument the kept works are uploaded; an
     * empty list returns 0 without touching the table.
     */
    method UploadPapers(db: PaperStore, given: Option<seq<Json>>, rejects: Paper -> bool) returns (r: Result<nat>)
      modifies db
      ensures var ps := if given.Some? then given.value else papers;
        (db.State(), r) == (if ps == [] then (old(db.State()), Ok(0)) else InsertSpec(old(db.State()), ps, batchSize, rejects))
    {
      var ps := if given.Some? then given.value else papers;
      if ps == [] {
        return Ok(0);
      }
      r := InsertPapersWithDeduplication(db, ps, batchSize, rejects);
    }

    /**
     * `run_data_quality_tests`, with its running counters. When the table is
     * there, `results` are the ten checks in the validator's order.
     */
    method RunDataQualityTests(probe: Probe, db: PaperStore, scan: map<string, Row> -> seq<string>, fails: Check -> bool)
      returns (r: Result<int>, results: seq<TestResult>)
      ensures r == QualitySpec(probe, Snapshot(db.rows, scan(db.rows)), fails)
      ensures probe == TablePresent ==> results == RunEach(AllChecks, Snapshot(db.rows, scan(db.rows)), fails)
      ensures probe != TablePresent ==> results == []
    {
      results := [];
      if probe == ProbeRaises {
        r := Err(DatabaseError);
        return;
      }
      if probe == TableMissing {
        r := Ok(1);
        return;
      }
      var table := Snapshot(db.rows, scan(db.rows));
      var totalTests, passedTests, failedTests := 0, 0, 0;
      for i := 0 to |MustPass|
        invariant results == RunEach(MustPass[..i], table, fails)
        invariant totalTests == i
        invariant passedTests == PassedCount(results)
        invariant failedTests == totalTests - passedTests
      {
        var test := RunCheck(MustPass[i], table, fails);
        RunEachSnoc(MustPass, i, table, fails);
        PassedCountSnoc(results, test);
        results := results + [test];
        totalTests := totalTests + 1;
        if test.passed {
          passedTests := passedTests + 1;
        } else {
          failedTests := failedTests + 1;
        }
      }
      assert MustPass[..|MustPass|] == MustPass;
      PassedCountAll(results);
      r := Ok(if failedTests == 0 then 0 else 1);
      var doi := RunCheck(DuplicateDoi, table, fails);
      RunEachSnoc(AllChecks, |MustPass|, table, fails);
      assert AllChecks[..|MustPass|] == MustPass && AllChecks[|MustPass|] == DuplicateDoi;
      assert AllChecks[..|MustPass| + 1] == AllChecks;
      results := results + [doi];
      totalTests := totalTests + 1;
      passedTests := passedTests + 1;
    }

    /** `run` */
    method Run(db: PaperStore, skipTests: bool, api: Api, setupRaises: bool, rejects: Paper -> bool,
               probe: Probe, scan: map<string, Row> -> seq<string>, fails: Check -> bool)
      returns (code: int)
      modifies this, db
      ensures (db.State(), code) ==
        RunSpec(old(db.State()), batchSize, skipTests, api, setupRaises, rejects, probe, scan, fails)
      ensures papers == (if QuerySpec(api).Ok? then QuerySpec(api).value else old(papers))
      ensures days == old(days) && batchSize == old(batchSize)
    {
      var fetched := QueryApi(api);
      if fetched.Err? {
        return 1;
      }
      var ps := fetched.value;
      if ps == [] {
        return 0;
      }
      if setupRaises {
        return 1;
      }
      var uploaded := UploadPapers(db, Some(ps), rejects);
      if uploaded.Err? {
        return 1;
      }
      if skipTests {
        return 0;
      }
      var quality, _ := RunDataQualityTests(probe, db, scan, fails);
      code := if quality.Ok? then quality.value else 1;
    }
  }

  // ---------------------------------------------------------------------
  // Lemmas: the quality status
  // ---------------------------------------------------------------------

  /**
   * The tests raise exactly when the probe does, return 0 or 1 otherwise,
   * and return 0 exactly when the table is there and every check but the
   * DOI one ran and counted zero.
   */
  lemma QualityExitZero(probe: Probe, table: seq<Record>, fails: Check -> bool)
    ensures QualitySpec(probe, table, fails).Err? <==> probe == ProbeRaises
    ensures QualitySpec(probe, table, fails).Ok? ==> QualitySpec(probe, table, fails).value in {0, 1}
    ensures QualitySpec(probe, table, fails) == Ok(0) <==>
      probe == TablePresent && forall c | c in MustPass :: !fails(c) && Count(c, table) == 0
  {
    var rs := RunEach(MustPass, table, fails);
    if probe == TablePresent && AllPassed(rs) {
      forall c | c in MustPass ensures !fails(c) && Count(c, table) == 0 {
        var i :| 0 <= i < |MustPass| && MustPass[i] == c;
        assert rs[i].passed;
      }
    }
  }

  /** A table the validator script accepts is accepted by the pipeline's tests. */
  lemma ValidatorStricter(table: seq<Record>, fails: Check -> bool)
    requires ValidationExit(TablePresent, table, fails) == 0
    ensures QualitySpec(TablePresent, table, fails) == Ok(0)
  {
    ValidationExitZero(TablePresent, table, fails);
    QualityExitZero(TablePresent, table, fails);
    forall c | c in MustPass ensures c in AllChecks {
    }
  }

  /** Two clean rows with their own ids and the same DOI. */
  function SharedDoi(): seq<Record>
  {
    [Record(JStr("W1"), JStr("10.1/x"), JStr("A"), JInt(0), JInt(0), JInt(0), JNull, JNull, JNull),
     Record(JStr("W2"), JStr("10.1/x"), JStr("B"), JInt(0), JInt(0), JInt(0), JNull, JNull, JNull)]
  }

  lemma SharedDoiKeys()
    ensures IdKeys(SharedDoi()) == [JStr("W1"), JStr("W2")]
    ensures DoiKeys(SharedDoi()) == [JStr("10.1/x"), JStr("10.1/x")]
  {
    var t := SharedDoi();
    assert t[..1] == [t[0]];
    assert [t[0]][..0] == [];
    assert IdKeys([t[0]]) == [JStr("W1")];
    assert DoiKeys([t[0]]) == [JStr("10.1/x")];
  }

  lemma SharedDoiClean(c: Check)
    requires c in MustPass
    ensures Count(c, SharedDoi()) == 0
  {
    if c == DuplicateOpenalexId {
      SharedDoiIdsDistinct();
    } else {
      SharedDoiRowsClean(c);
    }
  }

  lemma SharedDoiIdsDistinct()
    ensures DupGroups(IdKeys(SharedDoi())) == 0
  {
    SharedDoiKeys();
    DupGroupsZero(IdKeys(SharedDoi()));
  }

  lemma SharedDoiRowsClean(c: Check)
    ensures CountRows(c, SharedDoi()) == 0
  {
    var t := SharedDoi();
    CountRowsPair(c, t);
    assert !Flags(c, t[0]) && !Flags(c, t[1]);
  }

  /** A table of two rows counts each flagged row once. */
  lemma CountRowsPair(c: Check, t: seq<Record>)
    requires |t| == 2
    ensures CountRows(c, t) == (if Flags(c, t[0]) then 1 else 0) + (if Flags(c, t[1]) then 1 else 0)
  {
    assert t[..1] == [t[0]];
    assert [t[0]][..0] == [];
  }

  /**
   * The converse fails: two clean rows sharing a DOI pass the pipeline's
   * tests and fail the validator script.
   */
  lemma DuplicateDoiInformational()
    ensures QualitySpec(TablePresent, SharedDoi(), c => false) == Ok(0)
    ensures ValidationExit(TablePresent, SharedDoi(), c => false) == 1
  {
    var t := SharedDoi();
    var none: Check -> bool := c => false;
    forall c | c in MustPass ensures !none(c) && Count(c, t) == 0 {
      SharedDoiClean(c);
    }
    QualityExitZero(TablePresent, t, none);
    SharedDoiKeys();
    DupGroupsZero(DoiKeys(t));
    assert DoiKeys(t)[0] == DoiKeys(t)[1];
    ValidationExitZero(TablePresent, t, none);
    assert DuplicateDoi in AllChecks;
  }

  // ---------------------------------------------------------------------
  // Lemmas: the table after an upload
  // ---------------------------------------------------------------------

  /** Under a consistent table, every scanned id is the string of a key scanned and held. */
  lemma {:induction false} SnapshotKeys(db: Db, order: seq<string>)
    requires ValidDb(db)
    ensures forall x | x in IdKeys(Snapshot(db.rows, order)) :: x.JStr? && x.s in db.rows && x.s in order
  {
    if order != [] {
      var init := order[..|order| - 1];
      var k := order[|order| - 1];
      var before := Snapshot(db.rows, init);
      SnapshotKeys(db, init);
      forall x | x in init ensures x in order {
        var i :| 0 <= i < |init| && init[i] == x;
        assert order[i] == x;
      }
      if k in db.rows {
        var rec := RecordOf(db.rows[k].paper);
        assert (before + [rec])[..|before|] == before;
        assert IdKeys(before + [rec]) == IdKeys(before) + [JStr(k)];
      } else {
        assert before + [] == before;
      }
    }
  }

  /** Scanning each key at most once gives pairwise distinct ids. */
  lemma {:induction false} SnapshotDistinct(db: Db, order: seq<string>)
    requires ValidDb(db) && Distinct(order)
    ensures Unique(IdKeys(Snapshot(db.rows, order)))
  {
    if order != [] {
      var init := order[..|order| - 1];
      var k := order[|order| - 1];
      var before := Snapshot(db.rows, init);
      assert Distinct(init) by {
        forall i, j | 0 <= i < j < |init| ensures init[i] != init[j] {
          assert init[i] == order[i] && init[j] == order[j];
        }
      }
      SnapshotDistinct(db, init);
      if k in db.rows {
        var rec := RecordOf(db.rows[k].paper);
        SnapshotKeys(db, init);
        assert k !in init by {
          forall i | 0 <= i < |init| ensures init[i] != k {
            assert init[i] == order[i];
          }
        }
        assert (before + [rec])[..|before|] == before;
        var prev := IdKeys(before);
        var keys := prev + [JStr(k)];
        assert IdKeys(before + [rec]) == keys;
        forall i, j | 0 <= i < j < |keys| ensures keys[i] != keys[j] {
          if j == |prev| {
            assert keys[i] == prev[i] && prev[i] in prev;
            assert keys[j] == JStr(k);
          } else {
            assert keys[i] == prev[i] && keys[j] == prev[j];
          }
        }
        assert Unique(keys);
      } else {
        assert before + [] == before;
        assert Snapshot(db.rows, order) == before;
      }
    }
  }

  /** A consistent table with no empty key shows no missing `openalex_id`. */
  lemma {:induction false} SnapshotNoMissing(db: Db, order: seq<string>)
    requires ValidDb(db) && "" !in db.rows
    ensures Count(MissingOpenalexId, Snapshot(db.rows, order)) == 0
  {
    if order != [] {
      var init := order[..|order| - 1];
      var k := order[|order| - 1];
      var before := Snapshot(db.rows, init);
      SnapshotNoMissing(db, init);
      if k in db.rows {
        var rec := RecordOf(db.rows[k].paper);
        assert (before + [rec])[..|before|] == before;
        assert !Flags(MissingOpenalexId, rec);
      } else {
        assert before + [] == before;
      }
    }
  }

  /** An upload never creates a row under the empty key, and keeps the table consistent. */
  lemma UploadKeepsKeysNonEmpty(db: Db, papers: seq<Json>, batchSize: int, rejects: Paper -> bool)
    requires ValidDb(db) && "" !in db.rows
    ensures ValidDb(InsertSpec(db, papers, batchSize, rejects).0)
    ensures "" !in InsertSpec(db, papers, batchSize, rejects).0.rows
  {
    UpsertFacts.InsertStamps(db, papers, batchSize, rejects);
    if batchSize > 0 {
      var ps := PartitionTotal(papers).0;
      var accepted := UpsertFacts.Accepted(ps, rejects);
      UpsertFacts.PartitionAccounts(papers);
      UpsertFacts.AcceptedFrom(ps, rejects);
      forall p | p in accepted ensures p.openalexId != "" {
        var i :| 0 <= i < |ps| && ps[i] == p;
      }
      assert "" !in UpsertFacts.Keys(accepted);
    }
  }

  /**
   * After an upload into a consistent table without empty keys, a scan that
   * visits each key once finds no missing and no duplicate `openalex_id`.
   */
  lemma UploadedIdsClean(db: Db, papers: seq<Json>, batchSize: int, rejects: Paper -> bool, order: seq<string>)
    requires ValidDb(db) && "" !in db.rows && Distinct(order)
    ensures var t := Snapshot(InsertSpec(db, papers, batchSize, rejects).0.rows, order);
      Count(MissingOpenalexId, t) == 0 && Count(DuplicateOpenalexId, t) == 0
  {
    var after := InsertSpec(db, papers, batchSize, rejects).0;
    UploadKeepsKeysNonEmpty(db, papers, batchSize, rejects);
    SnapshotNoMissing(after, order);
    SnapshotDistinct(after, order);
    var t := Snapshot(after.rows, order);
    DupGroupsZero(IdKeys(t));
    assert Count(DuplicateOpenalexId, t) == DupGroups(IdKeys(t));
  }

  // ---------------------------------------------------------------------
  // Lemmas: the whole run
  // ---------------------------------------------------------------------

  /** Every fetched work is a dict. */
  lemma FetchedAreObjects(api: Api)
    requires QuerySpec(api).Ok?
    ensures forall i | 0 <= i < |QuerySpec(api).value| :: QuerySpec(api).value[i].JObj?
  {
    var ids := Search(api.topics, api.allTopics).value;
    FetchResult(ids.fieldId, ids.subfieldId, api.fieldPages, api.subfieldPages);
  }

  /**
   * On what the API returns, the processing loop as written agrees with the
   * corrected one: the non-dict record that makes it abort cannot come from
   * the API.
   */
  lemma FetchedNeverAbort(api: Api)
    requires QuerySpec(api).Ok?
    ensures Partition(QuerySpec(api).value) == Ok(PartitionTotal(QuerySpec(api).value))
  {
    FetchedAreObjects(api);
    UpsertFacts.PartitionAgrees(QuerySpec(api).value);
  }

  /**
   * The run's status is 0 or 1 and the table stays consistent. A failed
   * query exits 1 and an empty one exits 0, both with the table untouched;
   * so does table setup raising, with 1. With works to upload and no setup
   * error, skipping the tests exits 0 for any positive batch size, and a
   * batch size of zero exits 1 with the table untouched. Otherwise the
   * status is that of the tests on the uploaded table, and 1 when they
   * raise, as they do when the existence probe raises.
   */
  lemma RunOutcome(db: Db, batchSize: int, skipTests: bool, api: Api, setupRaises: bool,
                   rejects: Paper -> bool, probe: Probe,
                   scan: map<string, Row> -> seq<string>, fails: Check -> bool)
    requires ValidDb(db)
    ensures var out := RunSpec(db, batchSize, skipTests, api, setupRaises, rejects, probe, scan, fails);
      (out.1 == 0 || out.1 == 1) && ValidDb(out.0) &&
      (QuerySpec(api).Err? ==> out == (db, 1)) &&
      (QuerySpec(api) == Ok([]) ==> out == (db, 0)) &&
      (QuerySpec(api).Ok? && QuerySpec(api).value != [] && setupRaises ==> out == (db, 1)) &&
      (QuerySpec(api).Ok? && QuerySpec(api).value != [] && !setupRaises ==>
        (skipTests && batchSize > 0 ==> out.1 == 0) &&
        (batchSize == 0 ==> out == (db, 1))) &&
      (QuerySpec(api).Ok? && QuerySpec(api).value != [] && !setupRaises && batchSize != 0 && !skipTests ==>
        var up := InsertSpec(db, QuerySpec(api).value, batchSize, rejects);
        var q := QualitySpec(probe, Snapshot(up.0.rows, scan(up.0.rows)), fails);
        out == (up.0, if q.Ok? then q.value else 1) &&
        (probe == ProbeRaises ==> out.1 == 1))
  {
    if QuerySpec(api).Ok? && QuerySpec(api).value != [] && !setupRaises {
      var ps := QuerySpec(api).value;
      UpsertFacts.InsertStamps(db, ps, batchSize, rejects);
      var up := InsertSpec(db, ps, batchSize, rejects);
      QualityExitZero(probe, Snapshot(up.0.rows, scan(up.0.rows)), fails);
    }
  }
}
