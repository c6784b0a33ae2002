/**
 * The data-quality validator of `data_quality_tests.py`: ten SQL checks over
 * the `papers` table, each a count that should be zero, and the pass / fail /
 * error bookkeeping of `PapersDataValidator`.
 *
 * The table is a sequence of rows, so that the duplicates the checks look for
 * can be represented; only the nine columns the checks read are kept. Whether
 * a query raises (a lost connection, a missing column) is not visible, so it
 * is a parameter `fails(c)` per check.
 */
module Validation {
  import opened Wrappers
  import opened JsonValue

  /** The columns of one table row that the checks read. */
  datatype Record = Record(
    openalexId: Json, doi: Json, title: Json,
    citedByCount: Json, countriesCount: Json, institutionsCount: Json,
    citationPercentile: Json, primaryTopicScore: Json, fwci: Json)

  // ---------------------------------------------------------------------
  // SQL predicates
  // ---------------------------------------------------------------------

  /** `v IS NULL OR v = ''` */
  predicate NullOrEmpty(v: Json)
  {
    v == JNull || v == JStr("")
  }

  /**
   * SQL `v < bound` on a numeric column. NULL compares as unknown, which a
   * WHERE clause treats as false. A row keeps the JSON value it was given,
   * so a value the column would have cast on insert (a numeric string, a
   * float in an INTEGER column) is not cast here.
   */
  predicate Below(v: Json, bound: real)
  {
    match v
    case JInt(i) => (i as real) < bound
    case JNum(r) => r < bound
    case _ => false
  }

  /** SQL `v > bound` on a numeric column, false on NULL. */
  predicate Above(v: Json, bound: real)
  {
    match v
    case JInt(i) => (i as real) > bound
    case JNum(r) => r > bound
    case _ => false
  }

  /** `v IS NOT NULL AND (v < 0.0 OR v > 1.0)` */
  predicate OutsideUnit(v: Json)
  {
    v != JNull && (Below(v, 0.0) || Above(v, 1.0))
  }

  // ---------------------------------------------------------------------
  // The ten checks
  // ---------------------------------------------------------------------

  datatype Check =
    | MissingOpenalexId | MissingTitle
    | NegativeCitedByCount | NegativeCountriesCount | NegativeInstitutionsCount
    | InvalidCitationPercentile | InvalidPrimaryTopicScore | NegativeFwci
    | DuplicateOpenalexId | DuplicateDoi

  function Name(c: Check): string
  {
    match c
    case MissingOpenalexId => "Missing openalex_id"
    case MissingTitle => "Missing title"
    case NegativeCitedByCount => "Negative cited_by_count"
    case NegativeCountriesCount => "Negative countries_count"
    case NegativeInstitutionsCount => "Negative institutions_count"
    case InvalidCitationPercentile => "Invalid citation_percentile range"
    case InvalidPrimaryTopicScore => "Invalid primary_topic_score range"
    case NegativeFwci => "Negative fwci"
    case DuplicateOpenalexId => "Duplicate openalex_id"
    case DuplicateDoi => "Duplicate DOI"
  }

  /** The four groups, in the order `run_all_tests` runs them. */
  const RequiredFields: seq<Check> := [MissingOpenalexId, MissingTitle]
  const CitationCounts: seq<Check> := [NegativeCitedByCount, NegativeCountriesCount, NegativeInstitutionsCount]
  const ScoreRanges: seq<Check> := [InvalidCitationPercentile, InvalidPrimaryTopicScore, NegativeFwci]
  const Duplicates: seq<Check> := [DuplicateOpenalexId, DuplicateDoi]
  const AllChecks: seq<Check> := RequiredFields + CitationCounts + ScoreRanges + Duplicates

  /** The WHERE clause of a check that counts rows. */
  predicate Flags(c: Check, r: Record)
  {
    match c
    case MissingOpenalexId => NullOrEmpty(r.openalexId)
    case MissingTitle => NullOrEmpty(r.title)
    case NegativeCitedByCount => Below(r.citedByCount, 0.0)
    case NegativeCountriesCount => Below(r.countriesCount, 0.0)
    case NegativeInstitutionsCount => Below(r.institutionsCount, 0.0)
    case InvalidCitationPercentile => OutsideUnit(r.citationPercentile)
    case InvalidPrimaryTopicScore => OutsideUnit(r.primaryTopicScore)
    case NegativeFwci => r.fwci != JNull && Below(r.fwci, 0.0)
    case DuplicateOpenalexId => false
    case DuplicateDoi => false
  }

  /** `SELECT COUNT(*) FROM papers WHERE ...` */
  function CountRows(c: Check, rows: seq<Record>): (n: nat)
    ensures n <= |rows|
  {
    if rows == [] then 0
    else CountRows(c, rows[..|rows| - 1]) + (if Flags(c, rows[|rows| - 1]) then 1 else 0)
  }

  /** How many times `k` occurs in `keys`: `COUNT(*)` of one GROUP BY group. */
  function Occ(keys: seq<Json>, k: Json): nat
  {
    if keys == [] then 0
    else Occ(keys[..|keys| - 1], k) + (if keys[|keys| - 1] == k then 1 else 0)
  }

  /** `SELECT COUNT(*) FROM (... GROUP BY key HAVING COUNT(*) > 1)` */
  function DupGroups(keys: seq<Json>): nat
  {
    |set k | k in keys && Occ(keys, k) > 1|
  }

  /** The `openalex_id` values with `IS NOT NULL`, in table order. */
  function IdKeys(rows: seq<Record>): (keys: seq<Json>)
    ensures forall k | k in keys :: k != JNull
  {
    if rows == [] then []
    else IdKeys(rows[..|rows| - 1]) + (if rows[|rows| - 1].openalexId != JNull then [rows[|rows| - 1].openalexId] else [])
  }

  /** The `doi` values with `IS NOT NULL AND doi != ''`, in table order. */
  function DoiKeys(rows: seq<Record>): (keys: seq<Json>)
    ensures forall k | k in keys :: !NullOrEmpty(k)
  {
    if rows == [] then []
    else DoiKeys(rows[..|rows| - 1]) + (if !NullOrEmpty(rows[|rows| - 1].doi) then [rows[|rows| - 1].doi] else [])
  }

  /** The value the query of check `c` returns on `rows`. */
  function Count(c: Check, rows: seq<Record>): nat
  {
    match c
    case DuplicateOpenalexId => DupGroups(IdKeys(rows))
    case DuplicateDoi => DupGroups(DoiKeys(rows))
    case _ => CountRows(c, rows)
  }

  // ---------------------------------------------------------------------
  // One test: `run_test`
  // ---------------------------------------------------------------------

  datatype Status = Pass | Fail | Error

  /**
   * What a query produced: the first value of the fetched row (`None` when
   * `fetchone()` returns no row), or an exception.
   */
  datatype Outcome = Fetched(first: Option<int>) | Raises

  /** The result dictionary; `count` is absent after an error. */
  datatype TestResult = TestResult(name: string, status: Status, count: Option<int>, passed: bool)

  /** `(count == 0) if expect_zero else (count > 0)` */
  predicate PassRule(count: int, expectZero: bool)
  {
    if expectZero then count == 0 else count > 0
  }

  /**
   * The result `run_test` builds: an exception is an ERROR that did not pass
   * and has no count; a missing row counts as 0; otherwise the pass rule
   * decides between PASS and FAIL.
   */
  function Evaluate(name: string, outcome: Outcome, expectZero: bool): (r: TestResult)
    ensures r.name == name
    ensures r.passed <==> r.status == Pass
    ensures r.status == Error <==> outcome.Raises?
    ensures r.count.None? <==> outcome.Raises?
    ensures outcome == Fetched(None) ==> r.count == Some(0)
    ensures outcome.Fetched? && outcome.first.Some? ==> r.count == outcome.first
    ensures r.passed <==> outcome.Fetched? && PassRule(r.count.value, expectZero)
  {
    match outcome
    case Raises => TestResult(name, Error, None, false)
    case Fetched(first) =>
      var count := if first.Some? then first.value else 0;
      var passed := PassRule(count, expectZero);
      TestResult(name, if passed then Pass else Fail, Some(count), passed)
  }

  /** Check `c` run against `rows`: COUNT(*) always returns a row. */
  function QueryOutcome(c: Check, rows: seq<Record>, fails: Check -> bool): Outcome
  {
    if fails(c) then Raises else Fetched(Some(Count(c, rows)))
  }

  /** The result of running check `c` with the default `expect_zero = True`. */
  function RunCheck(c: Check, rows: seq<Record>, fails: Check -> bool): TestResult
  {
    Evaluate(Name(c), QueryOutcome(c, rows, fails), true)
  }

  /** The results of running the checks `cs` in order. */
  function RunEach(cs: seq<Check>, rows: seq<Record>, fails: Check -> bool): (rs: seq<TestResult>)
    ensures |rs| == |cs|
  {
    seq(|cs|, i requires 0 <= i < |cs| => RunCheck(cs[i], rows, fails))
  }

  /** How many results passed. */
  function PassedCount(results: seq<TestResult>): (n: nat)
    ensures n <= |results|
  {
    if results == [] then 0
    else PassedCount(results[..|results| - 1]) + (if results[|results| - 1].passed then 1 else 0)
  }

  predicate AllPassed(results: seq<TestResult>)
  {
    forall i | 0 <= i < |results| :: results[i].passed
  }

  // ---------------------------------------------------------------------
  // The validator object
  // ---------------------------------------------------------------------

  /** What the table-existence probe of `run_all_tests` sees. */
  datatype Probe = TablePresent | TableMissing | ProbeRaises

  class PapersDataValidator {
    var results: seq<TestResult>
    var totalTests: int
    var passedTests: int
    var failedTests: int

    /** Every test is counted once, as passed or as failed, and recorded. */
    ghost predicate Valid()
      reads this
    {
      totalTests == |results| &&
      passedTests == PassedCount(results) &&
      failedTests == totalTests - passedTests
    }

    constructor ()
      ensures results == [] && totalTests == 0 && passedTests == 0 && failedTests == 0
      ensures Valid()
    {
      results := [];
      totalTests := 0;
      passedTests := 0;
      failedTests := 0;
    }

    /**
     * `run_test`: counts the test, evaluates the query's outcome, counts it
     * as passed or failed and appends the result.
     */
    method RunTest(name: string, outcome: Outcome, expectZero: bool) returns (r: TestResult)
      requires Valid()
      modifies this
      ensures r == Evaluate(name, outcome, expectZero)
      ensures results == old(results) + [r]
      ensures totalTests == old(totalTests) + 1
      ensures passedTests == old(passedTests) + (if r.passed then 1 else 0)
      ensures failedTests == old(failedTests) + (if r.passed then 0 else 1)
      ensures Valid()
    {
      totalTests := totalTests + 1;
      match outcome {
      case Raises =>
        failedTests := failedTests + 1;
        r := TestResult(name, Error, None, false);
      case Fetched(first) =>
        var count := if first.Some? then first.value else 0;
        var passed := if expectZero then count == 0 else count > 0;
        var status;
        if passed {
          passedTests := passedTests + 1;
          status := Pass;
        } else {
          failedTests := failedTests + 1;
          status := Fail;
        }
        r := TestResult(name, status, Some(count), passed);
      }
      results := results + [r];
      assert results[..|results| - 1] == old(results);
    }

    /** Runs one check against the table. */
    method Run(c: Check, rows: seq<Record>, fails: Check -> bool)
      requires Valid()
      modifies this
      ensures results == old(results) + [RunCheck(c, rows, fails)]
      ensures Valid()
    {
      var outcome := if fails(c) then Raises else Fetched(Some(Count(c, rows)));
      var _ := RunTest(Name(c), outcome, true);
    }

    /** `test_missing_required_fields` */
    method TestMissingRequiredFields(rows: seq<Record>, fails: Check -> bool)
      requires Valid()
      modifies this
      ensures results == old(results) + RunEach(RequiredFields, rows, fails)
      ensures Valid()
    {
      Run(MissingOpenalexId, rows, fails);
      Run(MissingTitle, rows, fails);
    }

    /** `test_citation_count_validation` */
    method TestCitationCountValidation(rows: seq<Record>, fails: Check -> bool)
      requires Valid()
      modifies this
      ensures results == old(results) + RunEach(CitationCounts, rows, fails)
      ensures Valid()
    {
      ghost var start := results;
      Run(NegativeCitedByCount, rows, fails);
      Run(NegativeCountriesCount, rows, fails);
      Run(NegativeInstitutionsCount, rows, fails);
      RunEachThree(CitationCounts, rows, fails);
      assert results == start + RunEach(CitationCounts, rows, fails);
    }

    /** `test_score_range_validation` */
    method TestScoreRangeValidation(rows: seq<Record>, fails: Check -> bool)
      requires Valid()
      modifies this
      ensures results == old(results) + RunEach(ScoreRanges, rows, fails)
      ensures Valid()
    {
      ghost var start := results;
      Run(InvalidCitationPercentile, rows, fails);
      Run(InvalidPrimaryTopicScore, rows, fails);
      Run(NegativeFwci, rows, fails);
      RunEachThree(ScoreRanges, rows, fails);
      assert results == start + RunEach(ScoreRanges, rows, fails);
    }

    /**
     * `test_duplicate_detection`: both checks go through `run_test`, so
     * duplicate DOIs fail the run here.
     */
    method TestDuplicateDetection(rows: seq<Record>, fails: Check -> bool)
      requires Valid()
      modifies this
      ensures results == old(results) + RunEach(Duplicates, rows, fails)
      ensures Valid()
    {
      Run(DuplicateOpenalexId, rows, fails);
      Run(DuplicateDoi, rows, fails);
    }

    /** `print_results`: 0 exactly when every recorded test passed. */
    method PrintResults() returns (code: int)
      requires Valid()
      ensures code == (if failedTests == 0 then 0 else 1)
      ensures code == 0 <==> AllPassed(results)
    {
      PassedCountAll(results);
      if failedTests == 0 {
        code := 0;
      } else {
        code := 1;
      }
    }

    /**
     * `run_all_tests`: when the table is missing, or the probe raises, it
     * returns 1 and runs nothing; otherwise it runs the ten checks in order
     * and returns the summary's exit code.
     */
    method RunAllTests(probe: Probe, rows: seq<Record>, fails: Check -> bool) returns (code: int)
      requires Valid()
      modifies this
      ensures probe != TablePresent ==>
        code == 1 && results == old(results) && totalTests == old(totalTests) &&
        passedTests == old(passedTests) && failedTests == old(failedTests)
      ensures probe == TablePresent ==>
        results == old(results) + RunEach(AllChecks, rows, fails) &&
        code == (if AllPassed(results) then 0 else 1)
      ensures Valid()
    {
      if probe != TablePresent {
        return 1;
      }
      TestMissingRequiredFields(rows, fails);
      TestCitationCountValidation(rows, fails);
      TestScoreRangeValidation(rows, fails);
      TestDuplicateDetection(rows, fails);
      RunEachAppend(RequiredFields, CitationCounts, rows, fails);
      RunEachAppend(RequiredFields + CitationCounts, ScoreRanges, rows, fails);
      RunEachAppend(RequiredFields + CitationCounts + ScoreRanges, Duplicates, rows, fails);
      code := PrintResults();
    }
  }

  /**
   * The exit status of the script: a fresh validator runs all tests once.
   */
  function ValidationExit(probe: Probe, rows: seq<Record>, fails: Check -> bool): int
  {
    if probe != TablePresent then 1
    else if AllPassed(RunEach(AllChecks, rows, fails)) then 0 else 1
  }

  // ---------------------------------------------------------------------
  // Lemmas
  // ---------------------------------------------------------------------

  lemma RunEachAppend(a: seq<Check>, b: seq<Check>, rows: seq<Record>, fails: Check -> bool)
    ensures RunEach(a + b, rows, fails) == RunEach(a, rows, fails) + RunEach(b, rows, fails)
  {
  }

  lemma RunEachThree(cs: seq<Check>, rows: seq<Record>, fails: Check -> bool)
    requires |cs| == 3
    ensures RunEach(cs, rows, fails) ==
      [RunCheck(cs[0], rows, fails), RunCheck(cs[1], rows, fails), RunCheck(cs[2], rows, fails)]
  {
  }

  lemma RunEachSnoc(cs: seq<Check>, i: nat, rows: seq<Record>, fails: Check -> bool)
    requires i < |cs|
    ensures RunEach(cs[..i + 1], rows, fails) == RunEach(cs[..i], rows, fails) + [RunCheck(cs[i], rows, fails)]
  {
    assert cs[..i + 1] == cs[..i] + [cs[i]];
    RunEachAppend(cs[..i], [cs[i]], rows, fails);
    assert RunEach([cs[i]], rows, fails)[0] == RunCheck(cs[i], rows, fails);
  }

  lemma PassedCountSnoc(results: seq<TestResult>, r: TestResult)
    ensures PassedCount(results + [r]) == PassedCount(results) + (if r.passed then 1 else 0)
  {
    assert (results + [r])[..|results|] == results;
  }

  /** The passed counter equals the number of results exactly when all passed. */
  lemma {:induction false} PassedCountAll(results: seq<TestResult>)
    ensures PassedCount(results) == |results| <==> AllPassed(results)
  {
    if results != [] {
      var init := results[..|results| - 1];
      PassedCountAll(init);
      if PassedCount(results) == |results| {
        assert PassedCount(init) == |init|;
        forall i | 0 <= i < |results| ensures results[i].passed {
          if i < |init| {
            assert results[i] == init[i];
          }
        }
      } else {
        if results[|results| - 1].passed {
          assert !AllPassed(init);
          var i :| 0 <= i < |init| && !init[i].passed;
          assert results[i] == init[i];
        }
      }
    }
  }

  /** A row check counts zero exactly when no row matches its WHERE clause. */
  lemma {:induction false} CountRowsZero(c: Check, rows: seq<Record>)
    ensures CountRows(c, rows) == 0 <==> forall i | 0 <= i < |rows| :: !Flags(c, rows[i])
  {
    if rows != [] {
      var init := rows[..|rows| - 1];
      CountRowsZero(c, init);
      assert forall i | 0 <= i < |init| :: rows[i] == init[i];
    }
  }

  /** A key occurs in `keys` exactly when its group is not empty. */
  lemma {:induction false} OccPositive(keys: seq<Json>, k: Json)
    ensures Occ(keys, k) > 0 <==> k in keys
  {
    if keys != [] {
      var init := keys[..|keys| - 1];
      OccPositive(init, k);
      assert keys == init + [keys[|keys| - 1]];
    }
  }

  /** Two positions holding `k` make its group larger than one. */
  lemma {:induction false} OccFromPair(keys: seq<Json>, i: nat, j: nat, k: Json)
    requires i < j < |keys| && keys[i] == k && keys[j] == k
    ensures Occ(keys, k) > 1
  {
    var n := |keys| - 1;
    var init := keys[..n];
    if j < n {
      OccFromPair(init, i, j, k);
    } else {
      assert init[i] == k;
      OccPositive(init, k);
    }
  }

  /** A group larger than one has two positions holding its key. */
  lemma {:induction false} OccToPair(keys: seq<Json>, k: Json)
    requires Occ(keys, k) > 1
    ensures exists i, j | 0 <= i < j < |keys| :: keys[i] == k && keys[j] == k
  {
    var n := |keys| - 1;
    var init := keys[..n];
    if Occ(init, k) > 1 {
      OccToPair(init, k);
      var i, j :| 0 <= i < j < |init| && init[i] == k && init[j] == k;
      assert keys[i] == k && keys[j] == k;
    } else {
      OccPositive(init, k);
      var i :| 0 <= i < |init| && init[i] == k;
      assert keys[i] == k && keys[n] == k;
    }
  }

  /** No group has more than one member exactly when the keys are pairwise distinct. */
  lemma DupGroupsZero(keys: seq<Json>)
    ensures DupGroups(keys) == 0 <==>
      forall i, j | 0 <= i < j < |keys| :: keys[i] != keys[j]
  {
    var groups := set k | k in keys && Occ(keys, k) > 1;
    if exists i, j | 0 <= i < j < |keys| :: keys[i] == keys[j] {
      var i, j :| 0 <= i < j < |keys| && keys[i] == keys[j];
      OccFromPair(keys, i, j, keys[i]);
      assert keys[i] in groups;
    }
    if groups != {} {
      var k :| k in groups;
      OccToPair(keys, k);
    }
  }

  lemma IdKeysSnoc(rows: seq<Record>, r: Record)
    ensures IdKeys(rows + [r]) == IdKeys(rows) + (if r.openalexId != JNull then [r.openalexId] else [])
  {
    assert (rows + [r])[..|rows|] == rows;
  }

  lemma DupGroupsPair(w: Json)
    ensures DupGroups([w, w]) == 1
  {
    var keys := [w, w];
    OccFromPair(keys, 0, 1, w);
    var groups := set k | k in keys && Occ(keys, k) > 1;
    assert w in groups;
    assert forall k | k in groups :: k == w;
    assert groups == {w};
  }

  /** Two rows with the same non-NULL `openalex_id` make one duplicate group. */
  lemma TwoCopies(r1: Record, r2: Record)
    requires r1.openalexId == r2.openalexId && r1.openalexId != JNull
    ensures Count(DuplicateOpenalexId, [r1, r2]) == 1
  {
    IdKeysSame(r1, r2);
    DupGroupsPair(r1.openalexId);
  }

  lemma IdKeysSame(r1: Record, r2: Record)
    requires r1.openalexId == r2.openalexId && r1.openalexId != JNull
    ensures IdKeys([r1, r2]) == [r1.openalexId, r1.openalexId]
  {
    assert [r1, r2][..1] == [r1];
    assert [r1][..0] == [];
    assert IdKeys([r1]) == [r1.openalexId];
  }

  /**
   * The script exits 0 exactly when the table exists, no query raises and
   * every check counts zero.
   */
  lemma ValidationExitZero(probe: Probe, rows: seq<Record>, fails: Check -> bool)
    ensures ValidationExit(probe, rows, fails) == 0 <==>
      probe == TablePresent && forall c | c in AllChecks :: !fails(c) && Count(c, rows) == 0
  {
    var rs := RunEach(AllChecks, rows, fails);
    if probe == TablePresent && AllPassed(rs) {
      forall c | c in AllChecks ensures !fails(c) && Count(c, rows) == 0 {
        var i :| 0 <= i < |AllChecks| && AllChecks[i] == c;
        assert rs[i].passed;
      }
    }
  }

  /** After a clean run, each check counted zero and none raised. */
  lemma CleanCount(c: Check, rows: seq<Record>, fails: Check -> bool)
    requires ValidationExit(TablePresent, rows, fails) == 0 && c in AllChecks
    ensures !fails(c) && Count(c, rows) == 0
  {
    ValidationExitZero(TablePresent, rows, fails);
  }

  /**
   * What a clean run says about each row: it has an id and a title, its
   * counters are not negative, its scores lie in [0, 1] and its `fwci` is
   * not negative.
   */
  lemma CleanRows(rows: seq<Record>, fails: Check -> bool)
    requires ValidationExit(TablePresent, rows, fails) == 0
    ensures forall i | 0 <= i < |rows| ::
      !NullOrEmpty(rows[i].openalexId) && !NullOrEmpty(rows[i].title) &&
      !Below(rows[i].citedByCount, 0.0) && !Below(rows[i].countriesCount, 0.0) &&
      !Below(rows[i].institutionsCount, 0.0) &&
      !OutsideUnit(rows[i].citationPercentile) && !OutsideUnit(rows[i].primaryTopicScore) &&
      !(rows[i].fwci != JNull && Below(rows[i].fwci, 0.0))
  {
    forall i | 0 <= i < |rows|
      ensures !NullOrEmpty(rows[i].openalexId) && !NullOrEmpty(rows[i].title) &&
        !Below(rows[i].citedByCount, 0.0) && !Below(rows[i].countriesCount, 0.0) &&
        !Below(rows[i].institutionsCount, 0.0) &&
        !OutsideUnit(rows[i].citationPercentile) && !OutsideUnit(rows[i].primaryTopicScore) &&
        !(rows[i].fwci != JNull && Below(rows[i].fwci, 0.0))
    {
      CleanFlags(MissingOpenalexId, rows, fails, i);
      CleanFlags(MissingTitle, rows, fails, i);
      CleanFlags(NegativeCitedByCount, rows, fails, i);
      CleanFlags(NegativeCountriesCount, rows, fails, i);
      CleanFlags(NegativeInstitutionsCount, rows, fails, i);
      CleanFlags(InvalidCitationPercentile, rows, fails, i);
      CleanFlags(InvalidPrimaryTopicScore, rows, fails, i);
      CleanFlags(NegativeFwci, rows, fails, i);
    }
  }

  /** After a clean run, no row is flagged by any check. */
  lemma CleanFlags(c: Check, rows: seq<Record>, fails: Check -> bool, i: nat)
    requires ValidationExit(TablePresent, rows, fails) == 0 && i < |rows|
    ensures !Flags(c, rows[i])
  {
    if c != DuplicateOpenalexId && c != DuplicateDoi {
      var k := match c
        case MissingOpenalexId => 0 case MissingTitle => 1
        case NegativeCitedByCount => 2 case NegativeCountriesCount => 3
        case NegativeInstitutionsCount => 4 case InvalidCitationPercentile => 5
        case InvalidPrimaryTopicScore => 6 case _ => 7;
      assert AllChecks[k] == c;
      CleanCount(c, rows, fails);
      CountRowsZero(c, rows);
    }
  }

  /** What a clean run says about keys: neither ids nor DOIs repeat. */
  lemma CleanKeys(rows: seq<Record>, fails: Check -> bool)
    requires ValidationExit(TablePresent, rows, fails) == 0
    ensures forall i, j | 0 <= i < j < |IdKeys(rows)| :: IdKeys(rows)[i] != IdKeys(rows)[j]
    ensures forall i, j | 0 <= i < j < |DoiKeys(rows)| :: DoiKeys(rows)[i] != DoiKeys(rows)[j]
  {
    assert AllChecks[8] == DuplicateOpenalexId && AllChecks[9] == DuplicateDoi;
    CleanCount(DuplicateOpenalexId, rows, fails);
    CleanCount(DuplicateDoi, rows, fails);
    DupGroupsZero(IdKeys(rows));
    DupGroupsZero(DoiKeys(rows));
  }
}
