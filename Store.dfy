/**
 * The `papers` table as the batch upserter sees it, and the upserter itself:
 * `insert_papers_with_deduplication`, whose two copies are identical.
 *
 * The table is a map keyed by `openalex_id` (the column's UNIQUE constraint);
 * CURRENT_TIMESTAMP is a logical clock that moves on by one per transaction.
 * Whether the engine refuses a statement (a NOT NULL title, a value of the
 * wrong type, ...) is not visible in the scripts, so it is a parameter:
 * `rejects(p)` holds when the statement for row `p` fails.
 */
module Upsert {
  import opened Wrappers
  import opened JsonValue
  import opened Normalize

  /** A stored row: the 22 column values and the two bookkeeping timestamps. */
  datatype Row = Row(paper: Paper, createdAt: nat, updatedAt: nat)

  /** The table and the clock that stands for CURRENT_TIMESTAMP. */
  datatype Db = Db(rows: map<string, Row>, clock: nat)

  /** Every row sits under its own key and was stamped before the current time. */
  ghost predicate ValidDb(db: Db)
  {
    forall k | k in db.rows ::
      db.rows[k].paper.openalexId == k && db.rows[k].createdAt <= db.rows[k].updatedAt < db.clock
  }

  /**
   * One `INSERT ... ON CONFLICT (openalex_id) DO UPDATE` at time `now`: a new
   * key gets `created_at = updated_at = now`; an existing key has all 21
   * non-key columns replaced and `updated_at` set to `now`, while
   * `created_at` (not in the update list) is kept.
   */
  function UpsertRow(rows: map<string, Row>, p: Paper, now: nat): map<string, Row>
  {
    var key := p.openalexId;
    rows[key := Row(p, if key in rows then rows[key].createdAt else now, now)]
  }

  /** The statements of one transaction, applied in order at the same CURRENT_TIMESTAMP. */
  function UpsertAll(rows: map<string, Row>, ps: seq<Paper>, now: nat): map<string, Row>
  {
    if ps == [] then rows
    else UpsertRow(UpsertAll(rows, ps[..|ps| - 1], now), ps[|ps| - 1], now)
  }

  predicate NoneRejected(ps: seq<Paper>, rejects: Paper -> bool)
  {
    forall i | 0 <= i < |ps| :: !rejects(ps[i])
  }

  /**
   * One transaction: all statements then COMMIT, or ROLLBACK (the table as it
   * was) as soon as one statement fails. Either way it uses one clock tick.
   */
  function Transaction(db: Db, stmts: seq<Paper>, rejects: Paper -> bool): (Db, bool)
  {
    if NoneRejected(stmts, rejects) then (Db(UpsertAll(db.rows, stmts, db.clock), db.clock + 1), true)
    else (Db(db.rows, db.clock + 1), false)
  }

  /** The database the scripts talk to. */
  class PaperStore {
    var rows: map<string, Row>
    var clock: nat

    function State(): Db
      reads this
    {
      Db(rows, clock)
    }

    ghost predicate Valid()
      reads this
    {
      ValidDb(State())
    }

    constructor ()
      ensures rows == map[] && clock == 0 && Valid()
    {
      rows := map[];
      clock := 0;
    }

    /**
     * `cur.executemany(insert_sql, stmts)` followed by `conn.commit()`, or by
     * `conn.rollback()` when a statement raises; `committed` says which.
     */
    method Execute(stmts: seq<Paper>, rejects: Paper -> bool) returns (committed: bool)
      modifies this
      ensures (State(), committed) == Transaction(old(State()), stmts, rejects)
    {
      var staged := rows;
      var j := 0;
      committed := true;
      while j < |stmts| && committed
        invariant 0 <= j <= |stmts|
        invariant committed ==> staged == UpsertAll(rows, stmts[..j], clock) && NoneRejected(stmts[..j], rejects)
        invariant !committed ==> !NoneRejected(stmts, rejects)
        decreases |stmts| - j + (if committed then 1 else 0)
      {
        if rejects(stmts[j]) {
          committed := false;
        } else {
          assert stmts[..j + 1][..j] == stmts[..j];
          staged := UpsertRow(staged, stmts[j], clock);
          j := j + 1;
        }
      }
      if committed {
        assert stmts[..j] == stmts;
        rows := staged;
      }
      clock := clock + 1;
    }
  }

  // ---------------------------------------------------------------------
  // The specification of insert_papers_with_deduplication
  // ---------------------------------------------------------------------

  /**
   * What the loop does with one record it gets through: the row to write,
   * or None when flattening raises or gives an empty `openalex_id`.
   */
  function Keep(paper: Json): (r: Option<Paper>)
    ensures r.Some? ==> r.value.openalexId != ""
  {
    match ProcessPaper(paper)
    case Err(_) => None
    case Ok(p) => if p.openalexId == "" then None else Some(p)
  }

  /**
   * The processing loop as written: the rows to write and the number of
   * skipped records. A record that is not a dict fails to flatten, and the
   * warning in the `except` block (`paper.get('id', 'unknown')`) raises
   * again on it; that exception leaves the whole call.
   */
  function Partition(papers: seq<Json>): Result<(seq<Paper>, nat)>
  {
    if papers == [] then Ok(([], 0)) else
    var sofar :- Partition(papers[..|papers| - 1]);
    var paper := papers[|papers| - 1];
    if !paper.JObj? then Err(AttributeError)
    else match Keep(paper)
      case None => Ok((sofar.0, sofar.1 + 1))
      case Some(p) => Ok((sofar.0 + [p], sofar.1))
  }

  /**
   * The processing loop as evidently intended: a record that cannot be
   * flattened, whatever its shape, is counted as skipped and the loop goes
   * on, so every record is either kept or counted.
   */
  function PartitionTotal(papers: seq<Json>): (r: (seq<Paper>, nat))
    ensures |r.0| + r.1 == |papers|
    ensures forall i | 0 <= i < |r.0| :: r.0[i].openalexId != ""
  {
    if papers == [] then ([], 0) else
    var sofar := PartitionTotal(papers[..|papers| - 1]);
    match Keep(papers[|papers| - 1])
    case None => (sofar.0, sofar.1 + 1)
    case Some(p) => (sofar.0 + [p], sofar.1)
  }

  /** `[ps[i:i + size] for i in range(0, len(ps), size)]` */
  function Batches(ps: seq<Paper>, size: nat): seq<seq<Paper>>
    requires size > 0
    decreases |ps|
  {
    if ps == [] then []
    else if |ps| <= size then [ps]
    else [ps[..size]] + Batches(ps[size..], size)
  }

  /** The per-row fallback: each row in its own transaction; the count of rows that committed. */
  function RetryEach(db: Db, ps: seq<Paper>, rejects: Paper -> bool): (Db, nat)
  {
    if ps == [] then (db, 0) else
    var before := RetryEach(db, ps[..|ps| - 1], rejects);
    var after := Transaction(before.0, [ps[|ps| - 1]], rejects);
    (after.0, if after.1 then before.1 + 1 else before.1)
  }

  /** One batch: the whole batch in one transaction; after a rollback, row by row. */
  function CommitBatch(db: Db, batch: seq<Paper>, rejects: Paper -> bool): (Db, nat)
  {
    var attempt := Transaction(db, batch, rejects);
    if attempt.1 then (attempt.0, |batch|) else RetryEach(attempt.0, batch, rejects)
  }

  /** The batches in order, and the running `total_inserted`. */
  function CommitBatches(db: Db, bs: seq<seq<Paper>>, rejects: Paper -> bool): (Db, nat)
  {
    if bs == [] then (db, 0) else
    var before := CommitBatches(db, bs[..|bs| - 1], rejects);
    var last := CommitBatch(before.0, bs[|bs| - 1], rejects);
    (last.0, before.1 + last.1)
  }

  /**
   * The whole call: the table afterwards and the returned `total_inserted`,
   * or the exception. `range(0, n, 0)` raises ValueError; a negative batch
   * size makes the range empty, so nothing is written. Records are
   * processed as evidently intended (`PartitionTotal`).
   */
  function InsertSpec(db: Db, papers: seq<Json>, batchSize: int, rejects: Paper -> bool): (Db, Result<nat>)
  {
    var part := PartitionTotal(papers);
    if batchSize == 0 then (db, Err(ValueError))
    else if batchSize < 0 then (db, Ok(0))
    else
      var written := CommitBatches(db, Batches(part.0, batchSize), rejects);
      (written.0, Ok(written.1))
  }

  /**
   * The processing loop of `insert_papers_with_deduplication`: the rows to
   * write and the number of records skipped, whatever made them fail.
   */
  method ProcessAll(papers: seq<Json>) returns (processed: seq<Paper>, skipped: nat)
    ensures (processed, skipped) == PartitionTotal(papers)
  {
    processed := [];
    skipped := 0;
    for i := 0 to |papers|
      invariant PartitionTotal(papers[..i]) == (processed, skipped)
    {
      assert papers[..i + 1][..i] == papers[..i];
      var result := ProcessPaper(papers[i]);
      if result.Err? || result.value.openalexId == "" {
        skipped := skipped + 1;
      } else {
        processed := processed + [result.value];
      }
    }
    assert papers[..|papers|] == papers;
  }

  /** The fallback after a failed batch: `for paper_data in batch`, one transaction each. */
  method RetryRows(db: PaperStore, batch: seq<Paper>, rejects: Paper -> bool) returns (inserted: nat)
    modifies db
    ensures (db.State(), inserted) == RetryEach(old(db.State()), batch, rejects)
  {
    inserted := 0;
    for j := 0 to |batch|
      invariant (db.State(), inserted) == RetryEach(old(db.State()), batch[..j], rejects)
    {
      assert batch[..j + 1][..j] == batch[..j];
      var rowOk := db.Execute([batch[j]], rejects);
      if rowOk {
        inserted := inserted + 1;
      }
    }
    assert batch[..|batch|] == batch;
  }

  /** The batches from `start` on: the slice at `start`, then the batches after it. */
  lemma BatchesFrom(ps: seq<Paper>, start: nat, size: nat)
    requires size > 0 && start < |ps|
    ensures var end := if start + size <= |ps| then start + size else |ps|;
      Batches(ps[start..], size) == [ps[start..end]] + Batches(ps[end..], size)
  {
    var end := if start + size <= |ps| then start + size else |ps|;
    assert ps[start..][..end - start] == ps[start..end];
    assert ps[start..][end - start..] == ps[end..];
    if end == |ps| {
      assert ps[start..end] == ps[start..] && ps[end..] == [];
    }
  }

  /** One batch: `executemany` and commit, or after a rollback the rows one by one. */
  method WriteBatch(db: PaperStore, batch: seq<Paper>, rejects: Paper -> bool) returns (inserted: nat)
    modifies db
    ensures (db.State(), inserted) == CommitBatch(old(db.State()), batch, rejects)
  {
    var ok := db.Execute(batch, rejects);
    if ok {
      inserted := |batch|;
    } else {
      inserted := RetryRows(db, batch, rejects);
    }
  }

  /** The batch loop: `for i in range(0, len(processed), batch_size)`. */
  method WriteBatches(db: PaperStore, processed: seq<Paper>, batchSize: nat, rejects: Paper -> bool)
    returns (total: nat)
    requires batchSize > 0
    modifies db
    ensures (db.State(), total) == CommitBatches(old(db.State()), Batches(processed, batchSize), rejects)
  {
    total := 0;
    var start := 0;
    ghost var done: seq<seq<Paper>> := [];
    while start < |processed|
      invariant 0 <= start <= |processed|
      invariant done + Batches(processed[start..], batchSize) == Batches(processed, batchSize)
      invariant (db.State(), total) == CommitBatches(old(db.State()), done, rejects)
    {
      var end := if start + batchSize <= |processed| then start + batchSize else |processed|;
      var batch := processed[start..end];
      BatchesFrom(processed, start, batchSize);
      var inserted := WriteBatch(db, batch, rejects);
      total := total + inserted;
      assert (done + [batch])[..|done|] == done;
      done := done + [batch];
      start := end;
    }
    assert done == Batches(processed, batchSize);
  }

  /** `insert_papers_with_deduplication(papers, batch_size)` against the store `db`. */
  method InsertPapersWithDeduplication(db: PaperStore, papers: seq<Json>, batchSize: int, rejects: Paper -> bool)
    returns (r: Result<nat>)
    modifies db
    ensures (db.State(), r) == InsertSpec(old(db.State()), papers, batchSize, rejects)
  {
    var processed, skipped := ProcessAll(papers);
    if batchSize == 0 {
      return Err(ValueError);       // range() arg 3 must not be zero
    }
    var total := 0;
    if batchSize > 0 {
      total := WriteBatches(db, processed, batchSize, rejects);
    }
    return Ok(total);
  }
}
