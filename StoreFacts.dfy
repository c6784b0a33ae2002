/**
 * What `insert_papers_with_deduplication` guarantees, proved about its
 * specification in module Upsert: every record is accounted for, batches
 * cover the rows in order, and batching with per-row fallback writes exactly
 * the rows the store accepts, last write winning.
 */
module UpsertFacts {
  import opened Wrappers
  import opened JsonValue
  import opened Normalize
  import opened Upsert

  // ---------------------------------------------------------------------
  // The processing loop
  // ---------------------------------------------------------------------

  /**
   * Every record is either a row to write or counted as skipped, and every
   * row to write is the flattening of some record, with a non-empty
   * `openalex_id`.
   */
  lemma {:induction false} PartitionAccounts(papers: seq<Json>)
    ensures var part := PartitionTotal(papers);
      |part.0| + part.1 == |papers| &&
      forall i | 0 <= i < |part.0| ::
        part.0[i].openalexId != "" && exists j | 0 <= j < |papers| :: ProcessPaper(papers[j]) == Ok(part.0[i])
  {
    if papers != [] {
      var init := papers[..|papers| - 1];
      PartitionAccounts(init);
      var ps := PartitionTotal(init).0;
      forall i | 0 <= i < |ps|
        ensures exists j | 0 <= j < |papers| :: ProcessPaper(papers[j]) == Ok(ps[i])
      {
        var j :| 0 <= j < |init| && ProcessPaper(init[j]) == Ok(ps[i]);
        assert papers[j] == init[j];
      }
    }
  }

  // ---------------------------------------------------------------------
  // Batches
  // ---------------------------------------------------------------------

  function Flatten(bs: seq<seq<Paper>>): seq<Paper>
  {
    if bs == [] then [] else bs[0] + Flatten(bs[1..])
  }

  lemma {:induction false} FlattenSnoc(bs: seq<seq<Paper>>)
    requires bs != []
    ensures Flatten(bs) == Flatten(bs[..|bs| - 1]) + bs[|bs| - 1]
  {
    if |bs| > 1 {
      FlattenSnoc(bs[1..]);
      assert bs[1..][..|bs[1..]| - 1] == bs[..|bs| - 1][1..];
    } else {
      assert bs[..|bs| - 1] == [];
    }
  }

  /**
   * The batches are consecutive slices that put the rows back together in
   * order; each holds between 1 and `size` rows, and all but the last hold
   * exactly `size`.
   */
  lemma {:induction false} BatchesCover(ps: seq<Paper>, size: nat)
    requires size > 0
    ensures var bs := Batches(ps, size);
      Flatten(bs) == ps &&
      (forall i | 0 <= i < |bs| :: 0 < |bs[i]| <= size) &&
      (forall i | 0 <= i < |bs| - 1 :: |bs[i]| == size)
    decreases |ps|
  {
    if |ps| > size {
      BatchesCover(ps[size..], size);
      var bs := Batches(ps, size);
      assert bs[1..] == Batches(ps[size..], size);
      assert ps == ps[..size] + ps[size..];
    }
  }

  // ---------------------------------------------------------------------
  // What gets written: the accepted rows, last write winning
  // ---------------------------------------------------------------------

  /** The rows the store accepts, in order. */
  function Accepted(ps: seq<Paper>, rejects: Paper -> bool): seq<Paper>
  {
    if ps == [] then []
    else Accepted(ps[..|ps| - 1], rejects) + (if rejects(ps[|ps| - 1]) then [] else [ps[|ps| - 1]])
  }

  /** The column values by key, without the timestamps. */
  function View(rows: map<string, Row>): map<string, Paper>
  {
    map k | k in rows :: rows[k].paper
  }

  /** The table's column values after writing `ps` in order, each write replacing the row with its key. */
  function ApplyAll(v: map<string, Paper>, ps: seq<Paper>): map<string, Paper>
  {
    if ps == [] then v
    else ApplyAll(v, ps[..|ps| - 1])[ps[|ps| - 1].openalexId := ps[|ps| - 1]]
  }

  lemma {:induction false} AcceptedAppend(a: seq<Paper>, b: seq<Paper>, rejects: Paper -> bool)
    ensures Accepted(a + b, rejects) == Accepted(a, rejects) + Accepted(b, rejects)
    decreases |b|
  {
    if b == [] {
      assert a + b == a;
    } else {
      var b' := b[..|b| - 1];
      AcceptedAppend(a, b', rejects);
      assert (a + b)[..|a + b| - 1] == a + b';
    }
  }

  lemma {:induction false} AcceptedAll(ps: seq<Paper>, rejects: Paper -> bool)
    requires NoneRejected(ps, rejects)
    ensures Accepted(ps, rejects) == ps
  {
    if ps != [] {
      AcceptedAll(ps[..|ps| - 1], rejects);
    }
  }

  lemma {:induction false} ApplyAllAppend(v: map<string, Paper>, a: seq<Paper>, b: seq<Paper>)
    ensures ApplyAll(v, a + b) == ApplyAll(ApplyAll(v, a), b)
    decreases |b|
  {
    if b == [] {
      assert a + b == a;
    } else {
      var b' := b[..|b| - 1];
      ApplyAllAppend(v, a, b');
      assert (a + b)[..|a + b| - 1] == a + b';
    }
  }

  lemma {:induction false} UpsertAllView(rows: map<string, Row>, ps: seq<Paper>, now: nat)
    ensures View(UpsertAll(rows, ps, now)) == ApplyAll(View(rows), ps)
  {
    if ps != [] {
      UpsertAllView(rows, ps[..|ps| - 1], now);
    }
  }

  lemma {:induction false} RetryEachEffect(db: Db, ps: seq<Paper>, rejects: Paper -> bool)
    ensures RetryEach(db, ps, rejects).1 == |Accepted(ps, rejects)|
    ensures View(RetryEach(db, ps, rejects).0.rows) == ApplyAll(View(db.rows), Accepted(ps, rejects))
  {
    if ps != [] {
      var init := ps[..|ps| - 1];
      var last := ps[|ps| - 1];
      RetryEachEffect(db, init, rejects);
      var before := RetryEach(db, init, rejects).0;
      if rejects(last) {
        assert [last][0] == last;
        assert !NoneRejected([last], rejects);
        assert Accepted(ps, rejects) == Accepted(init, rejects);
      } else {
        assert NoneRejected([last], rejects);
        assert Accepted(ps, rejects) == Accepted(init, rejects) + [last];
        UpsertAllView(before.rows, [last], before.clock);
        ApplyAllAppend(View(db.rows), Accepted(init, rejects), [last]);
        assert ApplyAll(ApplyAll(View(db.rows), Accepted(init, rejects)), [last])
            == ApplyAll(View(db.rows), Accepted(init, rejects))[last.openalexId := last];
      }
    }
  }

  lemma CommitBatchEffect(db: Db, batch: seq<Paper>, rejects: Paper -> bool)
    ensures CommitBatch(db, batch, rejects).1 == |Accepted(batch, rejects)|
    ensures View(CommitBatch(db, batch, rejects).0.rows) == ApplyAll(View(db.rows), Accepted(batch, rejects))
  {
    if NoneRejected(batch, rejects) {
      AcceptedAll(batch, rejects);
      UpsertAllView(db.rows, batch, db.clock);
    } else {
      RetryEachEffect(Db(db.rows, db.clock + 1), batch, rejects);
    }
  }

  /**
   * Over all batches, `total_inserted` is the number of accepted rows, and
   * the table holds exactly what writing the accepted rows one after the
   * other would leave: batching and the fallback change nothing but the
   * number of transactions.
   */
  lemma {:induction false} CommitBatchesEffect(db: Db, bs: seq<seq<Paper>>, rejects: Paper -> bool)
    ensures CommitBatches(db, bs, rejects).1 == |Accepted(Flatten(bs), rejects)|
    ensures View(CommitBatches(db, bs, rejects).0.rows) == ApplyAll(View(db.rows), Accepted(Flatten(bs), rejects))
  {
    if bs != [] {
      var init := bs[..|bs| - 1];
      var last := bs[|bs| - 1];
      CommitBatchesEffect(db, init, rejects);
      var before := CommitBatches(db, init, rejects).0;
      CommitBatchEffect(before, last, rejects);
      FlattenSnoc(bs);
      AcceptedAppend(Flatten(init), last, rejects);
      ApplyAllAppend(View(db.rows), Accepted(Flatten(init), rejects), Accepted(last, rejects));
    }
  }

  lemma {:induction false} AcceptedLength(ps: seq<Paper>, rejects: Paper -> bool)
    ensures |Accepted(ps, rejects)| <= |ps|
  {
    if ps != [] {
      AcceptedLength(ps[..|ps| - 1], rejects);
    }
  }

  /** Every accepted row is one of the rows given, and one the store did not reject. */
  lemma {:induction false} AcceptedFrom(ps: seq<Paper>, rejects: Paper -> bool)
    ensures forall p | p in Accepted(ps, rejects) :: p in ps && !rejects(p)
  {
    if ps != [] {
      var init := ps[..|ps| - 1];
      AcceptedFrom(init, rejects);
      forall p | p in init ensures p in ps {
        var i :| 0 <= i < |init| && init[i] == p;
        assert ps[i] == p;
      }
    }
  }

  /**
   * The returned count is the number of processed rows the store accepted,
   * so it never exceeds the number of processed rows nor the number of
   * records; the table's column values are those of writing the accepted
   * rows in input order.
   */
  lemma InsertOutcome(db: Db, papers: seq<Json>, batchSize: int, rejects: Paper -> bool)
    requires batchSize > 0
    ensures var ps := PartitionTotal(papers).0;
      var out := InsertSpec(db, papers, batchSize, rejects);
      out.1 == Ok(|Accepted(ps, rejects)|) &&
      |Accepted(ps, rejects)| <= |ps| <= |papers| &&
      View(out.0.rows) == ApplyAll(View(db.rows), Accepted(ps, rejects))
  {
    var ps := PartitionTotal(papers).0;
    PartitionAccounts(papers);
    BatchesCover(ps, batchSize);
    CommitBatchesEffect(db, Batches(ps, batchSize), rejects);
    AcceptedLength(ps, rejects);
  }

  /** When the store refuses nothing, every processed row is counted. */
  lemma InsertAllAccepted(db: Db, papers: seq<Json>, batchSize: int, rejects: Paper -> bool)
    requires batchSize > 0
    requires NoneRejected(PartitionTotal(papers).0, rejects)
    ensures InsertSpec(db, papers, batchSize, rejects).1 == Ok(|PartitionTotal(papers).0|)
  {
    InsertOutcome(db, papers, batchSize, rejects);
    AcceptedAll(PartitionTotal(papers).0, rejects);
  }

  /**
   * The scenario of a poisoned first batch: 150 rows in batches of 100 make
   * two batches of 100 and 50; when only row 37 is refused, the first batch
   * rolls back and its other 99 rows commit one by one, and the total is 149.
   */
  lemma PoisonedBatch(db: Db, ps: seq<Paper>, rejects: Paper -> bool)
    requires |ps| == 150
    requires forall i | 0 <= i < 150 :: rejects(ps[i]) <==> i == 36
    ensures var bs := Batches(ps, 100);
      |bs| == 2 && |bs[0]| == 100 && |bs[1]| == 50 &&
      CommitBatches(db, bs, rejects).1 == 149
  {
    var bs := Batches(ps, 100);
    assert Batches(ps[100..], 100) == [ps[100..]];
    assert bs == [ps[..100], ps[100..]];
    BatchesCover(ps, 100);
    CommitBatchesEffect(db, bs, rejects);
    assert ps == ps[..36] + [ps[36]] + ps[37..];
    AcceptedAll(ps[..36], rejects);
    AcceptedAll(ps[37..], rejects);
    AcceptedAppend(ps[..36], [ps[36]], rejects);
    AcceptedAppend(ps[..36] + [ps[36]], ps[37..], rejects);
    assert Accepted([ps[36]], rejects) == [];
  }

  // ---------------------------------------------------------------------
  // Timestamps: created_at is kept, updated_at is refreshed
  // ---------------------------------------------------------------------

  /** The keys of a sequence of rows. */
  function Keys(ps: seq<Paper>): set<string>
  {
    set p | p in ps :: p.openalexId
  }

  lemma KeysAppend(a: seq<Paper>, b: seq<Paper>)
    ensures Keys(a + b) == Keys(a) + Keys(b)
  {
    forall k | k in Keys(a + b) ensures k in Keys(a) + Keys(b) {
      var p :| p in a + b && p.openalexId == k;
    }
    forall k | k in Keys(a) + Keys(b) ensures k in Keys(a + b) {
      if k in Keys(a) {
        var p :| p in a && p.openalexId == k;
        assert p in a + b;
      } else {
        var p :| p in b && p.openalexId == k;
        assert p in a + b;
      }
    }
  }

  /**
   * Going from `db` to `db'` by writing `ps`: time moved on, no row vanished
   * and every `created_at` was kept, the only new keys are written ones, rows
   * under keys that were not written are untouched, and written rows carry an
   * `updated_at` no earlier than the start.
   */
  ghost predicate Stamped(db: Db, db': Db, ps: seq<Paper>)
  {
    db.clock <= db'.clock &&
    (forall k | k in db'.rows :: k in db.rows || k in Keys(ps)) &&
    (forall k | k in db.rows :: k in db'.rows && db'.rows[k].createdAt == db.rows[k].createdAt) &&
    (forall k | k in db.rows && k !in Keys(ps) :: db'.rows[k] == db.rows[k]) &&
    (forall k | k in db'.rows && k in Keys(ps) :: db.clock <= db'.rows[k].updatedAt)
  }

  lemma StampedTrans(d0: Db, d1: Db, d2: Db, a: seq<Paper>, b: seq<Paper>)
    requires Stamped(d0, d1, a) && Stamped(d1, d2, b)
    ensures Stamped(d0, d2, a + b)
  {
    KeysAppend(a, b);
  }

  lemma StampedNothing(db: Db, db': Db)
    requires db'.rows == db.rows && db.clock <= db'.clock
    ensures Stamped(db, db', [])
  {
  }

  /**
   * `r` is `rows` after upserting rows under the keys `ks` at time `now`:
   * nothing vanished, `created_at` was kept, other rows are untouched, and
   * the written rows carry `now` and their own key.
   */
  ghost predicate UpsertedAt(rows: map<string, Row>, r: map<string, Row>, ks: set<string>, now: nat)
  {
    (forall k | k in r :: k in rows || k in ks) &&
    (forall k | k in rows :: k in r && r[k].createdAt == rows[k].createdAt) &&
    (forall k | k in rows && k !in ks :: r[k] == rows[k]) &&
    (forall k | k in r && k in ks :: r[k].updatedAt == now && r[k].paper.openalexId == k) &&
    (forall k | k in r && k !in rows :: r[k].createdAt == now)
  }

  lemma {:induction false} UpsertAllStamps(rows: map<string, Row>, ps: seq<Paper>, now: nat)
    ensures UpsertedAt(rows, UpsertAll(rows, ps, now), Keys(ps), now)
  {
    if ps != [] {
      var init := ps[..|ps| - 1];
      var last := ps[|ps| - 1];
      UpsertAllStamps(rows, init, now);
      assert ps == init + [last];
      KeysAppend(init, [last]);
      assert Keys([last]) == {last.openalexId};
      UpsertRowStamps(rows, UpsertAll(rows, init, now), Keys(init), last, now);
    }
  }

  /** One more upserted row extends the written keys by its own. */
  lemma UpsertRowStamps(rows: map<string, Row>, mid: map<string, Row>, ks: set<string>, p: Paper, now: nat)
    requires UpsertedAt(rows, mid, ks, now)
    ensures UpsertedAt(rows, UpsertRow(mid, p, now), ks + {p.openalexId}, now)
  {
  }

  /** A transaction keeps the table valid and stamps what it commits. */
  lemma TransactionStamps(db: Db, stmts: seq<Paper>, rejects: Paper -> bool)
    requires ValidDb(db)
    ensures var t := Transaction(db, stmts, rejects);
      ValidDb(t.0) && t.0.clock == db.clock + 1 &&
      Stamped(db, t.0, if t.1 then stmts else [])
  {
    UpsertAllStamps(db.rows, stmts, db.clock);
  }

  lemma {:induction false} RetryEachStamps(db: Db, ps: seq<Paper>, rejects: Paper -> bool)
    requires ValidDb(db)
    ensures var r := RetryEach(db, ps, rejects).0;
      ValidDb(r) && Stamped(db, r, Accepted(ps, rejects))
  {
    if ps == [] {
      StampedNothing(db, db);
    } else {
      var init := ps[..|ps| - 1];
      var last := ps[|ps| - 1];
      RetryEachStamps(db, init, rejects);
      var before := RetryEach(db, init, rejects).0;
      var step := if rejects(last) then [] else [last];
      RetryStepStamps(before, last, rejects);
      assert Accepted(ps, rejects) == Accepted(init, rejects) + step;
      StampedTrans(db, before, RetryEach(db, ps, rejects).0, Accepted(init, rejects), step);
    }
  }

  /** One retried row is written, stamped, exactly when it is not rejected. */
  lemma RetryStepStamps(db: Db, p: Paper, rejects: Paper -> bool)
    requires ValidDb(db)
    ensures var t := Transaction(db, [p], rejects);
      ValidDb(t.0) && Stamped(db, t.0, if rejects(p) then [] else [p])
  {
    TransactionStamps(db, [p], rejects);
    assert [p][0] == p;
  }

  lemma CommitBatchStamps(db: Db, batch: seq<Paper>, rejects: Paper -> bool)
    requires ValidDb(db)
    ensures var r := CommitBatch(db, batch, rejects).0;
      ValidDb(r) && Stamped(db, r, Accepted(batch, rejects))
  {
    TransactionStamps(db, batch, rejects);
    var t := Transaction(db, batch, rejects);
    if t.1 {
      AcceptedAll(batch, rejects);
    } else {
      RetryEachStamps(t.0, batch, rejects);
      StampedTrans(db, t.0, RetryEach(t.0, batch, rejects).0, [], Accepted(batch, rejects));
      assert [] + Accepted(batch, rejects) == Accepted(batch, rejects);
    }
  }

  lemma {:induction false} CommitBatchesStamps(db: Db, bs: seq<seq<Paper>>, rejects: Paper -> bool)
    requires ValidDb(db)
    ensures var r := CommitBatches(db, bs, rejects).0;
      ValidDb(r) && Stamped(db, r, Accepted(Flatten(bs), rejects))
  {
    if bs == [] {
      StampedNothing(db, db);
    } else {
      var init := bs[..|bs| - 1];
      var last := bs[|bs| - 1];
      CommitBatchesStamps(db, init, rejects);
      var before := CommitBatches(db, init, rejects).0;
      CommitBatchStamps(before, last, rejects);
      StampedTrans(db, before, CommitBatch(before, last, rejects).0,
                   Accepted(Flatten(init), rejects), Accepted(last, rejects));
      FlattenSnoc(bs);
      AcceptedAppend(Flatten(init), last, rejects);
    }
  }

  /**
   * A call keeps the table valid (each row under its own key, `created_at`
   * no later than `updated_at`); when it writes, it keeps every existing
   * `created_at`, touches only the keys of accepted rows, and stamps those
   * with the time of the call; when it raises, the table is as it was.
   */
  lemma InsertStamps(db: Db, papers: seq<Json>, batchSize: int, rejects: Paper -> bool)
    requires ValidDb(db)
    ensures var out := InsertSpec(db, papers, batchSize, rejects);
      ValidDb(out.0) &&
      (out.1.Err? ==> out.0 == db) &&
      (batchSize > 0 ==> Stamped(db, out.0, Accepted(PartitionTotal(papers).0, rejects)))
  {
    if batchSize > 0 {
      var ps := PartitionTotal(papers).0;
      BatchesCover(ps, batchSize);
      CommitBatchesStamps(db, Batches(ps, batchSize), rejects);
    }
  }

  // ---------------------------------------------------------------------
  // Re-loading
  // ---------------------------------------------------------------------

  /** Writing `ps` over `v` is `v` overridden by the last write of each key in `ps`. */
  lemma {:induction false} ApplyAllOverride(v: map<string, Paper>, ps: seq<Paper>)
    ensures ApplyAll(v, ps) == v + ApplyAll(map[], ps)
  {
    if ps != [] {
      ApplyAllOverride(v, ps[..|ps| - 1]);
    }
  }

  /** Writing the same rows a second time changes no column value. */
  lemma ApplyAllIdempotent(v: map<string, Paper>, ps: seq<Paper>)
    ensures ApplyAll(ApplyAll(v, ps), ps) == ApplyAll(v, ps)
  {
    ApplyAllOverride(v, ps);
    ApplyAllOverride(ApplyAll(v, ps), ps);
    var w := ApplyAll(map[], ps);
    assert (v + w) + w == v + w;
  }

  /**
   * Loading the same records twice leaves the same keys and the same column
   * values as loading them once, and the second load keeps every
   * `created_at` of the first: only `updated_at` moves.
   */
  lemma ReloadIdempotent(db: Db, papers: seq<Json>, batchSize: int, rejects: Paper -> bool)
    requires ValidDb(db) && batchSize > 0
    ensures var once := InsertSpec(db, papers, batchSize, rejects).0;
      var twice := InsertSpec(once, papers, batchSize, rejects).0;
      twice.rows.Keys == once.rows.Keys &&
      View(twice.rows) == View(once.rows) &&
      forall k | k in once.rows :: twice.rows[k].createdAt == once.rows[k].createdAt
  {
    var once := InsertSpec(db, papers, batchSize, rejects).0;
    var acc := Accepted(PartitionTotal(papers).0, rejects);
    InsertOutcome(db, papers, batchSize, rejects);
    InsertOutcome(once, papers, batchSize, rejects);
    InsertStamps(db, papers, batchSize, rejects);
    InsertStamps(once, papers, batchSize, rejects);
    ApplyAllIdempotent(View(db.rows), acc);
    var twice := InsertSpec(once, papers, batchSize, rejects).0;
    assert twice.rows.Keys == View(twice.rows).Keys;
    assert once.rows.Keys == View(once.rows).Keys;
  }

  /**
   * Two snapshots carrying the same `openalex_id` loaded one after the other:
   * one row remains, holding the second snapshot's values, the first load's
   * `created_at` and the second load's, later, `updated_at`.
   */
  lemma SecondLoadWins(rows: map<string, Row>, first: Paper, second: Paper, t1: nat, t2: nat)
    requires first.openalexId == second.openalexId && first.openalexId !in rows && t1 < t2
    ensures var r := UpsertRow(UpsertRow(rows, first, t1), second, t2);
      r.Keys == rows.Keys + {first.openalexId} &&
      r[first.openalexId] == Row(second, t1, t2) &&
      r[first.openalexId].createdAt < r[first.openalexId].updatedAt
  {
  }

  // ---------------------------------------------------------------------
  // A record that is not an object
  // ---------------------------------------------------------------------

  /**
   * As written, the warning in the except block reads `paper.get('id', ...)`,
   * which raises again for a record that is not an object: one such record
   * aborts the whole call, even after an object that was merely skipped.
   */
  lemma NonObjectAborts()
    ensures Partition([EmptyObject, JNull]) == Err(AttributeError)
    ensures PartitionTotal([EmptyObject, JNull]) == ([], 2)
  {
    assert [EmptyObject, JNull][..1] == [EmptyObject];
    assert [EmptyObject][..0] == [];
    assert ProcessPaper(JNull).Err?;
    var first := ProcessPaper(EmptyObject);
    assert first.Err? || first.value.openalexId == "";
    assert Partition([EmptyObject]) == Ok(([], 1));
  }

  /**
   * Whenever the loop as written gets to the end, it agrees with the intended
   * one; it gets to the end exactly when every record is an object.
   */
  lemma {:induction false} PartitionAgrees(papers: seq<Json>)
    ensures Partition(papers).Ok? <==> forall i | 0 <= i < |papers| :: papers[i].JObj?
    ensures Partition(papers).Ok? ==> Partition(papers).value == PartitionTotal(papers)
  {
    PartitionOkIff(papers);
    if Partition(papers).Ok? {
      PartitionOkValue(papers);
    }
  }

  lemma PartitionOkIff(papers: seq<Json>)
    ensures Partition(papers).Ok? <==> forall i | 0 <= i < |papers| :: papers[i].JObj?
  {
    if Partition(papers).Ok? {
      PartitionOkObjects(papers);
    }
    if forall i | 0 <= i < |papers| :: papers[i].JObj? {
      PartitionObjectsOk(papers);
    }
  }

  lemma PartitionOkStep(papers: seq<Json>)
    requires papers != [] && Partition(papers).Ok?
    ensures Partition(papers[..|papers| - 1]).Ok? && papers[|papers| - 1].JObj?
  {
  }

  lemma {:induction false} PartitionOkObjects(papers: seq<Json>)
    requires Partition(papers).Ok?
    ensures forall i | 0 <= i < |papers| :: papers[i].JObj?
  {
    if papers != [] {
      var init := papers[..|papers| - 1];
      PartitionOkStep(papers);
      PartitionOkObjects(init);
      AllObjectsSnoc(init, papers[|papers| - 1]);
      assert papers == init + [papers[|papers| - 1]];
    }
  }

  lemma AllObjectsSnoc(init: seq<Json>, last: Json)
    requires last.JObj? && forall i | 0 <= i < |init| :: init[i].JObj?
    ensures forall i | 0 <= i < |init + [last]| :: (init + [last])[i].JObj?
  {
  }

  lemma {:induction false} PartitionObjectsOk(papers: seq<Json>)
    requires forall i | 0 <= i < |papers| :: papers[i].JObj?
    ensures Partition(papers).Ok?
  {
    if papers != [] {
      var init := papers[..|papers| - 1];
      forall i | 0 <= i < |init| ensures init[i].JObj? {
        assert papers[i] == init[i];
      }
      PartitionObjectsOk(init);
    }
  }

  lemma {:induction false} PartitionOkValue(papers: seq<Json>)
    requires Partition(papers).Ok?
    ensures Partition(papers).value == PartitionTotal(papers)
  {
    if papers != [] {
      PartitionOkValue(papers[..|papers| - 1]);
    }
  }
}
