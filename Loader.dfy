/**
 * The snapshot loader script: `load_json_file` picks the papers out of a
 * parsed JSON file, and `main` loads them into the table.
 *
 * Reading and parsing the file are I/O: the outcome is a parameter. Creating
 * the table (DDL only) is reduced to whether it raises.
 */
module Loader {
  import opened Wrappers
  import opened JsonValue
  import opened Normalize
  import opened Upsert
  import UpsertFacts

  /** What opening and parsing the file gave. */
  datatype FileState = Missing | Unparsable | Parsed(data: Json)

  /** `batch_size` of the loader's insert. */
  const LoaderBatchSize: int := 100

  /** Values `len()` accepts. */
  predicate Sized(v: Json)
  {
    v.JList? || v.JStr? || v.JObj?
  }

  /**
   * `load_json_file`: a missing path raises FileNotFoundError, a file that
   * does not parse raises JSONDecodeError, a top-level list is the papers,
   * a dict with a `papers` key gives that value, anything else raises
   * ValueError; `len(papers)` then raises TypeError on a value without a
   * length.
   */
  function LoadJsonFile(file: FileState): (r: Result<Json>)
    ensures r.Ok? ==> Sized(r.value)
    ensures r == Err(ValueError) <==>
      file.Parsed? && !file.data.JList? && !(file.data.JObj? && "papers" in file.data.fields)
  {
    match file
    case Missing => Err(FileNotFound)
    case Unparsable => Err(JsonDecodeError)
    case Parsed(data) =>
      var papers :-
        if data.JList? then Ok(data)
        else if data.JObj? && "papers" in data.fields then Ok(data.fields["papers"])
        else Err(ValueError);
      if Sized(papers) then Ok(papers) else Err(TypeError)
  }

  /**
   * `main`, as the table after the run and the exit status. No file
   * argument exits 1; an empty (falsy) papers value returns, status 0,
   * before any table work; any exception exits 1. Iterating a non-empty
   * string or dict yields strings, none of which can be flattened, so the
   * insert skips them all and writes nothing.
   */
  function LoadMain(hasPath: bool, file: FileState, setupRaises: bool, db: Db, rejects: Paper -> bool): (Db, int)
  {
    if !hasPath then (db, 1)
    else
      match LoadJsonFile(file)
      case Err(_) => (db, 1)
      case Ok(papers) =>
        if !Truthy(papers) then (db, 0)
        else if setupRaises then (db, 1)
        else if !papers.JList? then (db, 0)
        else
          var out := InsertSpec(db, papers.items, LoaderBatchSize, rejects);
          (out.0, if out.1.Ok? then 0 else 1)
  }

  /**
   * A missing argument or a file that cannot be loaded exits 1 with the
   * table untouched; otherwise the status is 1 exactly when creating the
   * table raises, and 0 in every other case. A snapshot that is not a list
   * leaves the table as it was.
   */
  lemma LoadMainStatus(hasPath: bool, file: FileState, setupRaises: bool, db: Db, rejects: Paper -> bool)
    ensures var out := LoadMain(hasPath, file, setupRaises, db, rejects);
      (!hasPath || LoadJsonFile(file).Err? ==> out == (db, 1)) &&
      (hasPath && LoadJsonFile(file).Ok? ==>
        var papers := LoadJsonFile(file).value;
        (out.1 == 1 <==> Truthy(papers) && setupRaises) &&
        (out.1 != 1 ==> out.1 == 0) &&
        (!papers.JList? ==> out.0 == db))
  {
    if hasPath && LoadJsonFile(file).Ok? {
      var papers := LoadJsonFile(file).value;
      if papers.JList? && Truthy(papers) && !setupRaises {
        LoadMainList(file, db, rejects);
      }
    }
  }

  /**
   * A non-empty list of papers, once the table exists, leaves the table the
   * insert leaves; the insert succeeds and counts no more rows written than
   * there were records.
   */
  lemma LoadMainList(file: FileState, db: Db, rejects: Paper -> bool)
    requires LoadJsonFile(file).Ok? && LoadJsonFile(file).value.JList? && LoadJsonFile(file).value.items != []
    ensures var items := LoadJsonFile(file).value.items;
      var ins := InsertSpec(db, items, LoaderBatchSize, rejects);
      LoadMain(true, file, false, db, rejects) == (ins.0, 0) &&
      ins.1.Ok? && ins.1.value <= |items|
  {
    var papers := LoadJsonFile(file).value;
    assert Truthy(papers);
    var ins := InsertSpec(db, papers.items, LoaderBatchSize, rejects);
    LoaderInsert(db, papers.items, rejects);
    assert LoadMain(true, file, false, db, rejects) == (ins.0, if ins.1.Ok? then 0 else 1);
  }

  /** A list of papers every one of which is a dict. */
  predicate AllDicts(papers: Json)
  {
    papers.JList? && forall i | 0 <= i < |papers.items| :: papers.items[i].JObj?
  }

  /**
   * `main` as written: the insert's processing loop raises AttributeError at
   * the first record that is not a dict, because its `except` handler calls
   * `.get` on that record, and `main`'s handler exits 1. Table setup has run
   * by then and nothing has been written. Iterating a truthy string or dict
   * yields strings, so such a snapshot always exits 1.
   */
  function LoadMainAsWritten(hasPath: bool, file: FileState, setupRaises: bool, db: Db, rejects: Paper -> bool): (Db, int)
  {
    if !hasPath then (db, 1)
    else
      match LoadJsonFile(file)
      case Err(_) => (db, 1)
      case Ok(papers) =>
        if !Truthy(papers) then (db, 0)
        else if setupRaises then (db, 1)
        else if !papers.JList? || Partition(papers.items).Err? then (db, 1)
        else
          var out := InsertSpec(db, papers.items, LoaderBatchSize, rejects);
          (out.0, if out.1.Ok? then 0 else 1)
  }

  /**
   * The script as written exits 0 or 1, and 1 leaves the table as it was.
   * Once the file is loaded it exits 1 exactly when the papers are truthy
   * and either table setup raises or some paper is not a dict.
   */
  lemma LoadMainAsWrittenStatus(hasPath: bool, file: FileState, setupRaises: bool, db: Db, rejects: Paper -> bool)
    ensures var out := LoadMainAsWritten(hasPath, file, setupRaises, db, rejects);
      (out.1 == 0 || out.1 == 1) &&
      (out.1 == 1 ==> out.0 == db) &&
      (!hasPath || LoadJsonFile(file).Err? ==> out == (db, 1)) &&
      (hasPath && LoadJsonFile(file).Ok? ==>
        var papers := LoadJsonFile(file).value;
        (out.1 == 1 <==> Truthy(papers) && (setupRaises || !AllDicts(papers))))
  {
    if hasPath && LoadJsonFile(file).Ok? {
      var papers := LoadJsonFile(file).value;
      if papers.JList? {
        UpsertFacts.PartitionAgrees(papers.items);
        LoaderInsert(db, papers.items, rejects);
      }
    }
  }

  /**
   * The script as written and the one built on the corrected loop differ
   * exactly when a truthy snapshot reaches the insert holding something
   * other than dicts: `[{}, null]` exits 1 as written and 0 corrected.
   */
  lemma LoadMainAgrees(hasPath: bool, file: FileState, setupRaises: bool, db: Db, rejects: Paper -> bool)
    ensures LoadMainAsWritten(hasPath, file, setupRaises, db, rejects) == LoadMain(hasPath, file, setupRaises, db, rejects) <==>
      !(hasPath && LoadJsonFile(file).Ok? && Truthy(LoadJsonFile(file).value) && !setupRaises && !AllDicts(LoadJsonFile(file).value))
    ensures LoadMainAsWritten(true, Parsed(JList([EmptyObject, JNull])), false, db, rejects) == (db, 1)
    ensures LoadMain(true, Parsed(JList([EmptyObject, JNull])), false, db, rejects).1 == 0
  {
    LoadMainAsWrittenStatus(hasPath, file, setupRaises, db, rejects);
    LoadMainStatus(hasPath, file, setupRaises, db, rejects);
    if hasPath && LoadJsonFile(file).Ok? {
      var papers := LoadJsonFile(file).value;
      if papers.JList? {
        UpsertFacts.PartitionAgrees(papers.items);
      }
    }
    var bad := JList([EmptyObject, JNull]);
    assert !bad.items[1].JObj?;
    LoadMainAsWrittenStatus(true, Parsed(bad), false, db, rejects);
    LoadMainStatus(true, Parsed(bad), false, db, rejects);
  }

  /** The loader's insert, with its batch size of 100, succeeds and counts at most one row per record. */
  lemma LoaderInsert(db: Db, items: seq<Json>, rejects: Paper -> bool)
    ensures var ins := InsertSpec(db, items, LoaderBatchSize, rejects);
      ins.1.Ok? && ins.1.value <= |items|
  {
    UpsertFacts.InsertOutcome(db, items, LoaderBatchSize, rejects);
  }
}
