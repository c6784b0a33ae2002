/**
 * `fetch_recent_works`: page through the works whose primary topic lies in
 * the field, then those in the subfield, keeping the first work seen for
 * each `id`. The two copies (the fetch script and the pipeline) are
 * identical.
 *
 * The works endpoint is an HTTP call, so each filter's answers are a
 * parameter: `pages[p - 1]` is what page `p` returns, and every page past
 * the end is empty. The date filter, computed from the clock, is part of
 * those answers and is not modelled.
 */
module WorkFetch {
  import opened Wrappers
  import opened JsonValue

  /** `per_page` */
  const PerPage: nat := 200

  /**
   * `work.get('id')`: a work that is not an object raises; a truthy id that
   * is a list or a dict cannot be put in a set and raises TypeError.
   */
  function WorkId(work: Json): Result<Json>
  {
    if !work.JObj? then Err(AttributeError)
    else
      var id := Get(work.fields, "id", JNull);
      if Truthy(id) && (id.JList? || id.JObj?) then Err(TypeError) else Ok(id)
  }

  /** The ids already seen and the works kept so far. */
  datatype Acc = Acc(seen: set<Json>, kept: seq<Json>)

  /** The inner loop: each work whose id is truthy and unseen is kept and its id marked seen. */
  function Merge(acc: Acc, works: seq<Json>): Result<Acc>
  {
    if works == [] then Ok(acc)
    else
      var before :- Merge(acc, works[..|works| - 1]);
      var work := works[|works| - 1];
      var id :- WorkId(work);
      if Truthy(id) && id !in before.seen then Ok(Acc(before.seen + {id}, before.kept + [work]))
      else Ok(before)
  }

  /** What page `page` (counting from 1) returns. */
  function PageAt(pages: seq<seq<Json>>, page: nat): seq<Json>
  {
    if 1 <= page <= |pages| then pages[page - 1] else []
  }

  /**
   * The `while True` loop over one filter's pages: stop at an empty page;
   * merge a page; stop after a page shorter than `per_page`; otherwise go
   * on with the next page.
   */
  function Walk(acc: Acc, pages: seq<seq<Json>>): Result<Acc>
    decreases |pages|
  {
    if pages == [] || pages[0] == [] then Ok(acc)
    else
      var next :- Merge(acc, pages[0]);
      if |pages[0]| < PerPage then Ok(next) else Walk(next, pages[1..])
  }

  /** The whole fetch: the field's pages when there is a field id, then the subfield's. */
  function Fetch(fieldId: Json, subfieldId: Json, fieldPages: seq<seq<Json>>, subfieldPages: seq<seq<Json>>): Result<seq<Json>>
  {
    var afterField :- if Truthy(fieldId) then Walk(Acc({}, []), fieldPages) else Ok(Acc({}, []));
    var afterSubfield :- if Truthy(subfieldId) then Walk(afterField, subfieldPages) else Ok(afterField);
    Ok(afterSubfield.kept)
  }

  /** Once a work raises, the whole page raises the same error. */
  lemma {:induction false} MergeErrExtends(acc: Acc, works: seq<Json>, k: nat)
    requires k <= |works| && Merge(acc, works[..k]).Err?
    ensures Merge(acc, works) == Merge(acc, works[..k])
    decreases |works| - k
  {
    if k < |works| {
      var next := works[..k + 1];
      assert next[..|next| - 1] == works[..k];
      MergeErrExtends(acc, works, k + 1);
    } else {
      assert works[..k] == works;
    }
  }

  /** The pages of one filter, read until an empty or a short page. */
  method ReadPages(acc0: Acc, pages: seq<seq<Json>>) returns (r: Result<Acc>)
    ensures r == Walk(acc0, pages)
  {
    var seen := acc0.seen;
    var kept := acc0.kept;
    var page := 1;
    while true
      invariant 1 <= page <= |pages| + 1
      invariant Walk(acc0, pages) == Walk(Acc(seen, kept), pages[page - 1..])
      decreases |pages| + 1 - page
    {
      var works := PageAt(pages, page);
      if |works| == 0 {
        break;
      }
      ghost var start := Acc(seen, kept);
      assert pages[page - 1..][0] == works;
      for k := 0 to |works|
        invariant Merge(start, works[..k]) == Ok(Acc(seen, kept))
      {
        assert works[..k + 1][..k] == works[..k];
        var work := works[k];
        var id := WorkId(work);
        if id.Err? {
          MergeErrExtends(start, works, k + 1);
          return Err(id.error);
        }
        if Truthy(id.value) && id.value !in seen {
          seen := seen + {id.value};
          kept := kept + [work];
        }
      }
      assert works[..|works|] == works;
      if |works| < PerPage {
        break;
      }
      assert pages[page - 1..][1..] == pages[page..];
      page := page + 1;
    }
    return Ok(Acc(seen, kept));
  }

  /** `fetch_recent_works` */
  method FetchRecentWorks(fieldId: Json, subfieldId: Json, fieldPages: seq<seq<Json>>, subfieldPages: seq<seq<Json>>)
    returns (r: Result<seq<Json>>)
    ensures r == Fetch(fieldId, subfieldId, fieldPages, subfieldPages)
  {
    var acc := Acc({}, []);
    if Truthy(fieldId) {
      var res := ReadPages(acc, fieldPages);
      if res.Err? {
        return Err(res.error);
      }
      acc := res.value;
    }
    if Truthy(subfieldId) {
      var res := ReadPages(acc, subfieldPages);
      if res.Err? {
        return Err(res.error);
      }
      acc := res.value;
    }
    return Ok(acc.kept);
  }

  // ---------------------------------------------------------------------
  // Pagination
  // ---------------------------------------------------------------------

  /** How many pages of one filter are read and merged. */
  function ReadCount(pages: seq<seq<Json>>): (n: nat)
    ensures n <= |pages|
  {
    if pages == [] || pages[0] == [] then 0
    else if |pages[0]| < PerPage then 1
    else 1 + ReadCount(pages[1..])
  }

  /** The pages, one after the other. */
  function Concat(pages: seq<seq<Json>>): seq<Json>
  {
    if pages == [] then [] else Concat(pages[..|pages| - 1]) + pages[|pages| - 1]
  }

  /**
   * The loop reads pages 1, 2, ... one at a time: every page it reads but
   * the last is full, none of them is empty, and it stops at an empty page,
   * after a short page, or when the pages run out.
   */
  lemma {:induction false} ReadCountStops(pages: seq<seq<Json>>)
    ensures var n := ReadCount(pages);
      (forall p | 0 <= p < n :: pages[p] != []) &&
      (forall p | 0 <= p < n - 1 :: |pages[p]| >= PerPage) &&
      (n == |pages| || pages[n] == [] || (n > 0 && |pages[n - 1]| < PerPage))
  {
    if pages != [] && pages[0] != [] && |pages[0]| >= PerPage {
      ReadCountStops(pages[1..]);
    }
  }

  lemma {:induction false} ConcatAppend(a: seq<seq<Json>>, b: seq<seq<Json>>)
    ensures Concat(a + b) == Concat(a) + Concat(b)
    decreases |b|
  {
    if b != [] {
      var init := b[..|b| - 1];
      assert (a + b)[..|a + b| - 1] == a + init;
      ConcatAppend(a, init);
    } else {
      assert a + b == a;
    }
  }

  /** Merging two runs of works one after the other is merging their concatenation. */
  lemma {:induction false} MergeAppend(acc: Acc, a: seq<Json>, b: seq<Json>)
    ensures Merge(acc, a + b) == (var mid :- Merge(acc, a); Merge(mid, b))
    decreases |b|
  {
    if b == [] {
      assert a + b == a;
    } else {
      var init := b[..|b| - 1];
      assert (a + b)[..|a + b| - 1] == a + init;
      assert (a + b)[|a + b| - 1] == b[|b| - 1];
      MergeAppend(acc, a, init);
    }
  }

  /** Walking the pages merges exactly the works of the pages read, in order. */
  lemma {:induction false} WalkMergesPagesRead(acc: Acc, pages: seq<seq<Json>>)
    ensures Walk(acc, pages) == Merge(acc, Concat(pages[..ReadCount(pages)]))
    decreases |pages|
  {
    var n := ReadCount(pages);
    if pages == [] || pages[0] == [] {
      assert pages[..n] == [];
    } else {
      assert [pages[0]][..0] == [];
      assert Concat([pages[0]]) == pages[0];
      if |pages[0]| < PerPage {
        assert pages[..n] == [pages[0]];
      } else {
        var rest := pages[1..];
        if Merge(acc, pages[0]).Ok? {
          WalkMergesPagesRead(Merge(acc, pages[0]).value, rest);
        }
        assert pages[..n] == [pages[0]] + rest[..ReadCount(rest)];
        ConcatAppend([pages[0]], rest[..ReadCount(rest)]);
        MergeAppend(acc, pages[0], Concat(rest[..ReadCount(rest)]));
      }
    }
  }

  /** The works the fetch considers: the field's pages read, then the subfield's. */
  function Considered(fieldId: Json, subfieldId: Json, fieldPages: seq<seq<Json>>, subfieldPages: seq<seq<Json>>): seq<Json>
  {
    (if Truthy(fieldId) then Concat(fieldPages[..ReadCount(fieldPages)]) else []) +
    (if Truthy(subfieldId) then Concat(subfieldPages[..ReadCount(subfieldPages)]) else [])
  }

  /** The fetch is one merge, from nothing, over every work it reads. */
  lemma FetchIsMerge(fieldId: Json, subfieldId: Json, fieldPages: seq<seq<Json>>, subfieldPages: seq<seq<Json>>)
    ensures Fetch(fieldId, subfieldId, fieldPages, subfieldPages) ==
      (var acc :- Merge(Acc({}, []), Considered(fieldId, subfieldId, fieldPages, subfieldPages)); Ok(acc.kept))
  {
    var start := Acc({}, []);
    var f := if Truthy(fieldId) then Concat(fieldPages[..ReadCount(fieldPages)]) else [];
    var s := if Truthy(subfieldId) then Concat(subfieldPages[..ReadCount(subfieldPages)]) else [];
    assert Considered(fieldId, subfieldId, fieldPages, subfieldPages) == f + s;
    MergeAppend(start, f, s);
    var afterField := if Truthy(fieldId) then Walk(start, fieldPages) else Ok(start);
    if Truthy(fieldId) {
      WalkMergesPagesRead(start, fieldPages);
    } else {
      assert Merge(start, f) == Ok(start);
    }
    assert afterField == Merge(start, f);
    if afterField.Ok? {
      if Truthy(subfieldId) {
        WalkMergesPagesRead(afterField.value, subfieldPages);
      } else {
        assert Merge(afterField.value, s) == Ok(afterField.value);
      }
    }
  }

  // ---------------------------------------------------------------------
  // De-duplication against a reference definition
  // ---------------------------------------------------------------------

  predicate IdsReadable(works: seq<Json>)
  {
    forall j | 0 <= j < |works| :: WorkId(works[j]).Ok?
  }

  /** `works[j]` is the first work carrying its id, and that id is truthy. */
  predicate FirstWithId(works: seq<Json>, j: nat)
    requires IdsReadable(works) && j < |works|
  {
    var id := WorkId(works[j]).value;
    Truthy(id) && forall i | 0 <= i < j :: WorkId(works[i]).value != id
  }

  /** The works that are first with their id, in input order. */
  function Firsts(works: seq<Json>): seq<Json>
    requires IdsReadable(works)
  {
    if works == [] then []
    else
      var n := |works| - 1;
      Firsts(works[..n]) + (if FirstWithId(works, n) then [works[n]] else [])
  }

  /** The truthy ids among `works`. */
  function TruthyIds(works: seq<Json>): set<Json>
    requires IdsReadable(works)
  {
    set j | 0 <= j < |works| && Truthy(WorkId(works[j]).value) :: WorkId(works[j]).value
  }

  lemma InTruthyIds(works: seq<Json>, j: nat)
    requires IdsReadable(works) && j < |works| && Truthy(WorkId(works[j]).value)
    ensures WorkId(works[j]).value in TruthyIds(works)
  {
  }

  /** The truthy ids of a sequence are those of all but its last work, plus the last one's. */
  lemma TruthyIdsSnoc(works: seq<Json>)
    requires IdsReadable(works) && works != []
    ensures IdsReadable(works[..|works| - 1])
    ensures var id := WorkId(works[|works| - 1]).value;
      TruthyIds(works) == TruthyIds(works[..|works| - 1]) + (if Truthy(id) then {id} else {})
  {
    var n := |works| - 1;
    var init := works[..n];
    assert forall i | 0 <= i < n :: init[i] == works[i];
    var id := WorkId(works[n]).value;
    forall x | x in TruthyIds(works) ensures x in TruthyIds(init) + (if Truthy(id) then {id} else {}) {
      var j :| 0 <= j < |works| && Truthy(WorkId(works[j]).value) && WorkId(works[j]).value == x;
      if j < n {
        InTruthyIds(init, j);
      }
    }
    forall x | x in TruthyIds(init) ensures x in TruthyIds(works) {
      var j :| 0 <= j < |init| && Truthy(WorkId(init[j]).value) && WorkId(init[j]).value == x;
      InTruthyIds(works, j);
    }
    if Truthy(id) {
      InTruthyIds(works, n);
    }
  }

  /** The last work is first with its id exactly when its id is truthy and new. */
  lemma FirstWithIdLast(works: seq<Json>)
    requires IdsReadable(works) && works != []
    ensures IdsReadable(works[..|works| - 1])
    ensures var id := WorkId(works[|works| - 1]).value;
      FirstWithId(works, |works| - 1) <==> Truthy(id) && id !in TruthyIds(works[..|works| - 1])
  {
    var n := |works| - 1;
    var init := works[..n];
    assert forall i | 0 <= i < n :: init[i] == works[i];
    var id := WorkId(works[n]).value;
    if Truthy(id) && !FirstWithId(works, n) {
      var i :| 0 <= i < n && WorkId(works[i]).value == id;
      InTruthyIds(init, i);
    }
    if id in TruthyIds(init) {
      var i :| 0 <= i < |init| && Truthy(WorkId(init[i]).value) && WorkId(init[i]).value == id;
      assert WorkId(works[i]).value == id;
    }
  }

  /**
   * From nothing, the merge gets through exactly when every id can be read,
   * and then keeps exactly the first work of each truthy id, in input order,
   * having seen exactly the truthy ids.
   */
  lemma {:induction false} MergeKeepsFirsts(works: seq<Json>)
    ensures Merge(Acc({}, []), works).Ok? <==> IdsReadable(works)
    ensures IdsReadable(works) ==>
      Merge(Acc({}, []), works) == Ok(Acc(TruthyIds(works), Firsts(works)))
  {
    if works != [] {
      var n := |works| - 1;
      var init := works[..n];
      MergeKeepsFirsts(init);
      if IdsReadable(works) {
        TruthyIdsSnoc(works);
        FirstWithIdLast(works);
        var id := WorkId(works[n]).value;
        assert Merge(Acc({}, []), init) == Ok(Acc(TruthyIds(init), Firsts(init)));
        assert WorkId(works[n]) == Ok(id);
        if FirstWithId(works, n) {
          assert Merge(Acc({}, []), works) == Ok(Acc(TruthyIds(init) + {id}, Firsts(init) + [works[n]]));
        } else {
          assert Merge(Acc({}, []), works) == Ok(Acc(TruthyIds(init), Firsts(init)));
          assert Firsts(works) == Firsts(init);
          assert TruthyIds(works) == TruthyIds(init) + (if Truthy(id) then {id} else {});
          if Truthy(id) {
            assert id in TruthyIds(init);
            assert TruthyIds(init) + {id} == TruthyIds(init);
          } else {
            assert TruthyIds(init) + {} == TruthyIds(init);
          }
        }
      } else {
        var j :| 0 <= j < |works| && WorkId(works[j]).Err?;
        if j < n {
          assert init[j] == works[j];
        }
      }
    } else {
      assert TruthyIds(works) == {};
    }
  }

  /**
   * The kept works: each has a truthy id, no two share an id, and every
   * truthy id among the input is carried by one of them.
   */
  lemma {:induction false} FirstsUnique(works: seq<Json>)
    requires IdsReadable(works)
    ensures IdsReadable(Firsts(works))
    ensures forall i | 0 <= i < |Firsts(works)| :: Truthy(WorkId(Firsts(works)[i]).value)
    ensures forall i, j | 0 <= i < j < |Firsts(works)| ::
      WorkId(Firsts(works)[i]).value != WorkId(Firsts(works)[j]).value
    ensures TruthyIds(Firsts(works)) == TruthyIds(works)
  {
    if works != [] {
      var n := |works| - 1;
      var init := works[..n];
      TruthyIdsSnoc(works);
      FirstWithIdLast(works);
      FirstsUnique(init);
      var f := Firsts(init);
      var id := WorkId(works[n]).value;
      if FirstWithId(works, n) {
        var g := f + [works[n]];
        assert g[..|g| - 1] == f;
        forall i, j | 0 <= i < j < |g| ensures WorkId(g[i]).value != WorkId(g[j]).value {
          if j == |f| {
            assert g[i] == f[i];
            InTruthyIds(f, i);
          }
        }
        TruthyIdsSnoc(g);
        assert Firsts(works) == g;
        assert TruthyIds(g) == TruthyIds(f) + {id};
        assert TruthyIds(works) == TruthyIds(init) + {id};
      } else {
        assert Firsts(works) == f;
        assert TruthyIds(works) == TruthyIds(init);
      }
    }
  }

  /**
   * What `fetch_recent_works` returns: exactly the first work of each truthy
   * id among the field's pages read followed by the subfield's pages read,
   * in that order; no id twice; a later duplicate never replaces an earlier
   * one. It raises exactly when some work read has an unreadable id.
   */
  lemma FetchResult(fieldId: Json, subfieldId: Json, fieldPages: seq<seq<Json>>, subfieldPages: seq<seq<Json>>)
    ensures var works := Considered(fieldId, subfieldId, fieldPages, subfieldPages);
      var r := Fetch(fieldId, subfieldId, fieldPages, subfieldPages);
      (r.Ok? <==> IdsReadable(works)) &&
      (r.Ok? ==> (
        r.value == Firsts(works) && IdsReadable(r.value) &&
        (forall i, j | 0 <= i < j < |r.value| :: WorkId(r.value[i]).value != WorkId(r.value[j]).value) &&
        (forall i | 0 <= i < |r.value| :: Truthy(WorkId(r.value[i]).value)) &&
        TruthyIds(r.value) == TruthyIds(works)))
  {
    var works := Considered(fieldId, subfieldId, fieldPages, subfieldPages);
    FetchIsMerge(fieldId, subfieldId, fieldPages, subfieldPages);
    MergeKeepsFirsts(works);
    if IdsReadable(works) {
      FirstsUnique(works);
    }
  }
}
