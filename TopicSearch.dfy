/**
 * `search_ai_field_subfield`: find the OpenAlex field or subfield named
 * "artificial intelligence" among the topics a search returns. The two
 * copies (the fetch script and the pipeline) are identical.
 *
 * The two topic searches are HTTP calls, so their answers are parameters:
 * `topics` for the first search and `allTopics` for the broader one (asked
 * for 50 per page), which is only consulted when the first pass found
 * nothing. An id that was never assigned is `None`, here `JNull`.
 */
module TopicSearch {
  import opened Wrappers
  import opened JsonValue
  import opened Text
  import opened Normalize

  const Target: string := "artificial intelligence"

  /** The field id and the subfield id found so far. */
  datatype Ids = Ids(fieldId: Json, subfieldId: Json)

  const Unset: Ids := Ids(JNull, JNull)

  /**
   * `level.get('display_name', '').lower()` contains the target. Reading a
   * level that is not an object, or a name that is not a string, raises.
   */
  function NameMatches(level: Json): (r: Result<bool>)
    ensures r.Ok? ==> level.JObj?
  {
    var name :- PyGet(level, "display_name", JStr(""));
    if name.JStr? then Ok(Contains(Lower(name.s), Target)) else Err(AttributeError)
  }

  /**
   * `topic.get(key)` when it is truthy and its name matches: the level
   * object; `None` when the level is absent, falsy or does not match.
   */
  function LevelHit(topic: Json, key: string): (r: Result<Option<Json>>)
    ensures r.Ok? && r.value.Some? ==> r.value.value.JObj?
  {
    var level :- PyGet(topic, key, JNull);
    if !Truthy(level) then Ok(None)
    else
      var matched :- NameMatches(level);
      if matched then Ok(Some(level)) else Ok(None)
  }

  /**
   * `x.split('/')[-1] if x and '/' in x else x` for the `id` of a level.
   * `in` on a number raises TypeError; on a list or a dict it tests
   * membership, and `.split` then raises on anything but a string.
   */
  function ExtractId(idFull: Json): Result<Json>
  {
    if !Truthy(idFull) then Ok(idFull)
    else
      match idFull
      case JStr(s) => if '/' in s then Ok(JStr(LastSegment(s))) else Ok(idFull)
      case JList(items) => if JStr("/") in items then Err(AttributeError) else Ok(idFull)
      case JObj(fields) => if "/" in fields then Err(AttributeError) else Ok(idFull)
      case _ => Err(TypeError)
  }

  /** The `id` of a level object. */
  function LevelId(level: Json): Result<Json>
  {
    var idFull :- PyGet(level, "id", JNull);
    ExtractId(idFull)
  }

  /**
   * The first pass: the first topic whose field, or else whose subfield,
   * matches decides, and only that one id is assigned.
   */
  function FirstPass(topics: seq<Json>): Result<Ids>
  {
    if topics == [] then Ok(Unset)
    else
      var field :- LevelHit(topics[0], "field");
      if field.Some? then
        var id :- LevelId(field.value);
        Ok(Ids(id, JNull))
      else
        var subfield :- LevelHit(topics[0], "subfield");
        if subfield.Some? then
          var id :- LevelId(subfield.value);
          Ok(Ids(JNull, id))
        else FirstPass(topics[1..])
  }

  /** One topic of the broad pass: each id is assigned on a match while it is still falsy. */
  function BroadStep(ids: Ids, topic: Json): Result<Ids>
  {
    var field :- LevelHit(topic, "field");
    var fieldId :- if field.Some? && !Truthy(ids.fieldId) then LevelId(field.value) else Ok(ids.fieldId);
    var subfield :- LevelHit(topic, "subfield");
    var subfieldId :- if subfield.Some? && !Truthy(ids.subfieldId) then LevelId(subfield.value) else Ok(ids.subfieldId);
    Ok(Ids(fieldId, subfieldId))
  }

  /** The broad pass over `topics`, in order. */
  function BroadPass(ids: Ids, topics: seq<Json>): Result<Ids>
  {
    if topics == [] then Ok(ids)
    else
      var before :- BroadPass(ids, topics[..|topics| - 1]);
      BroadStep(before, topics[|topics| - 1])
  }

  predicate NoneFound(ids: Ids)
  {
    !Truthy(ids.fieldId) && !Truthy(ids.subfieldId)
  }

  /** The whole search: first pass, broad pass when needed, ValueError when both ids are still falsy. */
  function Search(topics: seq<Json>, allTopics: seq<Json>): Result<Ids>
  {
    var first :- FirstPass(topics);
    var ids :- if NoneFound(first) then BroadPass(first, allTopics) else Ok(first);
    if NoneFound(ids) then Err(ValueError) else Ok(ids)
  }

  /** `search_ai_field_subfield` */
  method SearchAiFieldSubfield(topics: seq<Json>, allTopics: seq<Json>) returns (r: Result<Ids>)
    ensures r == Search(topics, allTopics)
  {
    var ids :- ScanFirst(topics);
    if NoneFound(ids) {
      ids :- ScanBroad(ids, allTopics);
    }
    if NoneFound(ids) {
      return Err(ValueError);
    }
    return Ok(ids);
  }

  /** The first loop of `search_ai_field_subfield`: it breaks at the first match. */
  method ScanFirst(topics: seq<Json>) returns (r: Result<Ids>)
    ensures r == FirstPass(topics)
  {
    var fieldId := JNull;
    var subfieldId := JNull;
    var i := 0;
    while i < |topics|
      invariant 0 <= i <= |topics|
      invariant FirstPass(topics) == FirstPass(topics[i..])
      invariant fieldId == JNull && subfieldId == JNull
    {
      var topic := topics[i];
      assert topics[i..][0] == topic && topics[i..][1..] == topics[i + 1..];
      var field := LevelHit(topic, "field");
      if field.Err? {
        return Err(field.error);
      }
      if field.value.Some? {
        var id := LevelId(field.value.value);
        if id.Err? {
          return Err(id.error);
        }
        fieldId := id.value;
        break;
      }
      var subfield := LevelHit(topic, "subfield");
      if subfield.Err? {
        return Err(subfield.error);
      }
      if subfield.value.Some? {
        var id := LevelId(subfield.value.value);
        if id.Err? {
          return Err(id.error);
        }
        subfieldId := id.value;
        break;
      }
      i := i + 1;
    }
    return Ok(Ids(fieldId, subfieldId));
  }

  /** The second loop of `search_ai_field_subfield`, over the broader search. */
  method ScanBroad(first: Ids, allTopics: seq<Json>) returns (r: Result<Ids>)
    ensures r == BroadPass(first, allTopics)
  {
    var fieldId := first.fieldId;
    var subfieldId := first.subfieldId;
    for j := 0 to |allTopics|
      invariant BroadPass(first, allTopics[..j]) == Ok(Ids(fieldId, subfieldId))
    {
      assert allTopics[..j + 1][..j] == allTopics[..j];
      var topic := allTopics[j];
      var field := LevelHit(topic, "field");
      if field.Err? {
        BroadPassErrExtends(first, allTopics, j + 1);
        return Err(field.error);
      }
      if field.value.Some? && !Truthy(fieldId) {
        var id := LevelId(field.value.value);
        if id.Err? {
          BroadPassErrExtends(first, allTopics, j + 1);
          return Err(id.error);
        }
        fieldId := id.value;
      }
      var subfield := LevelHit(topic, "subfield");
      if subfield.Err? {
        BroadPassErrExtends(first, allTopics, j + 1);
        return Err(subfield.error);
      }
      if subfield.value.Some? && !Truthy(subfieldId) {
        var id := LevelId(subfield.value.value);
        if id.Err? {
          BroadPassErrExtends(first, allTopics, j + 1);
          return Err(id.error);
        }
        subfieldId := id.value;
      }
    }
    assert allTopics[..|allTopics|] == allTopics;
    return Ok(Ids(fieldId, subfieldId));
  }

  /** Once a topic of the broad pass raises, the whole pass raises the same error. */
  lemma {:induction false} BroadPassErrExtends(ids: Ids, topics: seq<Json>, k: nat)
    requires k <= |topics| && BroadPass(ids, topics[..k]).Err?
    ensures BroadPass(ids, topics) == BroadPass(ids, topics[..k])
    decreases |topics| - k
  {
    if k < |topics| {
      var next := topics[..k + 1];
      assert next[..|next| - 1] == topics[..k];
      BroadPassErrExtends(ids, topics, k + 1);
    } else {
      assert topics[..k] == topics;
    }
  }

  // ---------------------------------------------------------------------
  // Lemmas
  // ---------------------------------------------------------------------

  /**
   * An id with a '/' becomes its last segment, which holds no '/' and
   * follows the last '/' of the original; an id without one is kept.
   */
  lemma ExtractIdRule(s: string)
    requires s != []
    ensures '/' in s ==> (
      ExtractId(JStr(s)).Ok? &&
      var r := ExtractId(JStr(s)).value.s;
      '/' !in r && |r| < |s| && s[|s| - |r|..] == r && s[|s| - |r| - 1] == '/')
    ensures '/' !in s ==> ExtractId(JStr(s)) == Ok(JStr(s))
  {
    LastSegmentShape(s);
  }

  /** The first pass assigns at most one of the two ids. */
  lemma {:induction false} FirstPassAtMostOne(topics: seq<Json>)
    requires FirstPass(topics).Ok?
    ensures FirstPass(topics).value.fieldId == JNull || FirstPass(topics).value.subfieldId == JNull
  {
    if topics != [] {
      var field := LevelHit(topics[0], "field");
      if field.value.None? {
        var subfield := LevelHit(topics[0], "subfield");
        if subfield.value.None? {
          FirstPassAtMostOne(topics[1..]);
        }
      }
    }
  }

  /** A topic that matches neither on its field nor on its subfield. */
  predicate Misses(topic: Json)
  {
    LevelHit(topic, "field") == Ok(None) && LevelHit(topic, "subfield") == Ok(None)
  }

  /**
   * The first pass stops at the first topic that matches: when topic `k`
   * is the first one whose field matches, the field id is that topic's
   * field id and the subfield id stays unset.
   */
  lemma {:induction false} FirstPassFieldHit(topics: seq<Json>, k: nat, level: Json)
    requires k < |topics| && forall i | 0 <= i < k :: Misses(topics[i])
    requires LevelHit(topics[k], "field") == Ok(Some(level))
    ensures FirstPass(topics) == (var id :- LevelId(level); Ok(Ids(id, JNull)))
  {
    if k > 0 {
      assert Misses(topics[0]);
      FirstPassFieldHit(topics[1..], k - 1, level);
    }
  }

  /**
   * When topic `k` is the first that matches and it matches only on its
   * subfield, the subfield id is that topic's subfield id and the field id
   * stays unset.
   */
  lemma {:induction false} FirstPassSubfieldHit(topics: seq<Json>, k: nat, level: Json)
    requires k < |topics| && forall i | 0 <= i < k :: Misses(topics[i])
    requires LevelHit(topics[k], "field") == Ok(None)
    requires LevelHit(topics[k], "subfield") == Ok(Some(level))
    ensures FirstPass(topics) == (var id :- LevelId(level); Ok(Ids(JNull, id)))
  {
    if k > 0 {
      assert Misses(topics[0]);
      FirstPassSubfieldHit(topics[1..], k - 1, level);
    }
  }

  /** When no topic matches, the first pass assigns nothing. */
  lemma {:induction false} FirstPassNoHit(topics: seq<Json>)
    requires forall i | 0 <= i < |topics| :: Misses(topics[i])
    ensures FirstPass(topics) == Ok(Unset)
  {
    if topics != [] {
      assert Misses(topics[0]);
      FirstPassNoHit(topics[1..]);
    }
  }

  /** The broad pass never replaces an id once it is truthy. */
  lemma {:induction false} BroadPassKeeps(ids: Ids, topics: seq<Json>)
    requires BroadPass(ids, topics).Ok?
    ensures Truthy(ids.fieldId) ==> BroadPass(ids, topics).value.fieldId == ids.fieldId
    ensures Truthy(ids.subfieldId) ==> BroadPass(ids, topics).value.subfieldId == ids.subfieldId
  {
    if topics != [] {
      BroadPassKeeps(ids, topics[..|topics| - 1]);
    }
  }

  /**
   * The broad pass assigns the field id at the first match: when the field
   * id is still falsy after the topics before `k` and topic `k`'s field
   * matches with a truthy id, the pass ends with that id.
   */
  lemma {:induction false} BroadPassFieldFirst(ids: Ids, topics: seq<Json>, k: nat, level: Json, id: Json)
    requires k < |topics| && BroadPass(ids, topics).Ok?
    requires BroadPass(ids, topics[..k]).Ok? && !Truthy(BroadPass(ids, topics[..k]).value.fieldId)
    requires LevelHit(topics[k], "field") == Ok(Some(level)) && LevelId(level) == Ok(id) && Truthy(id)
    ensures BroadPass(ids, topics).value.fieldId == id
    decreases |topics|
  {
    var init := topics[..|topics| - 1];
    BroadPassOkInit(ids, topics);
    if k == |topics| - 1 {
      assert init == topics[..k];
    } else {
      assert init[..k] == topics[..k];
      BroadPassFieldFirst(ids, init, k, level, id);
    }
  }

  /**
   * The subfield twin: when the subfield id is still falsy after the topics
   * before `k` and topic `k`'s subfield matches with a truthy id, the pass
   * ends with that id.
   */
  lemma {:induction false} BroadPassSubfieldFirst(ids: Ids, topics: seq<Json>, k: nat, level: Json, id: Json)
    requires k < |topics| && BroadPass(ids, topics).Ok?
    requires BroadPass(ids, topics[..k]).Ok? && !Truthy(BroadPass(ids, topics[..k]).value.subfieldId)
    requires LevelHit(topics[k], "subfield") == Ok(Some(level)) && LevelId(level) == Ok(id) && Truthy(id)
    ensures BroadPass(ids, topics).value.subfieldId == id
    decreases |topics|
  {
    var init := topics[..|topics| - 1];
    BroadPassOkInit(ids, topics);
    if k == |topics| - 1 {
      assert init == topics[..k];
    } else {
      assert init[..k] == topics[..k];
      BroadPassSubfieldFirst(ids, init, k, level, id);
    }
  }

  /** A broad pass that gets through got through every prefix. */
  lemma BroadPassOkInit(ids: Ids, topics: seq<Json>)
    requires topics != [] && BroadPass(ids, topics).Ok?
    ensures BroadPass(ids, topics[..|topics| - 1]).Ok?
  {
  }

  /**
   * The search raises ValueError exactly when both passes get through and
   * leave both ids falsy; when it succeeds, at least one id is truthy, and
   * a truthy result of the first pass is returned as it is.
   */
  lemma SearchOutcome(topics: seq<Json>, allTopics: seq<Json>)
    ensures Search(topics, allTopics).Ok? ==> !NoneFound(Search(topics, allTopics).value)
    ensures FirstPass(topics).Ok? && !NoneFound(FirstPass(topics).value) ==>
      Search(topics, allTopics) == FirstPass(topics)
    ensures Search(topics, allTopics) == Err(ValueError) <==>
      FirstPass(topics).Ok? &&
      (var first := FirstPass(topics).value;
       NoneFound(first) && BroadPass(first, allTopics).Ok? && NoneFound(BroadPass(first, allTopics).value))
  {
    if FirstPass(topics).Ok? && NoneFound(FirstPass(topics).value) {
      NeverValueError(FirstPass(topics).value, allTopics);
    }
    NeverValueErrorFirst(topics);
  }

  /** Only the final check raises ValueError: the broad pass does not. */
  lemma {:induction false} NeverValueError(ids: Ids, topics: seq<Json>)
    ensures BroadPass(ids, topics) != Err(ValueError)
  {
    if topics != [] {
      NeverValueError(ids, topics[..|topics| - 1]);
    }
  }

  /** Only the final check raises ValueError: the first pass does not. */
  lemma {:induction false} NeverValueErrorFirst(topics: seq<Json>)
    ensures FirstPass(topics) != Err(ValueError)
  {
    if topics != [] {
      NeverValueErrorFirst(topics[1..]);
    }
  }

  /**
   * The name check ignores case: a name matches exactly when its lower-cased
   * form does, so "Artificial Intelligence" matches.
   */
  lemma CaseInsensitive(name: string)
    ensures NameMatches(JObj(map["display_name" := JStr(name)])) ==
      NameMatches(JObj(map["display_name" := JStr(Lower(name))]))
    ensures NameMatches(JObj(map["display_name" := JStr("Artificial Intelligence")])) == Ok(true)
  {
    LowerIdempotent(name);
    assert Lower("Artificial Intelligence") == Target;
    assert IsPrefix(Target, Target);
  }

  /** Lower-casing twice is lower-casing once. */
  lemma LowerIdempotent(s: string)
    ensures Lower(Lower(s)) == Lower(s)
  {
    forall i | 0 <= i < |s|
      ensures Lower(Lower(s))[i] == Lower(s)[i]
    {
      assert Lower(s)[i] == LowerChar(s[i]);
    }
  }
}
