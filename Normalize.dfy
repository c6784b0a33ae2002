/**
 * The record flattener: `extract_doi` and `process_paper`, which turn one
 * OpenAlex work (a decoded JSON object) into the 22 values of a `papers` row.
 * The two scripts carry identical copies; this module models them once.
 */
module Normalize {
  import opened Wrappers
  import opened JsonValue
  import Text

  const OpenAlexPrefix: string := "https://openalex.org/"
  const DoiPrefix: string := "https://doi.org/"

  /** The 22 column values, in the column order of the INSERT statement. */
  datatype Paper = Paper(
    openalexId: string,
    doi: Json,
    title: Json,
    paperType: Json,
    publicationDate: Json,
    publicationYear: Json,
    primaryTopicName: Json,
    primaryTopicScore: Json,
    subfieldName: Json,
    fieldName: Json,
    domainName: Json,
    isOpenAccess: Json,
    oaStatus: Json,
    citedByCount: Json,
    citationPercentile: Json,
    isTop1Percent: Json,
    isTop10Percent: Json,
    citationPercentileMin: Json,
    citationPercentileMax: Json,
    fwci: Json,
    countriesCount: Json,
    institutionsCount: Json)

  /** `obj.get(key, default)`: raises AttributeError when `obj` is not a dict. */
  function PyGet(obj: Json, key: string, default: Json): Result<Json>
  {
    if obj.JObj? then Ok(Get(obj.fields, key, default)) else Err(AttributeError)
  }

  /** `obj.get(key, default) if obj else otherwise` */
  function GetIfTruthy(obj: Json, key: string, default: Json, otherwise: Json): Result<Json>
  {
    if Truthy(obj) then PyGet(obj, key, default) else Ok(otherwise)
  }

  /** `paper.get(key, 0) or 0` */
  function CountOrZero(m: map<string, Json>, key: string): Json
  {
    Or(Get(m, key, JInt(0)), JInt(0))
  }

  /** `extract_doi`: the `doi` value with a leading DOI resolver prefix removed, or None. */
  function ExtractDoi(m: map<string, Json>): (r: Result<Json>)
    ensures r.Ok? <==> (Truthy(Get(m, "doi", JNull)) ==> m["doi"].JStr?)
  {
    var doi := Get(m, "doi", JNull);
    if !Truthy(doi) then Ok(JNull)
    else if !doi.JStr? then Err(AttributeError)      // `.startswith` exists only on str
    else if Text.IsPrefix(DoiPrefix, doi.s) then Ok(JStr(Text.RemoveAll(doi.s, DoiPrefix)))
    else Ok(doi)
  }

  /** The flattened primary topic: (name, score, subfield name, field name, domain name). */
  function TopicColumns(m: map<string, Json>): (r: Result<(Json, Json, Json, Json, Json)>)
    ensures r.Ok? <==> TopicShaped(Get(m, "primary_topic", EmptyObject))
  {
    var primaryTopic := Get(m, "primary_topic", EmptyObject);
    var name :- GetIfTruthy(primaryTopic, "display_name", JNull, JNull);
    var score :- GetIfTruthy(primaryTopic, "score", JNull, JNull);
    var subfield :- GetIfTruthy(primaryTopic, "subfield", EmptyObject, EmptyObject);
    var subfieldName :- GetIfTruthy(subfield, "display_name", JNull, JNull);
    var field :- GetIfTruthy(primaryTopic, "field", EmptyObject, EmptyObject);
    var fieldName :- GetIfTruthy(field, "display_name", JNull, JNull);
    var domain :- GetIfTruthy(primaryTopic, "domain", EmptyObject, EmptyObject);
    var domainName :- GetIfTruthy(domain, "display_name", JNull, JNull);
    Ok((name, score, subfieldName, fieldName, domainName))
  }

  /** (is_open_access, oa_status) */
  function OpenAccessColumns(m: map<string, Json>): (r: Result<(Json, Json)>)
    ensures r.Ok? <==> DictIfTruthy(Get(m, "open_access", EmptyObject))
  {
    var openAccess := Get(m, "open_access", EmptyObject);
    var isOpenAccess :- GetIfTruthy(openAccess, "is_oa", JBool(false), JBool(false));
    var oaStatus :- GetIfTruthy(openAccess, "oa_status", JNull, JNull);
    Ok((isOpenAccess, oaStatus))
  }

  /** (citation_percentile, is_top_1_percent, is_top_10_percent, citation_percentile_min, citation_percentile_max) */
  function CitationColumns(m: map<string, Json>): (r: Result<(Json, Json, Json, Json, Json)>)
    ensures r.Ok? <==>
      DictIfTruthy(Get(m, "citation_normalized_percentile", EmptyObject)) &&
      DictIfTruthy(Get(m, "cited_by_percentile_year", EmptyObject))
  {
    var normalized := Get(m, "citation_normalized_percentile", EmptyObject);
    var percentile :- GetIfTruthy(normalized, "value", JNull, JNull);
    var top1 :- GetIfTruthy(normalized, "is_in_top_1_percent", JBool(false), JBool(false));
    var top10 :- GetIfTruthy(normalized, "is_in_top_10_percent", JBool(false), JBool(false));
    var byYear := Get(m, "cited_by_percentile_year", EmptyObject);
    var pctMin :- GetIfTruthy(byYear, "min", JNull, JNull);
    var pctMax :- GetIfTruthy(byYear, "max", JNull, JNull);
    Ok((percentile, top1, top10, pctMin, pctMax))
  }

  /** `process_paper`: the 22-value row for one raw work, or the exception it raises. */
  function ProcessPaper(paper: Json): (r: Result<Paper>)
    ensures r.Ok? <==> WellShaped(paper)
    ensures r.Ok? ==> r.value.fwci == JNull
  {
    if !paper.JObj? then Err(AttributeError) else
    var m := paper.fields;
    var rawId := Get(m, "id", JStr(""));
    if !rawId.JStr? then Err(AttributeError) else
    var doi :- ExtractDoi(m);
    var topic :- TopicColumns(m);
    var oa :- OpenAccessColumns(m);
    var cit :- CitationColumns(m);
    Ok(Paper(
      Text.RemoveAll(rawId.s, OpenAlexPrefix),
      doi,
      Or(Get(m, "title", JStr("")), Get(m, "display_name", JStr(""))),
      Get(m, "type", JNull),
      Get(m, "publication_date", JNull),
      Get(m, "publication_year", JNull),
      topic.0, topic.1, topic.2, topic.3, topic.4,
      oa.0, oa.1,
      CountOrZero(m, "cited_by_count"),
      cit.0, cit.1, cit.2, cit.3, cit.4,
      JNull,
      CountOrZero(m, "countries_distinct_count"),
      CountOrZero(m, "institutions_distinct_count")))
  }

  /** A value the code calls `.get` on only when it is truthy: it must then be a dict. */
  predicate DictIfTruthy(v: Json)
  {
    Truthy(v) ==> v.JObj?
  }

  /** A `primary_topic` value the flattener reads without raising. */
  predicate TopicShaped(primaryTopic: Json)
  {
    DictIfTruthy(primaryTopic) &&
    (Truthy(primaryTopic) ==>
      var t := primaryTopic.fields;
      DictIfTruthy(Get(t, "subfield", EmptyObject)) &&
      DictIfTruthy(Get(t, "field", EmptyObject)) &&
      DictIfTruthy(Get(t, "domain", EmptyObject)))
  }

  /**
   * The records `process_paper` accepts without raising, stated field by
   * field: a dict whose `id` is absent or a string, whose `doi` is falsy or a
   * string, and whose nested objects are each falsy or a dict.
   */
  predicate WellShaped(paper: Json)
  {
    paper.JObj? &&
    var m := paper.fields;
    ("id" in m ==> m["id"].JStr?) &&
    (Truthy(Get(m, "doi", JNull)) ==> m["doi"].JStr?) &&
    TopicShaped(Get(m, "primary_topic", EmptyObject)) &&
    DictIfTruthy(Get(m, "open_access", EmptyObject)) &&
    DictIfTruthy(Get(m, "citation_normalized_percentile", EmptyObject)) &&
    DictIfTruthy(Get(m, "cited_by_percentile_year", EmptyObject))
  }

  // ---------------------------------------------------------------------
  // What the flattener promises, field by field
  // ---------------------------------------------------------------------

  /**
   * `extract_doi` yields None exactly when `doi` is missing or falsy; a
   * string starting with the resolver prefix loses every occurrence of it, and
   * any other string comes back unchanged.
   */
  lemma ExtractDoiRules(m: map<string, Json>)
    ensures ExtractDoi(m) == Ok(JNull) <==> !Truthy(Get(m, "doi", JNull))
    ensures "doi" in m && m["doi"].JStr? && Text.IsPrefix(DoiPrefix, m["doi"].s) ==>
      ExtractDoi(m) == Ok(JStr(Text.RemoveAll(m["doi"].s, DoiPrefix)))
    ensures "doi" in m && m["doi"].JStr? && m["doi"].s != "" && !Text.IsPrefix(DoiPrefix, m["doi"].s) ==>
      ExtractDoi(m) == Ok(m["doi"])
  {
  }

  /** A resolver URL `https://doi.org/<t>` gives back the bare DOI `t`. */
  lemma ExtractDoiStripsResolver(m: map<string, Json>, t: string)
    requires "doi" in m && m["doi"] == JStr(DoiPrefix + t)
    requires !Text.Contains(t, DoiPrefix)
    ensures ExtractDoi(m) == Ok(JStr(t))
  {
    assert Text.IsPrefix(DoiPrefix, DoiPrefix + t);
    Text.StripPrefixOnce(DoiPrefix, t);
  }

  /**
   * `openalex_id` is the `id` string with every `https://openalex.org/`
   * removed, or "" when `id` is absent; an `id` that is present but not a
   * string (null included) makes the record raise.
   */
  lemma OpenAlexIdRule(m: map<string, Json>)
    ensures "id" in m && !m["id"].JStr? ==> ProcessPaper(JObj(m)).Err?
    ensures ProcessPaper(JObj(m)).Ok? ==>
      ProcessPaper(JObj(m)).value.openalexId ==
        if "id" in m then Text.RemoveAll(m["id"].s, OpenAlexPrefix) else ""
  {
  }

  /** A work URL `https://openalex.org/<w>` is stored under the bare key `w`. */
  lemma OpenAlexIdFromUrl(m: map<string, Json>, w: string)
    requires "id" in m && m["id"] == JStr(OpenAlexPrefix + w)
    requires !Text.Contains(w, OpenAlexPrefix)
    requires ProcessPaper(JObj(m)).Ok?
    ensures ProcessPaper(JObj(m)).value.openalexId == w
  {
    Text.StripPrefixOnce(OpenAlexPrefix, w);
  }

  /** `title` is `title` when truthy, else `display_name`, else "". */
  lemma TitleFallback(m: map<string, Json>)
    requires ProcessPaper(JObj(m)).Ok?
    ensures var title := ProcessPaper(JObj(m)).value.title;
      if "title" in m && Truthy(m["title"]) then title == m["title"]
      else if "display_name" in m then title == m["display_name"]
      else title == JStr("")
  {
  }

  /** The name of one nesting level: None when the level is missing or falsy. */
  function LevelName(t: map<string, Json>, key: string): Json
  {
    var level := Get(t, key, EmptyObject);
    if Truthy(level) && level.JObj? then Get(level.fields, "display_name", JNull) else JNull
  }

  /**
   * A missing or falsy `primary_topic` nulls the topic name, score, subfield,
   * field and domain; otherwise `subfield`, `field` and `domain` are read each
   * on its own, and a missing one nulls only its own name.
   */
  lemma TopicNesting(m: map<string, Json>)
    requires ProcessPaper(JObj(m)).Ok?
    ensures var p := ProcessPaper(JObj(m)).value;
      var topic := Get(m, "primary_topic", EmptyObject);
      if !Truthy(topic) then
        p.primaryTopicName == JNull && p.primaryTopicScore == JNull &&
        p.subfieldName == JNull && p.fieldName == JNull && p.domainName == JNull
      else
        p.primaryTopicName == Get(topic.fields, "display_name", JNull) &&
        p.primaryTopicScore == Get(topic.fields, "score", JNull) &&
        p.subfieldName == LevelName(topic.fields, "subfield") &&
        p.fieldName == LevelName(topic.fields, "field") &&
        p.domainName == LevelName(topic.fields, "domain")
  {
  }

  /** A truthy `primary_topic` that is not a dict makes the record raise. */
  lemma TopicMustBeDict(m: map<string, Json>)
    requires "primary_topic" in m && Truthy(m["primary_topic"]) && !m["primary_topic"].JObj?
    ensures ProcessPaper(JObj(m)).Err?
  {
  }

  /** `x.get(k, 0) or 0`: None, a missing key, 0 (and any falsy value) give 0; anything else, negative numbers included, passes through. */
  predicate ZeroDefault(m: map<string, Json>, key: string, v: Json)
  {
    if key in m && Truthy(m[key]) then v == m[key] else v == JInt(0)
  }

  /**
   * The three counters default to 0; the open-access and top-percent flags
   * default to False; `fwci` is always None.
   */
  lemma Defaults(m: map<string, Json>)
    requires ProcessPaper(JObj(m)).Ok?
    ensures var p := ProcessPaper(JObj(m)).value;
      ZeroDefault(m, "cited_by_count", p.citedByCount) &&
      ZeroDefault(m, "countries_distinct_count", p.countriesCount) &&
      ZeroDefault(m, "institutions_distinct_count", p.institutionsCount) &&
      (!Truthy(Get(m, "open_access", EmptyObject)) ==> p.isOpenAccess == JBool(false) && p.oaStatus == JNull) &&
      ("open_access" in m && Truthy(m["open_access"]) && "is_oa" !in m["open_access"].fields ==>
        p.isOpenAccess == JBool(false)) &&
      (!Truthy(Get(m, "citation_normalized_percentile", EmptyObject)) ==>
        p.citationPercentile == JNull && p.isTop1Percent == JBool(false) && p.isTop10Percent == JBool(false)) &&
      ("citation_normalized_percentile" in m && Truthy(m["citation_normalized_percentile"]) &&
        "is_in_top_1_percent" !in m["citation_normalized_percentile"].fields ==>
        p.isTop1Percent == JBool(false)) &&
      ("citation_normalized_percentile" in m && Truthy(m["citation_normalized_percentile"]) &&
        "is_in_top_10_percent" !in m["citation_normalized_percentile"].fields ==>
        p.isTop10Percent == JBool(false)) &&
      p.fwci == JNull
  {
  }

  /** A record that is not a dict cannot be flattened. */
  lemma NonObjectRaises(paper: Json)
    requires !paper.JObj?
    ensures ProcessPaper(paper) == Err(AttributeError)
  {
  }
}
