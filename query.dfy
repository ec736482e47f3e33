/**
 * Query construction of the ERI connector: every operation turns its request
 * into a URL template and a placeholder map before calling the dataset.
 */
module QueryBuilder {
  import opened Wrappers
  import opened Transport

  const LimitField: string := "limitValue"
  const LimitValue: int := 50
  const BaseQuery: string := "?$limit={limitValue}"

  const Where: string := "&$where="
  const Like: string := " like "
  const Is: string := "="
  const And: string := " AND "

  const FieldIncidentType: string := "incident_type"
  const FieldBorough: string := "borough"
  const FieldAddress: string := "location"

  /** The parameters every operation starts from: the row limit alone. */
  const BaseParams: map<string, Param> := map[LimitField := Num(LimitValue)]

  /** A query that asks for at most 50 rows through the limit placeholder. */
  ghost predicate Limited(q: Query)
  {
    BaseQuery <= q.url && LimitField in q.params && q.params[LimitField] == Num(LimitValue)
  }

  // ---------------------------------------------------------------- all

  /** The query of `all`: the base query and the limit, nothing else. */
  function AllQuery(): (q: Query)
    ensures Limited(q)
    ensures q.url == BaseQuery && q.params.Keys == {LimitField}
  {
    Query(BaseQuery, BaseParams)
  }

  // ---------------------------------------------------------------- search

  /** The conditions `search` keeps: those with a non-null value, in order. */
  function Kept(cs: seq<Condition>): (ks: seq<Condition>)
    ensures |ks| <= |cs|
    ensures forall k :: k in ks ==> k in cs && k.value.Some?
  {
    if cs == [] then []
    else (if cs[0].value.Some? then [cs[0]] else []) + Kept(cs[1..])
  }

  /** The text of one search clause: a prefix match against the condition's own placeholder. */
  function ClauseText(c: Condition): string
  {
    c.id + Like + "'{" + c.id + "}%'"
  }

  function Clauses(ks: seq<Condition>): (ts: seq<string>)
    ensures |ts| == |ks|
  {
    seq(|ks|, i requires 0 <= i < |ks| => ClauseText(ks[i]))
  }

  /** `parts` with `sep` between each two neighbours. */
  function Join(parts: seq<string>, sep: string): string
  {
    if |parts| == 0 then ""
    else if |parts| == 1 then parts[0]
    else parts[0] + sep + Join(parts[1..], sep)
  }

  /** Each clause with " AND " written before it. */
  function AndEach(ks: seq<Condition>): string
  {
    if ks == [] then "" else And + ClauseText(ks[0]) + AndEach(ks[1..])
  }

  /** The URL `search` builds: the base query, then the kept clauses after one `&$where=`, joined by ` AND `. */
  function SearchUrl(cs: seq<Condition>): (u: string)
    ensures BaseQuery <= u
  {
    PrefixGrows(BaseQuery, BaseQuery, Filter(Kept(cs)));
    BaseQuery + Filter(Kept(cs))
  }

  /** The filter of kept clauses: empty, or `&$where=` and the clauses joined by ` AND `. */
  function Filter(ks: seq<Condition>): string
  {
    if ks == [] then "" else Where + Join(Clauses(ks), And)
  }

  /** The parameter map `search` builds: the limit, then one put per kept condition, in order. */
  function SearchParams(cs: seq<Condition>): (p: map<string, Param>)
    ensures LimitField in p
    ensures forall k :: k in p && k != LimitField ==> exists c :: c in cs && c.value.Some? && c.id == k
  {
    if cs == [] then BaseParams
    else
      var c := cs[|cs| - 1];
      var p := SearchParams(cs[..|cs| - 1]);
      if c.value.Some? then p[c.id := Text(c.value.value)] else p
  }

  /** The query of `search`: the URL and the parameter map above. */
  function SearchQuery(cs: seq<Condition>): (q: Query)
    ensures BaseQuery <= q.url && LimitField in q.params
  {
    Query(SearchUrl(cs), SearchParams(cs))
  }

  /**
   * `search`'s loop over the conditions, which appends to the URL, counts the
   * kept clauses and puts their values into the parameter map.
   */
  method BuildSearch(conditions: seq<Condition>) returns (q: Query)
    ensures q == SearchQuery(conditions)
    ensures Limited(q) || exists i :: 0 <= i < |conditions| && conditions[i].value.Some? && conditions[i].id == LimitField
  {
    var params := BaseParams;
    var url := BaseQuery;
    var count := 0;
    for i := 0 to |conditions|
      invariant count == |Kept(conditions[..i])|
      invariant url == SearchUrl(conditions[..i])
      invariant params == SearchParams(conditions[..i])
    {
      var condition := conditions[i];
      SearchStep(conditions, i);
      if condition.value.Some? {
        url := url + (if count == 0 then Where else And);
        params := params[condition.id := Text(condition.value.value)];
        url := url + ClauseText(condition);
        count := count + 1;
      }
    }
    assert conditions[..|conditions|] == conditions;
    q := Query(url, params);
    SearchLimit(conditions);
  }

  /** The loop step of `search`: condition `i` extends the count, the URL and the map built from the earlier ones. */
  lemma SearchStep(cs: seq<Condition>, i: nat)
    requires i < |cs|
    ensures var c, p := cs[i], cs[..i];
      |Kept(cs[..i + 1])| == |Kept(p)| + (if c.value.Some? then 1 else 0) &&
      SearchUrl(cs[..i + 1]) == (if c.value.None? then SearchUrl(p)
        else SearchUrl(p) + (if |Kept(p)| == 0 then Where else And) + ClauseText(c)) &&
      SearchParams(cs[..i + 1]) == (if c.value.None? then SearchParams(p)
        else SearchParams(p)[c.id := Text(c.value.value)])
  {
    var c, p := cs[i], cs[..i];
    assert cs[..i + 1] == p + [c];
    KeptSnoc(p, c);
    SearchUrlSnoc(p, c);
    SearchParamsSnoc(p, c);
    if c.value.Some? {
      Associative(SearchUrl(p), if |Kept(p)| == 0 then Where else And, ClauseText(c));
    }
  }

  /** One more condition: a kept one appends its clause after `&$where=` (the first) or ` AND ` (any later one). */
  lemma SearchUrlSnoc(cs: seq<Condition>, c: Condition)
    ensures SearchUrl(cs + [c]) == SearchUrl(cs) +
      (if c.value.None? then "" else (if |Kept(cs)| == 0 then Where else And) + ClauseText(c))
  {
    KeptSnoc(cs, c);
    var ks := Kept(cs);
    if c.value.Some? {
      FilterSnoc(ks, c);
      var tail := (if ks == [] then Where else And) + ClauseText(c);
      assert Filter(ks + [c]) == Filter(ks) + tail by {
        Associative(Filter(ks), if ks == [] then Where else And, ClauseText(c));
      }
      Associative(BaseQuery, Filter(ks), tail);
    } else {
      assert Kept(cs + [c]) == ks;
    }
  }

  /** Regrouping a concatenation, stated once so that the URL proofs need not rediscover it. */
  lemma Associative(a: string, b: string, c: string)
    ensures a + b + c == a + (b + c)
  {}

  lemma FilterSnoc(ks: seq<Condition>, c: Condition)
    ensures Filter(ks + [c]) == Filter(ks) + (if ks == [] then Where else And) + ClauseText(c)
  {
    if ks != [] {
      JoinSnoc(Clauses(ks), ClauseText(c), And);
      assert Clauses(ks + [c]) == Clauses(ks) + [ClauseText(c)];
    } else {
      assert ks + [c] == [c];
      assert Clauses([c]) == [ClauseText(c)];
    }
  }

  /** One more condition: a kept one puts its value under its id. */
  lemma SearchParamsSnoc(cs: seq<Condition>, c: Condition)
    ensures SearchParams(cs + [c]) ==
      (if c.value.None? then SearchParams(cs) else SearchParams(cs)[c.id := Text(c.value.value)])
  {
    assert (cs + [c])[..|cs|] == cs;
  }

  lemma {:induction false} KeptSnoc(cs: seq<Condition>, c: Condition)
    ensures Kept(cs + [c]) == Kept(cs) + (if c.value.Some? then [c] else [])
    decreases |cs|
  {
    if cs == [] {
      assert [c][1..] == [];
    } else {
      assert (cs + [c])[1..] == cs[1..] + [c];
      KeptSnoc(cs[1..], c);
    }
  }

  lemma {:induction false} JoinSnoc(parts: seq<string>, p: string, sep: string)
    requires |parts| >= 1
    ensures Join(parts + [p], sep) == Join(parts, sep) + sep + p
    decreases |parts|
  {
    if |parts| == 1 {
      assert (parts + [p])[1..] == [p];
    } else {
      assert (parts + [p])[1..] == parts[1..] + [p];
      JoinSnoc(parts[1..], p, sep);
    }
  }

  /** The kept conditions are exactly the conditions with a value. */
  lemma {:induction false} KeptMembers(cs: seq<Condition>, c: Condition)
    ensures c in Kept(cs) <==> c in cs && c.value.Some?
    decreases |cs|
  {
    if cs != [] {
      KeptMembers(cs[1..], c);
      assert cs == [cs[0]] + cs[1..];
    }
  }

  /** Nothing is kept exactly when every value is null. */
  lemma {:induction false} KeptEmpty(cs: seq<Condition>)
    ensures Kept(cs) == [] <==> forall i :: 0 <= i < |cs| ==> cs[i].value.None?
    decreases |cs|
  {
    if cs != [] {
      KeptEmpty(cs[1..]);
      assert forall i :: 1 <= i < |cs| ==> cs[i] == cs[1..][i - 1];
    }
  }

  /** The first kept condition, which takes the `&$where=` slot, is the first condition with a value. */
  lemma {:induction false} KeptFirst(cs: seq<Condition>, i: nat)
    requires i < |cs| && cs[i].value.Some?
    requires forall j :: 0 <= j < i ==> cs[j].value.None?
    ensures Kept(cs) != [] && Kept(cs)[0] == cs[i]
    decreases i
  {
    if i > 0 {
      KeptFirst(cs[1..], i - 1);
    }
  }

  lemma {:induction false} JoinAsAndEach(ks: seq<Condition>)
    requires |ks| >= 1
    ensures Join(Clauses(ks), And) == ClauseText(ks[0]) + AndEach(ks[1..])
    decreases |ks|
  {
    if |ks| > 1 {
      assert Clauses(ks)[1..] == Clauses(ks[1..]);
      JoinAsAndEach(ks[1..]);
      assert ks[1..][1..] == ks[2..];
    }
  }

  /** With every value null, `search` sends the base query and the limit only. */
  lemma SearchAllNull(cs: seq<Condition>)
    ensures (forall i :: 0 <= i < |cs| ==> cs[i].value.None?) <==> SearchUrl(cs) == BaseQuery
    ensures (forall i :: 0 <= i < |cs| ==> cs[i].value.None?) ==> SearchParams(cs) == BaseParams
  {
    KeptEmpty(cs);
    if Kept(cs) != [] {
      assert |SearchUrl(cs)| > |BaseQuery|;
    }
    if forall i :: 0 <= i < |cs| ==> cs[i].value.None? {
      SearchParamsKeys(cs);
      SearchParamsNoneKept(cs);
    }
  }

  lemma {:induction false} SearchParamsNoneKept(cs: seq<Condition>)
    requires forall i :: 0 <= i < |cs| ==> cs[i].value.None?
    ensures SearchParams(cs) == BaseParams
    decreases |cs|
  {
    if cs != [] {
      SearchParamsNoneKept(cs[..|cs| - 1]);
    }
  }

  /**
   * With k >= 1 kept conditions the URL is the base query, `&$where=` and the
   * first kept clause, then ` AND ` and the clause of each of the other k-1.
   */
  lemma SearchUrlShape(cs: seq<Condition>)
    requires Kept(cs) != []
    ensures SearchUrl(cs) == BaseQuery + Where + ClauseText(Kept(cs)[0]) + AndEach(Kept(cs)[1..])
  {
    var ks := Kept(cs);
    var first, rest := ClauseText(ks[0]), AndEach(ks[1..]);
    JoinAsAndEach(ks);
    assert Filter(ks) == Where + (first + rest);
    Associative(BaseQuery, Where, first + rest);
    Associative(BaseQuery + Where, first, rest);
  }

  /** A name is a parameter of `search` exactly when it is the limit or the id of a kept condition. */
  lemma {:induction false} SearchParamsKeys(cs: seq<Condition>)
    ensures forall x :: x in SearchParams(cs) <==>
      x == LimitField || exists i :: 0 <= i < |cs| && cs[i].value.Some? && cs[i].id == x
    decreases |cs|
  {
    if cs != [] {
      var init := cs[..|cs| - 1];
      SearchParamsKeys(init);
      assert forall i :: 0 <= i < |init| ==> init[i] == cs[i];
    }
  }

  /** A kept condition's value is what its id maps to, unless a later kept condition reuses that id. */
  lemma {:induction false} SearchParamsValue(cs: seq<Condition>, i: nat)
    requires i < |cs| && cs[i].value.Some?
    requires forall j :: i < j < |cs| && cs[j].value.Some? ==> cs[j].id != cs[i].id
    ensures cs[i].id in SearchParams(cs) && SearchParams(cs)[cs[i].id] == Text(cs[i].value.value)
    decreases |cs|
  {
    if i < |cs| - 1 {
      var init := cs[..|cs| - 1];
      SearchParamsValue(init, i);
    }
  }

  /** The limit survives unless a kept condition is itself named `limitValue`. */
  lemma {:induction false} SearchParamsLimit(cs: seq<Condition>)
    requires forall i :: 0 <= i < |cs| && cs[i].value.Some? ==> cs[i].id != LimitField
    ensures LimitField in SearchParams(cs) && SearchParams(cs)[LimitField] == Num(LimitValue)
    decreases |cs|
  {
    if cs != [] {
      SearchParamsLimit(cs[..|cs| - 1]);
    }
  }

  lemma SearchLimit(cs: seq<Condition>)
    ensures Limited(SearchQuery(cs)) || exists i :: 0 <= i < |cs| && cs[i].value.Some? && cs[i].id == LimitField
  {
    if forall i :: 0 <= i < |cs| && cs[i].value.Some? ==> cs[i].id != LimitField {
      SearchParamsLimit(cs);
    }
  }

  /**
   * A kept condition named `limitValue` replaces the limit: the last such
   * condition's value is what the placeholder is bound to.
   */
  lemma SearchConditionOverridesLimit(cs: seq<Condition>, i: nat)
    requires i < |cs| && cs[i].value.Some? && cs[i].id == LimitField
    requires forall j :: i < j < |cs| && cs[j].value.Some? ==> cs[j].id != LimitField
    ensures LimitField in SearchParams(cs) && SearchParams(cs)[LimitField] == Text(cs[i].value.value)
  {
    SearchParamsValue(cs, i);
  }

  // ---------------------------------------------------------------- find like this

  /** The value of a seed property as put into the map: absent properties put `null`. */
  function PropertyParam(props: map<string, string>, id: string): Param
  {
    if id in props then Text(props[id]) else Null
  }

  /** The query of `findLikeThisIncident`, built from the first seed's PT1 only. */
  function FindLikeThisQuery(seeds: seq<Seed>): (r: Result<Query, Error>)
    ensures r.Failure? <==> seeds == []
    ensures r.Failure? ==> r.error == NoSeed
  {
    if seeds == [] then Failure(NoSeed)
    else
      var seed := seeds[0];
      Success(Query(BaseQuery + Where + FieldIncidentType + Like + "'{incidentType}%'",
                    BaseParams["incidentType" := PropertyParam(seed.properties, "PT1")]))
  }

  /** The find-like-this URL is one fixed string, and the map holds the limit and PT1. */
  lemma FindLikeThisShape(seeds: seq<Seed>)
    ensures seeds == [] <==> FindLikeThisQuery(seeds) == Failure(NoSeed)
    ensures seeds != [] ==>
      var q := FindLikeThisQuery(seeds).value;
      q.url == "?$limit={limitValue}&$where=incident_type like '{incidentType}%'" &&
      q.params.Keys == {"limitValue", "incidentType"} &&
      q.params["limitValue"] == Num(50) &&
      q.params["incidentType"] == (if "PT1" in seeds[0].properties then Text(seeds[0].properties["PT1"]) else Null)
  {
    FindLikeThisUrl();
  }

  /**
   * The find-like-this URL spelled out. The literal is compared one piece at a
   * time, because comparing it whole in one step is too costly for the solver.
   */
  lemma FindLikeThisUrl()
    ensures BaseQuery + Where + FieldIncidentType + Like + "'{incidentType}%'"
         == "?$limit={limitValue}&$where=incident_type like '{incidentType}%'"
  {
    assert BaseQuery + Where == "?$limit={limitValue}&$where=";
    assert "?$limit={limitValue}&$where=" + FieldIncidentType + Like
        == "?$limit={limitValue}&$where=incident_type like ";
    assert "?$limit={limitValue}&$where=incident_type like " + "'{incidentType}%'"
        == "?$limit={limitValue}&$where=incident_type like '{incidentType}%'";
  }

  /** Only the first seed's PT1 matters to find-like-this. */
  lemma FindLikeThisReadsOnlyPT1(s: seq<Seed>, t: seq<Seed>)
    requires s != [] && t != []
    requires ("PT1" in s[0].properties) == ("PT1" in t[0].properties)
    requires "PT1" in s[0].properties ==> s[0].properties["PT1"] == t[0].properties["PT1"]
    ensures FindLikeThisQuery(s) == FindLikeThisQuery(t)
  {
  }

  // ---------------------------------------------------------------- expand

  /** The query of `expand`: a filter chosen by the first seed's type; any other type is unfiltered. */
  function ExpandQuery(seeds: seq<Seed>): (r: Result<Query, Error>)
    ensures seeds == [] <==> r == Failure(NoSeed)
    ensures r.Failure? && seeds != [] ==>
      seeds[0].typeId in {"ET1", "ET2"} && r.error.MissingProperty? && r.error.id !in seeds[0].properties
  {
    if seeds == [] then Failure(NoSeed)
    else
      var seed := seeds[0];
      var props := seed.properties;
      if seed.typeId == "ET1" then
        if "PT1" !in props then Failure(MissingProperty("PT1"))
        else if "PT2" !in props then Failure(MissingProperty("PT2"))
        else
          var params := BaseParams["field" := Text(FieldIncidentType)]
                                  ["value" := Text(props["PT1"] + "-" + props["PT2"])];
          Success(Query(BaseQuery + Where + "{field}" + Is + "'{value}'", params))
      else if seed.typeId == "ET2" then
        if "PT7" !in props then Failure(MissingProperty("PT7"))
        else if "PT8" !in props then Failure(MissingProperty("PT8"))
        else
          var params := BaseParams["field_borough" := Text(FieldBorough)]
                                  ["field_address" := Text(FieldAddress)]
                                  ["value_borough" := Text(props["PT7"])]
                                  ["value_address" := Text(props["PT8"])];
          Success(Query(BaseQuery + Where + "{field_borough}" + Is + "'{value_borough}'" + And
                        + "{field_address}" + Is + "'{value_address}'", params))
      else
        Success(AllQuery())
  }

  /** An incident seed filters on `incident_type` equal to "PT1-PT2". */
  lemma ExpandIncident(seeds: seq<Seed>)
    requires seeds != [] && seeds[0].typeId == "ET1"
    ensures var props := seeds[0].properties;
      match ExpandQuery(seeds)
      case Failure(e) => e == MissingProperty(if "PT1" !in props then "PT1" else "PT2") && !("PT1" in props && "PT2" in props)
      case Success(q) =>
        "PT1" in props && "PT2" in props &&
        q.url == "?$limit={limitValue}&$where={field}='{value}'" &&
        q.params == map["limitValue" := Num(50), "field" := Text("incident_type"),
                        "value" := Text(props["PT1"] + "-" + props["PT2"])]
  {
  }

  /** A location seed filters on borough and address, two equality clauses joined by AND. */
  lemma ExpandLocation(seeds: seq<Seed>)
    requires seeds != [] && seeds[0].typeId == "ET2"
    ensures var props := seeds[0].properties;
      match ExpandQuery(seeds)
      case Failure(e) => e == MissingProperty(if "PT7" !in props then "PT7" else "PT8") && !("PT7" in props && "PT8" in props)
      case Success(q) =>
        "PT7" in props && "PT8" in props &&
        q.url == "?$limit={limitValue}&$where={field_borough}='{value_borough}' AND {field_address}='{value_address}'" &&
        q.params == map["limitValue" := Num(50), "field_borough" := Text("borough"),
                        "field_address" := Text("location"),
                        "value_borough" := Text(props["PT7"]), "value_address" := Text(props["PT8"])]
  {
    ExpandLocationUrl();
  }

  /** The expand URL for a location seed spelled out, piece by piece as in `FindLikeThisUrl`. */
  lemma ExpandLocationUrl()
    ensures BaseQuery + Where + "{field_borough}" + Is + "'{value_borough}'" + And + "{field_address}" + Is + "'{value_address}'"
         == "?$limit={limitValue}&$where={field_borough}='{value_borough}' AND {field_address}='{value_address}'"
  {
    assert BaseQuery + Where == "?$limit={limitValue}&$where=";
    assert "?$limit={limitValue}&$where=" + "{field_borough}" + Is + "'{value_borough}'"
        == "?$limit={limitValue}&$where={field_borough}='{value_borough}'";
    assert "?$limit={limitValue}&$where={field_borough}='{value_borough}'" + And
        == "?$limit={limitValue}&$where={field_borough}='{value_borough}' AND ";
    LocationUrlAddress();
  }

  // The address clause of that URL, a lemma of its own: with it inline the comparison is too costly.
  lemma LocationUrlAddress()
    ensures "?$limit={limitValue}&$where={field_borough}='{value_borough}' AND " + "{field_address}" + Is + "'{value_address}'"
         == "?$limit={limitValue}&$where={field_borough}='{value_borough}' AND {field_address}='{value_address}'"
  {
    assert "?$limit={limitValue}&$where={field_borough}='{value_borough}' AND " + "{field_address}" + Is
        == "?$limit={limitValue}&$where={field_borough}='{value_borough}' AND {field_address}=";
    assert "?$limit={limitValue}&$where={field_borough}='{value_borough}' AND {field_address}=" + "'{value_address}'"
        == "?$limit={limitValue}&$where={field_borough}='{value_borough}' AND {field_address}='{value_address}'";
  }

  /** Any other seed type falls through to the unfiltered query, whatever its properties. */
  lemma ExpandFallback(seeds: seq<Seed>)
    requires seeds != [] && seeds[0].typeId != "ET1" && seeds[0].typeId != "ET2"
    ensures ExpandQuery(seeds) == Success(Query("?$limit={limitValue}", map["limitValue" := Num(50)]))
  {
  }

  /** Every query an operation sends asks for the 50-row limit and starts with `?$limit={limitValue}`. */
  lemma EveryQueryLimited(cs: seq<Condition>, seeds: seq<Seed>)
    requires forall i :: 0 <= i < |cs| && cs[i].value.Some? ==> cs[i].id != LimitField
    ensures Limited(AllQuery())
    ensures Limited(SearchQuery(cs))
    ensures FindLikeThisQuery(seeds).Success? ==> Limited(FindLikeThisQuery(seeds).value)
    ensures ExpandQuery(seeds).Success? ==> Limited(ExpandQuery(seeds).value)
  {
    SearchParamsLimit(cs);
    PrefixGrows(BaseQuery, BaseQuery, Filter(Kept(cs)));
    FindLikeThisLimited(seeds);
    ExpandLimited(seeds);
  }

  lemma FindLikeThisLimited(seeds: seq<Seed>)
    ensures FindLikeThisQuery(seeds).Success? ==> Limited(FindLikeThisQuery(seeds).value)
  {
    if seeds != [] {
      var w := BaseQuery + Where;
      PrefixGrows(BaseQuery, BaseQuery, Where);
      PrefixGrows(BaseQuery, w, FieldIncidentType);
      PrefixGrows(BaseQuery, w + FieldIncidentType, Like);
      PrefixGrows(BaseQuery, w + FieldIncidentType + Like, "'{incidentType}%'");
    }
  }

  lemma ExpandLimited(seeds: seq<Seed>)
    ensures ExpandQuery(seeds).Success? ==> Limited(ExpandQuery(seeds).value)
  {
    if seeds != [] && ExpandQuery(seeds).Success? {
      var w := BaseQuery + Where;
      PrefixGrows(BaseQuery, BaseQuery, Where);
      if seeds[0].typeId == "ET1" {
        PrefixGrows(BaseQuery, w, "{field}");
        PrefixGrows(BaseQuery, w + "{field}", Is);
        PrefixGrows(BaseQuery, w + "{field}" + Is, "'{value}'");
      } else if seeds[0].typeId == "ET2" {
        var u := w + "{field_borough}" + Is + "'{value_borough}'" + And + "{field_address}" + Is;
        PrefixGrows(BaseQuery, w, "{field_borough}");
        PrefixGrows(BaseQuery, w + "{field_borough}", Is);
        PrefixGrows(BaseQuery, w + "{field_borough}" + Is, "'{value_borough}'");
        PrefixGrows(BaseQuery, w + "{field_borough}" + Is + "'{value_borough}'", And);
        PrefixGrows(BaseQuery, w + "{field_borough}" + Is + "'{value_borough}'" + And, "{field_address}");
        PrefixGrows(BaseQuery, w + "{field_borough}" + Is + "'{value_borough}'" + And + "{field_address}", Is);
        PrefixGrows(BaseQuery, u, "'{value_address}'");
      }
    }
  }

  lemma PrefixGrows(a: string, b: string, c: string)
    requires a <= b
    ensures a <= b + c
  {
    assert (b + c)[..|b|] == b;
  }
}
