/** The parameter list of an operation: its path parameters, then one merge of its query parameters. */
module OperationLists {
  import opened Wrappers
  import opened Strings
  import opened Sorting
  import opened PathTemplates
  import opened Params
  import opened MergeAlgebra
  import opened MergeLaws
  import opened MergeRepeats
  import opened Parameters

  // ----- The parameters of an operation -----

  datatype Schema = Schema(schemaType: string, format: string, example: Option<Value>, stringItems: bool)

  datatype Parameter = Parameter(
    name: string,
    location: string,
    required: bool,
    description: string,
    schema: Schema)

  function OpenAPIParameter(tables: Tables, p: ParamDef): Parameter {
    var location := EffectiveLocation(p);
    var paramType :=
      if p.paramType != "" then p.paramType
      else if location == "path" then tables.pathSchema(p.name).paramType
      else tables.queryType(p.name);
    var inferred := tables.pathSchema(p.name);
    var fromTable := p.example.None? && location == "path";
    Parameter(
      p.name,
      location,
      if p.required.Some? then p.required.value else location == "path",
      if p.description != "" then p.description
      else if location == "path" then tables.pathDescription(p.name)
      else if location == "query" then tables.queryDescription(p.name)
      else "",
      Schema(
        paramType,
        if fromTable && inferred.format != "" then inferred.format else p.format,
        if fromTable then inferred.example else p.example,
        paramType == "array"))
  }

  /**
   Every rendered parameter has a type; path and query parameters have a description; a
   path parameter is marked required unless its definition says otherwise; and the tables'
   example and format stand in for a path parameter without an example.
   */
  lemma RenderedParameterIs(tables: Tables, p: ParamDef)
    ensures var r := OpenAPIParameter(tables, p);
            && r.name == p.name && r.location == EffectiveLocation(p)
            && r.schema.schemaType != "" && (r.schema.stringItems <==> r.schema.schemaType == "array")
            && (r.location == "path" || r.location == "query" ==>
                  if p.description == "" then r.description != "" else r.description == p.description)
            && (r.location == "path" ==> (r.required <==> p.required != Some(false)))
            && (r.location != "path" ==> (r.required <==> p.required == Some(true)))
            && (p.paramType != "" ==> r.schema.schemaType == p.paramType)
            && (p.example.Some? || r.location != "path" ==>
                  r.schema.example == p.example && r.schema.format == p.format)
            && (p.example.None? && r.location == "path" ==>
                  && r.schema.example == tables.pathSchema(p.name).example
                  && r.schema.format == OverrideText(p.format, tables.pathSchema(p.name).format))
  {
  }

  function QueryOnly(ps: seq<ParamDef>): (qs: seq<ParamDef>)
    ensures forall q :: q in qs ==> q.location == "query" && q in ps
  {
    if ps == [] then []
    else
      assert ps == ps[..|ps| - 1] + [ps[|ps| - 1]];
      QueryOnly(ps[..|ps| - 1]) + (if ps[|ps| - 1].location == "query" then [ps[|ps| - 1]] else [])
  }

  function Lookup(discovered: map<string, DiscoveredEndpoint>, verb: string, path: string): Option<DiscoveredEndpoint> {
    var key := EndpointKey(verb, path);
    if key in discovered then Some(discovered[key]) else None
  }

  function DiscoveredPath(discovered: map<string, DiscoveredEndpoint>, verb: string, path: string): seq<ParamDef> {
    var ep := Lookup(discovered, verb, path);
    if ep.Some? then ep.value.pathParams else []
  }

  function DiscoveredQuery(discovered: map<string, DiscoveredEndpoint>, verb: string, path: string): seq<ParamDef> {
    var ep := Lookup(discovered, verb, path);
    if ep.Some? then ep.value.queryParams else []
  }

  /** The query parameters of an operation: one merge of the discovered ones with those of the route. */
  function QueryParams(route: RouteDef, found: seq<ParamDef>): seq<ParamDef> {
    Merge([], found + QueryOnly(route.params))
  }

  function Render(tables: Tables, ps: seq<ParamDef>): seq<Parameter> {
    seq(|ps|, i requires 0 <= i < |ps| => OpenAPIParameter(tables, ps[i]))
  }

  function OperationParameters(tables: Tables, route: RouteDef, verb: string,
                               discovered: map<string, DiscoveredEndpoint>): seq<Parameter>
  {
    Render(tables,
           PathParams(tables, route.path, DiscoveredPath(discovered, verb, route.path), ByName(route.params))
           + QueryParams(route, DiscoveredQuery(discovered, verb, route.path)))
  }

  // Applying an override again changes nothing: it is absorbed if it is a path
  // parameter, and has another key if it is not.
  lemma OverrideIsAbsorbed(tables: Tables, name: string, i: nat, discovered: seq<ParamDef>,
                           overrides: map<string, ParamDef>, r: seq<ParamDef>)
    requires KeyedByName(overrides) && name in overrides
    requires IsMerge([PathParam(tables, name, i, discovered, overrides)], [overrides[name]], r)
    ensures r != [] && r[0] == PathParam(tables, name, i, discovered, overrides)
  {
    FirstOfPair(PathParam(tables, name, i, discovered, overrides), overrides[name], r);
  }

  lemma RenderNext(tables: Tables, ps: seq<ParamDef>, i: nat)
    requires i < |ps|
    ensures Render(tables, ps[..i + 1]) == Render(tables, ps[..i]) + [OpenAPIParameter(tables, ps[i])]
  {
  }

  lemma RenderConcat(tables: Tables, a: seq<ParamDef>, b: seq<ParamDef>)
    ensures Render(tables, a + b) == Render(tables, a) + Render(tables, b)
  {
  }

  // ----- What the list is, in terms of the definitions -----

  function Or(text: string, default: string): string {
    if text != "" then text else default
  }

  /** The query parameters of one name in a list, in order. */
  function QueryNamed(ps: seq<ParamDef>, n: string): seq<ParamDef> {
    if ps == [] then []
    else
      var p := ps[|ps| - 1];
      QueryNamed(ps[..|ps| - 1], n) + (if p.name == n && p.location == "query" then [p] else [])
  }

  /** The definitions of a query parameter: those found, then those of the route. */
  function QuerySources(found: seq<ParamDef>, params: seq<ParamDef>, n: string): seq<ParamDef> {
    QueryNamed(found, n) + QueryNamed(params, n)
  }

  /** A query parameter: for each field the last definition that sets it, or else the tables. */
  ghost predicate IsQueryParameter(tables: Tables, n: string, sources: seq<ParamDef>, p: Parameter) {
    && p.name == n && p.location == "query"
    && (p.required <==> LastSome(sources, RequiredField) == Some(true))
    && p.description == Or(LastText(sources, DescriptionField), tables.queryDescription(n))
    && p.schema.schemaType == Or(LastText(sources, TypeField), tables.queryType(n))
    && p.schema.format == LastText(sources, FormatField)
    && p.schema.example == LastSome(sources, ExampleField)
    && (p.schema.stringItems <==> p.schema.schemaType == "array")
  }

  /**
   A path parameter: for each field the last definition that sets it, of the one at its
   position and those of its name, or else the tables. Position settles the type even
   when it has none, and never says whether the parameter is required.
   */
  ghost predicate IsPathParameter(tables: Tables, n: string, at: seq<ParamDef>, named: seq<ParamDef>, p: Parameter) {
    var schema, example := tables.pathSchema(n), LastSome(at + named, ExampleField);
    var lent := Or(LastText(named, TypeField), if at != [] then at[0].paramType else "");
    && p.name == n && p.location == "path"
    && (p.required <==> LastSome(named, RequiredField) != Some(false))
    && p.description == Or(LastText(at + named, DescriptionField), tables.pathDescription(n))
    && p.schema.schemaType == Or(lent, schema.paramType)
    && p.schema.example == (if example.Some? then example else schema.example)
    && p.schema.format == (if example.None? then Or(schema.format, LastText(at + named, FormatField))
                           else LastText(at + named, FormatField))
    && (p.schema.stringItems <==> p.schema.schemaType == "array")
  }

  /**
   The parameters of an operation, from what was found for its endpoint and the route: a
   path parameter for each placeholder in order, then a query parameter for each name that
   either defines, in the order of names.
   */
  ghost predicate ListsParameters(tables: Tables, path: string, foundPath: seq<ParamDef>, foundQuery: seq<ParamDef>,
                                  routeParams: seq<ParamDef>, params: seq<Parameter>)
  {
    var names := ExtractPathParamNames(path);
    && |names| <= |params|
    && (forall i :: 0 <= i < |names| ==>
          IsPathParameter(tables, names[i], AtPosition(foundPath, i),
                          PathNamed(ByName(foundPath), names[i]) + PathNamed(ByName(routeParams), names[i]), params[i]))
    && (forall i :: |names| <= i < |params| ==>
          IsQueryParameter(tables, params[i].name, QuerySources(foundQuery, routeParams, params[i].name), params[i]))
    && (forall n :: QuerySources(foundQuery, routeParams, n) != [] <==>
          exists i :: |names| <= i < |params| && params[i].name == n)
    && (forall i, j :: |names| <= i < j < |params| ==> LexLess(params[i].name, params[j].name))
  }

  lemma {:induction false} RenderedPathParameter(
    tables: Tables, n: string, i: nat, found: seq<ParamDef>, overrides: map<string, ParamDef>)
    ensures IsPathParameter(tables, n, AtPosition(found, i), PathNamed(ByName(found), n) + PathNamed(overrides, n),
                            OpenAPIParameter(tables, PathParam(tables, n, i, found, overrides)))
  {
    var at, named := AtPosition(found, i), PathNamed(ByName(found), n) + PathNamed(overrides, n);
    LastSourceWins(tables, n, i, found, overrides);
    WithBase(FromTables(tables, n), at, named, FormatField);
    WithBase(FromTables(tables, n), at, named, DescriptionField);
    WithBaseSome(FromTables(tables, n), at, named, ExampleField);
  }

  lemma WithBase(base: ParamDef, at: seq<ParamDef>, named: seq<ParamDef>, f: ParamDef -> string)
    ensures LastText([base] + at + named, f) == Or(LastText(at + named, f), f(base))
  {
    LastTextConcat([base], at + named, f);
    assert [base] + at + named == [base] + (at + named);
    assert [base][..0] == [];
  }

  lemma WithBaseSome<T>(base: ParamDef, at: seq<ParamDef>, named: seq<ParamDef>, f: ParamDef -> Option<T>)
    ensures LastSome([base] + at + named, f) == Override(f(base), LastSome(at + named, f))
  {
    LastSomeConcat([base], at + named, f);
    assert [base] + at + named == [base] + (at + named);
    assert [base][..0] == [];
  }

  lemma {:induction false} QueryNamedIs(ps: seq<ParamDef>, n: string)
    requires forall i :: 0 <= i < |ps| ==> ps[i].location == "query"
    ensures Occurrences("query:" + n, ps) == QueryNamed(ps, n)
  {
    if ps != [] {
      QueryNamedIs(ps[..|ps| - 1], n);
      QueryKeyIs(ps[|ps| - 1], n);
    }
  }

  lemma QueryKeyIs(p: ParamDef, n: string)
    requires p.location == "query"
    ensures ParamKey(p) == "query:" + n <==> p.name == n
  {
    KeyIs(p);
    var k := "query:";
    assert (k + p.name)[|k|..] == p.name && (k + n)[|k|..] == n;
  }

  lemma QueryNamedOfNext(ps: seq<ParamDef>, p: ParamDef, n: string)
    ensures QueryNamed(ps + [p], n) == QueryNamed(ps, n) + (if p.name == n && p.location == "query" then [p] else [])
  {
    assert (ps + [p])[..|ps|] == ps;
  }

  lemma {:induction false} QueryNamedOnly(ps: seq<ParamDef>, n: string)
    ensures QueryNamed(QueryOnly(ps), n) == QueryNamed(ps, n)
  {
    if ps != [] {
      var front, last := ps[..|ps| - 1], ps[|ps| - 1];
      QueryNamedOnly(front, n);
      QueryNamedOfNext(QueryOnly(front), last, n);
      assert QueryOnly(ps) == if last.location == "query" then QueryOnly(front) + [last] else QueryOnly(front);
    }
  }

  lemma SourcesAreOccurrences(found: seq<ParamDef>, params: seq<ParamDef>, n: string)
    requires LocationsIn(found, {"query"})
    ensures Occurrences("query:" + n, found + QueryOnly(params)) == QuerySources(found, params, n)
  {
    var only := QueryOnly(params);
    assert forall i :: 0 <= i < |found| ==> found[i] in found;
    assert forall i :: 0 <= i < |only| ==> only[i] in only;
    OccurrencesConcat("query:" + n, found, only);
    QueryNamedIs(found, n);
    QueryNamedIs(only, n);
    QueryNamedOnly(params, n);
  }

  lemma QueryParamsAreCanonical(route: RouteDef, found: seq<ParamDef>)
    requires LocationsIn(found, {"query"})
    ensures Canonical(QueryParams(route, found)) && LocationsIn(QueryParams(route, found), {"query"})
  {
    var all := found + QueryOnly(route.params);
    assert Proper(all) && LocationsIn(all, {"query"});
    MergeIsCanonical([], all);
    MergeIsMerge([], all);
    MergeLocations([], all, QueryParams(route, found), {"query"});
  }

  /** What the merge of the query parameters holds under one name. */
  lemma QueryContent(route: RouteDef, found: seq<ParamDef>, k: string)
    requires LocationsIn(found, {"query"})
    ensures Occur(k, QueryParams(route, found)) == Occur(k, found + QueryOnly(route.params))
  {
    var all := found + QueryOnly(route.params);
    assert Proper(all);
    ContentOfMerge([], all);
  }

  lemma RenderedQueryParameter(tables: Tables, route: RouteDef, found: seq<ParamDef>, q: ParamDef)
    requires LocationsIn(found, {"query"}) && q in QueryParams(route, found)
    ensures QuerySources(found, route.params, q.name) != []
    ensures IsQueryParameter(tables, q.name, QuerySources(found, route.params, q.name), OpenAPIParameter(tables, q))
  {
    var k, qs := "query:" + q.name, QueryParams(route, found);
    QueryParamsAreCanonical(route, found);
    QueryContent(route, found, k);
    QueryKeyIs(q, q.name);
    InUnique(qs, q);
    SourcesAreOccurrences(found, route.params, q.name);
    LastSettingWins(k, found + QueryOnly(route.params));
  }

  lemma NamedIffKeyed(qs: seq<ParamDef>, n: string)
    requires LocationsIn(qs, {"query"})
    ensures HasKey(qs, "query:" + n) <==> n in NamesOf(qs)
  {
    forall i | 0 <= i < |qs| ensures ParamKey(qs[i]) == "query:" + n <==> NamesOf(qs)[i] == n {
      assert qs[i] in qs;
      QueryKeyIs(qs[i], n);
    }
  }

  lemma QueryIsThere(route: RouteDef, found: seq<ParamDef>, n: string)
    requires LocationsIn(found, {"query"})
    ensures QuerySources(found, route.params, n) != [] <==> n in NamesOf(QueryParams(route, found))
  {
    var k := "query:" + n;
    QueryParamsAreCanonical(route, found);
    QueryContent(route, found, k);
    SourcesAreOccurrences(found, route.params, n);
    LastSettingWins(k, found + QueryOnly(route.params));
    OccurIffHasKey(k, QueryParams(route, found));
    NamedIffKeyed(QueryParams(route, found), n);
  }

  /** Without going through the code: what the parameter list of an operation is. */
  lemma OperationParametersAreListed(tables: Tables, route: RouteDef, foundPath: seq<ParamDef>,
                                     foundQuery: seq<ParamDef>)
    requires LocationsIn(foundQuery, {"query"})
    ensures ListsParameters(tables, route.path, foundPath, foundQuery, route.params,
                            Render(tables, PathParams(tables, route.path, foundPath, ByName(route.params))
                                           + QueryParams(route, foundQuery)))
  {
    var names := ExtractPathParamNames(route.path);
    var ps := PathParams(tables, route.path, foundPath, ByName(route.params));
    var qs := QueryParams(route, foundQuery);
    var params := Render(tables, ps + qs);
    forall i | 0 <= i < |names|
      ensures IsPathParameter(tables, names[i], AtPosition(foundPath, i),
                              PathNamed(ByName(foundPath), names[i]) + PathNamed(ByName(route.params), names[i]),
                              params[i])
    {
      RenderedPathParameter(tables, names[i], i, foundPath, ByName(route.params));
    }
    ListedQuery(tables, route, foundQuery, ps, params);
  }

  // The query parameters follow the path parameters in the list.
  lemma AfterPathParams(tables: Tables, ps: seq<ParamDef>, qs: seq<ParamDef>, i: nat)
    requires |ps| <= i < |ps| + |qs|
    ensures Render(tables, ps + qs)[i] == OpenAPIParameter(tables, qs[i - |ps|])
    ensures Render(tables, ps + qs)[i].name == qs[i - |ps|].name && qs[i - |ps|] in qs
  {
  }

  lemma ListedQueryParameter(tables: Tables, route: RouteDef, found: seq<ParamDef>, ps: seq<ParamDef>, i: nat)
    requires LocationsIn(found, {"query"}) && |ps| <= i < |ps| + |QueryParams(route, found)|
    ensures var p := Render(tables, ps + QueryParams(route, found))[i];
            IsQueryParameter(tables, p.name, QuerySources(found, route.params, p.name), p)
  {
    var qs := QueryParams(route, found);
    AfterPathParams(tables, ps, qs, i);
    RenderedQueryParameter(tables, route, found, qs[i - |ps|]);
  }

  lemma NamesAfter(tables: Tables, ps: seq<ParamDef>, qs: seq<ParamDef>, n: string)
    ensures n in NamesOf(qs) <==>
            exists i :: |ps| <= i < |ps| + |qs| && Render(tables, ps + qs)[i].name == n
  {
    if n in NamesOf(qs) {
      var j :| 0 <= j < |qs| && NamesOf(qs)[j] == n;
      AfterPathParams(tables, ps, qs, |ps| + j);
    }
    if i :| |ps| <= i < |ps| + |qs| && Render(tables, ps + qs)[i].name == n {
      AfterPathParams(tables, ps, qs, i);
      assert NamesOf(qs)[i - |ps|] == n;
    }
  }

  lemma ListedName(tables: Tables, route: RouteDef, found: seq<ParamDef>, ps: seq<ParamDef>, n: string)
    requires LocationsIn(found, {"query"})
    ensures var params := Render(tables, ps + QueryParams(route, found));
            QuerySources(found, route.params, n) != [] <==> exists i :: |ps| <= i < |params| && params[i].name == n
  {
    QueryIsThere(route, found, n);
    NamesAfter(tables, ps, QueryParams(route, found), n);
  }

  lemma ListedInOrder(tables: Tables, ps: seq<ParamDef>, qs: seq<ParamDef>, i: nat, j: nat)
    requires Canonical(qs) && LocationsIn(qs, {"query"}) && |ps| <= i < j < |ps| + |qs|
    ensures LexLess(Render(tables, ps + qs)[i].name, Render(tables, ps + qs)[j].name)
  {
    AfterPathParams(tables, ps, qs, i);
    AfterPathParams(tables, ps, qs, j);
    assert ParamLess(qs[i - |ps|], qs[j - |ps|]);
  }

  lemma ListedQuery(tables: Tables, route: RouteDef, found: seq<ParamDef>, ps: seq<ParamDef>, params: seq<Parameter>)
    requires LocationsIn(found, {"query"}) && params == Render(tables, ps + QueryParams(route, found))
    ensures forall i :: |ps| <= i < |params| ==>
              IsQueryParameter(tables, params[i].name, QuerySources(found, route.params, params[i].name), params[i])
    ensures forall n :: QuerySources(found, route.params, n) != [] <==>
              exists i :: |ps| <= i < |params| && params[i].name == n
    ensures forall i, j :: |ps| <= i < j < |params| ==> LexLess(params[i].name, params[j].name)
  {
    forall i | |ps| <= i < |params|
      ensures IsQueryParameter(tables, params[i].name, QuerySources(found, route.params, params[i].name), params[i])
    {
      ListedQueryParameter(tables, route, found, ps, i);
    }
    forall n
      ensures QuerySources(found, route.params, n) != [] <==> exists i :: |ps| <= i < |params| && params[i].name == n
    {
      ListedName(tables, route, found, ps, n);
    }
    forall i, j | |ps| <= i < j < |params| ensures LexLess(params[i].name, params[j].name) {
      QueryParamsAreCanonical(route, found);
      ListedInOrder(tables, ps, QueryParams(route, found), i, j);
    }
  }

  /** What was found for an endpoint, if anything was, under the key of its method and path. */
  ghost predicate ListsOperation(tables: Tables, route: RouteDef, verb: string,
                                 discovered: map<string, DiscoveredEndpoint>, params: seq<Parameter>)
  {
    var key := EndpointKey(verb, route.path);
    if key in discovered then
      ListsParameters(tables, route.path, discovered[key].pathParams, discovered[key].queryParams, route.params, params)
    else
      ListsParameters(tables, route.path, [], [], route.params, params)
  }

  /** The parameters of an operation are those of what was found under its key, and of its route. */
  lemma OperationIsListed(tables: Tables, route: RouteDef, verb: string, discovered: map<string, DiscoveredEndpoint>)
    requires var key := EndpointKey(verb, route.path);
             key in discovered ==> LocationsIn(discovered[key].queryParams, {"query"})
    ensures ListsOperation(tables, route, verb, discovered, OperationParameters(tables, route, verb, discovered))
  {
    var key := EndpointKey(verb, route.path);
    if key in discovered {
      OperationParametersAreListed(tables, route, discovered[key].pathParams, discovered[key].queryParams);
    } else {
      OperationParametersAreListed(tables, route, [], []);
    }
  }

  method BuildParameters(tables: Tables, route: RouteDef, verb: string, discovered: map<string, DiscoveredEndpoint>)
    returns (params: seq<Parameter>)
    ensures Proper(DiscoveredQuery(discovered, verb, route.path)) ==>
            params == OperationParameters(tables, route, verb, discovered)
    ensures (var key := EndpointKey(verb, route.path);
             key in discovered ==> LocationsIn(discovered[key].queryParams, {"query"})) ==>
            ListsOperation(tables, route, verb, discovered, params)
  {
    var overrides := IndexByName(route.params);
    var pathParamDefs, queryParamDefs := [], [];
    var ep := Lookup(discovered, verb, route.path);
    if ep.Some? {
      pathParamDefs := ep.value.pathParams;
      queryParamDefs := ep.value.queryParams;
    }
    var pathParams := MergeDiscoveredPathParams(tables, route.path, pathParamDefs, overrides);
    var queryParams := MergeQueryParams(queryParamDefs, route.params);
    var pathPart := RenderPathParams(tables, pathParams, overrides, route.path, pathParamDefs);
    var queryPart := RenderQueryParams(tables, queryParams);
    RenderConcat(tables, pathParams, queryParams);
    params := pathPart + queryPart;
    ListedIfPlaced(tables, route, verb, discovered);
  }

  lemma ListedIfPlaced(tables: Tables, route: RouteDef, verb: string, discovered: map<string, DiscoveredEndpoint>)
    ensures (var key := EndpointKey(verb, route.path);
             key in discovered ==> LocationsIn(discovered[key].queryParams, {"query"})) ==>
            && Proper(DiscoveredQuery(discovered, verb, route.path))
            && ListsOperation(tables, route, verb, discovered, OperationParameters(tables, route, verb, discovered))
  {
    var key := EndpointKey(verb, route.path);
    if key in discovered ==> LocationsIn(discovered[key].queryParams, {"query"}) {
      OperationIsListed(tables, route, verb, discovered);
    }
  }

  /** The output loop applies every path override a second time, to no effect. */
  method RenderPathParams(tables: Tables, pathParams: seq<ParamDef>, overrides: map<string, ParamDef>,
                          ghost path: string, ghost discovered: seq<ParamDef>)
    returns (params: seq<Parameter>)
    requires KeyedByName(overrides) && pathParams == PathParams(tables, path, discovered, overrides)
    ensures params == Render(tables, pathParams)
  {
    params := [];
    for i := 0 to |pathParams|
      invariant params == Render(tables, pathParams[..i])
    {
      var param := RenderPathParam(tables, pathParams[i], overrides, i, discovered);
      RenderNext(tables, pathParams, i);
      params := params + [param];
    }
    assert pathParams[..|pathParams|] == pathParams;
  }

  method RenderPathParam(tables: Tables, p: ParamDef, overrides: map<string, ParamDef>, ghost i: nat,
                         ghost discovered: seq<ParamDef>)
    returns (param: Parameter)
    requires KeyedByName(overrides) && p == PathParam(tables, p.name, i, discovered, overrides)
    ensures param == OpenAPIParameter(tables, p)
  {
    if p.name in overrides && (overrides[p.name].location == "" || overrides[p.name].location == "path") {
      var again := MergeParamDefs([p], [overrides[p.name]]);
      OverrideIsAbsorbed(tables, p.name, i, discovered, overrides, again);
      return OpenAPIParameter(tables, again[0]);
    }
    param := OpenAPIParameter(tables, p);
  }

  method RenderQueryParams(tables: Tables, queryParams: seq<ParamDef>) returns (params: seq<Parameter>)
    ensures params == Render(tables, queryParams)
  {
    params := [];
    for i := 0 to |queryParams|
      invariant params == Render(tables, queryParams[..i])
    {
      RenderNext(tables, queryParams, i);
      params := params + [OpenAPIParameter(tables, queryParams[i])];
    }
    assert queryParams[..|queryParams|] == queryParams;
  }

  /** Merging the query parameters of a route one at a time is merging them all at once. */
  method MergeQueryParams(found: seq<ParamDef>, params: seq<ParamDef>) returns (queryParams: seq<ParamDef>)
    ensures Proper(found) ==> queryParams == Merge([], found + QueryOnly(params))
  {
    queryParams := MergeParamDefs([], found);
    ghost var qs := found;
    if Proper(found) {
      MergeIsUnique([], found, queryParams);
    }
    for i := 0 to |params|
      invariant qs == found + QueryOnly(params[..i])
      invariant Proper(found) ==> Proper(qs) && queryParams == Merge([], qs)
    {
      var p := params[i];
      assert params[..i + 1][..i] == params[..i];
      if p.location == "query" {
        ghost var before := queryParams;
        queryParams := MergeParamDefs(queryParams, [p]);
        if Proper(found) {
          OneMoreQueryParam(qs, p, before, queryParams);
        }
        qs := qs + [p];
      }
    }
    assert params[..|params|] == params;
  }

  lemma OneMoreQueryParam(qs: seq<ParamDef>, p: ParamDef, before: seq<ParamDef>, after: seq<ParamDef>)
    requires Proper(qs) && p.location == "query"
    requires before == Merge([], qs) && IsMerge(before, [p], after)
    ensures after == Merge([], qs + [p])
  {
    MergeIsCanonical([], qs);
    MergeIsUnique(before, [p], after);
    MergeStreams([], qs, [p]);
  }

  // ----- No two parameters share a name and a location -----

  predicate NoDuplicates(params: seq<Parameter>) {
    forall i, j :: 0 <= i < j < |params| ==>
      params[i].name != params[j].name || params[i].location != params[j].location
  }

  /**
   Section 4.7.10 of the OpenAPI Specification 3.0.3 forbids two parameters with one name
   and location; the list built has none exactly when no placeholder name repeats.
   */
  lemma NoDuplicatesIffDistinctPlaceholders(tables: Tables, route: RouteDef, verb: string,
                                            discovered: map<string, DiscoveredEndpoint>)
    requires LocationsIn(DiscoveredQuery(discovered, verb, route.path), {"query"})
    ensures NoDuplicates(OperationParameters(tables, route, verb, discovered)) <==>
            Distinct(ExtractPathParamNames(route.path))
  {
    var ps := PathParams(tables, route.path, DiscoveredPath(discovered, verb, route.path), ByName(route.params));
    var qs := QueryParams(route, DiscoveredQuery(discovered, verb, route.path));
    OneParamPerPlaceholder(tables, route.path, DiscoveredPath(discovered, verb, route.path), ByName(route.params));
    QueryParamsAreDistinct(route, DiscoveredQuery(discovered, verb, route.path));
    NoDuplicatesOfLists(tables, ps, qs, ExtractPathParamNames(route.path));
  }

  /** One path parameter for each placeholder, in template order, then query parameters; none without type or text. */
  predicate IsComplete(params: seq<Parameter>, names: seq<string>) {
    && |names| <= |params|
    && (forall i :: 0 <= i < |names| ==> params[i].name == names[i] && params[i].location == "path")
    && (forall i :: |names| <= i < |params| ==> params[i].location == "query")
    && (forall i :: 0 <= i < |params| ==> params[i].schema.schemaType != "" && params[i].description != "")
  }

  /** Every operation lists its placeholders. */
  lemma {:induction false} OperationParametersAre(
    tables: Tables, route: RouteDef, verb: string, discovered: map<string, DiscoveredEndpoint>)
    requires LocationsIn(DiscoveredQuery(discovered, verb, route.path), {"query"})
    ensures IsComplete(OperationParameters(tables, route, verb, discovered), ExtractPathParamNames(route.path))
  {
    var found, overrides := DiscoveredPath(discovered, verb, route.path), ByName(route.params);
    OneParamPerPlaceholder(tables, route.path, found, overrides);
    QueryParamsAreDistinct(route, DiscoveredQuery(discovered, verb, route.path));
    RenderedListIs(tables, PathParams(tables, route.path, found, overrides),
                   QueryParams(route, DiscoveredQuery(discovered, verb, route.path)));
  }

  /**
   Section 4.7.12 of the OpenAPI Specification 3.0.3 wants path parameters marked
   required; they are, unless a parameter of that name says `path` and denies it.
   */
  lemma {:induction false} PathParametersAreRequiredIff(
    tables: Tables, route: RouteDef, verb: string, discovered: map<string, DiscoveredEndpoint>, i: nat)
    requires i < |ExtractPathParamNames(route.path)|
    ensures var found, overrides := DiscoveredPath(discovered, verb, route.path), ByName(route.params);
            var named := NamedSources(ExtractPathParamNames(route.path)[i], found, overrides);
            var params := OperationParameters(tables, route, verb, discovered);
            i < |params| && (params[i].required <==> LastSome(named, RequiredField) != Some(false))
  {
    var found, overrides := DiscoveredPath(discovered, verb, route.path), ByName(route.params);
    var p := PathParam(tables, ExtractPathParamNames(route.path)[i], i, found, overrides);
    LastSourceWins(tables, ExtractPathParamNames(route.path)[i], i, found, overrides);
    RenderedParameterIs(tables, p);
    assert OperationParameters(tables, route, verb, discovered)[i] == OpenAPIParameter(tables, p);
  }

  lemma RenderedListIs(tables: Tables, ps: seq<ParamDef>, qs: seq<ParamDef>)
    requires forall i :: 0 <= i < |ps| ==> ps[i].location == "path"
    requires forall i :: 0 <= i < |qs| ==> qs[i].location == "query"
    ensures IsComplete(Render(tables, ps + qs), NamesOf(ps))
  {
    forall i | 0 <= i < |ps| + |qs|
      ensures (ps + qs)[i] == if i < |ps| then ps[i] else qs[i - |ps|]
    {
      RenderedParameterIs(tables, (ps + qs)[i]);
    }
  }

  lemma NoDuplicatesOfLists(tables: Tables, ps: seq<ParamDef>, qs: seq<ParamDef>, names: seq<string>)
    requires |ps| == |names| && forall i :: 0 <= i < |ps| ==> ps[i].name == names[i] && ps[i].location == "path"
    requires DistinctNames(qs) && forall i :: 0 <= i < |qs| ==> qs[i].location == "query"
    ensures NoDuplicates(Render(tables, ps + qs)) <==> Distinct(names)
  {
    RenderConcat(tables, ps, qs);
    var a, b := Render(tables, ps), Render(tables, qs);
    assert forall i :: 0 <= i < |a| ==> a[i].name == names[i] && a[i].location == "path";
    assert forall i :: 0 <= i < |b| ==> b[i].name == qs[i].name && b[i].location == "query";
    NoDuplicatesOfParts(a, b);
  }

  lemma QueryParamsAreDistinct(route: RouteDef, found: seq<ParamDef>)
    requires LocationsIn(found, {"query"})
    ensures var qs := QueryParams(route, found);
            DistinctNames(qs) && forall i :: 0 <= i < |qs| ==> qs[i].location == "query"
  {
    var all := found + QueryOnly(route.params);
    var qs := QueryParams(route, found);
    MergeIsCanonical([], all);
    MergeIsMerge([], all);
    MergeLocations([], all, qs, {"query"});
    assert forall i :: 0 <= i < |qs| ==> qs[i] in qs && qs[i].location == "query";
    forall i, j | 0 <= i < j < |qs| ensures qs[i].name != qs[j].name {
      assert ParamKey(qs[i]) != ParamKey(qs[j]);
    }
  }

  lemma NoDuplicatesOfParts(a: seq<Parameter>, b: seq<Parameter>)
    requires forall i :: 0 <= i < |a| ==> a[i].location == "path"
    requires forall i :: 0 <= i < |b| ==> b[i].location == "query"
    requires forall i, j :: 0 <= i < j < |b| ==> b[i].name != b[j].name
    ensures NoDuplicates(a + b) <==> forall i, j :: 0 <= i < j < |a| ==> a[i].name != a[j].name
  {
    var all := a + b;
    assert forall i :: 0 <= i < |a| ==> all[i] == a[i];
    assert forall i :: |a| <= i < |all| ==> all[i] == b[i - |a|];
  }

  // ----- Route parameters that are neither path nor query parameters -----

  predicate IsPlaced(p: ParamDef) {
    p.location == "path" || p.location == "query"
  }

  /** The path and query parameters of a route. */
  function Kept(ps: seq<ParamDef>): seq<ParamDef> {
    if ps == [] then []
    else Kept(ps[..|ps| - 1]) + (if IsPlaced(ps[|ps| - 1]) then [ps[|ps| - 1]] else [])
  }

  lemma OneMoreParam(ps: seq<ParamDef>, p: ParamDef)
    ensures ByName(ps + [p]) == ByName(ps)[p.name := p]
    ensures QueryOnly(ps + [p]) == QueryOnly(ps) + (if p.location == "query" then [p] else [])
  {
    assert (ps + [p])[..|ps|] == ps;
  }

  // The placed parameters of one table by name are in the other, and no unplaced ones are.
  ghost predicate KeepsPlaced(kept: map<string, ParamDef>, m: map<string, ParamDef>) {
    && (forall n :: n in kept ==> n in m && IsPlaced(kept[n]))
    && (forall n :: n in m && IsPlaced(m[n]) ==> n in kept && kept[n] == m[n])
  }

  lemma KeepsOneMorePlaced(kept: map<string, ParamDef>, m: map<string, ParamDef>, p: ParamDef)
    requires KeepsPlaced(kept, m)
    ensures KeepsPlaced(if IsPlaced(p) then kept[p.name := p] else kept, m[p.name := p])
  {
  }

  ghost predicate Keeps(kept: seq<ParamDef>, ps: seq<ParamDef>) {
    QueryOnly(kept) == QueryOnly(ps) && KeepsPlaced(ByName(kept), ByName(ps))
  }

  lemma KeepsOneMore(kept: seq<ParamDef>, ps: seq<ParamDef>, p: ParamDef)
    requires Keeps(kept, ps)
    ensures Keeps(if IsPlaced(p) then kept + [p] else kept, ps + [p])
  {
    KeepsOneMorePlaced(ByName(kept), ByName(ps), p);
    OneMoreParam(ps, p);
    if IsPlaced(p) {
      OneMoreParam(kept, p);
    }
  }

  lemma {:induction false} KeptKeeps(ps: seq<ParamDef>)
    ensures Keeps(Kept(ps), ps)
  {
    if ps != [] {
      var front, last := ps[..|ps| - 1], ps[|ps| - 1];
      KeptKeeps(front);
      KeepsOneMore(Kept(front), front, last);
      assert ps == front + [last] && Kept(front) + [] == Kept(front);
    }
  }

  /** The last route parameter of this name is unplaced, and hides a path parameter: the last placed one of the name. */
  predicate HidesOverride(ps: seq<ParamDef>, n: string) {
    && n in ByName(ps) && !IsPlaced(ByName(ps)[n])
    && n in ByName(Kept(ps)) && ByName(Kept(ps))[n].location == "path"
  }

  // Every field that an override of a path parameter sets has that value already.
  predicate SaysNothingNew(o: ParamDef, p: ParamDef) {
    && (o.paramType != "" ==> p.paramType == o.paramType)
    && (o.format != "" ==> p.format == o.format)
    && (o.description != "" ==> p.description == o.description)
    && (o.example.Some? ==> p.example == o.example)
    && (o.required.Some? ==> p.required == o.required)
  }

  lemma SaysNothingNewIff(p: ParamDef, o: ParamDef)
    requires p.location == o.location
    ensures MergeSingleParamDef(p, o) == p <==> SaysNothingNew(o, p)
  {
  }

  /** One path parameter, with the unplaced parameters of the route and without them. */
  lemma {:induction false} PathParamOfKept(
    tables: Tables, name: string, i: nat, found: seq<ParamDef>, ps: seq<ParamDef>)
    ensures var p := PathParam(tables, name, i, found, ByName(ps));
            PathParam(tables, name, i, found, ByName(Kept(ps))) ==
            if HidesOverride(ps, name) then MergeSingleParamDef(p, ByName(Kept(ps))[name]) else p
    ensures PathParam(tables, name, i, found, ByName(ps)).location == "path"
  {
    KeptKeeps(ps);
    var def := Overlay(Positional(FromTables(tables, name), found, i), ByName(found));
    OverlaysDiffer(def, ByName(ps), ByName(Kept(ps)));
  }

  lemma OverlaysDiffer(def: ParamDef, m: map<string, ParamDef>, k: map<string, ParamDef>)
    requires def.location == "path"
    requires def.name in k ==> def.name in m && IsPlaced(k[def.name])
    requires def.name in m && IsPlaced(m[def.name]) ==> def.name in k && k[def.name] == m[def.name]
    ensures Overlay(def, k) ==
            if def.name in m && !IsPlaced(m[def.name]) && def.name in k && k[def.name].location == "path"
            then MergeSingleParamDef(Overlay(def, m), k[def.name]) else Overlay(def, m)
  {
  }

  // No unplaced parameter of the route hides an override that would change a path parameter.
  predicate HidesNothing(ps: seq<ParamDef>, pathParams: seq<ParamDef>) {
    forall i :: 0 <= i < |pathParams| && HidesOverride(ps, pathParams[i].name) ==>
      SaysNothingNew(ByName(Kept(ps))[pathParams[i].name], pathParams[i])
  }

  /**
   The path parameters are the same without the unplaced parameters of the route, blank
   ones included, exactly when none of those hides an override that would change one.
   */
  lemma PathParamsIgnoreUnplacedIff(tables: Tables, path: string, found: seq<ParamDef>, ps: seq<ParamDef>)
    ensures PathParams(tables, path, found, ByName(Kept(ps))) == PathParams(tables, path, found, ByName(ps)) <==>
            HidesNothing(ps, PathParams(tables, path, found, ByName(ps)))
  {
    var all, kept := PathParams(tables, path, found, ByName(ps)), PathParams(tables, path, found, ByName(Kept(ps)));
    var names := ExtractPathParamNames(path);
    OneParamPerPlaceholder(tables, path, found, ByName(ps));
    forall i | 0 <= i < |names|
      ensures kept[i] == all[i] <==> HidesOverride(ps, names[i]) ==> SaysNothingNew(ByName(Kept(ps))[names[i]], all[i])
    {
      PathParamOfKept(tables, names[i], i, found, ps);
      if HidesOverride(ps, names[i]) {
        SaysNothingNewIff(all[i], ByName(Kept(ps))[names[i]]);
      }
    }
  }

  // What they hide would not change how a path parameter is rendered.
  predicate HidesNothingShown(tables: Tables, ps: seq<ParamDef>, pathParams: seq<ParamDef>) {
    forall i :: 0 <= i < |pathParams| && HidesOverride(ps, pathParams[i].name) ==>
      OpenAPIParameter(tables, MergeSingleParamDef(pathParams[i], ByName(Kept(ps))[pathParams[i].name])) ==
      OpenAPIParameter(tables, pathParams[i])
  }

  lemma RenderAlikeIff(tables: Tables, a: seq<ParamDef>, b: seq<ParamDef>, qs: seq<ParamDef>)
    requires |a| == |b|
    ensures Render(tables, a + qs) == Render(tables, b + qs) <==>
            forall i :: 0 <= i < |a| ==> OpenAPIParameter(tables, a[i]) == OpenAPIParameter(tables, b[i])
  {
    var u, v := Render(tables, a + qs), Render(tables, b + qs);
    assert forall i :: 0 <= i < |a| ==>
      u[i] == OpenAPIParameter(tables, a[i]) && v[i] == OpenAPIParameter(tables, b[i]);
    assert forall i :: |a| <= i < |u| ==> u[i] == v[i];
  }

  /** Query parameters never depend on unplaced ones, so the operation does exactly when it shows what they hide. */
  lemma OperationIgnoresUnplacedIff(tables: Tables, route: RouteDef, verb: string,
                                    discovered: map<string, DiscoveredEndpoint>)
    ensures var found := DiscoveredPath(discovered, verb, route.path);
            OperationParameters(tables, route.(params := Kept(route.params)), verb, discovered) ==
            OperationParameters(tables, route, verb, discovered) <==>
            HidesNothingShown(tables, route.params, PathParams(tables, route.path, found, ByName(route.params)))
  {
    var found, ps := DiscoveredPath(discovered, verb, route.path), route.params;
    var all, kept := PathParams(tables, route.path, found, ByName(ps)),
                     PathParams(tables, route.path, found, ByName(Kept(ps)));
    var names := ExtractPathParamNames(route.path);
    KeptKeeps(ps);
    OneParamPerPlaceholder(tables, route.path, found, ByName(ps));
    RenderAlikeIff(tables, kept, all, QueryParams(route, DiscoveredQuery(discovered, verb, route.path)));
    forall i | 0 <= i < |names|
      ensures kept[i] == if HidesOverride(ps, all[i].name)
                         then MergeSingleParamDef(all[i], ByName(Kept(ps))[all[i].name]) else all[i]
    {
      PathParamOfKept(tables, names[i], i, found, ps);
    }
  }

  lemma BlankAfterPath(p: ParamDef, b: ParamDef)
    requires p.location == "path" && b.location == "" && b.name == p.name
    ensures Kept([p, b]) == [p]
    ensures ByName([p]) == map[p.name := p] && ByName([p, b]) == map[p.name := b]
  {
    assert [p, b][..1] == [p] && [p][..0] == [];
    assert Kept([p]) == [p] && Kept([p, b]) == Kept([p]) + [];
    OneMoreParam([], p);
    OneMoreParam([p], b);
    assert [] + [p] == [p] && [p] + [b] == [p, b];
  }

  // A blank parameter after a path override of the same name erases the override.
  lemma BlankParamErasesOverride(tables: Tables, description: string)
    requires description != "" && description != tables.pathDescription("x")
    ensures var p := ParamDef("x", "path", "", "", description, None, None);
            var b := p.(location := "", description := "");
            && Kept([p, b]) == [p]
            && PathParams(tables, "{x}", [], ByName([p]))[0].description == description
            && PathParams(tables, "{x}", [], ByName([p, b]))[0] == FromTables(tables, "x")
  {
    var p := ParamDef("x", "path", "", "", description, None, None);
    BlankAfterPath(p, p.(location := "", description := ""));
    XIsPlaceholder();
  }
}
