/** The whole generator: discover, augment, build. */
module Generator {
  import opened Wrappers
  import opened Strings
  import opened Sorting
  import opened PathTemplates
  import opened MergeAlgebra
  import opened MergeLaws
  import opened Parameters
  import opened OperationLists
  import opened Routes
  import opened SpecBuilder
  import opened Handlers
  import opened HandlerFiles
  import opened Accumulation
  import opened Discovery

  // Some header announces the endpoint with this key.
  ghost predicate IsAnnounced(tables: Tables, cls: Classifiers, entries: seq<DirEntry>, key: string) {
    exists c :: c in DirContributions(tables, cls, entries) && c.key == key
  }

  ghost predicate HasOperation(spec: Spec, key: string) {
    exists p, v :: OperationAt(spec.paths, p, v).Some? && EndpointKey(v, p) == key
  }

  // The parameters of every operation list the placeholders of its path, and are free of
  // duplicates exactly when the path repeats none.
  ghost predicate IsClean(params: seq<Parameter>, path: string) {
    && IsComplete(params, ExtractPathParamNames(path))
    && (NoDuplicates(params) <==> Distinct(ExtractPathParamNames(path)))
  }

  ghost predicate OperationsAreClean(spec: Spec) {
    forall p, v :: OperationAt(spec.paths, p, v).Some? ==> IsClean(OperationAt(spec.paths, p, v).value.parameters, p)
  }

  // Every operation that the hand-written routes alone would give is there.
  ghost predicate KeepsHandWritten(tables: Tables, routes: seq<RouteDef>, discovered: map<string, DiscoveredEndpoint>,
                                   spec: Spec)
  {
    forall p, v :: LastWrite(Writes(tables, routes, discovered), p, v).Some? ==>
      OperationAt(spec.paths, p, v) == LastWrite(Writes(tables, routes, discovered), p, v)
  }

  ghost predicate IsDiscovered(tables: Tables, cls: Classifiers, handlerDir: Option<Result<seq<DirEntry>>>,
                               discovered: map<string, DiscoveredEndpoint>)
    requires handlerDir.Some? ==> handlerDir.value.Ok?
  {
    if handlerDir.None? then discovered == map[]
    else Registered(tables, cls, discovered, DirContributions(tables, cls, handlerDir.value.value))
  }

  // Every operation is that of a route, as discovery extends them, and one of its methods.
  ghost predicate OperationsAre(tables: Tables, routes: seq<RouteDef>, discovered: map<string, DiscoveredEndpoint>,
                                spec: Spec)
  {
    forall p, v :: OperationAt(spec.paths, p, v).Some? ==>
      exists route, verb :: route in routes && verb in route.verbs && route.path == p && ToLower(verb) == v
                            && IsOperation(tables, route, verb, discovered, OperationAt(spec.paths, p, v).value)
  }

  // The specification is that of the routes as discovery extends them.
  ghost predicate IsBuilt(tables: Tables, routes: seq<RouteDef>, discovered: map<string, DiscoveredEndpoint>,
                          spec: Spec)
  {
    exists augmented :: Augments(tables, routes, discovered, augmented) && HasTagsAndPaths(augmented, spec)
                        && Holds(spec.paths, Writes(tables, augmented, discovered))
                        && OperationsAre(tables, augmented, discovered, spec)
  }

  /**
   The generated specification has an operation for each endpoint that a route or a
   handler comment names, and for no other; discovery replaces no hand-written operation.
   */
  method Generate(tables: Tables, cls: Classifiers, handlerDir: Option<Result<seq<DirEntry>>>, routes: seq<RouteDef>)
    returns (r: Result<Spec>, discovered: map<string, DiscoveredEndpoint>)
    ensures r.Err? <==> handlerDir.Some? && Unreadable(handlerDir.value)
    ensures r.Ok? ==>
              forall key :: HasOperation(r.value, key) <==>
                key in KnownKeys(routes) || (handlerDir.Some? && IsAnnounced(tables, cls, handlerDir.value.value, key))
    ensures r.Ok? ==> KeepsHandWritten(tables, routes, discovered, r.value) && OperationsAreClean(r.value)
    ensures r.Ok? ==> IsDiscovered(tables, cls, handlerDir, discovered)
    ensures r.Ok? ==> IsBuilt(tables, routes, discovered, r.value)
  {
    discovered := map[];
    if handlerDir.Some? {
      var found := DiscoverHandlerEndpoints(tables, cls, handlerDir.value);
      if found.Err? {
        return Err("discover handler params: " + found.message), map[];
      }
      discovered := found.value;
      DiscoveryLosesNothing(tables, cls, handlerDir.value.value, discovered);
      DirContributionsAreSound(tables, cls, handlerDir.value.value);
      QueriesArePlaced(tables, cls, DirContributions(tables, cls, handlerDir.value.value), discovered);
    }
    var augmented := AugmentRoutesFromDiscovery(tables, routes, discovered);
    var spec := BuildSpec(tables, augmented, discovered);
    AugmentedSpec(tables, routes, discovered, augmented, spec);
    OperationsAreWritten(tables, augmented, discovered, spec);
    r := Ok(spec);
  }

  // What discovery guarantees of its entries.
  ghost predicate WellDiscovered(discovered: map<string, DiscoveredEndpoint>) {
    OwnKeys(discovered) && forall k :: k in discovered ==> LocationsIn(discovered[k].queryParams, {"query"})
  }

  lemma QueriesArePlaced(tables: Tables, cls: Classifiers, cs: seq<Contribution>,
                         discovered: map<string, DiscoveredEndpoint>)
    requires AreSound(tables, cs) && Registered(tables, cls, discovered, cs)
    ensures forall k :: k in discovered ==> LocationsIn(discovered[k].queryParams, {"query"})
  {
    forall k | k in discovered ensures LocationsIn(discovered[k].queryParams, {"query"}) {
      DiscoveredParamsAre(tables, cls, cs, discovered, k, InQuery, "");
    }
  }

  lemma AugmentedSpec(tables: Tables, routes: seq<RouteDef>, discovered: map<string, DiscoveredEndpoint>,
                      augmented: seq<RouteDef>, spec: Spec)
    requires WellDiscovered(discovered) && Augments(tables, routes, discovered, augmented)
    requires ProperQueries(discovered) ==> Holds(spec.paths, Writes(tables, augmented, discovered))
    ensures forall key :: HasOperation(spec, key) <==> key in KnownKeys(routes) || key in discovered
    ensures KeepsHandWritten(tables, routes, discovered, spec)
    ensures OperationsAreClean(spec)
  {
    assert ProperQueries(discovered);
    AugmentationCovers(tables, routes, discovered, augmented);
    forall key ensures HasOperation(spec, key) <==> key in KnownKeys(routes) || key in discovered {
      OperationIffKnown(tables, augmented, discovered, spec.paths, key);
    }
    forall p, v | LastWrite(Writes(tables, routes, discovered), p, v).Some?
      ensures OperationAt(spec.paths, p, v) == LastWrite(Writes(tables, routes, discovered), p, v)
    {
      HandWrittenOperationsStay(tables, routes, discovered, augmented, p, v);
    }
    forall p, v | OperationAt(spec.paths, p, v).Some?
      ensures IsClean(OperationAt(spec.paths, p, v).value.parameters, p)
    {
      OperationIsClean(tables, augmented, discovered, p, v);
    }
  }

  lemma OperationsAreWritten(tables: Tables, routes: seq<RouteDef>, discovered: map<string, DiscoveredEndpoint>,
                             spec: Spec)
    requires WellDiscovered(discovered) && Holds(spec.paths, Writes(tables, routes, discovered))
    ensures OperationsAre(tables, routes, discovered, spec)
  {
    forall p, v | OperationAt(spec.paths, p, v).Some?
      ensures exists route, verb :: route in routes && verb in route.verbs && route.path == p && ToLower(verb) == v
                && IsOperation(tables, route, verb, discovered, OperationAt(spec.paths, p, v).value)
    {
      var route, verb := WriterOf(tables, routes, discovered, p, v);
      OperationIs(tables, route, verb, discovered);
    }
  }

  lemma {:induction false} OperationIsClean(
    tables: Tables, routes: seq<RouteDef>, discovered: map<string, DiscoveredEndpoint>, p: string, v: string)
    requires WellDiscovered(discovered) && LastWrite(Writes(tables, routes, discovered), p, v).Some?
    ensures IsClean(LastWrite(Writes(tables, routes, discovered), p, v).value.parameters, p)
  {
    var route, verb := WriterOf(tables, routes, discovered, p, v);
    NoDuplicatesIffDistinctPlaceholders(tables, route, verb, discovered);
    OperationParametersAre(tables, route, verb, discovered);
  }

  // The route and method that wrote an operation last.
  lemma {:induction false} WriterOf(tables: Tables, routes: seq<RouteDef>, discovered: map<string, DiscoveredEndpoint>,
                                    p: string, v: string)
    returns (route: RouteDef, verb: string)
    requires LastWrite(Writes(tables, routes, discovered), p, v).Some?
    ensures route in routes && verb in route.verbs && route.path == p && ToLower(verb) == v
    ensures LastWrite(Writes(tables, routes, discovered), p, v).value == OperationOf(tables, route, verb, discovered)
  {
    var front, last := routes[..|routes| - 1], routes[|routes| - 1];
    var mine := RouteWrites(tables, last, discovered);
    LastWriteOfConcat(Writes(tables, front, discovered), mine, p, v);
    if LastWrite(mine, p, v).Some? {
      route := last;
      verb := RouteWriterOf(tables, last, discovered, p, v);
    } else {
      route, verb := WriterOf(tables, front, discovered, p, v);
    }
  }

  lemma RouteWriterOf(tables: Tables, route: RouteDef, discovered: map<string, DiscoveredEndpoint>, p: string,
                      v: string)
    returns (verb: string)
    requires LastWrite(RouteWrites(tables, route, discovered), p, v).Some?
    ensures verb in route.verbs && route.path == p && ToLower(verb) == v
    ensures LastWrite(RouteWrites(tables, route, discovered), p, v) ==
            Some(OperationOf(tables, route, verb, discovered))
  {
    var i := LastWriteIndex(RouteWrites(tables, route, discovered), p, v);
    verb := route.verbs[i];
  }

  lemma {:induction false} LastWriteIndex(ws: seq<Write>, p: string, v: string) returns (i: nat)
    requires LastWrite(ws, p, v).Some?
    ensures i < |ws| && ws[i].path == p && ws[i].verb == v && LastWrite(ws, p, v) == Some(ws[i].op)
  {
    var w := ws[|ws| - 1];
    if w.path == p && w.verb == v {
      i := |ws| - 1;
    } else {
      i := LastWriteIndex(ws[..|ws| - 1], p, v);
    }
  }

  // ----- The generator is deterministic -----

  // No comments on any endpoint repeat a parameter.
  ghost predicate NothingIsRepeated(cs: seq<Contribution>) {
    forall place, k :: RepeatNothing(place, k, cs)
  }

  /** If no comments repeat a parameter, discovery has only one result, whatever sorting does with ties. */
  lemma DiscoveryIsDeterministic(tables: Tables, cls: Classifiers, cs: seq<Contribution>,
                                 a: map<string, DiscoveredEndpoint>, b: map<string, DiscoveredEndpoint>)
    requires AreSound(tables, cs) && NothingIsRepeated(cs)
    requires Registered(tables, cls, a, cs) && Registered(tables, cls, b, cs)
    ensures a == b
  {
    forall k | k in a ensures k in b && a[k] == b[k] {
      assert RepeatNothing(InPath, k, cs) && RepeatNothing(InQuery, k, cs);
      AccumulationIsUnique(tables, cls, InPath, k, cs, a[k].pathParams, b[k].pathParams);
      AccumulationIsUnique(tables, cls, InQuery, k, cs, a[k].queryParams, b[k].queryParams);
    }
    assert a.Keys == b.Keys;
  }

  /** Then the generator has only one result, too. */
  lemma GenerationIsDeterministic(
    tables: Tables, cls: Classifiers, handlerDir: Option<Result<seq<DirEntry>>>, routes: seq<RouteDef>,
    a: map<string, DiscoveredEndpoint>, b: map<string, DiscoveredEndpoint>, s: Spec, t: Spec)
    requires handlerDir.Some? ==>
               handlerDir.value.Ok? && NothingIsRepeated(DirContributions(tables, cls, handlerDir.value.value))
    requires IsDiscovered(tables, cls, handlerDir, a) && IsBuilt(tables, routes, a, s)
    requires IsDiscovered(tables, cls, handlerDir, b) && IsBuilt(tables, routes, b, t)
    ensures a == b && s == t
  {
    if handlerDir.Some? {
      DirContributionsAreSound(tables, cls, handlerDir.value.value);
      DiscoveryIsDeterministic(tables, cls, DirContributions(tables, cls, handlerDir.value.value), a, b);
    }
    var x :| Augments(tables, routes, a, x) && HasTagsAndPaths(x, s) && Holds(s.paths, Writes(tables, x, a));
    var y :| Augments(tables, routes, b, y) && HasTagsAndPaths(y, t) && Holds(t.paths, Writes(tables, y, b));
    AugmentationIsUnique(tables, routes, a, x, y);
    SpecIsUnique(x, Writes(tables, x, a), s, t);
  }
}
