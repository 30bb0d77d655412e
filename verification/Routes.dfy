/** Extending the hand-written routes with the discovered endpoints. */
module Routes {
  import opened Strings
  import opened Sorting
  import opened PathTemplates
  import opened Parameters

  lemma LexIsWeakOrder(keys: seq<string>)
    ensures WeakOrder(keys, LexLess)
  {
    forall a, b | LexLess(a, b) ensures !LexLess(b, a) {
      LexTotal(a, b);
    }
    forall a, b, c | LexLess(a, c) ensures LexLess(a, b) || LexLess(b, c) {
      LexTotal(a, b);
      if LexLess(b, a) {
        LexTransitive(b, a, c);
      }
    }
  }

  lemma OrderedStringsAreStrict(keys: seq<string>)
    requires Ordered(keys, LexLess) && Distinct(keys)
    ensures StrictlyOrdered(keys, LexLess)
  {
    forall i, j | 0 <= i < j < |keys| ensures LexLess(keys[i], keys[j]) {
      LexTotal(keys[i], keys[j]);
    }
  }

  /** The members of a set in ascending order; the set is visited in no particular order. */
  method SortedKeys(s: set<string>) returns (keys: seq<string>)
    ensures StrictlyOrdered(keys, LexLess)
    ensures forall k :: k in keys <==> k in s
  {
    keys := [];
    var rest := s;
    while rest != {}
      invariant Distinct(keys)
      invariant rest <= s && forall k :: k in keys <==> k in s && k !in rest
    {
      var k :| k in rest;
      keys := keys + [k];
      rest := rest - {k};
    }
    ghost var unsorted := keys;
    LexIsWeakOrder(keys);
    keys := SortSlice(keys, LexLess);
    SameElements(unsorted, keys);
    PermutationDistinct(unsorted, keys);
    OrderedStringsAreStrict(keys);
  }

  // ----- Known endpoints -----

  function RouteKeys(r: RouteDef): set<string> {
    set j | 0 <= j < |r.verbs| :: EndpointKey(r.verbs[j], r.path)
  }

  function KnownKeys(routes: seq<RouteDef>): set<string> {
    set r, k | r in routes && k in RouteKeys(r) :: k
  }

  lemma KnownOfConcat(a: seq<RouteDef>, b: seq<RouteDef>)
    ensures KnownKeys(a + b) == KnownKeys(a) + KnownKeys(b)
  {
    assert forall r :: r in a + b <==> r in a || r in b;
  }

  lemma KnownOfNext(routes: seq<RouteDef>, i: nat)
    requires i < |routes|
    ensures KnownKeys(routes[..i + 1]) == KnownKeys(routes[..i]) + RouteKeys(routes[i])
  {
    assert routes[..i + 1] == routes[..i] + [routes[i]];
    KnownOfConcat(routes[..i], [routes[i]]);
    assert forall r :: r in [routes[i]] <==> r == routes[i];
    assert KnownKeys([routes[i]]) == RouteKeys(routes[i]);
  }

  method CollectKnown(routes: seq<RouteDef>) returns (known: set<string>)
    ensures known == KnownKeys(routes)
  {
    known := {};
    for i := 0 to |routes|
      invariant known == KnownKeys(routes[..i])
    {
      var route := routes[i];
      KnownOfNext(routes, i);
      ghost var before := known;
      for j := 0 to |route.verbs|
        invariant known == before + set m | 0 <= m < j :: EndpointKey(route.verbs[m], route.path)
      {
        known := known + {EndpointKey(route.verbs[j], route.path)};
      }
    }
    assert routes[..|routes|] == routes;
  }

  // ----- Augmentation -----

  // Every endpoint is filed under its own key.
  ghost predicate OwnKeys(discovered: map<string, DiscoveredEndpoint>) {
    forall k :: k in discovered ==> EndpointKey(discovered[k].verb, discovered[k].path) == k
  }

  function RouteOf(tables: Tables, ep: DiscoveredEndpoint): RouteDef {
    RouteDef(ep.path, [ToLower(ep.verb)], tables.tagOfPath(ep.path), ep.summary, tables.securityOfPath(ep.path), [])
  }

  function RoutesOf(tables: Tables, keys: seq<string>, discovered: map<string, DiscoveredEndpoint>): seq<RouteDef>
    requires forall k :: k in keys ==> k in discovered
  {
    seq(|keys|, i requires 0 <= i < |keys| => assert keys[i] in keys; RouteOf(tables, discovered[keys[i]]))
  }

  ghost predicate NewKeys(keys: seq<string>, routes: seq<RouteDef>, discovered: map<string, DiscoveredEndpoint>) {
    StrictlyOrdered(keys, LexLess) && forall k :: k in keys <==> k in discovered && k !in KnownKeys(routes)
  }

  /** The routes, followed by one route for each unknown discovered endpoint in key order. */
  ghost predicate Augments(tables: Tables, routes: seq<RouteDef>, discovered: map<string, DiscoveredEndpoint>,
                           augmented: seq<RouteDef>)
  {
    exists keys :: NewKeys(keys, routes, discovered) && augmented == routes + RoutesOf(tables, keys, discovered)
  }

  method AugmentRoutesFromDiscovery(tables: Tables, routes: seq<RouteDef>, discovered: map<string, DiscoveredEndpoint>)
    returns (augmented: seq<RouteDef>)
    ensures Augments(tables, routes, discovered, augmented)
  {
    var known := CollectKnown(routes);
    augmented := routes;
    var keys := SortedKeys(discovered.Keys);
    ghost var added: seq<string> := [];
    for i := 0 to |keys|
      invariant StrictlyOrdered(added, LexLess)
      invariant forall k :: k in added <==> k in keys[..i] && k !in known
      invariant augmented == routes + RoutesOf(tables, added, discovered)
    {
      assert keys[i] in keys && keys[..i + 1] == keys[..i] + [keys[i]];
      if keys[i] !in known {
        StrictlyOrderedNext(keys, i, added);
        RoutesOfNext(tables, added, keys[i], discovered);
        augmented := augmented + [RouteOf(tables, discovered[keys[i]])];
        added := added + [keys[i]];
      }
    }
    assert keys[..|keys|] == keys;
    assert NewKeys(added, routes, discovered);
  }

  lemma StrictlyOrderedNext(keys: seq<string>, i: nat, added: seq<string>)
    requires i < |keys| && StrictlyOrdered(keys, LexLess) && StrictlyOrdered(added, LexLess)
    requires forall k :: k in added ==> k in keys[..i]
    ensures StrictlyOrdered(added + [keys[i]], LexLess)
  {
    forall m | 0 <= m < |added| ensures LexLess(added[m], keys[i]) {
      assert added[m] in added;
      var j :| 0 <= j < i && keys[..i][j] == added[m];
    }
  }

  lemma RoutesOfNext(tables: Tables, added: seq<string>, k: string, discovered: map<string, DiscoveredEndpoint>)
    requires k in discovered && forall a :: a in added ==> a in discovered
    ensures forall a :: a in added + [k] ==> a in discovered
    ensures RoutesOf(tables, added + [k], discovered) ==
            RoutesOf(tables, added, discovered) + [RouteOf(tables, discovered[k])]
  {
  }

  /** The visiting order of the discovered map leaves no trace. */
  lemma AugmentationIsUnique(tables: Tables, routes: seq<RouteDef>, discovered: map<string, DiscoveredEndpoint>,
                             a: seq<RouteDef>, b: seq<RouteDef>)
    requires Augments(tables, routes, discovered, a) && Augments(tables, routes, discovered, b)
    ensures a == b
  {
    var j :| NewKeys(j, routes, discovered) && a == routes + RoutesOf(tables, j, discovered);
    var k :| NewKeys(k, routes, discovered) && b == routes + RoutesOf(tables, k, discovered);
    LexIsWeakOrder(j);
    StrictOrderUnique(j, k, LexLess);
  }

  lemma KeyIgnoresCase(verb: string, path: string)
    ensures EndpointKey(ToLower(verb), path) == EndpointKey(verb, path)
  {
    CaseAbsorbs(verb);
  }

  lemma KeyOfAppended(tables: Tables, keys: seq<string>, discovered: map<string, DiscoveredEndpoint>, i: nat)
    requires OwnKeys(discovered) && (forall k :: k in keys ==> k in discovered) && i < |keys|
    ensures RouteKeys(RoutesOf(tables, keys, discovered)[i]) == {keys[i]}
  {
    assert keys[i] in keys;
    var ep := discovered[keys[i]];
    KeyIgnoresCase(ep.verb, ep.path);
    assert RouteOf(tables, ep).verbs[0] == ToLower(ep.verb);
  }

  lemma KnownOfAppended(tables: Tables, keys: seq<string>, discovered: map<string, DiscoveredEndpoint>)
    requires OwnKeys(discovered) && forall k :: k in keys ==> k in discovered
    ensures forall k :: k in KnownKeys(RoutesOf(tables, keys, discovered)) <==> k in keys
  {
    var rs := RoutesOf(tables, keys, discovered);
    forall i | 0 <= i < |keys| ensures RouteKeys(rs[i]) == {keys[i]} {
      KeyOfAppended(tables, keys, discovered, i);
    }
    forall k ensures k in KnownKeys(rs) <==> k in keys {
      KnownByKeys(rs, keys, k);
    }
  }

  lemma KnownByKeys(rs: seq<RouteDef>, keys: seq<string>, k: string)
    requires |rs| == |keys| && forall i :: 0 <= i < |rs| ==> RouteKeys(rs[i]) == {keys[i]}
    ensures k in KnownKeys(rs) <==> k in keys
  {
    if k in KnownKeys(rs) {
      var r :| r in rs && k in RouteKeys(r);
      var i :| 0 <= i < |rs| && rs[i] == r;
    }
    if k in keys {
      var i :| 0 <= i < |keys| && keys[i] == k;
      assert rs[i] in rs && k in RouteKeys(rs[i]);
    }
  }

  lemma NewKeysAreDistinct(keys: seq<string>, routes: seq<RouteDef>, discovered: map<string, DiscoveredEndpoint>)
    requires NewKeys(keys, routes, discovered)
    ensures Distinct(keys)
    ensures forall i :: 0 <= i < |keys| ==> keys[i] in discovered && keys[i] !in KnownKeys(routes)
    ensures keys != [] ==> keys[0] in keys
  {
    forall i, j | 0 <= i < j < |keys| ensures keys[i] != keys[j] {
      LexTotal(keys[i], keys[i]);
    }
    assert forall i :: 0 <= i < |keys| ==> keys[i] in keys;
  }

  /**
   The hand-written routes stay in front; each appended route has one key, unknown before
   and not shared with another; together they cover every discovered endpoint.
   */
  lemma AugmentationCovers(tables: Tables, routes: seq<RouteDef>, discovered: map<string, DiscoveredEndpoint>,
                           augmented: seq<RouteDef>)
    requires OwnKeys(discovered) && Augments(tables, routes, discovered, augmented)
    ensures routes <= augmented
    ensures KnownKeys(augmented) == KnownKeys(routes) + discovered.Keys
  {
    var keys :| NewKeys(keys, routes, discovered) && augmented == routes + RoutesOf(tables, keys, discovered);
    KnownOfConcat(routes, RoutesOf(tables, keys, discovered));
    KnownOfAppended(tables, keys, discovered);
  }

  /** A route appended for a discovered endpoint: its tag and security are those of the tables for its path. */
  predicate IsAppended(tables: Tables, ep: DiscoveredEndpoint, route: RouteDef) {
    && route.path == ep.path && route.verbs == [ToLower(ep.verb)] && route.summary == ep.summary
    && route.tag == tables.tagOfPath(ep.path) && route.security == tables.securityOfPath(ep.path)
    && route.params == []
  }

  /** The routes appended have one key each, and these are distinct and were not known before. */
  lemma AugmentationAppendsNew(tables: Tables, routes: seq<RouteDef>, discovered: map<string, DiscoveredEndpoint>,
                               augmented: seq<RouteDef>) returns (keys: seq<string>)
    requires OwnKeys(discovered) && Augments(tables, routes, discovered, augmented)
    ensures |routes| + |keys| == |augmented| && Distinct(keys)
    ensures forall i :: 0 <= i < |keys| ==>
              RouteKeys(augmented[|routes| + i]) == {keys[i]} && keys[i] !in KnownKeys(routes)
    ensures forall i :: 0 <= i < |keys| ==>
              keys[i] in discovered && IsAppended(tables, discovered[keys[i]], augmented[|routes| + i])
    ensures forall i, j :: 0 <= i < j < |keys| ==> LexLess(keys[i], keys[j])
  {
    keys :| NewKeys(keys, routes, discovered) && augmented == routes + RoutesOf(tables, keys, discovered);
    AppendedAreNew(tables, routes, keys, discovered);
  }

  lemma AppendedAreNew(tables: Tables, routes: seq<RouteDef>, keys: seq<string>,
                       discovered: map<string, DiscoveredEndpoint>)
    requires OwnKeys(discovered) && NewKeys(keys, routes, discovered)
    ensures Distinct(keys)
    ensures forall i :: 0 <= i < |keys| ==>
              RouteKeys((routes + RoutesOf(tables, keys, discovered))[|routes| + i]) == {keys[i]}
              && keys[i] !in KnownKeys(routes)
  {
    NewKeysAreDistinct(keys, routes, discovered);
    forall i | 0 <= i < |keys|
      ensures RouteKeys((routes + RoutesOf(tables, keys, discovered))[|routes| + i]) == {keys[i]}
      ensures keys[i] !in KnownKeys(routes)
    {
      KeyOfAppended(tables, keys, discovered, i);
    }
  }

  /** Augmenting twice is augmenting once. */
  lemma AugmentTwice(tables: Tables, routes: seq<RouteDef>, discovered: map<string, DiscoveredEndpoint>,
                     once: seq<RouteDef>, twice: seq<RouteDef>)
    requires OwnKeys(discovered)
    requires Augments(tables, routes, discovered, once) && Augments(tables, once, discovered, twice)
    ensures twice == once
  {
    AugmentationCovers(tables, routes, discovered, once);
    var keys :| NewKeys(keys, once, discovered) && twice == once + RoutesOf(tables, keys, discovered);
    NewKeysAreDistinct(keys, once, discovered);
  }
}
