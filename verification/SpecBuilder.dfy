/** The paths and tags of the generated specification. */
module SpecBuilder {
  import opened Wrappers
  import opened Strings
  import opened Sorting
  import opened PathTemplates
  import opened Params
  import opened MergeLaws
  import opened Parameters
  import opened OperationLists
  import opened Routes

  // ----- Operation identifiers -----

  function ReplaceChar(s: string, from: char, to: char): string {
    seq(|s|, i requires 0 <= i < |s| => if s[i] == from then to else s[i])
  }

  function RemoveChar(s: string, c: char): string {
    if s == "" then "" else (if s[0] == c then "" else [s[0]]) + RemoveChar(s[1..], c)
  }

  function WithoutBraces(s: string): string {
    RemoveChar(RemoveChar(s, '{'), '}')
  }

  // A path without its "/api/" prefix and its braces, slashes read as underscores.
  function Slug(path: string): string {
    WithoutBraces(ReplaceChar(TrimPrefix(path, "/api/"), '/', '_'))
  }

  function OperationID(path: string, verb: string): string {
    ToLower(verb) + "_" + Slug(path)
  }

  lemma {:induction false} RemoveAfterReplace(s: string, c: char)
    requires c != '/' && c != '_'
    ensures RemoveChar(ReplaceChar(s, '/', '_'), c) == ReplaceChar(RemoveChar(s, c), '/', '_')
  {
    if s != "" {
      RemoveAfterReplace(s[1..], c);
      assert ReplaceChar(s, '/', '_')[1..] == ReplaceChar(s[1..], '/', '_');
    }
  }

  lemma {:induction false} RemoveKeepsOut(s: string, c: char, x: char)
    requires x !in s
    ensures x !in RemoveChar(s, c)
  {
    if s != "" {
      assert s == [s[0]] + s[1..];
      RemoveKeepsOut(s[1..], c, x);
    }
  }

  // On strings without underscores, turning slashes into underscores loses nothing.
  lemma ReplaceIsInjective(s: string, t: string)
    requires '_' !in s && '_' !in t
    ensures ReplaceChar(s, '/', '_') == ReplaceChar(t, '/', '_') <==> s == t
  {
    var u, v := ReplaceChar(s, '/', '_'), ReplaceChar(t, '/', '_');
    if u == v {
      assert |u| == |s| && |v| == |t|;
      forall i | 0 <= i < |s| ensures s[i] == t[i] {
        assert u[i] == v[i] && s[i] in s && t[i] in t;
      }
    }
  }

  /**
   Methods have no underscores, so two operations share an identifier exactly when their
   methods agree up to case and their paths agree as slugs.
   */
  lemma SameOperationIDIff(p1: string, v1: string, p2: string, v2: string)
    requires '_' !in v1 && '_' !in v2
    ensures OperationID(p1, v1) == OperationID(p2, v2) <==> ToLower(v1) == ToLower(v2) && Slug(p1) == Slug(p2)
  {
    assert forall i :: 0 <= i < |v1| ==> v1[i] in v1 && ToLower(v1)[i] == LowerChar(v1[i]);
    assert forall i :: 0 <= i < |v2| ==> v2[i] in v2 && ToLower(v2)[i] == LowerChar(v2[i]);
    if OperationID(p1, v1) == OperationID(p2, v2) {
      CutIsUnique(ToLower(v1), Slug(p1), ToLower(v2), Slug(p2), '_');
    }
  }

  predicate AlikeInSlug(c: char, d: char) {
    c == d || (c in {'/', '_'} && d in {'/', '_'})
  }

  /** Slugs agree exactly when the paths do, up to braces and to slashes in the place of underscores. */
  lemma SameSlugIff(p1: string, p2: string)
    ensures var s1, s2 := WithoutBraces(TrimPrefix(p1, "/api/")), WithoutBraces(TrimPrefix(p2, "/api/"));
            Slug(p1) == Slug(p2) <==>
            |s1| == |s2| && forall i :: 0 <= i < |s1| ==> AlikeInSlug(s1[i], s2[i])
  {
    SlugOf(p1);
    SlugOf(p2);
    FoldedIff(WithoutBraces(TrimPrefix(p1, "/api/")), WithoutBraces(TrimPrefix(p2, "/api/")));
  }

  lemma FoldedIff(s: string, t: string)
    ensures ReplaceChar(s, '/', '_') == ReplaceChar(t, '/', '_') <==>
            |s| == |t| && forall i :: 0 <= i < |s| ==> AlikeInSlug(s[i], t[i])
  {
    var u, v := ReplaceChar(s, '/', '_'), ReplaceChar(t, '/', '_');
    assert |u| == |s| && |v| == |t|;
    assert |s| == |t| ==> forall i :: 0 <= i < |s| ==> (u[i] == v[i] <==> AlikeInSlug(s[i], t[i]));
    if |s| == |t| && forall i :: 0 <= i < |s| ==> AlikeInSlug(s[i], t[i]) {
      assert u == v;
    }
  }

  lemma SlugOf(path: string)
    ensures Slug(path) == ReplaceChar(WithoutBraces(TrimPrefix(path, "/api/")), '/', '_')
  {
    var s := TrimPrefix(path, "/api/");
    RemoveAfterReplace(s, '{');
    RemoveAfterReplace(RemoveChar(s, '{'), '}');
  }

  lemma {:induction false} RemoveConcat(s: string, t: string, c: char)
    ensures RemoveChar(s + t, c) == RemoveChar(s, c) + RemoveChar(t, c)
  {
    if s == "" {
      assert s + t == t;
    } else {
      assert (s + t)[0] == s[0] && (s + t)[1..] == s[1..] + t;
      RemoveConcat(s[1..], t, c);
    }
  }

  lemma ApiPrefixStays(path: string)
    requires HasPrefix(path, "/api/")
    ensures WithoutBraces(path) == "/api/" + WithoutBraces(TrimPrefix(path, "/api/"))
  {
    var s := TrimPrefix(path, "/api/");
    assert path == "/api/" + s;
    RemoveConcat("/api/", s, '{');
    RemoveNothing("/api/", '{');
    RemoveConcat("/api/", RemoveChar(s, '{'), '}');
    RemoveNothing("/api/", '}');
  }

  lemma {:induction false} RemoveNothing(s: string, c: char)
    requires c !in s
    ensures RemoveChar(s, c) == s
  {
    if s != "" {
      assert s == [s[0]] + s[1..];
      RemoveNothing(s[1..], c);
    }
  }

  /** Under "/api/" and without underscores, the identifiers agree exactly when the paths agree up to braces. */
  lemma SameOperationIDUnderApi(p1: string, v1: string, p2: string, v2: string)
    requires '_' !in p1 && '_' !in v1 && '_' !in p2 && '_' !in v2
    requires HasPrefix(p1, "/api/") && HasPrefix(p2, "/api/")
    ensures OperationID(p1, v1) == OperationID(p2, v2) <==>
            ToLower(v1) == ToLower(v2) && WithoutBraces(p1) == WithoutBraces(p2)
  {
    var s1, s2 := WithoutBraces(TrimPrefix(p1, "/api/")), WithoutBraces(TrimPrefix(p2, "/api/"));
    SameOperationIDIff(p1, v1, p2, v2);
    SlugOf(p1);
    SlugOf(p2);
    NoUnderscore(p1);
    NoUnderscore(p2);
    ReplaceIsInjective(s1, s2);
    ApiPrefixStays(p1);
    ApiPrefixStays(p2);
    assert WithoutBraces(p1)[5..] == s1 && WithoutBraces(p2)[5..] == s2;
  }

  lemma NoUnderscore(path: string)
    requires '_' !in path
    ensures '_' !in WithoutBraces(TrimPrefix(path, "/api/"))
  {
    var s := TrimPrefix(path, "/api/");
    assert forall i :: 0 <= i < |s| ==> s[i] == path[|path| - |s| + i];
    RemoveKeepsOut(s, '{', '_');
    RemoveKeepsOut(RemoveChar(s, '{'), '}', '_');
  }

  lemma SlugConcat(a: string, b: string)
    requires HasPrefix(a, "/api/")
    ensures Slug(a + b) == Slug(a) + WithoutBraces(ReplaceChar(b, '/', '_'))
  {
    var s := TrimPrefix(a, "/api/");
    assert TrimPrefix(a + b, "/api/") == s + b;
    var r, q := ReplaceChar(s, '/', '_'), ReplaceChar(b, '/', '_');
    assert ReplaceChar(s + b, '/', '_') == r + q;
    RemoveConcat(r, q, '{');
    RemoveConcat(RemoveChar(r, '{'), RemoveChar(q, '{'), '}');
  }

  // Identifiers are not unique: anywhere in a path, a slash reads like an underscore, and braces like nothing.
  lemma IdentifiersCollide(a: string, b: string, verb: string)
    requires HasPrefix(a, "/api/")
    ensures OperationID(a + "/" + b, verb) == OperationID(a + "_" + b, verb)
    ensures OperationID(a + "{" + b, verb) == OperationID(a + b, verb) == OperationID(a + "}" + b, verb)
  {
    SlugConcat(a, b);
    SlugOfInfix(a, "/", b);
    SlugOfInfix(a, "_", b);
    SlugOfInfix(a, "{", b);
    SlugOfInfix(a, "}", b);
    assert ReplaceChar("/", '/', '_') == "_" == ReplaceChar("_", '/', '_');
    assert ReplaceChar("{", '/', '_') == "{" && ReplaceChar("}", '/', '_') == "}";
    assert WithoutBraces("{") == "" == WithoutBraces("}");
  }

  lemma SlugOfInfix(a: string, x: string, b: string)
    requires HasPrefix(a, "/api/")
    ensures Slug(a + x + b) ==
            Slug(a) + WithoutBraces(ReplaceChar(x, '/', '_')) + WithoutBraces(ReplaceChar(b, '/', '_'))
  {
    SlugConcat(a + x, b);
    SlugConcat(a, x);
  }

  /** A piece of a path between slashes: fixed, or a placeholder. */
  datatype PathPart = Fixed(text: string) | Hole(text: string)

  function PartTexts(parts: seq<PathPart>): seq<string> {
    seq(|parts|, i requires 0 <= i < |parts| =>
      if parts[i].Fixed? then parts[i].text else "{" + parts[i].text + "}")
  }

  function BareTexts(parts: seq<PathPart>): seq<string> {
    seq(|parts|, i requires 0 <= i < |parts| => parts[i].text)
  }

  predicate IsPart(p: PathPart) {
    '/' !in p.text && '{' !in p.text && '}' !in p.text
  }

  lemma SlugOfPlain(s: string)
    requires '/' !in s && '{' !in s && '}' !in s
    ensures WithoutBraces(ReplaceChar(s, '/', '_')) == s
  {
    assert forall i :: 0 <= i < |s| ==> s[i] in s;
    assert ReplaceChar(s, '/', '_') == s;
    RemoveNothing(s, '{');
    RemoveNothing(s, '}');
  }

  lemma SlugOfConcat(a: string, b: string)
    ensures WithoutBraces(ReplaceChar(a + b, '/', '_')) ==
            WithoutBraces(ReplaceChar(a, '/', '_')) + WithoutBraces(ReplaceChar(b, '/', '_'))
  {
    var r, q := ReplaceChar(a, '/', '_'), ReplaceChar(b, '/', '_');
    assert ReplaceChar(a + b, '/', '_') == r + q;
    RemoveConcat(r, q, '{');
    RemoveConcat(RemoveChar(r, '{'), RemoveChar(q, '{'), '}');
  }

  lemma SlugOfMarks()
    ensures WithoutBraces(ReplaceChar("{", '/', '_')) == "" == WithoutBraces(ReplaceChar("}", '/', '_'))
    ensures WithoutBraces(ReplaceChar("/", '/', '_')) == "_"
  {
    assert ReplaceChar("{", '/', '_') == "{" && ReplaceChar("}", '/', '_') == "}";
    assert ReplaceChar("/", '/', '_') == "_";
  }

  lemma SlugOfPart(p: PathPart)
    requires IsPart(p)
    ensures WithoutBraces(ReplaceChar(PartTexts([p])[0], '/', '_')) == p.text
  {
    SlugOfPlain(p.text);
    if p.Hole? {
      SlugOfMarks();
      SlugOfConcat("{", p.text);
      SlugOfConcat("{" + p.text, "}");
    }
  }

  lemma {:induction false} SlugOfParts(parts: seq<PathPart>)
    requires forall i :: 0 <= i < |parts| ==> IsPart(parts[i])
    ensures WithoutBraces(ReplaceChar(Join(PartTexts(parts), '/'), '/', '_')) == Join(BareTexts(parts), '_')
  {
    if parts == [] {
      assert Join(PartTexts(parts), '/') == "";
    } else {
      SlugOfPart(parts[0]);
      if |parts| > 1 {
        SlugOfParts(parts[1..]);
        SlugOfNext(parts);
      }
    }
  }

  lemma SlugOfNext(parts: seq<PathPart>)
    requires |parts| > 1
    ensures WithoutBraces(ReplaceChar(Join(PartTexts(parts), '/'), '/', '_')) ==
            WithoutBraces(ReplaceChar(PartTexts([parts[0]])[0], '/', '_')) + "_"
            + WithoutBraces(ReplaceChar(Join(PartTexts(parts[1..]), '/'), '/', '_'))
    ensures Join(BareTexts(parts), '_') == parts[0].text + "_" + Join(BareTexts(parts[1..]), '_')
  {
    var first, rest := PartTexts([parts[0]])[0], Join(PartTexts(parts[1..]), '/');
    assert PartTexts(parts)[1..] == PartTexts(parts[1..]) && BareTexts(parts)[1..] == BareTexts(parts[1..]);
    SlugOfMarks();
    SlugOfConcat(first, "/");
    SlugOfConcat(first + "/", rest);
  }

  /** The identifier of an operation: its method in lower case, then the pieces of its path without braces. */
  lemma OperationIDIs(parts: seq<PathPart>, verb: string)
    requires forall i :: 0 <= i < |parts| ==> IsPart(parts[i])
    ensures OperationID("/api/" + Join(PartTexts(parts), '/'), verb) ==
            ToLower(verb) + "_" + Join(BareTexts(parts), '_')
  {
    var rest := Join(PartTexts(parts), '/');
    AffixesAre("", "/api/", rest);
    SlugOfParts(parts);
  }

  // ----- Operations -----

  datatype Security = NoSecurity | Bearer | OptionalBearer

  function SecurityRequirement(security: string): Security {
    if security in {"bearer", "verified_email"} then Bearer
    else if security in {"optional", "guest"} then OptionalBearer
    else NoSecurity
  }

  function MethodNeedsBody(verb: string): bool {
    ToLower(verb) in {"post", "put", "patch"}
  }

  datatype Operation = Operation(
    tag: string,
    summary: string,
    operationID: string,
    parameters: seq<Parameter>,
    security: Security,
    hasBody: bool)

  type PathItem = map<string, Operation>

  datatype Spec = Spec(tags: seq<string>, paths: map<string, PathItem>)

  function OperationOf(tables: Tables, route: RouteDef, verb: string, discovered: map<string, DiscoveredEndpoint>)
    : Operation
  {
    Operation(route.tag, route.summary, OperationID(route.path, verb),
              OperationParameters(tables, route, verb, discovered),
              SecurityRequirement(route.security), MethodNeedsBody(verb))
  }

  /** What the operation of a route and one of its methods says, field by field. */
  ghost predicate IsOperation(tables: Tables, route: RouteDef, verb: string,
                              discovered: map<string, DiscoveredEndpoint>, op: Operation)
  {
    && op.tag == route.tag && op.summary == route.summary && op.operationID == OperationID(route.path, verb)
    && (op.security == Bearer <==> route.security == "bearer" || route.security == "verified_email")
    && (op.security == OptionalBearer <==> route.security == "optional" || route.security == "guest")
    && (op.hasBody <==> ToLower(verb) == "post" || ToLower(verb) == "put" || ToLower(verb) == "patch")
    && ListsOperation(tables, route, verb, discovered, op.parameters)
  }

  /** Every field of an operation. */
  lemma OperationIs(tables: Tables, route: RouteDef, verb: string, discovered: map<string, DiscoveredEndpoint>)
    requires var key := EndpointKey(verb, route.path);
             key in discovered ==> LocationsIn(discovered[key].queryParams, {"query"})
    ensures IsOperation(tables, route, verb, discovered, OperationOf(tables, route, verb, discovered))
  {
    OperationIsListed(tables, route, verb, discovered);
  }

  // ----- What the routes write, in order -----

  datatype Write = Write(path: string, verb: string, op: Operation)

  function RouteWrites(tables: Tables, route: RouteDef, discovered: map<string, DiscoveredEndpoint>): seq<Write> {
    seq(|route.verbs|, i requires 0 <= i < |route.verbs| =>
      Write(route.path, ToLower(route.verbs[i]), OperationOf(tables, route, route.verbs[i], discovered)))
  }

  function Writes(tables: Tables, routes: seq<RouteDef>, discovered: map<string, DiscoveredEndpoint>): seq<Write> {
    if routes == [] then []
    else Writes(tables, routes[..|routes| - 1], discovered) + RouteWrites(tables, routes[|routes| - 1], discovered)
  }

  /** The operation that the last write to a path and method left there. */
  function LastWrite(ws: seq<Write>, path: string, verb: string): Option<Operation> {
    if ws == [] then None
    else
      var w := ws[|ws| - 1];
      if w.path == path && w.verb == verb then Some(w.op) else LastWrite(ws[..|ws| - 1], path, verb)
  }

  function OperationAt(paths: map<string, PathItem>, path: string, verb: string): Option<Operation> {
    if path in paths && verb in paths[path] then Some(paths[path][verb]) else None
  }

  ghost predicate Holds(paths: map<string, PathItem>, ws: seq<Write>) {
    forall p, v :: OperationAt(paths, p, v) == LastWrite(ws, p, v)
  }

  ghost predicate ProperQueries(discovered: map<string, DiscoveredEndpoint>) {
    forall k :: k in discovered ==> Proper(discovered[k].queryParams)
  }

  // The tags of the routes in order, and a path item for each of their paths.
  ghost predicate HasTagsAndPaths(routes: seq<RouteDef>, spec: Spec) {
    && StrictlyOrdered(spec.tags, LexLess)
    && (forall t :: t in spec.tags <==> exists r :: r in routes && r.tag == t)
    && (forall p :: p in spec.paths <==> exists r :: r in routes && r.path == p)
  }

  method BuildSpec(tables: Tables, routes: seq<RouteDef>, discovered: map<string, DiscoveredEndpoint>)
    returns (spec: Spec)
    ensures HasTagsAndPaths(routes, spec)
    ensures ProperQueries(discovered) ==> Holds(spec.paths, Writes(tables, routes, discovered))
  {
    var tagSet: set<string> := {};
    var paths: map<string, PathItem> := map[];
    ghost var ws: seq<Write> := [];
    for i := 0 to |routes|
      invariant forall t :: t in tagSet <==> exists r :: r in routes[..i] && r.tag == t
      invariant forall p :: p in paths <==> exists r :: r in routes[..i] && r.path == p
      invariant ws == Writes(tables, routes[..i], discovered)
      invariant ProperQueries(discovered) ==> Holds(paths, ws)
    {
      var route := routes[i];
      assert routes[..i + 1][..i] == routes[..i];
      assert forall r :: r in routes[..i + 1] <==> r in routes[..i] || r == route;
      tagSet := tagSet + {route.tag};
      paths := AddRoute(tables, route, discovered, paths, ws);
      ws := ws + RouteWrites(tables, route, discovered);
    }
    assert routes[..|routes|] == routes;
    var tags := SortedKeys(tagSet);
    spec := Spec(tags, paths);
  }

  lemma SamePathItem(a: map<string, PathItem>, b: map<string, PathItem>, path: string)
    requires path in a && path in b && forall v :: OperationAt(a, path, v) == OperationAt(b, path, v)
    ensures a[path] == b[path]
  {
    forall v ensures v in a[path] <==> v in b[path] {
      assert OperationAt(a, path, v) == OperationAt(b, path, v);
    }
    forall v | v in a[path] ensures a[path][v] == b[path][v] {
      assert OperationAt(a, path, v) == OperationAt(b, path, v);
    }
  }

  /** Routes and discovered endpoints determine the specification. */
  lemma SpecIsUnique(routes: seq<RouteDef>, ws: seq<Write>, a: Spec, b: Spec)
    requires HasTagsAndPaths(routes, a) && HasTagsAndPaths(routes, b) && Holds(a.paths, ws) && Holds(b.paths, ws)
    ensures a == b
  {
    LexIsWeakOrder(a.tags);
    StrictOrderUnique(a.tags, b.tags, LexLess);
    forall p | p in a.paths ensures a.paths[p] == b.paths[p] {
      SamePathItem(a.paths, b.paths, p);
    }
    assert a.paths.Keys == b.paths.Keys;
  }

  /** One route: a path item for its path if there is none yet, and an operation for each method. */
  method AddRoute(tables: Tables, route: RouteDef, discovered: map<string, DiscoveredEndpoint>,
                  before: map<string, PathItem>, ghost ws: seq<Write>)
    returns (paths: map<string, PathItem>)
    requires ProperQueries(discovered) ==> Holds(before, ws)
    ensures paths.Keys == before.Keys + {route.path}
    ensures ProperQueries(discovered) ==> Holds(paths, ws + RouteWrites(tables, route, discovered))
  {
    paths := before;
    if route.path !in paths {
      paths := paths[route.path := map[]];
      EmptyItem(before, route.path, ws, ProperQueries(discovered));
    }
    ghost var written, all := ws, RouteWrites(tables, route, discovered);
    for i := 0 to |route.verbs|
      invariant paths.Keys == before.Keys + {route.path}
      invariant written == ws + all[..i]
      invariant ProperQueries(discovered) ==> Holds(paths, written)
    {
      var verb := route.verbs[i];
      var op := BuildOperation(tables, route, i, discovered);
      if ProperQueries(discovered) {
        NextWrite(paths, written, all[i]);
      }
      PrefixNext(ws, all, i);
      written := written + [all[i]];
      paths := paths[route.path := paths[route.path][ToLower(verb) := op]];
    }
    assert all[..|route.verbs|] == all;
  }

  lemma EmptyItem(paths: map<string, PathItem>, path: string, ws: seq<Write>, holds: bool)
    requires path !in paths && (holds ==> Holds(paths, ws))
    ensures holds ==> Holds(paths[path := map[]], ws)
  {
    if holds {
      forall p, v ensures OperationAt(paths[path := map[]], p, v) == LastWrite(ws, p, v) {
        assert OperationAt(paths, p, v) == LastWrite(ws, p, v);
      }
    }
  }

  lemma PrefixNext<T>(a: seq<T>, s: seq<T>, i: nat)
    requires i < |s|
    ensures a + s[..i + 1] == (a + s[..i]) + [s[i]]
  {
  }

  method BuildOperation(tables: Tables, route: RouteDef, i: nat, discovered: map<string, DiscoveredEndpoint>)
    returns (op: Operation)
    requires i < |route.verbs|
    ensures ProperQueries(discovered) ==>
            RouteWrites(tables, route, discovered)[i] == Write(route.path, ToLower(route.verbs[i]), op)
  {
    var verb := route.verbs[i];
    var params := BuildParameters(tables, route, verb, discovered);
    op := Operation(route.tag, route.summary, OperationID(route.path, verb), params,
                    SecurityRequirement(route.security), MethodNeedsBody(verb));
  }

  lemma NextWrite(paths: map<string, PathItem>, ws: seq<Write>, w: Write)
    requires w.path in paths && Holds(paths, ws)
    ensures Holds(paths[w.path := paths[w.path][w.verb := w.op]], ws + [w])
  {
    assert (ws + [w])[..|ws|] == ws;
    var after := paths[w.path := paths[w.path][w.verb := w.op]];
    forall p, v ensures OperationAt(after, p, v) == LastWrite(ws + [w], p, v) {
      assert OperationAt(paths, p, v) == LastWrite(ws, p, v);
    }
  }

  // ----- Nothing is lost, nothing is overwritten -----

  lemma {:induction false} LastWriteOfConcat(a: seq<Write>, b: seq<Write>, path: string, verb: string)
    ensures LastWrite(a + b, path, verb) ==
            if LastWrite(b, path, verb).Some? then LastWrite(b, path, verb) else LastWrite(a, path, verb)
  {
    if b == [] {
      assert a + b == a;
    } else {
      assert (a + b)[..|a + b| - 1] == a + b[..|b| - 1];
      LastWriteOfConcat(a, b[..|b| - 1], path, verb);
    }
  }

  lemma WritesOfNext(tables: Tables, routes: seq<RouteDef>, r: RouteDef, discovered: map<string, DiscoveredEndpoint>)
    ensures Writes(tables, routes + [r], discovered) ==
            Writes(tables, routes, discovered) + RouteWrites(tables, r, discovered)
  {
    assert (routes + [r])[..|routes|] == routes;
  }

  lemma ConcatAssociates<T>(a: seq<T>, b: seq<T>, c: seq<T>)
    ensures (a + b) + c == a + (b + c)
  {
  }

  lemma WritesOfConcatNext(tables: Tables, a: seq<RouteDef>, front: seq<RouteDef>, last: RouteDef,
                           discovered: map<string, DiscoveredEndpoint>)
    requires Writes(tables, a + front, discovered) == Writes(tables, a, discovered) + Writes(tables, front, discovered)
    ensures Writes(tables, a + (front + [last]), discovered) ==
            Writes(tables, a, discovered) + Writes(tables, front + [last], discovered)
  {
    ConcatAssociates(a, front, [last]);
    WritesOfNext(tables, a + front, last, discovered);
    WritesOfNext(tables, front, last, discovered);
    ConcatAssociates(Writes(tables, a, discovered), Writes(tables, front, discovered),
                     RouteWrites(tables, last, discovered));
  }

  lemma {:induction false} WritesOfConcat(tables: Tables, a: seq<RouteDef>, b: seq<RouteDef>,
                                          discovered: map<string, DiscoveredEndpoint>)
    ensures Writes(tables, a + b, discovered) == Writes(tables, a, discovered) + Writes(tables, b, discovered)
    decreases |b|
  {
    if |b| == 0 {
      assert a + b == a;
      assert Writes(tables, b, discovered) == [];
    } else {
      var front, last := b[..|b| - 1], b[|b| - 1];
      WritesOfConcat(tables, a, front, discovered);
      WritesOfConcatNext(tables, a, front, last, discovered);
      assert front + [last] == b;
    }
  }

  lemma {:induction false} WrittenIff(ws: seq<Write>, path: string, verb: string)
    ensures LastWrite(ws, path, verb).Some? <==> exists w :: w in ws && w.path == path && w.verb == verb
  {
    if ws != [] {
      WrittenIff(ws[..|ws| - 1], path, verb);
      assert ws == ws[..|ws| - 1] + [ws[|ws| - 1]];
    }
  }

  // Every write has the key of a known endpoint, and every known key has a write.
  lemma {:induction false} WritesHaveKnownKeys(tables: Tables, routes: seq<RouteDef>,
                                               discovered: map<string, DiscoveredEndpoint>)
    ensures forall w :: w in Writes(tables, routes, discovered) ==> EndpointKey(w.verb, w.path) in KnownKeys(routes)
    ensures forall k :: k in KnownKeys(routes) ==>
              exists w :: w in Writes(tables, routes, discovered) && EndpointKey(w.verb, w.path) == k
  {
    if routes != [] {
      var front, last := routes[..|routes| - 1], routes[|routes| - 1];
      WritesHaveKnownKeys(tables, front, discovered);
      KnownOfNext(routes, |routes| - 1);
      assert routes[..|routes|] == routes;
      RouteWritesHaveRouteKeys(tables, last, discovered);
    }
  }

  lemma RouteWritesHaveRouteKeys(tables: Tables, route: RouteDef, discovered: map<string, DiscoveredEndpoint>)
    ensures forall w :: w in RouteWrites(tables, route, discovered) ==> EndpointKey(w.verb, w.path) in RouteKeys(route)
    ensures forall k :: k in RouteKeys(route) ==>
              exists w :: w in RouteWrites(tables, route, discovered) && EndpointKey(w.verb, w.path) == k
  {
    var ws := RouteWrites(tables, route, discovered);
    forall i | 0 <= i < |ws| ensures EndpointKey(ws[i].verb, ws[i].path) == EndpointKey(route.verbs[i], route.path) {
      KeyIgnoresCase(route.verbs[i], route.path);
    }
    forall k | k in RouteKeys(route) ensures exists w :: w in ws && EndpointKey(w.verb, w.path) == k {
      var i :| 0 <= i < |route.verbs| && EndpointKey(route.verbs[i], route.path) == k;
      assert ws[i] in ws;
    }
  }

  /** Exactly the known endpoints have an operation. */
  lemma OperationIffKnown(tables: Tables, routes: seq<RouteDef>, discovered: map<string, DiscoveredEndpoint>,
                          paths: map<string, PathItem>, key: string)
    requires Holds(paths, Writes(tables, routes, discovered))
    ensures key in KnownKeys(routes) <==> exists p, v :: OperationAt(paths, p, v).Some? && EndpointKey(v, p) == key
  {
    var ws := Writes(tables, routes, discovered);
    WritesHaveKnownKeys(tables, routes, discovered);
    if key in KnownKeys(routes) {
      var w :| w in ws && EndpointKey(w.verb, w.path) == key;
      WrittenIff(ws, w.path, w.verb);
      assert OperationAt(paths, w.path, w.verb).Some?;
    }
    if p, v :| OperationAt(paths, p, v).Some? && EndpointKey(v, p) == key {
      WrittenIff(ws, p, v);
    }
  }

  /** Appending discovered routes replaces no operation of the hand-written ones. */
  lemma {:induction false} HandWrittenOperationsStay(
    tables: Tables, routes: seq<RouteDef>, discovered: map<string, DiscoveredEndpoint>,
    augmented: seq<RouteDef>, path: string, verb: string)
    requires OwnKeys(discovered) && Augments(tables, routes, discovered, augmented)
    requires LastWrite(Writes(tables, routes, discovered), path, verb).Some?
    ensures LastWrite(Writes(tables, augmented, discovered), path, verb) ==
            LastWrite(Writes(tables, routes, discovered), path, verb)
  {
    var keys :| NewKeys(keys, routes, discovered) && augmented == routes + RoutesOf(tables, keys, discovered);
    var rs := RoutesOf(tables, keys, discovered);
    var ws, more := Writes(tables, routes, discovered), Writes(tables, rs, discovered);
    WritesOfConcat(tables, routes, rs, discovered);
    LastWriteOfConcat(ws, more, path, verb);
    WrittenIff(ws, path, verb);
    WrittenIff(more, path, verb);
    WritesHaveKnownKeys(tables, routes, discovered);
    WritesHaveKnownKeys(tables, rs, discovered);
    KnownOfAppended(tables, keys, discovered);
  }

  /** Every discovered endpoint that was not known has its own operation, which nothing overwrites. */
  lemma {:induction false} AppendedOperationsStay(
    tables: Tables, routes: seq<RouteDef>, discovered: map<string, DiscoveredEndpoint>,
    augmented: seq<RouteDef>, key: string)
    requires OwnKeys(discovered) && Augments(tables, routes, discovered, augmented)
    requires key in discovered && key !in KnownKeys(routes)
    ensures var ep := discovered[key];
            var route := RouteOf(tables, ep);
            LastWrite(Writes(tables, augmented, discovered), ep.path, ToLower(ep.verb)) ==
            Some(OperationOf(tables, route, ToLower(ep.verb), discovered))
  {
    var keys :| NewKeys(keys, routes, discovered) && augmented == routes + RoutesOf(tables, keys, discovered);
    NewKeysAreDistinct(keys, routes, discovered);
    var i :| 0 <= i < |keys| && keys[i] == key;
    AppendedWriteStays(tables, routes, keys, discovered, i);
  }

  lemma SplitAt<T>(a: seq<T>, s: seq<T>, i: nat)
    requires i < |s|
    ensures a + s == (a + s[..i]) + [s[i]] + s[i + 1..]
  {
  }

  lemma AppendedWriteStays(tables: Tables, routes: seq<RouteDef>, keys: seq<string>,
                           discovered: map<string, DiscoveredEndpoint>, i: nat)
    requires OwnKeys(discovered) && Distinct(keys) && i < |keys| && forall k :: k in keys ==> k in discovered
    ensures var ep := discovered[keys[i]];
            LastWrite(Writes(tables, routes + RoutesOf(tables, keys, discovered), discovered),
                      ep.path, ToLower(ep.verb)) ==
            Some(OperationOf(tables, RouteOf(tables, ep), ToLower(ep.verb), discovered))
  {
    var ep := discovered[keys[i]];
    var rs := RoutesOf(tables, keys, discovered);
    LaterWritesMiss(tables, keys, discovered, i);
    LastWriteOfRoute(tables, ep, discovered);
    WritesOfThree(tables, routes + rs[..i], rs[i], rs[i + 1..], discovered);
    LastWriteOfThree(Writes(tables, routes + rs[..i], discovered), RouteWrites(tables, rs[i], discovered),
                     Writes(tables, rs[i + 1..], discovered), ep.path, ToLower(ep.verb));
    SplitAt(routes, rs, i);
  }

  lemma LastWriteOfThree(a: seq<Write>, m: seq<Write>, b: seq<Write>, path: string, verb: string)
    requires LastWrite(b, path, verb).None? && LastWrite(m, path, verb).Some?
    ensures LastWrite(a + m + b, path, verb) == LastWrite(m, path, verb)
  {
    LastWriteOfConcat(a + m, b, path, verb);
    LastWriteOfConcat(a, m, path, verb);
  }

  lemma WritesOfThree(tables: Tables, a: seq<RouteDef>, r: RouteDef, b: seq<RouteDef>,
                      discovered: map<string, DiscoveredEndpoint>)
    ensures Writes(tables, a + [r] + b, discovered) ==
            Writes(tables, a, discovered) + RouteWrites(tables, r, discovered) + Writes(tables, b, discovered)
  {
    WritesOfConcat(tables, a + [r], b, discovered);
    WritesOfConcat(tables, a, [r], discovered);
    WritesOfOne(tables, r, discovered);
  }

  lemma WritesOfOne(tables: Tables, route: RouteDef, discovered: map<string, DiscoveredEndpoint>)
    ensures Writes(tables, [route], discovered) == RouteWrites(tables, route, discovered)
  {
    assert [route][..0] == [];
    assert Writes(tables, [], discovered) == [];
  }

  lemma LastWriteOfRoute(tables: Tables, ep: DiscoveredEndpoint, discovered: map<string, DiscoveredEndpoint>)
    ensures LastWrite(RouteWrites(tables, RouteOf(tables, ep), discovered), ep.path, ToLower(ep.verb)) ==
            Some(OperationOf(tables, RouteOf(tables, ep), ToLower(ep.verb), discovered))
  {
    CaseAbsorbs(ep.verb);
  }

  lemma LaterWritesMiss(tables: Tables, keys: seq<string>, discovered: map<string, DiscoveredEndpoint>, i: nat)
    requires OwnKeys(discovered) && Distinct(keys) && i < |keys| && forall k :: k in keys ==> k in discovered
    ensures var ep := discovered[keys[i]];
            LastWrite(Writes(tables, RoutesOf(tables, keys, discovered)[i + 1..], discovered),
                      ep.path, ToLower(ep.verb)).None?
  {
    var ep := discovered[keys[i]];
    var tail := keys[i + 1..];
    var rs := RoutesOf(tables, tail, discovered);
    assert RoutesOf(tables, keys, discovered)[i + 1..] == rs;
    WritesHaveKnownKeys(tables, rs, discovered);
    KnownOfAppended(tables, tail, discovered);
    WrittenIff(Writes(tables, rs, discovered), ep.path, ToLower(ep.verb));
    KeyIgnoresCase(ep.verb, ep.path);
  }
}
