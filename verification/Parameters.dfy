/** The path parameters of an operation: one for each placeholder, from the tables, discovery and the route. */
module Parameters {
  import opened Wrappers
  import opened Strings
  import opened Sorting
  import opened PathTemplates
  import opened Params
  import opened MergeAlgebra
  import opened MergeLaws

  type Name = s: string | s != "" witness "x"

  /** What the generator's tables say about a path parameter of a given name. */
  datatype PathSchema = PathSchema(paramType: Name, format: string, example: Option<Value>)

  /** The generator's tables: total functions of a name or a path. */
  datatype Tables = Tables(
    pathSchema: string -> PathSchema,
    pathDescription: string -> Name,
    queryType: string -> Name,
    queryDescription: string -> Name,
    requiredQuery: string -> bool,
    tagOfPath: string -> string,
    securityOfPath: string -> string)

  datatype DiscoveredEndpoint = DiscoveredEndpoint(
    verb: string,
    path: string,
    summary: string,
    pathParams: seq<ParamDef>,
    queryParams: seq<ParamDef>)

  datatype RouteDef = RouteDef(
    path: string,
    verbs: seq<string>,
    tag: string,
    summary: string,
    security: string,
    params: seq<ParamDef>)

  // ----- Definitions by name -----

  function ByName(ps: seq<ParamDef>): map<string, ParamDef> {
    if ps == [] then map[] else ByName(ps[..|ps| - 1])[ps[|ps| - 1].name := ps[|ps| - 1]]
  }

  ghost predicate KeyedByName(m: map<string, ParamDef>) {
    forall n :: n in m ==> m[n].name == n
  }

  lemma {:induction false} ByNameIs(ps: seq<ParamDef>)
    ensures KeyedByName(ByName(ps))
    ensures forall n :: n in ByName(ps) ==> ByName(ps)[n] in ps
  {
    if ps != [] {
      ByNameIs(ps[..|ps| - 1]);
      assert ps == ps[..|ps| - 1] + [ps[|ps| - 1]];
    }
  }

  /** A name stands for the last definition of that name, if there is one. */
  lemma {:induction false} ByNameIsLast(ps: seq<ParamDef>, n: string, i: nat)
    requires i < |ps| && ps[i].name == n && forall j :: i < j < |ps| ==> ps[j].name != n
    ensures n in ByName(ps) && ByName(ps)[n] == ps[i]
  {
    if i < |ps| - 1 {
      ByNameIsLast(ps[..|ps| - 1], n, i);
    }
  }

  method IndexByName(ps: seq<ParamDef>) returns (m: map<string, ParamDef>)
    ensures m == ByName(ps) && KeyedByName(m)
  {
    m := map[];
    for i := 0 to |ps|
      invariant m == ByName(ps[..i])
    {
      assert ps[..i + 1][..i] == ps[..i];
      m := m[ps[i].name := ps[i]];
    }
    assert ps[..|ps|] == ps;
    ByNameIs(ps);
  }

  // ----- Path parameters -----

  function FromTables(tables: Tables, name: string): ParamDef {
    ParamDef(name, "path", tables.pathSchema(name).paramType, "", tables.pathDescription(name), None, None)
  }

  // The definition at the same position lends its type always, its other fields when set.
  function Positional(def: ParamDef, discovered: seq<ParamDef>, i: nat): ParamDef {
    if i >= |discovered| then def
    else
      var d := discovered[i];
      def.(paramType := d.paramType,
           description := OverrideText(def.description, d.description),
           format := OverrideText(def.format, d.format),
           example := Override(def.example, d.example))
  }

  // A definition of the same name overlays a path parameter only if it is one itself.
  function Overlay(def: ParamDef, named: map<string, ParamDef>): ParamDef {
    if def.name in named && named[def.name].location == "path"
    then MergeSingleParamDef(def, named[def.name]) else def
  }

  function PathParam(tables: Tables, name: string, i: nat, discovered: seq<ParamDef>,
                     overrides: map<string, ParamDef>): ParamDef
  {
    Overlay(Overlay(Positional(FromTables(tables, name), discovered, i), ByName(discovered)), overrides)
  }

  function PathParams(tables: Tables, path: string, discovered: seq<ParamDef>,
                      overrides: map<string, ParamDef>): seq<ParamDef>
  {
    var names := ExtractPathParamNames(path);
    seq(|names|, i requires 0 <= i < |names| => PathParam(tables, names[i], i, discovered, overrides))
  }

  // The first of a path parameter merged with one of the same name.
  lemma FirstOfPair(def: ParamDef, other: ParamDef, r: seq<ParamDef>)
    requires def.location == "path" && def.name == other.name
    requires IsMerge([def], [other], r)
    ensures r != []
    ensures r[0] == if other.location == "path" then MergeSingleParamDef(def, other) else def
  {
    GatherPair(def, other);
    if other.location == "path" {
      SameElements(Gather([def], [other]), r);
      assert r[0] in r;
    } else {
      PairIsOrdered(def, other);
      FirstOfOrderedPair(def, other, r);
    }
  }

  lemma GatherPair(def: ParamDef, other: ParamDef)
    requires def.location == "path" && def.name == other.name
    ensures Gather([def], [other]) ==
            if other.location == "path" then [MergeSingleParamDef(def, other)] else [def, other]
  {
    var slots := SlotsOf([def]);
    assert [other][..0] == [];
    assert AbsorbAll(slots, [other]) == Absorb(slots, other);
    DefsOfAbsorb(slots, other);
    assert Defs(slots) == [def];
    DifferentLocationsSameName(def, other);
    assert slots[..0] == [];
    assert LastSlot(slots, ParamKey(other)) == if ParamKey(def) == ParamKey(other) then 0 else -1;
  }

  lemma PairIsOrdered(def: ParamDef, other: ParamDef)
    requires def.location == "path" && other.location != "path"
    ensures ParamLess(def, other) && !ParamLess(other, def) && WeakOrder([def, other], ParamLess)
  {
    ComparisonIsWeakOrderIff([def, other]);
    LexTotal(def.name, def.name);
    LexTotal(other.name, other.name);
  }

  lemma FirstOfOrderedPair(def: ParamDef, other: ParamDef, r: seq<ParamDef>)
    requires multiset(r) == multiset([def, other]) && Ordered(r, ParamLess)
    requires ParamLess(def, other) && !ParamLess(other, def)
    ensures r != [] && r[0] == def
  {
    SameElements([def, other], r);
    assert r[0] in r && r[1] in r;
    assert def in [def, other] && other in [def, other];
  }

  lemma DifferentLocationsSameName(p: ParamDef, q: ParamDef)
    requires p.name == q.name
    ensures ParamKey(p) == ParamKey(q) ==> EffectiveLocation(p) == EffectiveLocation(q)
  {
    var l, m := EffectiveLocation(p), EffectiveLocation(q);
    if ParamKey(p) == ParamKey(q) {
      assert |l| == |m|;
      assert l == ParamKey(p)[..|l|] && m == ParamKey(q)[..|m|];
    }
  }

  method MergeDiscoveredPathParams(tables: Tables, routePath: string, discovered: seq<ParamDef>,
                                   overrides: map<string, ParamDef>)
    returns (params: seq<ParamDef>)
    ensures KeyedByName(overrides) ==> params == PathParams(tables, routePath, discovered, overrides)
  {
    var routeNames := ExtractPathParamNames(routePath);
    if |routeNames| == 0 {
      return [];
    }
    var discoveredByName := IndexByName(discovered);
    params := [];
    for i := 0 to |routeNames|
      invariant |params| == i
      invariant KeyedByName(overrides) ==>
          forall j :: 0 <= j < i ==> params[j] == PathParam(tables, routeNames[j], j, discovered, overrides)
    {
      var def := MergePlaceholder(tables, routeNames[i], i, discovered, discoveredByName, overrides);
      params := params + [def];
    }
  }

  /** One placeholder: the tables, overlaid by position, by name and by override. */
  method MergePlaceholder(tables: Tables, routeName: string, i: nat, discovered: seq<ParamDef>,
                          discoveredByName: map<string, ParamDef>, overrides: map<string, ParamDef>)
    returns (def: ParamDef)
    requires discoveredByName == ByName(discovered) && KeyedByName(discoveredByName)
    ensures KeyedByName(overrides) ==> def == PathParam(tables, routeName, i, discovered, overrides)
  {
    def := Positional(FromTables(tables, routeName), discovered, i);
    if routeName in discoveredByName {
      var pair := MergeParamDefs([def], [discoveredByName[routeName]]);
      FirstOfPair(def, discoveredByName[routeName], pair);
      def := pair[0];
    }
    if routeName in overrides {
      var pair := MergeParamDefs([def], [overrides[routeName]]);
      MergeIsNotEmpty([def], [overrides[routeName]], pair);
      if KeyedByName(overrides) {
        FirstOfPair(def, overrides[routeName], pair);
      }
      def := pair[0];
    }
  }

  lemma {:induction false} MergeIsNotEmpty(base: seq<ParamDef>, extra: seq<ParamDef>, r: seq<ParamDef>)
    requires IsMerge(base, extra, r)
    ensures |r| >= |base|
  {
    SameElements(r, Gather(base, extra));
    AbsorbAllGrows(SlotsOf(base), extra);
  }

  lemma {:induction false} AbsorbAllGrows(slots: seq<Slot>, ps: seq<ParamDef>)
    ensures |AbsorbAll(slots, ps)| >= |slots|
  {
    if ps != [] {
      AbsorbAllGrows(slots, ps[..|ps| - 1]);
    }
  }

  /** One path parameter for each placeholder, in template order and under its name. */
  lemma OneParamPerPlaceholder(tables: Tables, path: string, discovered: seq<ParamDef>,
                               overrides: map<string, ParamDef>)
    ensures var names := ExtractPathParamNames(path);
            var ps := PathParams(tables, path, discovered, overrides);
            |ps| == |names| && forall i :: 0 <= i < |ps| ==> ps[i].name == names[i] && ps[i].location == "path"
  {
  }

  // Definitions of this name, if they are path parameters themselves.
  function PathNamed(m: map<string, ParamDef>, name: string): seq<ParamDef> {
    if name in m && m[name].location == "path" then [m[name]] else []
  }

  function AtPosition(discovered: seq<ParamDef>, i: nat): seq<ParamDef> {
    if i < |discovered| then [discovered[i]] else []
  }

  /**
   Where each field of a path parameter comes from: of the tables, the discovered parameter
   at its position, the one of its name and the override of its name, the last that sets
   the field. Those of its name count only if they say "path". Position settles the type
   even when it has none, and never says whether the parameter is required.
   */
  lemma {:induction false} LastSourceWins(
    tables: Tables, name: string, i: nat, discovered: seq<ParamDef>, overrides: map<string, ParamDef>)
    ensures var p := PathParam(tables, name, i, discovered, overrides);
            var named := PathNamed(ByName(discovered), name) + PathNamed(overrides, name);
            var sources := [FromTables(tables, name)] + AtPosition(discovered, i) + named;
            var namedType := LastText(named, TypeField);
            && p.name == name && p.location == "path"
            && p.format == LastText(sources, FormatField)
            && p.description == LastText(sources, DescriptionField)
            && p.example == LastSome(sources, ExampleField)
            && p.required == LastSome(named, RequiredField)
            && p.paramType == (if namedType != "" then namedType
                               else if i < |discovered| then discovered[i].paramType
                               else tables.pathSchema(name).paramType)
  {
    var base, at := FromTables(tables, name), AtPosition(discovered, i);
    var a, b := PathNamed(ByName(discovered), name), PathNamed(overrides, name);
    OverlaidFields(base, i, discovered, ByName(discovered), overrides);
    LastTextOfSources(base, at, a, b, FormatField);
    LastTextOfSources(base, at, a, b, DescriptionField);
    LastSomeOfSources(base, at, a, b, ExampleField);
    LastSomeConcat(a, b, RequiredField);
    LastTextConcat(a, b, TypeField);
  }

  lemma OverlaidFields(base: ParamDef, i: nat, discovered: seq<ParamDef>, m: map<string, ParamDef>,
                       overrides: map<string, ParamDef>)
    requires base.location == "path" && base.required.None?
    ensures var p := Overlay(Overlay(Positional(base, discovered, i), m), overrides);
            var at, a, b := AtPosition(discovered, i), PathNamed(m, base.name), PathNamed(overrides, base.name);
            var lentType := if i < |discovered| then discovered[i].paramType else base.paramType;
            && p.name == base.name && p.location == "path"
            && p.paramType == OverrideText(OverrideText(lentType, LastText(a, TypeField)), LastText(b, TypeField))
            && p.format == TextOf(base, at, a, b, FormatField)
            && p.description == TextOf(base, at, a, b, DescriptionField)
            && p.example == SomeOf(base, at, a, b, ExampleField)
            && p.required == Override(LastSome(a, RequiredField), LastSome(b, RequiredField))
  {
    var lent := Positional(base, discovered, i);
    OverlayIs(lent, m);
    OverlayIs(Overlay(lent, m), overrides);
  }

  function TextOf(p: ParamDef, at: seq<ParamDef>, a: seq<ParamDef>, b: seq<ParamDef>, f: ParamDef -> string): string {
    OverrideText(OverrideText(OverrideText(f(p), LastText(at, f)), LastText(a, f)), LastText(b, f))
  }

  function SomeOf<T>(p: ParamDef, at: seq<ParamDef>, a: seq<ParamDef>, b: seq<ParamDef>, f: ParamDef -> Option<T>)
    : Option<T>
  {
    Override(Override(Override(f(p), LastSome(at, f)), LastSome(a, f)), LastSome(b, f))
  }

  // Every field that an overlay sets wins.
  lemma OverlayIs(def: ParamDef, m: map<string, ParamDef>)
    ensures var r, named := Overlay(def, m), PathNamed(m, def.name);
            && r.name == def.name && (def.location == "path" ==> r.location == "path")
            && r.paramType == OverrideText(def.paramType, LastText(named, TypeField))
            && r.format == OverrideText(def.format, LastText(named, FormatField))
            && r.description == OverrideText(def.description, LastText(named, DescriptionField))
            && r.example == Override(def.example, LastSome(named, ExampleField))
            && r.required == Override(def.required, LastSome(named, RequiredField))
  {
  }

  lemma LastTextOfSources(p: ParamDef, at: seq<ParamDef>, a: seq<ParamDef>, b: seq<ParamDef>, f: ParamDef -> string)
    ensures LastText([p] + at + (a + b), f) == TextOf(p, at, a, b, f)
  {
    LastTextConcat([p] + at, a + b, f);
    LastTextConcat([p], at, f);
    LastTextConcat(a, b, f);
    assert LastText([p], f) == f(p);
  }

  lemma LastSomeOfSources<T>(p: ParamDef, at: seq<ParamDef>, a: seq<ParamDef>, b: seq<ParamDef>,
                             f: ParamDef -> Option<T>)
    ensures LastSome([p] + at + (a + b), f) == SomeOf(p, at, a, b, f)
  {
    LastSomeConcat([p] + at, a + b, f);
    LastSomeConcat([p], at, f);
    LastSomeConcat(a, b, f);
    assert LastSome([p], f) == f(p);
  }

  // ----- Does the order of the discovered list matter? -----

  function NamesOf(ps: seq<ParamDef>): seq<string> {
    seq(|ps|, i requires 0 <= i < |ps| => ps[i].name)
  }

  predicate DistinctNames(ps: seq<ParamDef>) {
    forall i, j :: 0 <= i < j < |ps| ==> ps[i].name != ps[j].name
  }

  // Every placeholder has a discovered path parameter of its name with a type and a
  // description, and no discovered parameter has a format or an example.
  predicate Settles(discovered: seq<ParamDef>, names: seq<string>) {
    && (forall d :: d in discovered ==> d.format == "" && d.example.None?)
    && (forall n :: n in names ==> n in ByName(discovered) && IsSettled(ByName(discovered)[n]))
  }

  predicate IsSettled(d: ParamDef) {
    d.location == "path" && d.paramType != "" && d.description != ""
  }

  lemma {:induction false} ByNameAt(ps: seq<ParamDef>, i: nat)
    requires DistinctNames(ps) && i < |ps|
    ensures ps[i].name in ByName(ps) && ByName(ps)[ps[i].name] == ps[i]
  {
    var front := ps[..|ps| - 1];
    if i < |front| {
      ByNameAt(front, i);
      assert front[i] == ps[i];
    }
  }

  lemma ByNameOfMember(ps: seq<ParamDef>, p: ParamDef)
    requires DistinctNames(ps) && p in ps
    ensures p.name in ByName(ps) && ByName(ps)[p.name] == p
  {
    var i :| 0 <= i < |ps| && ps[i] == p;
    ByNameAt(ps, i);
  }

  lemma PermutationKeepsNames(a: seq<ParamDef>, b: seq<ParamDef>)
    requires multiset(a) == multiset(b) && DistinctNames(a)
    ensures DistinctNames(b) && (forall p :: p in a <==> p in b)
  {
    SameElements(a, b);
    PermutationDistinct(a, b);
    forall i, j | 0 <= i < j < |b| ensures b[i].name != b[j].name {
      assert b[i] in b && b[j] in b;
      var m :| 0 <= m < |a| && a[m] == b[i];
      var n :| 0 <= n < |a| && a[n] == b[j];
    }
  }

  lemma ByNameIgnoresOrder(a: seq<ParamDef>, b: seq<ParamDef>)
    requires multiset(a) == multiset(b) && DistinctNames(a)
    ensures ByName(a) == ByName(b)
  {
    PermutationKeepsNames(a, b);
    ByNameIs(a);
    ByNameIs(b);
    forall n ensures n in ByName(a) <==> n in ByName(b) {
      if n in ByName(a) { ByNameOfMember(b, ByName(a)[n]); }
      if n in ByName(b) { ByNameOfMember(a, ByName(b)[n]); }
    }
    forall n | n in ByName(a) ensures ByName(a)[n] == ByName(b)[n] {
      ByNameOfMember(b, ByName(a)[n]);
    }
  }

  // The discovered parameter and the override of this name, if they are path parameters themselves.
  function NamedSources(name: string, discovered: seq<ParamDef>, overrides: map<string, ParamDef>): seq<ParamDef> {
    PathNamed(ByName(discovered), name) + PathNamed(overrides, name)
  }

  ghost predicate Agree<T>(ps: seq<ParamDef>, f: ParamDef -> T) {
    forall d, e :: d in ps && e in ps ==> f(d) == f(e)
  }

  // A blank description is that of the tables.
  ghost predicate DescriptionsAgree(ps: seq<ParamDef>, default: string) {
    forall d, e :: d in ps && e in ps ==> OverrideText(default, d.description) == OverrideText(default, e.description)
  }

  /** Each field that position may lend is set by a named source, or the same at every position. */
  ghost predicate PositionIsSettled(default: string, named: seq<ParamDef>, ps: seq<ParamDef>) {
    && (LastText(named, TypeField) != "" || Agree(ps, TypeField))
    && (LastText(named, FormatField) != "" || Agree(ps, FormatField))
    && (LastText(named, DescriptionField) != "" || DescriptionsAgree(ps, default))
    && (LastSome(named, ExampleField).Some? || Agree(ps, ExampleField))
  }

  // The path parameter that has d at its position.
  function Placed(default: string, name: string, d: ParamDef, named: seq<ParamDef>): ParamDef {
    ParamDef(name, "path",
             OverrideText(d.paramType, LastText(named, TypeField)),
             OverrideText(d.format, LastText(named, FormatField)),
             OverrideText(OverrideText(default, d.description), LastText(named, DescriptionField)),
             Override(d.example, LastSome(named, ExampleField)),
             LastSome(named, RequiredField))
  }

  lemma {:induction false} PlacedParam(tables: Tables, name: string, i: nat, ps: seq<ParamDef>,
                                       overrides: map<string, ParamDef>)
    requires i < |ps|
    ensures PathParam(tables, name, i, ps, overrides) ==
            Placed(tables.pathDescription(name), name, ps[i], NamedSources(name, ps, overrides))
  {
    var base := FromTables(tables, name);
    var a, b := PathNamed(ByName(ps), name), PathNamed(overrides, name);
    OverlaidFields(base, i, ps, ByName(ps), overrides);
    LastTextConcat(a, b, TypeField);
    LastTextConcat(a, b, FormatField);
    LastTextConcat(a, b, DescriptionField);
    LastSomeConcat(a, b, ExampleField);
    LastSomeConcat(a, b, RequiredField);
    AtOnePosition(ps[i]);
  }

  lemma AtOnePosition(d: ParamDef)
    ensures LastText([d], FormatField) == d.format && LastText([d], DescriptionField) == d.description
    ensures LastSome([d], ExampleField) == d.example
  {
    assert [d][..0] == [];
  }

  lemma PlacedAlikeIff(default: string, name: string, named: seq<ParamDef>, ps: seq<ParamDef>)
    ensures PositionIsSettled(default, named, ps) <==>
            forall d, e :: d in ps && e in ps ==> Placed(default, name, d, named) == Placed(default, name, e, named)
  {
    if forall d, e :: d in ps && e in ps ==> Placed(default, name, d, named) == Placed(default, name, e, named) {
      forall d, e | d in ps && e in ps
        ensures LastText(named, TypeField) == "" ==> d.paramType == e.paramType
        ensures LastText(named, FormatField) == "" ==> d.format == e.format
        ensures LastText(named, DescriptionField) == "" ==>
                  OverrideText(default, d.description) == OverrideText(default, e.description)
        ensures LastSome(named, ExampleField).None? ==> d.example == e.example
      {
        assert Placed(default, name, d, named) == Placed(default, name, e, named);
      }
    }
  }

  ghost predicate PositionsAreSettled(tables: Tables, names: seq<string>, ps: seq<ParamDef>,
                                      overrides: map<string, ParamDef>)
  {
    forall i :: 0 <= i < |names| && i < |ps| ==>
      PositionIsSettled(tables.pathDescription(names[i]), NamedSources(names[i], ps, overrides), ps)
  }

  // No other order of the discovered list gives other path parameters.
  ghost predicate OrderIsIrrelevant(tables: Tables, path: string, ps: seq<ParamDef>, overrides: map<string, ParamDef>) {
    forall other :: multiset(other) == multiset(ps) ==>
      PathParams(tables, path, other, overrides) == PathParams(tables, path, ps, overrides)
  }

  /**
   The order of a discovered list with distinct names does not matter exactly when, for
   each placeholder that has a position in it, every field is set by name or agreed upon.
   */
  lemma OrderDoesNotMatterIff(tables: Tables, path: string, ps: seq<ParamDef>, overrides: map<string, ParamDef>)
    requires DistinctNames(ps)
    ensures OrderIsIrrelevant(tables, path, ps, overrides) <==>
            PositionsAreSettled(tables, ExtractPathParamNames(path), ps, overrides)
  {
    if PositionsAreSettled(tables, ExtractPathParamNames(path), ps, overrides) {
      forall other | multiset(other) == multiset(ps)
        ensures PathParams(tables, path, other, overrides) == PathParams(tables, path, ps, overrides)
      {
        SettledInAnyOrder(tables, path, ps, other, overrides);
      }
    }
    if OrderIsIrrelevant(tables, path, ps, overrides) {
      forall i | 0 <= i < |ExtractPathParamNames(path)| && i < |ps|
        ensures var name := ExtractPathParamNames(path)[i];
                PositionIsSettled(tables.pathDescription(name), NamedSources(name, ps, overrides), ps)
      {
        IrrelevantIsSettled(tables, path, ps, overrides, i);
      }
    }
  }

  lemma SettledInAnyOrder(tables: Tables, path: string, ps: seq<ParamDef>, other: seq<ParamDef>,
                          overrides: map<string, ParamDef>)
    requires DistinctNames(ps) && multiset(other) == multiset(ps)
    requires PositionsAreSettled(tables, ExtractPathParamNames(path), ps, overrides)
    ensures PathParams(tables, path, other, overrides) == PathParams(tables, path, ps, overrides)
  {
    var names := ExtractPathParamNames(path);
    SameElements(ps, other);
    ByNameIgnoresOrder(ps, other);
    forall i | 0 <= i < |names|
      ensures PathParam(tables, names[i], i, other, overrides) == PathParam(tables, names[i], i, ps, overrides)
    {
      if i < |ps| {
        var default, named := tables.pathDescription(names[i]), NamedSources(names[i], ps, overrides);
        PlacedParam(tables, names[i], i, ps, overrides);
        PlacedParam(tables, names[i], i, other, overrides);
        PlacedAlikeIff(default, names[i], named, ps);
        assert ps[i] in ps && other[i] in other;
      }
    }
  }

  lemma {:induction false} IrrelevantIsSettled(
    tables: Tables, path: string, ps: seq<ParamDef>, overrides: map<string, ParamDef>, i: nat)
    requires DistinctNames(ps) && OrderIsIrrelevant(tables, path, ps, overrides)
    requires i < |ExtractPathParamNames(path)| && i < |ps|
    ensures var name := ExtractPathParamNames(path)[i];
            PositionIsSettled(tables.pathDescription(name), NamedSources(name, ps, overrides), ps)
  {
    var name := ExtractPathParamNames(path)[i];
    var default, named := tables.pathDescription(name), NamedSources(name, ps, overrides);
    forall d, e | d in ps && e in ps ensures Placed(default, name, d, named) == Placed(default, name, e, named) {
      PlacedInSomeOrder(tables, path, ps, overrides, i, d);
      PlacedInSomeOrder(tables, path, ps, overrides, i, e);
    }
    PlacedAlikeIff(default, name, named, ps);
  }

  lemma PlacedInSomeOrder(tables: Tables, path: string, ps: seq<ParamDef>, overrides: map<string, ParamDef>, i: nat,
                          d: ParamDef)
    requires DistinctNames(ps) && OrderIsIrrelevant(tables, path, ps, overrides)
    requires i < |ExtractPathParamNames(path)| && i < |ps| && d in ps
    ensures var name := ExtractPathParamNames(path)[i];
            PathParams(tables, path, ps, overrides)[i] ==
            Placed(tables.pathDescription(name), name, d, NamedSources(name, ps, overrides))
  {
    var other := AnyAtPosition(ps, i, d);
    ByNameIgnoresOrder(ps, other);
    PlacedParam(tables, ExtractPathParamNames(path)[i], i, other, overrides);
    assert PathParams(tables, path, other, overrides)[i] == PathParams(tables, path, ps, overrides)[i];
  }

  /** In particular: when the list settles every placeholder by name, its order does not matter. */
  lemma OrderDoesNotMatter(tables: Tables, path: string, ps: seq<ParamDef>, overrides: map<string, ParamDef>)
    requires DistinctNames(ps) && Settles(ps, ExtractPathParamNames(path))
    ensures OrderIsIrrelevant(tables, path, ps, overrides)
  {
    var names := ExtractPathParamNames(path);
    forall i | 0 <= i < |names| && i < |ps|
      ensures PositionIsSettled(tables.pathDescription(names[i]), NamedSources(names[i], ps, overrides), ps)
    {
      assert names[i] in names;
      NamedSettles(names[i], ps, overrides);
    }
    OrderDoesNotMatterIff(tables, path, ps, overrides);
  }

  lemma NamedSettles(name: string, ps: seq<ParamDef>, overrides: map<string, ParamDef>)
    requires name in ByName(ps) && IsSettled(ByName(ps)[name])
    ensures var named := NamedSources(name, ps, overrides);
            LastText(named, TypeField) != "" && LastText(named, DescriptionField) != ""
  {
    var a, b := PathNamed(ByName(ps), name), PathNamed(overrides, name);
    assert a[..0] == [];
    LastTextConcat(a, b, TypeField);
    LastTextConcat(a, b, DescriptionField);
  }

  lemma XIsPlaceholder()
    ensures ExtractPathParamNames("{x}") != [] && ExtractPathParamNames("{x}")[0] == "x"
  {
    ExtractStep("x", "");
    assert "{x}" == Placeholder("x", None) + "";
  }

  // Without a parameter of the placeholder's name, the order decides.
  lemma OrderMattersWithoutTheName(tables: Tables)
    ensures var p := ParamDef("a", "path", "integer", "", "", None, None);
            var q := ParamDef("b", "path", "string", "", "", None, None);
            PathParams(tables, "{x}", [p, q], map[]) != PathParams(tables, "{x}", [q, p], map[])
  {
    var p := ParamDef("a", "path", "integer", "", "", None, None);
    var q := ParamDef("b", "path", "string", "", "", None, None);
    XIsPlaceholder();
    ByNameIs([p, q]);
    ByNameIs([q, p]);
    assert "x" != p.name && "x" != q.name;
    assert PathParams(tables, "{x}", [p, q], map[])[0].paramType == "integer";
    assert PathParams(tables, "{x}", [q, p], map[])[0].paramType == "string";
  }
}
