/** What one header tells of the parameters of its endpoint, key by key. */
module EndpointParams {
  import opened Wrappers
  import opened Strings
  import opened Sorting
  import opened PathTemplates
  import opened Params
  import opened MergeAlgebra
  import opened MergeLaws
  import opened MergeRepeats
  import opened Parameters
  import opened Handlers
  import opened HandlerFiles

  function LocationOf(place: Place): string {
    match place
    case InPath => "path"
    case InQuery => "query"
  }

  function KeyOf(place: Place, name: string): string {
    LocationOf(place) + ":" + name
  }

  // What the path or the body tells of the parameter with this name.
  function FoundName(tables: Tables, cls: Classifiers, place: Place, h: Header, n: string): Option<ParamDef> {
    match place
    case InPath => if n in ExtractPathParamNames(h.said.path) then Some(FromTables(tables, n)) else None
    case InQuery =>
      if n in cls.queryGets(h.body) then Some(QueryGetDef(tables, n))
      else if n in cls.formValues(h.body) then Some(FormValueDef(tables, n))
      else None
  }

  // What the path or the body tells of the parameter with this key.
  function FoundDef(tables: Tables, cls: Classifiers, place: Place, h: Header, k: string): Option<ParamDef> {
    if HasPrefix(k, KeyOf(place, "")) then FoundName(tables, cls, place, h, k[|KeyOf(place, "")|..]) else None
  }

  /** What a header tells of the parameter with this key: its comments, overridden by the path or the body. */
  function ToldDef(tables: Tables, cls: Classifiers, place: Place, h: Header, k: string): Option<ParamDef> {
    Combine(Occur(k, SaidIn(place, h)), FoundDef(tables, cls, place, h, k))
  }

  lemma ToldIff(tables: Tables, cls: Classifiers, place: Place, h: Header, k: string)
    ensures ToldDef(tables, cls, place, h, k).Some? <==>
            HasKey(SaidIn(place, h), k) || FoundDef(tables, cls, place, h, k).Some?
  {
    OccurIffHasKey(k, SaidIn(place, h));
  }

  lemma SplitKey(place: Place, k: string)
    requires HasPrefix(k, KeyOf(place, ""))
    ensures k == KeyOf(place, k[|KeyOf(place, "")|..])
  {
  }

  lemma KeyAt(place: Place, p: ParamDef, k: string)
    requires p.location == LocationOf(place)
    ensures ParamKey(p) == k <==> HasPrefix(k, KeyOf(place, "")) && p.name == k[|KeyOf(place, "")|..]
  {
    var prefix := KeyOf(place, "");
    if ParamKey(p) == k {
      assert k == prefix + p.name;
      assert k[|prefix|..] == p.name;
    }
    if HasPrefix(k, prefix) {
      SplitKey(place, k);
    }
  }

  lemma {:induction false} OccurOfNames(tables: Tables, names: seq<string>, k: string)
    ensures Occur(k, DefsOfNames(tables, names)) ==
            if HasPrefix(k, KeyOf(InPath, "")) && k[|KeyOf(InPath, "")|..] in names
            then Some(FromTables(tables, k[|KeyOf(InPath, "")|..])) else None
  {
    if names != [] {
      var front, last := names[..|names| - 1], names[|names| - 1];
      OccurOfNames(tables, front, k);
      assert DefsOfNames(tables, names)[..|names| - 1] == DefsOfNames(tables, front);
      if HasPrefix(k, KeyOf(InPath, "")) {
        LastOrEarlier(names, k[|KeyOf(InPath, "")|..]);
      }
      KeyAt(InPath, FromTables(tables, last), k);
    }
  }

  lemma OccurOfBodyQuery(tables: Tables, cls: Classifiers, h: Header, found: seq<ParamDef>, k: string)
    requires IsFoundIn(tables, cls, InQuery, h, found) && UniqueKeys(found)
    ensures Occur(k, found) == FoundDef(tables, cls, InQuery, h, k)
  {
    OccurIn(k, found);
    if Occur(k, found).Some? {
      KeyAt(InQuery, Occur(k, found).value, k);
    } else if FoundDef(tables, cls, InQuery, h, k).Some? {
      var p := FoundDef(tables, cls, InQuery, h, k).value;
      KeyAt(InQuery, p, k);
      InUnique(found, p);
    }
  }

  lemma BodyQueryIsProper(tables: Tables, cls: Classifiers, h: Header, found: seq<ParamDef>)
    requires IsFoundIn(tables, cls, InQuery, h, found)
    ensures LocationsIn(found, {"query"}) && UniqueKeys(found)
  {
    forall i, j | 0 <= i < j < |found| ensures ParamKey(found[i]) != ParamKey(found[j]) {
      assert found[i] in found && found[j] in found;
      KeyTellsApart(found[i], found[j]);
      LexTotal(found[i].name, found[j].name);
    }
  }

  lemma FoundIs(tables: Tables, cls: Classifiers, place: Place, h: Header, found: seq<ParamDef>, k: string)
    requires IsFoundIn(tables, cls, place, h, found)
    ensures LocationsIn(found, {LocationOf(place)})
    ensures Occur(k, found) == FoundDef(tables, cls, place, h, k)
  {
    match place
    case InPath => OccurOfNames(tables, ExtractPathParamNames(h.said.path), k);
    case InQuery =>
      BodyQueryIsProper(tables, cls, h, found);
      OccurOfBodyQuery(tables, cls, h, found, k);
  }

  lemma SaidIsPlaced(tables: Tables, place: Place, h: Header)
    requires IsSoundHeader(tables, h)
    ensures LocationsIn(SaidIn(place, h), {LocationOf(place)}) && Proper(SaidIn(place, h))
  {
  }

  lemma MergePlaced(place: Place, before: seq<ParamDef>, more: seq<ParamDef>, r: seq<ParamDef>)
    requires LocationsIn(before, {LocationOf(place)}) && LocationsIn(more, {LocationOf(place)})
    requires IsMerge(before, more, r)
    ensures LocationsIn(r, {LocationOf(place)}) && (UniqueKeys(r) <==> UniqueKeys(before))
    ensures Proper(before) && Proper(more)
  {
    PlacedIsProper(place, before);
    PlacedIsProper(place, more);
    MergeLocations(before, more, r, {LocationOf(place)});
    UniqueIffBaseUnique(before, more, r);
  }

  lemma PlacedIsProper(place: Place, ps: seq<ParamDef>)
    requires LocationsIn(ps, {LocationOf(place)})
    ensures Proper(ps) && Plain(ps)
  {
  }

  lemma MergedHaveKey(place: Place, before: seq<ParamDef>, more: seq<ParamDef>, r: seq<ParamDef>, q: string)
    requires LocationsIn(before, {LocationOf(place)}) && LocationsIn(more, {LocationOf(place)})
    requires IsMerge(before, more, r)
    ensures HasKey(r, q) <==> HasKey(before, q) || HasKey(more, q)
  {
    MergePlaced(place, before, more, r);
    MergeKeys(before, more, r);
  }

  lemma ToldParamsArePlaced(tables: Tables, cls: Classifiers, place: Place, h: Header, ps: seq<ParamDef>)
    requires IsSoundHeader(tables, h) && Tells(tables, cls, place, h, ps)
    ensures LocationsIn(ps, {LocationOf(place)})
    ensures UniqueKeys(ps) <==> UniqueKeys(SaidIn(place, h))
  {
    var found :| IsFoundIn(tables, cls, place, h, found) && IsMerge(SaidIn(place, h), found, ps);
    SaidIsPlaced(tables, place, h);
    FoundIs(tables, cls, place, h, found, "");
    MergePlaced(place, SaidIn(place, h), found, ps);
  }

  /** The parameters told in one place are those of the comments and those of the path or body. */
  lemma ToldParamsHaveKeys(tables: Tables, cls: Classifiers, place: Place, h: Header, ps: seq<ParamDef>, k: string)
    requires IsSoundHeader(tables, h) && Tells(tables, cls, place, h, ps)
    ensures HasKey(ps, k) <==> HasKey(SaidIn(place, h), k) || FoundDef(tables, cls, place, h, k).Some?
  {
    var found :| IsFoundIn(tables, cls, place, h, found) && IsMerge(SaidIn(place, h), found, ps);
    SaidIsPlaced(tables, place, h);
    FoundIs(tables, cls, place, h, found, k);
    OccurIffHasKey(k, found);
    MergedHaveKey(place, SaidIn(place, h), found, ps, k);
  }

  /**
   For each key, the parameters are those of the comments with the last one overridden by
   what the path or the body tells.
   */
  lemma ToldParamsAre(tables: Tables, cls: Classifiers, place: Place, h: Header, ps: seq<ParamDef>, k: string)
    requires IsSoundHeader(tables, h) && Tells(tables, cls, place, h, ps)
    ensures multiset(Occurrences(k, ps)) ==
            multiset(OverrideLast(Occurrences(k, SaidIn(place, h)), FoundDef(tables, cls, place, h, k)))
  {
    var found :| IsFoundIn(tables, cls, place, h, found) && IsMerge(SaidIn(place, h), found, ps);
    SaidIsPlaced(tables, place, h);
    FoundIs(tables, cls, place, h, found, k);
    ProperIsPlain(SaidIn(place, h));
    ProperIsPlain(found);
    MergeOccurrences(SaidIn(place, h), found, ps, k);
  }

  /** A key that the comments do not repeat has the one parameter that the header tells of. */
  lemma {:induction false} ToldParamIs(
    tables: Tables, cls: Classifiers, place: Place, h: Header, ps: seq<ParamDef>, k: string)
    requires IsSoundHeader(tables, h) && Tells(tables, cls, place, h, ps)
    requires |Occurrences(k, SaidIn(place, h))| <= 1
    ensures Occurrences(k, ps) == Listed(ToldDef(tables, cls, place, h, k))
  {
    ToldParamsAre(tables, cls, place, h, ps, k);
    OccurOfOccurrences(k, SaidIn(place, h));
    OverrideOnly(Occurrences(k, SaidIn(place, h)), Occur(k, SaidIn(place, h)), FoundDef(tables, cls, place, h, k));
    SameSmall(Occurrences(k, ps), Listed(ToldDef(tables, cls, place, h, k)));
  }

  /** As many parameters of a key as the comments say, or one if only the path or the body tells of it. */
  lemma {:induction false} ToldCountIs(
    tables: Tables, cls: Classifiers, place: Place, h: Header, ps: seq<ParamDef>, q: string)
    requires IsSoundHeader(tables, h) && Tells(tables, cls, place, h, ps)
    ensures var said := |Occurrences(q, SaidIn(place, h))|;
            |Occurrences(q, ps)| == if said > 0 then said else if ToldDef(tables, cls, place, h, q).Some? then 1 else 0
  {
    var said, found := Occurrences(q, SaidIn(place, h)), FoundDef(tables, cls, place, h, q);
    ToldParamsAre(tables, cls, place, h, ps, q);
    SameElements(Occurrences(q, ps), OverrideLast(said, found));
    if said == [] {
      OccurOfOccurrences(q, SaidIn(place, h));
    }
  }

  lemma ToldParamsAreCanonical(tables: Tables, cls: Classifiers, place: Place, h: Header, ps: seq<ParamDef>)
    requires IsSoundHeader(tables, h) && Tells(tables, cls, place, h, ps)
    requires UniqueKeys(SaidIn(place, h))
    ensures Canonical(ps)
  {
    var found :| IsFoundIn(tables, cls, place, h, found) && IsMerge(SaidIn(place, h), found, ps);
    SaidIsPlaced(tables, place, h);
    FoundIs(tables, cls, place, h, found, "");
    AnyMergeIsCanonical(SaidIn(place, h), found, ps);
  }

  lemma FoundIsUnique(tables: Tables, cls: Classifiers, place: Place, h: Header, a: seq<ParamDef>, b: seq<ParamDef>)
    requires IsFoundIn(tables, cls, place, h, a) && IsFoundIn(tables, cls, place, h, b)
    ensures a == b
  {
    if place == InQuery {
      BodyQueryIsUnique(tables, cls.queryGets(h.body), cls.formValues(h.body), a, b);
    }
  }

  /** Sorting leaves only one result exactly when no key ends up with two different parameters. */
  lemma ToldIsUniqueIff(tables: Tables, cls: Classifiers, place: Place, h: Header, ps: seq<ParamDef>)
    requires IsSoundHeader(tables, h) && Tells(tables, cls, place, h, ps)
    ensures (forall r :: Tells(tables, cls, place, h, r) ==> r == ps) <==>
            forall k :: AllEqual(OverrideLast(Occurrences(k, SaidIn(place, h)), FoundDef(tables, cls, place, h, k)))
  {
    var said := SaidIn(place, h);
    var found :| IsFoundIn(tables, cls, place, h, found) && IsMerge(said, found, ps);
    SaidIsPlaced(tables, place, h);
    FoundIs(tables, cls, place, h, found, "");
    MergeIsUniqueIff(said, found);
    MergeIsMerge(said, found);
    forall r ensures Tells(tables, cls, place, h, r) <==> IsMerge(said, found, r) {
      if Tells(tables, cls, place, h, r) {
        var other :| IsFoundIn(tables, cls, place, h, other) && IsMerge(said, other, r);
        FoundIsUnique(tables, cls, place, h, found, other);
      }
    }
    forall k ensures Occur(k, found) == FoundDef(tables, cls, place, h, k) {
      FoundIs(tables, cls, place, h, found, k);
    }
  }

  /** Every placeholder of the path has a path parameter. */
  lemma PlaceholdersAreCovered(tables: Tables, cls: Classifiers, h: Header, ps: seq<ParamDef>, n: string)
    requires IsSoundHeader(tables, h) && Tells(tables, cls, InPath, h, ps)
    requires n in ExtractPathParamNames(h.said.path)
    ensures exists p :: p in ps && p.name == n && p.location == "path"
  {
    var k := KeyOf(InPath, n);
    KeyAt(InPath, FromTables(tables, n), k);
    ToldParamsHaveKeys(tables, cls, InPath, h, ps, k);
    ToldParamsArePlaced(tables, cls, InPath, h, ps);
    var j :| 0 <= j < |ps| && ParamKey(ps[j]) == k;
    assert ps[j] in ps;
    KeyAt(InPath, ps[j], k);
  }

  /**
   What comments say about a placeholder is lost, except where they repeat it: the tables'
   type and description override the last comment only. So nothing of the comments is left
   exactly when each comment on the placeholder but the last says what the tables say.
   */
  lemma CommentsOnPlaceholdersAreOverriddenIff(
    tables: Tables, cls: Classifiers, h: Header, ps: seq<ParamDef>, n: string)
    requires IsSoundHeader(tables, h) && Tells(tables, cls, InPath, h, ps)
    requires n in ExtractPathParamNames(h.said.path)
    ensures FromTables(tables, n) in ps
    ensures var os := Occurrences(KeyOf(InPath, n), h.pathParams);
            (forall p :: p in ps && p.name == n ==> p == FromTables(tables, n)) <==>
            (forall i :: 0 <= i < |os| - 1 ==> os[i] == FromTables(tables, n))
  {
    var k, def := KeyOf(InPath, n), FromTables(tables, n);
    var os := Occurrences(k, h.pathParams);
    ToldParamsArePlaced(tables, cls, InPath, h, ps);
    PlaceholderOccurrences(tables, cls, h, ps, n);
    forall p ensures p in (if os == [] then [def] else os[..|os| - 1] + [def]) <==> p in ps && p.name == n {
      MemberOfName(InPath, ps, n, p);
      SameElements(Occurrences(k, ps), if os == [] then [def] else os[..|os| - 1] + [def]);
    }
    AllButLast(os, def);
  }

  lemma {:induction false} PlaceholderOccurrences(
    tables: Tables, cls: Classifiers, h: Header, ps: seq<ParamDef>, n: string)
    requires IsSoundHeader(tables, h) && Tells(tables, cls, InPath, h, ps)
    requires n in ExtractPathParamNames(h.said.path)
    ensures var os, def := Occurrences(KeyOf(InPath, n), h.pathParams), FromTables(tables, n);
            multiset(Occurrences(KeyOf(InPath, n), ps)) ==
            multiset(if os == [] then [def] else os[..|os| - 1] + [def])
  {
    var k, def := KeyOf(InPath, n), FromTables(tables, n);
    FoundOfPlaceholder(tables, cls, h, n);
    ToldParamsAre(tables, cls, InPath, h, ps, k);
    LastIsOverridden(tables, h.pathParams, n);
  }

  lemma FoundOfPlaceholder(tables: Tables, cls: Classifiers, h: Header, n: string)
    requires n in ExtractPathParamNames(h.said.path)
    ensures FoundDef(tables, cls, InPath, h, KeyOf(InPath, n)) == Some(FromTables(tables, n))
  {
    KeyAt(InPath, FromTables(tables, n), KeyOf(InPath, n));
  }

  lemma MemberOfName(place: Place, ps: seq<ParamDef>, n: string, p: ParamDef)
    requires LocationsIn(ps, {LocationOf(place)})
    ensures p in Occurrences(KeyOf(place, n), ps) <==> p in ps && p.name == n
  {
    MemberOfOccurrences(KeyOf(place, n), ps, p);
    if p in ps {
      KeyAt(place, p, KeyOf(place, n));
      assert KeyOf(place, n)[|KeyOf(place, "")|..] == n;
    }
  }

  lemma AllButLast(os: seq<ParamDef>, def: ParamDef)
    ensures var rs := if os == [] then [def] else os[..|os| - 1] + [def];
            && def in rs
            && ((forall p :: p in rs ==> p == def) <==> (forall i :: 0 <= i < |os| - 1 ==> os[i] == def))
  {
    var rs := if os == [] then [def] else os[..|os| - 1] + [def];
    assert rs[|rs| - 1] == def;
    forall i | 0 <= i < |os| - 1 ensures os[i] in rs {
      assert rs[i] == os[i];
    }
  }

  lemma LastIsOverridden(tables: Tables, said: seq<ParamDef>, n: string)
    requires forall p :: p in said ==> ComesFromComment(tables, p)
    ensures var os, def := Occurrences(KeyOf(InPath, n), said), FromTables(tables, n);
            OverrideLast(os, Some(def)) == if os == [] then [def] else os[..|os| - 1] + [def]
  {
    var k, def := KeyOf(InPath, n), FromTables(tables, n);
    var os := Occurrences(k, said);
    if os != [] {
      var last := os[|os| - 1];
      MemberOfOccurrences(k, said, last);
      KeyAt(InPath, last, k);
      KeyAt(InPath, def, k);
      assert MergeSingleParamDef(last, def) == def;
    }
  }

  // ----- Positions -----

  lemma NamesAscend(ps: seq<ParamDef>)
    requires Ordered(ps, ParamLess) && LocationsIn(ps, {"path"})
    ensures Ordered(NamesOf(ps), LexLess)
  {
    forall i, j | 0 <= i < j < |ps| ensures !LexLess(ps[j].name, ps[i].name) {
      assert ps[i] in ps && ps[j] in ps && !ParamLess(ps[j], ps[i]);
    }
  }

  lemma AscendingIsUnique(a: seq<string>, b: seq<string>)
    requires Ordered(a, LexLess) && Ordered(b, LexLess) && multiset(a) == multiset(b)
    ensures a == b
  {
    forall x, y | x in a && y in a && !LexLess(x, y) && !LexLess(y, x) ensures x == y {
      LexTotal(x, y);
    }
    OrderedIsUnique(a, b, LexLess);
  }

  lemma CountOfFront(ps: seq<ParamDef>, n: string)
    requires ps != []
    ensures var front, last := ps[..|ps| - 1], ps[|ps| - 1];
            multiset(NamesOf(ps))[n] == multiset(NamesOf(front))[n] + (if last.name == n then 1 else 0)
  {
    assert NamesOf(ps) == NamesOf(ps[..|ps| - 1]) + [ps[|ps| - 1].name];
  }

  lemma {:induction false} CountOfNames(place: Place, ps: seq<ParamDef>, n: string)
    requires forall i :: 0 <= i < |ps| ==> ps[i].location == LocationOf(place)
    ensures multiset(NamesOf(ps))[n] == |Occurrences(KeyOf(place, n), ps)|
  {
    if ps != [] {
      CountOfNames(place, ps[..|ps| - 1], n);
      CountOfFront(ps, n);
      KeyAt(place, ps[|ps| - 1], KeyOf(place, n));
      assert KeyOf(place, n)[|KeyOf(place, "")|..] == n;
    }
  }

  /** How many parameters are told of a placeholder's name: as many as comments say, or one if it is announced. */
  function ToldCount(h: Header, n: string): nat {
    var said := |Occurrences(KeyOf(InPath, n), h.pathParams)|;
    if said > 0 then said else if n in ExtractPathParamNames(h.said.path) then 1 else 0
  }

  lemma NamesTold(tables: Tables, cls: Classifiers, h: Header, ps: seq<ParamDef>, n: string)
    requires IsSoundHeader(tables, h) && Tells(tables, cls, InPath, h, ps)
    ensures multiset(NamesOf(ps))[n] == ToldCount(h, n)
  {
    var k := KeyOf(InPath, n);
    ToldParamsArePlaced(tables, cls, InPath, h, ps);
    ToldCountIs(tables, cls, InPath, h, ps, k);
    ToldIff(tables, cls, InPath, h, k);
    assert forall i :: 0 <= i < |ps| ==> ps[i] in ps;
    CountOfNames(InPath, ps, n);
    FoundOfName(tables, cls, h, n);
    if Occurrences(k, h.pathParams) == [] && HasKey(h.pathParams, k) {
      var i :| 0 <= i < |h.pathParams| && ParamKey(h.pathParams[i]) == k;
      MemberOfOccurrences(k, h.pathParams, h.pathParams[i]);
    }
  }

  lemma FoundOfName(tables: Tables, cls: Classifiers, h: Header, n: string)
    ensures FoundDef(tables, cls, InPath, h, KeyOf(InPath, n)).Some? <==> n in ExtractPathParamNames(h.said.path)
  {
    assert KeyOf(InPath, n)[|KeyOf(InPath, "")|..] == n;
  }

  lemma ToldParamsAreOrdered(tables: Tables, cls: Classifiers, place: Place, h: Header, ps: seq<ParamDef>)
    requires IsSoundHeader(tables, h) && Tells(tables, cls, place, h, ps)
    ensures Ordered(ps, ParamLess)
  {
    var found :| IsFoundIn(tables, cls, place, h, found) && IsMerge(SaidIn(place, h), found, ps);
    SaidIsPlaced(tables, place, h);
    FoundIs(tables, cls, place, h, found, "");
    ProperMerge(SaidIn(place, h), found);
  }

  /**
   Parameters are sorted by name before a route reads them by position. The i-th of them is
   that of the i-th placeholder announced, for every i, exactly when the placeholders
   announced ascend and there are as many of each name as are told of.
   */
  lemma PositionsFollowTemplateIff(tables: Tables, cls: Classifiers, h: Header, ps: seq<ParamDef>)
    requires IsSoundHeader(tables, h) && Tells(tables, cls, InPath, h, ps)
    ensures var names := ExtractPathParamNames(h.said.path);
            NamesOf(ps) == names <==>
            Ordered(names, LexLess) && forall n :: multiset(names)[n] == ToldCount(h, n)
  {
    var names := ExtractPathParamNames(h.said.path);
    ToldParamsArePlaced(tables, cls, InPath, h, ps);
    ToldParamsAreOrdered(tables, cls, InPath, h, ps);
    NamesAscend(ps);
    forall n ensures multiset(NamesOf(ps))[n] == ToldCount(h, n) {
      NamesTold(tables, cls, h, ps, n);
    }
    if Ordered(names, LexLess) && forall n :: multiset(names)[n] == ToldCount(h, n) {
      assert multiset(NamesOf(ps)) == multiset(names);
      AscendingIsUnique(NamesOf(ps), names);
    }
  }

  /** In particular, if no comments repeat a parameter: the names are distinct and ascend, and comments add none. */
  lemma PositionsFollowTemplateIfUnrepeated(tables: Tables, cls: Classifiers, h: Header, ps: seq<ParamDef>)
    requires IsSoundHeader(tables, h) && Tells(tables, cls, InPath, h, ps) && UniqueKeys(h.pathParams)
    ensures var names := ExtractPathParamNames(h.said.path);
            NamesOf(ps) == names <==>
            Ordered(names, LexLess) && Distinct(names) && forall p :: p in h.pathParams ==> p.name in names
  {
    var names := ExtractPathParamNames(h.said.path);
    PositionsFollowTemplateIff(tables, cls, h, ps);
    SaidIsPlaced(tables, InPath, h);
    DistinctByCount(names);
    forall n
      ensures ToldCount(h, n) <= 1
      ensures ToldCount(h, n) == 1 <==> n in names || exists p :: p in h.pathParams && p.name == n
    {
      OccurrencesOfUnique(KeyOf(InPath, n), h.pathParams);
      SaidOfName(h, n);
    }
    if NamesOf(ps) == names {
      forall n | n in names ensures multiset(names)[n] == 1 {
        assert n in multiset(names);
      }
      forall p | p in h.pathParams ensures p.name in names {
        assert ToldCount(h, p.name) == 1;
        assert p.name in multiset(names);
      }
    }
    if Ordered(names, LexLess) && Distinct(names) && forall p :: p in h.pathParams ==> p.name in names {
      forall n ensures multiset(names)[n] == ToldCount(h, n) {
        assert n in names <==> n in multiset(names);
      }
    }
  }

  lemma SaidOfName(h: Header, n: string)
    requires LocationsIn(h.pathParams, {"path"})
    ensures Occurrences(KeyOf(InPath, n), h.pathParams) != [] <==> exists p :: p in h.pathParams && p.name == n
  {
    var os := Occurrences(KeyOf(InPath, n), h.pathParams);
    if os != [] {
      MemberOfName(InPath, h.pathParams, n, os[0]);
    }
    if p :| p in h.pathParams && p.name == n {
      MemberOfName(InPath, h.pathParams, n, p);
    }
  }

  /**
   A placeholder that a route renames, and nothing names, is given what the tables say of
   the name at its position in that order.
   */
  lemma RenamedPlaceholderTakes(tables: Tables, path: string, i: nat, ps: seq<ParamDef>,
                                overrides: map<string, ParamDef>)
    requires i < |ps| && i < |ExtractPathParamNames(path)| && ps[i] == FromTables(tables, ps[i].name)
    requires NamedSources(ExtractPathParamNames(path)[i], ps, overrides) == []
    ensures var name := ExtractPathParamNames(path)[i];
            PathParams(tables, path, ps, overrides)[i] == FromTables(tables, ps[i].name).(name := name)
  {
  }
}
