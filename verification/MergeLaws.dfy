/** The canonical merge, and its laws: associative, idempotent, with the empty list as unit. */
module MergeLaws {
  import opened Wrappers
  import opened Strings
  import opened Sorting
  import opened Params
  import opened MergeAlgebra

  // ----- Canonical lists -----

  ghost predicate Canonical(ps: seq<ParamDef>) {
    Proper(ps) && UniqueKeys(ps) && StrictlyOrdered(ps, ParamLess)
  }

  // A path parameter before a query parameter, or two in one place with names in order.
  predicate ComesFirst(p: ParamDef, q: ParamDef) {
    if p.location == q.location then LexLess(p.name, q.name) else p.location == "path"
  }

  /** Canonical lists are those with path parameters first, and names strictly ascending in each place. */
  lemma CanonicalIs(ps: seq<ParamDef>)
    requires Proper(ps)
    ensures Canonical(ps) <==> forall i, j :: 0 <= i < j < |ps| ==> ComesFirst(ps[i], ps[j])
  {
    if forall i, j :: 0 <= i < j < |ps| ==> ComesFirst(ps[i], ps[j]) {
      forall i, j | 0 <= i < j < |ps| ensures ParamLess(ps[i], ps[j]) && ParamKey(ps[i]) != ParamKey(ps[j]) {
        assert ps[i] in ps && ps[j] in ps;
        KeyTellsApart(ps[i], ps[j]);
        LexTotal(ps[i].name, ps[j].name);
      }
    }
    if Canonical(ps) {
      forall i, j | 0 <= i < j < |ps| ensures ComesFirst(ps[i], ps[j]) {
        assert ParamLess(ps[i], ps[j]);
      }
    }
  }

  // Merging brings in no location that neither list had.
  predicate LocationsIn(ps: seq<ParamDef>, places: set<string>) {
    forall p :: p in ps ==> p.location in places
  }

  lemma AbsorbLocations(slots: seq<Slot>, p: ParamDef, places: set<string>)
    requires LocationsIn(Defs(slots), places) && p.location in places
    ensures LocationsIn(Defs(Absorb(slots, p)), places)
  {
    DefsOfAbsorb(slots, p);
    var defs := Defs(slots);
    assert forall i :: 0 <= i < |slots| ==> defs[i] == slots[i].def && defs[i] in defs;
  }

  lemma {:induction false} AbsorbAllLocations(slots: seq<Slot>, ps: seq<ParamDef>, places: set<string>)
    requires LocationsIn(Defs(slots), places) && LocationsIn(ps, places)
    ensures LocationsIn(Defs(AbsorbAll(slots, ps)), places)
  {
    if ps != [] {
      var front, last := ps[..|ps| - 1], ps[|ps| - 1];
      assert last in ps && forall p :: p in front ==> p in ps;
      AbsorbAllLocations(slots, front, places);
      AbsorbLocations(AbsorbAll(slots, front), last, places);
    }
  }

  lemma MergeLocations(base: seq<ParamDef>, extra: seq<ParamDef>, r: seq<ParamDef>, places: set<string>)
    requires LocationsIn(base, places) && LocationsIn(extra, places) && IsMerge(base, extra, r)
    ensures LocationsIn(r, places)
  {
    assert Defs(SlotsOf(base)) == base;
    AbsorbAllLocations(SlotsOf(base), extra, places);
    SameElements(Gather(base, extra), r);
  }

  lemma GatherProper(base: seq<ParamDef>, extra: seq<ParamDef>)
    requires Proper(base) && Proper(extra)
    ensures Proper(Gather(base, extra))
  {
    assert Defs(SlotsOf(base)) == base;
    AbsorbAllLocations(SlotsOf(base), extra, {"path", "query"});
  }

  lemma OrderedIsCanonical(ps: seq<ParamDef>)
    requires Proper(ps) && UniqueKeys(ps) && Ordered(ps, ParamLess)
    ensures Canonical(ps)
  {
    forall i, j | 0 <= i < j < |ps| ensures ParamLess(ps[i], ps[j]) {
      assert ps[i] in ps && ps[j] in ps;
      LexTotal(ps[i].name, ps[j].name);
    }
  }

  /** Canonical lists with the same content are equal. */
  lemma CanonicalIsUnique(a: seq<ParamDef>, b: seq<ParamDef>)
    requires Canonical(a) && Canonical(b) && SameContent(a, b)
    ensures a == b
  {
    ProperComparison(a);
    ContentMembers(a, b);
    ContentMembers(b, a);
    StrictOrderUnique(a, b, ParamLess);
  }

  lemma ContentMembers(a: seq<ParamDef>, b: seq<ParamDef>)
    requires UniqueKeys(a) && UniqueKeys(b) && SameContent(a, b)
    ensures forall p :: p in a ==> p in b
  {
    forall p | p in a ensures p in b {
      var i :| 0 <= i < |a| && a[i] == p;
      var k := ParamKey(p);
      OccurOfUnique(k, a);
      OccurIffHasKey(k, b);
      OccurOfUnique(k, b);
    }
  }

  // ----- The merge as a function -----

  /** The canonical merge. */
  function Merge(base: seq<ParamDef>, extra: seq<ParamDef>): seq<ParamDef> {
    SortBy(Gather(base, extra), ParamLess)
  }

  lemma MergeIsMerge(base: seq<ParamDef>, extra: seq<ParamDef>)
    ensures IsMerge(base, extra, Merge(base, extra))
  {
    SortByKeepsElements(Gather(base, extra), ParamLess);
    if WeakOrder(Gather(base, extra), ParamLess) {
      SortByOrdered(Gather(base, extra), ParamLess);
    }
  }

  ghost predicate Mergeable(base: seq<ParamDef>, extra: seq<ParamDef>) {
    Proper(base) && Proper(extra) && UniqueKeys(base)
  }

  lemma AnyMergeIsCanonical(base: seq<ParamDef>, extra: seq<ParamDef>, r: seq<ParamDef>)
    requires Mergeable(base, extra) && IsMerge(base, extra, r)
    ensures Canonical(r)
  {
    MergeHasContent(base, extra, r);
    GatherProper(base, extra);
    ProperComparison(Gather(base, extra));
    SameElements(Gather(base, extra), r);
    OrderedIsCanonical(r);
  }

  lemma {:induction false} MergeHasContent(base: seq<ParamDef>, extra: seq<ParamDef>, r: seq<ParamDef>)
    requires Mergeable(base, extra) && IsMerge(base, extra, r)
    ensures UniqueKeys(r)
    ensures forall k :: Occur(k, r) == Combine(Occur(k, base), Occur(k, extra))
  {
    ProperIsPlain(base);
    ProperIsPlain(extra);
    MergeContent(base, extra, r);
  }

  /** Whatever the sort does with ties, there is one result. */
  lemma MergeIsUnique(base: seq<ParamDef>, extra: seq<ParamDef>, r: seq<ParamDef>)
    requires Mergeable(base, extra) && IsMerge(base, extra, r)
    ensures r == Merge(base, extra)
  {
    MergeIsMerge(base, extra);
    AnyMergeIsCanonical(base, extra, r);
    AnyMergeIsCanonical(base, extra, Merge(base, extra));
    MergeHasContent(base, extra, r);
    MergeHasContent(base, extra, Merge(base, extra));
    CanonicalIsUnique(r, Merge(base, extra));
  }

  lemma MergeIsCanonical(base: seq<ParamDef>, extra: seq<ParamDef>)
    requires Mergeable(base, extra)
    ensures Canonical(Merge(base, extra))
  {
    MergeIsMerge(base, extra);
    AnyMergeIsCanonical(base, extra, Merge(base, extra));
  }

  lemma ContentOfMerge(base: seq<ParamDef>, extra: seq<ParamDef>)
    requires Mergeable(base, extra)
    ensures forall k :: Occur(k, Merge(base, extra)) == Combine(Occur(k, base), Occur(k, extra))
  {
    MergeIsMerge(base, extra);
    MergeHasContent(base, extra, Merge(base, extra));
  }

  // ----- Laws -----

  lemma MergeAssociative(a: seq<ParamDef>, b: seq<ParamDef>, c: seq<ParamDef>)
    requires Proper(a) && Proper(b) && Proper(c) && UniqueKeys(a) && UniqueKeys(b)
    ensures Merge(Merge(a, b), c) == Merge(a, Merge(b, c))
  {
    MergeIsCanonical(a, b);
    ContentOfMerge(a, b);
    MergeIsCanonical(b, c);
    ContentOfMerge(b, c);
    MergeIsCanonical(Merge(a, b), c);
    ContentOfMerge(Merge(a, b), c);
    MergeIsCanonical(a, Merge(b, c));
    ContentOfMerge(a, Merge(b, c));
    forall k ensures Occur(k, Merge(Merge(a, b), c)) == Occur(k, Merge(a, Merge(b, c))) {
      CombineIsIdempotentMonoid(Occur(k, a), Occur(k, b), Occur(k, c));
    }
    CanonicalIsUnique(Merge(Merge(a, b), c), Merge(a, Merge(b, c)));
  }

  /** Merging a list with itself, or with nothing on either side, only sorts it. */
  lemma {:induction false} MergeIdempotentWithUnit(a: seq<ParamDef>)
    requires Proper(a) && UniqueKeys(a)
    ensures Merge(a, a) == Merge(a, []) == Merge([], a) == SortBy(a, ParamLess)
  {
    MergeIsCanonical(a, a);
    ContentOfMerge(a, a);
    MergeIsCanonical(a, []);
    ContentOfMerge(a, []);
    MergeIsCanonical([], a);
    ContentOfMerge([], a);
    assert Gather(a, []) == a;
    forall k ensures Occur(k, Merge(a, a)) == Occur(k, a) == Occur(k, Merge(a, [])) == Occur(k, Merge([], a)) {
      CombineIsIdempotentMonoid(Occur(k, a), None, None);
    }
    CanonicalIsUnique(Merge(a, a), Merge(a, []));
    CanonicalIsUnique(Merge([], a), Merge(a, []));
  }

  /** A canonical list is its own sorting. */
  lemma MergeOfCanonical(a: seq<ParamDef>)
    requires Canonical(a)
    ensures Merge(a, []) == a
  {
    MergeIsCanonical(a, []);
    ContentOfMerge(a, []);
    CanonicalIsUnique(Merge(a, []), a);
  }

  /** A long list may be merged in two parts, even when keys repeat within them and across them. */
  lemma MergeStreams(a: seq<ParamDef>, xs: seq<ParamDef>, ys: seq<ParamDef>)
    requires Proper(a) && UniqueKeys(a) && Proper(xs) && Proper(ys)
    ensures Merge(a, xs + ys) == Merge(Merge(a, xs), ys)
  {
    MergeIsCanonical(a, xs + ys);
    ContentOfMerge(a, xs + ys);
    MergeIsCanonical(a, xs);
    ContentOfMerge(a, xs);
    MergeIsCanonical(Merge(a, xs), ys);
    ContentOfMerge(Merge(a, xs), ys);
    forall k ensures Occur(k, Merge(a, xs + ys)) == Occur(k, Merge(Merge(a, xs), ys)) {
      OccurConcat(k, xs, ys);
      CombineIsIdempotentMonoid(Occur(k, a), Occur(k, xs), Occur(k, ys));
    }
    CanonicalIsUnique(Merge(a, xs + ys), Merge(Merge(a, xs), ys));
  }

  /** Key by key: what only one side defines is kept as it is, what both define is overridden. */
  lemma MergeIsRightBiased(a: seq<ParamDef>, b: seq<ParamDef>)
    requires Mergeable(a, b) && UniqueKeys(b)
    ensures var m := Merge(a, b);
            && (forall x :: x in a && !HasKey(b, ParamKey(x)) ==> x in m)
            && (forall y :: y in b && !HasKey(a, ParamKey(y)) ==> y in m)
            && (forall x, y :: x in a && y in b && ParamKey(x) == ParamKey(y) ==> MergeSingleParamDef(x, y) in m)
            && (forall k :: HasKey(m, k) <==> HasKey(a, k) || HasKey(b, k))
  {
    var m := Merge(a, b);
    MergeIsCanonical(a, b);
    ContentOfMerge(a, b);
    forall k ensures HasKey(m, k) <==> HasKey(a, k) || HasKey(b, k) {
      OccurIffHasKey(k, a);
      OccurIffHasKey(k, b);
      OccurIffHasKey(k, m);
    }
    forall x | x in a && !HasKey(b, ParamKey(x)) ensures x in m {
      OccurIffHasKey(ParamKey(x), b);
      InUnique(a, x);
      InUnique(m, x);
    }
    forall y | y in b && !HasKey(a, ParamKey(y)) ensures y in m {
      OccurIffHasKey(ParamKey(y), a);
      InUnique(b, y);
      InUnique(m, y);
    }
    forall x, y | x in a && y in b && ParamKey(x) == ParamKey(y) ensures MergeSingleParamDef(x, y) in m {
      InUnique(a, x);
      InUnique(b, y);
      OccurOfUnique(ParamKey(x), m);
      OccurIn(ParamKey(x), m);
    }
  }
}
