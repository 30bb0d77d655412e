/** What a merge does to keys that a list repeats, and when sorting leaves only one result. */
module MergeRepeats {
  import opened Wrappers
  import opened Sorting
  import opened Strings
  import opened Params
  import opened MergeAlgebra
  import opened MergeLaws

  /** Only the last definition of a key is overridden; a key without one gets its first. */
  function OverrideLast(os: seq<ParamDef>, o: Option<ParamDef>): seq<ParamDef> {
    if o.None? then os
    else if os == [] then [o.value]
    else os[|os| - 1 := MergeSingleParamDef(os[|os| - 1], o.value)]
  }

  lemma OverrideLastTwice(os: seq<ParamDef>, o: Option<ParamDef>, p: Option<ParamDef>)
    ensures OverrideLast(OverrideLast(os, o), p) == OverrideLast(os, Combine(o, p))
  {
  }

  lemma {:induction false} MemberOfOccurrences(k: string, ps: seq<ParamDef>, p: ParamDef)
    ensures p in Occurrences(k, ps) <==> p in ps && ParamKey(p) == k
  {
    if ps != [] {
      MemberOfOccurrences(k, ps[..|ps| - 1], p);
      assert ps == ps[..|ps| - 1] + [ps[|ps| - 1]];
    }
  }

  lemma {:induction false} CountOfOccurrences(k: string, ps: seq<ParamDef>, p: ParamDef)
    ensures multiset(Occurrences(k, ps))[p] == if ParamKey(p) == k then multiset(ps)[p] else 0
  {
    if ps != [] {
      var front, last := ps[..|ps| - 1], ps[|ps| - 1];
      CountOfOccurrences(k, front, p);
      assert ps == front + [last];
    }
  }

  lemma {:induction false} PermutationKeepsOccurrences(k: string, a: seq<ParamDef>, b: seq<ParamDef>)
    requires multiset(a) == multiset(b)
    ensures multiset(Occurrences(k, a)) == multiset(Occurrences(k, b))
  {
    var m, n := multiset(Occurrences(k, a)), multiset(Occurrences(k, b));
    forall p ensures m[p] == n[p] {
      CountOfOccurrences(k, a, p);
      CountOfOccurrences(k, b, p);
    }
  }

  // ----- The merge loop, key by key -----

  lemma {:induction false} NoOccurrence(k: string, ps: seq<ParamDef>)
    requires forall j :: 0 <= j < |ps| ==> ParamKey(ps[j]) != k
    ensures Occurrences(k, ps) == []
  {
    if ps != [] {
      NoOccurrence(k, ps[..|ps| - 1]);
    }
  }

  lemma {:induction false} OccurrencesConcat(k: string, a: seq<ParamDef>, b: seq<ParamDef>)
    ensures Occurrences(k, a + b) == Occurrences(k, a) + Occurrences(k, b)
  {
    if b == [] {
      assert a + b == a;
    } else {
      OccurrencesConcat(k, a, b[..|b| - 1]);
      assert (a + b)[..|a + b| - 1] == a + b[..|b| - 1];
    }
  }

  lemma OccurrencesOfOne(k: string, p: ParamDef)
    ensures Occurrences(k, [p]) == if ParamKey(p) == k then [p] else []
  {
    assert [p][..0] == [];
  }

  lemma OccurrencesOfThree(k: string, a: seq<ParamDef>, p: ParamDef, b: seq<ParamDef>)
    ensures Occurrences(k, a + [p] + b) ==
            Occurrences(k, a) + (if ParamKey(p) == k then [p] else []) + Occurrences(k, b)
  {
    OccurrencesConcat(k, a + [p], b);
    OccurrencesConcat(k, a, [p]);
    OccurrencesOfOne(k, p);
  }

  // The definitions of a key around position i.
  lemma OccurrencesAround(k: string, ps: seq<ParamDef>, i: nat, p: ParamDef)
    requires i < |ps|
    ensures Occurrences(k, ps[i := p]) ==
            Occurrences(k, ps[..i]) + (if ParamKey(p) == k then [p] else []) + Occurrences(k, ps[i + 1..])
  {
    assert ps[i := p] == ps[..i] + [p] + ps[i + 1..];
    OccurrencesOfThree(k, ps[..i], p, ps[i + 1..]);
  }

  lemma ReplaceOther(k: string, ps: seq<ParamDef>, i: nat, p: ParamDef)
    requires i < |ps| && ParamKey(ps[i]) != k && ParamKey(p) != k
    ensures Occurrences(k, ps[i := p]) == Occurrences(k, ps)
  {
    OccurrencesAround(k, ps, i, p);
    OccurrencesAround(k, ps, i, ps[i]);
    assert ps[i := ps[i]] == ps;
  }

  lemma ReplaceLast(k: string, ps: seq<ParamDef>, i: nat, p: ParamDef)
    requires i < |ps| && ParamKey(ps[i]) == k && ParamKey(p) == k
    requires forall j :: i < j < |ps| ==> ParamKey(ps[j]) != k
    ensures var os := Occurrences(k, ps);
            os != [] && os[|os| - 1] == ps[i] && Occurrences(k, ps[i := p]) == os[|os| - 1 := p]
  {
    OccurrencesAround(k, ps, i, p);
    OccurrencesAround(k, ps, i, ps[i]);
    NoOccurrence(k, ps[i + 1..]);
    assert ps[i := ps[i]] == ps;
  }

  lemma AbsorbOccurrences(k: string, slots: seq<Slot>, p: ParamDef)
    requires Filed(slots) && ':' !in p.location
    ensures Occurrences(k, Defs(Absorb(slots, p))) == OverrideLast(Occurrences(k, Defs(slots)), IfKey(k, p))
  {
    var i := LastSlot(slots, ParamKey(p));
    var defs := Defs(slots);
    DefsOfAbsorb(slots, p);
    assert forall j :: 0 <= j < |slots| ==> ParamKey(defs[j]) == slots[j].key;
    if i < 0 {
      assert (defs + [p])[..|defs|] == defs;
      if ParamKey(p) == k {
        NoOccurrence(k, defs);
      }
    } else {
      KeyTellsApart(slots[i].def, p);
      KeyIsStableIff(slots[i].def, p);
      if ParamKey(p) == k {
        ReplaceLast(k, defs, i, MergeSingleParamDef(defs[i], p));
      } else {
        ReplaceOther(k, defs, i, MergeSingleParamDef(defs[i], p));
      }
    }
  }

  lemma {:induction false} AbsorbAllOccurrences(k: string, slots: seq<Slot>, ps: seq<ParamDef>)
    requires Filed(slots) && Plain(ps)
    ensures Occurrences(k, Defs(AbsorbAll(slots, ps))) == OverrideLast(Occurrences(k, Defs(slots)), Occur(k, ps))
  {
    if ps != [] {
      var front, last := ps[..|ps| - 1], ps[|ps| - 1];
      assert last in ps && forall p :: p in front ==> p in ps;
      AbsorbAllOccurrences(k, slots, front);
      AbsorbAllFiled(slots, front);
      AbsorbOccurrences(k, AbsorbAll(slots, front), last);
      OverrideLastTwice(Occurrences(k, Defs(slots)), Occur(k, front), IfKey(k, last));
    }
  }

  lemma {:induction false} GatherOccurrences(k: string, base: seq<ParamDef>, extra: seq<ParamDef>)
    requires Plain(base) && Plain(extra)
    ensures Occurrences(k, Gather(base, extra)) == OverrideLast(Occurrences(k, base), Occur(k, extra))
  {
    var slots := SlotsOf(base);
    assert Filed(slots) by {
      assert forall i :: 0 <= i < |base| ==> base[i] in base;
    }
    assert Defs(slots) == base;
    AbsorbAllOccurrences(k, slots, extra);
  }

  /** The content of a merge, whatever either list repeats: the definitions of each key, up to order. */
  lemma {:induction false} MergeOccurrences(base: seq<ParamDef>, extra: seq<ParamDef>, r: seq<ParamDef>, k: string)
    requires Plain(base) && Plain(extra) && IsMerge(base, extra, r)
    ensures multiset(Occurrences(k, r)) == multiset(OverrideLast(Occurrences(k, base), Occur(k, extra)))
  {
    GatherOccurrences(k, base, extra);
    PermutationKeepsOccurrences(k, Gather(base, extra), r);
  }

  /** A merge keeps the number of definitions of a key, and gives one to a key that had none. */
  lemma {:induction false} MergeCount(base: seq<ParamDef>, extra: seq<ParamDef>, r: seq<ParamDef>, k: string)
    requires Plain(base) && Plain(extra) && IsMerge(base, extra, r)
    ensures var n := |Occurrences(k, base)|;
            |Occurrences(k, r)| == if n > 0 then n else if Occur(k, extra).Some? then 1 else 0
  {
    MergeOccurrences(base, extra, r, k);
    SameElements(Occurrences(k, r), OverrideLast(Occurrences(k, base), Occur(k, extra)));
  }

  lemma {:induction false} OccurOfOccurrences(k: string, ps: seq<ParamDef>)
    requires |Occurrences(k, ps)| <= 1
    ensures Occur(k, ps) == if Occurrences(k, ps) == [] then None else Some(Occurrences(k, ps)[0])
  {
    if ps != [] {
      OccurOfOccurrences(k, ps[..|ps| - 1]);
    }
  }

  lemma {:induction false} OccurrencesOfUnique(k: string, ps: seq<ParamDef>)
    requires UniqueKeys(ps)
    ensures |Occurrences(k, ps)| <= 1
  {
    if ps != [] {
      var front, last := ps[..|ps| - 1], ps[|ps| - 1];
      if ParamKey(last) == k {
        NoOccurrence(k, front);
      } else {
        OccurrencesOfUnique(k, front);
      }
    }
  }

  /** Definitions overridden one by the next: the first gives the name, the last that sets a field the field. */
  function Folded(ps: seq<ParamDef>): Option<ParamDef> {
    if ps == [] then None
    else
      Some(ParamDef(ps[0].name, LastText(ps, LocationField), LastText(ps, TypeField), LastText(ps, FormatField),
                    LastText(ps, DescriptionField), LastSome(ps, ExampleField), LastSome(ps, RequiredField)))
  }

  lemma FoldedOccurrences(k: string, ps: seq<ParamDef>)
    ensures Occur(k, ps) == Folded(Occurrences(k, ps))
  {
    LastSettingWins(k, ps);
  }

  lemma FoldedConcat(a: seq<ParamDef>, b: seq<ParamDef>)
    ensures Folded(a + b) == Combine(Folded(a), Folded(b))
  {
    if a == [] {
      assert a + b == b;
    } else if b == [] {
      assert a + b == a;
    } else {
      LastTextConcat(a, b, LocationField);
      LastTextConcat(a, b, TypeField);
      LastTextConcat(a, b, FormatField);
      LastTextConcat(a, b, DescriptionField);
      LastSomeConcat(a, b, ExampleField);
      LastSomeConcat(a, b, RequiredField);
    }
  }

  lemma FoldedOne(p: Option<ParamDef>)
    ensures Folded(Listed(p)) == p
  {
    if p.Some? {
      LastOfOne(p.value);
    }
  }

  lemma LastOfOne(p: ParamDef)
    ensures LastText([p], LocationField) == p.location && LastText([p], TypeField) == p.paramType
    ensures LastText([p], FormatField) == p.format && LastText([p], DescriptionField) == p.description
    ensures LastSome([p], ExampleField) == p.example && LastSome([p], RequiredField) == p.required
  {
    assert [p][..0] == [];
  }

  function Listed(o: Option<ParamDef>): seq<ParamDef> {
    if o.Some? then [o.value] else []
  }

  lemma ListedOccur(k: string, ps: seq<ParamDef>, o: Option<ParamDef>)
    requires Occurrences(k, ps) == Listed(o)
    ensures Occur(k, ps) == o && |Occurrences(k, ps)| <= 1
  {
    OccurOfOccurrences(k, ps);
  }

  /** A key that the base does not repeat is not repeated, and ends with its occurrences folded in order. */
  lemma {:induction false} MergeOccurrence(base: seq<ParamDef>, extra: seq<ParamDef>, r: seq<ParamDef>, k: string)
    requires Plain(base) && Plain(extra) && IsMerge(base, extra, r)
    requires |Occurrences(k, base)| <= 1
    ensures Occurrences(k, r) == Listed(Combine(Occur(k, base), Occur(k, extra)))
  {
    MergeOccurrences(base, extra, r, k);
    OccurOfOccurrences(k, base);
    OverrideOnly(Occurrences(k, base), Occur(k, base), Occur(k, extra));
    SameSmall(Occurrences(k, r), Listed(Combine(Occur(k, base), Occur(k, extra))));
  }

  lemma OverrideOnly(os: seq<ParamDef>, o: Option<ParamDef>, p: Option<ParamDef>)
    requires |os| <= 1 && o == if os == [] then None else Some(os[0])
    ensures OverrideLast(os, p) == Listed(Combine(o, p))
  {
  }

  lemma SameSmall(a: seq<ParamDef>, b: seq<ParamDef>)
    requires multiset(a) == multiset(b) && |b| <= 1
    ensures a == b
  {
    SameElements(a, b);
    if b != [] {
      assert b[0] in b;
    }
  }

  // ----- When is there only one result? -----

  ghost predicate AllEqual(os: seq<ParamDef>) {
    forall i, j :: 0 <= i < j < |os| ==> os[i] == os[j]
  }

  // Definitions under one key are equal.
  ghost predicate TiesAgree(ps: seq<ParamDef>) {
    forall p, q :: p in ps && q in ps && ParamKey(p) == ParamKey(q) ==> p == q
  }

  lemma AgreeingAreEqual(ps: seq<ParamDef>, k: string)
    requires TiesAgree(ps)
    ensures AllEqual(Occurrences(k, ps))
  {
    var os := Occurrences(k, ps);
    forall i, j | 0 <= i < j < |os| ensures os[i] == os[j] {
      MemberOfOccurrences(k, ps, os[i]);
      MemberOfOccurrences(k, ps, os[j]);
    }
  }

  lemma EqualAgree(ps: seq<ParamDef>, p: ParamDef, q: ParamDef)
    requires p in ps && q in ps && ParamKey(p) == ParamKey(q) && AllEqual(Occurrences(ParamKey(p), ps))
    ensures p == q
  {
    MemberOfOccurrences(ParamKey(p), ps, p);
    MemberOfOccurrences(ParamKey(p), ps, q);
  }

  // On path and query parameters, only definitions under one key are tied.
  lemma TiedIffSameKey(p: ParamDef, q: ParamDef)
    requires Proper([p, q])
    ensures !ParamLess(p, q) && !ParamLess(q, p) <==> ParamKey(p) == ParamKey(q)
  {
    assert p in [p, q] && q in [p, q];
    KeyTellsApart(p, q);
    LexTotal(p.name, q.name);
  }

  lemma AgreeingTiesAreEqual(ps: seq<ParamDef>)
    requires Proper(ps) && TiesAgree(ps)
    ensures TiesAreEqual(ps, ParamLess)
  {
    forall p, q | p in ps && q in ps && !ParamLess(p, q) && !ParamLess(q, p) ensures p == q {
      assert Proper([p, q]);
      TiedIffSameKey(p, q);
    }
  }

  // Swapping two definitions under one key keeps an ordered list ordered.
  lemma SwapTied(a: seq<ParamDef>, b: seq<ParamDef>)
    requires |a| == |b| && Ordered(a, ParamLess)
    requires forall m :: 0 <= m < |a| ==> b[m].name == a[m].name && b[m].location == a[m].location
    ensures Ordered(b, ParamLess)
  {
    forall m, n | 0 <= m < n < |b| ensures !ParamLess(b[n], b[m]) {
      assert !ParamLess(a[n], a[m]);
    }
  }

  lemma Swapped(a: seq<ParamDef>, i: nat, j: nat) returns (b: seq<ParamDef>)
    requires Ordered(a, ParamLess) && i < j < |a|
    requires a[i].name == a[j].name && a[i].location == a[j].location && a[i] != a[j]
    ensures Ordered(b, ParamLess) && multiset(b) == multiset(a) && b != a
  {
    b := a[i := a[j]][j := a[i]];
    SwapKeepsElements(a, i, j);
    SwapTied(a, b);
    assert b[i] != a[i];
  }

  lemma SecondOrder(a: seq<ParamDef>) returns (b: seq<ParamDef>)
    requires Proper(a) && Ordered(a, ParamLess) && !TiesAgree(a)
    ensures Ordered(b, ParamLess) && multiset(b) == multiset(a) && b != a
  {
    var i, j := TwoUnderOneKey(a);
    b := Swapped(a, i, j);
  }

  lemma TwoUnderOneKey(a: seq<ParamDef>) returns (i: nat, j: nat)
    requires Proper(a) && !TiesAgree(a)
    ensures i < j < |a| && a[i].name == a[j].name && a[i].location == a[j].location && a[i] != a[j]
  {
    var p, q :| p in a && q in a && ParamKey(p) == ParamKey(q) && p != q;
    KeyTellsApart(p, q);
    var m :| 0 <= m < |a| && a[m] == p;
    var n :| 0 <= n < |a| && a[n] == q;
    i, j := if m < n then m else n, if m < n then n else m;
  }

  // What sorting may make of a list.
  ghost predicate IsSorted(g: seq<ParamDef>, r: seq<ParamDef>) {
    multiset(r) == multiset(g) && Ordered(r, ParamLess)
  }

  lemma SortIsUniqueIff(g: seq<ParamDef>, m: seq<ParamDef>)
    requires Proper(g) && IsSorted(g, m)
    ensures (forall r :: IsSorted(g, r) ==> r == m) <==> TiesAgree(g)
  {
    SameElements(g, m);
    if TiesAgree(g) {
      AgreeingTiesAreEqual(m);
      forall r | IsSorted(g, r) ensures r == m {
        OrderedIsUnique(m, r, ParamLess);
      }
    } else {
      var r := SecondOrder(m);
      assert IsSorted(g, r);
    }
  }

  lemma ProperMerge(base: seq<ParamDef>, extra: seq<ParamDef>)
    requires Proper(base) && Proper(extra)
    ensures Proper(Gather(base, extra)) && IsSorted(Gather(base, extra), Merge(base, extra))
    ensures forall r :: IsMerge(base, extra, r) <==> IsSorted(Gather(base, extra), r)
  {
    GatherProper(base, extra);
    ProperComparison(Gather(base, extra));
    MergeIsMerge(base, extra);
  }

  ghost predicate HasOneResult(base: seq<ParamDef>, extra: seq<ParamDef>) {
    forall r :: IsMerge(base, extra, r) ==> r == Merge(base, extra)
  }

  // No key ends up with two different definitions.
  ghost predicate KeysAreSettled(base: seq<ParamDef>, extra: seq<ParamDef>) {
    forall k :: AllEqual(OverrideLast(Occurrences(k, base), Occur(k, extra)))
  }

  lemma OneResultIff(base: seq<ParamDef>, extra: seq<ParamDef>)
    requires Proper(base) && Proper(extra)
    ensures HasOneResult(base, extra) <==> TiesAgree(Gather(base, extra))
  {
    ProperMerge(base, extra);
    SortIsUniqueIff(Gather(base, extra), Merge(base, extra));
  }

  lemma SettledMerge(base: seq<ParamDef>, extra: seq<ParamDef>)
    requires Plain(base) && Plain(extra) && TiesAgree(Gather(base, extra))
    ensures KeysAreSettled(base, extra)
  {
    forall k ensures AllEqual(OverrideLast(Occurrences(k, base), Occur(k, extra))) {
      GatherOccurrences(k, base, extra);
      AgreeingAreEqual(Gather(base, extra), k);
    }
  }

  lemma MergeAgrees(base: seq<ParamDef>, extra: seq<ParamDef>)
    requires Plain(base) && Plain(extra) && KeysAreSettled(base, extra)
    ensures TiesAgree(Gather(base, extra))
  {
    var g := Gather(base, extra);
    forall p, q | p in g && q in g && ParamKey(p) == ParamKey(q) ensures p == q {
      GatherOccurrences(ParamKey(p), base, extra);
      EqualAgree(g, p, q);
    }
  }

  /**
   On path and query parameters, sorting leaves a merge only one result exactly when no
   key ends up with two different definitions.
   */
  lemma MergeIsUniqueIff(base: seq<ParamDef>, extra: seq<ParamDef>)
    requires Proper(base) && Proper(extra)
    ensures HasOneResult(base, extra) <==> KeysAreSettled(base, extra)
  {
    OneResultIff(base, extra);
    ProperIsPlain(base);
    ProperIsPlain(extra);
    if TiesAgree(Gather(base, extra)) {
      SettledMerge(base, extra);
    } else if KeysAreSettled(base, extra) {
      MergeAgrees(base, extra);
    }
  }
}
