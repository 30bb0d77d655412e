/**
 The content of what `mergeParamDefs` returns: for each key, a merge folds the overriding
 of single definitions over its occurrences in order.
 */
module MergeAlgebra {
  import opened Wrappers
  import opened Strings
  import opened Sorting
  import opened Params

  // ----- The definitions filed under one key -----

  function Combine(p: Option<ParamDef>, q: Option<ParamDef>): Option<ParamDef> {
    if p.None? then q else if q.None? then p else Some(MergeSingleParamDef(p.value, q.value))
  }

  lemma CombineIsIdempotentMonoid(p: Option<ParamDef>, q: Option<ParamDef>, r: Option<ParamDef>)
    ensures Combine(Combine(p, q), r) == Combine(p, Combine(q, r))
    ensures Combine(p, p) == p && Combine(p, None) == p && Combine(None, p) == p
  {
  }

  function IfKey(k: string, p: ParamDef): Option<ParamDef> {
    if ParamKey(p) == k then Some(p) else None
  }

  /** The occurrences of a key in a list, combined in order. */
  function Occur(k: string, ps: seq<ParamDef>): Option<ParamDef> {
    if ps == [] then None else Combine(Occur(k, ps[..|ps| - 1]), IfKey(k, ps[|ps| - 1]))
  }

  lemma {:induction false} OccurConcat(k: string, a: seq<ParamDef>, b: seq<ParamDef>)
    ensures Occur(k, a + b) == Combine(Occur(k, a), Occur(k, b))
  {
    if b == [] {
      assert a + b == a;
    } else {
      var front, last := b[..|b| - 1], b[|b| - 1];
      OccurConcat(k, a, front);
      assert (a + b)[..|a + b| - 1] == a + front;
      CombineIsIdempotentMonoid(Occur(k, a), Occur(k, front), IfKey(k, last));
    }
  }

  function Occurrences(k: string, ps: seq<ParamDef>): seq<ParamDef> {
    if ps == [] then []
    else Occurrences(k, ps[..|ps| - 1]) + (if ParamKey(ps[|ps| - 1]) == k then [ps[|ps| - 1]] else [])
  }

  function LocationField(p: ParamDef): string { p.location }
  function TypeField(p: ParamDef): string { p.paramType }
  function FormatField(p: ParamDef): string { p.format }
  function DescriptionField(p: ParamDef): string { p.description }
  function ExampleField(p: ParamDef): Option<Value> { p.example }
  function RequiredField(p: ParamDef): Option<bool> { p.required }

  function LastText(ps: seq<ParamDef>, f: ParamDef -> string): string {
    if ps == [] then ""
    else if f(ps[|ps| - 1]) != "" then f(ps[|ps| - 1]) else LastText(ps[..|ps| - 1], f)
  }

  function LastSome<T>(ps: seq<ParamDef>, f: ParamDef -> Option<T>): Option<T> {
    if ps == [] then None
    else if f(ps[|ps| - 1]).Some? then f(ps[|ps| - 1]) else LastSome(ps[..|ps| - 1], f)
  }

  lemma {:induction false} LastTextConcat(a: seq<ParamDef>, b: seq<ParamDef>, f: ParamDef -> string)
    ensures LastText(a + b, f) == OverrideText(LastText(a, f), LastText(b, f))
  {
    if b == [] {
      assert a + b == a;
    } else {
      LastTextConcat(a, b[..|b| - 1], f);
      assert (a + b)[..|a + b| - 1] == a + b[..|b| - 1];
    }
  }

  lemma {:induction false} LastSomeConcat<T>(a: seq<ParamDef>, b: seq<ParamDef>, f: ParamDef -> Option<T>)
    ensures LastSome(a + b, f) == Override(LastSome(a, f), LastSome(b, f))
  {
    if b == [] {
      assert a + b == a;
    } else {
      LastSomeConcat(a, b[..|b| - 1], f);
      assert (a + b)[..|a + b| - 1] == a + b[..|b| - 1];
    }
  }

  /** The name comes from the first occurrence of a key, every other field from the last one that sets it. */
  lemma {:induction false} LastSettingWins(k: string, ps: seq<ParamDef>)
    ensures var os := Occurrences(k, ps);
            var o := Occur(k, ps);
            && (o.Some? <==> os != [])
            && (o.Some? ==>
                 && o.value.name == os[0].name
                 && o.value.location == LastText(os, LocationField)
                 && o.value.paramType == LastText(os, TypeField)
                 && o.value.format == LastText(os, FormatField)
                 && o.value.description == LastText(os, DescriptionField)
                 && o.value.example == LastSome(os, ExampleField)
                 && o.value.required == LastSome(os, RequiredField))
  {
    if ps != [] {
      var front, last := ps[..|ps| - 1], ps[|ps| - 1];
      LastSettingWins(k, front);
      var os := Occurrences(k, front);
      if ParamKey(last) == k {
        assert Occurrences(k, ps) == os + [last];
        assert (os + [last])[..|os|] == os;
      } else {
        assert Occurrences(k, ps) == os;
      }
    }
  }

  predicate HasKey(ps: seq<ParamDef>, k: string) {
    exists i :: 0 <= i < |ps| && ParamKey(ps[i]) == k
  }

  lemma {:induction false} OccurIffHasKey(k: string, ps: seq<ParamDef>)
    ensures Occur(k, ps).Some? <==> HasKey(ps, k)
  {
    if ps != [] {
      OccurIffHasKey(k, ps[..|ps| - 1]);
      assert ps == ps[..|ps| - 1] + [ps[|ps| - 1]];
    }
  }

  // In a list with unique keys, the only occurrence of a key is what is filed under it.
  lemma {:induction false} OccurOfUnique(k: string, ps: seq<ParamDef>)
    requires UniqueKeys(ps)
    ensures forall i :: 0 <= i < |ps| && ParamKey(ps[i]) == k ==> Occur(k, ps) == Some(ps[i])
  {
    if ps != [] {
      OccurOfUnique(k, ps[..|ps| - 1]);
      OccurIffHasKey(k, ps[..|ps| - 1]);
    }
  }

  lemma InUnique(ps: seq<ParamDef>, p: ParamDef)
    requires UniqueKeys(ps)
    ensures p in ps <==> Occur(ParamKey(p), ps) == Some(p)
  {
    OccurIn(ParamKey(p), ps);
    OccurOfUnique(ParamKey(p), ps);
  }

  lemma OccurIn(k: string, ps: seq<ParamDef>)
    requires UniqueKeys(ps)
    ensures Occur(k, ps).Some? ==> Occur(k, ps).value in ps && ParamKey(Occur(k, ps).value) == k
  {
    OccurIffHasKey(k, ps);
    OccurOfUnique(k, ps);
  }

  ghost predicate SameContent(a: seq<ParamDef>, b: seq<ParamDef>) {
    forall k :: Occur(k, a) == Occur(k, b)
  }

  lemma PermutationKeepsContent(a: seq<ParamDef>, b: seq<ParamDef>)
    requires multiset(a) == multiset(b) && UniqueKeys(a)
    ensures UniqueKeys(b) && SameContent(a, b)
  {
    PermutationDistinct(a, b);
    SameElements(a, b);
    forall i, j | 0 <= i < j < |b| ensures ParamKey(b[i]) != ParamKey(b[j]) {
      assert b[i] in b && b[j] in b;
      var m :| 0 <= m < |a| && a[m] == b[i];
      var n :| 0 <= n < |a| && a[n] == b[j];
    }
    forall k ensures Occur(k, a) == Occur(k, b) {
      OccurOfUnique(k, a);
      OccurOfUnique(k, b);
      OccurIffHasKey(k, a);
      OccurIffHasKey(k, b);
      if HasKey(a, k) {
        var m :| 0 <= m < |a| && ParamKey(a[m]) == k;
        assert a[m] in a;
        var n :| 0 <= n < |b| && b[n] == a[m];
      }
      SameKeys(b, a, k);
    }
  }

  // ----- What the merge loop gathers -----

  function SlotAt(k: string, slots: seq<Slot>): Option<ParamDef> {
    var i := LastSlot(slots, k);
    if i < 0 then None else Some(slots[i].def)
  }

  lemma AbsorbAt(k: string, slots: seq<Slot>, p: ParamDef)
    ensures SlotAt(k, Absorb(slots, p)) == Combine(SlotAt(k, slots), IfKey(k, p))
  {
    if LastSlot(slots, ParamKey(p)) >= 0 {
      AbsorbSlots(slots, p);
    } else {
      assert Absorb(slots, p)[..|slots|] == slots;
    }
  }

  lemma {:induction false} AbsorbAllAt(k: string, slots: seq<Slot>, ps: seq<ParamDef>)
    ensures SlotAt(k, AbsorbAll(slots, ps)) == Combine(SlotAt(k, slots), Occur(k, ps))
  {
    if ps != [] {
      var front, last := ps[..|ps| - 1], ps[|ps| - 1];
      AbsorbAllAt(k, slots, front);
      AbsorbAt(k, AbsorbAll(slots, front), last);
      CombineIsIdempotentMonoid(SlotAt(k, slots), Occur(k, front), IfKey(k, last));
    }
  }

  // Slots whose definitions still have the key they were filed under.
  ghost predicate Filed(slots: seq<Slot>) {
    forall i :: 0 <= i < |slots| ==> ':' !in slots[i].def.location && ParamKey(slots[i].def) == slots[i].key
  }

  ghost predicate UniqueSlots(slots: seq<Slot>) {
    forall i, j :: 0 <= i < j < |slots| ==> slots[i].key != slots[j].key
  }

  lemma AbsorbFiled(slots: seq<Slot>, p: ParamDef)
    requires Filed(slots) && ':' !in p.location
    ensures Filed(Absorb(slots, p))
    ensures UniqueSlots(slots) ==> UniqueSlots(Absorb(slots, p))
  {
    var i := LastSlot(slots, ParamKey(p));
    if i >= 0 {
      KeyTellsApart(slots[i].def, p);
      KeyIsStableIff(slots[i].def, p);
    }
  }

  lemma {:induction false} AbsorbAllFiled(slots: seq<Slot>, ps: seq<ParamDef>)
    requires Filed(slots) && Plain(ps)
    ensures Filed(AbsorbAll(slots, ps))
    ensures UniqueSlots(slots) ==> UniqueSlots(AbsorbAll(slots, ps))
  {
    if ps != [] {
      var front, last := ps[..|ps| - 1], ps[|ps| - 1];
      assert last in ps && forall p :: p in front ==> p in ps;
      AbsorbAllFiled(slots, front);
      AbsorbFiled(AbsorbAll(slots, front), last);
    }
  }

  lemma SlotKeyIsOwnKey(k: string, slots: seq<Slot>)
    requires Filed(slots)
    ensures HasKey(Defs(slots), k) <==> LastSlot(slots, k) >= 0
  {
    var i := LastSlot(slots, k);
    if i >= 0 {
      assert ParamKey(Defs(slots)[i]) == k;
    }
    if HasKey(Defs(slots), k) {
      var j :| 0 <= j < |slots| && ParamKey(Defs(slots)[j]) == k;
      assert slots[j].key == k;
    }
  }

  /** No parameter is lost or invented: the keys gathered are those of both lists. */
  lemma GatherKeys(base: seq<ParamDef>, extra: seq<ParamDef>)
    requires Plain(base) && Plain(extra)
    ensures Plain(Gather(base, extra))
    ensures forall k :: HasKey(Gather(base, extra), k) <==> HasKey(base, k) || HasKey(extra, k)
  {
    var slots := SlotsOf(base);
    assert Filed(slots) by {
      assert forall i :: 0 <= i < |base| ==> base[i] in base;
    }
    AbsorbAllFiled(slots, extra);
    assert Defs(slots) == base;
    forall k ensures HasKey(Gather(base, extra), k) <==> HasKey(base, k) || HasKey(extra, k) {
      SlotKeyIsOwnKey(k, AbsorbAll(slots, extra));
      SlotKeyIsOwnKey(k, slots);
      AbsorbAllAt(k, slots, extra);
      OccurIffHasKey(k, extra);
    }
  }

  /** Over a base with unique keys, each key ends up with its occurrences folded in order. */
  lemma GatherContent(base: seq<ParamDef>, extra: seq<ParamDef>)
    requires UniqueKeys(base) && Plain(base) && Plain(extra)
    ensures UniqueKeys(Gather(base, extra))
    ensures forall k :: Occur(k, Gather(base, extra)) == Combine(Occur(k, base), Occur(k, extra))
  {
    var slots := SlotsOf(base);
    var all := AbsorbAll(slots, extra);
    assert Filed(slots) by {
      assert forall i :: 0 <= i < |base| ==> base[i] in base;
    }
    AbsorbAllFiled(slots, extra);
    assert Defs(slots) == base;
    forall k ensures Occur(k, Gather(base, extra)) == Combine(Occur(k, base), Occur(k, extra)) {
      AbsorbAllAt(k, slots, extra);
      SlotsOfUnique(k, slots);
      SlotsOfUnique(k, all);
    }
  }

  lemma {:induction false} AbsorbAllKeepsKeys(slots: seq<Slot>, ps: seq<ParamDef>)
    ensures |slots| <= |AbsorbAll(slots, ps)|
    ensures forall i :: 0 <= i < |slots| ==> AbsorbAll(slots, ps)[i].key == slots[i].key
  {
    if ps != [] {
      AbsorbAllKeepsKeys(slots, ps[..|ps| - 1]);
    }
  }

  /** Duplicates in the extra list are folded, duplicates in the base are kept: only the base decides. */
  lemma UniqueIffBaseUnique(base: seq<ParamDef>, extra: seq<ParamDef>, r: seq<ParamDef>)
    requires Plain(base) && Plain(extra) && IsMerge(base, extra, r)
    ensures UniqueKeys(r) <==> UniqueKeys(base)
  {
    if UniqueKeys(base) {
      MergeContent(base, extra, r);
    }
    if UniqueKeys(r) {
      PermutationKeepsContent(r, Gather(base, extra));
      var slots, all := SlotsOf(base), AbsorbAll(SlotsOf(base), extra);
      assert Filed(slots) by {
        assert forall i :: 0 <= i < |base| ==> base[i] in base;
      }
      AbsorbAllFiled(slots, extra);
      AbsorbAllKeepsKeys(slots, extra);
      forall i, j | 0 <= i < j < |base| ensures ParamKey(base[i]) != ParamKey(base[j]) {
        assert ParamKey(Defs(all)[i]) == slots[i].key && ParamKey(Defs(all)[j]) == slots[j].key;
      }
    }
  }

  lemma SlotsOfUnique(k: string, slots: seq<Slot>)
    requires Filed(slots) && UniqueSlots(slots)
    ensures Occur(k, Defs(slots)) == SlotAt(k, slots)
  {
    var ps := Defs(slots);
    OccurOfUnique(k, ps);
    OccurIffHasKey(k, ps);
    SlotKeyIsOwnKey(k, slots);
    var i := LastSlot(slots, k);
    assert i >= 0 ==> ParamKey(ps[i]) == k;
  }

  /** The content of a merge, whatever the sort does with ties. */
  lemma {:induction false} MergeContent(base: seq<ParamDef>, extra: seq<ParamDef>, r: seq<ParamDef>)
    requires UniqueKeys(base) && Plain(base) && Plain(extra) && IsMerge(base, extra, r)
    ensures UniqueKeys(r) && Plain(r)
    ensures forall k :: Occur(k, r) == Combine(Occur(k, base), Occur(k, extra))
  {
    GatherContent(base, extra);
    GatherKeys(base, extra);
    PermutationKeepsContent(Gather(base, extra), r);
    SameElements(Gather(base, extra), r);
  }

  lemma MergeKeys(base: seq<ParamDef>, extra: seq<ParamDef>, r: seq<ParamDef>)
    requires Plain(base) && Plain(extra) && IsMerge(base, extra, r)
    ensures Plain(r) && forall k :: HasKey(r, k) <==> HasKey(base, k) || HasKey(extra, k)
  {
    var g := Gather(base, extra);
    GatherKeys(base, extra);
    SameElements(g, r);
    forall k ensures HasKey(r, k) <==> HasKey(g, k) {
      SameKeys(g, r, k);
      SameKeys(r, g, k);
    }
  }

  lemma SameKeys(a: seq<ParamDef>, b: seq<ParamDef>, k: string)
    requires forall p :: p in a ==> p in b
    ensures HasKey(a, k) ==> HasKey(b, k)
  {
    if HasKey(a, k) {
      var i :| 0 <= i < |a| && ParamKey(a[i]) == k;
      assert a[i] in a;
    }
  }
}
