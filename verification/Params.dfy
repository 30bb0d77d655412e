/** Parameter definitions, and the merge of two lists of them. */
module Params {
  import opened Wrappers
  import opened Strings
  import opened Sorting

  /** An example value; the generator only asks whether there is one. */
  datatype Value = Number(n: int) | Text(s: string)

  /** `location` is the `in` of a parameter; a blank one is read as "query". */
  datatype ParamDef = ParamDef(
    name: string,
    location: string,
    paramType: string,
    format: string,
    description: string,
    example: Option<Value>,
    required: Option<bool>)

  function EffectiveLocation(p: ParamDef): string {
    if p.location == "" then "query" else p.location
  }

  function ParamKey(p: ParamDef): string {
    EffectiveLocation(p) + ":" + p.name
  }

  function Override<T>(base: Option<T>, extra: Option<T>): Option<T> {
    if extra.Some? then extra else base
  }

  function OverrideText(base: string, extra: string): string {
    if extra != "" then extra else base
  }

  function MergeSingleParamDef(base: ParamDef, extra: ParamDef): ParamDef {
    base.(location := OverrideText(base.location, extra.location),
          paramType := OverrideText(base.paramType, extra.paramType),
          format := OverrideText(base.format, extra.format),
          description := OverrideText(base.description, extra.description),
          example := Override(base.example, extra.example),
          required := Override(base.required, extra.required))
  }

  /** Path parameters come first; within one location, names decide. */
  predicate ParamLess(p: ParamDef, q: ParamDef) {
    if p.location != q.location then p.location == "path" else LexLess(p.name, q.name)
  }

  // ----- Keys -----

  predicate UniqueKeys(ps: seq<ParamDef>) {
    forall i, j :: 0 <= i < j < |ps| ==> ParamKey(ps[i]) != ParamKey(ps[j])
  }

  // No location holds a colon, so that a key tells location and name apart.
  predicate Plain(ps: seq<ParamDef>) {
    forall p :: p in ps ==> ':' !in p.location
  }

  // Every parameter is a path or a query parameter and says so.
  predicate Proper(ps: seq<ParamDef>) {
    forall p :: p in ps ==> p.location == "path" || p.location == "query"
  }

  lemma ProperIsPlain(ps: seq<ParamDef>)
    requires Proper(ps)
    ensures Plain(ps)
  {
  }

  /** A key is the location, a colon and the name; a blank location is read as "query". */
  lemma KeyIs(p: ParamDef)
    ensures p.location != "" ==> ParamKey(p) == p.location + ":" + p.name
    ensures ParamKey(p.(location := "")) == ParamKey(p.(location := "query")) == "query:" + p.name
  {
  }

  lemma KeyTellsApart(p: ParamDef, q: ParamDef)
    requires ':' !in p.location && ':' !in q.location
    ensures ParamKey(p) == ParamKey(q) <==> EffectiveLocation(p) == EffectiveLocation(q) && p.name == q.name
  {
    if ParamKey(p) == ParamKey(q) {
      CutIsUnique(EffectiveLocation(p), p.name, EffectiveLocation(q), q.name, ':');
    }
  }

  /**
   Overriding a parameter by one with the same key keeps the key exactly when the
   override leaves the location blank or both mean the same location.
   */
  lemma KeyIsStableIff(base: ParamDef, extra: ParamDef)
    requires ParamKey(base) == ParamKey(extra)
    ensures ParamKey(MergeSingleParamDef(base, extra)) == ParamKey(base) <==>
            extra.location == "" || EffectiveLocation(base) == EffectiveLocation(extra)
  {
    var m := MergeSingleParamDef(base, extra);
    if extra.location != "" && ParamKey(m) == ParamKey(base) {
      var l, k := EffectiveLocation(base), EffectiveLocation(extra);
      assert |l| == |k|;
      assert l == ParamKey(base)[..|l|] && k == ParamKey(m)[..|k|];
    }
  }

  // Two locations with a colon in one of them can share a key and lose it when merged.
  lemma ColonLocationLosesKey()
    ensures var p := ParamDef("c", "a:b", "", "", "", None, None);
            var q := ParamDef("b:c", "a", "", "", "", None, None);
            ParamKey(p) == ParamKey(q) && ParamKey(MergeSingleParamDef(p, q)) != ParamKey(p)
  {
    var p := ParamDef("c", "a:b", "", "", "", None, None);
    var q := ParamDef("b:c", "a", "", "", "", None, None);
    assert ParamKey(p) == "a:b:c" && ParamKey(q) == "a:b:c";
    assert ParamKey(MergeSingleParamDef(p, q)) == "a:c";
  }

  // ----- The comparison -----

  // Two non-path parameters share a location under different names, and a third
  // non-path parameter has another location.
  ghost predicate TwoTiedLocations(ps: seq<ParamDef>) {
    exists p, q, r :: p in ps && q in ps && r in ps
      && p.location != "path" && r.location != "path"
      && p.location == q.location && p.location != r.location && LexLess(p.name, q.name)
  }

  /** The comparison is one that sorting may rely on exactly when no such three occur. */
  lemma ComparisonIsWeakOrderIff(ps: seq<ParamDef>)
    ensures WeakOrder(ps, ParamLess) <==> !TwoTiedLocations(ps)
  {
    if TwoTiedLocations(ps) {
      var p, q, r :| p in ps && q in ps && r in ps
        && p.location != "path" && r.location != "path"
        && p.location == q.location && p.location != r.location && LexLess(p.name, q.name);
      assert ParamLess(p, q) && !ParamLess(p, r) && !ParamLess(r, q);
    } else {
      forall p, q | p in ps && q in ps && ParamLess(p, q) ensures !ParamLess(q, p) {
        LexTotal(p.name, q.name);
      }
      forall p, q, r | p in ps && q in ps && r in ps && ParamLess(p, r)
        ensures ParamLess(p, q) || ParamLess(q, r)
      {
        LexTotal(p.name, q.name);
        LexTotal(q.name, r.name);
        if LexLess(q.name, p.name) && LexLess(r.name, q.name) { LexTransitive(r.name, q.name, p.name); }
        LexTotal(p.name, r.name);
        assert p.location == r.location && p.location != "path" && q.location != p.location ==> q.location == "path";
      }
    }
  }

  lemma ProperComparison(ps: seq<ParamDef>)
    requires Proper(ps)
    ensures WeakOrder(ps, ParamLess)
  {
    ComparisonIsWeakOrderIff(ps);
  }

  // A blank location next to "query" is enough to break the comparison.
  lemma BlankLocationBreaksComparison()
    ensures var a := ParamDef("a", "query", "", "", "", None, None);
            !WeakOrder([a.(name := "b"), a.(location := ""), a], ParamLess)
  {
    var a := ParamDef("a", "query", "", "", "", None, None);
    var ps := [a.(name := "b"), a.(location := ""), a];
    ComparisonIsWeakOrderIff(ps);
    assert ps[0] in ps && ps[1] in ps && ps[2] in ps;
    assert LexLess(ps[2].name, ps[0].name);
  }

  // ----- The merge loop -----

  /** A merged entry with the key it was first filed under. */
  datatype Slot = Slot(key: string, def: ParamDef)

  function SlotsOf(base: seq<ParamDef>): seq<Slot> {
    seq(|base|, i requires 0 <= i < |base| => Slot(ParamKey(base[i]), base[i]))
  }

  function Defs(slots: seq<Slot>): seq<ParamDef> {
    seq(|slots|, i requires 0 <= i < |slots| => slots[i].def)
  }

  // Index of the last slot with the key, or -1.
  function LastSlot(slots: seq<Slot>, key: string): (i: int)
    ensures -1 <= i < |slots|
    ensures 0 <= i ==> slots[i].key == key
    ensures forall j :: i < j < |slots| ==> slots[j].key != key
  {
    if slots == [] then -1
    else if slots[|slots| - 1].key == key then |slots| - 1
    else LastSlot(slots[..|slots| - 1], key)
  }

  function Absorb(slots: seq<Slot>, p: ParamDef): (r: seq<Slot>)
    ensures |slots| <= |r|
    ensures forall i :: 0 <= i < |slots| ==> r[i].key == slots[i].key
  {
    var i := LastSlot(slots, ParamKey(p));
    if i < 0 then slots + [Slot(ParamKey(p), p)]
    else slots[i := Slot(ParamKey(p), MergeSingleParamDef(slots[i].def, p))]
  }

  function AbsorbAll(slots: seq<Slot>, ps: seq<ParamDef>): seq<Slot> {
    if ps == [] then slots else Absorb(AbsorbAll(slots, ps[..|ps| - 1]), ps[|ps| - 1])
  }

  /** The merged definitions before they are sorted. */
  function Gather(base: seq<ParamDef>, extra: seq<ParamDef>): seq<ParamDef> {
    Defs(AbsorbAll(SlotsOf(base), extra))
  }

  /** What a call of `mergeParamDefs` may return. */
  ghost predicate IsMerge(base: seq<ParamDef>, extra: seq<ParamDef>, r: seq<ParamDef>) {
    && multiset(r) == multiset(Gather(base, extra))
    && (Ordered(r, ParamLess) || !WeakOrder(Gather(base, extra), ParamLess))
  }

  // The index map of the loop: where each key was last filed.
  ghost predicate Indexes(index: map<string, nat>, slots: seq<Slot>) {
    forall k :: (k in index <==> LastSlot(slots, k) >= 0) && (k in index ==> index[k] == LastSlot(slots, k))
  }

  method MergeParamDefs(base: seq<ParamDef>, extra: seq<ParamDef>) returns (merged: seq<ParamDef>)
    ensures IsMerge(base, extra, merged)
  {
    var index: map<string, nat> := map[];
    merged := [];
    for i := 0 to |base|
      invariant merged == base[..i]
      invariant Indexes(index, SlotsOf(base[..i]))
    {
      assert SlotsOf(base[..i + 1]) == SlotsOf(base[..i]) + [Slot(ParamKey(base[i]), base[i])];
      FileLast(index, SlotsOf(base[..i]), Slot(ParamKey(base[i]), base[i]));
      index := index[ParamKey(base[i]) := |merged|];
      merged := merged + [base[i]];
    }
    ghost var slots := SlotsOf(base);
    assert base[..|base|] == base;
    for i := 0 to |extra|
      invariant slots == AbsorbAll(SlotsOf(base), extra[..i])
      invariant merged == Defs(slots)
      invariant Indexes(index, slots)
    {
      var p := extra[i];
      var key := ParamKey(p);
      AbsorbNext(SlotsOf(base), extra, i);
      DefsOfAbsorb(slots, p);
      if key in index {
        AbsorbSlots(slots, p);
        merged := merged[index[key] := MergeSingleParamDef(merged[index[key]], p)];
      } else {
        FileLast(index, slots, Slot(key, p));
        index := index[key := |merged|];
        merged := merged + [p];
      }
      slots := Absorb(slots, p);
    }
    assert extra[..|extra|] == extra;
    merged := SortSlice(merged, ParamLess);
  }

  lemma FileLast(index: map<string, nat>, slots: seq<Slot>, s: Slot)
    requires Indexes(index, slots)
    ensures Indexes(index[s.key := |slots|], slots + [s])
  {
    assert (slots + [s])[..|slots|] == slots;
  }

  lemma AbsorbNext(slots: seq<Slot>, ps: seq<ParamDef>, i: nat)
    requires i < |ps|
    ensures AbsorbAll(slots, ps[..i + 1]) == Absorb(AbsorbAll(slots, ps[..i]), ps[i])
  {
    assert ps[..i + 1][..i] == ps[..i];
  }

  lemma DefsOfAbsorb(slots: seq<Slot>, p: ParamDef)
    ensures var i := LastSlot(slots, ParamKey(p));
            Defs(Absorb(slots, p)) ==
            if i < 0 then Defs(slots) + [p] else Defs(slots)[i := MergeSingleParamDef(slots[i].def, p)]
  {
  }

  // Absorbing a known key moves no slot.
  lemma AbsorbSlots(slots: seq<Slot>, p: ParamDef)
    requires LastSlot(slots, ParamKey(p)) >= 0
    ensures forall k :: LastSlot(Absorb(slots, p), k) == LastSlot(slots, k)
  {
    forall k ensures LastSlot(Absorb(slots, p), k) == LastSlot(slots, k) {
      SameKeysSameSlot(slots, Absorb(slots, p), k);
    }
  }

  lemma {:induction false} SameKeysSameSlot(s: seq<Slot>, t: seq<Slot>, k: string)
    requires |s| == |t| && forall i :: 0 <= i < |s| ==> s[i].key == t[i].key
    ensures LastSlot(s, k) == LastSlot(t, k)
  {
    if s != [] {
      SameKeysSameSlot(s[..|s| - 1], t[..|t| - 1], k);
    }
  }
}
