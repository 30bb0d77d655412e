/** What the headers that announce one endpoint add up to. */
module Accumulation {
  import opened Wrappers
  import opened Params
  import opened MergeAlgebra
  import opened MergeLaws
  import opened MergeRepeats
  import opened Parameters
  import opened Handlers
  import opened HandlerFiles
  import opened EndpointParams

  /** One method of one header, under the key of its endpoint. */
  datatype Contribution = Contribution(key: string, verb: string, header: Header)

  function FirstOf(k: string, cs: seq<Contribution>): Option<Contribution> {
    if cs == [] then None
    else
      var before := FirstOf(k, cs[..|cs| - 1]);
      if before.Some? then before else if cs[|cs| - 1].key == k then Some(cs[|cs| - 1]) else None
  }

  /** The first summary that is not blank. */
  function SummaryOf(k: string, cs: seq<Contribution>): string {
    if cs == [] then ""
    else
      var before := SummaryOf(k, cs[..|cs| - 1]);
      if before != "" then before
      else if cs[|cs| - 1].key == k then cs[|cs| - 1].header.said.summary else ""
  }

  /** What the contributions to an endpoint may be merged into, one after the other. */
  ghost predicate Accumulates(tables: Tables, cls: Classifiers, place: Place, k: string, cs: seq<Contribution>,
                              r: seq<ParamDef>)
  {
    if cs == [] then false
    else
      var front, last := cs[..|cs| - 1], cs[|cs| - 1];
      if last.key != k then Accumulates(tables, cls, place, k, front, r)
      else if FirstOf(k, front).None? then Tells(tables, cls, place, last.header, r)
      else exists before, more ::
        && Accumulates(tables, cls, place, k, front, before)
        && Tells(tables, cls, place, last.header, more)
        && IsMerge(before, more, r)
  }

  /** What the contributions to an endpoint tell of one parameter, later ones overriding earlier ones. */
  function ToldBy(tables: Tables, cls: Classifiers, place: Place, k: string, cs: seq<Contribution>, q: string)
    : Option<ParamDef>
  {
    if cs == [] then None
    else
      var front, last := cs[..|cs| - 1], cs[|cs| - 1];
      Combine(ToldBy(tables, cls, place, k, front, q),
              if last.key == k then ToldDef(tables, cls, place, last.header, q) else None)
  }

  lemma {:induction false} NotContributed(k: string, cs: seq<Contribution>)
    ensures FirstOf(k, cs).None? <==> forall c :: c in cs ==> c.key != k
    ensures FirstOf(k, cs).None? ==> SummaryOf(k, cs) == ""
    ensures FirstOf(k, cs).Some? ==> FirstOf(k, cs).value in cs && FirstOf(k, cs).value.key == k
  {
    if cs != [] {
      var front, last := cs[..|cs| - 1], cs[|cs| - 1];
      NotContributed(k, front);
      assert cs == front + [last];
    }
  }

  /** The first contribution of a key comes before all others of it. */
  lemma {:induction false} FirstOfIs(k: string, cs: seq<Contribution>, i: nat)
    requires i < |cs| && cs[i].key == k && forall j :: 0 <= j < i ==> cs[j].key != k
    ensures FirstOf(k, cs) == Some(cs[i])
  {
    if i < |cs| - 1 {
      FirstOfIs(k, cs[..|cs| - 1], i);
    } else {
      NotContributed(k, cs[..i]);
    }
  }

  /** The summary is that of the first contribution of the key that has one. */
  lemma {:induction false} SummaryIs(k: string, cs: seq<Contribution>, i: nat)
    requires i < |cs| && cs[i].key == k && cs[i].header.said.summary != ""
    requires forall j :: 0 <= j < i && cs[j].key == k ==> cs[j].header.said.summary == ""
    ensures SummaryOf(k, cs) == cs[i].header.said.summary
  {
    if i < |cs| - 1 {
      SummaryIs(k, cs[..|cs| - 1], i);
    } else {
      NoSummary(k, cs[..i]);
    }
  }

  lemma {:induction false} NoSummary(k: string, cs: seq<Contribution>)
    requires forall j :: 0 <= j < |cs| && cs[j].key == k ==> cs[j].header.said.summary == ""
    ensures SummaryOf(k, cs) == ""
  {
    if cs != [] {
      NoSummary(k, cs[..|cs| - 1]);
    }
  }

  /** All definitions of a parameter that the contributions tell of, in order. */
  function Told(tables: Tables, cls: Classifiers, place: Place, k: string, cs: seq<Contribution>, q: string)
    : seq<ParamDef>
  {
    if cs == [] then []
    else
      var last := cs[|cs| - 1];
      Told(tables, cls, place, k, cs[..|cs| - 1], q)
      + (if last.key == k
         then Occurrences(q, SaidIn(place, last.header)) + Listed(FoundDef(tables, cls, place, last.header, q)) else [])
  }

  /** What they tell of it together: of all these definitions the last that sets a field gives the field. */
  lemma {:induction false} ToldByIs(
    tables: Tables, cls: Classifiers, place: Place, k: string, cs: seq<Contribution>, q: string)
    ensures ToldBy(tables, cls, place, k, cs, q) == Folded(Told(tables, cls, place, k, cs, q))
  {
    if cs != [] {
      var front, last := cs[..|cs| - 1], cs[|cs| - 1];
      ToldByIs(tables, cls, place, k, front, q);
      if last.key == k {
        var said, found := Occurrences(q, SaidIn(place, last.header)),
                           Listed(FoundDef(tables, cls, place, last.header, q));
        FoldedOccurrences(q, SaidIn(place, last.header));
        FoldedConcat(said, found);
        FoldedConcat(Told(tables, cls, place, k, front, q), said + found);
        FoldedOne(FoundDef(tables, cls, place, last.header, q));
      } else {
        assert Told(tables, cls, place, k, front, q) + [] == Told(tables, cls, place, k, front, q);
      }
    }
  }

  lemma {:induction false} NothingTold(tables: Tables, cls: Classifiers, place: Place, k: string, cs: seq<Contribution>,
                                       q: string)
    requires FirstOf(k, cs).None?
    ensures ToldBy(tables, cls, place, k, cs, q) == None
  {
    if cs != [] {
      NothingTold(tables, cls, place, k, cs[..|cs| - 1], q);
    }
  }

  predicate AreSound(tables: Tables, cs: seq<Contribution>) {
    forall c :: c in cs ==> IsSoundHeader(tables, c.header)
  }

  // No comments on this endpoint repeat the parameter with this key.
  predicate RepeatsNot(place: Place, k: string, cs: seq<Contribution>, q: string) {
    forall c :: c in cs && c.key == k ==> |Occurrences(q, SaidIn(place, c.header))| <= 1
  }

  // No comments on this endpoint repeat any parameter.
  predicate RepeatNothing(place: Place, k: string, cs: seq<Contribution>) {
    forall c :: c in cs && c.key == k ==> UniqueKeys(SaidIn(place, c.header))
  }

  lemma OfFront(tables: Tables, cs: seq<Contribution>)
    requires cs != [] && AreSound(tables, cs)
    ensures AreSound(tables, cs[..|cs| - 1]) && IsSoundHeader(tables, cs[|cs| - 1].header)
    ensures forall c :: c in cs[..|cs| - 1] ==> c in cs
  {
    assert cs[|cs| - 1] in cs;
  }

  lemma LastMerge(
    tables: Tables, cls: Classifiers, place: Place, k: string, cs: seq<Contribution>, r: seq<ParamDef>)
    returns (before: seq<ParamDef>, more: seq<ParamDef>)
    requires Accumulates(tables, cls, place, k, cs, r)
    requires cs[|cs| - 1].key == k && FirstOf(k, cs[..|cs| - 1]).Some?
    ensures Accumulates(tables, cls, place, k, cs[..|cs| - 1], before)
    ensures Tells(tables, cls, place, cs[|cs| - 1].header, more) && IsMerge(before, more, r)
  {
    before, more :| Accumulates(tables, cls, place, k, cs[..|cs| - 1], before)
      && Tells(tables, cls, place, cs[|cs| - 1].header, more) && IsMerge(before, more, r);
  }

  /** The parameters stay in their place, and have unique keys exactly when the first contribution's comments do. */
  lemma {:induction false} AccumulatedParamsArePlaced(
    tables: Tables, cls: Classifiers, place: Place, k: string, cs: seq<Contribution>, r: seq<ParamDef>)
    requires AreSound(tables, cs) && Accumulates(tables, cls, place, k, cs, r)
    ensures FirstOf(k, cs).Some? && LocationsIn(r, {LocationOf(place)})
    ensures UniqueKeys(r) <==> UniqueKeys(SaidIn(place, FirstOf(k, cs).value.header))
  {
    var front, last := cs[..|cs| - 1], cs[|cs| - 1];
    OfFront(tables, cs);
    if last.key != k {
      AccumulatedParamsArePlaced(tables, cls, place, k, front, r);
    } else if FirstOf(k, front).None? {
      ToldParamsArePlaced(tables, cls, place, last.header, r);
    } else {
      var before, more := LastMerge(tables, cls, place, k, cs, r);
      AccumulatedParamsArePlaced(tables, cls, place, k, front, before);
      ToldParamsArePlaced(tables, cls, place, last.header, more);
      MergePlaced(place, before, more, r);
    }
  }

  /** No parameter is lost or invented: those merged are exactly those that some contribution tells of. */
  lemma {:induction false} AccumulatedParamsAreTold(
    tables: Tables, cls: Classifiers, place: Place, k: string, cs: seq<Contribution>, r: seq<ParamDef>, q: string)
    requires AreSound(tables, cs) && Accumulates(tables, cls, place, k, cs, r)
    ensures HasKey(r, q) <==> ToldBy(tables, cls, place, k, cs, q).Some?
  {
    var front, last := cs[..|cs| - 1], cs[|cs| - 1];
    OfFront(tables, cs);
    if last.key != k {
      AccumulatedParamsAreTold(tables, cls, place, k, front, r, q);
    } else if FirstOf(k, front).None? {
      NothingTold(tables, cls, place, k, front, q);
      ToldIffKey(tables, cls, place, last.header, r, q);
    } else {
      var before, more := LastMerge(tables, cls, place, k, cs, r);
      AccumulatedParamsAreTold(tables, cls, place, k, front, before, q);
      AccumulatedParamsArePlaced(tables, cls, place, k, front, before);
      ToldIffKey(tables, cls, place, last.header, more, q);
      ToldParamsArePlaced(tables, cls, place, last.header, more);
      MergedHaveKey(place, before, more, r, q);
    }
  }

  lemma ToldIffKey(tables: Tables, cls: Classifiers, place: Place, h: Header, ps: seq<ParamDef>, q: string)
    requires IsSoundHeader(tables, h) && Tells(tables, cls, place, h, ps)
    ensures HasKey(ps, q) <==> ToldDef(tables, cls, place, h, q).Some?
  {
    ToldParamsHaveKeys(tables, cls, place, h, ps, q);
    ToldIff(tables, cls, place, h, q);
  }

  /** As many definitions as the first contribution's comments have, or one if only other sources tell of it. */
  function DefinitionCount(said: nat, isTold: bool): nat {
    if said > 0 then said else if isTold then 1 else 0
  }

  lemma ToldByMore(tables: Tables, cls: Classifiers, place: Place, k: string, cs: seq<Contribution>, q: string)
    requires cs != [] && cs[|cs| - 1].key == k
    ensures ToldBy(tables, cls, place, k, cs, q).Some? <==>
            ToldBy(tables, cls, place, k, cs[..|cs| - 1], q).Some?
            || ToldDef(tables, cls, place, cs[|cs| - 1].header, q).Some?
  {
  }

  /** Exactly so many definitions of a parameter are left, whatever comments repeat. */
  lemma {:induction false} AccumulatedCount(
    tables: Tables, cls: Classifiers, place: Place, k: string, cs: seq<Contribution>, r: seq<ParamDef>, q: string)
    requires AreSound(tables, cs) && Accumulates(tables, cls, place, k, cs, r) && FirstOf(k, cs).Some?
    ensures |Occurrences(q, r)| == DefinitionCount(|Occurrences(q, SaidIn(place, FirstOf(k, cs).value.header))|,
                                                   ToldBy(tables, cls, place, k, cs, q).Some?)
  {
    var front, last := cs[..|cs| - 1], cs[|cs| - 1];
    OfFront(tables, cs);
    if last.key != k {
      AccumulatedCount(tables, cls, place, k, front, r, q);
    } else if FirstOf(k, front).None? {
      NothingTold(tables, cls, place, k, front, q);
      ToldCountIs(tables, cls, place, last.header, r, q);
    } else {
      var before, more := LastMerge(tables, cls, place, k, cs, r);
      AccumulatedCount(tables, cls, place, k, front, before, q);
      CountAfterMerge(tables, cls, place, k, front, last.header, before, more, r, q);
      ToldByMore(tables, cls, place, k, cs, q);
    }
  }

  lemma {:induction false} CountAfterMerge(
    tables: Tables, cls: Classifiers, place: Place, k: string, cs: seq<Contribution>, h: Header,
    before: seq<ParamDef>, more: seq<ParamDef>, r: seq<ParamDef>, q: string)
    requires AreSound(tables, cs) && Accumulates(tables, cls, place, k, cs, before)
    requires IsSoundHeader(tables, h) && Tells(tables, cls, place, h, more) && IsMerge(before, more, r)
    ensures var n := |Occurrences(q, before)|;
            |Occurrences(q, r)| == if n > 0 then n else if ToldDef(tables, cls, place, h, q).Some? then 1 else 0
  {
    AccumulatedParamsArePlaced(tables, cls, place, k, cs, before);
    ToldParamsArePlaced(tables, cls, place, h, more);
    ToldIffKey(tables, cls, place, h, more, q);
    MergedCount(place, before, more, r, q);
  }

  lemma {:induction false} MergedCount(
    place: Place, before: seq<ParamDef>, more: seq<ParamDef>, r: seq<ParamDef>, q: string)
    requires LocationsIn(before, {LocationOf(place)}) && LocationsIn(more, {LocationOf(place)})
    requires IsMerge(before, more, r)
    ensures var n := |Occurrences(q, before)|;
            |Occurrences(q, r)| == if n > 0 then n else if HasKey(more, q) then 1 else 0
  {
    PlacedIsProper(place, before);
    PlacedIsProper(place, more);
    MergeCount(before, more, r, q);
    OccurIffHasKey(q, more);
  }

  /** A parameter that no comments repeat is what the contributions tell of it, folded in order, and there once. */
  lemma {:induction false} AccumulatedParamIs(
    tables: Tables, cls: Classifiers, place: Place, k: string, cs: seq<Contribution>, r: seq<ParamDef>, q: string)
    requires AreSound(tables, cs) && Accumulates(tables, cls, place, k, cs, r) && RepeatsNot(place, k, cs, q)
    ensures Occurrences(q, r) == Listed(ToldBy(tables, cls, place, k, cs, q))
  {
    var front, last := cs[..|cs| - 1], cs[|cs| - 1];
    OfFront(tables, cs);
    assert last in cs;
    if last.key != k {
      AccumulatedParamIs(tables, cls, place, k, front, r, q);
    } else if FirstOf(k, front).None? {
      NothingTold(tables, cls, place, k, front, q);
      ToldParamIs(tables, cls, place, last.header, r, q);
    } else {
      var before, more := LastMerge(tables, cls, place, k, cs, r);
      AccumulatedParamIs(tables, cls, place, k, front, before, q);
      AccumulatedParamsArePlaced(tables, cls, place, k, front, before);
      ToldParamIs(tables, cls, place, last.header, more, q);
      ToldParamsArePlaced(tables, cls, place, last.header, more);
      MergedParamIs(place, before, more, r, q, ToldBy(tables, cls, place, k, front, q),
                    ToldDef(tables, cls, place, last.header, q));
    }
  }

  lemma {:induction false} MergedParamIs(
    place: Place, before: seq<ParamDef>, more: seq<ParamDef>, r: seq<ParamDef>, q: string,
    o: Option<ParamDef>, p: Option<ParamDef>)
    requires LocationsIn(before, {LocationOf(place)}) && LocationsIn(more, {LocationOf(place)})
    requires IsMerge(before, more, r)
    requires Occurrences(q, before) == Listed(o) && Occurrences(q, more) == Listed(p)
    ensures Occurrences(q, r) == Listed(Combine(o, p))
  {
    ListedOccur(q, before, o);
    ListedOccur(q, more, p);
    MergePlaced(place, before, more, r);
    ProperIsPlain(before);
    ProperIsPlain(more);
    MergeOccurrence(before, more, r, q);
  }

  lemma {:induction false} AccumulationIsCanonical(
    tables: Tables, cls: Classifiers, place: Place, k: string, cs: seq<Contribution>, r: seq<ParamDef>)
    requires AreSound(tables, cs) && Accumulates(tables, cls, place, k, cs, r) && RepeatNothing(place, k, cs)
    ensures Canonical(r)
  {
    var front, last := cs[..|cs| - 1], cs[|cs| - 1];
    OfFront(tables, cs);
    assert last in cs;
    if last.key != k {
      AccumulationIsCanonical(tables, cls, place, k, front, r);
    } else if FirstOf(k, front).None? {
      ToldParamsAreCanonical(tables, cls, place, last.header, r);
    } else {
      var before, more := LastMerge(tables, cls, place, k, cs, r);
      AccumulationIsCanonical(tables, cls, place, k, front, before);
      ToldParamsArePlaced(tables, cls, place, last.header, more);
      AnyMergeIsCanonical(before, more, r);
    }
  }

  /** If no comments repeat a parameter, there is only one result, whatever sorting does with ties. */
  lemma {:induction false} AccumulationIsUnique(
    tables: Tables, cls: Classifiers, place: Place, k: string, cs: seq<Contribution>, a: seq<ParamDef>,
    b: seq<ParamDef>)
    requires AreSound(tables, cs) && RepeatNothing(place, k, cs)
    requires Accumulates(tables, cls, place, k, cs, a) && Accumulates(tables, cls, place, k, cs, b)
    ensures a == b
  {
    AccumulationIsCanonical(tables, cls, place, k, cs, a);
    AccumulationIsCanonical(tables, cls, place, k, cs, b);
    forall q ensures Occur(q, a) == Occur(q, b) {
      NothingRepeated(place, k, cs, q);
      AccumulatedParamIs(tables, cls, place, k, cs, a, q);
      AccumulatedParamIs(tables, cls, place, k, cs, b, q);
      OccurOfOccurrences(q, a);
      OccurOfOccurrences(q, b);
    }
    CanonicalIsUnique(a, b);
  }

  lemma NothingRepeated(place: Place, k: string, cs: seq<Contribution>, q: string)
    requires RepeatNothing(place, k, cs)
    ensures RepeatsNot(place, k, cs, q)
  {
    forall c | c in cs && c.key == k ensures |Occurrences(q, SaidIn(place, c.header))| <= 1 {
      OccurrencesOfUnique(q, SaidIn(place, c.header));
    }
  }
}
