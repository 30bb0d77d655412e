/** Collecting the endpoints of a handler directory by their keys. */
module Discovery {
  import opened Wrappers
  import opened Strings
  import opened PathTemplates
  import opened Params
  import opened MergeAlgebra
  import opened MergeLaws
  import opened MergeRepeats
  import opened Parameters
  import opened Routes
  import opened Handlers
  import opened HandlerFiles
  import opened EndpointParams
  import opened Accumulation

  // ----- Contributions: one for each method of each header -----

  function ContributionOf(h: Header, verb: string): Contribution {
    Contribution(EndpointKey(verb, h.said.path), verb, h)
  }

  function ContributionsOf(h: Header, verbs: seq<string>): seq<Contribution> {
    if verbs == [] then []
    else ContributionsOf(h, verbs[..|verbs| - 1]) + [ContributionOf(h, verbs[|verbs| - 1])]
  }

  function Contributions(hs: seq<Header>): seq<Contribution> {
    if hs == [] then []
    else Contributions(hs[..|hs| - 1]) + ContributionsOf(hs[|hs| - 1], hs[|hs| - 1].said.verbs)
  }

  /** An entry has the method and path of the first contribution, and the parameters of all of them. */
  ghost predicate IsEntry(tables: Tables, cls: Classifiers, k: string, e: DiscoveredEndpoint, cs: seq<Contribution>) {
    && FirstOf(k, cs).Some?
    && e.verb == FirstOf(k, cs).value.verb
    && e.path == FirstOf(k, cs).value.header.said.path
    && e.summary == SummaryOf(k, cs)
    && Accumulates(tables, cls, InPath, k, cs, e.pathParams)
    && Accumulates(tables, cls, InQuery, k, cs, e.queryParams)
  }

  ghost predicate Registered(tables: Tables, cls: Classifiers, byKey: map<string, DiscoveredEndpoint>,
                             cs: seq<Contribution>)
  {
    && (forall k :: k in byKey <==> FirstOf(k, cs).Some?)
    && (forall k :: k in byKey ==> IsEntry(tables, cls, k, byKey[k], cs))
  }

  // ----- Registering one contribution -----

  lemma OneMoreContribution(cs: seq<Contribution>, c: Contribution, k: string)
    ensures FirstOf(k, cs + [c]) ==
            if FirstOf(k, cs).Some? then FirstOf(k, cs) else if c.key == k then Some(c) else None
    ensures SummaryOf(k, cs + [c]) ==
            if SummaryOf(k, cs) != "" then SummaryOf(k, cs) else if c.key == k then c.header.said.summary else ""
  {
    assert (cs + [c])[..|cs|] == cs;
  }

  // Entries under other keys are as before.
  lemma OtherEntry(tables: Tables, cls: Classifiers, k: string, e: DiscoveredEndpoint, cs: seq<Contribution>,
                   c: Contribution)
    requires IsEntry(tables, cls, k, e, cs) && c.key != k
    ensures IsEntry(tables, cls, k, e, cs + [c])
  {
    OneMoreContribution(cs, c, k);
    assert (cs + [c])[..|cs|] == cs;
  }

  lemma NewEntry(tables: Tables, cls: Classifiers, cs: seq<Contribution>, c: Contribution, ep: ParsedEndpoint)
    requires FirstOf(c.key, cs).None? && IsEndpoint(tables, cls, c.header, ep)
    ensures IsEntry(tables, cls, c.key,
                    DiscoveredEndpoint(c.verb, ep.said.path, ep.said.summary, ep.pathParams, ep.queryParams), cs + [c])
  {
    OneMoreContribution(cs, c, c.key);
    NotContributed(c.key, cs);
    assert (cs + [c])[..|cs|] == cs;
  }

  lemma MergedParams(tables: Tables, cls: Classifiers, place: Place, cs: seq<Contribution>, c: Contribution,
                     before: seq<ParamDef>, more: seq<ParamDef>, r: seq<ParamDef>)
    requires FirstOf(c.key, cs).Some? && Accumulates(tables, cls, place, c.key, cs, before)
    requires Tells(tables, cls, place, c.header, more) && IsMerge(before, more, r)
    ensures Accumulates(tables, cls, place, c.key, cs + [c], r)
  {
    assert (cs + [c])[..|cs|] == cs;
  }

  lemma MergedEntry(tables: Tables, cls: Classifiers, cs: seq<Contribution>, c: Contribution, ep: ParsedEndpoint,
                    e: DiscoveredEndpoint, paths: seq<ParamDef>, queries: seq<ParamDef>)
    requires IsEntry(tables, cls, c.key, e, cs) && IsEndpoint(tables, cls, c.header, ep)
    requires IsMerge(e.pathParams, ep.pathParams, paths) && IsMerge(e.queryParams, ep.queryParams, queries)
    ensures IsEntry(tables, cls, c.key,
                    DiscoveredEndpoint(e.verb, e.path, if e.summary == "" then ep.said.summary else e.summary,
                                       paths, queries), cs + [c])
  {
    OneMoreContribution(cs, c, c.key);
    MergedParams(tables, cls, InPath, cs, c, e.pathParams, ep.pathParams, paths);
    MergedParams(tables, cls, InQuery, cs, c, e.queryParams, ep.queryParams, queries);
  }

  lemma RegisterOthers(tables: Tables, cls: Classifiers, byKey: map<string, DiscoveredEndpoint>, cs: seq<Contribution>,
                       c: Contribution, e: DiscoveredEndpoint)
    requires Registered(tables, cls, byKey, cs) && IsEntry(tables, cls, c.key, e, cs + [c])
    ensures Registered(tables, cls, byKey[c.key := e], cs + [c])
  {
    var after := byKey[c.key := e];
    forall k ensures k in after <==> FirstOf(k, cs + [c]).Some? {
      OneMoreContribution(cs, c, k);
    }
    forall k | k in after ensures IsEntry(tables, cls, k, after[k], cs + [c]) {
      if k != c.key {
        OtherEntry(tables, cls, k, byKey[k], cs, c);
      }
    }
  }

  method Register(tables: Tables, cls: Classifiers, byKey: map<string, DiscoveredEndpoint>, verb: string,
                  ep: ParsedEndpoint, ghost h: Header, ghost cs: seq<Contribution>)
    returns (after: map<string, DiscoveredEndpoint>)
    requires Registered(tables, cls, byKey, cs) && IsEndpoint(tables, cls, h, ep)
    ensures Registered(tables, cls, after, cs + [ContributionOf(h, verb)])
  {
    ghost var c := ContributionOf(h, verb);
    var key := EndpointKey(verb, ep.said.path);
    var entry: DiscoveredEndpoint;
    if key !in byKey {
      entry := DiscoveredEndpoint(verb, ep.said.path, ep.said.summary, ep.pathParams, ep.queryParams);
      NewEntry(tables, cls, cs, c, ep);
    } else {
      var existing := byKey[key];
      var paths := MergeParamDefs(existing.pathParams, ep.pathParams);
      var queries := MergeParamDefs(existing.queryParams, ep.queryParams);
      MergedEntry(tables, cls, cs, c, ep, existing, paths, queries);
      entry := DiscoveredEndpoint(existing.verb, existing.path,
                                  if existing.summary == "" then ep.said.summary else existing.summary,
                                  paths, queries);
    }
    RegisterOthers(tables, cls, byKey, cs, c, entry);
    after := byKey[key := entry];
  }

  // ----- The files of a directory -----

  datatype DirEntry = DirEntry(name: string, isDir: bool, content: Result<string>)

  predicate IsHandlerFile(e: DirEntry) {
    !e.isDir && HasSuffix(e.name, ".go") && !HasSuffix(e.name, "_test.go")
  }

  /** A handler file is a file whose name ends in ".go" but not in "_test.go". */
  lemma IsHandlerFileIff(e: DirEntry)
    ensures IsHandlerFile(e) <==>
            && !e.isDir && (exists stem :: e.name == stem + ".go") && !exists stem :: e.name == stem + "_test.go"
  {
    AffixesAre(e.name, ".go", "");
    AffixesAre(e.name, "_test.go", "");
  }

  /** The headers of the handler files, file by file. */
  ghost function DirHeaders(tables: Tables, cls: Classifiers, entries: seq<DirEntry>): seq<Header> {
    if entries == [] then []
    else
      var last := entries[|entries| - 1];
      DirHeaders(tables, cls, entries[..|entries| - 1])
      + (if IsHandlerFile(last) && last.content.Ok? then FileHeaders(tables, cls, last.content.value) else [])
  }

  ghost function DirContributions(tables: Tables, cls: Classifiers, entries: seq<DirEntry>): seq<Contribution> {
    Contributions(DirHeaders(tables, cls, entries))
  }

  // The directory cannot be listed, or one of its handler files cannot be read.
  ghost predicate Unreadable(listing: Result<seq<DirEntry>>) {
    listing.Err? || exists e :: e in listing.value && IsHandlerFile(e) && e.content.Err?
  }

  method DiscoverHandlerEndpoints(tables: Tables, cls: Classifiers, listing: Result<seq<DirEntry>>)
    returns (r: Result<map<string, DiscoveredEndpoint>>)
    ensures r.Err? <==> Unreadable(listing)
    ensures r.Ok? ==> Registered(tables, cls, r.value, DirContributions(tables, cls, listing.value))
  {
    if listing.Err? {
      return Err("read handler dir: " + listing.message);
    }
    var entries := listing.value;
    var byKey: map<string, DiscoveredEndpoint> := map[];
    ghost var hs: seq<Header> := [];
    for i := 0 to |entries|
      invariant hs == DirHeaders(tables, cls, entries[..i])
      invariant forall e :: e in entries[..i] && IsHandlerFile(e) ==> e.content.Ok?
      invariant Registered(tables, cls, byKey, Contributions(hs))
    {
      var entry := entries[i];
      assert entries[..i + 1] == entries[..i] + [entry];
      if IsHandlerFile(entry) {
        if entry.content.Err? {
          return Err("read " + entry.name + ": " + entry.content.message);
        }
        byKey := RegisterFile(tables, cls, byKey, entry.content.value, hs);
        hs := hs + FileHeaders(tables, cls, entry.content.value);
      }
    }
    assert entries[..|entries|] == entries;
    r := Ok(byKey);
  }

  method RegisterFile(tables: Tables, cls: Classifiers, byKey: map<string, DiscoveredEndpoint>, content: string,
                      ghost before: seq<Header>)
    returns (after: map<string, DiscoveredEndpoint>)
    requires Registered(tables, cls, byKey, Contributions(before))
    ensures Registered(tables, cls, after, Contributions(before + FileHeaders(tables, cls, content)))
  {
    var endpoints := ParseHandlerFile(tables, cls, content);
    ghost var hs := FileHeaders(tables, cls, content);
    after := byKey;
    assert before + hs[..0] == before;
    for i := 0 to |endpoints|
      invariant Registered(tables, cls, after, Contributions(before + hs[..i]))
    {
      NextHeader(before, hs, i);
      after := RegisterEndpoint(tables, cls, after, endpoints[i], hs[i], Contributions(before + hs[..i]));
    }
    assert hs[..|endpoints|] == hs;
  }

  lemma NextHeader(before: seq<Header>, hs: seq<Header>, i: nat)
    requires i < |hs|
    ensures Contributions(before + hs[..i + 1]) ==
            Contributions(before + hs[..i]) + ContributionsOf(hs[i], hs[i].said.verbs)
  {
    assert (before + hs[..i + 1])[..|before| + i] == before + hs[..i];
  }

  method RegisterEndpoint(tables: Tables, cls: Classifiers, byKey: map<string, DiscoveredEndpoint>, ep: ParsedEndpoint,
                          ghost h: Header, ghost cs: seq<Contribution>)
    returns (after: map<string, DiscoveredEndpoint>)
    requires Registered(tables, cls, byKey, cs) && IsEndpoint(tables, cls, h, ep)
    ensures Registered(tables, cls, after, cs + ContributionsOf(h, h.said.verbs))
  {
    after := byKey;
    var verbs := ep.said.verbs;
    ghost var done := cs;
    for i := 0 to |verbs|
      invariant done == cs + ContributionsOf(h, verbs[..i])
      invariant Registered(tables, cls, after, done)
    {
      NextVerb(cs, h, verbs, i);
      after := Register(tables, cls, after, verbs[i], ep, h, done);
      done := done + [ContributionOf(h, verbs[i])];
    }
    assert verbs[..|verbs|] == verbs;
  }

  lemma NextVerb(cs: seq<Contribution>, h: Header, verbs: seq<string>, i: nat)
    requires i < |verbs|
    ensures cs + ContributionsOf(h, verbs[..i + 1]) ==
            cs + ContributionsOf(h, verbs[..i]) + [ContributionOf(h, verbs[i])]
  {
    assert verbs[..i + 1][..i] == verbs[..i];
  }

  // ----- What discovery promises -----

  lemma {:induction false} ContributionsHaveOwnKeys(hs: seq<Header>)
    ensures forall c :: c in Contributions(hs) ==> c.key == EndpointKey(c.verb, c.header.said.path)
  {
    if hs != [] {
      ContributionsHaveOwnKeys(hs[..|hs| - 1]);
      VerbsHaveOwnKeys(hs[|hs| - 1], hs[|hs| - 1].said.verbs);
    }
  }

  lemma {:induction false} VerbsHaveOwnKeys(h: Header, verbs: seq<string>)
    ensures forall c :: c in ContributionsOf(h, verbs) ==> c.key == EndpointKey(c.verb, c.header.said.path)
  {
    if verbs != [] {
      VerbsHaveOwnKeys(h, verbs[..|verbs| - 1]);
    }
  }

  lemma {:induction false} HeadersOfVerbs(h: Header, verbs: seq<string>)
    ensures forall c :: c in ContributionsOf(h, verbs) ==> c.header == h
  {
    if verbs != [] {
      HeadersOfVerbs(h, verbs[..|verbs| - 1]);
    }
  }

  lemma {:induction false} ContributionsAreSound(tables: Tables, hs: seq<Header>)
    requires forall h :: h in hs ==> IsSoundHeader(tables, h)
    ensures AreSound(tables, Contributions(hs))
  {
    if hs != [] {
      var front, last := hs[..|hs| - 1], hs[|hs| - 1];
      assert hs == front + [last];
      ContributionsAreSound(tables, front);
      HeadersOfVerbs(last, last.said.verbs);
    }
  }

  lemma {:induction false} DirHeadersAreSound(tables: Tables, cls: Classifiers, entries: seq<DirEntry>)
    ensures forall h :: h in DirHeaders(tables, cls, entries) ==> IsSoundHeader(tables, h)
  {
    if entries != [] {
      var last := entries[|entries| - 1];
      DirHeadersAreSound(tables, cls, entries[..|entries| - 1]);
      if IsHandlerFile(last) && last.content.Ok? {
        FileHeadersAreSound(tables, cls, last.content.value);
      }
    }
  }

  lemma DirContributionsAreSound(tables: Tables, cls: Classifiers, entries: seq<DirEntry>)
    ensures AreSound(tables, DirContributions(tables, cls, entries))
  {
    DirHeadersAreSound(tables, cls, entries);
    ContributionsAreSound(tables, DirHeaders(tables, cls, entries));
  }

  /**
   Every announced endpoint has an entry and every entry was announced; an entry is
   stored under the key of its own method and path.
   */
  lemma DiscoveryLosesNothing(tables: Tables, cls: Classifiers, entries: seq<DirEntry>,
                              byKey: map<string, DiscoveredEndpoint>)
    requires Registered(tables, cls, byKey, DirContributions(tables, cls, entries))
    ensures forall k :: k in byKey <==> exists c :: c in DirContributions(tables, cls, entries) && c.key == k
    ensures OwnKeys(byKey)
  {
    var cs := DirContributions(tables, cls, entries);
    ContributionsHaveOwnKeys(DirHeaders(tables, cls, entries));
    forall k ensures k in byKey <==> exists c :: c in cs && c.key == k {
      NotContributed(k, cs);
    }
    forall k | k in byKey ensures EndpointKey(byKey[k].verb, byKey[k].path) == k {
      NotContributed(k, cs);
    }
  }

  function ParamsIn(place: Place, e: DiscoveredEndpoint): seq<ParamDef> {
    match place
    case InPath => e.pathParams
    case InQuery => e.queryParams
  }

  /**
   The parameters of an entry: each is told of by some header that announces the endpoint,
   and each one told of is there; and one that no comments repeat is what those headers
   tell of it, folded in order.
   */
  lemma {:induction false} DiscoveredParamsAre(
    tables: Tables, cls: Classifiers, cs: seq<Contribution>, byKey: map<string, DiscoveredEndpoint>,
    k: string, place: Place, q: string)
    requires AreSound(tables, cs) && Registered(tables, cls, byKey, cs) && k in byKey
    ensures var ps := ParamsIn(place, byKey[k]);
            && LocationsIn(ps, {LocationOf(place)})
            && (HasKey(ps, q) <==> ToldBy(tables, cls, place, k, cs, q).Some?)
            && FirstOf(k, cs).Some?
            && |Occurrences(q, ps)| == DefinitionCount(|Occurrences(q, SaidIn(place, FirstOf(k, cs).value.header))|,
                                                       ToldBy(tables, cls, place, k, cs, q).Some?)
            && (RepeatsNot(place, k, cs, q) ==> Occurrences(q, ps) == Listed(ToldBy(tables, cls, place, k, cs, q)))
            && (RepeatNothing(place, k, cs) ==> Canonical(ps))
  {
    var ps := ParamsIn(place, byKey[k]);
    assert Accumulates(tables, cls, place, k, cs, ps);
    AccumulatedParamsArePlaced(tables, cls, place, k, cs, ps);
    AccumulatedParamsAreTold(tables, cls, place, k, cs, ps, q);
    AccumulatedCount(tables, cls, place, k, cs, ps, q);
    if RepeatsNot(place, k, cs, q) {
      AccumulatedParamIs(tables, cls, place, k, cs, ps, q);
    }
    if RepeatNothing(place, k, cs) {
      AccumulationIsCanonical(tables, cls, place, k, cs, ps);
    }
  }
}
