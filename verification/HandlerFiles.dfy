/** Scanning the comments of one handler file for the endpoints they announce. */
module HandlerFiles {
  import opened Wrappers
  import opened Strings
  import opened Sorting
  import opened PathTemplates
  import opened Params
  import opened MergeAlgebra
  import opened MergeLaws
  import opened Parameters
  import opened FunctionBodies
  import opened Handlers

  /** What an announcing comment line says. */
  datatype Announcement = Announcement(verbs: seq<string>, path: string, summary: string)

  /**
   An announcement with the last line of its window of comments, the parameters said
   there, and the body of the function that follows.
   */
  datatype Header = Header(
    start: nat,
    end: nat,
    said: Announcement,
    pathParams: seq<ParamDef>,
    queryParams: seq<ParamDef>,
    body: string)

  datatype ParsedEndpoint = ParsedEndpoint(said: Announcement, pathParams: seq<ParamDef>, queryParams: seq<ParamDef>)

  function AnnouncementOf(cls: Classifiers, line: string): Option<Announcement> {
    var found := cls.handles(TrimSpace(line));
    if found.None? then None
    else
      var route := ParsedRoute(TrimSpace(found.value.1));
      if route.None? then None
      else Some(Announcement(route.value.verbs, NormalizeOpenAPIPath(route.value.path), TrimSpace(found.value.0)))
  }

  // ----- What the lines say -----

  /** What the scanner asks of one line. */
  datatype LineInfo = LineInfo(
    announces: Option<Announcement>,
    isComment: bool,
    pathParams: seq<ParamDef>,
    queryParams: seq<ParamDef>)

  function PathParamOfComment(tables: Tables, cls: Classifiers, comment: string): seq<ParamDef> {
    var found := cls.pathParam(TrimSpace(comment));
    if found.None? then []
    else [ParamDef(found.value.0, "path", tables.pathSchema(found.value.0).paramType, "",
                   TrimSpace(found.value.1), None, None)]
  }

  function QueryParamsOfComment(tables: Tables, cls: Classifiers, comment: string): seq<ParamDef> {
    var found := cls.queryParams(TrimSpace(comment));
    if found.None? then [] else QueryParamsOfChunks(tables, Split(found.value, ','))
  }

  function InfoOf(tables: Tables, cls: Classifiers, line: string): LineInfo {
    LineInfo(AnnouncementOf(cls, line), HasPrefix(TrimSpace(line), "//"),
             PathParamOfComment(tables, cls, line), QueryParamsOfComment(tables, cls, line))
  }

  function Infos(tables: Tables, cls: Classifiers, lines: seq<string>): (infos: seq<LineInfo>)
    ensures |infos| == |lines|
  {
    if lines == [] then []
    else Infos(tables, cls, lines[..|lines| - 1]) + [InfoOf(tables, cls, lines[|lines| - 1])]
  }

  lemma {:induction false} InfoAt(tables: Tables, cls: Classifiers, lines: seq<string>, i: nat)
    requires i < |lines|
    ensures Infos(tables, cls, lines)[i] == InfoOf(tables, cls, lines[i])
  {
    if i < |lines| - 1 {
      InfoAt(tables, cls, lines[..|lines| - 1], i);
    }
  }

  // ----- Windows of comments -----

  // The last line of the run of comment lines from j up to limit, or j - 1.
  function WindowEnd(infos: seq<LineInfo>, j: nat, limit: nat): (e: int)
    requires 0 < j
    ensures j - 1 <= e
    ensures e <= limit || e == j - 1
    ensures e < |infos| || e == j - 1
    decreases limit + 1 - j
  {
    if j < |infos| && j <= limit && infos[j].isComment then WindowEnd(infos, j + 1, limit) else j - 1
  }

  /** The window is the longest run of comment lines that fits. */
  lemma {:induction false} WindowIsLongestRun(infos: seq<LineInfo>, j: nat, limit: nat)
    requires 0 < j
    ensures var e := WindowEnd(infos, j, limit);
            && (forall i :: j <= i <= e ==> infos[i].isComment)
            && (j - 1 <= limit && e + 1 < |infos| && e < limit ==> !infos[e + 1].isComment)
    decreases limit + 1 - j
  {
    if j < |infos| && j <= limit && infos[j].isComment {
      WindowIsLongestRun(infos, j + 1, limit);
    }
  }

  /** The path parameters said in lines from..to, in order. */
  function SaidPathParams(infos: seq<LineInfo>, from: nat, to: nat): seq<ParamDef>
    requires to <= |infos|
  {
    if to <= from then [] else SaidPathParams(infos, from, to - 1) + infos[to - 1].pathParams
  }

  /** The query parameters said in lines from..to, in order. */
  function SaidQueryParams(infos: seq<LineInfo>, from: nat, to: nat): seq<ParamDef>
    requires to <= |infos|
  {
    if to <= from then [] else SaidQueryParams(infos, from, to - 1) + infos[to - 1].queryParams
  }

  // ----- Scanning -----

  function HeaderOf(infos: seq<LineInfo>, lines: seq<string>, i: nat, said: Announcement): Header
    requires i < |infos| == |lines|
  {
    var e := WindowEnd(infos, i + 1, i + 6);
    Header(i, e, said, SaidPathParams(infos, i + 1, e + 1), SaidQueryParams(infos, i + 1, e + 1),
           FunctionBody(lines, e + 1))
  }

  function HeaderAt(infos: seq<LineInfo>, lines: seq<string>, i: nat): Option<Header>
    requires i < |infos| == |lines|
  {
    if infos[i].announces.None? then None else Some(HeaderOf(infos, lines, i, infos[i].announces.value))
  }

  // The header on each of the first n lines, if there is one.
  function HeadersByLine(infos: seq<LineInfo>, lines: seq<string>, n: nat): (heads: seq<Option<Header>>)
    requires n <= |infos| == |lines|
    ensures |heads| == n
  {
    if n == 0 then [] else HeadersByLine(infos, lines, n - 1) + [HeaderAt(infos, lines, n - 1)]
  }

  lemma {:induction false} HeadersByLineAt(infos: seq<LineInfo>, lines: seq<string>, n: nat, i: nat)
    requires i < n <= |infos| == |lines|
    ensures HeadersByLine(infos, lines, n)[i] == HeaderAt(infos, lines, i)
  {
    if i < n - 1 {
      HeadersByLineAt(infos, lines, n - 1, i);
    }
  }

  // Headers are found on the line they start on, and their windows have at most six more lines.
  ghost predicate Windowed(heads: seq<Option<Header>>) {
    forall i :: 0 <= i < |heads| && heads[i].Some? ==>
      var h := heads[i].value; h.start == i <= h.end <= i + 6 && h.end < |heads|
  }

  lemma HeadersAreWindowed(infos: seq<LineInfo>, lines: seq<string>)
    requires |infos| == |lines|
    ensures Windowed(HeadersByLine(infos, lines, |lines|))
  {
    forall i | 0 <= i < |lines|
      ensures HeadersByLine(infos, lines, |lines|)[i] == HeaderAt(infos, lines, i)
    {
      HeadersByLineAt(infos, lines, |lines|, i);
    }
  }

  /** The headers from line i on; scanning resumes after the window of each. */
  ghost function Headers(heads: seq<Option<Header>>, i: nat): seq<Header>
    requires Windowed(heads)
    decreases |heads| - i
  {
    if i >= |heads| then []
    else if heads[i].None? then Headers(heads, i + 1)
    else [heads[i].value] + Headers(heads, heads[i].value.end + 1)
  }

  /** The headers of a whole file. */
  ghost function FileHeaders(tables: Tables, cls: Classifiers, content: string): seq<Header> {
    var lines := Split(content, '\n');
    var infos := Infos(tables, cls, lines);
    HeadersAreWindowed(infos, lines);
    Headers(HeadersByLine(infos, lines, |lines|), 0)
  }

  lemma {:induction false} HeadersStartLater(heads: seq<Option<Header>>, i: nat)
    requires Windowed(heads)
    ensures forall h :: h in Headers(heads, i) ==>
              i <= h.start <= h.end <= h.start + 6 && h.end < |heads| && heads[h.start] == Some(h)
    decreases |heads| - i
  {
    if i < |heads| {
      HeadersStartLater(heads, if heads[i].None? then i + 1 else heads[i].value.end + 1);
    }
  }

  ghost predicate Ascending(hs: seq<Header>) {
    forall j, k :: 0 <= j < k < |hs| ==> hs[j].end < hs[k].start
  }

  lemma AscendingCons(h: Header, rest: seq<Header>)
    requires Ascending(rest) && forall r :: r in rest ==> h.end < r.start
    ensures Ascending([h] + rest)
  {
    assert forall k :: 0 <= k < |rest| ==> rest[k] in rest;
  }

  /** Windows advance without overlap. */
  lemma {:induction false} WindowsAdvance(heads: seq<Option<Header>>, i: nat)
    requires Windowed(heads)
    ensures Ascending(Headers(heads, i))
    decreases |heads| - i
  {
    if i < |heads| {
      var next := if heads[i].None? then i + 1 else heads[i].value.end + 1;
      WindowsAdvance(heads, next);
      HeadersStartLater(heads, next);
      if heads[i].Some? {
        AscendingCons(heads[i].value, Headers(heads, next));
      }
    }
  }

  /** A header is passed over only inside the window of an earlier one. */
  lemma {:induction false} HeadersAreKept(heads: seq<Option<Header>>, i: nat, m: nat)
    requires Windowed(heads) && i <= m < |heads| && heads[m].Some?
    ensures exists h :: h in Headers(heads, i) && h.start <= m <= h.end
    decreases |heads| - i
  {
    if heads[i].None? {
      HeadersAreKept(heads, i + 1, m);
    } else {
      var h := heads[i].value;
      assert h in Headers(heads, i);
      if m > h.end {
        HeadersAreKept(heads, h.end + 1, m);
        var later :| later in Headers(heads, h.end + 1) && later.start <= m <= later.end;
        assert later in Headers(heads, i);
      }
    }
  }

  // ----- Parsing -----

  datatype Place = InPath | InQuery

  function SaidIn(place: Place, h: Header): seq<ParamDef> {
    match place
    case InPath => h.pathParams
    case InQuery => h.queryParams
  }

  // What the placeholders of the path, or the body of the function, tell of parameters.
  ghost predicate IsFoundIn(tables: Tables, cls: Classifiers, place: Place, h: Header, found: seq<ParamDef>) {
    match place
    case InPath => found == PathParamsFromOpenAPIPath(tables, h.said.path)
    case InQuery => IsBodyQuery(tables, cls.queryGets(h.body), cls.formValues(h.body), found)
  }

  /** What comments say of parameters, overridden by what is found in the path or the body. */
  ghost predicate Tells(tables: Tables, cls: Classifiers, place: Place, h: Header, ps: seq<ParamDef>) {
    exists found :: IsFoundIn(tables, cls, place, h, found) && IsMerge(SaidIn(place, h), found, ps)
  }

  ghost predicate IsEndpoint(tables: Tables, cls: Classifiers, h: Header, ep: ParsedEndpoint) {
    && ep.said == h.said
    && Tells(tables, cls, InPath, h, ep.pathParams)
    && Tells(tables, cls, InQuery, h, ep.queryParams)
  }

  ghost predicate AreEndpoints(tables: Tables, cls: Classifiers, hs: seq<Header>, eps: seq<ParsedEndpoint>) {
    |eps| == |hs| && forall k :: 0 <= k < |hs| ==> IsEndpoint(tables, cls, hs[k], eps[k])
  }

  method ParseHandlerFile(tables: Tables, cls: Classifiers, content: string) returns (endpoints: seq<ParsedEndpoint>)
    ensures AreEndpoints(tables, cls, FileHeaders(tables, cls, content), endpoints)
  {
    var lines := Split(content, '\n');
    ghost var infos := Infos(tables, cls, lines);
    HeadersAreWindowed(infos, lines);
    endpoints := ParseLines(tables, cls, lines, infos, HeadersByLine(infos, lines, |lines|));
  }

  method ParseLines(tables: Tables, cls: Classifiers, lines: seq<string>, ghost infos: seq<LineInfo>,
                    ghost heads: seq<Option<Header>>)
    returns (endpoints: seq<ParsedEndpoint>)
    requires infos == Infos(tables, cls, lines)
    requires heads == HeadersByLine(infos, lines, |lines|) && Windowed(heads)
    ensures AreEndpoints(tables, cls, Headers(heads, 0), endpoints)
  {
    endpoints := [];
    ghost var all := Headers(heads, 0);
    var i := 0;
    while i < |lines|
      invariant BeginsWith(tables, cls, all, endpoints) && Remain(all, |endpoints|, heads, i)
      decreases |lines| - i
    {
      i, endpoints := ParseNext(tables, cls, lines, i, endpoints, all, infos, heads);
    }
  }

  method ParseNext(tables: Tables, cls: Classifiers, lines: seq<string>, i: nat, before: seq<ParsedEndpoint>,
                   ghost all: seq<Header>, ghost infos: seq<LineInfo>, ghost heads: seq<Option<Header>>)
    returns (next: nat, endpoints: seq<ParsedEndpoint>)
    requires i < |lines| && infos == Infos(tables, cls, lines)
    requires heads == HeadersByLine(infos, lines, |lines|) && Windowed(heads)
    requires BeginsWith(tables, cls, all, before) && Remain(all, |before|, heads, i)
    ensures i < next && BeginsWith(tables, cls, all, endpoints) && Remain(all, |endpoints|, heads, next)
  {
    var found := ParseAt(tables, cls, lines, i, infos, heads);
    if found.None? {
      SkipLine(all, |before|, heads, i);
      return i + 1, before;
    }
    StepOver(tables, cls, all, before, found.value.0, heads, i);
    return found.value.1 + 1, before + [found.value.0];
  }

  // After the first n headers come those from line i on.
  ghost predicate Remain(all: seq<Header>, n: nat, heads: seq<Option<Header>>, i: nat)
    requires Windowed(heads)
  {
    i <= |heads| && n <= |all| && all[n..] == Headers(heads, i)
  }

  // The endpoints are those of the first headers.
  ghost predicate BeginsWith(tables: Tables, cls: Classifiers, all: seq<Header>, eps: seq<ParsedEndpoint>) {
    |eps| <= |all| && forall k :: 0 <= k < |eps| ==> IsEndpoint(tables, cls, all[k], eps[k])
  }

  lemma SkipLine(all: seq<Header>, n: nat, heads: seq<Option<Header>>, i: nat)
    requires Windowed(heads) && i < |heads| && Remain(all, n, heads, i) && heads[i].None?
    ensures Remain(all, n, heads, i + 1)
  {
  }

  lemma StepOver(tables: Tables, cls: Classifiers, all: seq<Header>, eps: seq<ParsedEndpoint>, ep: ParsedEndpoint,
                 heads: seq<Option<Header>>, i: nat)
    requires Windowed(heads) && i < |heads| && Remain(all, |eps|, heads, i) && heads[i].Some?
    requires BeginsWith(tables, cls, all, eps) && IsEndpoint(tables, cls, heads[i].value, ep)
    ensures BeginsWith(tables, cls, all, eps + [ep])
    ensures i <= heads[i].value.end && Remain(all, |eps + [ep]|, heads, heads[i].value.end + 1)
  {
    NextHeader(all, |eps|, heads, i);
    OneMoreEndpoint(tables, cls, all, eps, ep);
  }

  lemma OneMoreEndpoint(tables: Tables, cls: Classifiers, all: seq<Header>, eps: seq<ParsedEndpoint>,
                        ep: ParsedEndpoint)
    requires BeginsWith(tables, cls, all, eps) && |eps| < |all| && IsEndpoint(tables, cls, all[|eps|], ep)
    ensures BeginsWith(tables, cls, all, eps + [ep])
  {
  }

  lemma NextHeader(all: seq<Header>, n: nat, heads: seq<Option<Header>>, i: nat)
    requires Windowed(heads) && i < |heads| && Remain(all, n, heads, i) && heads[i].Some?
    ensures n < |all| && all[n] == heads[i].value && i <= heads[i].value.end
    ensures Remain(all, n + 1, heads, heads[i].value.end + 1)
  {
    assert all[n..][0] == all[n] && all[n..][1..] == all[n + 1..];
  }

  /** The endpoint announced on line i, if any, with the last line of its window. */
  method ParseAt(tables: Tables, cls: Classifiers, lines: seq<string>, i: nat, ghost infos: seq<LineInfo>,
                 ghost heads: seq<Option<Header>>)
    returns (r: Option<(ParsedEndpoint, nat)>)
    requires i < |lines| && infos == Infos(tables, cls, lines) && heads == HeadersByLine(infos, lines, |lines|)
    ensures r.Some? <==> heads[i].Some?
    ensures r.Some? ==> r.value.1 == heads[i].value.end && IsEndpoint(tables, cls, heads[i].value, r.value.0)
  {
    HeadersByLineAt(infos, lines, |lines|, i);
    var said := ReadAnnouncement(tables, cls, lines, i, infos);
    if said.None? {
      return None;
    }
    var h := ReadHeader(tables, cls, lines, i, said.value, infos);
    var ep := BuildEndpoint(tables, cls, h);
    return Some((ep, h.end));
  }

  method ReadAnnouncement(tables: Tables, cls: Classifiers, lines: seq<string>, i: nat, ghost infos: seq<LineInfo>)
    returns (said: Option<Announcement>)
    requires i < |lines| && infos == Infos(tables, cls, lines)
    ensures said == infos[i].announces
  {
    InfoAt(tables, cls, lines, i);
    var found := cls.handles(TrimSpace(lines[i]));
    if found.None? {
      return None;
    }
    var route := ParseMethodsAndPath(TrimSpace(found.value.1));
    if route.None? {
      return None;
    }
    return Some(Announcement(route.value.verbs, NormalizeOpenAPIPath(route.value.path), TrimSpace(found.value.0)));
  }

  method ReadHeader(tables: Tables, cls: Classifiers, lines: seq<string>, i: nat, said: Announcement,
                    ghost infos: seq<LineInfo>)
    returns (h: Header)
    requires i < |lines| && infos == Infos(tables, cls, lines)
    ensures h == HeaderOf(infos, lines, i, said)
  {
    var commentEnd, pathParams, queryParams := ReadWindow(tables, cls, lines, i, infos);
    var body := ExtractFunctionBody(lines, commentEnd + 1);
    h := Header(i, commentEnd, said, pathParams, queryParams, body);
    HeaderFields(infos, lines, i, said, commentEnd, pathParams, queryParams, body);
  }

  lemma HeaderFields(infos: seq<LineInfo>, lines: seq<string>, i: nat, said: Announcement, end: nat,
                     pathParams: seq<ParamDef>, queryParams: seq<ParamDef>, body: string)
    requires i < |infos| == |lines| && end == WindowEnd(infos, i + 1, i + 6)
    requires pathParams == SaidPathParams(infos, i + 1, end + 1)
    requires queryParams == SaidQueryParams(infos, i + 1, end + 1) && body == FunctionBody(lines, end + 1)
    ensures HeaderOf(infos, lines, i, said) == Header(i, end, said, pathParams, queryParams, body)
  {
  }

  /** Reads at most six comment lines after line i. */
  method ReadWindow(tables: Tables, cls: Classifiers, lines: seq<string>, i: nat, ghost infos: seq<LineInfo>)
    returns (commentEnd: nat, pathParams: seq<ParamDef>, queryParams: seq<ParamDef>)
    requires i < |lines| && infos == Infos(tables, cls, lines)
    ensures commentEnd == WindowEnd(infos, i + 1, i + 6) < |lines|
    ensures pathParams == SaidPathParams(infos, i + 1, commentEnd + 1)
    ensures queryParams == SaidQueryParams(infos, i + 1, commentEnd + 1)
  {
    commentEnd, pathParams, queryParams := i, [], [];
    var j := i + 1;
    while j < |lines| && j <= i + 6
      invariant i + 1 <= j <= |lines| && j <= i + 7 && commentEnd == j - 1
      invariant WindowEnd(infos, i + 1, i + 6) == WindowEnd(infos, j, i + 6)
      invariant pathParams == SaidPathParams(infos, i + 1, j)
      invariant queryParams == SaidQueryParams(infos, i + 1, j)
    {
      var isComment, pm, qm := ReadComment(tables, cls, lines, j, infos);
      if !isComment {
        break;
      }
      pathParams, queryParams := pathParams + pm, queryParams + qm;
      commentEnd := j;
      j := j + 1;
    }
  }

  method ReadComment(tables: Tables, cls: Classifiers, lines: seq<string>, j: nat, ghost infos: seq<LineInfo>)
    returns (isComment: bool, pathParams: seq<ParamDef>, queryParams: seq<ParamDef>)
    requires j < |lines| && infos == Infos(tables, cls, lines)
    ensures isComment == infos[j].isComment
    ensures isComment ==> pathParams == infos[j].pathParams && queryParams == infos[j].queryParams
  {
    InfoAt(tables, cls, lines, j);
    isComment, pathParams, queryParams := true, [], [];
    var comment := TrimSpace(lines[j]);
    if !HasPrefix(comment, "//") {
      return false, [], [];
    }
    var pm := cls.pathParam(comment);
    if pm.Some? {
      pathParams := [ParamDef(pm.value.0, "path", tables.pathSchema(pm.value.0).paramType, "",
                              TrimSpace(pm.value.1), None, None)];
    }
    var qm := cls.queryParams(comment);
    if qm.Some? {
      queryParams := ParseQueryParamsComment(tables, qm.value);
    }
  }

  method BuildEndpoint(tables: Tables, cls: Classifiers, h: Header) returns (ep: ParsedEndpoint)
    ensures IsEndpoint(tables, cls, h, ep)
  {
    var found := DiscoverQueryParamsFromBody(tables, cls, h.body);
    var allQuery := MergeParamDefs(h.queryParams, found);
    var holes := PathParamsFromOpenAPIPath(tables, h.said.path);
    var allPath := MergeParamDefs(h.pathParams, holes);
    assert IsFoundIn(tables, cls, InPath, h, holes) && IsFoundIn(tables, cls, InQuery, h, found);
    ep := ParsedEndpoint(h.said, allPath, allQuery);
  }

  // ----- What every endpoint satisfies -----

  /** Lower-case methods without repetition, and a clean, normal path under "/api". */
  predicate IsSound(a: Announcement) {
    && a.verbs != [] && Distinct(a.verbs) && (forall v :: v in a.verbs ==> IsVerb(v))
    && IsApiPath(a.path) && NormalizeOpenAPIPath(a.path) == a.path
  }

  predicate ComesFromComment(tables: Tables, p: ParamDef) {
    p == ParamDef(p.name, "path", tables.pathSchema(p.name).paramType, "", p.description, None, None)
  }

  /** A header announces a sound endpoint, with path and query parameters kept apart. */
  predicate IsSoundHeader(tables: Tables, h: Header) {
    && IsSound(h.said)
    && (forall p :: p in h.pathParams ==> ComesFromComment(tables, p))
    && LocationsIn(h.queryParams, {"query"})
  }

  // A line announces only sound endpoints and says only path parameters and query parameters.
  predicate IsSoundInfo(tables: Tables, info: LineInfo) {
    && (info.announces.Some? ==> IsSound(info.announces.value))
    && (forall p :: p in info.pathParams ==> ComesFromComment(tables, p))
    && LocationsIn(info.queryParams, {"query"})
  }

  lemma InfoIsSound(tables: Tables, cls: Classifiers, line: string)
    ensures IsSoundInfo(tables, InfoOf(tables, cls, line))
  {
    if AnnouncementOf(cls, line).Some? {
      AnnouncementIsSound(cls, line);
    }
    var found := cls.queryParams(TrimSpace(line));
    if found.Some? {
      ChunkLocations(tables, Split(found.value, ','));
    }
  }

  lemma {:induction false} InfosAreSound(tables: Tables, cls: Classifiers, lines: seq<string>)
    ensures forall info :: info in Infos(tables, cls, lines) ==> IsSoundInfo(tables, info)
  {
    if lines != [] {
      InfosAreSound(tables, cls, lines[..|lines| - 1]);
      InfoIsSound(tables, cls, lines[|lines| - 1]);
    }
  }

  lemma {:induction false} SaidParamsAreSound(tables: Tables, infos: seq<LineInfo>, from: nat, to: nat)
    requires to <= |infos| && forall info :: info in infos ==> IsSoundInfo(tables, info)
    ensures forall p :: p in SaidPathParams(infos, from, to) ==> ComesFromComment(tables, p)
    ensures LocationsIn(SaidQueryParams(infos, from, to), {"query"})
  {
    if from < to {
      SaidParamsAreSound(tables, infos, from, to - 1);
      assert infos[to - 1] in infos;
    }
  }

  lemma HeaderIsSound(tables: Tables, infos: seq<LineInfo>, lines: seq<string>, i: nat)
    requires i < |infos| == |lines| && HeaderAt(infos, lines, i).Some?
    requires forall info :: info in infos ==> IsSoundInfo(tables, info)
    ensures IsSoundHeader(tables, HeaderAt(infos, lines, i).value)
  {
    assert infos[i] in infos;
    SaidParamsAreSound(tables, infos, i + 1, WindowEnd(infos, i + 1, i + 6) + 1);
  }

  lemma {:induction false} AnnouncementIsSound(cls: Classifiers, line: string)
    requires AnnouncementOf(cls, line).Some?
    ensures IsSound(AnnouncementOf(cls, line).value)
  {
    var routePart := TrimSpace(cls.handles(TrimSpace(line)).value.1);
    RouteIsSound(routePart);
    var path := ParsedRoute(routePart).value.path;
    NormalizedApiPath(path);
    NormalFormsAreStable("", path);
  }

  lemma RouteIsSound(routePart: string)
    requires ParsedRoute(routePart).Some?
    ensures var r := ParsedRoute(routePart).value;
            r.verbs != [] && Distinct(r.verbs) && (forall v :: v in r.verbs ==> IsVerb(v)) && IsApiPath(r.path)
  {
    var parts := Fields(routePart);
    ApiWordIsSound(parts[FirstApi(parts, 0)]);
  }

  lemma ApiWordIsSound(w: string)
    requires HasPrefix(w, "/api")
    ensures IsApiPath(TrimRight(w, PUNCTUATION))
  {
    var path := TrimRight(w, PUNCTUATION);
    assert w[..4] == "/api" && w[3] == 'i';
    assert |path| >= 4 by {
      PunctuationIs(w[3]);
    }
    assert path[..4] == w[..4];
  }

  lemma {:induction false} ChunkLocations(tables: Tables, chunks: seq<string>)
    ensures LocationsIn(QueryParamsOfChunks(tables, chunks), {"query"})
  {
    if chunks != [] {
      ChunkLocations(tables, chunks[..|chunks| - 1]);
    }
  }

  lemma FileHeadersAreSound(tables: Tables, cls: Classifiers, content: string)
    ensures forall h :: h in FileHeaders(tables, cls, content) ==> IsSoundHeader(tables, h)
  {
    var lines := Split(content, '\n');
    var infos := Infos(tables, cls, lines);
    InfosAreSound(tables, cls, lines);
    HeadersAreWindowed(infos, lines);
    HeadersStartLater(HeadersByLine(infos, lines, |lines|), 0);
    forall h | h in FileHeaders(tables, cls, content) ensures IsSoundHeader(tables, h) {
      HeadersByLineAt(infos, lines, |lines|, h.start);
      HeaderIsSound(tables, infos, lines, h.start);
    }
  }

  /** In a whole file, windows advance without overlap, and no announcement is missed outside them. */
  lemma {:induction false} AnnouncementsAreKept(tables: Tables, cls: Classifiers, content: string, m: nat)
    requires m < |Split(content, '\n')| && AnnouncementOf(cls, Split(content, '\n')[m]).Some?
    ensures Ascending(FileHeaders(tables, cls, content))
    ensures exists h :: h in FileHeaders(tables, cls, content) && h.start <= m <= h.end
  {
    var lines := Split(content, '\n');
    var infos := Infos(tables, cls, lines);
    var heads := HeadersByLine(infos, lines, |lines|);
    HeadersAreWindowed(infos, lines);
    WindowsAdvance(heads, 0);
    InfoAt(tables, cls, lines, m);
    HeadersByLineAt(infos, lines, |lines|, m);
    HeadersAreKept(heads, 0, m);
  }

  // ----- What a header is -----

  /** What a line announces: the methods and path of its route, the path without regular expressions, its summary. */
  lemma AnnouncementIs(cls: Classifiers, line: string, summary: string, route: string, verbs: seq<string>,
                       t: seq<Segment>)
    requires cls.handles(TrimSpace(line)) == Some((summary, route))
    requires ParsedRoute(TrimSpace(route)) == Some(Route(verbs, Print(t))) && IsTemplate(t)
    ensures AnnouncementOf(cls, line) == Some(Announcement(verbs, Print(WithoutRegexes(t)), TrimSpace(summary)))
  {
    NormalizePrinted(t);
  }

  /** What comments say of a path parameter. */
  ghost predicate SaysPathParam(tables: Tables, cls: Classifiers, line: string, p: ParamDef) {
    && cls.pathParam(TrimSpace(line)).Some?
    && var (name, description) := cls.pathParam(TrimSpace(line)).value;
       && p.name == name && p.location == "path" && p.paramType == tables.pathSchema(name).paramType
       && p.description == TrimSpace(description) && p.format == "" && p.example == None && p.required == None
  }

  /** What comments say of query parameters. */
  ghost predicate SaysQueryParam(tables: Tables, cls: Classifiers, line: string, p: ParamDef) {
    && cls.queryParams(TrimSpace(line)).Some?
    && exists chunk :: chunk in Split(cls.queryParams(TrimSpace(line)).value, ',')
                       && QueryParamOfChunk(tables, chunk) == Some(p)
  }

  predicate IsCommentLine(line: string) {
    "//" <= TrimSpace(line)
  }

  /** The longest run of comment lines after the first line, six at most. */
  ghost predicate IsWindow(lines: seq<string>, start: nat, end: nat) {
    && start <= end < |lines| && end <= start + 6
    && (forall j :: start < j <= end ==> IsCommentLine(lines[j]))
    && (end == start + 6 || end == |lines| - 1 || !IsCommentLine(lines[end + 1]))
  }

  // The path and query parameters that the lines from..to say.
  ghost predicate AreSaid(tables: Tables, cls: Classifiers, lines: seq<string>, from: nat, to: nat,
                          pathParams: seq<ParamDef>, queryParams: seq<ParamDef>)
    requires to <= |lines|
  {
    && (forall p :: p in pathParams <==> exists j :: from <= j < to && SaysPathParam(tables, cls, lines[j], p))
    && (forall p :: p in queryParams <==> exists j :: from <= j < to && SaysQueryParam(tables, cls, lines[j], p))
  }

  lemma {:induction false} SaidPathIff(infos: seq<LineInfo>, from: nat, to: nat, p: ParamDef)
    requires to <= |infos|
    ensures p in SaidPathParams(infos, from, to) <==> exists j :: from <= j < to && p in infos[j].pathParams
  {
    if from < to {
      SaidPathIff(infos, from, to - 1, p);
      assert SaidPathParams(infos, from, to) == SaidPathParams(infos, from, to - 1) + infos[to - 1].pathParams;
    }
  }

  lemma {:induction false} SaidQueryIff(infos: seq<LineInfo>, from: nat, to: nat, p: ParamDef)
    requires to <= |infos|
    ensures p in SaidQueryParams(infos, from, to) <==> exists j :: from <= j < to && p in infos[j].queryParams
  {
    if from < to {
      SaidQueryIff(infos, from, to - 1, p);
      assert SaidQueryParams(infos, from, to) == SaidQueryParams(infos, from, to - 1) + infos[to - 1].queryParams;
    }
  }

  lemma {:induction false} ChunksIff(tables: Tables, chunks: seq<string>, p: ParamDef)
    ensures p in QueryParamsOfChunks(tables, chunks) <==>
            exists chunk :: chunk in chunks && QueryParamOfChunk(tables, chunk) == Some(p)
  {
    if chunks != [] {
      var front, last := chunks[..|chunks| - 1], chunks[|chunks| - 1];
      ChunksIff(tables, front, p);
      assert chunks == front + [last];
    }
  }

  lemma InfoSays(tables: Tables, cls: Classifiers, lines: seq<string>, j: nat, p: ParamDef)
    requires j < |lines|
    ensures var info := Infos(tables, cls, lines)[j];
            && (info.isComment <==> IsCommentLine(lines[j]))
            && info.announces == AnnouncementOf(cls, lines[j])
            && (p in info.pathParams <==> SaysPathParam(tables, cls, lines[j], p))
            && (p in info.queryParams <==> SaysQueryParam(tables, cls, lines[j], p))
  {
    InfoAt(tables, cls, lines, j);
    var found := cls.queryParams(TrimSpace(lines[j]));
    if found.Some? {
      ChunksIff(tables, Split(found.value, ','), p);
    }
  }

  lemma ParamsAreSaid(tables: Tables, cls: Classifiers, lines: seq<string>, from: nat, to: nat)
    requires to <= |lines|
    ensures var infos := Infos(tables, cls, lines);
            AreSaid(tables, cls, lines, from, to, SaidPathParams(infos, from, to), SaidQueryParams(infos, from, to))
  {
    var infos := Infos(tables, cls, lines);
    forall p
      ensures p in SaidPathParams(infos, from, to) <==>
              exists j :: from <= j < to && SaysPathParam(tables, cls, lines[j], p)
      ensures p in SaidQueryParams(infos, from, to) <==>
              exists j :: from <= j < to && SaysQueryParam(tables, cls, lines[j], p)
    {
      ParamIsSaid(tables, cls, lines, from, to, p);
    }
  }

  lemma ParamIsSaid(tables: Tables, cls: Classifiers, lines: seq<string>, from: nat, to: nat, p: ParamDef)
    requires to <= |lines|
    ensures var infos := Infos(tables, cls, lines);
            && (p in SaidPathParams(infos, from, to) <==>
                  exists j :: from <= j < to && SaysPathParam(tables, cls, lines[j], p))
            && (p in SaidQueryParams(infos, from, to) <==>
                  exists j :: from <= j < to && SaysQueryParam(tables, cls, lines[j], p))
  {
    var infos := Infos(tables, cls, lines);
    SaidPathIff(infos, from, to, p);
    SaidQueryIff(infos, from, to, p);
    forall j | from <= j < to
      ensures p in infos[j].pathParams <==> SaysPathParam(tables, cls, lines[j], p)
      ensures p in infos[j].queryParams <==> SaysQueryParam(tables, cls, lines[j], p)
    {
      InfoSays(tables, cls, lines, j, p);
    }
  }

  lemma {:induction false} CommentLines(tables: Tables, cls: Classifiers, lines: seq<string>)
    ensures forall j :: 0 <= j < |lines| ==> (Infos(tables, cls, lines)[j].isComment <==> IsCommentLine(lines[j]))
  {
    forall j | 0 <= j < |lines|
      ensures Infos(tables, cls, lines)[j].isComment <==> IsCommentLine(lines[j])
    {
      InfoAt(tables, cls, lines, j);
    }
  }

  lemma WindowIs(infos: seq<LineInfo>, lines: seq<string>, i: nat)
    requires i < |infos| == |lines|
    requires forall j :: 0 <= j < |lines| ==> (infos[j].isComment <==> IsCommentLine(lines[j]))
    ensures IsWindow(lines, i, WindowEnd(infos, i + 1, i + 6))
  {
    WindowIsLongestRun(infos, i + 1, i + 6);
  }

  lemma WindowOfHeader(tables: Tables, cls: Classifiers, lines: seq<string>, i: nat, e: int)
    requires i < |lines| && e == WindowEnd(Infos(tables, cls, lines), i + 1, i + 6)
    ensures IsWindow(lines, i, e)
  {
    CommentLines(tables, cls, lines);
    WindowIs(Infos(tables, cls, lines), lines, i);
  }

  lemma AnnouncedAt(tables: Tables, cls: Classifiers, lines: seq<string>, i: nat)
    requires i < |lines|
    ensures Infos(tables, cls, lines)[i].announces == AnnouncementOf(cls, lines[i])
  {
    InfoAt(tables, cls, lines, i);
  }

  // The header of a file that starts on a given line.
  lemma HeaderOfFile(tables: Tables, cls: Classifiers, content: string, h: Header)
    requires h in FileHeaders(tables, cls, content)
    ensures var lines := Split(content, '\n');
            h.start < |lines| && HeaderAt(Infos(tables, cls, lines), lines, h.start) == Some(h)
  {
    var lines := Split(content, '\n');
    var infos := Infos(tables, cls, lines);
    HeadersAreWindowed(infos, lines);
    HeadersStartLater(HeadersByLine(infos, lines, |lines|), 0);
    HeadersByLineAt(infos, lines, |lines|, h.start);
  }

  lemma PartsOfHeader(infos: seq<LineInfo>, lines: seq<string>, i: nat, h: Header)
    requires i < |infos| == |lines| && HeaderAt(infos, lines, i) == Some(h)
    ensures h.start == i && h.end == WindowEnd(infos, i + 1, i + 6) && h.body == FunctionBody(lines, h.end + 1)
  {
  }

  /** Every header of a file starts on a line that announces what it says. */
  lemma HeadersAnnounce(tables: Tables, cls: Classifiers, content: string, h: Header)
    requires h in FileHeaders(tables, cls, content)
    ensures var lines := Split(content, '\n');
            h.start < |lines| && AnnouncementOf(cls, lines[h.start]) == Some(h.said)
  {
    HeaderOfFile(tables, cls, content, h);
    AnnouncedAt(tables, cls, Split(content, '\n'), h.start);
  }

  /** Its window is the longest run of comment lines after that line, six at most. */
  lemma HeadersHaveWindows(tables: Tables, cls: Classifiers, content: string, h: Header)
    requires h in FileHeaders(tables, cls, content)
    ensures IsWindow(Split(content, '\n'), h.start, h.end)
  {
    var lines := Split(content, '\n');
    HeaderOfFile(tables, cls, content, h);
    assert h.end == WindowEnd(Infos(tables, cls, lines), h.start + 1, h.start + 6) by {
      PartsOfHeader(Infos(tables, cls, lines), lines, h.start, h);
    }
    WindowOfHeader(tables, cls, lines, h.start, h.end);
  }

  /** Its parameters are what the lines of the window say. */
  lemma HeadersSay(tables: Tables, cls: Classifiers, content: string, h: Header)
    requires h in FileHeaders(tables, cls, content)
    ensures var lines := Split(content, '\n');
            h.end < |lines| && AreSaid(tables, cls, lines, h.start + 1, h.end + 1, h.pathParams, h.queryParams)
  {
    HeaderOfFile(tables, cls, content, h);
    ParamsAreSaid(tables, cls, Split(content, '\n'), h.start + 1, h.end + 1);
  }

  /** Its body is that of the function on the line after the window. */
  lemma HeadersHaveBodies(tables: Tables, cls: Classifiers, content: string, h: Header)
    requires h in FileHeaders(tables, cls, content)
    ensures h.body == FunctionBody(Split(content, '\n'), h.end + 1)
  {
    var lines := Split(content, '\n');
    HeaderOfFile(tables, cls, content, h);
    PartsOfHeader(Infos(tables, cls, lines), lines, h.start, h);
  }
}
