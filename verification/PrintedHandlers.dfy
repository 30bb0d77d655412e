/** A handler printed as an announcement, comments and a function is read back with what its function reads. */
module PrintedHandlers {
  import opened Wrappers
  import opened Strings
  import opened Params
  import opened MergeAlgebra
  import opened MergeLaws
  import opened Parameters
  import opened FunctionBodies
  import opened Handlers
  import opened HandlerFiles
  import opened EndpointParams

  /** The lines of a file with one handler, and what stands before and after it. */
  datatype Source = Source(
    before: seq<string>,
    announcement: string,
    comments: seq<string>,
    func: seq<string>,
    after: seq<string>)

  function Lines(s: Source): seq<string> {
    s.before + [s.announcement] + s.comments + s.func + s.after
  }

  function FuncStart(s: Source): nat {
    |s.before| + 1 + |s.comments|
  }

  // A function that opens a brace on its first line, whose braces balance on its last
  // line and not before.
  ghost predicate IsFunction(func: seq<string>) {
    && func != [] && (exists rest :: TrimSpace(func[0]) == "func " + rest) && '{' in func[0]
    && IsBalanced(func, 0, |func| - 1) && forall j :: 0 <= j < |func| - 1 ==> !IsBalanced(func, 0, j)
  }

  // Nothing is announced before, and the comments fit.
  ghost predicate IsSource(cls: Classifiers, s: Source) {
    && (forall l :: l in Lines(s) ==> '\n' !in l)
    && (forall l :: l in s.before ==> AnnouncementOf(cls, l).None?)
    && AnnouncementOf(cls, s.announcement).Some?
    && |s.comments| <= 6 && (forall l :: l in s.comments ==> IsCommentLine(l))
    && IsFunction(s.func)
  }

  lemma LinesAt(s: Source, i: nat)
    requires i < |Lines(s)|
    ensures i < |s.before| ==> Lines(s)[i] == s.before[i]
    ensures i == |s.before| ==> Lines(s)[i] == s.announcement
    ensures |s.before| < i < FuncStart(s) ==> Lines(s)[i] == s.comments[i - |s.before| - 1]
    ensures FuncStart(s) <= i < FuncStart(s) + |s.func| ==> Lines(s)[i] == s.func[i - FuncStart(s)]
  {
  }

  lemma FuncIsNoComment(line: string)
    requires exists rest :: TrimSpace(line) == "func " + rest
    ensures !IsCommentLine(line)
  {
    var rest :| TrimSpace(line) == "func " + rest;
    assert TrimSpace(line)[0] == 'f' && "//"[0] == '/';
  }

  lemma BalanceOfPart(lines: seq<string>, m: nat, i: nat, func: seq<string>, j: nat)
    requires j < |func| && m + |func| <= |lines| && lines[m..m + |func|] == func && i == m + j
    ensures IsBalanced(lines, m, i) <==> IsBalanced(func, 0, j)
  {
    assert lines[m..i + 1] == lines[m..m + |func|][..j + 1] == func[0..j + 1];
  }

  lemma BalanceOfParts(lines: seq<string>, m: nat, func: seq<string>, e: nat)
    requires IsFunction(func) && m + |func| == e + 1 <= |lines| && lines[m..m + |func|] == func
    ensures IsBalanced(lines, m, e) && forall j :: m <= j < e ==> !IsBalanced(lines, m, j)
  {
    BalanceOfPart(lines, m, e, func, |func| - 1);
    forall j | m <= j < e ensures !IsBalanced(lines, m, j) {
      BalanceOfPart(lines, m, j, func, j - m);
    }
  }

  lemma FirstOfPart(lines: seq<string>, m: nat, func: seq<string>)
    requires func != [] && m + |func| <= |lines| && lines[m..m + |func|] == func
    ensures lines[m] == func[0]
  {
    assert lines[m..m + |func|][0] == lines[m];
  }

  /** The body of a function is all its text. */
  lemma BodyOfFunction(lines: seq<string>, m: nat, func: seq<string>, e: nat)
    requires IsFunction(func) && m + |func| == e + 1 <= |lines| && lines[m..e + 1] == func
    ensures FunctionBody(lines, m) == Join(func, '\n') + "\n"
  {
    FirstOfPart(lines, m, func);
    BalanceOfParts(lines, m, func, e);
    BodySpansBraces(lines, m, m, e);
  }

  lemma BodyOfSource(s: Source, m: nat)
    requires IsFunction(s.func) && m == FuncStart(s)
    ensures FunctionBody(Lines(s), m) == Join(s.func, '\n') + "\n"
  {
    var e := m + |s.func| - 1;
    assert Lines(s)[m..e + 1] == s.func;
    BodyOfFunction(Lines(s), m, s.func, e);
  }

  lemma WindowOfSource(cls: Classifiers, s: Source, end: nat)
    requires IsSource(cls, s) && IsWindow(Lines(s), |s.before|, end)
    ensures end + 1 == FuncStart(s)
  {
    LinesAt(s, FuncStart(s));
    FuncIsNoComment(s.func[0]);
    if end + 1 < FuncStart(s) {
      LinesAt(s, end + 1);
    }
  }

  // A window that holds the announcement starts with it.
  lemma StartOfSource(cls: Classifiers, s: Source, start: nat)
    requires IsSource(cls, s) && start <= |s.before| && AnnouncementOf(cls, Lines(s)[start]).Some?
    ensures start == |s.before|
  {
    LinesAt(s, start);
  }

  lemma KeptAnnouncement(tables: Tables, cls: Classifiers, s: Source) returns (h: Header)
    requires IsSource(cls, s)
    ensures h in FileHeaders(tables, cls, Join(Lines(s), '\n')) && h.start <= |s.before|
    ensures Split(Join(Lines(s), '\n'), '\n') == Lines(s)
  {
    JoinSplit(Lines(s), '\n');
    LinesAt(s, |s.before|);
    AnnouncementsAreKept(tables, cls, Join(Lines(s), '\n'), |s.before|);
    h :| h in FileHeaders(tables, cls, Join(Lines(s), '\n')) && h.start <= |s.before| <= h.end;
  }

  lemma SaidOfSource(tables: Tables, cls: Classifiers, s: Source, content: string, h: Header)
    requires IsSource(cls, s) && Split(content, '\n') == Lines(s)
    requires h in FileHeaders(tables, cls, content) && h.start <= |s.before|
    ensures h.start == |s.before| && Some(h.said) == AnnouncementOf(cls, s.announcement)
  {
    HeadersAnnounce(tables, cls, content, h);
    StartOfSource(cls, s, h.start);
    LinesAt(s, h.start);
  }

  lemma EndOfSource(tables: Tables, cls: Classifiers, s: Source, content: string, h: Header)
    requires IsSource(cls, s) && Split(content, '\n') == Lines(s)
    requires h in FileHeaders(tables, cls, content) && h.start == |s.before|
    ensures h.end + 1 == FuncStart(s)
  {
    HeadersHaveWindows(tables, cls, content, h);
    WindowOfSource(cls, s, h.end);
  }

  lemma TextOfSource(tables: Tables, cls: Classifiers, s: Source, content: string, h: Header)
    requires IsFunction(s.func) && Split(content, '\n') == Lines(s)
    requires h in FileHeaders(tables, cls, content) && h.end + 1 == FuncStart(s)
    ensures h.body == Join(s.func, '\n') + "\n"
  {
    BodyOfSource(s, h.end + 1);
    HeadersHaveBodies(tables, cls, content, h);
  }

  /** The file has a header for the handler, with what its line announces and the text of its function. */
  lemma SourceHasHeader(tables: Tables, cls: Classifiers, s: Source) returns (h: Header)
    requires IsSource(cls, s)
    ensures h in FileHeaders(tables, cls, Join(Lines(s), '\n'))
    ensures Some(h.said) == AnnouncementOf(cls, s.announcement) && h.body == Join(s.func, '\n') + "\n"
  {
    var content := Join(Lines(s), '\n');
    h := KeptAnnouncement(tables, cls, s);
    SaidOfSource(tables, cls, s, content, h);
    EndOfSource(tables, cls, s, content, h);
    TextOfSource(tables, cls, s, content, h);
  }

  /**
   Round trip: the endpoints of the file include one with what the line announces, and
   with a query parameter for every name its function reads from the query or a form.
   */
  lemma HandlerRoundTrip(tables: Tables, cls: Classifiers, s: Source, eps: seq<ParsedEndpoint>)
    returns (ep: ParsedEndpoint)
    requires IsSource(cls, s) && AreEndpoints(tables, cls, FileHeaders(tables, cls, Join(Lines(s), '\n')), eps)
    ensures ep in eps && Some(ep.said) == AnnouncementOf(cls, s.announcement)
    ensures var body := Join(s.func, '\n') + "\n";
            forall n :: n in cls.queryGets(body) || n in cls.formValues(body) ==>
              exists p :: p in ep.queryParams && p.name == n && p.location == "query"
  {
    var content := Join(Lines(s), '\n');
    var h := SourceHasHeader(tables, cls, s);
    FileHeadersAreSound(tables, cls, content);
    var k :| 0 <= k < |eps| && FileHeaders(tables, cls, content)[k] == h;
    ep := eps[k];
    forall n | n in cls.queryGets(h.body) || n in cls.formValues(h.body)
      ensures exists p :: p in ep.queryParams && p.name == n && p.location == "query"
    {
      ReadNameIsTold(tables, cls, h, ep.queryParams, n);
    }
  }

  /** Every name that the body reads has a query parameter. */
  lemma ReadNameIsTold(tables: Tables, cls: Classifiers, h: Header, ps: seq<ParamDef>, n: string)
    requires IsSoundHeader(tables, h) && Tells(tables, cls, InQuery, h, ps)
    requires n in cls.queryGets(h.body) || n in cls.formValues(h.body)
    ensures exists p :: p in ps && p.name == n && p.location == "query"
  {
    var k := KeyOf(InQuery, n);
    assert k[|KeyOf(InQuery, "")|..] == n;
    assert FoundDef(tables, cls, InQuery, h, k).Some?;
    ToldParamsHaveKeys(tables, cls, InQuery, h, ps, k);
    ToldParamsArePlaced(tables, cls, InQuery, h, ps);
    var j :| 0 <= j < |ps| && ParamKey(ps[j]) == k;
    assert ps[j] in ps;
    KeyAt(InQuery, ps[j], k);
  }
}
