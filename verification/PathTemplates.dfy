/**
 Path templates: the two placeholder patterns of the generator, `\{([^}:]+)(?::[^}]+)?\}`
 and `\{([^}]+)\}`, as leftmost scanners, and the rewritings built on them.
 */
module PathTemplates {
  import opened Wrappers
  import opened Strings

  // ----- The pattern {name} or {name:regex} -----

  predicate IsName(name: string) {
    name != "" && forall i :: 0 <= i < |name| ==> name[i] != '}' && name[i] != ':'
  }

  predicate IsRegex(regex: string) {
    regex != "" && forall i :: 0 <= i < |regex| ==> regex[i] != '}'
  }

  /** The text of a placeholder, with its optional regular expression. */
  function Placeholder(name: string, regex: Option<string>): string {
    match regex
    case None => "{" + name + "}"
    case Some(r) => "{" + name + ":" + r + "}"
  }

  predicate IsPlaceholder(name: string, regex: Option<string>) {
    IsName(name) && (regex.Some? ==> IsRegex(regex.value))
  }

  // Index of the first '}' or ':' at or after i, or |s|.
  function NameEnd(s: string, i: nat): (e: nat)
    requires i <= |s|
    ensures i <= e <= |s|
    ensures forall j :: i <= j < e ==> s[j] != '}' && s[j] != ':'
    ensures e < |s| ==> s[e] == '}' || s[e] == ':'
    decreases |s| - i
  {
    if i == |s| || s[i] == '}' || s[i] == ':' then i else NameEnd(s, i + 1)
  }

  datatype Match = Match(name: string, regex: Option<string>, len: nat)

  /** The match of the pattern that begins at the first character of s, if there is one. */
  function MatchAt(s: string): (m: Option<Match>)
    ensures m.Some? ==> 0 < m.value.len <= |s|
  {
    if s == "" || s[0] != '{' then None else
    var n := NameEnd(s, 1);
    if n == 1 || n == |s| then None
    else if s[n] == '}' then Some(Match(s[1..n], None, n + 1))
    else
      var c := IndexFrom(s, n + 1, '}');
      if c == n + 1 || c == |s| then None else Some(Match(s[1..n], Some(s[n + 1..c]), c + 1))
  }

  // A match is a placeholder that the string begins with.
  lemma MatchIsPlaceholder(s: string)
    requires MatchAt(s).Some?
    ensures var m := MatchAt(s).value;
            IsPlaceholder(m.name, m.regex) && s[..m.len] == Placeholder(m.name, m.regex)
  {
  }

  // A string that begins with a placeholder matches that placeholder, and no other.
  lemma PlaceholderMatches(name: string, regex: Option<string>, rest: string)
    requires IsPlaceholder(name, regex)
    ensures var t := Placeholder(name, regex);
            MatchAt(t + rest) == Some(Match(name, regex, |t|)) && (t + rest)[|t|..] == rest
  {
    var t := Placeholder(name, regex);
    var s := t + rest;
    var k := 1 + |name|;
    assert t[1..k] == name;
    assert s[1..k] == t[1..k];
    assert forall i :: 1 <= i < k ==> s[i] == name[i - 1];
    if regex.Some? {
      var r := regex.value;
      var c := k + 1 + |r|;
      assert t[k + 1..c] == r;
      assert s[k + 1..c] == t[k + 1..c];
      assert forall i :: k + 1 <= i < c ==> s[i] == r[i - k - 1];
      assert s[k] == ':' && s[c] == '}';
      assert NameEnd(s, 1) == k && IndexFrom(s, k + 1, '}') == c;
    } else {
      assert s[k] == '}';
      assert NameEnd(s, 1) == k;
    }
  }

  // ----- Rewriting every match -----

  /** Every match becomes `{name}` when names are kept and `{}` when they are not. */
  function Rewrite(s: string, keepNames: bool): string
    decreases |s|
  {
    if s == "" then ""
    else match MatchAt(s)
      case None => [s[0]] + Rewrite(s[1..], keepNames)
      case Some(m) => "{" + (if keepNames then m.name else "") + "}" + Rewrite(s[m.len..], keepNames)
  }

  function NormalizeOpenAPIPath(path: string): string {
    Rewrite(path, true)
  }

  function PathPattern(path: string): string {
    Rewrite(path, false)
  }

  function EndpointKey(verb: string, path: string): string {
    ToUpper(verb) + ":" + PathPattern(path)
  }

  lemma {:induction false} RewriteWithoutClose(s: string, keepNames: bool)
    requires '}' !in s
    ensures Rewrite(s, keepNames) == s
    decreases |s|
  {
    if s != "" {
      assert MatchAt(s).None?;
      RewriteWithoutClose(s[1..], keepNames);
    }
  }

  // A run of name characters closed by ":}" is left alone.
  lemma {:induction false} RewriteKeepsEmptyRegex(s: string, n: nat, keepNames: bool)
    requires n + 2 <= |s| && s[n] == ':' && s[n + 1] == '}'
    requires forall i :: 0 <= i < n ==> s[i] != '}' && s[i] != ':'
    ensures s[..n + 2] <= Rewrite(s, keepNames)
    decreases n
  {
    var tail := s[1..];
    assert MatchAt(s).None? by {
      if s[0] == '{' {
        assert NameEnd(s, 1) == n;
      }
    }
    if n == 0 {
      assert tail[0] == '}';
      assert MatchAt(tail).None?;
    } else {
      RewriteKeepsEmptyRegex(tail, n - 1, keepNames);
      assert s[..n + 2] == [s[0]] + tail[..n + 1];
    }
  }

  // An opening brace fails to match for one of three reasons.
  lemma WhyNoMatch(s: string)
    requires s != "" && s[0] == '{' && MatchAt(s).None?
    ensures var n := NameEnd(s, 1);
            || n == 1
            || '}' !in s
            || (n + 1 < |s| && s[n] == ':' && s[n + 1] == '}')
  {
  }

  lemma NoNameNoMatch(s: string)
    requires s == "{" || (|s| > 1 && (s[1] == '}' || s[1] == ':'))
    ensures MatchAt(s).None?
  {
  }

  lemma NoRegexNoMatch(s: string, n: nat)
    requires 1 <= n && n + 2 <= |s| && s[n] == ':' && s[n + 1] == '}'
    requires forall i :: 1 <= i < n ==> s[i] != '}' && s[i] != ':'
    ensures MatchAt(s).None?
  {
    assert NameEnd(s, 1) == n;
    assert IndexFrom(s, n + 1, '}') == n + 1;
  }

  // Where nothing matched, nothing matches after the rest has been rewritten.
  lemma NoMatchIsStable(s: string, keepNames: bool)
    requires s != "" && MatchAt(s).None?
    ensures MatchAt([s[0]] + Rewrite(s[1..], keepNames)).None?
  {
    if s[0] == '{' {
      var tail := s[1..];
      var q := Rewrite(tail, keepNames);
      var r := [s[0]] + q;
      var n := NameEnd(s, 1);
      WhyNoMatch(s);
      if '}' !in s {
        RewriteWithoutClose(tail, keepNames);
        assert r == s;
      } else if n == 1 {
        assert tail != "" ==> tail[0] == s[1];
        NoNameNoMatch(r);
      } else {
        assert forall i :: 0 <= i < n + 1 ==> tail[i] == s[i + 1];
        RewriteKeepsEmptyRegex(tail, n - 1, keepNames);
        assert forall i :: 0 <= i < n + 1 ==> q[i] == tail[..n + 1][i];
        assert forall i :: 1 <= i < n + 2 ==> r[i] == s[i];
        NoRegexNoMatch(r, n);
      }
    }
  }

  lemma EmptyBracesDoNotMatch(rest: string)
    ensures Rewrite("{}" + rest, false) == "{}" + Rewrite(rest, false)
    ensures Rewrite("{}" + rest, true) == "{}" + Rewrite(rest, true)
  {
    var s := "{}" + rest;
    var u := s[1..];
    assert s[0] == '{' && s[1] == '}';
    assert NameEnd(s, 1) == 1;
    assert MatchAt(s).None?;
    assert u[0] == '}' && u[1..] == rest;
    assert MatchAt(u).None?;
    forall keepNames ensures Rewrite(s, keepNames) == "{}" + Rewrite(rest, keepNames) {
      assert Rewrite(u, keepNames) == "}" + Rewrite(rest, keepNames);
      assert Rewrite(s, keepNames) == "{" + ("}" + Rewrite(rest, keepNames));
    }
  }

  lemma UnmatchedComposes(s: string, first: bool, second: bool)
    requires s != "" && MatchAt(s).None?
    requires Rewrite(Rewrite(s[1..], first), second) == Rewrite(s[1..], first && second)
    ensures Rewrite(Rewrite(s, first), second) == Rewrite(s, first && second)
  {
    NoMatchIsStable(s, first);
    var r := Rewrite(s, first);
    assert r[0] == s[0] && r[1..] == Rewrite(s[1..], first);
  }

  lemma NamedComposes(s: string, second: bool)
    requires MatchAt(s).Some?
    requires var tail := s[MatchAt(s).value.len..];
             Rewrite(Rewrite(tail, true), second) == Rewrite(tail, second)
    ensures Rewrite(Rewrite(s, true), second) == Rewrite(s, second)
  {
    var m := MatchAt(s).value;
    var rest := Rewrite(s[m.len..], true);
    MatchIsPlaceholder(s);
    PlaceholderMatches(m.name, None, rest);
    assert Rewrite(s, true) == Placeholder(m.name, None) + rest;
  }

  lemma UnnamedStep(s: string)
    requires MatchAt(s).Some?
    ensures Rewrite(s, false) == "{}" + Rewrite(s[MatchAt(s).value.len..], false)
  {
  }

  lemma UnnamedComposes(s: string, second: bool)
    requires MatchAt(s).Some?
    requires var tail := s[MatchAt(s).value.len..];
             Rewrite(Rewrite(tail, false), second) == Rewrite(tail, false)
    ensures Rewrite(Rewrite(s, false), second) == Rewrite(s, false)
  {
    UnnamedStep(s);
    EmptyBracesAgain(Rewrite(s[MatchAt(s).value.len..], false), second);
  }

  lemma EmptyBracesAgain(rest: string, keepNames: bool)
    requires Rewrite(rest, keepNames) == rest
    ensures Rewrite("{}" + rest, keepNames) == "{}" + rest
  {
    EmptyBracesDoNotMatch(rest);
  }

  /**
   Rewriting twice is rewriting once, keeping names only if both passes keep them.
   */
  lemma {:induction false} RewriteComposes(s: string, first: bool, second: bool)
    ensures Rewrite(Rewrite(s, first), second) == Rewrite(s, first && second)
    decreases |s|
  {
    if s != "" {
      match MatchAt(s)
      case None =>
        RewriteComposes(s[1..], first, second);
        UnmatchedComposes(s, first, second);
      case Some(m) =>
        RewriteComposes(s[m.len..], first, second);
        if first {
          NamedComposes(s, second);
        } else {
          UnnamedComposes(s, second);
        }
    }
  }

  /** Normal forms are stable, and normalising a path does not change its endpoint key. */
  lemma NormalFormsAreStable(verb: string, path: string)
    ensures NormalizeOpenAPIPath(NormalizeOpenAPIPath(path)) == NormalizeOpenAPIPath(path)
    ensures PathPattern(PathPattern(path)) == PathPattern(path)
    ensures PathPattern(NormalizeOpenAPIPath(path)) == PathPattern(path)
    ensures EndpointKey(verb, NormalizeOpenAPIPath(path)) == EndpointKey(verb, path)
  {
    RewriteComposes(path, true, true);
    RewriteComposes(path, false, false);
    RewriteComposes(path, true, false);
  }

  // ----- The pattern {name} on normalised paths -----

  /** Every leftmost `{...}` with something between the braces, in order. */
  function ExtractPathParamNames(path: string): (names: seq<string>)
    ensures forall n :: n in names ==> n != ""
    decreases |path|
  {
    if path == "" then []
    else
      var c := IndexFrom(path, 1, '}');
      if path[0] == '{' && 1 < c < |path| then [path[1..c]] + ExtractPathParamNames(path[c + 1..])
      else ExtractPathParamNames(path[1..])
  }

  // ----- Templates as structured lists -----

  /** A template is a list of literal characters and placeholders. */
  datatype Segment = Literal(c: char) | Param(name: string, regex: Option<string>)

  predicate IsTemplate(t: seq<Segment>) {
    forall i :: 0 <= i < |t| ==>
      match t[i] case Literal(c) => c != '{' case Param(name, regex) => IsPlaceholder(name, regex)
  }

  function PrintSegment(g: Segment): string {
    match g case Literal(c) => [c] case Param(name, regex) => Placeholder(name, regex)
  }

  function Print(t: seq<Segment>): string {
    if t == [] then "" else PrintSegment(t[0]) + Print(t[1..])
  }

  function ParamNames(t: seq<Segment>): seq<string> {
    if t == [] then []
    else (if t[0].Param? then [t[0].name] else []) + ParamNames(t[1..])
  }

  /** What identifies the endpoint: the literals, and where the placeholders stand. */
  function Skeleton(t: seq<Segment>): seq<Option<char>> {
    if t == [] then [] else [Mark(t[0])] + Skeleton(t[1..])
  }

  function Mark(g: Segment): Option<char> {
    match g case Literal(c) => Some(c) case Param(name, regex) => None
  }

  function PrintMark(m: Option<char>): string {
    match m case Some(c) => [c] case None => "{}"
  }

  function WithoutRegexes(t: seq<Segment>): seq<Segment> {
    if t == [] then [] else [WithoutRegex(t[0])] + WithoutRegexes(t[1..])
  }

  function WithoutRegex(g: Segment): Segment {
    match g case Literal(c) => g case Param(name, regex) => Param(name, None)
  }

  lemma PrintCons(g: Segment, rest: seq<Segment>)
    ensures Print([g] + rest) == PrintSegment(g) + Print(rest)
  {
    assert ([g] + rest)[1..] == rest;
  }

  lemma LiteralStep(c: char, rest: string, keepNames: bool)
    requires c != '{'
    ensures Rewrite([c] + rest, keepNames) == [c] + Rewrite(rest, keepNames)
    ensures ExtractPathParamNames([c] + rest) == ExtractPathParamNames(rest)
  {
    assert ([c] + rest)[1..] == rest;
  }

  lemma ExtractInner(inner: string, rest: string)
    requires IsRegex(inner)
    ensures ExtractPathParamNames("{" + inner + "}" + rest) == [inner] + ExtractPathParamNames(rest)
  {
    var s, n := "{" + inner + "}" + rest, |inner|;
    assert s[1..1 + n] == inner && s[n + 2..] == rest;
    assert forall i :: 1 <= i < 1 + n ==> s[i] == inner[i - 1];
    assert s[1 + n] == '}';
    assert IndexFrom(s, 1, '}') == 1 + n;
  }

  lemma ExtractStep(name: string, rest: string)
    requires IsName(name)
    ensures ExtractPathParamNames(Placeholder(name, None) + rest) == [name] + ExtractPathParamNames(rest)
  {
    ExtractInner(name, rest);
  }

  // Normalising a printed template drops the regular expressions and nothing else.
  lemma {:induction false} NormalizePrinted(t: seq<Segment>)
    requires IsTemplate(t)
    ensures NormalizeOpenAPIPath(Print(t)) == Print(WithoutRegexes(t))
  {
    if t != [] {
      var tail := t[1..];
      NormalizePrinted(tail);
      NormalizeSegment(t[0], Print(tail));
      PrintCons(WithoutRegex(t[0]), WithoutRegexes(tail));
    }
  }

  lemma ParamStep(name: string, regex: Option<string>, rest: string, keepNames: bool)
    requires IsPlaceholder(name, regex)
    ensures Rewrite(Placeholder(name, regex) + rest, keepNames) ==
            "{" + (if keepNames then name else "") + "}" + Rewrite(rest, keepNames)
  {
    PlaceholderMatches(name, regex, rest);
  }

  lemma NormalizeSegment(g: Segment, rest: string)
    requires IsTemplate([g])
    ensures Rewrite(PrintSegment(g) + rest, true) == PrintSegment(WithoutRegex(g)) + Rewrite(rest, true)
  {
    assert [g][0] == g;
    match g
    case Literal(c) => LiteralStep(c, rest, true);
    case Param(name, regex) => ParamStep(name, regex, rest, true);
  }

  lemma PatternSegment(g: Segment, rest: string)
    requires IsTemplate([g])
    ensures Rewrite(PrintSegment(g) + rest, false) == PrintMark(Mark(g)) + Rewrite(rest, false)
  {
    assert [g][0] == g;
    match g
    case Literal(c) => LiteralStep(c, rest, false);
    case Param(name, regex) =>
      ParamStep(name, regex, rest, false);
      assert "{" + "" + "}" == "{}";
  }

  lemma ExtractSegment(g: Segment, rest: string)
    requires IsTemplate([g])
    ensures ExtractPathParamNames(PrintSegment(WithoutRegex(g)) + rest) ==
            (if g.Param? then [g.name] else []) + ExtractPathParamNames(rest)
  {
    assert [g][0] == g;
    match g
    case Literal(c) => LiteralStep(c, rest, true);
    case Param(name, regex) => ExtractStep(name, rest);
  }

  lemma {:induction false} ExtractPrinted(t: seq<Segment>)
    requires IsTemplate(t)
    ensures ExtractPathParamNames(Print(WithoutRegexes(t))) == ParamNames(t)
  {
    if t != [] {
      ExtractPrinted(t[1..]);
      PrintCons(WithoutRegex(t[0]), WithoutRegexes(t[1..]));
      assert IsTemplate([t[0]]);
      ExtractSegment(t[0], Print(WithoutRegexes(t[1..])));
    }
  }

  /** Round trip: the names of a printed template come back, in order, after normalisation. */
  lemma {:induction false} ExtractAfterNormalize(t: seq<Segment>)
    requires IsTemplate(t)
    ensures ExtractPathParamNames(NormalizeOpenAPIPath(Print(t))) == ParamNames(t)
  {
    NormalizePrinted(t);
    ExtractPrinted(t);
  }

  // What stands between the braces of a placeholder.
  function Inner(g: Segment): seq<string> {
    match g
    case Literal(c) => []
    case Param(name, regex) => [if regex.None? then name else name + ":" + regex.value]
  }

  function Inners(t: seq<Segment>): seq<string> {
    if t == [] then [] else Inner(t[0]) + Inners(t[1..])
  }

  /** Without normalisation, what is extracted is all that stands between braces. */
  lemma {:induction false} ExtractUnnormalized(t: seq<Segment>)
    requires IsTemplate(t)
    ensures ExtractPathParamNames(Print(t)) == Inners(t)
  {
    if t != [] {
      ExtractUnnormalized(t[1..]);
      ExtractPlaceholder(t[0], Print(t[1..]));
    }
  }

  lemma ExtractPlaceholder(g: Segment, rest: string)
    requires IsTemplate([g])
    ensures ExtractPathParamNames(PrintSegment(g) + rest) == Inner(g) + ExtractPathParamNames(rest)
  {
    assert [g][0] == g;
    match g
    case Literal(c) => LiteralStep(c, rest, true);
    case Param(name, regex) =>
      ExtractInner(Inner(g)[0], rest);
      assert Placeholder(name, regex) == "{" + Inner(g)[0] + "}";
  }

  function PrintSkeleton(k: seq<Option<char>>): string {
    if k == [] then "" else PrintMark(k[0]) + PrintSkeleton(k[1..])
  }

  lemma {:induction false} PatternPrintsSkeleton(t: seq<Segment>)
    requires IsTemplate(t)
    ensures PathPattern(Print(t)) == PrintSkeleton(Skeleton(t)) && Some('{') !in Skeleton(t)
  {
    if t != [] {
      var tail := t[1..];
      PatternPrintsSkeleton(tail);
      PatternSegment(t[0], Print(tail));
      assert Skeleton(t)[1..] == Skeleton(tail);
    }
  }

  lemma {:induction false} SkeletonsPrintApart(j: seq<Option<char>>, k: seq<Option<char>>)
    requires Some('{') !in j && Some('{') !in k
    requires PrintSkeleton(j) == PrintSkeleton(k)
    ensures j == k
  {
    if j != [] && k != [] {
      var p, q := PrintSkeleton(j), PrintSkeleton(k);
      assert j[0] in j && k[0] in k;
      assert p[0] == PrintMark(j[0])[0] && q[0] == PrintMark(k[0])[0];
      assert j[0] == k[0];
      var w := |PrintMark(j[0])|;
      assert p[w..] == PrintSkeleton(j[1..]) && q[w..] == PrintSkeleton(k[1..]);
      SkeletonsPrintApart(j[1..], k[1..]);
      assert j == [j[0]] + j[1..] && k == [k[0]] + k[1..];
    }
  }

  /** The key of an endpoint: its method in upper case, a colon, and the template with empty braces. */
  lemma EndpointKeyIs(verb: string, t: seq<Segment>)
    requires IsTemplate(t)
    ensures EndpointKey(verb, Print(t)) == ToUpper(verb) + ":" + PrintSkeleton(Skeleton(t))
  {
    PatternPrintsSkeleton(t);
  }

  /**
   Two endpoints share a key exactly when their methods agree up to case and their
   templates agree up to the names and regular expressions of their placeholders.
   */
  lemma SameKeyIffSameEndpoint(m1: string, t1: seq<Segment>, m2: string, t2: seq<Segment>)
    requires IsTemplate(t1) && IsTemplate(t2)
    requires ':' !in m1 && ':' !in m2
    ensures EndpointKey(m1, Print(t1)) == EndpointKey(m2, Print(t2)) <==>
            ToUpper(m1) == ToUpper(m2) && Skeleton(t1) == Skeleton(t2)
  {
    PatternPrintsSkeleton(t1);
    PatternPrintsSkeleton(t2);
    if EndpointKey(m1, Print(t1)) == EndpointKey(m2, Print(t2)) {
      KeyParts(m1, PathPattern(Print(t1)), m2, PathPattern(Print(t2)));
      SkeletonsPrintApart(Skeleton(t1), Skeleton(t2));
    }
  }

  lemma KeyParts(m1: string, p1: string, m2: string, p2: string)
    requires ':' !in m1 && ':' !in m2
    requires ToUpper(m1) + ":" + p1 == ToUpper(m2) + ":" + p2
    ensures ToUpper(m1) == ToUpper(m2) && p1 == p2
  {
    assert forall i :: 0 <= i < |m1| ==> ToUpper(m1)[i] == UpperChar(m1[i]) && m1[i] in m1;
    assert forall i :: 0 <= i < |m2| ==> ToUpper(m2)[i] == UpperChar(m2[i]) && m2[i] in m2;
    CutIsUnique(ToUpper(m1), p1, ToUpper(m2), p2, ':');
  }
}
