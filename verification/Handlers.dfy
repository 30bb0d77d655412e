/** Discovering endpoints in the comments and bodies of handler files. */
module Handlers {
  import opened Wrappers
  import opened Strings
  import opened Sorting
  import opened PathTemplates
  import opened Params
  import opened Parameters

  /** What the comment and body patterns find: total functions of a line or a body. */
  datatype Classifiers = Classifiers(
    handles: string -> Option<(string, string)>,
    pathParam: string -> Option<(string, string)>,
    queryParams: string -> Option<string>,
    queryGets: string -> seq<string>,
    formValues: string -> seq<string>)

  // ----- Unique strings -----

  /** The first occurrence of each value, in order. */
  function Dedup(values: seq<string>): (r: seq<string>)
    ensures forall v :: v in r <==> v in values
    ensures Distinct(r)
  {
    if values == [] then []
    else
      var front, last := values[..|values| - 1], values[|values| - 1];
      assert values == front + [last];
      if last in front then Dedup(front) else Dedup(front) + [last]
  }

  method UniqueStrings(values: seq<string>) returns (r: seq<string>)
    ensures r == Dedup(values)
  {
    var seen: set<string> := {};
    r := [];
    for i := 0 to |values|
      invariant r == Dedup(values[..i])
      invariant forall v :: v in seen <==> v in values[..i]
    {
      assert values[..i + 1][..i] == values[..i];
      if values[i] !in seen {
        seen := seen + {values[i]};
        r := r + [values[i]];
      }
    }
    assert values[..|values|] == values;
  }

  // ----- "GET/POST /api/..." -----

  predicate IsHTTPMethod(value: string) {
    value in {"GET", "POST", "PUT", "PATCH", "DELETE"}
  }

  predicate IsVerb(value: string) {
    value in {"get", "post", "put", "patch", "delete"}
  }

  // The methods named by the pieces of one word.
  function VerbsOfPieces(pieces: seq<string>): (verbs: seq<string>)
    ensures forall v :: v in verbs ==> IsVerb(v)
  {
    if pieces == [] then []
    else
      var upper := ToUpper(TrimSpace(pieces[|pieces| - 1]));
      LowerVerb(upper);
      VerbsOfPieces(pieces[..|pieces| - 1]) + (if IsHTTPMethod(upper) then [ToLower(upper)] else [])
  }

  lemma LowerVerb(upper: string)
    ensures IsHTTPMethod(upper) ==> IsVerb(ToLower(upper))
  {
    if upper == "GET" { assert ToLower(upper) == "get"; }
    if upper == "POST" { assert ToLower(upper) == "post"; }
    if upper == "PUT" { assert ToLower(upper) == "put"; }
    if upper == "PATCH" { assert ToLower(upper) == "patch"; }
    if upper == "DELETE" { assert ToLower(upper) == "delete"; }
  }

  function VerbsOfWords(words: seq<string>): (verbs: seq<string>)
    ensures forall v :: v in verbs ==> IsVerb(v)
  {
    if words == [] then []
    else VerbsOfWords(words[..|words| - 1]) + VerbsOfPieces(Split(words[|words| - 1], '/'))
  }

  // Index of the first word at or after i that begins with "/api", or |words|.
  function FirstApi(words: seq<string>, i: nat): (p: nat)
    requires i <= |words|
    ensures i <= p <= |words|
    ensures p < |words| ==> HasPrefix(words[p], "/api")
    ensures forall j :: i <= j < p ==> !HasPrefix(words[j], "/api")
    decreases |words| - i
  {
    if i == |words| || HasPrefix(words[i], "/api") then i else FirstApi(words, i + 1)
  }

  datatype Route = Route(verbs: seq<string>, path: string)

  const PUNCTUATION := ".,;:!"

  /** Sentence punctuation is the full stop, the comma, the semicolon, the colon and the exclamation mark. */
  lemma PunctuationIs(c: char)
    ensures c in PUNCTUATION <==> c in {'.', ',', ';', ':', '!'}
  {
    assert PUNCTUATION[0] == '.' && PUNCTUATION[1] == ',' && PUNCTUATION[2] == ';';
    assert PUNCTUATION[3] == ':' && PUNCTUATION[4] == '!' && |PUNCTUATION| == 5;
  }

  predicate IsApiPath(path: string) {
    HasPrefix(path, "/api") && path[|path| - 1] !in PUNCTUATION
  }

  function ParsedRoute(routePart: string): Option<Route> {
    var parts := Fields(routePart);
    var p := FirstApi(parts, 0);
    if |parts| < 2 || p == |parts| then None
    else
      var verbs := Dedup(VerbsOfWords(parts[..p]));
      if verbs == [] then None else Some(Route(verbs, TrimRight(parts[p], PUNCTUATION)))
  }

  method CollectVerbs(words: seq<string>) returns (verbs: seq<string>)
    ensures verbs == VerbsOfWords(words)
  {
    verbs := [];
    for i := 0 to |words|
      invariant verbs == VerbsOfWords(words[..i])
    {
      ghost var before := verbs;
      var pieces := Split(words[i], '/');
      for j := 0 to |pieces|
        invariant verbs == before + VerbsOfPieces(pieces[..j])
      {
        assert pieces[..j + 1][..j] == pieces[..j];
        var upper := ToUpper(TrimSpace(pieces[j]));
        if IsHTTPMethod(upper) {
          verbs := verbs + [ToLower(upper)];
        }
      }
      assert pieces[..|pieces|] == pieces;
      assert words[..i + 1][..i] == words[..i];
    }
    assert words[..|words|] == words;
  }

  method ParseMethodsAndPath(routePart: string) returns (r: Option<Route>)
    ensures r == ParsedRoute(routePart)
  {
    var parts := Fields(routePart);
    if |parts| < 2 {
      return None;
    }
    var pathIndex := 0;
    while pathIndex < |parts| && !HasPrefix(parts[pathIndex], "/api")
      invariant pathIndex <= |parts|
      invariant FirstApi(parts, 0) == FirstApi(parts, pathIndex)
    {
      pathIndex := pathIndex + 1;
    }
    if pathIndex == |parts| {
      return None;
    }
    var methodsPart := Join(parts[..pathIndex], ' ');
    FieldsJoin(parts[..pathIndex]);
    var path := parts[pathIndex];
    if pathIndex + 1 < |parts| {
      FieldsJoin(parts[pathIndex..]);
      path := Fields(Join(parts[pathIndex..], ' '))[0];
    }
    path := TrimRight(path, PUNCTUATION);
    var verbs := CollectVerbs(Fields(methodsPart));
    verbs := UniqueStrings(verbs);
    if |verbs| == 0 {
      return None;
    }
    return Some(Route(verbs, path));
  }

  // ----- What is announced is what is parsed -----

  lemma {:induction false} VerbsOfPiecesAre(pieces: seq<string>, v: string)
    ensures v in VerbsOfPieces(pieces) <==>
            exists p :: p in pieces && IsHTTPMethod(ToUpper(TrimSpace(p))) && v == ToLower(ToUpper(TrimSpace(p)))
  {
    if pieces != [] {
      var front, last := pieces[..|pieces| - 1], pieces[|pieces| - 1];
      VerbsOfPiecesAre(front, v);
      assert pieces == front + [last];
    }
  }

  /** The methods read are exactly the pieces, between spaces and slashes, that name one in any case. */
  lemma {:induction false} VerbsOfWordsAre(words: seq<string>, v: string)
    ensures v in VerbsOfWords(words) <==>
            exists w, p :: w in words && p in Split(w, '/') && IsHTTPMethod(ToUpper(TrimSpace(p)))
                           && v == ToLower(ToUpper(TrimSpace(p)))
  {
    if words != [] {
      var front, last := words[..|words| - 1], words[|words| - 1];
      VerbsOfWordsAre(front, v);
      VerbsOfPiecesAre(Split(last, '/'), v);
      assert words == front + [last];
    }
  }

  // A method is named by some word before the first one that begins with "/api".
  ghost predicate NamesMethodAndPath(words: seq<string>) {
    exists j, w, p ::
      && 0 <= j < |words| && HasPrefix(words[j], "/api") && (forall k :: 0 <= k < j ==> !HasPrefix(words[k], "/api"))
      && w in words[..j] && p in Split(w, '/') && IsHTTPMethod(ToUpper(TrimSpace(p)))
  }

  /** A route is rejected exactly when it names no method or no path. */
  lemma RejectedIff(routePart: string)
    ensures ParsedRoute(routePart).Some? <==> NamesMethodAndPath(Fields(routePart))
  {
    var parts := Fields(routePart);
    var i := FirstApi(parts, 0);
    var verbs := VerbsOfWords(parts[..i]);
    if ParsedRoute(routePart).Some? {
      assert verbs[0] in verbs;
      VerbsOfWordsAre(parts[..i], verbs[0]);
      var w, p :| w in parts[..i] && p in Split(w, '/') && IsHTTPMethod(ToUpper(TrimSpace(p)));
      assert NamesMethodAndPath(parts);
    }
    if NamesMethodAndPath(parts) {
      var j, w, p :|
        && 0 <= j < |parts| && HasPrefix(parts[j], "/api") && (forall k :: 0 <= k < j ==> !HasPrefix(parts[k], "/api"))
        && w in parts[..j] && p in Split(w, '/') && IsHTTPMethod(ToUpper(TrimSpace(p)));
      assert j == i;
      VerbsOfWordsAre(parts[..i], ToLower(ToUpper(TrimSpace(p))));
      assert ToLower(ToUpper(TrimSpace(p))) in Dedup(verbs);
    }
  }

  function UpperVerbs(verbs: seq<string>): seq<string> {
    if verbs == [] then [] else UpperVerbs(verbs[..|verbs| - 1]) + [ToUpper(verbs[|verbs| - 1])]
  }

  predicate IsPlainWord(w: string) {
    IsWord(w) && '/' !in w
  }

  lemma UpperVerbIsMethod(v: string)
    ensures v == "get" ==> ToUpper(v) == "GET"
    ensures v == "post" ==> ToUpper(v) == "POST"
    ensures v == "put" ==> ToUpper(v) == "PUT"
    ensures v == "patch" ==> ToUpper(v) == "PATCH"
    ensures v == "delete" ==> ToUpper(v) == "DELETE"
  {
  }

  lemma VerbIsLetters(v: string)
    requires IsVerb(v)
    ensures v != "" && forall i :: 0 <= i < |v| ==> 'a' <= v[i] <= 'z'
  {
  }

  lemma UpperLetters(v: string)
    requires v != "" && forall i :: 0 <= i < |v| ==> 'a' <= v[i] <= 'z'
    ensures ToLower(ToUpper(v)) == v && ToUpper(ToUpper(v)) == ToUpper(v)
    ensures IsPlainWord(ToUpper(v)) && TrimSpace(ToUpper(v)) == ToUpper(v)
  {
    var u := ToUpper(v);
    assert forall i :: 0 <= i < |u| ==> 'A' <= u[i] <= 'Z';
    assert forall i :: 0 <= i < |u| ==> !IsSpace(u[i]);
    TrimmedWord(u);
  }

  lemma UpperVerb(v: string)
    requires IsVerb(v)
    ensures IsHTTPMethod(ToUpper(v)) && ToLower(ToUpper(v)) == v
    ensures IsPlainWord(ToUpper(v)) && TrimSpace(ToUpper(v)) == ToUpper(v) && ToUpper(ToUpper(v)) == ToUpper(v)
  {
    VerbIsLetters(v);
    UpperLetters(v);
    UpperVerbIsMethod(v);
  }

  lemma {:induction false} UpperVerbsAre(verbs: seq<string>)
    requires forall i :: 0 <= i < |verbs| ==> IsVerb(verbs[i])
    ensures |UpperVerbs(verbs)| == |verbs|
    ensures forall i :: 0 <= i < |verbs| ==> IsPlainWord(UpperVerbs(verbs)[i])
  {
    if verbs != [] {
      UpperVerbsAre(verbs[..|verbs| - 1]);
      UpperVerb(verbs[|verbs| - 1]);
    }
  }

  lemma OneMoreVerb(pieces: seq<string>, piece: string, verb: string)
    requires IsHTTPMethod(ToUpper(TrimSpace(piece))) && ToLower(ToUpper(TrimSpace(piece))) == verb
    ensures VerbsOfPieces(pieces + [piece]) == VerbsOfPieces(pieces) + [verb]
  {
    assert (pieces + [piece])[..|pieces|] == pieces;
  }

  lemma {:induction false} VerbsOfUpperVerbs(verbs: seq<string>)
    requires forall i :: 0 <= i < |verbs| ==> IsVerb(verbs[i])
    ensures VerbsOfPieces(UpperVerbs(verbs)) == verbs
  {
    if verbs != [] {
      var front, last := verbs[..|verbs| - 1], verbs[|verbs| - 1];
      VerbsOfUpperVerbs(front);
      assert IsHTTPMethod(ToUpper(TrimSpace(ToUpper(last)))) && ToLower(ToUpper(TrimSpace(ToUpper(last)))) == last by {
        UpperVerb(last);
      }
      OneMoreVerb(UpperVerbs(front), ToUpper(last), last);
      assert UpperVerbs(verbs) == UpperVerbs(front) + [ToUpper(last)];
      assert verbs == front + [last];
    }
  }

  lemma {:induction false} JoinedWord(parts: seq<string>)
    requires parts != [] && forall i :: 0 <= i < |parts| ==> IsPlainWord(parts[i])
    ensures IsWord(Join(parts, '/')) && Join(parts, '/')[0] != '/'
  {
    if |parts| > 1 {
      JoinedWord(parts[1..]);
    }
    assert parts[0][0] in parts[0];
  }

  lemma {:induction false} DedupOfDistinct(values: seq<string>)
    requires Distinct(values)
    ensures Dedup(values) == values
  {
    if values != [] {
      var front, last := values[..|values| - 1], values[|values| - 1];
      DedupOfDistinct(front);
      assert values == front + [last];
    }
  }

  lemma {:induction false} TrimRightOfMore(s: string, tail: string, cut: string)
    requires forall i :: 0 <= i < |tail| ==> tail[i] in cut
    requires s != "" ==> s[|s| - 1] !in cut
    ensures TrimRight(s + tail, cut) == s
  {
    var u := s + tail;
    if tail == "" {
      assert u == s;
    } else {
      assert u[|u| - 1] == tail[|tail| - 1];
      assert u[..|u| - 1] == s + tail[..|tail| - 1];
      TrimRightOfMore(s, tail[..|tail| - 1], cut);
    }
  }

  // Every group of methods as one word, in upper case with slashes between.
  function MethodWords(groups: seq<seq<string>>): (words: seq<string>)
    ensures |words| == |groups|
  {
    if groups == [] then []
    else MethodWords(groups[..|groups| - 1]) + [Join(UpperVerbs(groups[|groups| - 1]), '/')]
  }

  function Flat(groups: seq<seq<string>>): seq<string> {
    if groups == [] then [] else Flat(groups[..|groups| - 1]) + groups[|groups| - 1]
  }

  predicate AreMethodGroups(groups: seq<seq<string>>) {
    forall i :: 0 <= i < |groups| ==> groups[i] != [] && forall j :: 0 <= j < |groups[i]| ==> IsVerb(groups[i][j])
  }

  lemma MethodWordIs(verbs: seq<string>)
    requires verbs != [] && forall i :: 0 <= i < |verbs| ==> IsVerb(verbs[i])
    ensures var word := Join(UpperVerbs(verbs), '/');
            IsWord(word) && word[0] != '/' && VerbsOfPieces(Split(word, '/')) == verbs
  {
    UpperVerbsAre(verbs);
    VerbsOfUpperVerbs(verbs);
    JoinPlainWords(UpperVerbs(verbs));
  }

  lemma JoinPlainWords(parts: seq<string>)
    requires parts != [] && forall i :: 0 <= i < |parts| ==> IsPlainWord(parts[i])
    ensures var word := Join(parts, '/');
            IsWord(word) && word[0] != '/' && Split(word, '/') == parts
  {
    JoinedWord(parts);
    JoinSplit(parts, '/');
  }

  lemma {:induction false} MethodWordsAre(groups: seq<seq<string>>)
    requires AreMethodGroups(groups)
    ensures var words := MethodWords(groups);
            forall i :: 0 <= i < |words| ==> IsWord(words[i]) && words[i][0] != '/'
    ensures VerbsOfWords(MethodWords(groups)) == Flat(groups)
  {
    if groups != [] {
      var front, last := groups[..|groups| - 1], groups[|groups| - 1];
      MethodWordsAre(front);
      MethodWordIs(last);
      OneMoreWord(MethodWords(front), Join(UpperVerbs(last), '/'));
    }
  }

  lemma OneMoreWord(words: seq<string>, word: string)
    ensures VerbsOfWords(words + [word]) == VerbsOfWords(words) + VerbsOfPieces(Split(word, '/'))
  {
    assert (words + [word])[..|words|] == words;
  }

  /**
   Round trip: methods in upper case, with slashes or spaces between, then a path under
   "/api" and sentence punctuation, are read back as those methods, each once, and that
   path; words after the path do not matter, and neither does the white space.
   */
  lemma {:induction false} AnnouncementRoundTrip(
    groups: seq<seq<string>>, rest: string, tail: string, more: seq<string>, gap: string, gaps: seq<string>)
    requires groups != [] && AreMethodGroups(groups)
    requires var path := "/api" + rest; IsWord(path + tail) && path[|path| - 1] !in PUNCTUATION
    requires forall i :: 0 <= i < |tail| ==> tail[i] in PUNCTUATION
    requires forall i :: 0 <= i < |more| ==> IsWord(more[i])
    requires IsBlank(gap) && |gaps| == |groups| + 1 + |more|
    requires forall i :: 0 <= i < |gaps| ==> IsBlank(gaps[i]) && gaps[i] != ""
    ensures var path := "/api" + rest;
            ParsedRoute(gap + Spaced(MethodWords(groups) + [path + tail] + more, gaps)) ==
            Some(Route(Dedup(Flat(groups)), path))
  {
    var path := "/api" + rest;
    var words := MethodWords(groups);
    var parts := words + [path + tail] + more;
    MethodWordsAre(groups);
    FieldsOfSpaced(gap, parts, gaps);
    PathAfterMethods(words, path + tail, more);
    FlatIsNotEmpty(groups);
    assert tail == "" ==> path + tail == path;
    TrimRightOfMore(path, tail, PUNCTUATION);
  }

  lemma FlatIsNotEmpty(groups: seq<seq<string>>)
    requires groups != [] && AreMethodGroups(groups)
    ensures Dedup(Flat(groups)) != []
  {
    var last := groups[|groups| - 1];
    assert last[0] in Flat(groups);
    assert last[0] in Dedup(Flat(groups));
  }

  lemma PathAfterMethods(words: seq<string>, path: string, more: seq<string>)
    requires words != [] && HasPrefix(path, "/api")
    requires forall i :: 0 <= i < |words| ==> IsWord(words[i]) && words[i][0] != '/'
    ensures var parts := words + [path] + more;
            FirstApi(parts, 0) == |words| && parts[..|words|] == words && parts[|words|] == path && |parts| >= 2
  {
    var parts := words + [path] + more;
    assert "/api"[0] == '/';
    assert forall i :: 0 <= i < |words| ==> parts[i] == words[i] && !HasPrefix(parts[i], "/api");
    assert parts[|words|] == path;
  }

  // ----- Rewriting keeps the two ends of a path -----

  lemma {:induction false} RewriteKeepsLiteralPrefix(s: string, n: nat, keepNames: bool)
    requires n <= |s| && forall i :: 0 <= i < n ==> s[i] != '{'
    ensures s[..n] <= Rewrite(s, keepNames)
  {
    if n > 0 {
      RewriteKeepsLiteralPrefix(s[1..], n - 1, keepNames);
      assert s[..n] == [s[0]] + s[1..][..n - 1];
    }
  }

  // The last character stays, or a placeholder's closing brace ends the path.
  predicate EndsAlike(r: string, s: string) {
    r != "" && s != "" && (r[|r| - 1] == s[|s| - 1] || r[|r| - 1] == '}')
  }

  lemma EndOfConcat(a: string, r: string, s: string, from: nat)
    requires from < |s| && EndsAlike(r, s[from..])
    ensures EndsAlike(a + r, s)
  {
    assert (a + r)[|a + r| - 1] == r[|r| - 1];
    assert s[from..][|s| - from - 1] == s[|s| - 1];
  }

  lemma {:induction false} RewriteKeepsLast(s: string, keepNames: bool)
    requires s != ""
    ensures EndsAlike(Rewrite(s, keepNames), s)
    decreases |s|
  {
    match MatchAt(s)
    case None =>
      if |s| > 1 {
        RewriteKeepsLast(s[1..], keepNames);
        EndOfConcat([s[0]], Rewrite(s[1..], keepNames), s, 1);
      }
    case Some(m) =>
      if m.len < |s| {
        RewriteKeepsLast(s[m.len..], keepNames);
        EndOfConcat("{" + (if keepNames then m.name else "") + "}", Rewrite(s[m.len..], keepNames), s, m.len);
      }
  }

  lemma NormalizedApiPath(path: string)
    requires IsApiPath(path)
    ensures IsApiPath(NormalizeOpenAPIPath(path))
  {
    assert path[..4] == "/api";
    assert forall i :: 0 <= i < 4 ==> path[i] == "/api"[i];
    RewriteKeepsLiteralPrefix(path, 4, true);
    RewriteKeepsLast(path, true);
  }

  // ----- Parameters in comments and bodies -----

  function QueryTypeFromHint(hint: string): string {
    var h := ToLower(hint);
    if h in {"bool", "boolean"} then "boolean"
    else if h in {"int", "integer"} then "integer"
    else if h in {"array"} then "array"
    else "string"
  }

  /** The four types a hint can give, in any letter case. */
  lemma HintIs(hint: string)
    ensures var t, h := QueryTypeFromHint(hint), ToLower(hint);
            && (t == "boolean" <==> h == "bool" || h == "boolean")
            && (t == "integer" <==> h == "int" || h == "integer")
            && (t == "array" <==> h == "array")
            && t in {"boolean", "integer", "array", "string"}
  {
  }

  // The name and the type that a trimmed chunk gives.
  function NameAndType(c: string): (string, string) {
    var open := IndexFrom(c, 0, '(');
    if 0 < open < |c| - 1 && HasSuffix(c, ")")
    then (TrimSpace(c[..open]), QueryTypeFromHint(TrimSpace(c[open + 1..|c| - 1])))
    else (c, "string")
  }

  function QueryParamOfChunk(tables: Tables, chunk: string): Option<ParamDef> {
    var c := TrimSpace(chunk);
    if c == "" then None
    else
      var (name, paramType) := NameAndType(c);
      Some(ParamDef(name, "query", paramType, "", "", None, Some(tables.requiredQuery(name))))
  }

  function QueryParamsOfChunks(tables: Tables, chunks: seq<string>): seq<ParamDef> {
    if chunks == [] then []
    else
      var p := QueryParamOfChunk(tables, chunks[|chunks| - 1]);
      QueryParamsOfChunks(tables, chunks[..|chunks| - 1]) + (if p.Some? then [p.value] else [])
  }

  /** A query parameter as a comment mentions it: its name, and perhaps a type hint in parentheses. */
  datatype Mention = Mention(name: string, hint: Option<string>)

  function MentionText(m: Mention): string {
    if m.hint.None? then m.name else m.name + " (" + m.hint.value + ")"
  }

  predicate IsMention(m: Mention) {
    && m.name != "" && IsTrimmed(m.name) && '(' !in m.name && ',' !in m.name
    && (m.hint.Some? ==> IsTrimmed(m.hint.value) && m.hint.value != "" && ',' !in m.hint.value)
  }

  function MentionedParam(tables: Tables, m: Mention): ParamDef {
    ParamDef(m.name, "query", if m.hint.None? then "string" else QueryTypeFromHint(m.hint.value), "", "", None,
             Some(tables.requiredQuery(m.name)))
  }

  lemma PlainMention(name: string)
    requires '(' !in name
    ensures NameAndType(name) == (name, "string")
  {
    assert forall i :: 0 <= i < |name| ==> name[i] in name;
  }

  lemma HintedMention(name: string, hint: string)
    requires name != "" && IsTrimmed(name) && '(' !in name && IsTrimmed(hint) && hint != ""
    ensures NameAndType(name + " (" + hint + ")") == (name, QueryTypeFromHint(hint))
  {
    var c, n := name + " (" + hint + ")", |name|;
    OpenParenthesis(name, " (" + hint + ")");
    assert c == name + (" (" + hint + ")");
    assert c[..n + 1] == "" + name + " ";
    assert c[n + 2..|c| - 1] == "" + hint + "";
    TrimPadded("", name, " ");
    TrimPadded("", hint, "");
  }

  lemma OpenParenthesis(name: string, rest: string)
    requires '(' !in name && |rest| >= 2 && rest[0] == ' ' && rest[1] == '('
    ensures IndexFrom(name + rest, 0, '(') == |name| + 1
  {
    var c, n := name + rest, |name|;
    assert forall i :: 0 <= i < n ==> c[i] == name[i] && name[i] in name;
    assert c[n] == ' ' && c[n + 1] == '(';
  }

  lemma MentionIsRead(tables: Tables, left: string, m: Mention, right: string)
    requires IsMention(m) && IsBlank(left) && IsBlank(right)
    ensures QueryParamOfChunk(tables, left + MentionText(m) + right) == Some(MentionedParam(tables, m))
  {
    var c := MentionText(m);
    assert c[0] == m.name[0];
    assert m.hint.Some? ==> c[|c| - 1] == ')';
    TrimPadded(left, c, right);
    if m.hint.None? {
      PlainMention(m.name);
    } else {
      HintedMention(m.name, m.hint.value);
    }
  }

  // Mentions one after the other, each after a space.
  function MentionTexts(ms: seq<Mention>): seq<string> {
    seq(|ms|, i requires 0 <= i < |ms| => " " + MentionText(ms[i]))
  }

  function MentionedParams(tables: Tables, ms: seq<Mention>): seq<ParamDef> {
    seq(|ms|, i requires 0 <= i < |ms| => MentionedParam(tables, ms[i]))
  }

  lemma NextMention(tables: Tables, ms: seq<Mention>)
    requires ms != []
    ensures var front, last := ms[..|ms| - 1], ms[|ms| - 1];
            && MentionTexts(ms) == MentionTexts(front) + [" " + MentionText(last)]
            && MentionedParams(tables, ms) == MentionedParams(tables, front) + [MentionedParam(tables, last)]
  {
  }

  lemma {:induction false} MentionsAreRead(tables: Tables, ms: seq<Mention>)
    requires forall i :: 0 <= i < |ms| ==> IsMention(ms[i])
    ensures QueryParamsOfChunks(tables, MentionTexts(ms)) == MentionedParams(tables, ms)
  {
    if ms != [] {
      var front, last := ms[..|ms| - 1], ms[|ms| - 1];
      MentionsAreRead(tables, front);
      NextMention(tables, ms);
      OneMoreMention(tables, MentionTexts(front), last);
    }
  }

  lemma OneMoreMention(tables: Tables, texts: seq<string>, m: Mention)
    requires IsMention(m)
    ensures QueryParamsOfChunks(tables, texts + [" " + MentionText(m)]) ==
            QueryParamsOfChunks(tables, texts) + [MentionedParam(tables, m)]
  {
    var text := " " + MentionText(m);
    MentionIsRead(tables, " ", m, "");
    assert " " + MentionText(m) + "" == text;
    assert (texts + [text])[..|texts|] == texts;
  }

  /** Round trip: parameters mentioned in a comment, separated by commas, are read back with their types. */
  lemma {:induction false} QueryCommentRoundTrip(tables: Tables, ms: seq<Mention>)
    requires ms != [] && forall i :: 0 <= i < |ms| ==> IsMention(ms[i])
    ensures QueryParamsOfChunks(tables, Split(Join(MentionTexts(ms), ','), ',')) == MentionedParams(tables, ms)
  {
    var texts := MentionTexts(ms);
    assert forall i :: 0 <= i < |texts| ==> ',' !in texts[i];
    JoinSplit(texts, ',');
    MentionsAreRead(tables, ms);
  }

  method ParseQueryParamsComment(tables: Tables, comment: string) returns (params: seq<ParamDef>)
    ensures params == QueryParamsOfChunks(tables, Split(comment, ','))
  {
    var chunks := Split(comment, ',');
    params := [];
    for i := 0 to |chunks|
      invariant params == QueryParamsOfChunks(tables, chunks[..i])
    {
      assert chunks[..i + 1][..i] == chunks[..i];
      var p := QueryParamOfChunk(tables, chunks[i]);
      if p.Some? {
        params := params + [p.value];
      }
    }
    assert chunks[..|chunks|] == chunks;
  }

  predicate NameLess(p: ParamDef, q: ParamDef) {
    LexLess(p.name, q.name)
  }

  function QueryGetDef(tables: Tables, name: string): ParamDef {
    ParamDef(name, "query", tables.queryType(name), "", "", None, Some(tables.requiredQuery(name)))
  }

  function FormValueDef(tables: Tables, name: string): ParamDef {
    ParamDef(name, "query", tables.queryType(name), "", "", None, None)
  }

  /** One definition for each name read from the query, and one for each name read only from a form. */
  ghost predicate IsBodyQuery(tables: Tables, gets: seq<string>, forms: seq<string>, params: seq<ParamDef>) {
    && StrictlyOrdered(params, NameLess)
    && (forall p :: p in params <==>
          || (p.name in gets && p == QueryGetDef(tables, p.name))
          || (p.name in forms && p.name !in gets && p == FormValueDef(tables, p.name)))
  }

  method DiscoverQueryParamsFromBody(tables: Tables, cls: Classifiers, body: string) returns (params: seq<ParamDef>)
    ensures IsBodyQuery(tables, cls.queryGets(body), cls.formValues(body), params)
  {
    var gets, forms := cls.queryGets(body), cls.formValues(body);
    var queryParams, seen := ReadQueryGets(tables, gets);
    var unsorted := ReadFormValues(tables, forms, queryParams, seen);
    params := SortSlice(unsorted, NameLess);
    SortedByName(unsorted, params);
  }

  method ReadQueryGets(tables: Tables, gets: seq<string>) returns (params: seq<ParamDef>, seen: set<string>)
    ensures seen == set n | n in gets
    ensures DistinctNames(params)
    ensures forall p :: p in params <==> p.name in seen && p == QueryGetDef(tables, p.name)
  {
    seen, params := {}, [];
    for i := 0 to |gets|
      invariant seen == set n | n in gets[..i]
      invariant DistinctNames(params)
      invariant forall p :: p in params <==> p.name in seen && p == QueryGetDef(tables, p.name)
    {
      if gets[i] !in seen {
        NewName(params, seen, QueryGetDef(tables, gets[i]));
        params := params + [QueryGetDef(tables, gets[i])];
        seen := seen + {gets[i]};
      }
    }
    assert gets[..|gets|] == gets;
  }

  method ReadFormValues(tables: Tables, forms: seq<string>, before: seq<ParamDef>, queried: set<string>)
    returns (params: seq<ParamDef>)
    requires DistinctNames(before)
    requires forall p :: p in before <==> p.name in queried && p == QueryGetDef(tables, p.name)
    ensures DistinctNames(params)
    ensures forall p :: p in params <==>
              || (p.name in queried && p == QueryGetDef(tables, p.name))
              || (p.name in forms && p.name !in queried && p == FormValueDef(tables, p.name))
  {
    var seen := queried;
    params := before;
    for i := 0 to |forms|
      invariant seen == queried + set n | n in forms[..i]
      invariant DistinctNames(params)
      invariant forall p :: p in params <==>
          || (p.name in queried && p == QueryGetDef(tables, p.name))
          || (p.name in seen && p.name !in queried && p == FormValueDef(tables, p.name))
    {
      if forms[i] !in seen {
        NewName(params, seen, FormValueDef(tables, forms[i]));
        params := params + [FormValueDef(tables, forms[i])];
        seen := seen + {forms[i]};
      }
    }
    assert forms[..|forms|] == forms;
  }

  lemma NewName(params: seq<ParamDef>, seen: set<string>, p: ParamDef)
    requires DistinctNames(params) && p.name !in seen && forall q :: q in params ==> q.name in seen
    ensures DistinctNames(params + [p])
  {
    assert forall i :: 0 <= i < |params| ==> params[i] in params;
  }

  lemma NameLessIsWeakOrder(ps: seq<ParamDef>)
    ensures WeakOrder(ps, NameLess)
  {
    forall p, q | NameLess(p, q) ensures !NameLess(q, p) {
      LexTotal(p.name, q.name);
    }
    forall p, q, r | NameLess(p, r) ensures NameLess(p, q) || NameLess(q, r) {
      LexTotal(p.name, q.name);
      if LexLess(q.name, p.name) {
        LexTransitive(q.name, p.name, r.name);
      }
    }
  }

  lemma SortedByName(unsorted: seq<ParamDef>, params: seq<ParamDef>)
    requires multiset(params) == multiset(unsorted) && DistinctNames(unsorted)
    requires WeakOrder(unsorted, NameLess) ==> Ordered(params, NameLess)
    ensures StrictlyOrdered(params, NameLess)
    ensures forall p :: p in params <==> p in unsorted
  {
    NameLessIsWeakOrder(unsorted);
    SameElements(unsorted, params);
    PermutationKeepsNames(unsorted, params);
    forall i, j | 0 <= i < j < |params| ensures NameLess(params[i], params[j]) {
      LexTotal(params[i].name, params[j].name);
    }
  }

  /**
   One parameter for each name read, in the order of names: in the query, of the type in
   the tables, and required as they say if it is read from the query.
   */
  lemma BodyQueryParamsAre(tables: Tables, gets: seq<string>, forms: seq<string>, params: seq<ParamDef>, n: string)
    requires IsBodyQuery(tables, gets, forms, params)
    ensures (exists p :: p in params && p.name == n) <==> n in gets || n in forms
    ensures forall p :: p in params && p.name == n ==>
              && p.location == "query" && p.paramType == tables.queryType(n)
              && p.required == (if n in gets then Some(tables.requiredQuery(n)) else None)
              && p.format == "" && p.description == "" && p.example == None
    ensures forall i, j :: 0 <= i < j < |params| ==> LexLess(params[i].name, params[j].name)
  {
    if n in gets {
      assert QueryGetDef(tables, n) in params;
    } else if n in forms {
      assert FormValueDef(tables, n) in params;
    }
    forall i, j | 0 <= i < j < |params| ensures LexLess(params[i].name, params[j].name) {
      assert NameLess(params[i], params[j]);
    }
  }

  /** The result does not depend on the order of the matches, only on the names. */
  lemma BodyQueryIsUnique(tables: Tables, gets: seq<string>, forms: seq<string>, a: seq<ParamDef>, b: seq<ParamDef>)
    requires IsBodyQuery(tables, gets, forms, a) && IsBodyQuery(tables, gets, forms, b)
    ensures a == b
  {
    NameLessIsWeakOrder(a);
    StrictOrderUnique(a, b, NameLess);
  }

  function DefsOfNames(tables: Tables, names: seq<string>): seq<ParamDef> {
    seq(|names|, i requires 0 <= i < |names| => FromTables(tables, names[i]))
  }

  function PathParamsFromOpenAPIPath(tables: Tables, path: string): seq<ParamDef> {
    DefsOfNames(tables, ExtractPathParamNames(path))
  }
}
