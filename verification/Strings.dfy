/**
 The string operations of Go's `strings` package that the generator relies on, over
 sequences of characters. Letter case is that of ASCII.
 */
module Strings {

  /** Among the characters of ASCII, the space and the five controls from tab to carriage return. */
  lemma AsciiSpaces(c: char)
    requires (c as int) < 0x80
    ensures IsSpace(c) <==> c in {' ', '\t', '\n', 0x0B as char, 0x0C as char, '\r'}
  {
  }

  // The characters with the property White_Space of Unicode 15.0.
  predicate IsSpace(c: char) {
    var n := c as int;
    || n == 0x20 || 0x09 <= n <= 0x0D || n == 0x85 || n == 0xA0 || n == 0x1680
    || 0x2000 <= n <= 0x200A || n == 0x2028 || n == 0x2029 || n == 0x202F || n == 0x205F || n == 0x3000
  }

  predicate HasPrefix(s: string, prefix: string) {
    prefix <= s
  }

  predicate HasSuffix(s: string, suffix: string) {
    |suffix| <= |s| && s[|s| - |suffix|..] == suffix
  }

  function TrimPrefix(s: string, prefix: string): string {
    if prefix <= s then s[|prefix|..] else s
  }

  /** What prefixes and suffixes are, and what trimming a prefix leaves. */
  lemma AffixesAre(s: string, x: string, rest: string)
    ensures HasPrefix(s, x) <==> exists t: string :: s == x + t
    ensures HasSuffix(s, x) <==> exists t: string :: s == t + x
    ensures TrimPrefix(x + rest, x) == rest && (!HasPrefix(s, x) ==> TrimPrefix(s, x) == s)
  {
    if HasPrefix(s, x) {
      assert s == x + s[|x|..];
    }
    if HasSuffix(s, x) {
      assert s == s[..|s| - |x|] + x;
    }
    if t :| s == t + x {
      assert s[|s| - |x|..] == x;
    }
    assert (x + rest)[|x|..] == rest;
  }

  // Index of the first c at or after i, or |s|.
  function IndexFrom(s: string, i: nat, c: char): (e: nat)
    requires i <= |s|
    ensures i <= e <= |s|
    ensures forall j :: i <= j < e ==> s[j] != c
    ensures e < |s| ==> s[e] == c
    decreases |s| - i
  {
    if i == |s| || s[i] == c then i else IndexFrom(s, i + 1, c)
  }

  // A string is cut in one way only at the first separator.
  lemma CutIsUnique(a: string, b: string, c: string, d: string, sep: char)
    requires sep !in a && sep !in c
    requires a + [sep] + b == c + [sep] + d
    ensures a == c && b == d
  {
    var s := a + [sep] + b;
    CutLength(a, b, sep);
    CutLength(c, d, sep);
    assert a == s[..|a|] && c == s[..|c|];
    assert b == s[|a| + 1..] && d == s[|c| + 1..];
  }

  lemma CutLength(a: string, b: string, sep: char)
    requires sep !in a
    ensures IndexFrom(a + [sep] + b, 0, sep) == |a|
  {
    var s := a + [sep] + b;
    assert s[|a|] == sep;
    assert forall i :: 0 <= i < |a| ==> s[i] == a[i] && a[i] in a;
  }

  // ----- Letter case -----

  function UpperChar(c: char): char {
    if 'a' <= c <= 'z' then (c as int - 32) as char else c
  }

  function LowerChar(c: char): char {
    if 'A' <= c <= 'Z' then (c as int + 32) as char else c
  }

  function ToUpper(s: string): string {
    seq(|s|, i requires 0 <= i < |s| => UpperChar(s[i]))
  }

  function ToLower(s: string): string {
    seq(|s|, i requires 0 <= i < |s| => LowerChar(s[i]))
  }

  const LOWER := "abcdefghijklmnopqrstuvwxyz"
  const UPPER := "ABCDEFGHIJKLMNOPQRSTUVWXYZ"

  /** Letters change case in alphabetical order, and nothing else changes. */
  lemma CaseIs(i: nat, c: char)
    requires i < 26
    ensures UpperChar(LOWER[i]) == UPPER[i] == UpperChar(UPPER[i])
    ensures LowerChar(UPPER[i]) == LOWER[i] == LowerChar(LOWER[i])
    ensures c !in LOWER ==> UpperChar(c) == c
    ensures c !in UPPER ==> LowerChar(c) == c
  {
    if 'a' <= c <= 'z' {
      assert c == LOWER[c as int - 'a' as int];
    }
    if 'A' <= c <= 'Z' {
      assert c == UPPER[c as int - 'A' as int];
    }
  }

  lemma CaseAbsorbs(s: string)
    ensures ToUpper(ToLower(s)) == ToUpper(s)
    ensures ToLower(ToUpper(s)) == ToLower(s)
    ensures ToLower(ToLower(s)) == ToLower(s)
  {
  }

  // ----- Trimming -----

  function TrimLeft(s: string): (t: string)
    ensures |t| <= |s|
    ensures t != "" ==> !IsSpace(t[0])
  {
    if s != "" && IsSpace(s[0]) then TrimLeft(s[1..]) else s
  }

  function TrimRight(s: string, cut: string): (t: string)
    ensures t <= s
    ensures t != "" ==> t[|t| - 1] !in cut
    ensures forall i :: |t| <= i < |s| ==> s[i] in cut
  {
    if s != "" && s[|s| - 1] in cut then TrimRight(s[..|s| - 1], cut) else s
  }

  // Index of the first character at or after i that is not a space, or |s|.
  function SkipSpaces(s: string, i: nat): (e: nat)
    requires i <= |s|
    ensures i <= e <= |s|
    decreases |s| - i
  {
    if i < |s| && IsSpace(s[i]) then SkipSpaces(s, i + 1) else i
  }

  // The end of s[..e] without its trailing spaces, but no earlier than i.
  function SkipSpacesBack(s: string, i: nat, e: nat): (b: nat)
    requires i <= e <= |s|
    ensures i <= b <= e
  {
    if i < e && IsSpace(s[e - 1]) then SkipSpacesBack(s, i, e - 1) else e
  }

  function TrimSpace(s: string): string {
    var i := SkipSpaces(s, 0);
    s[i..SkipSpacesBack(s, i, |s|)]
  }

  lemma {:induction false} SkipSpacesIs(s: string, i: nat)
    requires i <= |s|
    ensures var e := SkipSpaces(s, i);
            (forall k :: i <= k < e ==> IsSpace(s[k])) && (e < |s| ==> !IsSpace(s[e]))
    decreases |s| - i
  {
    if i < |s| && IsSpace(s[i]) {
      SkipSpacesIs(s, i + 1);
    }
  }

  lemma {:induction false} SkipSpacesBackIs(s: string, i: nat, e: nat)
    requires i <= e <= |s|
    ensures var b := SkipSpacesBack(s, i, e);
            (forall k :: b <= k < e ==> IsSpace(s[k])) && (i < b ==> !IsSpace(s[b - 1]))
  {
    if i < e && IsSpace(s[e - 1]) {
      SkipSpacesBackIs(s, i, e - 1);
    }
  }

  lemma TrimmedWord(w: string)
    requires IsWord(w)
    ensures TrimSpace(w) == w
  {
    assert SkipSpaces(w, 0) == 0 && SkipSpacesBack(w, 0, |w|) == |w|;
  }

  lemma CutTwice(s: string, i: nat, e: nat)
    requires i <= e <= |s|
    ensures s == s[..i] + s[i..e] + s[e..]
  {
  }

  lemma TrimBounds(s: string) returns (i: nat, b: nat)
    ensures i <= b <= |s| && TrimSpace(s) == s[i..b]
    ensures forall k :: 0 <= k < i ==> IsSpace(s[k])
    ensures forall k :: b <= k < |s| ==> IsSpace(s[k])
    ensures i < b ==> !IsSpace(s[i]) && !IsSpace(s[b - 1])
  {
    i := SkipSpaces(s, 0);
    b := SkipSpacesBack(s, i, |s|);
    SkipSpacesIs(s, 0);
    SkipSpacesBackIs(s, i, |s|);
  }

  // Trimming removes all leading and trailing spaces and nothing else.
  lemma TrimSpaceIs(s: string) returns (left: string, right: string)
    ensures s == left + TrimSpace(s) + right
    ensures IsBlank(left) && IsBlank(right) && IsTrimmed(TrimSpace(s))
  {
    var i, b := TrimBounds(s);
    left, right := s[..i], s[b..];
    CutTwice(s, i, b);
  }

  // ----- Splitting and joining -----

  predicate IsWord(w: string) {
    w != "" && forall i :: 0 <= i < |w| ==> !IsSpace(w[i])
  }

  function WordLen(s: string): (n: nat)
    ensures n <= |s|
    ensures forall i :: 0 <= i < n ==> !IsSpace(s[i])
    ensures n < |s| ==> IsSpace(s[n])
  {
    if s == "" || IsSpace(s[0]) then 0 else 1 + WordLen(s[1..])
  }

  function Fields(s: string): (words: seq<string>)
    ensures forall w :: w in words ==> IsWord(w)
    decreases |s|
  {
    var t := TrimLeft(s);
    if t == "" then [] else
    var n := WordLen(t);
    [t[..n]] + Fields(t[n..])
  }

  // The pieces of s[i..] between separators.
  function SplitFrom(s: string, i: nat, c: char): (pieces: seq<string>)
    requires i <= |s|
    ensures |pieces| >= 1
    decreases |s| - i
  {
    var e := IndexFrom(s, i, c);
    if e == |s| then [s[i..]] else [s[i..e]] + SplitFrom(s, e + 1, c)
  }

  function Split(s: string, c: char): (pieces: seq<string>)
    ensures |pieces| >= 1
  {
    SplitFrom(s, 0, c)
  }

  function Join(parts: seq<string>, c: char): string {
    if parts == [] then "" else if |parts| == 1 then parts[0] else parts[0] + [c] + Join(parts[1..], c)
  }

  predicate IsBlank(s: string) {
    forall k :: 0 <= k < |s| ==> IsSpace(s[k])
  }

  predicate IsTrimmed(s: string) {
    s != "" ==> !IsSpace(s[0]) && !IsSpace(s[|s| - 1])
  }

  lemma TrimPadded(left: string, t: string, right: string)
    requires IsBlank(left) && IsBlank(right) && IsTrimmed(t) && t != ""
    ensures TrimSpace(left + t + right) == t
  {
    var s := left + t + right;
    var i := SkipSpaces(s, 0);
    SkipSpacesIs(s, 0);
    assert s[|left|] == t[0];
    assert forall k :: 0 <= k < |left| ==> s[k] == left[k];
    assert i == |left|;
    SkipSpacesBackIs(s, i, |s|);
    assert s[|left| + |t| - 1] == t[|t| - 1];
    assert forall k :: |left| + |t| <= k < |s| ==> s[k] == right[k - |left| - |t|];
    assert SkipSpacesBack(s, i, |s|) == |left| + |t|;
    assert s[|left|..|left| + |t|] == t;
  }

  lemma JoinCons(w: string, parts: seq<string>, c: char)
    requires parts != []
    ensures Join([w] + parts, c) == w + [c] + Join(parts, c)
  {
    assert ([w] + parts)[1..] == parts;
  }

  lemma CutOut(s: string, i: nat, e: nat)
    requires i <= e < |s|
    ensures s[i..] == s[i..e] + [s[e]] + s[e + 1..]
  {
  }

  lemma {:induction false} SplitFromJoin(s: string, i: nat, c: char)
    requires i <= |s|
    ensures Join(SplitFrom(s, i, c), c) == s[i..]
    decreases |s| - i
  {
    var e := IndexFrom(s, i, c);
    if e < |s| {
      var pieces := SplitFrom(s, e + 1, c);
      SplitFromJoin(s, e + 1, c);
      JoinCons(s[i..e], pieces, c);
      CutOut(s, i, e);
      assert SplitFrom(s, i, c) == [s[i..e]] + pieces;
    } else {
      assert SplitFrom(s, i, c) == [s[i..]];
    }
  }

  lemma {:induction false} PiecesHaveNoSeparator(s: string, i: nat, c: char)
    requires i <= |s|
    ensures forall p :: p in SplitFrom(s, i, c) ==> c !in p
    decreases |s| - i
  {
    var e := IndexFrom(s, i, c);
    if e < |s| {
      PiecesHaveNoSeparator(s, e + 1, c);
    }
  }

  /** Splitting loses nothing, and no piece still holds the separator. */
  lemma SplitJoin(s: string, c: char)
    ensures Join(Split(s, c), c) == s
    ensures forall p :: p in Split(s, c) ==> c !in p
  {
    SplitFromJoin(s, 0, c);
    PiecesHaveNoSeparator(s, 0, c);
  }

  lemma IndexAfterWord(s: string, i: nat, w: string, c: char)
    requires i + |w| <= |s| && s[i..i + |w|] == w && c !in w
    requires i + |w| == |s| || s[i + |w|] == c
    ensures IndexFrom(s, i, c) == i + |w|
  {
    assert forall k :: 0 <= k < |w| ==> s[i..i + |w|][k] == s[i + k] && w[k] in w;
  }

  lemma AfterFirst(s: string, i: nat, w: string, rest: string, c: char)
    requires i <= |s| && s[i..] == w + [c] + rest
    ensures i + |w| < |s| && s[i..i + |w|] == w && s[i + |w|] == c && s[i + |w| + 1..] == rest
  {
    var u := s[i..];
    assert u[..|w|] == w && u[|w|] == c && u[|w| + 1..] == rest;
  }

  lemma {:induction false} JoinSplitFrom(s: string, i: nat, parts: seq<string>, c: char)
    requires parts != [] && forall k :: 0 <= k < |parts| ==> c !in parts[k]
    requires i <= |s| && s[i..] == Join(parts, c)
    ensures SplitFrom(s, i, c) == parts
    decreases |parts|
  {
    var w := parts[0];
    if |parts| == 1 {
      IndexAfterWord(s, i, w, c);
    } else {
      AfterFirst(s, i, w, Join(parts[1..], c), c);
      IndexAfterWord(s, i, w, c);
      JoinSplitFrom(s, i + |w| + 1, parts[1..], c);
      assert SplitFrom(s, i, c) == [w] + parts[1..] == parts;
    }
  }

  lemma JoinSplit(parts: seq<string>, c: char)
    requires parts != [] && forall i :: 0 <= i < |parts| ==> c !in parts[i]
    ensures Split(Join(parts, c), c) == parts
  {
    var s := Join(parts, c);
    assert s[0..] == s;
    JoinSplitFrom(s, 0, parts, c);
  }

  lemma {:induction false} WordLenOfPrefix(w: string, rest: string)
    requires IsWord(w)
    requires rest != "" ==> IsSpace(rest[0])
    ensures TrimLeft(w + rest) == w + rest
    ensures WordLen(w + rest) == |w|
  {
    var s := w + rest;
    var n := WordLen(s);
    assert forall i :: 0 <= i < |w| ==> s[i] == w[i];
    assert rest == "" || s[|w|] == rest[0];
  }

  lemma {:induction false} FieldsCons(w: string, rest: string)
    requires IsWord(w)
    requires rest != "" ==> IsSpace(rest[0])
    ensures Fields(w + rest) == [w] + Fields(rest)
  {
    WordLenOfPrefix(w, rest);
    assert (w + rest)[..|w|] == w && (w + rest)[|w|..] == rest;
  }

  lemma FieldsOfOneWord(w: string)
    requires IsWord(w)
    ensures Fields(w) == [w]
  {
    FieldsCons(w, "");
    assert w + "" == w;
  }

  lemma FieldsSkipSpace(s: string)
    ensures Fields([' '] + s) == Fields(s)
  {
    var t := [' '] + s;
    assert t[1..] == s;
    assert TrimLeft(t) == TrimLeft(s);
  }

  lemma FieldsOfFirstWord(w: string, tail: string)
    requires IsWord(w)
    ensures Fields(w + [' '] + tail) == [w] + Fields(tail)
  {
    var rest := [' '] + tail;
    FieldsSkipSpace(tail);
    FieldsCons(w, rest);
    assert w + [' '] + tail == w + rest;
  }

  lemma {:induction false} FieldsSkipBlank(gap: string, s: string)
    requires IsBlank(gap)
    ensures Fields(gap + s) == Fields(s)
  {
    if gap == "" {
      assert gap + s == s;
    } else {
      FieldsSkipBlank(gap[1..], s);
      assert gap + s == [gap[0]] + (gap[1..] + s);
      SkipOneSpace(gap[0], gap[1..] + s);
    }
  }

  lemma SkipOneSpace(c: char, s: string)
    requires IsSpace(c)
    ensures Fields([c] + s) == Fields(s)
  {
    assert ([c] + s)[1..] == s;
    assert TrimLeft([c] + s) == TrimLeft(s);
  }

  /** Words with a gap after each. */
  function Spaced(words: seq<string>, gaps: seq<string>): string
    requires |gaps| == |words|
  {
    if words == [] then "" else words[0] + gaps[0] + Spaced(words[1..], gaps[1..])
  }

  /** Fields are the words between gaps of any white space; only the last gap may be empty. */
  lemma {:induction false} FieldsOfSpaced(gap: string, words: seq<string>, gaps: seq<string>)
    requires |gaps| == |words| && IsBlank(gap)
    requires forall i :: 0 <= i < |words| ==> IsWord(words[i]) && IsBlank(gaps[i])
    requires forall i :: 0 <= i < |words| - 1 ==> gaps[i] != ""
    ensures Fields(gap + Spaced(words, gaps)) == words
    decreases |words|
  {
    FieldsSkipBlank(gap, Spaced(words, gaps));
    if words == [] {
      assert TrimLeft("") == "";
    } else {
      var rest := gaps[0] + Spaced(words[1..], gaps[1..]);
      FieldsOfSpaced(gaps[0], words[1..], gaps[1..]);
      assert |words| == 1 ==> rest == gaps[0];
      FieldsCons(words[0], rest);
      assert words[0] + gaps[0] + Spaced(words[1..], gaps[1..]) == words[0] + rest;
      assert words == [words[0]] + words[1..];
    }
  }

  // Joining words with spaces and taking the fields again gives the words back.
  lemma {:induction false} FieldsJoin(parts: seq<string>)
    requires forall i :: 0 <= i < |parts| ==> IsWord(parts[i])
    ensures Fields(Join(parts, ' ')) == parts
  {
    if parts == [] {
      assert TrimLeft("") == "";
    } else if |parts| == 1 {
      FieldsOfOneWord(parts[0]);
    } else {
      FieldsJoin(parts[1..]);
      FieldsOfFirstWord(parts[0], Join(parts[1..], ' '));
      assert parts == [parts[0]] + parts[1..];
    }
  }

  // ----- Lexicographic order -----

  predicate LexLess(a: string, b: string) {
    LexLessFrom(a, b, 0)
  }

  predicate LexLessFrom(a: string, b: string, i: nat)
    requires i <= |a| && i <= |b|
    decreases |b| - i
  {
    i < |b| && (i == |a| || a[i] < b[i] || (a[i] == b[i] && LexLessFrom(a, b, i + 1)))
  }

  /** One string comes before another exactly when it is a proper prefix of it or has the smaller character first. */
  lemma LexLessIff(a: string, b: string)
    ensures LexLess(a, b) <==> exists i :: ComesBeforeAt(a, b, i)
  {
    if LexLess(a, b) {
      var i := LexWitness(a, b, 0);
      assert ComesBeforeAt(a, b, i);
    }
    if i :| ComesBeforeAt(a, b, i) {
      LexLessAt(a, b, 0, i);
    }
  }

  // The strings agree up to i, where the first ends or has the smaller character.
  predicate ComesBeforeAt(a: string, b: string, i: int) {
    0 <= i <= |a| && i < |b| && a[..i] == b[..i] && (i == |a| || a[i] < b[i])
  }

  lemma {:induction false} LexWitness(a: string, b: string, from: nat) returns (i: nat)
    requires from <= |a| && from <= |b| && a[..from] == b[..from] && LexLessFrom(a, b, from)
    ensures ComesBeforeAt(a, b, i)
    decreases |b| - from
  {
    i := from;
    if from < |a| && a[from] == b[from] {
      assert a[..from + 1] == b[..from + 1];
      i := LexWitness(a, b, from + 1);
    }
  }

  lemma {:induction false} LexLessAt(a: string, b: string, from: nat, i: nat)
    requires from <= i && ComesBeforeAt(a, b, i)
    ensures LexLessFrom(a, b, from)
    decreases i - from
  {
    if from < i {
      assert a[from] == a[..i][from] == b[..i][from] == b[from];
      LexLessAt(a, b, from + 1, i);
    }
  }

  lemma {:induction false} LexTotalFrom(a: string, b: string, i: nat)
    requires i <= |a| && i <= |b|
    ensures LexLessFrom(a, b, i) || LexLessFrom(b, a, i) || a[i..] == b[i..]
    ensures !(LexLessFrom(a, b, i) && LexLessFrom(b, a, i))
    ensures !LexLessFrom(a, a, i)
    decreases |a| - i
  {
    if i < |a| {
      LexTotalFrom(a, if i < |b| then b else a, i + 1);
      if i < |b| && a[i] == b[i] && a[i + 1..] == b[i + 1..] {
        assert a[i..] == [a[i]] + a[i + 1..] && b[i..] == [b[i]] + b[i + 1..];
      }
    }
  }

  lemma LexTotal(a: string, b: string)
    ensures LexLess(a, b) || LexLess(b, a) || a == b
    ensures !(LexLess(a, b) && LexLess(b, a))
    ensures !LexLess(a, a)
  {
    LexTotalFrom(a, b, 0);
    assert a[0..] == a && b[0..] == b;
  }

  lemma {:induction false} LexTransitiveFrom(a: string, b: string, c: string, i: nat)
    requires i <= |a| && i <= |b| && i <= |c| && LexLessFrom(a, b, i) && LexLessFrom(b, c, i)
    ensures LexLessFrom(a, c, i)
    decreases |a| - i
  {
    if i < |a| && a[i] == b[i] == c[i] {
      LexTransitiveFrom(a, b, c, i + 1);
    }
  }

  lemma LexTransitive(a: string, b: string, c: string)
    requires LexLess(a, b) && LexLess(b, c)
    ensures LexLess(a, c)
  {
    LexTransitiveFrom(a, b, c, 0);
  }
}
