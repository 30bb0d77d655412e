/** Cutting the body of a function out of a list of source lines by counting braces. */
module FunctionBodies {
  import opened Strings

  // Opening minus closing braces among the first n characters.
  function BracesIn(line: string, n: nat): int
    requires n <= |line|
  {
    if n == 0 then 0
    else BracesIn(line, n - 1) + (if line[n - 1] == '{' then 1 else if line[n - 1] == '}' then -1 else 0)
  }

  function BraceDepth(line: string): int {
    BracesIn(line, |line|)
  }

  /** The depth reached at the end of line e, counted from the beginning of line start. */
  function DepthAfter(lines: seq<string>, start: nat, e: nat): int
    requires e < |lines|
  {
    if e < start then 0
    else (if e == 0 then 0 else DepthAfter(lines, start, e - 1)) + BraceDepth(lines[e])
  }

  // The first line at or after i that opens a brace, or |lines|.
  function FirstOpening(lines: seq<string>, i: nat): (s: nat)
    requires i <= |lines|
    ensures i <= s <= |lines|
    decreases |lines| - i
  {
    if i == |lines| || '{' in lines[i] then i else FirstOpening(lines, i + 1)
  }

  // The first line at or after i that ends at depth zero, or the last line.
  function FirstBalanced(lines: seq<string>, start: nat, i: nat): (e: nat)
    requires i < |lines|
    ensures i <= e < |lines|
    decreases |lines| - i
  {
    if DepthAfter(lines, start, i) == 0 || i == |lines| - 1 then i else FirstBalanced(lines, start, i + 1)
  }

  lemma {:induction false} FirstOpeningIs(lines: seq<string>, i: nat)
    requires i <= |lines|
    ensures var s := FirstOpening(lines, i);
            (s < |lines| ==> '{' in lines[s]) && forall j :: i <= j < s ==> '{' !in lines[j]
    decreases |lines| - i
  {
    if i < |lines| && '{' !in lines[i] {
      FirstOpeningIs(lines, i + 1);
    }
  }

  lemma {:induction false} FirstBalancedIs(lines: seq<string>, start: nat, i: nat)
    requires i < |lines|
    ensures var e := FirstBalanced(lines, start, i);
            && (DepthAfter(lines, start, e) == 0 || e == |lines| - 1)
            && forall j :: i <= j < e ==> DepthAfter(lines, start, j) != 0
    decreases |lines| - i
  {
    if DepthAfter(lines, start, i) != 0 && i < |lines| - 1 {
      FirstBalancedIs(lines, start, i + 1);
    }
  }

  /** Lines from..to, each with its newline. */
  function TextOf(lines: seq<string>, from: nat, to: nat): string
    requires to <= |lines|
  {
    if to <= from then "" else TextOf(lines, from, to - 1) + lines[to - 1] + "\n"
  }

  predicate StartsFunction(lines: seq<string>, start: nat) {
    start < |lines| && HasPrefix(TrimSpace(lines[start]), "func ")
  }

  /** The lines from the first opening brace to where the depth returns to zero. */
  function FunctionBody(lines: seq<string>, start: nat): string {
    if StartsFunction(lines, start) then BracedText(lines, start) else ""
  }

  function BracedText(lines: seq<string>, start: nat): string
    requires start <= |lines|
  {
    var s := FirstOpening(lines, start);
    if s == |lines| then "" else TextOf(lines, s, FirstBalanced(lines, start, s) + 1)
  }

  method ScanLine(line: string, depth: int, started: bool) returns (depth': int, started': bool)
    ensures depth' == depth + BraceDepth(line)
    ensures started' <==> started || '{' in line
  {
    depth', started' := depth, started;
    for i := 0 to |line|
      invariant depth' == depth + BracesIn(line, i)
      invariant started' <==> started || '{' in line[..i]
    {
      if line[i] == '{' {
        depth', started' := depth' + 1, true;
      } else if line[i] == '}' {
        depth' := depth' - 1;
      }
    }
    assert line[..|line|] == line;
  }

  method ExtractFunctionBody(lines: seq<string>, start: nat) returns (body: string)
    ensures body == FunctionBody(lines, start)
  {
    if start >= |lines| {
      return "";
    }
    var funcLine := TrimSpace(lines[start]);
    if !HasPrefix(funcLine, "func ") {
      return "";
    }
    body := ScanBody(lines, start);
  }

  method ScanBody(lines: seq<string>, start: nat) returns (body: string)
    requires start < |lines|
    ensures body == BracedText(lines, start)
  {
    body := "";
    var depth, started := 0, false;
    ghost var s := FirstOpening(lines, start);
    for i := start to |lines|
      invariant depth == if i == start then 0 else DepthAfter(lines, start, i - 1)
      invariant started <==> s < i
      invariant body == if s < i then TextOf(lines, s, i) else ""
      invariant StillOpen(lines, start, s, i)
    {
      depth, started := ScanLine(lines[i], depth, started);
      DepthNext(lines, start, i);
      OpeningNext(lines, start, i);
      if started {
        body := body + lines[i] + "\n";
        if depth == 0 {
          BodyEndsAt(lines, start, s, i);
          return;
        }
      }
    }
    if started {
      BodyEndsAt(lines, start, s, |lines| - 1);
      assert body == BracedText(lines, start);
    } else {
      assert s == |lines|;
      assert body == BracedText(lines, start);
    }
  }

  // No line of the body so far ends at depth zero.
  ghost predicate StillOpen(lines: seq<string>, start: nat, s: nat, i: nat)
    requires i <= |lines|
  {
    forall j :: s <= j < i ==> DepthAfter(lines, start, j) != 0
  }

  lemma DepthNext(lines: seq<string>, start: nat, i: nat)
    requires start <= i < |lines|
    ensures DepthAfter(lines, start, i) ==
            (if i == start then 0 else DepthAfter(lines, start, i - 1)) + BraceDepth(lines[i])
  {
    if i == start && i > 0 {
      assert DepthAfter(lines, start, i - 1) == 0;
    }
  }

  lemma OpeningNext(lines: seq<string>, start: nat, i: nat)
    requires start <= i < |lines|
    ensures var s := FirstOpening(lines, start);
            s <= i <==> s < i || '{' in lines[i]
  {
    FirstOpeningIs(lines, start);
  }

  lemma BodyEndsAt(lines: seq<string>, start: nat, s: nat, e: nat)
    requires start <= |lines| && s == FirstOpening(lines, start)
    requires s <= e < |lines| && StillOpen(lines, start, s, e)
    requires DepthAfter(lines, start, e) == 0 || e == |lines| - 1
    ensures BracedText(lines, start) == TextOf(lines, s, e + 1)
  {
    FirstBalancedIs(lines, start, s);
    assert FirstBalanced(lines, start, s) == e;
  }

  // ----- What the depth counts, and what is cut out -----

  /** The number of opening braces less that of closing ones. */
  function Excess(text: string): int {
    multiset(text)['{'] as int - multiset(text)['}'] as int
  }

  lemma {:induction false} BracesInCounts(line: string, n: nat)
    requires n <= |line|
    ensures BracesIn(line, n) == Excess(line[..n])
  {
    if n > 0 {
      BracesInCounts(line, n - 1);
      assert line[..n] == line[..n - 1] + [line[n - 1]];
    }
  }

  /** The depth of a line is the number of its opening braces less that of its closing ones. */
  lemma BraceDepthCounts(line: string)
    ensures BraceDepth(line) == multiset(line)['{'] as int - multiset(line)['}'] as int
  {
    BracesInCounts(line, |line|);
    assert line[..|line|] == line;
  }

  /** The cumulative depth is that of the text of the lines. */
  lemma {:induction false} DepthAfterCounts(lines: seq<string>, start: nat, e: nat)
    requires start <= e < |lines|
    ensures DepthAfter(lines, start, e) == Excess(TextOf(lines, start, e + 1))
  {
    BraceDepthCounts(lines[e]);
    DepthNext(lines, start, e);
    if start < e {
      DepthAfterCounts(lines, start, e - 1);
    } else {
      assert TextOf(lines, start, e) == "";
    }
    assert TextOf(lines, start, e + 1) == TextOf(lines, start, e) + lines[e] + "\n";
  }

  lemma {:induction false} JoinMore(parts: seq<string>, last: string, c: char)
    requires parts != []
    ensures Join(parts + [last], c) == Join(parts, c) + [c] + last
  {
    assert (parts + [last])[1..] == parts[1..] + [last];
    if |parts| > 1 {
      JoinMore(parts[1..], last, c);
    } else {
      assert parts[1..] == [];
    }
  }

  /** The text of some lines is these lines joined by newlines, with one at the end. */
  lemma {:induction false} TextIsJoined(lines: seq<string>, from: nat, to: nat)
    requires from < to <= |lines|
    ensures TextOf(lines, from, to) == Join(lines[from..to], '\n') + "\n"
  {
    if from < to - 1 {
      TextIsJoined(lines, from, to - 1);
      JoinMore(lines[from..to - 1], lines[to - 1], '\n');
      assert lines[from..to] == lines[from..to - 1] + [lines[to - 1]];
    } else {
      assert lines[from..to] == [lines[from]];
      assert TextOf(lines, from, from) == "";
    }
  }

  /** Only what begins with "func " has a body. */
  lemma OnlyFunctionsHaveBodies(lines: seq<string>, start: nat)
    requires FunctionBody(lines, start) != ""
    ensures start < |lines| && exists rest :: TrimSpace(lines[start]) == "func " + rest
  {
    AffixesAre(TrimSpace(lines[start]), "func ", "");
  }

  // As many closing as opening braces from one line to another.
  predicate IsBalanced(lines: seq<string>, from: nat, to: nat) {
    from <= to < |lines| && Excess(Join(lines[from..to + 1], '\n')) == 0
  }

  /**
   Exactly the lines s..e are cut out: s is the first line from start on that opens a
   brace, and e the first at or after s up to which the braces balance, or the last.
   */
  lemma BodySpansBraces(lines: seq<string>, start: nat, s: nat, e: nat)
    requires start <= s <= e < |lines| && exists rest :: TrimSpace(lines[start]) == "func " + rest
    requires '{' in lines[s] && forall j :: start <= j < s ==> '{' !in lines[j]
    requires IsBalanced(lines, start, e) || e == |lines| - 1
    requires forall j :: s <= j < e ==> !IsBalanced(lines, start, j)
    ensures FunctionBody(lines, start) == Join(lines[s..e + 1], '\n') + "\n"
  {
    assert StartsFunction(lines, start) by {
      AffixesAre(TrimSpace(lines[start]), "func ", "");
    }
    assert s == FirstOpening(lines, start) by {
      FirstOpeningIs(lines, start);
    }
    OpenUntil(lines, start, s, e);
    BodyEndsAt(lines, start, s, e);
    TextIsJoined(lines, s, e + 1);
  }

  lemma OpenUntil(lines: seq<string>, start: nat, s: nat, e: nat)
    requires start <= s <= e < |lines|
    requires IsBalanced(lines, start, e) || e == |lines| - 1
    requires forall j :: s <= j < e ==> !IsBalanced(lines, start, j)
    ensures StillOpen(lines, start, s, e) && (DepthAfter(lines, start, e) == 0 || e == |lines| - 1)
  {
    forall j | s <= j < e ensures DepthAfter(lines, start, j) != 0 {
      DepthIsBalance(lines, start, j);
    }
    DepthIsBalance(lines, start, e);
  }

  lemma DepthIsBalance(lines: seq<string>, start: nat, j: nat)
    requires start <= j < |lines|
    ensures DepthAfter(lines, start, j) == 0 <==> IsBalanced(lines, start, j)
  {
    DepthAfterCounts(lines, start, j);
    TextIsJoined(lines, start, j + 1);
  }
}
