/**
  `_find_closing_brace`: a character scanner over the lines of a file that
  tracks the brace depth, whether it is inside a double-quoted string, and
  whether the next character is escaped by a backslash.
*/
module BraceScanner {
  import opened Wrappers

  /** The three variables the scanner updates: `brace_count`, `in_string`,
      `escape_next`. */
  datatype ScanState = ScanState(depth: int, inString: bool, escapeNext: bool)

  const Initial := ScanState(0, false, false)

  /** What one character does to the scanner. A backslash escapes the next
      character inside and outside strings; only `"` toggles string mode;
      braces count only outside strings. */
  function Step(st: ScanState, c: char): ScanState {
    if st.escapeNext then st.(escapeNext := false)
    else if c == '\\' then st.(escapeNext := true)
    else if c == '"' then st.(inString := !st.inString)
    else if st.inString then st
    else if c == '{' then st.(depth := st.depth + 1)
    else if c == '}' then st.(depth := st.depth - 1)
    else st
  }

  /** Reading `c` in state `st` brings the depth back to 0 on a `}`. */
  predicate ClosesOn(st: ScanState, c: char) {
    !st.escapeNext && !st.inString && c == '}' && st.depth == 1
  }

  /** The state after reading all of `s`. */
  function RunChars(st: ScanState, s: string): ScanState
    decreases |s|
  {
    if s == [] then st else Step(RunChars(st, s[..|s| - 1]), s[|s| - 1])
  }

  /** Some character of `s` closes the block when `s` is read from state `st`. */
  predicate ClosesWithin(st: ScanState, s: string) {
    exists j :: 0 <= j < |s| && ClosesOn(RunChars(st, s[..j]), s[j])
  }

  /** The state after reading whole lines, first to last. */
  function RunLines(st: ScanState, lines: seq<string>): ScanState
    decreases |lines|
  {
    if lines == [] then st else RunLines(RunChars(st, lines[0]), lines[1..])
  }

  /** The scanner's state when it reaches line `i`, having started at line `start`. */
  function StateAtLine(lines: seq<string>, start: nat, i: nat): ScanState
    requires start <= i <= |lines|
  {
    RunLines(Initial, lines[start..i])
  }

  /** One of the first `j` characters of `s` closes the block. */
  predicate ClosesBefore(st: ScanState, s: string, j: nat)
    requires j <= |s|
  {
    j > 0 && (ClosesBefore(st, s, j - 1) || ClosesOn(RunChars(st, s[..j - 1]), s[j - 1]))
  }

  lemma {:induction false} ClosesBeforeWithin(st: ScanState, s: string, j: nat)
    requires j <= |s|
    ensures ClosesBefore(st, s, j) ==> ClosesWithin(st, s)
    ensures j == |s| ==> (ClosesBefore(st, s, j) <==> ClosesWithin(st, s))
  {
    if ClosesWithin(st, s) && j == |s| {
      var k :| 0 <= k < |s| && ClosesOn(RunChars(st, s[..k]), s[k]);
      ClosesBeforeAt(st, s, k, j);
    }
    if j > 0 && ClosesBefore(st, s, j - 1) {
      ClosesBeforeWithin(st, s, j - 1);
    }
  }

  lemma {:induction false} ClosesBeforeAt(st: ScanState, s: string, k: nat, j: nat)
    requires k < j <= |s| && ClosesOn(RunChars(st, s[..k]), s[k])
    ensures ClosesBefore(st, s, j)
    decreases j
  {
    if k < j - 1 {
      ClosesBeforeAt(st, s, k, j - 1);
    }
  }

  /** The first line, from `i` on, on which the block closes. */
  function ClosingLineFrom(lines: seq<string>, i: nat, st: ScanState): (r: Option<nat>)
    ensures r.Some? ==> i <= r.value < |lines|
    decreases |lines| - i
  {
    if i >= |lines| then None
    else if ClosesWithin(st, lines[i]) then Some(i)
    else ClosingLineFrom(lines, i + 1, RunChars(st, lines[i]))
  }

  /** The value `_find_closing_brace(lines, start)` returns. */
  function ClosingLine(lines: seq<string>, start: nat): (r: Option<nat>)
    ensures r.Some? ==> start <= r.value < |lines|
  {
    ClosingLineFrom(lines, start, Initial)
  }

  /** Reading one more character of `s`. */
  lemma RunCharsPrefix(st: ScanState, s: string, j: nat)
    requires j < |s|
    ensures RunChars(st, s[..j + 1]) == Step(RunChars(st, s[..j]), s[j])
  {
    assert s[..j + 1][..j] == s[..j];
  }

  // ---- the imperative scanner ----

  /** `_find_closing_brace`: the outer loop walks the lines from `start`;
      the inner loop, in ScanLine, walks the characters of one line. */
  method FindClosingBrace(lines: seq<string>, start: nat) returns (r: Option<nat>)
    ensures r == ClosingLine(lines, start)
  {
    var braceCount := 0;
    var inString := false;
    var escapeNext := false;
    var i := start;
    while i < |lines|
      invariant ClosingLineFrom(lines, i, ScanState(braceCount, inString, escapeNext)) == ClosingLine(lines, start)
      decreases |lines| - i
    {
      var closes;
      closes, braceCount, inString, escapeNext := ScanLine(lines[i], braceCount, inString, escapeNext);
      if closes {
        return Some(i);
      }
      i := i + 1;
    }
    return None;
  }

  /** The character loop of `_find_closing_brace` over one line: it reports
      whether the depth drops back to 0 on this line and otherwise gives the
      scanner variables at the end of the line. */
  method ScanLine(line: string, braceCount0: int, inString0: bool, escapeNext0: bool)
    returns (closes: bool, braceCount: int, inString: bool, escapeNext: bool)
    ensures closes == ClosesWithin(ScanState(braceCount0, inString0, escapeNext0), line)
    ensures !closes ==> ScanState(braceCount, inString, escapeNext) ==
                        RunChars(ScanState(braceCount0, inString0, escapeNext0), line)
  {
    ghost var atLine := ScanState(braceCount0, inString0, escapeNext0);
    braceCount, inString, escapeNext := braceCount0, inString0, escapeNext0;
    var j := 0;
    while j < |line|
      invariant 0 <= j <= |line|
      invariant ScanState(braceCount, inString, escapeNext) == RunChars(atLine, line[..j])
      invariant !ClosesBefore(atLine, line, j)
    {
      RunCharsPrefix(atLine, line, j);
      var closesHere;
      closesHere, braceCount, inString, escapeNext := ScanChar(line[j], braceCount, inString, escapeNext);
      if closesHere {
        ClosesBeforeWithin(atLine, line, j + 1);
        return true, braceCount, inString, escapeNext;
      }
      j := j + 1;
    }
    ClosesBeforeWithin(atLine, line, |line|);
    assert line[..|line|] == line;
    return false, braceCount, inString, escapeNext;
  }

  /** The body of the character loop: one character's effect on the scanner
      variables, and whether it brings the depth back to 0. */
  method ScanChar(ch: char, braceCount0: int, inString0: bool, escapeNext0: bool)
    returns (closes: bool, braceCount: int, inString: bool, escapeNext: bool)
    ensures closes == ClosesOn(ScanState(braceCount0, inString0, escapeNext0), ch)
    ensures ScanState(braceCount, inString, escapeNext) ==
            Step(ScanState(braceCount0, inString0, escapeNext0), ch)
  {
    braceCount, inString, escapeNext := braceCount0, inString0, escapeNext0;
    closes := false;
    if escapeNext {
      escapeNext := false;
    } else if ch == '\\' {
      escapeNext := true;
    } else if ch == '"' {
      inString := !inString;
    } else if !inString {
      if ch == '{' {
        braceCount := braceCount + 1;
      } else if ch == '}' {
        braceCount := braceCount - 1;
        closes := braceCount == 0;
      }
    }
  }

  // ---- what the result means ----

  lemma {:induction false} ClosingLineFromIsFirst(lines: seq<string>, i: nat, st: ScanState)
    requires i <= |lines|
    ensures var r := ClosingLineFrom(lines, i, st);
      (r.Some? ==> i <= r.value < |lines| &&
                   ClosesWithin(RunLines(st, lines[i..r.value]), lines[r.value]) &&
                   forall j :: i <= j < r.value ==> !ClosesWithin(RunLines(st, lines[i..j]), lines[j])) &&
      (r.None? ==> forall j :: i <= j < |lines| ==> !ClosesWithin(RunLines(st, lines[i..j]), lines[j]))
    decreases |lines| - i
  {
    if i < |lines| {
      assert RunLines(st, lines[i..i]) == st by { assert lines[i..i] == []; }
      if !ClosesWithin(st, lines[i]) {
        var st' := RunChars(st, lines[i]);
        var r := ClosingLineFrom(lines, i + 1, st');
        assert ClosingLineFrom(lines, i, st) == r;
        ClosingLineFromIsFirst(lines, i + 1, st');
        RunLinesShift(lines, i, st);
        var end := if r.Some? then r.value else |lines|;
        forall j | i <= j < end
          ensures !ClosesWithin(RunLines(st, lines[i..j]), lines[j])
        {
          if j > i {
            assert RunLines(st, lines[i..j]) == RunLines(st', lines[i + 1..j]);
          }
        }
        if r.Some? {
          assert RunLines(st, lines[i..end]) == RunLines(st', lines[i + 1..end]);
        }
      }
    }
  }

  /** Reading lines `i` to `j` is reading line `i`, then lines `i + 1` to `j`. */
  lemma RunLinesShift(lines: seq<string>, i: nat, st: ScanState)
    requires i < |lines|
    ensures forall j :: i + 1 <= j <= |lines| ==>
      RunLines(st, lines[i..j]) == RunLines(RunChars(st, lines[i]), lines[i + 1..j])
  {
    forall j | i + 1 <= j <= |lines|
      ensures RunLines(st, lines[i..j]) == RunLines(RunChars(st, lines[i]), lines[i + 1..j])
    {
      assert lines[i..j][1..] == lines[i + 1..j];
    }
  }

  /** `_find_closing_brace(lines, start)` returns the least line index `r >= start`
      on which the depth, counted from the start of line `start`, first drops
      back to 0 right after a `}`; it returns None when no line does. */
  lemma ClosingLineIsFirstClose(lines: seq<string>, start: nat)
    requires start <= |lines|
    ensures var r := ClosingLine(lines, start);
      (r.Some? ==> start <= r.value < |lines| &&
                   ClosesWithin(StateAtLine(lines, start, r.value), lines[r.value]) &&
                   forall j :: start <= j < r.value ==> !ClosesWithin(StateAtLine(lines, start, j), lines[j])) &&
      (r.None? <==> forall j :: start <= j < |lines| ==> !ClosesWithin(StateAtLine(lines, start, j), lines[j]))
  {
    ClosingLineFromIsFirst(lines, start, Initial);
  }

  // ---- reading a text in two parts ----

  lemma {:induction false} RunCharsAppend(st: ScanState, a: string, b: string)
    ensures RunChars(st, a + b) == RunChars(RunChars(st, a), b)
    decreases |b|
  {
    if b == [] {
      assert a + b == a;
    } else {
      assert (a + b)[..|a + b| - 1] == a + b[..|b| - 1];
      RunCharsAppend(st, a, b[..|b| - 1]);
    }
  }

  lemma ClosesWithinAppend(st: ScanState, a: string, b: string)
    ensures ClosesWithin(st, a + b) <==> ClosesWithin(st, a) || ClosesWithin(RunChars(st, a), b)
  {
    if ClosesWithin(st, a + b) {
      ClosesWithinSplit(st, a, b);
    }
    if ClosesWithin(st, a) {
      ClosesWithinLeft(st, a, b);
    }
    if ClosesWithin(RunChars(st, a), b) {
      ClosesWithinRight(st, a, b);
    }
  }

  lemma ClosesWithinSplit(st: ScanState, a: string, b: string)
    requires ClosesWithin(st, a + b)
    ensures ClosesWithin(st, a) || ClosesWithin(RunChars(st, a), b)
  {
    var j :| 0 <= j < |a + b| && ClosesOn(RunChars(st, (a + b)[..j]), (a + b)[j]);
    if j < |a| {
      CloseInLeft(st, a, b, j);
    } else {
      CloseInRight(st, a, b, j);
    }
  }

  lemma CloseInLeft(st: ScanState, a: string, b: string, j: nat)
    requires j < |a| && ClosesOn(RunChars(st, (a + b)[..j]), (a + b)[j])
    ensures ClosesWithin(st, a)
  {
    assert (a + b)[..j] == a[..j];
    assert ClosesOn(RunChars(st, a[..j]), a[j]);
  }

  lemma CloseInRight(st: ScanState, a: string, b: string, j: nat)
    requires |a| <= j < |a + b| && ClosesOn(RunChars(st, (a + b)[..j]), (a + b)[j])
    ensures ClosesWithin(RunChars(st, a), b)
  {
    var j' := j - |a|;
    assert (a + b)[..j] == a + b[..j'];
    RunCharsAppend(st, a, b[..j']);
    assert ClosesOn(RunChars(RunChars(st, a), b[..j']), b[j']);
  }

  lemma ClosesWithinLeft(st: ScanState, a: string, b: string)
    requires ClosesWithin(st, a)
    ensures ClosesWithin(st, a + b)
  {
    var j :| 0 <= j < |a| && ClosesOn(RunChars(st, a[..j]), a[j]);
    assert (a + b)[..j] == a[..j];
    assert ClosesOn(RunChars(st, (a + b)[..j]), (a + b)[j]);
  }

  lemma ClosesWithinRight(st: ScanState, a: string, b: string)
    requires ClosesWithin(RunChars(st, a), b)
    ensures ClosesWithin(st, a + b)
  {
    var j :| 0 <= j < |b| && ClosesOn(RunChars(RunChars(st, a), b[..j]), b[j]);
    assert (a + b)[..|a| + j] == a + b[..j];
    RunCharsAppend(st, a, b[..j]);
    assert ClosesOn(RunChars(st, (a + b)[..|a| + j]), (a + b)[|a| + j]);
  }

  // ---- a brace inside a string literal is ignored ----

  /** Inserting `{` at a point of a line where the scanner is inside a string
      (and not escaped) changes neither the state after the line nor whether
      the line closes the block. */
  lemma BraceInStringLine(st: ScanState, a: string, b: string)
    requires RunChars(st, a).inString && !RunChars(st, a).escapeNext
    ensures RunChars(st, a + "{" + b) == RunChars(st, a + b)
    ensures ClosesWithin(st, a + "{" + b) <==> ClosesWithin(st, a + b)
  {
    var s := RunChars(st, a);
    assert "{"[..0] == [];
    assert RunChars(s, "{") == Step(RunChars(s, []), '{') == s;
    assert !ClosesWithin(s, "{");
    RunCharsAppend(st, a, "{");
    ClosesWithinAppend(st, a, "{");
    RunCharsAppend(st, a + "{", b);
    ClosesWithinAppend(st, a + "{", b);
    RunCharsAppend(st, a, b);
    ClosesWithinAppend(st, a, b);
  }

  lemma {:induction false} ClosingLineFromSameTail(lines: seq<string>, lines': seq<string>, i: nat, st: ScanState)
    requires |lines| == |lines'|
    requires forall j :: i <= j < |lines| ==> lines[j] == lines'[j]
    ensures ClosingLineFrom(lines, i, st) == ClosingLineFrom(lines', i, st)
    decreases |lines| - i
  {
    if i < |lines| {
      ClosingLineFromSameTail(lines, lines', i + 1, RunChars(st, lines[i]));
    }
  }

  lemma {:induction false} BraceInStringFrom(lines: seq<string>, i: nat, st: ScanState, k: nat, a: string, b: string)
    requires i <= k < |lines| && lines[k] == a + b
    requires var s := RunChars(RunLines(st, lines[i..k]), a); s.inString && !s.escapeNext
    ensures ClosingLineFrom(lines[k := a + "{" + b], i, st) == ClosingLineFrom(lines, i, st)
    decreases k - i
  {
    var lines' := lines[k := a + "{" + b];
    if i == k {
      assert lines[i..k] == [];
      BraceInStringLine(st, a, b);
      ClosingLineFromSameTail(lines, lines', k + 1, RunChars(st, lines[k]));
    } else {
      var st' := RunChars(st, lines[i]);
      assert lines[i..k][0] == lines[i] && lines[i..k][1..] == lines[i + 1..k];
      BraceInStringFrom(lines, i + 1, st', k, a, b);
    }
  }

  /** A `{` inside a string literal never affects the result: inserting one
      where the scanner is inside a string leaves the closing line unchanged. */
  lemma BraceInStringIgnored(lines: seq<string>, start: nat, k: nat, a: string, b: string)
    requires start <= k < |lines| && lines[k] == a + b
    requires var s := RunChars(StateAtLine(lines, start, k), a); s.inString && !s.escapeNext
    ensures ClosingLine(lines[k := a + "{" + b], start) == ClosingLine(lines, start)
  {
    BraceInStringFrom(lines, start, Initial, k, a, b);
  }
}
