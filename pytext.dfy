/**
  The pieces of Python's `str` behaviour that the fixer relies on: `isspace`,
  `lstrip`/`rstrip`, the `in` substring test, `startswith`/`endswith`,
  `split('\n')`, `'\n'.join`, `readlines` and `writelines`.
*/
module PyText {

  /** The characters for which Python's `str.isspace()` holds; `\s` in a
      `str` regular expression matches the same set. */
  predicate IsSpace(c: char) {
    ('\t' <= c <= '\r') || ('\U{1C}' <= c <= '\U{1F}') || c == ' ' ||
    c == '\U{85}' || c == '\U{A0}' || c == '\U{1680}' ||
    ('\U{2000}' <= c <= '\U{200A}') || c == '\U{2028}' || c == '\U{2029}' ||
    c == '\U{202F}' || c == '\U{205F}' || c == '\U{3000}'
  }

  /** `len(s) - len(s.lstrip())`: the length of the leading whitespace run. */
  function LeadingSpaces(s: string): (n: nat)
    ensures n <= |s|
    ensures forall k :: 0 <= k < n ==> IsSpace(s[k])
    ensures n == |s| || !IsSpace(s[n])
  {
    if s == [] || !IsSpace(s[0]) then 0 else 1 + LeadingSpaces(s[1..])
  }

  /** End of the whitespace run that starts at index `i` of `s`. */
  function SpaceRunEnd(s: string, i: nat): (e: nat)
    requires i <= |s|
    ensures i <= e <= |s|
    ensures forall k :: i <= k < e ==> IsSpace(s[k])
    ensures e == |s| || !IsSpace(s[e])
  {
    i + LeadingSpaces(s[i..])
  }

  /** `s.rstrip()`. */
  function RStrip(s: string): (r: string)
    ensures r <= s
    ensures forall k :: |r| <= k < |s| ==> IsSpace(s[k])
    ensures r == [] || !IsSpace(r[|r| - 1])
  {
    if s != [] && IsSpace(s[|s| - 1]) then RStrip(s[..|s| - 1]) else s
  }

  /** `' ' * n`. */
  function Spaces(n: nat): (r: string)
    ensures |r| == n && forall k :: 0 <= k < n ==> r[k] == ' '
  {
    seq(n, _ => ' ')
  }

  /** `t` occurs in `s` starting at index `i`. */
  predicate OccursAt(s: string, t: string, i: int) {
    0 <= i && i + |t| <= |s| && s[i..i + |t|] == t
  }

  /** Python's `t in s` for strings. */
  predicate Contains(s: string, t: string) {
    exists i :: 0 <= i <= |s| - |t| && OccursAt(s, t, i)
  }

  /** `s.startswith(p)`. */
  predicate StartsWith(s: string, p: string) {
    p <= s
  }

  /** `s.endswith(p)`. */
  predicate EndsWith(s: string, p: string) {
    |p| <= |s| && s[|s| - |p|..] == p
  }

  /** The prefix of `s` before its first newline: the part a `.` in a
      regular expression can run over. */
  function UpToNewline(s: string): (r: string)
    ensures r <= s && '\n' !in r
    ensures |r| < |s| ==> s[|r|] == '\n'
  {
    if s == [] || s[0] == '\n' then [] else [s[0]] + UpToNewline(s[1..])
  }

  /** Index of the first occurrence of `c` in `s`. */
  function IndexOf(s: string, c: char): (k: nat)
    requires c in s
    ensures k < |s| && s[k] == c && c !in s[..k]
  {
    if s[0] == c then 0 else 1 + IndexOf(s[1..], c)
  }

  /** `'\n'.join(lines)`. */
  function Join(lines: seq<string>): string {
    if |lines| == 0 then ""
    else if |lines| == 1 then lines[0]
    else lines[0] + "\n" + Join(lines[1..])
  }

  /** `s.split('\n')`: never empty, no piece holds a newline, and joining the
      pieces gives back `s`. */
  function Split(s: string): (lines: seq<string>)
    ensures |lines| >= 1
    ensures forall k :: 0 <= k < |lines| ==> '\n' !in lines[k]
    ensures Join(lines) == s
    decreases |s|
  {
    if '\n' in s then
      var k := IndexOf(s, '\n');
      assert s == s[..k] + "\n" + s[k + 1..];
      [s[..k]] + Split(s[k + 1..])
    else
      [s]
  }

  /** `''.join(lines)`, which is what `writelines` stores. */
  function Concat(lines: seq<string>): string {
    if lines == [] then "" else lines[0] + Concat(lines[1..])
  }

  /** `readlines()`: each line keeps its `\n`; only the last may lack one;
      no line is empty; concatenating the lines gives back `s`. */
  function ReadLines(s: string): (lines: seq<string>)
    ensures Concat(lines) == s
    ensures forall k :: 0 <= k < |lines| ==> lines[k] != []
    ensures forall k :: 0 <= k < |lines| - 1 ==> lines[k][|lines[k]| - 1] == '\n'
    ensures forall k :: 0 <= k < |lines| ==> '\n' !in lines[k][..|lines[k]| - 1]
    decreases |s|
  {
    if s == [] then []
    else if '\n' in s then
      var k := IndexOf(s, '\n');
      assert s == s[..k + 1] + s[k + 1..];
      assert s[..k + 1][..k] == s[..k];
      [s[..k + 1]] + ReadLines(s[k + 1..])
    else
      [s]
  }

  // ---- substring lemmas ----

  lemma ContainsInfix(a: string, b: string, c: string, t: string)
    requires Contains(b, t)
    ensures Contains(a + b + c, t)
  {
    var i :| 0 <= i <= |b| - |t| && OccursAt(b, t, i);
    assert (a + b + c)[|a| + i..|a| + i + |t|] == b[i..i + |t|];
    assert OccursAt(a + b + c, t, |a| + i);
  }

  /** A text that contains `u` contains every substring of `u`. */
  lemma ContainsTrans(s: string, u: string, t: string)
    requires Contains(s, u) && Contains(u, t)
    ensures Contains(s, t)
  {
    var i :| 0 <= i <= |s| - |u| && OccursAt(s, u, i);
    var j :| 0 <= j <= |u| - |t| && OccursAt(u, t, j);
    forall m | 0 <= m < |t| ensures s[i + j + m] == t[m] {
      assert s[i..i + |u|][j + m] == u[j + m];
      assert u[j..j + |t|][m] == t[m];
    }
    assert s[i + j..i + j + |t|] == t;
    assert OccursAt(s, t, i + j);
  }

  /** When `t` starts with a character that occurs exactly once in a text,
      `t` can only occur at that character. */
  lemma AnchoredMiss(p: string, c: char, q: string, t: string)
    requires c !in p && c !in q && t != [] && t[0] == c && !(t[1..] <= q)
    ensures !Contains(p + [c] + q, t)
  {
  }

  lemma ContainsSelf(t: string)
    ensures Contains(t, t)
  {
    assert OccursAt(t, t, 0);
  }

  lemma ContainsPrefix(a: string, b: string, t: string)
    requires Contains(a, t)
    ensures Contains(a + b, t)
  {
    ContainsInfix([], a, b, t);
    assert [] + a + b == a + b;
  }

  lemma ContainsSuffix(a: string, b: string, t: string)
    requires Contains(b, t)
    ensures Contains(a + b, t)
  {
    ContainsInfix(a, b, [], t);
    assert a + b + [] == a + b;
  }

  /** An occurrence of `t` cannot straddle a character that `t` lacks. */
  lemma ContainsAcross(a: string, c: char, b: string, t: string)
    requires c !in t
    requires Contains(a + [c] + b, t)
    ensures Contains(a, t) || Contains(b, t)
  {
    var s := a + [c] + b;
    var i :| 0 <= i <= |s| - |t| && OccursAt(s, t, i);
    if i + |t| <= |a| {
      assert s[i..i + |t|] == a[i..i + |t|];
      assert OccursAt(a, t, i);
    } else if i > |a| {
      assert s[i..i + |t|] == b[i - |a| - 1..i - |a| - 1 + |t|];
      assert OccursAt(b, t, i - |a| - 1);
    } else {
      StraddleChar(a, c, b, t, i);
      assert false;
    }
  }

  /** An occurrence of `t` that covers index `|a|` of `a + [c] + b` puts `c` in `t`. */
  lemma StraddleChar(a: string, c: char, b: string, t: string, i: int)
    requires OccursAt(a + [c] + b, t, i) && i <= |a| < i + |t|
    ensures c in t
  {
    assert t[|a| - i] == (a + [c] + b)[|a|];
  }

  /** A line that contains `t` makes the joined text contain `t`. */
  lemma {:induction false} ContainsJoin(lines: seq<string>, k: nat, t: string)
    requires k < |lines| && Contains(lines[k], t)
    ensures Contains(Join(lines), t)
    decreases |lines|
  {
    if |lines| == 1 {
    } else if k == 0 {
      ContainsPrefix(lines[0], "\n" + Join(lines[1..]), t);
      assert lines[0] + ("\n" + Join(lines[1..])) == Join(lines);
    } else {
      ContainsJoin(lines[1..], k - 1, t);
      ContainsSuffix(lines[0] + "\n", Join(lines[1..]), t);
    }
  }

  /** Conversely, a newline-free `t` in the joined text sits in one line. */
  lemma {:induction false} JoinContains(lines: seq<string>, t: string) returns (k: nat)
    requires t != [] && '\n' !in t && Contains(Join(lines), t)
    ensures k < |lines| && Contains(lines[k], t)
    decreases |lines|
  {
    if |lines| == 0 {
      assert false;
    } else if |lines| == 1 {
      k := 0;
    } else {
      ContainsAcross(lines[0], '\n', Join(lines[1..]), t);
      if Contains(lines[0], t) {
        k := 0;
      } else {
        var k' := JoinContains(lines[1..], t);
        k := k' + 1;
      }
    }
  }

  /** A line that contains `t` makes the concatenation contain `t`. */
  lemma {:induction false} ContainsConcat(lines: seq<string>, k: nat, t: string)
    requires k < |lines| && Contains(lines[k], t)
    ensures Contains(Concat(lines), t)
    decreases |lines|
  {
    if k == 0 {
      ContainsPrefix(lines[0], Concat(lines[1..]), t);
    } else {
      ContainsConcat(lines[1..], k - 1, t);
      ContainsSuffix(lines[0], Concat(lines[1..]), t);
    }
  }

  /** `rstrip` keeps every occurrence of a text with no whitespace in it. */
  lemma RStripKeeps(s: string, t: string)
    requires t != [] && forall k :: 0 <= k < |t| ==> !IsSpace(t[k])
    ensures Contains(RStrip(s), t) <==> Contains(s, t)
  {
    var r := RStrip(s);
    if Contains(s, t) {
      var i :| 0 <= i <= |s| - |t| && OccursAt(s, t, i);
      assert s[i + |t| - 1] == t[|t| - 1];
      assert i + |t| <= |r|;
      assert r[i..i + |t|] == s[i..i + |t|];
      assert OccursAt(r, t, i);
    }
    if Contains(r, t) {
      var i :| 0 <= i <= |r| - |t| && OccursAt(r, t, i);
      assert s[i..i + |t|] == r[i..i + |t|];
      assert OccursAt(s, t, i);
    }
  }
}
