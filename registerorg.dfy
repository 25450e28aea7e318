/**
  Rule 1 of the fixer: after every line that creates a scratch org, unless
  the next line already registers one, insert a call that registers the new
  org with the message-queue test framework. The file is handled as
  `readlines` sees it: every line keeps its own newline.
*/
module RegisterOrgRule {
  import opened Wrappers
  import opened PyText
  import opened Detect

  const CreateCall := "createScratchOrg"
  const RegisterName := "registerNewOrg"
  const DefaultVar := "scratchOrgInfo"
  const Framework := "getMessageQueueTestFramework()."
  const IdCall := ".getScratchOrgId());\n"

  // ---- the variable name: `(\w+)\s*=.*createScratchOrg` ----

  /** The pattern matches with its group starting at `p`: a word run,
      optional whitespace, `=`, then `createScratchOrg` before any newline.
      The group's run and the whitespace run are maximal, since the next
      character must be whitespace or `=` and then `=`. */
  predicate AssignAt(line: string, p: nat) {
    p < |line| && IsWordChar(line[p]) && AssignedAfter(line, WordRunEnd(line, p))
  }

  /** `\s*=.*createScratchOrg` matches at index `e`: whitespace is skipped,
      then an `=`, then `createScratchOrg` before any newline. */
  predicate AssignedAfter(line: string, e: nat)
    requires e <= |line|
    decreases |line| - e
  {
    e < |line| &&
    if IsSpace(line[e]) then AssignedAfter(line, e + 1)
    else line[e] == '=' && Contains(UpToNewline(line[e + 1..]), CreateCall)
  }

  /** The same match, with the whitespace run skipped in one go. */
  lemma {:induction false} AssignedAfterRun(line: string, e: nat)
    requires e <= |line|
    ensures var f := SpaceRunEnd(line, e);
      AssignedAfter(line, e) <==> f < |line| && line[f] == '=' && Contains(UpToNewline(line[f + 1..]), CreateCall)
    decreases |line| - e
  {
    if e < |line| && IsSpace(line[e]) {
      AssignedAfterRun(line, e + 1);
      assert line[e..][1..] == line[e + 1..];
    }
  }

  function FirstAssignFrom(line: string, p: nat): (r: Option<nat>)
    ensures r.Some? ==> p <= r.value < |line| && AssignAt(line, r.value)
    ensures r.Some? ==> forall q :: p <= q < r.value ==> !AssignAt(line, q)
    ensures r.None? ==> forall q :: p <= q < |line| ==> !AssignAt(line, q)
    decreases |line| - p
  {
    if p >= |line| then None
    else if AssignAt(line, p) then Some(p)
    else FirstAssignFrom(line, p + 1)
  }

  /** Where `re.search` finds its leftmost match. */
  function FirstAssign(line: string): (r: Option<nat>)
    ensures r.Some? ==> r.value < |line| && AssignAt(line, r.value)
    ensures r.Some? ==> forall q :: 0 <= q < r.value ==> !AssignAt(line, q)
    ensures r.None? ==> forall q :: 0 <= q < |line| ==> !AssignAt(line, q)
  {
    FirstAssignFrom(line, 0)
  }

  /** The group of the leftmost match, or `scratchOrgInfo` without one. */
  function VarName(line: string): (v: string)
    ensures v != [] && forall k :: 0 <= k < |v| ==> IsWordChar(v[k])
    ensures (forall q :: 0 <= q < |line| ==> !AssignAt(line, q)) ==> v == DefaultVar
  {
    match FirstAssign(line)
    case Some(p) => line[p..WordRunEnd(line, p)]
    case None => DefaultVar
  }

  /** The name found is a whole word of the line, and the one that is
      assigned the scratch org. */
  lemma VarNameIsWholeWord(line: string)
    requires FirstAssign(line).Some?
    ensures var p := FirstAssign(line).value;
      var e := WordRunEnd(line, p);
      VarName(line) == line[p..e] &&
      (p == 0 || !IsWordChar(line[p - 1])) && (e == |line| || !IsWordChar(line[e])) &&
      SpaceRunEnd(line, e) < |line| && line[SpaceRunEnd(line, e)] == '='
  {
    var p := FirstAssign(line).value;
    AssignedAfterRun(line, WordRunEnd(line, p));
    if p > 0 {
      assert !AssignAt(line, p - 1);
      WordRunStep(line, p - 1);
    }
  }

  lemma WordRunStep(line: string, q: nat)
    requires q < |line|
    ensures IsWordChar(line[q]) ==> WordRunEnd(line, q) == WordRunEnd(line, q + 1)
  {
  }

  // ---- the inserted line ----

  /** The registration call for the variable `name`, indented by `indent` spaces. */
  function Registration(indent: nat, name: string): string {
    Spaces(indent) + Framework + RegisterName + "(" + name + IdCall
  }

  /** The new line: the creating line's indentation as spaces, then the call. */
  function RegisterLine(line: string): string {
    Registration(LeadingSpaces(line), VarName(line))
  }

  lemma RegistrationRegisters(indent: nat, name: string)
    ensures Contains(Registration(indent, name), RegisterName)
    ensures Registration(indent, name)[|Registration(indent, name)| - 1] == '\n'
  {
    ContainsSelf(RegisterName);
    ContainsInfix(Spaces(indent) + Framework, RegisterName, "(" + name + IdCall, RegisterName);
    assert Spaces(indent) + Framework + RegisterName + ("(" + name + IdCall) == Registration(indent, name);
  }

  // ---- the pass over the lines ----

  /** Line `i` creates a scratch org, is not the last line, and the line
      after it does not register one. */
  predicate NeedsRegister(lines: seq<string>, i: nat)
    requires i < |lines|
  {
    Contains(lines[i], CreateCall) && i + 1 < |lines| && !Contains(lines[i + 1], RegisterName)
  }

  /** The registration that would follow each line. */
  function Registrations(lines: seq<string>): (regs: seq<string>)
    ensures |regs| == |lines|
    ensures forall i :: 0 <= i < |lines| ==> regs[i] == RegisterLine(lines[i])
  {
    if lines == [] then [] else [RegisterLine(lines[0])] + Registrations(lines[1..])
  }

  /** What follows line `i` in the output besides the line itself. */
  function Inserted(lines: seq<string>, regs: seq<string>, i: nat): (r: seq<string>)
    requires |regs| == |lines| && i < |lines|
  {
    if NeedsRegister(lines, i) then [regs[i]] else []
  }

  /** How many of the first `n` lines get a registration after them. */
  function Before(lines: seq<string>, n: nat): (c: nat)
    requires n <= |lines|
    ensures c <= n
  {
    if n == 0 then 0 else Before(lines, n - 1) + (if NeedsRegister(lines, n - 1) then 1 else 0)
  }

  /** The output for the first `n` lines, given the registration for each line. */
  function Pass(lines: seq<string>, regs: seq<string>, n: nat): (r: seq<string>)
    requires |regs| == |lines| && n <= |lines|
    ensures |r| == n + Before(lines, n)
  {
    if n == 0 then [] else Pass(lines, regs, n - 1) + [lines[n - 1]] + Inserted(lines, regs, n - 1)
  }

  /** The lines `_fix_rule1` writes back. */
  function Registered(lines: seq<string>): seq<string> {
    Pass(lines, Registrations(lines), |lines|)
  }

  /** The loop of `_fix_rule1`: the new lines and the number inserted. */
  method InsertRegisterCalls(lines: seq<string>) returns (newLines: seq<string>, inserted: nat)
    ensures newLines == Registered(lines)
    ensures inserted == Before(lines, |lines|)
  {
    newLines := [];
    inserted := 0;
    ghost var regs := Registrations(lines);
    var i := 0;
    while i < |lines|
      invariant 0 <= i <= |lines|
      invariant newLines == Pass(lines, regs, i)
      invariant inserted == Before(lines, i)
    {
      var out, count := RegisterStep(lines, i);
      PassNext(lines, regs, i);
      newLines := newLines + out;
      inserted := inserted + count;
      i := i + 1;
    }
  }

  lemma PassNext(lines: seq<string>, regs: seq<string>, i: nat)
    requires |regs| == |lines| && i < |lines|
    ensures Pass(lines, regs, i + 1) == Pass(lines, regs, i) + ([lines[i]] + Inserted(lines, regs, i))
    ensures Before(lines, i + 1) == Before(lines, i) + if NeedsRegister(lines, i) then 1 else 0
  {
  }

  /** One iteration of the loop of `_fix_rule1`: the line, then its
      registration when it needs one. */
  method RegisterStep(lines: seq<string>, i: nat) returns (out: seq<string>, count: nat)
    requires i < |lines|
    ensures out == [lines[i]] + Inserted(lines, Registrations(lines), i)
    ensures count == (if NeedsRegister(lines, i) then 1 else 0)
  {
    var line := lines[i];
    out := [line];
    count := 0;
    if Contains(line, CreateCall) && i + 1 < |lines| && !Contains(lines[i + 1], RegisterName) {
      var varName := VarName(line);
      var indent := LeadingSpaces(line);
      out := out + [Registration(indent, varName)];
      count := 1;
      assert Registrations(lines)[i] == RegisterLine(lines[i]);
    }
  }

  // ---- what the pass guarantees ----

  /** No registration is inserted exactly when no line needs one, and then
      the lines come out unchanged. */
  lemma {:induction false} NoneNeeded(lines: seq<string>, regs: seq<string>, n: nat)
    requires |regs| == |lines| && n <= |lines|
    ensures Before(lines, n) == 0 <==> forall i :: 0 <= i < n ==> !NeedsRegister(lines, i)
    ensures Before(lines, n) == 0 ==> Pass(lines, regs, n) == lines[..n]
    decreases n
  {
    if n > 0 {
      NoneNeeded(lines, regs, n - 1);
      assert lines[..n] == lines[..n - 1] + [lines[n - 1]];
    }
  }

  /** Every input line keeps its order, shifted by the registrations before
      it, and its registration, when it needs one, sits right after it. */
  lemma {:induction false} PassAt(lines: seq<string>, regs: seq<string>, n: nat, i: nat)
    requires |regs| == |lines| && i < n <= |lines|
    ensures i + 1 + Before(lines, i + 1) <= |Pass(lines, regs, n)|
    ensures Pass(lines, regs, n)[i + Before(lines, i)] == lines[i]
    ensures NeedsRegister(lines, i) ==> Pass(lines, regs, n)[i + Before(lines, i) + 1] == regs[i]
    decreases n
  {
    var prev := Pass(lines, regs, n - 1);
    assert Pass(lines, regs, n) == prev + [lines[n - 1]] + Inserted(lines, regs, n - 1);
    if i < n - 1 {
      PassAt(lines, regs, n - 1, i);
      BeforeGrows(lines, i + 1, n - 1);
    }
  }

  lemma {:induction false} BeforeGrows(lines: seq<string>, m: nat, n: nat)
    requires m <= n <= |lines|
    ensures m + Before(lines, m) <= n + Before(lines, n)
    decreases n - m
  {
    if m < n {
      BeforeGrows(lines, m, n - 1);
    }
  }

  /** After the pass, a line that creates a scratch org and has a successor
      is followed by a line that registers one, provided every registration
      registers and does not itself mention `createScratchOrg`. */
  lemma {:induction false} PassFollows(lines: seq<string>, regs: seq<string>, n: nat)
    requires |regs| == |lines| && n <= |lines|
    requires forall i :: 0 <= i < |lines| && NeedsRegister(lines, i) ==>
      Contains(regs[i], RegisterName) && !Contains(regs[i], CreateCall)
    ensures forall j :: 0 <= j < |Pass(lines, regs, n)| - 1 && Contains(Pass(lines, regs, n)[j], CreateCall) ==>
      Contains(Pass(lines, regs, n)[j + 1], RegisterName)
    decreases n
  {
    if n > 0 {
      var prev := Pass(lines, regs, n - 1);
      var out := Pass(lines, regs, n);
      assert out == prev + [lines[n - 1]] + Inserted(lines, regs, n - 1);
      PassFollows(lines, regs, n - 1);
      if n > 1 {
        var pp := Pass(lines, regs, n - 2);
        assert prev == pp + [lines[n - 2]] + Inserted(lines, regs, n - 2);
        assert prev[|prev| - 1] == if NeedsRegister(lines, n - 2) then regs[n - 2] else lines[n - 2];
      }
      forall j | 0 <= j < |out| - 1 && Contains(out[j], CreateCall)
        ensures Contains(out[j + 1], RegisterName)
      {
        if j < |prev| - 1 {
          assert out[j] == prev[j] && out[j + 1] == prev[j + 1];
        }
      }
    }
  }

  /** Every registration the pass inserts registers an org and, as long as
      the variable name does not mention `createScratchOrg`, neither does it. */
  lemma RegistrationsBehave(lines: seq<string>)
    requires forall i :: 0 <= i < |lines| && NeedsRegister(lines, i) ==> !Contains(VarName(lines[i]), CreateCall)
    ensures forall i :: 0 <= i < |lines| && NeedsRegister(lines, i) ==>
      Contains(Registrations(lines)[i], RegisterName) && !Contains(Registrations(lines)[i], CreateCall)
  {
    forall i | 0 <= i < |lines| && NeedsRegister(lines, i)
      ensures Contains(Registrations(lines)[i], RegisterName) && !Contains(Registrations(lines)[i], CreateCall)
    {
      RegistrationRegisters(LeadingSpaces(lines[i]), VarName(lines[i]));
      RegistrationMentions(LeadingSpaces(lines[i]), VarName(lines[i]));
    }
  }

  /** So a second pass inserts nothing and leaves the lines as they are. */
  lemma SecondPassInsertsNothing(lines: seq<string>)
    requires forall i :: 0 <= i < |lines| && NeedsRegister(lines, i) ==> !Contains(VarName(lines[i]), CreateCall)
    ensures Before(Registered(lines), |Registered(lines)|) == 0
    ensures Registered(Registered(lines)) == Registered(lines)
  {
    var out := Registered(lines);
    RegistrationsBehave(lines);
    PassFollows(lines, Registrations(lines), |lines|);
    NoneNeeded(out, Registrations(out), |out|);
    assert out[..|out|] == out;
  }

  /** A registration never mentions `createScratchOrg` unless the variable
      name does. */
  lemma RegistrationMentions(indent: nat, name: string)
    requires !Contains(name, CreateCall)
    ensures !Contains(Registration(indent, name), CreateCall)
  {
    var a := Spaces(indent) + Framework + RegisterName;
    var b := "));\n";
    var c := "getScratchOrgId";
    var tail := c + ['('] + b;
    assert IdCall == ['.'] + tail;
    assert Registration(indent, name) == a + ['('] + (name + ['.'] + tail);
    assert '(' !in CreateCall && '.' !in CreateCall;
    NoCreateCallIn(indent);
    if Contains(tail, CreateCall) {
      ContainsAcross(c, '(', b, CreateCall);
    }
    if Contains(name + ['.'] + tail, CreateCall) {
      ContainsAcross(name, '.', tail, CreateCall);
    }
    if Contains(Registration(indent, name), CreateCall) {
      ContainsAcross(a, '(', name + ['.'] + tail, CreateCall);
    }
  }

  /** The fixed prefix of a registration holds no `c`, which `createScratchOrg` starts with. */
  lemma NoCreateCallIn(indent: nat)
    ensures !Contains(Spaces(indent) + Framework + RegisterName, CreateCall)
  {
    var a := Spaces(indent) + Framework + RegisterName;
    assert 'c' !in Framework + RegisterName;
    assert 'c' !in a;
    forall i | 0 <= i <= |a| - |CreateCall|
      ensures !OccursAt(a, CreateCall, i)
    {
      assert a[i] != CreateCall[0];
    }
  }

  /** When some registration is inserted, the output registers an org. */
  lemma RegisteredRegisters(lines: seq<string>)
    requires Before(lines, |lines|) > 0
    ensures Contains(Concat(Registered(lines)), RegisterName)
  {
    var regs := Registrations(lines);
    NoneNeeded(lines, regs, |lines|);
    var i :| 0 <= i < |lines| && NeedsRegister(lines, i);
    RegistrationAt(lines, i);
    PassCarries(lines, regs, i);
  }

  /** The registration of line `i` calls `registerNewOrg`. */
  lemma RegistrationAt(lines: seq<string>, i: nat)
    requires i < |lines|
    ensures Contains(Registrations(lines)[i], RegisterName)
  {
    RegistrationRegisters(LeadingSpaces(lines[i]), VarName(lines[i]));
  }

  /** A registration that is inserted and calls `registerNewOrg` makes the
      written text call it. */
  lemma PassCarries(lines: seq<string>, regs: seq<string>, i: nat)
    requires |regs| == |lines| && i < |lines| && NeedsRegister(lines, i)
    requires Contains(regs[i], RegisterName)
    ensures Contains(Concat(Pass(lines, regs, |lines|)), RegisterName)
  {
    var out := Pass(lines, regs, |lines|);
    var j := i + Before(lines, i) + 1;
    PassAt(lines, regs, |lines|, i);
    assert j < |out| && out[j] == regs[i];
    ContainsConcat(out, j, RegisterName);
  }

  /** So once a registration is inserted, the scanner's rule 1 no longer
      fires on the text written back. */
  lemma RegisterClearsIssue(content: string)
    requires Before(ReadLines(content), |ReadLines(content)|) > 0
    ensures !Rule1Applies(Concat(Registered(ReadLines(content))))
  {
    RegisteredRegisters(ReadLines(content));
  }

  /** When nothing needs a registration, the text written back is the text read. */
  lemma NothingToRegister(content: string)
    requires forall i :: 0 <= i < |ReadLines(content)| ==> !NeedsRegister(ReadLines(content), i)
    ensures Concat(Registered(ReadLines(content))) == content
  {
    var lines := ReadLines(content);
    NoneNeeded(lines, Registrations(lines), |lines|);
    assert lines[..|lines|] == lines;
  }
}
