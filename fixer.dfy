/**
  `TestDoctorFixer`: dispatches an issue to the fixer for its rule and counts
  the fixes applied. Reading the issue's file becomes the `content`
  parameter; writing it back becomes the `written` result.
*/
module Fixer {
  import opened Wrappers
  import opened PyText
  import opened Detect
  import opened Editor
  import RegisterOrgRule
  import TestQueueRule
  import ListRules

  /** What one call of `fix_issue` does: the value it returns, the text it
      writes back to the file (if any), and how much it adds to
      `fixes_applied`. */
  datatype Effect = Effect(ok: bool, written: Option<string>, fixes: nat)

  /** `_fix_rule1`: always reports success; writes the lines back unless in
      a dry run; counts one fix per inserted registration. */
  function RegisterEffect(content: string, dryRun: bool): Effect {
    var lines := ReadLines(content);
    Effect(true, if dryRun then None else Some(Concat(RegisterOrgRule.Registered(lines))),
           RegisterOrgRule.Before(lines, |lines|))
  }

  /** `_fix_rule2` to `_fix_rule4`: report whether the edit applied, write the
      joined lines back only when it did and this is not a dry run, and count
      one fix when it applied. */
  function EditEffect(o: Outcome, dryRun: bool): Effect {
    match o
    case NotApplied => Effect(false, None, 0)
    case Applied(lines) => Effect(true, if dryRun then None else Some(Join(lines)), 1)
  }

  /** `fix_issue`: nothing happens for an issue without a fix or with a rule
      other than 1 to 4. */
  function FixEffect(issue: Issue, content: string, dryRun: bool): (e: Effect)
    ensures !issue.fixAvailable || !(1 <= issue.rule <= 4) ==> e == Effect(false, None, 0)
    ensures dryRun ==> e.written.None?
    ensures e.written.Some? ==> e.ok
    ensures issue.fixAvailable && issue.rule == 1 ==> e.ok
    ensures issue.rule != 1 ==> e.fixes == (if e.ok then 1 else 0)
    ensures issue.rule != 1 && !dryRun ==> (e.ok <==> e.written.Some?)
  {
    if !issue.fixAvailable then Effect(false, None, 0)
    else if issue.rule == 1 then RegisterEffect(content, dryRun)
    else if issue.rule == 2 then EditEffect(TestQueueRule.TestQueueFix(content), dryRun)
    else if issue.rule == 3 then EditEffect(ListRules.ListFix(ListRules.PackageInstallMappings, content), dryRun)
    else if issue.rule == 4 then EditEffect(ListRules.ListFix(ListRules.CountdownLatches, content), dryRun)
    else Effect(false, None, 0)
  }

  /** The scanner's condition for each rule. */
  predicate RuleApplies(rule: int, content: string) {
    if rule == 1 then Rule1Applies(content)
    else if rule == 2 then Rule2Applies(content)
    else if rule == 3 then Rule3Applies(content)
    else if rule == 4 then Rule4Applies(content)
    else false
  }

  /** Rule 1 writes back exactly the text it read plus one registration line
      per fix it counts. */
  lemma RegisterCountsLines(content: string)
    ensures var lines := ReadLines(content);
      |RegisterOrgRule.Registered(lines)| == |lines| + RegisterEffect(content, false).fixes
    ensures RegisterEffect(content, false).fixes == 0 ==>
      RegisterEffect(content, false).written == Some(content)
  {
    var lines := ReadLines(content);
    if RegisterOrgRule.Before(lines, |lines|) == 0 {
      RegisterOrgRule.NoneNeeded(lines, RegisterOrgRule.Registrations(lines), |lines|);
      RegisterOrgRule.NothingToRegister(content);
    }
  }

  /** A fix that changes something leaves a file on which the scanner no
      longer reports the issue's rule. */
  lemma FixClearsIssue(issue: Issue, content: string)
    requires FixEffect(issue, content, false).fixes > 0
    ensures FixEffect(issue, content, false).written.Some?
    ensures !RuleApplies(issue.rule, FixEffect(issue, content, false).written.value)
  {
    if issue.rule == 1 {
      RegisterOrgRule.RegisterClearsIssue(content);
    } else if issue.rule == 2 {
      TestQueueRule.TestQueueClearsIssue(content);
    } else if issue.rule == 3 {
      ListRules.ListFixClearsIssue(ListRules.PackageInstallMappings, content);
    } else {
      ListRules.ListFixClearsIssue(ListRules.CountdownLatches, content);
    }
  }

  /** Rules 2 to 4 are idempotent: fixing the text a fix wrote reports no fix
      and writes nothing. */
  lemma FixIdempotent(issue: Issue, content: string)
    requires issue.rule != 1
    requires FixEffect(issue, content, false).ok
    ensures FixEffect(issue, FixEffect(issue, content, false).written.value, false) == Effect(false, None, 0)
  {
    if issue.rule == 2 {
      TestQueueRule.TestQueueClearsIssue(content);
    } else if issue.rule == 3 {
      ListRules.ListFixIdempotent(ListRules.PackageInstallMappings, content);
    } else {
      ListRules.ListFixIdempotent(ListRules.CountdownLatches, content);
    }
  }

  /** A dry run returns what a real run returns and counts the same fixes;
      only the write is skipped. */
  lemma DryRunAgrees(issue: Issue, content: string)
    ensures var dry := FixEffect(issue, content, true);
      var wet := FixEffect(issue, content, false);
      dry.ok == wet.ok && dry.fixes == wet.fixes && dry.written.None?
  {
  }

  class TestDoctorFixer {
    var fixesApplied: nat

    constructor()
      ensures fixesApplied == 0
    {
      fixesApplied := 0;
    }

    /** `_fix_rule1` on the file's text. */
    method FixRule1(content: string, dryRun: bool) returns (ok: bool, written: Option<string>)
      modifies this
      ensures var e := RegisterEffect(content, dryRun);
        ok == e.ok && written == e.written && fixesApplied == old(fixesApplied) + e.fixes
    {
      var lines := ReadLines(content);
      var newLines, inserted := RegisterOrgRule.InsertRegisterCalls(lines);
      fixesApplied := fixesApplied + inserted;
      if !dryRun {
        written := Some(Concat(newLines));
      } else {
        written := None;
      }
      ok := true;
    }

    /** Counting and writing back after one of rules 2 to 4 has run. */
    method Record(added: bool, newLines: seq<string>, dryRun: bool) returns (ok: bool, written: Option<string>)
      modifies this
      ensures ok == added
      ensures written == if added && !dryRun then Some(Join(newLines)) else None
      ensures fixesApplied == old(fixesApplied) + if added then 1 else 0
    {
      if added {
        fixesApplied := fixesApplied + 1;
      }
      if !dryRun && added {
        written := Some(Join(newLines));
      } else {
        written := None;
      }
      ok := added;
    }

    /** `_fix_rule2` on the file's text. */
    method FixRule2(content: string, dryRun: bool) returns (ok: bool, written: Option<string>)
      modifies this
      ensures var e := EditEffect(TestQueueRule.TestQueueFix(content), dryRun);
        ok == e.ok && written == e.written && fixesApplied == old(fixesApplied) + e.fixes
    {
      var added, newLines := TestQueueRule.FixTestQueue(content);
      ok, written := Record(added, newLines, dryRun);
    }

    /** `_fix_rule3` on the file's text. */
    method FixRule3(content: string, dryRun: bool) returns (ok: bool, written: Option<string>)
      modifies this
      ensures var e := EditEffect(ListRules.ListFix(ListRules.PackageInstallMappings, content), dryRun);
        ok == e.ok && written == e.written && fixesApplied == old(fixesApplied) + e.fixes
    {
      var added, newLines := ListRules.FixListRule(ListRules.PackageInstallMappings, content);
      ok, written := Record(added, newLines, dryRun);
    }

    /** `_fix_rule4` on the file's text. */
    method FixRule4(content: string, dryRun: bool) returns (ok: bool, written: Option<string>)
      modifies this
      ensures var e := EditEffect(ListRules.ListFix(ListRules.CountdownLatches, content), dryRun);
        ok == e.ok && written == e.written && fixesApplied == old(fixesApplied) + e.fixes
    {
      var added, newLines := ListRules.FixListRule(ListRules.CountdownLatches, content);
      ok, written := Record(added, newLines, dryRun);
    }

    /** `fix_issue`. */
    method FixIssue(issue: Issue, content: string, dryRun: bool) returns (ok: bool, written: Option<string>)
      modifies this
      ensures var e := FixEffect(issue, content, dryRun);
        ok == e.ok && written == e.written && fixesApplied == old(fixesApplied) + e.fixes
    {
      if !issue.fixAvailable {
        return false, None;
      }
      if issue.rule == 1 {
        ok, written := FixRule1(content, dryRun);
      } else if issue.rule == 2 {
        ok, written := FixRule2(content, dryRun);
      } else if issue.rule == 3 {
        ok, written := FixRule3(content, dryRun);
      } else if issue.rule == 4 {
        ok, written := FixRule4(content, dryRun);
      } else {
        ok, written := false, None;
      }
    }
  }
}
