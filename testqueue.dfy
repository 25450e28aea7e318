/**
  Rule 2 of the fixer: a test that extends BaseTest and works with packages
  must route its messages through the test queue. The fixer adds the three
  imports the call needs and, right after the first `ftestSetUp()` signature
  whose body calls `super.ftestSetUp()` within the next nine lines, a blank
  line and a `pushTestValue(… USE_TEST_QUEUE …)` call indented like that
  `super` call. The file is handled as `content.split('\n')`.
*/
module TestQueueRule {
  import opened Wrappers
  import opened PyText
  import opened Detect
  import opened Editor

  const QueueOption := "USE_TEST_QUEUE"
  const PushHead := "TestContext.pushTestValue(" + "UserContext.get().getUserId(), " + "AqSpecificOptions."
  const PushTail := ", true, null);"
  /** `TestContext.pushTestValue(UserContext.get().getUserId(), AqSpecificOptions.USE_TEST_QUEUE, true, null);` */
  const PushCall := PushHead + QueueOption + PushTail

  /** The three imports, in the order they are added. */
  const Needs := [ByLine("system.context", "TestContext"), ByName("common.messaging", "AqSpecificOptions"),
                  ByLine("system.context", "UserContext")]

  // ---- locating the set-up method ----

  predicate IsSetUpSignature(line: string) {
    Contains(line, "protected void ftestSetUp()") || Contains(line, "public void ftestSetUp()")
  }

  predicate CallsSuperSetUp(line: string) {
    Contains(line, "super.ftestSetUp()")
  }

  /** `min(i + 10, len(lines))`: the end of the window searched after line `i`. */
  function WindowEnd(lines: seq<string>, i: nat): (e: nat)
    ensures e <= |lines| && e <= i + 10
    ensures e == |lines| || e == i + 10
  {
    if i + 10 < |lines| then i + 10 else |lines|
  }

  function SuperCallFrom(lines: seq<string>, i: nat, j: nat): (r: Option<nat>)
    ensures r.Some? ==> j <= r.value < WindowEnd(lines, i) && CallsSuperSetUp(lines[r.value])
    ensures r.Some? ==> forall k :: j <= k < r.value ==> !CallsSuperSetUp(lines[k])
    ensures r.None? ==> forall k :: j <= k < WindowEnd(lines, i) ==> !CallsSuperSetUp(lines[k])
    decreases WindowEnd(lines, i) - j
  {
    if j >= WindowEnd(lines, i) then None
    else if CallsSuperSetUp(lines[j]) then Some(j)
    else SuperCallFrom(lines, i, j + 1)
  }

  /** The first `super.ftestSetUp()` line among the nine lines after line `i`. */
  function SuperCall(lines: seq<string>, i: nat): (r: Option<nat>)
    ensures r.Some? ==> i < r.value < |lines| && r.value < i + 10 && CallsSuperSetUp(lines[r.value])
    ensures r.Some? ==> forall k :: i < k < r.value ==> !CallsSuperSetUp(lines[k])
    ensures r.None? ==> forall k :: i < k < |lines| && k < i + 10 ==> !CallsSuperSetUp(lines[k])
  {
    SuperCallFrom(lines, i, i + 1)
  }

  /** The pushed line, indented like the `super` call. */
  function PushLine(superLine: string): string {
    Spaces(LeadingSpaces(superLine)) + PushCall
  }

  /** The lines added after line `i` if it is the set-up signature: a blank
      line and the push, or nothing when no `super` call follows in time. */
  function PushBlock(lines: seq<string>, i: nat): (b: seq<string>)
    requires i < |lines|
    ensures b == [] <==> SuperCall(lines, i).None?
  {
    match SuperCall(lines, i)
    case Some(j) => ["", PushLine(lines[j])]
    case None => []
  }

  /** The block each line would get. */
  function Blocks(lines: seq<string>): (r: seq<seq<string>>)
    ensures |r| == |lines|
    ensures forall k :: 0 <= k < |r| ==> r[k] == PushBlock(lines, k)
  {
    seq(|lines|, k requires 0 <= k < |lines| => PushBlock(lines, k))
  }

  // ---- the pass, for any blocks ----

  /** Line `k` is a set-up signature that gets a non-empty block. */
  predicate OpensAt(lines: seq<string>, blocks: seq<seq<string>>, k: nat)
    requires |blocks| == |lines| && k < |lines|
  {
    IsSetUpSignature(lines[k]) && blocks[k] != []
  }

  function SiteFrom(lines: seq<string>, blocks: seq<seq<string>>, i: nat): (r: Option<nat>)
    requires |blocks| == |lines| && i <= |lines|
    ensures r.Some? ==> i <= r.value < |lines| && OpensAt(lines, blocks, r.value)
    ensures r.Some? ==> forall k :: i <= k < r.value ==> !OpensAt(lines, blocks, k)
    ensures r.None? ==> forall k :: i <= k < |lines| ==> !OpensAt(lines, blocks, k)
    decreases |lines| - i
  {
    if i == |lines| then None
    else if OpensAt(lines, blocks, i) then Some(i)
    else SiteFrom(lines, blocks, i + 1)
  }

  /** The output for lines `i..` of the loop of `_fix_rule2`, given the
      imports still pending and whether the block was added already. */
  function PassFrom(lines: seq<string>, blocks: seq<seq<string>>, i: nat, pending: seq<string>, added: bool): seq<string>
    requires |blocks| == |lines| && i <= |lines|
    decreases |lines| - i
  {
    if i == |lines| then []
    else
      var pre := if IsImportLine(lines[i]) then pending else [];
      var rest := if IsImportLine(lines[i]) then [] else pending;
      var blk := if !added && OpensAt(lines, blocks, i) then blocks[i] else [];
      pre + [lines[i]] + blk + PassFrom(lines, blocks, i + 1, rest, added || blk != [])
  }

  /** Lines `i..` with the first opening site's block placed after it. */
  function Placed(lines: seq<string>, blocks: seq<seq<string>>, i: nat, added: bool): seq<string>
    requires |blocks| == |lines| && i <= |lines|
  {
    if added then lines[i..]
    else match SiteFrom(lines, blocks, i)
      case None => lines[i..]
      case Some(s) => InsertAt(lines[i..], s - i + 1, blocks[s])
  }

  lemma PlacedStep(lines: seq<string>, blocks: seq<seq<string>>, i: nat, added: bool)
    requires |blocks| == |lines| && i < |lines|
    ensures var blk := if !added && OpensAt(lines, blocks, i) then blocks[i] else [];
      Placed(lines, blocks, i, added) == [lines[i]] + blk + Placed(lines, blocks, i + 1, added || blk != [])
  {
    if added {
      PlacedAfter(lines, blocks, i);
    } else if OpensAt(lines, blocks, i) {
      PlacedOpens(lines, blocks, i);
    } else {
      PlacedPasses(lines, blocks, i);
    }
  }

  lemma PlacedAfter(lines: seq<string>, blocks: seq<seq<string>>, i: nat)
    requires |blocks| == |lines| && i < |lines|
    ensures Placed(lines, blocks, i, true) == [lines[i]] + Placed(lines, blocks, i + 1, true)
  {
    assert lines[i..] == [lines[i]] + lines[i + 1..];
  }

  lemma PlacedOpens(lines: seq<string>, blocks: seq<seq<string>>, i: nat)
    requires |blocks| == |lines| && i < |lines| && OpensAt(lines, blocks, i)
    ensures Placed(lines, blocks, i, false) == [lines[i]] + blocks[i] + Placed(lines, blocks, i + 1, true)
  {
    var tail := lines[i + 1..];
    assert lines[i..] == [lines[i]] + tail;
    assert SiteFrom(lines, blocks, i) == Some(i);
    InsertAtHead(lines[i], tail, 0, blocks[i]);
    assert InsertAt(tail, 0, blocks[i]) == blocks[i] + tail;
  }

  lemma PlacedPasses(lines: seq<string>, blocks: seq<seq<string>>, i: nat)
    requires |blocks| == |lines| && i < |lines| && !OpensAt(lines, blocks, i)
    ensures Placed(lines, blocks, i, false) == [lines[i]] + Placed(lines, blocks, i + 1, false)
  {
    var tail := lines[i + 1..];
    assert lines[i..] == [lines[i]] + tail;
    assert SiteFrom(lines, blocks, i) == SiteFrom(lines, blocks, i + 1);
    if SiteFrom(lines, blocks, i).Some? {
      var s := SiteFrom(lines, blocks, i).value;
      InsertAtHead(lines[i], tail, s - i - 1, blocks[s]);
    }
  }

  /** Inserting past a leading element leaves that element in front. */
  lemma InsertAtHead<T>(x: T, tail: seq<T>, j: nat, xs: seq<T>)
    requires j <= |tail|
    ensures InsertAt([x] + tail, j + 1, xs) == [x] + InsertAt(tail, j, xs)
  {
    assert ([x] + tail)[..j + 1] == [x] + tail[..j];
    assert ([x] + tail)[j + 1..] == tail[j..];
  }

  /** One step of the import injection over a line and the block after it. */
  lemma WithImportsStep(x: string, blk: seq<string>, next: seq<string>, pending: seq<string>)
    requires forall m :: 0 <= m < |blk| ==> !IsImportLine(blk[m])
    ensures WithImports([x] + blk + next, pending) ==
      (if IsImportLine(x) then pending else []) + [x] + blk + WithImports(next, if IsImportLine(x) then [] else pending)
  {
    if IsImportLine(x) {
      WithImportsNone(next);
      WithImportsAtImport(x, blk + next, pending);
      assert [x] + blk + next == [x] + (blk + next);
      assert pending + [x] + blk + next == pending + [x] + (blk + next);
    } else {
      assert forall m :: 0 <= m < |[x] + blk| ==> !IsImportLine(([x] + blk)[m]);
      WithImportsSkips([x] + blk, next, pending);
      assert [] + [x] + blk == [x] + blk;
    }
  }

  /** The loop is the same as placing the block after the first opening
      site and then injecting the imports before the first import line —
      provided no block line is itself an import. */
  lemma {:induction false} PassFromPlaced(lines: seq<string>, blocks: seq<seq<string>>, i: nat, pending: seq<string>, added: bool)
    requires |blocks| == |lines| && i <= |lines|
    requires forall k, m :: 0 <= k < |blocks| && 0 <= m < |blocks[k]| ==> !IsImportLine(blocks[k][m])
    ensures PassFrom(lines, blocks, i, pending, added) == WithImports(Placed(lines, blocks, i, added), pending)
    decreases |lines| - i
  {
    if i == |lines| {
      assert Placed(lines, blocks, i, added) == [];
    } else {
      var x := lines[i];
      var blk := if !added && OpensAt(lines, blocks, i) then blocks[i] else [];
      var rest := if IsImportLine(x) then [] else pending;
      var added' := added || blk != [];
      PlacedStep(lines, blocks, i, added);
      PassFromPlaced(lines, blocks, i + 1, rest, added');
      WithImportsStep(x, blk, Placed(lines, blocks, i + 1, added'), pending);
    }
  }

  // ---- the concrete blocks ----

  /** The first set-up signature that has a `super.ftestSetUp()` call in time. */
  function SetUpSite(lines: seq<string>): (r: Option<nat>)
    ensures r.Some? ==> r.value < |lines| && IsSetUpSignature(lines[r.value]) && SuperCall(lines, r.value).Some?
    ensures r.Some? ==> forall k :: 0 <= k < r.value ==> !(IsSetUpSignature(lines[k]) && SuperCall(lines, k).Some?)
    ensures r.None? ==> forall k :: 0 <= k < |lines| ==> !(IsSetUpSignature(lines[k]) && SuperCall(lines, k).Some?)
  {
    var blocks := Blocks(lines);
    assert forall k :: 0 <= k < |lines| ==>
      (OpensAt(lines, blocks, k) <==> IsSetUpSignature(lines[k]) && SuperCall(lines, k).Some?);
    SiteFrom(lines, blocks, 0)
  }

  /** The lines with the blank line and the push after the set-up signature. */
  function Pushed(lines: seq<string>): seq<string> {
    match SetUpSite(lines)
    case None => lines
    case Some(s) => InsertAt(lines, s + 1, PushBlock(lines, s))
  }

  lemma PushLineIsNoImport(superLine: string)
    ensures !IsImportLine(PushLine(superLine))
  {
    var n := LeadingSpaces(superLine);
    assert PushCall[0] == 'T';
    assert PushLine(superLine)[0] == if n > 0 then ' ' else 'T';
  }

  lemma BlocksAreNoImports(lines: seq<string>)
    ensures forall k, m :: 0 <= k < |Blocks(lines)| && 0 <= m < |Blocks(lines)[k]| ==> !IsImportLine(Blocks(lines)[k][m])
  {
    forall k, m | 0 <= k < |Blocks(lines)| && 0 <= m < |Blocks(lines)[k]|
      ensures !IsImportLine(Blocks(lines)[k][m])
    {
      var j := SuperCall(lines, k).value;
      assert Blocks(lines)[k] == ["", PushLine(lines[j])];
      PushLineIsNoImport(lines[j]);
    }
  }

  /** The loop's output in closed form. */
  lemma PassIsPushed(lines: seq<string>, needs: seq<string>)
    ensures PassFrom(lines, Blocks(lines), 0, needs, false) == WithImports(Pushed(lines), needs)
  {
    var blocks := Blocks(lines);
    BlocksAreNoImports(lines);
    PassFromPlaced(lines, blocks, 0, needs, false);
    assert lines[0..] == lines;
    if SetUpSite(lines).Some? {
      var s := SetUpSite(lines).value;
      assert blocks[s] == PushBlock(lines, s);
    }
    assert Placed(lines, blocks, 0, false) == Pushed(lines);
  }

  // ---- _fix_rule2 ----

  /** What `_fix_rule2` writes back for a file, if anything. */
  function TestQueueFix(content: string): Outcome {
    if Contains(content, QueueOption) then NotApplied
    else if SetUpSite(Split(content)).None? then NotApplied
    else Applied(WithImports(Pushed(Split(content)), Missing(Needs, content)))
  }

  /** The inner loop of `_fix_rule2`: the search for `super.ftestSetUp()`
      among the nine lines after the signature on line `i`. */
  method FindSuperCall(lines: seq<string>, i: nat) returns (r: Option<nat>)
    requires i < |lines|
    ensures r == SuperCall(lines, i)
  {
    var j := i + 1;
    var stop := if i + 10 < |lines| then i + 10 else |lines|;
    while j < stop
      invariant i + 1 <= j <= stop
      invariant SuperCallFrom(lines, i, j) == SuperCall(lines, i)
    {
      if Contains(lines[j], "super.ftestSetUp()") {
        return Some(j);
      }
      j := j + 1;
    }
    return None;
  }

  /** Whether the block has been added after line `i - 1` follows the first
      opening site. */
  lemma SiteStep(lines: seq<string>, blocks: seq<seq<string>>, i: nat, added: bool)
    requires |blocks| == |lines| && i < |lines|
    requires added <==> SiteFrom(lines, blocks, 0).Some? && SiteFrom(lines, blocks, 0).value < i
    ensures (added || OpensAt(lines, blocks, i)) <==>
      SiteFrom(lines, blocks, 0).Some? && SiteFrom(lines, blocks, 0).value < i + 1
  {
  }

  lemma PassFromStep(lines: seq<string>, blocks: seq<seq<string>>, i: nat, pending: seq<string>, added: bool)
    requires |blocks| == |lines| && i < |lines|
    ensures var blk := if !added && OpensAt(lines, blocks, i) then blocks[i] else [];
      PassFrom(lines, blocks, i, pending, added) ==
      (if IsImportLine(lines[i]) then pending else []) + [lines[i]] + blk +
      PassFrom(lines, blocks, i + 1, if IsImportLine(lines[i]) then [] else pending, added || blk != [])
  {
  }

  /** One iteration of the loop of `_fix_rule2`, on line `i`: what it appends,
      and the pass over the remaining lines it leaves. */
  method PushStep(lines: seq<string>, i: nat, needs: seq<string>, importsAdded: bool, added: bool)
    returns (out: seq<string>, needs': seq<string>, importsAdded': bool, added': bool)
    requires i < |lines|
    requires importsAdded ==> needs == []
    ensures importsAdded' ==> needs' == []
    ensures added' <==> added || OpensAt(lines, Blocks(lines), i)
    ensures out + PassFrom(lines, Blocks(lines), i + 1, needs', added') == PassFrom(lines, Blocks(lines), i, needs, added)
  {
    ghost var blocks := Blocks(lines);
    var line := lines[i];
    var pre: seq<string> := [];
    needs', importsAdded', added' := needs, importsAdded, added;
    if !importsAdded && needs != [] && StartsWith(line, "import ") {
      pre := needs;
      needs' := [];
      importsAdded' := true;
    }
    var blk: seq<string> := [];
    if !added && (Contains(line, "protected void ftestSetUp()") || Contains(line, "public void ftestSetUp()")) {
      var found := FindSuperCall(lines, i);
      if found.Some? {
        var indent := LeadingSpaces(lines[found.value]);
        blk := ["", Spaces(indent) + PushCall];
        added' := true;
        assert blk == blocks[i];
      }
    }
    assert pre == (if IsImportLine(line) then needs else []);
    assert needs' == (if IsImportLine(line) then [] else needs);
    assert blk == (if !added && OpensAt(lines, blocks, i) then blocks[i] else []);
    PassFromStep(lines, blocks, i, needs, added);
    out := pre + [line] + blk;
  }

  /** The loop of `_fix_rule2` over the lines, with the imports still needed. */
  method PushTestQueue(lines: seq<string>, needsImports: seq<string>) returns (newLines: seq<string>, added: bool)
    ensures added <==> SetUpSite(lines).Some?
    ensures newLines == WithImports(Pushed(lines), needsImports)
  {
    ghost var blocks := Blocks(lines);
    var needs := needsImports;
    newLines := [];
    added := false;
    var importsAdded := false;
    var i := 0;
    while i < |lines|
      invariant 0 <= i <= |lines|
      invariant importsAdded ==> needs == []
      invariant added <==> SiteFrom(lines, blocks, 0).Some? && SiteFrom(lines, blocks, 0).value < i
      invariant newLines + PassFrom(lines, blocks, i, needs, added) == PassFrom(lines, blocks, 0, needsImports, false)
    {
      SiteStep(lines, blocks, i, added);
      var out;
      ghost var rest := PassFrom(lines, blocks, i, needs, added);
      out, needs, importsAdded, added := PushStep(lines, i, needs, importsAdded, added);
      assert newLines + out + PassFrom(lines, blocks, i + 1, needs, added) == newLines + rest;
      newLines := newLines + out;
      i := i + 1;
    }
    PassIsPushed(lines, needsImports);
  }

  /** `_fix_rule2` on a file's text: whether it applies, and the lines it
      writes back when it does. */
  method FixTestQueue(content: string) returns (added: bool, newLines: seq<string>)
    ensures added <==> TestQueueFix(content).Applied?
    ensures added ==> newLines == TestQueueFix(content).lines
  {
    if Contains(content, QueueOption) {
      return false, [];
    }
    var lines := Split(content);
    var needs := Missing(Needs, content);
    newLines, added := PushTestQueue(lines, needs);
  }

  // ---- what the fix achieves ----

  /** The pushed line names the test-queue option. */
  lemma PushLineMentions(superLine: string)
    ensures Contains(PushLine(superLine), QueueOption)
  {
    MiddleContained(Spaces(LeadingSpaces(superLine)), PushHead, QueueOption, PushTail);
  }

  lemma MiddleContained(s: string, h: string, q: string, t: string)
    ensures Contains(s + (h + q + t), q)
  {
    ContainsSelf(q);
    ContainsInfix(s + h, q, t, q);
    assert s + (h + q + t) == s + h + q + t;
  }

  /** The set-up signature keeps its place, a blank line and the push follow
      it, and every other line keeps its order. */
  lemma PushedShape(lines: seq<string>)
    requires SetUpSite(lines).Some?
    ensures var s := SetUpSite(lines).value;
      var p := Pushed(lines);
      |p| == |lines| + 2 && p[..s + 1] == lines[..s + 1] && p[s + 1] == "" &&
      p[s + 2] == PushLine(lines[SuperCall(lines, s).value]) &&
      Contains(p[s + 2], QueueOption) && p[s + 3..] == lines[s + 1..]
  {
    var s := SetUpSite(lines).value;
    var p := Pushed(lines);
    PushLineMentions(lines[SuperCall(lines, s).value]);
    assert p == lines[..s + 1] + PushBlock(lines, s) + lines[s + 1..];
  }

  /** Lines the push leaves in place, at their new index. */
  lemma PushedKeeps(lines: seq<string>, k: nat) returns (k': nat)
    requires k < |lines|
    ensures k' < |Pushed(lines)| && Pushed(lines)[k'] == lines[k]
  {
    if SetUpSite(lines).None? {
      k' := k;
    } else {
      var s := SetUpSite(lines).value;
      PushedShape(lines);
      if k <= s {
        k' := k;
        assert Pushed(lines)[..s + 1][k] == lines[..s + 1][k];
      } else {
        k' := k + 2;
        assert Pushed(lines)[s + 3..][k - s - 1] == lines[s + 1..][k - s - 1];
      }
    }
  }

  /** After the fix the file names `USE_TEST_QUEUE`: rule 2 no longer
      applies to it, and fixing it again writes nothing. */
  lemma TestQueueClearsIssue(content: string)
    requires TestQueueFix(content).Applied?
    ensures Contains(Join(TestQueueFix(content).lines), QueueOption)
    ensures !Rule2Applies(Join(TestQueueFix(content).lines))
    ensures TestQueueFix(Join(TestQueueFix(content).lines)) == NotApplied
  {
    var lines := Split(content);
    var s := SetUpSite(lines).value;
    var p := Pushed(lines);
    PushedShape(lines);
    var k := WithImportsKeeps(p, Missing(Needs, content), s + 2);
    ContainsJoin(TestQueueFix(content).lines, k, QueueOption);
  }

  /** Every required import the file lacks is written before the first
      import line, when the file has one. */
  lemma TestQueueAddsImports(content: string, n: nat, k: nat)
    requires TestQueueFix(content).Applied?
    requires n < |Needs| && !Contains(content, Needs[n].probe)
    requires k < |Split(content)| && IsImportLine(Split(content)[k])
    ensures Needs[n].line in TestQueueFix(content).lines
  {
    var lines := Split(content);
    var p := Pushed(lines);
    var imports := Missing(Needs, content);
    var k' := PushedKeeps(lines, k);
    MissingHas(Needs, content, n);
    var m :| 0 <= m < |imports| && imports[m] == Needs[n].line;
    WithImportsHas(p, imports, k', m);
  }
}
