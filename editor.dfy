/**
  The line editor of TestDoctorFixer: locating an annotation list, injecting
  imports, and the two ways of adding entries — merging them into an existing
  list, or creating a new list above the class declaration.
*/
module Editor {
  import opened Wrappers
  import opened PyText
  import opened Detect
  import opened BraceScanner

  // ---- _find_annotation_list ----

  /** The line mentions `name` and holds an opening brace. */
  predicate OpensList(line: string, name: string) {
    Contains(line, name) && '{' in line
  }

  function FindAnnotationListFrom(lines: seq<string>, name: string, i: nat): (r: Option<nat>)
    ensures r.Some? ==> i <= r.value < |lines| && OpensList(lines[r.value], name)
    ensures r.Some? ==> forall j :: i <= j < r.value ==> !OpensList(lines[j], name)
    ensures r.None? ==> forall j :: i <= j < |lines| ==> !OpensList(lines[j], name)
    decreases |lines| - i
  {
    if i >= |lines| then None
    else if OpensList(lines[i], name) then Some(i)
    else FindAnnotationListFrom(lines, name, i + 1)
  }

  /** `_find_annotation_list`: the first line holding both `name` and `{`. */
  function FindAnnotationList(lines: seq<string>, name: string): (r: Option<nat>)
    ensures r.Some? ==> r.value < |lines| && OpensList(lines[r.value], name)
    ensures r.Some? ==> forall j :: 0 <= j < r.value ==> !OpensList(lines[j], name)
    ensures r.None? ==> forall j :: 0 <= j < |lines| ==> !OpensList(lines[j], name)
  {
    FindAnnotationListFrom(lines, name, 0)
  }

  // ---- _add_imports ----

  predicate IsImportLine(line: string) {
    StartsWith(line, "import ")
  }

  function FirstImportFrom(lines: seq<string>, i: nat): (r: Option<nat>)
    ensures r.Some? ==> i <= r.value < |lines| && IsImportLine(lines[r.value])
    ensures r.Some? ==> forall j :: i <= j < r.value ==> !IsImportLine(lines[j])
    ensures r.None? ==> forall j :: i <= j < |lines| ==> !IsImportLine(lines[j])
    decreases |lines| - i
  {
    if i >= |lines| then None
    else if IsImportLine(lines[i]) then Some(i)
    else FirstImportFrom(lines, i + 1)
  }

  /** Index of the first line that starts with `import `. */
  function FirstImport(lines: seq<string>): (r: Option<nat>)
    ensures r.Some? ==> r.value < |lines| && IsImportLine(lines[r.value])
    ensures r.Some? ==> forall j :: 0 <= j < r.value ==> !IsImportLine(lines[j])
    ensures r.None? ==> forall j :: 0 <= j < |lines| ==> !IsImportLine(lines[j])
  {
    FirstImportFrom(lines, 0)
  }

  /** `s` with `xs` inserted before index `k`. */
  function InsertAt<T>(s: seq<T>, k: nat, xs: seq<T>): seq<T>
    requires k <= |s|
  {
    s[..k] + xs + s[k..]
  }

  /** The imports go before the first import line; with no import line they
      are dropped. */
  function WithImports(lines: seq<string>, imports: seq<string>): seq<string> {
    match FirstImport(lines)
    case Some(k) => InsertAt(lines, k, imports)
    case None => lines
  }

  /** `_add_imports`. */
  method AddImports(lines: seq<string>, importsToAdd: seq<string>) returns (newLines: seq<string>)
    ensures FirstImport(lines).Some? ==>
      newLines == lines[..FirstImport(lines).value] + importsToAdd + lines[FirstImport(lines).value..]
    ensures FirstImport(lines).None? ==> newLines == lines
    ensures newLines == WithImports(lines, importsToAdd)
  {
    newLines := [];
    var importsAdded := false;
    var i := 0;
    while i < |lines|
      invariant 0 <= i <= |lines|
      invariant !importsAdded ==> newLines == lines[..i] && forall j :: 0 <= j < i ==> !IsImportLine(lines[j])
      invariant importsAdded ==>
        FirstImport(lines).Some? && FirstImport(lines).value < i &&
        newLines == lines[..FirstImport(lines).value] + importsToAdd + lines[FirstImport(lines).value..i]
    {
      var line := lines[i];
      if !importsAdded && StartsWith(line, "import ") {
        newLines := newLines + importsToAdd;
        importsAdded := true;
      }
      newLines := newLines + [line];
      i := i + 1;
    }
  }

  lemma WithImportsNone(lines: seq<string>)
    ensures WithImports(lines, []) == lines
  {
    if FirstImport(lines).Some? {
      var k := FirstImport(lines).value;
      assert lines[..k] + [] + lines[k..] == lines;
    }
  }

  /** Imports go right before a leading import line. */
  lemma WithImportsAtImport(x: string, rest: seq<string>, imports: seq<string>)
    requires IsImportLine(x)
    ensures WithImports([x] + rest, imports) == imports + [x] + rest
  {
    assert FirstImport([x] + rest) == Some(0);
  }

  /** Lines that are not imports are passed over unchanged. */
  lemma WithImportsSkips(pre: seq<string>, rest: seq<string>, imports: seq<string>)
    requires forall m :: 0 <= m < |pre| ==> !IsImportLine(pre[m])
    ensures WithImports(pre + rest, imports) == pre + WithImports(rest, imports)
  {
    FirstImportAfter(pre, rest);
    if FirstImport(rest).Some? {
      var k := FirstImport(rest).value;
      assert (pre + rest)[..|pre| + k] == pre + rest[..k];
      assert (pre + rest)[|pre| + k..] == rest[k..];
    }
  }

  /** The first import line of `pre + rest`, when `pre` holds none. */
  lemma FirstImportAfter(pre: seq<string>, rest: seq<string>)
    requires forall m :: 0 <= m < |pre| ==> !IsImportLine(pre[m])
    ensures FirstImport(rest).None? ==> FirstImport(pre + rest).None?
    ensures FirstImport(rest).Some? ==> FirstImport(pre + rest) == Some(|pre| + FirstImport(rest).value)
  {
    var s := pre + rest;
    assert forall m :: 0 <= m < |rest| ==> s[|pre| + m] == rest[m];
    if FirstImport(rest).None? {
      forall m | 0 <= m < |s| ensures !IsImportLine(s[m]) {
        if m >= |pre| { assert s[m] == rest[m - |pre|]; }
      }
    } else {
      assert IsImportLine(s[|pre| + FirstImport(rest).value]);
    }
  }

  /** Every line survives the import injection, at a known place. */
  lemma WithImportsKeeps(lines: seq<string>, imports: seq<string>, k: nat) returns (k': nat)
    requires k < |lines|
    ensures k' < |WithImports(lines, imports)| && WithImports(lines, imports)[k'] == lines[k]
  {
    match FirstImport(lines)
    case None => k' := k;
    case Some(f) => k' := if k < f then k else k + |imports|;
  }

  /** With an import line present, every import is written. */
  lemma WithImportsHas(lines: seq<string>, imports: seq<string>, k: nat, m: nat)
    requires k < |lines| && IsImportLine(lines[k]) && m < |imports|
    ensures imports[m] in WithImports(lines, imports)
  {
    var f := FirstImport(lines).value;
    assert WithImports(lines, imports)[f + m] == imports[m];
  }

  // ---- required imports ----

  /** What a fixer did: nothing, or the lines it writes back. */
  datatype Outcome = NotApplied | Applied(lines: seq<string>)

  /** An import line, added only when `probe` does not occur in the file. */
  datatype ImportNeed = ImportNeed(line: string, probe: string)

  function Import(pkg: string, cls: string): string {
    "import " + pkg + "." + cls + ";"
  }

  /** A required import probed by its own full line. */
  function ByLine(pkg: string, cls: string): ImportNeed {
    ImportNeed(Import(pkg, cls), Import(pkg, cls))
  }

  /** A required import probed by the bare class name. */
  function ByName(pkg: string, cls: string): ImportNeed {
    ImportNeed(Import(pkg, cls), cls)
  }

  /** The import lines still missing from `content`, in the order required. */
  function Missing(needs: seq<ImportNeed>, content: string): (r: seq<string>)
    ensures |r| <= |needs|
  {
    if needs == [] then []
    else if Contains(content, needs[0].probe) then Missing(needs[1..], content)
    else [needs[0].line] + Missing(needs[1..], content)
  }

  /** Every import added is a required one whose probe is absent. */
  lemma {:induction false} MissingFrom(needs: seq<ImportNeed>, content: string, k: nat) returns (j: nat)
    requires k < |Missing(needs, content)|
    ensures j < |needs| && Missing(needs, content)[k] == needs[j].line && !Contains(content, needs[j].probe)
    decreases |needs|
  {
    if Contains(content, needs[0].probe) {
      var j' := MissingFrom(needs[1..], content, k);
      j := j' + 1;
    } else if k == 0 {
      j := 0;
    } else {
      var j' := MissingFrom(needs[1..], content, k - 1);
      j := j' + 1;
    }
  }

  /** Every required import whose probe is absent is added. */
  lemma {:induction false} MissingHas(needs: seq<ImportNeed>, content: string, j: nat)
    requires j < |needs| && !Contains(content, needs[j].probe)
    ensures needs[j].line in Missing(needs, content)
    decreases |needs|
  {
    if j > 0 {
      assert needs[1..][j - 1] == needs[j];
      MissingHas(needs[1..], content, j - 1);
    }
  }

  /** The imports added keep the order in which they are required. */
  lemma {:induction false} MissingOrdered(needs: seq<ImportNeed>, content: string, a: nat, b: nat)
    returns (i: nat, j: nat)
    requires a < b < |Missing(needs, content)|
    ensures i < j < |needs|
    ensures Missing(needs, content)[a] == needs[i].line && !Contains(content, needs[i].probe)
    ensures Missing(needs, content)[b] == needs[j].line && !Contains(content, needs[j].probe)
    decreases |needs|
  {
    if Contains(content, needs[0].probe) {
      var i', j' := MissingOrdered(needs[1..], content, a, b);
      i, j := i' + 1, j' + 1;
    } else if a == 0 {
      var j' := MissingFrom(needs[1..], content, b - 1);
      i, j := 0, j' + 1;
    } else {
      var i', j' := MissingOrdered(needs[1..], content, a - 1, b - 1);
      i, j := i' + 1, j' + 1;
    }
  }

  // ---- merging into an existing list ----

  /** The comma fix applied to the line above the closing line: unless the
      stripped line already ends in `,` or `{`, it is stripped and a comma is
      appended. */
  function CommaFixed(line: string): string {
    var t := RStrip(line);
    if EndsWith(t, ",") || EndsWith(t, "{") then line else t + ","
  }

  /** A merged entry: indented like the closing line, four more spaces, and
      always a trailing comma. */
  function MergeEntry(indent: nat, item: string): string {
    Spaces(indent) + "    " + item + ","
  }

  function MergeEntries(indent: nat, items: seq<string>): (r: seq<string>)
    ensures |r| == |items|
  {
    seq(|items|, k requires 0 <= k < |items| => MergeEntry(indent, items[k]))
  }

  /** The lines before the closing line, after the comma fix. */
  function BeforeClosing(lines: seq<string>, closing: nat): seq<string>
    requires closing <= |lines|
  {
    if closing == 0 then [] else lines[..closing - 1] + [CommaFixed(lines[closing - 1])]
  }

  /** The result of the merge path for a list that closes on line `closing`. */
  function MergedLines(lines: seq<string>, closing: nat, items: seq<string>): seq<string>
    requires closing < |lines|
  {
    BeforeClosing(lines, closing) + MergeEntries(LeadingSpaces(lines[closing]), items) + lines[closing..]
  }

  /** What the merge loop has built after its first `i` lines. */
  ghost function MergedPrefix(lines: seq<string>, closing: nat, items: seq<string>, i: nat): seq<string>
    requires closing < |lines| && i <= |lines|
  {
    if i <= closing then lines[..i]
    else BeforeClosing(lines, closing) + MergeEntries(LeadingSpaces(lines[closing]), items) + lines[closing..i]
  }

  /** The merge loop of `_fix_rule3`/`_fix_rule4`. */
  method MergeIntoList(lines: seq<string>, closing: nat, items: seq<string>) returns (newLines: seq<string>)
    requires closing < |lines|
    ensures newLines == MergedLines(lines, closing, items)
  {
    newLines := [];
    var i := 0;
    while i < |lines|
      invariant 0 <= i <= |lines|
      invariant newLines == MergedPrefix(lines, closing, items, i)
    {
      newLines := MergeStep(lines, closing, items, i, newLines);
      i := i + 1;
    }
    assert lines[closing..|lines|] == lines[closing..];
  }

  /** One iteration of the merge loop. */
  method MergeStep(lines: seq<string>, closing: nat, items: seq<string>, i: nat, before: seq<string>)
    returns (newLines: seq<string>)
    requires closing < |lines| && i < |lines| && before == MergedPrefix(lines, closing, items, i)
    ensures newLines == MergedPrefix(lines, closing, items, i + 1)
  {
    var line := lines[i];
    newLines := before;
    if i == closing {
      newLines := MergeAtClosing(lines, closing, newLines, items);
      assert lines[closing..i + 1] == [line];
    } else {
      SlicesGrow(lines, closing, i);
    }
    newLines := newLines + [line];
  }

  lemma SlicesGrow<T>(s: seq<T>, from: nat, i: nat)
    requires i < |s|
    ensures s[..i + 1] == s[..i] + [s[i]]
    ensures from <= i ==> s[from..i + 1] == s[from..i] + [s[i]]
  {
  }

  /** The merge loop on reaching the closing line: the comma fix on the line
      above, then the new entries. */
  method MergeAtClosing(lines: seq<string>, closing: nat, before: seq<string>, items: seq<string>)
    returns (newLines: seq<string>)
    requires closing < |lines| && before == lines[..closing]
    ensures newLines == BeforeClosing(lines, closing) + MergeEntries(LeadingSpaces(lines[closing]), items)
  {
    newLines := before;
    if |newLines| > 0 {
      var last := RStrip(newLines[|newLines| - 1]);
      if !EndsWith(last, ",") && !EndsWith(last, "{") {
        newLines := newLines[|newLines| - 1 := last + ","];
      }
      assert newLines == lines[..closing - 1] + [CommaFixed(lines[closing - 1])];
    }
    var indent := LeadingSpaces(lines[closing]);
    newLines := newLines + MergeEntries(indent, items);
  }

  // ---- creating a new list ----

  /** A created entry: the class line's indentation plus four spaces; every
      entry but the last ends in a comma. */
  function CreateEntry(indent: nat, item: string, last: bool): string {
    Spaces(indent) + "    " + item + (if last then "" else ",")
  }

  function CreateEntries(indent: nat, items: seq<string>): (r: seq<string>)
    ensures |r| == |items|
  {
    seq(|items|, k requires 0 <= k < |items| => CreateEntry(indent, items[k], k == |items| - 1))
  }

  /** `@Name({`, the entries, `})`, all at the class line's indentation. */
  function NewListBlock(name: string, indent: nat, items: seq<string>): (r: seq<string>)
    ensures |r| == |items| + 2
  {
    [Spaces(indent) + name + "({"] + CreateEntries(indent, items) + [Spaces(indent) + "})"]
  }

  /** The result of the create path with the class declaration on line `site`. */
  function CreatedLines(lines: seq<string>, site: nat, name: string, items: seq<string>): seq<string>
    requires site < |lines|
  {
    InsertAt(lines, site, NewListBlock(name, LeadingSpaces(lines[site]), items))
  }

  /** What the create loop has built after its first `i` lines. */
  ghost function CreatedPrefix(lines: seq<string>, name: string, items: seq<string>, i: nat): seq<string>
    requires i <= |lines|
  {
    var site := FindClassLine(lines);
    if site.Some? && site.value < i then
      lines[..site.value] + NewListBlock(name, LeadingSpaces(lines[site.value]), items) + lines[site.value..i]
    else lines[..i]
  }

  /** The create loop of `_fix_rule3`/`_fix_rule4`: the new list goes right
      before the first class declaration; with none, nothing is added. */
  method CreateList(lines: seq<string>, name: string, items: seq<string>)
    returns (newLines: seq<string>, added: bool)
    ensures added <==> FindClassLine(lines).Some?
    ensures added ==> newLines == CreatedLines(lines, FindClassLine(lines).value, name, items)
    ensures !added ==> newLines == lines
  {
    newLines := [];
    added := false;
    var i := 0;
    while i < |lines|
      invariant 0 <= i <= |lines|
      invariant added <==> FindClassLine(lines).Some? && FindClassLine(lines).value < i
      invariant newLines == CreatedPrefix(lines, name, items, i)
    {
      newLines, added := CreateStep(lines, name, items, i, newLines, added);
      i := i + 1;
    }
    assert lines[..|lines|] == lines;
  }

  /** One iteration of the create loop. */
  method CreateStep(lines: seq<string>, name: string, items: seq<string>, i: nat,
                    before: seq<string>, added0: bool)
    returns (newLines: seq<string>, added: bool)
    requires i < |lines|
    requires added0 <==> FindClassLine(lines).Some? && FindClassLine(lines).value < i
    requires before == CreatedPrefix(lines, name, items, i)
    ensures added <==> FindClassLine(lines).Some? && FindClassLine(lines).value < i + 1
    ensures newLines == CreatedPrefix(lines, name, items, i + 1)
  {
    var line := lines[i];
    newLines, added := before, added0;
    if !added && IsClassDecl(line) {
      assert FindClassLine(lines) == Some(i);
      var indent := LeadingSpaces(line);
      newLines := newLines + NewListBlock(name, indent, items);
      added := true;
    }
    SlicesGrow(lines, if added then FindClassLine(lines).value else 0, i);
    newLines := newLines + [line];
  }
}

/** What the editor's results mean. */
module EditorFacts {
  import opened Wrappers
  import opened PyText
  import opened Detect
  import opened BraceScanner
  import opened Editor

  /** Text the brace scanner reads as ordinary characters: no brace, no
      double quote, no backslash. */
  predicate Plain(s: string) {
    '{' !in s && '}' !in s && '"' !in s && '\\' !in s
  }

  /** A list name the editor can search for: not empty, and without
      whitespace, commas or scanner-relevant characters. */
  predicate IsListName(name: string) {
    name != [] && Plain(name) && ',' !in name && forall c :: c in name ==> !IsSpace(c)
  }

  /** Number of lines that contain `t`. */
  function CountContaining(lines: seq<string>, t: string): nat
    decreases |lines|
  {
    if lines == [] then 0
    else CountContaining(lines[..|lines| - 1], t) + (if Contains(lines[|lines| - 1], t) then 1 else 0)
  }

  lemma {:induction false} CountAppend(a: seq<string>, b: seq<string>, t: string)
    ensures CountContaining(a + b, t) == CountContaining(a, t) + CountContaining(b, t)
    decreases |b|
  {
    if b != [] {
      assert (a + b)[..|a + b| - 1] == a + b[..|b| - 1];
      CountAppend(a, b[..|b| - 1], t);
    } else {
      assert a + b == a;
    }
  }

  lemma {:induction false} CountNone(lines: seq<string>, t: string)
    requires forall k :: 0 <= k < |lines| ==> !Contains(lines[k], t)
    ensures CountContaining(lines, t) == 0
    decreases |lines|
  {
    if lines != [] {
      CountNone(lines[..|lines| - 1], t);
    }
  }

  lemma NotContainsChar(s: string, t: string, c: char)
    requires c in t && c !in s
    ensures !Contains(s, t)
  {
  }

  /** Swapping one line for another that mentions `t` exactly when it did
      keeps the count. */
  lemma CountSwap(head: seq<string>, x: string, y: string, tail: seq<string>, t: string)
    requires Contains(x, t) <==> Contains(y, t)
    ensures CountContaining(head + [x] + tail, t) == CountContaining(head + [y] + tail, t)
  {
    CountAppend(head + [x], tail, t);
    CountAppend(head + [y], tail, t);
    CountAppend(head, [x], t);
    CountAppend(head, [y], t);
    assert [x][..0] == [] && [y][..0] == [];
  }

  /** Inserting lines none of which mentions `t` keeps the count. */
  lemma CountInsertNone(head: seq<string>, mid: seq<string>, tail: seq<string>, t: string)
    requires forall k :: 0 <= k < |mid| ==> !Contains(mid[k], t)
    ensures CountContaining(head + mid + tail, t) == CountContaining(head + tail, t)
  {
    CountNone(mid, t);
    CountAppend(head + mid, tail, t);
    CountAppend(head, mid, t);
    CountAppend(head, tail, t);
  }

  // ---- the comma fix ----

  /** After the comma fix the stripped line ends in `,` or `{`; the fix only
      touches trailing whitespace and a final comma, and applying it twice
      changes nothing more. */
  lemma CommaFixedEndsList(line: string)
    ensures var f := CommaFixed(line);
      (EndsWith(RStrip(f), ",") || EndsWith(RStrip(f), "{")) &&
      (f == line || f == RStrip(line) + ",") &&
      CommaFixed(f) == f
  {
    var t := RStrip(line);
    if !(EndsWith(t, ",") || EndsWith(t, "{")) {
      var f := t + ",";
      assert f[|f| - 1] == ',';
      assert RStrip(f) == f;
      assert EndsWith(f, ",");
    }
  }

  /** The comma fix neither adds nor removes an occurrence of a list name,
      nor an opening brace. */
  lemma CommaFixedKeepsName(line: string, name: string)
    requires IsListName(name)
    ensures Contains(CommaFixed(line), name) <==> Contains(line, name)
    ensures ('{' in CommaFixed(line)) <==> ('{' in line)
    ensures OpensList(CommaFixed(line), name) <==> OpensList(line, name)
  {
    var t := RStrip(line);
    RStripKeeps(line, name);
    if CommaFixed(line) != line {
      assert CommaFixed(line) == t + ",";
      CommaKeepsName(t, name);
      BraceContained(t);
      BraceContained(line);
      RStripKeeps(line, "{");
      assert '{' in t + "," <==> '{' in t;
    }
  }

  /** Appending a comma neither adds nor removes an occurrence of a list name. */
  lemma CommaKeepsName(t: string, name: string)
    requires IsListName(name)
    ensures Contains(t + ",", name) <==> Contains(t, name)
  {
    var empty: string := [];
    assert t + "," == t + [','] + empty;
    if Contains(t + [','] + empty, name) {
      ContainsAcross(t, ',', empty, name);
    }
    if Contains(t, name) {
      ContainsPrefix(t, ",", name);
    }
  }

  /** A line holds an opening brace exactly when it contains the text `{`. */
  lemma BraceContained(s: string)
    ensures '{' in s <==> Contains(s, "{")
  {
    if '{' in s {
      var i :| 0 <= i < |s| && s[i] == '{';
      assert OccursAt(s, "{", i);
    }
    if Contains(s, "{") {
      var i :| 0 <= i <= |s| - 1 && OccursAt(s, "{", i);
      assert s[i] == '{';
    }
  }

  // ---- merge ----

  /** The merge keeps every original line in order and adds exactly the new
      entries, each ending in a comma, right before the closing line; only
      the line above the closing line may change, by the comma fix. */
  lemma MergeKeepsOrder(lines: seq<string>, closing: nat, items: seq<string>)
    requires closing < |lines|
    ensures var m := MergedLines(lines, closing, items);
      var indent := LeadingSpaces(lines[closing]);
      |m| == |lines| + |items| &&
      (forall j :: 0 <= j < closing - 1 ==> m[j] == lines[j]) &&
      (closing > 0 ==> m[closing - 1] == CommaFixed(lines[closing - 1])) &&
      (forall k :: 0 <= k < |items| ==>
         m[closing + k] == Spaces(indent) + "    " + items[k] + "," && EndsWith(m[closing + k], ",")) &&
      (forall j :: closing <= j < |lines| ==> m[j + |items|] == lines[j])
  {
    var m := MergedLines(lines, closing, items);
    var indent := LeadingSpaces(lines[closing]);
    forall k | 0 <= k < |items|
      ensures m[closing + k] == Spaces(indent) + "    " + items[k] + "," && EndsWith(m[closing + k], ",")
    {
      assert m[closing + k] == MergeEntries(indent, items)[k];
    }
  }

  /** When the list spans more than one line, the merged file still opens the
      list on the same line. */
  lemma MergeKeepsListStart(lines: seq<string>, name: string, start: nat, closing: nat, items: seq<string>)
    requires IsListName(name)
    requires FindAnnotationList(lines, name) == Some(start) && start < closing < |lines|
    ensures FindAnnotationList(MergedLines(lines, closing, items), name) == Some(start)
  {
    var m := MergedLines(lines, closing, items);
    MergeKeepsOrder(lines, closing, items);
    forall j | 0 <= j <= start
      ensures OpensList(m[j], name) <==> OpensList(lines[j], name)
    {
      if j == closing - 1 {
        CommaFixedKeepsName(lines[j], name);
      }
    }
  }

  /** The merge does not change how many lines mention the list name, as
      long as the new entries do not mention it. */
  lemma MergeKeepsNameCount(lines: seq<string>, name: string, closing: nat, items: seq<string>)
    requires IsListName(name) && closing < |lines|
    requires forall k :: 0 <= k < |items| ==> !Contains(MergeEntry(LeadingSpaces(lines[closing]), items[k]), name)
    ensures CountContaining(MergedLines(lines, closing, items), name) == CountContaining(lines, name)
  {
    var entries := MergeEntries(LeadingSpaces(lines[closing]), items);
    assert forall k :: 0 <= k < |entries| ==> !Contains(entries[k], name);
    BeforeClosingKeepsCount(lines, name, closing, entries);
  }

  /** The comma fix plus entries that do not mention the name keep the count. */
  lemma BeforeClosingKeepsCount(lines: seq<string>, name: string, closing: nat, entries: seq<string>)
    requires IsListName(name) && closing < |lines|
    requires forall k :: 0 <= k < |entries| ==> !Contains(entries[k], name)
    ensures CountContaining(BeforeClosing(lines, closing) + entries + lines[closing..], name) == CountContaining(lines, name)
  {
    var tail := lines[closing..];
    if closing == 0 {
      CountInsertNone([], entries, tail, name);
      assert [] + entries + tail == BeforeClosing(lines, closing) + entries + tail;
      assert [] + tail == lines;
    } else {
      var fixed := CommaFixed(lines[closing - 1]);
      CommaFixedKeepsName(lines[closing - 1], name);
      assert BeforeClosing(lines, closing) == lines[..closing - 1] + [fixed];
      CountSwapAt(lines, closing - 1, fixed, entries, name);
    }
  }

  /** Swapping line `i` for one that mentions `t` exactly when it did, and
      inserting lines that do not mention `t` after it, keeps the count. */
  lemma CountSwapAt(lines: seq<string>, i: nat, x: string, mid: seq<string>, t: string)
    requires i < |lines|
    requires Contains(x, t) <==> Contains(lines[i], t)
    requires forall k :: 0 <= k < |mid| ==> !Contains(mid[k], t)
    ensures CountContaining(lines[..i] + [x] + mid + lines[i + 1..], t) == CountContaining(lines, t)
  {
    SplitAt(lines, i);
    CountSwapInsert(lines[..i], x, lines[i], mid, lines[i + 1..], t);
  }

  lemma SplitAt<T>(s: seq<T>, i: nat)
    requires i < |s|
    ensures s[..i] + [s[i]] + s[i + 1..] == s
  {
    assert s[..i] + [s[i]] + s[i + 1..] == s[..i] + s[i..];
  }

  /** Swapping a line for one that mentions `t` exactly when it did, and
      inserting lines that do not mention `t`, keeps the count. */
  lemma CountSwapInsert(head: seq<string>, x: string, y: string, mid: seq<string>, tail: seq<string>, t: string)
    requires Contains(x, t) <==> Contains(y, t)
    requires forall k :: 0 <= k < |mid| ==> !Contains(mid[k], t)
    ensures CountContaining(head + [x] + mid + tail, t) == CountContaining(head + [y] + tail, t)
  {
    CountInsertNone(head + [x], mid, tail, t);
    CountSwap(head, x, y, tail, t);
  }

  // ---- create ----

  /** The created list: original lines before and after it unchanged, the
      wrapper lines at the class line's indentation, the entries four spaces
      deeper, every entry but the last ending in a comma. */
  lemma CreateShape(lines: seq<string>, site: nat, name: string, items: seq<string>)
    requires site < |lines|
    ensures var c := CreatedLines(lines, site, name, items);
      var indent := LeadingSpaces(lines[site]);
      var n := |items|;
      |c| == |lines| + n + 2 &&
      c[..site] == lines[..site] &&
      c[site] == Spaces(indent) + name + "({" &&
      (forall k :: 0 <= k < n - 1 ==> c[site + 1 + k] == Spaces(indent) + "    " + items[k] + ",") &&
      (n > 0 ==> c[site + n] == Spaces(indent) + "    " + items[n - 1]) &&
      c[site + n + 1] == Spaces(indent) + "})" &&
      c[site + n + 2..] == lines[site..]
  {
    var c := CreatedLines(lines, site, name, items);
    var indent := LeadingSpaces(lines[site]);
    var block := NewListBlock(name, indent, items);
    assert c == lines[..site] + block + lines[site..];
    forall k | 0 <= k < |items|
      ensures c[site + 1 + k] == CreateEntry(indent, items[k], k == |items| - 1)
    {
      assert c[site + 1 + k] == block[1 + k] == CreateEntries(indent, items)[k];
    }
    if |items| > 0 {
      assert c[site + |items|] == CreateEntry(indent, items[|items| - 1], true);
      assert Spaces(indent) + "    " + items[|items| - 1] + "" == Spaces(indent) + "    " + items[|items| - 1];
    }
  }

  /** The create path adds exactly one line that mentions the list name. */
  lemma CreateAddsOneName(lines: seq<string>, site: nat, name: string, items: seq<string>)
    requires IsListName(name) && name[0] == '@' && site < |lines|
    requires forall k :: 0 <= k < |items| ==>
      !Contains(CreateEntry(LeadingSpaces(lines[site]), items[k], k == |items| - 1), name)
    ensures CountContaining(CreatedLines(lines, site, name, items), name) == CountContaining(lines, name) + 1
  {
    var indent := LeadingSpaces(lines[site]);
    BlockLinesMention(indent, name);
    EntriesSilent(indent, items, name);
    var entries := CreateEntries(indent, items);
    assert CreatedLines(lines, site, name, items) ==
      lines[..site] + [Spaces(indent) + name + "({"] + entries + [Spaces(indent) + "})"] + lines[site..];
    CountBlock(lines[..site], Spaces(indent) + name + "({", entries, Spaces(indent) + "})", lines[site..], name);
    assert lines == lines[..site] + lines[site..];
  }

  lemma EntriesSilent(indent: nat, items: seq<string>, name: string)
    requires forall k :: 0 <= k < |items| ==> !Contains(CreateEntry(indent, items[k], k == |items| - 1), name)
    ensures CountContaining(CreateEntries(indent, items), name) == 0
  {
    CountNone(CreateEntries(indent, items), name);
  }

  /** The opening line of a created list mentions its name; the closing line
      does not. */
  lemma BlockLinesMention(indent: nat, name: string)
    requires IsListName(name) && name[0] == '@'
    ensures Contains(Spaces(indent) + name + "({", name)
    ensures !Contains(Spaces(indent) + "})", name)
  {
    ContainsInfix(Spaces(indent), name, "({", name) by {
      assert OccursAt(name, name, 0);
    }
    NotContainsChar(Spaces(indent) + "})", name, '@') by {
      assert name[0] in name;
    }
  }

  /** Inserting a block whose first line mentions `t` and whose other lines
      do not adds one to the count. */
  lemma CountBlock(head: seq<string>, opening: string, entries: seq<string>, closingLine: string,
                   tail: seq<string>, t: string)
    requires Contains(opening, t) && !Contains(closingLine, t) && CountContaining(entries, t) == 0
    ensures CountContaining(head + [opening] + entries + [closingLine] + tail, t) == CountContaining(head + tail, t) + 1
  {
    assert [opening][..0] == [] && [closingLine][..0] == [];
    assert CountContaining([opening], t) == 1;
    assert CountContaining([closingLine], t) == 0;
    CountAppend(head + [opening] + entries + [closingLine], tail, t);
    CountAppend(head + [opening] + entries, [closingLine], t);
    CountAppend(head + [opening], entries, t);
    CountAppend(head, [opening], t);
    CountAppend(head, tail, t);
  }

  // ---- well-formed lists ----

  /** Plain text leaves an unescaped scanner state unchanged and never closes. */
  lemma {:induction false} PlainRun(st: ScanState, s: string)
    requires Plain(s) && !st.escapeNext
    ensures RunChars(st, s) == st && !ClosesWithin(st, s)
    decreases |s|
  {
    if s != [] {
      assert s[|s| - 1] in s;
      assert Plain(s[..|s| - 1]) by {
        forall c | c in s[..|s| - 1] ensures c in s {
          var i :| 0 <= i < |s| - 1 && s[..|s| - 1][i] == c;
          assert s[i] == c;
        }
      }
      PlainRun(st, s[..|s| - 1]);
    }
  }

  lemma {:induction false} PlainLinesCloseAt(lines: seq<string>, i: nat, closing: nat, st: ScanState, b: string, rest: string)
    requires i <= closing < |lines| && st == ScanState(1, st.inString, false) && !st.inString
    requires forall k :: i <= k < closing ==> Plain(lines[k])
    requires lines[closing] == b + "}" + rest && Plain(b)
    ensures ClosingLineFrom(lines, i, st) == Some(closing)
    decreases closing - i
  {
    if i < closing {
      PlainRun(st, lines[i]);
      PlainLinesCloseAt(lines, i + 1, closing, st, b, rest);
    } else {
      PlainRun(st, b);
      assert "}"[..0] == [];
      assert ClosesOn(RunChars(st, b), '}');
      assert ClosesWithin(RunChars(st, b), "}") by {
        assert ClosesOn(RunChars(RunChars(st, b), "}"[..0]), "}"[0]);
      }
      ClosesWithinRight(st, b, "}");
      ClosesWithinLeft(st, b + "}", rest);
    }
  }

  /** A list whose opening line is plain text followed by `{`, whose inner
      lines are plain, and whose closing line has plain text then `}`, is
      closed on that closing line. */
  lemma PlainListCloses(lines: seq<string>, start: nat, closing: nat, a: string, b: string, rest: string)
    requires start < closing < |lines|
    requires lines[start] == a + "{" && Plain(a)
    requires forall k :: start < k < closing ==> Plain(lines[k])
    requires lines[closing] == b + "}" + rest && Plain(b)
    ensures ClosingLine(lines, start) == Some(closing)
  {
    OpeningLine(a);
    PlainLinesCloseAt(lines, start + 1, closing, ScanState(1, false, false), b, rest);
  }

  lemma PlainSpaces(n: nat)
    ensures Plain(Spaces(n))
  {
    var r := Spaces(n);
    forall c | c in r ensures c == ' ' {
      var k :| 0 <= k < |r| && r[k] == c;
    }
  }

  /** The created block's inner lines are plain when the entries are. */
  lemma CreatedBlockPlain(lines: seq<string>, site: nat, name: string, items: seq<string>)
    requires site < |lines|
    requires forall k :: 0 <= k < |items| ==> Plain(items[k])
    ensures var c := CreatedLines(lines, site, name, items);
      |c| == |lines| + |items| + 2 &&
      forall k :: site < k < site + |items| + 1 ==> Plain(c[k])
  {
    var c := CreatedLines(lines, site, name, items);
    var indent := LeadingSpaces(lines[site]);
    var block := NewListBlock(name, indent, items);
    assert c == lines[..site] + block + lines[site..];
    PlainSpaces(indent);
    forall k | site < k < site + |items| + 1 ensures Plain(c[k]) {
      assert c[k] == block[k - site] == CreateEntries(indent, items)[k - site - 1];
    }
  }

  /** A list created where none was found is the one the editor then finds. */
  lemma CreatedListIsFound(lines: seq<string>, site: nat, name: string, items: seq<string>)
    requires site < |lines| && IsListName(name)
    requires FindAnnotationList(lines, name).None?
    ensures FindAnnotationList(CreatedLines(lines, site, name, items), name) == Some(site)
  {
    var c := CreatedLines(lines, site, name, items);
    var indent := LeadingSpaces(lines[site]);
    CreateShape(lines, site, name, items);
    assert OpensList(c[site], name) by {
      ContainsInfix(Spaces(indent), name, "({", name) by {
        assert OccursAt(name, name, 0);
      }
      assert c[site][|c[site]| - 1] == '{';
    }
    forall j | 0 <= j < site ensures !OpensList(c[j], name) {
      assert c[j] == c[..site][j] == lines[j];
    }
  }

  /** The created list closes on its `})` line when the name and the
      entries are plain text. */
  lemma CreatedListCloses(lines: seq<string>, site: nat, name: string, items: seq<string>)
    requires site < |lines| && Plain(name)
    requires forall k :: 0 <= k < |items| ==> Plain(items[k])
    ensures ClosingLine(CreatedLines(lines, site, name, items), site) == Some(site + |items| + 1)
  {
    var c := CreatedLines(lines, site, name, items);
    var indent := LeadingSpaces(lines[site]);
    CreateShape(lines, site, name, items);
    CreatedBlockPlain(lines, site, name, items);
    PlainSpaces(indent);
    var a := Spaces(indent) + name + "(";
    assert Plain(a);
    assert c[site] == a + "{";
    assert c[site + |items| + 1] == Spaces(indent) + "}" + ")";
    PlainListCloses(c, site, site + |items| + 1, a, Spaces(indent), ")");
  }

  /** Reading a single brace outside a string. */
  lemma BraceStep(st: ScanState, c: char)
    requires !st.inString && !st.escapeNext && (c == '{' || c == '}')
    ensures RunChars(st, [c]) == st.(depth := if c == '{' then st.depth + 1 else st.depth - 1)
    ensures ClosesWithin(st, [c]) <==> c == '}' && st.depth == 1
  {
    assert [c][..0] == [];
    if c == '}' && st.depth == 1 {
      assert ClosesOn(RunChars(st, [c][..0]), [c][0]);
    }
  }

  /** An opening line, plain text then `{`, enters the list at depth one. */
  lemma OpeningLine(a: string)
    requires Plain(a)
    ensures RunChars(Initial, a + "{") == ScanState(1, false, false)
    ensures !ClosesWithin(Initial, a + "{")
  {
    PlainRun(Initial, a);
    RunCharsAppend(Initial, a, "{");
    BraceStep(Initial, '{');
    ClosesWithinAppend(Initial, a, "{");
  }

  /** A line holding a whole nested block leaves the depth where it was. */
  lemma NestedLine(b: string, c: string, d: string)
    requires Plain(b) && Plain(c) && Plain(d)
    ensures var s1 := ScanState(1, false, false);
      RunChars(s1, b + "{" + c + "}" + d) == s1 && !ClosesWithin(s1, b + "{" + c + "}" + d)
  {
    var s1 := ScanState(1, false, false);
    var s2 := ScanState(2, false, false);
    PlainRun(s1, b);
    BraceStep(s1, '{');
    PlainRun(s2, c);
    BraceStep(s2, '}');
    PlainRun(s1, d);
    RunCharsAppend(s1, b, "{");
    ClosesWithinAppend(s1, b, "{");
    RunCharsAppend(s1, b + "{", c);
    ClosesWithinAppend(s1, b + "{", c);
    RunCharsAppend(s1, b + "{" + c, "}");
    ClosesWithinAppend(s1, b + "{" + c, "}");
    RunCharsAppend(s1, b + "{" + c + "}", d);
    ClosesWithinAppend(s1, b + "{" + c + "}", d);
  }

  /** A block nested inside the list (`@Inner({x})` on one line) raises and
      lowers the depth without closing the list, which closes on the line
      after it. */
  lemma NestedBlockCloses(lines: seq<string>, start: nat, a: string, b: string, c: string, d: string, e: string, rest: string)
    requires start + 2 < |lines|
    requires Plain(a) && Plain(b) && Plain(c) && Plain(d) && Plain(e)
    requires lines[start] == a + "{"
    requires lines[start + 1] == b + "{" + c + "}" + d
    requires lines[start + 2] == e + "}" + rest
    ensures ClosingLine(lines, start) == Some(start + 2)
  {
    var s1 := ScanState(1, false, false);
    OpeningLine(a);
    NestedLine(b, c, d);
    assert ClosingLine(lines, start) == ClosingLineFrom(lines, start + 1, s1);
    assert ClosingLineFrom(lines, start + 1, s1) == ClosingLineFrom(lines, start + 2, s1);
    PlainLinesCloseAt(lines, start + 2, start + 2, ScanState(1, false, false), e, rest);
  }

  /** Whatever an entry mentions, the merged file mentions. */
  lemma MergedCarries(lines: seq<string>, closing: nat, items: seq<string>, k: nat, t: string)
    requires closing < |lines| && k < |items| && Contains(items[k], t)
    ensures Contains(Join(MergedLines(lines, closing, items)), t)
  {
    var indent := LeadingSpaces(lines[closing]);
    MergeKeepsOrder(lines, closing, items);
    ContainsInfix(Spaces(indent) + "    ", items[k], ",", t);
    ContainsJoin(MergedLines(lines, closing, items), closing + k, t);
  }

  /** Whatever an entry mentions, the file with the created list mentions. */
  lemma CreatedCarries(lines: seq<string>, site: nat, name: string, items: seq<string>, k: nat, t: string)
    requires site < |lines| && k < |items| && Contains(items[k], t)
    ensures Contains(Join(CreatedLines(lines, site, name, items)), t)
  {
    var c := CreatedLines(lines, site, name, items);
    var indent := LeadingSpaces(lines[site]);
    var block := NewListBlock(name, indent, items);
    assert c == lines[..site] + block + lines[site..];
    assert c[site + 1 + k] == block[1 + k] == CreateEntries(indent, items)[k];
    ContainsInfix(Spaces(indent) + "    ", items[k], if k == |items| - 1 then "" else ",", t);
    ContainsJoin(c, site + 1 + k, t);
  }
}
