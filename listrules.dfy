/**
  Rules 3 and 4 of TestDoctorFixer: `_fix_rule3` adds the PACKAGE_INSTALL
  queue-type mappings to `@MqTypeMappingList`, `_fix_rule4` adds the three
  countdown latches to `@MqCustomCountDownLatchList`. The two fixers are the
  same procedure over different texts, so one definition serves both.
*/
module ListRules {
  import opened Wrappers
  import opened PyText
  import opened Detect
  import opened BraceScanner
  import opened Editor
  import opened EditorFacts

  datatype ListRule = PackageInstallMappings | CountdownLatches

  // ---- the texts the rules insert ----

  const PackageInstall := "PACKAGE_INSTALL"
  const QueueTypeEnum := "MessageQueueTypeEnum"
  const DeployHandler := "MetadataDeployQueueMessageTestHandler"
  const CreateHandler := "CreateArtifactVersionTestHandler"
  const BuildHandler := "BuildArtifactVersionTestHandler"
  const CreateLatch := "CREATE_ARTIFACT_VERSION_" + "PREPARING_ENDPOINT_LATCH"
  const BuildLatch := "BUILD_ARTIFACT_VERSION_DONE_LATCH"
  const DeployLatch := "PACKAGE2_METADATA_DEPLOY_LATCH"

  /** One `@MqTypeMapping` entry routing a queue type to the deploy handler. */
  function Mapping(kind: string): string {
    "@" + MappingBody(kind)
  }

  function MappingBody(kind: string): string {
    "MqTypeMapping(type = " + QueueTypeEnum + "." + kind + ", handler = " + DeployHandler + ".class)"
  }

  /** One `@MqCustomCountDownLatch` entry with the 600-second timeout. */
  function Latch(handler: string, latch: string): string {
    "@" + LatchBody(handler, latch)
  }

  function LatchBody(handler: string, latch: string): string {
    "MqCustomCountDownLatch(name = " + handler + "." + latch + ", timeout = 600)"
  }

  /** The list annotation each rule edits. */
  function ListName(r: ListRule): string {
    match r
    case PackageInstallMappings => "@MqTypeMappingList"
    case CountdownLatches => "@MqCustomCountDownLatchList"
  }

  /** The entries each rule adds, without indentation or separating comma. */
  function Items(r: ListRule): seq<string> {
    match r
    case PackageInstallMappings =>
      [Mapping(PackageInstall), Mapping(PackageInstall + "_DEFAULT"),
       Mapping(PackageInstall + "_SMALL"), Mapping(PackageInstall + "_LARGE")]
    case CountdownLatches =>
      [Latch(CreateHandler, CreateLatch), Latch(BuildHandler, BuildLatch), Latch(DeployHandler, DeployLatch)]
  }

  /** The texts whose joint presence means the rule has already been applied. */
  function Markers(r: ListRule): seq<string> {
    match r
    case PackageInstallMappings => [QueueTypeEnum + "." + PackageInstall, DeployHandler]
    case CountdownLatches =>
      [CreateHandler + "." + CreateLatch, BuildHandler + "." + BuildLatch, DeployHandler + "." + DeployLatch]
  }

  // ---- imports ----

  const Annotations := "common.messaging.annotations"

  function Requirements(r: ListRule): seq<ImportNeed> {
    match r
    case PackageInstallMappings =>
      [ByLine(Annotations, "MqTypeMapping"), ByLine(Annotations, "MqTypeMappingList"),
       ByLine("common.udd.constants.messaging", QueueTypeEnum),
       ByLine("com.force.packaging2.build.state", DeployHandler)]
    case CountdownLatches =>
      [ByLine(Annotations, "MqCustomCountDownLatch"), ByLine(Annotations, "MqCustomCountDownLatchList"),
       ByName("com.force.packaging2", CreateHandler), ByName("com.force.packaging2", BuildHandler),
       ByName("com.force.packaging2.build.state", DeployHandler)]
  }

  // ---- the fix ----

  /** Everything that distinguishes rule 3 from rule 4. */
  datatype ListSpec = ListSpec(name: string, items: seq<string>, markers: seq<string>, needs: seq<ImportNeed>)

  function Spec(r: ListRule): ListSpec {
    ListSpec(ListName(r), Items(r), Markers(r), Requirements(r))
  }

  predicate AllPresent(content: string, markers: seq<string>) {
    forall k :: 0 <= k < |markers| ==> Contains(content, markers[k])
  }

  /** The file's lines once the missing imports are in. */
  function Prepared(sp: ListSpec, content: string): seq<string> {
    WithImports(Split(content), Missing(sp.needs, content))
  }

  /** The shared body of `_fix_rule3` and `_fix_rule4`, on a file's text. */
  function ListEdit(sp: ListSpec, content: string): Outcome {
    if AllPresent(content, sp.markers) then NotApplied
    else if UsesMethodLevelAnnotations(Split(content), sp.name) then NotApplied
    else
      var lines := Prepared(sp, content);
      match FindAnnotationList(lines, sp.name)
      case Some(start) =>
        (match ClosingLine(lines, start)
         case Some(closing) => Applied(MergedLines(lines, closing, sp.items))
         case None => NotApplied)
      case None =>
        (match FindClassLine(lines)
         case Some(site) => Applied(CreatedLines(lines, site, sp.name, sp.items))
         case None => NotApplied)
  }

  /** What `_fix_rule3` / `_fix_rule4` do to a file's text. */
  function ListFix(r: ListRule, content: string): Outcome {
    ListEdit(Spec(r), content)
  }

  /** The chain of `in` tests that opens each fixer. */
  method CheckMarkers(content: string, markers: seq<string>) returns (present: bool)
    ensures present <==> AllPresent(content, markers)
  {
    var k := 0;
    while k < |markers| && Contains(content, markers[k])
      invariant k <= |markers|
      invariant forall j :: 0 <= j < k ==> Contains(content, markers[j])
    {
      k := k + 1;
    }
    present := k == |markers|;
  }

  method EditList(sp: ListSpec, content: string) returns (added: bool, newLines: seq<string>)
    ensures added <==> ListEdit(sp, content).Applied?
    ensures added ==> newLines == ListEdit(sp, content).lines
  {
    added, newLines := false, [];
    var fixed := CheckMarkers(content, sp.markers);
    if fixed {
      return;
    }
    var lines := Split(content);
    if UsesMethodLevelAnnotations(lines, sp.name) {
      return;
    }
    var needs := Missing(sp.needs, content);
    if needs != [] {
      lines := AddImports(lines, needs);
    } else {
      assert WithImports(lines, needs) == lines by {
        if FirstImport(lines).Some? {
          assert InsertAt(lines, FirstImport(lines).value, needs) == lines;
        }
      }
    }
    assert lines == Prepared(sp, content);
    var start := FindAnnotationList(lines, sp.name);
    if start.Some? {
      var closing := FindClosingBrace(lines, start.value);
      if closing.Some? {
        newLines := MergeIntoList(lines, closing.value, sp.items);
        added := true;
      }
    } else {
      newLines, added := CreateList(lines, sp.name, sp.items);
    }
  }

  /** `_fix_rule3` (PackageInstallMappings) and `_fix_rule4` (CountdownLatches)
      minus the file I/O. */
  method FixListRule(r: ListRule, content: string) returns (added: bool, newLines: seq<string>)
    ensures added <==> ListFix(r, content).Applied?
    ensures added ==> newLines == ListFix(r, content).lines
  {
    added, newLines := EditList(Spec(r), content);
  }

  // ---- what the fix promises ----

  /** Every marker is mentioned by some entry the rule inserts. */
  predicate Carries(sp: ListSpec) {
    forall k :: 0 <= k < |sp.markers| ==> exists i :: 0 <= i < |sp.items| && Contains(sp.items[i], sp.markers[k])
  }

  /** A rule is a no-op exactly when its markers are all present, the file
      uses the list only on methods, the existing list never closes, or there
      is neither a list nor a class declaration to put one above. */
  lemma ListEditNoOps(sp: ListSpec, content: string)
    ensures ListEdit(sp, content).NotApplied? <==>
      AllPresent(content, sp.markers) ||
      UsesMethodLevelAnnotations(Split(content), sp.name) ||
      (var lines := Prepared(sp, content);
       match FindAnnotationList(lines, sp.name)
       case Some(start) => ClosingLine(lines, start).None?
       case None => FindClassLine(lines).None?)
  {
  }

  /** An applied fix leaves every marker in the file. */
  lemma ListEditLeavesMarkers(sp: ListSpec, content: string, k: nat)
    requires Carries(sp) && ListEdit(sp, content).Applied? && k < |sp.markers|
    ensures Contains(Join(ListEdit(sp, content).lines), sp.markers[k])
  {
    var lines := Prepared(sp, content);
    var i :| 0 <= i < |sp.items| && Contains(sp.items[i], sp.markers[k]);
    match FindAnnotationList(lines, sp.name)
    case Some(start) =>
      MergedCarries(lines, ClosingLine(lines, start).value, sp.items, i, sp.markers[k]);
    case None =>
      CreatedCarries(lines, FindClassLine(lines).value, sp.name, sp.items, i, sp.markers[k]);
  }

  /** Applying a rule a second time changes nothing. */
  lemma ListEditIdempotent(sp: ListSpec, content: string)
    requires Carries(sp) && ListEdit(sp, content).Applied?
    ensures ListEdit(sp, Join(ListEdit(sp, content).lines)).NotApplied?
  {
    forall k | 0 <= k < |sp.markers|
      ensures Contains(Join(ListEdit(sp, content).lines), sp.markers[k])
    {
      ListEditLeavesMarkers(sp, content, k);
    }
  }

  lemma MappingCarries(kind: string)
    ensures Contains(Mapping(kind), QueueTypeEnum + "." + kind)
    ensures Contains(Mapping(kind), DeployHandler)
  {
    var q := QueueTypeEnum + "." + kind;
    var body := MappingBody(kind);
    var tail := ", handler = " + DeployHandler + ".class)";
    assert body == "MqTypeMapping(type = " + q + tail;
    ContainsSelf(q);
    ContainsInfix("MqTypeMapping(type = ", q, tail, q);
    ContainsSuffix("@", body, q);
    assert body == ("MqTypeMapping(type = " + q + ", handler = ") + DeployHandler + ".class)";
    ContainsSelf(DeployHandler);
    ContainsInfix("MqTypeMapping(type = " + q + ", handler = ", DeployHandler, ".class)", DeployHandler);
    ContainsSuffix("@", body, DeployHandler);
  }

  lemma LatchCarries(handler: string, latch: string)
    ensures Contains(Latch(handler, latch), handler + "." + latch)
  {
    var q := handler + "." + latch;
    var body := LatchBody(handler, latch);
    assert body == "MqCustomCountDownLatch(name = " + q + ", timeout = 600)";
    ContainsSelf(q);
    ContainsInfix("MqCustomCountDownLatch(name = ", q, ", timeout = 600)", q);
    ContainsSuffix("@", body, q);
  }

  /** Both rules insert entries that carry all of their markers. */
  lemma RulesCarry(r: ListRule)
    ensures Carries(Spec(r))
  {
    var items := Items(r);
    var markers := Markers(r);
    match r
    case PackageInstallMappings =>
      MappingCarries(PackageInstall);
      assert Contains(items[0], markers[0]) && Contains(items[0], markers[1]);
      assert forall k :: 0 <= k < |markers| ==> Contains(items[0], markers[k]);
    case CountdownLatches =>
      LatchCarries(CreateHandler, CreateLatch);
      LatchCarries(BuildHandler, BuildLatch);
      LatchCarries(DeployHandler, DeployLatch);
      assert Contains(items[0], markers[0]);
      assert Contains(items[1], markers[1]);
      assert Contains(items[2], markers[2]);
      assert |markers| == 3 <= |items|;
      assert forall k :: 0 <= k < |markers| ==> Contains(items[k], markers[k]);
  }

  /** Rules 3 and 4 are idempotent: a file they changed is one they leave alone. */
  lemma ListFixIdempotent(r: ListRule, content: string)
    requires ListFix(r, content).Applied?
    ensures ListFix(r, Join(ListFix(r, content).lines)).NotApplied?
  {
    RulesCarry(r);
    ListEditIdempotent(Spec(r), content);
  }

  /** After rule 3 or 4 is applied, the scanner no longer reports it. */
  lemma ListFixClearsIssue(r: ListRule, content: string)
    requires ListFix(r, content).Applied?
    ensures var fixed := Join(ListFix(r, content).lines);
      match r
      case PackageInstallMappings => !Rule3Applies(fixed)
      case CountdownLatches => !Rule4Applies(fixed)
  {
    var fixed := Join(ListFix(r, content).lines);
    RulesCarry(r);
    ListEditLeavesMarkers(Spec(r), content, 0);
    var m := Markers(r)[0];
    match r
    case PackageInstallMappings =>
      ContainsSelf(PackageInstall);
      ContainsSuffix(QueueTypeEnum + ".", PackageInstall, PackageInstall);
      ContainsTrans(fixed, m, PackageInstall);
      assert HasPackageInstallMapping(fixed);
    case CountdownLatches =>
      ContainsSelf(CreateLatch);
      ContainsSuffix(CreateHandler + ".", CreateLatch, CreateLatch);
      ContainsTrans(fixed, m, CreateLatch);
      CreateLatchSpelledOut();
      assert HasCountdownLatches(fixed);
  }

  lemma CreateLatchSpelledOut()
    ensures CreateLatch == "CREATE_ARTIFACT_VERSION_PREPARING_ENDPOINT_LATCH"
  {
  }

  // ---- the list annotation appears once ----

  /** Import lines that do not mention the list name change neither whether
      the file has a list nor how many lines mention its name. */
  lemma ImportsKeepList(lines: seq<string>, imports: seq<string>, name: string)
    requires forall k :: 0 <= k < |imports| ==> !Contains(imports[k], name)
    ensures FindAnnotationList(WithImports(lines, imports), name).Some? <==> FindAnnotationList(lines, name).Some?
    ensures CountContaining(WithImports(lines, imports), name) == CountContaining(lines, name)
  {
    match FirstImport(lines)
    case None =>
    case Some(k) =>
      InsertKeepsCount(lines, k, imports, name);
      InsertKeepsList(lines, k, imports, name);
  }

  lemma InsertKeepsCount(lines: seq<string>, k: nat, imports: seq<string>, name: string)
    requires k <= |lines|
    requires forall j :: 0 <= j < |imports| ==> !Contains(imports[j], name)
    ensures CountContaining(InsertAt(lines, k, imports), name) == CountContaining(lines, name)
  {
    CountInsertNone(lines[..k], imports, lines[k..], name);
    assert lines[..k] + lines[k..] == lines;
  }

  lemma InsertKeepsList(lines: seq<string>, k: nat, imports: seq<string>, name: string)
    requires k <= |lines|
    requires forall j :: 0 <= j < |imports| ==> !Contains(imports[j], name)
    ensures FindAnnotationList(InsertAt(lines, k, imports), name).Some? <==> FindAnnotationList(lines, name).Some?
  {
    var out := InsertAt(lines, k, imports);
    if FindAnnotationList(lines, name).Some? {
      var j := FindAnnotationList(lines, name).value;
      if j < k {
        assert out[j] == lines[j];
      } else {
        assert out[j + |imports|] == lines[j];
      }
    }
    if FindAnnotationList(out, name).Some? {
      var j := FindAnnotationList(out, name).value;
      if j < k {
        assert out[j] == lines[j];
      } else if j >= k + |imports| {
        assert out[j] == lines[j - |imports|];
      }
    }
  }

  /** Entries that never mention the list name, whatever their indentation
      and whether or not they end in a comma. */
  ghost predicate ItemsOmit(items: seq<string>, name: string) {
    forall k, indent: nat, last: bool :: 0 <= k < |items| ==> !Contains(CreateEntry(indent, items[k], last), name)
  }

  /** When the rule's entries and imports do not mention the list name, the
      merge path keeps the number of lines mentioning it and the create path
      adds exactly one: a file with one list line still has one. */
  lemma ListEditCountsName(sp: ListSpec, content: string)
    requires ListEdit(sp, content).Applied?
    requires IsListName(sp.name) && sp.name[0] == '@'
    requires forall k :: 0 <= k < |sp.needs| ==> '@' !in sp.needs[k].line
    requires ItemsOmit(sp.items, sp.name)
    ensures var lines := Split(content);
      var out := ListEdit(sp, content).lines;
      (FindAnnotationList(lines, sp.name).Some? ==> CountContaining(out, sp.name) == CountContaining(lines, sp.name)) &&
      (FindAnnotationList(lines, sp.name).None? ==> CountContaining(out, sp.name) == CountContaining(lines, sp.name) + 1)
  {
    var lines := Split(content);
    var imports := Missing(sp.needs, content);
    forall k | 0 <= k < |imports| ensures !Contains(imports[k], sp.name) {
      var j := MissingFrom(sp.needs, content, k);
      assert sp.name[0] in sp.name;
      NotContainsChar(imports[k], sp.name, '@');
    }
    ImportsKeepList(lines, imports, sp.name);
    var prepared := Prepared(sp, content);
    match FindAnnotationList(prepared, sp.name)
    case Some(start) =>
      var closing := ClosingLine(prepared, start).value;
      forall k | 0 <= k < |sp.items|
        ensures !Contains(MergeEntry(LeadingSpaces(prepared[closing]), sp.items[k]), sp.name)
      {
        assert MergeEntry(LeadingSpaces(prepared[closing]), sp.items[k]) ==
          CreateEntry(LeadingSpaces(prepared[closing]), sp.items[k], false);
      }
      MergeKeepsNameCount(prepared, sp.name, closing, sp.items);
    case None =>
      CreateAddsOneName(prepared, FindClassLine(prepared).value, sp.name, sp.items);
  }

  /** An entry line is the indentation, an `@`, and the rest of the entry. */
  lemma EntryAt(indent: nat, body: string, last: bool)
    ensures CreateEntry(indent, "@" + body, last) ==
      (Spaces(indent) + "    ") + ['@'] + (body + (if last then "" else ","))
  {
  }

  // Facts about the rule texts, one literal or pair of literals per lemma:
  // each character check on a string literal is cheap alone and expensive in
  // company, so they are kept apart.

  lemma NoAtInNames()
    ensures '@' !in QueueTypeEnum && '@' !in DeployHandler
  {
  }

  lemma MappingBodyHasNoAt(kind: string)
    requires '@' !in kind
    ensures '@' !in MappingBody(kind) && MappingBody(kind)[13] == '('
  {
    NoAtInNames();
    assert '@' !in "MqTypeMapping(type = ";
    assert '@' !in ", handler = " && '@' !in ".class)";
  }

  lemma LatchBodyHasNoAt(handler: string, latch: string)
    requires '@' !in handler && '@' !in latch
    ensures '@' !in LatchBody(handler, latch) && LatchBody(handler, latch)[22] == '('
  {
    assert '@' !in "MqCustomCountDownLatch(name = " && '@' !in ", timeout = 600)";
  }

  lemma MappingOmitsList(kind: string, indent: nat, last: bool)
    requires '@' !in kind
    ensures !Contains(CreateEntry(indent, Mapping(kind), last), "@MqTypeMappingList")
  {
    var body := MappingBody(kind);
    MappingBodyHasNoAt(kind);
    var q := body + (if last then "" else ",");
    EntryAt(indent, body, last);
    var t := "@MqTypeMappingList";
    assert q[13] == '(' && t[1..][13] == 'L';
    AnchoredMiss(Spaces(indent) + "    ", '@', q, t);
  }

  lemma LatchOmitsList(handler: string, latch: string, indent: nat, last: bool)
    requires '@' !in handler && '@' !in latch
    ensures !Contains(CreateEntry(indent, Latch(handler, latch), last), "@MqCustomCountDownLatchList")
  {
    var body := LatchBody(handler, latch);
    LatchBodyHasNoAt(handler, latch);
    var q := body + (if last then "" else ",");
    EntryAt(indent, body, last);
    var t := "@MqCustomCountDownLatchList";
    assert q[22] == '(' && t[1..][22] == 'L';
    AnchoredMiss(Spaces(indent) + "    ", '@', q, t);
  }

  lemma MappingListHasNoSpace()
    ensures forall c :: c in "@MqTypeMappingList" ==> !IsSpace(c)
  {
  }

  lemma MappingListIsPlain()
    ensures Plain("@MqTypeMappingList") && ',' !in "@MqTypeMappingList"
  {
  }

  lemma LatchListHasNoSpace()
    ensures forall c :: c in "@MqCustomCountDownLatchList" ==> !IsSpace(c)
  {
  }

  lemma LatchListHasNoBrace()
    ensures '{' !in "@MqCustomCountDownLatchList" && '}' !in "@MqCustomCountDownLatchList"
  {
  }

  lemma LatchListHasNoQuote()
    ensures '"' !in "@MqCustomCountDownLatchList" && '\\' !in "@MqCustomCountDownLatchList"
  {
  }

  lemma LatchListHasNoComma()
    ensures ',' !in "@MqCustomCountDownLatchList"
  {
  }

  lemma ListNamesAreNames(r: ListRule)
    ensures IsListName(ListName(r)) && ListName(r)[0] == '@'
  {
    MappingListHasNoSpace();
    MappingListIsPlain();
    LatchListHasNoSpace();
    LatchListHasNoBrace();
    LatchListHasNoQuote();
    LatchListHasNoComma();
  }

  lemma ImportHasNoAt(pkg: string, cls: string)
    requires '@' !in pkg && '@' !in cls
    ensures '@' !in Import(pkg, cls)
  {
    assert '@' !in "import ";
  }

  lemma NoAtInPackages()
    ensures '@' !in Annotations && '@' !in "common.udd.constants.messaging"
  {
  }

  lemma NoAtInBuildPackages()
    ensures '@' !in "com.force.packaging2.build.state" && '@' !in "com.force.packaging2"
  {
  }

  lemma NoAtInMappingClasses()
    ensures '@' !in "MqTypeMapping" && '@' !in "MqTypeMappingList"
  {
  }

  lemma NoAtInLatchClasses()
    ensures '@' !in "MqCustomCountDownLatch" && '@' !in "MqCustomCountDownLatchList"
  {
  }

  lemma NoAtInHandlers()
    ensures '@' !in CreateHandler && '@' !in BuildHandler
  {
  }

  lemma NoAtInLatches()
    ensures '@' !in CreateLatch
  {
    assert '@' !in "CREATE_ARTIFACT_VERSION_";
    assert '@' !in "PREPARING_ENDPOINT_LATCH";
  }

  lemma NoAtInOtherLatches()
    ensures '@' !in BuildLatch && '@' !in DeployLatch
  {
  }

  lemma NoAtInKinds()
    ensures '@' !in PackageInstall + "_DEFAULT" && '@' !in PackageInstall + "_SMALL" && '@' !in PackageInstall + "_LARGE"
  {
  }

  lemma ImportsHaveNoAt(r: ListRule)
    ensures forall k :: 0 <= k < |Requirements(r)| ==> '@' !in Requirements(r)[k].line
  {
    NoAtInPackages();
    NoAtInBuildPackages();
    NoAtInMappingClasses();
    NoAtInLatchClasses();
    NoAtInHandlers();
    NoAtInNames();
    var needs := Requirements(r);
    forall k | 0 <= k < |needs| ensures '@' !in needs[k].line {
      match r
      case PackageInstallMappings =>
        if k == 0 { ImportHasNoAt(Annotations, "MqTypeMapping"); }
        else if k == 1 { ImportHasNoAt(Annotations, "MqTypeMappingList"); }
        else if k == 2 { ImportHasNoAt("common.udd.constants.messaging", QueueTypeEnum); }
        else { ImportHasNoAt("com.force.packaging2.build.state", DeployHandler); }
      case CountdownLatches =>
        if k == 0 { ImportHasNoAt(Annotations, "MqCustomCountDownLatch"); }
        else if k == 1 { ImportHasNoAt(Annotations, "MqCustomCountDownLatchList"); }
        else if k == 2 { ImportHasNoAt("com.force.packaging2", CreateHandler); }
        else if k == 3 { ImportHasNoAt("com.force.packaging2", BuildHandler); }
        else { ImportHasNoAt("com.force.packaging2.build.state", DeployHandler); }
    }
  }

  lemma ItemsOmitName(r: ListRule)
    ensures ItemsOmit(Items(r), ListName(r))
  {
    NoAtInLatches();
    NoAtInOtherLatches();
    NoAtInKinds();
    NoAtInHandlers();
    NoAtInNames();
    var items := Items(r);
    forall k, indent: nat, last: bool | 0 <= k < |items|
      ensures !Contains(CreateEntry(indent, items[k], last), ListName(r))
    {
      match r
      case PackageInstallMappings =>
        if k == 0 { MappingOmitsList(PackageInstall, indent, last); }
        else if k == 1 { MappingOmitsList(PackageInstall + "_DEFAULT", indent, last); }
        else if k == 2 { MappingOmitsList(PackageInstall + "_SMALL", indent, last); }
        else { MappingOmitsList(PackageInstall + "_LARGE", indent, last); }
      case CountdownLatches =>
        if k == 0 { LatchOmitsList(CreateHandler, CreateLatch, indent, last); }
        else if k == 1 { LatchOmitsList(BuildHandler, BuildLatch, indent, last); }
        else { LatchOmitsList(DeployHandler, DeployLatch, indent, last); }
    }
  }

  /** Rules 3 and 4 keep the list annotation unique: merging into an existing
      list leaves the number of lines naming it unchanged, and creating a
      list adds exactly one such line. */
  lemma ListFixCountsName(r: ListRule, content: string)
    requires ListFix(r, content).Applied?
    ensures var lines := Split(content);
      var out := ListFix(r, content).lines;
      (FindAnnotationList(lines, ListName(r)).Some? ==> CountContaining(out, ListName(r)) == CountContaining(lines, ListName(r))) &&
      (FindAnnotationList(lines, ListName(r)).None? ==> CountContaining(out, ListName(r)) == CountContaining(lines, ListName(r)) + 1)
  {
    ListNamesAreNames(r);
    ImportsHaveNoAt(r);
    ItemsOmitName(r);
    ListEditCountsName(Spec(r), content);
  }
}
