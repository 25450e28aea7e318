/**
  The scanner side of TestDoctor: the plain substring detectors, the three
  regular expressions the tool uses (written out as explicit predicates),
  the first-match locators and the class-level/method-level test.
*/
module Detect {
  import opened Wrappers
  import opened PyText

  // ---- substring detectors ----

  /** The second pattern is tested as a literal substring, dot and star included. */
  predicate HasScratchOrgCreation(content: string) {
    Contains(content, "createScratchOrg") || Contains(content, "reestablishRequest.*Subscriber")
  }

  predicate HasRegisterOrg(content: string) {
    Contains(content, "registerNewOrg")
  }

  predicate HasPackageOperations(content: string) {
    Contains(content, "createPackage2Version") || Contains(content, "convertPackage") ||
    Contains(content, "installPackage") || Contains(content, "createInstallRequest")
  }

  predicate HasUseTestQueue(content: string) {
    Contains(content, "USE_TEST_QUEUE") || Contains(content, "extends BaseBuildOrgTest")
  }

  predicate HasUsesMessageQueue(content: string) {
    Contains(content, "@UsesMessageQueue")
  }

  predicate HasInstallOperations(content: string) {
    Contains(content, "installPackage") || Contains(content, "createInstallRequest") ||
    Contains(content, "install(")
  }

  predicate HasPackageInstallMapping(content: string) {
    Contains(content, "PACKAGE_INSTALL")
  }

  predicate CreatesPackageVersions(content: string) {
    Contains(content, "createPackage2Version") || Contains(content, "convertPackage") ||
    Contains(content, "TestPackage2VersionBuilder")
  }

  predicate HasCountdownLatches(content: string) {
    Contains(content, "CREATE_ARTIFACT_VERSION_PREPARING_ENDPOINT_LATCH") ||
    Contains(content, "BUILD_ARTIFACT_VERSION_DONE_LATCH")
  }

  // ---- the regular expressions ----

  /** `\w`, restricted to ASCII. */
  predicate IsWordChar(c: char) {
    'a' <= c <= 'z' || 'A' <= c <= 'Z' || '0' <= c <= '9' || c == '_'
  }

  /** End of the run of word characters that starts at index `i`. */
  function WordRunEnd(s: string, i: nat): (e: nat)
    requires i <= |s|
    ensures i <= e <= |s|
    ensures forall k :: i <= k < e ==> IsWordChar(s[k])
    ensures e == |s| || !IsWordChar(s[e])
    decreases |s| - i
  {
    if i < |s| && IsWordChar(s[i]) then WordRunEnd(s, i + 1) else i
  }

  /** `extends\s+BaseTest\s` matches at index `i`. */
  predicate ExtendsBaseTestAt(s: string, i: int) {
    OccursAt(s, "extends", i) &&
    var j := SpaceRunEnd(s, i + 7);
    j > i + 7 && OccursAt(s, "BaseTest", j) && j + 8 < |s| && IsSpace(s[j + 8])
  }

  /** `re.search(r'extends\s+BaseTest\s', content)` finds a match. */
  predicate ExtendsBaseTest(content: string) {
    exists i :: 0 <= i < |content| && ExtendsBaseTestAt(content, i)
  }

  /** `public\s+class\s+\w+.*Test` matches at index `i`. The whitespace runs
      are maximal because neither `c` nor a word character is whitespace, and
      `\w+.*` needs one word character followed by any newline-free text. */
  predicate ClassDeclAt(line: string, i: int) {
    OccursAt(line, "public", i) &&
    var j := SpaceRunEnd(line, i + 6);
    j > i + 6 && OccursAt(line, "class", j) &&
    var k := SpaceRunEnd(line, j + 5);
    k > j + 5 && k < |line| && IsWordChar(line[k]) &&
    Contains(UpToNewline(line[k + 1..]), "Test")
  }

  /** `re.search(r'public\s+class\s+\w+.*Test', line)` finds a match. */
  predicate IsClassDecl(line: string) {
    exists i :: 0 <= i < |line| && ClassDeclAt(line, i)
  }

  // ---- first-match locators ----

  function FindClassLineFrom(lines: seq<string>, i: nat): (r: Option<nat>)
    ensures r.Some? ==> i <= r.value < |lines| && IsClassDecl(lines[r.value])
    ensures r.Some? ==> forall j :: i <= j < r.value ==> !IsClassDecl(lines[j])
    ensures r.None? ==> forall j :: i <= j < |lines| ==> !IsClassDecl(lines[j])
    decreases |lines| - i
  {
    if i >= |lines| then None
    else if IsClassDecl(lines[i]) then Some(i)
    else FindClassLineFrom(lines, i + 1)
  }

  /** Index of the first class-declaration line (the attachment site). */
  function FindClassLine(lines: seq<string>): (r: Option<nat>)
    ensures r.Some? ==> r.value < |lines| && IsClassDecl(lines[r.value])
    ensures r.Some? ==> forall j :: 0 <= j < r.value ==> !IsClassDecl(lines[j])
    ensures r.None? ==> forall j :: 0 <= j < |lines| ==> !IsClassDecl(lines[j])
  {
    FindClassLineFrom(lines, 0)
  }

  function FindLineNumberFrom(lines: seq<string>, pattern: string, i: nat): (n: nat)
    ensures n == 0 ==> forall j :: i <= j < |lines| ==> !Contains(lines[j], pattern)
    ensures n != 0 ==> i < n <= |lines| && Contains(lines[n - 1], pattern)
    ensures n != 0 ==> forall j :: i <= j < n - 1 ==> !Contains(lines[j], pattern)
    decreases |lines| - i
  {
    if i >= |lines| then 0
    else if Contains(lines[i], pattern) then i + 1
    else FindLineNumberFrom(lines, pattern, i + 1)
  }

  /** `_find_line_number`: the 1-based number of the first line containing
      `pattern`, or 0 when no line does. */
  function FindLineNumber(lines: seq<string>, pattern: string): (n: nat)
    ensures n <= |lines|
    ensures n == 0 <==> forall j :: 0 <= j < |lines| ==> !Contains(lines[j], pattern)
    ensures n != 0 ==> Contains(lines[n - 1], pattern)
    ensures n != 0 ==> forall j :: 0 <= j < n - 1 ==> !Contains(lines[j], pattern)
  {
    FindLineNumberFrom(lines, pattern, 0)
  }

  // ---- class-level versus method-level annotations ----

  /** First index of the 10-line lookback window above line `c`. */
  function WindowStart(c: nat): nat {
    if c >= 10 then c - 10 else 0
  }

  /** Some line of the lookback window above line `c` mentions `annotation`. */
  predicate HasClassLevel(lines: seq<string>, c: nat, annotation: string)
    requires c <= |lines|
  {
    exists i :: WindowStart(c) <= i < c && Contains(lines[i], annotation)
  }

  /** `_uses_method_level_annotations`: a class line exists, the annotation
      is not in its lookback window, yet the file mentions it. */
  predicate UsesMethodLevelAnnotations(lines: seq<string>, annotation: string) {
    match FindClassLine(lines)
    case None => false
    case Some(c) => !HasClassLevel(lines, c, annotation) && Contains(Join(lines), annotation)
  }

  /** Method-level use means: a class line exists, and the annotation occurs on
      some line, but on none of the ten lines above the class line. */
  lemma MethodLevelIff(lines: seq<string>, annotation: string)
    requires annotation != [] && '\n' !in annotation
    ensures UsesMethodLevelAnnotations(lines, annotation) <==>
      (FindClassLine(lines).Some? &&
       (forall i :: WindowStart(FindClassLine(lines).value) <= i < FindClassLine(lines).value ==>
          !Contains(lines[i], annotation)) &&
       (exists i :: 0 <= i < |lines| && Contains(lines[i], annotation)))
  {
    if UsesMethodLevelAnnotations(lines, annotation) {
      var k := JoinContains(lines, annotation);
    }
    if exists i :: 0 <= i < |lines| && Contains(lines[i], annotation) {
      var i :| 0 <= i < |lines| && Contains(lines[i], annotation);
      ContainsJoin(lines, i, annotation);
    }
  }

  // ---- the rule conditions of scan_file ----

  datatype Issue = Issue(filePath: string, rule: int, ruleName: string, description: string,
                         severity: string, lineNumber: int, fixAvailable: bool)

  predicate Rule1Applies(content: string) {
    HasScratchOrgCreation(content) && !HasRegisterOrg(content)
  }

  predicate Rule2Applies(content: string) {
    ExtendsBaseTest(content) && HasPackageOperations(content) && !HasUseTestQueue(content)
  }

  predicate Rule3Applies(content: string) {
    HasUsesMessageQueue(content) && HasInstallOperations(content) &&
    !HasPackageInstallMapping(content) &&
    !UsesMethodLevelAnnotations(Split(content), "@MqTypeMappingList")
  }

  predicate Rule4Applies(content: string) {
    HasUsesMessageQueue(content) && CreatesPackageVersions(content) &&
    !HasCountdownLatches(content) &&
    !UsesMethodLevelAnnotations(Split(content), "@MqCustomCountDownLatchList")
  }

}
