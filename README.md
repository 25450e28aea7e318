# TestDoctor fixer, modelled in Dafny

TestDoctor scans Java functional tests for four anti-patterns that make
packaging tests time out, and `TestDoctorFixer` repairs them by editing the
test file line by line:

1. **Rule 1**: after every line that calls `createScratchOrg`, insert
   `getMessageQueueTestFramework().registerNewOrg(<var>.getScratchOrgId());`.
   Nothing is inserted when that line is the last line of the file, or when
   the next line already calls `registerNewOrg`. `<var>` is the first word
   (`\w+`) that is followed by optional whitespace and `=` somewhere before
   the call, or `scratchOrgInfo` when there is no such word. The new line is
   indented with as many spaces as the creating line has leading whitespace
   characters.
2. **Rule 2**: after the first `ftestSetUp()` signature that has a
   `super.ftestSetUp()` call within the next nine lines, insert a blank line
   and a `TestContext.pushTestValue(… USE_TEST_QUEUE …)` call. The three
   imports that call needs are added too.
3. **Rules 3 and 4**: add the `PACKAGE_INSTALL` queue-type mappings to
   `@MqTypeMappingList`, or the three countdown latches to
   `@MqCustomCountDownLatchList`. The fixer either merges them into the
   existing list, found with a string- and escape-aware brace scanner, or
   creates a new list above the test class. Missing imports are added first.

The model has these modules:

- `PyText`: the Python string operations the fixer relies on.
- `Detect`: the detectors, regular expressions and locators the fixer
  shares with the scanner.
- `BraceScanner`: `_find_closing_brace`.
- `Editor` and `EditorFacts`: the annotation-list locator, import
  injection, merge and create.
- `RegisterOrgRule`, `TestQueueRule` and `ListRules`: the four rule fixers.
- `Fixer`: the `TestDoctorFixer` class with its `fixes_applied` counter
  and `fix_issue`.

Each loop of the source that builds output is a Dafny method proved equal
to a specification function. The loops that only search for the first
matching line are first-match functions: `_find_annotation_list`,
`_find_line_number`, and both loops of `_uses_method_level_annotations`.
The properties are lemmas about those functions. A fix that
changes a file leaves a file the scanner no longer flags, and rules 2 to 4
are idempotent.

The file itself is not read or written here. Each fixer takes the text it
would read as `content`, and returns the text it would write as `written`.

Where a reader might expect otherwise, the code behaves as follows, and so
does the model:

- Imports go **before** the first line that starts with `import `. A file
  with no such line gets no imports at all. It does not get them after the
  first import, and they are not placed at the top of the file.
- On the merge path every inserted entry ends in a comma, the last one
  included. Each entry is indented four spaces deeper than the closing line.
- When a list opens and closes on the same line, the closing line is the
  opening line. The comma fix is then applied to the line above the list,
  and the entries go before the list line. The model reproduces this.

## Model

| member | source | states |
|---|---|---|
| PyText.LeadingSpaces | testdoctor.py:275 | `len(line) - len(line.lstrip())`: the length of the longest prefix of whitespace characters |
| PyText.RStrip | testdoctor.py:396-397 | `rstrip()` yields a prefix of the line; only whitespace was removed, and the result does not end in whitespace |
| PyText.Split | testdoctor.py:290 | `content.split('\n')` is never empty; no piece holds a newline; joining the pieces with `\n` gives back the content |
| PyText.ReadLines | testdoctor.py:258 | `readlines()` gives non-empty lines; every line but the last ends in its newline; no line has a newline before its end; concatenating the lines gives back the content |
| PyText.JoinContains | testdoctor.py:169-170 | a newline-free text found in the joined lines lies within a single line |
| PyText.ContainsJoin | testdoctor.py:169-170 | a text found on some line is found in the joined lines |
| PyText.RStripKeeps | testdoctor.py:396-397 | stripping trailing whitespace neither adds nor removes an occurrence of a text without whitespace |
| Detect.HasScratchOrgCreation | testdoctor.py:116-117 | the file mentions `createScratchOrg`, or the literal text `reestablishRequest.*Subscriber` (dot and star included, not a pattern) |
| Detect.HasRegisterOrg | testdoctor.py:119-120 | the file mentions `registerNewOrg` |
| Detect.ExtendsBaseTest | testdoctor.py:122-123 | `extends\s+BaseTest\s` matches somewhere: `extends`, at least one whitespace character, `BaseTest`, then one more whitespace character |
| Detect.HasPackageOperations | testdoctor.py:125-127 | the file mentions one of `createPackage2Version`, `convertPackage`, `installPackage`, `createInstallRequest` |
| Detect.HasUseTestQueue | testdoctor.py:129-130 | the file mentions `USE_TEST_QUEUE` or `extends BaseBuildOrgTest` |
| Detect.HasUsesMessageQueue | testdoctor.py:132-133 | the file mentions `@UsesMessageQueue` |
| Detect.HasInstallOperations | testdoctor.py:135-137 | the file mentions one of `installPackage`, `createInstallRequest`, `install(` |
| Detect.HasPackageInstallMapping | testdoctor.py:139-140 | the file mentions `PACKAGE_INSTALL` |
| Detect.CreatesPackageVersions | testdoctor.py:142-144 | the file mentions one of `createPackage2Version`, `convertPackage`, `TestPackage2VersionBuilder` |
| Detect.HasCountdownLatches | testdoctor.py:146-147 | the file mentions `CREATE_ARTIFACT_VERSION_PREPARING_ENDPOINT_LATCH` or `BUILD_ARTIFACT_VERSION_DONE_LATCH` |
| Detect.IsClassDecl | testdoctor.py:154 | `public\s+class\s+\w+.*Test` matches the line: `public`, whitespace, `class`, whitespace, a word character, then `Test` later on the same line |
| Detect.UsesMethodLevelAnnotations | testdoctor.py:149-170 | false without a class line; otherwise true exactly when none of the up to ten lines above the first class line mentions the annotation and the joined file does |
| Detect.Rule1Applies | testdoctor.py:61 | rule 1 is reported when the file creates a scratch org and never mentions `registerNewOrg` |
| Detect.Rule2Applies | testdoctor.py:72-74 | rule 2 is reported when the file extends `BaseTest`, does a package operation and has no test-queue marker |
| Detect.Rule3Applies | testdoctor.py:85-88 | rule 3 is reported when the file uses the message queue, installs packages, never mentions `PACKAGE_INSTALL` and does not use `@MqTypeMappingList` at method level |
| Detect.Rule4Applies | testdoctor.py:99-102 | rule 4 is reported when the file uses the message queue, creates package versions, mentions neither latch and does not use `@MqCustomCountDownLatchList` at method level |
| Detect.FindClassLine | testdoctor.py:152-156 | the index of the first line matching `public\s+class\s+\w+.*Test`; no earlier line matches; None exactly when no line matches |
| Detect.FindLineNumber | testdoctor.py:172-177 | the 1-based number of the first line containing the pattern; 0 exactly when no line contains it |
| Detect.MethodLevelIff | testdoctor.py:149-170 | method-level use holds iff a class line exists, none of the up to ten lines above it mentions the annotation, and some line of the file does |
| BraceScanner.ClosingLine | testdoctor.py:192-220 | a found closing line lies between the start line and the end of the file |
| BraceScanner.ScanLine | testdoctor.py:200-219 | the inner character loop reports a close exactly when the line closes the block from the given scanner state; otherwise it returns the state after the whole line |
| BraceScanner.ScanChar | testdoctor.py:202-219 | one character moves the scanner variables exactly as the scanner step does, and it reports a close exactly when an unescaped `}` outside a string brings the depth from 1 to 0 |
| BraceScanner.FindClosingBrace | testdoctor.py:192-220 | the two nested loops return the value of the closing-line function |
| BraceScanner.ClosingLineIsFirstClose | testdoctor.py:192-220 | the result is the least line on which the depth, counted from the start line, returns to 0 right after a `}`; None exactly when no line does |
| BraceScanner.BraceInStringIgnored | testdoctor.py:202-214 | a `{` inserted inside an open string literal changes nothing about where the block closes |
| Editor.FindAnnotationList | testdoctor.py:185-190 | the first line holding both the annotation name and `{`; None exactly when no line does |
| Editor.FirstImport | testdoctor.py:226-228 | the first line starting with `import `; None exactly when there is none |
| Editor.AddImports | testdoctor.py:222-233 | the imports are inserted right before the first import line, and all other lines keep their order; with no import line the lines are returned unchanged |
| Editor.WithImportsKeeps | testdoctor.py:222-233 | every original line survives the import injection, at a known index |
| Editor.WithImportsHas | testdoctor.py:222-233 | when the file has an import line, every import to add is written |
| Editor.Missing | testdoctor.py:369-377 | there are never more imports to add than required imports |
| Editor.MissingFrom | testdoctor.py:369-377 | every import to add is a required one whose probe text is absent from the file |
| Editor.MissingHas | testdoctor.py:369-377 | every required import whose probe text is absent from the file is among the imports to add |
| Editor.MissingOrdered | testdoctor.py:369-377 | the imports to add keep the order in which they are required: of two added lines, the earlier comes from the earlier absent requirement |
| Editor.MergeIntoList | testdoctor.py:393-410 | the merge loop returns the merged lines: comma fix on the line above the closing line, then the entries, then the closing line and the rest |
| Editor.MergeStep | testdoctor.py:393-410 | one iteration extends the lines built so far by the next input line, inserting the comma fix and the entries first when that line is the closing line |
| Editor.MergeAtClosing | testdoctor.py:394-405 | on reaching the closing line, the lines built so far (the lines above it) get the comma fix on their last line, and the entries follow |
| Editor.CreateList | testdoctor.py:413-431 | a list is created iff some line is a class declaration; the new block goes right before the first one; otherwise the lines are unchanged |
| Editor.CreateStep | testdoctor.py:415-431 | one iteration appends the next line, preceded by the new block exactly when it is the first class declaration; `added` records whether that line has been passed |
| EditorFacts.CommaFixedEndsList | testdoctor.py:395-397 | after the comma fix the stripped line ends in `,` or `{`; the line is unchanged or becomes its stripped form plus `,`; a second fix changes nothing |
| EditorFacts.CommaFixedKeepsName | testdoctor.py:395-397 | the comma fix neither adds nor removes a mention of the list name or an opening brace |
| EditorFacts.MergeKeepsOrder | testdoctor.py:393-410 | the merge output has the original lines in order plus the entries before the closing line, each with the closing line's indentation plus four spaces and a trailing comma; only the line above the closing line may change |
| EditorFacts.MergeKeepsListStart | testdoctor.py:384-410 | merging into a multi-line list leaves the list opening on the same line |
| EditorFacts.MergeKeepsNameCount | testdoctor.py:393-410 | merging does not change how many lines mention the list name |
| EditorFacts.CreateShape | testdoctor.py:413-431 | the created block: `@Name({` at the class line's indentation, the entries four spaces deeper with commas on all but the last, then `})`; the lines around it are unchanged |
| EditorFacts.CreateAddsOneName | testdoctor.py:413-431 | creating a list adds exactly one line that mentions the list name |
| EditorFacts.CreatedListIsFound | testdoctor.py:185-190 | where no list existed, the created list is the one the locator then finds |
| EditorFacts.CreatedListCloses | testdoctor.py:192-220 | the brace scanner closes the created list on its `})` line |
| EditorFacts.PlainListCloses | testdoctor.py:192-220 | a list made of plain text, with `{` ending its first line and `}` on a later line, closes on that later line |
| EditorFacts.NestedBlockCloses | testdoctor.py:192-220 | a nested one-line block inside the list does not close it; the list closes on the next `}` line |
| ListRules.ListEdit | testdoctor.py:343-437 | the text `_fix_rule3` and `_fix_rule4` write back: nothing when every marker is present or the list is used at method level; otherwise the missing imports, then a merge into the existing list when its closing line is found, or a new list above the class line; nothing when neither site exists |
| ListRules.CheckMarkers | testdoctor.py:343-347 | the skip test holds exactly when every marker text is in the file |
| ListRules.EditList | testdoctor.py:336-437 | the steps of `_fix_rule3`: applied exactly when the specification function applies, with the same lines |
| ListRules.FixListRule | testdoctor.py:439-543 | `_fix_rule4` (and `_fix_rule3`) applies exactly when the specification function does, with the same lines |
| ListRules.ListEditNoOps | testdoctor.py:343-366 | no edit happens exactly when the markers are all present, the annotation is used only on methods, the found list never closes, or there is neither a list nor a class line |
| ListRules.RulesCarry | testdoctor.py:400-404 | every marker text of a rule occurs in one of the entries that rule inserts |
| ListRules.ListEditIdempotent | testdoctor.py:343-347 | editing the text written by an applied edit changes nothing |
| ListRules.ListFixIdempotent | testdoctor.py:446-452 | rules 3 and 4 leave a file they have fixed alone |
| ListRules.ListFixClearsIssue | testdoctor.py:139-147 | after rule 3 the file mentions `PACKAGE_INSTALL`, and after rule 4 it mentions the create latch, so the scanner no longer reports the rule |
| ListRules.ListFixCountsName | testdoctor.py:384-431 | merging keeps the number of lines naming the list, and creating adds exactly one |
| RegisterOrgRule.FirstAssign | testdoctor.py:271 | the leftmost index at which `(\w+)\s*=.*createScratchOrg` matches with its group starting there; None exactly when it matches nowhere |
| RegisterOrgRule.VarName | testdoctor.py:271-272 | the captured name is a non-empty run of word characters; with no match it is `scratchOrgInfo` |
| RegisterOrgRule.VarNameIsWholeWord | testdoctor.py:271-272 | the captured name is a whole word: no word character comes right before or after it |
| RegisterOrgRule.RegistrationRegisters | testdoctor.py:277 | the inserted line calls `registerNewOrg` and ends in a newline |
| RegisterOrgRule.Pass | testdoctor.py:260-278 | the output has one line per input line plus one per inserted registration |
| RegisterOrgRule.Registered | testdoctor.py:258-278 | the lines `_fix_rule1` writes back: every input line, each followed by its registration call when one is needed |
| RegisterOrgRule.InsertRegisterCalls | testdoctor.py:260-278 | the loop returns the registered lines and counts the registrations it inserts |
| RegisterOrgRule.RegisterStep | testdoctor.py:261-278 | one iteration emits the line and, exactly when it needs one, its registration, and counts one fix for it |
| RegisterOrgRule.NoneNeeded | testdoctor.py:264-267 | nothing is inserted exactly when no line needs a registration, and then the lines come back unchanged |
| RegisterOrgRule.PassAt | testdoctor.py:260-278 | each input line reappears after the registrations inserted before it, and a line that needs one is followed directly by its registration |
| RegisterOrgRule.PassFollows | testdoctor.py:264-278 | in the output, every `createScratchOrg` line that has a next line is followed by a `registerNewOrg` line |
| RegisterOrgRule.SecondPassInsertsNothing | testdoctor.py:264-267 | running the pass on its own output inserts nothing and changes nothing |
| RegisterOrgRule.RegistrationMentions | testdoctor.py:277 | the inserted line mentions `createScratchOrg` only if the variable name does |
| RegisterOrgRule.RegisteredRegisters | testdoctor.py:277-282 | when a registration is inserted, the written text calls `registerNewOrg` |
| RegisterOrgRule.RegisterClearsIssue | testdoctor.py:116-120 | once a registration is inserted, the scanner's rule 1 condition is false on the written text |
| RegisterOrgRule.NothingToRegister | testdoctor.py:280-282 | when no line needs a registration, the text written back is the text read |
| TestQueueRule.WindowEnd | testdoctor.py:321 | `min(i + 10, len(lines))` |
| TestQueueRule.SuperCall | testdoctor.py:321-322 | the first `super.ftestSetUp()` line among lines `i+1 .. min(i+10, n)-1`; None exactly when none of them has it |
| TestQueueRule.FindSuperCall | testdoctor.py:321-328 | the inner search loop returns that first `super` line |
| TestQueueRule.PushBlock | testdoctor.py:319-327 | the block added after a signature line is empty exactly when no `super` call follows in time |
| TestQueueRule.SetUpSite | testdoctor.py:319-327 | the first signature line with a `super` call in time; no earlier line is one; None exactly when no line is |
| TestQueueRule.PassFromPlaced | testdoctor.py:310-328 | the loop's output equals placing the block after the first opening site and then injecting the imports before the first import line |
| TestQueueRule.PassIsPushed | testdoctor.py:310-328 | the loop's output is the pushed lines with the imports injected |
| TestQueueRule.PushStep | testdoctor.py:312-328 | one iteration appends the pending imports (at the first import line), the line, and the block (at the first site), and leaves the pass over the remaining lines |
| TestQueueRule.PushTestQueue | testdoctor.py:307-328 | the loop adds the push exactly when a set-up site exists, and returns the pushed lines with the imports before the first import line |
| TestQueueRule.TestQueueFix | testdoctor.py:290-334 | the text `_fix_rule2` writes back: nothing when the file already mentions `USE_TEST_QUEUE`, or when no `ftestSetUp()` signature has `super.ftestSetUp()` on one of the nine lines after it; otherwise a blank line and the push line after the first such signature, and the missing imports before the first import line |
| TestQueueRule.FixTestQueue | testdoctor.py:286-334 | `_fix_rule2` applies exactly when the specification function does, with the same lines |
| TestQueueRule.PushLineMentions | testdoctor.py:325 | the pushed line names `USE_TEST_QUEUE` |
| TestQueueRule.PushedShape | testdoctor.py:318-325 | the signature line keeps its place, a blank line and the push indented like the `super` line follow it, and every other line keeps its order |
| TestQueueRule.PushedKeeps | testdoctor.py:318-325 | every original line survives the push, at a known index |
| TestQueueRule.TestQueueClearsIssue | testdoctor.py:292-294 | the fixed file names `USE_TEST_QUEUE`, so rule 2 no longer applies and fixing it again writes nothing |
| TestQueueRule.TestQueueAddsImports | testdoctor.py:297-316 | every required import the file lacks is written when the file has an import line |
| Fixer.FixEffect | testdoctor.py:235-253 | nothing happens for an issue without a fix or with a rule outside 1 to 4; a dry run writes nothing; only a successful fix writes; rule 1 always succeeds; rules 2 to 4 count one fix exactly when they succeed, and outside a dry run they write exactly when they succeed |
| Fixer.RegisterCountsLines | testdoctor.py:276-282 | rule 1 writes one extra line per counted fix, and with no fix it writes back the text it read |
| Fixer.FixClearsIssue | testdoctor.py:235-253 | a fix that counts leaves a written file on which the scanner no longer reports the issue's rule |
| Fixer.FixIdempotent | testdoctor.py:292-294 | rules 2 to 4 applied to the text they wrote report no fix and write nothing |
| Fixer.DryRunAgrees | testdoctor.py:330-334 | a dry run returns and counts what a real run does, and only skips the write |
| Fixer.TestDoctorFixer.constructor | testdoctor.py:182-183 | the counter starts at 0 |
| Fixer.TestDoctorFixer.FixRule1 | testdoctor.py:255-284 | returns true, writes the registered lines unless in a dry run, and adds the number of registrations to the counter |
| Fixer.TestDoctorFixer.Record | testdoctor.py:326-334 | returns whether the edit applied, writes the joined lines only when it applied and this is not a dry run, and adds one to the counter when it applied |
| Fixer.TestDoctorFixer.FixRule2 | testdoctor.py:286-334 | return value, written text and counter update are those of rule 2's effect |
| Fixer.TestDoctorFixer.FixRule3 | testdoctor.py:336-437 | return value, written text and counter update are those of rule 3's effect |
| Fixer.TestDoctorFixer.FixRule4 | testdoctor.py:439-543 | return value, written text and counter update are those of rule 4's effect |
| Fixer.TestDoctorFixer.FixIssue | testdoctor.py:235-253 | dispatches on the rule; return value, written text and counter update are those the effect function gives |

## Left out

- File I/O: reading the issue's file, including Python's newline translation, is the `content` parameter. Writing back with `write` or `writelines` is the `written` result.
- The `try`/`except` and the `print` in `fix_issue`: in the modelled code an exception can only come from file I/O, which is not modelled.
- `TestDoctorScanner.scan_all`, `scan_file`, the report writers and `main`: these belong to the scanner and the command line, not to the fixer. The rule conditions of `scan_file` are included only as predicates (`Detect.Rule1Applies` to `Rule4Applies`).
- Regular expressions are written out as predicates, not run by a regex engine. `\w` is limited to ASCII letters, digits and `_`. Python's `\w` also matches non-ASCII letters and digits.
- The source adds to `fixes_applied` inside its loops. The model adds the same total after the loop. Nothing in the modelled code observes the counter in between.
- `Issue` fields other than `rule` and `fix_available` are not read by the fixer, apart from `file_path`, which only serves the I/O.
- RegisterOrgRule.SecondPassInsertsNothing: holds only when the captured variable names do not contain `createScratchOrg`. With such a name, the inserted line itself triggers a further insertion on a second run.
- Fixer.FixIdempotent: covers rules 2 to 4 only. Rule 1 returns true on every call, so a second run still reports success; RegisterOrgRule.SecondPassInsertsNothing covers what it writes.
