# playwright-sonar-reporter in Dafny

The project models a Playwright reporter that writes test results in
SonarQube's generic test-execution XML format. At the end of a run the
reporter flattens Playwright's suite tree into the report below:

```
<testExecutions version="1">
  <file path="...">                              one per file suite
    <testCase name="a › b" duration="12">        one per test
      <skipped> </skipped> or <failure> </failure>   at most one
```

It serializes that tree into one string token per tag or text, escapes
every attribute value and text, and writes the tokens joined by line feeds.

The model has five modules:

- `Wrappers` (wrappers.dfy): `Option`.
- `Strings` (strings.dfy): `Array.prototype.join` and the decimal rendering
  of a whole number, which the reporter uses from the JavaScript runtime.
  The reporter never splits a string. `Split` on one character is defined
  only as the inverse of `Join`, to state what the report's lines are
  (`ReportLines`).
- `XmlEscape` (xml_escape.dfy): `escape` and `discouragedXMLCharacters`.
  Attribute mode maps each markup character to its entity. Character-data
  mode builds a CDATA section. Both modes then delete the control characters
  that section 2.2 of the XML 1.0 Recommendation forbids or discourages.
- `XmlSerializer` (xml_serializer.dfy): `XMLEntry` and `serializeXML`.
  `serializeXML` is a recursive method that pushes onto a caller-owned token
  list, here the `TokenBuffer` class. It is proved against `Serialized`, the
  function giving the token list after one call.
- `Reporter` (reporter.dfy): the `SonarReporter` class with its constructor,
  `printsToStdio`, `onBegin`, `onEnd`, `_buildTestSuite` and `_addTestCase`.
  `_addTestCase` works on an `EntryList` class, the caller-owned entry array.
  Playwright's objects are plain data: a test is its title path, its attempt
  durations, its outcome and its `ok()` flag.

Three points about the code that the model follows:

- `_buildTestSuite` produces a `file` element for every file suite,
  including one with no tests.
- An outcome marker has no attributes, children or text, so `serializeXML`
  writes it as an open tag followed by a close tag (`<skipped>`,
  `</skipped>`).
- Line 105 of src/index.ts shows the title separator as the three
  characters `â€º`. Those are the UTF-8 bytes of U+203A (`›`) decoded as
  Windows-1252. The model uses `" › "` (`TitleSeparator`).

## Model

| member | source | states |
|---|---|---|
| Strings.SplitJoin | src/index.ts:74 | splitting the joined report on its one-character separator gives back the pieces, if no piece contains that character |
| Strings.JoinSeparatorCount | src/index.ts:105 | a character occurring once in the separator and in no piece occurs exactly (pieces - 1) times in the joined string |
| Strings.DecimalString | src/index.ts:106 | the rendering is a non-empty string of digits with no leading zero |
| Strings.DecimalRoundTrip | src/index.ts:106 | reading the decimal rendering back gives the number |
| XmlEscape.DiscouragedRanges | src/index.ts:146 | TAB, LF, CR and U+0085 are kept, every other C0 control is removed, printable ASCII is kept |
| XmlEscape.StripDiscouraged | src/index.ts:159 | the result has no discouraged character, is no longer than the input, and equals input that had none |
| XmlEscape.StripDiscouragedAppend | src/index.ts:159 | stripping distributes over concatenation |
| XmlEscape.StripDiscouragedCounts | src/index.ts:159 | each discouraged character occurs 0 times afterwards; every other character keeps its number of occurrences |
| XmlEscape.EscapedChar | src/index.ts:155-159 | one character in attribute mode: a discouraged character disappears, a non-markup character stays itself |
| XmlEscape.EscapeAttributeMode | src/index.ts:148-161 | attribute mode equals the one-pass per-character map on the prepared text; the output is well escaped and has no discouraged character |
| XmlEscape.ReplaceThenStrip | src/index.ts:155-159 | replacing the markup characters and then stripping equals the per-character map |
| XmlEscape.StripEntity | src/index.ts:156-159 | stripping does not change an entity |
| XmlEscape.EscapedAttributeAppend | src/index.ts:155-159 | the per-character map distributes over concatenation |
| XmlEscape.EscapeAttributeAppend | src/index.ts:148-161 | escape(a + b) = escape(a) + escape(b) in attribute mode |
| XmlEscape.EscapedAttributeWellEscaped | src/index.ts:155-159 | the map's output has no raw `"`, `'`, `<`, `>`, no `&` outside the five entities, and no discouraged character |
| XmlEscape.EscapedAttributePlain | src/index.ts:155-159 | text without markup or discouraged characters maps to itself |
| XmlEscape.EscapeAttributePlain | src/index.ts:148-161 | with ANSI stripping off, plain text is escaped to itself |
| XmlEscape.UnescapeEscapedAttribute | src/index.ts:155-159 | decoding the five entities of the mapped text gives the text minus its discouraged characters |
| XmlEscape.EscapeAttributeRoundTrip | src/index.ts:148-161 | an attribute value without discouraged characters decodes back to itself |
| XmlEscape.EscapeCharacterDataMode | src/index.ts:148-161 | character-data mode is `<![CDATA[`, the defused then stripped body, `]]>`; no discouraged character survives |
| XmlEscape.CdataDelimitersKept | src/index.ts:153-159 | stripping leaves `<![CDATA[` and `]]>` unchanged |
| XmlEscape.ReplaceCdataEndPrefix | src/index.ts:153 | defusing never shortens the text, keeps its first two characters, and leaves text shorter than 3 characters alone |
| XmlEscape.ReplaceCdataEndSafe | src/index.ts:153 | before stripping, the defused body contains no `]]>` |
| XmlEscape.ReplaceCdataEndIdentity | src/index.ts:153 | text without `]]>` is left unchanged |
| XmlEscape.ReplaceCdataEndPlainHead | src/index.ts:153 | a leading character other than `]` is copied and the scan continues after it |
| XmlEscape.NoSpuriousEscapedEnd | src/index.ts:153 | defusing does not start a `]]&gt;` at a position where the input had none |
| XmlEscape.RestoreReplaceCdataEnd | src/index.ts:153 | turning each `]]&gt;` back into `]]>` restores any body that had no `]]&gt;`, so the left-to-right, non-overlapping replacement loses nothing |
| XmlEscape.ReplaceCdataEndNoDiscouraged | src/index.ts:153 | defusing adds no discouraged character |
| XmlEscape.ControlSplitsCdataEnd | src/index.ts:153-159 | `]]\u0001>` contains no `]]>` to defuse, and stripping it leaves `]]>` |
| XmlEscape.CdataStripReopensSection | src/index.ts:153-159 | as written, `]]\u0001>` escapes to `<![CDATA[]]>]]>`, whose CDATA section ends at position 9, before the end of the token |
| XmlEscape.EscapeCharacterDataClosesAtEnd | src/index.ts:148-161 | with stripping done first, the token starts with `<![CDATA[`, ends with `]]>` and holds no other `]]>` and no discouraged character; it equals `escape` as written when the text has no discouraged character |
| XmlSerializer.TokenBuffer.constructor | src/index.ts:63 | a new token list is empty |
| XmlSerializer.TokenBuffer.Push | src/index.ts:137-142 | one token is appended and nothing else changes |
| XmlSerializer.RenderAttributes | src/index.ts:134-136 | the attribute loop yields one `name="escaped value"` string per attribute, in order |
| XmlSerializer.SerializeXml | src/index.ts:133-143 | the token list ends up as `Serialized(old tokens, entry)`: open tag, each child's tokens in order, `escape(text, strip, true)` as written if the text is non-empty, close tag |
| XmlSerializer.SerializedAppends | src/index.ts:133-143 | serializing only appends: the earlier tokens stay, and the appended part does not depend on them |
| XmlSerializer.TokenCount | src/index.ts:133-143 | the number of appended tokens is 2 per element plus 1 per element with non-empty text |
| XmlSerializer.EntryTokensEnds | src/index.ts:137-142 | the first token is the element's open tag and the last its close tag |
| XmlSerializer.OneChildSerialized | src/index.ts:137-142 | an element with one child and no text is its open tag, the child's tokens and its close tag |
| XmlSerializer.ChildlessSerialized | src/index.ts:137-142 | an element without children or text is its open tag followed by its close tag |
| XmlSerializer.AttributeStringsIndex | src/index.ts:135-136 | one attribute string per attribute, in the stored order |
| XmlSerializer.OpenTagShape | src/index.ts:137 | `<name>` without attributes; otherwise `<name` then a space then the attribute strings separated by single spaces, then `>` |
| XmlSerializer.AttributeTagOne | src/index.ts:136-137 | an open tag with one attribute is `<name k="v">` |
| XmlSerializer.AttributeTagTwo | src/index.ts:136-137 | an open tag with two attributes is `<name k1="v1" k2="v2">` |
| XmlSerializer.AttributeStringDelimiters | src/index.ts:136 | for a plain name, `name="value"` has exactly two quotes and no `<` or `>`, whatever the value |
| XmlSerializer.JoinedAttributesDelimiters | src/index.ts:136-137 | the joined attribute strings hold two quotes per attribute and no `<` or `>` |
| XmlSerializer.OpenTagDelimiters | src/index.ts:134-137 | an open tag has exactly one `<`, one `>` and two quotes per attribute: a value can neither leave its quotes nor end the tag |
| XmlSerializer.NodeCountOf | src/index.ts:126-131 | a tree's element and text counts are its root's plus its children's |
| Reporter.EntryList.Push | src/index.ts:110 | the entry is appended and nothing else changes |
| Reporter.EntryList.PushChildOfLast | src/index.ts:113-118 | the child is added to the entry pushed last, which the list holds by reference; the rest of the list is unchanged |
| Reporter.SonarReporter.constructor | src/index.ts:29-45 | the reporter has not begun, since `config` and `suite` have no value yet; `outputFile` is the option when it is a non-empty string, otherwise the name taken from the environment; stripping is on only for `true`; `printsToStdio()` holds exactly when neither name is given |
| Reporter.SonarReporter.OnBegin | src/index.ts:47-55 | marks the reporter begun and stores the configuration and the suite; with an output file, requires a configuration file or an absolute path, and resolves against the configuration file's directory when there is one; otherwise the resolved name is unchanged |
| Reporter.SonarReporter.OnEnd | src/index.ts:57-81 | called after `onBegin`, the output is the report string, written to the resolved file when that name is non-empty and logged to the console otherwise |
| Reporter.SonarReporter.BuildTestSuite | src/index.ts:83-98 | returns `<file path=...>` with one testCase per test, in order |
| Reporter.SonarReporter.AddTestCase | src/index.ts:100-123 | appends exactly the testCase entry of the test and nothing else |
| Reporter.OutcomeMapping | src/index.ts:112-122 | at most one child; `skipped` exactly when the outcome is skipped; `failure` exactly when the test is not skipped and not ok; none exactly when the test is not skipped and ok; children carry no attributes, children or text |
| Reporter.TestCaseNameSegments | src/index.ts:105 | a title path of 3 or fewer titles gives an empty name; with 4 titles the name is the last title; with more, the displayed titles are joined by ` › ` |
| Reporter.TestCaseNameExample | src/index.ts:105 | `[root, project, file, "describe", "case"]` is named `describe › case` |
| Reporter.TestCaseNameSeparators | src/index.ts:105 | if no title contains U+203A, the name contains one U+203A between each pair of displayed titles |
| Reporter.TotalDurationAppend | src/index.ts:106 | the total of two runs of attempts is the sum of their totals |
| Reporter.TotalDurationBound | src/index.ts:106 | no attempt lasts longer than the total |
| Reporter.DurationRoundTrip | src/index.ts:106 | the duration attribute consists of digits and reads back as the total duration |
| Reporter.DurationVerbatim | src/index.ts:106-136 | with stripping off, the duration attribute appears in the tag unchanged |
| Reporter.TestCaseEntriesIndex | src/index.ts:86-87 | one testCase entry per test, in `allTests()` order |
| Reporter.FileEntriesAppend | src/index.ts:59-62 | file entries of concatenated file lists are concatenated |
| Reporter.FileEntriesIndex | src/index.ts:59-62 | one file entry per file suite, in order, whether or not it has tests |
| Reporter.AllFilesAppend | src/index.ts:59-60 | the file suites of concatenated project lists are concatenated |
| Reporter.FileOrder | src/index.ts:59-62 | file suite i of project p is at position offset(p) + i: projects follow one another and each keeps its file order |
| Reporter.ReportTreeShape | src/index.ts:59-71 | the root is `testExecutions` with the single attribute `version="1"` and no text; its children are, position by position, the file entries in project-then-file order |
| Reporter.MarkerSerialized | src/index.ts:113-142 | an outcome child serializes as `<name>` then `</name>` |
| Reporter.TestCaseTokens | src/index.ts:100-123 | a testCase serializes as `<testCase name="..." duration="...">` (name first), the outcome child's two tokens if there is one, then `</testCase>` |
| Reporter.MissingLocationTag | src/index.ts:92 | with stripping off, a file suite without a location opens as `<file path="undefined">` |
| Reporter.TestCaseEntrySize | src/index.ts:100-123 | a testCase entry holds 1 + (number of outcome children) elements and no text |
| Reporter.TestCaseEntriesSize | src/index.ts:86-87 | the testCase entries of a file hold one element per test plus its outcome children, and no text |
| Reporter.FileEntriesSize | src/index.ts:59-62 | the file entries hold one element per file suite, test and outcome child, and no text |
| Reporter.ReportTokenCount | src/index.ts:57-74 | the report has 2 × (1 + files + tests + outcome children) tokens |
| Reporter.ReportLines | src/index.ts:74 | when no token contains a line feed, the report's lines are exactly the tokens |

## Left out

- File and console I/O in `onEnd` (`mkdir`, `writeFile`, `console.log`), src/index.ts:75-80. I/O is outside the model. `onEnd` returns which of the two effects happens, with the path and the content.
- `monotonicTime` and `startTime`, src/index.ts:24-27,50: the clock, and floating-point arithmetic nothing reads.
- `reportOutputNameFromEnv`, src/index.ts:163-167: environment variables and `process.cwd()`. The constructor takes its result as a parameter.
- The `path` functions in `onBegin`, src/index.ts:52-53: `path.isAbsolute` and `path.resolve(path.dirname(configFile), outputFile)` are parameters. The thrown assertion is the precondition of `OnBegin`.
- `stripAnsiEscapes`, src/index.ts:21,149-150: src/base.ts is not part of this model. It is an arbitrary string function.
- Playwright's traversal (`suite.suites`, `allTests()`, `titlePath()`, `results`, `outcome()`, `ok()`): their results are input data.
- `toFixed(0)` on a floating-point sum, src/index.ts:106: the model takes each attempt duration as a natural number and adds exactly. It therefore leaves out rounding fractional milliseconds, the loss of integer precision of a double sum above 2^53, and the exponent notation `toFixed` prints for values of 10^21 and above.
- Number and boolean attribute values (`String(value)`), src/index.ts:128,136: the modelled core only stores strings in attributes.
- `Object.entries` at src/index.ts:135 lists integer-like keys first, in ascending order, and an object holds each key once. Attributes are a sequence kept in the order given, which may repeat a name. Every attribute object the reporter builds has distinct names, none integer-like (`version`, `path`, `name`, `duration`), so for it the two orders agree.
- Reporter.SonarReporter.OnEnd: in the program, `onEnd` before `onBegin` throws, because `suite` is still undefined when src/index.ts:59 reads it. The model does not model the throw; `OnEnd` requires `begun`, which only `OnBegin` sets.
- The options that are declared but unused, src/index.ts:38, and the unused `result` parameter of `onEnd`.
- A parse of the CDATA token back into its text: `]]&gt;` inside CDATA is literal text, so the report promises no such round trip.
- JavaScript strings are UTF-16 code units, while the model's strings are Unicode scalar values. All the characters the code looks for are in the Basic Multilingual Plane, so escaping agrees on them.
- Reporter.SonarReporter.AddTestCase: the body builds the entry before adding a child, but the list sees the child through `PushChildOfLast`, which models the shared reference from src/index.ts:110-118.

## Findings

| source | as written | input that shows it | evidently intended | confidence | as-written member | corrected member |
|---|---|---|---|---|---|---|
| src/index.ts:153-159 | in character-data mode, `escape` defuses `]]>` first and removes discouraged characters afterwards, so deleting a control character can rebuild a `]]>` inside the section | `escape("]]\u0001>", false, true)` gives `<![CDATA[]]>]]>`, whose section ends at position 9, and the trailing `]]>` falls outside it | remove the discouraged characters first, then defuse `]]>`, so the only `]]>` is the closing one | medium, not executed | XmlEscape.CdataStripReopensSection | XmlEscape.EscapeCharacterDataClosesAtEnd |
