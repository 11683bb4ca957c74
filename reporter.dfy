/** The reporter of src/index.ts: `SonarReporter` and the flattening that
    `onEnd`, `_buildTestSuite` and `_addTestCase` perform, which turns
    Playwright's suite tree (root, project suites, file suites, tests) into the
    SonarQube generic test-execution report

      <testExecutions version="1">
        <file path="...">            one per file suite, project by project
          <testCase name="..." duration="...">
            <skipped> or <failure>   at most one
          ...

    Playwright's own objects appear as plain data holding only what the
    reporter reads from them. The file system, the console, the clock, the
    environment and path resolution are outside the model: their results are
    parameters, and the two possible effects of `onEnd` are a value. */
module Reporter {
  import opened Wrappers
  import opened Strings
  import opened XmlEscape
  import opened XmlSerializer

  /** `test.outcome()`. */
  datatype Outcome = Skipped | Expected | Unexpected | Flaky

  /** A Playwright test as the reporter sees it: `titlePath()`, the
      `duration` of each entry of `results`, `outcome()` and `ok()`. */
  datatype TestCase = TestCase(titlePath: seq<string>, durations: seq<nat>, outcome: Outcome, ok: bool)

  /** A file suite: `location?.file` and `allTests()`, in order. */
  datatype FileSuite = FileSuite(location: Option<string>, tests: seq<TestCase>)

  /** A project suite: its `suites`, which are the file suites. */
  datatype ProjectSuite = ProjectSuite(files: seq<FileSuite>)

  /** The root suite handed to `onBegin`: its `suites` are the projects. */
  datatype RootSuite = RootSuite(projects: seq<ProjectSuite>)

  /** `config.configFile`, the only part of the configuration read. */
  datatype Config = Config(configFile: Option<string>)

  /** The options object of the constructor, as far as it is used. */
  datatype Options = Options(outputFile: Option<string>, stripANSIControlSequences: Option<bool>)

  /** What `onEnd` does with the report string. */
  datatype ReportOutput = WriteFile(path: string, content: string) | ConsoleLog(content: string)

  /** JavaScript truthiness of a `string | undefined`. */
  predicate Truthy(s: Option<string>) {
    s.Some? && |s.value| > 0
  }

  // testCase entries

  /** U+203A SINGLE RIGHT-POINTING ANGLE QUOTATION MARK between spaces. */
  const TitleSeparator: string := " \U{203A} "

  /** `titlePath().slice(3)`: the root, project and file titles dropped. */
  function TitleTail(titlePath: seq<string>): seq<string> {
    if |titlePath| <= 3 then [] else titlePath[3..]
  }

  /** The `name` attribute of a testCase. */
  function TestCaseName(t: TestCase): string {
    Join(TitleTail(t.titlePath), TitleSeparator)
  }

  /** `results.reduce((acc, value) => acc + value.duration, 0)`. */
  function TotalDuration(durations: seq<nat>): nat
    decreases |durations|
  {
    if |durations| == 0 then 0
    else TotalDuration(durations[..|durations| - 1]) + durations[|durations| - 1]
  }

  /** The `duration` attribute of a testCase: the total, `toFixed(0)`. */
  function TestCaseDuration(t: TestCase): string {
    DecimalString(TotalDuration(t.durations))
  }

  /** `{ name: 'skipped' }` or `{ name: 'failure' }`. */
  function Marker(name: string): XmlEntry {
    XmlEntry(name, [], [], None)
  }

  /** The children `_addTestCase` pushes: `skipped` for a skipped test
      (whatever `ok()` says), otherwise `failure` when the test is not ok. */
  function OutcomeMarkers(t: TestCase): seq<XmlEntry> {
    if t.outcome == Skipped then [Marker("skipped")]
    else if !t.ok then [Marker("failure")]
    else []
  }

  /** The entry `_addTestCase` appends for a test. */
  function TestCaseEntry(t: TestCase): XmlEntry {
    XmlEntry("testCase", [Attribute("name", TestCaseName(t)), Attribute("duration", TestCaseDuration(t))],
             OutcomeMarkers(t), None)
  }

  function TestCaseEntries(tests: seq<TestCase>): seq<XmlEntry>
    decreases |tests|
  {
    if |tests| == 0 then []
    else TestCaseEntries(tests[..|tests| - 1]) + [TestCaseEntry(tests[|tests| - 1])]
  }

  // file entries

  /** `String(suite.location?.file)`: a suite without a location still gets
      its `path` attribute, spelled "undefined". */
  function PathValue(location: Option<string>): string {
    match location
    case None => "undefined"
    case Some(file) => file
  }

  /** The entry `_buildTestSuite` returns for a file suite. */
  function FileEntry(suite: FileSuite): XmlEntry {
    XmlEntry("file", [Attribute("path", PathValue(suite.location))], TestCaseEntries(suite.tests), None)
  }

  function FileEntries(files: seq<FileSuite>): seq<XmlEntry>
    decreases |files|
  {
    if |files| == 0 then []
    else FileEntries(files[..|files| - 1]) + [FileEntry(files[|files| - 1])]
  }

  /** All file suites, project by project, each project's in order. */
  function AllFiles(projects: seq<ProjectSuite>): seq<FileSuite>
    decreases |projects|
  {
    if |projects| == 0 then []
    else AllFiles(projects[..|projects| - 1]) + projects[|projects| - 1].files
  }

  /** Where the file suites of project p start among all file suites. */
  function FileOffset(projects: seq<ProjectSuite>, p: nat): nat
    requires p <= |projects|
  {
    |AllFiles(projects[..p])|
  }

  // the report

  /** The `root` entry of `onEnd`. */
  function ReportTree(root: RootSuite): XmlEntry {
    XmlEntry("testExecutions", [Attribute("version", "1")], FileEntries(AllFiles(root.projects)), None)
  }

  function ReportTokens(root: RootSuite, stripANSIControlSequences: bool, stripAnsiEscapes: string -> string): seq<string> {
    EntryTokens(ReportTree(root), stripANSIControlSequences, stripAnsiEscapes)
  }

  /** `reportString`: the tokens joined by line feeds. */
  function ReportString(root: RootSuite, stripANSIControlSequences: bool, stripAnsiEscapes: string -> string): string {
    Join(ReportTokens(root, stripANSIControlSequences, stripAnsiEscapes), "\n")
  }

  /** The caller-owned `XMLEntry[]` that `_addTestCase` pushes onto. */
  class EntryList {
    var entries: seq<XmlEntry>

    constructor ()
      ensures entries == []
    {
      entries := [];
    }

    /** `entries.push(entry)` */
    method Push(entry: XmlEntry)
      modifies this
      ensures entries == old(entries) + [entry]
    {
      entries := entries + [entry];
    }

    /** `entry.children.push(child)` for the entry pushed last: that object
        is the list's last element, so the list sees the new child. */
    method PushChildOfLast(child: XmlEntry)
      requires |entries| > 0
      modifies this
      ensures var last := old(entries)[|old(entries)| - 1];
        entries == old(entries)[..|old(entries)| - 1] + [last.(children := last.children + [child])]
    {
      var last := entries[|entries| - 1];
      entries := entries[..|entries| - 1] + [last.(children := last.children + [child])];
    }
  }

  /** `SonarReporter`. `config` and `suite` hold what `onBegin` stores. The
      program declares them without a value, so `onEnd` before `onBegin`
      throws; `begun` records that `onBegin` has run, and until then the two
      fields hold placeholders that nothing reads. */
  class SonarReporter {
    var begun: bool
    var config: Config
    var suite: RootSuite
    var outputFile: Option<string>
    var resolvedOutputFile: Option<string>
    var stripANSIControlSequences: bool

    /** `outputFile` is the option if it is a non-empty string, otherwise
        what `reportOutputNameFromEnv()` returned (`outputNameFromEnv`);
        stripping is on only when the option is `true`. */
    constructor (options: Options, outputNameFromEnv: Option<string>)
      ensures outputFile == if Truthy(options.outputFile) then options.outputFile else outputNameFromEnv
      ensures stripANSIControlSequences == (options.stripANSIControlSequences == Some(true))
      ensures resolvedOutputFile == None
      ensures !begun
      ensures PrintsToStdio() <==> !Truthy(options.outputFile) && !Truthy(outputNameFromEnv)
    {
      begun := false;
      config := Config(None);
      suite := RootSuite([]);
      outputFile := if Truthy(options.outputFile) then options.outputFile else outputNameFromEnv;
      resolvedOutputFile := None;
      stripANSIControlSequences := match options.stripANSIControlSequences
        case Some(b) => b
        case None => false;
    }

    /** `printsToStdio()`: `!this.outputFile`. */
    predicate PrintsToStdio()
      reads this
    {
      !Truthy(outputFile)
    }

    /** `onBegin(config, suite)`. With an output file and no configuration
        file the path must already be absolute (`isAbsolute` is
        `path.isAbsolute`); with a configuration file it is resolved against
        that file's directory (`resolveFromConfig(configFile, outputFile)` is
        `path.resolve(path.dirname(configFile), outputFile)`). */
    method OnBegin(config: Config, suite: RootSuite, isAbsolute: string -> bool,
                   resolveFromConfig: (string, string) -> string)
      requires Truthy(outputFile) ==> Truthy(config.configFile) || isAbsolute(outputFile.value)
      modifies this
      ensures begun && this.config == config && this.suite == suite
      ensures outputFile == old(outputFile) && stripANSIControlSequences == old(stripANSIControlSequences)
      ensures resolvedOutputFile ==
        if !Truthy(outputFile) then old(resolvedOutputFile)
        else if Truthy(config.configFile) then Some(resolveFromConfig(config.configFile.value, outputFile.value))
        else outputFile
    {
      begun := true;
      this.config := config;
      this.suite := suite;
      if Truthy(outputFile) {
        resolvedOutputFile := if Truthy(config.configFile)
          then Some(resolveFromConfig(config.configFile.value, outputFile.value))
          else outputFile;
      }
    }

    /** `onEnd(result)`: builds the tree, serializes it, joins the tokens
        and writes the file or logs to the console. */
    method OnEnd(stripAnsiEscapes: string -> string) returns (output: ReportOutput)
      requires begun
      ensures output == if Truthy(resolvedOutputFile)
        then WriteFile(resolvedOutputFile.value, ReportString(suite, stripANSIControlSequences, stripAnsiEscapes))
        else ConsoleLog(ReportString(suite, stripANSIControlSequences, stripAnsiEscapes))
    {
      var projects := suite.projects;
      var children: seq<XmlEntry> := [];
      for p := 0 to |projects|
        invariant children == FileEntries(AllFiles(projects[..p]))
      {
        var files := projects[p].files;
        assert AllFiles(projects[..p]) + files[..0] == AllFiles(projects[..p]);
        for f := 0 to |files|
          invariant children == FileEntries(AllFiles(projects[..p]) + files[..f])
        {
          var entry := BuildTestSuite(files[f]);
          FileEntriesStep(AllFiles(projects[..p]), files, f);
          children := children + [entry];
        }
        AllFilesStep(projects, p);
      }
      assert projects[..|projects|] == projects;
      var tokens := new TokenBuffer();
      var root := XmlEntry("testExecutions", [Attribute("version", "1")], children, None);
      SerializeXml(root, tokens, stripANSIControlSequences, stripAnsiEscapes);
      var reportString := Join(tokens.tokens, "\n");
      if Truthy(resolvedOutputFile) {
        output := WriteFile(resolvedOutputFile.value, reportString);
      } else {
        output := ConsoleLog(reportString);
      }
    }

    /** `_buildTestSuite(suite)`: one testCase per test of the file suite, in
        order; a file suite without tests still yields its `file` entry. */
    method BuildTestSuite(suite: FileSuite) returns (entry: XmlEntry)
      ensures entry == FileEntry(suite)
    {
      var children := new EntryList();
      for i := 0 to |suite.tests|
        invariant children.entries == TestCaseEntries(suite.tests[..i])
      {
        AddTestCase(suite.tests[i], children);
        assert suite.tests[..i + 1][..i] == suite.tests[..i];
      }
      assert suite.tests[..|suite.tests|] == suite.tests;
      entry := XmlEntry("file", [Attribute("path", PathValue(suite.location))], children.entries, None);
    }

    /** `_addTestCase(test, entries)`: pushes the testCase entry first and
        then at most one outcome child into it. */
    method AddTestCase(test: TestCase, entries: EntryList)
      modifies entries
      ensures entries.entries == old(entries.entries) + [TestCaseEntry(test)]
    {
      var entry := XmlEntry("testCase", [Attribute("name", TestCaseName(test)), Attribute("duration", TestCaseDuration(test))],
                            [], None);
      ghost var before := entries.entries;
      entries.Push(entry);
      assert entries.entries[..|before|] == before && entries.entries[|before|] == entry;
      assert entry.children + [Marker("skipped")] == [Marker("skipped")];
      assert entry.children + [Marker("failure")] == [Marker("failure")];
      if test.outcome == Skipped {
        entries.PushChildOfLast(Marker("skipped"));
        assert entries.entries == before + [entry.(children := [Marker("skipped")])];
        return;
      }
      if !test.ok {
        entries.PushChildOfLast(Marker("failure"));
        assert entries.entries == before + [entry.(children := [Marker("failure")])];
        return;
      }
    }
  }

  // properties

  /** A skipped test is marked `skipped` whatever `ok()` says; otherwise a
      test that is not ok is marked `failure`; an ok test gets no child. */
  lemma OutcomeMapping(t: TestCase)
    ensures var children := TestCaseEntry(t).children;
      && |children| <= 1
      && (children == [Marker("skipped")] <==> t.outcome == Skipped)
      && (children == [Marker("failure")] <==> t.outcome != Skipped && !t.ok)
      && (children == [] <==> t.outcome != Skipped && t.ok)
      && (forall i :: 0 <= i < |children| ==>
            children[i].attributes == [] && children[i].children == [] && children[i].text == None)
  {
  }

  /** The name drops exactly the root, project and file titles. */
  lemma TestCaseNameSegments(t: TestCase)
    ensures |t.titlePath| <= 3 ==> TestCaseName(t) == ""
    ensures |t.titlePath| == 4 ==> TestCaseName(t) == t.titlePath[3]
    ensures |t.titlePath| > 4 ==>
      TestCaseName(t) == Join(t.titlePath[3..|t.titlePath| - 1], TitleSeparator) + TitleSeparator + t.titlePath[|t.titlePath| - 1]
  {
    if |t.titlePath| > 4 {
      var tail := t.titlePath[3..];
      assert tail[..|tail| - 1] == t.titlePath[3..|t.titlePath| - 1];
    }
  }

  /** `[root, project, file, "describe", "case"]` is shown as
      "describe › case". */
  lemma TestCaseNameExample(root: string, project: string, file: string, durations: seq<nat>, outcome: Outcome, ok: bool)
    ensures TestCaseName(TestCase([root, project, file, "describe", "case"], durations, outcome, ok))
         == "describe \U{203A} case"
  {
    var tail := [root, project, file, "describe", "case"][3..];
    assert tail == ["describe", "case"];
    assert tail[..1] == ["describe"];
    assert Join(tail, TitleSeparator) == Join(tail[..1], TitleSeparator) + TitleSeparator + tail[1];
    assert "describe" + TitleSeparator + "case" == "describe \U{203A} case";
  }

  /** As long as no title holds U+203A, the name shows one separator
      between each pair of consecutive displayed titles. */
  lemma TestCaseNameSeparators(t: TestCase)
    requires forall i :: 0 <= i < |t.titlePath| ==> '\U{203A}' !in t.titlePath[i]
    ensures multiset(TestCaseName(t))['\U{203A}'] == if |t.titlePath| <= 4 then 0 else |t.titlePath| - 4
  {
    var tail := TitleTail(t.titlePath);
    forall i | 0 <= i < |tail| ensures '\U{203A}' !in tail[i] {
      assert tail[i] == t.titlePath[i + 3];
    }
    assert multiset(TitleSeparator) == multiset{' ', '\U{203A}', ' '};
    JoinSeparatorCount(tail, TitleSeparator, '\U{203A}');
  }

  /** The total of two runs of attempts is the sum of their totals. */
  lemma {:induction false} TotalDurationAppend(a: seq<nat>, b: seq<nat>)
    ensures TotalDuration(a + b) == TotalDuration(a) + TotalDuration(b)
    decreases |b|
  {
    if |b| == 0 {
      assert a + b == a;
    } else {
      var b' := b[..|b| - 1];
      var x := b[|b| - 1];
      TotalDurationAppend(a, b');
      assert (a + b)[..|a + b| - 1] == a + b';
      assert (a + b)[|a + b| - 1] == x;
      assert TotalDuration(a + b) == TotalDuration(a + b') + x;
      assert TotalDuration(b) == TotalDuration(b') + x;
    }
  }


  /** No attempt lasts longer than the reported total. */
  lemma TotalDurationBound(durations: seq<nat>, i: nat)
    requires i < |durations|
    ensures durations[i] <= TotalDuration(durations)
  {
    TotalDurationAppend(durations[..i], durations[i..]);
    TotalDurationAppend([durations[i]], durations[i + 1..]);
    assert durations[..i] + durations[i..] == durations;
    assert [durations[i]] + durations[i + 1..] == durations[i..];
    assert TotalDuration([durations[i]]) == durations[i] by {
      assert [durations[i]][..0] == [];
    }
  }

  /** The duration attribute is a plain decimal number that reads back as
      the total of the attempt durations. */
  lemma DurationRoundTrip(t: TestCase)
    ensures forall i :: 0 <= i < |TestCaseDuration(t)| ==> IsDigit(TestCaseDuration(t)[i])
    ensures DecimalValue(TestCaseDuration(t)) == TotalDuration(t.durations)
  {
    DecimalRoundTrip(TotalDuration(t.durations));
  }

  /** One testCase per test, in order, and nothing else. */
  lemma {:induction false} TestCaseEntriesIndex(tests: seq<TestCase>)
    ensures |TestCaseEntries(tests)| == |tests|
    ensures forall i :: 0 <= i < |tests| ==> TestCaseEntries(tests)[i] == TestCaseEntry(tests[i])
    decreases |tests|
  {
    if |tests| > 0 {
      TestCaseEntriesIndex(tests[..|tests| - 1]);
    }
  }

  lemma {:induction false} FileEntriesAppend(a: seq<FileSuite>, b: seq<FileSuite>)
    ensures FileEntries(a + b) == FileEntries(a) + FileEntries(b)
    decreases |b|
  {
    if |b| == 0 {
      assert a + b == a;
    } else {
      var b' := b[..|b| - 1];
      var x := b[|b| - 1];
      FileEntriesAppend(a, b');
      assert (a + b)[..|a + b| - 1] == a + b';
      assert (a + b)[|a + b| - 1] == x;
      assert FileEntries(a + b) == FileEntries(a + b') + [FileEntry(x)];
      assert FileEntries(b) == FileEntries(b') + [FileEntry(x)];
    }
  }


  lemma FileEntriesStep(prefix: seq<FileSuite>, files: seq<FileSuite>, f: nat)
    requires f < |files|
    ensures FileEntries(prefix + files[..f + 1]) == FileEntries(prefix + files[..f]) + [FileEntry(files[f])]
  {
    assert (prefix + files[..f + 1])[..|prefix| + f] == prefix + files[..f];
  }

  lemma AllFilesStep(projects: seq<ProjectSuite>, p: nat)
    requires p < |projects|
    ensures AllFiles(projects[..p + 1]) == AllFiles(projects[..p]) + projects[p].files[..|projects[p].files|]
  {
    assert projects[..p + 1][..p] == projects[..p];
    assert projects[p].files[..|projects[p].files|] == projects[p].files;
  }

  /** One file entry per file suite, in order, whether or not it has tests. */
  lemma {:induction false} FileEntriesIndex(files: seq<FileSuite>)
    ensures |FileEntries(files)| == |files|
    ensures forall i :: 0 <= i < |files| ==> FileEntries(files)[i] == FileEntry(files[i])
    decreases |files|
  {
    if |files| > 0 {
      FileEntriesIndex(files[..|files| - 1]);
    }
  }

  lemma {:induction false} AllFilesAppend(a: seq<ProjectSuite>, b: seq<ProjectSuite>)
    ensures AllFiles(a + b) == AllFiles(a) + AllFiles(b)
    decreases |b|
  {
    if |b| == 0 {
      assert a + b == a;
    } else {
      var b' := b[..|b| - 1];
      var x := b[|b| - 1];
      AllFilesAppend(a, b');
      assert (a + b)[..|a + b| - 1] == a + b';
      assert (a + b)[|a + b| - 1] == x;
      assert AllFiles(a + b) == AllFiles(a + b') + x.files;
      assert AllFiles(b) == AllFiles(b') + x.files;
    }
  }


  /** File suite i of project p sits at FileOffset(projects, p) + i: the
      projects follow each other and keep their own file order. */
  lemma FileOrder(projects: seq<ProjectSuite>, p: nat, i: nat)
    requires p < |projects| && i < |projects[p].files|
    ensures FileOffset(projects, p) + |projects[p].files| <= |AllFiles(projects)|
    ensures AllFiles(projects)[FileOffset(projects, p) + i] == projects[p].files[i]
  {
    AllFilesAppend(projects[..p + 1], projects[p + 1..]);
    assert projects[..p + 1] + projects[p + 1..] == projects;
    assert projects[..p + 1][..p] == projects[..p];
  }

  /** The root is `<testExecutions version="1">` and its children are the
      file entries of all file suites, project by project. */
  lemma ReportTreeShape(root: RootSuite, p: nat, i: nat)
    requires p < |root.projects| && i < |root.projects[p].files|
    ensures var tree := ReportTree(root);
      && tree.name == "testExecutions" && tree.attributes == [Attribute("version", "1")] && !HasText(tree)
      && |tree.children| == |AllFiles(root.projects)|
      && FileOffset(root.projects, p) + i < |tree.children|
      && tree.children[FileOffset(root.projects, p) + i] == FileEntry(root.projects[p].files[i])
  {
    FileOrder(root.projects, p, i);
    FileEntriesIndex(AllFiles(root.projects));
  }

  /** The tokens of a testCase's outcome child, if any. */
  function MarkerTokens(t: TestCase): seq<string> {
    if t.outcome == Skipped then ["<skipped>", "</skipped>"]
    else if !t.ok then ["<failure>", "</failure>"]
    else []
  }

  /** An outcome child is its open tag directly followed by its close tag. */
  lemma MarkerSerialized(tokens: seq<string>, name: string, stripANSIControlSequences: bool,
                         stripAnsiEscapes: string -> string)
    ensures Serialized(tokens, Marker(name), stripANSIControlSequences, stripAnsiEscapes)
         == tokens + ["<" + name + ">", "</" + name + ">"]
  {
    ChildlessSerialized(tokens, Marker(name), stripANSIControlSequences, stripAnsiEscapes);
    assert AttributeStrings([], stripANSIControlSequences, stripAnsiEscapes) == [];
    assert OpenTag(name, []) == "<" + name + ">";
  }

  /** A testCase serializes as `<testCase name="..." duration="...">`, the
      outcome child's two tokens if there is one, and `</testCase>`. */
  lemma TestCaseTokens(t: TestCase, stripANSIControlSequences: bool, stripAnsiEscapes: string -> string)
    ensures EntryTokens(TestCaseEntry(t), stripANSIControlSequences, stripAnsiEscapes)
         == ["<testCase " + AttributeString(Attribute("name", TestCaseName(t)), stripANSIControlSequences, stripAnsiEscapes)
             + " " + AttributeString(Attribute("duration", TestCaseDuration(t)), stripANSIControlSequences, stripAnsiEscapes) + ">"]
            + MarkerTokens(t) + ["</testCase>"]
  {
    var e := TestCaseEntry(t);
    var open := OpenTag(e.name, AttributeStrings(e.attributes, stripANSIControlSequences, stripAnsiEscapes));
    AttributeTagTwo(e.name, e.attributes[0], e.attributes[1], stripANSIControlSequences, stripAnsiEscapes);
    MarkerLiterals();
    assert [] + [open] == [open];
    if t.outcome == Skipped {
      OneChildSerialized([], e, stripANSIControlSequences, stripAnsiEscapes);
      MarkerSerialized([open], "skipped", stripANSIControlSequences, stripAnsiEscapes);
      MarkerLiterals();
    } else if !t.ok {
      OneChildSerialized([], e, stripANSIControlSequences, stripAnsiEscapes);
      assert e.children[0] == Marker("failure");
      MarkerSerialized([open], "failure", stripANSIControlSequences, stripAnsiEscapes);
      MarkerLiterals();
    } else {
      ChildlessSerialized([], e, stripANSIControlSequences, stripAnsiEscapes);
    }
  }

  /** The literal tag strings the testCase tokens are made of. */
  lemma MarkerLiterals()
    ensures "<" + "skipped" + ">" == "<skipped>" && "</" + "skipped" + ">" == "</skipped>"
    ensures "<" + "failure" + ">" == "<failure>" && "</" + "failure" + ">" == "</failure>"
    ensures "</" + "testCase" + ">" == "</testCase>" && "<" + "testCase" + " " == "<testCase "
  {
  }

  /** The literal open tag of a file suite without a location. */
  lemma UndefinedPathLiteral()
    ensures "<" + "file" + " " + ("path" + "=\"" + "undefined" + "\"") + ">" == "<file path=\"undefined\">"
  {
  }

  /** With stripping off, the duration appears verbatim as decimal digits. */
  lemma DurationVerbatim(t: TestCase, stripAnsiEscapes: string -> string)
    ensures Escape(TestCaseDuration(t), false, stripAnsiEscapes, false) == TestCaseDuration(t)
  {
    var d := TestCaseDuration(t);
    forall i | 0 <= i < |d| ensures !IsMarkup(d[i]) && !IsDiscouraged(d[i]) {
      assert IsDigit(d[i]);
    }
    EscapeAttributePlain(d, stripAnsiEscapes);
  }

  /** A file suite without a location opens as `<file path="undefined">`
      when stripping is off. */
  lemma MissingLocationTag(suite: FileSuite, stripAnsiEscapes: string -> string)
    requires suite.location.None?
    ensures EntryTokens(FileEntry(suite), false, stripAnsiEscapes)[0] == "<file path=\"undefined\">"
  {
    var e := FileEntry(suite);
    forall i | 0 <= i < |"undefined"| ensures !IsMarkup("undefined"[i]) && !IsDiscouraged("undefined"[i]) {
      assert 'a' <= "undefined"[i] <= 'z';
    }
    EscapeAttributePlain("undefined", stripAnsiEscapes);
    EntryTokensEnds(e, false, stripAnsiEscapes);
    AttributeTagOne("file", Attribute("path", "undefined"), false, stripAnsiEscapes);
    UndefinedPathLiteral();
  }

  /** Outcome children in a run of tests. */
  function MarkerCount(tests: seq<TestCase>): nat
    decreases |tests|
  {
    if |tests| == 0 then 0 else MarkerCount(tests[..|tests| - 1]) + |OutcomeMarkers(tests[|tests| - 1])|
  }

  /** Tests of a run of file suites. */
  function TestCount(files: seq<FileSuite>): nat
    decreases |files|
  {
    if |files| == 0 then 0 else TestCount(files[..|files| - 1]) + |files[|files| - 1].tests|
  }

  /** Outcome children of a run of file suites. */
  function FileMarkerCount(files: seq<FileSuite>): nat
    decreases |files|
  {
    if |files| == 0 then 0 else FileMarkerCount(files[..|files| - 1]) + MarkerCount(files[|files| - 1].tests)
  }

  lemma MarkerSize(name: string)
    ensures NodeCount(Marker(name)) == 1 && TextCount(Marker(name)) == 0
  {
    NodeCountOf(Marker(name));
  }

  lemma TestCaseEntrySize(t: TestCase)
    ensures NodeCount(TestCaseEntry(t)) == 1 + |OutcomeMarkers(t)|
    ensures TextCount(TestCaseEntry(t)) == 0
  {
    var e := TestCaseEntry(t);
    NodeCountOf(e);
    if |e.children| == 1 {
      MarkerSize(e.children[0].name);
      NodesOfAppend([], e.children[0]);
      assert [] + [e.children[0]] == e.children;
    }
  }

  lemma {:induction false} TestCaseEntriesSize(tests: seq<TestCase>)
    ensures NodesOf(TestCaseEntries(tests)) == |tests| + MarkerCount(tests)
    ensures TextsOf(TestCaseEntries(tests)) == 0
    decreases |tests|
  {
    if |tests| > 0 {
      var init := tests[..|tests| - 1];
      TestCaseEntriesSize(init);
      NodesOfAppend(TestCaseEntries(init), TestCaseEntry(tests[|tests| - 1]));
      TestCaseEntrySize(tests[|tests| - 1]);
    }
  }

  lemma {:induction false} FileEntriesSize(files: seq<FileSuite>)
    ensures NodesOf(FileEntries(files)) == |files| + TestCount(files) + FileMarkerCount(files)
    ensures TextsOf(FileEntries(files)) == 0
    decreases |files|
  {
    if |files| > 0 {
      var init := files[..|files| - 1];
      var last := files[|files| - 1];
      FileEntriesSize(init);
      NodesOfAppend(FileEntries(init), FileEntry(last));
      NodeCountOf(FileEntry(last));
      TestCaseEntriesSize(last.tests);
    }
  }

  /** The report has an open and a close tag for the root, every file
      suite, every test and every outcome child, and no other token. */
  lemma ReportTokenCount(root: RootSuite, stripANSIControlSequences: bool, stripAnsiEscapes: string -> string)
    ensures var files := AllFiles(root.projects);
      |ReportTokens(root, stripANSIControlSequences, stripAnsiEscapes)|
      == 2 * (1 + |files| + TestCount(files) + FileMarkerCount(files))
  {
    var tree := ReportTree(root);
    TokenCount([], tree, stripANSIControlSequences, stripAnsiEscapes);
    NodeCountOf(tree);
    FileEntriesSize(AllFiles(root.projects));
  }

  /** When no token holds a line feed, the report's lines are exactly the
      tokens. */
  lemma ReportLines(root: RootSuite, stripANSIControlSequences: bool, stripAnsiEscapes: string -> string)
    requires var tokens := ReportTokens(root, stripANSIControlSequences, stripAnsiEscapes);
      forall i :: 0 <= i < |tokens| ==> '\n' !in tokens[i]
    ensures Split(ReportString(root, stripANSIControlSequences, stripAnsiEscapes), '\n')
         == ReportTokens(root, stripANSIControlSequences, stripAnsiEscapes)
  {
    ReportTokenCount(root, stripANSIControlSequences, stripAnsiEscapes);
    SplitJoin(ReportTokens(root, stripANSIControlSequences, stripAnsiEscapes), '\n');
  }
}
