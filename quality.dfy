/** Quality validation of generated test code (test_quality_validator.py).

    A parsed test file is given as the facts the validator reads off its
    syntax tree: the import statements, and every function definition met by
    the walk of the tree, each with its docstring flag and the nodes met by
    the walk of its own body. */
module TestQuality {
  import opened Wrappers
  import opened Text

  // ---------------------------------------------------------------------
  // Parsed test code
  // ---------------------------------------------------------------------

  /** `ImportFrom(module, names)` or `Import(names)`; names are the alias names. */
  datatype ImportNode = ImportFrom(fromModule: Option<string>, names: seq<string>) | Import(names: seq<string>)

  /** The callee of a call: a bare name, an attribute, or another expression. */
  datatype Callee = NameCallee(id: string) | AttributeCallee(attr: string) | OtherCallee

  /** The test expression of an `assert`. */
  datatype AssertTest = CompareTest | CallTest | OtherTest

  /** A node met while walking a function body. */
  datatype WalkNode = AssertNode(test: AssertTest) | CallNode(func: Callee) | OtherNode

  /** A function definition: its name, whether its body opens with a string
      literal (a docstring), and the nodes of its walk. */
  datatype FunctionFacts = FunctionFacts(name: string, docstring: bool, walk: seq<WalkNode>)

  datatype ParsedModule = ParsedModule(imports: seq<ImportNode>, functions: seq<FunctionFacts>)

  // ---------------------------------------------------------------------
  // Metrics, warnings and suggestions
  // ---------------------------------------------------------------------

  datatype Metrics = Metrics(
    numTestFunctions: nat,
    numAssertions: nat,
    functionsTested: set<string>,
    hasImports: bool,
    hasDocstrings: nat,
    duplicateTests: seq<string>,
    emptyTests: seq<string>,
    testsWithoutAssertions: seq<string>,
    qualityScore: Option<real>,
    qualityPercentage: Option<real>)

  const InitialMetrics := Metrics(0, 0, {}, false, 0, [], [], [], None, None)

  datatype Warning =
    | InvalidSyntax(error: string)
    | NoTestFunctions
    | MissingImport(cutModule: string)
    | EmptyTest(name: string)
    | NoAssertions(name: string)
    | PotentialDuplicates(names: seq<string>)
    | NotTested(untested: set<string>)

  /** The text of each warning. */
  function WarningText(w: Warning): string
  {
    match w
    case InvalidSyntax(e) => "Invalid Python syntax: " + e
    case NoTestFunctions => "No test functions found (functions must start with 'test_')"
    case MissingImport(m) =>
      "Missing import for CUT module '" + m + "'. Tests should import from 'impl.cut." + m + "'"
    case EmptyTest(n) => "Test '" + n + "' appears to be empty or has no meaningful code"
    case NoAssertions(n) =>
      "Test '" + n + "' has no assertions. Tests should verify expected behavior with assert statements."
    case PotentialDuplicates(ns) => "Potential duplicate tests detected: " + Join(ns, ", ")
    case NotTested(ns) =>
      "Functions not tested: " + Join(SortedStrings(ns), ", ") + ". Consider adding tests for all public functions."
  }

  datatype Suggestion =
    | AddTestFunctions
    | AddImport(cutModule: string)
    | AddAssertStatements
    | AddAssertionsTo(names: seq<string>)
    | ImplementLogic(names: seq<string>)
    | AddTestsFor(untested: set<string>)
    | AddDocstrings

  function SuggestionText(s: Suggestion): string
  {
    match s
    case AddTestFunctions => "Add test functions with 'test_' prefix"
    case AddImport(m) => "Add import statement: 'from impl.cut import " + m + "'"
    case AddAssertStatements => "Add assert statements to verify expected behavior"
    case AddAssertionsTo(ns) => "Add assertions to tests: " + Join(ns, ", ")
    case ImplementLogic(ns) => "Implement test logic for: " + Join(ns, ", ")
    case AddTestsFor(ns) => "Add tests for functions: " + Join(SortedStrings(ns), ", ")
    case AddDocstrings => "Add docstrings to test functions explaining what they test"
  }

  // ---------------------------------------------------------------------
  // Facts of one walk
  // ---------------------------------------------------------------------

  function Last<T>(s: seq<T>): T
    requires s != []
  {
    s[|s| - 1]
  }

  function Init<T>(s: seq<T>): seq<T>
    requires s != []
  {
    s[..|s| - 1]
  }

  /** Number of assert nodes in a walk. */
  function AssertCount(walk: seq<WalkNode>): nat
  {
    if walk == [] then 0 else AssertCount(Init(walk)) + (if Last(walk).AssertNode? then 1 else 0)
  }

  predicate HasAssert(walk: seq<WalkNode>)
  {
    exists k :: 0 <= k < |walk| && walk[k].AssertNode?
  }

  predicate HasCall(walk: seq<WalkNode>)
  {
    exists k :: 0 <= k < |walk| && walk[k].CallNode?
  }

  /** The called name of a call node: the id of a bare name, the attribute of an attribute. */
  function CalledName(n: WalkNode): seq<string>
  {
    if n.CallNode? && n.func.NameCallee? then [n.func.id]
    else if n.CallNode? && n.func.AttributeCallee? then [n.func.attr]
    else []
  }

  /** The names the walk calls, in walk order. */
  function CallNames(walk: seq<WalkNode>): seq<string>
  {
    if walk == [] then [] else CallNames(Init(walk)) + CalledName(Last(walk))
  }

  /** The part of a signature a node contributes: bare-name calls. */
  function SignatureCall(n: WalkNode): seq<string>
  {
    if n.CallNode? && n.func.NameCallee? then [n.func.id] else []
  }

  datatype AssertKind = Compare | Call

  /** The part of a signature a node contributes: asserts over a comparison or a call. */
  function SignatureAssert(n: WalkNode): seq<AssertKind>
  {
    if n.AssertNode? && n.test.CompareTest? then [Compare]
    else if n.AssertNode? && n.test.CallTest? then [Call]
    else []
  }

  function SignatureCalls(walk: seq<WalkNode>): seq<string>
  {
    if walk == [] then [] else SignatureCalls(Init(walk)) + SignatureCall(Last(walk))
  }

  function SignatureAsserts(walk: seq<WalkNode>): seq<AssertKind>
  {
    if walk == [] then [] else SignatureAsserts(Init(walk)) + SignatureAssert(Last(walk))
  }

  /** The pair of sorted tuples compares equal exactly when the multisets do. */
  datatype Signature = Signature(calls: multiset<string>, asserts: multiset<AssertKind>)

  function SignatureOf(f: FunctionFacts): Signature
  {
    Signature(multiset(SignatureCalls(f.walk)), multiset(SignatureAsserts(f.walk)))
  }

  lemma {:induction false} AssertCountPositive(walk: seq<WalkNode>)
    ensures AssertCount(walk) > 0 <==> HasAssert(walk)
  {
    if walk != [] {
      AssertCountPositive(Init(walk));
      if HasAssert(Init(walk)) {
        var k :| 0 <= k < |Init(walk)| && Init(walk)[k].AssertNode?;
        assert walk[k].AssertNode?;
      }
      if HasAssert(walk) && !Last(walk).AssertNode? {
        var k :| 0 <= k < |walk| && walk[k].AssertNode?;
        assert Init(walk)[k].AssertNode?;
      }
    }
  }

  // ---------------------------------------------------------------------
  // Facts of the tests
  // ---------------------------------------------------------------------

  predicate IsTest(f: FunctionFacts)
  {
    StartsWith(f.name, "test_")
  }

  /** The test functions, in walk order. */
  function Tests(fs: seq<FunctionFacts>): (ts: seq<FunctionFacts>)
    ensures forall t :: t in ts <==> t in fs && IsTest(t)
  {
    if fs == [] then [] else Tests(Init(fs)) + (if IsTest(Last(fs)) then [Last(fs)] else [])
  }

  function NumAssertions(ts: seq<FunctionFacts>): nat
  {
    if ts == [] then 0 else NumAssertions(Init(ts)) + AssertCount(Last(ts).walk)
  }

  function Docstrings(ts: seq<FunctionFacts>): nat
  {
    if ts == [] then 0 else Docstrings(Init(ts)) + (if Last(ts).docstring then 1 else 0)
  }

  /** Names of the tests with no call at all. */
  function EmptyTests(ts: seq<FunctionFacts>): seq<string>
  {
    if ts == [] then [] else EmptyTests(Init(ts)) + (if HasCall(Last(ts).walk) then [] else [Last(ts).name])
  }

  /** Names of the tests with no assert. */
  function WithoutAssertions(ts: seq<FunctionFacts>): seq<string>
  {
    if ts == [] then [] else WithoutAssertions(Init(ts)) + (if HasAssert(Last(ts).walk) then [] else [Last(ts).name])
  }

  /** The called names that are functions of the code under test. */
  function CutCalls(calls: seq<string>, cut: set<string>): (r: set<string>)
    ensures r <= cut
  {
    set n | n in calls && n in cut
  }

  function Tested(ts: seq<FunctionFacts>, cut: set<string>): (r: set<string>)
    ensures r <= cut
  {
    if ts == [] then {} else Tested(Init(ts), cut) + CutCalls(CallNames(Last(ts).walk), cut)
  }

  /** The warnings one test raises. */
  function TestWarningsOf(t: FunctionFacts, strict: bool): seq<Warning>
  {
    (if HasCall(t.walk) then [] else [EmptyTest(t.name)])
    + (if HasAssert(t.walk) || !strict then [] else [NoAssertions(t.name)])
  }

  function TestWarnings(ts: seq<FunctionFacts>, strict: bool): seq<Warning>
  {
    if ts == [] then [] else TestWarnings(Init(ts), strict) + TestWarningsOf(Last(ts), strict)
  }

  /** Whether an earlier test has the same signature as test i. */
  predicate SeenBefore(ts: seq<FunctionFacts>, i: int)
    requires 0 <= i < |ts|
  {
    exists j :: 0 <= j < i && SignatureOf(ts[j]) == SignatureOf(ts[i])
  }

  /** Names of the tests whose signature an earlier test already has. */
  function Duplicates(ts: seq<FunctionFacts>): seq<string>
  {
    if ts == [] then [] else Duplicates(Init(ts)) + (if SeenBefore(ts, |ts| - 1) then [Last(ts).name] else [])
  }

  /** The metrics after the walk over the function definitions. */
  function Analysed(ts: seq<FunctionFacts>, hasImports: bool, cut: set<string>): Metrics
  {
    Metrics(|ts|, NumAssertions(ts), Tested(ts, cut), hasImports, Docstrings(ts),
            [], EmptyTests(ts), WithoutAssertions(ts), None, None)
  }

  // ---------------------------------------------------------------------
  // Imports and the score
  // ---------------------------------------------------------------------

  /** Whether an import statement imports the module under test. */
  predicate ImportsCut(node: ImportNode, cutModuleName: string)
  {
    match node
    case ImportFrom(fromModule, names) =>
      (fromModule.Some? && fromModule.value != [] && Contains(fromModule.value, cutModuleName)) || cutModuleName in names
    case Import(names) => cutModuleName in names
  }

  predicate HasCutImport(imports: seq<ImportNode>, cutModuleName: string)
  {
    exists k :: 0 <= k < |imports| && ImportsCut(imports[k], cutModuleName)
  }

  function Min(a: real, b: real): real
  {
    if a <= b then a else b
  }

  function Max1(n: nat): nat
  {
    if n < 1 then 1 else n
  }

  function DocstringRatio(m: Metrics): real
  {
    m.hasDocstrings as real / Max1(m.numTestFunctions) as real
  }

  /** The quality score, out of ten, over exact arithmetic. */
  function QualityScore(m: Metrics, cutCount: nat): real
    requires m.numTestFunctions > 0
  {
    2.0
    + (if m.hasImports then 1.0 else 0.0)
    + (if m.numAssertions > 0 then Min(2.0, m.numAssertions as real / m.numTestFunctions as real) else 0.0)
    + (if DocstringRatio(m) > 0.5 then 1.0 else 0.0)
    + (if |m.functionsTested| > 0 then Min(2.0, |m.functionsTested| as real / Max1(cutCount) as real) else 0.0)
    + (if |m.emptyTests| == 0 then 1.0 else 0.0)
    + (if |m.testsWithoutAssertions| == 0 then 1.0 else 0.0)
  }

  function Percentage(score: real): real
  {
    (score / 10.0) * 100.0
  }

  // ---------------------------------------------------------------------
  // The whole validation
  // ---------------------------------------------------------------------

  function ImportWarnings(hasImport: bool, strict: bool, cutModuleName: string): seq<Warning>
  {
    if !hasImport && strict then [MissingImport(cutModuleName)] else []
  }

  function DuplicateWarnings(duplicates: seq<string>): seq<Warning>
  {
    if duplicates != [] then [PotentialDuplicates(duplicates)] else []
  }

  function CoverageWarnings(cut: set<string>, tested: set<string>, strict: bool): seq<Warning>
  {
    if cut != {} && cut - tested != {} && strict then [NotTested(cut - tested)] else []
  }

  /** The result of validating parsed test code: validity, warnings, metrics. */
  function Quality(cutModuleName: string, cut: set<string>, parsed: Result<ParsedModule, string>, strict: bool)
    : (bool, seq<Warning>, Metrics)
  {
    if parsed.Failure? then (false, [InvalidSyntax(parsed.error)], InitialMetrics)
    else
      var hasImport := HasCutImport(parsed.value.imports, cutModuleName);
      var ts := Tests(parsed.value.functions);
      var m := Analysed(ts, hasImport, cut);
      if |ts| == 0 then (false, [NoTestFunctions], m)
      else
        var warnings := ImportWarnings(hasImport, strict, cutModuleName) + TestWarnings(ts, strict)
                        + DuplicateWarnings(Duplicates(ts)) + CoverageWarnings(cut, m.functionsTested, strict);
        var score := QualityScore(m.(duplicateTests := Duplicates(ts)), |cut|);
        (|warnings| == 0 || !strict, warnings,
         m.(duplicateTests := Duplicates(ts), qualityScore := Some(score), qualityPercentage := Some(Percentage(score))))
  }

  function Pick<T>(c: bool, x: T): seq<T>
  {
    if c then [x] else []
  }

  /** The suggestions for a set of metrics, in the order they are made. */
  function Suggestions(cutModuleName: string, cut: set<string>, m: Metrics): seq<Suggestion>
  {
    Pick(m.numTestFunctions == 0, AddTestFunctions)
    + Pick(!m.hasImports, AddImport(cutModuleName))
    + Pick(m.numAssertions == 0, AddAssertStatements)
    + Pick(m.testsWithoutAssertions != [], AddAssertionsTo(m.testsWithoutAssertions))
    + Pick(m.emptyTests != [], ImplementLogic(m.emptyTests))
    + Pick(cut != {} && cut - m.functionsTested != {}, AddTestsFor(cut - m.functionsTested))
    + Pick(DocstringRatio(m) < 0.5, AddDocstrings)
  }

  // ---------------------------------------------------------------------
  // The validator
  // ---------------------------------------------------------------------

  /** The names of the function definitions met by walking the module under
      test; none when the file is missing or does not parse. */
  method ExtractCutFunctions(cutModule: Option<seq<string>>) returns (functions: set<string>)
    ensures cutModule.None? ==> functions == {}
    ensures cutModule.Some? ==> forall n :: n in functions <==> n in cutModule.value
  {
    functions := {};
    if cutModule.Some? {
      var defs := cutModule.value;
      for i := 0 to |defs|
        invariant forall n :: n in functions <==> n in defs[..i]
      {
        functions := functions + {defs[i]};
      }
    }
  }

  class TestQualityValidator {
    const cutModuleName: string
    const cutFunctions: set<string>

    constructor(cutModuleName: string, cutModule: Option<seq<string>>)
      ensures this.cutModuleName == cutModuleName
      ensures cutModule.None? ==> cutFunctions == {}
      ensures cutModule.Some? ==> forall n :: n in cutFunctions <==> n in cutModule.value
    {
      this.cutModuleName := cutModuleName;
      var functions := ExtractCutFunctions(cutModule);
      this.cutFunctions := functions;
    }

    /** Validates parsed test code; a syntax error is a `Failure` carrying
        the parser's message. */
    method ValidateTestQuality(parsed: Result<ParsedModule, string>, strict: bool)
      returns (isValid: bool, warnings: seq<Warning>, metrics: Metrics)
      ensures (isValid, warnings, metrics) == Quality(cutModuleName, cutFunctions, parsed, strict)
    {
      metrics := InitialMetrics;
      if parsed.Failure? {
        return false, [InvalidSyntax(parsed.error)], metrics;
      }
      var hasCutImport := ScanImports(parsed.value.imports);
      metrics := metrics.(hasImports := hasCutImport);
      warnings := ImportWarnings(hasCutImport, strict, cutModuleName);

      var testFunctions, analysed, testWarnings := AnalyseFunctions(parsed.value.functions, hasCutImport, strict);
      metrics := analysed;
      warnings := warnings + testWarnings;

      if metrics.numTestFunctions == 0 {
        return false, [NoTestFunctions], metrics;
      }

      ghost var done := warnings;
      var duplicates := FindDuplicates(testFunctions);
      metrics := metrics.(duplicateTests := duplicates);
      if duplicates != [] {
        warnings := warnings + [PotentialDuplicates(duplicates)];
      }
      assert warnings == done + DuplicateWarnings(duplicates);
      done := warnings;
      if cutFunctions != {} {
        var untested := cutFunctions - metrics.functionsTested;
        if untested != {} && strict {
          warnings := warnings + [NotTested(untested)];
        }
      }
      assert warnings == done + CoverageWarnings(cutFunctions, metrics.functionsTested, strict);

      ghost var deduplicated := analysed.(duplicateTests := duplicates);
      assert metrics == deduplicated;
      var qualityScore := ScoreQuality(metrics, |cutFunctions|);
      metrics := metrics.(qualityScore := Some(qualityScore), qualityPercentage := Some((qualityScore / 10.0) * 100.0));
      assert metrics == deduplicated.(qualityScore := Some(qualityScore), qualityPercentage := Some(Percentage(qualityScore)));
      isValid := |warnings| == 0 || !strict;
    }

    /** The walk over the function definitions: the tests found, and the
        metrics and warnings they give. */
    method AnalyseFunctions(functions: seq<FunctionFacts>, hasCutImport: bool, strict: bool)
      returns (testFunctions: seq<FunctionFacts>, metrics: Metrics, warnings: seq<Warning>)
      ensures testFunctions == Tests(functions)
      ensures metrics == Analysed(testFunctions, hasCutImport, cutFunctions)
      ensures warnings == TestWarnings(testFunctions, strict)
    {
      testFunctions, metrics, warnings := [], InitialMetrics.(hasImports := hasCutImport), [];
      for i := 0 to |functions|
        invariant testFunctions == Tests(functions[..i])
        invariant metrics == Analysed(testFunctions, hasCutImport, cutFunctions)
        invariant warnings == TestWarnings(testFunctions, strict)
      {
        assert functions[..i + 1][..i] == functions[..i];
        var node := functions[i];
        if StartsWith(node.name, "test_") {
          var computed := AnalyseTest(metrics, node, strict);
          AnalysedStep(testFunctions, node, hasCutImport, cutFunctions);
          assert Init(testFunctions + [node]) == testFunctions;
          metrics := computed.0;
          warnings := warnings + computed.1;
          testFunctions := testFunctions + [node];
        }
      }
      assert functions[..|functions|] == functions;
    }

    /** Whether some import statement imports the module under test. */
    method ScanImports(imports: seq<ImportNode>) returns (hasCutImport: bool)
      ensures hasCutImport == HasCutImport(imports, cutModuleName)
    {
      hasCutImport := false;
      for i := 0 to |imports|
        invariant hasCutImport == HasCutImport(imports[..i], cutModuleName)
      {
        assert imports[..i + 1][..i] == imports[..i];
        var node := imports[i];
        match node
        case ImportFrom(fromModule, names) =>
          if fromModule.Some? && fromModule.value != [] && Contains(fromModule.value, cutModuleName) {
            hasCutImport := true;
          } else if cutModuleName in names {
            hasCutImport := true;
          }
        case Import(names) =>
          if cutModuleName in names {
            hasCutImport := true;
          }
        assert ImportsCut(imports[..i + 1][i], cutModuleName) ==> hasCutImport;
      }
      assert imports[..|imports|] == imports;
    }

    /** The metrics and warnings after one more test function. */
    method AnalyseTest(metrics: Metrics, node: FunctionFacts, strict: bool) returns (r: (Metrics, seq<Warning>))
      ensures r.0 == metrics.(numTestFunctions := metrics.numTestFunctions + 1,
                              hasDocstrings := metrics.hasDocstrings + (if node.docstring then 1 else 0),
                              numAssertions := metrics.numAssertions + AssertCount(node.walk),
                              emptyTests := metrics.emptyTests + (if HasCall(node.walk) then [] else [node.name]),
                              testsWithoutAssertions := metrics.testsWithoutAssertions
                                                        + (if HasAssert(node.walk) then [] else [node.name]),
                              functionsTested := metrics.functionsTested + CutCalls(CallNames(node.walk), cutFunctions))
      ensures r.1 == TestWarningsOf(node, strict)
    {
      var m := metrics.(numTestFunctions := metrics.numTestFunctions + 1);
      if node.docstring {
        m := m.(hasDocstrings := m.hasDocstrings + 1);
      }
      var hasAssertion, hasMeaningfulCode, assertions, functionCalls := WalkTest(node.walk);
      m := m.(numAssertions := m.numAssertions + assertions);
      var w: seq<Warning> := [];
      if !hasMeaningfulCode {
        m := m.(emptyTests := m.emptyTests + [node.name]);
        w := w + [EmptyTest(node.name)];
      }
      if !hasAssertion {
        m := m.(testsWithoutAssertions := m.testsWithoutAssertions + [node.name]);
        if strict {
          w := w + [NoAssertions(node.name)];
        }
      }
      var tested := TrackTested(m.functionsTested, functionCalls);
      m := m.(functionsTested := tested);
      return (m, w);
    }

    /** Adds the called names that are functions of the code under test. */
    method TrackTested(functionsTested: set<string>, functionCalls: seq<string>) returns (tested: set<string>)
      ensures tested == functionsTested + CutCalls(functionCalls, cutFunctions)
    {
      tested := functionsTested;
      for k := 0 to |functionCalls|
        invariant tested == functionsTested + CutCalls(functionCalls[..k], cutFunctions)
      {
        assert functionCalls[..k + 1] == functionCalls[..k] + [functionCalls[k]];
        if functionCalls[k] in cutFunctions {
          tested := tested + {functionCalls[k]};
        }
      }
      assert functionCalls[..|functionCalls|] == functionCalls;
    }

    /** Walks one test body: whether it asserts, whether it calls, how many
        asserts it has and which names it calls. */
    method WalkTest(walk: seq<WalkNode>)
      returns (hasAssertion: bool, hasMeaningfulCode: bool, assertions: nat, functionCalls: seq<string>)
      ensures hasAssertion == HasAssert(walk) && hasMeaningfulCode == HasCall(walk)
      ensures assertions == AssertCount(walk) && functionCalls == CallNames(walk)
    {
      hasAssertion, hasMeaningfulCode, assertions, functionCalls := false, false, 0, [];
      for k := 0 to |walk|
        invariant hasAssertion == HasAssert(walk[..k]) && hasMeaningfulCode == HasCall(walk[..k])
        invariant assertions == AssertCount(walk[..k]) && functionCalls == CallNames(walk[..k])
      {
        assert walk[..k + 1][..k] == walk[..k];
        assert walk[..k + 1][k] == walk[k];
        var stmt := walk[k];
        if stmt.AssertNode? {
          hasAssertion := true;
          assertions := assertions + 1;
        } else if stmt.CallNode? {
          hasMeaningfulCode := true;
          if stmt.func.NameCallee? {
            functionCalls := functionCalls + [stmt.func.id];
          } else if stmt.func.AttributeCallee? {
            functionCalls := functionCalls + [stmt.func.attr];
          }
        }
        WalkStep(walk, k);
      }
      assert walk[..|walk|] == walk;
    }

    /** The tests whose signature an earlier test already has. */
    method FindDuplicates(testFunctions: seq<FunctionFacts>) returns (duplicates: seq<string>)
      ensures duplicates == Duplicates(testFunctions)
    {
      duplicates := [];
      var testSignatures: seq<Signature> := [];
      for i := 0 to |testFunctions|
        invariant duplicates == Duplicates(testFunctions[..i])
        invariant forall s :: s in testSignatures <==> s in Signatures(testFunctions[..i])
      {
        var prefix := testFunctions[..i + 1];
        assert Init(prefix) == testFunctions[..i] && Last(prefix) == testFunctions[i];
        SeenBeforeLast(prefix);
        SignaturesSnoc(prefix);
        var calls, assertions := SignatureParts(testFunctions[i].walk);
        var signature := Signature(multiset(calls), multiset(assertions));
        assert signature == SignatureOf(Last(prefix));
        if signature in testSignatures {
          duplicates := duplicates + [testFunctions[i].name];
        } else {
          testSignatures := testSignatures + [signature];
        }
      }
      assert testFunctions[..|testFunctions|] == testFunctions;
    }

    /** The bare-name calls and the assertion kinds of one test body. */
    method SignatureParts(walk: seq<WalkNode>) returns (calls: seq<string>, assertions: seq<AssertKind>)
      ensures calls == SignatureCalls(walk) && assertions == SignatureAsserts(walk)
    {
      calls, assertions := [], [];
      for k := 0 to |walk|
        invariant calls == SignatureCalls(walk[..k]) && assertions == SignatureAsserts(walk[..k])
      {
        assert walk[..k + 1][..k] == walk[..k];
        assert walk[..k + 1][k] == walk[k];
        var node := walk[k];
        if node.CallNode? {
          if node.func.NameCallee? {
            calls := calls + [node.func.id];
          }
        } else if node.AssertNode? {
          if node.test.CompareTest? {
            assertions := assertions + [Compare];
          } else if node.test.CallTest? {
            assertions := assertions + [Call];
          }
        }
      }
      assert walk[..|walk|] == walk;
    }

    /** Accumulates the quality score term by term. */
    method ScoreQuality(metrics: Metrics, cutCount: nat) returns (qualityScore: real)
      requires metrics.numTestFunctions > 0
      ensures qualityScore == QualityScore(metrics, cutCount)
    {
      qualityScore := 0.0;
      if metrics.numTestFunctions > 0 {
        qualityScore := qualityScore + 2.0;
      }
      if metrics.hasImports {
        qualityScore := qualityScore + 1.0;
      }
      if metrics.numAssertions > 0 {
        qualityScore := qualityScore + Min(2.0, metrics.numAssertions as real / metrics.numTestFunctions as real);
      }
      if metrics.hasDocstrings as real / Max1(metrics.numTestFunctions) as real > 0.5 {
        qualityScore := qualityScore + 1.0;
      }
      if |metrics.functionsTested| > 0 {
        qualityScore := qualityScore + Min(2.0, |metrics.functionsTested| as real / Max1(cutCount) as real);
      }
      if |metrics.emptyTests| == 0 {
        qualityScore := qualityScore + 1.0;
      }
      if |metrics.testsWithoutAssertions| == 0 {
        qualityScore := qualityScore + 1.0;
      }
    }

    /** Suggestions for improving the tests the metrics describe. */
    method SuggestImprovements(metrics: Metrics) returns (suggestions: seq<Suggestion>)
      ensures suggestions == Suggestions(cutModuleName, cutFunctions, metrics)
    {
      suggestions := [];
      if metrics.numTestFunctions == 0 {
        suggestions := suggestions + [AddTestFunctions];
      }
      assert suggestions == Pick(metrics.numTestFunctions == 0, AddTestFunctions);
      ghost var done := suggestions;
      if !metrics.hasImports {
        suggestions := suggestions + [AddImport(cutModuleName)];
      }
      assert suggestions == done + Pick(!metrics.hasImports, AddImport(cutModuleName));
      done := suggestions;
      if metrics.numAssertions == 0 {
        suggestions := suggestions + [AddAssertStatements];
      }
      assert suggestions == done + Pick(metrics.numAssertions == 0, AddAssertStatements);
      done := suggestions;
      if metrics.testsWithoutAssertions != [] {
        suggestions := suggestions + [AddAssertionsTo(metrics.testsWithoutAssertions)];
      }
      assert suggestions == done + Pick(metrics.testsWithoutAssertions != [], AddAssertionsTo(metrics.testsWithoutAssertions));
      done := suggestions;
      if metrics.emptyTests != [] {
        suggestions := suggestions + [ImplementLogic(metrics.emptyTests)];
      }
      assert suggestions == done + Pick(metrics.emptyTests != [], ImplementLogic(metrics.emptyTests));
      done := suggestions;
      if cutFunctions != {} {
        var untested := cutFunctions - metrics.functionsTested;
        if untested != {} {
          suggestions := suggestions + [AddTestsFor(untested)];
        }
      }
      assert suggestions == done + Pick(cutFunctions != {} && cutFunctions - metrics.functionsTested != {},
                                        AddTestsFor(cutFunctions - metrics.functionsTested));
      done := suggestions;
      if metrics.hasDocstrings as real / Max1(metrics.numTestFunctions) as real < 0.5 {
        suggestions := suggestions + [AddDocstrings];
      }
      assert suggestions == done + Pick(DocstringRatio(metrics) < 0.5, AddDocstrings);
    }
  }

  // ---------------------------------------------------------------------
  // Step lemmas for the loops
  // ---------------------------------------------------------------------

  lemma AnalysedStep(ts: seq<FunctionFacts>, t: FunctionFacts, hasImports: bool, cut: set<string>)
    ensures var m := Analysed(ts, hasImports, cut);
            Analysed(ts + [t], hasImports, cut)
            == m.(numTestFunctions := m.numTestFunctions + 1,
                  hasDocstrings := m.hasDocstrings + (if t.docstring then 1 else 0),
                  numAssertions := m.numAssertions + AssertCount(t.walk),
                  emptyTests := m.emptyTests + (if HasCall(t.walk) then [] else [t.name]),
                  testsWithoutAssertions := m.testsWithoutAssertions + (if HasAssert(t.walk) then [] else [t.name]),
                  functionsTested := m.functionsTested + CutCalls(CallNames(t.walk), cut))
  {
    assert Init(ts + [t]) == ts;
  }

  lemma WalkStep(walk: seq<WalkNode>, k: nat)
    requires k < |walk|
    ensures HasAssert(walk[..k + 1]) == (HasAssert(walk[..k]) || walk[k].AssertNode?)
    ensures HasCall(walk[..k + 1]) == (HasCall(walk[..k]) || walk[k].CallNode?)
  {
    var p := walk[..k + 1];
    assert forall j :: 0 <= j < k ==> p[j] == walk[..k][j];
    if HasAssert(p) && !walk[k].AssertNode? {
      var j :| 0 <= j < |p| && p[j].AssertNode?;
      assert walk[..k][j].AssertNode?;
    }
    if HasCall(p) && !walk[k].CallNode? {
      var j :| 0 <= j < |p| && p[j].CallNode?;
      assert walk[..k][j].CallNode?;
    }
    if HasAssert(walk[..k]) {
      var j :| 0 <= j < k && walk[..k][j].AssertNode?;
      assert p[j].AssertNode?;
    }
    if HasCall(walk[..k]) {
      var j :| 0 <= j < k && walk[..k][j].CallNode?;
      assert p[j].CallNode?;
    }
    assert p[k] == walk[k];
  }

  // ---------------------------------------------------------------------
  // Properties of the validation
  // ---------------------------------------------------------------------

  /** Validity: only parsable code with at least one test can be valid; in
      lenient mode such code always is, in strict mode exactly when no
      warning was raised. */
  lemma ValidityCases(cutModuleName: string, cut: set<string>, parsed: Result<ParsedModule, string>, strict: bool)
    ensures var (valid, warnings, metrics) := Quality(cutModuleName, cut, parsed, strict);
            valid <==> parsed.Success? && Tests(parsed.value.functions) != [] && (!strict || warnings == [])
  {
  }

  /** The two early rejections and what they return. */
  lemma RejectedInputs(cutModuleName: string, cut: set<string>, parsed: Result<ParsedModule, string>, strict: bool)
    ensures parsed.Failure? ==> Quality(cutModuleName, cut, parsed, strict) == (false, [InvalidSyntax(parsed.error)], InitialMetrics)
    ensures parsed.Success? && Tests(parsed.value.functions) == [] ==>
              var r := Quality(cutModuleName, cut, parsed, strict);
              !r.0 && r.1 == [NoTestFunctions] && r.2.numTestFunctions == 0 && r.2.qualityScore.None?
  {
  }

  lemma SubsetCardinality(a: set<string>, b: set<string>)
    requires a <= b
    ensures |a| <= |b|
  {
    assert b == a + (b - a);
  }

  /** Once scored, the score lies in [2, 9] and the percentage in [20, 90];
      the tested functions are functions of the code under test. */
  lemma ScoreBounds(cutModuleName: string, cut: set<string>, parsed: Result<ParsedModule, string>, strict: bool)
    requires parsed.Success? && Tests(parsed.value.functions) != []
    ensures var m := Quality(cutModuleName, cut, parsed, strict).2;
            m.functionsTested <= cut
            && m.qualityScore.Some? && 2.0 <= m.qualityScore.value <= 9.0
            && m.qualityPercentage.Some? && 20.0 <= m.qualityPercentage.value <= 90.0
  {
    var ts := Tests(parsed.value.functions);
    var m := Analysed(ts, HasCutImport(parsed.value.imports, cutModuleName), cut).(duplicateTests := Duplicates(ts));
    var score := QualityScore(m, |cut|);
    assert Quality(cutModuleName, cut, parsed, strict).2
           == m.(qualityScore := Some(score), qualityPercentage := Some(Percentage(score)));
    SubsetCardinality(m.functionsTested, cut);
    QualityScoreBounds(m, |cut|);
  }

  /** The score has seven terms: the fixed 2, and six bonuses of which only the
      coverage bonus can fall short of its cap, being at most 1. */
  lemma QualityScoreBounds(m: Metrics, cutCount: nat)
    requires m.numTestFunctions > 0 && |m.functionsTested| <= cutCount
    ensures 2.0 <= QualityScore(m, cutCount) <= 9.0
    ensures 20.0 <= Percentage(QualityScore(m, cutCount)) <= 90.0
  {
    var assertRatio := m.numAssertions as real / m.numTestFunctions as real;
    var coverage := |m.functionsTested| as real / Max1(cutCount) as real;
    RatioAtLeastZero(m.numAssertions, m.numTestFunctions);
    RatioAtMostOne(|m.functionsTested|, Max1(cutCount));
    assert 0.0 <= Min(2.0, assertRatio) <= 2.0;
    assert 0.0 <= Min(2.0, coverage) <= 1.0;
  }

  lemma RatioAtLeastZero(a: nat, b: nat)
    requires 0 < b
    ensures 0.0 <= a as real / b as real
  {
  }

  lemma RatioAtMostOne(a: nat, b: nat)
    requires 0 < b && a <= b
    ensures 0.0 <= a as real / b as real <= 1.0
  {
  }

  lemma {:induction false} TestWarningsContain(ts: seq<FunctionFacts>, strict: bool, i: nat)
    requires i < |ts|
    ensures forall w :: w in TestWarningsOf(ts[i], strict) ==> w in TestWarnings(ts, strict)
  {
    if i < |ts| - 1 {
      TestWarningsContain(Init(ts), strict, i);
    }
  }

  lemma {:induction false} EmptyTestsContain(ts: seq<FunctionFacts>, i: nat)
    requires i < |ts| && !HasCall(ts[i].walk)
    ensures ts[i].name in EmptyTests(ts)
  {
    if i < |ts| - 1 {
      EmptyTestsContain(Init(ts), i);
    }
  }

  lemma {:induction false} WithoutAssertionsContain(ts: seq<FunctionFacts>, i: nat)
    requires i < |ts| && !HasAssert(ts[i].walk)
    ensures ts[i].name in WithoutAssertions(ts)
  {
    if i < |ts| - 1 {
      WithoutAssertionsContain(Init(ts), i);
    }
  }

  lemma {:induction false} LenientNoAssertionWarnings(ts: seq<FunctionFacts>)
    ensures forall w :: w in TestWarnings(ts, false) ==> !w.NoAssertions?
  {
    if ts != [] {
      LenientNoAssertionWarnings(Init(ts));
    }
  }

  /** A test without any call is listed as empty and warned about in both
      modes. */
  lemma EmptyTestReported(cutModuleName: string, cut: set<string>, parsed: Result<ParsedModule, string>, strict: bool, i: nat)
    requires parsed.Success? && i < |Tests(parsed.value.functions)|
    requires !HasCall(Tests(parsed.value.functions)[i].walk)
    ensures var t := Tests(parsed.value.functions)[i];
            var (_, warnings, metrics) := Quality(cutModuleName, cut, parsed, strict);
            t.name in metrics.emptyTests && EmptyTest(t.name) in warnings
  {
    var ts := Tests(parsed.value.functions);
    EmptyTestsContain(ts, i);
    TestWarningsContain(ts, strict, i);
  }

  /** A test without any assert is listed, but warned about only in strict
      mode; lenient validation raises no such warning at all. */
  lemma UnassertedTestReported(cutModuleName: string, cut: set<string>, parsed: Result<ParsedModule, string>, strict: bool, i: nat)
    requires parsed.Success? && i < |Tests(parsed.value.functions)|
    requires !HasAssert(Tests(parsed.value.functions)[i].walk)
    ensures var t := Tests(parsed.value.functions)[i];
            var (_, warnings, metrics) := Quality(cutModuleName, cut, parsed, strict);
            t.name in metrics.testsWithoutAssertions
            && (strict ==> NoAssertions(t.name) in warnings)
            && (!strict ==> forall w :: w in warnings ==> !w.NoAssertions?)
  {
    var ts := Tests(parsed.value.functions);
    WithoutAssertionsContain(ts, i);
    TestWarningsContain(ts, strict, i);
    LenientNoAssertionWarnings(ts);
  }

  /** A name is listed as a duplicate exactly when a test of that name has
      a signature an earlier test already holds. */
  lemma {:induction false} DuplicateMembership(ts: seq<FunctionFacts>, n: string)
    ensures n in Duplicates(ts) <==> exists i :: 0 <= i < |ts| && ts[i].name == n && SeenBefore(ts, i)
  {
    if ts != [] {
      var init := Init(ts);
      DuplicateMembership(init, n);
      assert ts[|ts| - 1] == Last(ts);
      if n in Duplicates(init) {
        var i :| 0 <= i < |init| && init[i].name == n && SeenBefore(init, i);
        SeenBeforeInit(ts, i);
        assert ts[i].name == n;
      }
      if exists i :: 0 <= i < |ts| && ts[i].name == n && SeenBefore(ts, i) {
        var i :| 0 <= i < |ts| && ts[i].name == n && SeenBefore(ts, i);
        if i < |init| {
          SeenBeforeInit(ts, i);
          assert init[i].name == n;
        }
      }
    }
  }

  /** Dropping the last test does not change what the earlier ones saw. */
  lemma SeenBeforeInit(ts: seq<FunctionFacts>, i: nat)
    requires i < |ts| - 1
    ensures SeenBefore(Init(ts), i) <==> SeenBefore(ts, i)
  {
    var init := Init(ts);
    if SeenBefore(ts, i) {
      var j :| 0 <= j < i && SignatureOf(ts[j]) == SignatureOf(ts[i]);
      assert SignatureOf(init[j]) == SignatureOf(init[i]);
    }
    if SeenBefore(init, i) {
      var j :| 0 <= j < i && SignatureOf(init[j]) == SignatureOf(init[i]);
      assert SignatureOf(ts[j]) == SignatureOf(ts[i]);
    }
  }

  /** The signatures held by the tests. */
  function Signatures(ts: seq<FunctionFacts>): set<Signature>
  {
    set i | 0 <= i < |ts| :: SignatureOf(ts[i])
  }

  lemma SignaturesSnoc(ts: seq<FunctionFacts>)
    requires ts != []
    ensures Signatures(ts) == Signatures(Init(ts)) + {SignatureOf(Last(ts))}
  {
    SignaturesShrink(ts);
    SignaturesGrow(ts);
  }

  lemma SignaturesShrink(ts: seq<FunctionFacts>)
    requires ts != []
    ensures Signatures(ts) <= Signatures(Init(ts)) + {SignatureOf(Last(ts))}
  {
    var init := Init(ts);
    forall x | x in Signatures(ts)
      ensures x in Signatures(init) + {SignatureOf(Last(ts))}
    {
      var i :| 0 <= i < |ts| && SignatureOf(ts[i]) == x;
      if i < |init| {
        assert init[i] == ts[i];
        assert x in Signatures(init);
      } else {
        assert ts[i] == Last(ts);
      }
    }
  }

  lemma SignaturesGrow(ts: seq<FunctionFacts>)
    requires ts != []
    ensures Signatures(Init(ts)) + {SignatureOf(Last(ts))} <= Signatures(ts)
  {
    var init := Init(ts);
    forall x | x in Signatures(init)
      ensures x in Signatures(ts)
    {
      var i :| 0 <= i < |init| && SignatureOf(init[i]) == x;
      assert SignatureOf(ts[i]) == x;
    }
    assert SignatureOf(ts[|ts| - 1]) in Signatures(ts);
  }

  lemma SeenBeforeLast(ts: seq<FunctionFacts>)
    requires ts != []
    ensures SeenBefore(ts, |ts| - 1) <==> SignatureOf(Last(ts)) in Signatures(Init(ts))
  {
    var init := Init(ts);
    if SeenBefore(ts, |ts| - 1) {
      var j :| 0 <= j < |ts| - 1 && SignatureOf(ts[j]) == SignatureOf(ts[|ts| - 1]);
      assert SignatureOf(init[j]) == SignatureOf(Last(ts));
    }
    if SignatureOf(Last(ts)) in Signatures(init) {
      var j :| 0 <= j < |init| && SignatureOf(init[j]) == SignatureOf(Last(ts));
      assert SignatureOf(ts[j]) == SignatureOf(ts[|ts| - 1]);
    }
  }

  /** Every test is either the first holder of its signature or flagged:
      the flagged tests number the tests less the distinct signatures. */
  lemma {:induction false} DuplicateCount(ts: seq<FunctionFacts>)
    ensures |Duplicates(ts)| + |Signatures(ts)| == |ts|
  {
    if ts == [] {
      assert Signatures(ts) == {};
    } else {
      DuplicateCount(Init(ts));
      SignaturesSnoc(ts);
      SeenBeforeLast(ts);
    }
  }

  /** The assertion count is zero exactly when every test lacks an assert,
      and it is at least the number of tests that have one. */
  lemma {:induction false} AssertionTotals(ts: seq<FunctionFacts>)
    ensures |WithoutAssertions(ts)| <= |ts|
    ensures NumAssertions(ts) >= |ts| - |WithoutAssertions(ts)|
    ensures NumAssertions(ts) == 0 <==> |WithoutAssertions(ts)| == |ts|
  {
    if ts != [] {
      AssertionTotals(Init(ts));
      AssertCountPositive(Last(ts).walk);
    }
  }

  lemma PickMember<T>(c: bool, x: T, y: T)
    ensures y in Pick(c, x) <==> c && y == x
  {
  }

  lemma SuggestionsMember(cutModuleName: string, cut: set<string>, m: Metrics, x: Suggestion)
    ensures x in Suggestions(cutModuleName, cut, m) <==>
            x in Pick(m.numTestFunctions == 0, AddTestFunctions)
            || x in Pick(!m.hasImports, AddImport(cutModuleName))
            || x in Pick(m.numAssertions == 0, AddAssertStatements)
            || x in Pick(m.testsWithoutAssertions != [], AddAssertionsTo(m.testsWithoutAssertions))
            || x in Pick(m.emptyTests != [], ImplementLogic(m.emptyTests))
            || x in Pick(cut != {} && cut - m.functionsTested != {}, AddTestsFor(cut - m.functionsTested))
            || x in Pick(DocstringRatio(m) < 0.5, AddDocstrings)
  {
  }

  /** Which suggestions are made, each exactly under its condition. */
  lemma SuggestionConditions(cutModuleName: string, cut: set<string>, m: Metrics)
    ensures var s := Suggestions(cutModuleName, cut, m);
            (AddTestFunctions in s <==> m.numTestFunctions == 0)
            && (AddImport(cutModuleName) in s <==> !m.hasImports)
            && (AddAssertStatements in s <==> m.numAssertions == 0)
            && (AddAssertionsTo(m.testsWithoutAssertions) in s <==> m.testsWithoutAssertions != [])
            && (ImplementLogic(m.emptyTests) in s <==> m.emptyTests != [])
            && (AddTestsFor(cut - m.functionsTested) in s <==> cut - m.functionsTested != {})
            && (AddDocstrings in s <==> DocstringRatio(m) < 0.5)
  {
    SuggestionsMember(cutModuleName, cut, m, AddTestFunctions);
    SuggestionsMember(cutModuleName, cut, m, AddImport(cutModuleName));
    SuggestionsMember(cutModuleName, cut, m, AddAssertStatements);
    SuggestionsMember(cutModuleName, cut, m, AddAssertionsTo(m.testsWithoutAssertions));
    SuggestionsMember(cutModuleName, cut, m, ImplementLogic(m.emptyTests));
    SuggestionsMember(cutModuleName, cut, m, AddTestsFor(cut - m.functionsTested));
    SuggestionsMember(cutModuleName, cut, m, AddDocstrings);
  }

  /** At a docstring ratio of exactly one half, the docstrings neither earn
      their point nor draw a suggestion. */
  lemma HalfDocumentedNeutral(cutModuleName: string, cut: set<string>, m: Metrics)
    requires m.numTestFunctions > 0 && DocstringRatio(m) == 0.5
    ensures QualityScore(m, |cut|) == QualityScore(m.(hasDocstrings := 0), |cut|)
    ensures AddDocstrings !in Suggestions(cutModuleName, cut, m)
  {
    SuggestionConditions(cutModuleName, cut, m);
  }
}
