/** The deterministic text and list routines of the test generators
    (impl/scripts/generate_collab.py and impl/scripts/generate_competitive.py,
    which carry identical copies of the shared helpers): de-duplication of
    collected test functions, code extraction from a model response, import
    detection, test-function selection over a parsed module, the decorator
    fallback of source slicing, role selection, argument checks and the
    assembly of the combined test file. Parsing is a parameter: a module is
    given as its parsed statements, or `None` for a syntax error. */
module TestMerge {
  import opened Wrappers
  import opened Text

  // ---------------------------------------------------------------------
  // deduplicate_test_functions

  /** A collected test function: its name and its source text. */
  type TestFunction = (string, string)

  /** `b` is a duplicate of the kept function `a`: same name, or the same code
      once whitespace is normalised. */
  predicate Clash(a: TestFunction, b: TestFunction)
  {
    a.0 == b.0 || Normalize(a.1) == Normalize(b.1)
  }

  /** `f` is kept after `kept`: no kept function clashes with it. (A name is
      only recorded in `seen_names` when its function is kept.) */
  predicate Admits(kept: seq<TestFunction>, f: TestFunction)
  {
    forall k :: 0 <= k < |kept| ==> !Clash(kept[k], f)
  }

  /** The `unique_functions` list after the loop has seen `fs`. */
  function Kept(fs: seq<TestFunction>): (kept: seq<TestFunction>)
    ensures |kept| <= |fs|
  {
    if fs == [] then []
    else
      var prev := Kept(fs[..|fs| - 1]);
      if Admits(prev, fs[|fs| - 1]) then prev + [fs[|fs| - 1]] else prev
  }

  function Codes(fs: seq<TestFunction>): (codes: seq<string>)
    ensures |codes| == |fs| && forall i :: 0 <= i < |fs| ==> codes[i] == fs[i].1
  {
    seq(|fs|, i requires 0 <= i < |fs| => fs[i].1)
  }

  /** The inner loop of `deduplicate_test_functions`: does a kept function
      have this normalised code? */
  method HasNormalizedCode(uniqueFunctions: seq<TestFunction>, normalizedCode: string) returns (isDuplicate: bool)
    ensures isDuplicate <==> exists k :: 0 <= k < |uniqueFunctions| && Normalize(uniqueFunctions[k].1) == normalizedCode
  {
    isDuplicate := false;
    var j := 0;
    while j < |uniqueFunctions|
      invariant 0 <= j <= |uniqueFunctions|
      invariant forall k :: 0 <= k < j ==> Normalize(uniqueFunctions[k].1) != normalizedCode
    {
      var normalizedExisting := Normalize(uniqueFunctions[j].1);
      if normalizedCode == normalizedExisting {
        isDuplicate := true;
        break;
      }
      j := j + 1;
    }
  }

  /** The names of `fs`: what `seen_names` holds. */
  function Names(fs: seq<TestFunction>): set<string>
  {
    set k | 0 <= k < |fs| :: fs[k].0
  }

  /** One step of the outer loop: a function whose name was seen, or whose
      normalised code was seen, is rejected; any other is kept. */
  lemma AdmitsByParts(kept: seq<TestFunction>, f: TestFunction)
    ensures Admits(kept, f) <==> f.0 !in Names(kept)
                                 && forall k :: 0 <= k < |kept| ==> Normalize(kept[k].1) != Normalize(f.1)
  {
    if f.0 in Names(kept) {
      var k :| 0 <= k < |kept| && kept[k].0 == f.0;
      assert Clash(kept[k], f);
    }
  }

  lemma NamesSnoc(kept: seq<TestFunction>, f: TestFunction)
    ensures Names(kept + [f]) == Names(kept) + {f.0}
  {
    var extended := kept + [f];
    assert extended[|kept|].0 == f.0;
    forall n | n in Names(extended) ensures n in Names(kept) + {f.0} {
      var k :| 0 <= k < |extended| && extended[k].0 == n;
      if k < |kept| {
        assert kept[k].0 == n;
      }
    }
    forall n | n in Names(kept) ensures n in Names(extended) {
      var k :| 0 <= k < |kept| && kept[k].0 == n;
      assert extended[k].0 == n;
    }
  }

  /** `deduplicate_test_functions(test_functions)` */
  method DeduplicateTestFunctions(testFunctions: seq<TestFunction>) returns (codes: seq<string>)
    ensures codes == Codes(Kept(testFunctions))
  {
    var seenNames: set<string> := {};
    var uniqueFunctions: seq<TestFunction> := [];
    var i := 0;
    while i < |testFunctions|
      invariant 0 <= i <= |testFunctions|
      invariant uniqueFunctions == Kept(testFunctions[..i])
      invariant seenNames == Names(uniqueFunctions)
    {
      assert testFunctions[..i + 1] == testFunctions[..i] + [testFunctions[i]];
      KeptSnoc(testFunctions[..i], testFunctions[i]);
      var (funcName, funcCode) := testFunctions[i];
      if funcName in seenNames {
        AdmitsByParts(uniqueFunctions, testFunctions[i]);
        i := i + 1;
        continue;
      }
      var isDuplicate := HasNormalizedCode(uniqueFunctions, Normalize(funcCode));
      AdmitsByParts(uniqueFunctions, testFunctions[i]);
      if !isDuplicate {
        NamesSnoc(uniqueFunctions, testFunctions[i]);
        seenNames := seenNames + {funcName};
        uniqueFunctions := uniqueFunctions + [(funcName, funcCode)];
      }
      i := i + 1;
    }
    assert testFunctions[..i] == testFunctions;
    codes := Codes(uniqueFunctions);
  }

  /** No two kept functions clash: names are distinct and so are the
      normalised codes. */
  lemma {:induction false} KeptDistinct(fs: seq<TestFunction>)
    ensures forall i, j :: 0 <= i < j < |Kept(fs)| ==> !Clash(Kept(fs)[i], Kept(fs)[j])
  {
    if fs != [] {
      KeptDistinct(fs[..|fs| - 1]);
    }
  }

  /** `kept` is the subsequence of `fs` at the increasing positions `idx`,
      and every entry of `fs` not taken clashes with one taken before it. */
  ghost predicate Chosen(fs: seq<TestFunction>, kept: seq<TestFunction>, idx: seq<nat>)
  {
    && |idx| == |kept|
    && (forall i :: 0 <= i < |idx| ==> idx[i] < |fs| && fs[idx[i]] == kept[i])
    && (forall i, j :: 0 <= i < j < |idx| ==> idx[i] < idx[j])
    && (forall j :: 0 <= j < |fs| && j !in idx ==>
          exists i :: 0 <= i < |idx| && idx[i] < j && Clash(fs[idx[i]], fs[j]))
  }

  lemma ChosenKeep(fs: seq<TestFunction>, kept: seq<TestFunction>, idx: seq<nat>, f: TestFunction)
    requires Chosen(fs, kept, idx)
    ensures Chosen(fs + [f], kept + [f], idx + [|fs|])
  {
    var fs', idx' := fs + [f], idx + [|fs|];
    forall j | 0 <= j < |fs'| && j !in idx'
      ensures exists i :: 0 <= i < |idx'| && idx'[i] < j && Clash(fs'[idx'[i]], fs'[j])
    {
      assert j != |fs| by {
        assert idx'[|idx|] == |fs|;
      }
      assert j !in idx by {
        assert forall i :: 0 <= i < |idx| ==> idx'[i] == idx[i];
      }
      var i :| 0 <= i < |idx| && idx[i] < j && Clash(fs[idx[i]], fs[j]);
      assert idx'[i] == idx[i] && fs'[idx[i]] == fs[idx[i]] && fs'[j] == fs[j];
    }
  }

  lemma ChosenReject(fs: seq<TestFunction>, kept: seq<TestFunction>, idx: seq<nat>, f: TestFunction)
    requires Chosen(fs, kept, idx)
    requires !Admits(kept, f)
    ensures Chosen(fs + [f], kept, idx)
  {
    var fs' := fs + [f];
    var k :| 0 <= k < |kept| && Clash(kept[k], f);
    forall j | 0 <= j < |fs'| && j !in idx
      ensures exists i :: 0 <= i < |idx| && idx[i] < j && Clash(fs'[idx[i]], fs'[j])
    {
      if j == |fs| {
        assert idx[k] < j && fs'[idx[k]] == kept[k] && fs'[j] == f;
      } else {
        var i :| 0 <= i < |idx| && idx[i] < j && Clash(fs[idx[i]], fs[j]);
        assert fs'[idx[i]] == fs[idx[i]] && fs'[j] == fs[j];
      }
    }
  }

  /** The kept functions are a subsequence of the input, taken in input
      order, and every entry left out clashes with one kept before it. */
  lemma {:induction false} KeptIndices(fs: seq<TestFunction>) returns (idx: seq<nat>)
    ensures Chosen(fs, Kept(fs), idx)
  {
    if fs == [] {
      idx := [];
    } else {
      var n := |fs| - 1;
      var front := fs[..n];
      var prior := KeptIndices(front);
      assert fs == front + [fs[n]];
      KeptSnoc(front, fs[n]);
      if Admits(Kept(front), fs[n]) {
        ChosenKeep(front, Kept(front), prior, fs[n]);
        idx := prior + [n];
      } else {
        ChosenReject(front, Kept(front), prior, fs[n]);
        idx := prior;
      }
    }
  }

  /** The first collected function is always kept, so de-duplication never
      empties a non-empty collection. */
  lemma {:induction false} KeptStartsWithFirst(fs: seq<TestFunction>)
    requires fs != []
    ensures Kept(fs) != [] && Kept(fs)[0] == fs[0]
  {
    if |fs| > 1 {
      KeptStartsWithFirst(fs[..|fs| - 1]);
      assert fs[..|fs| - 1][0] == fs[0];
    } else {
      assert fs[..0] == [];
    }
  }

  /** The loop step: one more collected function. */
  lemma KeptSnoc(fs: seq<TestFunction>, f: TestFunction)
    ensures Kept(fs + [f]) == if Admits(Kept(fs), f) then Kept(fs) + [f] else Kept(fs)
  {
    assert (fs + [f])[..|fs|] == fs;
  }

  lemma NormalizeLetter(c: char)
    requires 'a' <= c <= 'z'
    ensures Normalize([c]) == [c]
  {
    assert CollapseSpaces([c], false) == [c] by {
      assert [c][1..] == [];
    }
  }

  /** A function rejected for its code does not reserve its name: a later
      function of that name with different code is kept. */
  lemma RejectedCodeFreesName(a: TestFunction, b: TestFunction, c: TestFunction)
    requires a.0 != b.0 && Normalize(a.1) == Normalize(b.1)
    requires c.0 == b.0 && Normalize(c.1) != Normalize(a.1)
    ensures Kept([a, b, c]) == [a, c]
  {
    KeptSnoc([], a);
    assert [] + [a] == [a];
    KeptSnoc([a], b);
    assert !Admits([a], b) by {
      assert Clash([a][0], b);
    }
    assert [a] + [b] == [a, b];
    KeptSnoc([a, b], c);
    assert [a, b] + [c] == [a, b, c];
    assert Admits([a], c);
  }

  /** The same on `("test_a", "x")`, `("test_b", "x")`, `("test_b", "y")`. */
  lemma RejectedCodeKeepsNameFree()
    ensures Kept([("test_a", "x"), ("test_b", "x"), ("test_b", "y")]) == [("test_a", "x"), ("test_b", "y")]
  {
    NormalizeLetter('x');
    NormalizeLetter('y');
    assert "test_a" != "test_b";
    RejectedCodeFreesName(("test_a", "x"), ("test_b", "x"), ("test_b", "y"));
  }

  // ---------------------------------------------------------------------
  // check_import_exists

  /** The four import forms, in the order they are tried. */
  function ImportPatterns(cutModule: string): seq<string>
  {
    ["from impl.cut import " + cutModule, "from impl.cut." + cutModule + " import",
     "import " + cutModule, "import impl.cut." + cutModule]
  }

  /** `check_import_exists(code, cut_module)`: a literal substring test per
      pattern, true at the first that occurs. */
  function CheckImportExists(code: string, cutModule: string): (r: bool)
    ensures r <==> exists k :: 0 <= k < 4 && Contains(code, ImportPatterns(cutModule)[k])
  {
    AnyOccurs(code, ImportPatterns(cutModule))
  }

  function AnyOccurs(code: string, patterns: seq<string>): (r: bool)
    ensures r <==> exists k :: 0 <= k < |patterns| && Contains(code, patterns[k])
  {
    if patterns == [] then false
    else Contains(code, patterns[0]) || AnyOccurs(code, patterns[1..])
  }

  /** The line the combine step prepends. */
  function ImportLine(cutModule: string): string
  {
    "from impl.cut import " + cutModule + "\n\n"
  }

  /** The prepended line is itself recognised as an import. */
  lemma ImportLineRecognised(cutModule: string, rest: string)
    ensures CheckImportExists(ImportLine(cutModule) + rest, cutModule)
  {
    var p := ImportPatterns(cutModule)[0];
    var s := ImportLine(cutModule) + rest;
    assert s[..|p|] == p;
    OccursContains(s, p, 0);
  }

  /** The first pattern is redundant: it contains the third. */
  lemma FirstPatternImpliesThird(code: string, cutModule: string)
    requires Contains(code, ImportPatterns(cutModule)[0])
    ensures Contains(code, ImportPatterns(cutModule)[2])
  {
    var i := Find(code, ImportPatterns(cutModule)[0]).value;
    var third := ImportPatterns(cutModule)[2];
    assert code[i + 14..i + 14 + |third|] == third;
    OccursContains(code, third, i + 14);
  }

  // ---------------------------------------------------------------------
  // extract_python_code_from_response

  /** The end of the whitespace run starting at `i`. */
  function SpaceRunEnd(s: string, i: nat): (e: nat)
    requires i <= |s|
    ensures i <= e <= |s| && (e == |s| || !IsSpace(s[e]))
    ensures (forall k :: i <= k < e ==> IsSpace(s[k]))
    decreases |s| - i
  {
    if i < |s| && IsSpace(s[i]) then SpaceRunEnd(s, i + 1) else i
  }

  /** The last newline in `s[lo..hi]`. */
  function LastNewline(s: string, lo: nat, hi: nat): (r: Option<nat>)
    requires lo <= hi <= |s|
    ensures r.Some? ==> lo <= r.value < hi && s[r.value] == '\n'
                        && (forall k :: r.value < k < hi ==> s[k] != '\n')
    ensures r.None? ==> (forall k :: lo <= k < hi ==> s[k] != '\n')
    decreases hi
  {
    if hi == lo then None
    else if s[hi - 1] == '\n' then Some(hi - 1)
    else LastNewline(s, lo, hi - 1)
  }

  /** The body the pattern ```` ```(?:python)?\s*\n(.*?)``` ```` captures
      when its match starts at a fence at `p`: the optional language tag,
      then a whitespace run that must hold a newline (the body starts after
      the last one), then everything up to the next fence. */
  function FenceAt(s: string, p: nat): Option<string>
    requires OccursAt(s, "```", p)
  {
    var q := if StartsWith(s[p + 3..], "python") then p + 9 else p + 3;
    var w := SpaceRunEnd(s, q);
    match LastNewline(s, q, w)
    case None => None
    case Some(nl) =>
      match FindFrom(s, "```", nl + 1)
      case None => None
      case Some(e) => Some(s[nl + 1..e])
  }

  /** `re.findall(...)[0]`: the body of the leftmost match, if any. */
  function FirstFence(s: string, from: nat): Option<string>
    decreases |s| - from
  {
    if from + 3 > |s| then None
    else if OccursAt(s, "```", from) && FenceAt(s, from).Some? then FenceAt(s, from)
    else FirstFence(s, from + 1)
  }

  /** A markdown line the fallback drops. */
  predicate IsMarker(line: string)
  {
    var stripped := Strip(line);
    StartsWith(stripped, "```") || StartsWith(stripped, "---") || StartsWith(stripped, "===")
  }

  /** The `code_lines` the fallback loop keeps. */
  function CodeLines(lines: seq<string>): seq<string>
  {
    if lines == [] then []
    else CodeLines(lines[..|lines| - 1]) + (if IsMarker(lines[|lines| - 1]) then [] else [lines[|lines| - 1]])
  }

  lemma CodeLinesSnoc(lines: seq<string>, line: string)
    ensures CodeLines(lines + [line]) == CodeLines(lines) + if IsMarker(line) then [] else [line]
  {
    assert (lines + [line])[..|lines|] == lines;
  }

  /** What `extract_python_code_from_response(response)` returns. */
  function ExtractedCode(response: string): string
  {
    match FirstFence(response, 0)
    case Some(body) => Strip(body)
    case None => Strip(Join(CodeLines(Split(response, '\n')), "\n"))
  }

  /** `extract_python_code_from_response(response)` */
  method ExtractPythonCodeFromResponse(response: string) returns (code: string)
    ensures code == ExtractedCode(response)
  {
    var matches := FirstFence(response, 0);
    if matches.Some? {
      return Strip(matches.value);
    }
    code := StripMarkdown(response);
  }

  /** The fallback of `extract_python_code_from_response`: drop the markdown
      marker lines and strip what is left. */
  method StripMarkdown(response: string) returns (code: string)
    ensures code == Strip(Join(CodeLines(Split(response, '\n')), "\n"))
  {
    var lines := Split(response, '\n');
    var codeLines: seq<string> := [];
    var i := 0;
    while i < |lines|
      invariant 0 <= i <= |lines|
      invariant codeLines == CodeLines(lines[..i])
    {
      assert lines[..i + 1] == lines[..i] + [lines[i]];
      CodeLinesSnoc(lines[..i], lines[i]);
      var stripped := Strip(lines[i]);
      if !(StartsWith(stripped, "```") || StartsWith(stripped, "---") || StartsWith(stripped, "===")) {
        codeLines := codeLines + [lines[i]];
      }
      i := i + 1;
    }
    assert lines[..i] == lines;
    code := Strip(Join(codeLines, "\n"));
  }

  /** The fallback keeps exactly the lines that are not markdown markers. */
  lemma {:induction false} CodeLinesExactly(lines: seq<string>)
    ensures forall l :: l in CodeLines(lines) <==> l in lines && !IsMarker(l)
  {
    if lines != [] {
      var front := lines[..|lines| - 1];
      CodeLinesExactly(front);
      assert lines == front + [lines[|lines| - 1]];
    }
  }

  /** A fenced block comes back as its body, stripped, when the body starts
      with a non-whitespace character and holds no backtick. */
  lemma FencedBlockExtracted(tag: string, body: string, after: string)
    requires tag == "python" || tag == ""
    requires body != [] && !IsSpace(body[0]) && '`' !in body
    ensures ExtractedCode("```" + tag + "\n" + body + "```" + after) == Strip(body)
  {
    var s := "```" + tag + "\n" + body + "```" + after;
    FenceAtOpening(s, tag, body, after);
    assert FirstFence(s, 0) == Some(body);
  }

  /** The match starting at the opening fence captures the body. */
  lemma FenceAtOpening(s: string, tag: string, body: string, after: string)
    requires tag == "python" || tag == ""
    requires body != [] && !IsSpace(body[0]) && '`' !in body
    requires s == "```" + tag + "\n" + body + "```" + after
    ensures OccursAt(s, "```", 0) && FenceAt(s, 0) == Some(body)
  {
    var q := 3 + |tag|;
    FenceShape(s, tag, body, after);
    FenceOpening(s, tag);
    NewlineRun(s, q);
    FenceClosing(s, q + 1, body, after);
    FenceAtParts(s, q, body);
  }

  /** Where the parts of an opening fence, its body and the closing fence lie. */
  lemma FenceShape(s: string, tag: string, body: string, after: string)
    requires body != []
    requires s == "```" + tag + "\n" + body + "```" + after
    ensures OccursAt(s, "```", 0)
    ensures 4 + |tag| < |s| && s[3..3 + |tag|] == tag && s[3 + |tag|] == '\n'
    ensures s[4 + |tag|] == body[0] && s[4 + |tag|..] == body + "```" + after
  {
    var q := 3 + |tag|;
    var head, tail := "```" + tag + "\n", body + "```" + after;
    assert s == head + tail;
    assert s[..q + 1] == head && s[q + 1..] == tail;
    assert head[..3] == "```" && head[3..q] == tag;
  }

  /** `FenceAt` from the positions of its parts. */
  lemma FenceAtParts(s: string, q: nat, body: string)
    requires OccursAt(s, "```", 0)
    requires (if StartsWith(s[3..], "python") then 9 else 3) == q
    requires SpaceRunEnd(s, q) == q + 1 && LastNewline(s, q, q + 1) == Some(q)
    requires FindFrom(s, "```", q + 1) == Some(q + 1 + |body|) && q + 1 + |body| <= |s|
    requires s[q + 1..q + 1 + |body|] == body
    ensures FenceAt(s, 0) == Some(body)
  {
  }

  lemma FenceOpening(s: string, tag: string)
    requires tag == "python" || tag == ""
    requires 4 + |tag| <= |s| && s[3..3 + |tag|] == tag && s[3 + |tag|] == '\n'
    ensures (if StartsWith(s[3..], "python") then 9 else 3) == 3 + |tag|
  {
    if tag == "" {
      assert s[3..][0] == '\n';
    } else {
      assert s[3..][..6] == "python";
    }
  }

  lemma NewlineRun(s: string, q: nat)
    requires q + 1 < |s| && s[q] == '\n' && !IsSpace(s[q + 1])
    ensures SpaceRunEnd(s, q) == q + 1
    ensures LastNewline(s, q, q + 1) == Some(q)
  {
    assert SpaceRunEnd(s, q + 1) == q + 1;
  }

  lemma FenceClosing(s: string, start: nat, body: string, after: string)
    requires '`' !in body
    requires start <= |s| && s[start..] == body + "```" + after
    ensures FindFrom(s, "```", start) == Some(start + |body|)
    ensures s[start..start + |body|] == body
  {
    SuffixParts(s, start, body, "```", after);
    NoFenceIn(s, start, body);
    FindFromFirst(s, "```", start, start + |body|);
  }

  /** A suffix made of `body`, `mid` and `after` holds `body` where it
      starts and `mid` right after it. */
  lemma SuffixParts(s: string, start: nat, body: string, mid: string, after: string)
    requires start <= |s| && s[start..] == body + mid + after
    ensures s[start..start + |body|] == body
    ensures OccursAt(s, mid, start + |body|)
  {
    var e := start + |body|;
    var t := s[start..];
    assert t[..|body|] == body && t[|body|..|body| + |mid|] == mid;
    assert s[start..e] == t[..|body|];
    assert s[e..e + |mid|] == t[|body|..|body| + |mid|];
  }

  /** A body without a backtick holds no fence. */
  lemma NoFenceIn(s: string, start: nat, body: string)
    requires '`' !in body
    requires start + |body| <= |s| && s[start..start + |body|] == body
    ensures forall j :: start <= j < start + |body| ==> !OccursAt(s, "```", j)
  {
    forall j | start <= j < start + |body|
      ensures !OccursAt(s, "```", j)
    {
      assert s[j] == s[start..start + |body|][j - start];
    }
  }

  // ---------------------------------------------------------------------
  // extract_test_functions and validate_test_code

  /** A statement of a parsed module, reduced to what the routines inspect:
      function definitions (name, first and last line, body), class
      definitions, and any other node through which statements nest (an
      `if`, `for`, `with` or `try`, an `except` handler, a `match` case),
      with the statements among its children in field order. */
  datatype Stmt =
    | FunctionDef(name: string, lineno: nat, endLineno: nat, body: seq<Stmt>)
    | ClassDef(name: string, body: seq<Stmt>)
    | Compound(body: seq<Stmt>)

  predicate IsTestDef(s: Stmt)
  {
    s.FunctionDef? && StartsWith(s.name, "test_")
  }

  /** The module-level test definitions, in order. */
  function TopLevelTests(body: seq<Stmt>): seq<Stmt>
  {
    if body == [] then []
    else TopLevelTests(body[..|body| - 1]) + (if IsTestDef(body[|body| - 1]) then [body[|body| - 1]] else [])
  }

  /** `extract_test_functions(code)`; `parsed` is `ast.parse(code).body`,
      or `None` on a syntax error. */
  method ExtractTestFunctions(parsed: Option<seq<Stmt>>) returns (tests: seq<Stmt>)
    ensures tests == if parsed.None? then [] else TopLevelTests(parsed.value)
  {
    if parsed.None? {
      return [];
    }
    var body := parsed.value;
    tests := [];
    var i := 0;
    while i < |body|
      invariant 0 <= i <= |body|
      invariant tests == TopLevelTests(body[..i])
    {
      assert body[..i + 1][..i] == body[..i];
      var node := body[i];
      if node.FunctionDef? && StartsWith(node.name, "test_") {
        tests := tests + [node];
      }
      i := i + 1;
    }
    assert body[..i] == body;
  }

  /** Exactly the module-level definitions named `test_*` are extracted. */
  lemma {:induction false} TopLevelTestsExactly(body: seq<Stmt>)
    ensures forall s :: s in TopLevelTests(body) <==> s in body && IsTestDef(s)
  {
    if body != [] {
      var front := body[..|body| - 1];
      TopLevelTestsExactly(front);
      assert body == front + [body[|body| - 1]];
    }
  }

  /** Every statement of the module, nested ones included, depth first:
      each statement is followed by the statements nested in it. */
  function AllStatements(body: seq<Stmt>): seq<Stmt>
    decreases body, 1
  {
    if body == [] then [] else Nested(body[0]) + AllStatements(body[1..])
  }

  function Nested(s: Stmt): seq<Stmt>
    decreases s, 0
  {
    [s] + AllStatements(s.body)
  }

  /** The number of statements in `s`, itself included. */
  function Size(s: Stmt): nat
    decreases s, 0
  {
    1 + SizeAll(s.body)
  }

  function SizeAll(q: seq<Stmt>): nat
    decreases q, 1
  {
    if q == [] then 0 else Size(q[0]) + SizeAll(q[1..])
  }

  lemma {:induction false} SizeAllAppend(a: seq<Stmt>, b: seq<Stmt>)
    ensures SizeAll(a + b) == SizeAll(a) + SizeAll(b)
    decreases |a|
  {
    if a != [] {
      assert (a + b)[0] == a[0] && (a + b)[1..] == a[1..] + b;
      SizeAllAppend(a[1..], b);
    } else {
      assert a + b == b;
    }
  }

  /** `ast.walk` from the queue `q`: take the first node, append its
      children to the queue, go on. The module's own node comes first and
      is no definition, so a module is walked from its body. */
  function Walk(q: seq<Stmt>): seq<Stmt>
    decreases SizeAll(q)
  {
    if q == [] then []
    else
      SizeAllAppend(q[1..], q[0].body);
      assert SizeAll(q) == 1 + SizeAll(q[0].body) + SizeAll(q[1..]);
      [q[0]] + Walk(q[1..] + q[0].body)
  }

  /** Breadth first: the queue is yielded before anything nested in it. */
  lemma {:induction false} WalkStartsWithQueue(q: seq<Stmt>)
    ensures |q| <= |Walk(q)| && Walk(q)[..|q|] == q
    decreases SizeAll(q)
  {
    if q != [] {
      var q' := q[1..] + q[0].body;
      SizeAllAppend(q[1..], q[0].body);
      assert SizeAll(q) == 1 + SizeAll(q[0].body) + SizeAll(q[1..]);
      WalkStartsWithQueue(q');
      assert Walk(q')[..|q| - 1] == q'[..|q| - 1] == q[1..];
      assert Walk(q)[..|q|] == [q[0]] + Walk(q')[..|q| - 1];
    }
  }

  lemma {:induction false} AllStatementsAppend(a: seq<Stmt>, b: seq<Stmt>)
    ensures AllStatements(a + b) == AllStatements(a) + AllStatements(b)
    decreases |a|
  {
    if a != [] {
      var t := a + b;
      assert t[0] == a[0];
      assert t[1..] == a[1..] + b;
      AllStatementsAppend(a[1..], b);
    } else {
      assert a + b == b;
    }
  }

  /** The walk reaches the same statements as the depth-first listing, each
      as often: only the order differs. */
  lemma {:induction false} WalkPermutesDepthFirst(q: seq<Stmt>)
    ensures multiset(Walk(q)) == multiset(AllStatements(q))
    decreases SizeAll(q)
  {
    if q != [] {
      var q' := q[1..] + q[0].body;
      SizeAllAppend(q[1..], q[0].body);
      assert SizeAll(q) == 1 + SizeAll(q[0].body) + SizeAll(q[1..]);
      WalkPermutesDepthFirst(q');
      AllStatementsAppend(q[1..], q[0].body);
      assert AllStatements(q) == [q[0]] + AllStatements(q[0].body) + AllStatements(q[1..]);
    }
  }

  /** The names of the test definitions among `stmts`. */
  function TestNames(stmts: seq<Stmt>): seq<string>
  {
    if stmts == [] then []
    else TestNames(stmts[..|stmts| - 1]) + (if IsTestDef(stmts[|stmts| - 1]) then [stmts[|stmts| - 1].name] else [])
  }

  /** The verdict of `validate_test_code`; a valid verdict carries the
      test names its message lists, in the order of the walk. */
  datatype Validation = InvalidSyntax | NoTestFunctions | ValidCode(names: seq<string>)

  function Validated(parsed: Option<seq<Stmt>>): Validation
  {
    match parsed
    case None => InvalidSyntax
    case Some(body) =>
      var names := TestNames(Walk(body));
      if names == [] then NoTestFunctions else ValidCode(names)
  }

  /** `validate_test_code(code)`: the flag and the verdict behind the message. */
  method ValidateTestCode(parsed: Option<seq<Stmt>>) returns (isValid: bool, verdict: Validation)
    ensures verdict == Validated(parsed)
    ensures isValid <==> verdict.ValidCode?
  {
    if parsed.None? {
      return false, InvalidSyntax;
    }
    var walk := Walk(parsed.value);
    var testFunctions: seq<string> := [];
    var i := 0;
    while i < |walk|
      invariant 0 <= i <= |walk|
      invariant testFunctions == TestNames(walk[..i])
    {
      assert walk[..i + 1][..i] == walk[..i];
      var node := walk[i];
      if node.FunctionDef? && StartsWith(node.name, "test_") {
        testFunctions := testFunctions + [node.name];
      }
      i := i + 1;
    }
    assert walk[..i] == walk;
    if testFunctions == [] {
      return false, NoTestFunctions;
    }
    return true, ValidCode(testFunctions);
  }

  lemma {:induction false} TestNamesAppend(a: seq<Stmt>, b: seq<Stmt>)
    ensures TestNames(a + b) == TestNames(a) + TestNames(b)
    decreases |b|
  {
    if b == [] {
      assert a + b == a;
    } else {
      var b' := b[..|b| - 1];
      assert (a + b)[..|a + b| - 1] == a + b';
      TestNamesAppend(a, b');
    }
  }

  /** A module-level test definition is seen by the walk too. */
  lemma TopLevelTestIsWalked(body: seq<Stmt>, k: nat)
    requires k < |body| && IsTestDef(body[k])
    ensures TestNames(Walk(body)) != []
  {
    WalkStartsWithQueue(body);
    var w := Walk(body);
    TestNamesAppend(w[..k + 1], w[k + 1..]);
    assert w[..k + 1] + w[k + 1..] == w;
    assert w[..k + 1][k] == body[k];
  }

  /** Code from which tests are extracted validates. */
  lemma ExtractedTestsValidate(parsed: Option<seq<Stmt>>)
    requires parsed.Some? && TopLevelTests(parsed.value) != []
    ensures Validated(parsed).ValidCode?
  {
    TopLevelTestsExactly(parsed.value);
    var s := TopLevelTests(parsed.value)[0];
    assert s in TopLevelTests(parsed.value);
    var k :| 0 <= k < |parsed.value| && parsed.value[k] == s;
    TopLevelTestIsWalked(parsed.value, k);
  }

  /** The converse fails: a test method inside a class validates, yet
      nothing is extracted from it. */
  lemma NestedTestNotExtracted()
    ensures var parsed := Some([ClassDef("TestCalc", [FunctionDef("test_add", 2, 3, [])])]);
            Validated(parsed).ValidCode? && TopLevelTests(parsed.value) == []
  {
    var inner := FunctionDef("test_add", 2, 3, []);
    var cls := ClassDef("TestCalc", [inner]);
    assert StartsWith(inner.name, "test_");
    WalkOfClass(cls, inner, []);
    assert TestNames([cls]) == [] by {
      assert [cls][..0] == [];
    }
    assert TestNames([cls, inner]) == ["test_add"] by {
      assert [cls, inner][..1] == [cls];
      assert [cls, inner][1] == inner;
    }
    assert TopLevelTests([cls]) == [] by {
      assert [cls][..0] == [];
    }
  }

  /** A class holding one method, followed by the statements `rest` with
      nothing nested in them: the class's method is walked after `rest`. */
  lemma WalkOfClass(cls: Stmt, inner: Stmt, rest: seq<Stmt>)
    requires cls.body == [inner] && inner.body == []
    requires forall s :: s in rest ==> s.body == []
    ensures Walk([cls] + rest) == [cls] + rest + [inner]
  {
    WalkHead(cls, rest);
    WalkFlat(rest + [inner]);
  }

  lemma WalkHead(s: Stmt, rest: seq<Stmt>)
    ensures Walk([s] + rest) == [s] + Walk(rest + s.body)
  {
    var q := [s] + rest;
    assert q[0] == s && q[1..] == rest;
  }

  /** Statements with nothing nested in them are walked as they stand. */
  lemma {:induction false} WalkFlat(q: seq<Stmt>)
    requires forall s :: s in q ==> s.body == []
    ensures Walk(q) == q
    decreases |q|
  {
    if q != [] {
      assert q[0] in q;
      assert q[1..] + q[0].body == q[1..];
      assert forall s :: s in q[1..] ==> s in q;
      WalkFlat(q[1..]);
    }
  }

  /** The walk is breadth first: for a class holding `test_x` followed by a
      module-level `test_y`, the message lists `test_y` before `test_x`. */
  lemma ClassMethodListedAfterModuleTest()
    ensures Validated(Some([ClassDef("TestA", [FunctionDef("test_x", 2, 2, [])]), FunctionDef("test_y", 3, 3, [])]))
            == ValidCode(["test_y", "test_x"])
  {
    var x := FunctionDef("test_x", 2, 2, []);
    var y := FunctionDef("test_y", 3, 3, []);
    var cls := ClassDef("TestA", [x]);
    WalkOfClass(cls, x, [y]);
    assert [cls] + [y] == [cls, y];
    assert StartsWith(x.name, "test_") && StartsWith(y.name, "test_");
    var w := [cls, y, x];
    assert TestNames([cls]) == [] by {
      assert [cls][..0] == [];
    }
    assert TestNames([cls, y]) == ["test_y"] by {
      assert [cls, y][..1] == [cls];
    }
    assert w[..2] == [cls, y];
  }

  // ---------------------------------------------------------------------
  // get_function_source_code

  predicate IsDecorator(line: string)
  {
    StartsWith(Strip(line), "@")
  }

  /** Which lines are decorator lines. */
  function DecoratorFlags(lines: seq<string>): (flags: seq<bool>)
    ensures |flags| == |lines| && forall k :: 0 <= k < |lines| ==> flags[k] == IsDecorator(lines[k])
  {
    seq(|lines|, k requires 0 <= k < |lines| => IsDecorator(lines[k]))
  }

  /** The backward decorator scan from index `i` with `actual` the current
      `actual_start`: an index past the end is skipped, a decorator line
      moves the start up, any other line stops the scan. */
  function ScanUp(flags: seq<bool>, i: int, actual: nat): nat
    decreases i + 1
  {
    if i < 0 then actual
    else if i < |flags| then (if flags[i] then ScanUp(flags, i - 1, i) else actual)
    else ScanUp(flags, i - 1, actual)
  }

  /** `actual_start` for a definition starting on line index `start`. */
  function DecoratorStart(lines: seq<string>, start: nat): nat
  {
    ScanUp(DecoratorFlags(lines), start - 1, start)
  }

  /** `lines[a:b]` for non-negative bounds. */
  function Slice(lines: seq<string>, a: nat, b: nat): (r: seq<string>)
    ensures |r| <= |lines|
  {
    var a' := if a < |lines| then a else |lines|;
    var b' := if b < |lines| then b else |lines|;
    if b' <= a' then [] else lines[a'..b']
  }

  /** `get_function_source_code(func_node, source_code)`: `segment` is what
      `ast.get_source_segment` gives (`None` if it raised); an empty or
      missing segment falls back to slicing the source by line numbers,
      extended upward over decorator lines. On Python 3.8 and later every
      definition carries `end_lineno`, the bound used here. */
  method GetFunctionSourceCode(node: Stmt, sourceCode: string, segment: Option<string>) returns (code: string)
    requires node.FunctionDef? && node.lineno >= 1
    ensures segment.Some? && segment.value != [] ==> code == segment.value
    ensures !(segment.Some? && segment.value != []) ==>
              var lines := Split(sourceCode, '\n');
              code == Join(Slice(lines, DecoratorStart(lines, node.lineno - 1), node.endLineno), "\n")
  {
    if segment.Some? && segment.value != [] {
      return segment.value;
    }
    var lines := Split(sourceCode, '\n');
    ghost var flags := DecoratorFlags(lines);
    var startLine: nat := node.lineno - 1;
    var actualStart: nat := startLine;
    var i := startLine - 1;
    while i >= 0
      invariant -1 <= i < startLine
      invariant ScanUp(flags, i, actualStart) == DecoratorStart(lines, startLine)
      decreases i + 1
    {
      if i < |lines| {
        var stripped := Strip(lines[i]);
        if StartsWith(stripped, "@") {
          actualStart := i;
        } else {
          break;
        }
      }
      i := i - 1;
    }
    var endLine := node.endLineno;
    code := Join(Slice(lines, actualStart, endLine), "\n");
  }

  lemma {:induction false} ScanUpDecorated(flags: seq<bool>, i: int, actual: nat)
    requires -1 <= i && i + 1 == actual && actual < |flags| && flags[actual]
    ensures var a := ScanUp(flags, i, actual);
            a <= actual
            && (forall k :: a <= k <= actual ==> flags[k])
            && (a > 0 ==> !flags[a - 1])
    decreases i + 1
  {
    if i >= 0 && flags[i] {
      ScanUpDecorated(flags, i - 1, i);
    }
  }

  /** The decorator run the scan takes, for `flags` the decorator flags of
      the lines and `i` the next index to examine above the definition on
      index `start`: every existing line from the computed start up to the
      definition is a decorator, and the first line examined above the run
      is not, so the run is taken whole. */
  lemma {:induction false} DecoratorRun(flags: seq<bool>, i: int, start: nat)
    requires -1 <= i < start
    requires i + 1 == start || |flags| <= i + 1
    ensures var a := ScanUp(flags, i, start);
            var top := if a < start then a else (if start < |flags| then start else |flags|);
            a <= start && (a < start ==> a < |flags|)
            && (forall k :: a <= k < start && k < |flags| ==> flags[k])
            && (top > 0 ==> !flags[top - 1])
    decreases i + 1
  {
    if i >= 0 {
      if i < |flags| {
        if flags[i] {
          ScanUpDecorated(flags, i - 1, i);
        }
      } else {
        DecoratorRun(flags, i - 1, start);
      }
    }
  }

  // ---------------------------------------------------------------------
  // get_default_role_templates and the argument checks

  /** The errors the generators raise. */
  datatype GenerationError = ValueError(message: string) | FileNotFoundError(path: string)

  /** The default roles in priority order. */
  const DefaultRoles: seq<string> := ["tester_edge_cases.txt", "tester_boundary.txt", "tester_integration.txt"]

  /** The first of `names` that is not among the files present. */
  function FirstMissing(names: seq<string>, present: set<string>): (r: Option<string>)
    ensures r.None? <==> forall k :: 0 <= k < |names| ==> names[k] in present
    ensures r.Some? ==> r.value in names && r.value !in present
  {
    if names == [] then None
    else if names[0] !in present then Some(names[0])
    else FirstMissing(names[1..], present)
  }

  /** `get_default_role_templates(num_agents)`, with `present` the role
      files that exist; the result names the files in the roles directory. */
  function DefaultRoleTemplates(numAgents: int, present: set<string>): (r: Result<seq<string>, GenerationError>)
    ensures (numAgents < 1 || numAgents > 3) ==> r.Failure? && r.error.ValueError?
    ensures r.Success? <==> 1 <= numAgents <= 3 && forall k :: 0 <= k < numAgents ==> DefaultRoles[k] in present
    ensures r.Success? ==> r.value == DefaultRoles[..numAgents]
    ensures r.Failure? && r.error.FileNotFoundError? ==> r.error.path in DefaultRoles && r.error.path !in present
  {
    if numAgents < 1 then
      Failure(ValueError("Number of agents must be at least 1, got " + IntToString(numAgents)))
    else if numAgents > 3 then
      Failure(ValueError("Maximum 3 default role templates available, requested " + IntToString(numAgents)
                         + ". Use --prompt-roles to specify custom roles."))
    else
      match FirstMissing(DefaultRoles[..numAgents], present)
      case Some(name) => Failure(FileNotFoundError(name))
      case None => Success(DefaultRoles[..numAgents])
  }

  /** The input checks of `generate_collab_tests`. */
  function CollabArgumentCheck(numAgents: int, numTests: int): (r: Option<GenerationError>)
    ensures r.None? <==> numAgents >= 1 && numTests >= 1
    ensures r.Some? ==> r.value.ValueError?
  {
    if numAgents < 1 then Some(ValueError("Number of agents must be at least 1, got " + IntToString(numAgents)))
    else if numTests < 1 then Some(ValueError("Number of tests must be at least 1, got " + IntToString(numTests)))
    else None
  }

  /** The competition modes `generate_competitive_tests` accepts. */
  const CompetitionModes: seq<string> := ["adversarial", "diversity", "coverage"]

  /** The input checks of `generate_competitive_tests`. */
  function CompetitiveArgumentCheck(numAgents: int, numTests: int, mode: string): (r: Option<GenerationError>)
    ensures r.None? <==> numAgents >= 2 && numTests >= 1 && mode in CompetitionModes
    ensures r.Some? ==> r.value.ValueError?
  {
    if numAgents < 2 then
      Some(ValueError("Competitive generation requires at least 2 agents, got " + IntToString(numAgents)))
    else if numTests < 1 then
      Some(ValueError("Number of tests must be at least 1, got " + IntToString(numTests)))
    else if mode !in CompetitionModes then
      Some(ValueError("Invalid competition_mode: " + mode + ". Must be one of: adversarial, diversity, coverage"))
    else None
  }

  // ---------------------------------------------------------------------
  // format_existing_tests

  /** `format_existing_tests(test_functions)` */
  method FormatExistingTests(testFunctions: seq<TestFunction>) returns (formatted: string)
    ensures formatted == if testFunctions == [] then "# No existing tests"
                         else Strip(Join(Codes(testFunctions), "\n\n"))
  {
    if testFunctions == [] {
      return "# No existing tests";
    }
    ghost var codes := Codes(testFunctions);
    var codeParts: seq<string> := [];
    var i := 0;
    while i < |testFunctions|
      invariant 0 <= i <= |testFunctions|
      invariant Concat(codeParts) == if i == 0 then "" else Join(codes[..i], "\n\n") + "\n\n"
    {
      var (_, funcCode) := testFunctions[i];
      assert funcCode == codes[i];
      PartsStep(codes, i, codeParts);
      codeParts := codeParts + [funcCode] + ["\n\n"];
      i := i + 1;
    }
    assert codes[..i] == codes;
    StripAppendSpace(Join(codes, "\n\n"), "\n\n");
    formatted := Strip(Concat(codeParts));
  }

  /** The loop step of `format_existing_tests`: one more code and separator. */
  lemma PartsStep(codes: seq<string>, i: nat, parts: seq<string>)
    requires i < |codes|
    requires Concat(parts) == if i == 0 then "" else Join(codes[..i], "\n\n") + "\n\n"
    ensures Concat(parts + [codes[i]] + ["\n\n"]) == Join(codes[..i + 1], "\n\n") + "\n\n"
  {
    ConcatSnoc(parts, codes[i]);
    ConcatSnoc(parts + [codes[i]], "\n\n");
    if i > 0 {
      JoinSnoc(codes[..i], codes[i], "\n\n");
      assert codes[..i + 1] == codes[..i] + [codes[i]];
    } else {
      assert codes[..1] == [codes[i]];
    }
  }

  // ---------------------------------------------------------------------
  // the combine step of generate_collab_tests / generate_competitive_tests

  /** The import line is prepended exactly when the first function lacks an
      import of the module. */
  function ImportPrefix(unique: seq<string>, cutModule: string): string
  {
    if unique != [] && !CheckImportExists(unique[0], cutModule) then ImportLine(cutModule) else ""
  }

  /** The combined test file: the optional import line, then the functions
      separated by one blank line, stripped. */
  function Combined(unique: seq<string>, cutModule: string): string
  {
    Strip(ImportPrefix(unique, cutModule) + Join(unique, "\n\n"))
  }

  /** What `combined_code_parts` joins to after `i` functions. */
  ghost function Assembled(prefix: string, unique: seq<string>, i: nat): string
    requires i <= |unique|
  {
    prefix + Join(unique[..i], "\n\n") + (if 0 < i < |unique| then "\n\n" else "")
  }

  lemma AssembledStep(prefix: string, unique: seq<string>, i: nat)
    requires i < |unique|
    ensures Assembled(prefix, unique, i + 1)
            == Assembled(prefix, unique, i) + unique[i] + (if i + 1 < |unique| then "\n\n" else "")
  {
    assert unique[..i + 1] == unique[..i] + [unique[i]];
    if i > 0 {
      JoinSnoc(unique[..i], unique[i], "\n\n");
    } else {
      assert unique[..0] == [];
    }
  }

  /** The loop that fills `combined_code_parts`, then `''.join(...).strip()`. */
  method CombineTestFunctions(unique: seq<string>, cutModule: string) returns (finalTestCode: string)
    ensures finalTestCode == Combined(unique, cutModule)
  {
    var combinedCodeParts: seq<string> := [];
    if unique != [] && !CheckImportExists(unique[0], cutModule) {
      combinedCodeParts := combinedCodeParts + [ImportLine(cutModule)];
    }
    ghost var prefix := ImportPrefix(unique, cutModule);
    assert Concat(combinedCodeParts) == prefix by {
      if combinedCodeParts != [] {
        assert combinedCodeParts[1..] == [];
      }
    }
    assert unique[..0] == [];
    var i := 0;
    while i < |unique|
      invariant 0 <= i <= |unique|
      invariant Concat(combinedCodeParts) == Assembled(prefix, unique, i)
    {
      var funcCode := unique[i];
      AssembledStep(prefix, unique, i);
      ConcatSnoc(combinedCodeParts, funcCode);
      combinedCodeParts := combinedCodeParts + [funcCode];
      if i < |unique| - 1 {
        ConcatSnoc(combinedCodeParts, "\n\n");
        combinedCodeParts := combinedCodeParts + ["\n\n"];
      }
      i := i + 1;
    }
    assert unique[..i] == unique;
    assert Concat(combinedCodeParts) == prefix + Join(unique, "\n\n");
    finalTestCode := Strip(Concat(combinedCodeParts));
  }

  /** The import forms all start and end with a non-whitespace character
      when the module name ends with one. */
  lemma PatternsTrimmed(cutModule: string, k: nat)
    requires k < 4 && cutModule != [] && !IsSpace(cutModule[|cutModule| - 1])
    ensures var p := ImportPatterns(cutModule)[k];
            p != [] && !IsSpace(p[0]) && !IsSpace(p[|p| - 1])
  {
  }

  /** The combined file always imports the module under test: either the
      prepended line or the first function's own import survives the
      stripping. */
  lemma CombinedImportsModule(unique: seq<string>, cutModule: string)
    requires unique != [] && cutModule != [] && !IsSpace(cutModule[|cutModule| - 1])
    ensures CheckImportExists(Combined(unique, cutModule), cutModule)
  {
    var joined := Join(unique, "\n\n");
    if !CheckImportExists(unique[0], cutModule) {
      assert Combined(unique, cutModule) == Strip(ImportLine(cutModule) + joined);
      PrependedImportSurvives(joined, cutModule);
    } else {
      assert Combined(unique, cutModule) == Strip(joined) by {
        assert "" + joined == joined;
      }
      OwnImportSurvives(unique, cutModule);
    }
  }

  lemma PrependedImportSurvives(joined: string, cutModule: string)
    requires cutModule != [] && !IsSpace(cutModule[|cutModule| - 1])
    ensures Contains(Strip(ImportLine(cutModule) + joined), ImportPatterns(cutModule)[0])
  {
    var p := ImportPatterns(cutModule)[0];
    var s := ImportLine(cutModule) + joined;
    assert s[..|p|] == p;
    PatternsTrimmed(cutModule, 0);
    StripKeepsOccurrence(s, p, 0);
  }

  lemma OwnImportSurvives(unique: seq<string>, cutModule: string)
    requires unique != [] && cutModule != [] && !IsSpace(cutModule[|cutModule| - 1])
    requires CheckImportExists(unique[0], cutModule)
    ensures CheckImportExists(Strip(Join(unique, "\n\n")), cutModule)
  {
    var patterns := ImportPatterns(cutModule);
    var k :| 0 <= k < 4 && Contains(unique[0], patterns[k]);
    var at := Find(unique[0], patterns[k]).value;
    FirstPartOccurs(unique, "\n\n", patterns[k], at);
    PatternsTrimmed(cutModule, k);
    StripKeepsOccurrence(Join(unique, "\n\n"), patterns[k], at);
    assert Contains(Strip(Join(unique, "\n\n")), patterns[k]);
  }

  /** An occurrence in the first part is an occurrence in the joined text. */
  lemma FirstPartOccurs(parts: seq<string>, sep: string, sub: string, at: int)
    requires parts != [] && OccursAt(parts[0], sub, at)
    ensures OccursAt(Join(parts, sep), sub, at)
  {
    if |parts| > 1 {
      assert Join(parts, sep) == parts[0] + (sep + Join(parts[1..], sep));
      OccursAppend(parts[0], sep + Join(parts[1..], sep), sub, at);
    }
  }

  /** The merge step: refuse an empty collection, de-duplicate, refuse an
      empty result, combine. */
  function MergedTestFile(collected: seq<TestFunction>, cutModule: string): Result<string, GenerationError>
  {
    if collected == [] then
      Failure(ValueError("No valid test functions were generated by any agent! "
                         + "Please check: (1) LLM connection, (2) role templates, (3) CUT module validity."))
    else
      var unique := Codes(Kept(collected));
      if unique == [] then Failure(ValueError("After deduplication, no test functions remain!"))
      else Success(Combined(unique, cutModule))
  }

  /** The merge fails only when nothing was collected: the check after
      de-duplication can never fire, and the first collected function is the
      first of the file. */
  lemma MergeFailsOnlyWhenEmpty(collected: seq<TestFunction>, cutModule: string)
    ensures MergedTestFile(collected, cutModule).Failure? <==> collected == []
    ensures collected != [] ==>
              MergedTestFile(collected, cutModule).value == Combined(Codes(Kept(collected)), cutModule)
              && Codes(Kept(collected))[0] == collected[0].1
  {
    if collected != [] {
      KeptStartsWithFirst(collected);
    }
  }
}
