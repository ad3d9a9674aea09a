/** The text fallback `_simple_regex_mutation` and the driver `create_mutation`
    (impl/scripts/eval_mutation.py). Parsing and unparsing Python are library
    calls, so the parse result and the renderer are parameters. */
module TextMutation {
  import opened Wrappers
  import opened Text
  import opened MutationCatalog
  import opened Mutator

  /** One entry applied to the current lines: `None` when the entry is not
      selected, its line is out of range, or its original token is absent. */
  function Step(lines: seq<string>, m: Mutation, target: Option<nat>): (r: Option<seq<string>>)
    ensures r.Some? ==> |r.value| == |lines|
  {
    if target.Some? && m.id != target.value then None
    else
      var idx := m.line - 1;
      if 0 <= idx < |lines| && Contains(lines[idx], m.original) then
        Some(lines[idx := ReplaceFirst(lines[idx], m.original, m.mutated)])
      else None
  }

  /** The lines after the loop over `ms`; with a target the loop stops at the
      first entry that changed a line. */
  function RegexLines(lines: seq<string>, ms: seq<Mutation>, target: Option<nat>): seq<string>
    decreases |ms|
  {
    if ms == [] then lines
    else match Step(lines, ms[0], target)
      case None => RegexLines(lines, ms[1..], target)
      case Some(next) => if target.Some? then next else RegexLines(next, ms[1..], target)
  }

  /** What `_simple_regex_mutation(source, ms, target)` returns. */
  function RegexMutated(source: string, ms: seq<Mutation>, target: Option<nat>): string
  {
    if ms == [] then source else Join(RegexLines(Split(source, '\n'), ms, target), "\n")
  }

  /** `_simple_regex_mutation` */
  method SimpleRegexMutation(source: string, ms: seq<Mutation>, target: Option<nat>) returns (out: string)
    ensures out == RegexMutated(source, ms, target)
  {
    if ms == [] {
      return source;
    }
    var lines := Split(source, '\n');
    var mutatedLines := lines;
    var i := 0;
    while i < |ms|
      invariant 0 <= i <= |ms|
      invariant RegexLines(mutatedLines, ms[i..], target) == RegexLines(lines, ms, target)
    {
      assert ms[i..][1..] == ms[i + 1..];
      var m := ms[i];
      if target.Some? && m.id != target.value {
        i := i + 1;
        continue;
      }
      var idx := m.line - 1;
      if 0 <= idx < |mutatedLines| {
        var line := mutatedLines[idx];
        if Contains(line, m.original) {
          mutatedLines := mutatedLines[idx := ReplaceFirst(line, m.original, m.mutated)];
          if target.Some? {
            assert mutatedLines == RegexLines(lines, ms, target);
            break;
          }
        }
      }
      i := i + 1;
    }
    out := Join(mutatedLines, "\n");
  }

  lemma {:induction false} RegexLinesLength(lines: seq<string>, ms: seq<Mutation>, target: Option<nat>)
    ensures |RegexLines(lines, ms, target)| == |lines|
    decreases |ms|
  {
    if ms != [] {
      match Step(lines, ms[0], target)
      case None => RegexLinesLength(lines, ms[1..], target);
      case Some(next) => RegexLinesLength(next, ms[1..], target);
    }
  }

  /** Entry `i` is the first one that applies to `lines` under target `k`. */
  ghost predicate FirstHit(lines: seq<string>, ms: seq<Mutation>, k: nat, i: int)
  {
    && 0 <= i < |ms|
    && Step(lines, ms[i], Some(k)).Some?
    && forall j :: 0 <= j < i ==> Step(lines, ms[j], Some(k)).None?
  }

  lemma {:induction false} TargetStopsAtFirstHit(lines: seq<string>, ms: seq<Mutation>, k: nat)
    ensures var out := RegexLines(lines, ms, Some(k));
      out == lines || exists i :: FirstHit(lines, ms, k, i) && out == Step(lines, ms[i], Some(k)).value
    decreases |ms|
  {
    if ms != [] && Step(lines, ms[0], Some(k)).None? {
      var out := RegexLines(lines, ms, Some(k));
      TargetStopsAtFirstHit(lines, ms[1..], k);
      if out != lines {
        var i :| FirstHit(lines, ms[1..], k, i) && out == Step(lines, ms[1..][i], Some(k)).value;
        assert ms[i + 1] == ms[1..][i];
        forall j | 0 <= j < i + 1 ensures Step(lines, ms[j], Some(k)).None? {
          if j > 0 { assert ms[j] == ms[1..][j - 1]; }
        }
        assert FirstHit(lines, ms, k, i + 1);
      }
    } else if ms != [] {
      assert FirstHit(lines, ms, k, 0);
    }
  }

  /** With a target, at most one line changes: either nothing does, or the line
      of the first applicable entry carrying the target id gets its first
      occurrence of the original token replaced, and every other line stays. */
  lemma TargetChangesOneLine(lines: seq<string>, ms: seq<Mutation>, k: nat)
    ensures var out := RegexLines(lines, ms, Some(k));
      || out == lines
      || exists i :: FirstHit(lines, ms, k, i) && ms[i].id == k
           && var idx := ms[i].line - 1;
              0 <= idx < |lines| && Contains(lines[idx], ms[i].original)
              && out == lines[idx := ReplaceFirst(lines[idx], ms[i].original, ms[i].mutated)]
  {
    TargetStopsAtFirstHit(lines, ms, k);
  }

  /** With a target, when no entry applies the lines come back as they were. */
  lemma {:induction false} TargetMissLeavesLines(lines: seq<string>, ms: seq<Mutation>, k: nat)
    requires forall i :: 0 <= i < |ms| ==> Step(lines, ms[i], Some(k)).None?
    ensures RegexLines(lines, ms, Some(k)) == lines
    decreases |ms|
  {
    if ms != [] {
      assert forall i :: 0 <= i < |ms[1..]| ==> ms[1..][i] == ms[i + 1];
      TargetMissLeavesLines(lines, ms[1..], k);
    }
  }

  /** An empty catalog, or a target whose entries all miss (wrong id, line out
      of range, token absent), returns the source unchanged. */
  lemma RegexUnchanged(source: string, ms: seq<Mutation>, k: nat)
    requires forall i :: 0 <= i < |ms| ==> Step(Split(source, '\n'), ms[i], Some(k)).None?
    ensures RegexMutated(source, ms, Some(k)) == source
  {
    if ms != [] {
      TargetMissLeavesLines(Split(source, '\n'), ms, k);
      JoinSplit(source, '\n');
    }
  }

  /** With a target, the fallback text differs from the source at most on the
      line of the first entry that applies, and that entry carries the target id. */
  lemma RegexChangesOneLine(source: string, ms: seq<Mutation>, k: nat)
    ensures var out := RegexMutated(source, ms, Some(k));
      var lines := Split(source, '\n');
      || out == source
      || exists i :: FirstHit(lines, ms, k, i) && ms[i].id == k
           && var idx := ms[i].line - 1;
              0 <= idx < |lines|
              && out == Join(lines[idx := ReplaceFirst(lines[idx], ms[i].original, ms[i].mutated)], "\n")
  {
    if ms != [] {
      TargetChangesOneLine(Split(source, '\n'), ms, k);
      JoinSplit(source, '\n');
    }
  }

  lemma ReplaceFirstNoNewline(s: string, pat: string, repl: string)
    requires '\n' !in s && '\n' !in repl
    ensures '\n' !in ReplaceFirst(s, pat, repl)
  {
    if Find(s, pat).Some? {
      var i := Find(s, pat).value;
      assert forall c :: c in s[..i] ==> c in s;
      assert forall c :: c in s[i + |pat|..] ==> c in s;
    }
  }

  lemma {:induction false} RegexLinesNoNewline(lines: seq<string>, ms: seq<Mutation>, target: Option<nat>)
    requires forall l :: l in lines ==> '\n' !in l
    requires forall m :: m in ms ==> '\n' !in m.mutated
    ensures forall l :: l in RegexLines(lines, ms, target) ==> '\n' !in l
    decreases |ms|
  {
    if ms != [] {
      assert forall m :: m in ms[1..] ==> m in ms;
      match Step(lines, ms[0], target)
      case None => RegexLinesNoNewline(lines, ms[1..], target);
      case Some(next) =>
        var idx := ms[0].line - 1;
        ReplaceFirstNoNewline(lines[idx], ms[0].original, ms[0].mutated);
        assert forall l :: l in next ==> l in lines || l == ReplaceFirst(lines[idx], ms[0].original, ms[0].mutated);
        RegexLinesNoNewline(next, ms[1..], target);
    }
  }

  /** The fallback never adds or removes a line when no mutated token holds a
      line break (none of the catalogued ones does). */
  lemma RegexPreservesLineCount(source: string, ms: seq<Mutation>, target: Option<nat>)
    requires forall m :: m in ms ==> '\n' !in m.mutated
    ensures |Split(RegexMutated(source, ms, target), '\n')| == |Split(source, '\n')|
  {
    if ms != [] {
      var lines := Split(source, '\n');
      RegexLinesLength(lines, ms, target);
      RegexLinesNoNewline(lines, ms, target);
      SplitJoin(RegexLines(lines, ms, target), '\n');
    }
  }

  /** How a mutated tree is turned back into text: `ast.unparse` (or
      `astor.to_source`), which may raise (`None`), or no renderer at all, in
      which case the text fallback is used. */
  datatype Renderer = Unparse(render: Node -> Option<string>) | NoRenderer

  /** What `create_mutation` returns for a mutator that starts with the catalog
      `before` and the counter `id`; `parsed` is `ast.parse(source)`, `None`
      on a syntax error. */
  function Mutated(source: string, parsed: Option<Node>, renderer: Renderer, before: seq<Mutation>, id: nat, target: Option<nat>): (string, seq<Mutation>)
  {
    match parsed
    case None => (RegexMutated(source, before, target), before)
    case Some(t) =>
      var v := MutationCatalog.Visit(t, id, target);
      var catalog := before + v.found;
      match renderer
      case Unparse(render) =>
        if render(v.node).Some? then (render(v.node).value, catalog) else (RegexMutated(source, catalog, target), catalog)
      case NoRenderer => (RegexMutated(source, catalog, target), catalog)
  }

  /** `create_mutation(source_code, mutator)` */
  method CreateMutation(source: string, parsed: Option<Node>, renderer: Renderer, mutator: SimpleMutator)
    returns (code: string, catalog: seq<Mutation>)
    modifies mutator
    ensures (code, catalog) == Mutated(source, parsed, renderer, old(mutator.mutations), old(mutator.currentId), mutator.target)
    ensures catalog == mutator.mutations
  {
    match parsed {
      case None =>
        code := SimpleRegexMutation(source, mutator.mutations, mutator.target);
      case Some(tree) =>
        var mutatedTree := mutator.VisitNode(tree);
        match renderer {
          case Unparse(render) =>
            var rendered := render(mutatedTree);
            if rendered.Some? {
              code := rendered.value;
            } else {
              code := SimpleRegexMutation(source, mutator.mutations, mutator.target);
            }
          case NoRenderer =>
            code := SimpleRegexMutation(source, mutator.mutations, mutator.target);
        }
    }
    catalog := mutator.mutations;
  }

  /** A fresh mutator: a syntax error gives back the source and no catalog. */
  lemma ParseErrorKeepsSource(source: string, renderer: Renderer, target: Option<nat>)
    ensures Mutated(source, None, renderer, [], 0, target) == (source, [])
  {
  }

  /** A fresh mutator records the discovery catalog whatever its target. */
  lemma FreshCatalog(source: string, t: Node, renderer: Renderer, target: Option<nat>)
    ensures Mutated(source, Some(t), renderer, [], 0, target).1 == Discover(t)
  {
    CatalogIndependentOfTarget(t, 0, target, None);
  }

  /** With the text fallback, a fresh target-mode mutator changes at most the
      line of the selected entry. */
  lemma FallbackChangesOneLine(source: string, t: Node, k: nat)
    ensures var out := Mutated(source, Some(t), NoRenderer, [], 0, Some(k)).0;
      var lines := Split(source, '\n');
      || out == source
      || exists i :: FirstHit(lines, Discover(t), k, i)
           && var idx := Discover(t)[i].line - 1;
              0 <= idx < |lines|
              && out == Join(lines[idx := ReplaceFirst(lines[idx], Discover(t)[i].original, Discover(t)[i].mutated)], "\n")
  {
    FreshCatalog(source, t, NoRenderer, Some(k));
    var ms := Discover(t);
    assert Mutated(source, Some(t), NoRenderer, [], 0, Some(k)).0 == RegexMutated(source, ms, Some(k));
    RegexChangesOneLine(source, ms, k);
  }
}
