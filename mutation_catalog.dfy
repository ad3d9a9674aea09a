/** The tree walk of `SimpleMutator` (impl/scripts/eval_mutation.py), as pure
    functions. Python's syntax tree is cut down to the node kinds the mutator
    looks at; every other node is `Other`, whose children are visited in field
    order, as `ast.NodeTransformer.generic_visit` does. */
module MutationCatalog {
  import opened Wrappers
  import opened Text

  /** Python's `ast.operator`. It has no `Eq`/`NotEq`: `==` and `!=` only occur
      inside `Compare`, so those branches of `visit_BinOp` cannot be reached. */
  datatype BinOperator =
    Add | Sub | Mult | Div | FloorDiv | Mod | Pow | MatMult | LShift | RShift | BitOr | BitXor | BitAnd

  /** Python's `ast.cmpop`. */
  datatype CmpOperator = Eq | NotEq | Lt | LtE | Gt | GtE | Is | IsNot | In | NotIn

  /** The value of an `ast.Constant`: an integer, a boolean (an `int` for
      `isinstance`), or anything else (strings, bytes, `None`, `...`). */
  datatype Literal = IntLit(i: int) | BoolLit(b: bool) | OtherLit

  datatype Node =
    | BinOp(op: BinOperator, left: Node, right: Node, line: nat)
    | Compare(left: Node, ops: seq<CmpOperator>, comparators: seq<Node>, line: nat)
    | Constant(value: Literal, line: nat)
    | Other(children: seq<Node>)

  datatype MutationKind = OperatorKind | ComparisonKind | ConstantKind

  /** One catalog entry: the dictionary with keys id, type, original, mutated, line. */
  datatype Mutation = Mutation(id: nat, kind: MutationKind, original: string, mutated: string, line: nat)

  function BinToken(op: BinOperator): string
  {
    match op
    case Add => "+"  case Sub => "-"  case Mult => "*"  case Div => "/"
    case FloorDiv => "//"  case Mod => "%"  case Pow => "**"  case MatMult => "@"
    case LShift => "<<"  case RShift => ">>"  case BitOr => "|"  case BitXor => "^"  case BitAnd => "&"
  }

  function CmpToken(op: CmpOperator): string
  {
    match op
    case Eq => "=="  case NotEq => "!="  case Lt => "<"  case LtE => "<="  case Gt => ">"
    case GtE => ">="  case Is => "is"  case IsNot => "is not"  case In => "in"  case NotIn => "not in"
  }

  /** The operator replacing `op` at a mutated `BinOp`, if `op` is one the mutator knows. */
  function BinSwap(op: BinOperator): Option<BinOperator>
  {
    match op
    case Add => Some(Sub)  case Sub => Some(Add)  case Mult => Some(Div)  case Div => Some(Mult)
    case _ => None
  }

  /** The operator replacing `op` at a mutated single-operator `Compare`. */
  function CmpSwap(op: CmpOperator): Option<CmpOperator>
  {
    match op
    case Lt => Some(GtE)  case Gt => Some(LtE)  case LtE => Some(Gt)  case GtE => Some(Lt)
    case _ => None
  }

  /** The numeric value of a literal, as `isinstance(v, (int, float))` sees it. */
  function Number(v: Literal): Option<int>
  {
    match v
    case IntLit(i) => Some(i)
    case BoolLit(b) => Some(if b then 1 else 0)
    case OtherLit => None
  }

  predicate MutableConstant(v: Literal)
  {
    Number(v).Some? && Number(v).value != 0
  }

  /** `n + 1 if n > 0 else n - 1` */
  function Perturb(n: int): int
  {
    if n > 0 then n + 1 else n - 1
  }

  /** `str(value)` of a numeric literal. */
  function LiteralToken(v: Literal): string
  {
    match v
    case IntLit(i) => IntToString(i)
    case BoolLit(b) => if b then "True" else "False"
    case OtherLit => ""
  }

  /** `target_mutation_id is None or current_mutation_id == target_mutation_id` */
  predicate Rewrites(target: Option<nat>, id: nat)
  {
    target.None? || target.value == id
  }

  /** The result of visiting one node: the returned node, the counter afterwards,
      and the catalog entries appended on the way, in order. */
  datatype Visited = Visited(node: Node, next: nat, found: seq<Mutation>)
  datatype VisitedAll = VisitedAll(nodes: seq<Node>, next: nat, found: seq<Mutation>)

  /** `SimpleMutator.visit(n)` started with `current_mutation_id == id`: the
      dispatch of `ast.NodeVisitor.visit` to `visit_BinOp`, `visit_Compare`,
      `visit_Constant` or `generic_visit`. */
  function Visit(n: Node, id: nat, target: Option<nat>): Visited
    decreases n, 2
  {
    match n
    case BinOp(_, _, _, _) => VisitBinOp(n, id, target)
    case Compare(_, _, _, _) => VisitCompare(n, id, target)
    case Constant(_, _) => VisitConstant(n, id, target)
    case Other(cs) =>
      var vcs := VisitAll(cs, id, target);
      Visited(Other(vcs.nodes), vcs.next, vcs.found)
  }

  /** `visit_BinOp`: the counter is bumped for every operator, an entry is
      recorded for the four it knows, and the children are visited left, right. */
  function VisitBinOp(n: Node, id: nat, target: Option<nat>): Visited
    requires n.BinOp?
    decreases n, 1
  {
    var here := id + 1;
    var vl := Visit(n.left, here, target);
    var vr := Visit(n.right, vl.next, target);
    if BinSwap(n.op).Some? then
      var op' := BinSwap(n.op).value;
      var entry := Mutation(here, OperatorKind, BinToken(n.op), BinToken(op'), n.line);
      Visited(BinOp(if Rewrites(target, here) then op' else n.op, vl.node, vr.node, n.line), vr.next, [entry] + vl.found + vr.found)
    else
      Visited(BinOp(n.op, vl.node, vr.node, n.line), vr.next, vl.found + vr.found)
  }

  /** `visit_Compare`: only a single-operator comparison bumps the counter;
      the left operand is visited before the comparators. */
  function VisitCompare(n: Node, id: nat, target: Option<nat>): Visited
    requires n.Compare?
    decreases n, 1
  {
    var here := if |n.ops| == 1 then id + 1 else id;
    var vl := Visit(n.left, here, target);
    var vcs := VisitAll(n.comparators, vl.next, target);
    if |n.ops| == 1 && CmpSwap(n.ops[0]).Some? then
      var op' := CmpSwap(n.ops[0]).value;
      var entry := Mutation(here, ComparisonKind, CmpToken(n.ops[0]), CmpToken(op'), n.line);
      Visited(Compare(vl.node, if Rewrites(target, here) then [op'] else n.ops, vcs.nodes, n.line), vcs.next, [entry] + vl.found + vcs.found)
    else
      Visited(Compare(vl.node, n.ops, vcs.nodes, n.line), vcs.next, vl.found + vcs.found)
  }

  /** `visit_Constant`: a non-zero number bumps the counter and is recorded. */
  function VisitConstant(n: Node, id: nat, target: Option<nat>): Visited
    requires n.Constant?
  {
    if MutableConstant(n.value) then
      var here := id + 1;
      var m := Perturb(Number(n.value).value);
      var entry := Mutation(here, ConstantKind, LiteralToken(n.value), IntToString(m), n.line);
      Visited(if Rewrites(target, here) then Constant(IntLit(m), n.line) else n, here, [entry])
    else Visited(n, id, [])
  }

  /** `generic_visit` over a list field: the nodes are visited left to right. */
  function VisitAll(ns: seq<Node>, id: nat, target: Option<nat>): (r: VisitedAll)
    ensures |r.nodes| == |ns|
    decreases ns
  {
    if ns == [] then VisitedAll([], id, [])
    else
      var pre := VisitAll(ns[..|ns| - 1], id, target);
      var last := Visit(ns[|ns| - 1], pre.next, target);
      VisitedAll(pre.nodes + [last.node], last.next, pre.found + last.found)
  }

  /** Discovery mode (`target_mutation_id=None`): the catalog of a module. */
  function Discover(t: Node): seq<Mutation>
  {
    Visit(t, 0, None).found
  }

  /** Target mode: the module with only the site numbered `k` rewritten. */
  function Apply(t: Node, k: nat): Node
  {
    Visit(t, 0, Some(k)).node
  }

  function Ids(ms: seq<Mutation>): seq<nat>
  {
    if ms == [] then [] else [ms[0].id] + Ids(ms[1..])
  }

  /** Entry ids lie in (lo, hi] and strictly increase along the catalog. */
  ghost predicate IdsIncreasingWithin(ms: seq<Mutation>, lo: nat, hi: nat)
  {
    && (forall i :: 0 <= i < |ms| ==> lo < ms[i].id <= hi)
    && (forall i, j :: 0 <= i < j < |ms| ==> ms[i].id < ms[j].id)
  }

  /** The swaps and perturbations the mutator records, and nothing else. */
  ghost predicate InTable(m: Mutation)
  {
    match m.kind
    case OperatorKind =>
      (m.original, m.mutated) in {("+", "-"), ("-", "+"), ("*", "/"), ("/", "*")}
    case ComparisonKind =>
      (m.original, m.mutated) in {("<", ">="), (">", "<="), ("<=", ">"), (">=", "<")}
    case ConstantKind =>
      (m.original == "True" && m.mutated == "2") || PerturbedNumber(m.original, m.mutated)
  }

  ghost predicate PerturbedNumber(original: string, mutated: string)
  {
    exists n: int {:trigger IntToString(n)} :: n != 0 && original == IntToString(n) && mutated == IntToString(Perturb(n))
  }

  /** Catalog entries recorded while visiting a node do not depend on the target:
      a fresh target-mode mutator records the discovery-mode catalog. */
  lemma {:induction false} CatalogIndependentOfTarget(n: Node, id: nat, t1: Option<nat>, t2: Option<nat>)
    ensures Visit(n, id, t1).next == Visit(n, id, t2).next
    ensures Visit(n, id, t1).found == Visit(n, id, t2).found
    decreases n
  {
    match n
    case BinOp(op, l, r, line) =>
      CatalogIndependentOfTarget(l, id + 1, t1, t2);
      CatalogIndependentOfTarget(r, Visit(l, id + 1, t1).next, t1, t2);
    case Compare(l, ops, cs, line) =>
      var start := if |ops| == 1 then id + 1 else id;
      CatalogIndependentOfTarget(l, start, t1, t2);
      CatalogAllIndependentOfTarget(cs, Visit(l, start, t1).next, t1, t2);
    case Constant(v, line) =>
    case Other(cs) =>
      CatalogAllIndependentOfTarget(cs, id, t1, t2);
  }

  lemma {:induction false} CatalogAllIndependentOfTarget(ns: seq<Node>, id: nat, t1: Option<nat>, t2: Option<nat>)
    ensures VisitAll(ns, id, t1).next == VisitAll(ns, id, t2).next
    ensures VisitAll(ns, id, t1).found == VisitAll(ns, id, t2).found
    decreases ns
  {
    if ns != [] {
      CatalogAllIndependentOfTarget(ns[..|ns| - 1], id, t1, t2);
      CatalogIndependentOfTarget(ns[|ns| - 1], VisitAll(ns[..|ns| - 1], id, t1).next, t1, t2);
    }
  }

  lemma ConcatIncreasing(a: seq<Mutation>, b: seq<Mutation>, lo: nat, mid: nat, hi: nat)
    requires lo <= mid <= hi
    requires IdsIncreasingWithin(a, lo, mid) && IdsIncreasingWithin(b, mid, hi)
    ensures IdsIncreasingWithin(a + b, lo, hi)
  {
    forall i, j | 0 <= i < j < |a + b| ensures (a + b)[i].id < (a + b)[j].id {
      if j < |a| {
      } else if i >= |a| {
        assert (a + b)[i] == b[i - |a|] && (a + b)[j] == b[j - |a|];
      } else {
        assert (a + b)[j] == b[j - |a|];
      }
    }
  }

  /** The counter only grows; every id recorded while visiting `n` lies in
      (id, next], and the ids increase in traversal order: a site's id is taken
      before any of its children is visited. */
  lemma {:induction false} IdsIncrease(n: Node, id: nat, target: Option<nat>)
    ensures id <= Visit(n, id, target).next
    ensures IdsIncreasingWithin(Visit(n, id, target).found, id, Visit(n, id, target).next)
    decreases n, 2
  {
    match n
    case BinOp(_, _, _, _) => IdsIncreaseBinOp(n, id, target);
    case Compare(_, _, _, _) => IdsIncreaseCompare(n, id, target);
    case Constant(_, _) =>
    case Other(cs) => IdsAllIncrease(cs, id, target);
  }

  lemma {:induction false} IdsIncreaseBinOp(n: Node, id: nat, target: Option<nat>)
    requires n.BinOp?
    ensures id <= VisitBinOp(n, id, target).next
    ensures IdsIncreasingWithin(VisitBinOp(n, id, target).found, id, VisitBinOp(n, id, target).next)
    decreases n, 1
  {
    var vl := Visit(n.left, id + 1, target);
    var vr := Visit(n.right, vl.next, target);
    IdsIncrease(n.left, id + 1, target);
    IdsIncrease(n.right, vl.next, target);
    ConcatIncreasing(vl.found, vr.found, id + 1, vl.next, vr.next);
    var v := VisitBinOp(n, id, target);
    assert v.next == vr.next;
    if BinSwap(n.op).Some? {
      var entry := Mutation(id + 1, OperatorKind, BinToken(n.op), BinToken(BinSwap(n.op).value), n.line);
      assert v.found == [entry] + (vl.found + vr.found);
      SiteFirst(id, vl.found + vr.found, vr.next);
    } else {
      assert v.found == vl.found + vr.found;
    }
  }

  lemma {:induction false} IdsIncreaseCompare(n: Node, id: nat, target: Option<nat>)
    requires n.Compare?
    ensures id <= VisitCompare(n, id, target).next
    ensures IdsIncreasingWithin(VisitCompare(n, id, target).found, id, VisitCompare(n, id, target).next)
    decreases n, 1
  {
    var here := if |n.ops| == 1 then id + 1 else id;
    var vl := Visit(n.left, here, target);
    var vcs := VisitAll(n.comparators, vl.next, target);
    IdsIncrease(n.left, here, target);
    IdsAllIncrease(n.comparators, vl.next, target);
    ConcatIncreasing(vl.found, vcs.found, here, vl.next, vcs.next);
    CompareFound(n, id, target);
  }

  /** What `visit_Compare` records: the site's entry, if any, in front of
      the entries of the left operand, then those of the comparators. */
  lemma CompareFound(n: Node, id: nat, target: Option<nat>)
    requires n.Compare?
    ensures var here := if |n.ops| == 1 then id + 1 else id;
            var vl := Visit(n.left, here, target);
            var vcs := VisitAll(n.comparators, vl.next, target);
            var v := VisitCompare(n, id, target);
            v.next == vcs.next
            && (IdsIncreasingWithin(vl.found + vcs.found, here, vcs.next) && id <= here <= vl.next <= vcs.next ==>
                  IdsIncreasingWithin(v.found, id, v.next))
  {
    var here := if |n.ops| == 1 then id + 1 else id;
    var vl := Visit(n.left, here, target);
    var vcs := VisitAll(n.comparators, vl.next, target);
    var v := VisitCompare(n, id, target);
    if |n.ops| == 1 && CmpSwap(n.ops[0]).Some? {
      var entry := Mutation(here, ComparisonKind, CmpToken(n.ops[0]), CmpToken(CmpSwap(n.ops[0]).value), n.line);
      assert v.found == [entry] + (vl.found + vcs.found);
      if IdsIncreasingWithin(vl.found + vcs.found, here, vcs.next) && id <= here <= vl.next <= vcs.next {
        SiteFirst(id, vl.found + vcs.found, vcs.next);
      }
    } else {
      assert v.found == vl.found + vcs.found;
    }
  }

  /** An entry numbered `id + 1` in front of entries numbered above `id + 1`. */
  lemma SiteFirst(id: nat, rest: seq<Mutation>, hi: nat)
    requires id + 1 <= hi
    requires IdsIncreasingWithin(rest, id + 1, hi)
    ensures forall e: Mutation :: e.id == id + 1 ==> IdsIncreasingWithin([e] + rest, id, hi)
  {
    forall e: Mutation | e.id == id + 1 ensures IdsIncreasingWithin([e] + rest, id, hi) {
      ConcatIncreasing([e], rest, id, id + 1, hi);
    }
  }

  lemma {:induction false} IdsAllIncrease(ns: seq<Node>, id: nat, target: Option<nat>)
    ensures id <= VisitAll(ns, id, target).next
    ensures IdsIncreasingWithin(VisitAll(ns, id, target).found, id, VisitAll(ns, id, target).next)
    decreases ns
  {
    if ns != [] {
      var pre := VisitAll(ns[..|ns| - 1], id, target);
      IdsAllIncrease(ns[..|ns| - 1], id, target);
      IdsIncrease(ns[|ns| - 1], pre.next, target);
      ConcatIncreasing(pre.found, Visit(ns[|ns| - 1], pre.next, target).found, id, pre.next, VisitAll(ns, id, target).next);
    }
  }

  /** Every entry is one of the known swaps or a non-zero constant perturbation;
      in particular `==`, `!=`, `**` and zero constants are never catalogued. */
  lemma {:induction false} EntriesInTable(n: Node, id: nat, target: Option<nat>)
    ensures forall m :: m in Visit(n, id, target).found ==> InTable(m)
    decreases n
  {
    match n
    case BinOp(op, l, r, line) =>
      EntriesInTable(l, id + 1, target);
      EntriesInTable(r, Visit(l, id + 1, target).next, target);
    case Compare(l, ops, cs, line) =>
      var start := if |ops| == 1 then id + 1 else id;
      EntriesInTable(l, start, target);
      EntriesAllInTable(cs, Visit(l, start, target).next, target);
    case Constant(v, line) =>
      if MutableConstant(v) && v.IntLit? {
        assert IntToString(v.i) == LiteralToken(v);
      }
    case Other(cs) =>
      EntriesAllInTable(cs, id, target);
  }

  lemma {:induction false} EntriesAllInTable(ns: seq<Node>, id: nat, target: Option<nat>)
    ensures forall m :: m in VisitAll(ns, id, target).found ==> InTable(m)
    decreases ns
  {
    if ns != [] {
      EntriesAllInTable(ns[..|ns| - 1], id, target);
      EntriesInTable(ns[|ns| - 1], VisitAll(ns[..|ns| - 1], id, target).next, target);
    }
  }

  /** No entry of `found` names a site the target selects. */
  ghost predicate Untouched(found: seq<Mutation>, target: Option<nat>)
  {
    forall e :: e in found ==> !Rewrites(target, e.id)
  }

  /** A node comes back changed exactly when a catalogued site under it was
      selected: unknown operators, chained comparisons and zero constants are
      rebuilt as they were, and so is every site the target does not name. */
  lemma {:induction false} RewrittenIff(n: Node, id: nat, target: Option<nat>)
    ensures Visit(n, id, target).node == n <==> Untouched(Visit(n, id, target).found, target)
    decreases n, 2
  {
    match n
    case BinOp(_, _, _, _) => RewrittenIffBinOp(n, id, target);
    case Compare(_, _, _, _) => RewrittenIffCompare(n, id, target);
    case Constant(_, _) =>
    case Other(cs) => RewrittenAllIff(cs, id, target);
  }

  lemma {:induction false} RewrittenIffBinOp(n: Node, id: nat, target: Option<nat>)
    requires n.BinOp?
    ensures VisitBinOp(n, id, target).node == n <==> Untouched(VisitBinOp(n, id, target).found, target)
    decreases n, 1
  {
    var vl := Visit(n.left, id + 1, target);
    var vr := Visit(n.right, vl.next, target);
    RewrittenIff(n.left, id + 1, target);
    RewrittenIff(n.right, vl.next, target);
    var v := VisitBinOp(n, id, target);
    if BinSwap(n.op).Some? {
      var entry := Mutation(id + 1, OperatorKind, BinToken(n.op), BinToken(BinSwap(n.op).value), n.line);
      assert v.found == [entry] + vl.found + vr.found;
      assert entry in v.found;
    } else {
      assert v.found == vl.found + vr.found;
    }
  }

  lemma {:induction false} RewrittenIffCompare(n: Node, id: nat, target: Option<nat>)
    requires n.Compare?
    ensures VisitCompare(n, id, target).node == n <==> Untouched(VisitCompare(n, id, target).found, target)
    decreases n, 1
  {
    var here := if |n.ops| == 1 then id + 1 else id;
    var vl := Visit(n.left, here, target);
    var vcs := VisitAll(n.comparators, vl.next, target);
    RewrittenIff(n.left, here, target);
    RewrittenAllIff(n.comparators, vl.next, target);
    var v := VisitCompare(n, id, target);
    if |n.ops| == 1 && CmpSwap(n.ops[0]).Some? {
      var op' := CmpSwap(n.ops[0]).value;
      var entry := Mutation(here, ComparisonKind, CmpToken(n.ops[0]), CmpToken(op'), n.line);
      assert v.found == [entry] + vl.found + vcs.found;
      assert entry in v.found;
      if Rewrites(target, here) {
        assert v.node.ops[0] == op' != n.ops[0];
      }
    } else {
      assert v.found == vl.found + vcs.found;
    }
  }

  lemma {:induction false} RewrittenAllIff(ns: seq<Node>, id: nat, target: Option<nat>)
    ensures VisitAll(ns, id, target).nodes == ns <==> Untouched(VisitAll(ns, id, target).found, target)
    decreases ns
  {
    if ns != [] {
      var init := ns[..|ns| - 1];
      var pre := VisitAll(init, id, target);
      var last := Visit(ns[|ns| - 1], pre.next, target);
      RewrittenAllIff(init, id, target);
      RewrittenIff(ns[|ns| - 1], pre.next, target);
      var v := VisitAll(ns, id, target);
      assert v.nodes == pre.nodes + [last.node];
      assert ns == init + [ns[|ns| - 1]];
      if v.nodes == ns {
        assert pre.nodes == v.nodes[..|ns| - 1];
      }
    }
  }

  /** `after` is the catalog recorded again on a tree visited with `target`:
      the same sites in the same order, where each selected site now shows the
      token it was rewritten to, and every other entry is as it was. */
  ghost predicate Recatalogued(before: seq<Mutation>, after: seq<Mutation>, target: Option<nat>)
  {
    && |after| == |before|
    && forall i :: 0 <= i < |before| ==>
         && after[i].id == before[i].id
         && after[i].kind == before[i].kind
         && after[i].line == before[i].line
         && (if Rewrites(target, before[i].id) then after[i].original == before[i].mutated else after[i] == before[i])
  }

  lemma RecataloguedConcat(a: seq<Mutation>, a': seq<Mutation>, b: seq<Mutation>, b': seq<Mutation>, target: Option<nat>)
    requires Recatalogued(a, a', target) && Recatalogued(b, b', target)
    ensures Recatalogued(a + b, a' + b', target)
  {
    forall i | |a| <= i < |a + b|
      ensures (a + b)[i] == b[i - |a|] && (a' + b')[i] == b'[i - |a|]
    {
    }
  }

  /** One site recorded again: the same id, kind and line, showing its
      mutated token if the site was selected and unchanged otherwise. */
  lemma SiteRecatalogued(e: Mutation, e': Mutation, target: Option<nat>)
    requires e'.id == e.id && e'.kind == e.kind && e'.line == e.line
    requires if Rewrites(target, e.id) then e'.original == e.mutated else e' == e
    ensures Recatalogued([e], [e'], target)
  {
  }

  /** Re-cataloguing a mutant finds the same sites with the same ids: every
      swap and perturbation lands on an operator or constant the mutator also
      knows, and the selected sites show their mutated tokens. */
  lemma {:induction false} Rediscovery(n: Node, id: nat, target: Option<nat>)
    ensures Visit(Visit(n, id, target).node, id, None).next == Visit(n, id, target).next
    ensures Recatalogued(Visit(n, id, target).found, Visit(Visit(n, id, target).node, id, None).found, target)
    decreases n, 2
  {
    match n
    case BinOp(_, _, _, _) => RediscoveryBinOp(n, id, target);
    case Compare(_, _, _, _) => RediscoveryCompare(n, id, target);
    case Constant(_, _) =>
    case Other(cs) => RediscoveryAll(cs, id, target);
  }

  lemma {:induction false} RediscoveryBinOp(n: Node, id: nat, target: Option<nat>)
    requires n.BinOp?
    ensures Visit(VisitBinOp(n, id, target).node, id, None).next == VisitBinOp(n, id, target).next
    ensures Recatalogued(VisitBinOp(n, id, target).found, Visit(VisitBinOp(n, id, target).node, id, None).found, target)
    decreases n, 1
  {
    if BinSwap(n.op).Some? {
      RediscoverySwappedBinOp(n, id, target);
    } else {
      RediscoveryKeptBinOp(n, id, target);
    }
  }

  lemma {:induction false} RediscoverySwappedBinOp(n: Node, id: nat, target: Option<nat>)
    requires n.BinOp? && BinSwap(n.op).Some?
    ensures Visit(VisitBinOp(n, id, target).node, id, None).next == VisitBinOp(n, id, target).next
    ensures Recatalogued(VisitBinOp(n, id, target).found, Visit(VisitBinOp(n, id, target).node, id, None).found, target)
    decreases n, 0
  {
    var here := id + 1;
    var vl := Visit(n.left, here, target);
    var vr := Visit(n.right, vl.next, target);
    var op' := BinSwap(n.op).value;
    var entry := Mutation(here, OperatorKind, BinToken(n.op), BinToken(op'), n.line);
    var op2 := if Rewrites(target, here) then op' else n.op;
    var v := VisitBinOp(n, id, target);
    assert v.next == vr.next && v.found == [entry] + (vl.found + vr.found) && v.node == BinOp(op2, vl.node, vr.node, n.line);
    var wl := Visit(vl.node, here, None);
    var wr := Visit(vr.node, vl.next, None);
    var entry' := Mutation(here, OperatorKind, BinToken(op2), BinToken(BinSwap(op2).value), n.line);
    var w := Visit(v.node, id, None);
    Rediscovery(n.left, here, target);
    Rediscovery(n.right, vl.next, target);
    assert w.next == wr.next && w.found == [entry'] + (wl.found + wr.found) by {
      assert w == VisitBinOp(v.node, id, None);
    }
    RecataloguedConcat(vl.found, wl.found, vr.found, wr.found, target);
    SiteRecatalogued(entry, entry', target);
    RecataloguedConcat([entry], [entry'], vl.found + vr.found, wl.found + wr.found, target);
  }

  lemma {:induction false} RediscoveryKeptBinOp(n: Node, id: nat, target: Option<nat>)
    requires n.BinOp? && BinSwap(n.op).None?
    ensures Visit(VisitBinOp(n, id, target).node, id, None).next == VisitBinOp(n, id, target).next
    ensures Recatalogued(VisitBinOp(n, id, target).found, Visit(VisitBinOp(n, id, target).node, id, None).found, target)
    decreases n, 0
  {
    var vl := Visit(n.left, id + 1, target);
    var vr := Visit(n.right, vl.next, target);
    Rediscovery(n.left, id + 1, target);
    Rediscovery(n.right, vl.next, target);
    var wl := Visit(vl.node, id + 1, None);
    var wr := Visit(vr.node, vl.next, None);
    RecataloguedConcat(vl.found, wl.found, vr.found, wr.found, target);
    var v := VisitBinOp(n, id, target);
    assert v == Visited(BinOp(n.op, vl.node, vr.node, n.line), vr.next, vl.found + vr.found);
    var w := VisitBinOp(v.node, id, None);
    assert Visit(v.node, id, None) == w;
    assert w == Visited(w.node, wr.next, wl.found + wr.found);
  }

  lemma {:induction false} RediscoveryCompare(n: Node, id: nat, target: Option<nat>)
    requires n.Compare?
    ensures Visit(VisitCompare(n, id, target).node, id, None).next == VisitCompare(n, id, target).next
    ensures Recatalogued(VisitCompare(n, id, target).found, Visit(VisitCompare(n, id, target).node, id, None).found, target)
    decreases n, 1
  {
    if |n.ops| == 1 && CmpSwap(n.ops[0]).Some? {
      RediscoverySwappedCompare(n, id, target);
    } else {
      RediscoveryKeptCompare(n, id, target);
    }
  }

  lemma {:induction false} RediscoverySwappedCompare(n: Node, id: nat, target: Option<nat>)
    requires n.Compare? && |n.ops| == 1 && CmpSwap(n.ops[0]).Some?
    ensures Visit(VisitCompare(n, id, target).node, id, None).next == VisitCompare(n, id, target).next
    ensures Recatalogued(VisitCompare(n, id, target).found, Visit(VisitCompare(n, id, target).node, id, None).found, target)
    decreases n, 0
  {
    var here := id + 1;
    var vl := Visit(n.left, here, target);
    var vcs := VisitAll(n.comparators, vl.next, target);
    var op' := CmpSwap(n.ops[0]).value;
    var entry := Mutation(here, ComparisonKind, CmpToken(n.ops[0]), CmpToken(op'), n.line);
    var op2 := if Rewrites(target, here) then op' else n.ops[0];
    var v := VisitCompare(n, id, target);
    assert v.next == vcs.next && v.found == [entry] + (vl.found + vcs.found)
        && v.node == Compare(vl.node, [op2], vcs.nodes, n.line) by {
      assert n.ops == [n.ops[0]];
    }
    var wl := Visit(vl.node, here, None);
    var wcs := VisitAll(vcs.nodes, vl.next, None);
    var entry' := Mutation(here, ComparisonKind, CmpToken(op2), CmpToken(CmpSwap(op2).value), n.line);
    var w := Visit(v.node, id, None);
    Rediscovery(n.left, here, target);
    assert w.next == wcs.next && w.found == [entry'] + (wl.found + wcs.found) by {
      assert w == VisitCompare(v.node, id, None);
    }
    RediscoveryAll(n.comparators, vl.next, target);
    RecataloguedConcat(vl.found, wl.found, vcs.found, wcs.found, target);
    SiteRecatalogued(entry, entry', target);
    RecataloguedConcat([entry], [entry'], vl.found + vcs.found, wl.found + wcs.found, target);
  }

  lemma {:induction false} RediscoveryKeptCompare(n: Node, id: nat, target: Option<nat>)
    requires n.Compare? && !(|n.ops| == 1 && CmpSwap(n.ops[0]).Some?)
    ensures Visit(VisitCompare(n, id, target).node, id, None).next == VisitCompare(n, id, target).next
    ensures Recatalogued(VisitCompare(n, id, target).found, Visit(VisitCompare(n, id, target).node, id, None).found, target)
    decreases n, 0
  {
    var here := if |n.ops| == 1 then id + 1 else id;
    var vl := Visit(n.left, here, target);
    var vcs := VisitAll(n.comparators, vl.next, target);
    Rediscovery(n.left, here, target);
    RediscoveryAll(n.comparators, vl.next, target);
    var wl := Visit(vl.node, here, None);
    var wcs := VisitAll(vcs.nodes, vl.next, None);
    RecataloguedConcat(vl.found, wl.found, vcs.found, wcs.found, target);
    var v := VisitCompare(n, id, target);
    assert v == Visited(Compare(vl.node, n.ops, vcs.nodes, n.line), vcs.next, vl.found + vcs.found);
    var w := VisitCompare(v.node, id, None);
    assert Visit(v.node, id, None) == w;
    assert w == Visited(w.node, wcs.next, wl.found + wcs.found);
  }

  lemma {:induction false} RediscoveryAll(ns: seq<Node>, id: nat, target: Option<nat>)
    ensures VisitAll(VisitAll(ns, id, target).nodes, id, None).next == VisitAll(ns, id, target).next
    ensures Recatalogued(VisitAll(ns, id, target).found, VisitAll(VisitAll(ns, id, target).nodes, id, None).found, target)
    decreases ns
  {
    if ns != [] {
      var init := ns[..|ns| - 1];
      var pre := VisitAll(init, id, target);
      var last := Visit(ns[|ns| - 1], pre.next, target);
      RediscoveryAll(init, id, target);
      Rediscovery(ns[|ns| - 1], pre.next, target);
      var v := VisitAll(ns, id, target);
      assert v.nodes == pre.nodes + [last.node];
      assert v.nodes[..|v.nodes| - 1] == pre.nodes;
      var wpre := VisitAll(pre.nodes, id, None);
      var wlast := Visit(last.node, pre.next, None);
      RecataloguedConcat(pre.found, wpre.found, last.found, wlast.found, target);
    }
  }

  /** The catalog of a module: ids strictly increasing from 1, each entry from the table. */
  lemma DiscoverWellFormed(t: Node)
    ensures IdsIncreasingWithin(Discover(t), 0, Visit(t, 0, None).next)
    ensures forall m :: m in Discover(t) ==> InTable(m)
  {
    IdsIncrease(t, 0, None);
    EntriesInTable(t, 0, None);
  }

  /** A target-mode mutator (a fresh one per mutant) records the discovery catalog. */
  lemma TargetModeCatalog(t: Node, k: nat)
    ensures Visit(t, 0, Some(k)).found == Discover(t)
  {
    CatalogIndependentOfTarget(t, 0, Some(k), None);
  }

  /** Target mode changes the module exactly when `k` is the id of a catalogued site. */
  lemma ApplyChangesIff(t: Node, k: nat)
    ensures Apply(t, k) != t <==> exists m :: m in Discover(t) && m.id == k
  {
    RewrittenIff(t, 0, Some(k));
    TargetModeCatalog(t, k);
  }

  /** The mutant selected by `k` carries the same catalog except that the site
      numbered `k` now shows the token it was mutated to. */
  lemma ApplyRecatalogued(t: Node, k: nat)
    ensures |Discover(Apply(t, k))| == |Discover(t)|
    ensures forall i :: 0 <= i < |Discover(t)| ==>
      var (before, after) := (Discover(t)[i], Discover(Apply(t, k))[i]);
      && after.id == before.id && after.kind == before.kind && after.line == before.line
      && (if before.id == k then after.original == before.mutated else after == before)
  {
    Rediscovery(t, 0, Some(k));
    TargetModeCatalog(t, k);
  }

  /** `generic_visit` over `[x] + rest` visits `x` first, then the rest from where it stopped. */
  lemma VisitAllCons(x: Node, rest: seq<Node>, id: nat, target: Option<nat>)
    ensures VisitAll([x] + rest, id, target).next == VisitAll(rest, Visit(x, id, target).next, target).next
    ensures VisitAll([x] + rest, id, target).found == Visit(x, id, target).found + VisitAll(rest, Visit(x, id, target).next, target).found
  {
    VisitAllAppend([x], rest, id, target);
    VisitAllSingle(x, id, target);
  }

  /** `generic_visit` over one child visits that child. */
  lemma VisitAllSingle(x: Node, id: nat, target: Option<nat>)
    ensures VisitAll([x], id, target).next == Visit(x, id, target).next
    ensures VisitAll([x], id, target).found == Visit(x, id, target).found
  {
    assert [x][..0] == [];
  }

  /** `generic_visit` over `xs + ys` visits `xs`, then `ys` from where it stopped. */
  lemma {:induction false} VisitAllAppend(xs: seq<Node>, ys: seq<Node>, id: nat, target: Option<nat>)
    ensures var front := VisitAll(xs, id, target);
            VisitAll(xs + ys, id, target).next == VisitAll(ys, front.next, target).next
            && VisitAll(xs + ys, id, target).found == front.found + VisitAll(ys, front.next, target).found
    decreases |ys|
  {
    var front := VisitAll(xs, id, target);
    if ys == [] {
      assert xs + ys == xs;
    } else {
      var init := ys[..|ys| - 1];
      var l := ys[|ys| - 1];
      assert ys == init + [l];
      assert xs + ys == (xs + init) + [l];
      VisitAllAppend(xs, init, id, target);
      VisitAllAppendOne(xs + init, l, id, target);
      VisitAllAppendOne(init, l, front.next, target);
    }
  }

  /** A node appended is visited after the others. */
  lemma VisitAllAppendOne(init: seq<Node>, l: Node, id: nat, target: Option<nat>)
    ensures var pre := VisitAll(init, id, target);
            var last := Visit(l, pre.next, target);
            VisitAll(init + [l], id, target).next == last.next && VisitAll(init + [l], id, target).found == pre.found + last.found
  {
    assert (init + [l])[..|init|] == init;
  }
}
