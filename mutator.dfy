/** `SimpleMutator` (impl/scripts/eval_mutation.py) as an object: it carries
    the catalog it has appended so far and the running site counter, and each
    visit changes both in place. Every method is tied to the functions of
    `MutationCatalog`, whose properties are proved there. */
module Mutator {
  import opened Wrappers
  import opened Text
  import opened MutationCatalog

  class SimpleMutator {
    /** `self.mutations`: the catalog entries appended so far. */
    var mutations: seq<Mutation>
    /** `self.current_mutation_id`: the last site id handed out. */
    var currentId: nat
    /** `self.target_mutation_id`: `None` in discovery mode. */
    const target: Option<nat>

    constructor (target: Option<nat>)
      ensures this.target == target && mutations == [] && currentId == 0
    {
      this.target := target;
      mutations := [];
      currentId := 0;
    }

    /** `visit(node)`: dispatch on the node kind. */
    method VisitNode(n: Node) returns (r: Node)
      modifies this
      ensures var v := MutationCatalog.Visit(n, old(currentId), target);
        r == v.node && currentId == v.next && mutations == old(mutations) + v.found
      decreases n, 2
    {
      match n
      case BinOp(_, _, _, _) => r := VisitBinOp(n);
      case Compare(_, _, _, _) => r := VisitCompare(n);
      case Constant(_, _) => r := VisitConstant(n);
      case Other(cs) =>
        var cs' := GenericVisit(cs);
        r := Other(cs');
    }

    /** `visit_BinOp`: take an id, record the swap if the operator has one, and
        rebuild the node with the swapped operator only when it is selected. */
    method VisitBinOp(n: Node) returns (r: Node)
      requires n.BinOp?
      modifies this
      ensures var v := MutationCatalog.VisitBinOp(n, old(currentId), target);
        r == v.node && currentId == v.next && mutations == old(mutations) + v.found
      decreases n, 1
    {
      currentId := currentId + 1;
      var here := currentId;
      ghost var vl := MutationCatalog.Visit(n.left, here, target);
      ghost var vr := MutationCatalog.Visit(n.right, vl.next, target);
      var swap := BinSwap(n.op);
      if swap.Some? {
        var entry := Mutation(here, OperatorKind, BinToken(n.op), BinToken(swap.value), n.line);
        mutations := mutations + [entry];
        assert old(mutations) + [entry] + vl.found + vr.found == old(mutations) + ([entry] + vl.found + vr.found);
        if Rewrites(target, here) {
          var left, right := VisitOperands(n);
          return BinOp(swap.value, left, right, n.line);
        }
      }
      var left, right := VisitOperands(n);
      r := BinOp(n.op, left, right, n.line);
    }

    /** `self.visit(node.left)`, then `self.visit(node.right)`. */
    method VisitOperands(n: Node) returns (left: Node, right: Node)
      requires n.BinOp?
      modifies this
      ensures var vl := MutationCatalog.Visit(n.left, old(currentId), target);
        var vr := MutationCatalog.Visit(n.right, vl.next, target);
        left == vl.node && right == vr.node && currentId == vr.next && mutations == old(mutations) + vl.found + vr.found
      decreases n, 0
    {
      left := VisitNode(n.left);
      right := VisitNode(n.right);
    }

    /** `visit_Compare`: only a comparison with exactly one operator takes an id. */
    method VisitCompare(n: Node) returns (r: Node)
      requires n.Compare?
      modifies this
      ensures var v := MutationCatalog.VisitCompare(n, old(currentId), target);
        r == v.node && currentId == v.next && mutations == old(mutations) + v.found
      decreases n, 1
    {
      var ops := n.ops;
      if |n.ops| == 1 {
        currentId := currentId + 1;
        var swap := CmpSwap(n.ops[0]);
        if swap.Some? {
          mutations := mutations + [Mutation(currentId, ComparisonKind, CmpToken(n.ops[0]), CmpToken(swap.value), n.line)];
          if Rewrites(target, currentId) {
            ops := [swap.value];
          }
        }
      }
      r := RebuildCompare(n, ops);
    }

    /** The children of a comparison, left operand first, under the operators `ops`:
        `ast.Compare(left=self.visit(node.left), ops=..., comparators=[self.visit(c) ...])`,
        which is also what `generic_visit` rebuilds. */
    method RebuildCompare(n: Node, ops: seq<CmpOperator>) returns (r: Node)
      requires n.Compare?
      modifies this
      ensures var vl := MutationCatalog.Visit(n.left, old(currentId), target);
        var vcs := VisitAll(n.comparators, vl.next, target);
        r == Compare(vl.node, ops, vcs.nodes, n.line) && currentId == vcs.next
        && mutations == old(mutations) + vl.found + vcs.found
      decreases n, 0
    {
      var left := VisitNode(n.left);
      var comparators := GenericVisit(n.comparators);
      r := Compare(left, ops, comparators, n.line);
    }

    /** `visit_Constant`: a non-zero number takes an id and is recorded. */
    method VisitConstant(n: Node) returns (r: Node)
      requires n.Constant?
      modifies this
      ensures var v := MutationCatalog.VisitConstant(n, old(currentId), target);
        r == v.node && currentId == v.next && mutations == old(mutations) + v.found
    {
      r := n;
      if MutableConstant(n.value) {
        currentId := currentId + 1;
        var mutated := Perturb(Number(n.value).value);
        mutations := mutations + [Mutation(currentId, ConstantKind, LiteralToken(n.value), IntToString(mutated), n.line)];
        if Rewrites(target, currentId) {
          r := Constant(IntLit(mutated), n.line);
        }
      }
    }

    /** `generic_visit` over one list field: every node in order. */
    method GenericVisit(ns: seq<Node>) returns (rs: seq<Node>)
      modifies this
      ensures var v := VisitAll(ns, old(currentId), target);
        rs == v.nodes && currentId == v.next && mutations == old(mutations) + v.found
      decreases ns
    {
      rs := [];
      var i := 0;
      while i < |ns|
        invariant 0 <= i <= |ns|
        invariant var v := VisitAll(ns[..i], old(currentId), target);
          rs == v.nodes && currentId == v.next && mutations == old(mutations) + v.found
      {
        assert ns[..i + 1][..i] == ns[..i];
        var c := VisitNode(ns[i]);
        rs := rs + [c];
        i := i + 1;
      }
      assert ns[..i] == ns;
    }
  }
}
