/** The catalog of impl/cut/calculator.py, worked out on its syntax tree:
    names, argument lists and annotations are childless `Other` nodes, and
    statements keep their fields in `ast` order. */
module CatalogExample {
  import opened Wrappers
  import opened Text
  import opened MutationCatalog

  const Leaf: Node := Other([])

  /** `def f(a, b) -> T:` with a docstring and two statements: the argument
      list comes first and the return annotation last. */
  function Def(doc: Node, s1: Node, s2: Node): Node { Other([Leaf, doc, s1, s2, Leaf]) }
  function Doc(line: nat): Node { Other([Constant(OtherLit, line)]) }
  function Return(e: Node): Node { Other([e]) }
  function If(test: Node, body: seq<Node>): Node { Other([test] + body) }
  function Call(args: seq<Node>): Node { Other([Leaf] + args) }
  function Raise(line: nat): Node { Other([Call([Constant(OtherLit, line)])]) }

  function AddDef(): Node { Other([Leaf, Doc(5), Return(BinOp(Add, Leaf, Leaf, 6)), Leaf]) }
  function SubtractDef(): Node { Other([Leaf, Doc(10), Return(BinOp(Sub, Leaf, Leaf, 11)), Leaf]) }
  function MultiplyDef(): Node { Other([Leaf, Doc(15), Return(BinOp(Mult, Leaf, Leaf, 16)), Leaf]) }
  function DivideDef(): Node
  {
    Def(Doc(20),
        If(Compare(Leaf, [Eq], [Constant(IntLit(0), 21)], 21), [Raise(22)]),
        Return(BinOp(Div, Leaf, Leaf, 23)))
  }
  function PowerDef(): Node { Other([Leaf, Doc(27), Return(BinOp(Pow, Leaf, Leaf, 28)), Leaf]) }
  function FactorialDef(): Node
  {
    Other([Leaf, Doc(32),
         If(Compare(Leaf, [Lt], [Constant(IntLit(0), 33)], 33), [Raise(34)]),
         If(Other([Leaf, Compare(Leaf, [Eq], [Constant(IntLit(0), 35)], 35), Compare(Leaf, [Eq], [Constant(IntLit(1), 35)], 35)]),
            [Return(Constant(IntLit(1), 36))]),
         Other([Leaf, Constant(IntLit(1), 37)]),
         Other([Leaf, Call([Constant(IntLit(2), 38), BinOp(Add, Leaf, Constant(IntLit(1), 38), 38)]),
                Other([Leaf, Leaf, Leaf])]),
         Return(Leaf), Leaf])
  }

  function Calculator(): Node
  {
    Other([Doc(1), AddDef(), SubtractDef(), MultiplyDef(), DivideDef(), PowerDef(), FactorialDef()])
  }

  /** Visiting `n` from `id` in discovery mode ends at `next` and records `found`. */
  ghost predicate Records(n: Node, id: nat, next: nat, found: seq<Mutation>)
  {
    Visit(n, id, None).next == next && Visit(n, id, None).found == found
  }

  ghost predicate RecordsAll(ns: seq<Node>, id: nat, next: nat, found: seq<Mutation>)
  {
    VisitAll(ns, id, None).next == next && VisitAll(ns, id, None).found == found
  }

  lemma Cons(x: Node, rest: seq<Node>, id: nat, mid: nat, next: nat, fx: seq<Mutation>, frest: seq<Mutation>)
    requires Records(x, id, mid, fx) && RecordsAll(rest, mid, next, frest)
    ensures RecordsAll([x] + rest, id, next, fx + frest)
  {
    VisitAllCons(x, rest, id, None);
  }

  lemma Single(x: Node, id: nat, next: nat, fx: seq<Mutation>)
    requires Records(x, id, next, fx)
    ensures RecordsAll([x], id, next, fx)
  {
    assert [x][..0] == [];
  }

  lemma OtherOf(cs: seq<Node>, id: nat, next: nat, found: seq<Mutation>)
    requires RecordsAll(cs, id, next, found)
    ensures Records(Other(cs), id, next, found)
  {
  }

  lemma Three(a: Node, b: Node, c: Node, i0: nat, i1: nat, i2: nat, i3: nat, fa: seq<Mutation>, fb: seq<Mutation>, fc: seq<Mutation>)
    requires Records(a, i0, i1, fa) && Records(b, i1, i2, fb) && Records(c, i2, i3, fc)
    ensures RecordsAll([a, b, c], i0, i3, fa + fb + fc)
  {
    Single(c, i2, i3, fc);
    Cons(b, [c], i1, i2, i3, fb, fc);
    Cons(a, [b] + [c], i0, i1, i3, fa, fb + fc);
    assert [a] + ([b] + [c]) == [a, b, c];
    assert fa + (fb + fc) == fa + fb + fc;
  }

  lemma AppendAll(xs: seq<Node>, ys: seq<Node>, i: nat, m: nat, n: nat, fx: seq<Mutation>, fy: seq<Mutation>)
    requires RecordsAll(xs, i, m, fx) && RecordsAll(ys, m, n, fy)
    ensures RecordsAll(xs + ys, i, n, fx + fy)
  {
    VisitAllAppend(xs, ys, i, None);
  }

  lemma Pair(a: Node, b: Node, i0: nat, i1: nat, i2: nat, fa: seq<Mutation>, fb: seq<Mutation>)
    requires Records(a, i0, i1, fa) && Records(b, i1, i2, fb)
    ensures RecordsAll([a, b], i0, i2, fa + fb)
  {
    Single(b, i1, i2, fb);
    Cons(a, [b], i0, i1, i2, fa, fb);
    assert [a] + [b] == [a, b];
  }

  /** `def f(...):` with a docstring, the given statements, and a return annotation. */
  lemma DefBody(doc: nat, stmts: seq<Node>, id: nat, next: nat, found: seq<Mutation>)
    requires RecordsAll(stmts, id, next, found)
    ensures Records(Other([Leaf, Doc(doc)] + stmts + [Leaf]), id, next, found)
  {
    QuietLeaves(id, doc);
    QuietLeaves(next, doc);
    Single(Leaf, next, next, []);
    AppendAll(stmts, [Leaf], id, next, next, found, []);
    Cons(Doc(doc), stmts + [Leaf], id, id, next, [], found + []);
    Cons(Leaf, [Doc(doc)] + (stmts + [Leaf]), id, id, next, [], [] + (found + []));
    assert [Leaf] + ([Doc(doc)] + (stmts + [Leaf])) == [Leaf, Doc(doc)] + stmts + [Leaf];
    assert [] + ([] + (found + [])) == found;
    OtherOf([Leaf, Doc(doc)] + stmts + [Leaf], id, next, found);
  }

  /** `if test: body` with a one-statement body. */
  lemma IfOne(test: Node, body: Node, id: nat, mid: nat, next: nat, ft: seq<Mutation>, fb: seq<Mutation>)
    requires Records(test, id, mid, ft) && Records(body, mid, next, fb)
    ensures Records(If(test, [body]), id, next, ft + fb)
  {
    Single(body, mid, next, fb);
    Cons(test, [body], id, mid, next, ft, fb);
    OtherOf([test] + [body], id, next, ft + fb);
  }

  /** A call `f(args)`: the callee name is a childless node. */
  lemma CallOf(args: seq<Node>, id: nat, next: nat, found: seq<Mutation>)
    requires RecordsAll(args, id, next, found)
    ensures Records(Call(args), id, next, found)
  {
    QuietLeaves(id, 0);
    Cons(Leaf, args, id, id, next, [], found);
    assert [] + found == found;
    OtherOf([Leaf] + args, id, next, found);
  }

  lemma Six(a: Node, b: Node, c: Node, d: Node, e: Node, f: Node, i0: nat, i1: nat, i2: nat, i3: nat, i4: nat, i5: nat, i6: nat,
            fa: seq<Mutation>, fb: seq<Mutation>, fc: seq<Mutation>, fd: seq<Mutation>, fe: seq<Mutation>, ff: seq<Mutation>)
    requires Records(a, i0, i1, fa) && Records(b, i1, i2, fb) && Records(c, i2, i3, fc)
    requires Records(d, i3, i4, fd) && Records(e, i4, i5, fe) && Records(f, i5, i6, ff)
    ensures RecordsAll([a, b, c, d, e, f], i0, i6, fa + fb + fc + fd + fe + ff)
  {
    Three(a, b, c, i0, i1, i2, i3, fa, fb, fc);
    Three(d, e, f, i3, i4, i5, i6, fd, fe, ff);
    AppendAll([a, b, c], [d, e, f], i0, i3, i6, fa + fb + fc, fd + fe + ff);
    assert [a, b, c] + [d, e, f] == [a, b, c, d, e, f];
    assert (fa + fb + fc) + (fd + fe + ff) == fa + fb + fc + fd + fe + ff;
  }

  lemma QuietLeaves(id: nat, line: nat)
    ensures Records(Leaf, id, id, [])
    ensures Records(Doc(line), id, id, [])
    ensures Records(Raise(line), id, id, [])
  {
    var c := Constant(OtherLit, line);
    Single(c, id, id, []);
    OtherOf([c], id, id, []);
    Cons(Leaf, [c], id, id, id, [], []);
    OtherOf([Leaf] + [c], id, id, []);
    Single(Call([c]), id, id, []);
    OtherOf([Call([c])], id, id, []);
  }

  /** A definition whose body is a docstring and one statement. */
  lemma DefCatalog(doc: nat, s: Node, id: nat, next: nat, found: seq<Mutation>)
    requires Records(s, id, next, found)
    ensures Records(Other([Leaf, Doc(doc), s, Leaf]), id, next, found)
  {
    Single(s, id, next, found);
    DefBody(doc, [s], id, next, found);
    assert [Leaf, Doc(doc)] + [s] + [Leaf] == [Leaf, Doc(doc), s, Leaf];
  }

  /** `return a <op> b` */
  lemma ReturnBinOp(op: BinOperator, line: nat, id: nat)
    ensures Records(Return(BinOp(op, Leaf, Leaf, line)), id,
                    id + 1, if BinSwap(op).Some? then [Mutation(id + 1, OperatorKind, BinToken(op), BinToken(BinSwap(op).value), line)] else [])
  {
    QuietLeaves(id + 1, line);
    Single(BinOp(op, Leaf, Leaf, line), id, id + 1,
           if BinSwap(op).Some? then [Mutation(id + 1, OperatorKind, BinToken(op), BinToken(BinSwap(op).value), line)] else []);
  }

  /** A non-zero constant on its own. */
  lemma ConstantCatalog(v: int, line: nat, id: nat)
    requires v != 0
    ensures Records(Constant(IntLit(v), line), id, id + 1, [Mutation(id + 1, ConstantKind, IntToString(v), IntToString(Perturb(v)), line)])
  {
  }

  /** `name <op> v` with an integer literal `v`. */
  lemma CompareCatalog(op: CmpOperator, v: int, line: nat, id: nat)
    ensures var here := id + 1;
      Records(Compare(Leaf, [op], [Constant(IntLit(v), line)], line), id,
              if v != 0 then here + 1 else here,
              (if CmpSwap(op).Some? then [Mutation(here, ComparisonKind, CmpToken(op), CmpToken(CmpSwap(op).value), line)] else [])
              + (if v != 0 then [Mutation(here + 1, ConstantKind, IntToString(v), IntToString(Perturb(v)), line)] else []))
  {
    var here := id + 1;
    var c := Constant(IntLit(v), line);
    var fc := if v != 0 then [Mutation(here + 1, ConstantKind, IntToString(v), IntToString(Perturb(v)), line)] else [];
    Single(c, here, if v != 0 then here + 1 else here, fc);
    QuietLeaves(here, line);
  }

  lemma SmallNumbers()
    ensures IntToString(1) == "1" && IntToString(2) == "2" && IntToString(3) == "3"
    ensures Perturb(1) == 2 && Perturb(2) == 3
  {
  }

  /** `divide`: the guard `b == 0` takes the next id without an entry. */
  lemma DivideCatalog(id: nat)
    ensures Records(DivideDef(), id, id + 2, [Mutation(id + 2, OperatorKind, "/", "*", 23)])
  {
    var cmp := Compare(Leaf, [Eq], [Constant(IntLit(0), 21)], 21);
    var guard := If(cmp, [Raise(22)]);
    var ret := Return(BinOp(Div, Leaf, Leaf, 23));
    var e := [Mutation(id + 2, OperatorKind, "/", "*", 23)];
    CompareCatalog(Eq, 0, 21, id);
    QuietLeaves(id + 1, 22);
    IfOne(cmp, Raise(22), id, id + 1, id + 1, [], []);
    ReturnBinOp(Div, 23, id + 1);
    Pair(guard, ret, id, id + 1, id + 2, [], e);
    DefBody(20, [guard, ret], id, id + 2, [] + e);
    assert [Leaf, Doc(20)] + [guard, ret] + [Leaf] == [Leaf, Doc(20), guard, ret, Leaf];
    assert [] + e == e;
  }

  /** `if n < 0: raise ValueError(...)` */
  lemma NegativeGuardCatalog()
    ensures Records(If(Compare(Leaf, [Lt], [Constant(IntLit(0), 33)], 33), [Raise(34)]), 6, 7,
                    [Mutation(7, ComparisonKind, "<", ">=", 33)])
  {
    var lt := Compare(Leaf, [Lt], [Constant(IntLit(0), 33)], 33);
    var f1 := [Mutation(7, ComparisonKind, "<", ">=", 33)];
    CompareCatalog(Lt, 0, 33, 6);
    assert Records(lt, 6, 7, f1);
    QuietLeaves(7, 34);
    IfOne(lt, Raise(34), 6, 7, 7, f1, []);
    assert f1 + [] == f1;
  }

  /** `n == 0 or n == 1` */
  lemma BaseTestCatalog()
    ensures Records(Other([Leaf, Compare(Leaf, [Eq], [Constant(IntLit(0), 35)], 35), Compare(Leaf, [Eq], [Constant(IntLit(1), 35)], 35)]),
                    7, 10, [Mutation(10, ConstantKind, "1", "2", 35)])
  {
    SmallNumbers();
    var eq0 := Compare(Leaf, [Eq], [Constant(IntLit(0), 35)], 35);
    var eq1 := Compare(Leaf, [Eq], [Constant(IntLit(1), 35)], 35);
    var f2 := [Mutation(10, ConstantKind, "1", "2", 35)];
    CompareCatalog(Eq, 0, 35, 7);
    assert Records(eq0, 7, 8, []);
    CompareCatalog(Eq, 1, 35, 8);
    assert Records(eq1, 8, 10, f2);
    QuietLeaves(7, 35);
    Three(Leaf, eq0, eq1, 7, 7, 8, 10, [], [], f2);
    assert [] + [] + f2 == f2;
    OtherOf([Leaf, eq0, eq1], 7, 10, f2);
  }

  /** `if n == 0 or n == 1: return 1` */
  lemma BaseCaseCatalog()
    ensures Records(If(Other([Leaf, Compare(Leaf, [Eq], [Constant(IntLit(0), 35)], 35), Compare(Leaf, [Eq], [Constant(IntLit(1), 35)], 35)]),
                       [Return(Constant(IntLit(1), 36))]),
                    7, 11, [Mutation(10, ConstantKind, "1", "2", 35), Mutation(11, ConstantKind, "1", "2", 36)])
  {
    SmallNumbers();
    BaseTestCatalog();
    var or := Other([Leaf, Compare(Leaf, [Eq], [Constant(IntLit(0), 35)], 35), Compare(Leaf, [Eq], [Constant(IntLit(1), 35)], 35)]);
    var f2 := [Mutation(10, ConstantKind, "1", "2", 35)];
    var f3 := [Mutation(11, ConstantKind, "1", "2", 36)];
    ConstantCatalog(1, 36, 10);
    Single(Constant(IntLit(1), 36), 10, 11, f3);
    OtherOf([Constant(IntLit(1), 36)], 10, 11, f3);
    IfOne(or, Return(Constant(IntLit(1), 36)), 7, 10, 11, f2, f3);
  }

  /** `result = 1` */
  lemma AssignCatalog()
    ensures Records(Other([Leaf, Constant(IntLit(1), 37)]), 11, 12, [Mutation(12, ConstantKind, "1", "2", 37)])
  {
    SmallNumbers();
    var f4 := [Mutation(12, ConstantKind, "1", "2", 37)];
    ConstantCatalog(1, 37, 11);
    QuietLeaves(11, 37);
    Pair(Leaf, Constant(IntLit(1), 37), 11, 11, 12, [], f4);
    assert [] + f4 == f4;
    OtherOf([Leaf, Constant(IntLit(1), 37)], 11, 12, f4);
  }

  /** `range(2, n + 1)`: the call's arguments in order. */
  lemma RangeCatalog()
    ensures Records(Call([Constant(IntLit(2), 38), BinOp(Add, Leaf, Constant(IntLit(1), 38), 38)]), 12, 15,
                    [Mutation(13, ConstantKind, "2", "3", 38), Mutation(14, OperatorKind, "+", "-", 38), Mutation(15, ConstantKind, "1", "2", 38)])
  {
    SmallNumbers();
    var two := Constant(IntLit(2), 38);
    var plus := BinOp(Add, Leaf, Constant(IntLit(1), 38), 38);
    var f5 := [Mutation(13, ConstantKind, "2", "3", 38)];
    var f6 := [Mutation(14, OperatorKind, "+", "-", 38), Mutation(15, ConstantKind, "1", "2", 38)];
    ConstantCatalog(2, 38, 12);
    ConstantCatalog(1, 38, 14);
    QuietLeaves(14, 38);
    assert Records(plus, 13, 15, f6);
    Pair(two, plus, 12, 13, 15, f5, f6);
    CallOf([two, plus], 12, 15, f5 + f6);
  }

  /** `for i in range(2, n + 1): result *= i` (an augmented assignment is no `BinOp`). */
  lemma LoopCatalog()
    ensures Records(Other([Leaf, Call([Constant(IntLit(2), 38), BinOp(Add, Leaf, Constant(IntLit(1), 38), 38)]), Other([Leaf, Leaf, Leaf])]), 12, 15,
                    [Mutation(13, ConstantKind, "2", "3", 38), Mutation(14, OperatorKind, "+", "-", 38), Mutation(15, ConstantKind, "1", "2", 38)])
  {
    RangeCatalog();
    var call := Call([Constant(IntLit(2), 38), BinOp(Add, Leaf, Constant(IntLit(1), 38), 38)]);
    var f := [Mutation(13, ConstantKind, "2", "3", 38), Mutation(14, OperatorKind, "+", "-", 38), Mutation(15, ConstantKind, "1", "2", 38)];
    var aug := Other([Leaf, Leaf, Leaf]);
    QuietLeaves(15, 38);
    QuietLeaves(12, 38);
    Three(Leaf, Leaf, Leaf, 15, 15, 15, 15, [], [], []);
    OtherOf([Leaf, Leaf, Leaf], 15, 15, [] + [] + []);
    Three(Leaf, call, aug, 12, 12, 15, 15, [], f, []);
    assert [] + f + [] == f;
    OtherOf([Leaf, call, aug], 12, 15, f);
  }

  lemma FactorialCatalog()
    ensures Records(FactorialDef(), 6, 15, [
      Mutation(7, ComparisonKind, "<", ">=", 33),
      Mutation(10, ConstantKind, "1", "2", 35),
      Mutation(11, ConstantKind, "1", "2", 36),
      Mutation(12, ConstantKind, "1", "2", 37),
      Mutation(13, ConstantKind, "2", "3", 38),
      Mutation(14, OperatorKind, "+", "-", 38),
      Mutation(15, ConstantKind, "1", "2", 38)])
  {
    var if1 := If(Compare(Leaf, [Lt], [Constant(IntLit(0), 33)], 33), [Raise(34)]);
    var if2 := If(Other([Leaf, Compare(Leaf, [Eq], [Constant(IntLit(0), 35)], 35), Compare(Leaf, [Eq], [Constant(IntLit(1), 35)], 35)]),
                  [Return(Constant(IntLit(1), 36))]);
    var assign := Other([Leaf, Constant(IntLit(1), 37)]);
    var loop := Other([Leaf, Call([Constant(IntLit(2), 38), BinOp(Add, Leaf, Constant(IntLit(1), 38), 38)]), Other([Leaf, Leaf, Leaf])]);
    var ret2 := Return(Leaf);
    var f1 := [Mutation(7, ComparisonKind, "<", ">=", 33)];
    var f23 := [Mutation(10, ConstantKind, "1", "2", 35), Mutation(11, ConstantKind, "1", "2", 36)];
    var f4 := [Mutation(12, ConstantKind, "1", "2", 37)];
    var f56 := [Mutation(13, ConstantKind, "2", "3", 38), Mutation(14, OperatorKind, "+", "-", 38), Mutation(15, ConstantKind, "1", "2", 38)];
    NegativeGuardCatalog();
    BaseCaseCatalog();
    AssignCatalog();
    LoopCatalog();
    QuietLeaves(15, 32);
    Single(Leaf, 15, 15, []);
    OtherOf([Leaf], 15, 15, []);
    Three(if1, if2, assign, 6, 7, 11, 12, f1, f23, f4);
    Pair(loop, ret2, 12, 15, 15, f56, []);
    AppendAll([if1, if2, assign], [loop, ret2], 6, 12, 15, f1 + f23 + f4, f56 + []);
    var stmts := [if1, if2, assign] + [loop, ret2];
    DefBody(32, stmts, 6, 15, f1 + f23 + f4 + (f56 + []));
    assert [Leaf, Doc(32)] + stmts + [Leaf] == [Leaf, Doc(32), if1, if2, assign, loop, ret2, Leaf];
    assert f1 + f23 + f4 + (f56 + []) == f1 + f23 + f4 + f56;
  }

  /** The five definitions before `factorial`. */
  lemma ArithmeticDefsCatalog()
    ensures Records(AddDef(), 0, 1, [Mutation(1, OperatorKind, "+", "-", 6)])
    ensures Records(SubtractDef(), 1, 2, [Mutation(2, OperatorKind, "-", "+", 11)])
    ensures Records(MultiplyDef(), 2, 3, [Mutation(3, OperatorKind, "*", "/", 16)])
    ensures Records(DivideDef(), 3, 5, [Mutation(5, OperatorKind, "/", "*", 23)])
    ensures Records(PowerDef(), 5, 6, [])
  {
    OperatorDefCatalog(5, Add, 6, 0, [Mutation(1, OperatorKind, "+", "-", 6)]);
    OperatorDefCatalog(10, Sub, 11, 1, [Mutation(2, OperatorKind, "-", "+", 11)]);
    OperatorDefCatalog(15, Mult, 16, 2, [Mutation(3, OperatorKind, "*", "/", 16)]);
    DivideCatalog(3);
    OperatorDefCatalog(27, Pow, 28, 5, []);
  }

  /** `def f(a, b): """..."""; return a <op> b` */
  lemma OperatorDefCatalog(doc: nat, op: BinOperator, line: nat, id: nat, found: seq<Mutation>)
    requires found == if BinSwap(op).Some? then [Mutation(id + 1, OperatorKind, BinToken(op), BinToken(BinSwap(op).value), line)] else []
    ensures Records(Other([Leaf, Doc(doc), Return(BinOp(op, Leaf, Leaf, line)), Leaf]), id, id + 1, found)
  {
    ReturnBinOp(op, line, id);
    DefCatalog(doc, Return(BinOp(op, Leaf, Leaf, line)), id, id + 1, found);
  }

  /** The definitions of the module, visited in order from id 0. */
  lemma DefinitionsCatalog()
    ensures RecordsAll([AddDef(), SubtractDef(), MultiplyDef(), DivideDef(), PowerDef(), FactorialDef()], 0, 15, [
      Mutation(1, OperatorKind, "+", "-", 6),
      Mutation(2, OperatorKind, "-", "+", 11),
      Mutation(3, OperatorKind, "*", "/", 16),
      Mutation(5, OperatorKind, "/", "*", 23),
      Mutation(7, ComparisonKind, "<", ">=", 33),
      Mutation(10, ConstantKind, "1", "2", 35),
      Mutation(11, ConstantKind, "1", "2", 36),
      Mutation(12, ConstantKind, "1", "2", 37),
      Mutation(13, ConstantKind, "2", "3", 38),
      Mutation(14, OperatorKind, "+", "-", 38),
      Mutation(15, ConstantKind, "1", "2", 38)])
  {
    var g1 := [Mutation(1, OperatorKind, "+", "-", 6)];
    var g2 := [Mutation(2, OperatorKind, "-", "+", 11)];
    var g3 := [Mutation(3, OperatorKind, "*", "/", 16)];
    var g4 := [Mutation(5, OperatorKind, "/", "*", 23)];
    var g6 := [
      Mutation(7, ComparisonKind, "<", ">=", 33),
      Mutation(10, ConstantKind, "1", "2", 35),
      Mutation(11, ConstantKind, "1", "2", 36),
      Mutation(12, ConstantKind, "1", "2", 37),
      Mutation(13, ConstantKind, "2", "3", 38),
      Mutation(14, OperatorKind, "+", "-", 38),
      Mutation(15, ConstantKind, "1", "2", 38)];
    ArithmeticDefsCatalog();
    FactorialCatalog();
    Six(AddDef(), SubtractDef(), MultiplyDef(), DivideDef(), PowerDef(), FactorialDef(), 0, 1, 2, 3, 5, 6, 15, g1, g2, g3, g4, [], g6);
    ModuleEntries(g1, g2, g3, g4, g6);
  }

  /** The six definitions' entries, joined. */
  lemma ModuleEntries(g1: seq<Mutation>, g2: seq<Mutation>, g3: seq<Mutation>, g4: seq<Mutation>, g6: seq<Mutation>)
    requires g1 == [Mutation(1, OperatorKind, "+", "-", 6)] && g2 == [Mutation(2, OperatorKind, "-", "+", 11)]
    requires g3 == [Mutation(3, OperatorKind, "*", "/", 16)] && g4 == [Mutation(5, OperatorKind, "/", "*", 23)]
    requires g6 == [
      Mutation(7, ComparisonKind, "<", ">=", 33),
      Mutation(10, ConstantKind, "1", "2", 35),
      Mutation(11, ConstantKind, "1", "2", 36),
      Mutation(12, ConstantKind, "1", "2", 37),
      Mutation(13, ConstantKind, "2", "3", 38),
      Mutation(14, OperatorKind, "+", "-", 38),
      Mutation(15, ConstantKind, "1", "2", 38)]
    ensures g1 + g2 + g3 + g4 + [] + g6 == [
      Mutation(1, OperatorKind, "+", "-", 6),
      Mutation(2, OperatorKind, "-", "+", 11),
      Mutation(3, OperatorKind, "*", "/", 16),
      Mutation(5, OperatorKind, "/", "*", 23),
      Mutation(7, ComparisonKind, "<", ">=", 33),
      Mutation(10, ConstantKind, "1", "2", 35),
      Mutation(11, ConstantKind, "1", "2", 36),
      Mutation(12, ConstantKind, "1", "2", 37),
      Mutation(13, ConstantKind, "2", "3", 38),
      Mutation(14, OperatorKind, "+", "-", 38),
      Mutation(15, ConstantKind, "1", "2", 38)]
  {
  }

  /** Eleven entries: ids 4 (`b == 0`), 6 (`**`), 8 and 9 (`n == 0`, `n == 1`)
      are taken without an entry, and `result *= i` is not a binary operation. */
  lemma CalculatorCatalog()
    ensures Discover(Calculator()) == [
      Mutation(1, OperatorKind, "+", "-", 6),
      Mutation(2, OperatorKind, "-", "+", 11),
      Mutation(3, OperatorKind, "*", "/", 16),
      Mutation(5, OperatorKind, "/", "*", 23),
      Mutation(7, ComparisonKind, "<", ">=", 33),
      Mutation(10, ConstantKind, "1", "2", 35),
      Mutation(11, ConstantKind, "1", "2", 36),
      Mutation(12, ConstantKind, "1", "2", 37),
      Mutation(13, ConstantKind, "2", "3", 38),
      Mutation(14, OperatorKind, "+", "-", 38),
      Mutation(15, ConstantKind, "1", "2", 38)]
  {
    var defs := [AddDef(), SubtractDef(), MultiplyDef(), DivideDef(), PowerDef(), FactorialDef()];
    var all := [
      Mutation(1, OperatorKind, "+", "-", 6),
      Mutation(2, OperatorKind, "-", "+", 11),
      Mutation(3, OperatorKind, "*", "/", 16),
      Mutation(5, OperatorKind, "/", "*", 23),
      Mutation(7, ComparisonKind, "<", ">=", 33),
      Mutation(10, ConstantKind, "1", "2", 35),
      Mutation(11, ConstantKind, "1", "2", 36),
      Mutation(12, ConstantKind, "1", "2", 37),
      Mutation(13, ConstantKind, "2", "3", 38),
      Mutation(14, OperatorKind, "+", "-", 38),
      Mutation(15, ConstantKind, "1", "2", 38)];
    DefinitionsCatalog();
    DocThen(1, defs, 0, 15, all);
    assert [Doc(1)] + defs == [Doc(1), AddDef(), SubtractDef(), MultiplyDef(), DivideDef(), PowerDef(), FactorialDef()];
  }

  /** A module: its docstring, then its statements. */
  lemma DocThen(doc: nat, ns: seq<Node>, id: nat, next: nat, found: seq<Mutation>)
    requires RecordsAll(ns, id, next, found)
    ensures Records(Other([Doc(doc)] + ns), id, next, found)
  {
    QuietLeaves(id, doc);
    Cons(Doc(doc), ns, id, id, next, [], found);
    assert [] + found == found;
    OtherOf([Doc(doc)] + ns, id, next, found);
  }
}
