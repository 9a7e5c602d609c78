/**
  When does emitted code validate? Exactly when one top-level statement produces a value
  and no comparison is used as a value.
*/
module ToolchainValidation {
  import opened Common
  import opened MicroPython
  import opened Toolchain
  import opened Numbers
  import W = Wasm

  // ----- Source-level conditions -----

  /** No comparison is used as a value inside `e`, and `e` is not one itself. */
  predicate NoComparisonValue(e: Expr)
    decreases e, 1
  {
    match e
    case BinOp(l, _, r) => NoComparisonValue(l) && NoComparisonValue(r)
    case Negate(a) => NoComparisonValue(a)
    case IfExp(t, a, b) => CleanTest(t) && NoComparisonValue(a) && NoComparisonValue(b)
    case Compare(_, _, _) => false
    case _ => true
  }

  /** A condition whose operands use no comparison as a value. */
  predicate CleanTest(e: Expr)
    decreases e, 0
  {
    e.Compare? ==> NoComparisonValue(e.left) && forall a | a in e.comparators :: NoComparisonValue(a)
  }

  predicate CleanBranch(s: Stmt) {
    match s
    case Return(Some(e)) => NoComparisonValue(e)
    case ExprStmt(e) => NoComparisonValue(e)
    case _ => true
  }

  predicate CleanStmt(s: Stmt)
    decreases s
  {
    match s
    case Assign(_, e) => NoComparisonValue(e)
    case AnnAssign(_, Some(e)) => NoComparisonValue(e)
    case Return(Some(e)) => NoComparisonValue(e)
    case If(t, a, b) => CleanTest(t) && (forall x | x in a + b :: CleanBranch(x))
    case While(t, body, _) => CleanTest(t) && forall x | x in body :: CleanStmt(x)
    case ExprStmt(e) => NoComparisonValue(e)
    case _ => true
  }

  predicate Clean(ss: seq<Stmt>) {
    forall s | s in ss :: CleanStmt(s)
  }

  /** Statements that leave a value: return, if, `None`, and the tail expression. */
  predicate ProducesValue(s: Stmt) {
    s.Return? || s.If? || s.ExprStmt?
  }

  function CountProducers(ss: seq<Stmt>): nat {
    if ss == [] then 0 else (if ProducesValue(ss[0]) then 1 else 0) + CountProducers(ss[1..])
  }

  // ----- What each statement leaves on the operand stack -----

  function Leaves(s: Stmt): seq<W.ValType> {
    match s
    case Return(Some(e)) => [KindOf(e)]
    case If(_, _, _) => [W.F32T]
    case ExprStmt(e) => [KindOf(e)]
    case _ => []
  }

  function KindOf(e: Expr): W.ValType {
    if e.Compare? then W.I32T else W.F32T
  }

  /** The statement's code validates on its own, whatever it leaves. */
  predicate Typable(s: Stmt) {
    match s
    case Return(Some(e)) => NoComparisonValue(e) || (e.Compare? && CleanTest(e))
    case ExprStmt(e) => NoComparisonValue(e) || (e.Compare? && CleanTest(e))
    case _ => CleanStmt(s)
  }

  function LeavesAll(ss: seq<Stmt>): seq<W.ValType> {
    if ss == [] then [] else Leaves(ss[0]) + LeavesAll(ss[1..])
  }

  // ----- Expressions -----

  function After(c: W.Context, code: W.Code, ts: seq<W.ValType>): Option<W.Frame> {
    W.CheckCode(c, code, W.Frame(ts, false))
  }

  lemma AfterAppend(c: W.Context, a: W.Code, b: W.Code, ts: seq<W.ValType>)
    ensures After(c, a + b, ts) == match After(c, a, ts)
                                   case Some(g) => W.CheckCode(c, b, g)
                                   case None => None
  {
    W.CheckAppend(c, a, b, W.Frame(ts, false));
  }

  lemma AfterOne(c: W.Context, i: W.Instr, f: W.Frame)
    ensures W.CheckCode(c, [i], f) == W.CheckInstr(c, i, f)
  {}

  /** Sequencing two pieces of code that leave `x` and then `y`, when they validate at all. */
  lemma AfterBoth(c: W.Context, a: W.Code, b: W.Code, ts: seq<W.ValType>, x: seq<W.ValType>, y: seq<W.ValType>, aOk: bool, bOk: bool)
    requires After(c, a, ts) == if aOk then Some(W.Frame(ts + x, false)) else None
    requires After(c, b, ts + x) == if bOk then Some(W.Frame(ts + x + y, false)) else None
    ensures After(c, a + b, ts) == if aOk && bOk then Some(W.Frame(ts + (x + y), false)) else None
  {
    AfterAppend(c, a, b, ts);
    assert ts + x + y == ts + (x + y);
  }

  /** Popping two operands of types `a` and `b`. */
  lemma PopTwo(ts: seq<W.ValType>, a: W.ValType, b: W.ValType)
    ensures W.PopAll(W.Frame(ts + [a] + [b], false), [W.F32T, W.F32T])
         == if a == W.F32T && b == W.F32T then Some(W.Frame(ts, false)) else None
  {
    W.PopAllReachable(W.Frame(ts + [a] + [b], false), [W.F32T, W.F32T]);
    assert (ts + [a] + [b])[|ts|..] == [a, b];
    assert (ts + [a] + [b])[..|ts|] == ts;
  }

  /** The emitted code of an expression pushes exactly one value, of the expected kind, when it validates. */
  lemma {:induction false} ExprTypes(names: set<Name>, e: Expr, c: W.Context, ts: seq<W.ValType>)
    requires names <= c.declared && CompileExpr(names, e).Ok?
    ensures After(c, CompileExpr(names, e).value, ts)
         == if NoComparisonValue(e) || (e.Compare? && CleanTest(e))
            then Some(W.Frame(ts + [KindOf(e)], false)) else None
    decreases e, 1
  {
    hide After, Produces, W.CheckCode, CleanTest;
    match e
    case BinOp(l, op, r) =>
      var a, b := CompileExpr(names, l).value, CompileExpr(names, r).value;
      ExprTypes(names, l, c, ts);
      ExprTypes(names, r, c, ts + [KindOf(l)]);
      BinaryTypes(c, a, b, W.Bin(op.op), ts, l, r);
    case Negate(a) =>
      ExprTypes(names, a, c, ts + [W.F32T]);
      NegateTypes(c, CompileExpr(names, a).value, ts, a);
    case IfExp(t, a, b) =>
      TestTypes(names, t, c, ts);
      var d := W.Enter(c, [W.F32T]);
      ExprTypes(names, a, d, []);
      ExprTypes(names, b, d, []);
      EndsBranch(c, CompileExpr(names, a).value, a);
      EndsBranch(c, CompileExpr(names, b).value, b);
      ChooseTypes(c, CompileCompare(names, t).value, CompileExpr(names, a).value, CompileExpr(names, b).value, ts);
    case Compare(_, _, _) => TestTypes(names, e, c, ts);
    case Var(_) => LeafTypes(names, e, c, ts);
    case Constant(_) => LeafTypes(names, e, c, ts);
    case _ =>
  }

  lemma LeafTypes(names: set<Name>, e: Expr, c: W.Context, ts: seq<W.ValType>)
    requires names <= c.declared && CompileExpr(names, e).Ok? && (e.Var? || e.Constant?)
    ensures NoComparisonValue(e) && After(c, CompileExpr(names, e).value, ts) == Some(W.Frame(ts + [KindOf(e)], false))
  {
    match e
    case Var(x) => AfterOne(c, W.LocalGet(x), W.Frame(ts, false));
    case Constant(BoolLit(b)) => AfterOne(c, W.Const(if b then 1.0 else 0.0), W.Frame(ts, false));
    case Constant(NumberLit(k)) => AfterOne(c, W.Const(k), W.Frame(ts, false));
    case _ =>
  }

  /** The code of an expression ends a branch with an f32 result exactly when it is no comparison. */
  lemma EndsBranch(c: W.Context, code: W.Code, e: Expr)
    requires After(W.Enter(c, [W.F32T]), code, [])
          == if NoComparisonValue(e) || (e.Compare? && CleanTest(e)) then Some(W.Frame([] + [KindOf(e)], false)) else None
    ensures Produces(c, code) <==> NoComparisonValue(e)
  {
    hide CleanTest;
    OneEnds(KindOf(e));
    assert [] + [KindOf(e)] == [KindOf(e)];
  }

  lemma NegateTypes(c: W.Context, x: W.Code, ts: seq<W.ValType>, a: Expr)
    requires After(c, x, ts + [W.F32T])
          == if NoComparisonValue(a) || (a.Compare? && CleanTest(a)) then Some(W.Frame(ts + [W.F32T] + [KindOf(a)], false)) else None
    ensures After(c, [W.Const(-1.0)] + x + [W.Bin(Mul)], ts)
         == if NoComparisonValue(a) then Some(W.Frame(ts + [W.F32T], false)) else None
  {
    hide CleanTest;
    AfterAppend(c, [W.Const(-1.0)], x, ts);
    AfterAppend(c, [W.Const(-1.0)] + x, [W.Bin(Mul)], ts);
    PopTwo(ts, W.F32T, KindOf(a));
  }

  lemma BinaryTypes(c: W.Context, a: W.Code, b: W.Code, i: W.Instr, ts: seq<W.ValType>, l: Expr, r: Expr)
    requires i.Bin? || i.Rel?
    requires After(c, a, ts) == if NoComparisonValue(l) || (l.Compare? && CleanTest(l))
                                then Some(W.Frame(ts + [KindOf(l)], false)) else None
    requires After(c, b, ts + [KindOf(l)]) == if NoComparisonValue(r) || (r.Compare? && CleanTest(r))
                                then Some(W.Frame(ts + [KindOf(l)] + [KindOf(r)], false)) else None
    ensures After(c, a + b + [i], ts)
         == if NoComparisonValue(l) && NoComparisonValue(r)
            then Some(W.Frame(ts + [if i.Bin? then W.F32T else W.I32T], false)) else None
  {
    AfterAppend(c, a, b, ts);
    AfterAppend(c, a + b, [i], ts);
    PopTwo(ts, KindOf(l), KindOf(r));
  }

  /** `code` validates as the branch of an `if` with an f32 result. */
  predicate Produces(c: W.Context, code: W.Code) {
    W.CheckBlock(W.Enter(c, [W.F32T]), code, [W.F32T])
  }

  lemma ChooseTypes(c: W.Context, t: W.Code, a: W.Code, b: W.Code, ts: seq<W.ValType>)
    requires After(c, t, ts).Some? ==> After(c, t, ts).value == W.Frame(ts + [W.I32T], false)
    ensures After(c, t + [W.IfElse(a, b)], ts)
         == if After(c, t, ts).Some? && Produces(c, a) && Produces(c, b)
            then Some(W.Frame(ts + [W.F32T], false)) else None
  {
    AfterAppend(c, t, [W.IfElse(a, b)], ts);
    assert (ts + [W.I32T])[..|ts|] == ts;
  }

  lemma {:induction false} TestTypes(names: set<Name>, e: Expr, c: W.Context, ts: seq<W.ValType>)
    requires names <= c.declared && CompileCompare(names, e).Ok?
    ensures After(c, CompileCompare(names, e).value, ts)
         == if CleanTest(e) then Some(W.Frame(ts + [W.I32T], false)) else None
    decreases e, 0
  {
    var l, r := e.left, e.comparators[0];
    assert forall x | x in e.comparators :: x == r;
    ExprTypes(names, l, c, ts);
    ExprTypes(names, r, c, ts + [KindOf(l)]);
    BinaryTypes(c, CompileExpr(names, l).value, CompileExpr(names, r).value, W.Rel(e.ops[0].rel), ts, l, r);
  }

  /** A lone value of type `t` ends a block of result f32 exactly when `t` is f32. */
  lemma OneEnds(t: W.ValType)
    ensures W.Ends(W.Frame([t], false), [W.F32T]) <==> t == W.F32T
  {
    W.PopAllReachable(W.Frame([t], false), [W.F32T]);
  }

  // ----- Statements -----

  lemma BranchTypes(names: set<Name>, s: Stmt, c: W.Context)
    requires names <= c.declared && CompileBranch(names, s).Ok?
    ensures W.CheckBlock(c, CompileBranch(names, s).value, [W.F32T]) <==> CleanBranch(s)
  {
    var e := if s.Return? then s.result.value else s.expr;
    ExprTypes(names, e, c, []);
    OneEnds(KindOf(e));
  }

  lemma StoreTypes(names: set<Name>, x: Expr, e: Expr, c: W.Context, ts: seq<W.ValType>)
    requires names <= c.declared && CompileStore(names, x, e).Ok?
    ensures After(c, CompileStore(names, x, e).value, ts)
         == if NoComparisonValue(e) then Some(W.Frame(ts, false)) else None
  {
    ExprTypes(names, e, c, ts);
    AfterAppend(c, CompileExpr(names, e).value, [W.LocalSet(x.id)], ts);
    assert (ts + [KindOf(e)])[..|ts|] == ts;
  }

  lemma {:induction false} StmtTypes(names: set<Name>, s: Stmt, tail: bool, c: W.Context, ts: seq<W.ValType>)
    requires names <= c.declared && CompileStmt(names, s, tail).Ok?
    ensures After(c, CompileStmt(names, s, tail).value, ts)
         == if Typable(s) then Some(W.Frame(ts + Leaves(s), false)) else None
    decreases s, 0
  {
    assert ts + [] == ts;
    match s
    case Assign(targets, e) => StoreTypes(names, targets[0], e, c, ts);
    case AnnAssign(x, a) => StoreTypes(names, x, a.value, c, ts);
    case Return(r) => ExprTypes(names, r.value, c, ts);
    case If(t, a, b) =>
      TestTypes(names, t, c, ts);
      var d := W.Enter(c, [W.F32T]);
      BranchTypes(names, a[0], d);
      BranchTypes(names, b[0], d);
      ChooseTypes(c, CompileCompare(names, t).value, CompileBranch(names, a[0]).value, CompileBranch(names, b[0]).value, ts);
      assert a + b == [a[0], b[0]];
      assert forall x | x in a + b :: x == a[0] || x == b[0];
      assert a[0] in a + b && b[0] in a + b;
    case While(t, body, _) => WhileTypes(names, s, c, ts);
    case ExprStmt(e) =>
      if e == Constant(NoneLit) { } else { ExprTypes(names, e, c, ts); }
  }

  /** The exit test of a loop: it leaves the frame of the loop body empty again. */
  lemma ExitTypes(d: W.Context, test: W.Code, ok: bool)
    requires |d.labels| >= 2 && d.labels[1] == []
    requires After(d, test, []) == if ok then Some(W.Frame([W.I32T], false)) else None
    ensures After(d, test + [W.Eqz, W.BrIf(1)], []) == if ok then Some(W.Frame([], false)) else None
  {
    var exit: W.Code := [W.Eqz, W.BrIf(1)];
    AfterAppend(d, test, exit, []);
    if ok {
      assert W.CheckInstr(d, W.Eqz, W.Frame([W.I32T], false)) == Some(W.Frame([W.I32T], false));
      assert exit[1..] == [W.BrIf(1)];
      assert W.CheckInstr(d, W.BrIf(1), W.Frame([W.I32T], false)) == Some(W.Frame([], false));
    }
  }

  /** `br 0` drops what the body leaves. */
  lemma BackTypes(d: W.Context, code: W.Code, left: seq<W.ValType>, ok: bool)
    requires d.labels != [] && d.labels[0] == []
    requires After(d, code, []) == if ok then Some(W.Frame(left, false)) else None
    ensures W.CheckBlock(d, code + [W.Br(0)], []) <==> ok
  {
    AfterAppend(d, code, [W.Br(0)], []);
    assert W.Ends(W.Frame([], true), []);
  }

  /** A loop leaves its stack as it was, when its test and its body validate. */
  lemma LoopTypes(c: W.Context, test: W.Code, body: W.Code, ts: seq<W.ValType>, left: seq<W.ValType>, testOk: bool, bodyOk: bool)
    requires var d := W.Enter(W.Enter(c, []), []);
             && After(d, test, []) == (if testOk then Some(W.Frame([W.I32T], false)) else None)
             && After(d, body, []) == (if bodyOk then Some(W.Frame(left, false)) else None)
    ensures After(c, LoopCode(test, body), ts) == if testOk && bodyOk then Some(W.Frame(ts, false)) else None
  {
    hide W.CheckCode, W.CheckBlock;
    var d := W.Enter(W.Enter(c, []), []);
    var exit: W.Code := [W.Eqz, W.BrIf(1)];
    ExitTypes(d, test, testOk);
    AfterAppend(d, test + exit, body, []);
    BackTypes(d, test + exit + body, left, testOk && bodyOk);
    WrapTypes(c, test + exit + body + [W.Br(0)], ts);
  }

  /** A block around a loop around code that validates as [] -> []. */
  lemma WrapTypes(c: W.Context, inner: W.Code, ts: seq<W.ValType>)
    ensures After(c, [W.Block([W.Loop(inner)])], ts)
         == if W.CheckBlock(W.Enter(W.Enter(c, []), []), inner, []) then Some(W.Frame(ts, false)) else None
  {
    assert W.Ends(W.Frame([], false), []);
    AfterOne(W.Enter(c, []), W.Loop(inner), W.Frame([], false));
    AfterOne(c, W.Block([W.Loop(inner)]), W.Frame(ts, false));
    assert ts + [] == ts;
  }

  /** The test leaves the loop body's frame empty again, the body may leave values, and `br 0` drops them. */
  lemma {:induction false} WhileTypes(names: set<Name>, s: Stmt, c: W.Context, ts: seq<W.ValType>)
    requires s.While? && names <= c.declared && CompileStmt(names, s, false).Ok?
    ensures After(c, CompileStmt(names, s, false).value, ts)
         == if CleanStmt(s) then Some(W.Frame(ts, false)) else None
    decreases s.body, 2
  {
    hide After, LoopCode;
    var d := W.Enter(W.Enter(c, []), []);
    TestTypes(names, s.test, d, []);
    LoopBodyTypes(names, s.body, d, []);
    assert [] + [W.I32T] == [W.I32T] && [] + LeavesAll(s.body) == LeavesAll(s.body);
    LoopTypes(c, CompileCompare(names, s.test).value, CompileLoopBody(names, s.body).value, ts, LeavesAll(s.body), CleanTest(s.test), Clean(s.body));
  }

  lemma {:induction false} LoopBodyTypes(names: set<Name>, ss: seq<Stmt>, c: W.Context, ts: seq<W.ValType>)
    requires names <= c.declared && CompileLoopBody(names, ss).Ok?
    ensures After(c, CompileLoopBody(names, ss).value, ts)
         == if Clean(ss) then Some(W.Frame(ts + LeavesAll(ss), false)) else None
    decreases ss, 1
  {
    if ss == [] {
      assert ts + [] == ts;
    } else {
      var first, rest := CompileStmt(names, ss[0], false).value, CompileLoopBody(names, ss[1..]).value;
      StmtTypes(names, ss[0], false, c, ts);
      LoopBodyTypes(names, ss[1..], c, ts + Leaves(ss[0]));
      AfterBoth(c, first, rest, ts, Leaves(ss[0]), LeavesAll(ss[1..]), CleanStmt(ss[0]), Clean(ss[1..]));
      assert ss == [ss[0]] + ss[1..];
    }
  }

  predicate TypableAll(ss: seq<Stmt>) {
    ss == [] || (Typable(ss[0]) && TypableAll(ss[1..]))
  }

  lemma {:induction false} BodyTypes(names: set<Name>, ss: seq<Stmt>, c: W.Context, ts: seq<W.ValType>)
    requires names <= c.declared && CompileBody(names, ss).Ok?
    ensures After(c, CompileBody(names, ss).value, ts)
         == if TypableAll(ss) then Some(W.Frame(ts + LeavesAll(ss), false)) else None
    decreases |ss|
  {
    if ss == [] {
      assert ts + [] == ts;
    } else {
      var first, rest := CompileStmt(names, ss[0], |ss| == 1).value, CompileBody(names, ss[1..]).value;
      StmtTypes(names, ss[0], |ss| == 1, c, ts);
      BodyTypes(names, ss[1..], c, ts + Leaves(ss[0]));
      AfterBoth(c, first, rest, ts, Leaves(ss[0]), LeavesAll(ss[1..]), Typable(ss[0]), TypableAll(ss[1..]));
    }
  }

  lemma LeavesClean(names: set<Name>, s: Stmt, tail: bool)
    requires CompileStmt(names, s, tail).Ok?
    ensures |Leaves(s)| == if ProducesValue(s) then 1 else 0
    ensures CleanStmt(s) <==> Typable(s) && Leaves(s) != [W.I32T]
  {}

  lemma CleanCons(ss: seq<Stmt>)
    requires ss != []
    ensures Clean(ss) <==> CleanStmt(ss[0]) && Clean(ss[1..])
  {
    assert ss == [ss[0]] + ss[1..];
    hide CleanStmt;
  }

  lemma BodyCons(names: set<Name>, ss: seq<Stmt>)
    requires ss != [] && CompileBody(names, ss).Ok?
    ensures CompileStmt(names, ss[0], |ss| == 1).Ok? && CompileBody(names, ss[1..]).Ok?
  {
    hide CompileStmt;
  }

  /** Leaving exactly one f32 means: one producer, and what it produces is no comparison. */
  lemma {:induction false} LeavesOne(names: set<Name>, ss: seq<Stmt>)
    requires CompileBody(names, ss).Ok?
    ensures |LeavesAll(ss)| == CountProducers(ss)
    ensures Clean(ss) <==> TypableAll(ss) && W.I32T !in LeavesAll(ss)
    decreases |ss|
  {
    hide CompileStmt, CompileBody, CleanStmt, Clean, Leaves, ProducesValue, Typable;
    if ss == [] {
      NothingLeft();
    } else {
      BodyCons(names, ss);
      LeavesOne(names, ss[1..]);
      LeavesClean(names, ss[0], |ss| == 1);
      CleanCons(ss);
    }
  }

  lemma NothingLeft()
    ensures Clean([]) && LeavesAll([]) == [] && TypableAll([]) && CountProducers([]) == 0
  {
  }

  /** The local names that the body may mention are the declared ones. */
  function NamesOf(f: FunctionDef): set<Name> {
    (set p | p in f.params) + AssignedInAll(f.body)
  }

  lemma CompiledShape(f: FunctionDef)
    requires CompileFunction(f).Ok?
    ensures var fn := CompileFunction(f).value.func;
            fn.Declared() == NamesOf(f) && CompileBody(NamesOf(f), f.body) == Ok(fn.body)
  {
    var params := set p | p in f.params;
    var locals := AssignedInAll(f.body) - params;
    assert FunctionContext(f.params, locals).Names() == params + locals == NamesOf(f);
  }

  /**
    Validation characterised: the emitted function validates as [] -> [f32] if and only if
    exactly one top-level statement produces a value and no comparison is used as a value.
  */
  lemma ValidatesExactlyWhen(f: FunctionDef)
    requires CompileFunction(f).Ok?
    ensures W.ValidFunc(CompileFunction(f).value.func) <==> CountProducers(f.body) == 1 && Clean(f.body)
  {
    CompiledShape(f);
    var fn := CompileFunction(f).value.func;
    LeavesOne(NamesOf(f), f.body);
    var ts := LeavesAll(f.body);
    if |ts| == 1 {
      assert ts == [ts[0]] && ts[0] in ts;
      assert ts[0] == W.F32T || ts[0] == W.I32T;
    }
    BodyEnds(NamesOf(f), f.body, W.Context(fn.Declared(), [[W.F32T]]));
  }

  lemma BodyEnds(names: set<Name>, ss: seq<Stmt>, c: W.Context)
    requires names <= c.declared && CompileBody(names, ss).Ok?
    ensures W.CheckBlock(c, CompileBody(names, ss).value, [W.F32T]) <==> TypableAll(ss) && LeavesAll(ss) == [W.F32T]
  {
    var ts := LeavesAll(ss);
    BodyTypes(names, ss, c, []);
    assert [] + ts == ts;
    W.PopAllReachable(W.Frame(ts, false), [W.F32T]);
    if |ts| == 1 {
      assert ts[|ts| - 1..] == ts && ts[..0] == [];
    }
  }

  // ----- Names and labels -----

  /** Every local reference is declared and every branch stays inside the enclosing labels. */
  predicate ScopedInstr(i: W.Instr, declared: set<Name>, depth: nat)
    decreases i, 0
  {
    match i
    case LocalGet(x) => x in declared
    case LocalSet(x) => x in declared
    case Br(l) => l < depth
    case BrIf(l) => l < depth
    case Block(body) => Scoped(body, declared, depth + 1)
    case Loop(body) => Scoped(body, declared, depth + 1)
    case IfElse(thn, els) => Scoped(thn, declared, depth + 1) && Scoped(els, declared, depth + 1)
    case _ => true
  }

  predicate Scoped(code: W.Code, declared: set<Name>, depth: nat)
    decreases code, 1
  {
    forall i | i in code :: ScopedInstr(i, declared, depth)
  }

  lemma {:induction false} ScopedExpr(names: set<Name>, e: Expr, depth: nat)
    requires CompileExpr(names, e).Ok?
    ensures Scoped(CompileExpr(names, e).value, names, depth)
    decreases e, 1
  {
    match e
    case BinOp(l, op, r) =>
      ScopedExpr(names, l, depth);
      ScopedExpr(names, r, depth);
    case Negate(a) =>
      ScopedExpr(names, a, depth);
    case IfExp(t, a, b) =>
      ScopedTest(names, t, depth);
      ScopedExpr(names, a, depth + 1);
      ScopedExpr(names, b, depth + 1);
    case Compare(_, _, _) => ScopedTest(names, e, depth);
    case _ =>
  }

  lemma {:induction false} ScopedTest(names: set<Name>, e: Expr, depth: nat)
    requires CompileCompare(names, e).Ok?
    ensures Scoped(CompileCompare(names, e).value, names, depth)
    decreases e, 0
  {
    ScopedExpr(names, e.left, depth);
    ScopedExpr(names, e.comparators[0], depth);
  }

  lemma ScopedLoop(test: W.Code, body: W.Code, declared: set<Name>, depth: nat)
    requires Scoped(test, declared, depth + 2) && Scoped(body, declared, depth + 2)
    ensures Scoped(LoopCode(test, body), declared, depth)
  {
    var inner := test + [W.Eqz, W.BrIf(1)] + body + [W.Br(0)];
    forall i | i in inner
      ensures ScopedInstr(i, declared, depth + 2)
    {
      assert i in test || i in [W.Eqz, W.BrIf(1)] || i in body || i in [W.Br(0)];
    }
    assert ScopedInstr(W.Loop(inner), declared, depth + 1);
    assert ScopedInstr(W.Block([W.Loop(inner)]), declared, depth);
  }

  lemma ScopedBranch(names: set<Name>, s: Stmt, depth: nat)
    requires CompileBranch(names, s).Ok?
    ensures Scoped(CompileBranch(names, s).value, names, depth)
  {
    ScopedExpr(names, if s.Return? then s.result.value else s.expr, depth);
  }

  lemma {:induction false} ScopedStmt(names: set<Name>, s: Stmt, tail: bool, depth: nat)
    requires CompileStmt(names, s, tail).Ok?
    ensures Scoped(CompileStmt(names, s, tail).value, names, depth)
    decreases s, 0
  {
    match s
    case Assign(targets, e) =>
      ScopedExpr(names, e, depth);
    case AnnAssign(x, a) =>
      ScopedExpr(names, a.value, depth);
    case Return(r) => ScopedExpr(names, r.value, depth);
    case If(t, a, b) =>
      assert s.body[0] in s.body && s.orelse[0] in s.orelse;
      ScopedTest(names, t, depth);
      ScopedBranch(names, a[0], depth + 1);
      ScopedBranch(names, b[0], depth + 1);
    case While(t, body, _) =>
      ScopedTest(names, t, depth + 2);
      ScopedLoopBody(names, body, depth + 2);
      ScopedLoop(CompileCompare(names, t).value, CompileLoopBody(names, body).value, names, depth);
    case ExprStmt(e) =>
      if e != Constant(NoneLit) { ScopedExpr(names, e, depth); }
  }

  lemma {:induction false} ScopedLoopBody(names: set<Name>, ss: seq<Stmt>, depth: nat)
    requires CompileLoopBody(names, ss).Ok?
    ensures Scoped(CompileLoopBody(names, ss).value, names, depth)
    decreases ss, 1
  {
    if ss != [] {
      ScopedStmt(names, ss[0], false, depth);
      ScopedLoopBody(names, ss[1..], depth);
    }
  }

  lemma {:induction false} ScopedBody(names: set<Name>, ss: seq<Stmt>, depth: nat)
    requires CompileBody(names, ss).Ok?
    ensures Scoped(CompileBody(names, ss).value, names, depth)
    decreases |ss|
  {
    if ss != [] {
      ScopedStmt(names, ss[0], |ss| == 1, depth);
      ScopedBody(names, ss[1..], depth);
    }
  }

  /** Every accepted function, valid or not, mentions only declared locals and labels in range. */
  lemma EmittedIsScoped(f: FunctionDef)
    requires CompileFunction(f).Ok?
    ensures var fn := CompileFunction(f).value.func; Scoped(fn.body, fn.Declared(), 0)
  {
    CompiledShape(f);
    ScopedBody(NamesOf(f), f.body, 0);
  }

  // ----- Modules -----

  /** Every item is a definition that compiles. */
  predicate Accepted(items: seq<ModuleItem>) {
    forall i | 0 <= i < |items| :: items[i].DefItem? && CompileFunction(items[i].def).Ok?
  }

  function Exports(items: seq<ModuleItem>): (r: seq<Export>)
    requires Accepted(items)
    ensures |r| == |items| && forall i | 0 <= i < |r| :: r[i] == CompileFunction(items[i].def).value
  {
    if items == [] then []
    else
      assert forall i | 0 <= i < |items| - 1 :: items[1..][i] == items[i + 1];
      [CompileFunction(items[0].def).value] + Exports(items[1..])
  }

  lemma AcceptedCons(items: seq<ModuleItem>)
    requires items != []
    ensures Accepted(items) <==> items[0].DefItem? && CompileFunction(items[0].def).Ok? && Accepted(items[1..])
  {
    hide CompileFunction;
    assert forall i | 1 <= i < |items| :: items[i] == items[1..][i - 1];
    assert forall i | 0 <= i < |items| - 1 :: items[1..][i] == items[i + 1];
  }

  lemma VisitAccepted(v: VisitorState, f: FunctionDef)
    requires !v.inFunction && CompileFunction(f).Ok?
    ensures Visit(v, f) == (VisitorState(v.functions + [CompileFunction(f).value], false), Ok(()))
  {
    CompilesSignature(f);
    hide CompileFunction;
  }

  lemma VisitRejected(v: VisitorState, f: FunctionDef)
    requires !v.inFunction && CompileFunction(f).Err?
    ensures Visit(v, f).1.Err?
  {
    hide CompileFunction;
  }

  /** A visitor accepts exactly the modules of definitions that compile, and adds their functions in order. */
  lemma {:induction false} VisitItemsExactly(v: VisitorState, items: seq<ModuleItem>)
    requires !v.inFunction
    ensures VisitItems(v, items).1.Ok? <==> Accepted(items)
    ensures Accepted(items) ==> VisitItems(v, items).0 == VisitorState(v.functions + Exports(items), false)
    decreases |items|
  {
    hide CompileFunction, Visit, Accepted;
    if items == [] {
      NothingAccepted(v);
    } else {
      AcceptedCons(items);
      if items[0].DefItem? {
        var f := items[0].def;
        if CompileFunction(f).Ok? {
          VisitAccepted(v, f);
          var w := Visit(v, f).0;
          VisitItemsExactly(w, items[1..]);
          if Accepted(items) {
            assert w.functions + Exports(items[1..]) == v.functions + ([CompileFunction(f).value] + Exports(items[1..]));
          }
        } else {
          VisitRejected(v, f);
        }
      }
    }
  }

  lemma NothingAccepted(v: VisitorState)
    ensures Accepted([]) && v.functions + Exports([]) == v.functions
  {
  }

  lemma CompilesSignature(f: FunctionDef)
    requires CompileFunction(f).Ok?
    ensures SignatureAllowed(f)
  {
  }

  /** How many definitions of a module are taken in before the first item that is not one that compiles. */
  function Taken(items: seq<ModuleItem>): (k: nat)
    ensures k <= |items| && Accepted(items[..k])
    ensures k < |items| ==> !(items[k].DefItem? && CompileFunction(items[k].def).Ok?)
  {
    if items == [] || !(items[0].DefItem? && CompileFunction(items[0].def).Ok?) then 0
    else
      var k := Taken(items[1..]);
      assert items[..k + 1][1..] == items[1..][..k];
      AcceptedCons(items[..k + 1]);
      k + 1
  }

  /** The module is rejected in the body of a definition, not at its signature or at another kind of item. */
  predicate BodyRejected(items: seq<ModuleItem>) {
    var k := Taken(items);
    k < |items| && items[k].DefItem? && SignatureAllowed(items[k].def)
  }

  /** A rejected body leaves the visitor inside its function. */
  lemma VisitLeaves(v: VisitorState, f: FunctionDef)
    requires !v.inFunction && CompileFunction(f).Err?
    ensures Visit(v, f).0 == v.(inFunction := SignatureAllowed(f))
  {
    hide CompileFunction;
  }

  /**
    What a module leaves behind, accepted or not: the definitions before the first refused item
    stay, and the visitor is stuck inside a function exactly when a body was rejected.
  */
  lemma {:induction false} RejectedBodyPoisons(v: VisitorState, items: seq<ModuleItem>)
    requires !v.inFunction
    ensures VisitItems(v, items).0 == VisitorState(v.functions + Exports(items[..Taken(items)]), BodyRejected(items))
    ensures VisitItems(v, items).1.Ok? <==> Taken(items) == |items|
    decreases |items|
  {
    hide CompileFunction, Visit, Accepted;
    if items == [] {
      NothingAccepted(v);
    } else if items[0].DefItem? && CompileFunction(items[0].def).Ok? {
      var f, k := items[0].def, Taken(items[1..]);
      VisitAccepted(v, f);
      var w := Visit(v, f).0;
      RejectedBodyPoisons(w, items[1..]);
      assert items[..k + 1][1..] == items[1..][..k];
      assert w.functions + Exports(items[1..][..k]) == v.functions + ([CompileFunction(f).value] + Exports(items[1..][..k]));
    } else {
      NothingAccepted(v);
      assert items[..0] == [];
      if items[0].DefItem? {
        VisitRejected(v, items[0].def);
        VisitLeaves(v, items[0].def);
      }
    }
  }

  /** A visitor that is inside a function accepts no module but the empty one, and never changes again. */
  lemma StuckForGood(v: VisitorState, items: seq<ModuleItem>)
    requires v.inFunction
    ensures (VisitItems(v, items).1.Ok? <==> items == []) && VisitItems(v, items).0 == v
  {
    hide CompileFunction;
  }

  /**
    When a compiler object can be used again: after any first module it accepts the next one
    exactly when that is acceptable and no body of the first was rejected, and then the next
    result also holds what the first module left behind.
  */
  lemma ReusableExactly(v: VisitorState, items: seq<ModuleItem>, next: seq<ModuleItem>)
    requires !v.inFunction && next != []
    ensures var w := VisitItems(v, items).0;
            && (VisitItems(w, next).1.Ok? <==> Accepted(next) && !BodyRejected(items))
            && (Accepted(next) && !BodyRejected(items) ==>
                  VisitItems(w, next).0.functions == v.functions + Exports(items[..Taken(items)]) + Exports(next))
  {
    hide CompileFunction, Accepted, BodyRejected, VisitItems;
    var w := VisitItems(v, items).0;
    RejectedBodyPoisons(v, items);
    if BodyRejected(items) {
      StuckForGood(w, next);
    } else {
      VisitItemsExactly(w, next);
    }
  }

  /** A WebAssembly module of functions: each validates, and export names are distinct. */
  predicate ValidModule(fs: seq<Export>) {
    && (forall i | 0 <= i < |fs| :: W.ValidFunc(fs[i].func))
    && forall i, j | 0 <= i < j < |fs| :: fs[i].name != fs[j].name
  }

  /** A whole module validates exactly when each definition meets the condition and no name is defined twice. */
  lemma ModuleValidatesExactlyWhen(items: seq<ModuleItem>)
    requires Accepted(items)
    ensures ValidModule(Exports(items)) <==>
            (forall i | 0 <= i < |items| :: CountProducers(items[i].def.body) == 1 && Clean(items[i].def.body))
            && forall i, j | 0 <= i < j < |items| :: items[i].def.name != items[j].def.name
  {
    hide CompileFunction, W.ValidFunc, CountProducers, Clean;
    var fs := Exports(items);
    forall i | 0 <= i < |items|
      ensures fs[i].name == items[i].def.name
      ensures W.ValidFunc(fs[i].func) <==> CountProducers(items[i].def.body) == 1 && Clean(items[i].def.body)
    {
      ValidatesExactlyWhen(items[i].def);
      ExportName(items[i].def);
    }
  }

  lemma ExportName(f: FunctionDef)
    requires CompileFunction(f).Ok?
    ensures CompileFunction(f).value.name == f.name
  {
  }
}
