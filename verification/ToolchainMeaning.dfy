/**
  Compiler correctness: the emitted code of a function computes what the source computes.
*/
module ToolchainMeaning {
  import opened Common
  import opened Numbers
  import opened MicroPython
  import opened Toolchain
  import opened ToolchainValidation
  import W = Wasm

  /** The target locals hold every assigned source variable; unassigned ones are unconstrained. */
  predicate Agree(store: Store, locals: W.Locals) {
    forall x | x in store :: x in locals && locals[x] == W.F32(store[x])
  }

  /** The locals are exactly the declared names, and all hold numbers. */
  predicate Fits(names: set<Name>, locals: W.Locals) {
    locals.Keys == names && forall x | x in locals :: locals[x].F32?
  }

  // ----- Expressions -----

  /** An expression whose evaluation succeeds pushes its value and changes nothing else. */
  lemma {:induction false} ExprRuns(p: Python, names: set<Name>, e: Expr, store: Store, locals: W.Locals, stack: seq<W.Value>, fuel: nat)
    requires CompileExpr(names, e).Ok? && NoComparisonValue(e) && Agree(store, locals)
    requires Eval(p, e, store).Some?
    ensures W.Exec(p.m, CompileExpr(names, e).value, locals, stack, fuel)
         == W.Falls(locals, stack + [W.F32(Eval(p, e, store).value)])
    decreases e, 1
  {
    match e
    case BinOp(l, op, r) =>
      var a, b := CompileExpr(names, l).value, CompileExpr(names, r).value;
      var x, y := Eval(p, l, store).value, Eval(p, r, store).value;
      ExprRuns(p, names, l, store, locals, stack, fuel);
      ExprRuns(p, names, r, store, locals, stack + [W.F32(x)], fuel);
      BinaryRuns(p.m, a, b, W.Bin(op.op), x, y, locals, stack, fuel);
    case Negate(a) =>
      var code, minus, x := CompileExpr(names, a).value, p.m.literal(-1.0), Eval(p, a, store).value;
      OneRuns(p.m, W.Const(-1.0), locals, stack, fuel);
      ExprRuns(p, names, a, store, locals, stack + [W.F32(minus)], fuel);
      BinaryRuns(p.m, [W.Const(-1.0)], code, W.Bin(Mul), minus, x, locals, stack, fuel);
    case IfExp(t, a, b) =>
      TestRuns(p, names, t, store, locals, stack, fuel);
      var c := EvalTest(p, t, store).value;
      ExprRuns(p, names, if c then a else b, store, locals, [], fuel);
      ChooseRuns(p.m, CompileCompare(names, t).value, CompileExpr(names, a).value, CompileExpr(names, b).value,
                 c, Eval(p, e, store).value, locals, stack, fuel);
    case Var(x) => OneRuns(p.m, W.LocalGet(x), locals, stack, fuel);
    case Constant(BoolLit(b)) => OneRuns(p.m, W.Const(if b then 1.0 else 0.0), locals, stack, fuel);
    case Constant(NumberLit(k)) => OneRuns(p.m, W.Const(k), locals, stack, fuel);
    case _ =>
  }

  lemma OneRuns(m: Arith, i: W.Instr, locals: W.Locals, stack: seq<W.Value>, fuel: nat)
    ensures W.Exec(m, [i], locals, stack, fuel) == W.ExecInstr(m, i, locals, stack, fuel)
  {
    var r := W.ExecInstr(m, i, locals, stack, fuel);
    assert r.Falls? ==> W.Exec(m, [], r.locals, r.stack, fuel) == r;
  }

  lemma BinaryRuns(m: Arith, a: W.Code, b: W.Code, i: W.Instr, x: Num, y: Num, locals: W.Locals, stack: seq<W.Value>, fuel: nat)
    requires i.Bin? || i.Rel?
    requires W.Exec(m, a, locals, stack, fuel) == W.Falls(locals, stack + [W.F32(x)])
    requires W.Exec(m, b, locals, stack + [W.F32(x)], fuel) == W.Falls(locals, stack + [W.F32(x)] + [W.F32(y)])
    ensures W.Exec(m, a + b + [i], locals, stack, fuel)
         == W.Falls(locals, stack + [if i.Bin? then W.F32(m.arith(i.op, x, y)) else W.I32(m.compare(i.rel, x, y))])
  {
    W.ExecAppend(m, a, b, locals, stack, fuel);
    W.ExecAppend(m, a + b, [i], locals, stack, fuel);
    var s := stack + [W.F32(x)] + [W.F32(y)];
    OneRuns(m, i, locals, s, fuel);
    assert W.Top2(s) == Some((x, y)) && s[..|s| - 2] == stack;
  }

  lemma ChooseRuns(m: Arith, t: W.Code, a: W.Code, b: W.Code, c: bool, v: Num, locals: W.Locals, stack: seq<W.Value>, fuel: nat)
    requires W.Exec(m, t, locals, stack, fuel) == W.Falls(locals, stack + [W.I32(c)])
    requires W.Exec(m, if c then a else b, locals, [], fuel) == W.Falls(locals, [] + [W.F32(v)])
    ensures W.Exec(m, t + [W.IfElse(a, b)], locals, stack, fuel) == W.Falls(locals, stack + [W.F32(v)])
  {
    W.ExecAppend(m, t, [W.IfElse(a, b)], locals, stack, fuel);
    var s := stack + [W.I32(c)];
    assert s[..|s| - 1] == stack;
    OneRuns(m, W.IfElse(a, b), locals, s, fuel);
  }

  lemma {:induction false} TestRuns(p: Python, names: set<Name>, e: Expr, store: Store, locals: W.Locals, stack: seq<W.Value>, fuel: nat)
    requires CompileCompare(names, e).Ok? && CleanTest(e) && Agree(store, locals)
    requires EvalTest(p, e, store).Some?
    ensures W.Exec(p.m, CompileCompare(names, e).value, locals, stack, fuel)
         == W.Falls(locals, stack + [W.I32(EvalTest(p, e, store).value)])
    decreases e, 0
  {
    var l, r := e.left, e.comparators[0];
    var x, y := Eval(p, l, store).value, Eval(p, r, store).value;
    ExprRuns(p, names, l, store, locals, stack, fuel);
    ExprRuns(p, names, r, store, locals, stack + [W.F32(x)], fuel);
    BinaryRuns(p.m, CompileExpr(names, l).value, CompileExpr(names, r).value, W.Rel(e.ops[0].rel), x, y, locals, stack, fuel);
  }

  // ----- Statements that continue -----

  /** What a continuing statement leaves on the operand stack: a `None` leaves a zero. */
  function Residue(m: Arith, s: Stmt): seq<W.Value> {
    if s.ExprStmt? then [W.F32(m.literal(0.0))] else []
  }

  function ResidueAll(m: Arith, ss: seq<Stmt>): seq<W.Value> {
    if ss == [] then [] else Residue(m, ss[0]) + ResidueAll(m, ss[1..])
  }

  /** The target run `r` does what the source outcome `o` says, leaving `left` on `stack`. */
  predicate Matches(o: Outcome, r: W.Run, names: set<Name>, stack: seq<W.Value>, left: seq<W.Value>) {
    match o
    case Continues(store) => r.Falls? && r.stack == stack + left && Agree(store, r.locals) && Fits(names, r.locals)
    case OutOfFuel => r.OutOfFuel?
    case Returns(_) => false
    case Raises => true
  }

  lemma StoreRuns(p: Python, names: set<Name>, x: Expr, e: Expr, store: Store, locals: W.Locals, stack: seq<W.Value>, fuel: nat)
    requires CompileStore(names, x, e).Ok? && NoComparisonValue(e) && Agree(store, locals) && Fits(names, locals)
    ensures Matches(Bind(x, Eval(p, e, store), store),
                    W.Exec(p.m, CompileStore(names, x, e).value, locals, stack, fuel), names, stack, [])
  {
    if Eval(p, e, store).Some? {
      ExprRuns(p, names, e, store, locals, stack, fuel);
      var s := stack + [W.F32(Eval(p, e, store).value)];
      W.ExecAppend(p.m, CompileExpr(names, e).value, [W.LocalSet(x.id)], locals, stack, fuel);
      OneRuns(p.m, W.LocalSet(x.id), locals, s, fuel);
      assert s[..|s| - 1] == stack && stack + [] == stack;
    }
  }

  /** A statement that a loop body may contain. */
  predicate Plain(s: Stmt) {
    s.Assign? || s.AnnAssign? || s.While? || s == ExprStmt(Constant(NoneLit))
  }

  lemma {:induction false} PlainRuns(p: Python, names: set<Name>, s: Stmt, store: Store, locals: W.Locals, stack: seq<W.Value>, fuel: nat)
    requires Plain(s) && CompileStmt(names, s, false).Ok? && CleanStmt(s)
    requires Agree(store, locals) && Fits(names, locals)
    ensures Matches(RunStmt(p, s, false, store, fuel),
                    W.Exec(p.m, CompileStmt(names, s, false).value, locals, stack, fuel), names, stack, Residue(p.m, s))
    decreases fuel, s, 1
  {
    match s
    case Assign(targets, e) => StoreRuns(p, names, targets[0], e, store, locals, stack, fuel);
    case AnnAssign(x, a) => StoreRuns(p, names, x, a.value, store, locals, stack, fuel);
    case ExprStmt(_) => OneRuns(p.m, W.Const(0.0), locals, stack, fuel);
    case While(t, body, _) =>
      var test, b := CompileCompare(names, t).value, CompileLoopBody(names, body).value;
      LoopRuns(p, names, s, store, locals, [], fuel);
      var loop := W.Loop(LoopBody(test, b));
      OneRuns(p.m, loop, locals, [], fuel);
      OneRuns(p.m, W.Block([loop]), locals, stack, fuel);
  }

  function LoopBody(test: W.Code, body: W.Code): W.Code {
    test + [W.Eqz, W.BrIf(1)] + body + [W.Br(0)]
  }

  /** One pass over the emitted loop body: leave by label 1 when the test fails, else come back by label 0. */
  lemma PassRuns(m: Arith, test: W.Code, body: W.Code, c: bool, r: W.Run, locals: W.Locals, fuel: nat)
    requires W.Exec(m, test, locals, [], fuel) == W.Falls(locals, [W.I32(c)])
    requires c ==> r == W.Exec(m, body, locals, [], fuel)
    ensures var pass := W.Exec(m, LoopBody(test, body), locals, [], fuel);
            if !c then pass == W.Jump(1, locals, [])
            else if r.Falls? then pass == W.Jump(0, r.locals, r.stack)
            else pass == r
  {
    hide W.ExecInstr;
    var exit: W.Code := [W.Eqz, W.BrIf(1)];
    W.ExecAppend(m, test + exit + body, [W.Br(0)], locals, [], fuel);
    W.ExecAppend(m, test + exit, body, locals, [], fuel);
    W.ExecAppend(m, test, exit, locals, [], fuel);
    ExitRuns(m, c, locals, fuel);
    if c && r.Falls? {
      BackRuns(m, r.locals, r.stack, fuel);
    }
  }

  /** The exit of the loop is taken when the test fails. */
  lemma ExitRuns(m: Arith, c: bool, locals: W.Locals, fuel: nat)
    ensures W.Exec(m, [W.Eqz, W.BrIf(1)], locals, [W.I32(c)], fuel) == if c then W.Falls(locals, []) else W.Jump(1, locals, [])
  {
    var exit: W.Code := [W.Eqz, W.BrIf(1)];
    var s := [W.I32(c)];
    assert exit[0] == W.Eqz && exit[1..] == [W.BrIf(1)];
    assert s[..|s| - 1] + [W.I32(!c)] == [W.I32(!c)];
    assert W.ExecInstr(m, W.Eqz, locals, s, fuel) == W.Falls(locals, [W.I32(!c)]);
    OneRuns(m, W.BrIf(1), locals, [W.I32(!c)], fuel);
    assert [W.I32(!c)][..0] == [];
  }

  lemma BackRuns(m: Arith, locals: W.Locals, stack: seq<W.Value>, fuel: nat)
    ensures W.Exec(m, [W.Br(0)], locals, stack, fuel) == W.Jump(0, locals, stack)
  {
    OneRuns(m, W.Br(0), locals, stack, fuel);
  }

  /**
    Loop equivalence, fuel by fuel: the emitted loop leaves its enclosing block exactly when
    the source loop ends, with the same variables, and needs more fuel exactly when it does.
  */
  lemma {:induction false} LoopRuns(p: Python, names: set<Name>, s: Stmt, store: Store, locals: W.Locals, stack: seq<W.Value>, fuel: nat)
    requires s.While? && CompileCompare(names, s.test).Ok? && CompileLoopBody(names, s.body).Ok? && CleanStmt(s)
    requires Agree(store, locals) && Fits(names, locals)
    ensures var o := RunStmt(p, s, false, store, fuel);
            var code := LoopBody(CompileCompare(names, s.test).value, CompileLoopBody(names, s.body).value);
            var r := W.ExecInstr(p.m, W.Loop(code), locals, stack, fuel);
            match o
            case Continues(store') => r.Jump? && r.depth == 0 && Agree(store', r.locals) && Fits(names, r.locals)
            case OutOfFuel => r.OutOfFuel?
            case Returns(_) => false
            case Raises => true
    decreases fuel, s, 0
  {
    var test, body := CompileCompare(names, s.test).value, CompileLoopBody(names, s.body).value;
    var c := EvalTest(p, s.test, store);
    if c.Some? {
      TestRuns(p, names, s.test, store, locals, [], fuel);
      assert [] + [W.I32(c.value)] == [W.I32(c.value)];
      var r := W.Exec(p.m, body, locals, [], fuel);
      PassRuns(p.m, test, body, c.value, r, locals, fuel);
      if c.value {
        LoopBodyRuns(p, names, s.body, store, locals, [], fuel);
        var o := RunStmts(p, s.body, false, store, fuel);
        if o.Continues? && fuel > 0 {
          LoopRuns(p, names, s, o.store, r.locals, stack, fuel - 1);
        }
      }
    }
  }

  lemma {:induction false} LoopBodyRuns(p: Python, names: set<Name>, ss: seq<Stmt>, store: Store, locals: W.Locals, stack: seq<W.Value>, fuel: nat)
    requires CompileLoopBody(names, ss).Ok? && Clean(ss)
    requires Agree(store, locals) && Fits(names, locals)
    ensures Matches(RunStmts(p, ss, false, store, fuel),
                    W.Exec(p.m, CompileLoopBody(names, ss).value, locals, stack, fuel), names, stack, ResidueAll(p.m, ss))
    decreases fuel, ss, 2
  {
    if ss == [] {
      assert stack + [] == stack;
    } else {
      var a, b := CompileStmt(names, ss[0], false).value, CompileLoopBody(names, ss[1..]).value;
      PlainRuns(p, names, ss[0], store, locals, stack, fuel);
      W.ExecAppend(p.m, a, b, locals, stack, fuel);
      var o := RunStmt(p, ss[0], false, store, fuel);
      if o.Continues? {
        var r := W.Exec(p.m, a, locals, stack, fuel);
        LoopBodyRuns(p, names, ss[1..], o.store, r.locals, r.stack, fuel);
        assert r.stack + ResidueAll(p.m, ss[1..]) == stack + ResidueAll(p.m, ss);
      }
    }
  }

  // ----- Function bodies -----

  predicate Produced(o: Outcome, r: W.Run, tail: bool, store: Store, locals: W.Locals, stack: seq<W.Value>) {
    match o
    case Returns(v) => r == W.Falls(locals, stack + [W.F32(v)])
    case Continues(store') => store' == store && !tail && r.Falls? && r.locals == locals && |r.stack| == |stack| + 1
    case OutOfFuel => false
    case Raises => true
  }

  /** An `if` statement whose branches produce values. */
  lemma IfProduces(p: Python, names: set<Name>, s: Stmt, tail: bool, store: Store, locals: W.Locals, stack: seq<W.Value>, fuel: nat)
    requires s.If? && CompileStmt(names, s, tail).Ok? && CleanStmt(s) && Agree(store, locals)
    ensures Produced(RunStmt(p, s, tail, store, fuel),
                     W.Exec(p.m, CompileStmt(names, s, tail).value, locals, stack, fuel), tail, store, locals, stack)
  {
    hide W.Exec, Eval, EvalTest, CompileExpr, CompileCompare;
    var t, a, b := s.test, s.body, s.orelse;
    if EvalTest(p, t, store).Some? {
      var c := EvalTest(p, t, store).value;
      var branch := if c then a[0] else b[0];
      assert a[0] in a + b && b[0] in a + b;
      var e := if branch.Return? then branch.result.value else branch.expr;
      if Eval(p, e, store).Some? {
        TestRuns(p, names, t, store, locals, stack, fuel);
        ExprRuns(p, names, e, store, locals, [], fuel);
        ChooseRuns(p.m, CompileCompare(names, t).value, CompileBranch(names, a[0]).value, CompileBranch(names, b[0]).value,
                   c, Eval(p, e, store).value, locals, stack, fuel);
      }
    }
  }

  /** A value-producing statement pushes its value; one that is not last may go on. */
  lemma ProducerRuns(p: Python, names: set<Name>, s: Stmt, tail: bool, store: Store, locals: W.Locals, stack: seq<W.Value>, fuel: nat)
    requires ProducesValue(s) && CompileStmt(names, s, tail).Ok? && CleanStmt(s) && Agree(store, locals)
    ensures Produced(RunStmt(p, s, tail, store, fuel),
                     W.Exec(p.m, CompileStmt(names, s, tail).value, locals, stack, fuel), tail, store, locals, stack)
  {
    match s
    case Return(e) =>
      if Eval(p, e.value, store).Some? { ExprRuns(p, names, e.value, store, locals, stack, fuel); }
    case ExprStmt(e) =>
      if e == Constant(NoneLit) {
        OneRuns(p.m, W.Const(0.0), locals, stack, fuel);
      } else if Eval(p, e, store).Some? {
        ExprRuns(p, names, e, store, locals, stack, fuel);
      }
    case If(_, _, _) => IfProduces(p, names, s, tail, store, locals, stack, fuel);
  }

  /** What one top-level statement does to the target. */
  predicate Stepped(o: Outcome, r: W.Run, names: set<Name>, producer: bool, locals: W.Locals, stack: seq<W.Value>) {
    match o
    case Returns(v) => producer && r == W.Falls(locals, stack + [W.F32(v)]) && Fits(names, locals)
    case Continues(store) => r.Falls? && Agree(store, r.locals) && Fits(names, r.locals) && (!producer ==> r.stack == stack)
    case OutOfFuel => r.OutOfFuel?
    case Raises => true
  }

  lemma StepRuns(p: Python, names: set<Name>, s: Stmt, tail: bool, store: Store, locals: W.Locals, stack: seq<W.Value>, fuel: nat)
    requires CompileStmt(names, s, tail).Ok? && CleanStmt(s) && Agree(store, locals) && Fits(names, locals)
    ensures Stepped(RunStmt(p, s, tail, store, fuel),
                    W.Exec(p.m, CompileStmt(names, s, tail).value, locals, stack, fuel), names, ProducesValue(s), locals, stack)
  {
    if ProducesValue(s) {
      ProducerRuns(p, names, s, tail, store, locals, stack, fuel);
    } else {
      assert CompileStmt(names, s, false) == CompileStmt(names, s, tail);
      PlainIgnoresTail(p, s, tail, store, fuel);
      PlainRuns(p, names, s, store, locals, stack, fuel);
      assert stack + [] == stack;
    }
  }

  /** The rest of the body, from statement `i` on, is still to run with `v` on top of `below`. */
  predicate Reaches(m: Arith, names: set<Name>, ss: seq<Stmt>, r: W.Run, v: Num, i: nat, reached: W.Locals, below: seq<W.Value>, fuel: nat) {
    && 0 < i <= |ss| && ProducesValue(ss[i - 1]) && Fits(names, reached)
    && CompileBody(names, ss[i..]).Ok?
    && r == W.Exec(m, CompileBody(names, ss[i..]).value, reached, below + [W.F32(v)], fuel)
  }

  /** How many statements run until the source returns, and the variables at that point. */
  function ReturnPoint(p: Python, ss: seq<Stmt>, store: Store, fuel: nat): (r: (nat, Store))
    ensures r.0 <= |ss|
    decreases |ss|
  {
    if ss == [] then (0, store)
    else match RunStmt(p, ss[0], |ss| == 1, store, fuel)
         case Continues(store') => var (i, at) := ReturnPoint(p, ss[1..], store', fuel); (i + 1, at)
         case _ => (1, store)
  }

  /** Runs a whole body. When the source returns, the target has produced the same value. */
  lemma {:induction false} BodyRuns(p: Python, names: set<Name>, ss: seq<Stmt>, store: Store, locals: W.Locals, stack: seq<W.Value>, fuel: nat)
    returns (i: nat, reached: W.Locals, below: seq<W.Value>)
    requires CompileBody(names, ss).Ok? && Clean(ss) && Agree(store, locals) && Fits(names, locals)
    ensures var o := RunStmts(p, ss, true, store, fuel);
            var r := W.Exec(p.m, CompileBody(names, ss).value, locals, stack, fuel);
            && (o.OutOfFuel? ==> r.OutOfFuel?)
            && (o.Returns? ==> Reaches(p.m, names, ss, r, o.num, i, reached, below, fuel)
                               && i == ReturnPoint(p, ss, store, fuel).0 && Agree(ReturnPoint(p, ss, store, fuel).1, reached))
            && (o.Returns? && CountProducers(ss) == 1 ==> below == stack && CountProducers(ss[i..]) == 0)
            && (o.Continues? ==> ss == [] || !ProducesValue(ss[|ss| - 1]))
    decreases |ss|
  {
    i, reached, below := 0, locals, stack;
    if ss != [] {
      var tail := |ss| == 1;
      var a, b := CompileStmt(names, ss[0], tail).value, CompileBody(names, ss[1..]).value;
      W.ExecAppend(p.m, a, b, locals, stack, fuel);
      StepRuns(p, names, ss[0], tail, store, locals, stack, fuel);
      var o := RunStmt(p, ss[0], tail, store, fuel);
      var r := W.Exec(p.m, a, locals, stack, fuel);
      if o.Continues? {
        var j;
        j, reached, below := BodyRuns(p, names, ss[1..], o.store, r.locals, r.stack, fuel);
        i := j + 1;
        assert j <= |ss[1..]| ==> ss[1..][j..] == ss[i..];
        if RunStmts(p, ss, true, store, fuel).Returns? {
          LaterProducer(ss[1..], j - 1);
        }
        if tail && RunStmts(p, ss, true, store, fuel).Continues? && ProducesValue(ss[0]) {
          ProducerRuns(p, names, ss[0], tail, store, locals, stack, fuel);
        }
      } else if o.Returns? {
        i, reached := 1, r.locals;
      }
    }
  }

  lemma {:induction false} PlainIgnoresTail(p: Python, s: Stmt, tail: bool, store: Store, fuel: nat)
    requires !ProducesValue(s)
    ensures RunStmt(p, s, tail, store, fuel) == RunStmt(p, s, false, store, fuel)
    decreases fuel
  {
    if s.While? && EvalTest(p, s.test, store) == Some(true) && fuel > 0 {
      var o := RunStmts(p, s.body, false, store, fuel);
      if o.Continues? {
        PlainIgnoresTail(p, s, tail, o.store, fuel - 1);
      }
    }
  }

  lemma {:induction false} LaterProducer(ss: seq<Stmt>, i: nat)
    requires i < |ss| && ProducesValue(ss[i])
    ensures CountProducers(ss) >= 1
    decreases |ss|
  {
    if i > 0 {
      assert ss[1..][i - 1] == ss[i];
      LaterProducer(ss[1..], i - 1);
    }
  }

  // ----- Whole functions -----

  /** The source call returns `v`. */
  ghost predicate SourceReturns(p: Python, f: FunctionDef, args: Store, v: Num) {
    exists fuel :: RunFunction(p, f, args, fuel) == Returns(v)
  }

  ghost predicate SourceDiverges(p: Python, f: FunctionDef, args: Store) {
    forall fuel :: RunFunction(p, f, args, fuel).OutOfFuel?
  }

  predicate YieldsAt(m: Arith, fn: W.Func, args: Store, v: Num, fuel: nat) {
    var r := W.Call(m, fn, args, fuel);
    r.Falls? && r.stack == [W.F32(v)]
  }

  /** The target call returns `v`. */
  ghost predicate TargetReturns(m: Arith, fn: W.Func, args: Store, v: Num) {
    exists fuel :: YieldsAt(m, fn, args, v, fuel)
  }

  ghost predicate TargetDiverges(m: Arith, fn: W.Func, args: Store) {
    forall fuel :: W.Call(m, fn, args, fuel).OutOfFuel?
  }

  /** No loop follows the statement that produces the value. */
  predicate NoLoopAfterValue(ss: seq<Stmt>) {
    ss == [] ||
    if ProducesValue(ss[0]) then forall s | s in ss[1..] :: !s.While? else NoLoopAfterValue(ss[1..])
  }

  /** The arguments are bound to parameters. */
  predicate Arguments(f: FunctionDef, args: Store) {
    forall x | x in args :: x in f.params
  }

  /** A validated body without producers runs to its end, leaving the stack alone, unless a loop in it never ends. */
  lemma TrailRuns(m: Arith, names: set<Name>, ss: seq<Stmt>, locals: W.Locals, stack: seq<W.Value>, fuel: nat)
    requires CompileBody(names, ss).Ok? && Clean(ss) && CountProducers(ss) == 0 && Fits(names, locals)
    ensures var r := W.Exec(m, CompileBody(names, ss).value, locals, stack, fuel);
            r.OutOfFuel? || (r.Falls? && r.stack == stack)
  {
    var c, code := W.Context(names, []), CompileBody(names, ss).value;
    BodyTypes(names, ss, c, []);
    LeavesOne(names, ss);
    assert [] + LeavesAll(ss) == [];
    W.SoundCode(m, c, code, W.Frame([], false), locals, [], fuel);
    W.FrameRule(m, code, locals, stack, [], fuel);
    assert stack + [] == stack;
  }

  predicate LoopFree(code: W.Code) {
    forall i | i in code :: !i.Loop? && !i.Block? && (i.IfElse? ==> LoopFree(i.thn) && LoopFree(i.els))
  }

  lemma {:induction false} LoopFreeTerminates(m: Arith, code: W.Code, locals: W.Locals, stack: seq<W.Value>, fuel: nat)
    requires LoopFree(code)
    ensures !W.Exec(m, code, locals, stack, fuel).OutOfFuel?
    decreases code
  {
    if code != [] {
      var i := code[0];
      if i.IfElse? && |stack| > 0 && stack[|stack| - 1].I32? {
        LoopFreeTerminates(m, if stack[|stack| - 1].bit then i.thn else i.els, locals, [], fuel);
      }
      match W.ExecInstr(m, i, locals, stack, fuel)
      case Falls(l, s) => LoopFreeTerminates(m, code[1..], l, s, fuel);
      case _ =>
    }
  }

  lemma LoopFreeChoose(test: W.Code, a: W.Code, b: W.Code)
    requires LoopFree(test) && LoopFree(a) && LoopFree(b)
    ensures LoopFree(test + [W.IfElse(a, b)])
  {}

  lemma {:induction false} LoopFreeExpr(names: set<Name>, e: Expr)
    requires CompileExpr(names, e).Ok?
    ensures LoopFree(CompileExpr(names, e).value)
    decreases e, 1
  {
    match e
    case BinOp(l, _, r) => LoopFreeExpr(names, l); LoopFreeExpr(names, r);
    case Negate(a) => LoopFreeExpr(names, a);
    case IfExp(t, a, b) =>
      LoopFreeTest(names, t);
      LoopFreeExpr(names, a);
      LoopFreeExpr(names, b);
      LoopFreeChoose(CompileCompare(names, t).value, CompileExpr(names, a).value, CompileExpr(names, b).value);
    case Compare(_, _, _) => LoopFreeTest(names, e);
    case _ =>
  }

  lemma {:induction false} LoopFreeTest(names: set<Name>, e: Expr)
    requires CompileCompare(names, e).Ok?
    ensures LoopFree(CompileCompare(names, e).value)
    decreases e, 0
  {
    LoopFreeExpr(names, e.left);
    LoopFreeExpr(names, e.comparators[0]);
  }

  /** Without `while`, the statements after the value compile to loop-free code. */
  lemma {:induction false} LoopFreeBody(names: set<Name>, ss: seq<Stmt>)
    requires CompileBody(names, ss).Ok? && CountProducers(ss) == 0 && forall s | s in ss :: !s.While?
    ensures LoopFree(CompileBody(names, ss).value)
    decreases |ss|
  {
    if ss != [] {
      LoopFreeBody(names, ss[1..]);
      assert ss[0] in ss;
      LoopFreeExpr(names, if ss[0].Assign? then ss[0].value else ss[0].annotated.value);
    }
  }

  lemma {:induction false} AfterValueIsLoopFree(ss: seq<Stmt>, i: nat)
    requires 0 < i <= |ss| && ProducesValue(ss[i - 1]) && CountProducers(ss) == 1 && NoLoopAfterValue(ss)
    ensures forall s | s in ss[i..] :: !s.While?
    decreases i
  {
    if i > 1 {
      assert ss[1..][i - 2] == ss[i - 1] && ss[1..][i - 1..] == ss[i..];
      LaterProducer(ss[1..], i - 2);
      AfterValueIsLoopFree(ss[1..], i - 1);
    }
  }

  /**
    The two calls agree fuel by fuel: a source run that needs more fuel needs it in the
    target too, and a source run that returns returns the same in the target, unless a loop
    after the value has not ended yet.
  */
  lemma {:induction false} CallsAgree(p: Python, f: FunctionDef, args: Store, fuel: nat)
    requires CompileFunction(f).Ok? && W.ValidFunc(CompileFunction(f).value.func) && Arguments(f, args)
    ensures var o := RunFunction(p, f, args, fuel);
            var fn := CompileFunction(f).value.func;
            && (o.OutOfFuel? ==> W.Call(p.m, fn, args, fuel).OutOfFuel?)
            && (o.Returns? ==> W.Call(p.m, fn, args, fuel).OutOfFuel? || YieldsAt(p.m, fn, args, o.num, fuel))
            && (o.Returns? && NoLoopAfterValue(f.body) ==> YieldsAt(p.m, fn, args, o.num, fuel))
            && (o.Continues? ==> f.body == [] || !ProducesValue(f.body[|f.body| - 1]))
  {
    var fn := CompileFunction(f).value.func;
    var names, locals := NamesOf(f), W.Zeroed(p.m, fn, args);
    ValidatesExactlyWhen(f);
    CompiledShape(f);
    assert CompileBody(names, f.body).value == fn.body;
    var i, reached, below := BodyRuns(p, names, f.body, args, locals, [], fuel);
    var o := RunFunction(p, f, args, fuel);
    if o.Returns? {
      var trail := f.body[i..];
      forall s | s in trail ensures CleanStmt(s) { assert s in f.body; }
      TrailRuns(p.m, names, trail, reached, below + [W.F32(o.num)], fuel);
      assert [] + [W.F32(o.num)] == [W.F32(o.num)];
      if NoLoopAfterValue(f.body) {
        AfterValueIsLoopFree(f.body, i);
        LoopFreeBody(names, trail);
        LoopFreeTerminates(p.m, CompileBody(names, trail).value, reached, below + [W.F32(o.num)], fuel);
      }
    }
  }

  // ----- Fuel is only a bound -----

  lemma {:induction false} MoreSourceFuelStmt(p: Python, s: Stmt, tail: bool, store: Store, fuel: nat, more: nat)
    requires fuel <= more && !RunStmt(p, s, tail, store, fuel).OutOfFuel?
    ensures RunStmt(p, s, tail, store, more) == RunStmt(p, s, tail, store, fuel)
    decreases fuel, s, 0
  {
    if s.While? && EvalTest(p, s.test, store) == Some(true) {
      MoreSourceFuel(p, s.body, false, store, fuel, more);
      var o := RunStmts(p, s.body, false, store, fuel);
      if o.Continues? {
        MoreSourceFuelStmt(p, s, tail, o.store, fuel - 1, more - 1);
      }
    }
  }

  lemma {:induction false} MoreSourceFuel(p: Python, ss: seq<Stmt>, tail: bool, store: Store, fuel: nat, more: nat)
    requires fuel <= more && !RunStmts(p, ss, tail, store, fuel).OutOfFuel?
    ensures RunStmts(p, ss, tail, store, more) == RunStmts(p, ss, tail, store, fuel)
    decreases fuel, ss, 1
  {
    if ss != [] {
      MoreSourceFuelStmt(p, ss[0], tail && |ss| == 1, store, fuel, more);
      var o := RunStmt(p, ss[0], tail && |ss| == 1, store, fuel);
      if o.Continues? {
        MoreSourceFuel(p, ss[1..], tail, o.store, fuel, more);
      }
    }
  }

  lemma MoreTargetFuel(m: Arith, fn: W.Func, args: Store, fuel: nat, more: nat)
    requires fuel <= more && !W.Call(m, fn, args, fuel).OutOfFuel?
    ensures W.Call(m, fn, args, more) == W.Call(m, fn, args, fuel)
  {
    W.MoreFuel(m, fn.body, W.Zeroed(m, fn, args), [], fuel, more);
  }

  // ----- The theorems -----

  /** The target never returns a different value: it returns the source's value or runs for ever. */
  lemma ReturnsOrDiverges(p: Python, f: FunctionDef, args: Store, v: Num)
    requires CompileFunction(f).Ok? && W.ValidFunc(CompileFunction(f).value.func) && Arguments(f, args)
    requires SourceReturns(p, f, args, v)
    ensures var fn := CompileFunction(f).value.func;
            && (TargetReturns(p.m, fn, args, v) || TargetDiverges(p.m, fn, args))
            && forall w :: TargetReturns(p.m, fn, args, w) ==> w == v
  {
    var fn := CompileFunction(f).value.func;
    var fuel: nat :| RunFunction(p, f, args, fuel) == Returns(v);
    forall g: nat | !W.Call(p.m, fn, args, g).OutOfFuel?
      ensures YieldsAt(p.m, fn, args, v, g)
    {
      var h := if fuel < g then g else fuel;
      MoreSourceFuel(p, f.body, true, args, fuel, h);
      MoreTargetFuel(p.m, fn, args, g, h);
      CallsAgree(p, f, args, h);
    }
  }

  // ----- Exactly when the value survives -----

  /** The statements end when they are run from these variables. */
  ghost predicate Terminates(p: Python, ss: seq<Stmt>, store: Store) {
    exists fuel: nat :: RunStmts(p, ss, false, store, fuel).Continues?
  }

  ghost predicate NeverRaisesFrom(p: Python, ss: seq<Stmt>, store: Store) {
    forall fuel: nat :: !RunStmts(p, ss, false, store, fuel).Raises?
  }

  /** Statements after the value run in the target as they would in the source. */
  lemma {:induction false} TrailMatches(p: Python, names: set<Name>, ss: seq<Stmt>, store: Store, locals: W.Locals, stack: seq<W.Value>, fuel: nat)
    requires CompileBody(names, ss).Ok? && Clean(ss) && CountProducers(ss) == 0 && Agree(store, locals) && Fits(names, locals)
    ensures Matches(RunStmts(p, ss, false, store, fuel),
                    W.Exec(p.m, CompileBody(names, ss).value, locals, stack, fuel), names, stack, [])
    decreases |ss|
  {
    if ss == [] {
      assert stack + [] == stack;
    } else {
      var a, b := CompileStmt(names, ss[0], |ss| == 1).value, CompileBody(names, ss[1..]).value;
      StepRuns(p, names, ss[0], |ss| == 1, store, locals, stack, fuel);
      PlainIgnoresTail(p, ss[0], |ss| == 1, store, fuel);
      W.ExecAppend(p.m, a, b, locals, stack, fuel);
      var o := RunStmt(p, ss[0], false, store, fuel);
      if o.Continues? {
        var r := W.Exec(p.m, a, locals, stack, fuel);
        TrailMatches(p, names, ss[1..], o.store, r.locals, r.stack, fuel);
      }
    }
  }

  lemma {:induction false} ReturnPointIsStable(p: Python, ss: seq<Stmt>, store: Store, fuel: nat, more: nat)
    requires fuel <= more && RunStmts(p, ss, true, store, fuel).Returns?
    ensures ReturnPoint(p, ss, store, more) == ReturnPoint(p, ss, store, fuel)
    decreases |ss|
  {
    if ss != [] {
      var o := RunStmt(p, ss[0], |ss| == 1, store, fuel);
      MoreSourceFuelStmt(p, ss[0], |ss| == 1, store, fuel, more);
      if o.Continues? {
        ReturnPointIsStable(p, ss[1..], o.store, fuel, more);
      }
    }
  }

  /** At every larger fuel the call ends as the trailing statements do, with the value below them. */
  lemma TrailDecides(p: Python, f: FunctionDef, args: Store, v: Num, fuel: nat, more: nat)
    requires CompileFunction(f).Ok? && W.ValidFunc(CompileFunction(f).value.func) && Arguments(f, args)
    requires RunFunction(p, f, args, fuel) == Returns(v) && fuel <= more
    ensures var (i, at) := ReturnPoint(p, f.body, args, fuel);
            match RunStmts(p, f.body[i..], false, at, more)
            case Continues(_) => YieldsAt(p.m, CompileFunction(f).value.func, args, v, more)
            case OutOfFuel => W.Call(p.m, CompileFunction(f).value.func, args, more).OutOfFuel?
            case Returns(_) => false
            case Raises => true
  {
    var fn := CompileFunction(f).value.func;
    var names, locals := NamesOf(f), W.Zeroed(p.m, fn, args);
    ValidatesExactlyWhen(f);
    CompiledShape(f);
    assert CompileBody(names, f.body).value == fn.body;
    MoreSourceFuel(p, f.body, true, args, fuel, more);
    ReturnPointIsStable(p, f.body, args, fuel, more);
    var i, reached, below := BodyRuns(p, names, f.body, args, locals, [], more);
    var trail := f.body[i..];
    forall s | s in trail ensures CleanStmt(s) { assert s in f.body; }
    TrailMatches(p, names, trail, ReturnPoint(p, f.body, args, fuel).1, reached, below + [W.F32(v)], more);
    assert [] + [W.F32(v)] + [] == [W.F32(v)];
  }

  /**
    The exact condition: once the source has returned v, the target returns v if and only if
    the statements after the returning one, run from the variables at that point, terminate.
    It is assumed that they do not raise.
  */
  lemma ValueSurvivesExactly(p: Python, f: FunctionDef, args: Store, v: Num, fuel: nat)
    requires CompileFunction(f).Ok? && W.ValidFunc(CompileFunction(f).value.func) && Arguments(f, args)
    requires RunFunction(p, f, args, fuel) == Returns(v)
    requires NeverRaisesFrom(p, f.body[ReturnPoint(p, f.body, args, fuel).0..], ReturnPoint(p, f.body, args, fuel).1)
    ensures TargetReturns(p.m, CompileFunction(f).value.func, args, v)
       <==> Terminates(p, f.body[ReturnPoint(p, f.body, args, fuel).0..], ReturnPoint(p, f.body, args, fuel).1)
  {
    var fn := CompileFunction(f).value.func;
    var trail, at := f.body[ReturnPoint(p, f.body, args, fuel).0..], ReturnPoint(p, f.body, args, fuel).1;
    if Terminates(p, trail, at) {
      var h: nat :| RunStmts(p, trail, false, at, h).Continues?;
      var g := if fuel < h then h else fuel;
      MoreSourceFuel(p, trail, false, at, h, g);
      TrailDecides(p, f, args, v, fuel, g);
      assert YieldsAt(p.m, fn, args, v, g);
    }
    if TargetReturns(p.m, fn, args, v) {
      var h: nat :| YieldsAt(p.m, fn, args, v, h);
      var g := if fuel < h then h else fuel;
      MoreTargetFuel(p.m, fn, args, h, g);
      TrailDecides(p, f, args, v, fuel, g);
      assert RunStmts(p, trail, false, at, g).Continues?;
    }
  }

  /** Compiler correctness for returning runs: the value survives when no loop follows it. */
  lemma MeaningPreserved(p: Python, f: FunctionDef, args: Store, v: Num)
    requires CompileFunction(f).Ok? && W.ValidFunc(CompileFunction(f).value.func) && Arguments(f, args)
    requires NoLoopAfterValue(f.body) && SourceReturns(p, f, args, v)
    ensures TargetReturns(p.m, CompileFunction(f).value.func, args, v)
  {
    var fuel: nat :| RunFunction(p, f, args, fuel) == Returns(v);
    CallsAgree(p, f, args, fuel);
  }

  /** A body whose only producer is its last statement has no loop after the value. */
  lemma {:induction false} TailHasNoLoopAfter(ss: seq<Stmt>)
    requires CountProducers(ss) == 1 && ss != [] && ProducesValue(ss[|ss| - 1])
    ensures NoLoopAfterValue(ss)
    decreases |ss|
  {
    if |ss| > 1 {
      assert ss[1..][|ss| - 2] == ss[|ss| - 1];
      LaterProducer(ss[1..], |ss| - 2);
      TailHasNoLoopAfter(ss[1..]);
    }
  }

  /** The source never raises on these arguments. */
  ghost predicate NeverRaises(p: Python, f: FunctionDef, args: Store) {
    forall fuel :: !RunFunction(p, f, args, fuel).Raises?
  }

  /**
    Compiler correctness: a validated function whose last statement produces the value, run
    on arguments on which the source does not raise, returns exactly what the source returns
    and diverges exactly when the source diverges.
  */
  lemma CompilerCorrect(p: Python, f: FunctionDef, args: Store)
    requires CompileFunction(f).Ok? && W.ValidFunc(CompileFunction(f).value.func) && Arguments(f, args)
    requires f.body != [] && ProducesValue(f.body[|f.body| - 1])
    requires NeverRaises(p, f, args)
    ensures var fn := CompileFunction(f).value.func;
            && (forall v :: SourceReturns(p, f, args, v) <==> TargetReturns(p.m, fn, args, v))
            && (SourceDiverges(p, f, args) <==> TargetDiverges(p.m, fn, args))
  {
    var fn := CompileFunction(f).value.func;
    ValidatesExactlyWhen(f);
    TailHasNoLoopAfter(f.body);
    forall fuel: nat
      ensures RunFunction(p, f, args, fuel).OutOfFuel? <==> W.Call(p.m, fn, args, fuel).OutOfFuel?
      ensures forall v :: RunFunction(p, f, args, fuel) == Returns(v) <==> YieldsAt(p.m, fn, args, v, fuel)
    {
      CallsAgree(p, f, args, fuel);
    }
  }

  /** def spin(x): return x, followed by: while x == x: x = x */
  function Spin(): FunctionDef {
    FunctionDef("spin", ["x"],
                [Return(Some(Var("x"))),
                 While(Compare(Var("x"), [Relation(Eq)], [Var("x")]), [Assign([Var("x")], Var("x"))], [])],
                false, false, false, false, false)
  }

  lemma {:induction false} SpinSource(p: Python, x: Num, fuel: nat)
    requires p.m.compare(Eq, x, x)
    ensures RunStmt(p, Spin().body[1], false, map["x" := x], fuel).OutOfFuel?
    decreases fuel
  {
    var s, store: Store := Spin().body[1], map["x" := x];
    assert EvalTest(p, s.test, store) == Some(true);
    assert store["x" := x] == store;
    assert RunStmt(p, s.body[0], false, store, fuel) == Continues(store);
    assert s.body[1..] == [];
    assert RunStmts(p, s.body, false, store, fuel) == Continues(store);
    if fuel > 0 {
      SpinSource(p, x, fuel - 1);
    }
  }

  lemma SpinCompiles()
    ensures CompileFunction(Spin()).Ok? && CountProducers(Spin().body) == 1 && Clean(Spin().body)
    ensures !NoLoopAfterValue(Spin().body)
  {
    var f := Spin();
    var names := {"x"};
    assert (set p | p in f.params) == names;
    assert f.body[1..] == [f.body[1]] && f.body[1].body[1..] == [];
    assert CountProducers(f.body[1..]) == 0;
    assert AllowedIn(f.body[1].body[0]);
    assert AllowedInAll(f.body[1].body);
    assert AllowedIn(f.body[1]) && AllowedInAll(f.body[1..]);
    forall l: set<Name> | l == AssignedInAll(f.body) - names
      ensures CompileBody(FunctionContext(f.params, l).Names(), f.body).Ok?
    {
      var all := FunctionContext(f.params, l).Names();
      assert "x" in all;
      assert CompileStmt(all, f.body[1].body[0], false).Ok?;
      assert CompileLoopBody(all, f.body[1].body).Ok?;
      assert CompileStmt(all, f.body[1], true).Ok?;
    }
  }

  lemma SpinTarget(p: Python, x: Num, fuel: nat)
    requires CompileFunction(Spin()).Ok? && p.m.compare(Eq, x, x)
    ensures W.Call(p.m, CompileFunction(Spin()).value.func, map["x" := x], fuel).OutOfFuel?
  {
    var f, store: Store := Spin(), map["x" := x];
    SpinCompiles();
    CompiledShape(f);
    var names := NamesOf(f);
    var locals := W.Zeroed(p.m, CompileFunction(f).value.func, store);
    var a, b := CompileStmt(names, f.body[0], false).value, CompileStmt(names, f.body[1], true).value;
    assert f.body[1..] == [f.body[1]] && f.body[1..][1..] == [];
    assert CompileBody(names, f.body[1..]).value == b + [];
    assert b + [] == b && a == [W.LocalGet("x")];
    W.ExecAppend(p.m, a, b, locals, [], fuel);
    OneRuns(p.m, W.LocalGet("x"), locals, [], fuel);
    PlainRuns(p, names, f.body[1], store, locals, [] + [W.F32(x)], fuel);
    SpinSource(p, x, fuel);
  }

  /**
    `return` emits no branch, so the condition on loops is needed: `spin` is accepted and
    validates, and the source returns its argument, but the target never returns.
  */
  lemma ReturnBeforeLoopDiverges(p: Python, x: Num)
    requires p.m.compare(Eq, x, x)
    ensures var f := Spin();
            && CompileFunction(f).Ok? && W.ValidFunc(CompileFunction(f).value.func) && !NoLoopAfterValue(f.body)
            && SourceReturns(p, f, map["x" := x], x)
            && TargetDiverges(p.m, CompileFunction(f).value.func, map["x" := x])
  {
    var f := Spin();
    SpinCompiles();
    ValidatesExactlyWhen(f);
    assert RunFunction(p, f, map["x" := x], 0) == Returns(x);
    forall fuel: nat
      ensures W.Call(p.m, CompileFunction(f).value.func, map["x" := x], fuel).OutOfFuel?
    {
      SpinTarget(p, x, fuel);
    }
  }
}
