/**
  The compiler of kernel/toolchain.py. `Compile...` functions say what each part emits;
  the class `AgentCodeCompiler` is the visitor that builds it step by step.
*/
module Toolchain {
  import opened Common
  import opened MicroPython
  import opened Numbers
  import W = Wasm

  /** Why an agent script is rejected. */
  datatype CompilationError =
    | Unsupported
    | UnknownVariable(name: Name)
    | ImportNotAllowed
    | NoFunctions

  type Emitted = Result<W.Code, CompilationError>

  /** Emits `a`, then `b`; the first rejection wins. */
  function Then(a: Emitted, b: Emitted): Emitted {
    match a
    case Err(_) => a
    case Ok(x) =>
      match b
      case Err(_) => b
      case Ok(y) => Ok(x + y)
  }

  // ----- Expressions -----

  function CompileExpr(names: set<Name>, e: Expr): Emitted
    decreases e, 1
  {
    match e
    case BinOp(l, op, r) =>
      if op.OtherOperator? then Err(Unsupported)
      else Then(Then(CompileExpr(names, l), CompileExpr(names, r)), Ok([W.Bin(op.op)]))
    case Negate(a) => Then(Then(Ok([W.Const(-1.0)]), CompileExpr(names, a)), Ok([W.Bin(Mul)]))
    case Var(x) => if x in names then Ok([W.LocalGet(x)]) else Err(UnknownVariable(x))
    case Constant(BoolLit(b)) => Ok([W.Const(if b then 1.0 else 0.0)])
    case Constant(NumberLit(k)) => Ok([W.Const(k)])
    case Constant(_) => Err(Unsupported)
    case IfExp(t, a, b) => Choose(CompileCompare(names, t), CompileExpr(names, a), CompileExpr(names, b))
    case Compare(_, _, _) => CompileCompare(names, e)
    case CallExpr => Err(Unsupported)
    case OtherExpr => Err(Unsupported)
  }

  /** A condition, then a structured `if` with an f32 result. */
  function Choose(test: Emitted, thn: Emitted, els: Emitted): Emitted {
    match test
    case Err(_) => test
    case Ok(t) =>
      match thn
      case Err(_) => thn
      case Ok(a) =>
        match els
        case Err(_) => els
        case Ok(b) => Ok(t + [W.IfElse(a, b)])
  }

  function CompileCompare(names: set<Name>, e: Expr): Emitted
    decreases e, 0
  {
    if !e.Compare? then Err(Unsupported)
    else if |e.ops| != 1 || |e.comparators| != 1 then Err(Unsupported)
    else if e.ops[0].OtherComparator? then Err(Unsupported)
    else
      Then(Then(CompileExpr(names, e.left), CompileExpr(names, e.comparators[0])), Ok([W.Rel(e.ops[0].rel)]))
  }

  // ----- Statements -----

  function CompileStore(names: set<Name>, x: Expr, e: Expr): Emitted {
    if !x.Var? || x.id !in names then Err(Unsupported)
    else Then(CompileExpr(names, e), Ok([W.LocalSet(x.id)]))
  }

  function CompileBranch(names: set<Name>, s: Stmt): Emitted {
    match s
    case Return(Some(e)) => CompileExpr(names, e)
    case ExprStmt(e) => CompileExpr(names, e)
    case _ => Err(Unsupported)
  }

  function CompileIf(names: set<Name>, t: Expr, a: seq<Stmt>, b: seq<Stmt>): Emitted {
    if |a| != 1 || |b| != 1 then Err(Unsupported)
    else Choose(CompileCompare(names, t), CompileBranch(names, a[0]), CompileBranch(names, b[0]))
  }

  /** block / loop / test / eqz / br_if 1 / body / br 0 */
  function LoopCode(test: W.Code, body: W.Code): W.Code {
    [W.Block([W.Loop(test + [W.Eqz, W.BrIf(1)] + body + [W.Br(0)])])]
  }

  function CompileWhile(names: set<Name>, t: Expr, body: seq<Stmt>, orelse: seq<Stmt>): Emitted
    decreases body, 2
  {
    if orelse != [] || body == [] then Err(Unsupported)
    else
      match CompileLoopBody(names, body)
      case Err(error) => Err(error)
      case Ok(b) =>
        match CompileCompare(names, t)
        case Err(error) => Err(error)
        case Ok(c) => Ok(LoopCode(c, b))
  }

  function CompileLoopBody(names: set<Name>, body: seq<Stmt>): Emitted
    decreases body, 1
  {
    if body == [] then Ok([])
    else if body[0].Return? || body[0].If? then Err(Unsupported)
    else Then(CompileStmt(names, body[0], false), CompileLoopBody(names, body[1..]))
  }

  function CompileStmt(names: set<Name>, s: Stmt, tail: bool): Emitted
    decreases s, 0
  {
    match s
    case Assign(targets, e) => if |targets| != 1 then Err(Unsupported) else CompileStore(names, targets[0], e)
    case AnnAssign(x, annotated) => if annotated.None? then Err(Unsupported) else CompileStore(names, x, annotated.value)
    case Return(result) => if result.None? then Err(Unsupported) else CompileExpr(names, result.value)
    case If(t, a, b) => CompileIf(names, t, a, b)
    case While(t, body, orelse) => CompileWhile(names, t, body, orelse)
    case ExprStmt(Constant(NoneLit)) => Ok([W.Const(0.0)])
    case ExprStmt(e) => if tail then CompileExpr(names, e) else Err(Unsupported)
    case Import => Err(ImportNotAllowed)
    case For(_) => Err(Unsupported)
    case OtherStmt(_) => Err(Unsupported)
  }

  /** The statements of a function body; only the last one is in tail position. */
  function CompileBody(names: set<Name>, ss: seq<Stmt>): Emitted
    decreases |ss|
  {
    if ss == [] then Ok([])
    else Then(CompileStmt(names, ss[0], |ss| == 1), CompileBody(names, ss[1..]))
  }

  // ----- Local names -----

  function TargetNames(targets: seq<Expr>): set<Name> {
    set x | x in targets && x.Var? :: x.id
  }

  /** What one syntax node assigns, its nested statements aside. */
  function OwnNames(s: Stmt): set<Name> {
    match s
    case Assign(targets, _) => TargetNames(targets)
    case AnnAssign(x, _) => TargetNames([x])
    case _ => {}
  }

  /** The analysis rejects assignments to anything but a name, and `for`. */
  predicate OwnAllowed(s: Stmt) {
    match s
    case Assign(targets, _) => forall x | x in targets :: x.Var?
    case AnnAssign(x, _) => x.Var?
    case For(_) => false
    case _ => true
  }

  function AssignedIn(s: Stmt): set<Name>
    decreases s, 0
  {
    match s
    case If(_, a, b) => AssignedInAll(a) + AssignedInAll(b)
    case While(_, a, b) => AssignedInAll(a) + AssignedInAll(b)
    case For(a) => AssignedInAll(a)
    case OtherStmt(a) => AssignedInAll(a)
    case _ => OwnNames(s)
  }

  function AssignedInAll(ss: seq<Stmt>): set<Name>
    decreases ss, 1
  {
    if ss == [] then {} else AssignedIn(ss[0]) + AssignedInAll(ss[1..])
  }

  predicate AllowedIn(s: Stmt)
    decreases s, 0
  {
    match s
    case If(_, a, b) => AllowedInAll(a) && AllowedInAll(b)
    case While(_, a, b) => AllowedInAll(a) && AllowedInAll(b)
    case OtherStmt(a) => AllowedInAll(a)
    case _ => OwnAllowed(s)
  }

  predicate AllowedInAll(ss: seq<Stmt>)
    decreases ss, 1
  {
    ss == [] || (AllowedIn(ss[0]) && AllowedInAll(ss[1..]))
  }

  /** The locals of a function body: every assigned name that is not a parameter. */
  function LocalNames(ss: seq<Stmt>, params: set<Name>): Result<set<Name>, CompilationError> {
    if AllowedInAll(ss) then Ok(AssignedInAll(ss) - params) else Err(Unsupported)
  }

  function Nodes(s: Stmt): nat
    decreases s, 0
  {
    1 + match s
        case If(_, a, b) => NodesAll(a) + NodesAll(b)
        case While(_, a, b) => NodesAll(a) + NodesAll(b)
        case For(a) => NodesAll(a)
        case OtherStmt(a) => NodesAll(a)
        case _ => 0
  }

  function NodesAll(ss: seq<Stmt>): nat
    decreases ss, 1
  {
    if ss == [] then 0 else Nodes(ss[0]) + NodesAll(ss[1..])
  }

  lemma {:induction false} WalkAppend(a: seq<Stmt>, b: seq<Stmt>)
    ensures NodesAll(a + b) == NodesAll(a) + NodesAll(b)
    ensures AssignedInAll(a + b) == AssignedInAll(a) + AssignedInAll(b)
    ensures AllowedInAll(a + b) <==> AllowedInAll(a) && AllowedInAll(b)
    decreases |a|
  {
    if a == [] {
      assert a + b == b;
    } else {
      assert (a + b)[0] == a[0] && (a + b)[1..] == a[1..] + b;
      WalkAppend(a[1..], b);
    }
  }

  // ----- The visitor -----

  datatype FunctionContext = FunctionContext(params: seq<Name>, locals: set<Name>) {
    function Names(): set<Name> {
      (set p | p in params) + locals
    }
  }

  /** A compiled function under the name it is exported as. */
  datatype Export = Export(name: Name, func: W.Func)

  predicate SignatureAllowed(f: FunctionDef) {
    !f.decorated && !f.returnsAnnotated && !f.variadic && !f.defaults && !f.paramsAnnotated
  }

  function CompileFunction(f: FunctionDef): Result<Export, CompilationError> {
    if !SignatureAllowed(f) then Err(Unsupported)
    else
      match LocalNames(f.body, set p | p in f.params)
      case Err(error) => Err(error)
      case Ok(locals) =>
        match CompileBody(FunctionContext(f.params, locals).Names(), f.body)
        case Err(error) => Err(error)
        case Ok(code) => Ok(Export(f.name, W.Func(f.params, locals, code)))
  }

  /** What the visitor remembers between calls. */
  datatype VisitorState = VisitorState(functions: seq<Export>, inFunction: bool)

  /** Visits one definition. A rejected body leaves the visitor inside the function. */
  function Visit(v: VisitorState, f: FunctionDef): (VisitorState, Result<(), CompilationError>) {
    if v.inFunction || !SignatureAllowed(f) then (v, Err(Unsupported))
    else
      match CompileFunction(f)
      case Err(error) => (v.(inFunction := true), Err(error))
      case Ok(exported) => (v.(functions := v.functions + [exported]), Ok(()))
  }

  function VisitItems(v: VisitorState, items: seq<ModuleItem>): (VisitorState, Result<(), CompilationError>)
    decreases |items|
  {
    if items == [] then (v, Ok(()))
    else
      match items[0]
      case ImportItem => (v, Err(ImportNotAllowed))
      case OtherItem => (v, Err(Unsupported))
      case DefItem(f) =>
        var (w, r) := Visit(v, f);
        if r.Err? then (w, r) else VisitItems(w, items[1..])
  }

  class AgentCodeCompiler {
    var functions: seq<Export>
    var context: Option<FunctionContext>

    constructor ()
      ensures State() == VisitorState([], false)
    {
      functions, context := [], None;
    }

    function State(): VisitorState
      reads this
    {
      VisitorState(functions, context.Some?)
    }

    method CollectLocalNames(statements: seq<Stmt>, params: set<Name>)
      returns (r: Result<set<Name>, CompilationError>)
      ensures r == LocalNames(statements, params)
    {
      var locals := {};
      var todo := statements;
      while todo != []
        invariant AllowedInAll(statements) <==> AllowedInAll(todo)
        invariant AssignedInAll(statements) - params == locals + (AssignedInAll(todo) - params)
        decreases NodesAll(todo)
      {
        var s := todo[0];
        if !OwnAllowed(s) { return Err(Unsupported); }
        locals := locals + (OwnNames(s) - params);
        ghost var rest := todo[1..];
        assert NodesAll(todo) == Nodes(s) + NodesAll(rest);
        assert AssignedInAll(todo) == AssignedIn(s) + AssignedInAll(rest);
        match s
        case If(_, a, b) =>
          WalkAppend(rest, a + b);
          WalkAppend(a, b);
          todo := todo[1..] + (a + b);
        case While(_, a, b) =>
          WalkAppend(rest, a + b);
          WalkAppend(a, b);
          todo := todo[1..] + (a + b);
        case OtherStmt(a) =>
          WalkAppend(rest, a);
          todo := todo[1..] + a;
        case _ => todo := todo[1..];
      }
      assert locals == AssignedInAll(statements) - params;
      r := Ok(locals);
    }

    method CompileStatement(names: set<Name>, s: Stmt, tail: bool) returns (r: Emitted)
      ensures r == CompileStmt(names, s, tail)
      decreases s, 0
    {
      match s
      case Assign(targets, e) =>
        if |targets| != 1 || !targets[0].Var? { return Err(Unsupported); }
        if targets[0].id !in names { return Err(Unsupported); }
        r := Then(CompileExpr(names, e), Ok([W.LocalSet(targets[0].id)]));
      case AnnAssign(x, annotated) =>
        if annotated.None? || !x.Var? { return Err(Unsupported); }
        if x.id !in names { return Err(Unsupported); }
        r := Then(CompileExpr(names, annotated.value), Ok([W.LocalSet(x.id)]));
      case Return(result) =>
        if result.None? { return Err(Unsupported); }
        r := CompileExpr(names, result.value);
      case If(t, a, b) =>
        if |a| != 1 || |b| != 1 { return Err(Unsupported); }
        r := Choose(CompileCompare(names, t), CompileBranch(names, a[0]), CompileBranch(names, b[0]));
      case While(t, body, orelse) => r := CompileWhileLoop(names, t, body, orelse);
      case ExprStmt(e) =>
        if e == Constant(NoneLit) { return Ok([W.Const(0.0)]); }
        if !tail { return Err(Unsupported); }
        r := CompileExpr(names, e);
      case Import => r := Err(ImportNotAllowed);
      case _ => r := Err(Unsupported);
    }

    method CompileWhileLoop(names: set<Name>, t: Expr, body: seq<Stmt>, orelse: seq<Stmt>) returns (r: Emitted)
      ensures r == CompileWhile(names, t, body, orelse)
      decreases body, 1
    {
      if orelse != [] { return Err(Unsupported); }
      if body == [] { return Err(Unsupported); }
      var lines := [];
      assert body[0..] == body && forall c: W.Code :: [] + c == c;
      for i := 0 to |body|
        invariant CompileLoopBody(names, body) == Then(Ok(lines), CompileLoopBody(names, body[i..]))
      {
        assert body[i..][0] == body[i] && body[i..][1..] == body[i + 1..];
        if body[i].Return? || body[i].If? { return Err(Unsupported); }
        var emitted := CompileStatement(names, body[i], false);
        match emitted
        case Err(error) => return Err(error);
        case Ok(code) =>
          assert forall c: W.Code :: (lines + code) + c == lines + (code + c);
          lines := lines + code;
      }
      assert lines + [] == lines;
      match CompileCompare(names, t)
      case Err(error) => return Err(error);
      case Ok(test) => r := Ok(LoopCode(test, lines));
    }

    method VisitFunctionDef(f: FunctionDef) returns (r: Result<(), CompilationError>)
      modifies this
      ensures (State(), r) == Visit(old(State()), f)
    {
      if context != None { return Err(Unsupported); }
      if f.decorated || f.returnsAnnotated || f.variadic || f.defaults || f.paramsAnnotated {
        return Err(Unsupported);
      }
      context := Some(FunctionContext(f.params, {}));
      var locals := CollectLocalNames(f.body, set p | p in f.params);
      if locals.Err? { return Err(locals.error); }
      context := Some(FunctionContext(f.params, locals.value));
      var names := context.value.Names();
      var lines := [];
      assert f.body[0..] == f.body && forall c: W.Code :: [] + c == c;
      for i := 0 to |f.body|
        invariant context == Some(FunctionContext(f.params, locals.value)) && functions == old(functions)
        invariant CompileBody(names, f.body) == Then(Ok(lines), CompileBody(names, f.body[i..]))
      {
        assert f.body[i..][0] == f.body[i] && f.body[i..][1..] == f.body[i + 1..];
        var emitted := CompileStatement(names, f.body[i], i == |f.body| - 1);
        if emitted.Err? { return Err(emitted.error); }
        assert forall c: W.Code :: (lines + emitted.value) + c == lines + (emitted.value + c);
        lines := lines + emitted.value;
      }
      assert lines + [] == lines;
      functions := functions + [Export(f.name, W.Func(f.params, locals.value, lines))];
      context := None;
      r := Ok(());
    }

    method Compile(items: seq<ModuleItem>) returns (r: Result<seq<Export>, CompilationError>)
      modifies this
      ensures var (v, visited) := VisitItems(old(State()), items);
              State() == v &&
              r == if visited.Err? then Err(visited.error)
                   else if v.functions == [] then Err(NoFunctions) else Ok(v.functions)
    {
      assert items[0..] == items;
      for i := 0 to |items|
        invariant VisitItems(old(State()), items) == VisitItems(State(), items[i..])
      {
        assert items[i..][0] == items[i] && items[i..][1..] == items[i + 1..];
        match items[i]
        case ImportItem => return Err(ImportNotAllowed);
        case OtherItem => return Err(Unsupported);
        case DefItem(f) =>
          var visited := VisitFunctionDef(f);
          if visited.Err? { return Err(visited.error); }
      }
      if functions == [] { return Err(NoFunctions); }
      r := Ok(functions);
    }
  }
}
