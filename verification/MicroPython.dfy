/**
  The Python subset accepted by kernel/toolchain.py: its syntax tree and its meaning.
*/
module MicroPython {
  import opened Common
  import opened Numbers

  type Name = string

  datatype Operator = Arithmetic(op: ArithOp) | OtherOperator

  datatype Comparator = Relation(rel: RelOp) | OtherComparator

  datatype Literal = NoneLit | BoolLit(b: bool) | NumberLit(value: real) | OtherLit

  datatype Expr =
    | BinOp(left: Expr, operator: Operator, right: Expr)
    | Negate(operand: Expr)
    | Var(id: Name)
    | Constant(lit: Literal)
    | IfExp(test: Expr, body: Expr, orelse: Expr)
    | Compare(left: Expr, ops: seq<Comparator>, comparators: seq<Expr>)
    | CallExpr
    | OtherExpr

  datatype Stmt =
    | Assign(targets: seq<Expr>, value: Expr)
    | AnnAssign(target: Expr, annotated: Option<Expr>)
    | Return(result: Option<Expr>)
    | If(test: Expr, body: seq<Stmt>, orelse: seq<Stmt>)
    | While(test: Expr, body: seq<Stmt>, orelse: seq<Stmt>)
    | ExprStmt(expr: Expr)
    | Import
    | For(body: seq<Stmt>)
    | OtherStmt(body: seq<Stmt>)

  /** A function definition; the flags are the signature features that the compiler rejects. */
  datatype FunctionDef = FunctionDef(
    name: Name,
    params: seq<Name>,
    body: seq<Stmt>,
    decorated: bool,
    returnsAnnotated: bool,
    variadic: bool,
    defaults: bool,
    paramsAnnotated: bool)

  datatype ModuleItem = DefItem(def: FunctionDef) | ImportItem | OtherItem

  // ----- Meaning -----

  type Store = map<Name, Num>

  /** Python's arithmetic, which unlike the target's may raise on a division. */
  datatype Python = Python(m: Arith, divisionRaises: (Num, Num) -> bool)

  /** The result of a statement. `OutOfFuel`: some loop needs more iterations than the fuel allows. */
  datatype Outcome = Continues(store: Store) | Returns(num: Num) | Raises | OutOfFuel

  /** None: the evaluation raises, or the expression is outside the subset. */
  function Eval(p: Python, e: Expr, store: Store): Option<Num>
    decreases e, 1
  {
    match e
    case BinOp(l, Arithmetic(op), r) =>
      (match (Eval(p, l, store), Eval(p, r, store))
       case (Some(x), Some(y)) =>
         if op == Div && p.divisionRaises(x, y) then None else Some(p.m.arith(op, x, y))
       case _ => None)
    case Negate(a) =>
      (match Eval(p, a, store)
       case Some(x) => Some(p.m.arith(Mul, p.m.literal(-1.0), x))
       case None => None)
    case Var(x) => if x in store then Some(store[x]) else None
    case Constant(BoolLit(b)) => Some(p.m.literal(if b then 1.0 else 0.0))
    case Constant(NumberLit(k)) => Some(p.m.literal(k))
    case IfExp(t, a, b) =>
      (match EvalTest(p, t, store)
       case Some(c) => if c then Eval(p, a, store) else Eval(p, b, store)
       case None => None)
    case Compare(_, _, _) =>
      (match EvalTest(p, e, store)
       case Some(b) => Some(p.m.literal(if b then 1.0 else 0.0))
       case None => None)
    case _ => None
  }

  function EvalTest(p: Python, e: Expr, store: Store): Option<bool>
    decreases e, 0
  {
    if !e.Compare? || |e.ops| != 1 || |e.comparators| != 1 || e.ops[0].OtherComparator? then None
    else
      match (Eval(p, e.left, store), Eval(p, e.comparators[0], store))
      case (Some(x), Some(y)) => Some(p.m.compare(e.ops[0].rel, x, y))
      case _ => None
  }

  function Bind(x: Expr, v: Option<Num>, store: Store): Outcome {
    if x.Var? && v.Some? then Continues(store[x.id := v.value]) else Raises
  }

  /** A value that is the result of the function when its statement is the last one. */
  function TailValue(v: Option<Num>, tail: bool, store: Store): Outcome {
    match v
    case None => Raises
    case Some(x) => if tail then Returns(x) else Continues(store)
  }

  function RunBranch(p: Python, s: Stmt, tail: bool, store: Store): Outcome {
    match s
    case Return(Some(e)) => TailValue(Eval(p, e, store), true, store)
    case ExprStmt(e) => TailValue(Eval(p, e, store), tail, store)
    case _ => Raises
  }

  /**
    One statement. `tail` says that it is the last one of the function: by the compiler's
    convention a tail expression is the result, and a tail `None` stands for zero.
  */
  function RunStmt(p: Python, s: Stmt, tail: bool, store: Store, fuel: nat): Outcome
    decreases fuel, s, 0
  {
    match s
    case Assign(targets, e) =>
      if |targets| == 1 then Bind(targets[0], Eval(p, e, store), store) else Raises
    case AnnAssign(x, Some(e)) => Bind(x, Eval(p, e, store), store)
    case Return(Some(e)) => TailValue(Eval(p, e, store), true, store)
    case If(t, a, b) =>
      if |a| != 1 || |b| != 1 then Raises
      else
        (match EvalTest(p, t, store)
         case None => Raises
         case Some(c) => RunBranch(p, if c then a[0] else b[0], tail, store))
    case While(t, body, _) =>
      (match EvalTest(p, t, store)
       case None => Raises
       case Some(false) => Continues(store)
       case Some(true) =>
         match RunStmts(p, body, false, store, fuel)
         case Continues(store') => if fuel == 0 then OutOfFuel else RunStmt(p, s, tail, store', fuel - 1)
         case o => o)
    case ExprStmt(Constant(NoneLit)) => TailValue(Some(p.m.literal(0.0)), tail, store)
    case ExprStmt(e) => TailValue(Eval(p, e, store), tail, store)
    case _ => Raises
  }

  function RunStmts(p: Python, ss: seq<Stmt>, tail: bool, store: Store, fuel: nat): Outcome
    decreases fuel, ss, 1
  {
    if ss == [] then Continues(store)
    else
      match RunStmt(p, ss[0], tail && |ss| == 1, store, fuel)
      case Continues(store') => RunStmts(p, ss[1..], tail, store', fuel)
      case o => o
  }

  /** Calls the function: the store holds the arguments. */
  function RunFunction(p: Python, f: FunctionDef, args: Store, fuel: nat): Outcome {
    RunStmts(p, f.body, true, args, fuel)
  }
}
