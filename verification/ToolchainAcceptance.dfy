/**
  Which programs the compiler of kernel/toolchain.py accepts, in terms of their syntax alone,
  and what it complains about in the others.
*/
module ToolchainAcceptance {
  import opened Common
  import opened MicroPython
  import opened Toolchain
  import opened ToolchainValidation

  // ----- The subset -----

  /** Arithmetic with the four operators over names, numbers, booleans, conditionals and comparisons. */
  predicate InSubset(e: Expr)
    decreases e, 1
  {
    match e
    case BinOp(l, op, r) => op.Arithmetic? && InSubset(l) && InSubset(r)
    case Negate(a) => InSubset(a)
    case Var(_) => true
    case Constant(lit) => lit.BoolLit? || lit.NumberLit?
    case IfExp(t, a, b) => IsTest(t) && InSubset(a) && InSubset(b)
    case Compare(_, _, _) => IsTest(e)
    case CallExpr => false
    case OtherExpr => false
  }

  /** One comparison, by one of the six relations. */
  predicate IsTest(e: Expr)
    decreases e, 0
  {
    && e.Compare? && |e.ops| == 1 && |e.comparators| == 1 && e.ops[0].Relation?
    && InSubset(e.left) && InSubset(e.comparators[0])
  }

  /** The one statement of an `if` branch: a returned value, or an expression. */
  predicate IsBranch(s: Stmt) {
    (s.Return? && s.result.Some? && InSubset(s.result.value)) || (s.ExprStmt? && InSubset(s.expr))
  }

  /** `tail` says that the statement is the last one of the function. */
  predicate Supported(s: Stmt, tail: bool)
    decreases s
  {
    match s
    case Assign(targets, e) => |targets| == 1 && targets[0].Var? && InSubset(e)
    case AnnAssign(x, e) => x.Var? && e.Some? && InSubset(e.value)
    case Return(e) => e.Some? && InSubset(e.value)
    case If(t, a, b) => IsTest(t) && |a| == 1 && |b| == 1 && IsBranch(a[0]) && IsBranch(b[0])
    case While(t, body, orelse) =>
      IsTest(t) && body != [] && orelse == [] && forall x | x in body :: !x.Return? && !x.If? && Supported(x, false)
    case ExprStmt(e) => e == Constant(NoneLit) || (tail && InSubset(e))
    case Import => false
    case For(_) => false
    case OtherStmt(_) => false
  }

  predicate BodySupported(ss: seq<Stmt>) {
    forall i | 0 <= i < |ss| :: Supported(ss[i], i == |ss| - 1)
  }

  predicate PlainSignature(f: FunctionDef) {
    !f.decorated && !f.returnsAnnotated && !f.variadic && !f.defaults && !f.paramsAnnotated
  }

  // ----- Names -----

  function Reads(e: Expr): set<Name> {
    match e
    case BinOp(l, _, r) => Reads(l) + Reads(r)
    case Negate(a) => Reads(a)
    case Var(x) => {x}
    case IfExp(t, a, b) => Reads(t) + Reads(a) + Reads(b)
    case Compare(l, _, rs) => Reads(l) + set r, x | r in rs && x in Reads(r) :: x
    case _ => {}
  }

  function ReadsIn(s: Stmt): set<Name>
    decreases s
  {
    match s
    case Assign(_, e) => Reads(e)
    case AnnAssign(_, e) => if e.Some? then Reads(e.value) else {}
    case Return(e) => if e.Some? then Reads(e.value) else {}
    case If(t, a, b) => Reads(t) + (set x, n | x in a && n in ReadsIn(x) :: n) + (set x, n | x in b && n in ReadsIn(x) :: n)
    case While(t, a, _) => Reads(t) + set x, n | x in a && n in ReadsIn(x) :: n
    case ExprStmt(e) => Reads(e)
    case _ => {}
  }

  /** The name that a statement, or one in a loop below it, assigns. */
  predicate Assigns(s: Stmt, x: Name)
    decreases s
  {
    match s
    case Assign(targets, _) => Var(x) in targets
    case AnnAssign(target, _) => target == Var(x)
    case While(_, body, _) => exists t | t in body :: Assigns(t, x)
    case _ => false
  }

  /** The name is a parameter, or assigned somewhere in the body. */
  predicate Defined(f: FunctionDef, x: Name) {
    x in f.params || exists s | s in f.body :: Assigns(s, x)
  }

  /** The whole condition. */
  predicate Acceptable(f: FunctionDef) {
    PlainSignature(f) && BodySupported(f.body) && forall s, x | s in f.body && x in ReadsIn(s) :: Defined(f, x)
  }

  /** An `import` among the statements, or in a loop below them. */
  predicate Imports(s: Stmt)
    decreases s
  {
    s.Import? || (s.While? && exists t | t in s.body :: Imports(t))
  }

  /** What an error says about the text: something outside the subset, an unknown name, or an import. */
  predicate Blames(error: CompilationError, fine: bool, unknown: set<Name>, imports: bool) {
    match error
    case Unsupported => !fine
    case UnknownVariable(x) => x in unknown
    case ImportNotAllowed => imports
    case NoFunctions => false
  }

  // ----- Expressions -----

  lemma {:induction false} ExprAccepted(names: set<Name>, e: Expr)
    ensures CompileExpr(names, e).Ok? <==> InSubset(e) && Reads(e) <= names
    ensures CompileExpr(names, e).Err? ==> Blames(CompileExpr(names, e).error, InSubset(e), Reads(e) - names, false)
    decreases e, 1
  {
    match e
    case BinOp(l, _, r) =>
      ExprAccepted(names, l);
      ExprAccepted(names, r);
    case Negate(a) => ExprAccepted(names, a);
    case IfExp(t, a, b) =>
      TestAccepted(names, t);
      ExprAccepted(names, a);
      ExprAccepted(names, b);
    case Compare(_, _, _) => TestAccepted(names, e);
    case _ =>
  }

  lemma {:induction false} TestAccepted(names: set<Name>, e: Expr)
    ensures CompileCompare(names, e).Ok? <==> IsTest(e) && Reads(e) <= names
    ensures CompileCompare(names, e).Err? ==> Blames(CompileCompare(names, e).error, IsTest(e), Reads(e) - names, false)
    decreases e, 0
  {
    if e.Compare? && |e.ops| == 1 && |e.comparators| == 1 {
      var r := e.comparators[0];
      ExprAccepted(names, e.left);
      ExprAccepted(names, r);
      assert e.comparators == [r] && Reads(e) == Reads(e.left) + Reads(r);
    }
  }

  // ----- Statements -----

  lemma BranchAccepted(names: set<Name>, s: Stmt)
    ensures CompileBranch(names, s).Ok? <==> IsBranch(s) && ReadsIn(s) <= names
    ensures CompileBranch(names, s).Err? ==> Blames(CompileBranch(names, s).error, IsBranch(s), ReadsIn(s) - names, false)
  {
    match s
    case Return(Some(e)) => ExprAccepted(names, e);
    case ExprStmt(e) => ExprAccepted(names, e);
    case _ =>
  }

  lemma {:induction false} StmtAccepted(names: set<Name>, s: Stmt, tail: bool)
    requires forall x | Assigns(s, x) :: x in names
    ensures CompileStmt(names, s, tail).Ok? <==> Supported(s, tail) && ReadsIn(s) <= names
    ensures CompileStmt(names, s, tail).Err? ==>
              Blames(CompileStmt(names, s, tail).error, Supported(s, tail), ReadsIn(s) - names, Imports(s))
    decreases s, 0
  {
    match s
    case Assign(targets, e) =>
      ExprAccepted(names, e);
      assert |targets| == 1 && targets[0].Var? ==> targets[0] == Var(targets[0].id) && Assigns(s, targets[0].id);
    case AnnAssign(x, e) =>
      if e.Some? { ExprAccepted(names, e.value); }
      assert x.Var? ==> x == Var(x.id) && Assigns(s, x.id);
    case Return(e) => if e.Some? { ExprAccepted(names, e.value); }
    case If(t, a, b) =>
      TestAccepted(names, t);
      if |a| == 1 && |b| == 1 {
        BranchAccepted(names, a[0]);
        BranchAccepted(names, b[0]);
        assert a == [a[0]] && b == [b[0]] && ReadsIn(s) == Reads(t) + ReadsIn(a[0]) + ReadsIn(b[0]);
      }
    case While(t, body, _) =>
      TestAccepted(names, t);
      LoopBodyAccepted(names, body);
    case ExprStmt(e) => ExprAccepted(names, e);
    case _ =>
  }

  function ReadsInAll(ss: seq<Stmt>): set<Name> {
    set x, n | x in ss && n in ReadsIn(x) :: n
  }

  predicate LoopBody(ss: seq<Stmt>) {
    forall x | x in ss :: !x.Return? && !x.If? && Supported(x, false)
  }

  predicate ImportsAny(ss: seq<Stmt>) {
    exists t | t in ss :: Imports(t)
  }

  lemma {:induction false} LoopBodyAccepted(names: set<Name>, ss: seq<Stmt>)
    requires forall s, x | s in ss && Assigns(s, x) :: x in names
    ensures CompileLoopBody(names, ss).Ok? <==> LoopBody(ss) && ReadsInAll(ss) <= names
    ensures CompileLoopBody(names, ss).Err? ==>
              Blames(CompileLoopBody(names, ss).error, LoopBody(ss), ReadsInAll(ss) - names, ImportsAny(ss))
    decreases ss, 1
  {
    if ss != [] {
      var head, rest := ss[0], ss[1..];
      assert head in ss && (forall s | s in rest :: s in ss) && forall s | s in ss :: s == head || s in rest;
      StmtAccepted(names, head, false);
      LoopBodyAccepted(names, rest);
      assert ReadsInAll(ss) == ReadsIn(head) + ReadsInAll(rest);
    }
  }

  lemma {:induction false} BodyAccepted(names: set<Name>, ss: seq<Stmt>)
    requires forall s, x | s in ss && Assigns(s, x) :: x in names
    ensures CompileBody(names, ss).Ok? <==> BodySupported(ss) && ReadsInAll(ss) <= names
    ensures CompileBody(names, ss).Err? ==>
              Blames(CompileBody(names, ss).error, BodySupported(ss), ReadsInAll(ss) - names, ImportsAny(ss))
    decreases |ss|
  {
    if ss != [] {
      var head, rest := ss[0], ss[1..];
      assert head in ss && (forall s | s in rest :: s in ss) && forall s | s in ss :: s == head || s in rest;
      StmtAccepted(names, head, |ss| == 1);
      BodyAccepted(names, rest);
      BodyCons(ss);
      assert ReadsInAll(ss) == ReadsIn(head) + ReadsInAll(rest);
    }
  }

  lemma BodyCons(ss: seq<Stmt>)
    requires ss != []
    ensures BodySupported(ss) <==> Supported(ss[0], |ss| == 1) && BodySupported(ss[1..])
  {
    hide Supported;
    var rest := ss[1..];
    if BodySupported(ss) {
      forall i | 0 <= i < |rest| ensures Supported(rest[i], i == |rest| - 1) { assert rest[i] == ss[i + 1]; }
    }
    if Supported(ss[0], |ss| == 1) && BodySupported(rest) {
      forall i | 0 <= i < |ss| ensures Supported(ss[i], i == |ss| - 1) { assert i > 0 ==> ss[i] == rest[i - 1]; }
    }
  }

  // ----- Local names -----

  lemma {:induction false} AssignsIsLocal(s: Stmt, x: Name)
    requires Assigns(s, x)
    ensures x in AssignedIn(s)
    decreases s
  {
    match s
    case Assign(targets, _) => assert Var(x) in targets && Var(x).id == x;
    case While(_, body, orelse) =>
      var t :| t in body && Assigns(t, x);
      AssignsIsLocal(t, x);
      AssignedMember(body, t);
    case _ =>
  }

  lemma {:induction false} AssignedMember(ss: seq<Stmt>, t: Stmt)
    requires t in ss
    ensures AssignedIn(t) <= AssignedInAll(ss)
    decreases |ss|
  {
    if t != ss[0] {
      AssignedMember(ss[1..], t);
    }
  }

  /** A supported statement passes the analysis of names, which finds exactly what it assigns. */
  lemma {:induction false} LocalIsAssigned(s: Stmt, tail: bool)
    requires Supported(s, tail)
    ensures AllowedIn(s) && forall x | x in AssignedIn(s) :: Assigns(s, x)
    decreases s, 0
  {
    match s
    case Assign(targets, _) => assert targets == [targets[0]] && targets[0] == Var(targets[0].id);
    case If(_, a, b) =>
      assert AssignedInAll(a) == AssignedIn(a[0]) + AssignedInAll(a[1..]) && AssignedInAll(b) == AssignedIn(b[0]) + AssignedInAll(b[1..]);
      assert AllowedInAll(a[1..]) && AllowedInAll(b[1..]);
    case While(_, body, _) =>
      LocalIsAssignedInAll(body, false);
    case _ =>
  }

  lemma {:induction false} LocalIsAssignedInAll(ss: seq<Stmt>, last: bool)
    requires forall i | 0 <= i < |ss| :: Supported(ss[i], last && i == |ss| - 1)
    ensures AllowedInAll(ss) && forall x | x in AssignedInAll(ss) :: exists s | s in ss :: Assigns(s, x)
    decreases ss, 1
  {
    if ss != [] {
      assert ss[0] in ss && Supported(ss[0], last && 0 == |ss| - 1);
      LocalIsAssigned(ss[0], last && |ss| == 1);
      forall i | 0 <= i < |ss[1..]| ensures Supported(ss[1..][i], last && i == |ss[1..]| - 1) { assert ss[1..][i] == ss[i + 1]; }
      LocalIsAssignedInAll(ss[1..], last);
      assert forall s | s in ss[1..] :: s in ss;
    }
  }

  // ----- Functions and modules -----

  lemma AssignedIsKnown(f: FunctionDef, s: Stmt, x: Name)
    requires s in f.body && Assigns(s, x)
    ensures x in AssignedInAll(f.body)
  {
    AssignsIsLocal(s, x);
    AssignedMember(f.body, s);
  }

  /**
    A function is accepted exactly when its text is in the subset and reads only parameters and
    assigned names. Otherwise the error is about the text: `Unsupported` of something outside
    the subset, an unknown name of one that is read and never defined, and an import of an import.
  */
  lemma AcceptedExactly(f: FunctionDef)
    ensures CompileFunction(f).Ok? <==> Acceptable(f)
    ensures CompileFunction(f).Err? ==>
              match CompileFunction(f).error
              case Unsupported => !PlainSignature(f) || !BodySupported(f.body)
              case UnknownVariable(x) => !Defined(f, x) && exists s | s in f.body :: x in ReadsIn(s)
              case ImportNotAllowed => exists s | s in f.body :: Imports(s)
              case NoFunctions => false
    ensures CompileFunction(f).Ok? ==>
              var e := CompileFunction(f).value;
              && e.name == f.name && e.func.params == f.params
              && forall x :: x in e.func.locals <==> x !in f.params && exists s | s in f.body :: Assigns(s, x)
  {
    hide Supported, Assigns, ReadsIn, AssignedIn, AllowedInAll, AssignedInAll, CompileBody, Imports;
    if SignatureAllowed(f) && AllowedInAll(f.body) {
      var params := set p | p in f.params;
      var names := FunctionContext(f.params, AssignedInAll(f.body) - params).Names();
      forall s, x | s in f.body && Assigns(s, x)
        ensures x in names && x in AssignedInAll(f.body)
      {
        AssignedIsKnown(f, s, x);
      }
      BodyAccepted(names, f.body);
      if BodySupported(f.body) {
        LocalIsAssignedInAll(f.body, true);
        assert forall x :: x in names <==> Defined(f, x);
      }
    } else if BodySupported(f.body) {
      LocalIsAssignedInAll(f.body, true);
    }
  }

  /** Every item is an acceptable definition. */
  predicate AllAcceptable(items: seq<ModuleItem>) {
    forall i | 0 <= i < |items| :: items[i].DefItem? && Acceptable(items[i].def)
  }

  /** A new compiler object accepts a module exactly when every item is an acceptable definition, and exports them in order. */
  lemma ModuleAcceptedExactly(items: seq<ModuleItem>)
    ensures var (v, visited) := VisitItems(VisitorState([], false), items);
            && (visited.Ok? <==> AllAcceptable(items))
            && (visited.Ok? ==> |v.functions| == |items| && !v.inFunction)
            && (visited.Ok? ==> forall i | 0 <= i < |items| ::
                  v.functions[i].name == items[i].def.name && v.functions[i].func.params == items[i].def.params)
  {
    hide CompileFunction, Acceptable;
    forall i | 0 <= i < |items| && items[i].DefItem?
      ensures CompileFunction(items[i].def).Ok? <==> Acceptable(items[i].def)
      ensures CompileFunction(items[i].def).Ok? ==>
                CompileFunction(items[i].def).value.name == items[i].def.name && CompileFunction(items[i].def).value.func.params == items[i].def.params
    {
      AcceptedExactly(items[i].def);
    }
    VisitItemsExactly(VisitorState([], false), items);
    if Accepted(items) {
      assert [] + Exports(items) == Exports(items);
    }
  }

  /** Otherwise the error is that of the first item that is not an acceptable definition. */
  lemma {:induction false} FirstRefusal(v: VisitorState, items: seq<ModuleItem>) returns (k: nat)
    requires !v.inFunction && !AllAcceptable(items)
    ensures k < |items| && AllAcceptable(items[..k]) && !(items[k].DefItem? && Acceptable(items[k].def))
    ensures items[k].ImportItem? ==> VisitItems(v, items).1 == Err(ImportNotAllowed)
    ensures items[k].OtherItem? ==> VisitItems(v, items).1 == Err(Unsupported)
    ensures items[k].DefItem? ==> CompileFunction(items[k].def).Err? && VisitItems(v, items).1 == Err(CompileFunction(items[k].def).error)
    decreases |items|
  {
    hide CompileFunction, Acceptable;
    if items[0].DefItem? {
      AcceptedExactly(items[0].def);
    }
    if items[0].DefItem? && Acceptable(items[0].def) {
      VisitAccepted(v, items[0].def);
      assert !AllAcceptable(items[1..]) by {
        var i :| 0 <= i < |items| && !(items[i].DefItem? && Acceptable(items[i].def));
        assert items[1..][i - 1] == items[i];
      }
      k := FirstRefusal(Visit(v, items[0].def).0, items[1..]);
      k := k + 1;
      forall i | 0 <= i < k
        ensures items[..k][i].DefItem? && Acceptable(items[..k][i].def)
      {
        assert i > 0 ==> items[..k][i] == items[1..][..k - 1][i - 1];
      }
    } else {
      k := 0;
      if items[0].DefItem? {
        RefusedAlike(v, items[0].def);
      }
    }
  }

  lemma RefusedAlike(v: VisitorState, f: FunctionDef)
    requires !v.inFunction && CompileFunction(f).Err?
    ensures Visit(v, f).1 == Err(CompileFunction(f).error)
  {
    hide LocalNames, CompileBody;
  }
}
