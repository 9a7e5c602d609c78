/**
  The fragment of WebAssembly that the micro-compiler emits: instructions, the
  validation algorithm, and execution.
*/
module Wasm {
  import opened Common
  import opened Numbers

  datatype ValType = F32T | I32T

  datatype Value = F32(num: Num) | I32(bit: bool) {
    function Type(): ValType {
      if F32? then F32T else I32T
    }
  }

  type Name = string

  datatype Instr =
    | Const(literal: real)
    | LocalGet(name: Name)
    | LocalSet(name: Name)
    | Bin(op: ArithOp)
    | Rel(rel: RelOp)
    | Eqz
    | Block(body: seq<Instr>)
    | Loop(body: seq<Instr>)
    | IfElse(thn: seq<Instr>, els: seq<Instr>)  // if (result f32)
    | Br(depth: nat)
    | BrIf(depth: nat)

  type Code = seq<Instr>

  datatype Func = Func(params: seq<Name>, locals: set<Name>, body: Code) {
    /** Every name a local.get or local.set may mention. */
    function Declared(): set<Name> {
      (set p | p in params) + locals
    }
  }

  // ----- Validation (WebAssembly Core 1.0, section 3.3.5) -----

  /** The operand types of the current control frame; `unreachable` after a br. */
  datatype Frame = Frame(types: seq<ValType>, unreachable: bool)

  /** A label's arity is 0 (block, loop) or 1 (if, function body). */
  datatype Context = Context(declared: set<Name>, labels: seq<seq<ValType>>)

  function Push(f: Frame, t: ValType): Frame {
    f.(types := f.types + [t])
  }

  function Pop(f: Frame, t: ValType): Option<Frame> {
    if f.types == [] then (if f.unreachable then Some(f) else None)
    else if f.types[|f.types| - 1] == t then Some(f.(types := f.types[..|f.types| - 1]))
    else None
  }

  function PopAll(f: Frame, ts: seq<ValType>): Option<Frame>
    decreases |ts|
  {
    if ts == [] then Some(f)
    else
      match Pop(f, ts[|ts| - 1])
      case None => None
      case Some(g) => PopAll(g, ts[..|ts| - 1])
  }

  /** A frame may end a block of the given result type: popping the results empties it. */
  predicate Ends(f: Frame, result: seq<ValType>) {
    match PopAll(f, result)
    case None => false
    case Some(g) => g.types == []
  }

  function Enter(c: Context, results: seq<ValType>): Context {
    c.(labels := [results] + c.labels)
  }

  function CheckInstr(c: Context, i: Instr, f: Frame): Option<Frame>
    decreases i, 0
  {
    match i
    case Const(_) => Some(Push(f, F32T))
    case LocalGet(x) => if x in c.declared then Some(Push(f, F32T)) else None
    case LocalSet(x) => if x in c.declared then Pop(f, F32T) else None
    case Bin(_) =>
      (match PopAll(f, [F32T, F32T])
       case None => None
       case Some(g) => Some(Push(g, F32T)))
    case Rel(_) =>
      (match PopAll(f, [F32T, F32T])
       case None => None
       case Some(g) => Some(Push(g, I32T)))
    case Eqz =>
      (match Pop(f, I32T)
       case None => None
       case Some(g) => Some(Push(g, I32T)))
    case Block(body) => if CheckBlock(Enter(c, []), body, []) then Some(f) else None
    case Loop(body) => if CheckBlock(Enter(c, []), body, []) then Some(f) else None
    case IfElse(thn, els) =>
      (match Pop(f, I32T)
       case None => None
       case Some(g) =>
         if CheckBlock(Enter(c, [F32T]), thn, [F32T]) && CheckBlock(Enter(c, [F32T]), els, [F32T])
         then Some(Push(g, F32T)) else None)
    case Br(l) =>
      if l < |c.labels| && PopAll(f, c.labels[l]).Some? then Some(Frame([], true)) else None
    case BrIf(l) =>
      (match Pop(f, I32T)
       case None => None
       case Some(g) =>
         if l < |c.labels| && PopAll(g, c.labels[l]).Some? then Some(g) else None)
  }

  function CheckCode(c: Context, code: Code, f: Frame): Option<Frame>
    decreases code, 1
  {
    if code == [] then Some(f)
    else
      match CheckInstr(c, code[0], f)
      case None => None
      case Some(g) => CheckCode(c, code[1..], g)
  }

  predicate CheckBlock(c: Context, body: Code, result: seq<ValType>)
    decreases body, 2
  {
    match CheckCode(c, body, Frame([], false))
    case None => false
    case Some(f) => Ends(f, result)
  }

  /** The function body validates as [] -> [f32]. */
  predicate ValidFunc(fn: Func) {
    CheckBlock(Context(fn.Declared(), [[F32T]]), fn.body, [F32T])
  }

  // ----- Execution (WebAssembly Core 1.0, section 4.4.5) -----

  type Locals = map<Name, Value>

  /**
    The result of running code on the operand stack of one control frame. `Jump`
    carries the stack at the branch, `OutOfFuel` means that the given number of loop
    iterations was not enough, and `Stuck` that an operand or a local was missing.
  */
  datatype Run =
    | Falls(locals: Locals, stack: seq<Value>)
    | Jump(depth: nat, locals: Locals, stack: seq<Value>)
    | OutOfFuel
    | Stuck

  /** Leaves a block of arity `arity`: unwinds a jump to this block's label, lowers the others. */
  function Leave(r: Run, below: seq<Value>, arity: nat): Run {
    match r
    case Falls(locals, stack) => Falls(locals, below + stack)
    case Jump(l, locals, stack) =>
      if l > 0 then Jump(l - 1, locals, stack)
      else if |stack| < arity then Stuck
      else Falls(locals, below + stack[|stack| - arity..])
    case _ => r
  }

  function Top2(stack: seq<Value>): Option<(Num, Num)> {
    if |stack| >= 2 && stack[|stack| - 2].F32? && stack[|stack| - 1].F32?
    then Some((stack[|stack| - 2].num, stack[|stack| - 1].num)) else None
  }

  function ExecInstr(m: Arith, i: Instr, locals: Locals, stack: seq<Value>, fuel: nat): Run
    decreases fuel, i, 0
  {
    var n := |stack|;
    match i
    case Const(k) => Falls(locals, stack + [F32(m.literal(k))])
    case LocalGet(x) => if x in locals then Falls(locals, stack + [locals[x]]) else Stuck
    case LocalSet(x) =>
      if x in locals && n > 0 then Falls(locals[x := stack[n - 1]], stack[..n - 1]) else Stuck
    case Bin(op) =>
      (match Top2(stack)
       case None => Stuck
       case Some(p) => Falls(locals, stack[..n - 2] + [F32(m.arith(op, p.0, p.1))]))
    case Rel(op) =>
      (match Top2(stack)
       case None => Stuck
       case Some(p) => Falls(locals, stack[..n - 2] + [I32(m.compare(op, p.0, p.1))]))
    case Eqz =>
      if n > 0 && stack[n - 1].I32? then Falls(locals, stack[..n - 1] + [I32(!stack[n - 1].bit)]) else Stuck
    case Block(body) => Leave(Exec(m, body, locals, [], fuel), stack, 0)
    case Loop(body) =>
      (match Exec(m, body, locals, [], fuel)
       case Jump(0, locals', _) =>
         if fuel == 0 then OutOfFuel else ExecInstr(m, i, locals', stack, fuel - 1)
       case r => Leave(r, stack, 0))
    case IfElse(thn, els) =>
      if n > 0 && stack[n - 1].I32?
      then Leave(Exec(m, if stack[n - 1].bit then thn else els, locals, [], fuel), stack[..n - 1], 1)
      else Stuck
    case Br(l) => Jump(l, locals, stack)
    case BrIf(l) =>
      if n > 0 && stack[n - 1].I32?
      then (if stack[n - 1].bit then Jump(l, locals, stack[..n - 1]) else Falls(locals, stack[..n - 1]))
      else Stuck
  }

  /** `fuel` bounds the iterations of each loop; it is not consumed by any other instruction. */
  function Exec(m: Arith, code: Code, locals: Locals, stack: seq<Value>, fuel: nat): Run
    decreases fuel, code, 1
  {
    if code == [] then Falls(locals, stack)
    else
      match ExecInstr(m, code[0], locals, stack, fuel)
      case Falls(locals', stack') => Exec(m, code[1..], locals', stack', fuel)
      case r => r
  }

  /** The locals of a call: arguments bound to parameters, all other locals zero. */
  function Zeroed(m: Arith, fn: Func, args: map<Name, Num>): Locals {
    map x | x in fn.Declared() :: F32(if x in args then args[x] else m.literal(0.0))
  }

  /** Runs a call: the function body is a block of arity 1. */
  function Call(m: Arith, fn: Func, args: map<Name, Num>, fuel: nat): Run {
    Leave(Exec(m, fn.body, Zeroed(m, fn, args), [], fuel), [], 1)
  }

  // ----- Composition -----

  /** Running a concatenation is running its parts one after the other. */
  lemma {:induction false} ExecAppend(m: Arith, a: Code, b: Code, locals: Locals, stack: seq<Value>, fuel: nat)
    ensures Exec(m, a + b, locals, stack, fuel)
         == match Exec(m, a, locals, stack, fuel)
            case Falls(l, s) => Exec(m, b, l, s, fuel)
            case r => r
    decreases |a|
  {
    if a == [] {
      assert a + b == b;
    } else {
      assert (a + b)[0] == a[0] && (a + b)[1..] == a[1..] + b;
      match ExecInstr(m, a[0], locals, stack, fuel)
      case Falls(l, s) => ExecAppend(m, a[1..], b, l, s, fuel);
      case _ =>
    }
  }

  lemma {:induction false} CheckAppend(c: Context, a: Code, b: Code, f: Frame)
    ensures CheckCode(c, a + b, f)
         == match CheckCode(c, a, f)
            case Some(g) => CheckCode(c, b, g)
            case None => None
    decreases |a|
  {
    if a == [] {
      assert a + b == b;
    } else {
      assert (a + b)[0] == a[0] && (a + b)[1..] == a[1..] + b;
      match CheckInstr(c, a[0], f)
      case Some(g) => CheckAppend(c, a[1..], b, g);
      case None =>
    }
  }

  // ----- More fuel never changes a finished run -----

  lemma {:induction false} MoreFuelInstr(m: Arith, i: Instr, locals: Locals, stack: seq<Value>, fuel: nat, more: nat)
    requires fuel <= more && ExecInstr(m, i, locals, stack, fuel) != OutOfFuel
    ensures ExecInstr(m, i, locals, stack, more) == ExecInstr(m, i, locals, stack, fuel)
    decreases fuel, i, 0
  {
    match i
    case Block(body) => MoreFuel(m, body, locals, [], fuel, more);
    case Loop(body) =>
      MoreFuel(m, body, locals, [], fuel, more);
      var r := Exec(m, body, locals, [], fuel);
      if r.Jump? && r.depth == 0 {
        MoreFuelInstr(m, i, r.locals, stack, fuel - 1, more - 1);
      }
    case IfElse(thn, els) =>
      if |stack| > 0 && stack[|stack| - 1].I32? {
        MoreFuel(m, if stack[|stack| - 1].bit then thn else els, locals, [], fuel, more);
      }
    case _ =>
  }

  lemma {:induction false} MoreFuel(m: Arith, code: Code, locals: Locals, stack: seq<Value>, fuel: nat, more: nat)
    requires fuel <= more && Exec(m, code, locals, stack, fuel) != OutOfFuel
    ensures Exec(m, code, locals, stack, more) == Exec(m, code, locals, stack, fuel)
    decreases fuel, code, 1
  {
    if code != [] {
      MoreFuelInstr(m, code[0], locals, stack, fuel, more);
      match ExecInstr(m, code[0], locals, stack, fuel)
      case Falls(l, s) => MoreFuel(m, code[1..], l, s, fuel, more);
      case _ =>
    }
  }

  // ----- Code that does not get stuck leaves the values below it alone -----

  function Below(below: seq<Value>, r: Run): Run {
    match r
    case Falls(locals, stack) => Falls(locals, below + stack)
    case Jump(l, locals, stack) => Jump(l, locals, below + stack)
    case _ => r
  }

  /** The same run, on a deeper stack; a jump out keeps the values it carries on top. */
  predicate SameAbove(below: seq<Value>, r: Run, deeper: Run) {
    match r
    case Jump(l, locals, stack) =>
      deeper.Jump? && deeper.depth == l && deeper.locals == locals &&
      |stack| <= |deeper.stack| && deeper.stack[|deeper.stack| - |stack|..] == stack
    case Stuck => true
    case _ => deeper == Below(below, r)
  }

  lemma {:induction false} FrameLoop(m: Arith, body: Code, locals: Locals, below: seq<Value>, stack: seq<Value>, fuel: nat)
    ensures SameAbove(below, ExecInstr(m, Loop(body), locals, stack, fuel), ExecInstr(m, Loop(body), locals, below + stack, fuel))
    decreases fuel
  {
    var r := Exec(m, body, locals, [], fuel);
    if r.Jump? && r.depth == 0 && fuel > 0 {
      FrameLoop(m, body, r.locals, below, stack, fuel - 1);
    } else if r.Falls? {
      assert below + stack + r.stack == below + (stack + r.stack);
    }
  }

  lemma FrameBinary(m: Arith, i: Instr, locals: Locals, below: seq<Value>, stack: seq<Value>, fuel: nat)
    requires i.Bin? || i.Rel?
    ensures SameAbove(below, ExecInstr(m, i, locals, stack, fuel), ExecInstr(m, i, locals, below + stack, fuel))
  {
    var n, deep := |stack|, below + stack;
    if Top2(stack).Some? {
      assert deep[|deep| - 1] == stack[n - 1] && deep[|deep| - 2] == stack[n - 2];
      assert forall v :: deep[..|deep| - 2] + [v] == below + (stack[..n - 2] + [v]);
    }
  }

  lemma FrameTop(m: Arith, i: Instr, locals: Locals, below: seq<Value>, stack: seq<Value>, fuel: nat)
    requires i.LocalSet? || i.Eqz? || i.BrIf?
    ensures SameAbove(below, ExecInstr(m, i, locals, stack, fuel), ExecInstr(m, i, locals, below + stack, fuel))
  {
    var n, deep := |stack|, below + stack;
    if n > 0 {
      assert deep[|deep| - 1] == stack[n - 1] && deep[..|deep| - 1] == below + stack[..n - 1];
      assert below + stack[..n - 1] + [I32(false)] == below + (stack[..n - 1] + [I32(false)]);
      assert below + stack[..n - 1] + [I32(true)] == below + (stack[..n - 1] + [I32(true)]);
    }
  }

  lemma FrameIf(m: Arith, i: Instr, locals: Locals, below: seq<Value>, stack: seq<Value>, fuel: nat)
    requires i.IfElse?
    ensures SameAbove(below, ExecInstr(m, i, locals, stack, fuel), ExecInstr(m, i, locals, below + stack, fuel))
  {
    var n, deep := |stack|, below + stack;
    if n > 0 && stack[n - 1].I32? {
      assert deep[|deep| - 1] == stack[n - 1] && deep[..|deep| - 1] == below + stack[..n - 1];
      var r := Exec(m, if stack[n - 1].bit then i.thn else i.els, locals, [], fuel);
      FrameLeave(r, below, stack[..n - 1], 1);
    }
  }

  /** Leaving a block puts its results on top of whatever was below. */
  lemma FrameLeave(r: Run, below: seq<Value>, stack: seq<Value>, arity: nat)
    ensures SameAbove(below, Leave(r, stack, arity), Leave(r, below + stack, arity))
  {
    if r.Falls? {
      assert below + stack + r.stack == below + (stack + r.stack);
    } else if r.Jump? && r.depth == 0 && arity <= |r.stack| {
      var top := r.stack[|r.stack| - arity..];
      assert below + stack + top == below + (stack + top);
    }
  }

  lemma {:induction false} FrameInstr(m: Arith, i: Instr, locals: Locals, below: seq<Value>, stack: seq<Value>, fuel: nat)
    ensures SameAbove(below, ExecInstr(m, i, locals, stack, fuel), ExecInstr(m, i, locals, below + stack, fuel))
  {
    match i
    case Loop(body) => FrameLoop(m, body, locals, below, stack, fuel);
    case Bin(_) => FrameBinary(m, i, locals, below, stack, fuel);
    case Rel(_) => FrameBinary(m, i, locals, below, stack, fuel);
    case Br(_) =>
    case LocalSet(_) => FrameTop(m, i, locals, below, stack, fuel);
    case Eqz => FrameTop(m, i, locals, below, stack, fuel);
    case IfElse(_, _) => FrameIf(m, i, locals, below, stack, fuel);
    case BrIf(_) => FrameTop(m, i, locals, below, stack, fuel);
    case Block(body) => FrameLeave(Exec(m, body, locals, [], fuel), below, stack, 0);
    case Const(k) => assert below + stack + [F32(m.literal(k))] == below + (stack + [F32(m.literal(k))]);
    case LocalGet(x) =>
      if x in locals { assert below + stack + [locals[x]] == below + (stack + [locals[x]]); }
  }

  /** The frame rule: code never looks at, or changes, the operands below the ones it needs. */
  lemma {:induction false} FrameRule(m: Arith, code: Code, locals: Locals, below: seq<Value>, stack: seq<Value>, fuel: nat)
    ensures SameAbove(below, Exec(m, code, locals, stack, fuel), Exec(m, code, locals, below + stack, fuel))
    decreases |code|
  {
    if code != [] {
      FrameInstr(m, code[0], locals, below, stack, fuel);
      match ExecInstr(m, code[0], locals, stack, fuel)
      case Falls(l, s) => FrameRule(m, code[1..], l, below, s, fuel);
      case _ =>
    }
  }

  // ----- Validated code never gets stuck -----

  function Types(stack: seq<Value>): (ts: seq<ValType>)
    ensures |ts| == |stack|
  {
    seq(|stack|, i requires 0 <= i < |stack| => stack[i].Type())
  }

  /** Every declared local is present and holds an f32. */
  predicate LocalsFit(c: Context, locals: Locals) {
    locals.Keys == c.declared && forall x :: x in locals ==> locals[x].F32?
  }

  /** The stack has at least the results on top. */
  predicate Offers(stack: seq<Value>, ts: seq<ValType>) {
    |ts| <= |stack| && Types(stack[|stack| - |ts|..]) == ts
  }

  /** What validation promises about a run that started in frame `f` and ended in frame `g`. */
  predicate Sound(c: Context, g: Frame, r: Run) {
    match r
    case Falls(locals, stack) => !g.unreachable && Types(stack) == g.types && LocalsFit(c, locals)
    case Jump(l, locals, stack) => l < |c.labels| && Offers(stack, c.labels[l]) && LocalsFit(c, locals)
    case OutOfFuel => true
    case Stuck => false
  }

  lemma {:induction false} PopAllReachable(f: Frame, ts: seq<ValType>)
    requires !f.unreachable
    ensures PopAll(f, ts).Some? <==> |ts| <= |f.types| && f.types[|f.types| - |ts|..] == ts
    ensures PopAll(f, ts).Some? ==> PopAll(f, ts).value == Frame(f.types[..|f.types| - |ts|], false)
    decreases |ts|
  {
    if ts != [] {
      var n, k := |f.types|, |ts|;
      if Pop(f, ts[k - 1]).Some? {
        var g := Pop(f, ts[k - 1]).value;
        PopAllReachable(g, ts[..k - 1]);
        if k <= n {
          assert f.types[n - k..] == g.types[n - k..] + [f.types[n - 1]];
          assert ts == ts[..k - 1] + [ts[k - 1]];
        }
      } else if k <= n {
        assert f.types[n - k..][k - 1] == f.types[n - 1];
      }
    } else {
      assert f.types[..|f.types|] == f.types;
    }
  }

  lemma TypesTake(stack: seq<Value>, k: nat)
    requires k <= |stack|
    ensures Types(stack[..k]) == Types(stack)[..k]
    ensures Types(stack[k..]) == Types(stack)[k..]
  {}

  lemma {:induction false} SoundBinary(m: Arith, c: Context, i: Instr, f: Frame, locals: Locals, stack: seq<Value>, fuel: nat)
    requires !f.unreachable && Types(stack) == f.types && LocalsFit(c, locals)
    requires (i.Bin? || i.Rel?) && CheckInstr(c, i, f).Some?
    ensures Sound(c, CheckInstr(c, i, f).value, ExecInstr(m, i, locals, stack, fuel))
  {
    var n := |stack|;
    PopAllReachable(f, [F32T, F32T]);
    TypesTake(stack, n - 2);
    assert f.types[n - 2] == f.types[n - 2..][0] == F32T;
    assert f.types[n - 1] == f.types[n - 2..][1] == F32T;
    assert stack[n - 2].Type() == F32T && stack[n - 1].Type() == F32T;
  }

  lemma PoppableIsOffered(stack: seq<Value>, ts: seq<ValType>)
    requires PopAll(Frame(Types(stack), false), ts).Some?
    ensures Offers(stack, ts)
  {
    PopAllReachable(Frame(Types(stack), false), ts);
    TypesTake(stack, |stack| - |ts|);
  }

  lemma {:induction false} SoundBranchIf(m: Arith, c: Context, i: Instr, f: Frame, locals: Locals, stack: seq<Value>, fuel: nat)
    requires !f.unreachable && Types(stack) == f.types && LocalsFit(c, locals)
    requires i.BrIf? && CheckInstr(c, i, f).Some?
    ensures Sound(c, CheckInstr(c, i, f).value, ExecInstr(m, i, locals, stack, fuel))
  {
    var n := |stack|;
    assert f.types[n - 1] == stack[n - 1].Type();
    TypesTake(stack, n - 1);
    assert Pop(f, I32T).value == Frame(Types(stack[..n - 1]), false);
    PoppableIsOffered(stack[..n - 1], c.labels[i.depth]);
  }

  lemma {:induction false} SoundUnary(m: Arith, c: Context, i: Instr, f: Frame, locals: Locals, stack: seq<Value>, fuel: nat)
    requires !f.unreachable && Types(stack) == f.types && LocalsFit(c, locals)
    requires (i.LocalSet? || i.Eqz?) && CheckInstr(c, i, f).Some?
    ensures Sound(c, CheckInstr(c, i, f).value, ExecInstr(m, i, locals, stack, fuel))
  {
    var n := |stack|;
    TypesTake(stack, n - 1);
    assert f.types[n - 1] == stack[n - 1].Type();
  }

  lemma {:induction false} SoundLoop(m: Arith, c: Context, i: Instr, f: Frame, locals: Locals, stack: seq<Value>, fuel: nat)
    requires !f.unreachable && Types(stack) == f.types && LocalsFit(c, locals)
    requires i.Loop? && CheckInstr(c, i, f).Some?
    ensures Sound(c, CheckInstr(c, i, f).value, ExecInstr(m, i, locals, stack, fuel))
    decreases fuel, i, 0
  {
    SoundBlock(m, Enter(c, []), i.body, [], locals, fuel);
    var r := Exec(m, i.body, locals, [], fuel);
    if r.Falls? {
      assert stack + r.stack == stack;
    } else if r.Jump? && r.depth == 0 && fuel > 0 {
      SoundLoop(m, c, i, f, r.locals, stack, fuel - 1);
    }
  }

  lemma {:induction false} SoundInstr(m: Arith, c: Context, i: Instr, f: Frame, locals: Locals, stack: seq<Value>, fuel: nat)
    requires !f.unreachable && Types(stack) == f.types && LocalsFit(c, locals)
    requires CheckInstr(c, i, f).Some?
    ensures Sound(c, CheckInstr(c, i, f).value, ExecInstr(m, i, locals, stack, fuel))
    decreases fuel, i, 1
  {
    match i
    case LocalSet(_) => SoundUnary(m, c, i, f, locals, stack, fuel);
    case Eqz => SoundUnary(m, c, i, f, locals, stack, fuel);
    case Bin(_) => SoundBinary(m, c, i, f, locals, stack, fuel);
    case Rel(_) => SoundBinary(m, c, i, f, locals, stack, fuel);
    case Br(l) =>
      assert f == Frame(Types(stack), false);
      PoppableIsOffered(stack, c.labels[l]);
    case BrIf(_) => SoundBranchIf(m, c, i, f, locals, stack, fuel);
    case Block(body) =>
      SoundBlock(m, Enter(c, []), body, [], locals, fuel);
      var r := Exec(m, body, locals, [], fuel);
      assert r.Falls? ==> stack + r.stack == stack;
      assert r.Jump? && r.depth == 0 ==> stack + r.stack[|r.stack|..] == stack;
    case Loop(_) => SoundLoop(m, c, i, f, locals, stack, fuel);
    case IfElse(_, _) => SoundIf(m, c, i, f, locals, stack, fuel);
    case Const(_) =>
    case LocalGet(_) =>
  }

  lemma {:induction false} SoundIf(m: Arith, c: Context, i: Instr, f: Frame, locals: Locals, stack: seq<Value>, fuel: nat)
    requires !f.unreachable && Types(stack) == f.types && LocalsFit(c, locals)
    requires i.IfElse? && CheckInstr(c, i, f).Some?
    ensures Sound(c, CheckInstr(c, i, f).value, ExecInstr(m, i, locals, stack, fuel))
    decreases fuel, i, 0
  {
    var n := |stack|;
    TypesTake(stack, n - 1);
    assert f.types[n - 1] == stack[n - 1].Type();
    var branch := if stack[n - 1].bit then i.thn else i.els;
    SoundBlock(m, Enter(c, [F32T]), branch, [F32T], locals, fuel);
    var r := Exec(m, branch, locals, [], fuel);
    if r.Falls? {
      assert Types(stack[..n - 1] + r.stack) == Types(stack[..n - 1]) + Types(r.stack);
    } else if r.Jump? && r.depth == 0 {
      var top := r.stack[|r.stack| - 1..];
      assert Types(stack[..n - 1] + top) == Types(stack[..n - 1]) + Types(top);
    }
  }

  lemma {:induction false} SoundCode(m: Arith, c: Context, code: Code, f: Frame, locals: Locals, stack: seq<Value>, fuel: nat)
    requires !f.unreachable && Types(stack) == f.types && LocalsFit(c, locals)
    requires CheckCode(c, code, f).Some?
    ensures Sound(c, CheckCode(c, code, f).value, Exec(m, code, locals, stack, fuel))
    decreases fuel, code, 1
  {
    if code != [] {
      SoundInstr(m, c, code[0], f, locals, stack, fuel);
      var r := ExecInstr(m, code[0], locals, stack, fuel);
      if r.Falls? {
        SoundCode(m, c, code[1..], CheckInstr(c, code[0], f).value, r.locals, r.stack, fuel);
      }
    }
  }

  /** A validated block, entered on an empty operand stack, falls through with exactly its results. */
  lemma {:induction false} SoundBlock(m: Arith, c: Context, body: Code, result: seq<ValType>, locals: Locals, fuel: nat)
    requires LocalsFit(c, locals) && CheckBlock(c, body, result)
    ensures var r := Exec(m, body, locals, [], fuel);
            Sound(c, Frame(result, false), r)
    decreases fuel, body, 2
  {
    var f := Frame([], false);
    SoundCode(m, c, body, f, locals, [], fuel);
    var g := CheckCode(c, body, f).value;
    if !g.unreachable {
      PopAllReachable(g, result);
    }
  }

  /** Type soundness: calling a validated function returns one f32, or runs for ever. */
  lemma {:induction false} ValidFuncSound(m: Arith, fn: Func, args: map<Name, Num>, fuel: nat)
    requires ValidFunc(fn)
    ensures var r := Call(m, fn, args, fuel);
            r.OutOfFuel? || (r.Falls? && |r.stack| == 1 && r.stack[0].F32?)
  {
    var c := Context(fn.Declared(), [[F32T]]);
    SoundBlock(m, c, fn.body, [F32T], Zeroed(m, fn, args), fuel);
    var r := Exec(m, fn.body, Zeroed(m, fn, args), [], fuel);
    if r.Falls? {
      assert r.stack[0].Type() == Types(r.stack)[0] == F32T;
    } else if r.Jump? {
      var top := r.stack[|r.stack| - 1..];
      assert top[0].Type() == Types(top)[0] == F32T;
    }
  }
}
