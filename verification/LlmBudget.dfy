/**
  Budgets over whole runs of chats and streams: what the ledger counts, when the providers are
  no longer reached, and when a limit on completion tokens is kept.
*/
module LlmBudget {
  import opened Common
  import opened LlmTypes
  import opened PyValues
  import opened LlmChat
  import S = LlmStream
  import C = LlmCache

  // ----- Sums -----

  function UsageOf(o: Outcome): Option<Usage> {
    if o.Answered? then o.response.usage else None
  }

  /** The usage of every provider call that was answered. */
  function SumAnswers(w: World, calls: seq<Call>): Ledger
    decreases |calls|
  {
    if calls == [] then Empty()
    else
      var t := |calls| - 1;
      Plus(SumAnswers(w, calls[..t]), Counts(UsageOf(w.complete(calls[t], t))))
  }

  /** What a stream adds: its final usage, once it is completed. */
  function StreamUsage(s: S.Streamed): Option<Usage> {
    if s.finish.Done? then s.finish.usage else None
  }

  /** The usage of every stream that completed. */
  function SumStreams(streams: seq<S.Streamed>): Ledger
    decreases |streams|
  {
    if streams == [] then Empty()
    else Plus(SumStreams(streams[..|streams| - 1]), Counts(StreamUsage(streams[|streams| - 1])))
  }

  // ----- Runs -----

  /** A stream that was handed to its caller and has not ended yet. */
  datatype Pending = Pending(world: S.World, route: seq<string>, maxTokens: Option<nat>)

  /**
    Streams are checked when they are opened and run when their caller drains them, so that
    other operations may come in between. `DrainOp` drains an open stream as far as its caller
    likes, and then it is gone.
  */
  datatype Op =
    | ChatOp(provider: Option<string>, request: Request)
    | OpenOp(provider: Option<string>, world: S.World, maxTokens: Option<nat>)
    | DrainOp(index: nat, nexts: nat)
    | ClearOp

  /** `streams` are the streams that were drained. */
  datatype Running = Running(state: State, open: seq<Pending>, streams: seq<S.Streamed>)

  /** A stream request: an error, or a stream. */
  function OpenStream(w: World, s: State, op: Op): Result<Pending, ChatError>
    requires op.OpenOp?
  {
    match RouteOf(w, op.provider)
    case Err(error) => Err(error)
    case Ok(route) => if Refuses(w.budget, s.ledger, op.maxTokens) then Err(OverBudget) else Ok(Pending(op.world, route, op.maxTokens))
  }

  /** What is charged for a completed stream: the provider that served it, under its own name. */
  function StreamCost(w: World, sw: S.World, s: S.Streamed): seq<Cost> {
    if !s.finish.Done? || s.finish.usage.None? || s.openings == [] then []
    else
      var provider := sw.ownName(s.openings[|s.openings| - 1].provider);
      if w.billable(provider, sw.model, s.finish.usage.value) then [Cost(provider, sw.model, s.finish.usage.value)] else []
  }

  /** The ledgers after a stream was drained. */
  function Drained(w: World, state: State, sw: S.World, s: S.Streamed): State {
    state.(ledger := S.LedgerAfter(state.ledger, s), costs := state.costs + StreamCost(w, sw, s))
  }

  function Without(open: seq<Pending>, index: nat): seq<Pending>
    requires index < |open|
  {
    open[..index] + open[index + 1..]
  }

  function Step(w: World, x: Running, op: Op): Running {
    match op
    case ChatOp(provider, r) => x.(state := Chat(w, x.state, provider, r).0)
    case OpenOp(_, _, _) =>
      (match OpenStream(w, x.state, op)
       case Err(_) => x
       case Ok(p) => x.(open := x.open + [p]))
    case DrainOp(index, nexts) =>
      if index >= |x.open| then x
      else
        var p := x.open[index];
        var s := S.Stream(p.world, p.route, nexts);
        Running(Drained(w, x.state, p.world, s), Without(x.open, index), x.streams + [s])
    case ClearOp => x.(state := Clear(x.state))
  }

  function Run(w: World, x: Running, ops: seq<Op>): Running
    decreases |ops|
  {
    if ops == [] then x else Run(w, Step(w, x, ops[0]), ops[1..])
  }

  function Start(): Running {
    Running(C.Fresh(), [], [])
  }

  // ----- The ledger is the sum -----

  /** The ledger counts what was answered and streamed, each once. */
  predicate Counted(w: World, s: State, base: Ledger) {
    s.ledger == Plus(SumAnswers(w, s.calls), base)
  }

  lemma {:induction false} CompleteSums(w: World, s: State, call: Call, attempt: nat)
    ensures var (t, outcome) := Complete(w, s, call, attempt);
            && t == s.(calls := t.calls)
            && SumAnswers(w, t.calls) == Plus(SumAnswers(w, s.calls), Counts(UsageOf(outcome)))
    decreases w.policy.maxAttempts - attempt
  {
    var outcome := w.complete(call, |s.calls|);
    var t := s.(calls := s.calls + [call]);
    assert t.calls[..|t.calls| - 1] == s.calls;
    if outcome.Threw? && Retryable(w.policy, outcome.failure.category) && attempt < w.policy.maxAttempts {
      CompleteSums(w, t, call, attempt + 1);
    }
  }

  lemma AcceptSums(w: World, s: State, u: State, call: Call, response: Response, base: Ledger)
    requires Counted(w, s, base) && u.ledger == s.ledger
    requires SumAnswers(w, u.calls) == Plus(SumAnswers(w, s.calls), Counts(response.usage))
    ensures Counted(w, Accept(w, u, call, response).0, base)
  {
    ApplyIsPlus(u.ledger, response.usage);
  }

  lemma {:induction false} RoutedSums(w: World, s: State, route: seq<string>, r: Request, base: Ledger)
    requires Counted(w, s, base)
    ensures Counted(w, Routed(w, s, route, r).0, base)
    decreases |route|
  {
    hide Accept, Complete, SumAnswers;
    if route != [] {
      var call := Call(route[0], r);
      var (t, cached) := Lookup(w, s, r, route[0]);
      if cached.None? {
        CompleteSums(w, t, call, 1);
        var (u, outcome) := Complete(w, t, call, 1);
        match outcome
        case Answered(response) => AcceptSums(w, t, u, call, response, base);
        case Threw(f) =>
          if GoesOn(w, f) {
            RoutedSums(w, u, route[1..], r, base);
          }
      }
    }
  }

  lemma SingleSums(w: World, s: State, provider: string, r: Request, base: Ledger)
    requires Counted(w, s, base)
    ensures Counted(w, ChatSingle(w, s, provider, r).0, base)
  {
    hide Accept, Complete, SumAnswers;
    var call := Call(provider, r);
    var (t, cached) := Lookup(w, s, r, provider);
    if cached.None? {
      CompleteSums(w, t, call, 1);
      var (u, outcome) := Complete(w, t, call, 1);
      if outcome.Answered? {
        AcceptSums(w, t, u, call, outcome.response, base);
      }
    }
  }

  lemma ChatSums(w: World, s: State, provider: Option<string>, r: Request, base: Ledger)
    requires Counted(w, s, base)
    ensures Counted(w, Chat(w, s, provider, r).0, base)
  {
    hide Routed, ChatSingle, Counted, RouteOf;
    if w.single.Some? {
      SingleSums(w, s, w.single.value, r, base);
    } else if RouteOf(w, provider).Ok? {
      RoutedSums(w, s, RouteOf(w, provider).value, r, base);
    }
  }

  lemma StepSums(w: World, x: Running, op: Op)
    requires Counted(w, x.state, SumStreams(x.streams))
    ensures var y := Step(w, x, op); Counted(w, y.state, SumStreams(y.streams))
  {
    hide S.Stream, StreamCost, SumStreams, SumAnswers, Chat, RouteOf, Counts;
    match op
    case ChatOp(provider, r) => ChatSums(w, x.state, provider, r, SumStreams(x.streams));
    case OpenOp(_, _, _) =>
    case DrainOp(index, nexts) =>
      if index < |x.open| {
        SumOneMore(x.streams, S.Stream(x.open[index].world, x.open[index].route, nexts));
        DrainCounts(w, x, op);
      }
    case ClearOp =>
  }

  lemma {:induction false} RunSums(w: World, x: Running, ops: seq<Op>)
    requires Counted(w, x.state, SumStreams(x.streams))
    ensures var y := Run(w, x, ops); Counted(w, y.state, SumStreams(y.streams))
    decreases |ops|
  {
    hide Counted, Step, SumStreams;
    if ops != [] {
      StepSums(w, x, ops[0]);
      RunSums(w, Step(w, x, ops[0]), ops[1..]);
    }
  }

  /**
    Over every run the ledger is the componentwise sum of the known usage of all answered
    provider calls and completed streams, including those whose caller got a budget error.
  */
  lemma LedgerIsTheSum(w: World, ops: seq<Op>)
    ensures var y := Run(w, Start(), ops);
            y.state.ledger == Plus(SumAnswers(w, y.state.calls), SumStreams(y.streams))
  {
    hide Run, SumAnswers, SumStreams;
    NothingCounted(w);
    RunSums(w, Start(), ops);
  }

  lemma NothingCounted(w: World)
    ensures Counted(w, Start().state, SumStreams(Start().streams))
  {
    hide Run, SumAnswers, SumStreams;
    NoSums(w, Start().state.calls, Start().streams);
  }

  lemma NoSums(w: World, calls: seq<Call>, streams: seq<S.Streamed>)
    requires calls == [] && streams == []
    ensures SumAnswers(w, calls) == Empty() == SumStreams(streams)
  {
  }

  // ----- Over the limit -----

  lemma OverdrawnRefuses(b: Option<Budget>, l: Ledger, maxTokens: Option<nat>)
    requires Overdrawn(b, l)
    ensures Refuses(b, l, maxTokens)
  {
    var kind :| kind in CheckBudget(b.value, l);
    assert kind in CheckRequest(b.value, l, maxTokens);
  }

  /** Nothing but streams that were open already happened between `x` and `y`. */
  ghost predicate OnlyDrained(x: Running, y: Running) {
    && y.state.calls == x.state.calls && multiset(y.open) <= multiset(x.open)
    && x.streams <= y.streams && |y.streams| - |x.streams| == |x.open| - |y.open|
    && (x.open == [] ==> y.state.ledger == x.state.ledger && y.streams == x.streams)
  }

  lemma StepRefuses(w: World, x: Running, op: Op)
    requires Overdrawn(w.budget, x.state.ledger)
    ensures Overdrawn(w.budget, Step(w, x, op).state.ledger) && OnlyDrained(x, Step(w, x, op))
  {
    hide Overdrawn, Refuses, RouteOf, S.Stream, StreamCost, Routed, Drained, Without;
    match op
    case ChatOp(provider, r) => OverdrawnRefuses(w.budget, x.state.ledger, MaxTokens(r.metadata));
    case OpenOp(_, _, maxTokens) => OverdrawnRefuses(w.budget, x.state.ledger, maxTokens);
    case DrainOp(index, nexts) =>
      if index < |x.open| {
        DrainKeepsOver(w, x, index, nexts);
      }
    case ClearOp =>
  }

  lemma DrainKeepsOver(w: World, x: Running, index: nat, nexts: nat)
    requires Overdrawn(w.budget, x.state.ledger) && index < |x.open|
    ensures var y := Step(w, x, DrainOp(index, nexts)); Overdrawn(w.budget, y.state.ledger) && OnlyDrained(x, y)
  {
    hide Overdrawn, S.Stream, StreamCost;
    assert x.open == x.open[..index] + [x.open[index]] + x.open[index + 1..];
    C.RefusesMore(w.budget, x.state.ledger, Step(w, x, DrainOp(index, nexts)).state.ledger, None);
  }

  lemma {:induction false} RunRefuses(w: World, x: Running, ops: seq<Op>)
    requires Overdrawn(w.budget, x.state.ledger)
    ensures OnlyDrained(x, Run(w, x, ops))
    decreases |ops|
  {
    hide Overdrawn, Step;
    if ops != [] {
      StepRefuses(w, x, ops[0]);
      RunRefuses(w, Step(w, x, ops[0]), ops[1..]);
    }
  }

  /**
    Once a strict limit is exceeded, no later chat reaches a provider and no later stream is
    opened; only streams that were open by then may still be drained.
  */
  lemma OverdrawnStaysClosed(w: World, before: seq<Op>, after: seq<Op>)
    requires Overdrawn(w.budget, Run(w, Start(), before).state.ledger)
    ensures OnlyDrained(Run(w, Start(), before), Run(w, Run(w, Start(), before), after))
  {
    RunRefuses(w, Run(w, Start(), before), after);
  }

  // ----- A bound on completion tokens -----

  /** Every answer reports at most as many completion tokens as its request allows. */
  ghost predicate Honours(w: World) {
    forall call: Call, i: nat :: HonoursCall(w, call, i)
  }

  predicate HonoursCall(w: World, call: Call, i: nat) {
    var usage := UsageOf(w.complete(call, i));
    usage.Some? && MaxTokens(call.request.metadata).Some? ==> Known(usage.value.completion) <= MaxTokens(call.request.metadata).value
  }

  /** The completion tokens that a stream reports. */
  function Reported(s: S.Streamed): nat {
    Counts(StreamUsage(s)).completion
  }

  /** However far it is drained, the stream reports at most `most` completion tokens. */
  ghost predicate HonoursStream(sw: S.World, route: seq<string>, most: nat) {
    forall nexts: nat :: Reported(S.Stream(sw, route, nexts)) <= most
  }

  /** The operation carries a token limit, and its stream honours it on every route. */
  ghost predicate Limited(w: World, op: Op) {
    match op
    case ChatOp(_, r) => MaxTokens(r.metadata).Some?
    case OpenOp(provider, sw, maxTokens) =>
      maxTokens.Some? && (RouteOf(w, provider).Ok? ==> HonoursStream(sw, RouteOf(w, provider).value, maxTokens.value))
    case _ => true
  }

  /** The completion tokens within a strict limit. */
  predicate Within(w: World, l: Ledger) {
    w.budget.Some? && w.budget.value.strict && w.budget.value.maxCompletion.Some? && l.completion <= w.budget.value.maxCompletion.value
  }

  lemma NotRefused(w: World, l: Ledger, maxTokens: nat)
    requires Within(w, l) && !Refuses(w.budget, l, Some(maxTokens))
    ensures l.completion + maxTokens <= w.budget.value.maxCompletion.value
  {
    assert CompletionTokens !in CheckRequest(w.budget.value, l, Some(maxTokens));
  }

  /** An accepted answer adds its completion tokens, and nothing else touches the ledger. */
  lemma {:induction false} RoutedAdds(w: World, s: State, route: seq<string>, r: Request, most: nat)
    requires Honours(w) && MaxTokens(r.metadata) == Some(most)
    ensures Routed(w, s, route, r).0.ledger.completion <= s.ledger.completion + most
    decreases |route|
  {
    hide Honours, Complete;
    if route != [] {
      var call := Call(route[0], r);
      var (t, cached) := Lookup(w, s, r, route[0]);
      if cached.None? {
        CompleteHonours(w, t, call, 1);
        var (u, outcome) := Complete(w, t, call, 1);
        if outcome.Threw? && GoesOn(w, outcome.failure) {
          RoutedAdds(w, u, route[1..], r, most);
        }
      }
    }
  }

  lemma {:induction false} CompleteHonours(w: World, s: State, call: Call, attempt: nat)
    requires Honours(w)
    ensures var (t, outcome) := Complete(w, s, call, attempt);
            && t.ledger == s.ledger
            && (UsageOf(outcome).Some? && MaxTokens(call.request.metadata).Some? ==>
                  Known(UsageOf(outcome).value.completion) <= MaxTokens(call.request.metadata).value)
    decreases w.policy.maxAttempts - attempt
  {
    var outcome := w.complete(call, |s.calls|);
    assert HonoursCall(w, call, |s.calls|);
    if outcome.Threw? && Retryable(w.policy, outcome.failure.category) && attempt < w.policy.maxAttempts {
      CompleteHonours(w, s.(calls := s.calls + [call]), call, attempt + 1);
    }
  }

  lemma SingleAdds(w: World, s: State, provider: string, r: Request, most: nat)
    requires Honours(w) && MaxTokens(r.metadata) == Some(most)
    ensures ChatSingle(w, s, provider, r).0.ledger.completion <= s.ledger.completion + most
  {
    hide Honours, Complete;
    var (t, cached) := Lookup(w, s, r, provider);
    if cached.None? {
      CompleteHonours(w, t, Call(provider, r), 1);
    }
  }

  /** What the open streams may still report: the sum of their token limits. */
  ghost function Promised(open: seq<Pending>): nat
    requires forall p | p in open :: p.maxTokens.Some?
    decreases |open|
  {
    if open == [] then 0 else open[0].maxTokens.value + Promised(open[1..])
  }

  lemma {:induction false} PromisedSplits(a: seq<Pending>, b: seq<Pending>)
    requires forall p | p in a + b :: p.maxTokens.Some?
    ensures (forall p | p in a :: p in a + b) && (forall p | p in b :: p in a + b) && Promised(a + b) == Promised(a) + Promised(b)
    decreases |a|
  {
    assert (forall p | p in a :: p in a + b) && forall p | p in b :: p in a + b;
    if a == [] {
      assert a + b == b;
    } else {
      assert (a + b)[1..] == a[1..] + b;
      PromisedSplits(a[1..], b);
    }
  }

  /** The open streams carry token limits, and the ledger leaves room for all of them. */
  ghost predicate Room(w: World, x: Running) {
    && Within(w, x.state.ledger) && (forall p | p in x.open :: p.maxTokens.Some?)
    && x.state.ledger.completion + Promised(x.open) <= w.budget.value.maxCompletion.value
  }

  /** There is room for the open streams, and they honour their limits. */
  ghost predicate RoomFor(w: World, x: Running) {
    Room(w, x) && forall p | p in x.open :: HonoursStream(p.world, p.route, p.maxTokens.value)
  }

  /** The operation starts nothing, or no stream is open, or its own token limit fits on top of what is promised. */
  ghost predicate Fits(w: World, x: Running, op: Op) {
    var most := if op.ChatOp? then MaxTokens(op.request.metadata) else if op.OpenOp? then op.maxTokens else None;
    most.None? || x.open == [] || (Room(w, x) &&
    x.state.ledger.completion + Promised(x.open) + most.value <= w.budget.value.maxCompletion.value)
  }

  /** Each operation fits when it is made. */
  ghost predicate Paced(w: World, x: Running, ops: seq<Op>)
    decreases |ops|
  {
    ops == [] || (Fits(w, x, ops[0]) && Paced(w, Step(w, x, ops[0]), ops[1..]))
  }

  lemma ChatWithin(w: World, s: State, provider: Option<string>, r: Request, promised: nat)
    requires Honours(w) && MaxTokens(r.metadata).Some? && Within(w, s.ledger)
    requires s.ledger.completion + promised <= w.budget.value.maxCompletion.value
    requires promised == 0 || s.ledger.completion + promised + MaxTokens(r.metadata).value <= w.budget.value.maxCompletion.value
    ensures var l := Chat(w, s, provider, r).0.ledger;
            Within(w, l) && l.completion + promised <= w.budget.value.maxCompletion.value
  {
    hide Honours, Routed, ChatSingle, Refuses, RouteOf;
    var most := MaxTokens(r.metadata).value;
    if RouteOf(w, provider).Ok? {
      if !Refuses(w.budget, s.ledger, Some(most)) {
        NotRefused(w, s.ledger, most);
        if w.single.Some? {
          SingleAdds(w, s, w.single.value, r, most);
        } else {
          RoutedAdds(w, s, RouteOf(w, provider).value, r, most);
        }
      } else if w.single.Some? {
        RefusedSingle(w, s, w.single.value, r);
      }
    }
  }

  lemma StepWithin(w: World, x: Running, op: Op)
    requires Honours(w) && Limited(w, op) && RoomFor(w, x) && Fits(w, x, op)
    ensures RoomFor(w, Step(w, x, op))
  {
    hide Honours, HonoursStream, Chat, Refuses, RouteOf, StreamCost;
    match op
    case ChatOp(provider, r) => ChatWithin(w, x.state, provider, r, Promised(x.open));
    case OpenOp(_, _, maxTokens) =>
      if OpenStream(w, x.state, op).Ok? {
        NotRefused(w, x.state.ledger, maxTokens.value);
        PromisedSplits(x.open, [OpenStream(w, x.state, op).value]);
      }
    case DrainOp(index, nexts) =>
      if index < |x.open| {
        DrainWithin(w, x, index, nexts);
      }
    case ClearOp =>
  }

  lemma DrainWithin(w: World, x: Running, index: nat, nexts: nat)
    requires RoomFor(w, x) && index < |x.open|
    ensures RoomFor(w, Step(w, x, DrainOp(index, nexts)))
  {
    hide S.Stream, StreamCost;
    var p := x.open[index];
    var s := S.Stream(p.world, p.route, nexts);
    assert p in x.open && Reported(s) <= p.maxTokens.value;
    PromisedWithout(x.open, index);
    if s.finish.Done? {
      ApplyIsPlus(x.state.ledger, s.finish.usage);
    }
  }

  lemma PromisedWithout(open: seq<Pending>, index: nat)
    requires index < |open| && forall p | p in open :: p.maxTokens.Some?
    ensures (forall p | p in Without(open, index) :: p in open)
    ensures Promised(Without(open, index)) + open[index].maxTokens.value == Promised(open)
  {
    var a, b := open[..index], open[index..];
    assert open == a + b && b[1..] == open[index + 1..];
    PromisedSplits(a, b);
    assert forall p | p in Without(open, index) :: p in open;
    PromisedSplits(a, b[1..]);
  }

  lemma RefusedSingle(w: World, s: State, provider: string, r: Request)
    requires Refuses(w.budget, s.ledger, MaxTokens(r.metadata))
    ensures ChatSingle(w, s, provider, r).0 == s
  {
  }

  /**
    When every request carries a token limit that the providers honour, and each request that is
    made while streams are open fits on top of their limits, the completion tokens never exceed
    a strict limit. One stream at a time always fits: the runtime's own check suffices.
  */
  lemma {:induction false} CompletionBound(w: World, x: Running, ops: seq<Op>)
    requires Honours(w) && RoomFor(w, x) && Paced(w, x, ops) && forall op | op in ops :: Limited(w, op)
    ensures Within(w, Run(w, x, ops).state.ledger)
    decreases |ops|
  {
    hide Honours, Limited, Step, Fits;
    if ops != [] {
      assert ops[0] in ops && forall op | op in ops[1..] :: op in ops;
      StepWithin(w, x, ops[0]);
      CompletionBound(w, Step(w, x, ops[0]), ops[1..]);
    }
  }

  // ----- Overlapping streams -----

  lemma {:induction false} RunSplits(w: World, x: Running, a: seq<Op>, b: seq<Op>)
    ensures Run(w, x, a + b) == Run(w, Run(w, x, a), b)
    decreases |a|
  {
    hide Step;
    if a == [] {
      assert a + b == b;
    } else {
      assert (a + b)[0] == a[0] && (a + b)[1..] == a[1..] + b;
      RunSplits(w, Step(w, x, a[0]), a[1..], b);
    }
  }

  lemma SumOneMore(a: seq<S.Streamed>, s: S.Streamed)
    ensures SumStreams(a + [s]) == Plus(SumStreams(a), Counts(StreamUsage(s)))
  {
    assert (a + [s])[..|a|] == a;
  }

  lemma {:induction false} SumSplits(a: seq<S.Streamed>, b: seq<S.Streamed>)
    ensures SumStreams(a + b) == Plus(SumStreams(a), SumStreams(b))
    decreases |b|
  {
    hide SumStreams, Counts, StreamUsage;
    if b == [] {
      assert a + b == a;
      NothingStreamed();
    } else {
      var c, s := b[..|b| - 1], b[|b| - 1];
      assert b == c + [s] && a + b == (a + c) + [s];
      SumOneMore(a + c, s);
      SumOneMore(c, s);
      SumSplits(a, c);
    }
  }

  lemma NothingStreamed()
    ensures SumStreams([]) == Empty()
  {
  }

  /** The streams that are opened when only the ledger `s.ledger` counts. */
  function Accepted(w: World, s: State, opens: seq<Op>): seq<Pending>
    requires forall op | op in opens :: op.OpenOp?
  {
    if opens == [] then []
    else (match OpenStream(w, s, opens[0])
          case Ok(p) => [p]
          case Err(_) => []) + Accepted(w, s, opens[1..])
  }

  /** Opening streams charges nothing, so each is checked against the same ledger. */
  lemma {:induction false} OpensTogether(w: World, x: Running, opens: seq<Op>)
    requires forall op | op in opens :: op.OpenOp?
    ensures Run(w, x, opens) == x.(open := x.open + Accepted(w, x.state, opens))
    decreases |opens|
  {
    hide OpenStream;
    if opens != [] {
      assert opens[0] in opens;
      OpensTogether(w, Step(w, x, opens[0]), opens[1..]);
    }
  }

  /** What one drained stream adds. */
  lemma DrainCounts(w: World, x: Running, op: Op)
    requires op.DrainOp?
    ensures var z := Step(w, x, op);
            z.state.calls == x.state.calls &&
            if op.index >= |x.open| then z == x
            else
              var s := S.Stream(x.open[op.index].world, x.open[op.index].route, op.nexts);
              z.streams == x.streams + [s] && z.state.ledger == Plus(x.state.ledger, Counts(StreamUsage(s)))
  {
    hide S.Stream, StreamCost;
    if op.index < |x.open| {
      ApplyIsPlus(x.state.ledger, StreamUsage(S.Stream(x.open[op.index].world, x.open[op.index].route, op.nexts)));
    }
  }

  lemma {:induction false} DrainsCount(w: World, x: Running, drains: seq<Op>)
    requires forall op | op in drains :: op.DrainOp?
    ensures var y := Run(w, x, drains);
            && x.streams <= y.streams && y.state.calls == x.state.calls
            && y.state.ledger == Plus(x.state.ledger, SumStreams(y.streams[|x.streams|..]))
    decreases |drains|
  {
    hide S.Stream, Step, SumStreams, StreamUsage, Counts;
    NothingStreamed();
    if drains != [] {
      assert drains[0] in drains;
      var z := Step(w, x, drains[0]);
      DrainCounts(w, x, drains[0]);
      DrainsCount(w, z, drains[1..]);
      if drains[0].index < |x.open| {
        OneMoreDrained(x.streams, z.streams[|x.streams|], Run(w, z, drains[1..]).streams);
      }
    } else {
      assert x.streams[|x.streams|..] == [];
    }
  }

  lemma OneMoreDrained(a: seq<S.Streamed>, s: S.Streamed, c: seq<S.Streamed>)
    requires a + [s] <= c
    ensures a <= c && SumStreams(c[|a|..]) == Plus(Counts(StreamUsage(s)), SumStreams(c[|a| + 1..]))
  {
    hide Counts, StreamUsage;
    assert c[|a|] == (a + [s])[|a|];
    assert c[|a|..] == [s] + c[|a| + 1..];
    SumSplits([s], c[|a| + 1..]);
    SumOneMore([], s);
    assert [] + [s] == [s];
  }

  /**
    Streams that are opened together are each checked against the same ledger: a stream is
    accepted exactly when it would be alone. Once they are drained, in any order and as far as
    their callers like, the limit holds exactly when everything they report fits together.
  */
  lemma OverlappingStreams(w: World, x: Running, opens: seq<Op>, drains: seq<Op>)
    requires (forall op | op in opens :: op.OpenOp?) && (forall op | op in drains :: op.DrainOp?)
    requires Within(w, x.state.ledger)
    ensures var z, y := Run(w, x, opens), Run(w, x, opens + drains);
            && z == x.(open := x.open + Accepted(w, x.state, opens)) && x.streams <= y.streams
            && (Within(w, y.state.ledger) <==>
                  x.state.ledger.completion + SumStreams(y.streams[|x.streams|..]).completion <= w.budget.value.maxCompletion.value)
  {
    hide Step, Accepted, SumStreams;
    RunSplits(w, x, opens, drains);
    OpensTogether(w, x, opens);
    DrainsCount(w, Run(w, x, opens), drains);
  }

  /** The open streams with other providers behind them. */
  function Served(open: seq<Pending>, worlds: seq<S.World>): (r: seq<Pending>)
    requires |worlds| == |open|
    ensures |r| == |open| && forall i | 0 <= i < |r| :: r[i] == open[i].(world := worlds[i])
  {
    seq(|open|, i requires 0 <= i < |open| => open[i].(world := worlds[i]))
  }

  /** Providers that honour the limits of the open streams. */
  ghost predicate Honest(open: seq<Pending>, worlds: seq<S.World>) {
    && |worlds| == |open|
    && forall i | 0 <= i < |open| ::
         open[i].maxTokens.Some? && HonoursStream(worlds[i], open[i].route, open[i].maxTokens.value)
  }

  /** The ledger stays within the limit when the open streams are drained with these providers behind them. */
  predicate KeepsLimit(w: World, x: Running, worlds: seq<S.World>, drains: seq<Op>)
    requires |worlds| == |x.open|
  {
    Within(w, Run(w, x.(open := Served(x.open, worlds)), drains).state.ledger)
  }

  /** A provider that uses its whole token limit in one final chunk. */
  function Greedy(p: Pending): S.World
    requires p.maxTokens.Some? && p.route != []
  {
    var chunk := S.Chunk("", 0, None, None, true, Some(Usage(None, p.maxTokens, None)));
    S.World({p.route[0]}, (provider, attempt) => S.Script([chunk], None), RetryPolicy(1, {}), "", name => name)
  }

  lemma GreedyReports(p: Pending, nexts: nat)
    requires p.maxTokens.Some? && p.route != []
    ensures Reported(S.Stream(Greedy(p), p.route, nexts)) == if nexts >= 2 then p.maxTokens.value else 0
  {
    var sw := Greedy(p);
    var chunks := S.FillAll(sw.scripts(p.route[0], 1).chunks, p.route[0], "");
    assert |chunks| == 1 && chunks[0].done && chunks[0].usage == Some(Usage(None, p.maxTokens, None));
    assert S.FinalUsage(chunks) == chunks[0].usage;
  }

  function DrainAll(n: nat): (ops: seq<Op>)
    ensures |ops| == n && forall op | op in ops :: op == DrainOp(0, 2)
  {
    seq(n, _ => DrainOp(0, 2))
  }

  /** Draining greedy streams one after the other counts all that is promised. */
  lemma {:induction false} GreedyDrains(w: World, x: Running)
    requires forall p | p in x.open :: p.maxTokens.Some? && p.route != [] && p.world == Greedy(p)
    ensures Run(w, x, DrainAll(|x.open|)).state.ledger.completion == x.state.ledger.completion + Promised(x.open)
    decreases |x.open|
  {
    hide S.Stream, Greedy, StreamCost;
    if x.open != [] {
      var p, ops := x.open[0], DrainAll(|x.open|);
      assert p in x.open && ops[0] == DrainOp(0, 2) && ops[1..] == DrainAll(|x.open| - 1);
      var z := Step(w, x, ops[0]);
      assert z.open == x.open[1..];
      GreedyReports(p, 2);
      DrainCounts(w, x, ops[0]);
      GreedyDrains(w, z);
    }
  }

  lemma {:induction false} OpenedHaveProviders(w: World, x: Running, ops: seq<Op>)
    requires forall p | p in x.open :: p.route != []
    ensures forall p | p in Run(w, x, ops).open :: p.route != []
    decreases |ops|
  {
    hide S.Stream, StreamCost, Chat, Refuses;
    if ops != [] {
      OpenedHaveProviders(w, Step(w, x, ops[0]), ops[1..]);
    }
  }

  /**
    When streams that are open together are safe: in every reachable state, whatever providers
    that honour the token limits stand behind the open streams, and however they are drained,
    the completion tokens stay within a strict limit exactly when the ledger and the token
    limits fit together.
  */
  lemma OpenStreamsFitExactly(w: World, ops: seq<Op>, x: Running)
    requires x == Run(w, Start(), ops)
    requires Within(w, x.state.ledger) && forall p | p in x.open :: p.maxTokens.Some?
    ensures Room(w, x) <==>
            forall worlds: seq<S.World>, drains: seq<Op> |
              Honest(x.open, worlds) && (forall op | op in drains :: op.DrainOp?) :: KeepsLimit(w, x, worlds, drains)
  {
    hide Within, Run, Room, HonoursStream;
    OpenedHaveProviders(w, Start(), ops);
    RoomExactly(w, x);
  }

  lemma RoomExactly(w: World, x: Running)
    requires Within(w, x.state.ledger) && forall p | p in x.open :: p.maxTokens.Some? && p.route != []
    ensures Room(w, x) <==>
            forall worlds: seq<S.World>, drains: seq<Op> |
              Honest(x.open, worlds) && (forall op | op in drains :: op.DrainOp?) :: KeepsLimit(w, x, worlds, drains)
  {
    hide Within, Run, HonoursStream, Greedy, S.Stream;
    if Room(w, x) {
      forall worlds: seq<S.World>, drains: seq<Op> | Honest(x.open, worlds) && (forall op | op in drains :: op.DrainOp?)
        ensures KeepsLimit(w, x, worlds, drains)
      {
        SamePromise(x.open, worlds);
        DrainsWithin(w, x.(open := Served(x.open, worlds)), drains);
      }
    } else {
      var worlds := seq(|x.open|, i requires 0 <= i < |x.open| => Greedy(x.open[i]));
      GreedyBreaks(w, x, worlds);
    }
  }

  lemma {:induction false} SamePromise(open: seq<Pending>, worlds: seq<S.World>)
    requires |worlds| == |open| && forall p | p in open :: p.maxTokens.Some?
    ensures (forall p | p in Served(open, worlds) :: p.maxTokens.Some?) && Promised(Served(open, worlds)) == Promised(open)
    decreases |open|
  {
    if open != [] {
      assert Served(open, worlds)[1..] == Served(open[1..], worlds[1..]);
      SamePromise(open[1..], worlds[1..]);
    }
  }

  lemma {:induction false} DrainsWithin(w: World, x: Running, drains: seq<Op>)
    requires RoomFor(w, x) && forall op | op in drains :: op.DrainOp?
    ensures Within(w, Run(w, x, drains).state.ledger)
    decreases |drains|
  {
    hide Drained, Promised, Within, HonoursStream, S.Stream, StreamCost;
    if drains != [] {
      assert drains[0] in drains;
      if drains[0].index < |x.open| {
        assert drains[0] == DrainOp(drains[0].index, drains[0].nexts);
        DrainWithin(w, x, drains[0].index, drains[0].nexts);
      }
      DrainsWithin(w, Step(w, x, drains[0]), drains[1..]);
    }
  }

  lemma GreedyBreaks(w: World, x: Running, worlds: seq<S.World>)
    requires Within(w, x.state.ledger) && !Room(w, x) && forall p | p in x.open :: p.maxTokens.Some? && p.route != []
    requires |worlds| == |x.open| && forall i | 0 <= i < |x.open| :: worlds[i] == Greedy(x.open[i])
    ensures Honest(x.open, worlds) && !KeepsLimit(w, x, worlds, DrainAll(|x.open|))
  {
    hide Run, S.Stream, Greedy;
    forall i | 0 <= i < |x.open|
      ensures HonoursStream(worlds[i], x.open[i].route, x.open[i].maxTokens.value)
    {
      forall nexts: nat
        ensures Reported(S.Stream(worlds[i], x.open[i].route, nexts)) <= x.open[i].maxTokens.value
      {
        GreedyReports(x.open[i], nexts);
      }
    }
    var y := x.(open := Served(x.open, worlds));
    SamePromise(x.open, worlds);
    forall p | p in y.open
      ensures p.maxTokens.Some? && p.route != [] && p.world == Greedy(p)
    {
      var i :| 0 <= i < |y.open| && y.open[i] == p;
      SameGreedy(x.open[i], worlds[i]);
    }
    GreedyDrains(w, y);
  }

  lemma SameGreedy(p: Pending, sw: S.World)
    requires p.maxTokens.Some? && p.route != []
    ensures Greedy(p.(world := sw)) == Greedy(p)
  {
  }

  /** Two streams that each keep to their token limit, opened together, break a limit on completion tokens. */
  lemma OverlapBreaksBound(w: World, name: string, sw: S.World, most: nat, limit: nat, nexts: nat)
    requires w.single == Some(name) && w.budget == Some(Budget(None, Some(limit), None, true)) && most <= limit < 2 * most
    requires HonoursStream(sw, [name], most) && Reported(S.Stream(sw, [name], nexts)) == most
    ensures var open, drain := OpenOp(None, sw, Some(most)), DrainOp(0, nexts);
            && Within(w, Start().state.ledger) && Limited(w, open) && Limited(w, drain)
            && !Within(w, Run(w, Start(), [open, open, drain, drain]).state.ledger)
  {
    hide S.Stream, StreamCost;
    var open, drain := OpenOp(None, sw, Some(most)), DrainOp(0, nexts);
    var b, p, s := w.budget.value, Pending(sw, [name], Some(most)), S.Stream(sw, [name], nexts);
    assert CheckRequest(b, Empty(), Some(most)) == {};
    var x := Start();
    assert Step(w, x, open) == x.(open := [p]);
    assert Step(w, x.(open := [p]), open) == x.(open := [p, p]);
    var y := Step(w, x.(open := [p, p]), drain);
    assert y.open == [p] && y.state.ledger.completion == most;
    var z := Step(w, y, drain);
    assert z.state.ledger.completion == 2 * most;
    FourSteps(w, x, open, open, drain, drain);
  }

  lemma FourSteps(w: World, x: Running, a: Op, b: Op, c: Op, d: Op)
    ensures Run(w, x, [a, b, c, d]) == Step(w, Step(w, Step(w, Step(w, x, a), b), c), d)
  {
    hide Step;
    assert [a, b, c, d][1..] == [b, c, d] && [b, c, d][1..] == [c, d] && [c, d][1..] == [d] && [d][1..] == [];
    var x1 := Step(w, x, a);
    var x2 := Step(w, x1, b);
    var x3 := Step(w, x2, c);
    assert Run(w, x3, [d]) == Run(w, Step(w, x3, d), []);
    assert Run(w, x2, [c, d]) == Run(w, x3, [d]);
    assert Run(w, x1, [b, c, d]) == Run(w, x2, [c, d]);
  }

  // ----- Budgets and the cache -----

  /** With a budget the cache is not transparent: a hit costs nothing, a second answer may be one too many. */
  lemma BudgetBreaksTransparency(w: World, name: string, r: Request, response: Response, used: nat, limit: nat)
    requires w.single == Some(name) && w.caching && CacheAllowed(r.metadata) && MaxTokens(r.metadata) == None
    requires w.budget == Some(Budget(None, None, Some(limit), true)) && response.usage == Some(Usage(None, None, Some(used)))
    requires forall i: nat :: w.complete(Call(name, r), i) == Answered(response)
    requires used <= limit < 2 * used
    ensures var ops := [C.ChatOp(None, r), C.ChatOp(None, r)];
            var cached, plain := C.Answers(w, C.Fresh(), ops), C.Answers(C.Uncached(w), C.Fresh(), ops);
            && |cached| == 2 && |plain| == 2 && cached[0] == plain[0] == Ok(response)
            && cached[1].Ok? && plain[1] == Err(OverBudget)
  {
    var v := C.Uncached(w);
    var op := C.ChatOp(None, r);
    TwoAnswers(w, op);
    TwoAnswers(v, op);
    var first := Chat(w, C.Fresh(), None, r).0;
    var plain := Chat(v, C.Fresh(), None, r).0;
    assert first.ledger == plain.ledger == Ledger(0, 0, used);
    assert !Refuses(w.budget, first.ledger, None);
    assert KeyOf(r, name) in first.entries;
  }

  lemma TwoAnswers(w: World, op: C.Op)
    requires op.ChatOp?
    ensures C.Answers(w, C.Fresh(), [op, op])
         == [Chat(w, C.Fresh(), op.provider, op.request).1, Chat(w, Chat(w, C.Fresh(), op.provider, op.request).0, op.provider, op.request).1]
  {
    var t := Chat(w, C.Fresh(), op.provider, op.request).0;
    hide Chat;
    assert [op, op][1..] == [op] && [op][1..] == [];
    assert C.Answers(w, t, [op]) == [Chat(w, t, op.provider, op.request).1] + C.Answers(w, Chat(w, t, op.provider, op.request).0, []);
  }
}
