/**
  The tool loop as procedures: the round loop, the sequential group loop, and the parallel
  group, whose futures complete in any order. Each computes what ToolLoop describes.
*/
module ToolLoopProcedures {
  import opened Common
  import opened SchemaValidator
  import L = ToolLoop

  // ----- Completion orders -----

  /** The indices of the permitted ones of the first `n` calls. */
  function Permitted(env: L.Env, calls: seq<L.Call>, n: nat): (r: seq<nat>)
    requires n <= |calls|
    ensures forall i: nat :: i in r <==> i < n && L.Permits(env.policy, calls[i].name)
    ensures forall k | 0 <= k < |r| :: r[k] < n
    decreases n
  {
    if n == 0 then [] else Permitted(env, calls, n - 1) + (if L.Permits(env.policy, calls[n - 1].name) then [n - 1] else [])
  }

  /** An order in which the futures of the permitted calls may complete: each exactly once. */
  predicate CompletionOrder(env: L.Env, calls: seq<L.Call>, order: seq<nat>) {
    multiset(order) == multiset(Permitted(env, calls, |calls|))
  }

  function RanAt(env: L.Env, calls: seq<L.Call>, i: nat): multiset<L.Call> {
    if i < |calls| then L.Attempt(env, calls[i]).ran else multiset{}
  }

  /** The calls whose tool function runs, over a list of indices. */
  function RanOver(env: L.Env, calls: seq<L.Call>, order: seq<nat>): multiset<L.Call> {
    if order == [] then multiset{} else RanAt(env, calls, order[0]) + RanOver(env, calls, order[1..])
  }

  lemma {:induction false} RanOverSplit(env: L.Env, calls: seq<L.Call>, a: seq<nat>, b: seq<nat>)
    ensures RanOver(env, calls, a + b) == RanOver(env, calls, a) + RanOver(env, calls, b)
    decreases |a|
  {
    hide RanAt;
    if a == [] {
      assert a + b == b;
    } else {
      assert (a + b)[1..] == a[1..] + b;
      RanOverSplit(env, calls, a[1..], b);
    }
  }

  lemma RanOverOne(env: L.Env, calls: seq<L.Call>, order: seq<nat>, i: nat)
    ensures RanOver(env, calls, order + [i]) == RanOver(env, calls, order) + RanAt(env, calls, i)
  {
    RanOverSplit(env, calls, order, [i]);
    assert RanOver(env, calls, [i]) == RanAt(env, calls, i) + RanOver(env, calls, []);
  }

  /** Any one of the indices may be counted first. */
  lemma RanFirst(env: L.Env, calls: seq<L.Call>, ys: seq<nat>, k: nat)
    requires k < |ys|
    ensures RanOver(env, calls, ys) == RanAt(env, calls, ys[k]) + RanOver(env, calls, ys[..k] + ys[k + 1..])
  {
    var a, b := ys[..k], ys[k + 1..];
    assert ys == a + ([ys[k]] + b);
    RanOverSplit(env, calls, a, [ys[k]] + b);
    RanOverSplit(env, calls, a, b);
    assert ([ys[k]] + b)[1..] == b;
    hide RanAt;
  }

  lemma WithoutFirst(xs: seq<nat>, ys: seq<nat>, k: nat)
    requires xs != [] && multiset(xs) == multiset(ys) && k < |ys| && ys[k] == xs[0]
    ensures multiset(xs[1..]) == multiset(ys[..k] + ys[k + 1..])
  {
    assert xs == [xs[0]] + xs[1..];
    assert ys == ys[..k] + [ys[k]] + ys[k + 1..];
    assert multiset(xs[1..]) == multiset(xs) - multiset{xs[0]};
    assert multiset(ys[..k] + ys[k + 1..]) == multiset(ys) - multiset{ys[k]};
  }

  /** The order in which futures complete does not matter. */
  lemma {:induction false} AnyOrder(env: L.Env, calls: seq<L.Call>, xs: seq<nat>, ys: seq<nat>)
    requires multiset(xs) == multiset(ys)
    ensures RanOver(env, calls, xs) == RanOver(env, calls, ys)
    decreases |xs|
  {
    hide RanAt;
    if xs == [] {
      assert |multiset(ys)| == 0;
    } else {
      assert xs[0] in multiset(ys);
      var k :| 0 <= k < |ys| && ys[k] == xs[0];
      RanFirst(env, calls, ys, k);
      WithoutFirst(xs, ys, k);
      AnyOrder(env, calls, xs[1..], ys[..k] + ys[k + 1..]);
    }
  }

  /** A parallel group of one more call. */
  lemma {:induction false} GroupGrows(env: L.Env, calls: seq<L.Call>, c: L.Call)
    ensures L.ParallelGroup(env, calls + [c])
         == L.Group(L.ParallelGroup(env, calls).outcomes + [L.Contained(env, c)], false, L.ParallelGroup(env, calls).ran + L.Attempt(env, c).ran)
    decreases |calls|
  {
    hide L.Contained, L.Attempt;
    if calls == [] {
      assert calls + [c] == [c] && [c][1..] == [];
    } else {
      assert (calls + [c])[0] == calls[0] && (calls + [c])[1..] == calls[1..] + [c];
      GroupGrows(env, calls[1..], c);
    }
  }

  lemma PermittedStep(env: L.Env, calls: seq<L.Call>, n: nat)
    requires 0 < n <= |calls|
    ensures RanOver(env, calls, Permitted(env, calls, n)) == RanOver(env, calls, Permitted(env, calls, n - 1)) + L.Attempt(env, calls[n - 1]).ran
  {
    hide L.Attempt, L.Permits, RanOver;
    var before := Permitted(env, calls, n - 1);
    RanOverOne(env, calls, before, n - 1);
    DeniedNeverRuns(env, calls[n - 1]);
    assert before + [] == before;
  }

  /** The permitted calls account for all the tools that a parallel group runs. */
  lemma {:induction false} PermittedRan(env: L.Env, calls: seq<L.Call>, n: nat)
    requires n <= |calls|
    ensures RanOver(env, calls, Permitted(env, calls, n)) == L.ParallelGroup(env, calls[..n]).ran
    decreases n
  {
    hide L.Attempt, L.Permits, RanOver, Permitted, L.ParallelGroup;
    if n == 0 {
      NothingRan(env, calls);
    } else {
      PermittedRan(env, calls, n - 1);
      PermittedStep(env, calls, n);
      assert calls[..n] == calls[..n - 1] + [calls[n - 1]];
      GroupGrows(env, calls[..n - 1], calls[n - 1]);
    }
  }

  lemma NothingRan(env: L.Env, calls: seq<L.Call>)
    ensures RanOver(env, calls, Permitted(env, calls, 0)) == L.ParallelGroup(env, calls[..0]).ran
  {
  }

  lemma DeniedNeverRuns(env: L.Env, call: L.Call)
    ensures !L.Permits(env.policy, call.name) ==> L.Attempt(env, call).ran == multiset{}
  {
  }

  /** Group `h` after the group `g`. */
  function Then(g: L.Group, h: L.Group): L.Group {
    L.Group(g.outcomes + h.outcomes, h.raised, g.ran + h.ran)
  }

  /** One step of a sequential group that did `g` so far. */
  lemma SequentialStep(env: L.Env, stop: bool, calls: seq<L.Call>, g: L.Group)
    requires calls != [] && !g.raised
    ensures var attempt := L.Attempt(env, calls[0]);
            var more := g.(ran := g.ran + attempt.ran);
            Then(g, L.SequentialGroup(env, stop, calls))
              == if attempt.outcome.None? then more.(raised := true)
                 else
                   var next := more.(outcomes := g.outcomes + [attempt.outcome.value]);
                   if stop && !attempt.outcome.value.result.success then next else Then(next, L.SequentialGroup(env, stop, calls[1..]))
  {
    hide L.Attempt;
    var attempt := L.Attempt(env, calls[0]);
    if attempt.outcome.Some? {
      var rest := L.SequentialGroup(env, stop, calls[1..]);
      assert g.outcomes + [attempt.outcome.value] + rest.outcomes == g.outcomes + ([attempt.outcome.value] + rest.outcomes);
    }
  }

  // ----- Procedures -----

  /** Executes the calls in order; an exception ends the group, and an error does if it stops the run. */
  method ExecuteSequentially(env: L.Env, stop: bool, calls: seq<L.Call>) returns (g: L.Group)
    ensures g == L.SequentialGroup(env, stop, calls)
  {
    hide L.Attempt, L.SequentialGroup;
    g := L.Group([], false, multiset{});
    ghost var whole := L.SequentialGroup(env, stop, calls);
    EmptyGroup(env, stop);
    assert calls[0..] == calls;
    for i := 0 to |calls|
      invariant !g.raised
      invariant whole == Then(g, L.SequentialGroup(env, stop, calls[i..]))
    {
      assert calls[i..][0] == calls[i] && calls[i..][1..] == calls[i + 1..];
      SequentialStep(env, stop, calls[i..], g);
      var attempt := AttemptCall(env, calls[i]);
      g := g.(ran := g.ran + attempt.ran);
      if attempt.outcome.None? { return g.(raised := true); }
      g := g.(outcomes := g.outcomes + [attempt.outcome.value]);
      if !attempt.outcome.value.result.success && stop { return g; }
    }
  }

  lemma EmptyGroup(env: L.Env, stop: bool)
    ensures L.SequentialGroup(env, stop, []) == L.Group([], false, multiset{})
  {
  }

  /** Applies the tool's function, and records the call for which it did. */
  method InvokeTool(tool: L.Tool, call: L.Call) returns (effect: L.Effect, ran: multiset<L.Call>)
    ensures (effect, ran) == L.Invoke(tool, call)
  {
    ran := multiset{call};
    effect := tool.effect(call.arguments);
  }

  /** The tool runtime: the request, the registry, the arguments, and then the tool. */
  method ExecuteTool(env: L.Env, call: L.Call) returns (done: L.Done)
    ensures done == L.Execute(env, call)
  {
    if !env.validName(call.name) { return L.Rejected(L.Rejection(call, "execution_error", "Tool execution rejected")); }
    if call.name !in env.registry { return L.Rejected(L.Rejection(call, "unknown_tool", "Tool execution rejected")); }
    var tool := env.registry[call.name];
    var error := ValidateArguments(Mapping(call.arguments), tool.schema);
    if error.Some? { return L.Rejected(L.Rejection(call, "validation", error.value)); }
    var effect, ran := InvokeTool(tool, call);
    match effect
    case Raises(_) => return L.Done(Some(L.Rejection(call, "exception", "Tool execution failed")), ran);
    case TimesOut => return L.Done(Some(L.Rejection(call, "timeout", "Tool execution timed out")), ran);
    case Returns(Unrenderable) => return L.Done(None, ran);
    case Returns(Text(text)) => return L.Done(Some(L.Outcome(L.ToolResult(call.id, call.name, text, true, None), None, false)), ran);
  }

  /** Executes one permitted call, unless its tool was not advertised. */
  method ExecuteAllowed(env: L.Env, call: L.Call) returns (done: L.Done)
    ensures done == L.ExecuteCall(env, call)
  {
    if call.name !in env.advertised && call.name in env.registry {
      return L.Rejected(L.Rejection(call, "not_allowed", "Tool execution rejected"));
    }
    done := ExecuteTool(env, call);
  }

  /** Executes one call, or denies it. */
  method AttemptCall(env: L.Env, call: L.Call) returns (done: L.Done)
    ensures done == L.Attempt(env, call)
  {
    if !L.Permits(env.policy, call.name) { return L.Rejected(L.Denial(call)); }
    done := ExecuteAllowed(env, call);
  }

  /** The slots of the denied calls are filled. */
  predicate DeniedFilled(env: L.Env, calls: seq<L.Call>, outcomes: seq<Option<L.Outcome>>, n: nat) {
    |outcomes| == |calls| && n <= |calls| &&
    forall i | 0 <= i < n && !L.Permits(env.policy, calls[i].name) :: outcomes[i] == Some(L.Denial(calls[i]))
  }

  lemma NoneFilled(env: L.Env, calls: seq<L.Call>, outcomes: seq<Option<L.Outcome>>)
    requires |outcomes| == |calls|
    ensures DeniedFilled(env, calls, outcomes, 0)
  {
  }

  /** One more slot: a permitted call needs none, a denied one is answered. */
  lemma OneFilled(env: L.Env, calls: seq<L.Call>, outcomes: seq<Option<L.Outcome>>, i: nat)
    requires i < |calls| && DeniedFilled(env, calls, outcomes, i)
    ensures |outcomes| == |calls|
    ensures if L.Permits(env.policy, calls[i].name) then DeniedFilled(env, calls, outcomes, i + 1)
            else DeniedFilled(env, calls, outcomes[i := Some(L.Denial(calls[i]))], i + 1)
  {
  }

  /** The denied calls are answered, and the permitted ones are listed for submission. */
  method DenyAndSubmit(env: L.Env, calls: seq<L.Call>, outcomes: array<Option<L.Outcome>>) returns (permitted: seq<nat>)
    requires outcomes.Length == |calls|
    modifies outcomes
    ensures permitted == Permitted(env, calls, |calls|)
    ensures DeniedFilled(env, calls, outcomes[..], |calls|)
  {
    hide L.Permits, L.Denial, DeniedFilled;
    permitted := [];
    NoneFilled(env, calls, outcomes[..]);
    for i := 0 to |calls|
      invariant permitted == Permitted(env, calls, i)
      invariant DeniedFilled(env, calls, outcomes[..], i)
    {
      OneFilled(env, calls, outcomes[..], i);
      if L.Permits(env.policy, calls[i].name) {
        permitted := permitted + [i];
      } else {
        ghost var before := outcomes[..];
        outcomes[i] := Some(L.Denial(calls[i]));
        assert outcomes[..] == before[i := Some(L.Denial(calls[i]))];
      }
    }
  }

  /** The futures complete, in the given order. */
  method CompleteFutures(env: L.Env, calls: seq<L.Call>, order: seq<nat>)
    returns (futures: map<nat, Option<L.Outcome>>, ran: multiset<L.Call>)
    requires forall k | 0 <= k < |order| :: order[k] < |calls| && L.Permits(env.policy, calls[order[k]].name)
    ensures forall i | i in order :: i < |calls| && i in futures && futures[i] == L.ExecuteCall(env, calls[i]).outcome
    ensures ran == RanOver(env, calls, order)
  {
    hide L.ExecuteCall, L.Permits;
    futures, ran := map[], multiset{};
    assert order[..0] == [];
    for k := 0 to |order|
      invariant forall j | 0 <= j < k :: order[j] in futures && futures[order[j]] == L.ExecuteCall(env, calls[order[j]]).outcome
      invariant ran == RanOver(env, calls, order[..k])
    {
      assert order[..k + 1] == order[..k] + [order[k]];
      RanOverOne(env, calls, order[..k], order[k]);
      var done := ExecuteAllowed(env, calls[order[k]]);
      futures := futures[order[k] := done.outcome];
      ran := ran + done.ran;
    }
    assert order[..|order|] == order;
  }

  /** Executes the permitted calls concurrently and collects their results in the order of submission. */
  method ExecuteInParallel(env: L.Env, calls: seq<L.Call>, order: seq<nat>) returns (g: L.Group)
    requires CompletionOrder(env, calls, order)
    ensures g == L.ParallelGroup(env, calls)
  {
    hide L.ExecuteCall, L.Permits, L.Denial, L.Rejection, RanOver, Permitted, L.ParallelGroup;
    var outcomes := new Option<L.Outcome>[|calls|](_ => None);
    var permitted := DenyAndSubmit(env, calls, outcomes);
    forall k | 0 <= k < |order|
      ensures order[k] < |calls| && L.Permits(env.policy, calls[order[k]].name)
    {
      assert order[k] in multiset(order) && order[k] in multiset(permitted);
    }
    forall i | i in permitted
      ensures i in order
    {
      assert i in multiset(permitted);
    }
    var futures, ran := CompleteFutures(env, calls, order);
    AnyOrder(env, calls, order, permitted);
    PermittedRan(env, calls, |calls|);
    assert calls[..|calls|] == calls;
    CollectFutures(env, calls, permitted, futures, outcomes);
    var collected := Collect(outcomes, calls, env);
    ParallelNeverRaises(env, calls);
    g := L.Group(collected, false, ran);
  }

  /** Waits for the futures in the order of submission; the exception of a future becomes a failed outcome. */
  method CollectFutures(env: L.Env, calls: seq<L.Call>, permitted: seq<nat>, futures: map<nat, Option<L.Outcome>>,
                        outcomes: array<Option<L.Outcome>>)
    requires permitted == Permitted(env, calls, |calls|) && DeniedFilled(env, calls, outcomes[..], |calls|)
    requires forall i | i in permitted :: i in futures && futures[i] == L.ExecuteCall(env, calls[i]).outcome
    modifies outcomes
    ensures outcomes.Length == |calls| && forall i | 0 <= i < |calls| :: outcomes[i] == Some(L.Contained(env, calls[i]))
  {
    hide L.ExecuteCall, L.Permits, L.Denial, L.Rejection, Permitted;
    for k := 0 to |permitted|
      invariant DeniedFilled(env, calls, outcomes[..], |calls|)
      invariant forall j | 0 <= j < k :: outcomes[permitted[j]] == Some(L.Contained(env, calls[permitted[j]]))
    {
      var index := permitted[k];
      assert index in permitted;
      if futures[index].Some? {
        outcomes[index] := futures[index];
      } else {
        outcomes[index] := Some(L.Rejection(calls[index], "execution_error", "Tool execution failed"));
      }
    }
    forall i | 0 <= i < |calls|
      ensures outcomes[i] == Some(L.Contained(env, calls[i]))
    {
      if L.Permits(env.policy, calls[i].name) {
        assert i in permitted;
        var k :| 0 <= k < |permitted| && permitted[k] == i;
      } else {
        assert outcomes[..][i] == Some(L.Denial(calls[i]));
      }
    }
  }

  lemma ParallelNeverRaises(env: L.Env, calls: seq<L.Call>)
    ensures !L.ParallelGroup(env, calls).raised
  {
  }

  lemma ParallelOfNone(env: L.Env)
    ensures L.ParallelGroup(env, []).outcomes == []
  {
  }

  /** The collected outcomes, once every slot is filled. */
  method Collect(outcomes: array<Option<L.Outcome>>, calls: seq<L.Call>, ghost env: L.Env) returns (r: seq<L.Outcome>)
    requires outcomes.Length == |calls| && forall i | 0 <= i < |calls| :: outcomes[i] == Some(L.Contained(env, calls[i]))
    ensures r == L.ParallelGroup(env, calls).outcomes
  {
    hide L.Attempt, L.Contained, L.ParallelGroup;
    ParallelOfNone(env);
    r := [];
    assert calls[..0] == [];
    for i := 0 to |calls|
      invariant r == L.ParallelGroup(env, calls[..i]).outcomes
    {
      assert calls[..i + 1] == calls[..i] + [calls[i]];
      GroupGrows(env, calls[..i], calls[i]);
      if outcomes[i].Some? {
        r := r + [outcomes[i].value];
      }
    }
    assert calls[..|calls|] == calls;
  }

  /**
    Runs the loop. `schedule` says in which order the futures of a round complete; the run does
    not depend on it.
  */
  method RunLoop(env: L.Env, cfg: L.Config, messages: seq<L.Message>, schedule: (nat, seq<L.Call>) -> seq<nat>)
    returns (e: L.Ending)
    requires forall step, calls :: CompletionOrder(env, calls, schedule(step, calls))
    ensures e == L.Run(env, cfg, messages)
  {
    hide L.ExecuteGroup, CompletionOrder, L.Results, L.ResultMessages, L.SomeFailed, L.Permits, L.Effective;
    var p := L.Start(messages);
    for step := 0 to cfg.maxSteps
      invariant L.Run(env, cfg, messages) == L.Rounds(env, cfg, step, p)
    {
      p := p.(sent := p.sent + [p.history]);
      var reply := env.model(p.history);
      if reply.Failed? { return L.End(Some(L.LlmError), [], p); }
      if reply.calls == [] { return L.End(Some(L.Completed), [], p); }
      if cfg.requireApproval { return L.End(Some(L.ApprovalRequired), reply.calls, p); }
      if step + 1 >= cfg.maxSteps { return L.End(Some(L.MaxStepsExceeded), reply.calls, p); }
      p := p.(history := p.history + [L.Assistant(reply.content, reply.calls)]);
      var g := ExecuteToolGroup(env, cfg, reply.calls, schedule(step, reply.calls));
      p := p.(groups := p.groups + 1, ran := p.ran + g.ran);
      if g.raised { return L.End(None, [], p); }
      p := p.(results := p.results + L.Results(g.outcomes));
      if L.SomeFailed(g.outcomes) && cfg.stopOnError { return L.End(Some(L.ToolError), [], p); }
      p := p.(history := p.history + L.ResultMessages(L.Results(g.outcomes)));
    }
    e := L.End(Some(L.LoopExhausted), [], p);
  }

  method ExecuteToolGroup(env: L.Env, cfg: L.Config, calls: seq<L.Call>, order: seq<nat>) returns (g: L.Group)
    requires CompletionOrder(env, calls, order)
    ensures g == L.ExecuteGroup(env, cfg, calls)
  {
    if L.Effective(env, cfg.mode, calls) == L.Parallel {
      g := ExecuteInParallel(env, calls, order);
    } else {
      g := ExecuteSequentially(env, cfg.stopOnError, calls);
    }
  }
}
