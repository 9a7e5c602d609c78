/**
  What every run of the tool loop keeps: parallel execution refines sequential execution,
  histories pair calls with results, the run is bounded, and only permitted tools run.
*/
module ToolLoopRuns {
  import opened Common
  import opened SchemaValidator
  import opened ToolLoop

  // ----- Groups -----

  /** A group that neither raises nor stops early is the same in both modes. */
  lemma {:induction false} GroupsAgree(env: Env, stop: bool, calls: seq<Call>)
    requires var g := SequentialGroup(env, stop, calls); !g.raised && (stop ==> !SomeFailed(g.outcomes))
    ensures SequentialGroup(env, stop, calls) == ParallelGroup(env, calls)
    decreases |calls|
  {
    hide ExecuteCall, Denial, Permits;
    if calls != [] {
      var g, rest := SequentialGroup(env, stop, calls), SequentialGroup(env, stop, calls[1..]);
      assert g.outcomes[0] == Attempt(env, calls[0]).outcome.value;
      assert stop ==> g.outcomes[0].result.success;
      assert g.outcomes == [g.outcomes[0]] + rest.outcomes;
      if stop {
        forall i | 0 <= i < |rest.outcomes|
          ensures rest.outcomes[i].result.success
        {
          assert g.outcomes[i + 1] == rest.outcomes[i];
        }
      }
      GroupsAgree(env, stop, calls[1..]);
    }
  }

  /** A sequential group does a prefix of what a parallel group does, unless it raises. */
  lemma {:induction false} GroupPrefix(env: Env, stop: bool, calls: seq<Call>)
    ensures var s, p := SequentialGroup(env, stop, calls), ParallelGroup(env, calls);
            s.outcomes <= p.outcomes && s.ran <= p.ran && !p.raised && |p.outcomes| == |calls|
    ensures !SequentialGroup(env, stop, calls).raised && (stop ==> !SomeFailed(SequentialGroup(env, stop, calls).outcomes))
            ==> |SequentialGroup(env, stop, calls).outcomes| == |calls|
    decreases |calls|
  {
    if calls != [] {
      GroupPrefix(env, stop, calls[1..]);
      var s, p := SequentialGroup(env, stop, calls), ParallelGroup(env, calls);
      if s.outcomes != [] {
        assert s.outcomes[0] == p.outcomes[0];
      }
      if !s.raised && (stop ==> !SomeFailed(s.outcomes)) {
        GroupsAgree(env, stop, calls);
      }
    }
  }

  /** Each outcome answers its call. */
  predicate Answers(outcomes: seq<Outcome>, calls: seq<Call>) {
    |outcomes| <= |calls| && forall i | 0 <= i < |outcomes| :: outcomes[i].result.callId == calls[i].id
  }

  lemma AnswersMore(o: Outcome, outcomes: seq<Outcome>, calls: seq<Call>)
    requires calls != [] && o.result.callId == calls[0].id && Answers(outcomes, calls[1..])
    ensures Answers([o] + outcomes, calls)
  {
  }

  lemma AttemptAnswers(env: Env, call: Call)
    ensures Attempt(env, call).outcome.Some? ==> Attempt(env, call).outcome.value.result.callId == call.id
    ensures Contained(env, call).result.callId == call.id
  {
  }

  lemma {:induction false} OutcomesAnswer(env: Env, stop: bool, calls: seq<Call>)
    ensures Answers(SequentialGroup(env, stop, calls).outcomes, calls) && Answers(ParallelGroup(env, calls).outcomes, calls)
    decreases |calls|
  {
    hide Attempt, Contained;
    if calls != [] {
      AttemptAnswers(env, calls[0]);
      OutcomesAnswer(env, stop, calls[1..]);
      AnswersMore(Contained(env, calls[0]), ParallelGroup(env, calls[1..]).outcomes, calls);
      if Attempt(env, calls[0]).outcome.Some? {
        AnswersMore(Attempt(env, calls[0]).outcome.value, SequentialGroup(env, stop, calls[1..]).outcomes, calls);
      }
    }
  }

  lemma {:induction false} ResultsSplit(a: seq<Outcome>, b: seq<Outcome>)
    ensures Results(a + b) == Results(a) + Results(b)
    decreases |a|
  {
    if a == [] {
      assert a + b == b;
    } else {
      assert (a + b)[1..] == a[1..] + b;
      ResultsSplit(a[1..], b);
    }
  }

  lemma ResultsPrefix(a: seq<Outcome>, b: seq<Outcome>)
    requires a <= b
    ensures Results(a) <= Results(b)
  {
    ResultsSplit(a, b[|a|..]);
    assert b == a + b[|a|..];
  }

  // ----- Parallel refines sequential -----

  /** The sequential run ended in an exception, in a group that the parallel run executes in parallel. */
  predicate RaisedInSafeGroup(env: Env, e: Ending) {
    e.reason.None? && e.history != [] && e.history[|e.history| - 1].Assistant?
    && AllParallelSafe(env, e.history[|e.history| - 1].calls)
  }

  /** Same reason, same histories; the results and the tools run of `s` come first in `p`. */
  predicate Refines(s: Ending, p: Ending) {
    p == s.(results := p.results, ran := p.ran) && s.results <= p.results && s.ran <= p.ran
  }

  /** A round whose group is executed in parallel in one run and raises in the other. */
  lemma RaisedRound(env: Env, cfg: Config, step: nat, p: Past, reply: Reply)
    requires cfg.mode == Sequential && RunsGroup(env, cfg, step, p) && env.model(p.history) == reply
    requires AllParallelSafe(env, reply.calls) && SequentialGroup(env, cfg.stopOnError, reply.calls).raised
    ensures var s, q := Rounds(env, cfg, step, p), Rounds(env, cfg.(mode := Parallel), step, p);
            RaisedInSafeGroup(env, s) && (q.reason.Some? || |q.sent| > |s.sent|)
  {
    hide SequentialGroup, ParallelGroup;
    var par := cfg.(mode := Parallel);
    var g := ParallelGroup(env, reply.calls);
    GroupPrefix(env, cfg.stopOnError, reply.calls);
    if GoesOn(par, g) {
      OneMoreSent(env, par, step + 1, NextPast(p, reply, g));
    }
  }

  /** A round that is not past the last sends its history. */
  lemma {:induction false} OneMoreSent(env: Env, cfg: Config, step: nat, p: Past)
    ensures |Rounds(env, cfg, step, p).sent| >= |p.sent|
    ensures step < cfg.maxSteps ==> |Rounds(env, cfg, step, p).sent| > |p.sent|
    decreases cfg.maxSteps - step
  {
    hide ExecuteGroup, Results, ResultMessages;
    if RunsGroup(env, cfg, step, p) {
      var reply := env.model(p.history);
      var g := ExecuteGroup(env, cfg, reply.calls);
      if GoesOn(cfg, g) {
        OneMoreSent(env, cfg, step + 1, NextPast(p, reply, g));
      }
    }
  }

  /** The rounds of both modes from the same past. */
  predicate ModesAgree(env: Env, cfg: Config, step: nat, p: Past) {
    var s, q := Rounds(env, cfg.(mode := Sequential), step, p), Rounds(env, cfg.(mode := Parallel), step, p);
    && (Refines(s, q) <==> !RaisedInSafeGroup(env, s))
    && (!RaisedInSafeGroup(env, s) && (!cfg.stopOnError || s.reason != Some(ToolError)) ==> q == s)
  }

  lemma QuietRound(env: Env, cfg: Config, step: nat, p: Past)
    requires !RunsGroup(env, cfg, step, p)
    ensures ModesAgree(env, cfg, step, p)
  {
  }

  lemma SequentialInBoth(env: Env, cfg: Config, calls: seq<Call>)
    requires !AllParallelSafe(env, calls) || SequentialGroup(env, cfg.stopOnError, calls) == ParallelGroup(env, calls)
    ensures ExecuteGroup(env, cfg.(mode := Sequential), calls) == ExecuteGroup(env, cfg.(mode := Parallel), calls)
         == SequentialGroup(env, cfg.stopOnError, calls)
  {
  }

  lemma {:induction false} RoundsRefine(env: Env, cfg: Config, step: nat, p: Past)
    requires cfg.mode == Sequential
    ensures ModesAgree(env, cfg, step, p)
    decreases cfg.maxSteps - step
  {
    hide Rounds, SequentialGroup, ParallelGroup, AllParallelSafe, ExecuteGroup, Refines, RaisedInSafeGroup;
    if !RunsGroup(env, cfg, step, p) {
      QuietRound(env, cfg, step, p);
      return;
    }
    var reply := env.model(p.history);
    var g := SequentialGroup(env, cfg.stopOnError, reply.calls);
    if !AllParallelSafe(env, reply.calls) {
      SequentialInBoth(env, cfg, reply.calls);
      SameGroupRefines(env, cfg, step, p, reply, g);
    } else if g.raised {
      RaisedRound(env, cfg, step, p, reply);
      RaisedDiffers(env, cfg, step, p);
    } else if cfg.stopOnError && SomeFailed(g.outcomes) {
      StoppedRound(env, cfg, step, p, reply, g);
    } else {
      GroupsAgree(env, cfg.stopOnError, reply.calls);
      SequentialInBoth(env, cfg, reply.calls);
      SameGroupRefines(env, cfg, step, p, reply, g);
    }
  }

  lemma RaisedDiffers(env: Env, cfg: Config, step: nat, p: Past)
    requires var s, q := Rounds(env, cfg.(mode := Sequential), step, p), Rounds(env, cfg.(mode := Parallel), step, p);
             RaisedInSafeGroup(env, s) && (q.reason.Some? || |q.sent| > |s.sent|)
    ensures ModesAgree(env, cfg, step, p)
  {
  }

  /** A round whose group is the same in both modes. */
  lemma {:induction false} SameGroupRefines(env: Env, cfg: Config, step: nat, p: Past, reply: Reply, g: Group)
    requires cfg.mode == Sequential && RunsGroup(env, cfg, step, p) && env.model(p.history) == reply
    requires g == ExecuteGroup(env, cfg, reply.calls) == ExecuteGroup(env, cfg.(mode := Parallel), reply.calls)
    requires g.raised ==> !AllParallelSafe(env, reply.calls)
    ensures ModesAgree(env, cfg, step, p)
    decreases cfg.maxSteps - step, 0
  {
    hide ExecuteGroup, AllParallelSafe, Results, ResultMessages, SomeFailed;
    if GoesOn(cfg, g) {
      RoundsRefine(env, cfg, step + 1, NextPast(p, reply, g));
    }
  }

  /** A round that an error stops in both modes. */
  lemma StoppedRound(env: Env, cfg: Config, step: nat, p: Past, reply: Reply, g: Group)
    requires cfg.mode == Sequential && RunsGroup(env, cfg, step, p) && env.model(p.history) == reply && cfg.stopOnError
    requires AllParallelSafe(env, reply.calls)
    requires g == SequentialGroup(env, true, reply.calls) && !g.raised && SomeFailed(g.outcomes)
    ensures ModesAgree(env, cfg, step, p)
  {
    hide SequentialGroup, ParallelGroup, Refines, RaisedInSafeGroup, Results, StoppedEnding;
    var h := ParallelGroup(env, reply.calls);
    GroupPrefix(env, true, reply.calls);
    var i :| 0 <= i < |g.outcomes| && !g.outcomes[i].result.success;
    assert h.outcomes[i] == g.outcomes[i];
    StoppedAlike(env, p, reply, g, h);
    assert Rounds(env, cfg, step, p) == StoppedEnding(p, reply, g);
    assert Rounds(env, cfg.(mode := Parallel), step, p) == StoppedEnding(p, reply, h);
  }

  lemma StoppedAlike(env: Env, p: Past, reply: Reply, g: Group, h: Group)
    requires reply.Answer? && !g.raised && !h.raised && g.outcomes <= h.outcomes && g.ran <= h.ran
    ensures var s, q := StoppedEnding(p, reply, g), StoppedEnding(p, reply, h);
            Refines(s, q) && s.reason == Some(ToolError) && !RaisedInSafeGroup(env, s)
  {
    hide Results, AllParallelSafe;
    ResultsPrefix(g.outcomes, h.outcomes);
  }

  /**
    Parallel refines sequential over whole runs. The runs have the same reason and the same
    histories, and the sequential results and tool runs come first among the parallel ones,
    exactly when the sequential run does not end in an exception of a group that is executed in
    parallel. Then the runs are equal, unless a tool error stopped them.
  */
  lemma ParallelRefinesSequential(env: Env, cfg: Config, history: seq<Message>)
    ensures var s, q := Run(env, cfg.(mode := Sequential), history), Run(env, cfg.(mode := Parallel), history);
            && (Refines(s, q) <==> !RaisedInSafeGroup(env, s))
            && (!RaisedInSafeGroup(env, s) && (!cfg.stopOnError || s.reason != Some(ToolError)) ==> q == s)
  {
    RoundsRefine(env, cfg.(mode := Sequential), 0, Start(history));
    assert cfg.(mode := Sequential).(mode := Parallel) == cfg.(mode := Parallel);
  }

  /** A parallel-safe tool whose result has no text: alone it raises, in parallel it is a failed call. */
  lemma UnrenderableResultDiverges(env: Env, cfg: Config, history: seq<Message>, content: string, call: Call)
    requires env.model(history) == Answer(content, [call]) && Permits(env.policy, call.name)
    requires ExecuteCall(env, call).outcome.None? && env.registry[call.name].parallelSafe
    requires cfg.maxSteps >= 2 && !cfg.requireApproval && cfg.stopOnError
    ensures Run(env, cfg.(mode := Sequential), history).reason == None
    ensures Run(env, cfg.(mode := Parallel), history).reason == Some(ToolError)
  {
    assert SequentialGroup(env, true, [call]).raised;
    assert AllParallelSafe(env, [call]);
    var g := ParallelGroup(env, [call]);
    assert !g.outcomes[0].result.success;
  }

  // ----- Pairing -----

  /** Every assistant message with calls is followed by exactly one tool message per call, with the calls' ids in order. */
  predicate Paired(h: seq<Message>)
    decreases |h|
  {
    if h == [] then true
    else if h[0].ToolMessage? then false
    else if h[0].Assistant? && h[0].calls != [] then
      && |h[0].calls| < |h|
      && Answered(h[1..|h[0].calls| + 1], h[0].calls)
      && Paired(h[|h[0].calls| + 1..])
    else Paired(h[1..])
  }

  predicate Answered(ms: seq<Message>, calls: seq<Call>) {
    |ms| == |calls| && forall i | 0 <= i < |ms| :: ms[i].ToolMessage? && ms[i].callId == calls[i].id
  }

  lemma {:induction false} PairedAppend(a: seq<Message>, b: seq<Message>)
    requires Paired(a) && Paired(b)
    ensures Paired(a + b)
    decreases |a|
  {
    if a == [] {
      assert a + b == b;
    } else {
      var k := if a[0].Assistant? then |a[0].calls| + 1 else 1;
      assert (a + b)[k..] == a[k..] + b;
      assert (a + b)[1..k] == a[1..k];
      PairedAppend(a[k..], b);
    }
  }

  /** Outcomes that answer all calls of a reply, as messages, complete its protocol. */
  lemma AnswersArePaired(reply: Reply, outcomes: seq<Outcome>)
    requires reply.Answer? && reply.calls != [] && Answers(outcomes, reply.calls) && |outcomes| == |reply.calls|
    ensures Paired([Assistant(reply.content, reply.calls)] + ResultMessages(Results(outcomes)))
  {
    hide Results, ResultMessages;
    var ms := ResultMessages(Results(outcomes));
    forall i | 0 <= i < |ms|
      ensures ms[i].ToolMessage? && ms[i].callId == reply.calls[i].id
    {
      assert ms[i] == ResultMessage(Results(outcomes)[i]);
    }
    OneAnsweredCall(reply, ms);
  }

  lemma OneAnsweredCall(reply: Reply, ms: seq<Message>)
    requires reply.Answer? && reply.calls != [] && Answered(ms, reply.calls)
    ensures Paired([Assistant(reply.content, reply.calls)] + ms)
  {
    hide Answered;
    var h := [Assistant(reply.content, reply.calls)] + ms;
    AnsweredLength(ms, reply.calls);
    assert h[1..|reply.calls| + 1] == ms && h[|reply.calls| + 1..] == [];
  }

  lemma AnsweredLength(ms: seq<Message>, calls: seq<Call>)
    requires Answered(ms, calls)
    ensures |ms| == |calls|
  {
  }

  lemma WholeGroupAnswers(env: Env, cfg: Config, calls: seq<Call>)
    requires GoesOn(cfg, ExecuteGroup(env, cfg, calls))
    ensures Answers(ExecuteGroup(env, cfg, calls).outcomes, calls) && |ExecuteGroup(env, cfg, calls).outcomes| == |calls|
  {
    hide SequentialGroup, ParallelGroup;
    OutcomesAnswer(env, cfg.stopOnError, calls);
    GroupPrefix(env, cfg.stopOnError, calls);
  }

  /** Every history sent to the model is paired, when the first one is. */
  lemma {:induction false} RoundsArePaired(env: Env, cfg: Config, step: nat, p: Past)
    requires Paired(p.history) && forall h | h in p.sent :: Paired(h)
    ensures forall h | h in Rounds(env, cfg, step, p).sent :: Paired(h)
    decreases cfg.maxSteps - step
  {
    hide Paired, ExecuteGroup, Answers;
    if RunsGroup(env, cfg, step, p) {
      var reply := env.model(p.history);
      var g := ExecuteGroup(env, cfg, reply.calls);
      if GoesOn(cfg, g) {
        WholeGroupAnswers(env, cfg, reply.calls);
        AnswersArePaired(reply, g.outcomes);
        NextIsPaired(p, reply, g);
        RoundsArePaired(env, cfg, step + 1, NextPast(p, reply, g));
      }
    }
  }

  lemma NextIsPaired(p: Past, reply: Reply, g: Group)
    requires reply.Answer? && Paired(p.history)
    requires Paired([Assistant(reply.content, reply.calls)] + ResultMessages(Results(g.outcomes)))
    ensures Paired(NextPast(p, reply, g).history)
  {
    hide Paired, Results, ResultMessages, ResultMessage, SomeFailed;
    var head, ms := [Assistant(reply.content, reply.calls)], ResultMessages(Results(g.outcomes));
    PairedAppend(p.history, head + ms);
    Associative(p.history, head, ms);
  }

  lemma Associative(a: seq<Message>, b: seq<Message>, c: seq<Message>)
    ensures a + b + c == a + (b + c)
  {
  }

  lemma ProtocolIsPaired(env: Env, cfg: Config, history: seq<Message>)
    requires Paired(history)
    ensures forall h | h in Run(env, cfg, history).sent :: Paired(h)
  {
    RoundsArePaired(env, cfg, 0, Start(history));
  }

  // ----- Bounds -----

  lemma {:induction false} RoundsAreBounded(env: Env, cfg: Config, step: nat, p: Past)
    requires step < cfg.maxSteps
    ensures var e := Rounds(env, cfg, step, p);
            && |e.sent| <= |p.sent| + (cfg.maxSteps - step) && e.groups <= p.groups + (cfg.maxSteps - step - 1)
            && e.reason != Some(LoopExhausted)
    decreases cfg.maxSteps - step
  {
    hide ExecuteGroup, Results, ResultMessages;
    if RunsGroup(env, cfg, step, p) {
      var reply := env.model(p.history);
      var g := ExecuteGroup(env, cfg, reply.calls);
      if GoesOn(cfg, g) {
        RoundsAreBounded(env, cfg, step + 1, NextPast(p, reply, g));
      }
    }
  }

  /**
    A run sends at most `max_steps` histories to the model and executes at most one group
    fewer, and the code after the loop is never reached.
  */
  lemma RunIsBounded(env: Env, cfg: Config, history: seq<Message>)
    requires cfg.maxSteps >= 1
    ensures |Run(env, cfg, history).sent| <= cfg.maxSteps && Run(env, cfg, history).groups <= cfg.maxSteps - 1
    ensures Run(env, cfg, history).reason != Some(LoopExhausted)
  {
    RoundsAreBounded(env, cfg, 0, Start(history));
  }

  // ----- Permission -----

  /** Not denied, and allowed by default or by name. */
  predicate Granted(p: Policy, name: string) {
    name !in p.denied && (p.defaultAllow || name in p.allowed)
  }

  /** The call names a granted, advertised and registered tool, and its arguments conform to the tool's schema. */
  ghost predicate MayRun(env: Env, call: Call) {
    && Granted(env.policy, call.name) && call.name in env.advertised
    && call.name in env.registry && env.validName(call.name)
    && ConformsObject(Mapping(call.arguments), env.registry[call.name].schema)
  }

  /** An attempt applies the tool's function at most once, to its own call, and exactly when the call may run. */
  lemma InvokedExactly(env: Env, call: Call)
    ensures Attempt(env, call).ran == if MayRun(env, call) then multiset{call} else multiset{}
  {
    if call.name in env.registry {
      ArgumentsConform(Mapping(call.arguments), env.registry[call.name].schema);
    }
  }

  ghost predicate OnlyPermitted(env: Env, ran: multiset<Call>) {
    forall call | call in ran :: MayRun(env, call)
  }

  lemma {:induction false} GroupPermitted(env: Env, stop: bool, calls: seq<Call>)
    ensures OnlyPermitted(env, SequentialGroup(env, stop, calls).ran) && OnlyPermitted(env, ParallelGroup(env, calls).ran)
    decreases |calls|
  {
    hide Attempt, MayRun;
    if calls != [] {
      InvokedExactly(env, calls[0]);
      GroupPermitted(env, stop, calls[1..]);
    }
  }

  /** A parallel group runs exactly its calls that may run, each as often as the model asked for it. */
  lemma {:induction false} GroupRunsExactly(env: Env, calls: seq<Call>, call: Call)
    ensures ParallelGroup(env, calls).ran[call] == if MayRun(env, call) then multiset(calls)[call] else 0
    decreases |calls|
  {
    hide Attempt, MayRun;
    if calls != [] {
      InvokedExactly(env, calls[0]);
      GroupRunsExactly(env, calls[1..], call);
      assert calls == [calls[0]] + calls[1..];
    }
  }

  lemma ExecutedPermitted(env: Env, cfg: Config, calls: seq<Call>)
    ensures OnlyPermitted(env, ExecuteGroup(env, cfg, calls).ran)
  {
    GroupPermitted(env, cfg.stopOnError, calls);
  }

  lemma {:induction false} RoundsPermitted(env: Env, cfg: Config, step: nat, p: Past)
    requires OnlyPermitted(env, p.ran)
    ensures OnlyPermitted(env, Rounds(env, cfg, step, p).ran)
    decreases cfg.maxSteps - step
  {
    hide ExecuteGroup, MayRun;
    if RunsGroup(env, cfg, step, p) {
      var reply := env.model(p.history);
      ExecutedPermitted(env, cfg, reply.calls);
      var g := ExecuteGroup(env, cfg, reply.calls);
      if GoesOn(cfg, g) {
        RoundsPermitted(env, cfg, step + 1, NextPast(p, reply, g));
      }
    }
  }

  /** In no round and in no mode does a denied, unadvertised or unregistered tool run, or one with invalid arguments. */
  lemma OnlyPermittedToolsRun(env: Env, cfg: Config, history: seq<Message>, call: Call)
    requires call in Run(env, cfg, history).ran
    ensures MayRun(env, call)
  {
    RoundsPermitted(env, cfg, 0, Start(history));
  }

  // ----- Which registries may run in parallel -----

  /** What a tool marked parallel-safe returns has a text, for every call of it that may run. */
  ghost predicate SafeToolsRender(env: Env) {
    forall call | MayRun(env, call) && env.registry[call.name].parallelSafe ::
      env.registry[call.name].effect(call.arguments) != Returns(Unrenderable)
  }

  ghost predicate ModesRefine(env: Env, model: seq<Message> -> Reply, cfg: Config, history: seq<Message>) {
    var e := env.(model := model);
    Refines(Run(e, cfg.(mode := Sequential), history), Run(e, cfg.(mode := Parallel), history))
  }

  /** An attempt raises exactly when the call may run and its result has no text. */
  lemma RaisesExactly(env: Env, call: Call)
    ensures Attempt(env, call).outcome.None? <==>
            MayRun(env, call) && env.registry[call.name].effect(call.arguments) == Returns(Unrenderable)
  {
    if call.name in env.registry {
      ArgumentsConform(Mapping(call.arguments), env.registry[call.name].schema);
    }
  }

  lemma {:induction false} SafeGroup(env: Env, stop: bool, calls: seq<Call>)
    requires SafeToolsRender(env) && AllParallelSafe(env, calls)
    ensures !SequentialGroup(env, stop, calls).raised
    decreases |calls|
  {
    hide Attempt, MayRun;
    if calls != [] {
      RaisesExactly(env, calls[0]);
      assert calls[0] in calls && forall c | c in calls[1..] :: c in calls;
      assert MayRun(env, calls[0]) ==> Permits(env.policy, calls[0].name) by { RunsPermitted(env, calls[0]); }
      SafeGroup(env, stop, calls[1..]);
    }
  }

  lemma RunsPermitted(env: Env, call: Call)
    ensures MayRun(env, call) ==> Permits(env.policy, call.name)
  {
  }

  lemma {:induction false} SafeRounds(env: Env, cfg: Config, step: nat, p: Past)
    requires SafeToolsRender(env) && cfg.mode == Sequential
    ensures !RaisedInSafeGroup(env, Rounds(env, cfg, step, p))
    decreases cfg.maxSteps - step
  {
    hide SafeToolsRender, SequentialGroup, ParallelGroup, AllParallelSafe;
    if RunsGroup(env, cfg, step, p) {
      var reply := env.model(p.history);
      var g := SequentialGroup(env, cfg.stopOnError, reply.calls);
      if GoesOn(cfg, g) {
        SafeRounds(env, cfg, step + 1, NextPast(p, reply, g));
      } else if AllParallelSafe(env, reply.calls) {
        SafeGroup(env, cfg.stopOnError, reply.calls);
      }
    }
  }

  lemma SafeForAnyModel(env: Env, model: seq<Message> -> Reply)
    requires SafeToolsRender(env)
    ensures SafeToolsRender(env.(model := model))
  {
    hide ConformsObject;
    var e := env.(model := model);
    forall call | MayRun(e, call) && e.registry[call.name].parallelSafe
      ensures e.registry[call.name].effect(call.arguments) != Returns(Unrenderable)
    {
      assert MayRun(env, call);
    }
  }

  lemma SafeRefines(env: Env, model: seq<Message> -> Reply, cfg: Config, history: seq<Message>)
    requires SafeToolsRender(env)
    ensures ModesRefine(env, model, cfg, history)
  {
    hide SafeToolsRender, RaisedInSafeGroup, Refines, Rounds;
    var e := env.(model := model);
    SafeForAnyModel(env, model);
    SafeRounds(e, cfg.(mode := Sequential), 0, Start(history));
    ParallelRefinesSequential(e, cfg, history);
  }

  /** A call of a parallel-safe tool whose result has no text gives a model for which the modes differ. */
  lemma UnrenderableCallDiverges(env: Env, call: Call)
    requires MayRun(env, call) && env.registry[call.name].parallelSafe
    requires env.registry[call.name].effect(call.arguments) == Returns(Unrenderable)
    ensures !ModesRefine(env, _ => Answer("", [call]), Config(2, false, true, Sequential), [])
  {
    hide ConformsObject, Run;
    var model: seq<Message> -> Reply := _ => Answer("", [call]);
    var e, cfg := env.(model := model), Config(2, false, true, Sequential);
    assert MayRun(e, call);
    RaisesExactly(e, call);
    UnrenderableResultDiverges(e, cfg, [], "", call);
  }

  /**
    Which tools and policies may run in parallel: the parallel mode refines the sequential one
    for every model, configuration and history exactly when each call that may run of a tool
    marked parallel-safe returns something that has a text.
  */
  lemma ParallelIsSafeExactly(env: Env)
    ensures SafeToolsRender(env) <==>
            forall model: seq<Message> -> Reply, cfg: Config, history: seq<Message> :: ModesRefine(env, model, cfg, history)
  {
    hide ConformsObject, Run, RaisedInSafeGroup, Refines;
    if SafeToolsRender(env) {
      forall model: seq<Message> -> Reply, cfg: Config, history: seq<Message>
        ensures ModesRefine(env, model, cfg, history)
      {
        SafeRefines(env, model, cfg, history);
      }
    } else {
      var call :| MayRun(env, call) && env.registry[call.name].parallelSafe
                  && env.registry[call.name].effect(call.arguments) == Returns(Unrenderable);
      UnrenderableCallDiverges(env, call);
    }
  }

  /**
    For such tools both modes give the same run, unless an error of a tool stops it; then the
    reasons agree and the sequential results are a prefix of the parallel ones.
  */
  lemma RenderableToolsRefine(env: Env, cfg: Config, history: seq<Message>)
    requires SafeToolsRender(env)
    ensures var s, q := Run(env, cfg.(mode := Sequential), history), Run(env, cfg.(mode := Parallel), history);
            && (!cfg.stopOnError || s.reason != Some(ToolError) ==> q == s)
            && q.reason == s.reason && q.history == s.history && q.sent == s.sent && s.results <= q.results
  {
    hide SafeToolsRender;
    SafeRounds(env, cfg.(mode := Sequential), 0, Start(history));
    ParallelRefinesSequential(env, cfg, history);
  }
}
