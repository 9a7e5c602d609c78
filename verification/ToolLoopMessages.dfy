/**
  What a run tells the model and its caller, in terms of the tools, the policy and the model's
  replies: the message and the result of every call, the histories sent, and how a run ends.
*/
module ToolLoopMessages {
  import opened Common
  import opened SchemaErrors
  import opened SchemaValidator
  import opened ToolLoop
  import opened ToolLoopRuns

  // ----- One call -----

  /** The tool's function is applied and returns something with a text. */
  ghost predicate Succeeds(env: Env, call: Call) {
    MayRun(env, call) && env.registry[call.name].effect(call.arguments).Returns? && env.registry[call.name].effect(call.arguments).content.Text?
  }

  /** The text of the tool's answer. */
  ghost function AnswerText(env: Env, call: Call): string
    requires Succeeds(env, call)
  {
    env.registry[call.name].effect(call.arguments).content.text
  }

  /** The call is made and returns something without a text. */
  ghost predicate HasNoText(env: Env, call: Call) {
    MayRun(env, call) && env.registry[call.name].effect(call.arguments) == Returns(Unrenderable)
  }

  /** What is said about a call that does not succeed. */
  ghost predicate Explains(env: Env, call: Call, text: string) {
    if !Granted(env.policy, call.name) then text == "Tool call denied by permission policy: " + call.name
    else if MayRun(env, call) then
      text == if env.registry[call.name].effect(call.arguments).TimesOut? then "Tool execution timed out" else "Tool execution failed"
    else if call.name in env.advertised && call.name in env.registry && env.validName(call.name) then
      ReportsArguments(Mapping(call.arguments), env.registry[call.name].schema, Some(text))
    else text == "Tool execution rejected"
  }

  /** The result of the call: the tool's text, or why there is none. */
  ghost predicate ResultTells(env: Env, call: Call, r: ToolResult) {
    && r.callId == call.id && r.name == call.name
    && if Succeeds(env, call) then r.success && r.content == AnswerText(env, call) && r.error == None
       else !r.success && r.content == "" && r.error.Some? && r.error.value != "" && Explains(env, call, r.error.value)
  }

  /** The message that answers the call in the history. */
  ghost predicate MessageTells(env: Env, call: Call, m: Message) {
    && m.ToolMessage? && m.callId == call.id && m.name == call.name
    && if Succeeds(env, call) then m.success && m.content == AnswerText(env, call)
       else !m.success && m.content != "" && Explains(env, call, m.content)
  }

  predicate AllNonempty(texts: seq<string>) {
    forall i | 0 <= i < |texts| :: texts[i] != ""
  }

  lemma {:induction false} MissingNonempty(required: seq<string>, fields: map<string, Value>)
    ensures AllNonempty(Missing(required, fields))
    decreases |required|
  {
    if required != [] {
      MissingNonempty(required[1..], fields);
    }
  }

  lemma {:induction false} UnknownNonempty(names: seq<string>)
    ensures AllNonempty(Unknown(names))
    decreases |names|
  {
    if names != [] {
      UnknownNonempty(names[1..]);
    }
  }

  lemma {:induction false} PrefixedNonempty(prefix: string, errors: seq<string>)
    requires prefix != ""
    ensures AllNonempty(Prefixed(prefix, errors))
    decreases |errors|
  {
    if errors != [] {
      PrefixedNonempty(prefix, errors[1..]);
    }
  }

  lemma {:induction false} ArgumentsNonempty(v: Value, schema: map<string, Value>)
    requires v.Mapping?
    ensures AllNonempty(ArgumentErrors(v, schema))
    decreases v, 3, 0
  {
    if Properties(schema).Some? && Required(schema).Some? {
      var properties := Properties(schema).value;
      MissingNonempty(Required(schema).value, v.fields);
      UnknownNonempty(SortedKeys(v.fields.Keys - properties.Keys));
      PropertiesNonempty(v, SortedKeys(properties.Keys), properties);
    }
  }

  lemma {:induction false} PropertiesNonempty(v: Value, names: seq<string>, properties: map<string, Value>)
    requires v.Mapping? && forall n | n in names :: n in properties
    ensures AllNonempty(PropertyErrors(v, names, properties))
    decreases v, 2, |names|
  {
    if names != [] {
      PropertiesNonempty(v, names[1..], properties);
      var n := names[0];
      if n in v.fields && properties[n].Mapping? {
        ValueNonempty(n, v.fields[n], properties[n].fields);
      }
    }
  }

  lemma {:induction false} ValueNonempty(name: string, v: Value, schema: map<string, Value>)
    ensures AllNonempty(ValueErrors(name, v, schema))
    decreases v, 4, 0
  {
    if v.Mapping? {
      ArgumentsNonempty(v, schema);
      PrefixedNonempty(name + ".", ArgumentErrors(v, schema));
    }
    if (v.List? || v.Tuple?) && Get(schema, "items").Mapping? {
      ItemsNonempty(name, v, 0, Get(schema, "items").fields);
    }
  }

  lemma {:induction false} ItemsNonempty(name: string, v: Value, from: nat, schema: map<string, Value>)
    requires (v.List? || v.Tuple?) && from <= |v.items|
    ensures AllNonempty(ItemErrors(name, v, from, schema))
    decreases v, 2, |v.items| - from
  {
    if from < |v.items| {
      ValueNonempty(ItemName(name, from), v.items[from], schema);
      ItemsNonempty(name, v, from + 1, schema);
    }
  }

  /** Every outcome of a call tells what happened. */
  lemma OutcomeTells(env: Env, call: Call)
    ensures Attempt(env, call).outcome.Some? ==> ResultTells(env, call, Attempt(env, call).outcome.value.result)
    ensures ResultTells(env, call, Contained(env, call).result)
    ensures Attempt(env, call).outcome.Some? ==> (Attempt(env, call).outcome.value.result.success <==> Succeeds(env, call))
    ensures Attempt(env, call).outcome.None? ==> !Succeeds(env, call)
  {
    hide ArgumentErrors, ConformsObject, ReportsArguments;
    if call.name in env.registry {
      ArgumentsReported(Mapping(call.arguments), env.registry[call.name].schema);
      ArgumentsConform(Mapping(call.arguments), env.registry[call.name].schema);
      ArgumentsNonempty(Mapping(call.arguments), env.registry[call.name].schema);
    }
  }

  /** The category of an outcome, and whether it is a denial. */
  ghost predicate CategoryTells(env: Env, call: Call, o: Outcome) {
    && (o.denied <==> !Granted(env.policy, call.name))
    && o.errorCategory == if Succeeds(env, call) then None
                          else if !Granted(env.policy, call.name) then Some("permission_policy")
                          else if call.name !in env.advertised && call.name in env.registry then Some("not_allowed")
                          else if !env.validName(call.name) then Some("execution_error")
                          else if call.name !in env.registry then Some("unknown_tool")
                          else if !MayRun(env, call) then Some("validation")
                          else if HasNoText(env, call) then Some("execution_error")
                          else if env.registry[call.name].effect(call.arguments).TimesOut? then Some("timeout")
                          else Some("exception")
  }

  lemma OutcomeCategory(env: Env, call: Call)
    ensures Attempt(env, call).outcome.Some? ==> CategoryTells(env, call, Attempt(env, call).outcome.value)
    ensures CategoryTells(env, call, Contained(env, call))
  {
    hide ArgumentErrors, ConformsObject;
    if call.name in env.registry {
      ArgumentsConform(Mapping(call.arguments), env.registry[call.name].schema);
    }
  }

  /** The message made of a result says what the result says. */
  lemma MessageOfResult(env: Env, call: Call, r: ToolResult)
    requires ResultTells(env, call, r)
    ensures MessageTells(env, call, ResultMessage(r)) && (r.success <==> Succeeds(env, call))
  {
    hide Explains, MayRun;
  }

  // ----- Groups -----

  ghost predicate GroupTells(env: Env, calls: seq<Call>, outcomes: seq<Outcome>) {
    |outcomes| <= |calls| && forall i | 0 <= i < |outcomes| :: ResultTells(env, calls[i], outcomes[i].result)
  }

  lemma GroupTellsCons(env: Env, calls: seq<Call>, o: Outcome, rest: seq<Outcome>)
    requires calls != [] && ResultTells(env, calls[0], o.result) && GroupTells(env, calls[1..], rest)
    ensures GroupTells(env, calls, [o] + rest)
  {
    hide ResultTells;
    forall i | 0 <= i < |[o] + rest|
      ensures ResultTells(env, calls[i], ([o] + rest)[i].result)
    {
      assert i > 0 ==> ResultTells(env, calls[1..][i - 1], rest[i - 1].result);
    }
  }

  lemma {:induction false} GroupsTell(env: Env, stop: bool, calls: seq<Call>)
    ensures GroupTells(env, calls, SequentialGroup(env, stop, calls).outcomes)
    ensures GroupTells(env, calls, ParallelGroup(env, calls).outcomes)
    ensures SequentialGroup(env, stop, calls).raised ==> exists c | c in calls :: Attempt(env, c).outcome.None?
    decreases |calls|
  {
    hide Attempt, Contained, ResultTells, GroupTells, Succeeds;
    if calls == [] {
      NothingTold(env);
    } else {
      OutcomeTells(env, calls[0]);
      GroupsTell(env, stop, calls[1..]);
      GroupTellsCons(env, calls, Contained(env, calls[0]), ParallelGroup(env, calls[1..]).outcomes);
      if Attempt(env, calls[0]).outcome.Some? {
        var o := Attempt(env, calls[0]).outcome.value;
        GroupTellsCons(env, calls, o, SequentialGroup(env, stop, calls[1..]).outcomes);
        NothingTold(env);
        OneTold(env, calls, o);
      } else {
        TellsNothing(env, calls);
      }
    }
  }

  lemma NothingTold(env: Env)
    ensures GroupTells(env, [], [])
  {
  }

  lemma TellsNothing(env: Env, calls: seq<Call>)
    ensures GroupTells(env, calls, [])
  {
  }

  lemma OneTold(env: Env, calls: seq<Call>, o: Outcome)
    requires calls != [] && ResultTells(env, calls[0], o.result)
    ensures GroupTells(env, calls, [o])
  {
  }

  /** What a group of either mode comes to. */
  lemma ExecutedTells(env: Env, cfg: Config, calls: seq<Call>)
    ensures var g := ExecuteGroup(env, cfg, calls);
            && GroupTells(env, calls, g.outcomes)
            && (g.raised ==> exists c | c in calls :: HasNoText(env, c))
            && (GoesOn(cfg, g) ==> |g.outcomes| == |calls|)
            && (SomeFailed(g.outcomes) ==> exists c | c in calls :: !Succeeds(env, c))
            && (!SomeFailed(g.outcomes) && |g.outcomes| == |calls| ==> forall c | c in calls :: Succeeds(env, c))
  {
    hide Attempt, Contained, MayRun, SequentialGroup, ParallelGroup, Explains;
    GroupsTell(env, cfg.stopOnError, calls);
    GroupPrefix(env, cfg.stopOnError, calls);
    var g := ExecuteGroup(env, cfg, calls);
    if g.raised {
      var c :| c in calls && Attempt(env, c).outcome.None?;
      RaisesExactly(env, c);
      assert HasNoText(env, c);
    }
    if SomeFailed(g.outcomes) {
      var i :| 0 <= i < |g.outcomes| && !g.outcomes[i].result.success;
      assert calls[i] in calls;
    }
    if !SomeFailed(g.outcomes) && |g.outcomes| == |calls| {
      forall c | c in calls ensures Succeeds(env, c) {
        var i :| 0 <= i < |calls| && calls[i] == c;
        assert g.outcomes[i].result.success;
      }
    }
  }

  /** How often `call` is among `calls`, if its tool is applied at all. */
  ghost function Applied(env: Env, calls: seq<Call>, call: Call): nat {
    if MayRun(env, call) then multiset(calls)[call] else 0
  }

  /** `g` did the first `n` calls, and with an exception the next one too: no more than the first failure, if that stops it. */
  ghost predicate UpTo(env: Env, stop: bool, calls: seq<Call>, g: Group, n: nat) {
    && n == |g.outcomes| <= |calls|
    && (forall i | 0 <= i < n :: !HasNoText(env, calls[i]) && (stop && i < n - 1 ==> Succeeds(env, calls[i])))
    && (if g.raised then n < |calls| && HasNoText(env, calls[n]) && (stop && n > 0 ==> Succeeds(env, calls[n - 1]))
        else n == |calls| || (stop && n > 0 && !Succeeds(env, calls[n - 1])))
    && forall call :: g.ran[call] == Applied(env, calls[..if g.raised then n + 1 else n], call)
  }

  lemma AppliedCons(env: Env, calls: seq<Call>, n: nat, call: Call)
    requires calls != [] && n < |calls|
    ensures Applied(env, calls[..n + 1], call) == Applied(env, [calls[0]], call) + Applied(env, calls[1..][..n], call)
  {
    hide MayRun;
    assert calls[..n + 1] == [calls[0]] + calls[1..][..n];
  }

  lemma UpToCons(env: Env, stop: bool, calls: seq<Call>, o: Outcome, g: Group, rest: Group)
    requires calls != [] && !HasNoText(env, calls[0]) && (stop ==> Succeeds(env, calls[0]))
    requires UpTo(env, stop, calls[1..], rest, |rest.outcomes|)
    requires g.outcomes == [o] + rest.outcomes && g.raised == rest.raised
    requires forall call :: g.ran[call] == Applied(env, [calls[0]], call) + rest.ran[call]
    ensures UpTo(env, stop, calls, g, |g.outcomes|)
  {
    hide Succeeds, HasNoText, Applied;
    var n := |rest.outcomes|;
    assert forall i | 0 < i < |calls| :: calls[i] == calls[1..][i - 1];
    forall call
      ensures g.ran[call] == Applied(env, calls[..if g.raised then n + 2 else n + 1], call)
    {
      AppliedCons(env, calls, if g.raised then n + 1 else n, call);
    }
  }

  /** A group that does not come past its first call. */
  lemma EndsAtFirst(env: Env, stop: bool, calls: seq<Call>, g: Group)
    requires calls != [] && forall call :: g.ran[call] == Applied(env, [calls[0]], call)
    requires if g.raised then g.outcomes == [] && HasNoText(env, calls[0])
             else |g.outcomes| == 1 && !HasNoText(env, calls[0]) && stop && !Succeeds(env, calls[0])
    ensures UpTo(env, stop, calls, g, |g.outcomes|)
  {
    hide Succeeds, HasNoText, Applied;
    assert calls[..1] == [calls[0]];
  }

  /** A sequential group does its calls in order, up to an exception or, if errors stop it, up to the first failure. */
  lemma {:induction false} SequentialExactly(env: Env, stop: bool, calls: seq<Call>)
    ensures var g := SequentialGroup(env, stop, calls); UpTo(env, stop, calls, g, |g.outcomes|)
    decreases |calls|
  {
    hide Attempt, MayRun, Succeeds;
    var g := SequentialGroup(env, stop, calls);
    if calls == [] {
      assert calls[..0] == [];
    } else {
      var c := calls[0];
      OutcomeTells(env, c);
      RaisesExactly(env, c);
      InvokedExactly(env, c);
      assert calls[..1] == [c] && calls[..0] == [];
      assert forall call :: Attempt(env, c).ran[call] == Applied(env, [c], call);
      if Attempt(env, c).outcome.Some? && !(stop && !Attempt(env, c).outcome.value.result.success) {
        SequentialExactly(env, stop, calls[1..]);
        UpToCons(env, stop, calls, Attempt(env, c).outcome.value, g, SequentialGroup(env, stop, calls[1..]));
      } else {
        EndsAtFirst(env, stop, calls, g);
      }
    }
  }

  /**
    A group runs concurrently exactly when that is asked for and every call that the policy
    grants names a registered tool marked parallel-safe. Then each call that may run is applied,
    whatever fails; otherwise they are done in order.
  */
  lemma GroupModeExactly(env: Env, cfg: Config, calls: seq<Call>)
    ensures var g := ExecuteGroup(env, cfg, calls);
            if cfg.mode == Parallel && (forall c | c in calls && Granted(env.policy, c.name) ::
                                          c.name in env.registry && env.registry[c.name].parallelSafe)
            then !g.raised && |g.outcomes| == |calls| && forall call :: g.ran[call] == Applied(env, calls, call)
            else UpTo(env, cfg.stopOnError, calls, g, |g.outcomes|)
  {
    hide SequentialGroup, ParallelGroup, UpTo, MayRun;
    SequentialExactly(env, cfg.stopOnError, calls);
    GroupPrefix(env, cfg.stopOnError, calls);
    forall call
      ensures ParallelGroup(env, calls).ran[call] == Applied(env, calls, call)
    {
      GroupRunsExactly(env, calls, call);
    }
  }

  // ----- Histories -----

  /** The next history sent after `h`: the model's answer with its calls, and one telling message per call. */
  ghost predicate Continues(env: Env, cfg: Config, h: seq<Message>, next: seq<Message>) {
    var reply := env.model(h);
    && reply.Answer? && reply.calls != [] && !cfg.requireApproval
    && |next| == |h| + 1 + |reply.calls| && h <= next && next[|h|] == Assistant(reply.content, reply.calls)
    && (forall i | 0 <= i < |reply.calls| :: MessageTells(env, reply.calls[i], next[|h| + 1 + i]))
    && (cfg.stopOnError ==> forall c | c in reply.calls :: Succeeds(env, c))
  }

  /** All calls that the model asked for in answer to these histories. */
  function Asked(env: Env, sent: seq<seq<Message>>): seq<Call>
    decreases |sent|
  {
    if sent == [] then []
    else
      var reply := env.model(sent[|sent| - 1]);
      Asked(env, sent[..|sent| - 1]) + (if reply.Answer? then reply.calls else [])
  }

  ghost predicate ResultsTell(env: Env, calls: seq<Call>, results: seq<ToolResult>) {
    |results| <= |calls| && forall i | 0 <= i < |results| :: ResultTells(env, calls[i], results[i])
  }

  ghost predicate Chain(env: Env, cfg: Config, sent: seq<seq<Message>>) {
    forall i | 0 <= i < |sent| - 1 :: Continues(env, cfg, sent[i], sent[i + 1])
  }

  /** What the rounds so far leave. */
  ghost predicate PastTells(env: Env, cfg: Config, p: Past) {
    && Chain(env, cfg, p.sent + [p.history]) && p.groups == |p.sent|
    && |p.results| == |Asked(env, p.sent)| && ResultsTell(env, Asked(env, p.sent), p.results)
  }

  lemma ChainGrows(env: Env, cfg: Config, sent: seq<seq<Message>>, next: seq<Message>)
    requires sent != [] && Chain(env, cfg, sent) && Continues(env, cfg, sent[|sent| - 1], next)
    ensures Chain(env, cfg, sent + [next])
  {
    hide Continues;
  }

  lemma ResultsGrow(env: Env, calls: seq<Call>, results: seq<ToolResult>, more: seq<Call>, outcomes: seq<Outcome>)
    requires |results| == |calls| && ResultsTell(env, calls, results) && GroupTells(env, more, outcomes)
    ensures ResultsTell(env, calls + more, results + Results(outcomes))
  {
    hide ResultTells, Results;
    var told := Results(outcomes);
    var all, asked, n := results + told, calls + more, |results|;
    forall i | 0 <= i < |all|
      ensures ResultTells(env, asked[i], all[i])
    {
      if i < n {
        assert all[i] == results[i] && asked[i] == calls[i];
      } else {
        assert all[i] == told[i - n] == outcomes[i - n].result && asked[i] == more[i - n];
      }
    }
  }

  /** The history after a group of calls. */
  lemma NextContinues(env: Env, cfg: Config, p: Past, reply: Reply, g: Group)
    requires reply == env.model(p.history) && reply.Answer? && reply.calls != [] && !cfg.requireApproval
    requires g == ExecuteGroup(env, cfg, reply.calls) && GoesOn(cfg, g)
    ensures Continues(env, cfg, p.history, NextPast(p, reply, g).history)
  {
    hide ExecuteGroup, ResultTells, MessageTells, Succeeds, ResultMessage;
    ExecutedTells(env, cfg, reply.calls);
    var next := NextPast(p, reply, g).history;
    var ms := ResultMessages(Results(g.outcomes));
    assert next == p.history + [Assistant(reply.content, reply.calls)] + ms;
    forall i | 0 <= i < |reply.calls|
      ensures MessageTells(env, reply.calls[i], next[|p.history| + 1 + i])
    {
      MessageOfResult(env, reply.calls[i], g.outcomes[i].result);
      assert next[|p.history| + 1 + i] == ms[i];
    }
  }

  lemma NextTells(env: Env, cfg: Config, p: Past, reply: Reply, g: Group)
    requires PastTells(env, cfg, p)
    requires reply == env.model(p.history) && reply.Answer? && reply.calls != [] && !cfg.requireApproval
    requires g == ExecuteGroup(env, cfg, reply.calls) && GoesOn(cfg, g)
    ensures PastTells(env, cfg, NextPast(p, reply, g))
  {
    hide ExecuteGroup, ResultTells, Continues, GroupTells, Results, ResultMessages, SomeFailed, Succeeds;
    var next := NextPast(p, reply, g);
    NextContinues(env, cfg, p, reply, g);
    ExecutedTells(env, cfg, reply.calls);
    assert next.sent == p.sent + [p.history];
    ChainGrows(env, cfg, next.sent, next.history);
    assert next.sent[..|p.sent|] == p.sent;
    ResultsGrow(env, Asked(env, p.sent), p.results, reply.calls, g.outcomes);
    AsLong(g.outcomes);
  }

  lemma AsLong(outcomes: seq<Outcome>)
    ensures |Results(outcomes)| == |outcomes|
  {
  }

  // ----- Runs -----

  /**
    The whole run. The first history sent is the caller's; each later one continues the one
    before. The model's last reply decides how the run ends: an error, an answer without calls,
    calls that need approval or come too late, or a last group in which a call failed or whose
    result has no text. The results tell of the calls in the order in which they were asked for.
  */
  ghost predicate Explained(env: Env, cfg: Config, history: seq<Message>, e: Ending) {
    && e.sent != [] && e.sent[0] == history && |e.sent| <= cfg.maxSteps && Chain(env, cfg, e.sent)
    && var last := env.model(e.sent[|e.sent| - 1]);
       var stopped := last.Answer? && last.calls != [] && !cfg.requireApproval && |e.sent| < cfg.maxSteps;
       && (e.reason == Some(LlmError) <==> last.Failed?)
       && (e.reason == Some(Completed) <==> last.Answer? && last.calls == [])
       && (e.reason == Some(ApprovalRequired) <==> last.Answer? && last.calls != [] && cfg.requireApproval)
       && (e.reason == Some(MaxStepsExceeded) <==>
             last.Answer? && last.calls != [] && !cfg.requireApproval && |e.sent| == cfg.maxSteps)
       && (e.reason == Some(ToolError) || e.reason == None <==> stopped)
       && (e.reason == Some(ToolError) ==> cfg.stopOnError && exists c | c in last.calls :: !Succeeds(env, c))
       && (e.reason == None ==> exists c | c in last.calls :: HasNoText(env, c))
       && e.pending == (if e.reason == Some(ApprovalRequired) || e.reason == Some(MaxStepsExceeded) then last.calls else [])
       && e.groups == (if stopped then |e.sent| else |e.sent| - 1)
       && ResultsTell(env, Asked(env, e.sent[..e.groups]), e.results)
       && (!stopped ==> |e.results| == |Asked(env, e.sent[..e.groups])|)
  }

  lemma QuietExplained(env: Env, cfg: Config, step: nat, p: Past)
    requires PastTells(env, cfg, p) && step == |p.sent| < cfg.maxSteps && !RunsGroup(env, cfg, step, p)
    ensures Explained(env, cfg, (p.sent + [p.history])[0], QuietEnding(env, cfg, step, p))
  {
    hide Continues, ResultTells, Succeeds, HasNoText, Chain, ResultsTell, Asked;
    var e := QuietEnding(env, cfg, step, p);
    assert e.sent == p.sent + [p.history] && e.sent[..|p.sent|] == p.sent;
  }

  lemma StoppedExplained(env: Env, cfg: Config, step: nat, p: Past, reply: Reply, g: Group)
    requires PastTells(env, cfg, p) && step == |p.sent| && RunsGroup(env, cfg, step, p) && reply == env.model(p.history)
    requires g == ExecuteGroup(env, cfg, reply.calls) && !GoesOn(cfg, g)
    ensures Explained(env, cfg, (p.sent + [p.history])[0], StoppedEnding(p, reply, g))
  {
    hide Continues, ResultTells, Succeeds, HasNoText, ExecuteGroup, Results, GroupTells, SomeFailed;
    var e := StoppedEnding(p, reply, g);
    ExecutedTells(env, cfg, reply.calls);
    assert e.sent == p.sent + [p.history] && e.sent[..|e.sent|] == e.sent && e.sent[..|p.sent|] == p.sent;
    ResultsGrow(env, Asked(env, p.sent), p.results, reply.calls, g.outcomes);
    FewerTell(env, Asked(env, p.sent), reply.calls, p.results);
  }

  lemma FewerTell(env: Env, calls: seq<Call>, more: seq<Call>, results: seq<ToolResult>)
    requires ResultsTell(env, calls, results)
    ensures ResultsTell(env, calls + more, results)
  {
    hide ResultTells;
  }

  lemma {:induction false} RoundsExplained(env: Env, cfg: Config, step: nat, p: Past)
    requires PastTells(env, cfg, p) && step == |p.sent| < cfg.maxSteps
    ensures Explained(env, cfg, (p.sent + [p.history])[0], Rounds(env, cfg, step, p))
    decreases cfg.maxSteps - step
  {
    hide PastTells, Explained, ExecuteGroup, QuietEnding, StoppedEnding, SomeFailed;
    if !RunsGroup(env, cfg, step, p) {
      QuietExplained(env, cfg, step, p);
    } else {
      var reply := env.model(p.history);
      var g := ExecuteGroup(env, cfg, reply.calls);
      if GoesOn(cfg, g) {
        NextTells(env, cfg, p, reply, g);
        var next := NextPast(p, reply, g);
        RoundsExplained(env, cfg, step + 1, next);
        assert next.sent == p.sent + [p.history] && (next.sent + [next.history])[0] == next.sent[0];
      } else {
        StoppedExplained(env, cfg, step, p, reply, g);
      }
    }
  }

  /** Every run is explained by the tools, the policy and the model's replies. */
  lemma RunExplained(env: Env, cfg: Config, history: seq<Message>)
    requires cfg.maxSteps >= 1
    ensures Explained(env, cfg, history, Run(env, cfg, history))
  {
    hide Explained, Continues, Rounds;
    assert [] + [history] == [history];
    RoundsExplained(env, cfg, 0, Start(history));
  }
}
