/**
  The agent tool loop of kernel/agent_tool_loop.py: one bounded conversation between a
  language model and registered tools.
*/
module ToolLoop {
  import opened Common
  import opened SchemaValidator

  // ----- Tools -----

  datatype Call = Call(id: string, name: string, arguments: map<string, Value>)

  /** What a tool returns, as text; some values have no text. */
  datatype Content = Text(text: string) | Unrenderable

  /** What running a tool does: it is a function of the arguments. */
  datatype Effect = Returns(content: Content) | Raises(errorType: string) | TimesOut

  datatype Tool = Tool(schema: map<string, Value>, parallelSafe: bool, effect: map<string, Value> -> Effect)

  datatype ToolResult = ToolResult(callId: string, name: string, content: string, success: bool, error: Option<string>)

  datatype Outcome = Outcome(result: ToolResult, errorCategory: Option<string>, denied: bool)

  datatype Policy = Policy(allowed: set<string>, denied: set<string>, defaultAllow: bool)

  /** Deny rules always win. */
  predicate Permits(p: Policy, name: string) {
    name !in p.denied && (p.defaultAllow || name in p.allowed)
  }

  // ----- Messages -----

  datatype Message =
    | Plain(role: string, content: string)
    | Assistant(content: string, calls: seq<Call>)
    | ToolMessage(callId: string, name: string, content: string, success: bool)

  datatype Reply = Failed(errorType: string, category: string) | Answer(content: string, calls: seq<Call>)

  /**
    The world of one run: the registered tools, the names that a tool call request accepts,
    the tools advertised to the model, the permission policy and the model.
  */
  datatype Env = Env(
    registry: map<string, Tool>,
    validName: string -> bool,
    advertised: set<string>,
    policy: Policy,
    model: seq<Message> -> Reply)

  datatype Mode = Sequential | Parallel

  datatype Config = Config(maxSteps: nat, requireApproval: bool, stopOnError: bool, mode: Mode)

  // ----- One call -----

  /** A rejected or failed call. */
  function Rejection(call: Call, category: string, error: string): Outcome {
    Outcome(ToolResult(call.id, call.name, "", false, Some(error)), Some(category), false)
  }

  function Denial(call: Call): Outcome {
    Rejection(call, "permission_policy", "Tool call denied by permission policy: " + call.name).(denied := true)
  }

  /**
    What the execution of one call did: its outcome, None when an exception escaped, and `ran`,
    the calls whose tool function was invoked on the way.
  */
  datatype Done = Done(outcome: Option<Outcome>, ran: multiset<Call>)

  /** The only place where a tool's function is applied: every application is recorded. */
  function Invoke(tool: Tool, call: Call): (Effect, multiset<Call>) {
    (tool.effect(call.arguments), multiset{call})
  }

  function Rejected(outcome: Outcome): Done {
    Done(Some(outcome), multiset{})
  }

  /** The tool runtime's part. A result that cannot be turned into text raises. */
  function Execute(env: Env, call: Call): Done {
    if !env.validName(call.name) then Rejected(Rejection(call, "execution_error", "Tool execution rejected"))
    else if call.name !in env.registry then Rejected(Rejection(call, "unknown_tool", "Tool execution rejected"))
    else
      var tool := env.registry[call.name];
      match First(ArgumentErrors(Mapping(call.arguments), tool.schema))
      case Some(error) => Rejected(Rejection(call, "validation", error))
      case None =>
        var (effect, ran) := Invoke(tool, call);
        Done(OutcomeOf(call, effect), ran)
  }

  function OutcomeOf(call: Call, effect: Effect): Option<Outcome> {
    match effect
    case Raises(_) => Some(Rejection(call, "exception", "Tool execution failed"))
    case TimesOut => Some(Rejection(call, "timeout", "Tool execution timed out"))
    case Returns(Unrenderable) => None
    case Returns(Text(text)) => Some(Outcome(ToolResult(call.id, call.name, text, true, None), None, false))
  }

  /** A registered tool that was not advertised is rejected before the runtime sees it. */
  function ExecuteCall(env: Env, call: Call): Done {
    if call.name !in env.advertised && call.name in env.registry
    then Rejected(Rejection(call, "not_allowed", "Tool execution rejected"))
    else Execute(env, call)
  }

  // ----- A group of calls -----

  /** `ran` are the calls whose tool function ran; a group may end in an exception. */
  datatype Group = Group(outcomes: seq<Outcome>, raised: bool, ran: multiset<Call>)

  /** One call of a group: denied, or executed. */
  function Attempt(env: Env, call: Call): Done {
    if Permits(env.policy, call.name) then ExecuteCall(env, call) else Rejected(Denial(call))
  }

  /** The calls one after the other, up to an exception or, if errors stop the run, an error. */
  function SequentialGroup(env: Env, stop: bool, calls: seq<Call>): Group
    decreases |calls|
  {
    if calls == [] then Group([], false, multiset{})
    else
      match Attempt(env, calls[0])
      case Done(None, ran) => Group([], true, ran)
      case Done(Some(outcome), ran) =>
        if stop && !outcome.result.success then Group([outcome], false, ran)
        else
          var rest := SequentialGroup(env, stop, calls[1..]);
          Group([outcome] + rest.outcomes, rest.raised, ran + rest.ran)
  }

  /** One call of a parallel group: an exception of its future becomes a failed outcome. */
  function Contained(env: Env, call: Call): Outcome {
    match Attempt(env, call).outcome
    case Some(outcome) => outcome
    case None => Rejection(call, "execution_error", "Tool execution failed")
  }

  /** All the calls, whatever the order in which they complete. */
  function ParallelGroup(env: Env, calls: seq<Call>): Group
    decreases |calls|
  {
    if calls == [] then Group([], false, multiset{})
    else
      var rest := ParallelGroup(env, calls[1..]);
      Group([Contained(env, calls[0])] + rest.outcomes, false, Attempt(env, calls[0]).ran + rest.ran)
  }

  /** Every permitted call is of a registered tool that is safe to run in parallel. */
  predicate AllParallelSafe(env: Env, calls: seq<Call>) {
    forall c | c in calls && Permits(env.policy, c.name) :: c.name in env.registry && env.registry[c.name].parallelSafe
  }

  function Effective(env: Env, mode: Mode, calls: seq<Call>): Mode {
    if mode == Parallel && AllParallelSafe(env, calls) then Parallel else Sequential
  }

  function ExecuteGroup(env: Env, cfg: Config, calls: seq<Call>): Group {
    match Effective(env, cfg.mode, calls)
    case Sequential => SequentialGroup(env, cfg.stopOnError, calls)
    case Parallel => ParallelGroup(env, calls)
  }

  // ----- The run -----

  datatype Reason = Completed | LlmError | ApprovalRequired | MaxStepsExceeded | ToolError | LoopExhausted

  /**
    How a run ends: with a result, or with an exception. `sent` are the histories sent to the
    model, `groups` counts the groups of tool calls, `ran` holds the calls whose tool ran.
  */
  datatype Ending = Ending(
    reason: Option<Reason>,
    pending: seq<Call>,
    results: seq<ToolResult>,
    history: seq<Message>,
    sent: seq<seq<Message>>,
    groups: nat,
    ran: multiset<Call>)

  function Results(outcomes: seq<Outcome>): (rs: seq<ToolResult>)
    ensures |rs| == |outcomes| && forall i | 0 <= i < |rs| :: rs[i] == outcomes[i].result
  {
    if outcomes == [] then [] else [outcomes[0].result] + Results(outcomes[1..])
  }

  function ResultMessage(r: ToolResult): Message {
    var error := if r.error.Some? && r.error.value != "" then r.error.value else "Tool execution failed";
    ToolMessage(r.callId, r.name, if r.success then r.content else error, r.success)
  }

  function ResultMessages(rs: seq<ToolResult>): (ms: seq<Message>)
    ensures |ms| == |rs| && forall i | 0 <= i < |ms| :: ms[i] == ResultMessage(rs[i])
  {
    if rs == [] then [] else [ResultMessage(rs[0])] + ResultMessages(rs[1..])
  }

  predicate SomeFailed(outcomes: seq<Outcome>) {
    exists i | 0 <= i < |outcomes| :: !outcomes[i].result.success
  }

  /** What happened before a round. */
  datatype Past = Past(results: seq<ToolResult>, history: seq<Message>, sent: seq<seq<Message>>, groups: nat, ran: multiset<Call>)

  function End(reason: Option<Reason>, pending: seq<Call>, p: Past): Ending {
    Ending(reason, pending, p.results, p.history, p.sent, p.groups, p.ran)
  }

  /** The past after a group of calls ran. */
  function AfterGroup(p: Past, reply: Reply, g: Group): Past
    requires reply.Answer?
  {
    Past(p.results + Results(g.outcomes), p.history + [Assistant(reply.content, reply.calls)], p.sent, p.groups + 1, p.ran + g.ran)
  }

  /** The past with the history sent to the model. */
  function Sent(p: Past): Past {
    p.(sent := p.sent + [p.history])
  }

  /** The round executes a group of calls. */
  predicate RunsGroup(env: Env, cfg: Config, step: nat, p: Past) {
    var reply := env.model(p.history);
    step + 1 < cfg.maxSteps && reply.Answer? && reply.calls != [] && !cfg.requireApproval
  }

  /** How a round ends the run without executing a group. */
  function QuietEnding(env: Env, cfg: Config, step: nat, p: Past): Ending {
    var reply := env.model(p.history);
    if step >= cfg.maxSteps then End(Some(LoopExhausted), [], p)
    else if reply.Failed? then End(Some(LlmError), [], Sent(p))
    else if reply.calls == [] then End(Some(Completed), [], Sent(p))
    else if cfg.requireApproval then End(Some(ApprovalRequired), reply.calls, Sent(p))
    else End(Some(MaxStepsExceeded), reply.calls, Sent(p))
  }

  /** The group of a round neither raises nor stops the run. */
  predicate GoesOn(cfg: Config, g: Group) {
    !g.raised && !(SomeFailed(g.outcomes) && cfg.stopOnError)
  }

  /** How a group ends the run. */
  function StoppedEnding(p: Past, reply: Reply, g: Group): Ending
    requires reply.Answer?
  {
    var after := AfterGroup(Sent(p), reply, g);
    if g.raised then End(None, [], after.(results := p.results)) else End(Some(ToolError), [], after)
  }

  /** The past of the next round: the results are now in the history. */
  function NextPast(p: Past, reply: Reply, g: Group): Past
    requires reply.Answer?
  {
    var after := AfterGroup(Sent(p), reply, g);
    after.(history := after.history + ResultMessages(Results(g.outcomes)))
  }

  /** The rounds from number `step` on. */
  function Rounds(env: Env, cfg: Config, step: nat, p: Past): Ending
    decreases cfg.maxSteps - step
  {
    if !RunsGroup(env, cfg, step, p) then QuietEnding(env, cfg, step, p)
    else
      var reply := env.model(p.history);
      var g := ExecuteGroup(env, cfg, reply.calls);
      if GoesOn(cfg, g) then Rounds(env, cfg, step + 1, NextPast(p, reply, g)) else StoppedEnding(p, reply, g)
  }

  function Start(history: seq<Message>): Past {
    Past([], history, [], 0, multiset{})
  }

  function Run(env: Env, cfg: Config, history: seq<Message>): Ending {
    Rounds(env, cfg, 0, Start(history))
  }
}
