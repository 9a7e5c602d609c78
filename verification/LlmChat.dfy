/**
  Chat requests in kernel/llm/runtime.py and the response cache of kernel/llm/cache.py:
  budget check, cache, retries, fallbacks, ledgers.
*/
module LlmChat {
  import opened Common
  import opened LlmTypes
  import opened PyValues

  // ----- Requests -----

  datatype ChatMessage = ChatMessage(role: string, content: string, metadata: map<string, PyValue>)

  datatype ToolSpec = ToolSpec(name: string, description: string, schema: PyValue)

  datatype Request = Request(
    messages: seq<ChatMessage>,
    model: string,
    temperature: PyValue,
    metadata: map<string, PyValue>,
    timeout: Option<real>,
    tools: seq<ToolSpec>,
    toolChoice: PyValue)

  datatype Response = Response(
    content: string,
    model: string,
    provider: string,
    usage: Option<Usage>,
    metadata: map<string, PyValue>,
    calls: seq<PyValue>)

  /** An option of a request: in its metadata, or in the options there. */
  function RequestOption(metadata: map<string, PyValue>, name: string): PyValue {
    var value, options := Get(metadata, name), Get(metadata, "options");
    if value.None_? && options.Dict? then Field(options, name) else value
  }

  /** The token limit of a request: a positive integer, or none. */
  function MaxTokens(metadata: map<string, PyValue>): Option<nat> {
    var value := RequestOption(metadata, "max_tokens");
    if value.Int? && value.i > 0 then Some(value.i) else None
  }

  predicate CacheAllowed(metadata: map<string, PyValue>) {
    RequestOption(metadata, "cache") != Bool(false)
  }

  // ----- The cache key -----

  /** A tool call of an earlier message, as the key sees it. */
  datatype CallKey = CallKey(id: Option<string>, name: Option<string>, arguments: Option<Json>)

  function Nonempty(v: PyValue): Option<string> {
    if v.Str? && v.s != "" then Some(v.s) else None
  }

  function CallKeyOf(call: PyValue): CallKey {
    CallKey(Nonempty(Field(call, "id")), Nonempty(Field(call, "name")),
            if Field(call, "arguments").Dict? then Some(Canonical(Field(call, "arguments"))) else None)
  }

  function CallKeys(calls: seq<PyValue>): seq<CallKey> {
    if calls == [] then [] else [CallKeyOf(calls[0])] + CallKeys(calls[1..])
  }

  datatype MessageKey = MessageKey(role: string, content: string, callId: Option<string>, calls: Option<seq<CallKey>>)

  /** What iterating over a value yields: a mapping yields its keys, which have no call fields. */
  function Iterated(v: PyValue): Option<seq<PyValue>> {
    match v
    case List(items) => Some(items)
    case Tuple(items) => Some(items)
    case Dict(fields, _) => Some(seq(|fields|, _ => Str("")))
    case _ => None
  }

  function MessageKeyOf(m: ChatMessage): MessageKey {
    var calls := Iterated(Get(m.metadata, "tool_calls"));
    MessageKey(m.role, m.content, Nonempty(Get(m.metadata, "tool_call_id")),
               if calls.Some? then Some(CallKeys(calls.value)) else None)
  }

  function MessageKeys(ms: seq<ChatMessage>): seq<MessageKey> {
    if ms == [] then [] else [MessageKeyOf(ms[0])] + MessageKeys(ms[1..])
  }

  function ToolKeys(ts: seq<ToolSpec>): seq<(string, string, Json)> {
    if ts == [] then [] else [(ts[0].name, ts[0].description, Canonical(ts[0].schema))] + ToolKeys(ts[1..])
  }

  /** The key of a request for a provider, before it is hashed. */
  datatype Key = Key(
    provider: string,
    model: string,
    messages: seq<MessageKey>,
    temperature: Json,
    maxTokens: Json,
    tools: seq<(string, string, Json)>,
    toolChoice: Json)

  function KeyOf(r: Request, provider: string): Key {
    Key(provider, r.model, MessageKeys(r.messages), Canonical(r.temperature), Canonical(RequestOption(r.metadata, "max_tokens")),
        ToolKeys(r.tools), Canonical(r.toolChoice))
  }

  /** Timeouts and metadata other than the token limit, so also the cache option, do not change the key. */
  lemma KeyIgnores(r: Request, metadata: map<string, PyValue>, timeout: Option<real>, provider: string)
    requires RequestOption(metadata, "max_tokens") == RequestOption(r.metadata, "max_tokens")
    ensures KeyOf(r.(metadata := metadata, timeout := timeout), provider) == KeyOf(r, provider)
  {
  }

  // ----- The runtime -----

  datatype Outcome = Answered(response: Response) | Threw(failure: Failure)

  /** One call of a provider. */
  datatype Call = Call(provider: string, request: Request)

  /** What is charged for an answer. */
  datatype Cost = Cost(provider: string, model: string, usage: Usage)

  /**
    The configuration: the providers by name with a default and fallbacks, or a single one;
    what provider call number `t` does; whether the cost table has a rate for an answer.
  */
  datatype World = World(
    single: Option<string>,
    registry: set<string>,
    default: Option<string>,
    fallbacks: seq<string>,
    policy: RetryPolicy,
    budget: Option<Budget>,
    caching: bool,
    shortHash: Key -> string,
    billable: (string, string, Usage) -> bool,
    complete: (Call, nat) -> Outcome)

  /** `calls` logs every provider call: its position is its number. */
  datatype State = State(ledger: Ledger, costs: seq<Cost>, entries: map<Key, Response>, hits: nat, misses: nat, stores: nat, calls: seq<Call>)

  datatype ChatError = NoProvider | UnknownProvider | OverBudget | ProviderFailed(failure: Failure) | AllFailed

  // ----- The cache -----

  predicate Caches(w: World, r: Request) {
    w.caching && CacheAllowed(r.metadata)
  }

  function Lookup(w: World, s: State, r: Request, provider: string): (State, Option<Response>) {
    if !Caches(w, r) then (s, None)
    else
      var key := KeyOf(r, provider);
      if key !in s.entries then (s.(misses := s.misses + 1), None)
      else
        var cached := s.entries[key];
        (s.(hits := s.hits + 1),
         Some(cached.(metadata := cached.metadata["cached" := Bool(true)]["cache_key" := Str(w.shortHash(key))])))
  }

  function Store(w: World, s: State, r: Request, provider: string, response: Response): State {
    if !Caches(w, r) then s else s.(entries := s.entries[KeyOf(r, provider) := response], stores := s.stores + 1)
  }

  function Clear(s: State): State {
    s.(entries := map[])
  }

  // ----- Provider calls -----

  /** Calls a provider until it answers, fails for good, or has been tried often enough. */
  function Complete(w: World, s: State, call: Call, attempt: nat): (State, Outcome)
    decreases w.policy.maxAttempts - attempt
  {
    var outcome := w.complete(call, |s.calls|);
    var t := s.(calls := s.calls + [call]);
    if outcome.Threw? && Retryable(w.policy, outcome.failure.category) && attempt < w.policy.maxAttempts
    then Complete(w, t, call, attempt + 1)
    else (t, outcome)
  }

  function RecordCost(w: World, s: State, response: Response): State {
    if response.usage.Some? && w.billable(response.provider, response.model, response.usage.value)
    then s.(costs := s.costs + [Cost(response.provider, response.model, response.usage.value)])
    else s
  }

  /** Accounts for an answer and caches it, unless the budget is then overdrawn. */
  function Accept(w: World, s: State, call: Call, response: Response): (State, Result<Response, ChatError>) {
    var t := RecordCost(w, s, response);
    var u := t.(ledger := ApplyUsage(t.ledger, response.usage));
    if Overdrawn(w.budget, u.ledger) then (u, Err(OverBudget))
    else (Store(w, u, call.request, call.provider, response), Ok(response))
  }

  // ----- Chat -----

  function ChatSingle(w: World, s: State, provider: string, r: Request): (State, Result<Response, ChatError>) {
    if Refuses(w.budget, s.ledger, MaxTokens(r.metadata)) then (s, Err(OverBudget))
    else
      var (t, cached) := Lookup(w, s, r, provider);
      if cached.Some? then (t, Ok(cached.value))
      else
        var (u, outcome) := Complete(w, t, Call(provider, r), 1);
        match outcome
        case Answered(response) => Accept(w, u, Call(provider, r), response)
        case Threw(f) => (u, Err(ProviderFailed(if f.FromProvider() then f else Failure(f.category, ProviderError))))
  }

  /** Whether a failure leads to the next provider, if there is one. */
  predicate GoesOn(w: World, f: Failure) {
    f.FromProvider() || Retryable(w.policy, f.category)
  }

  function Routed(w: World, s: State, route: seq<string>, r: Request): (State, Result<Response, ChatError>)
    decreases |route|
  {
    if route == [] then (s, Err(AllFailed))
    else
      var (t, cached) := Lookup(w, s, r, route[0]);
      if cached.Some? then (t, Ok(cached.value))
      else
        var (u, outcome) := Complete(w, t, Call(route[0], r), 1);
        match outcome
        case Answered(response) => Accept(w, u, Call(route[0], r), response)
        case Threw(f) =>
          if GoesOn(w, f) then Routed(w, u, route[1..], r) else (u, Err(ProviderFailed(Failure(f.category, ProviderError))))
  }

  /** The names without repetitions, first occurrences kept. */
  function OrderedUnique(names: seq<string>): seq<string>
    decreases |names|
  {
    if names == [] then []
    else
      var front := OrderedUnique(names[..|names| - 1]);
      if names[|names| - 1] in front then front else front + [names[|names| - 1]]
  }

  /** The providers that a request may reach, in order. */
  function RouteOf(w: World, provider: Option<string>): Result<seq<string>, ChatError> {
    match w.single
    case Some(name) => if provider.Some? then Err(NoProvider) else Ok([name])
    case None =>
      var selected := if provider.Some? then provider else w.default;
      if selected.None? then Err(NoProvider)
      else if selected.value !in w.registry then Err(UnknownProvider)
      else Ok(OrderedUnique([selected.value] + w.fallbacks))
  }

  /** A chat request; `provider` is the caller's choice. */
  function Chat(w: World, s: State, provider: Option<string>, r: Request): (State, Result<Response, ChatError>) {
    match RouteOf(w, provider)
    case Err(error) => (s, Err(error))
    case Ok(route) =>
      if w.single.Some? then ChatSingle(w, s, w.single.value, r)
      else if Refuses(w.budget, s.ledger, MaxTokens(r.metadata)) then (s, Err(OverBudget))
      else Routed(w, s, route, r)
  }
}
