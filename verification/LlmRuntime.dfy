/**
  The runtime as an object whose ledgers and cache are updated in place, and its retry,
  fallback and stream loops. Each method leaves what LlmChat and LlmStream describe.
*/
module LlmRuntime {
  import opened Common
  import opened LlmTypes
  import opened LlmChat
  import opened PyValues
  import S = LlmStream
  import B = LlmBudget

  class LLMRuntime {
    const w: World
    var ledger: Ledger
    var costs: seq<Cost>
    var entries: map<Key, Response>
    var hits: nat
    var misses: nat
    var stores: nat
    var calls: seq<Call>

    constructor (w: World)
      ensures this.w == w && State() == LlmChat.State(Ledger(0, 0, 0), [], map[], 0, 0, 0, [])
    {
      this.w := w;
      ledger, costs, entries, hits, misses, stores, calls := Ledger(0, 0, 0), [], map[], 0, 0, 0, [];
    }

    function State(): State
      reads this
    {
      LlmChat.State(ledger, costs, entries, hits, misses, stores, calls)
    }

    method ClearCache()
      modifies this`entries
      ensures State() == Clear(old(State()))
    {
      entries := map[];
    }

    method GetCachedResponse(r: Request, provider: string) returns (cached: Option<Response>)
      modifies this`hits, this`misses
      ensures (State(), cached) == Lookup(w, old(State()), r, provider)
    {
      if !Caches(w, r) { return None; }
      var key := KeyOf(r, provider);
      if key !in entries {
        misses := misses + 1;
        return None;
      }
      hits := hits + 1;
      var metadata := entries[key].metadata["cached" := Bool(true)]["cache_key" := Str(w.shortHash(key))];
      cached := Some(entries[key].(metadata := metadata));
    }

    method StoreCachedResponse(r: Request, provider: string, response: Response)
      modifies this`entries, this`stores
      ensures State() == Store(w, old(State()), r, provider, response)
    {
      if !Caches(w, r) { return; }
      entries := entries[KeyOf(r, provider) := response];
      stores := stores + 1;
    }

    /** Calls a provider until it answers, fails for good, or has been tried often enough. */
    method CompleteWithRetries(call: Call) returns (outcome: Outcome)
      modifies this`calls
      ensures (State(), outcome) == Complete(w, old(State()), call, 1)
    {
      ghost var s := State();
      var attempt := 1;
      while true
        invariant attempt >= 1 && State() == s.(calls := calls)
        invariant Complete(w, s, call, 1) == Complete(w, State(), call, attempt)
        decreases w.policy.maxAttempts - attempt
      {
        outcome := w.complete(call, |calls|);
        calls := calls + [call];
        if outcome.Answered? { return; }
        if !Retryable(w.policy, outcome.failure.category) || attempt >= w.policy.maxAttempts { return; }
        attempt := attempt + 1;
      }
    }

    method RecordResponseCost(response: Response)
      modifies this`costs
      ensures State() == RecordCost(w, old(State()), response)
    {
      if response.usage.Some? && w.billable(response.provider, response.model, response.usage.value) {
        costs := costs + [Cost(response.provider, response.model, response.usage.value)];
      }
    }

    /** Accounts for an answer, and caches it unless the budget is then overdrawn. */
    method AcceptResponse(call: Call, response: Response) returns (r: Result<Response, ChatError>)
      modifies this
      ensures (State(), r) == Accept(w, old(State()), call, response)
    {
      hide KeyOf;
      RecordResponseCost(response);
      ledger := ApplyUsage(ledger, response.usage);
      if Overdrawn(w.budget, ledger) { return Err(OverBudget); }
      StoreCachedResponse(call.request, call.provider, response);
      r := Ok(response);
    }

    method ChatSingleProvider(provider: string, r: Request) returns (result: Result<Response, ChatError>)
      modifies this
      ensures (State(), result) == ChatSingle(w, old(State()), provider, r)
    {
      hide Lookup, Complete, Accept, Refuses;
      if Refuses(w.budget, ledger, MaxTokens(r.metadata)) { return Err(OverBudget); }
      var cached := GetCachedResponse(r, provider);
      if cached.Some? { return Ok(cached.value); }
      var outcome := CompleteWithRetries(Call(provider, r));
      match outcome
      case Answered(response) => result := AcceptResponse(Call(provider, r), response);
      case Threw(f) => result := Err(ProviderFailed(if f.FromProvider() then f else Failure(f.category, ProviderError)));
    }

    /** Tries the providers of a route in order. */
    method ChatWithRoute(route: seq<string>, r: Request) returns (result: Result<Response, ChatError>)
      modifies this
      ensures (State(), result) == Routed(w, old(State()), route, r)
    {
      hide Lookup, Complete, Accept;
      ghost var s := State();
      assert route[0..] == route;
      for i := 0 to |route|
        invariant Routed(w, s, route, r) == Routed(w, State(), route[i..], r)
      {
        assert route[i..][0] == route[i] && route[i..][1..] == route[i + 1..];
        var cached := GetCachedResponse(r, route[i]);
        if cached.Some? { return Ok(cached.value); }
        var outcome := CompleteWithRetries(Call(route[i], r));
        if outcome.Answered? {
          result := AcceptResponse(Call(route[i], r), outcome.response);
          return;
        }
        if !GoesOn(w, outcome.failure) { return Err(ProviderFailed(Failure(outcome.failure.category, ProviderError))); }
      }
      result := Err(AllFailed);
    }

    /** Selects the providers that a request may reach. */
    method SelectRoute(provider: Option<string>) returns (route: Result<seq<string>, ChatError>)
      ensures route == RouteOf(w, provider)
    {
      if w.single.Some? {
        if provider.Some? { return Err(NoProvider); }
        return Ok([w.single.value]);
      }
      var selected := if provider.Some? then provider else w.default;
      if selected.None? { return Err(NoProvider); }
      if selected.value !in w.registry { return Err(UnknownProvider); }
      var names := [selected.value] + w.fallbacks;
      var attempts := [];
      assert names[..0] == [];
      for i := 0 to |names|
        invariant attempts == OrderedUnique(names[..i])
      {
        assert names[..i + 1][..i] == names[..i];
        if names[i] !in attempts { attempts := attempts + [names[i]]; }
      }
      assert names[..|names|] == names;
      route := Ok(attempts);
    }

    method ChatRequest(provider: Option<string>, r: Request) returns (result: Result<Response, ChatError>)
      modifies this
      ensures (State(), result) == Chat(w, old(State()), provider, r)
    {
      hide Routed, ChatSingle, Refuses, RouteOf;
      var route := SelectRoute(provider);
      if route.Err? { return Err(route.error); }
      if w.single.Some? {
        result := ChatSingleProvider(w.single.value, r);
        return;
      }
      if Refuses(w.budget, ledger, MaxTokens(r.metadata)) { return Err(OverBudget); }
      result := ChatWithRoute(route.value, r);
    }

    /** A stream request: the budget is checked now, the stream runs when its caller drains it. */
    method StreamChat(provider: Option<string>, sw: S.World, maxTokens: Option<nat>) returns (stream: Result<B.Pending, ChatError>)
      ensures stream == B.OpenStream(w, State(), B.OpenOp(provider, sw, maxTokens))
    {
      var route := SelectRoute(provider);
      if route.Err? { return Err(route.error); }
      if Refuses(w.budget, ledger, maxTokens) { return Err(OverBudget); }
      stream := Ok(B.Pending(sw, route.value, maxTokens));
    }

    /**
      A stream as its caller sees it who asks for `nexts` chunks. Cost and usage are recorded on
      completion; a budget error may follow a complete stream.
    */
    method DrainStream(p: B.Pending, nexts: nat) returns (s: S.Streamed, overdrawn: bool)
      modifies this`ledger, this`costs
      ensures s == S.Stream(p.world, p.route, nexts) && State() == B.Drained(w, old(State()), p.world, s)
      ensures overdrawn <==> s.finish.Done? && s.finish.usage.Some? && Overdrawn(w.budget, ledger)
    {
      hide S.Route;
      overdrawn := false;
      if nexts == 0 { return S.Streamed([], [], S.Stopped), false; }
      s := StreamRoute(p.world, p.route, nexts);
      if s.finish.Done? && s.finish.usage.Some? {
        if s.openings != [] {
          var provider := p.world.ownName(s.openings[|s.openings| - 1].provider);
          if w.billable(provider, p.world.model, s.finish.usage.value) {
            costs := costs + [Cost(provider, p.world.model, s.finish.usage.value)];
          }
        }
        ledger := ApplyUsage(ledger, s.finish.usage);
        overdrawn := Overdrawn(w.budget, ledger);
      }
    }
  }

  // ----- Streams -----

  /** What happened after the openings `earlier`. */
  function AfterOpenings(earlier: seq<S.Opening>, s: S.Streamed): S.Streamed {
    s.(openings := earlier + s.openings)
  }

  /** Opens streams of one provider until one has a chunk, ends, or fails for good. */
  method StreamWithRetries(w: S.World, provider: string, nexts: nat) returns (s: S.Streamed)
    requires nexts >= 1
    ensures s == S.StreamProvider(w, provider, nexts)
  {
    if provider !in w.supports { return S.Streamed([], [], S.Raised(Failure("unsupported", StreamingUnsupported))); }
    var openings := [];
    for attempt := 1 to w.policy.maxAttempts + 1
      invariant S.Attempts(w, provider, 1, nexts) == AfterOpenings(openings, S.Attempts(w, provider, attempt, nexts))
    {
      var script := w.scripts(provider, attempt);
      var chunks := S.FillAll(script.chunks, provider, w.model);
      openings := openings + [S.Opening(provider, attempt)];
      var received, stopped := Deliver(chunks, nexts);
      if stopped { return S.Streamed(received, openings, S.Stopped); }
      if script.failure.None? {
        var usage := LastUsage(chunks);
        return S.Streamed(received, openings, S.Done(usage));
      }
      if received != [] { return S.Streamed(received, openings, S.Raised(S.Interrupted())); }
      if !Retryable(w.policy, script.failure.value.category) || attempt >= w.policy.maxAttempts {
        return S.Streamed([], openings, S.Raised(script.failure.value));
      }
    }
    s := S.Streamed([], openings, S.Exhausted);
  }

  /** Yields chunks until there are no more, or the caller stops asking. */
  method Deliver(chunks: seq<S.Chunk>, nexts: nat) returns (received: seq<S.Chunk>, stopped: bool)
    requires nexts >= 1
    ensures stopped <==> nexts <= |chunks|
    ensures received == if stopped then chunks[..nexts] else chunks
  {
    received := [];
    for i := 0 to |chunks|
      invariant received == chunks[..i] && i < nexts
    {
      received := received + [chunks[i]];
      if i + 1 == nexts { return received, true; }
    }
    stopped := false;
  }

  /** The usage that the stream loop remembers. */
  method LastUsage(chunks: seq<S.Chunk>) returns (usage: Option<Usage>)
    ensures usage == S.FinalUsage(chunks)
  {
    usage := None;
    assert chunks[..0] == [];
    for i := 0 to |chunks|
      invariant usage == S.FinalUsage(chunks[..i])
    {
      assert chunks[..i + 1][..i] == chunks[..i];
      if chunks[i].done && chunks[i].usage.Some? {
        usage := chunks[i].usage;
      }
    }
    assert chunks[..|chunks|] == chunks;
  }

  /** What happened after the stream `s` failed in silence. */
  function AfterStream(received: seq<S.Chunk>, openings: seq<S.Opening>, s: S.Streamed): S.Streamed {
    S.Streamed(received + s.received, openings + s.openings, s.finish)
  }

  /** Streams from the first provider of the route that does not fail in silence. */
  method StreamRoute(w: S.World, route: seq<string>, nexts: nat) returns (s: S.Streamed)
    requires nexts >= 1
    ensures s == S.Route(w, route, nexts)
  {
    hide S.StreamProvider;
    var received, openings := [], [];
    assert route[0..] == route;
    for i := 0 to |route|
      invariant S.Route(w, route, nexts) == AfterStream(received, openings, S.Route(w, route[i..], nexts))
    {
      assert route[i..][0] == route[i] && route[i..][1..] == route[i + 1..];
      var one := StreamWithRetries(w, route[i], nexts);
      received, openings := received + one.received, openings + one.openings;
      if !one.finish.Raised? || one.finish.failure.kind.BudgetExceeded? { return S.Streamed(received, openings, one.finish); }
      if i + 1 == |route| || !S.FallsBack(w.policy, one.finish.failure) {
        return S.Streamed(received, openings, S.Raised(S.Reported(one.finish.failure)));
      }
    }
    s := S.Streamed(received, openings, S.Exhausted);
  }
}
