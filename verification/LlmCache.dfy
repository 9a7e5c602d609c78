/** When the cache is transparent: which responses it may change under a budget, and that hits change no ledger. */
module LlmCache {
  import opened Common
  import opened LlmTypes
  import opened PyValues
  import opened LlmChat

  /** What a provider call yields depends only on the fields in the cache key. */
  ghost predicate Deterministic(w: World) {
    forall a: Call, b: Call, i: nat, j: nat ::
      a.provider == b.provider && KeyOf(a.request, a.provider) == KeyOf(b.request, b.provider) ==> w.complete(a, i) == w.complete(b, j)
  }

  /** Every entry is what the provider would answer. */
  ghost predicate Sound(w: World, s: State) {
    forall k, r: Request, i: nat | k in s.entries && KeyOf(r, k.provider) == k ::
      w.complete(Call(k.provider, r), i) == Answered(s.entries[k])
  }

  /** The same result, up to response metadata. */
  predicate Same(a: Result<Response, ChatError>, b: Result<Response, ChatError>) {
    match a
    case Ok(response) => b.Ok? && b.value == response.(metadata := b.value.metadata)
    case Err(error) => b == Err(error)
  }

  /** The same configuration without a cache. */
  function Uncached(w: World): World {
    w.(caching := false)
  }

  // ----- Provider calls -----

  /** Trying again does not change a deterministic outcome. */
  lemma {:induction false} CompleteIs(w: World, s: State, call: Call, attempt: nat, i: nat)
    requires Deterministic(w)
    ensures Complete(w, s, call, attempt).1 == w.complete(call, i)
    ensures Complete(w, s, call, attempt).0 == s.(calls := Complete(w, s, call, attempt).0.calls)
    decreases w.policy.maxAttempts - attempt
  {
    assert w.complete(call, |s.calls|) == w.complete(call, i);
    if Retryable(w.policy, if w.complete(call, i).Threw? then w.complete(call, i).failure.category else "")
       && w.complete(call, i).Threw? && attempt < w.policy.maxAttempts {
      CompleteIs(w, s.(calls := s.calls + [call]), call, attempt + 1, i);
    }
  }

  /** The same calls with and without a cache, since neither sees it. */
  lemma DeterministicUncached(w: World)
    requires Deterministic(w)
    ensures Deterministic(Uncached(w))
  {
    assert Uncached(w).complete == w.complete;
  }

  lemma LookupIsSound(w: World, s: State, r: Request, provider: string, i: nat)
    requires Sound(w, s)
    ensures var (t, cached) := Lookup(w, s, r, provider);
            && t == s.(hits := t.hits, misses := t.misses) && Sound(w, t)
            && (cached.Some? ==> w.complete(Call(provider, r), i).Answered?
                                 && Same(Ok(cached.value), Ok(w.complete(Call(provider, r), i).response)))
  {
    var k := KeyOf(r, provider);
    if k in s.entries {
      assert KeyOf(r, k.provider) == k;
      assert w.complete(Call(k.provider, r), i) == Answered(s.entries[k]);
    }
    SoundFrame(w, s, Lookup(w, s, r, provider).0);
  }

  lemma SoundFrame(w: World, s: State, t: State)
    requires Sound(w, s) && t.entries == s.entries
    ensures Sound(w, t)
  {
  }

  lemma StoreIsSound(w: World, s: State, r: Request, provider: string, i: nat)
    requires Deterministic(w) && Sound(w, s) && w.complete(Call(provider, r), i).Answered?
    ensures Sound(w, Store(w, s, r, provider, w.complete(Call(provider, r), i).response))
  {
    var response := w.complete(Call(provider, r), i).response;
    var t := Store(w, s, r, provider, response);
    forall k, q: Request, j: nat | k in t.entries && KeyOf(q, k.provider) == k
      ensures w.complete(Call(k.provider, q), j) == Answered(t.entries[k])
    {
      if k == KeyOf(r, provider) && Caches(w, r) {
        assert w.complete(Call(k.provider, q), j) == w.complete(Call(provider, r), i);
      }
    }
  }

  // ----- What a chat answers -----

  /** The answer of the first provider on the route that gives one, and that provider. */
  datatype Answer = Answer(provider: string, response: Response)

  function Answering(w: World, route: seq<string>, r: Request): Option<Answer> {
    if route == [] then None
    else match w.complete(Call(route[0], r), 0)
         case Answered(response) => Some(Answer(route[0], response))
         case Threw(f) => if GoesOn(w, f) then Answering(w, route[1..], r) else None
  }

  predicate Stored(w: World, s: State, r: Request, provider: string) {
    Caches(w, r) && KeyOf(r, provider) in s.entries
  }

  /** The answer has to be paid for, and overdraws the budget. */
  predicate Overspends(w: World, s: State, route: seq<string>, r: Request) {
    var a := Answering(w, route, r);
    a.Some? && !Stored(w, s, r, a.value.provider) && Overdrawn(w.budget, ApplyUsage(s.ledger, a.value.response.usage))
  }

  /** The ledger after the providers of a route were asked. */
  function Charged(w: World, s: State, route: seq<string>, r: Request): Ledger {
    var a := Answering(w, route, r);
    if a.Some? && !Stored(w, s, r, a.value.provider) then ApplyUsage(s.ledger, a.value.response.usage) else s.ledger
  }

  /** What the providers of a route answer, whatever the budget and the cache. */
  function Plain(w: World, route: seq<string>, r: Request): Result<Response, ChatError> {
    if route == [] then Err(AllFailed)
    else match w.complete(Call(route[0], r), 0)
         case Answered(response) => Ok(response)
         case Threw(f) =>
           if w.single.Some? then Err(ProviderFailed(if f.FromProvider() then f else Failure(f.category, ProviderError)))
           else if GoesOn(w, f) then Plain(w, route[1..], r)
           else Err(ProviderFailed(Failure(f.category, ProviderError)))
  }

  /** The chat ends with a budget error: it is refused, or its answer overdraws the budget. */
  predicate Exceeds(w: World, s: State, provider: Option<string>, r: Request) {
    var route := RouteOf(w, provider);
    route.Ok? && (Refuses(w.budget, s.ledger, MaxTokens(r.metadata)) || Overspends(w, s, route.value, r))
  }

  /** What a chat yields, up to response metadata. */
  function Expected(w: World, s: State, provider: Option<string>, r: Request): Result<Response, ChatError> {
    if Exceeds(w, s, provider, r) then Err(OverBudget)
    else match RouteOf(w, provider)
         case Err(error) => Err(error)
         case Ok(route) => Plain(w, route, r)
  }

  /** Accepting a deterministic answer. */
  lemma AcceptIs(w: World, s: State, call: Call, response: Response, i: nat)
    requires Deterministic(w) && Sound(w, s) && w.complete(call, i) == Answered(response)
    ensures var (t, result) := Accept(w, s, call, response);
            && t.ledger == ApplyUsage(s.ledger, response.usage) && Sound(w, t)
            && result == if Overdrawn(w.budget, t.ledger) then Err(OverBudget) else Ok(response)
  {
    var t := RecordCost(w, s, response);
    var u := t.(ledger := ApplyUsage(t.ledger, response.usage));
    SoundFrame(w, s, u);
    hide Sound, Deterministic;
    StoreIsSound(w, u, call.request, call.provider, i);
  }

  /** One provider: a stored answer, a new one, or a failure. */
  lemma OneProvider(w: World, s: State, provider: string, r: Request)
    requires Deterministic(w) && Sound(w, s)
    ensures var (t, cached) := Lookup(w, s, r, provider);
            var (u, outcome) := Complete(w, t, Call(provider, r), 1);
            && Sound(w, t) && Sound(w, u) && t.ledger == u.ledger == s.ledger && t.entries == u.entries == s.entries
            && outcome == w.complete(Call(provider, r), 0)
            && (cached.Some? <==> Stored(w, s, r, provider))
            && (cached.Some? ==> outcome.Answered? && Same(Ok(cached.value), Ok(outcome.response)))
  {
    LookupIsSound(w, s, r, provider, 0);
    var t := Lookup(w, s, r, provider).0;
    CompleteIs(w, t, Call(provider, r), 1, 0);
    SoundFrame(w, t, Complete(w, t, Call(provider, r), 1).0);
  }

  lemma SameRefl(a: Result<Response, ChatError>)
    ensures Same(a, a)
  {
  }

  lemma {:induction false} RoutedIs(w: World, s: State, route: seq<string>, r: Request)
    requires Deterministic(w) && Sound(w, s) && w.single.None?
    ensures var (t, result) := Routed(w, s, route, r);
            && Same(result, if Overspends(w, s, route, r) then Err(OverBudget) else Plain(w, route, r))
            && t.ledger == Charged(w, s, route, r) && Sound(w, t)
    decreases |route|
  {
    hide Deterministic, Sound, Accept, Complete, Lookup, Stored, Same;
    if route == [] {
      SameRefl(Err(AllFailed));
    } else {
      var call := Call(route[0], r);
      OneProvider(w, s, route[0], r);
      var t := Lookup(w, s, r, route[0]).0;
      var u := Complete(w, t, call, 1).0;
      match w.complete(call, 0)
      case Answered(response) =>
        AcceptIs(w, u, call, response, 0);
        SameRefl(Accept(w, u, call, response).1);
      case Threw(f) =>
        SameRefl(Plain(w, route, r));
        if GoesOn(w, f) {
          RoutedIs(w, u, route[1..], r);
          SameStored(w, s, u, r);
        }
    }
  }

  lemma SameStored(w: World, s: State, t: State, r: Request)
    requires t.entries == s.entries
    ensures forall provider :: Stored(w, t, r, provider) <==> Stored(w, s, r, provider)
  {
  }

  lemma SingleIs(w: World, s: State, provider: string, r: Request)
    requires Deterministic(w) && Sound(w, s) && w.single == Some(provider)
    requires !Refuses(w.budget, s.ledger, MaxTokens(r.metadata))
    ensures var (t, result) := ChatSingle(w, s, provider, r);
            && Same(result, if Overspends(w, s, [provider], r) then Err(OverBudget) else Plain(w, [provider], r))
            && t.ledger == Charged(w, s, [provider], r) && Sound(w, t)
  {
    hide Deterministic, Sound, Accept, Complete, Lookup, Stored, Same;
    var call := Call(provider, r);
    OneProvider(w, s, provider, r);
    var u := Complete(w, Lookup(w, s, r, provider).0, call, 1).0;
    assert Answering(w, [provider][1..], r) == None;
    match w.complete(call, 0)
    case Answered(response) =>
      AcceptIs(w, u, call, response, 0);
      SameRefl(Accept(w, u, call, response).1);
    case Threw(f) =>
      SameRefl(Plain(w, [provider], r));
  }

  /** A chat yields what is expected, and charges the ledger for it unless it was refused or stored. */
  lemma ChatIs(w: World, s: State, provider: Option<string>, r: Request)
    requires Deterministic(w) && Sound(w, s)
    ensures var (t, result) := Chat(w, s, provider, r);
            && Same(result, Expected(w, s, provider, r)) && Sound(w, t)
            && t.ledger == if RouteOf(w, provider).Err? || Refuses(w.budget, s.ledger, MaxTokens(r.metadata)) then s.ledger
                           else Charged(w, s, RouteOf(w, provider).value, r)
  {
    hide Deterministic, Sound, Routed, Overspends, Plain, Refuses, Charged;
    var route := RouteOf(w, provider);
    if route.Ok? && !Refuses(w.budget, s.ledger, MaxTokens(r.metadata)) {
      if w.single.Some? {
        SingleIs(w, s, w.single.value, r);
      } else {
        RoutedIs(w, s, route.value, r);
      }
    }
  }

  // ----- With and without the cache -----

  /** The providers do not see the cache. */
  lemma PlainUncached(w: World, route: seq<string>, r: Request)
    ensures Plain(Uncached(w), route, r) == Plain(w, route, r) && Answering(Uncached(w), route, r) == Answering(w, route, r)
    decreases |route|
  {
    if route != [] {
      PlainUncached(w, route[1..], r);
    }
  }

  lemma SameTwo(a: Result<Response, ChatError>, b: Result<Response, ChatError>, x: Result<Response, ChatError>, y: Result<Response, ChatError>)
    requires Same(a, x) && Same(b, y)
    requires x.Err? && y.Err? ==> x == y || (x == Err(OverBudget)) != (y == Err(OverBudget))
    requires x.Ok? && y.Ok? ==> x == y
    ensures Same(a, b) <==> x == y
  {
  }

  lemma {:induction false} PlainIsNotOverBudget(w: World, route: seq<string>, r: Request)
    ensures Plain(w, route, r) != Err(OverBudget)
    decreases |route|
  {
    if route != [] {
      PlainIsNotOverBudget(w, route[1..], r);
    }
  }

  /**
    A chat answers the same with and without the cache exactly when both or neither of the
    runtimes end it with a budget error.
  */
  lemma ChatAgreesExactly(w: World, s: State, z: State, provider: Option<string>, r: Request)
    requires Deterministic(w) && Sound(w, s) && Sound(Uncached(w), z)
    ensures Same(Chat(w, s, provider, r).1, Chat(Uncached(w), z, provider, r).1)
       <==> (Exceeds(w, s, provider, r) <==> Exceeds(Uncached(w), z, provider, r))
  {
    hide Deterministic, Sound, Same, Chat, Exceeds, Plain;
    var v := Uncached(w);
    DeterministicUncached(w);
    ChatIs(w, s, provider, r);
    ChatIs(v, z, provider, r);
    assert RouteOf(v, provider) == RouteOf(w, provider);
    if RouteOf(w, provider).Ok? {
      PlainUncached(w, RouteOf(w, provider).value, r);
      PlainIsNotOverBudget(w, RouteOf(w, provider).value, r);
    }
    SameTwo(Chat(w, s, provider, r).1, Chat(v, z, provider, r).1, Expected(w, s, provider, r), Expected(v, z, provider, r));
  }

  // ----- Runs -----

  datatype Op = ChatOp(provider: Option<string>, request: Request) | ClearOp

  /** The results of a run, in order. */
  function Answers(w: World, s: State, ops: seq<Op>): seq<Result<Response, ChatError>>
    decreases |ops|
  {
    if ops == [] then []
    else
      match ops[0]
      case ClearOp => Answers(w, Clear(s), ops[1..])
      case ChatOp(provider, r) => var (t, result) := Chat(w, s, provider, r); [result] + Answers(w, t, ops[1..])
  }

  predicate AllSame(a: seq<Result<Response, ChatError>>, b: seq<Result<Response, ChatError>>) {
    |a| == |b| && forall i | 0 <= i < |a| :: Same(a[i], b[i])
  }

  /** At every chat of the run, both or neither of the runtimes end it with a budget error. */
  predicate BudgetsAgree(w: World, s: State, z: State, ops: seq<Op>)
    decreases |ops|
  {
    if ops == [] then true
    else
      match ops[0]
      case ClearOp => BudgetsAgree(w, Clear(s), Clear(z), ops[1..])
      case ChatOp(provider, r) =>
        && (Exceeds(w, s, provider, r) <==> Exceeds(Uncached(w), z, provider, r))
        && BudgetsAgree(w, Chat(w, s, provider, r).0, Chat(Uncached(w), z, provider, r).0, ops[1..])
  }

  lemma ClearIsSound(w: World, s: State)
    ensures Sound(w, Clear(s))
  {
  }

  lemma AllSameCons(a: Result<Response, ChatError>, b: Result<Response, ChatError>,
                    xs: seq<Result<Response, ChatError>>, ys: seq<Result<Response, ChatError>>)
    ensures AllSame([a] + xs, [b] + ys) <==> Same(a, b) && AllSame(xs, ys)
  {
    hide Same;
    if AllSame([a] + xs, [b] + ys) {
      assert Same(([a] + xs)[0], ([b] + ys)[0]);
      forall i | 0 <= i < |xs|
        ensures Same(xs[i], ys[i])
      {
        assert Same(([a] + xs)[i + 1], ([b] + ys)[i + 1]);
      }
    }
  }

  /**
    Under any budget, a run with the cache and the run without it answer the same exactly when
    at every chat both or neither exceed their budgets.
  */
  lemma {:induction false} RunsAgreeExactly(w: World, s: State, z: State, ops: seq<Op>)
    requires Deterministic(w) && Sound(w, s) && Sound(Uncached(w), z)
    ensures AllSame(Answers(w, s, ops), Answers(Uncached(w), z, ops)) <==> BudgetsAgree(w, s, z, ops)
    decreases |ops|
  {
    hide Deterministic, Sound, Same, Chat, Exceeds, AllSame;
    if ops == [] {
      NothingDiffers();
    } else {
      match ops[0]
      case ClearOp =>
        ClearIsSound(w, s);
        ClearIsSound(Uncached(w), z);
        RunsAgreeExactly(w, Clear(s), Clear(z), ops[1..]);
      case ChatOp(provider, r) =>
        DeterministicUncached(w);
        ChatIs(w, s, provider, r);
        ChatIs(Uncached(w), z, provider, r);
        ChatAgreesExactly(w, s, z, provider, r);
        var t, y := Chat(w, s, provider, r).0, Chat(Uncached(w), z, provider, r).0;
        RunsAgreeExactly(w, t, y, ops[1..]);
        AllSameCons(Chat(w, s, provider, r).1, Chat(Uncached(w), z, provider, r).1,
                    Answers(w, t, ops[1..]), Answers(Uncached(w), y, ops[1..]));
    }
  }

  lemma NothingDiffers()
    ensures AllSame([], [])
  {
  }

  function Fresh(): State {
    State(Empty(), [], map[], 0, 0, 0, [])
  }

  lemma FreshIsSound(w: World)
    ensures Sound(w, Fresh())
  {
  }

  // ----- Budgets that never refuse -----

  predicate Lenient(w: World) {
    w.budget.None? || !w.budget.value.strict
  }

  lemma {:induction false} LenientAgrees(w: World, s: State, z: State, ops: seq<Op>)
    requires Lenient(w)
    ensures BudgetsAgree(w, s, z, ops)
    decreases |ops|
  {
    hide Chat;
    if ops != [] {
      match ops[0]
      case ClearOp => LenientAgrees(w, Clear(s), Clear(z), ops[1..]);
      case ChatOp(provider, r) =>
        LenientAgrees(w, Chat(w, s, provider, r).0, Chat(Uncached(w), z, provider, r).0, ops[1..]);
    }
  }

  /**
    Cache transparency: for providers whose outcome depends only on the fields of the cache key,
    and with no token budget or one that only warns, every run of chats and clears, with
    opt-outs, retries and fallbacks, gives the same results with and without the cache, up to
    response metadata.
  */
  lemma CacheIsTransparent(w: World, ops: seq<Op>)
    requires Deterministic(w) && Lenient(w)
    ensures AllSame(Answers(w, Fresh(), ops), Answers(Uncached(w), Fresh(), ops))
  {
    FreshIsSound(w);
    FreshIsSound(Uncached(w));
    LenientAgrees(w, Fresh(), Fresh(), ops);
    RunsAgreeExactly(w, Fresh(), Fresh(), ops);
  }

  // ----- Strict budgets -----

  /** At most as much used. */
  predicate Leq(a: Ledger, b: Ledger) {
    a.prompt <= b.prompt && a.completion <= b.completion && a.total <= b.total
  }

  lemma RefusesMore(b: Option<Budget>, l: Ledger, m: Ledger, maxTokens: Option<nat>)
    requires Leq(l, m)
    ensures Refuses(b, l, maxTokens) ==> Refuses(b, m, maxTokens)
    ensures Overdrawn(b, l) ==> Overdrawn(b, m)
  {
    if b.Some? {
      assert CheckBudget(b.value, l) <= CheckBudget(b.value, m);
      assert CheckRequest(b.value, l, maxTokens) <= CheckRequest(b.value, m, maxTokens);
      if Refuses(b, l, maxTokens) {
        var kind :| kind in CheckRequest(b.value, l, maxTokens);
        assert kind in CheckRequest(b.value, m, maxTokens);
      }
      if Overdrawn(b, l) {
        var kind :| kind in CheckBudget(b.value, l);
        assert kind in CheckBudget(b.value, m);
      }
    }
  }

  /** The runtime without a cache pays at least as much, as long as it is not refused. */
  lemma ChargedLeq(w: World, s: State, z: State, route: seq<string>, r: Request)
    requires Leq(s.ledger, z.ledger)
    ensures Leq(Charged(w, s, route, r), Charged(Uncached(w), z, route, r))
    ensures Overspends(w, s, route, r) ==> Overspends(Uncached(w), z, route, r)
  {
    PlainUncached(w, route, r);
    var a := Answering(w, route, r);
    if a.Some? {
      RefusesMore(w.budget, ApplyUsage(s.ledger, a.value.response.usage), ApplyUsage(z.ledger, a.value.response.usage), None);
    }
  }

  /** A chat that the runtime without a cache does not end with a budget error. */
  lemma AffordedChat(w: World, s: State, z: State, provider: Option<string>, r: Request)
    requires Deterministic(w) && Sound(w, s) && Sound(Uncached(w), z) && Leq(s.ledger, z.ledger)
    requires Chat(Uncached(w), z, provider, r).1 != Err(OverBudget)
    ensures Same(Chat(w, s, provider, r).1, Chat(Uncached(w), z, provider, r).1)
    ensures Leq(Chat(w, s, provider, r).0.ledger, Chat(Uncached(w), z, provider, r).0.ledger)
  {
    hide Deterministic, Sound, Chat, Overspends, Plain, Refuses, Charged, Same, Leq;
    var v := Uncached(w);
    DeterministicUncached(w);
    ChatIs(w, s, provider, r);
    ChatIs(v, z, provider, r);
    ChatAgreesExactly(w, s, z, provider, r);
    SameOverBudget(Chat(v, z, provider, r).1, Expected(v, z, provider, r));
    assert RouteOf(v, provider) == RouteOf(w, provider);
    if RouteOf(w, provider).Ok? {
      ChargedLeq(w, s, z, RouteOf(w, provider).value, r);
      RefusesMore(w.budget, s.ledger, z.ledger, MaxTokens(r.metadata));
    }
  }

  lemma SameOverBudget(a: Result<Response, ChatError>, b: Result<Response, ChatError>)
    requires Same(a, b)
    ensures a == Err(OverBudget) <==> b == Err(OverBudget)
  {
  }

  /** The answers before the first budget error. */
  function Afforded(rs: seq<Result<Response, ChatError>>): seq<Result<Response, ChatError>> {
    if rs == [] || rs[0] == Err(OverBudget) then [] else [rs[0]] + Afforded(rs[1..])
  }

  lemma {:induction false} AgreeWhileAfforded(w: World, s: State, z: State, ops: seq<Op>)
    requires Deterministic(w) && Sound(w, s) && Sound(Uncached(w), z) && Leq(s.ledger, z.ledger)
    ensures var cached, plain := Answers(w, s, ops), Afforded(Answers(Uncached(w), z, ops));
            |plain| <= |cached| && AllSame(cached[..|plain|], plain)
    decreases |ops|
  {
    hide Deterministic, Sound, Same, Chat, AllSame, Leq;
    NothingDiffers();
    if ops != [] {
      match ops[0]
      case ClearOp =>
        ClearIsSound(w, s);
        ClearIsSound(Uncached(w), z);
        AgreeWhileAfforded(w, Clear(s), Clear(z), ops[1..]);
      case ChatOp(provider, r) =>
        var (t, a) := Chat(w, s, provider, r);
        var (y, b) := Chat(Uncached(w), z, provider, r);
        var rest := Answers(Uncached(w), y, ops[1..]);
        assert ([b] + rest)[1..] == rest;
        if b != Err(OverBudget) {
          DeterministicUncached(w);
          ChatIs(w, s, provider, r);
          ChatIs(Uncached(w), z, provider, r);
          AffordedChat(w, s, z, provider, r);
          AgreeWhileAfforded(w, t, y, ops[1..]);
          var plain, cached := Afforded(rest), Answers(w, t, ops[1..]);
          AllSameCons(a, b, cached[..|plain|], plain);
          assert ([a] + cached)[..1 + |plain|] == [a] + cached[..|plain|];
        }
    }
  }

  /**
    Under any budget the cache changes nothing before the run without it meets its first budget
    error; in particular whole runs agree when it meets none.
  */
  lemma TransparentWhileAfforded(w: World, ops: seq<Op>)
    requires Deterministic(w)
    ensures var cached, plain := Answers(w, Fresh(), ops), Answers(Uncached(w), Fresh(), ops);
            && |Afforded(plain)| <= |cached| && AllSame(cached[..|Afforded(plain)|], Afforded(plain))
            && (Err(OverBudget) !in plain ==> AllSame(cached, plain))
  {
    FreshIsSound(w);
    FreshIsSound(Uncached(w));
    AgreeWhileAfforded(w, Fresh(), Fresh(), ops);
    SameLength(w, Fresh(), Fresh(), ops);
    var cached, plain := Answers(w, Fresh(), ops), Answers(Uncached(w), Fresh(), ops);
    if Err(OverBudget) !in plain {
      AllAfforded(plain);
      assert cached[..|plain|] == cached;
    }
  }

  lemma {:induction false} AllAfforded(rs: seq<Result<Response, ChatError>>)
    requires Err(OverBudget) !in rs
    ensures Afforded(rs) == rs
    decreases |rs|
  {
    if rs != [] {
      AllAfforded(rs[1..]);
    }
  }

  lemma {:induction false} SameLength(w: World, s: State, z: State, ops: seq<Op>)
    ensures |Answers(w, s, ops)| == |Answers(Uncached(w), z, ops)|
    decreases |ops|
  {
    hide Chat;
    if ops != [] {
      match ops[0]
      case ClearOp => SameLength(w, Clear(s), Clear(z), ops[1..]);
      case ChatOp(provider, r) => SameLength(w, Chat(w, s, provider, r).0, Chat(Uncached(w), z, provider, r).0, ops[1..]);
    }
  }

  // ----- Hits -----

  /** The response came from the cache. */
  predicate FromCache(w: World, s: State, r: Request, provider: string) {
    Lookup(w, s, r, provider).1.Some?
  }

  /** A chat that finds its answer in the cache calls no provider and changes neither ledger. */
  lemma HitIsFree(w: World, s: State, r: Request, provider: string)
    requires FromCache(w, s, r, provider) && !Refuses(w.budget, s.ledger, MaxTokens(r.metadata))
    ensures var (t, result) := ChatSingle(w, s, provider, r);
            && result.Ok? && t.ledger == s.ledger && t.costs == s.costs && t.calls == s.calls && t.hits == s.hits + 1
    ensures forall rest :: var (t, result) := Routed(w, s, [provider] + rest, r);
              result.Ok? && t.ledger == s.ledger && t.costs == s.costs && t.calls == s.calls && t.hits == s.hits + 1
  {
  }

  /** Whatever a chat does, it changes the ledgers only after a provider call. */
  lemma {:induction false} RoutedWithoutCalls(w: World, s: State, route: seq<string>, r: Request)
    ensures s.calls <= Routed(w, s, route, r).0.calls
    ensures Routed(w, s, route, r).0.calls == s.calls ==>
              Routed(w, s, route, r).0.ledger == s.ledger && Routed(w, s, route, r).0.costs == s.costs
    decreases |route|
  {
    if route != [] {
      var (t, cached) := Lookup(w, s, r, route[0]);
      if cached.None? {
        CompleteCalls(w, t, Call(route[0], r), 1);
        var (u, outcome) := Complete(w, t, Call(route[0], r), 1);
        if outcome.Threw? && GoesOn(w, outcome.failure) {
          RoutedWithoutCalls(w, u, route[1..], r);
        }
      }
    }
  }

  lemma {:induction false} CompleteCalls(w: World, s: State, call: Call, attempt: nat)
    ensures var t := Complete(w, s, call, attempt).0;
            t == s.(calls := t.calls) && s.calls < t.calls
    decreases w.policy.maxAttempts - attempt
  {
    var t := s.(calls := s.calls + [call]);
    var outcome := w.complete(call, |s.calls|);
    if outcome.Threw? && Retryable(w.policy, outcome.failure.category) && attempt < w.policy.maxAttempts {
      CompleteCalls(w, t, call, attempt + 1);
    }
  }
}
