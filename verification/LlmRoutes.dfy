/**
  Which providers a request reaches, in which order and how often, and what is written down, in
  terms of the configuration, the request and the providers' outcomes.
*/
module LlmRoutes {
  import opened Common
  import opened LlmTypes
  import opened PyValues
  import opened LlmChat

  // ----- The route -----

  /** The provider that the caller names, or else the default. */
  function Selected(w: World, provider: Option<string>): Option<string> {
    match provider
    case Some(_) => provider
    case None => w.default
  }

  /** Each name is new. */
  predicate NoRepeats(names: seq<string>) {
    forall i, j | 0 <= i < j < |names| :: names[i] != names[j]
  }

  /** Among `names` the first `x` comes before any `y`. */
  predicate Earlier(names: seq<string>, x: string, y: string) {
    exists a | 0 <= a < |names| :: names[a] == x && y !in names[..a]
  }

  /** The names of `unique` appear in `names` first in this order. */
  predicate FirstInOrder(names: seq<string>, unique: seq<string>) {
    forall i, j | 0 <= i < j < |unique| :: Earlier(names, unique[i], unique[j])
  }

  lemma {:induction false} UniqueMembers(names: seq<string>)
    ensures (forall x :: x in OrderedUnique(names) <==> x in names) && NoRepeats(OrderedUnique(names))
    decreases |names|
  {
    if names != [] {
      UniqueMembers(names[..|names| - 1]);
      assert names == names[..|names| - 1] + [names[|names| - 1]];
    }
  }

  lemma {:induction false} UniqueInOrder(names: seq<string>)
    ensures FirstInOrder(names, OrderedUnique(names))
    decreases |names|
  {
    if names != [] {
      var front, last := names[..|names| - 1], names[|names| - 1];
      var unique := OrderedUnique(names);
      UniqueInOrder(front);
      UniqueMembers(front);
      forall i, j | 0 <= i < j < |unique|
        ensures Earlier(names, unique[i], unique[j])
      {
        var known := OrderedUnique(front);
        if j < |known| {
          assert Earlier(front, known[i], known[j]);
          var a :| 0 <= a < |front| && front[a] == known[i] && known[j] !in front[..a];
          assert names[a] == front[a] && names[..a] == front[..a];
        } else {
          assert unique[i] == known[i] && known[i] in front;
          var a :| 0 <= a < |front| && front[a] == known[i];
          assert names[a] == front[a] && names[..a] == front[..a] && unique[j] == last;
          assert forall x | x in front[..a] :: x in front;
        }
      }
    }
  }

  /** Putting a name first moves it there and leaves the order of the others. */
  lemma {:induction false} UniqueFirst(first: string, names: seq<string>)
    ensures OrderedUnique([first] + names) != [] && OrderedUnique([first] + names)[0] == first
    decreases |names|
  {
    if names == [] {
      assert [first] + [] == [first] && [first][..0] == [];
    } else {
      UniqueFirst(first, names[..|names| - 1]);
      assert ([first] + names)[..|names|] == [first] + names[..|names| - 1];
      assert ([first] + names)[|names|] == names[|names| - 1];
    }
  }

  /**
    Which providers a request may reach. With a single provider, that one, and none can be
    asked for. Otherwise the selected one first, if it is registered, and then the fallbacks
    other than it, each once, in the order in which they are first listed.
  */
  lemma RouteExactly(w: World, provider: Option<string>)
    ensures w.single.Some? ==> RouteOf(w, provider) == if provider.Some? then Err(NoProvider) else Ok([w.single.value])
    ensures w.single.None? && Selected(w, provider).None? ==> RouteOf(w, provider) == Err(NoProvider)
    ensures w.single.None? && Selected(w, provider).Some? && Selected(w, provider).value !in w.registry ==>
              RouteOf(w, provider) == Err(UnknownProvider)
    ensures w.single.None? && Selected(w, provider).Some? && Selected(w, provider).value in w.registry ==>
              && RouteOf(w, provider).Ok?
              && var first, route := Selected(w, provider).value, RouteOf(w, provider).value;
                 && route != [] && route[0] == first && NoRepeats(route)
                 && (forall x :: x in route[1..] <==> x in w.fallbacks && x != first)
                 && FirstInOrder(w.fallbacks, route[1..])
  {
    hide OrderedUnique;
    if w.single.None? && Selected(w, provider).Some? {
      RouteIs(Selected(w, provider).value, w.fallbacks);
    }
  }

  lemma RouteIs(first: string, fallbacks: seq<string>)
    ensures var route := OrderedUnique([first] + fallbacks);
            && route != [] && route[0] == first && NoRepeats(route)
            && (forall x :: x in route[1..] <==> x in fallbacks && x != first)
            && FirstInOrder(fallbacks, route[1..])
  {
    hide OrderedUnique, FirstInOrder;
    var names := [first] + fallbacks;
    UniqueFirst(first, fallbacks);
    UniqueMembers(names);
    UniqueInOrder(names);
    RestMembers(first, fallbacks, OrderedUnique(names));
    RestInOrder(first, fallbacks, OrderedUnique(names));
  }

  lemma RestMembers(first: string, fallbacks: seq<string>, route: seq<string>)
    requires route != [] && route[0] == first && NoRepeats(route) && forall x :: x in route <==> x in [first] + fallbacks
    ensures forall x :: x in route[1..] <==> x in fallbacks && x != first
  {
    var rest := route[1..];
    assert route == [first] + rest;
    forall x
      ensures x in rest <==> x in fallbacks && x != first
    {
      assert x in route <==> x == first || x in rest;
      assert x in [first] + fallbacks <==> x == first || x in fallbacks;
      if x in rest {
        var i :| 0 <= i < |rest| && rest[i] == x;
        assert route[0] != route[i + 1] == x;
      }
    }
  }

  lemma RestInOrder(first: string, fallbacks: seq<string>, route: seq<string>)
    requires route != [] && route[0] == first && NoRepeats(route) && FirstInOrder([first] + fallbacks, route)
    ensures FirstInOrder(fallbacks, route[1..])
  {
    var names, rest := [first] + fallbacks, route[1..];
    forall i, j | 0 <= i < j < |rest|
      ensures Earlier(fallbacks, rest[i], rest[j])
    {
      assert route[i + 1] == rest[i] && route[j + 1] == rest[j] && route[0] != route[i + 1];
      assert Earlier(names, route[i + 1], route[j + 1]);
      var a :| 0 <= a < |names| && names[a] == route[i + 1] && route[j + 1] !in names[..a];
      assert names[a] == fallbacks[a - 1] && names[..a] == [first] + fallbacks[..a - 1];
    }
  }

  // ----- Settings of a request and limits -----

  /** A setting of a request: its own entry, or else, if that is absent or null, the one among its options. */
  ghost predicate IsSetting(metadata: map<string, PyValue>, name: string, value: PyValue) {
    if name in metadata && !metadata[name].None_? then value == metadata[name]
    else if "options" in metadata && metadata["options"].Dict? && Text(name) in metadata["options"].fields
    then value == metadata["options"].fields[Text(name)]
    else value == None_
  }

  /** The tokens that a request reserves: its positive limit, or none. */
  ghost predicate Reserves(metadata: map<string, PyValue>, n: nat) {
    exists value :: IsSetting(metadata, "max_tokens", value) && n == if value.Int? && value.i > 0 then value.i else 0
  }

  lemma SettingIs(metadata: map<string, PyValue>, name: string, value: PyValue)
    ensures IsSetting(metadata, name, value) <==> value == RequestOption(metadata, name)
  {
  }

  lemma ReservesExactly(metadata: map<string, PyValue>, n: nat)
    ensures Reserves(metadata, n) <==> n == if MaxTokens(metadata).Some? then MaxTokens(metadata).value else 0
  {
    hide RequestOption, IsSetting;
    SettingIs(metadata, "max_tokens", RequestOption(metadata, "max_tokens"));
    forall value { SettingIs(metadata, "max_tokens", value); }
  }

  /** The budget is strict, and over a limit with `more` tokens of completion. */
  predicate Exhausted(budget: Option<Budget>, l: Ledger, more: nat) {
    && budget.Some? && budget.value.strict
    && var b := budget.value;
       || (b.maxPrompt.Some? && l.prompt > b.maxPrompt.value)
       || (b.maxCompletion.Some? && l.completion + more > b.maxCompletion.value)
       || (b.maxTotal.Some? && l.total + more > b.maxTotal.value)
  }

  lemma RefusesExactly(budget: Option<Budget>, l: Ledger, maxTokens: Option<nat>)
    ensures Refuses(budget, l, maxTokens) <==> Exhausted(budget, l, if maxTokens.Some? then maxTokens.value else 0)
    ensures Overdrawn(budget, l) <==> Exhausted(budget, l, 0)
  {
    if budget.Some? {
      var b := budget.value;
      assert PromptTokens in CheckRequest(b, l, maxTokens) <==> b.maxPrompt.Some? && l.prompt > b.maxPrompt.value;
      assert PromptTokens in CheckBudget(b, l) <==> b.maxPrompt.Some? && l.prompt > b.maxPrompt.value;
      assert CompletionTokens in CheckBudget(b, l) <==> b.maxCompletion.Some? && l.completion > b.maxCompletion.value;
      assert TotalTokens in CheckBudget(b, l) <==> b.maxTotal.Some? && l.total > b.maxTotal.value;
      assert maxTokens.Some? ==> (CompletionTokens in CheckRequest(b, l, maxTokens) <==>
        b.maxCompletion.Some? && l.completion + maxTokens.value > b.maxCompletion.value);
      assert maxTokens.Some? ==> (TotalTokens in CheckRequest(b, l, maxTokens) <==>
        b.maxTotal.Some? && l.total + maxTokens.value > b.maxTotal.value);
      assert CheckRequest(b, l, maxTokens) <= {PromptTokens, CompletionTokens, TotalTokens};
      assert CheckBudget(b, l) <= {PromptTokens, CompletionTokens, TotalTokens};
    }
  }

  // ----- Calls -----

  /** A failure of this category is worth another attempt. */
  predicate Persistent(p: RetryPolicy, category: string) {
    category in p.retryOn && category != "configuration"
  }

  /** After a failure the next provider is tried: it was the provider's own error, or one worth another attempt. */
  predicate PassesOn(p: RetryPolicy, f: Failure) {
    f.kind == ProviderError || f.kind == StreamingUnsupported || Persistent(p, f.category)
  }

  /** The outcome is followed by another attempt with the same provider. */
  predicate TriesAgain(p: RetryPolicy, o: Outcome, attempt: nat) {
    o.Threw? && Persistent(p, o.failure.category) && attempt < p.maxAttempts
  }

  /** Call number `i` of all calls, and what came of it. */
  function OutcomeAt(w: World, calls: seq<Call>, i: nat): Outcome
    requires i < |calls|
  {
    w.complete(calls[i], i)
  }

  /** From `from` on the log holds attempts of one call: as many as fail in a way worth another, up to the limit. */
  predicate Attempted(w: World, call: Call, calls: seq<Call>, from: nat, attempt: nat) {
    && from < |calls| && (forall i | from <= i < |calls| :: calls[i] == call)
    && (forall i | from <= i < |calls| - 1 :: TriesAgain(w.policy, OutcomeAt(w, calls, i), attempt + (i - from)))
    && !TriesAgain(w.policy, OutcomeAt(w, calls, |calls| - 1), attempt + (|calls| - 1 - from))
  }

  /**
    A provider is called again after a failure worth another attempt, up to the limit of
    attempts, and otherwise not; the last outcome counts.
  */
  lemma {:induction false} AttemptsExactly(w: World, s: State, call: Call, attempt: nat)
    ensures var (t, outcome) := Complete(w, s, call, attempt);
            && t == s.(calls := t.calls) && s.calls <= t.calls
            && Attempted(w, call, t.calls, |s.calls|, attempt) && outcome == OutcomeAt(w, t.calls, |t.calls| - 1)
    decreases w.policy.maxAttempts - attempt
  {
    var o := w.complete(call, |s.calls|);
    var s1 := s.(calls := s.calls + [call]);
    var t := Complete(w, s, call, attempt).0;
    assert TriesAgain(w.policy, o, attempt) <==>
           o.Threw? && Retryable(w.policy, o.failure.category) && attempt < w.policy.maxAttempts;
    if TriesAgain(w.policy, o, attempt) {
      AttemptsExactly(w, s1, call, attempt + 1);
      assert t.calls[|s.calls|] == s1.calls[|s.calls|] == call;
      forall i | |s.calls| <= i < |t.calls| - 1
        ensures TriesAgain(w.policy, OutcomeAt(w, t.calls, i), attempt + (i - |s.calls|))
      {
        if i > |s.calls| {
          assert TriesAgain(w.policy, OutcomeAt(w, t.calls, i), attempt + 1 + (i - |s1.calls|));
        }
      }
    } else {
      assert t == s1;
    }
  }

  // ----- The cache -----

  /** The request may use the cache: there is one, and the request does not opt out. */
  ghost predicate UsesCache(w: World, r: Request) {
    w.caching && !IsSetting(r.metadata, "cache", Bool(false))
  }

  /** There is a stored answer for the request to this provider. */
  ghost predicate HasAnswer(w: World, s: State, r: Request, provider: string) {
    UsesCache(w, r) && KeyOf(r, provider) in s.entries
  }

  /** A stored answer as it is given out: marked, and otherwise as it was. */
  predicate GivenOut(w: World, stored: Response, key: Key, given: Response) {
    && given == stored.(metadata := given.metadata)
    && given.metadata == stored.metadata["cached" := Bool(true)]["cache_key" := Str(w.shortHash(key))]
  }

  lemma LookupExactly(w: World, s: State, r: Request, provider: string)
    ensures var (t, cached) := Lookup(w, s, r, provider);
            && t == s.(hits := t.hits, misses := t.misses)
            && (cached.Some? <==> HasAnswer(w, s, r, provider))
            && (cached.Some? ==> GivenOut(w, s.entries[KeyOf(r, provider)], KeyOf(r, provider), cached.value))
            && t.hits == (if HasAnswer(w, s, r, provider) then s.hits + 1 else s.hits)
            && t.misses == (if UsesCache(w, r) && !HasAnswer(w, s, r, provider) then s.misses + 1 else s.misses)
  {
    hide KeyOf;
  }

  /** What an accepted call leaves: its usage counted, its cost recorded if there is a rate, its answer stored if the budget still holds. */
  ghost predicate Recorded(w: World, s: State, call: Call, response: Response, t: State, result: Result<Response, ChatError>) {
    var l := Plus(s.ledger, Counts(response.usage));
    && t.ledger == l && t.calls == s.calls
    && t.costs == s.costs + (if response.usage.Some? && w.billable(response.provider, response.model, response.usage.value)
                             then [Cost(response.provider, response.model, response.usage.value)] else [])
    && result == (if Exhausted(w.budget, l, 0) then Err(OverBudget) else Ok(response))
    && t.entries == (if UsesCache(w, call.request) && !Exhausted(w.budget, l, 0)
                     then s.entries[KeyOf(call.request, call.provider) := response] else s.entries)
  }

  lemma AcceptExactly(w: World, s: State, call: Call, response: Response)
    ensures var (t, result) := Accept(w, s, call, response);
            Recorded(w, s, call, response, t, result) && t.calls == s.calls
  {
    hide KeyOf;
    var l := Plus(s.ledger, Counts(response.usage));
    ApplyIsPlus(s.ledger, response.usage);
    RefusesExactly(w.budget, l, None);
    hide Overdrawn, Exhausted;
    assert s.costs + [] == s.costs;
  }

  // ----- Chats -----

  /**
    How the providers of `route` were asked. Entry `from + i` of the log is attempt `tries[i]`
    of provider `route[places[i]]`. Another attempt follows a failure worth one; otherwise the
    next provider follows a failure that is passed on, unless it has a stored answer.
  */
  ghost predicate InTurn(w: World, s: State, r: Request, route: seq<string>, calls: seq<Call>, from: nat, places: seq<nat>, tries: seq<nat>) {
    && from <= |calls| && |places| == |tries| == |calls| - from
    && (forall i | 0 <= i < |places| :: places[i] < |route| && calls[from + i] == Call(route[places[i]], r))
    && (forall i | 0 <= i < |places| :: !HasAnswer(w, s, r, route[places[i]]))
    && (places != [] ==> places[0] == 0 && tries[0] == 1)
    && forall i | 0 <= i < |places| - 1 :: StepsOn(w, calls, from, places, tries, i)
  }

  /** Entry `from + i` of the log is followed by the right one. */
  predicate StepsOn(w: World, calls: seq<Call>, from: nat, places: seq<nat>, tries: seq<nat>, i: nat)
    requires from <= |calls| && i + 1 < |places| == |tries| == |calls| - from
  {
    var o := OutcomeAt(w, calls, from + i);
    o.Threw? &&
    if TriesAgain(w.policy, o, tries[i]) then places[i + 1] == places[i] && tries[i + 1] == tries[i] + 1
    else places[i + 1] == places[i] + 1 && tries[i + 1] == 1 && PassesOn(w.policy, o.failure)
  }

  /** The place on the route that comes next after the calls: the first, or the one after the last that was asked. */
  function NextPlace(places: seq<nat>): nat {
    if places == [] then 0 else places[|places| - 1] + 1
  }

  /**
    How that ends: with a stored answer of the next provider, with the answer of the last call,
    with its failure, or with no provider left.
  */
  ghost predicate EndsWith(w: World, s: State, r: Request, route: seq<string>, t: State, places: seq<nat>, tries: seq<nat>, result: Result<Response, ChatError>)
    requires |places| == |tries| == |t.calls| - |s.calls| && forall i | 0 <= i < |places| :: places[i] < |route|
  {
    var next := NextPlace(places);
    var failed := places == [] ||
      (OutcomeAt(w, t.calls, |t.calls| - 1).Threw? && !TriesAgain(w.policy, OutcomeAt(w, t.calls, |t.calls| - 1), tries[|tries| - 1]));
    if failed && (places != [] ==> PassesOn(w.policy, OutcomeAt(w, t.calls, |t.calls| - 1).failure)) then
      && t.ledger == s.ledger && t.costs == s.costs && t.entries == s.entries
      && if next == |route| then result == Err(AllFailed)
         else HasAnswer(w, s, r, route[next]) && result.Ok?
              && GivenOut(w, s.entries[KeyOf(r, route[next])], KeyOf(r, route[next]), result.value)
    else if failed then
      && t.ledger == s.ledger && t.costs == s.costs && t.entries == s.entries
      && result == Err(ProviderFailed(Failure(OutcomeAt(w, t.calls, |t.calls| - 1).failure.category, ProviderError)))
    else
      && OutcomeAt(w, t.calls, |t.calls| - 1).Answered?
      && Recorded(w, s.(calls := t.calls), t.calls[|t.calls| - 1], OutcomeAt(w, t.calls, |t.calls| - 1).response, t, result)
  }

  lemma OneProviderInTurn(w: World, s: State, r: Request, route: seq<string>, calls: seq<Call>, from: nat) returns (places: seq<nat>, tries: seq<nat>)
    requires route != [] && !HasAnswer(w, s, r, route[0]) && Attempted(w, Call(route[0], r), calls, from, 1)
    ensures InTurn(w, s, r, route, calls, from, places, tries) && |places| == |tries| > 0
    ensures places[|places| - 1] == 0 && tries[|tries| - 1] == |calls| - from
  {
    hide HasAnswer, TriesAgain;
    places, tries := seq(|calls| - from, _ => 0), seq(|calls| - from, i requires 0 <= i => i + 1);
    forall i | 0 <= i < |places| - 1
      ensures StepsOn(w, calls, from, places, tries, i)
    {
      assert TriesAgain(w.policy, OutcomeAt(w, calls, from + i), 1 + (from + i - from));
      TriesAfterFailure(w.policy, OutcomeAt(w, calls, from + i), tries[i]);
    }
  }

  lemma TriesAfterFailure(p: RetryPolicy, o: Outcome, attempt: nat)
    requires TriesAgain(p, o, attempt)
    ensures o.Threw?
  {
  }

  function Shift(places: seq<nat>): (r: seq<nat>)
    ensures |r| == |places| && forall i | 0 <= i < |r| :: r[i] == places[i] + 1
  {
    seq(|places|, i requires 0 <= i < |places| => places[i] + 1)
  }

  /** One provider, and then the others. */
  lemma TurnsJoin(w: World, s: State, u: State, r: Request, route: seq<string>, calls: seq<Call>, from: nat,
                  a: seq<nat>, b: seq<nat>, places: seq<nat>, tries: seq<nat>)
    requires route != [] && u.entries == s.entries && u.calls <= calls
    requires InTurn(w, s, r, route, u.calls, from, a, b) && a != [] && a[|a| - 1] == 0
    requires var o := OutcomeAt(w, u.calls, |u.calls| - 1);
             o.Threw? && !TriesAgain(w.policy, o, b[|b| - 1]) && PassesOn(w.policy, o.failure)
    requires InTurn(w, u, r, route[1..], calls, |u.calls|, places, tries)
    ensures InTurn(w, s, r, route, calls, from, a + Shift(places), b + tries)
  {
    hide TriesAgain, PassesOn;
    var ps, ts, n := a + Shift(places), b + tries, |a|;
    forall i | 0 <= i < |ps|
      ensures ps[i] < |route| && calls[from + i] == Call(route[ps[i]], r) && !HasAnswer(w, s, r, route[ps[i]])
    {
      if i < n {
        assert calls[from + i] == u.calls[from + i];
      } else {
        assert calls[from + i] == calls[|u.calls| + (i - n)] && route[1..][places[i - n]] == route[ps[i]];
      }
    }
    forall i | 0 <= i < |ps| - 1
      ensures StepsOn(w, calls, from, ps, ts, i)
    {
      if i < n {
        assert OutcomeAt(w, calls, from + i) == OutcomeAt(w, u.calls, from + i);
        assert i < n - 1 ==> StepsOn(w, u.calls, from, a, b, i);
      } else {
        assert StepsOn(w, calls, |u.calls|, places, tries, i - n);
      }
    }
  }

  lemma EndsAlike(w: World, s: State, u: State, r: Request, route: seq<string>, t: State,
                  a: seq<nat>, b: seq<nat>, places: seq<nat>, tries: seq<nat>, result: Result<Response, ChatError>)
    requires route != [] && u == s.(calls := u.calls, hits := u.hits, misses := u.misses) && s.calls <= u.calls <= t.calls
    requires |a| == |b| == |u.calls| - |s.calls| && a != [] && (forall i | 0 <= i < |a| :: a[i] < |route|) && a[|a| - 1] == 0
    requires var o := OutcomeAt(w, u.calls, |u.calls| - 1);
             o.Threw? && !TriesAgain(w.policy, o, b[|b| - 1]) && PassesOn(w.policy, o.failure)
    requires |places| == |tries| == |t.calls| - |u.calls| && forall i | 0 <= i < |places| :: places[i] < |route| - 1
    requires EndsWith(w, u, r, route[1..], t, places, tries, result)
    ensures EndsWith(w, s, r, route, t, a + Shift(places), b + tries, result)
  {
    hide TriesAgain, PassesOn, KeyOf, UsesCache, GivenOut, Exhausted;
    var ps := a + Shift(places);
    assert forall i | 0 <= i < |ps| :: ps[i] < |route|;
    if places == [] {
      assert ps == a && t.calls == u.calls && NextPlace(ps) == 1;
    } else {
      assert ps[|ps| - 1] == places[|places| - 1] + 1;
      assert (b + tries)[|b + tries| - 1] == tries[|tries| - 1];
    }
    var next := NextPlace(places);
    assert NextPlace(ps) == next + 1;
    assert next < |route| - 1 ==> route[1..][next] == route[next + 1];
  }

  /**
    A routed chat, in full: the providers are asked in turn, and the chat ends as that says.
  */
  lemma {:induction false} RoutedExactly(w: World, s: State, route: seq<string>, r: Request) returns (places: seq<nat>, tries: seq<nat>)
    ensures var (t, result) := Routed(w, s, route, r);
            && s.calls <= t.calls && InTurn(w, s, r, route, t.calls, |s.calls|, places, tries)
            && EndsWith(w, s, r, route, t, places, tries, result)
    decreases |route|
  {
    hide KeyOf, Complete, Accept, InTurn, EndsWith, HasAnswer, GivenOut, Recorded;
    var (t, result) := Routed(w, s, route, r);
    if route == [] {
      places, tries := [], [];
      NobodyAsked(w, s, r, route, result);
    } else {
      LookupExactly(w, s, r, route[0]);
      var (s1, cached) := Lookup(w, s, r, route[0]);
      if cached.Some? {
        places, tries := [], [];
        AnswerFound(w, s, r, route, t, cached.value);
      } else {
        var call := Call(route[0], r);
        AttemptsExactly(w, s1, call, 1);
        var (u, outcome) := Complete(w, s1, call, 1);
        places, tries := OneProviderInTurn(w, s, r, route, u.calls, |s.calls|);
        LastIsFinal(w, s1, call, u.calls, places, tries);
        GoesOnExactly(w, outcome);
        if outcome.Answered? {
          AcceptExactly(w, u, call, outcome.response);
          EndsAnswered(w, s, r, route, u, t, places, tries, result);
        } else if !PassesOn(w.policy, outcome.failure) {
          EndsFailed(w, s, r, route, u, places, tries, result);
        } else {
          var ps, ts := RoutedExactly(w, u, route[1..], r);
          TurnsJoin(w, s, u, r, route, t.calls, |s.calls|, places, tries, ps, ts);
          TurnsInRange(w, u, r, route[1..], t.calls, ps, ts);
          TurnsInRange(w, s, r, route, u.calls, places, tries);
          EndsAlike(w, s, u, r, route, t, places, tries, ps, ts, result);
          places, tries := places + Shift(ps), tries + ts;
        }
      }
    }
  }

  lemma GoesOnExactly(w: World, o: Outcome)
    ensures o.Threw? ==> (GoesOn(w, o.failure) <==> PassesOn(w.policy, o.failure))
  {
  }

  lemma TurnsInRange(w: World, s: State, r: Request, route: seq<string>, calls: seq<Call>, places: seq<nat>, tries: seq<nat>)
    requires |s.calls| <= |calls| && InTurn(w, s, r, route, calls, |s.calls|, places, tries)
    ensures |places| == |tries| == |calls| - |s.calls| && forall i | 0 <= i < |places| :: places[i] < |route|
  {
  }

  lemma LastIsFinal(w: World, s: State, call: Call, calls: seq<Call>, places: seq<nat>, tries: seq<nat>)
    requires Attempted(w, call, calls, |s.calls|, 1) && tries != [] && tries[|tries| - 1] == |calls| - |s.calls|
    ensures !TriesAgain(w.policy, OutcomeAt(w, calls, |calls| - 1), tries[|tries| - 1]) && calls[|calls| - 1] == call
  {
    hide TriesAgain;
  }

  lemma NobodyAsked(w: World, s: State, r: Request, route: seq<string>, result: Result<Response, ChatError>)
    requires route == [] && result == Err(AllFailed)
    ensures InTurn(w, s, r, route, s.calls, |s.calls|, [], []) && EndsWith(w, s, r, route, s, [], [], result)
  {
  }

  lemma AnswerFound(w: World, s: State, r: Request, route: seq<string>, t: State, given: Response)
    requires route != [] && HasAnswer(w, s, r, route[0]) && t == s.(hits := t.hits, misses := t.misses)
    requires GivenOut(w, s.entries[KeyOf(r, route[0])], KeyOf(r, route[0]), given)
    ensures InTurn(w, s, r, route, t.calls, |s.calls|, [], []) && EndsWith(w, s, r, route, t, [], [], Ok(given))
  {
    hide KeyOf, GivenOut;
  }

  lemma EndsAnswered(w: World, s: State, r: Request, route: seq<string>, u: State, t: State, places: seq<nat>, tries: seq<nat>, result: Result<Response, ChatError>)
    requires u == s.(calls := u.calls, hits := u.hits, misses := u.misses) && s.calls < u.calls && t.calls == u.calls
    requires InTurn(w, s, r, route, u.calls, |s.calls|, places, tries)
    requires OutcomeAt(w, u.calls, |u.calls| - 1).Answered?
    requires Recorded(w, u, u.calls[|u.calls| - 1], OutcomeAt(w, u.calls, |u.calls| - 1).response, t, result)
    ensures EndsWith(w, s, r, route, t, places, tries, result)
  {
    hide KeyOf, UsesCache, Exhausted;
  }

  lemma EndsFailed(w: World, s: State, r: Request, route: seq<string>, u: State, places: seq<nat>, tries: seq<nat>, result: Result<Response, ChatError>)
    requires u == s.(calls := u.calls, hits := u.hits, misses := u.misses) && s.calls < u.calls
    requires InTurn(w, s, r, route, u.calls, |s.calls|, places, tries)
    requires var o := OutcomeAt(w, u.calls, |u.calls| - 1);
             o.Threw? && !TriesAgain(w.policy, o, tries[|tries| - 1]) && !PassesOn(w.policy, o.failure)
             && result == Err(ProviderFailed(Failure(o.failure.category, ProviderError)))
    ensures EndsWith(w, s, r, route, u, places, tries, result)
  {
  }

  /**
    A chat, in full. It is refused by a strict budget that is over a limit, or would be with the
    tokens that the request reserves; otherwise the providers of its route are asked in turn,
    beginning with the selected one. A single provider is asked alone, and its own errors are
    handed on as they are.
  */
  lemma ChatExactly(w: World, s: State, provider: Option<string>, r: Request, reserved: nat) returns (places: seq<nat>, tries: seq<nat>)
    requires Reserves(r.metadata, reserved)
    ensures var (t, result) := Chat(w, s, provider, r);
            match RouteOf(w, provider)
            case Err(error) => t == s && result == Err(error)
            case Ok(route) =>
              if Exhausted(w.budget, s.ledger, reserved) then t == s && result == Err(OverBudget)
              else if w.single.None? then
                && s.calls <= t.calls && InTurn(w, s, r, route, t.calls, |s.calls|, places, tries)
                && EndsWith(w, s, r, route, t, places, tries, result)
              else AsksOne(w, s, r, w.single.value, t, result)
  {
    hide RequestOption, OrderedUnique, Routed, ChatSingle, Lookup, InTurn, EndsWith, Exhausted, Reserves, AsksOne, Refuses;
    places, tries := [], [];
    ReservesExactly(r.metadata, reserved);
    RefusesExactly(w.budget, s.ledger, MaxTokens(r.metadata));
    if RouteOf(w, provider).Ok? && !Refuses(w.budget, s.ledger, MaxTokens(r.metadata)) {
      if w.single.None? {
        places, tries := RoutedExactly(w, s, RouteOf(w, provider).value, r);
      } else {
        SingleExactly(w, s, w.single.value, r);
      }
    } else if RouteOf(w, provider).Ok? && w.single.Some? {
      SingleRefused(w, s, w.single.value, r);
    }
  }

  /** One provider is asked: its stored answer, or up to the limit of attempts. */
  ghost predicate AsksOne(w: World, s: State, r: Request, provider: string, t: State, result: Result<Response, ChatError>) {
    if HasAnswer(w, s, r, provider) then
      && t == s.(hits := s.hits + 1) && result.Ok?
      && GivenOut(w, s.entries[KeyOf(r, provider)], KeyOf(r, provider), result.value)
    else
      && s.calls <= t.calls && Attempted(w, Call(provider, r), t.calls, |s.calls|, 1)
      && match OutcomeAt(w, t.calls, |t.calls| - 1)
         case Answered(response) => Recorded(w, s.(calls := t.calls), Call(provider, r), response, t, result)
         case Threw(f) =>
           && t.ledger == s.ledger && t.costs == s.costs && t.entries == s.entries
           && result == Err(ProviderFailed(if f.kind == ProviderError || f.kind == StreamingUnsupported then f
                                           else Failure(f.category, ProviderError)))
  }

  lemma SingleExactly(w: World, s: State, provider: string, r: Request)
    requires !Refuses(w.budget, s.ledger, MaxTokens(r.metadata))
    ensures var (t, result) := ChatSingle(w, s, provider, r); AsksOne(w, s, r, provider, t, result)
  {
    hide KeyOf, Complete, Accept, Lookup, Refuses, Exhausted, UsesCache, Attempted, GivenOut;
    var (t, result) := ChatSingle(w, s, provider, r);
    LookupExactly(w, s, r, provider);
    var (s1, cached) := Lookup(w, s, r, provider);
    if cached.None? {
      AttemptsExactly(w, s1, Call(provider, r), 1);
      var (u, outcome) := Complete(w, s1, Call(provider, r), 1);
      if outcome.Answered? {
        AcceptExactly(w, u, Call(provider, r), outcome.response);
      }
    }
  }

  lemma SingleRefused(w: World, s: State, provider: string, r: Request)
    requires Refuses(w.budget, s.ledger, MaxTokens(r.metadata))
    ensures ChatSingle(w, s, provider, r) == (s, Err(OverBudget))
  {
    hide Refuses;
  }

  /** The first provider that a chat calls is the selected one, unless that has a stored answer. */
  lemma SelectedFirst(w: World, s: State, provider: Option<string>, r: Request, reserved: nat)
    requires w.single.None? && Selected(w, provider).Some? && Selected(w, provider).value in w.registry
    requires Reserves(r.metadata, reserved) && !Exhausted(w.budget, s.ledger, reserved)
    ensures var first, t := Selected(w, provider).value, Chat(w, s, provider, r).0;
            if HasAnswer(w, s, r, first) then t.calls == s.calls && Chat(w, s, provider, r).1.Ok?
            else |s.calls| < |t.calls| && t.calls[|s.calls|] == Call(first, r)
  {
    hide Exhausted, HasAnswer, Chat, GivenOut, Recorded, StepsOn, Reserves;
    RouteExactly(w, provider);
    var places, tries := ChatExactly(w, s, provider, r, reserved);
    var t := Chat(w, s, provider, r).0;
    assert |places| == |t.calls| - |s.calls|;
    if places != [] {
      assert t.calls[|s.calls| + 0] == Call(RouteOf(w, provider).value[places[0]], r);
    }
  }
}
