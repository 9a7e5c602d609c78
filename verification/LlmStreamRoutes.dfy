/**
  Which streams are opened, in which order and how often, and what their caller receives, in
  terms of the providers' scripts.
*/
module LlmStreamRoutes {
  import opened Common
  import opened LlmTypes
  import opened LlmStream
  import LlmChat
  import B = LlmBudget
  import R = LlmRoutes

  // ----- Chunks -----

  /** A chunk as the caller receives it: the provider's, with its provider and model filled in if they were open. */
  predicate PassedOn(c: Chunk, received: Chunk, provider: string, model: string) {
    && received.delta == c.delta && received.index == c.index && received.done == c.done && received.usage == c.usage
    && received.provider == Some(match c.provider case Some(p) => p case None => provider)
    && received.model == Some(match c.model case Some(m) => m case None => model)
  }

  /** `usage` is that of the last final chunk that reports one. */
  ghost predicate IsFinalUsage(cs: seq<Chunk>, usage: Option<Usage>) {
    match usage
    case None => forall i | 0 <= i < |cs| :: !(cs[i].done && cs[i].usage.Some?)
    case Some(_) => exists i :: 0 <= i < |cs| && cs[i].done && cs[i].usage == usage &&
                      forall j | i < j < |cs| :: !(cs[j].done && cs[j].usage.Some?)
  }

  lemma {:induction false} FinalUsageExactly(cs: seq<Chunk>)
    ensures IsFinalUsage(cs, FinalUsage(cs))
    decreases |cs|
  {
    if cs != [] {
      var front, last := cs[..|cs| - 1], cs[|cs| - 1];
      FinalUsageExactly(front);
      assert forall i | 0 <= i < |front| :: front[i] == cs[i];
      if !(last.done && last.usage.Some?) && FinalUsage(cs).Some? {
        var i :| 0 <= i < |front| && front[i].done && front[i].usage == FinalUsage(front) &&
                 forall j | i < j < |front| :: !(front[j].done && front[j].usage.Some?);
        assert cs[i].usage == FinalUsage(cs);
        assert forall j | i < j < |cs| :: !(cs[j].done && cs[j].usage.Some?);
      }
    }
  }

  /** The whole script of one attempt reached its caller, as far as it asked. */
  ghost predicate Delivered(w: World, o: Opening, nexts: nat, received: seq<Chunk>) {
    var cs := w.scripts(o.provider, o.attempt).chunks;
    && |received| == (if nexts <= |cs| then nexts else |cs|)
    && forall i | 0 <= i < |received| :: PassedOn(cs[i], received[i], o.provider, w.model)
  }

  // ----- Openings -----

  /** The attempt failed before its first chunk. */
  predicate FailsSilently(w: World, o: Opening) {
    var script := w.scripts(o.provider, o.attempt);
    script.chunks == [] && script.failure.Some?
  }

  function FailureOf(w: World, o: Opening): Failure
    requires FailsSilently(w, o)
  {
    w.scripts(o.provider, o.attempt).failure.value
  }

  /** The attempt is followed by another one with the same provider. */
  predicate OpensAgain(w: World, o: Opening) {
    FailsSilently(w, o) && R.Persistent(w.policy, FailureOf(w, o).category) && o.attempt < w.policy.maxAttempts
  }

  /** After this failure the next provider is tried. */
  predicate HandsOver(p: RetryPolicy, f: Failure) {
    f.kind != BudgetExceeded && f.category != "stream_interrupted" && R.PassesOn(p, f)
  }

  /** No provider on the route from place `a` up to place `b` can stream. */
  predicate NoneStreams(w: World, route: seq<string>, a: nat, b: nat)
    requires b <= |route|
  {
    forall k | a <= k < b :: route[k] !in w.supports
  }

  /** Opening `i` is followed by the right one. */
  predicate OpensNext(w: World, route: seq<string>, os: seq<Opening>, places: seq<nat>, i: nat)
    requires i + 1 < |os| == |places| && places[i + 1] < |route|
  {
    if OpensAgain(w, os[i]) then os[i + 1] == Opening(os[i].provider, os[i].attempt + 1) && places[i + 1] == places[i]
    else
      && FailsSilently(w, os[i]) && HandsOver(w.policy, FailureOf(w, os[i])) && os[i + 1].attempt == 1
      && places[i] < places[i + 1] && NoneStreams(w, route, places[i] + 1, places[i + 1])
  }

  /**
    The openings `os`, at the given places of the route: the first provider that can stream
    comes first; another attempt follows a silent failure worth one, and otherwise the next
    provider that can stream follows one that hands over.
  */
  predicate OpenedInTurn(w: World, route: seq<string>, os: seq<Opening>, places: seq<nat>) {
    && |places| == |os|
    && (forall i | 0 <= i < |os| :: places[i] < |route| && os[i].provider == route[places[i]] && os[i].provider in w.supports)
    && (os != [] ==> os[0].attempt == 1 && NoneStreams(w, route, 0, places[0]))
    && forall i | 0 <= i < |os| - 1 :: OpensNext(w, route, os, places, i)
  }

  /** The error that the caller sees: its own kind when it is a provider's interruption or lack of support, or a budget error. */
  predicate ShownAs(f: Failure, shown: Failure) {
    if f.kind == StreamingUnsupported || f.kind == BudgetExceeded || (f.kind == ProviderError && f.category == "stream_interrupted")
    then shown == f
    else shown == Failure(f.category, ProviderError)
  }

  /** How the stream ends after the last opening. */
  ghost predicate EndsAs(w: World, route: seq<string>, os: seq<Opening>, places: seq<nat>, nexts: nat, received: seq<Chunk>, finish: Finish)
    requires OpenedInTurn(w, route, os, places)
  {
    if os == [] then
      NoneStreams(w, route, 0, |route|) && received == [] && finish == Raised(Failure("unsupported", StreamingUnsupported))
    else
      var o, place := os[|os| - 1], places[|places| - 1];
      var script := w.scripts(o.provider, o.attempt);
      && !OpensAgain(w, o) && Delivered(w, o, nexts, received)
      && if !FailsSilently(w, o) then
           if nexts <= |script.chunks| then finish == Stopped
           else match script.failure
                case Some(_) => finish == Raised(Failure("stream_interrupted", ProviderError))
                case None => finish.Done? && IsFinalUsage(script.chunks, finish.usage)
         else if HandsOver(w.policy, FailureOf(w, o)) && place + 1 < |route| then
           NoneStreams(w, route, place + 1, |route|) && finish == Raised(Failure("unsupported", StreamingUnsupported))
         else finish.Raised? && ShownAs(FailureOf(w, o), finish.failure)
  }

  lemma {:induction false} FilledFinalUsage(cs: seq<Chunk>, provider: string, model: string)
    ensures FinalUsage(FillAll(cs, provider, model)) == FinalUsage(cs)
    decreases |cs|
  {
    if cs != [] {
      var front := cs[..|cs| - 1];
      FilledFinalUsage(front, provider, model);
      var filled := FillAll(cs, provider, model);
      assert filled[..|filled| - 1] == FillAll(front, provider, model);
    }
  }

  lemma DeliveredFilled(w: World, o: Opening, nexts: nat)
    ensures var chunks := FillAll(w.scripts(o.provider, o.attempt).chunks, o.provider, w.model);
            Delivered(w, o, nexts, if nexts <= |chunks| then chunks[..nexts] else chunks)
  {
  }

  /** The attempts of one provider. */
  ghost predicate OneProvider(w: World, provider: string, attempt: nat, nexts: nat, s: Streamed) {
    && s.openings != [] && s.openings[0] == Opening(provider, attempt)
    && (forall i | 0 <= i < |s.openings| - 1 :: OpensAgain(w, s.openings[i]) && s.openings[i + 1] == Opening(provider, s.openings[i].attempt + 1))
    && var o := s.openings[|s.openings| - 1];
       var script := w.scripts(o.provider, o.attempt);
       && o.provider == provider && !OpensAgain(w, o) && Delivered(w, o, nexts, s.received)
       && if !FailsSilently(w, o) then
            if nexts <= |script.chunks| then s.finish == Stopped
            else match script.failure
                 case Some(_) => s.finish == Raised(Failure("stream_interrupted", ProviderError))
                 case None => s.finish.Done? && IsFinalUsage(script.chunks, s.finish.usage)
          else s.finish == Raised(FailureOf(w, o))
  }

  lemma {:induction false} AttemptsExactly(w: World, provider: string, attempt: nat, nexts: nat)
    requires 1 <= attempt <= w.policy.maxAttempts && nexts >= 1
    ensures OneProvider(w, provider, attempt, nexts, Attempts(w, provider, attempt, nexts))
    decreases w.policy.maxAttempts - attempt
  {
    hide FillAll, FinalUsage, IsFinalUsage, Delivered;
    var o := Opening(provider, attempt);
    var script := w.scripts(provider, attempt);
    DeliveredFilled(w, o, nexts);
    FilledFinalUsage(script.chunks, provider, w.model);
    FinalUsageExactly(script.chunks);
    assert OpensAgain(w, o) <==> script.chunks == [] && script.failure.Some? && attempt < w.policy.maxAttempts
                                 && Retryable(w.policy, script.failure.value.category);
    var s := Attempts(w, provider, attempt, nexts);
    if OpensAgain(w, o) {
      var rest := Attempts(w, provider, attempt + 1, nexts);
      AttemptsExactly(w, provider, attempt + 1, nexts);
      OneMoreOpening(w, provider, attempt, nexts, rest);
    } else {
      assert s.openings == [o];
    }
  }

  lemma OneMoreOpening(w: World, provider: string, attempt: nat, nexts: nat, rest: Streamed)
    requires OpensAgain(w, Opening(provider, attempt)) && OneProvider(w, provider, attempt + 1, nexts, rest)
    ensures OneProvider(w, provider, attempt, nexts, rest.(openings := [Opening(provider, attempt)] + rest.openings))
  {
    hide OpensAgain, FailsSilently, IsFinalUsage, Delivered;
    var os := [Opening(provider, attempt)] + rest.openings;
    assert os[|os| - 1] == rest.openings[|rest.openings| - 1];
    forall i | 0 <= i < |os| - 1
      ensures OpensAgain(w, os[i]) && os[i + 1] == Opening(provider, os[i].attempt + 1)
    {
      assert i > 0 ==> os[i] == rest.openings[i - 1];
      assert os[i + 1] == rest.openings[i];
    }
  }

  // ----- Routes -----

  lemma OneInTurn(w: World, route: seq<string>, nexts: nat, s: Streamed) returns (places: seq<nat>)
    requires route != [] && route[0] in w.supports && OneProvider(w, route[0], 1, nexts, s)
    ensures OpenedInTurn(w, route, s.openings, places) && places != [] && places[|places| - 1] == 0
  {
    hide OpensAgain, Delivered, IsFinalUsage, FailsSilently;
    places := seq(|s.openings|, _ => 0);
    AllSameProvider(w, route[0], nexts, s);
    forall i | 0 <= i < |s.openings| - 1
      ensures OpensNext(w, route, s.openings, places, i)
    {
      assert s.openings[i].provider == route[0];
    }
  }

  lemma AllSameProvider(w: World, provider: string, nexts: nat, s: Streamed)
    requires OneProvider(w, provider, 1, nexts, s)
    ensures forall i | 0 <= i < |s.openings| :: s.openings[i].provider == provider
  {
    hide OpensAgain, Delivered, IsFinalUsage, FailsSilently;
    forall i | 0 <= i < |s.openings|
      ensures s.openings[i].provider == provider
    {
      if i > 0 {
        assert s.openings[i - 1 + 1] == Opening(provider, s.openings[i - 1].attempt + 1);
      }
    }
  }

  /** Places on the rest of a route, as places on the whole of it. */
  lemma OpeningsShift(w: World, route: seq<string>, os: seq<Opening>, places: seq<nat>)
    requires route != [] && route[0] !in w.supports && OpenedInTurn(w, route[1..], os, places)
    ensures OpenedInTurn(w, route, os, R.Shift(places))
  {
    hide OpensAgain, FailsSilently, HandsOver;
    var ps := R.Shift(places);
    forall i | 0 <= i < |os| - 1
      ensures OpensNext(w, route, os, ps, i)
    {
      assert OpensNext(w, route[1..], os, places, i);
      NoneShift(w, route, places[i] + 1, places[i + 1]);
    }
    if os != [] {
      NoneShift(w, route, 0, places[0]);
    }
  }

  lemma NoneShift(w: World, route: seq<string>, a: nat, b: nat)
    requires route != [] && b <= |route| - 1
    ensures NoneStreams(w, route[1..], a, b) <==> NoneStreams(w, route, a + 1, b + 1)
  {
    if NoneStreams(w, route[1..], a, b) {
      forall k | a + 1 <= k < b + 1 ensures route[k] !in w.supports { assert route[1..][k - 1] == route[k]; }
    }
    if NoneStreams(w, route, a + 1, b + 1) {
      forall k | a <= k < b ensures route[1..][k] !in w.supports { assert route[1..][k] == route[k + 1]; }
    }
  }

  lemma OpeningsJoin(w: World, route: seq<string>, a: seq<Opening>, b: seq<nat>, os: seq<Opening>, places: seq<nat>)
    requires route != [] && OpenedInTurn(w, route, a, b) && a != [] && b[|b| - 1] == 0
    requires FailsSilently(w, a[|a| - 1]) && !OpensAgain(w, a[|a| - 1]) && HandsOver(w.policy, FailureOf(w, a[|a| - 1]))
    requires OpenedInTurn(w, route[1..], os, places)
    ensures OpenedInTurn(w, route, a + os, b + R.Shift(places))
  {
    hide OpensAgain, FailsSilently, HandsOver;
    var all, ps, n := a + os, b + R.Shift(places), |a|;
    forall i | 0 <= i < |all|
      ensures ps[i] < |route| && all[i].provider == route[ps[i]] && all[i].provider in w.supports
    {
      if i >= n {
        assert route[1..][places[i - n]] == route[ps[i]];
      }
    }
    forall i | 0 <= i < |all| - 1
      ensures OpensNext(w, route, all, ps, i)
    {
      if i < n - 1 {
        assert OpensNext(w, route, a, b, i);
      } else if i == n - 1 {
        NoneShift(w, route, 0, places[0]);
      } else {
        assert OpensNext(w, route[1..], os, places, i - n);
        NoneShift(w, route, places[i - n] + 1, places[i - n + 1]);
      }
    }
  }

  /** A stream that is not followed by another provider's. */
  lemma EndsHere(w: World, route: seq<string>, nexts: nat, s: Streamed, places: seq<nat>, received: seq<Chunk>, finish: Finish)
    requires route != [] && route[0] in w.supports && OneProvider(w, route[0], 1, nexts, s) && received == s.received
    requires OpenedInTurn(w, route, s.openings, places) && places != [] && places[|places| - 1] == 0
    requires if s.finish.Raised? then finish.Raised? && ShownAs(s.finish.failure, finish.failure) else finish == s.finish
    requires FailsSilently(w, s.openings[|s.openings| - 1]) && HandsOver(w.policy, FailureOf(w, s.openings[|s.openings| - 1])) ==> |route| == 1
    ensures EndsAs(w, route, s.openings, places, nexts, received, finish)
  {
    hide OpensAgain, Delivered, IsFinalUsage, FailsSilently, HandsOver;
  }

  /** A route whose first provider cannot stream, or handed over in silence, ends as the rest of it does. */
  lemma EndsLater(w: World, route: seq<string>, a: seq<Opening>, b: seq<nat>, os: seq<Opening>, places: seq<nat>,
                  nexts: nat, received: seq<Chunk>, finish: Finish)
    requires |route| > 1 && OpenedInTurn(w, route[1..], os, places) && EndsAs(w, route[1..], os, places, nexts, received, finish)
    requires OpenedInTurn(w, route, a + os, b + R.Shift(places)) && |a| == |b|
    requires if a == [] then route[0] !in w.supports
             else b[|b| - 1] == 0 && FailsSilently(w, a[|a| - 1]) && !OpensAgain(w, a[|a| - 1]) && HandsOver(w.policy, FailureOf(w, a[|a| - 1]))
    ensures EndsAs(w, route, a + os, b + R.Shift(places), nexts, received, finish)
  {
    hide OpensAgain, IsFinalUsage, FailsSilently, HandsOver, OpenedInTurn;
    var all, ps := a + os, b + R.Shift(places);
    NoneShift(w, route, 0, |route| - 1);
    PlacesInRange(w, route[1..], os, places);
    if os == [] {
      if a != [] {
        assert all == a && ps == b;
        SilentDelivers(w, a[|a| - 1], nexts);
      }
    } else {
      assert all[|all| - 1] == os[|os| - 1] && ps[|ps| - 1] == places[|places| - 1] + 1;
      if places[|places| - 1] + 1 < |route| - 1 {
        NoneShift(w, route, places[|places| - 1] + 1, |route| - 1);
      }
    }
  }

  lemma PlacesInRange(w: World, route: seq<string>, os: seq<Opening>, places: seq<nat>)
    requires OpenedInTurn(w, route, os, places)
    ensures |places| == |os| && forall i | 0 <= i < |os| :: places[i] < |route|
  {
  }

  lemma SilentDelivers(w: World, o: Opening, nexts: nat)
    requires FailsSilently(w, o)
    ensures Delivered(w, o, nexts, [])
  {
  }

  /**
    A stream, in full: which streams are opened, in turn over the providers of the route, what
    its caller receives, and how it ends.
  */
  lemma {:induction false} RouteExactly(w: World, route: seq<string>, nexts: nat) returns (places: seq<nat>)
    requires w.policy.maxAttempts >= 1 && nexts >= 1 && route != []
    ensures var s := Route(w, route, nexts);
            OpenedInTurn(w, route, s.openings, places) && EndsAs(w, route, s.openings, places, nexts, s.received, s.finish)
    decreases |route|
  {
    hide Attempts, OpenedInTurn, EndsAs, OneProvider, OpensAgain;
    var t := Route(w, route, nexts);
    var s := StreamProvider(w, route[0], nexts);
    if route[0] !in w.supports {
      if |route| > 1 {
        var ps := RouteExactly(w, route[1..], nexts);
        places := R.Shift(ps);
        assert t.received == Route(w, route[1..], nexts).received && t.openings == Route(w, route[1..], nexts).openings;
        OpeningsShift(w, route, t.openings, ps);
        assert [] + t.openings == t.openings && [] + places == places;
        EndsLater(w, route, [], [], t.openings, ps, nexts, t.received, t.finish);
      } else {
        places := [];
        NobodyStreams(w, route, nexts, t);
      }
    } else {
      AttemptsExactly(w, route[0], 1, nexts);
      places := OneInTurn(w, route, nexts, s);
      OneSilent(w, route[0], nexts, s);
      FallsBackExactly(w.policy, if s.finish.Raised? then s.finish.failure else Interrupted());
      if s.finish.Raised? && |route| > 1 && HandsOver(w.policy, s.finish.failure) {
        var ps := RouteExactly(w, route[1..], nexts);
        var rest := Route(w, route[1..], nexts);
        OpeningsJoin(w, route, s.openings, places, rest.openings, ps);
        assert t.received == rest.received;
        PlacesInRange(w, route, s.openings, places);
        EndsLater(w, route, s.openings, places, rest.openings, ps, nexts, t.received, t.finish);
        places := places + R.Shift(ps);
      } else {
        EndsHere(w, route, nexts, s, places, t.received, t.finish);
      }
    }
  }

  lemma NobodyStreams(w: World, route: seq<string>, nexts: nat, t: Streamed)
    requires |route| == 1 && route[0] !in w.supports && t == Streamed([], [], Raised(Failure("unsupported", StreamingUnsupported)))
    ensures OpenedInTurn(w, route, t.openings, []) && EndsAs(w, route, t.openings, [], nexts, t.received, t.finish)
  {
  }

  /** A provider that hands over received nothing for its caller, and failed in silence. */
  lemma OneSilent(w: World, provider: string, nexts: nat, s: Streamed)
    requires OneProvider(w, provider, 1, nexts, s)
    ensures s.openings != [] && !OpensAgain(w, s.openings[|s.openings| - 1]) && !s.finish.Exhausted?
    ensures FailsSilently(w, s.openings[|s.openings| - 1]) ==>
              s.finish == Raised(FailureOf(w, s.openings[|s.openings| - 1])) && s.received == []
    ensures s.finish.Raised? && !FailsSilently(w, s.openings[|s.openings| - 1]) ==> s.finish.failure == Failure("stream_interrupted", ProviderError)
  {
    hide OpensAgain, IsFinalUsage;
  }

  lemma FallsBackExactly(p: RetryPolicy, f: Failure)
    ensures HandsOver(p, f) <==> f.kind != BudgetExceeded && FallsBack(p, f)
    ensures ShownAs(f, if f.kind.BudgetExceeded? then f else Reported(f))
  {
  }

  // ----- Requests and ledgers -----

  /** A stream request is refused like a chat, and otherwise yields a stream over its route. */
  lemma OpenExactly(w: LlmChat.World, s: LlmChat.State, provider: Option<string>, sw: World, maxTokens: Option<nat>)
    ensures B.OpenStream(w, s, B.OpenOp(provider, sw, maxTokens)) ==
              match LlmChat.RouteOf(w, provider)
              case Err(error) => Err(error)
              case Ok(route) =>
                if R.Exhausted(w.budget, s.ledger, if maxTokens.Some? then maxTokens.value else 0) then Err(LlmChat.OverBudget)
                else Ok(B.Pending(sw, route, maxTokens))
  {
    R.RefusesExactly(w.budget, s.ledger, maxTokens);
    hide R.Exhausted;
  }

  /**
    Draining a stream counts the usage of one that completed, and records its cost, under the
    own name of the provider that served it, if there is a rate; it changes nothing else.
  */
  lemma DrainExactly(w: LlmChat.World, s: LlmChat.State, sw: World, route: seq<string>, nexts: nat)
    ensures var stream := Stream(sw, route, nexts);
            var usage := if stream.finish.Done? then stream.finish.usage else None;
            var t := B.Drained(w, s, sw, stream);
            && t == s.(ledger := t.ledger, costs := t.costs) && t.ledger == Plus(s.ledger, Counts(usage))
            && t.costs == s.costs +
                 if usage.Some? && stream.openings != [] &&
                    w.billable(sw.ownName(stream.openings[|stream.openings| - 1].provider), sw.model, usage.value)
                 then [LlmChat.Cost(sw.ownName(stream.openings[|stream.openings| - 1].provider), sw.model, usage.value)]
                 else []
  {
    hide Stream;
    var stream := Stream(sw, route, nexts);
    ApplyIsPlus(s.ledger, if stream.finish.Done? then stream.finish.usage else None);
    assert s.costs + [] == s.costs;
  }
}
