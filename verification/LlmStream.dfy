/**
  Streaming in kernel/llm/runtime.py: retries and fallbacks until the first chunk, none after
  it. The stream is a generator, so the caller decides how far it runs.
*/
module LlmStream {
  import opened Common
  import opened LlmTypes

  datatype Chunk = Chunk(delta: string, index: nat, provider: Option<string>, model: Option<string>, done: bool, usage: Option<Usage>)

  /** What one attempt of a provider's stream does: some chunks, then its end or a failure. */
  datatype Script = Script(chunks: seq<Chunk>, failure: Option<Failure>)

  /**
    The world of a stream: the providers that support streaming, what their attempts do, the
    retry policy, the model of the request, and the name that each provider gives itself.
  */
  datatype World = World(
    supports: set<string>,
    scripts: (string, nat) -> Script,
    policy: RetryPolicy,
    model: string,
    ownName: string -> string)

  /** A stream that was opened. */
  datatype Opening = Opening(provider: string, attempt: nat)

  datatype Finish = Stopped | Done(usage: Option<Usage>) | Raised(failure: Failure) | Exhausted

  /** What the caller received, the streams that were opened, and how it ended. */
  datatype Streamed = Streamed(received: seq<Chunk>, openings: seq<Opening>, finish: Finish)

  /** A chunk with its provider and model filled in. */
  function Fill(c: Chunk, provider: string, model: string): Chunk {
    c.(provider := Some(if c.provider.Some? then c.provider.value else provider),
       model := Some(if c.model.Some? then c.model.value else model))
  }

  function FillAll(cs: seq<Chunk>, provider: string, model: string): (r: seq<Chunk>)
    ensures |r| == |cs| && forall i | 0 <= i < |r| :: r[i] == Fill(cs[i], provider, model)
  {
    if cs == [] then [] else [Fill(cs[0], provider, model)] + FillAll(cs[1..], provider, model)
  }

  /** The usage of the last final chunk that reports one. */
  function FinalUsage(cs: seq<Chunk>): Option<Usage>
    decreases |cs|
  {
    if cs == [] then None
    else
      var c := cs[|cs| - 1];
      if c.done && c.usage.Some? then c.usage else FinalUsage(cs[..|cs| - 1])
  }

  function Interrupted(): Failure {
    Failure("stream_interrupted", ProviderError)
  }

  /** The attempts of one provider from number `attempt` on, for a caller that asks `nexts` times. */
  function Attempts(w: World, provider: string, attempt: nat, nexts: nat): Streamed
    decreases w.policy.maxAttempts + 1 - attempt
  {
    if attempt > w.policy.maxAttempts then Streamed([], [], Exhausted)
    else
      var script, opening := w.scripts(provider, attempt), Opening(provider, attempt);
      var chunks := FillAll(script.chunks, provider, w.model);
      if nexts <= |chunks| then Streamed(chunks[..nexts], [opening], Stopped)
      else if script.failure.None? then Streamed(chunks, [opening], Done(FinalUsage(chunks)))
      else if chunks != [] then Streamed(chunks, [opening], Raised(Interrupted()))
      else if !Retryable(w.policy, script.failure.value.category) || attempt >= w.policy.maxAttempts
      then Streamed([], [opening], Raised(script.failure.value))
      else
        var rest := Attempts(w, provider, attempt + 1, nexts);
        rest.(openings := [opening] + rest.openings)
  }

  function StreamProvider(w: World, provider: string, nexts: nat): Streamed {
    if provider !in w.supports then Streamed([], [], Raised(Failure("unsupported", StreamingUnsupported)))
    else Attempts(w, provider, 1, nexts)
  }

  /** Whether a failure of a provider that is not the last one leads to the next. */
  predicate FallsBack(p: RetryPolicy, f: Failure) {
    f.category != "stream_interrupted" && (f.FromProvider() || Retryable(p, f.category))
  }

  /** The error that the caller sees. */
  function Reported(f: Failure): Failure {
    if f.kind.StreamingUnsupported? || (f.FromProvider() && f.category == "stream_interrupted") then f
    else Failure(f.category, ProviderError)
  }

  /** The providers of the route, in order. */
  function Route(w: World, route: seq<string>, nexts: nat): Streamed
    decreases |route|
  {
    if route == [] then Streamed([], [], Exhausted)
    else
      var s := StreamProvider(w, route[0], nexts);
      if !s.finish.Raised? then s
      else if s.finish.failure.kind.BudgetExceeded? then s
      else if |route| > 1 && FallsBack(w.policy, s.finish.failure) then
        var rest := Route(w, route[1..], nexts);
        Streamed(s.received + rest.received, s.openings + rest.openings, rest.finish)
      else s.(finish := Raised(Reported(s.finish.failure)))
  }

  /** A stream that the caller never asks for does nothing. */
  function Stream(w: World, route: seq<string>, nexts: nat): Streamed {
    if nexts == 0 then Streamed([], [], Stopped) else Route(w, route, nexts)
  }

  /** The ledger afterwards: usage counts only when the stream completes. */
  function LedgerAfter(l: Ledger, s: Streamed): Ledger {
    match s.finish
    case Done(usage) => ApplyUsage(l, usage)
    case _ => l
  }

  // ----- One attempt -----

  /** The chunks of one attempt, as a caller sees them. */
  function ChunksOf(w: World, o: Opening): seq<Chunk> {
    FillAll(w.scripts(o.provider, o.attempt).chunks, o.provider, w.model)
  }

  /** The attempt failed before its first chunk. */
  predicate Silent(w: World, o: Opening) {
    w.scripts(o.provider, o.attempt).chunks == [] && w.scripts(o.provider, o.attempt).failure.Some?
  }

  /** The stream `s` is what a caller sees of the attempt `o`. */
  predicate SeenFrom(w: World, s: Streamed, o: Opening, nexts: nat) {
    var chunks := ChunksOf(w, o);
    && s.received == (if nexts <= |chunks| then chunks[..nexts] else chunks)
    && (s.finish.Stopped? <==> nexts <= |chunks|)
    && (s.finish.Done? <==> nexts > |chunks| && w.scripts(o.provider, o.attempt).failure.None?)
    && (s.finish.Done? ==> s.finish.usage == FinalUsage(chunks))
    && (s.finish.Raised? && chunks != [] ==> s.finish.failure == Interrupted())
    && (s.finish.Raised? && chunks == [] ==> Silent(w, o))
  }

  /**
    What is received comes from the last opened stream; the others failed in silence; and the
    stream completes exactly when that stream ended without failure and the caller asked for
    more than it had.
  */
  predicate FromOneAttempt(w: World, s: Streamed, nexts: nat) {
    && (forall i | 0 <= i < |s.openings| - 1 :: Silent(w, s.openings[i]))
    && (if s.openings == [] then s.received == [] && !s.finish.Done? && !s.finish.Stopped?
        else SeenFrom(w, s, s.openings[|s.openings| - 1], nexts))
  }

  lemma OneOpening(w: World, s: Streamed, o: Opening, nexts: nat)
    requires s.openings == [o] && SeenFrom(w, s, o, nexts)
    ensures FromOneAttempt(w, s, nexts)
  {
  }

  lemma RetriedAfterSilence(w: World, o: Opening, rest: Streamed, nexts: nat)
    requires Silent(w, o) && rest.openings != [] && FromOneAttempt(w, rest, nexts)
    ensures FromOneAttempt(w, rest.(openings := [o] + rest.openings), nexts)
  {
    hide SeenFrom;
    var s := rest.(openings := [o] + rest.openings);
    assert s.openings[|s.openings| - 1] == rest.openings[|rest.openings| - 1];
    SameSeen(w, rest, s, rest.openings[|rest.openings| - 1], nexts);
  }

  lemma SameSeen(w: World, s: Streamed, t: Streamed, o: Opening, nexts: nat)
    requires SeenFrom(w, s, o, nexts) && t.received == s.received && t.finish == s.finish
    ensures SeenFrom(w, t, o, nexts)
  {
  }

  /** One attempt does not retry. */
  predicate LastAttempt(w: World, o: Opening, nexts: nat) {
    var script := w.scripts(o.provider, o.attempt);
    nexts <= |script.chunks| || script.failure.None? || script.chunks != []
    || !Retryable(w.policy, script.failure.value.category) || o.attempt >= w.policy.maxAttempts
  }

  lemma LastIsSeen(w: World, provider: string, attempt: nat, nexts: nat)
    requires 1 <= attempt <= w.policy.maxAttempts && nexts >= 1 && LastAttempt(w, Opening(provider, attempt), nexts)
    ensures Attempts(w, provider, attempt, nexts).openings == [Opening(provider, attempt)]
    ensures SeenFrom(w, Attempts(w, provider, attempt, nexts), Opening(provider, attempt), nexts)
    ensures !Attempts(w, provider, attempt, nexts).finish.Exhausted?
  {
  }

  lemma OthersRetry(w: World, provider: string, attempt: nat, nexts: nat)
    requires 1 <= attempt <= w.policy.maxAttempts && !LastAttempt(w, Opening(provider, attempt), nexts)
    ensures attempt < w.policy.maxAttempts && Silent(w, Opening(provider, attempt))
    ensures var rest := Attempts(w, provider, attempt + 1, nexts);
            Attempts(w, provider, attempt, nexts) == rest.(openings := [Opening(provider, attempt)] + rest.openings)
  {
  }

  lemma {:induction false} AttemptsFromOne(w: World, provider: string, attempt: nat, nexts: nat)
    requires 1 <= attempt <= w.policy.maxAttempts && nexts >= 1
    ensures FromOneAttempt(w, Attempts(w, provider, attempt, nexts), nexts)
    ensures Attempts(w, provider, attempt, nexts).openings != [] && !Attempts(w, provider, attempt, nexts).finish.Exhausted?
    decreases w.policy.maxAttempts - attempt
  {
    hide Attempts, LastAttempt, FromOneAttempt, SeenFrom, Silent;
    if LastAttempt(w, Opening(provider, attempt), nexts) {
      LastIsSeen(w, provider, attempt, nexts);
      OneOpening(w, Attempts(w, provider, attempt, nexts), Opening(provider, attempt), nexts);
    } else {
      OthersRetry(w, provider, attempt, nexts);
      AttemptsFromOne(w, provider, attempt + 1, nexts);
      RetriedAfterSilence(w, Opening(provider, attempt), Attempts(w, provider, attempt + 1, nexts), nexts);
    }
  }

  /** Whoever falls back after a provider has received nothing from it. */
  lemma FallbackIsSilent(w: World, s: Streamed, nexts: nat)
    requires FromOneAttempt(w, s, nexts) && s.finish.Raised? && FallsBack(w.policy, s.finish.failure)
    ensures s.received == [] && forall o | o in s.openings :: Silent(w, o)
  {
    forall o | o in s.openings
      ensures Silent(w, o)
    {
      var i :| 0 <= i < |s.openings| && s.openings[i] == o;
    }
  }

  lemma {:induction false} RouteFromOne(w: World, route: seq<string>, nexts: nat)
    requires w.policy.maxAttempts >= 1 && nexts >= 1 && route != []
    ensures FromOneAttempt(w, Route(w, route, nexts), nexts) && !Route(w, route, nexts).finish.Exhausted?
    decreases |route|
  {
    var s := StreamProvider(w, route[0], nexts);
    if route[0] in w.supports {
      AttemptsFromOne(w, route[0], 1, nexts);
    }
    if s.finish.Raised? && !s.finish.failure.kind.BudgetExceeded? && |route| > 1 && FallsBack(w.policy, s.finish.failure) {
      FallbackIsSilent(w, s, nexts);
      RouteFromOne(w, route[1..], nexts);
      SilentBefore(w, s, Route(w, route[1..], nexts), nexts);
    }
  }

  lemma SilentBefore(w: World, s: Streamed, rest: Streamed, nexts: nat)
    requires s.received == [] && (forall o | o in s.openings :: Silent(w, o)) && nexts >= 1
    requires FromOneAttempt(w, rest, nexts)
    ensures FromOneAttempt(w, Streamed(s.received + rest.received, s.openings + rest.openings, rest.finish), nexts)
  {
    hide Silent;
    var t := Streamed(s.received + rest.received, s.openings + rest.openings, rest.finish);
    assert t.received == rest.received;
    if rest.openings != [] {
      SameSeen(w, rest, t, rest.openings[|rest.openings| - 1], nexts);
    } else if s.openings != [] {
      SilentIsSeen(w, t, s.openings[|s.openings| - 1], nexts);
    }
  }

  lemma SilentIsSeen(w: World, s: Streamed, o: Opening, nexts: nat)
    requires Silent(w, o) && nexts >= 1 && s.received == [] && !s.finish.Done? && !s.finish.Stopped?
    ensures SeenFrom(w, s, o, nexts)
  {
  }

  /**
    A stream comes from one attempt. Across all retries and fallbacks, the caller receives a
    prefix of the chunks of one attempt of one provider, with provider and model filled in:
    the whole of them when the stream completes or fails. No stream is opened after the first
    chunk. Usage is added to the ledger once, and only on completion, which a caller reaches
    only by asking beyond the last chunk.
  */
  lemma StreamFromOneAttempt(w: World, route: seq<string>, nexts: nat, l: Ledger)
    requires w.policy.maxAttempts >= 1 && route != []
    ensures var s := Stream(w, route, nexts);
            && !s.finish.Exhausted?
            && (nexts == 0 ==> s.openings == [] && s.received == [])
            && (nexts > 0 ==> FromOneAttempt(w, s, nexts))
            && (s.received != [] ==>
                  s.openings != [] && s.received <= ChunksOf(w, s.openings[|s.openings| - 1]) &&
                  forall i | 0 <= i < |s.openings| - 1 :: w.scripts(s.openings[i].provider, s.openings[i].attempt).chunks == [])
            && LedgerAfter(l, s) == (if s.finish.Done? then ApplyUsage(l, FinalUsage(ChunksOf(w, s.openings[|s.openings| - 1]))) else l)
  {
    hide Route, ChunksOf, FinalUsage;
    if nexts > 0 {
      RouteFromOne(w, route, nexts);
      FromOneFacts(w, Route(w, route, nexts), nexts);
    }
  }

  lemma FromOneFacts(w: World, s: Streamed, nexts: nat)
    requires FromOneAttempt(w, s, nexts)
    ensures s.received != [] ==>
              s.openings != [] && s.received <= ChunksOf(w, s.openings[|s.openings| - 1]) &&
              forall i | 0 <= i < |s.openings| - 1 :: w.scripts(s.openings[i].provider, s.openings[i].attempt).chunks == []
    ensures s.finish.Done? ==> s.openings != [] && s.finish.usage == FinalUsage(ChunksOf(w, s.openings[|s.openings| - 1]))
  {
    hide ChunksOf, FinalUsage;
    forall i | 0 <= i < |s.openings| - 1
      ensures w.scripts(s.openings[i].provider, s.openings[i].attempt).chunks == []
    {
      assert Silent(w, s.openings[i]);
    }
  }
}
