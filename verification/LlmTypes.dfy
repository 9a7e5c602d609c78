/** Usage, budgets, retry policies and failures of kernel/llm/types.py and providers.py. */
module LlmTypes {
  import opened Common

  /** Token counts as a provider reports them; a count may be unknown. */
  datatype Usage = Usage(prompt: Option<nat>, completion: Option<nat>, total: Option<nat>)

  datatype Ledger = Ledger(prompt: nat, completion: nat, total: nat)

  function Empty(): Ledger {
    Ledger(0, 0, 0)
  }

  function Known(count: Option<nat>): nat {
    if count.Some? then count.value else 0
  }

  function ApplyUsage(l: Ledger, usage: Option<Usage>): Ledger {
    if usage.None? then l
    else Ledger(l.prompt + Known(usage.value.prompt), l.completion + Known(usage.value.completion), l.total + Known(usage.value.total))
  }

  function Plus(a: Ledger, b: Ledger): Ledger {
    Ledger(a.prompt + b.prompt, a.completion + b.completion, a.total + b.total)
  }

  /** The known counts of a usage report. */
  function Counts(usage: Option<Usage>): Ledger {
    if usage.None? then Ledger(0, 0, 0)
    else Ledger(Known(usage.value.prompt), Known(usage.value.completion), Known(usage.value.total))
  }

  /** Applying usage is adding its known counts. */
  lemma ApplyIsPlus(l: Ledger, u: Option<Usage>)
    ensures ApplyUsage(l, u) == Plus(l, Counts(u))
  {
  }

  datatype Budget = Budget(maxPrompt: Option<nat>, maxCompletion: Option<nat>, maxTotal: Option<nat>, strict: bool)

  datatype Kind = PromptTokens | CompletionTokens | TotalTokens

  predicate Over(limit: Option<nat>, used: nat) {
    limit.Some? && used > limit.value
  }

  /** The kinds of tokens over their limits. */
  function CheckBudget(b: Budget, l: Ledger): set<Kind> {
    (if Over(b.maxPrompt, l.prompt) then {PromptTokens} else {}) +
    (if Over(b.maxCompletion, l.completion) then {CompletionTokens} else {}) +
    (if Over(b.maxTotal, l.total) then {TotalTokens} else {})
  }

  /** The kinds over their limits once `maxTokens` more completion tokens are counted. */
  function CheckRequest(b: Budget, l: Ledger, maxTokens: Option<nat>): set<Kind> {
    CheckBudget(b, l) +
    (if maxTokens.None? then {}
     else (if Over(b.maxCompletion, l.completion + maxTokens.value) then {CompletionTokens} else {}) +
          (if Over(b.maxTotal, l.total + maxTokens.value) then {TotalTokens} else {}))
  }

  /** A request is refused when a strict budget has something over its limit. */
  predicate Refuses(b: Option<Budget>, l: Ledger, maxTokens: Option<nat>) {
    b.Some? && b.value.strict && CheckRequest(b.value, l, maxTokens) != {}
  }

  /** A completed answer is followed by an error when a strict budget is then over a limit. */
  predicate Overdrawn(b: Option<Budget>, l: Ledger) {
    b.Some? && b.value.strict && CheckBudget(b.value, l) != {}
  }

  datatype ErrorKind = ProviderError | StreamingUnsupported | BudgetExceeded | OtherError

  /** An exception: its category as the runtime classifies it, and its class. */
  datatype Failure = Failure(category: string, kind: ErrorKind) {
    predicate FromProvider() {
      kind.ProviderError? || kind.StreamingUnsupported?
    }
  }

  datatype RetryPolicy = RetryPolicy(maxAttempts: nat, retryOn: set<string>)

  predicate Retryable(p: RetryPolicy, category: string) {
    category != "configuration" && category in p.retryOn
  }
}
