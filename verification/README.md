# A verified model of SulcusOS

SulcusOS runs LLM agents as supervised processes. This project models its five components with the most intricate logic in Dafny and proves what they keep, over every input, every run or every reachable state.

**The micro-compiler** (`kernel/toolchain.py`). A small Python subset is lowered to structured WebAssembly. `MicroPython` gives the source a meaning, `Wasm` gives the target its validation and execution rules (WebAssembly Core Specification 1.0, sections 3.3.3, 3.3.5, 4.4.3 and 4.4.5), `Toolchain` is the compiler, and `ToolchainAcceptance` says which texts it accepts. Numbers are opaque: both sides share uninterpreted literals, operators and comparisons, so nothing is said about rounding. Loops are bounded by a fuel that both sides count alike; a run that needs more fuel for every fuel diverges. Source operations that raise are excluded where a theorem says so.

**The process registry** (`kernel/process.py`). `Registry` has one function for each lock-protected section. `RegistrySystem` makes them the steps of a transition system in which sections of different operations interleave: an isolated startup that fails in its second section and the rollback that follows later are separate steps, and so are the beginning and the end of a kill, between which the killed process's task may begin and start children. `RegistryInvariant` and `RegistryRuns` prove an invariant of every reachable state under the conditions of `RegistrySystem.Enabled`; `RegistryRaces` shows on reachable states what happens without them. `RegistryKill`, `RegistryAutoKill`, `RegistryRestart`, `RegistryRecovery` and `RegistryCrash` follow single operations from start to end; `RegistryVerdict` says over the records alone who is restarted and what a startup demands. `ProcessRegistry` is the object with its methods and loops.

**Tiered memory** (`kernel/memory_store.py`, `src/memory.rs`). `MemoryStore` models hot, warm and cold records with the record file, `MemoryManager` the object; `MemoryContents` follows what the records hold. `PageTable` models the page table with 64-bit words that wrap around, as they do in a release build; a debug build, such as `maturin develop` makes by default, panics where the model wraps. `ContextMemory` is its manager.

**The tool loop** (`kernel/agent_tool_loop.py`, `kernel/tools/runtime.py`). `SchemaValidator` is the argument validator, `SchemaErrors` says which error it reports, `ToolLoop` is the conversation between a model and tools, `ToolLoopMessages` says what the model and the caller are told, `ToolLoopProcedures` the loops themselves, including a parallel group whose futures complete in any order.

**The LLM runtime** (`kernel/llm/runtime.py`, `cache.py`, `types.py`). `LlmStream` models streaming with retries and fallbacks, `LlmChat` chat requests with budget, cache, retries and fallbacks, `LlmRuntime` the object with its loops; `LlmRoutes` and `LlmStreamRoutes` say which providers are asked, how often, and what is written down. `PyValues` are the Python values a request carries, with keys of any kind, non-finite floats and instances of any class; `LlmKeys` says which requests share a cache key, `LlmCache` when the cache changes an answer, and `LlmBudget` follows runs of chats and of streams that are opened and drained at different times.

Where the code does not meet a property that its design suggests, the code is kept as it is, and the lemmas named here exhibit inputs on which the property fails and state when it holds.

- `return` ends a function: `ReturnBeforeLoopDiverges`, `ValueSurvivesExactly`.
- A compiler object can be used again after an error: `ReusableExactly`, `RejectedBodyPoisons`.
- An automatic kill removes the killed process from its supervisor's list: `FailedAutoKillStaysListed`.
- Restarted children keep their order: `LateDownOvertakes`, `OrderKeptExactly`.
- The name table knows every registered process: `LateRollbackLosesAName`, `LateRollbackExactly`; `EndDuringKillLosesAName`, `OverlappingKillsLoseAName`, `CleanupKeepsTable`.
- A live process has a live parent that lists it: `LateChildIsStranded`, `KillEndExactly`.
- A failed start leaves no trace: `ReservedNameBreaksControlPlane`, `FailedStart`, `FailedCommit`.
- A recall that returns nothing changes nothing: `NothingReturnedOneMarked`, `NegativeLimitStillTouches`.
- The page table counts its active tokens: `AppendCounted`, `PageInCounted`.
- Parallel execution behaves like sequential execution: `UnrenderableResultDiverges`, `ParallelIsSafeExactly`, `ParallelRefinesSequential`.
- The cache changes no answer: `BudgetBreaksTransparency`, `RunsAgreeExactly`.
- Different requests have different keys: `KeyConfusesInstances`, `KeyConfusesKeys`, `KeyConfusesClassNames`, `KeyConfusesFloats`, `KeyAgreesExactly`, `FormDeterminesReadable`, `FormDeterminesValue`.
- Honoured token limits keep the completion budget: `OverlapBreaksBound`, `OpenStreamsFitExactly`.

The objects hold records and agents as values in maps, as the Python dictionaries do by key. Each method's contract equates the new state with a specification function of the old one; the lemmas are about these functions.

## Model

| member | source | states |
|---|---|---|
| Wasm.ValidFuncSound | kernel/toolchain.py:55-84 | Type soundness of the target: a call of a validated function never gets stuck; it returns exactly one f32 or runs for ever |
| Wasm.FrameRule | kernel/toolchain.py:106-133 | Code run above other stack contents behaves the same and leaves what is below untouched |
| Wasm.MoreFuel | kernel/toolchain.py:106-133 | A run that ends with some fuel ends alike with more |
| ToolchainMeaning.ExprRuns | kernel/toolchain.py:186-231 | If the source evaluates an accepted expression to v, its code pushes exactly v and changes neither locals nor the stack below |
| ToolchainMeaning.LoopRuns | kernel/toolchain.py:106-133 | The code of a `while`, at any nesting depth, needs more fuel exactly when the source loop does, and otherwise ends with the same final variables, dropping what the body left; each branch resolves to its own loop |
| ToolchainMeaning.CallsAgree | kernel/toolchain.py:55-84 | Source and target calls agree fuel by fuel on divergence and on the returned value |
| ToolchainMeaning.CompilerCorrect | kernel/toolchain.py:55-250 | For a validated function whose last statement produces the value, on arguments on which the source does not raise: the target returns v exactly when the source does, and diverges exactly when the source does |
| ToolchainMeaning.MeaningPreserved | kernel/toolchain.py:151-154 | A source run that returns v makes the target return v whenever no loop follows the value-producing statement |
| ToolchainMeaning.ValueSurvivesExactly | kernel/toolchain.py:151-154 | When the source has returned v, the target returns v if and only if the statements after the returning one, run from the variables at that point, terminate |
| ToolchainMeaning.ReturnsOrDiverges | kernel/toolchain.py:151-154 | Without that condition the target still never returns anything but v: it returns v or diverges |
| ToolchainMeaning.ReturnBeforeLoopDiverges | kernel/toolchain.py:151-154 | `return` emits no branch: a validated function with a loop after its `return` returns in the source and diverges in the target |
| ToolchainValidation.ValidatesExactlyWhen | kernel/toolchain.py:72-104 | The emitted function validates as [] -> [f32] if and only if exactly one top-level statement produces a value and no comparison is used as a value |
| ToolchainValidation.EmittedIsScoped | kernel/toolchain.py:252-282 | Every accepted function, valid or not, refers only to declared locals and to labels in range |
| ToolchainValidation.ModuleValidatesExactlyWhen | kernel/toolchain.py:33-53 | A whole accepted module validates exactly when each definition meets that condition and no exported name is defined twice |
| ToolchainValidation.VisitItemsExactly | kernel/toolchain.py:46-53 | A module is accepted exactly when every item is a definition that compiles; its functions are then added in order |
| ToolchainValidation.RejectedBodyPoisons | kernel/toolchain.py:46-74 | What a module leaves behind, accepted or not: the definitions before the first refused item stay in the compiler object, and it is stuck inside a function exactly when that item is a definition with an allowed signature whose body does not compile |
| ToolchainValidation.ReusableExactly | kernel/toolchain.py:33-74 | After any module the object accepts the next one exactly when every item of that compiles and no body of the first was rejected; its result then also holds the definitions that the first left behind |
| ToolchainAcceptance.AcceptedExactly | kernel/toolchain.py:55-282 | A function is accepted exactly when, by its text alone, its signature is plain, it assigns only single names, uses only the four operators and six relations, has one-statement `if` branches and plain `while` bodies, and reads only parameters and assigned names; otherwise the error blames what is there: something outside the subset, an unknown name, an import |
| ToolchainAcceptance.ModuleAcceptedExactly | kernel/toolchain.py:33-53 | A module is accepted exactly when every item is such a definition, and its exports have their names and parameters in order |
| ToolchainAcceptance.FirstRefusal | kernel/toolchain.py:46-53 | Otherwise the error is that of the first item that is not |
| Toolchain.AgentCodeCompiler.CollectLocalNames | kernel/toolchain.py:252-272 | The work-list walk returns the assigned names that are no parameters, or rejects |
| Toolchain.AgentCodeCompiler.CompileWhileLoop | kernel/toolchain.py:106-133 | The loop over the body yields the block, loop, test, exit and back branch |
| Toolchain.AgentCodeCompiler.VisitFunctionDef | kernel/toolchain.py:55-84 | Leaves the visitor state that the specification says, also when it rejects |
| Toolchain.AgentCodeCompiler.Compile | kernel/toolchain.py:33-53 | The exports of the whole module, or the first error |
| RegistryKill.KillExact | kernel/process.py:790-845 | Recursive kill terminates and is exact: every active process of the subtree ends killed, without name, mailbox and table; the root leaves its parent's list; no other record and no other name changes; the registry is tidy again |
| RegistryKill.KillIsReap | kernel/process.py:790-845 | The recursion over child lists equals killing the whole set of active descendants at once |
| RegistryAutoKill.AutoKillReplaces | kernel/process.py:832-857 | An automatic kill under a live supervisor, of a process that can restart, puts a new process of the same script and policy in its place in the list, and leaves the supervisor's restart history and count alone, so the budget is not consulted |
| RegistryAutoKill.FailedAutoKillStaysListed | kernel/process.py:832-857 | The killed process stays in its supervisor's list exactly when the supervisor is live and the process cannot restart: its script does not load, its name or mailbox is held outside the killed subtree, or a registration fails |
| RegistryRestart.RecoveryRebuilds | kernel/process.py:1207-1288 | Under every strategy and whichever affected children may be restarted, a complete recovery replaces those that were down in place, kills those that ran and brings them back at the end of the list, all under consecutive fresh PIDs that run their scripts; the other children keep places and records |
| RegistryRestart.OneForOneRebuilds | kernel/process.py:1301-1309 | A complete one_for_one recovery replaces the failed child in its own place and touches no sibling |
| RegistryRestart.RestForOneRebuilds | kernel/process.py:1301-1309 | A complete rest_for_one recovery keeps the list before the failed child and those children, and replaces the rest by consecutive fresh PIDs that run the same scripts; they keep the order exactly when no child that was down follows a running one there |
| RegistryRestart.OneForAllRebuilds | kernel/process.py:1301-1309 | A complete one_for_all recovery leaves fresh PIDs that run the same scripts; those that were down come first, in order, then the others; the order is kept exactly when that changes nothing |
| RegistryRestart.OrderKeptExactly | kernel/process.py:1330-1349 | The restarted children keep their order exactly when none that was down follows a running one |
| RegistryRestart.OneRestart | kernel/process.py:1330-1349 | Link, replace and dedup together: a restarted child's PID takes the old one's place, or the end if it was running; the list stays free of duplicates and siblings keep their records |
| RegistryRecovery.RoundCompletesExactly | kernel/process.py:1246-1278 | A round of restarts completes exactly when, in its first state, each candidate's script loads, no registration fails, and its name is free once the earlier candidates' subtrees are dead and their names are taken again |
| RegistryRecovery.RecoveryCompletesExactly | kernel/process.py:1207-1288 | The same for a recovery, from the state in which the supervisor acts |
| RegistryRecovery.LateDownOvertakes | kernel/process.py:1330-1349 | A supervisor of three children of which the first and the last are down: one_for_all brings them back in another order |
| RegistryCrash.FallLeavesChildDown | kernel/process.py:1129-1146 | When a process ends in a tidy tree, its supervisor finds the whole subtree below it dead, the siblings and itself untouched, and the registry tidy |
| RegistryCrash.CrashRebuilds | kernel/process.py:1207-1288 | From the crash to the rebuilt list, under every strategy: the children of the crashed process die first; if the budget allows it and every restart succeeds, the affected children whose policy allows it run again under fresh PIDs, in place or at the end, and the others are untouched |
| RegistryCrash.FallenKill | kernel/process.py:1290-1299 | Killing the children of an ended process commutes with releasing that process's own resources |
| RegistryVerdict.VerdictExactly | kernel/process.py:1219-1244 | The verdict on an ended process in all cases, over raw fields: the children that the strategy covers come back, in list order, if they are permanent, or transient after a crash, when their number and the attempts within the window do not exceed the limit; what is recorded, forgotten, unlinked and escalated |
| RegistryVerdict.FallVerdictExactly | kernel/process.py:1207-1244 | The same read off the registry before a supervised process ends, by a crash or an exit |
| RegistryVerdict.CrashRestartsChosen | kernel/process.py:1207-1288 | A recovered crash in full: exactly these children run again, in place or at the end, and the budget allowed it |
| RegistryVerdict.StartExactly | kernel/process.py:612-672 | A start succeeds exactly when the script loads, the parent is starting or running, the name is free and no registration fails; the order of the errors; the new record holds the script's settings, and its parent lists it last |
| RegistryVerdict.ReadyExactly | kernel/process.py:753-783 | The same for an isolated startup, and the name that a failed one rolls back |
| RegistryVerdict.StartupCrashIsSupervised | kernel/process.py:726-743 | An isolated child that crashes while it starts is recorded as crashed under its live parent, last in its list |
| RegistryVerdict.RestartedRecord | kernel/process.py:1330-1338 | A restarted child has its predecessor's script and policy and one restart more |
| RegistryVerdict.FailedRestartEscalates | kernel/process.py:1264-1278 | A restart that fails under a live supervisor escalates it |
| RestartBudget.RestartIntensity | kernel/process.py:1318-1328 | Over any run with a nondecreasing clock every window of the configured length holds at most max_restarts recorded attempts, although old history is pruned and several attempts are recorded at once |
| RestartBudget.PruneKeeps | kernel/process.py:1318-1323 | Pruning drops no attempt that a later window could still see |
| RestartBudget.ChargeKeeps | kernel/process.py:1325-1328 | Recording the attempts of a granted request keeps every window within the budget |
| RegistryInvariant.StepKeeps | kernel/process.py:601-857 | Every step of every operation, interleaved in any order under the conditions listed below, keeps the registry invariant |
| RegistryInvariant.LateRollbackExactly | kernel/process.py:785-789 | The late rollback of a failed isolated startup keeps the invariant exactly when nobody holds its name by then |
| RegistryInvariant.KillEndExactly | kernel/process.py:824-845 | The last step of a kill keeps the invariant exactly when no child that was started under the process since the kill began still runs |
| RegistryRaces.LateRollbackLosesAName | kernel/process.py:753-789 | On a reachable state: an isolated startup fails on its supervision settings, another agent starts under its name, and the rollback leaves that live process without name, mailbox and table |
| RegistryRaces.LateChildIsStranded | kernel/process.py:1129-1130 | On a reachable state: a process whose task begins while it is being killed starts a child, and the end of the kill leaves the child live under a dead parent, in no list |
| RegistryRaces.EndDuringKillLosesAName | kernel/process.py:1129-1146 | On a reachable state: a process raises while it is being killed, its name is taken again, and the end of the kill drops the name of the new process |
| RegistryRuns.ReachableInv | kernel/process.py:419-448 | The invariant holds in every state that such steps reach |
| RegistryRuns.NamesAreABijection | kernel/process.py:612-672 | In every reachable state the name table is a bijection onto the processes that hold resources, and bus and memory manager know exactly these names, the control plane's, and what failed isolated startups have not rolled back yet |
| RegistryRuns.ParentsAreOlder | kernel/process.py:1416-1424 | Parent links go to smaller PIDs, so they form a forest |
| RegistryRuns.QuiescentTree | kernel/process.py:1416-1441 | When no kill runs and no ended process still has to detach children, every live process with a parent has a live parent that lists it exactly once |
| RegistryRuns.PidsAreNeverReused | kernel/process.py:1505-1508 | Across any run a PID keeps its name, script and policy, and a terminal process stays terminal |
| RegistryRuns.BudgetOverRuns | kernel/process.py:1229-1244 | In every reachable state no supervisor has exceeded its restart budget in any window |
| RegistryRuns.RollbackExact | kernel/process.py:1193-1205 | Rolling back a startup leaves the registry as it was exactly when nobody else used the name |
| RegistryRuns.FailedStart | kernel/process.py:612-672 | A failed in-process startup consumes at most a PID exactly when its parent was not running, its name was taken, or its name was free on bus and memory manager |
| RegistryRuns.FailedStartInRuns | kernel/process.py:612-672 | In every reachable state, under a permitted name that no failed isolated startup has left behind, a failed in-process startup changes nothing but the next PID |
| RegistryRuns.OverlappingKillsLoseAName | kernel/process.py:1182-1191 | Two overlapping kills of one process, between which its name is taken again, drop the new process's name while it stays registered |
| RegistryInvariant.CleanupKeepsTable | kernel/process.py:1182-1191 | Cleanup keeps every registered process in the name table exactly when the entry it pops is the process's own or there is none |
| RegistryInvariant.FailedCommit | kernel/process.py:648-671 | A failed registration is undone exactly when the name was new to bus and memory manager |
| RegistryInvariant.ReservedNameBreaksControlPlane | kernel/process.py:648-671 | An agent that takes a control-plane name fails to start and takes the control plane's mailbox down with it |
| ProcessRegistryClass.ProcessRegistry.Deduplicate | kernel/process.py:1345-1348 | The loop with a seen set keeps first occurrences |
| ProcessRegistryClass.ProcessRegistry.Kill | kernel/process.py:790-857 | The recursive kill: refused for unknown and terminal processes; otherwise the process is killed, and the result says whether an automatic restart failed |
| ProcessRegistryClass.ProcessRegistry.KillEach | kernel/process.py:805-807 | The loop over children kills them in order |
| ProcessRegistryClass.ProcessRegistry.DetachChildrenOf | kernel/process.py:1294-1299 | The loop over the children still listed detaches exactly them |
| ProcessRegistryClass.ProcessRegistry.RestartCandidates | kernel/process.py:1246-1278 | The restart loop stops at the first candidate that cannot be restarted |
| MemoryEviction.EvictionOptimal | kernel/memory_store.py:284-299 | Eviction is optimal for its order: survivors fit the budget and keep their order; compared field by field, every evicted record is less important than every survivor, or as important and accessed longer ago, or that too and older, or that too and earlier in the list; no lowest-first eviction that fits removes fewer |
| MemoryEviction.EvictShape | kernel/memory_store.py:284-299 | The survivors are the records not evicted, and without the last eviction the budget would not hold |
| MemoryRuns.MemoryConserved | kernel/memory_store.py:111-216 | After loading a file and any run of operations, hot and cold ids partition the records loaded or appended and neither forgotten nor dropped with their agent; the file, last line winning, rebuilds the index up to last accesses; agents are within budget; warm ids are distinct and all cold |
| MemoryRuns.PagedOutIsCold | kernel/memory_store.py:140-162 | In every reachable state paged_out_frames equals cold_frames |
| MemoryRuns.ReplayOfIndex | kernel/memory_store.py:308-321 | A rewritten file rebuilds exactly the index it lists |
| MemoryContents.ContentsConserved | kernel/memory_store.py:111-216 | Over every run each record in each tier has the data of the last line of its id in the loaded file, or of an append: process, time, content, tags, at least one token, importance between 0 and 1 |
| MemoryContents.LastLineWins | kernel/memory_store.py:308-316 | Loading keeps the last line of each id |
| MemoryContents.AppendExactly | kernel/memory_store.py:111-135 | An append in full: the record comes last among the hot ones, and what is evicted goes in that order to the end of the warm tier, of which the last ones stay, of the index and of the file |
| MemoryContents.RegisterExactly | kernel/memory_store.py:96-103 | A registration needs a name and a positive budget, and starts with empty tiers |
| MemoryContents.ForgetExactly | kernel/memory_store.py:204-216 | A removal says whether the record was anywhere; afterwards it is nowhere, and every other is where it was |
| MemoryManager.RecallReturnsBest | kernel/memory_store.py:170-202 | A recall returns the best matching records in descending order, as many as asked for or as there are |
| MemoryManager.FoundExactly | kernel/memory_store.py:179-197 | A query finds exactly the agent's matching records, each where its id is located first |
| MemoryManager.RecallMarksFound | kernel/memory_store.py:170-202 | Exactly the records at the head of the ranking, up to the limit, are marked as accessed, where they are found first: hot, then warm, then cold; every other record, agent and the file stay as they are |
| MemoryManager.NegativeLimitStillTouches | kernel/memory_store.py:199-202 | With a negative limit nothing is returned; the store stays as it is exactly when there are no more matches than the limit drops |
| MemoryManager.NothingReturnedOneMarked | kernel/memory_store.py:199-202 | A store of two records and a limit of -1: nothing is returned and one record changes |
| MemoryManager.RankedSorts | kernel/memory_store.py:198-198 | The ranking is a permutation with the more important first and, among equally important ones, the newer |
| MemoryManager.RankedIsStable | kernel/memory_store.py:198-198 | Records of one rank keep their order |
| MemoryManager.PersistentMemoryManager.LoadColdIndex | kernel/memory_store.py:308-316 | Replays the file line by line |
| MemoryManager.PersistentMemoryManager.AppendContextFrame | kernel/memory_store.py:111-135 | Appends a record, registering an unknown agent, and evicts; returns whether records went out, that is whether the file grew |
| MemoryManager.PersistentMemoryManager.EvictIfNeeded | kernel/memory_store.py:284-299 | The eviction loop; its 70% break never changes the outcome |
| MemoryManager.PersistentMemoryManager.ForgetInTiers | kernel/memory_store.py:204-210 | The loop over agents removes a record from every tier and says whether there was one |
| MemoryManager.PersistentMemoryManager.RewriteRecordsFile | kernel/memory_store.py:318-321 | The file lists the index |
| MemoryManager.PersistentMemoryManager.RecallRecords | kernel/memory_store.py:170-202 | Marks the found records where they were found and returns them |
| PageTable.PagesConserved | src/memory.rs:129-205 | After every run whose counts fit a word, the running count equals the sum over active pages and is within the limit, and each page's last active content is in place or in the last eviction of its id, pending or taken |
| PageTable.PageOutShortest | src/memory.rs:271-299 | A page-out evicts the shortest oldest-first run of active pages that brings the count to the target; the count stays exact, so the saturating subtraction never saturates |
| PageTable.CutUnique | src/memory.rs:271-299 | That run is unique |
| PageTable.TargetExact | src/memory.rs:76-78 | The target is 70% of the limit, rounded down, exactly when seven times the limit fits a word |
| PageTable.AppendCounted | src/memory.rs:155-167 | An append keeps the count exact exactly when the old count and the new page fit a word; beyond that the count wraps and no page goes out |
| PageTable.PageInCounted | src/memory.rs:170-205 | A page-in keeps the count exact exactly when the page was active or fits a word beside the active ones; otherwise the count wraps and no page goes out |
| PageTable.PageInRestores | src/memory.rs:170-205 | Paging a page in with the content of its last eviction restores it exactly, unless the same call evicts it again with that content |
| PageTable.SettleKeeps | src/memory.rs:161-167 | A page-out loses no content: each page keeps it or leaves it in the pending evictions |
| PageTable.PagesStay | src/memory.rs:129-205 | No operation changes a page's id, time or size; an append adds one page with the clock's times and its place |
| ContextMemory.ContextMemoryManager.AppendContextFrame | src/memory.rs:129-168 | Every error and its effect: a clock before the epoch still creates the agent's table |
| ContextMemory.ContextMemoryManager.PageInFrame | src/memory.rs:170-205 | The search for the page, the count, and the page-out |
| ContextMemory.ExecutePageOut | src/memory.rs:271-299 | The loop over pages computes the specified page-out |
| SchemaValidator.ArgumentsConform | kernel/tools/runtime.py:257-294 | Sound and complete: arguments have no error exactly when they conform to the schema |
| SchemaValidator.ValueConforms | kernel/tools/runtime.py:297-328 | The same for values of every declared type, at any depth |
| SchemaValidator.KeysAreSorted | kernel/tools/runtime.py:279-293 | Keys are visited in strictly increasing order, so the first error is determined |
| SchemaErrors.ArgumentsReported | kernel/tools/runtime.py:257-294 | Which error is reported: a malformed schema part, the first missing name, the smallest unknown name, or the smallest argument that does not fit, with what is wrong with it |
| SchemaErrors.ValueReported | kernel/tools/runtime.py:297-328 | The same for a value: its type, the error of its fields under its name, or that of its first bad item under its index |
| SchemaValidator.ValidateArguments | kernel/tools/runtime.py:257-294 | The procedure returns the first of all errors in the fixed order, and none exactly when the arguments conform |
| SchemaValidator.ValidateValue | kernel/tools/runtime.py:297-328 | The same for a value |
| ToolLoopRuns.ParallelRefinesSequential | kernel/agent_tool_loop.py:208-721 | Over whole runs parallel and sequential mode have the same reason and histories, with the sequential results and tool runs among the parallel ones, exactly when the sequential run does not end in an exception of a group that runs in parallel; then the runs are equal unless a tool error stopped them |
| ToolLoopRuns.ParallelIsSafeExactly | kernel/agent_tool_loop.py:795-888 | For given tools, policy and advertised names: parallel mode refines sequential mode for every model, configuration and history exactly when each call that may run of a tool marked parallel-safe returns something that has a text |
| ToolLoopRuns.RenderableToolsRefine | kernel/agent_tool_loop.py:795-888 | For such tools the runs are equal unless a tool error stops them; then the reasons agree and the sequential results are a prefix |
| ToolLoopRuns.UnrenderableResultDiverges | kernel/tools/types.py:192-200 | A result without a text makes the sequential run raise and the parallel one report a tool error |
| ToolLoopRuns.GroupsAgree | kernel/agent_tool_loop.py:723-888 | A group that neither raises nor stops early has the same outcomes in both modes |
| ToolLoopRuns.ProtocolIsPaired | kernel/agent_tool_loop.py:1192-1218 | Every history sent to the model has, after each assistant message with calls, exactly one tool message per call with the calls' ids in order |
| ToolLoopRuns.RunIsBounded | kernel/agent_tool_loop.py:276-721 | At most max_steps model calls, at most one group fewer, and the code after the loop is unreachable |
| ToolLoopRuns.InvokedExactly | kernel/tools/runtime.py:50-162 | An attempt applies a tool's function at most once, and exactly when the call is permitted, advertised, registered and its arguments conform to the schema |
| ToolLoopRuns.GroupRunsExactly | kernel/agent_tool_loop.py:795-888 | A parallel group applies the functions of exactly its calls that may run, each as often as it was asked for |
| ToolLoopRuns.OnlyPermittedToolsRun | kernel/agent_tool_loop.py:57-65 | In no round and no mode does a denied, unadvertised or unregistered tool run, nor one with invalid arguments |
| ToolLoopMessages.RunExplained | kernel/agent_tool_loop.py:276-721 | Over whole runs, from the tools, the policy and the model's replies alone: each history sent is the one before with the model's answer and one message per call, which holds the tool's text if the call may run and returns one, and otherwise the reason; the results say the same; and how the run ends |
| ToolLoopMessages.OutcomeTells | kernel/agent_tool_loop.py:1307-1354 | What the result of one call says, in either mode: the tool's text, or the denial, the rejection, the validation error, the failure or the timeout |
| ToolLoopMessages.OutcomeCategory | kernel/agent_tool_loop.py:1307-1354 | The error category of each, and which are denials |
| ToolLoopMessages.GroupModeExactly | kernel/agent_tool_loop.py:1357-1384 | A group runs concurrently exactly when that is asked for and every granted call names a registered tool marked parallel-safe; then all that may run do; otherwise calls are done in order, up to an exception or the first failure that stops them |
| ToolLoopProcedures.AnyOrder | kernel/agent_tool_loop.py:842-864 | What a parallel group runs does not depend on the order in which its futures complete |
| ToolLoopProcedures.ExecuteSequentially | kernel/agent_tool_loop.py:723-793 | The sequential group loop, with denial, exception and early stop |
| ToolLoopProcedures.CompleteFutures | kernel/agent_tool_loop.py:842-864 | The futures complete in any order, each recording what it invoked |
| ToolLoopProcedures.ExecuteInParallel | kernel/agent_tool_loop.py:795-888 | Outcomes are filled in by index, whatever the completion order |
| ToolLoopProcedures.RunLoop | kernel/agent_tool_loop.py:208-721 | The round loop computes the specified run for every schedule of futures |
| LlmStream.StreamFromOneAttempt | kernel/llm/runtime.py:248-482 | Across all retries and fallbacks the caller receives a prefix of one attempt of one provider, all of it if the stream completes or fails; no stream is opened after the first chunk; final usage is counted once and only on completion |
| LlmStream.RouteFromOne | kernel/llm/runtime.py:248-361 | Every stream opened before the last one failed without a chunk |
| LlmStreamRoutes.RouteExactly | kernel/llm/runtime.py:248-482 | Which streams are opened, in full: attempts of one provider follow silent failures worth another, up to the limit; the next provider that can stream follows one that hands over; what the caller receives, chunk by chunk, and how it ends |
| LlmStreamRoutes.OpenExactly | kernel/llm/runtime.py:181-246 | A stream request is refused exactly when a strict budget is over a limit with the reserved tokens, and otherwise yields a stream over its route |
| LlmStreamRoutes.DrainExactly | kernel/llm/runtime.py:345-361 | What draining a stream counts and charges |
| LlmCache.CacheIsTransparent | kernel/llm/runtime.py:895-965 | For providers that depend only on the key fields, with no budget or one that only warns, every run of chats and clears, with opt-outs, retries and fallbacks, gives the same results with and without the cache, up to response metadata |
| LlmCache.TransparentWhileAfforded | kernel/llm/runtime.py:790-832 | Under any budget the results agree before the run without the cache meets its first budget error, and throughout if it meets none |
| LlmCache.ChatAgreesExactly | kernel/llm/runtime.py:527-602 | From any two sound states, a chat answers the same with and without the cache exactly when both or neither are refused or overdrawn, which is read off their ledgers and the stored keys |
| LlmCache.RunsAgreeExactly | kernel/llm/runtime.py:604-759 | Whole runs agree exactly when this holds at each of their chats |
| LlmCache.ChatIs | kernel/llm/runtime.py:145-179 | What a chat answers and charges, from the providers' first answer, the ledger and the stored keys alone |
| LlmCache.HitIsFree | kernel/llm/runtime.py:895-937 | A hit calls no provider and changes neither ledger |
| LlmCache.RoutedWithoutCalls | kernel/llm/runtime.py:604-759 | A chat changes the ledgers only after a provider call |
| LlmRoutes.RouteExactly | kernel/llm/runtime.py:617-624 | The selected provider, the caller's or the default, comes first; then the fallbacks other than it, each once, in the order in which they are first listed; and the errors when none or an unknown one is selected |
| LlmRoutes.SelectedFirst | kernel/llm/runtime.py:604-680 | The first call of a chat is to the selected provider, unless that has a stored answer |
| LlmRoutes.ChatExactly | kernel/llm/runtime.py:527-759 | A chat in full: refused by a strict budget over a limit; otherwise each provider of the route in turn, up to the limit of attempts, until one has a stored answer, answers, or fails in a way that is not passed on; and what the ledgers and the cache then hold |
| LlmRoutes.AttemptsExactly | kernel/llm/runtime.py:1065-1136 | A provider is called again exactly after a failure worth another attempt, up to the limit |
| LlmRoutes.RefusesExactly | kernel/llm/runtime.py:790-832 | When a strict budget refuses a request or is overdrawn, limit by limit |
| LlmChat.KeyIgnores | kernel/llm/cache.py:93-130 | Timeouts, the cache option and other metadata do not change the key |
| LlmKeys.MessageReads | kernel/llm/cache.py:149-186 | What the key keeps of a message and of its tool calls |
| LlmKeys.KeyAgreesExactly | kernel/llm/cache.py:93-130 | Two requests share a key exactly when they are for one provider and the fields that it reads agree up to what the JSON form drops: lists and tuples, keys with the same text, instances of a class, and mappings that pass for either |
| LlmKeys.KeyTellsApart | kernel/llm/cache.py:93-130 | Among requests whose mappings have string keys, one without instances, non-finite floats and mappings that pass for them shares its key exactly with those that agree up to lists and tuples |
| LlmKeys.CanonicalSame | kernel/llm/cache.py:197-213 | Which values have the same canonical form |
| LlmKeys.FormDeterminesReadable | kernel/llm/cache.py:197-213 | Among values with string keys, the form determines a value up to lists and tuples exactly when it holds no instance, no non-finite float and no mapping that a class or a float could have left |
| LlmKeys.FormDeterminesValue | kernel/llm/cache.py:202-208 | Among all values, exactly when moreover it holds no mapping with a key |
| LlmKeys.KeyConfusesInstances | kernel/llm/cache.py:211-213 | Two requests that can be built and differ in an instance of one class, such as a byte string, share a key |
| LlmKeys.KeyConfusesKeys | kernel/llm/cache.py:204-208 | So do requests whose tool choices differ in a key and a string of the same text |
| LlmKeys.KeyConfusesClassNames | kernel/llm/cache.py:211-213 | So do an instance and a mapping that names its class |
| LlmKeys.KeyConfusesFloats | kernel/llm/cache.py:200-203 | So do a non-finite float and a mapping of its form |
| LlmBudget.LedgerIsTheSum | kernel/llm/types.py:215-226 | Over every run the ledger is the componentwise sum of the known usage of all answered provider calls and completed streams, including those whose caller got a budget error |
| LlmBudget.OverdrawnStaysClosed | kernel/llm/runtime.py:790-832 | Once a strict limit is exceeded no later chat reaches a provider and no later stream is opened; only streams that were open by then may still be drained |
| LlmBudget.CompletionBound | kernel/llm/runtime.py:790-818 | If every request carries a token limit that providers honour, and each request made while streams are open fits on top of their limits, completion tokens never exceed a strict limit |
| LlmBudget.OpenStreamsFitExactly | kernel/llm/runtime.py:181-246 | In every reachable state, the limit holds for all providers that honour the open streams' token limits and for every way to drain them exactly when the ledger and these limits fit together |
| LlmBudget.OverlappingStreams | kernel/llm/runtime.py:181-246 | Streams opened together are each accepted as if alone; after they are drained, in any order, the limit holds exactly when all that they report fits together |
| LlmBudget.OverlapBreaksBound | kernel/llm/runtime.py:181-246 | A run in which two streams, each within its own token limit, break the limit on completion tokens |
| LlmBudget.BudgetBreaksTransparency | kernel/llm/runtime.py:820-832 | With a budget a hit can succeed where a second provider call is one too many |
| LlmRuntime.LLMRuntime.CompleteWithRetries | kernel/llm/runtime.py:1065-1136 | The retry loop |
| LlmRuntime.LLMRuntime.SelectRoute | kernel/llm/runtime.py:1269-1270 | The loop that orders the providers of a request without repetitions |
| LlmRuntime.LLMRuntime.DrainStream | kernel/llm/runtime.py:248-361 | What a caller receives; cost and usage are recorded on completion, before a budget error |
| LlmRuntime.LLMRuntime.ChatWithRoute | kernel/llm/runtime.py:651-759 | The fallback loop |
| LlmRuntime.StreamWithRetries | kernel/llm/runtime.py:363-482 | The attempts of one provider, chunk by chunk |
| LlmRuntime.StreamRoute | kernel/llm/runtime.py:248-361 | The fallback loop of a stream |
| LlmRuntime.LastUsage | kernel/llm/runtime.py:416-417 | The usage of the last final chunk that reports one |

## Left out

- WAT text, `wat2wasm`, wasmtime and its fuel, `src/sandbox.rs`: foreign code; the model emits instruction trees.
- Error message texts of the compiler, rounding of floats, infinite literals and integers beyond a float; positional-only parameters, which the compiler ignores. A local that is read before it is assigned is zero in the target and raises in the source.
- Module loading, source preflight, operating-system processes and queues, the bridging of child messages; an isolated startup is modelled as steps (allocate, ready, rolled back, crashed, failed), not as a method.
- `monitor_child`, which can create cycles and second parents; external agent projects; mailbox delivery in `src/ipc.rs`; supervision events, snapshots and statistics.
- Kernel capabilities beyond success or failure of their registration; memory restoration on restart; restart backoff; execution modes of restarted children.
- RegistryInvariant.StepKeeps: assumes what the code does not check, as `RegistrySystem.Enabled` lists it. Agent names avoid the control plane's names and the startup placeholders (RegistryInvariant.ReservedNameBreaksControlPlane); a failed isolated startup is rolled back while nobody holds its name (RegistryRaces.LateRollbackLosesAName, RegistryInvariant.LateRollbackExactly); kills of one process do not overlap (RegistryRuns.OverlappingKillsLoseAName); a process does not end by itself while it is being killed (RegistryRaces.EndDuringKillLosesAName); and a kill ends when no child that was started meanwhile still runs (RegistryRaces.LateChildIsStranded, RegistryInvariant.KillEndExactly).
- RegistryRuns.ReachableInv: about states reached by steps under these conditions.
- RegistryRuns.NamesAreABijection: the same; a name taken over a late rollback is lost (RegistryRaces.LateRollbackLosesAName).
- RegistryRuns.QuiescentTree: the same; a child that outlives the kill of its parent is stranded (RegistryRaces.LateChildIsStranded).
- Snapshots and restoring from them, owner PIDs, record sources that cannot be written as JSON, and the bytes of the record file in `kernel/memory_store.py`.
- Strings that are not JSON reach `src/memory.rs` only through a predicate; the uniqueness of the text of a page id; lock poisoning; the wrap-around of the sum over all agents.
- Events, intermediate step records and metadata of the tool loop; tools that are not functions of their call; time limits other than as an outcome of the call.
- Providers' network clients; backoff sleeping; cost rates and decimal formatting; the digest of the cache key, taken as collision-free; response metadata that cannot be copied.
- LlmBudget.CompletionBound: covers runs in which a request that is made while streams are open fits on top of their token limits, because the runtime does not check that (LlmBudget.OverlapBreaksBound, LlmBudget.OpenStreamsFitExactly).
- A stream is drained in one go: what its caller does between two chunks of it is not modelled, only what happens between its opening and its draining.
- Unicode white space in the checks of a request, tool calls of a message that are neither in a list or a tuple nor in a mapping, attributes of objects among them, and the sign of a zero.
- Mappings with keys other than strings in tool schemas and tool arguments of `SchemaValidator`.
- Real clocks, UUIDs and files: times and fresh ids are parameters, the record file is a sequence of records.
