# Verification of the agent evaluation runner

This project models five parts of the evaluation runner (`apps/agent-evaluation-runner/src`)
and proves their central properties in Dafny 4.11. `dafny verify dfyconfig.toml` checks all
of it.

- **Tool schemas** (`Json`, `Patterns`, `PatternGrammar`, `Schema`, `SchemaMeaning`,
  `SchemaGrammar`, `SchemaBudget`, `Inspection`, `SchemaVacuity`, `SchemaMinima`,
  `ToolSchemas`): the compiler of a closed JSON Schema subset, its pattern compiler, its
  budgeted traversals, and the matcher. Main results: which schemas compile, keyword by
  keyword; compiling preserves meaning; early-exit counters decide whole-tree limits; which
  accepted schemas nothing satisfies, and which leave room for an argument.
- **Durable operations** (`OperationProtocol`, `OperationTraces`, `Checkpoints`, `Lineage`,
  `WorkspaceRuntime`, `FinalReceipts`, `PromiseQueue`, `ToolService`): claim, dispatch mark, sandbox effect and
  seal of a tool call; hash-linked checkpoints; cleanup; the final assessment; the
  per-attempt queue; what a call made again is answered.
- **Agent turn loop** (`AgentTurnLoop`, `LoopSafety`, `LoopMeaning`, `ServedRuns`, `RunTotals`):
  phases, ceilings, bootstrap, shared effects and every exit, with the tool service behind it.
  `LoopMeaning` reads off the world alone what `AgentTurnLoop` does step by step.
- **Attempt executor** (`FactCollector`, `AttemptRecovery`, `ExactRecovery`,
  `RecoveryExamples`, `ShardBudget`): the streaming collector, recovery from closed turns, turn
  receipts, and shard estimates. Main result: a resumed run is the uninterrupted one, seal for
  seal, and can submit, if and only if no seal left behind changed the snapshot.
- **Accounting** (`Accounting`): the gate on a closed turn, and the producer and the validator
  of its usage and cost.

## How the environment is modelled

- The ledger is one register per intent: unclaimed, claimed, dispatched, then sealed or
  unknown. The session keeps one effect per dispatch. In `OperationProtocol` any request may
  be lost before or after it takes effect, or arrive after its caller is gone, and any caller
  may crash between requests; a reply that a caller refuses is a lost reply followed by a
  crash.
- In `WorkspaceRuntime` the answers of one call are its parameters. The history of a binding
  is what the ledger recorded, acknowledged or not.
- In `ToolService` and `ServedRuns` the ledger keeps every seal, its claims carry the
  checkpoint it is at, and a resumed session is loaded at that checkpoint. What preflight and
  sandbox make of a call is a function of the call and the checkpoint. A submission is
  assessed over the durable seals and the receipts of the run's own calls, as in
  `WorkspaceRuntime.Runtime.Assess`; what the session answers is any function of turn and seals.
- `digest` is a function of which only injectivity is used (`Checkpoints`), or a term of what
  it digests (`Accounting`); a cleanup intent stands for its own digest.
- JSON objects are maps, so equality is equality of canonical text. A string is a sequence of
  Unicode scalar values, so its length is the number of code points.
- A world answers the turn loop turn by turn. A failure of any helper is an absent answer.

## Findings

- Effects that keep the snapshot are accepted only while the current checkpoint has no
  predecessor. After the first transaction of an attempt no read, dry run, preview or
  rejection by the sandbox can be accepted (`Checkpoints.ReadsAreAcceptableExactly`), so an
  attempt that passes its final assessment made them first
  (`WorkspaceRuntime.AssessedEffectsCameFirst`).
- The runtime's at-most-once guarantee rests on its environment: the reference ledger of
  `controlledWorkspaceRuntime.test.ts` (lines 944 on) acknowledges the same dispatch mark
  again, so callers of an attempt must be exclusive. Inside one runtime the promise queue
  makes them so (`PromiseQueue.ExclusiveInArrivalOrder`).
- Idempotence is per intent, and an intent names the current checkpoint
  (`controlledWorkspaceRuntime.ts:1516`). A run that sealed a snapshot change, lost its
  process and is resumed makes its first call anew, and can never submit again: the
  assessment lists all seals and compares them with the receipts of the resumed run alone
  (`controlledWorkspaceRuntime.ts:3164-3182`). Losing a process costs a run its submission
  exactly when a transaction was sealed before (`ExactRecovery.ResumedSubmitsExactly`,
  `RecoveryExamples.TransactionRunCannotResume`).
- A claim without a checkpoint, which is what the reference ledger of the tests gives, lets a
  binding go on only until the first snapshot change
  (`WorkspaceRuntime.UnstampedClaimsStopAtTheFirstChange`). With the ledger's checkpoint in
  each claim, the final lineage check fails exactly when the last event is a change whose
  seal was not acknowledged (`Lineage.RestoredLineageExactly`).
- An effect may carry 32 authority receipts and its seal too, but the seal also holds the
  preflight's: an effect with 32 is accepted and sealed, and the call never returns it
  (`WorkspaceRuntime.FullAuthorityIsNeverReturned`).
- A cleanup receipt kept after a lost seal is bound to one reason and one checkpoint. Retries
  for another reason stay cleanup-failed, however many, under a ledger that records what it
  is given.
- An array schema can ask for more distinct items than exist and still compile
  (`SchemaVacuity.SatisfiableExactly`). And a schema can have satisfying values of which none
  is within the limits on arguments: for each count exactly when the least it needs is over
  the limit (`ToolSchemas.EachLimitExactly`).
- With two turns allowed, a bootstrap first turn can run the loop into its ceiling error. It
  takes a policy that did not come from the configuration parser, which fixes seven turns
  (`runConfig.ts:1388-1400`).
- A turn with capability calls only gets no continuation receipt, and its turn receipt cannot
  be made: `RecoveryExamples.ObservingTurnHasNoReceipt` is a completed run, its submission
  signed off, that fails for it.
- A replayed failed transport has another synthetic payload than the original, so its response
  digest and the artifact byte total differ. The replay errs exactly when the bytes before the
  failed turn plus 40 exceed the safe-integer limit, which no parsed configuration reaches
  (`AttemptRecovery.CappedReplayNeverOverflows`).
- An accepted shard estimate need not cover the shard. A run may use one repair round more
  than its ceiling, and its byte total counts provider bytes, up to 67108864 a turn, which the
  estimate leaves out. With the frozen bounds of seven turns, four tool calls, two repairs and
  8388608 bytes both happen (`ShardBudget.FrozenEstimateFallsShort`).

## Model

| member | source | states |
|---|---|---|
| Patterns.ValidSimpleClassBody | apps/agent-evaluation-runner/src/controlledWorkspaceRuntimeSchema.ts:350-370 | the index loop accepts a class body exactly when some split of it into listed ranges and single literals, hyphens only at either end, exists |
| Patterns.ScanFindsTheSplit | apps/agent-evaluation-runner/src/controlledWorkspaceRuntimeSchema.ts:350-370 | the scan's result is the one and only such split: a body never splits in two ways |
| Patterns.EngineReadsTheSplit | apps/agent-evaluation-runner/src/controlledWorkspaceRuntimeSchema.ts:350-370 | an ECMAScript engine reads an accepted body as the union of the scanner's own tokens: no two characters meant apart become a range |
| Patterns.CompiledPatternIsExact | apps/agent-evaluation-runner/src/controlledWorkspaceRuntimeSchema.ts:372-459 | for each of the three compiled shapes, the matcher accepts precisely the strings the anchored pattern text denotes under a general reading of anchored regular expressions |
| Patterns.PrefixedPatternIsExact | apps/agent-evaluation-runner/src/controlledWorkspaceRuntimeSchema.ts:391-423 | the prefixed shape, rebuilt from an unescaped prefix and a reprinted suffix expression, denotes what the original text does |
| Patterns.MatchLengthIsBounded | apps/agent-evaluation-runner/src/controlledWorkspaceRuntimeSchema.ts:383-424 | every string a compiled pattern matches has a length within the computed code-point bounds |
| Patterns.PatternWitness | apps/agent-evaluation-runner/src/controlledWorkspaceRuntimeSchema.ts:383-424 | every length within those bounds is the length of a matching string, so the bounds are tight |
| PatternGrammar.CompilesExactly | apps/agent-evaluation-runner/src/controlledWorkspaceRuntimeSchema.ts:344-424 | a pattern compiles if and only if its text is at most 128 characters and is, between its anchors, plain text, one counted class, or a class after an escaped prefix of 1 to 96 characters, with a body that splits and counts in order |
| SchemaMeaning.StringMeaning | apps/agent-evaluation-runner/src/controlledWorkspaceRuntimeSchema.ts:549-594 | tightening a string's length bounds by its pattern's changes nothing of what the keywords accept |
| SchemaMeaning.ArrayMeaning | apps/agent-evaluation-runner/src/controlledWorkspaceRuntimeSchema.ts:619-676 | the array node accepts what minItems, maxItems, uniqueItems, items and the cap of 1024 accept |
| SchemaMeaning.ObjectCounts | apps/agent-evaluation-runner/src/controlledWorkspaceRuntimeSchema.ts:679-721 | raising the property minimum to the number of required names and lowering the maximum to the number of listed ones changes nothing |
| SchemaMeaning.ObjectMeaning | apps/agent-evaluation-runner/src/controlledWorkspaceRuntimeSchema.ts:679-734 | the object node accepts what required, properties, additionalProperties and the property counts accept |
| SchemaMeaning.CompilationPreservesMeaning | apps/agent-evaluation-runner/src/controlledWorkspaceRuntimeSchema.ts:461-734 | whenever a schema compiles, the matcher on its compiled form accepts a value if and only if every keyword of the schema, read directly, holds of it; the type keyword is read off its text |
| SchemaMeaning.ShapePreservesMeaning | apps/agent-evaluation-runner/src/controlledWorkspaceRuntimeSchema.ts:461-514 | the same of a node with its own const and enum left aside, which is what their coherence is checked with |
| SchemaGrammar.SchemasCompileExactly | apps/agent-evaluation-runner/src/controlledWorkspaceRuntimeSchema.ts:531-734 | a schema compiles if and only if, keyword by keyword and all the way down, it is one of the subset: known type and keys only, counts in range and leaving room for some value, a listing of different values each of the asked shape, required names among safe properties |
| SchemaGrammar.StringExactly | apps/agent-evaluation-runner/src/controlledWorkspaceRuntimeSchema.ts:549-594 | a string schema compiles exactly when its keywords are in order and some string fits them all |
| SchemaBudget.CompileNode | apps/agent-evaluation-runner/src/controlledWorkspaceRuntimeSchema.ts:531-734 | the compiler with its shared, early-exit counters succeeds exactly when the schema compiles and its whole-tree nodes, properties, enum items and depth fit what is left, with the same node, and leaves the counters at the exact totals |
| SchemaBudget.CompileCommonWithin | apps/agent-evaluation-runner/src/controlledWorkspaceRuntimeSchema.ts:297-342 | the const and enum part fails exactly when it is ill-formed or its enum items overrun the budget |
| SchemaBudget.CompileArray | apps/agent-evaluation-runner/src/controlledWorkspaceRuntimeSchema.ts:619-676 | an array is compiled exactly when its shell is in order and its items compile and fit one level down |
| SchemaBudget.CompileObject | apps/agent-evaluation-runner/src/controlledWorkspaceRuntimeSchema.ts:677-731 | an object is compiled exactly when its shell is in order and all its properties compile and fit together |
| SchemaBudget.CompileProperties | apps/agent-evaluation-runner/src/controlledWorkspaceRuntimeSchema.ts:711-717 | the property loop succeeds exactly when every property compiles and fits, in whatever order they are visited |
| Inspection.InspectBoundedJson | apps/agent-evaluation-runner/src/controlledWorkspaceRuntimeSchema.ts:214-269 | over a graph of cells, cyclic or shared, it accepts exactly the values that unfold to a finite tree whose nodes, depth, properties, array items and text bytes are all within limits, and returns that tree |
| Inspection.Visit | apps/agent-evaluation-runner/src/controlledWorkspaceRuntimeSchema.ts:223-256 | one visit with the counters spent so far accepts exactly the admissible trees, adds exactly the tree's counts, and restores the ancestor set |
| Inspection.VisitAll | apps/agent-evaluation-runner/src/controlledWorkspaceRuntimeSchema.ts:246-252 | visiting children one after another accepts exactly the lists whose combined counts are admissible |
| Inspection.CyclesDoNotUnfold | apps/agent-evaluation-runner/src/controlledWorkspaceRuntimeSchema.ts:237-255 | a reference found among its own ancestors has no finite tree, so refusing it refuses nothing else |
| Inspection.UnfoldsToOne | apps/agent-evaluation-runner/src/controlledWorkspaceRuntimeSchema.ts:223-256 | a value has at most one tree |
| ToolSchemas.Registry.CompileToolSchema | apps/agent-evaluation-runner/src/controlledWorkspaceRuntimeSchema.ts:741-757 | a token is issued exactly for bounded schemas of the subset that fit the budget, and no earlier token changes |
| ToolSchemas.Registry.ValidateCompiledToolArguments | apps/agent-evaluation-runner/src/controlledWorkspaceRuntimeSchema.ts:759-769 | schema-invalid exactly for an unknown token; valid exactly when the arguments are bounded and match the registered node |
| ToolSchemas.Registry.ValidateToolArguments | apps/agent-evaluation-runner/src/controlledWorkspaceRuntimeSchema.ts:775-786 | end to end: valid exactly when the schema is an accepted one and the arguments are a bounded value satisfying its keywords; a bad schema is told apart from bad arguments |
| SchemaVacuity.LanguageIsExact | apps/agent-evaluation-runner/src/controlledWorkspaceRuntimeSchema.ts:461-514 | every node accepts finitely many values, and the enumeration of them is exact |
| SchemaVacuity.CompiledIsWellFormed | apps/agent-evaluation-runner/src/controlledWorkspaceRuntimeSchema.ts:516-529 | coherence and the bound-emptiness rejections leave every compiled node well formed, all the way down |
| SchemaVacuity.SatisfiableExactly | apps/agent-evaluation-runner/src/controlledWorkspaceRuntimeSchema.ts:516-734 | a compiled schema is satisfied by some value if and only if it is fillable: the only obstacle is an array asking for more distinct items than its item schema accepts values |
| SchemaVacuity.AcceptedSchemaIsNotVacuous | apps/agent-evaluation-runner/src/controlledWorkspaceRuntimeSchema.ts:516-734 | every compiled schema with no uniqueItems minimum above one has a satisfying value |
| SchemaVacuity.LeafLanguageSize | apps/agent-evaluation-runner/src/controlledWorkspaceRuntimeSchema.ts:461-514 | how many values a pinned, null, boolean or bounded number node accepts, which is what the condition on distinct items compares with |
| SchemaVacuity.UniqueItemsCanBeVacuous | apps/agent-evaluation-runner/src/controlledWorkspaceRuntimeSchema.ts:656-674 | a concrete schema that compiles and that no value satisfies: two distinct nulls |
| SchemaMinima.LeastIsLeast | apps/agent-evaluation-runner/src/controlledWorkspaceRuntimeSchema.ts:461-514 | every value a compiled node accepts has at least as many properties, array items, or both as the least computed for the node |
| SchemaMinima.LeastIsReached | apps/agent-evaluation-runner/src/controlledWorkspaceRuntimeSchema.ts:461-514 | and some accepted value has exactly that many, so each minimum is attained |
| ToolSchemas.RefusedForCountsOnly | apps/agent-evaluation-runner/src/controlledWorkspaceRuntimeSchema.ts:214-269 | of a schema compiled within the budget, a satisfying value is refused as an argument only for its nodes, properties, array items or text: depth, numbers, keys and single arrays never bind |
| ToolSchemas.EachLimitExactly | apps/agent-evaluation-runner/src/controlledWorkspaceRuntimeSchema.ts:759-786 | for nodes, for properties and for array items: some satisfying value is within the argument limit if and only if the least the compiled schema needs is |
| ToolSchemas.LeastTogetherSuffices | apps/agent-evaluation-runner/src/controlledWorkspaceRuntimeSchema.ts:759-786 | a schema whose least properties and items add up to 2048 has a satisfying value within every count, admitted if and only if its text is short enough |
| ToolSchemas.AdmittedNeedsRoom | apps/agent-evaluation-runner/src/controlledWorkspaceRuntimeSchema.ts:759-786 | an admitted argument exists only where each least is within its limit |
| ToolSchemas.SatisfyingValuesCanAllBeUnbounded | apps/agent-evaluation-runner/src/controlledWorkspaceRuntimeSchema.ts:759-786 | a schema that compiles and has satisfying values, none of them within the limits on arguments: an instance on the wrong side of the condition on array items |
| OperationProtocol.AtMostOnce | apps/agent-evaluation-runner/src/controlledWorkspaceRuntime.ts:2883-3112 | over every run with crashes, lost requests, lost replies and requests that arrive after their caller is gone, the effect takes place at most once per intent, only after durable dispatch, and every value any caller returned is the one seal's output, carrying the executed effect |
| OperationProtocol.AtMostOnceExactly | apps/agent-evaluation-runner/src/controlledWorkspaceRuntime.ts:2989-3112 | the effect takes place at most once in every run if and only if callers of the attempt are exclusive or the ledger acknowledges a dispatch mark once |
| OperationProtocol.UnguardedExecutesTwice | apps/agent-evaluation-runner/src/controlledWorkspaceRuntime.ts:3065-3094 | a run in which two callers and a mark acknowledged twice perform the effect twice |
| OperationProtocol.SealsAreForever | apps/agent-evaluation-runner/src/controlledWorkspaceRuntime.ts:2907-2937 | once sealed, an intent keeps its seal in every continuation, and nothing returned is taken back |
| OperationProtocol.ExecutesOnlyWhenDispatched | apps/agent-evaluation-runner/src/controlledWorkspaceRuntime.ts:3065-3082 | an execute request is sent, and takes effect, only when the ledger already records the dispatch |
| OperationProtocol.RetryReturnsTheEffect | apps/agent-evaluation-runner/src/controlledWorkspaceRuntime.ts:2941-2987 | after any crashes, one undisturbed retry of a staged or sealed intent returns it without executing again |
| OperationProtocol.RunsKeepInvariant | apps/agent-evaluation-runner/src/controlledWorkspaceRuntime.ts:2883-3112 | the protocol invariant holds in every reachable state |
| OperationTraces.RequestsComeInOrder | apps/agent-evaluation-runner/src/controlledWorkspaceRuntime.ts:2989-3112 | in every run each request of a caller comes right after the one the protocol puts before it: claim, preflight, then rejection or mark, execute, seal, and reconciliation only where a reply failed or an operation was dispatched before |
| OperationTraces.ExecutesOnlyWhenAccepted | apps/agent-evaluation-runner/src/controlledWorkspaceRuntime.ts:3035-3082 | an execute request comes after an accepting preflight and an acknowledged mark of the same call, with nothing of that caller in between |
| OperationTraces.RejectsOnlyWhenRejected | apps/agent-evaluation-runner/src/controlledWorkspaceRuntime.ts:3035-3060 | a rejection is sealed right after a rejecting preflight of the same call |
| OperationTraces.NothingRunsUnaccepted | apps/agent-evaluation-runner/src/controlledWorkspaceRuntime.ts:3035-3082 | a request was sent to the sandbox only if some preflight accepted |
| OperationTraces.NothingIsRejectedUnlessRefused | apps/agent-evaluation-runner/src/controlledWorkspaceRuntime.ts:3035-3060 | a rejection is sealed, returned or on its way only if some preflight rejected |
| OperationTraces.CountsAreTheRuns | apps/agent-evaluation-runner/src/controlledWorkspaceRuntime.ts:3071-3082 | each execute request of the run took effect, was dropped, or is still on its way |
| OperationTraces.StageExactly | apps/agent-evaluation-runner/src/controlledWorkspaceRuntime.ts:2941-2987 | the session holds exactly the effect that was performed with its evidence staged |
| OperationTraces.RegisterExactly | apps/agent-evaluation-runner/src/controlledWorkspaceRuntime.ts:2989-3112 | what the ledger holds is settled by what reached it, in order: the first mark or rejection decides whether the operation runs, a seal or the ledger's giving up how it ends |
| OperationTraces.LateExactly | apps/agent-evaluation-runner/src/controlledWorkspaceRuntime.ts:2883-3112 | exactly the requests sent late may still land |
| OperationTraces.ReturnedExactly | apps/agent-evaluation-runner/src/controlledWorkspaceRuntime.ts:2736-2760 | an output was returned if and only if a reply reached its caller that tells what the intent was sealed with, and it is that |
| OperationTraces.UndisturbedCallExactly | apps/agent-evaluation-runner/src/controlledWorkspaceRuntime.ts:2883-3112 | from any state a run can leave, one undisturbed call returns the seal, else the staged effect, else what its own preflight and execution give, through each fate of the execution's and the first seal's reply, and executes only if nothing was dispatched and its preflight accepted |
| OperationTraces.CallersMayFail | apps/agent-evaluation-runner/src/controlledWorkspaceRuntime.ts:2989-3112 | in every run a caller may crash, or send its next request with any fate of the reply |
| Checkpoints.TransactionsChangeTheSnapshot | apps/agent-evaluation-runner/src/controlledWorkspaceRuntime.ts:1890-2098 | an accepted effect changes the snapshot exactly when it is a successful transaction, and exactly then it carries transaction receipts |
| Checkpoints.ReadsAreAcceptableExactly | apps/agent-evaluation-runner/src/controlledWorkspaceRuntime.ts:1933-1938 | a read can be accepted if and only if the current checkpoint has no predecessor |
| Checkpoints.ChangesPersist | apps/agent-evaluation-runner/src/controlledWorkspaceRuntime.ts:1933-1938 | after the first snapshot change of a run every accepted effect is a change |
| Checkpoints.PreservingEffectsComeFirst | apps/agent-evaluation-runner/src/controlledWorkspaceRuntime.ts:1933-1938 | an accepted effect that is no transaction comes before the first snapshot change of its run |
| Checkpoints.NoCheckpointReturns | apps/agent-evaluation-runner/src/controlledWorkspaceRuntime.ts:780-826 | along any run from a predecessor-less checkpoint, two points have the same checkpoint digest if and only if no effect changed the snapshot in between, even if the snapshot itself came back |
| Checkpoints.OperationIdsFollowTheChain | apps/agent-evaluation-runner/src/controlledWorkspaceRuntime.ts:1494-1536 | two intents of a run share an operation id if and only if they are for the same call and no snapshot change lies between them |
| Lineage.FoldLineage | apps/agent-evaluation-runner/src/controlledWorkspaceRuntime.ts:2213-2219 | the loop computes the lineage fold: the snapshot the effects lead to, or a break |
| Lineage.LineageExactly | apps/agent-evaluation-runner/src/controlledWorkspaceRuntime.ts:2197-2239 | for every history of a binding, the sealed effects lead from the base snapshot to the binding's current one if and only if every unacknowledged change was followed at once by a reattachment |
| Lineage.RestoredLineageExactly | apps/agent-evaluation-runner/src/controlledWorkspaceRuntime.ts:2710-2734 | with claims that carry the ledger's checkpoint the ledger's lineage never breaks, and the binding's agrees if and only if the last event is not an unacknowledged change |
| Lineage.OneLostChangeDisagrees | apps/agent-evaluation-runner/src/controlledWorkspaceRuntime.ts:2197-2239 | the one-event history that fails: a change sealed and not acknowledged leaves the seals ahead of the binding |
| Lineage.SealAfterLostChangeBreaks | apps/agent-evaluation-runner/src/controlledWorkspaceRuntime.ts:2197-2239 | the two-event history that breaks the fold itself: a second change sealed from the checkpoint left behind |
| Lineage.StableSortIsStable | apps/agent-evaluation-runner/src/controlledWorkspaceRuntime.ts:2206-2211 | sorting by turn sorts, and keeps the order within each turn |
| Lineage.ListedSealsPassExactly | apps/agent-evaluation-runner/src/controlledWorkspaceRuntime.ts:2197-2239 | seals listed in any order that keeps each turn's own order pass the sorted fold exactly when the history condition holds |
| WorkspaceRuntime.Runtime.ExecuteTool | apps/agent-evaluation-runner/src/controlledWorkspaceRuntime.ts:2989-3112 | one call makes at most one seal, of a rejection or of an effect accepted against the checkpoint current at its start, and only under a claim that restored that checkpoint; a dispatched call returns exactly when an effect is obtained, its seal acknowledged and accepted; the binding follows only then, and its run of accepted effects grows by that effect alone; a replay returns what was sealed and moves nothing; the error of every other reply is given, the effect returned is this very call's, and an operation unknown to ledger or session destroys the binding as failed and is reported exactly when that succeeds |
| WorkspaceRuntime.Runtime.ExecuteDispatched | apps/agent-evaluation-runner/src/controlledWorkspaceRuntime.ts:3065-3110 | under a dispatch the effect is executed, if the dispatch is its own, or recovered; result, error, history, binding and kept cleanup receipt follow the replies |
| WorkspaceRuntime.Runtime.SealStagedEffect | apps/agent-evaluation-runner/src/controlledWorkspaceRuntime.ts:2883-2939 | a seal is acknowledged at once, by reconciliation or by a second request; the history records it exactly when the ledger did, and the checkpoint moves exactly when the call returns, which needs room for the preflight's receipt and a session at the effect's checkpoint |
| WorkspaceRuntime.FullAuthorityIsNeverReturned | apps/agent-evaluation-runner/src/controlledWorkspaceRuntime.ts:2893-2906 | an effect with 32 authority receipts that is accepted, and whose seal can be accepted under no replies |
| WorkspaceRuntime.Runtime.RecoverStagedEffect | apps/agent-evaluation-runner/src/controlledWorkspaceRuntime.ts:2941-2987 | recovery returns exactly the staged effect when it is accepted and sealed; without a trace the binding is destroyed as failed, and the operation reported unknown exactly when that succeeds |
| WorkspaceRuntime.Binding.Reattach | apps/agent-evaluation-runner/src/controlledWorkspaceRuntime.ts:1321-1353 | a reattached session carries the ledger's checkpoint, an effect sealed but not acknowledged joins the binding's run, and the history records it |
| WorkspaceRuntime.NoCheckpointOfABindingReturns | apps/agent-evaluation-runner/src/controlledWorkspaceRuntime.ts:2736-2760 | the effects that moved a binding, across calls, replays, lost seals and reattachments, form a run of accepted effects, so no checkpoint it left ever comes back |
| WorkspaceRuntime.UnstampedClaimsStopAtTheFirstChange | apps/agent-evaluation-runner/src/controlledWorkspaceRuntime.ts:2710-2723 | under claims without a checkpoint a binding can go on if and only if nothing changed the snapshot yet |
| WorkspaceRuntime.StampedClaimsKeepUp | apps/agent-evaluation-runner/src/controlledWorkspaceRuntime.ts:2724-2733 | under claims with the ledger's checkpoint a binding can go on if and only if it is at that checkpoint |
| WorkspaceRuntime.ToolStepKeepsRestored | apps/agent-evaluation-runner/src/controlledWorkspaceRuntime.ts:2710-2734 | so every history made under such claims is one the exact lineage condition applies to |
| WorkspaceRuntime.Runtime.UnknownOperation | apps/agent-evaluation-runner/src/controlledWorkspaceRuntime.ts:2865-2881 | the binding is destroyed as failed first: the operation is reported unknown and the attempt unbound if and only if that cleanup succeeds, and cleanup-failed is the error otherwise |
| WorkspaceRuntime.Runtime.DestroyBinding | apps/agent-evaluation-runner/src/controlledWorkspaceRuntime.ts:2762-2863 | succeeds exactly when a validated cleanup seal is obtained, which alone unbinds the attempt; its receipt is for this grant and reason and leaves nothing behind; every failure is cleanup-failed and leaves it bound |
| WorkspaceRuntime.LostSealBlocksOtherIntents | apps/agent-evaluation-runner/src/controlledWorkspaceRuntime.ts:2802-2862 | after a cleanup whose seal was lost, no number of retries for another reason or checkpoint succeeds under ledgers that record what they are given, and the kept receipt stays |
| WorkspaceRuntime.RetrySucceedsExactly | apps/agent-evaluation-runner/src/controlledWorkspaceRuntime.ts:2802-2862 | with an answering, recording ledger the retry succeeds if and only if the kept receipt is for this very intent and dispatch |
| WorkspaceRuntime.Runtime.AssessFinal | apps/agent-evaluation-runner/src/controlledWorkspaceRuntime.ts:3146-3343 | returns exactly when everything is assessable and the cleanup is sealed; whatever the assessment, only a failed cleanup leaves the attempt bound, and is the error exactly then; the cleanup is as completed exactly when proposal and verification passed; the counts returned are the totals over the durable seals |
| WorkspaceRuntime.Runtime.Assess | apps/agent-evaluation-runner/src/controlledWorkspaceRuntime.ts:3164-3322 | the assessment succeeds exactly when the submission is durable, resolved and signed off by an authority whose artifacts, receipts, scan, verdicts and lineage are in order, and then conserves every total; it is passed exactly when proposal and verification are, about the checkpoint reached and what was submitted; otherwise the first thing out of order decides the error |
| WorkspaceRuntime.ListedEffectsAreTheRun | apps/agent-evaluation-runner/src/controlledWorkspaceRuntime.ts:2197-2219 | while every seal was acknowledged, the listed seals sorted by turn give back the effects that moved the binding, in order |
| WorkspaceRuntime.AssessedEffectsCameFirst | apps/agent-evaluation-runner/src/controlledWorkspaceRuntime.ts:2197-2260 | a final authority over the listed, acknowledged seals of a binding shows a proposal dry run, and with a preview the preview, accepted before the first snapshot change |
| WorkspaceRuntime.Runtime.DestroyOrphan | apps/agent-evaluation-runner/src/controlledWorkspaceRuntime.ts:3376-3461 | an orphan's cleanup succeeds exactly as a binding's without a kept receipt |
| WorkspaceRuntime.Runtime.DiscardAttempt | apps/agent-evaluation-runner/src/controlledWorkspaceRuntime.ts:3489-3508 | a bound attempt is unbound exactly when its discard is sealed; an unbound one succeeds exactly when it has no orphan, or a single one whose cleanup is sealed |
| FinalReceipts.SortedComparisonConserves | apps/agent-evaluation-runner/src/controlledWorkspaceRuntime.ts:3169-3218 | two lists equal after sorting by a key are equal as multisets, so every total over them agrees |
| FinalReceipts.RepairsAreSealed | apps/agent-evaluation-runner/src/controlledWorkspaceRuntime.ts:2224-2226 | the repair rounds a final authority must state are the repairs among all durable seals, however they are listed |
| FinalReceipts.DurableSubmissionIsConserved | apps/agent-evaluation-runner/src/controlledWorkspaceRuntime.ts:3164-3329 | the two sorted comparisons force tool, command and transaction counts and artifact count and bytes to be the totals over all durable seals |
| PromiseQueue.ExclusiveInArrivalOrder | apps/agent-evaluation-runner/src/controlledWorkspaceRuntime.ts:2596-2614 | under every interleaving calls of one attempt run one at a time in order of arrival, and a waiting call may start exactly when all before it have ended, failed or not |
| PromiseQueue.EntriesAreExact | apps/agent-evaluation-runner/src/controlledWorkspaceRuntime.ts:2596-2614 | the map holds an entry for an attempt exactly while a call for it runs or waits |
| PromiseQueue.TailSettlesExactly | apps/agent-evaluation-runner/src/controlledWorkspaceRuntime.ts:2596-2606 | a tail settles exactly when its call and every earlier one of the attempt have ended |
| AgentTurnLoop.RunAgentTurnLoop | apps/agent-evaluation-runner/src/agentTurnLoop.ts:436-1472 | the loop computes the run that one-turn steps define in the world where closed turns are replayed, which `LoopMeaning.RunsAreTheWorlds` reads off that world, and a run that returns has invoked each of its turns once, in order |
| LoopSafety.EveryRunIsSafe | apps/agent-evaluation-runner/src/agentTurnLoop.ts:498-1472 | every returned run has turn indexes equal to positions, one terminal turn, the last, completed turns before it, its status as final status, each observation finalized once, at most one assessment, tool calls within their ceiling, repairs over theirs by at most one and only as schema-failed |
| LoopSafety.TurnIsSafe | apps/agent-evaluation-runner/src/agentTurnLoop.ts:498-1466 | one turn from any state the loop can be in keeps the loop invariant or ends the run safely |
| LoopSafety.DomainIsSafe | apps/agent-evaluation-runner/src/agentTurnLoop.ts:1159-1260 | an admitted domain turn keeps shape, ceilings and the sole shared effect, whatever its calls are answered |
| LoopSafety.BookingIsSafe | apps/agent-evaluation-runner/src/agentTurnLoop.ts:1261-1466 | booking a turn's outputs passes a ceiling only by ending the run for it as schema-failed |
| LoopSafety.BytesAreConserved | apps/agent-evaluation-runner/src/agentTurnLoop.ts:713-722 | a returned run's byte total is exactly what the provider brought in its turns plus what its listed executions persisted |
| LoopSafety.CeilingExactly | apps/agent-evaluation-runner/src/agentTurnLoop.ts:498-503 | the ceiling error can be met if and only if two turns are allowed and the first may be a bootstrap: never with three or more |
| LoopSafety.OneSoleSharedEffect | apps/agent-evaluation-runner/src/agentTurnLoop.ts:1159-1254 | whether a run returns or throws, at most one shared effect was executed, as the sole call of its turn |
| LoopMeaning.FinalStatusExactly | apps/agent-evaluation-runner/src/agentTurnLoop.ts:1329-1336 | how every returned run ends, from the world at its last turn: a transport not completed gives its own status; blocked or infrastructure-error exactly when, ceilings kept, the first capability answer that is no support is unsupported or failing; completed exactly for a submission in order and signed off or a bootstrap without a source; schema-failed otherwise |
| LoopMeaning.RunsAreTheWorlds | apps/agent-evaluation-runner/src/agentTurnLoop.ts:498-1472 | the loop is determined by its world: it fails, ends or goes on from turn n exactly where the answers of the turns up to n say so, and records of each turn its phase, status, executions in call order, continuation, bootstrap and submission |
| LoopMeaning.TurnIsPlayed | apps/agent-evaluation-runner/src/agentTurnLoop.ts:498-1466 | one turn from any head of the loop does what its world says, counters and next phase included |
| LoopMeaning.ControlledExactly | apps/agent-evaluation-runner/src/agentTurnLoop.ts:1237-1250 | the executions of a turn are the answers to its controlled calls, all of them and in call order |
| LoopMeaning.CapabilitiesExactly | apps/agent-evaluation-runner/src/agentTurnLoop.ts:1251-1255 | and the first capability output that is no support is the first such answer |
| ToolService.HeadReturnsExactly | apps/agent-evaluation-runner/src/controlledWorkspaceRuntime.ts:1494-1536 | over the seals of an attempt, the current checkpoint is the one before seal i if and only if no seal from i on changed the snapshot |
| ToolService.ReplayedCallExactly | apps/agent-evaluation-runner/src/controlledWorkspaceRuntime.ts:1494-1536 | a tool call made again is answered by its own seal if and only if no snapshot change was sealed from that call on; otherwise it is a new operation, put to the sandbox at another checkpoint |
| ToolService.ReplayIsSilentExactly | apps/agent-evaluation-runner/src/controlledWorkspaceRuntime.ts:1494-1536 | all calls of an attempt asked again from the start get their own answers and seal nothing new if and only if none of them changed the snapshot |
| ToolService.AskIsTheOwners | apps/agent-evaluation-runner/src/controlledWorkspaceRuntime.ts:2989-3112 | what a caller sees, the answer and the checkpoint after it, depends on the current checkpoint alone and not on which seals are there |
| ToolService.AskRuntime | apps/agent-evaluation-runner/src/controlledWorkspaceRuntime.ts:2989-3112 | the tool call of the runtime, before a ledger and a session that lose nothing, returns that answer and leaves its binding at that checkpoint |
| ServedRuns.ExecutionTellsTheOutput | apps/agent-evaluation-runner/src/agentTurnLoop.ts:1237-1285 | the loop reads of a served call what the runtime's output holds: a rejection by either side, the effect's own receipts and its artifacts |
| ServedRuns.SameHeadSameRun | apps/agent-evaluation-runner/src/agentTurnLoop.ts:498-1466 | two services at one checkpoint, whatever each has sealed, give the same run of the loop and end at one checkpoint, until one of them is assessed: only the submission looks at the seals |
| ServedRuns.AssessmentDecides | apps/agent-evaluation-runner/src/agentTurnLoop.ts:818-905 | a turn depends on the assessment only when it submits, and submits only when the assessment returns |
| ServedRuns.ServedRunIsARun | apps/agent-evaluation-runner/src/agentTurnLoop.ts:498-1466 | a run whose controlled calls are served and whose submission is assessed over the seals is a run of the loop in a world that differs only in those answers |
| RunTotals.AssessmentTellsTheRun | apps/agent-evaluation-runner/src/agentTurnLoop.ts:818-905 | a run that submits and its assessment tell the same: the calls, transactions and persisted bytes the loop counted are those assessed over the durable seals, and one of its calls closed the verification |
| AttemptRecovery.ExecuteAttempt | apps/agent-evaluation-runner/src/attemptExecutor.ts:3166-3173 | refused if and only if the closed turns are out of sequence or the returning run never comes to the last of them; an error exactly when the run is one; otherwise the resumed run's result, which is what the resumed world says |
| AttemptRecovery.PlaysTurnExactly | apps/agent-evaluation-runner/src/attemptExecutor.ts:2580-2584 | a returned run has invoked turn t exactly when it went on from every turn before t |
| AttemptRecovery.ReplayAgrees | apps/agent-evaluation-runner/src/attemptExecutor.ts:2572-2602 | over one service and from any state of the loop, the run over the closed turns equals the live one and seals the same; a replayed failure differs in its response digest and bytes, and errs if and only if the bytes before it leave no room for its stand-in |
| AttemptRecovery.CappedReplayNeverOverflows | apps/agent-evaluation-runner/src/attemptExecutor.ts:2596-2602 | under a parsed configuration and the collector's and the workspace's caps no replay overflows |
| ExactRecovery.ResumedExactly | apps/agent-evaluation-runner/src/attemptExecutor.ts:2572-2635 | a run lost after any of its seals and resumed from its closed turns, a failed transport included, replays the uninterrupted run and seals nothing but its calls, each once, if none of the seals left behind changed the snapshot; and it returns with those seals if and only if none did and the replayed failure does not overflow |
| ExactRecovery.ChangedSealsAreNeverSubmitted | apps/agent-evaluation-runner/src/controlledWorkspaceRuntime.ts:3164-3182 | an attempt that starts over seals of which one changed the snapshot never submits, whatever provider, sandbox and session answer: the assessment compares all seals with the receipts of the attempt's own calls |
| ExactRecovery.ResumedSubmitsExactly | apps/agent-evaluation-runner/src/controlledWorkspaceRuntime.ts:3164-3182 | a run that would have submitted does so after resumption if and only if none of the seals left behind changed the snapshot, and then as the same run with the same seals |
| RecoveryExamples.TransactionRunCannotResume | apps/agent-evaluation-runner/src/controlledWorkspaceRuntime.ts:3164-3182 | a dry run, a transaction and a submission that the assessment signs off: lost after the transaction and resumed, the transaction is made a second time under another operation, and the submission errs over four seals |
| AttemptRecovery.TurnReceiptExactly | apps/agent-evaluation-runner/src/attemptExecutor.ts:1880-1932 | the receipt of turn t can be made if and only if the loop ends there or goes on from a bootstrap or a controlled call |
| AttemptRecovery.ReceiptsExactly | apps/agent-evaluation-runner/src/attemptExecutor.ts:1880-1932 | all receipts of a returned run can be made if and only if the world has a bootstrap or a controlled call in each turn gone on from |
| RecoveryExamples.ObservingTurnHasNoReceipt | apps/agent-evaluation-runner/src/attemptExecutor.ts:1915-1918 | a run that makes one observing call, a dry run and a transaction, and completes with its submission signed off, and whose first turn can have no receipt |
| ShardBudget.InvocationsAndCallsStayWithin | apps/agent-evaluation-runner/src/attemptExecutor.ts:2336-2361 | over every shard, model invocations and tool calls stay within an accepted estimate |
| ShardBudget.RepairEstimateHoldsExactly | apps/agent-evaluation-runner/src/attemptExecutor.ts:2348-2353 | every shard of n attempts stays within its accepted repair estimate if and only if the tool-call ceiling is at most the repair ceiling or the estimate allows each attempt one round more |
| ShardBudget.RunStaysWithinBytes | apps/agent-evaluation-runner/src/attemptExecutor.ts:3310-3310 | no run returns with more bytes than a full provider turn for each turn it can have, plus the artifact ceiling |
| ShardBudget.ByteEstimateHoldsExactly | apps/agent-evaluation-runner/src/attemptExecutor.ts:2354-2355 | every shard of n attempts stays within its accepted byte estimate if and only if the estimate covers that ceiling for each attempt |
| ShardBudget.FrozenEstimateFallsShort | apps/agent-evaluation-runner/src/controlledWorkspaceRuntime.ts:42-50 | under the bounds the controlled runtime insists on, the least accepted estimate is exceeded in repair rounds and in bytes by some shard |
| FactCollector.Collect | apps/agent-evaluation-runner/src/attemptExecutor.ts:865-994 | one pass with running counters accepts exactly the streams the whole-stream predicate admits, with the exact byte total, and otherwise yields the one-event rejected attempt; either way the events are numbered and end with the one terminal event |
| FactCollector.FactStep | apps/agent-evaluation-runner/src/attemptExecutor.ts:885-964 | the checks on one fact decide exactly whether the longer stream is still in bounds |
| FactCollector.PrefixInBounds | apps/agent-evaluation-runner/src/attemptExecutor.ts:885-964 | every prefix of a stream in bounds is in bounds, so an early exit refuses nothing it should accept |
| FactCollector.CollectedExactly | apps/agent-evaluation-runner/src/attemptExecutor.ts:885-994 | what a collected attempt brings is any number of bytes up to the aggregate cap, and no more |
| Accounting.PricedExactly | apps/agent-evaluation-runner/src/attemptAccounting.ts:339-439 | a turn to be priced is accounted exactly when the price of its usage is known in full, and then with the reported units and amounts, each with the usage source, and with the costs the pricing makes of that usage, each with the cost source |
| Accounting.UnpricedExactly | apps/agent-evaluation-runner/src/attemptAccounting.ts:441-548 | any other dispatched turn is accounted without usage or costs, and a completed one among them as an infrastructure error |
| Accounting.AdmittedTurnIsAccounted | apps/agent-evaluation-runner/src/attemptExecutor.ts:1122-1196 | for every closed, dispatched turn the executor admits, live or replayed, what the producer returns is accepted by the executor's own binding check |
| Accounting.ProducerMeetsValidatorExactly | apps/agent-evaluation-runner/src/attemptAccounting.ts:339-594 | taken alone, on every bound input: what the priced or unpriced builder returns passes the binding check if and only if no transport field that is there is empty and the request id is a control identity |
| Accounting.PricedIsAccepted | apps/agent-evaluation-runner/src/attemptExecutor.ts:1372-1560 | every binding rule holds of a priced accounting of a clean transport |
| Accounting.UnpricedIsAccepted | apps/agent-evaluation-runner/src/attemptExecutor.ts:1372-1560 | every binding rule holds of an unpriced accounting of a clean transport |
| Accounting.UncleanIsRefused | apps/agent-evaluation-runner/src/attemptExecutor.ts:1436-1456 | an accepted accounting comes from a clean transport |

## Left out

- UTF-16 code units: lone surrogates are not in the model's strings, and the canonical text's byte length is a parameter.
- Property descriptors, symbols, sparse arrays and foreign prototypes are one kind of cell that is never accepted.
- Signatures, hashes, HTTP clients, canary scanning, configuration files, clocks and instant parsing.
- Field-by-field identity bindings of plan, descriptor, material, provider and registry: one grant or one input record stands for them.
- Grant authorisation, material validation, preflight validation and the loading of attempt state: a reply that fails them counts as an error.
- SchemaVacuity.SatisfiableExactly: the size of an item language is its definition, computed for pinned, null, boolean and bounded number items only.
- ToolSchemas.LeastTogetherSuffices: sufficient for all counts at once; the exact condition is given for each count on its own, and the length of the text is a hypothesis.
- WorkspaceRuntime.Runtime.ExecuteTool: the ledger answers with the seal it recorded, so the field checks of a seal against its own digest are not modelled, for a rejection's seal neither.
- WorkspaceRuntime.AssessedEffectsCameFirst: a run with a lost seal is not covered, only one whose seals were all acknowledged.
- WorkspaceRuntime.Binding.constructor: a first load is given a session at its initial checkpoint, which the source does not check.
- WorkspaceRuntime.Runtime.AssessFinal: the final authority's own digest and its public scan's are not recomputed; a preview stands for its own digest.
- ToolService.AskRuntime: lost replies are the subject of OperationProtocol; here the ledger and the session answer.
- ExactRecovery.ResumedSubmitsExactly: a process lost during or after the assessment itself, when the session may be destroyed already, is not modelled.
- Continuation acknowledgement, the startup sweep over all orphans, and the reading of sealed executions back: easy next to what is here.
- Parallel execution of domain tools inside a turn: results are in call order either way, the queue serves them in that order, and an execution that fails ends the run.
- AgentTurnLoop.RunAgentTurnLoop: payload encoding, tool-call decoding and result decoding are answers of the world.
- AttemptRecovery.ReplayAgrees: capability owners and the observation authority answer a replayed turn as they answered the original, and a failed transport's status is what it closed with.
- FactCollector.Collect: the response digest is not modelled; an event's binding and its own digest are two flags.
- Accounting.AdmittedTurnIsAccounted: usage and cost vectors are maps, so their normalisation is the identity; a pricing snapshot is valid whenever the frozen configuration admits it; endpoint, budget and body bindings of a closed turn are not modelled.
- Status mappings, capability probes, grading and evidence bundles: tables and field comparisons.
