# Proved properties of the agent's benchmark, release and embedding code

This project models seven pieces of the repository whose correctness does not show in any one
function body, and proves what each is for, over every input, every schedule or every run.

| component | files | central results |
|---|---|---|
| Streaming JSON array validator | `JsonGrammar`, `JsonAutomaton`, `JsonCompleteness`, `JsonSoundness`, `JsonTheorems`, `StreamingJsonArray` | the character-at-a-time automaton accepts exactly the rest of a JSON array of RFC 8259 (sections 2 to 7), and its `possible` flag is exactly viable-prefix recognition |
| JSONL line capture | `Utf8`, `LineOutcome`, `LineCapture` | feeding any chunks gives the outcome of reading the whole text at once; the one tolerated oversized line is a JSON document |
| Certified release transaction | `ReleaseModel`, `ReleaseSystem`, `ReleaseSafety`, `ReleaseRecovery`, `ReleaseScenario`, `ReleaseGates`, `ReleaseExact`, `ReleaseProgress`, `ReleaseStore` | safety over every run of the release script with crashes, other people's pushes and HEAD moving at any time; recovery never throws and tells the truth unless HEAD is moved so as to lead the script astray, which is stated exactly; nothing is published except through every gate; undisturbed, the script publishes from every step; no sequence of calls without its token touches an open transaction |
| Embedding server | `RuntimePlan`, `EmbeddingServer` | termination, order and completeness of `encode` under any pattern of out-of-memory failures; exactly when a request is answered and why not; a bound on the backoffs; exactly which plan is made, and that its batch fits and is the largest |
| Certified egress proxy | `EgressProxy` | sound evidence and exact byte and request accounting over every interleaving |
| Shrinkwrap generator | `Shrinkwrap` | the worklist computes exactly what is needed under nearest-enclosing resolution, if and only if no path is needed as two different things |
| Lock, registry, timeout | `PriorityLock`, `RequestRegistry`, `TurnTimeout` | what every interleaving or timer schedule keeps, and exactly when two of the protocols fall short |

How the proofs are organised:

- The grammar is stated without any notion of reading. Acceptance of every JSON array is an
  induction on the grammar. The converse keeps, for every text not yet ruled out, a *partial
  derivation* whose text is what was read and whose state is the automaton's; every partial
  derivation can be completed, which gives viable prefixes.
- The line capture is compared with a one-shot splitter through "handled" (these events are out,
  this is the unfinished tail, whatever follows) and "doomed" (overflow is certain, whatever
  follows).
- The release script is a program counter over the persisted record and a git state (parent map,
  HEAD, tags, remote main). A run interleaves its steps with failures, crashes, other people's
  commits and pushes, and a user moving HEAD and editing the worktree. Safety is proved for all
  runs, recovery for those in which no move of HEAD leads the script astray.
- Classes that the source updates in place are classes here. Ghost histories (`log`, `seen`,
  `admitted`, `completed`) state what a run has done, and validity ties the fields to them.

Four properties do not hold of the code on all inputs; each has a failing run and a condition
that can be checked beforehand:

- A wake-up of the priority lock can be lost: a background thread that waits *without polling*
  can stay asleep while the lock is free, until some other thread releases it (`LostWakeUp`).
  `Lock.Check` states exactly when a step does this and `Lock.Enter` that it cannot; with polling
  threads, as the server's all are, or without cancellations it never happens (`Interleave`), and
  a waiting thread gets the lock once the interactive ones have had their turn (`TakeTurns`).
- A request that never registered, because its input was empty or its id was refused as a
  duplicate, still completes its id, and a cancel then reports the first request idle while it
  runs (`UnregisteredCompletesAnother`). If only registered requests complete, each once, this
  cannot happen, and in general a registration is completed by somebody else only if a request
  with the same id called complete (`RequestRegistry.Interleave`).
- Recovery of a release can throw if HEAD is moved so that the script is about to record a commit
  it has not made, to tag something else than the release commit, or to push a main without the
  next-cycle commit (`Astray`). Every such state has a continuation in which recovery throws
  (`AstrayCanFail`), every other move or edit is harmless (`CrashRecovery`), so a move breaks
  recovery exactly if it leads astray (`MoveBreaksUnlessCalm`); `MovedHeadBreaksRecovery` is a
  whole run.
- The shrinkwrap drops dependencies if a path is needed both as an internal workspace and as an
  external package with other dependencies: the second one asked for is skipped
  (`DroppedDependency`). It holds everything needed, with its own dependencies, if and only if
  that is not so (`FaithfulIffConsistent`); workspace names that npm accepts rule it out
  (`PlainNamesConsistent`).

## Model

| member | source | states |
|---|---|---|
| JsonGrammar.ClassesSpelled | benchmarks/src/agents/streaming-json-array.ts:12-18 | whitespace, digits, hexadecimal digits, escapable and unescaped characters, each as a set of characters |
| JsonCompleteness.StringRuns | benchmarks/src/agents/streaming-json-array.ts:190-206 | a string of section 7, with every escape form, is read as one string token |
| JsonCompleteness.NumberRuns | benchmarks/src/agents/streaming-json-array.ts:136-184 | every number of section 6 leaves the automaton ready to finish the value |
| JsonCompleteness.LiteralRuns | benchmarks/src/agents/streaming-json-array.ts:207-214 | each of the three literals finishes a value |
| JsonCompleteness.ValueRuns | benchmarks/src/agents/streaming-json-array.ts:33-134 | any JSON value, at any depth, is read as one value of the container that awaits it |
| JsonCompleteness.ArraysAreAccepted | benchmarks/src/agents/streaming-json-array.ts:20-227 | the rest of every JSON array leads to the one completed state |
| JsonSoundness.StepString | benchmarks/src/agents/streaming-json-array.ts:190-206 | a character accepted inside a string extends the partial derivation by that character |
| JsonSoundness.StepNumber | benchmarks/src/agents/streaming-json-array.ts:136-184 | the same inside a number, including the character that ends it |
| JsonSoundness.StepLiteral | benchmarks/src/agents/streaming-json-array.ts:207-214 | the same inside a literal |
| JsonSoundness.StepClose | benchmarks/src/agents/streaming-json-array.ts:47-55 | closing a container turns its items into one value of the enclosing one, or completes the text |
| JsonSoundness.StepOutside | benchmarks/src/agents/streaming-json-array.ts:88-134 | the same for every character between tokens |
| JsonSoundness.Step | benchmarks/src/agents/streaming-json-array.ts:187-219 | every accepted character extends the partial derivation, whose state stays the automaton's |
| JsonSoundness.Explained | benchmarks/src/agents/streaming-json-array.ts:187-219 | every text not ruled out has a partial derivation in the grammar |
| JsonTheorems.CompleteIffArray | benchmarks/src/agents/streaming-json-array.ts:20-227 | for every text, `complete` holds if and only if `[` followed by it is a JSON array |
| JsonTheorems.PossibleIffViable | benchmarks/src/agents/streaming-json-array.ts:30-225 | for every text, `possible` holds if and only if some continuation completes a JSON array |
| JsonTheorems.Completable | benchmarks/src/agents/streaming-json-array.ts:30-225 | every partial derivation has a continuation, without LF, that completes it |
| JsonTheorems.ArraysArePrefixFree | benchmarks/src/agents/streaming-json-array.ts:88-92 | no JSON array is a proper prefix of another, so nothing may follow a complete one |
| JsonAutomaton.RunImpossible | benchmarks/src/agents/streaming-json-array.ts:187-188 | once `possible` is false it stays false |
| StreamingJsonArray.Validator.FinishValueNow | benchmarks/src/agents/streaming-json-array.ts:33-46 | updates the fields as the transition function the theorems are about |
| StreamingJsonArray.Validator.CloseContainerNow | benchmarks/src/agents/streaming-json-array.ts:47-55 | likewise |
| StreamingJsonArray.Validator.TryStartValue | benchmarks/src/agents/streaming-json-array.ts:56-86 | likewise; changes nothing when the character starts no value |
| StreamingJsonArray.Validator.ProcessOutsideTokenNow | benchmarks/src/agents/streaming-json-array.ts:88-134 | likewise |
| StreamingJsonArray.Validator.ProcessNumberNow | benchmarks/src/agents/streaming-json-array.ts:136-184 | likewise |
| StreamingJsonArray.Validator.ProcessStringNow | benchmarks/src/agents/streaming-json-array.ts:190-206 | likewise |
| StreamingJsonArray.Validator.AppendChar | benchmarks/src/agents/streaming-json-array.ts:187-219 | after any number of calls the fields are the automaton's state for exactly the text seen |
| StreamingJsonArray.Validator.Complete | benchmarks/src/agents/streaming-json-array.ts:220-222 | true if and only if the text seen is the rest of a JSON array |
| StreamingJsonArray.Validator.Possible | benchmarks/src/agents/streaming-json-array.ts:223-225 | true if and only if some continuation of the text seen is |
| Utf8.RoundTrip | benchmarks/src/agents/jsonl-line-capture.ts:94 | encoding a text as UTF-8 and decoding it, overlong forms being malformed, gives the text |
| LineOutcome.BytesAreUtf8 | benchmarks/src/agents/jsonl-line-capture.ts:94 | the bytes counted of a text are those of its UTF-8 encoding |
| LineOutcome.ConstantsSpelled | benchmarks/src/agents/jsonl-line-capture.ts:4-5 | the canonical prefix and the two suffixes, character by character |
| LineOutcome.CanonicalIsJson | benchmarks/src/agents/jsonl-line-capture.ts:4-5 | every canonical oversized line is a JSON object |
| LineOutcome.AfterMessages | benchmarks/src/agents/jsonl-line-capture.ts:45-52 | after complete messages a line is canonical if and only if the rest is one of the two suffixes |
| LineOutcome.HopelessLine | benchmarks/src/agents/jsonl-line-capture.ts:92-105 | a line beyond the limit that cannot become canonical overflows whatever follows |
| LineCapture.AgentEndTracker.AppendText | benchmarks/src/agents/jsonl-line-capture.ts:35-60 | the tracker stays faithful to all the text given, also after it stops looking |
| LineCapture.AgentEndTracker.Possible | benchmarks/src/agents/jsonl-line-capture.ts:69-71 | true if and only if tracking is enabled and some continuation is the canonical line |
| LineCapture.AgentEndTracker.Complete | benchmarks/src/agents/jsonl-line-capture.ts:61-68 | true if and only if tracking is enabled and the text is the canonical line |
| LineCapture.Capture.AppendContent | benchmarks/src/agents/jsonl-line-capture.ts:92-105 | throws only when the line is over the limit and no continuation is canonical; otherwise the buffer stands for the line so far |
| LineCapture.Capture.CompleteLine | benchmarks/src/agents/jsonl-line-capture.ts:107-115 | succeeds exactly for a line within the limit or a canonical one, and reports the first as text and the second as oversized |
| LineCapture.Capture.AppendLine | benchmarks/src/agents/jsonl-line-capture.ts:139-142 | a terminated line, less one CR before its LF, becomes one event, or the stream is doomed |
| LineCapture.Capture.AppendTail | benchmarks/src/agents/jsonl-line-capture.ts:129-137 | an unterminated tail is kept, a CR at its end being held back |
| LineCapture.Capture.ResolvePending | benchmarks/src/agents/jsonl-line-capture.ts:118-126 | a CR from the previous chunk ends a line with a following LF and is content otherwise |
| LineCapture.Capture.Append | benchmarks/src/agents/jsonl-line-capture.ts:117-144 | after success the events are those of the handled lines and retained text is within the limit; after a throw the whole stream overflows with exactly these events, whatever follows |
| LineCapture.Capture.NotTooLate | benchmarks/src/agents/jsonl-line-capture.ts:92-105 | the capture throws as early as it can: while it has not, and no CR is held back beyond the limit, some continuation does not overflow |
| LineCapture.Capture.FlushTail | benchmarks/src/agents/jsonl-line-capture.ts:150-157 | the last line keeps its CR, is reported if not empty and within the limit, and overflows otherwise |
| LineCapture.Capture.Finish | benchmarks/src/agents/jsonl-line-capture.ts:146-159 | events and overflow are those of the one-shot reading of all the text; the capture can be used again |
| LineCapture.CaptureAll | benchmarks/src/agents/jsonl-line-capture.ts:75-159 | chunk invariance: for every way of cutting a text, appends and finish give the one-shot outcome |
| ReleaseStore.Store.CertifyReleaseAudit | scripts/release-audit-certificate.js:174-199 | refused with nothing changed while a transaction is open or failed; otherwise leaves a certificate that is valid for the target |
| ReleaseStore.ValidMeansCurrent | scripts/release-audit-certificate.js:201-226 | a certificate is valid exactly when certifying the repository as it is now would seal the same payload |
| ReleaseStore.CertificateSeals | scripts/release-audit-certificate.js:137-155 | two records that pass the authority check under one certificate id have the same payload and evidence |
| ReleaseStore.Store.BeginRelease | scripts/release-transaction.js:88-104 | succeeds only on clean main and opens a transaction that the issued token passes; a certificate found invalid is left invalid |
| ReleaseStore.TamperEvident | scripts/release-transaction.js:61-86 | two states that pass the checks of a transaction under one token hash have the same token, target, payload and evidence, and the same HEAD if that is expected |
| ReleaseStore.Store.ConsumeVersionBumpAuthorization | scripts/release-transaction.js:106-113 | keeps payload, evidence and token, and succeeds only at the expected HEAD on clean main; a throw changes nothing |
| ReleaseStore.Store.MarkVersionBumpedNow | scripts/release-transaction.js:115-135 | likewise, only at the expected HEAD with the certified target version |
| ReleaseStore.Store.AdvanceReleaseState | scripts/release-transaction.js:142-148 | likewise, only at the expected HEAD and along the worktree transitions |
| ReleaseStore.Store.RecordReleaseCommit | scripts/release-transaction.js:150-171 | likewise, only for a HEAD whose one parent is the expected one, which HEAD then becomes |
| ReleaseStore.Store.FailReleaseNow | scripts/release-transaction.js:233-250 | records the failure and the state it came from, keeping payload, evidence and token; without the token nothing changes |
| ReleaseStore.Store.ReconcileReleaseState | scripts/release-transaction.js:189-231 | performs the recovery step whose success `CrashRecovery` proves, given git's answers about ancestry |
| ReleaseExact.StatesSpelled | scripts/release-audit-certificate.js:20-30 | the active and the settled states, each as a set |
| ReleaseExact.CertifyExactly | scripts/release-audit-certificate.js:174-199 | certification succeeds exactly without an open transaction, on clean main, for an allowed target, and writes exactly that certificate |
| ReleaseExact.BeginExactly | scripts/release-transaction.js:88-104 | begin succeeds exactly for an authentic certificate of this target, HEAD, origin/main and inputs on a clean worktree |
| ReleaseExact.RequireExactly | scripts/release-transaction.js:75-86 | the checks of a transaction, over the fields of record and repository |
| ReleaseExact.ConsumeExactly | scripts/release-transaction.js:106-113 | succeeds exactly in its state, at the expected HEAD, on clean main with unchanged inputs, and changes only the state |
| ReleaseExact.MarkExactly | scripts/release-transaction.js:115-135 | succeeds exactly in its state, at the expected HEAD, with the target version and no unexpected changes |
| ReleaseExact.AdvanceExactly | scripts/release-transaction.js:18-23 | succeeds exactly for the four transitions written out, in the first state at the expected HEAD |
| ReleaseExact.RecordExactly | scripts/release-transaction.js:24-27 | succeeds exactly for the two transitions written out, for a clean HEAD whose one parent is the expected one, and writes exactly that link |
| ReleaseExact.FailExactly | scripts/release-transaction.js:233-250 | a failure is recorded exactly under the token of the record |
| ReleaseExact.RecoverExactly | scripts/release-transaction.js:189-231 | for every repository and unsettled record, exactly when recovery succeeds and what it leaves, over remote tag, recorded commits, ancestry and local tag |
| ReleaseStore.StrangersDoNothing | scripts/release-transaction.js:61-73 | no call without the token moves, fails or replaces an open transaction, short of recovery |
| ReleaseStore.CallKeeps | scripts/release-transaction.js:88-250 | every call with any arguments, and any change of the repository, keeps recorded commits a chain on the base with HEAD expected at its end |
| ReleaseStore.Exercise | scripts/release-transaction.js:88-250 | the same for every sequence of calls on the store; and any sequence without the token leaves an open transaction as it is |
| ReleaseSafety.StepIsSafe | scripts/release.js:178-253 | every step of the script, every failure or crash between steps and every action of others, HEAD moves at any time included, keeps the safety invariant |
| ReleaseSafety.RunIsSafe | scripts/release.js:178-253 | the safety invariant holds in every state of every run |
| ReleaseSafety.ReachableTransaction | scripts/release-transaction.js:75-171 | in every state of every run the payload of a transaction is the certified one, release and next-cycle commits are single-parent links on the base, and HEAD is expected at the last link |
| ReleaseSafety.SealedByCertificate | scripts/release-audit-certificate.js:174-199 | the sealed payload is that of an earlier successful certification of a clean HEAD equal to origin/main, unchanged since |
| ReleaseSafety.OpenTransactionIsKept | scripts/release-audit-certificate.js:20-30 | no step of any kind replaces an open or failed transaction or loses a commit it has recorded |
| ReleaseSafety.KeptUntilSettled | scripts/release-audit-certificate.js:20-30 | in every run a transaction goes on, with the same payload and what it has recorded, until it is settled |
| ReleaseSafety.RecoveryOnlySettles | scripts/release-transaction.js:189-231 | recovery changes nothing of an open record but its state, and calls released only what has both commits |
| ReleaseSafety.OperationWrites | scripts/release-transaction.js:106-171 | every operation of the transaction throws with nothing changed, or has found HEAD at the end of the chain, or one commit beyond it, and writes the next phase or that link and nothing else |
| ReleaseSafety.StaleForGood | scripts/release-transaction.js:88-93 | in every run a certificate that is stale or used up is never valid again before another certification |
| ReleaseRecovery.RecoverySucceeds | scripts/release-transaction.js:189-231 | from every state satisfying the recovery invariant, recovery does not throw; it ends released if the push took effect and otherwise aborted with the local tag removed, and touches nothing else |
| ReleaseRecovery.StepKeeps | scripts/release.js:178-253 | every step, failure, crash and action of others keeps that invariant, unless it moves HEAD so as to lead the script astray |
| ReleaseRecovery.CrashRecovery | scripts/release-transaction.js:189-250 | at every point of every run without such a move, with an open transaction, recovery ends released if and only if the push took effect, and otherwise aborted without the local tag |
| ReleaseRecovery.SettledTellsTruth | scripts/release-transaction.js:189-250 | released means the remote tag is on the release commit and remote main contains the next-cycle commit; aborted means no tag anywhere |
| ReleaseRecovery.TaggedAstray | scripts/release.js:231-232 | a script about to tag anything but the release commit goes on to a state in which recovery throws |
| ReleaseRecovery.PushedAstray | scripts/release.js:243 | a script about to push a main without the next-cycle commit goes on to such a state |
| ReleaseRecovery.RecordedAstray | scripts/release.js:227-229 | so does one about to record a commit it has not made, once others merge it and the next run has fetched it |
| ReleaseRecovery.AstrayCanFail | scripts/release.js:225-243 | from every state that is astray, recovery throws in some continuation without further moves |
| ReleaseRecovery.MoveBreaksUnlessCalm | scripts/release.js:225-243 | a move of HEAD that does not lead the script astray keeps the recovery invariant, and one that does has a continuation in which recovery throws |
| ReleaseProgress.NextReady | scripts/release.js:202-246 | from every step whose gate is met, some action of the script leads to the next step with its gate met |
| ReleaseProgress.ScriptReleases | scripts/release.js:202-246 | from every such step the script's own steps lead to a record in released, the remote tag on the release commit and main at the next-cycle commit |
| ReleaseProgress.BeginReady | scripts/release-transaction.js:88-104 | a valid certificate on a clean worktree that main can be forwarded to is enough to start with |
| ReleaseScenario.PublishedRun | scripts/release.js:178-246 | a whole undisturbed run from a fresh repository that ends published |
| ReleaseScenario.MovedHeadBreaksRecovery | scripts/release.js:178-232 | a whole run from a fresh repository that ends so |
| ReleaseGates.StepOrigin | scripts/release.js:202-246 | the script goes from each step only to the next, and only through that step's gate, under the same target and certificate |
| ReleaseGates.ReachedThrough | scripts/release.js:202-246 | a run at some step has entered every earlier step through its gate with the sealed certificate |
| ReleaseGates.PublishedThroughGates | scripts/release.js:202-246 | in every run whatever was pushed had, under its certificate, a valid certificate on clean main, unchanged inputs, the target version with no unexpected changes, checks that passed, HEAD as expected at each of these, two direct-child commits, a new tag and a fast-forward of main |
| ReleaseGates.ReleasedAtExpected | scripts/release.js:245 | the script itself ends a transaction as released only with HEAD at its next-cycle commit |
| RuntimePlan.PowerOfTwoFloor | packages/code-index/resource_manager.py:240-241 | the largest power of two not above the value, or one |
| RuntimePlan.PlanShape | packages/code-index/resource_manager.py:126-237 | a usable plan has a power-of-two batch between one and the maximum, on the preferred backend or the CPU; a fail-closed backend is never replaced by the CPU |
| RuntimePlan.UsableMeansRoom | packages/code-index/resource_manager.py:126-191 | a usable plan leaves reserve, load and minimal workspace their room on its backend, and a plan that could have fallen back is unusable only when the CPU has no such room |
| RuntimePlan.PlanExactly | packages/code-index/resource_manager.py:155-191 | the preferred accelerator is planned exactly when the memory inequalities hold, of its own or lent memory; the CPU exactly when they do not, it has room and may take over |
| RuntimePlan.CpuPlanExactly | packages/code-index/resource_manager.py:126-141 | a plan for the CPU is usable exactly when reserve, load and minimal workspace fit |
| RuntimePlan.ReserveExactly | packages/code-index/resource_manager.py:126-170 | both reserves, the accelerator's being capped exactly while system memory is lent |
| RuntimePlan.ModelBytesExactly | packages/code-index/resource_manager.py:134-136 | the model bytes of every plan |
| RuntimePlan.BackendsSpelled | packages/code-index/resource_manager.py:69-74 | the shared-memory and the fail-closed backends, each as a set |
| RuntimePlan.AcceleratorBatchMaximal | packages/code-index/resource_manager.py:209-221 | twice the batch of an accelerator would exceed the maximum, its memory beside reserve and load, or half of it |
| RuntimePlan.CpuBatchMaximal | packages/code-index/resource_manager.py:199-208 | twice the batch on the CPU would exceed the maximum, the caps, the memory beside reserve, load and threads, or half of it |
| RuntimePlan.ThreadsExactly | packages/code-index/resource_manager.py:192-217 | as many threads as are allowed and have headroom |
| RuntimePlan.ItemBytesExactly | packages/code-index/resource_manager.py:205 | an item takes its base size times both scales, rounded down |
| RuntimePlan.CpuBatchFits | packages/code-index/resource_manager.py:199-208 | for a batch above one, reserve, load, threads and batch fit in available memory, and threads and batch in half of it |
| RuntimePlan.AcceleratorBatchFits | packages/code-index/resource_manager.py:209-220 | for a batch above one, reserve, load and batch fit in free accelerator memory, and the batch in half of it |
| RuntimePlan.ResidencyMonotone | packages/code-index/resource_manager.py:126-191 | if loading is planned on a backend, so is running there with the model resident, through every borrowing branch |
| EmbeddingServer.ExactlyOneCall | packages/code-index/embedding_server.py:205-254 | each text of an answered request is covered by exactly one successful model call |
| EmbeddingServer.LogCeiling | packages/code-index/embedding_server.py:242-246 | setting a lower ceiling keeps every earlier one respected |
| EmbeddingServer.LogClean | packages/code-index/embedding_server.py:256-260 | after eight clean requests no earlier ceiling binds any more |
| EmbeddingServer.Server.EffectiveBatchSize | packages/code-index/embedding_server.py:686-691 | the smaller of the plan's batch and the ceiling, and at least one |
| EmbeddingServer.Server.RefreshActivePlan | packages/code-index/embedding_server.py:630-651 | refuses exactly for an unusable plan, a fallback that is not allowed or a move that raises, changing nothing; otherwise leaves exactly the refreshed, the CPU or the old plan |
| EmbeddingServer.Server.MoveToCpuAfterOom | packages/code-index/embedding_server.py:653-665 | moves only when not fail-closed and a CPU plan is usable, and lifts the ceiling |
| EmbeddingServer.Server.MoveModelToCpu | packages/code-index/embedding_server.py:667-680 | all or nothing, if moving the model raises |
| EmbeddingServer.Server.BackOff | packages/code-index/embedding_server.py:237-252 | one out-of-memory failure halves the ceiling or moves to the CPU or gives up, and uses up part of a finite budget |
| EmbeddingServer.Server.TryBatch | packages/code-index/embedding_server.py:209-254 | one attempt takes the largest batch allowed and is done, tried again or given up exactly for its cause |
| EmbeddingServer.Server.EncodeBatches | packages/code-index/embedding_server.py:205-254 | terminates by texts left, accelerator, batch size; answers in order from successive successful calls with full batches, and raises exactly what the first attempt it does not survive is a reason for, so never if nothing goes wrong; backoffs stay within the budget |
| EmbeddingServer.Server.FinishRequest | packages/code-index/embedding_server.py:256-260 | the eighth clean request since the ceiling was set lifts it, no earlier one does |
| EmbeddingServer.Server.Encode | packages/code-index/embedding_server.py:193-264 | one vector per text at its own position from the one successful call that covered it; at most floor(log2) of the starting and of the CPU batch plus two backoffs; refused, cancelled or broken off exactly for the reasons there are |
| EmbeddingServer.Server.Load | packages/code-index/embedding_server.py:123-187 | gets as far as warming up exactly if the device may be planned for and the model loads; a device that must not fall back ends on the selected backend, with no fallback recorded but the loader's own, or fails |
| EmbeddingServer.Server.LoadModel | packages/code-index/embedding_server.py:147-166 | succeeds exactly if loading does not raise, or is retried on the CPU where that is allowed, planned and does not raise |
| EmbeddingServer.Server.WarmUp | packages/code-index/embedding_server.py:179-185 | succeeds exactly if the plan is not refused and both benchmark encodes are answered |
| EmbeddingServer.Server.Serve | packages/code-index/embedding_server.py:193-264 | over any sequence of requests every reply is right, the backend changes at most from an accelerator to the CPU, and no call exceeds a ceiling before eight clean requests or a move |
| EgressProxy.LimitsSpelled | benchmarks/src/harness/certified-proxy-request-policy.ts:1-3 | the three limits as numbers |
| EgressProxy.EveryRequestAnswered | benchmarks/src/harness/certified-egress-proxy.ts:90-97 | as many good responses as admitted requests means one for each |
| EgressProxy.Proxy.BeginCell | benchmarks/src/harness/certified-egress-proxy.ts:61-80 | succeeds exactly when open, idle and the timeout is in bounds, with all counters at zero |
| EgressProxy.Proxy.EndCell | benchmarks/src/harness/certified-egress-proxy.ts:81-105 | returns evidence exactly when the counters are complete, and then every completion request of the cell was admitted, its own body, whose hash is listed, names the expected model, and it got one good response, the models and hashes being theirs one to one |
| EgressProxy.Proxy.CertifiedEvidenceStands | benchmarks/src/harness/certified-egress-proxy.ts:81-105 | evidence once returned stays true of the requests in every later state |
| EgressProxy.Proxy.Handle | benchmarks/src/harness/certified-egress-proxy.ts:118-158 | a fifth concurrent request is refused; any other is counted in flight and either waits for its body as pending or is rejected |
| EgressProxy.Proxy.Chunk | benchmarks/src/harness/certified-egress-proxy.ts:188-208 | a chunk over either limit drops the whole body from the budget, any other is added to it |
| EgressProxy.Proxy.ReadAborts | benchmarks/src/harness/certified-egress-proxy.ts:205-208 | a broken read returns exactly what it had buffered |
| EgressProxy.Proxy.ReadEnds | benchmarks/src/harness/certified-egress-proxy.ts:204 | a complete body stays counted |
| EgressProxy.Proxy.AfterRead | benchmarks/src/harness/certified-egress-proxy.ts:159-181 | a request goes on only in its own, still active cell and, for completions, with the expected model; otherwise it is rejected and releases its bytes and its pending count |
| EgressProxy.Proxy.Admit | benchmarks/src/harness/certified-egress-proxy.ts:169-174 | a request that names the expected model adds one to the count, the model it named and its own hash |
| EgressProxy.Proxy.UpstreamEnds | benchmarks/src/harness/certified-egress-proxy.ts:251-265 | for a completion exactly one of the four response counters moves, by status and models; only a good response adds models |
| EgressProxy.Proxy.LateEnd | benchmarks/src/harness/certified-egress-proxy.ts:251-282 | a response that ends after its exchange was given up still moves the counters of its cell, which is never one that evidence was returned for |
| EgressProxy.Proxy.UpstreamFails | benchmarks/src/harness/certified-egress-proxy.ts:231-282 | a failed exchange changes no counter yet |
| EgressProxy.Proxy.Finally | benchmarks/src/harness/certified-egress-proxy.ts:177-180 | bytes and pending count are released on success and on failure |
| EgressProxy.Proxy.Catch | benchmarks/src/harness/certified-egress-proxy.ts:129-135 | a forward that threw is counted as rejected in the cell it started in |
| EgressProxy.Proxy.Leave | benchmarks/src/harness/certified-egress-proxy.ts:136-139 | the request leaves the set in flight |
| EgressProxy.Proxy.Interleave | benchmarks/src/harness/certified-egress-proxy.ts:118-265 | after any interleaving all evidence ever returned is sound and unchanged |
| EgressProxy.Proxy.Budgets | benchmarks/src/harness/certified-proxy-request-policy.ts:1-3 | buffered bytes are those held by requests in flight, within both limits and zero when none is; at most four are in flight; each cell's pending count is that of its own unfinished forwards |
| Shrinkwrap.CandidateDirsExact | scripts/generate-coding-agent-shrinkwrap.js:153-165 | exactly the root, the package itself and the directories on the way to it are tried |
| Shrinkwrap.CandidateDirsShrink | scripts/generate-coding-agent-shrinkwrap.js:153-165 | they are tried from the longest to the root, none twice |
| Shrinkwrap.ListCandidateDirs | scripts/generate-coding-agent-shrinkwrap.js:154-165 | the loop terminates with that list |
| Shrinkwrap.EnclosesSpelled | scripts/generate-coding-agent-shrinkwrap.js:157-164 | the enclosing directories of a path, by how it continues after them |
| Shrinkwrap.InDirSpelled | scripts/generate-coding-agent-shrinkwrap.js:169 | where a directory has a package installed, spelled out |
| Shrinkwrap.CopySpelled | scripts/generate-coding-agent-shrinkwrap.js:181-184 | what counts as a copy of a package, spelled out |
| Shrinkwrap.NearestEnclosing | scripts/generate-coding-agent-shrinkwrap.js:167-179 | if any enclosing directory has the package installed, the path found is directory, node_modules and name for the longest such directory |
| Shrinkwrap.OnlyCopyOtherwise | scripts/generate-coding-agent-shrinkwrap.js:181-193 | otherwise a path is found exactly if it is the only copy anywhere |
| Shrinkwrap.ResolvedIsCopy | scripts/generate-coding-agent-shrinkwrap.js:167-188 | whatever is resolved is a real entry and a copy of the package asked for |
| Shrinkwrap.ResolveExternalDependency | scripts/generate-coding-agent-shrinkwrap.js:153-194 | the nearest enclosing copy, else the only copy anywhere, else failure |
| Shrinkwrap.PlainNamesConsistent | scripts/generate-coding-agent-shrinkwrap.js:196-223 | if no workspace is named like a path into node_modules, no path is needed as two different things |
| Shrinkwrap.DroppedDependency | scripts/generate-coding-agent-shrinkwrap.js:210-223 | a family of lockfiles whose shrinkwrap lacks a dependency that is needed, because a package and a workspace share a path |
| Shrinkwrap.GenerateShrinkwrap | scripts/generate-coding-agent-shrinkwrap.js:297-324 | for every lockfile the worklist terminates with exactly the first-come result, each path once and standing for something needed, closed under resolution; it fails only if something needed cannot be resolved, and in consistent lockfiles exactly then |
| Shrinkwrap.FaithfulIffConsistent | scripts/generate-coding-agent-shrinkwrap.js:307-324 | the result holds everything needed with its own dependencies if and only if no path is needed as two things with different dependencies |
| Shrinkwrap.NothingUnresolved | scripts/generate-coding-agent-shrinkwrap.js:307-324 | in consistent lockfiles a success leaves nothing needed unresolved |
| Shrinkwrap.DependenciesIncluded | scripts/generate-coding-agent-shrinkwrap.js:270-279 | a closed result passes the validation that every dependency of every entry is included |
| PriorityLock.Lock.Enter | packages/code-index/embedding_priority_lock.py:46-64 | a hold acquires, waits or is cancelled exactly as the lock, the waiters and the check say, and entering loses no wake-up |
| PriorityLock.Lock.Check | packages/code-index/embedding_priority_lock.py:56-64 | the same after waking up; the waiter count follows on every path; a wake-up is lost exactly when the last interactive waiter is cancelled while the lock is free and a background thread sleeps |
| PriorityLock.Lock.Release | packages/code-index/embedding_priority_lock.py:65-70 | frees the lock and wakes everybody, so nobody is stuck |
| PriorityLock.TakeTurns | packages/code-index/embedding_priority_lock.py:56-70 | progress: from every state with the lock free, a waiting background thread that tests again acquires once the waiting interactive ones have each had one turn, in exactly that many acquisitions |
| PriorityLock.Interleave | packages/code-index/embedding_priority_lock.py:46-70 | in every interleaving at most one thread holds the lock, the count is that of the interactive threads waiting, no background thread acquires between an interactive start and its acquisition or cancellation, and no wake-up is lost if all poll or none is cancelled |
| PriorityLock.LostWakeUp | packages/code-index/embedding_priority_lock.py:58-64 | a run that leaves a background thread asleep with the lock free and nobody ahead of it |
| PriorityLock.Run | packages/code-index/embedding_priority_lock.py:26-44 | for a pointwise operation a background run returns the list an interactive run returns |
| RequestRegistry.Registry.Register | packages/code-index/embedding_request_registry.py:14-23 | refused exactly for an active id; otherwise starts cancelled exactly when an unexpired cancellation waits, and uses it up |
| RequestRegistry.Registry.CompletePop | packages/code-index/embedding_request_registry.py:25-27 | removes the active registration of the id; it is the caller's own exactly if the caller owns it, which a first-time owner does unless another completed it |
| RequestRegistry.Registry.CompleteSet | packages/code-index/embedding_request_registry.py:28-29 | only a removed registration is reported complete |
| RequestRegistry.Registry.CancelBegin | packages/code-index/embedding_request_registry.py:31-41 | an active registration is flagged; otherwise a cancellation waits for the next one |
| RequestRegistry.DiscardOk | packages/code-index/embedding_request_registry.py:48-54 | discarding loses no cancellation that can still matter and leaves exactly those waiting |
| RequestRegistry.CancelsExactlyTheNext | packages/code-index/embedding_request_registry.py:14-54 | in every history a cancellation before the start cancels the next registration within its lifetime, and a later one only after another cancellation |
| RequestRegistry.Interleave | packages/code-index/embedding_request_registry.py:14-54 | after any interleaving no id is both active and tombstoned, every registration started cancelled exactly when it had to, no flag is taken back, and a cancel reported idle only what completed; if only registered requests complete, each once, that is by their own request, and in general unless another request with that id called complete |
| RequestRegistry.UnregisteredCompletesAnother | packages/code-index/embedding_http_handler.py:75-105 | two runs, with an empty input and with a duplicate id, in which a cancel reports a request idle that has not finished |
| TurnTimeout.Controller.constructor | benchmarks/src/agents/turn-timeout.ts:34-43 | both timers are set for their deadlines, or at once if these have passed |
| TurnTimeout.Controller.RenewSemanticProgress | benchmarks/src/agents/turn-timeout.ts:45-49 | moves the lease to the grace from now, never before the nominal deadline, and leaves the hard timer alone |
| TurnTimeout.Controller.Stop | benchmarks/src/agents/turn-timeout.ts:51-58 | stops for good and clears both timers |
| TurnTimeout.Controller.ReachActivityDeadline | benchmarks/src/agents/turn-timeout.ts:75-87 | reports exactly when the hard deadline has passed, which comes first, or the nominal budget and the full grace since the last renewal have; re-arms after an early firing |
| TurnTimeout.Controller.ReachHardDeadline | benchmarks/src/agents/turn-timeout.ts:89-96 | reports at or after the hard deadline whatever was renewed |
| TurnTimeout.Controller.Finish | benchmarks/src/agents/turn-timeout.ts:98-102 | the report is right when made and the last thing that happens |
| TurnTimeout.Drive | benchmarks/src/agents/turn-timeout.ts:34-102 | for every schedule of renewals, stops and early or late firings the reports are at most one, right when made, and none after a stop |

## Left out

- Characters are whole Unicode scalar values with their UTF-8 width; a surrogate pair split between two chunks is not modelled, nor is the byte count carried by the overflow error.
- Hashes are the values they digest, so two different values never collide; Brotli, JSON serialisation and the temporary file of the release record are one atomic write.
- Each exported release function is one step, except that a certification can be killed between its two writes and a recovery between deleting the tag and writing the record. The push is atomic. Others only fast-forward remote main, do not create the tag, and do not publish the script's commits for it.
- ReleaseStore.Store.ReconcileReleaseState: git's answers to `merge-base --is-ancestor` are a parameter that agrees with the commit graph; the model does not compute ancestry.
- Version-bump file lists, release receipts, changelog text, the reasons and timestamps in the record, and the staged-tree checks of the script are not part of the record; any of them may fail as a thrown step.
- Planner: fractions of byte counts are exact floors and the two scale factors arbitrary reals within the code's lower bounds, where the source uses floating point; device, dtype and reason strings are left out.
- Embedding server: the model is an oracle that succeeds for every text of a call or raises; performance tracking, warnings and thread settings are left out.
- EmbeddingServer.Server.Load: backend selection and the sizes read from the loaded model are parameters; the vector dimension is left out.
- Egress proxy: timeouts appear only as the aborts they cause; TLS, headers, rejection kinds and the response-model collector are left out, the collector's result and the JSON parser being parameters.
- Shrinkwrap: lockfile paths are relative, as npm writes them; entry fields other than dependency names, sorting and the other validations are left out.
- Priority lock: fairness among threads of one kind and real time are left out; progress assumes that nobody else arrives meanwhile.
- Request registry: the time a cancel waits for completion is left out; it returns whether the registration has completed. The clock is read once per critical section.
- Turn timeout: timers are arbitrary firings, also early, late or after being cleared; clock readings are integers, one per call.
- The HTTP layer, process control, memory probing, accelerator detection, numerical kernels, candidate registry, report scripts and redaction code are left out: they are foreign code, plumbing or easy to state.
