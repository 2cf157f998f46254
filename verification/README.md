# A verified model of the execution kernel

The kernel runs programs, processes and agents under supervision, and promises that nothing is lost,
run twice or released too early when things interleave or crash. This project models the parts that carry
those promises and proves them:

- **Pipelines.** The validator's checks on ids and dependencies with its depth-first cycle search
  (`Validator`, `DependencyGraph`), the lock and in-flight coordinator (`Coordinator`), and any number of
  validated programs interleaving on one coordinator (`Pipeline`, `PipelineSafety`, `PipelineResults`,
  `PipelineProgress`). Main results: every issue is reported exactly when it is justified, and a cycle exactly
  when there is one; no interleaving deadlocks, every run is bounded, and a run that can go no further has one
  result per instruction of every program; on every run a result is what ended the run that it belongs to, or
  has the reason for which the instruction did not run.
- **Codec.** The CBOR writer and reader (section 3 of RFC 8949), UTF-8 included (`Utf8`, `Cbor`,
  `CborGrammar`, `CborFloats`, `CborExamples`, `CborRoundTrip`, `CborCanonical`, `CborCodec`), and the canonical
  form behind fingerprints (`CanonicalJson`). Main results: the reader accepts exactly the documents of a
  grammar of data items and gives exactly their values; decoding inverts encoding for exactly the
  transportable values, and two values share an encoding exactly when they are the same JSON value.
- **Agents.** The runtime as a state machine whose actions are the stretches of code between two awaits
  (`AgentScopes`, `AgentReconcile`, `AgentRuntime`, `AgentRuntimeSafety`, `AgentRuntimeRuns`, `AgentFence`,
  `AgentLifecycle`, `AgentBudget`, `AgentSettlement`, `AgentScenario`, `AgentLimits`), its journal (`AgentJournal`,
  `AgentRecords`, `AgentDomainJournal`) and its command group (`AgentExecution`). Main results: on every run
  what the runtime holds of its agents and of a Run's usage is what a replay of the compact journal gives,
  however the agents' events are interleaved in it; every agent's journal follows one state chart, in which a
  requested pause holds until a resumption; budgets balance on every run; a reconciliation settles every tree.
- **Wire protocols.** The four stream writers and parsers and the transcoding of cached turns (`WireText`,
  `WireCalls`, `WireChat`, `WireResponses`, `WireAnthropic`, `WireGemini`, `WireTranscode`). Main result:
  from any protocol to any other and read again, the turn means the same exactly when the target can carry
  the calls; any response, streamed or whole, is read as exactly what its frames say.
- **Leases and recovery.** The arbiter with its queue (`Arbiter`, `ArbiterDomain`, `ArbiterRuns`), crash
  recovery (`Recovery`) and the launch with a crash possible at every point (`Launch`). Main results: on
  every run of arrivals, releases, cancellations, timeouts, fencing and rebuilds, nobody overtakes, no request is
  granted twice, a pass leaves nobody who could be granted, and an operation counts for the cap exactly as long
  as it was admitted and no release has left it without a lease; a recovery records of every operation exactly
  what its evidence shows, and one whose answers are true never
  releases the leases of a process that executes again, and releases none while a descendant of it executes
  exactly when the evidence covers its whole tree.
- **Process trees.** The helper's fixpoint scan and the sampler's search (`ProcessTree`, `ProcessSampler`),
  the command buffer (`ReaperLines`) and the stop protocol of operating system, helper and host
  (`ReaperHost`, `ReaperSession`). Main results: a positive answer means that the helper saw ECHILD and that
  no process of the tree exists, and every answer is decided by what has happened to the session before.
- **Refinement and order.** Prefix-skipping workspace recovery (`WorkspaceRecovery`) and capabilities
  (`Capability`). Main results: skipping restores what replaying every checkpoint would, the newest that
  replays; a request is admitted exactly when each condition on it holds, and what is admitted under a
  descendant is admitted under its ancestors of the same domain.

Where the source changes fields in place the model is a class whose methods are proved against functions
or state predicates; the properties are then lemmas about those.

## What the proofs show to be conditional

The promises below do not hold of the code on all inputs. Each has a concrete run or input and the exact
condition.

- **Interruption fence, budget, completion and records with several agents at a time.** The finalizer of a
  quantum deletes its agent's registration without looking whether it is still its own
  (`src/agents/runtime.ts:378-382`). With `maxConcurrentAgents` of two or more, an agent that is dispatched
  again before that finalizer runs loses its new registration (`AgentLimits.LostQuantum`). An interruption
  then neither aborts nor awaits it, and it records a step after the interruption; recovering it can give
  back steps that were charged; a completed tree can get an interrupted member; and a recovery that is
  given up records the state it saved before its await, while the journal leads to the checkpoint written
  meanwhile (`AgentLimits.TwoAtATimeLoseACheckpoint`). Each of the four holds on every run exactly when
  `maxConcurrentAgents` is 1, and on every run in which no agent is dispatched while it is registered.
- **Responses stream.** It carries exactly the calls with a nonempty id not seen before
  (`WireResponses.AllKeptExactly`); two Gemini calls of one tool without ids are not
  (`WireTranscode.CallsWithoutIdsCollide`).
- **Gemini stream.** It carries exactly the calls whose arguments are an object
  (`WireTranscode.Transcode`, through `WireTranscode.Carries`); the parser takes an array for arguments where it is JSON text and drops
  it where it is a value (`WireTranscode.ArrayArgumentsAreLost`).
- **Canonical form.** `canonicalize` assigns keys to `{}`, so an own key `__proto__` is lost: the form is
  the same JSON value exactly when no object has one (`CanonicalJson.KeepsTheValueExactly`,
  `CanonicalJson.ProtoKeysCollide`). The CBOR writer and reader keep such keys.
- **Attenuation.** `attenuate` does not look at the parent's domain, so admission under an ancestor also
  needs the same domain (`Capability.AdmissionIsMonotone`, `Capability.AttenuationCrossesDomains`).
- **Waiting after a cancellation or a timeout.** Neither runs the queue. In a queue nobody of which could be
  granted, taking out a request leaves one that could exactly when a later request waited for that one
  alone (`ArbiterRuns.RemovalLeavesGrantableExactly`, `ArbiterRuns.CancelWaitLeavesGrantable`).
- **Release of a listed resource.** A release drops a listed resource that is persisted for its operation
  even where another operation holds it (`src/domain.ts:658-664`). On every run leases are taken by their own
  operation's release alone exactly when no release lists such a resource
  (`ArbiterRuns.OnlyOwnersReleaseExactly`, `ArbiterRuns.ReleaseTakesAnothersLease`).
- **Release on recovery.** The decision ignores what scope a confirmed stop has, and releases for a dead
  leader whose group is gone or was never recorded. A process that left the group can then still execute,
  unless the evidence covers the tree (`Launch.ReleaseLeavesNothingRunningExactly`).
- **Command buffer.** Commands depend on how the channel cuts the stream exactly when a NUL that can be
  read together with the next byte precedes the end of a line (`ReaperLines.CutsDoNotMatterExactly`,
  `ReaperLines.NulHidesACommand`).

In two places the code and its documentation differ and the model follows the code. `releaseResourceLock:
false` is described as keeping an operation's leases, but `recordOperationResult` deletes the persisted ones
all the same (`Recovery.RecoveryEngine.FinalizeOperation`). A request for a resource that bears the name of
the concurrency cap is taken for a capped one by the queue pass; `Arbiter.Stuck` has that case.

## Model

| member | source | states |
|---|---|---|
| Validator.CycleDetector.Visit | src/isa/validator.ts:560-575 | the search keeps its colours true: visiting ids are the stack, visited ids are in an order with dependencies first unless an issue was reported, and every issue closes a cycle |
| Validator.DetectCycles | src/isa/validator.ts:560-575 | an issue is added if and only if the graph on declared ids has a cycle, and every reported trail ends in one |
| DependencyGraph.OrderedIsAcyclic | src/isa/validator.ts:560-575 | an order of all ids with dependencies first rules out every cycle |
| DependencyGraph.SomeIdIsReady | src/isa/pipeline.ts:286-289 | in an acyclic graph some pending id depends on no pending one |
| Validator.CheckInstruction | src/isa/validator.ts:476-498 | exactly the issues that id, opcode and dependency list of one entry deserve |
| Validator.StandInsAreApart | src/isa/validator.ts:476-479 | what stands in for a malformed id is no other instruction's id: ids clash exactly where two valid ones are equal |
| Validator.IdsExactly | src/isa/validator.ts:13 | which ids are valid, by their character codes |
| Validator.CheckDependencies | src/isa/validator.ts:489-497 | exactly the invalid references and the repeated valid ones |
| Validator.CheckReferences | src/isa/validator.ts:519-523 | an unknown reference for exactly each undeclared dependency, numbered among the entries that are left |
| Validator.CheckInstructions | src/isa/validator.ts:459-518 | the loop collects exactly the declared ids and the known entries, and adds exactly the issues that some entry deserves |
| Validator.ValidateProgram | src/isa/validator.ts:440-531 | passes exactly the well-formed programs: bounded, distinct ids, declared distinct dependencies, acyclic; reports every issue exactly when it is justified, and as cycles only cycles |
| Validator.GraphLookup | src/isa/validator.ts:562-563 | with distinct ids the searched graph holds each entry's own dependencies |
| Coordinator.DrainIsSafe | src/isa/pipeline.ts:100-117 | a drain keeps held resources the disjoint union of the live grants, loses and invents no request, and leaves no waiter that could be granted |
| Coordinator.RequestIsSafe | src/isa/pipeline.ts:65-71 | the same for a new request |
| Coordinator.FreeIsSafe | src/isa/pipeline.ts:110-115 | the same for a release, which frees its own grant and no other |
| Coordinator.DrainIsGreedy | src/isa/pipeline.ts:100-117 | a drain takes the queue in order: exactly the requests that fit beside what is held by then are granted, the rest wait in order |
| Coordinator.PipelineDomainCoordinator.DrainWaiters | src/isa/pipeline.ts:100-117 | the indexed loop computes the specified drain |
| Coordinator.PipelineDomainCoordinator.Acquire | src/isa/pipeline.ts:65-71 | the request is queued or granted under a ticket nobody had |
| Coordinator.PipelineDomainCoordinator.Release | src/isa/pipeline.ts:109-115 | idempotent: the first call frees what this grant captured, a second changes nothing |
| Coordinator.PipelineDomainCoordinator.JoinInFlight | src/isa/pipeline.ts:73-77 | joins only an equal fingerprint, refuses a different one |
| Coordinator.PipelineDomainCoordinator.RegisterInFlight | src/isa/pipeline.ts:79-86 | the key is in flight under this fingerprint and result, others as before |
| Coordinator.PipelineDomainCoordinator.SettleInFlight | src/isa/pipeline.ts:81-85 | a settled result clears its own entry only |
| PipelineSafety.ProgramGraph | src/isa/validator.ts:519-531 | a validated program's instructions form an acyclic graph with all dependencies declared |
| PipelineSafety.ValidatedExactly | src/isa/validator.ts:459-531 | which programs pass: 1 to 256 instructions with valid distinct ids, up to 64 distinct dependencies each, all declared, and no cycle |
| PipelineSafety.SomeInstructionIsReady | src/isa/pipeline.ts:265-289 | an idle program with pending instructions has one whose dependencies all have results, so the no-progress rejection is unreachable |
| PipelineSafety.StartKeeps | src/isa/pipeline.ts:196-254 | starting, joining or refusing an instruction keeps locks, queue, in-flight table and results consistent |
| PipelineSafety.PassKeeps | src/isa/pipeline.ts:264-278 | a pass keeps the invariant and the concurrency limit, and one that progresses nothing below the limit found every pending instruction waiting |
| PipelineSafety.TurnKeeps | src/isa/pipeline.ts:256-290 | one turn of the loop never rejects a validated program and touches no other program |
| PipelineSafety.ConcludeKeeps | src/isa/pipeline.ts:219-246 | however a run ends, locks, queue and results stay consistent, and a commit ticket leaves only the head of the queue |
| PipelineSafety.UnlockKeeps | src/isa/pipeline.ts:247-249 | releasing keeps every other run's locks |
| PipelineSafety.DeliverKeeps | src/isa/pipeline.ts:208-214 | delivering a result, own or joined, keeps every other task in order |
| PipelineSafety.StepKeeps | src/isa/pipeline.ts:196-290 | every step of every interleaving keeps the invariant and all results given so far; what the results are is stated in PipelineResults |
| PipelineSafety.ExecutorSafety | src/isa/pipeline.ts:217-232 | an executor runs only after every dependency succeeded, under its locks, alone on its resources, its key and the commit queue |
| PipelineSafety.JoinedSharesTheRun | src/isa/pipeline.ts:203-214 | joining happens on equal key and fingerprint and delivers the owner's own result |
| PipelineSafety.FinishedHasAllResults | src/isa/pipeline.ts:291 | a finished program has a result for every instruction |
| PipelineResults.StepEndsExactly | src/isa/pipeline.ts:217-254 | a step gives a run a result exactly where it ends it, with that result |
| PipelineResults.EndedExactly | src/isa/pipeline.ts:182-301 | on every run a run of an instruction has a result exactly if it was ended with it, and one that did not run has its result for a reason |
| PipelineResults.ResultsSayWhatHappened | src/isa/pipeline.ts:196-290 | every result is what ended the run under the key and fingerprint of its instruction, or the instruction did not run: a dependency did not succeed, a conflict, an abort |
| PipelineResults.TheEndIsTheResult | src/isa/pipeline.ts:203-232 | what ended a run is what it and everyone who joined it gets, and nothing else |
| PipelineResults.ReturnedIsTheResult | src/isa/pipeline.ts:232-233 | what an executor returned is the result of its instruction and of every one that joined it |
| PipelineResults.OnlyExecutorsSucceed | src/isa/pipeline.ts:217-246 | nothing succeeded, was rolled back or became indeterminate unless an executor said so |
| PipelineResults.CancelledAfterAnAbort | src/isa/pipeline.ts:220-231 | a run was cancelled, without its executor saying so, only after its program was aborted |
| PipelineResults.FailedPreconditionFails | src/isa/pipeline.ts:221-228 | a precondition that did not hold makes its instruction fail |
| PipelineResults.PreconditionsHold | src/isa/pipeline.ts:221-231 | an executor runs only with every instruction that is named as a precondition in the status named, then and ever after |
| PipelineResults.ResultsRemain | src/isa/pipeline.ts:208-214 | results never change on any run |
| PipelineResults.NothingStartsAfterAnAbort | src/isa/pipeline.ts:205-231 | after an abort no executor starts and no check begins |
| PipelineResults.PendingIsCancelledByAnAbort | src/isa/pipeline.ts:257-263 | what is pending then stays so or is cancelled |
| PipelineResults.TurnIsThorough | src/isa/pipeline.ts:264-278 | a program that waits below its limit has nothing pending that had a result for every dependency |
| PipelineProgress.DeadlockFree | src/isa/pipeline.ts:256-290 | while some program is unfinished, something other than an abort can happen |
| PipelineProgress.StepDecreases | src/isa/pipeline.ts:256-290 | every such step makes the work left strictly smaller |
| PipelineProgress.RunIsSafeAndBounded | src/isa/pipeline.ts:182-301 | the invariant holds along every run, and the number of its steps other than abort signals is bounded by its initial work |
| PipelineProgress.MaximalRunCompletes | src/isa/pipeline.ts:182-301 | a run that can go no further has finished every program with one result per instruction in program order |
| Utf8.DecodeAllEncode | src/isa/codec.ts:93-97 | strict decoding of an encoded text gives it back with lone surrogates replaced |
| Utf8.ScrubKeepsExactlyWellFormed | src/isa/codec.ts:93-97 | nothing is replaced exactly in well-formed text |
| Utf8.DecodeEncode | src/isa/codec.ts:148-150 | with the decoder's silent mark removal, for every string |
| Utf8.SurvivesExactlyPlain | src/isa/codec.ts:202-207 | a string survives exactly when it is well formed and does not start with U+FEFF |
| Utf8.DecodesExactlyEncodings | src/isa/codec.ts:148-150 | bytes decode exactly when they are the encoding of a well-formed text: no overlong form, no surrogate, nothing above U+10FFFF; a leading mark goes |
| Utf8.BoundariesOfTheLengths | src/isa/codec.ts:93-97 | where the four lengths of section 3 of RFC 3629 begin and end |
| CborGrammar.ItemIsRead | src/isa/codec.ts:160-250 | every item of the grammar, in any length form, is read as its value, whatever follows |
| CborGrammar.ReadIsItem | src/isa/codec.ts:160-250 | whatever is read is an item, and the rest |
| CborGrammar.ReadsExactlyItems | src/isa/codec.ts:160-250 | the reader accepts exactly the items and gives exactly their values |
| CborGrammar.DocumentsAreItems | src/isa/codec.ts:154-158 | a document is one item and nothing after it |
| CborFloats.PatternsStep | src/isa/codec.ts:179-189 | from zero each pattern denotes one unit in the last place more than the one before; the unit doubles with every exponent; the sign negates |
| CborFloats.OneIsOne | src/isa/codec.ts:229-240 | the pattern with the exponent of one denotes 1 |
| CborFloats.BitsAreUnique | src/isa/codec.ts:229-240 | a number of bits is one pattern |
| CborFloats.HalfDenotes | src/isa/codec.ts:229-240 | two bytes read as a half float denote what their pattern does, and nothing with the largest exponent |
| CborFloats.SingleDenotes | src/isa/codec.ts:242-248 | the same for four bytes |
| CborFloats.DoubleDenotes | src/isa/codec.ts:250-256 | the same for eight bytes |
| CborExamples.IntegersHaveTheirHead | src/isa/codec.ts:98-105 | an integer is written in major type 0 or 1 with its magnitude as argument |
| CborExamples.HeadIsShortest | src/isa/codec.ts:124-146 | the written head carries its argument, and no head that does is shorter |
| CborExamples.HeadsAsGiven | src/isa/codec.ts:124-146 | the integers of appendix A of RFC 8949 have the heads given there |
| CborExamples.SimpleAsGiven | src/isa/codec.ts:88-97 | and so have the simple values and the empty containers |
| CborExamples.NestedAsGiven | src/isa/codec.ts:107-120 | and an array and an object |
| CborRoundTrip.ReadHead | src/isa/codec.ts:124-146 | every written head is read back as its major type and value, and ends where it should |
| CborRoundTrip.ReadEncodedNumber | src/isa/codec.ts:98-105 | integers and doubles come back, -0 taken as 0 |
| CborRoundTrip.ReadEncoded | src/isa/codec.ts:160-268 | whatever follows, reading an encoded value either refuses it or returns it as the decoder sees it and stops right after it |
| CborRoundTrip.ReadEncodedEntries | src/isa/codec.ts:216-227 | the same for the entries of an object, duplicate keys included |
| CborCanonical.LessAtTheFirstDifference | src/isa/codec.ts:111 | the smaller key is a proper prefix, or smaller at the first unit that differs |
| CborCanonical.SortSorts | src/isa/codec.ts:111 | sorting by UTF-16 code units gives the one ascending list of the same entries |
| CborCanonical.AscendingIsUnique | src/isa/codec.ts:111-116 | an ascending list is determined by its elements, so insertion order does not reach the bytes |
| CborCanonical.CanonKeepsTransportable | src/isa/codec.ts:111-116 | writing keys in sorted order changes nothing about what can be transported |
| CborCanonical.SurvivesExactly | src/isa/codec.ts:160-268 | a value comes back unchanged exactly when nesting, collection sizes and strings are within what the codec carries |
| CborCanonical.RoundTrip | src/isa/codec.ts:272-282 | decode inverts encode exactly on the transportable values, consuming exactly the encoded bytes even when more follow |
| CborCanonical.SameExactlyWhenCanonEqual | src/isa/codec.ts:111-116 | with the keys in the order the writer takes them, two values are equal exactly when they are the same JSON value |
| CborCanonical.EncodingIsInjective | src/isa/codec.ts:272-276 | two transportable values share an encoding exactly when they are the same JSON value, whatever the insertion order |
| CborCodec.SortCommutes | src/isa/codec.ts:111-116 | the writer may sort an object before or after the objects inside it |
| CborCodec.CborWriter.WriteHead | src/isa/codec.ts:124-146 | appends the shortest head, or refuses what is not a safe integer |
| CborCodec.CborWriter.WriteEight | src/isa/codec.ts:139-145 | the shifts write the eight big-endian bytes |
| CborCodec.CborWriter.WriteText | src/isa/codec.ts:93-97 | appends head and UTF-8 bytes |
| CborCodec.CborWriter.Write | src/isa/codec.ts:88-122 | appends the encoding of the value, for exactly the writable ones |
| CborCodec.CborWriter.WriteArray | src/isa/codec.ts:107-110 | the same for arrays |
| CborCodec.CborWriter.WriteObject | src/isa/codec.ts:111-120 | the same for objects, keys sorted |
| CborCodec.CborReader.ReadByte | src/isa/codec.ts:258-261 | one byte, or a refusal at the end |
| CborCodec.CborReader.ReadAdditional | src/isa/codec.ts:191-200 | the length forms, refusing indefinite ones and unsafe integers |
| CborCodec.CborReader.ReadTextBytes | src/isa/codec.ts:202-207 | a text within the input, decoded strictly |
| CborCodec.CborReader.ReadFloat16 | src/isa/codec.ts:229-240 | half floats, with bits taken apart as the code does |
| CborCodec.CborReader.ReadSimpleValue | src/isa/codec.ts:179-189 | null, booleans and the three float widths, refusing the rest |
| CborCodec.CborReader.ReadValue | src/isa/codec.ts:160-177 | the offset-advancing reader agrees with the reader on byte sequences |
| CborCodec.CborReader.ReadArray | src/isa/codec.ts:209-214 | the same for arrays, with the collection limit |
| CborCodec.CborReader.ReadMap | src/isa/codec.ts:216-227 | the same for objects |
| CborCodec.CborReader.ReadEntry | src/isa/codec.ts:219-224 | one entry: a text key that is not there yet, and a value |
| CborCodec.CborReader.Document | src/isa/codec.ts:154-158 | one value and nothing after it |
| CborCodec.Transport | src/isa/codec.ts:272-282 | what the writer object writes the reader object reads back, exactly for the transportable values |
| CanonicalJson.KeepsTheValueExactly | src/isa/codec.ts:36-42 | the canonical form is the same JSON value exactly when no object in it has a key `__proto__` |
| CanonicalJson.AgreeExactly | src/isa/codec.ts:36-50 | canonical forms agree exactly when the values are the same apart from such keys, hence exactly on the same value where there are none |
| CanonicalJson.ProtoKeysCollide | src/isa/codec.ts:36-42 | every value with such a key shares its canonical form with a different value without one, `{"__proto__":1}` with `{}` |
| AgentScopes.TreeOfRoot | src/agents/runtime.ts:507-511 | the scope of a root is the set of agents with that root |
| AgentScopes.SettledTreeIsSettled | src/agents/runtime.ts:553-576 | one visit leaves a tree stopped where a member is failed or interrupted, and without a joinable waiting agent otherwise |
| AgentReconcile.SettlingTwice | src/agents/runtime.ts:553-576 | settling a settled tree changes nothing |
| AgentReconcile.VisitKeepsTheGoal | src/agents/runtime.ts:557-570 | visiting dirty trees one by one leads to the same end as all at once |
| AgentReconcile.VisitStops | src/agents/runtime.ts:557-570 | a visit that changes anything leaves fewer agents unsettled, so the loop ends |
| AgentReconcile.ChildrenAreDone | src/agents/runtime.ts:566-570 | the reverse pass meets every child in its final state, so one pass is enough |
| AgentReconcile.ScopeTable.Scope | src/agents/runtime.ts:507-511 | the growing list is exactly the scope, parents before children, without repetition |
| AgentReconcile.ScopeTable.MarkDirty | src/agents/runtime.ts:661-663 | the root of the changed agent is dirty |
| AgentReconcile.ScopeTable.Put | src/agents/runtime.ts:645-665 | the projection of one agent is replaced |
| AgentReconcile.ScopeTable.Add | src/agents/runtime.ts:654-663 | a new agent enters the child index of its parent |
| AgentReconcile.ScopeTable.CancelMember | src/agents/runtime.ts:533-538 | a live member is interrupted, or marked when work of it is registered |
| AgentReconcile.ScopeTable.CancelScope | src/agents/runtime.ts:527-540 | the loop cancels the whole tree and nothing else |
| AgentReconcile.ScopeTable.SomeHurt | src/agents/runtime.ts:562 | exactly whether a member is failed, interrupted or asked to be |
| AgentReconcile.ScopeTable.ReversePass | src/agents/runtime.ts:566-570 | one reverse-order pass completes exactly the agents that finish |
| AgentReconcile.ScopeTable.CompleteMember | src/agents/runtime.ts:567-569 | a waiting agent completes exactly when all its children are completed |
| AgentReconcile.ScopeTable.VisitTree | src/agents/runtime.ts:558-570 | one round settles one tree and marks it dirty again exactly when it changed |
| AgentReconcile.ScopeTable.ReconcileScopes | src/agents/runtime.ts:553-576 | the loop ends with every dirty tree settled and none dirty |
| AgentFence.OpenExactly | src/agents/runtime.ts:242-310 | the fence is open exactly when every interruption was answered by a restoration and then a resumption |
| AgentFence.FenceHoldsExactly | src/agents/runtime.ts:449-477 | reading the fence off a log state by state agrees with its meaning for whole logs |
| AgentRuntimeSafety.EndKeeps | src/agents/runtime.ts:425-477 | however a quantum ends, the runtime invariant is kept: registrations match tasks, fences are respected, completed agents have completed descendants |
| AgentRuntimeSafety.MoveKeeps | src/agents/runtime.ts:418-449 | checking an agent and starting its step keep the invariant |
| AgentRuntimeSafety.RecoverEndKeeps | src/agents/runtime.ts:268-298 | a recovery that ends prepared, empty, failed or cancelled keeps the invariant |
| AgentRuntimeSafety.CreateKeeps | src/agents/runtime.ts:112-132 | creation keeps it: a child joins only an open tree |
| AgentRuntimeSafety.CancelScopeKeeps | src/agents/runtime.ts:527-551 | cancelling a tree keeps it |
| AgentRuntimeSafety.ReconcileKeeps | src/agents/runtime.ts:553-576 | settling the dirty trees keeps it |
| AgentRuntimeSafety.BeginKeeps | src/agents/runtime.ts:401-425 | the start of a quantum keeps it, whether stopped, exhausted, closed or checked |
| AgentRuntimeSafety.ValidatedKeeps | src/agents/runtime.ts:423-449 | the end of validation keeps it, whether aborted, failed, paused, exhausted or started |
| AgentRuntimeSafety.FinishKeeps | src/agents/runtime.ts:450-478 | the end of a step keeps it, however it ends; how it ends is `AgentLifecycle.StepEndsExactly` |
| AgentRuntimeSafety.ReopenedOk | src/agents/runtime.ts:98-108 | a restart over the same journal keeps it |
| AgentRuntimeSafety.StepKeeps | src/agents/runtime.ts:91-604 | every action of the runtime keeps the invariant unless an agent is dispatched while registered |
| AgentRuntimeRuns.RunKeeps | src/agents/runtime.ts:91-604 | the invariant holds along every disciplined run |
| AgentRuntimeRuns.OneAtATimeIsDisciplined | src/agents/runtime.ts:369-399 | with one agent at a time nothing is registered when an agent is dispatched |
| AgentRuntimeRuns.FenceOnDisciplinedRuns | src/agents/runtime.ts:401-478 | no member of an interrupted tree starts or completes a step before it was restored and resumed |
| AgentRuntimeRuns.InterruptFencesTheTree | src/agents/runtime.ts:174-194 | an interruption fences every member that can still act and aborts its quantum |
| AgentRuntimeRuns.CompletedBelow | src/agents/runtime.ts:473-477 | a completed agent has only completed descendants |
| AgentLifecycle.DisciplinedRunIsLegal | src/agents/runtime.ts:91-604 | on every disciplined run every agent's journal follows the state chart: which record may follow which, with what status, steps and requests |
| AgentLifecycle.StepsAreCounted | src/agents/runtime.ts:423-449 | the steps used are the steps started, never more than the agent may take |
| AgentLifecycle.PausedStanding | src/agents/runtime.ts:159-206 | under a pause the agent is not ready, and a check or step under way knows of it |
| AgentLifecycle.PausesAndLimitsHold | src/agents/runtime.ts:159-206 | on every disciplined run no step starts and none is checked for between a requested pause and the next resumption, and steps are counted and within the limit |
| AgentLifecycle.QuantumBeginsExactly | src/agents/runtime.ts:401-425 | how a dispatched quantum begins, from the state before |
| AgentLifecycle.ValidationEndsExactly | src/agents/runtime.ts:423-449 | a step starts, and is charged, exactly if nothing speaks against it |
| AgentLifecycle.StepEndsExactly | src/agents/runtime.ts:450-478 | interrupted or failed where that is due; otherwise paused if that was asked or no steps are left and there is more to do, else ready, waiting or completed |
| AgentLifecycle.RecoveryEndsExactly | src/agents/runtime.ts:268-298 | interrupted where that was requested, restored where a checkpoint was prepared, and as before where not |
| AgentLifecycle.RecordsWhatWasAsked | src/agents/runtime.ts:159-310 | pausing, resuming, restoring, beginning a recovery and pausing for a shutdown record exactly that, of exactly this agent |
| AgentLifecycle.CreatesExactly | src/agents/runtime.ts:112-132 | a new agent is ready, has taken no step and is the last one |
| AgentLifecycle.ScopeOpenExactly | src/agents/runtime.ts:513-525 | when a tree takes new members |
| AgentLifecycle.InterruptionWaitsForTheTree | src/agents/runtime.ts:169-194 | an interruption waits for exactly the quanta and recoveries of its tree |
| AgentLifecycle.RestartStopsAll | src/agents/runtime.ts:98-108 | a restart leaves nobody ready or at work and nothing in memory |
| AgentRecords.ListedLeadsBack | src/agents/runtime.ts:208-218 | every event that `checkpoints` lists leads back to the checkpoint a replay up to it gives |
| AgentRecords.ListsExactlyCheckpoints | src/agents/runtime.ts:208-218 | and exactly those events are listed: from no other one does a reference lead to a checkpoint, and no other one changes it |
| AgentRecords.StepCarries | src/agents/runtime.ts:606-666 | every action records what it projects, unless a recovery ends with a saved state that is no longer current; under the invariant nothing is recorded of an ended agent |
| AgentRecords.CheckpointStays | src/agents/runtime.ts:261-298 | while a recovery owns its agent nothing else changes that agent's checkpoint |
| AgentRecords.ProjectionIsReplay | src/agents/runtime.ts:606-666 | on every run, restarts included, what the runtime holds of an agent is what a replay of its journal from empty gives |
| AgentRecords.NothingFollowsAnEnd | src/agents/runtime.ts:401-478 | on a disciplined run a completed or failed agent never records anything again, so it takes no step |
| AgentRecords.DisciplinedRunIsReplayed | src/agents/journal.ts:8-53 | on a disciplined run replaying the journal up to any event gives exactly the state that was recorded with it |
| AgentLimits.LostQuantum | src/agents/runtime.ts:375-393 | two at a time: a run after which an agent steps without being registered |
| AgentLimits.TwoAtATimeBreakTheFence | src/agents/runtime.ts:375-393 | two at a time: a run with a step completed after the interruption |
| AgentLimits.FenceOnEveryRunExactly | src/agents/runtime.ts:375-393 | the fence holds on every run exactly when agents run one at a time |
| AgentLimits.TwoAtATimeRefund | src/agents/runtime.ts:268-298 | two at a time: a run in which an abandoned recovery gives a charged step back |
| AgentLimits.NoRefundExactly | src/agents/runtime.ts:268-298 | usage never decreases on every run exactly when agents run one at a time |
| AgentLimits.TwoAtATimeReopenACompletedTree | src/agents/runtime.ts:268-298 | two at a time: a run that leaves a completed agent with an interrupted child |
| AgentLimits.CompletedTreesExactly | src/agents/runtime.ts:473-477 | completed agents have only completed descendants on every run exactly when agents run one at a time |
| AgentLimits.TwoAtATimeLoseACheckpoint | src/agents/runtime.ts:261-292 | two at a time: a run in which an abandoned recovery records the saved checkpoint while the journal leads to a newer one |
| AgentLimits.RecordsAreReplayedExactly | src/agents/runtime.ts:261-292 | what is recorded is what is replayed on every run exactly when agents run one at a time |
| AgentDomainJournal.LeadIsReadThere | src/agents/journal.ts:36-53 | following references in the journal of the domain is following them in the agent's own events |
| AgentDomainJournal.DomainReplay | src/agents/runtime.ts:627-666 | replaying the one journal of the domain, events of other kinds between, gives every agent what its own events lead to |
| AgentDomainJournal.HeldIsReplayed | src/agents/runtime.ts:627-666 | on every run and for every interleaving a replay from empty gives exactly the agents that the runtime holds, each in the state it holds |
| AgentDomainJournal.DomainRecordsExactly | src/agents/journal.ts:8-53 | what is recorded is what is replayed in the journal of the domain exactly when it is in each agent's own |
| AgentDomainJournal.DomainRecordsExactlyOneAtATime | src/agents/runtime.ts:261-292 | so in the journal of the domain too, on every run exactly when agents run one at a time |
| AgentBudget.ChargeKeeps | src/agents/runtime.ts:444-449 | the charge checks the latest shared usage, so concurrent validators cannot pass the limit |
| AgentBudget.ReserveBalances | src/agents/runtime.ts:597-604 | a reservation is counted once and only below the limit |
| AgentBudget.ReleaseBalances | src/agents/runtime.ts:603 | a release gives exactly its own reservation back |
| AgentBudget.RestartBalances | src/agents/runtime.ts:98-108 | a restart keeps usage, saved limits and reservations in balance |
| AgentBudget.UsageIsReplayed | src/agents/runtime.ts:645-654 | on every run the steps a Run has used are what `sync` adds up over the journal from empty |
| AgentBudget.StepBalances | src/agents/runtime.ts:401-604 | every action keeps usage, limits and reservations balanced |
| AgentBudget.BudgetConservation | src/agents/runtime.ts:585-666 | on every run: steps used is the sum over the Run's agents and within the saved limit, and pending commands is the number of outstanding reservations, within theirs |
| AgentBudget.RecoverEndForward | src/agents/runtime.ts:268-298 | under the invariant an ending recovery gives nothing back |
| AgentBudget.StepIsForward | src/agents/runtime.ts:401-604 | under the invariant no step takes a charge back or replaces a saved limit |
| AgentBudget.UsageNeverDecreases | src/agents/runtime.ts:627-666 | under the invariant a Run's usage never decreases, restoration and restart included |
| AgentSettlement.StepTidy | src/agents/runtime.ts:553-576 | every action leaves only dirty trees unsettled |
| AgentSettlement.ReconciledTreesAreSettled | src/agents/runtime.ts:553-576 | after a reconciliation on any run, a tree with a failed or interrupted member has only stopped members and no other tree has a waiting agent whose children are all completed |
| AgentJournal.ReadAgentCheckpoint | src/agents/journal.ts:36-53 | the loop finds what the references lead to, or throws as specified |
| AgentJournal.FindExactly | src/agents/journal.ts:36-43 | a lookup finds the event of that number, and none where there is none |
| AgentJournal.ReadsAlongReferences | src/agents/journal.ts:36-53 | a checkpoint is read exactly where the references lead, through control events of the agent and each to an earlier number, to an event of it that holds one |
| AgentJournal.ProjectsExactly | src/agents/journal.ts:8-34 | what an event projects: a complete state itself; otherwise what it brings, what its reference leads to, and what was there, and nothing where that is missing |
| AgentJournal.Projection.Sync | src/agents/runtime.ts:627-666 | incremental sync from the cursor equals replay from empty and throws exactly when that throws |
| AgentJournal.ReplayReproducesExactly | src/agents/journal.ts:8-34 | replay gives back the recorded state if and only if what the compact event leaves out can be recovered |
| AgentJournal.CheckpointLeadsBack | src/agents/journal.ts:36-53 | following references from any listed checkpoint ends at that checkpoint |
| AgentJournal.ListsExactlyCheckpoints | src/agents/journal.ts:4-5 | what `checkpoints` lists is exactly what brings a checkpoint or refers to one |
| AgentJournal.OperationsRecordExactly | src/agents/runtime.ts:261-310 | what each operation records of its agent: control, input, checkpoint and reference |
| AgentJournal.RuntimeRecordsReplayExactly | src/agents/runtime.ts:261-310 | what `record` is given is reproduced by replay exactly when it is up to date: always for the operations that start from the projection, and for a recovery that ends with its saved state exactly when the projected checkpoint is still the saved one |
| AgentExecution.AgentCommandGroup.Submit | src/agents/execution.ts:25-53 | accepted exactly when open, without failure, admitted and below the Run's limit |
| AgentExecution.AgentCommandGroup.Release | src/agents/execution.ts:42-45 | the reservation goes back whatever the outcome |
| AgentExecution.AgentCommandGroup.Settle | src/agents/execution.ts:46-51 | the outcome is taken in after the release |
| AgentExecution.AgentCommandGroup.Finish | src/agents/execution.ts:56-60 | afterwards nothing is accepted, pending or reserved, and every failure is reported |
| WireText.HalvesJoin | src/gateway/wire-proxy.ts:257-260 | the pieces of a text join to the text |
| WireText.ReadFrames | src/gateway/wire-proxy.ts:821-836 | the line loop finds the specified data frames |
| WireText.DataLinesExactly | src/gateway/wire-proxy.ts:827-835 | a line gives a frame exactly when it is the field name, the text of the frame and spaces around that, and the text is not the end mark |
| WireText.SplitIsUndoneByJoining | src/gateway/wire-proxy.ts:827 | the lines are what stands between the newlines |
| WireText.EventsAreBlocksOfLines | src/gateway/wire-proxy.ts:262-278 | an event is its name if it has one, one line of data and the blank line that ends it |
| WireText.ArgumentsExactly | src/gateway/wire-proxy.ts:300-309 | arguments are what is given as an object, or as text that is not blank and reads as an object or array |
| WireText.SentFramesAreFound | src/gateway/wire-proxy.ts:262-278 | reading a stream finds exactly the frames that were sent, in order |
| WireChat.ParseWireResponse | src/gateway/wire-proxy.ts:838-881 | the chat-completions branch computes the specified parse |
| WireChat.ReadsWhatIsSaid | src/gateway/wire-proxy.ts:838-881 | any response is read as all its text in order, the token counts reported last, its whole calls in order, then one call for each index mentioned, in the order of indices, with the last id and name and all arguments under it |
| WireChat.ChatStream.Text | src/gateway/wire-proxy.ts:516 | adds to what will be read as text |
| WireChat.ChatStream.ToolCall | src/gateway/wire-proxy.ts:517-523 | adds one call, its arguments in pieces under its index |
| WireChat.ChatStream.End | src/gateway/wire-proxy.ts:524-539 | the finished stream is in order, one index for each call and usage only if asked for, and is read back as exactly the text and calls written |
| WireResponses.ParseWireResponse | src/gateway/wire-proxy.ts:883-924 | the responses branch computes the specified parse |
| WireResponses.TakeOutput | src/gateway/wire-proxy.ts:900-920 | the loop over the output items of a response |
| WireResponses.KeptExactly | src/gateway/wire-proxy.ts:889-893 | kept is the first call with each id, in order |
| WireResponses.ReadsWhatIsSaid | src/gateway/wire-proxy.ts:883-924 | any response is read as all its text deltas in order, the token counts its completion reports last, and the first call with each id among its finished items and outputs |
| WireResponses.AllKeptExactly | src/gateway/wire-proxy.ts:889-893 | all calls survive exactly when their ids are nonempty and distinct |
| WireResponses.ResponsesStream.Text | src/gateway/wire-proxy.ts:575-597 | adds to what will be read as text |
| WireResponses.ResponsesStream.ToolCall | src/gateway/wire-proxy.ts:598-621 | closes the message and adds one call |
| WireResponses.ResponsesStream.End | src/gateway/wire-proxy.ts:622-637 | the finished stream is in order, every frame numbered, each item with its deltas, their whole and the finished item, the last frame with all items, which say the whole text and all calls; it is read back as the text and the calls with a new nonempty id |
| WireAnthropic.ParseWireResponse | src/gateway/wire-proxy.ts:926-962 | the anthropic branch computes the specified parse |
| WireAnthropic.ReadsWhatIsSaid | src/gateway/wire-proxy.ts:926-962 | any response is read as all its text in order, the token counts reported last, its whole calls in order, then one call for each index where a tool block starts, as it was last started, with the JSON that came after that or else its first input |
| WireAnthropic.AnthropicStream.Text | src/gateway/wire-proxy.ts:664-670 | adds to what will be read as text |
| WireAnthropic.AnthropicStream.ToolCall | src/gateway/wire-proxy.ts:671-679 | closes the text block and adds one call under a block index of its own |
| WireAnthropic.AnthropicStream.End | src/gateway/wire-proxy.ts:680-688 | the finished stream is in order, blocks one at a time under consecutive indices, and is read back as exactly the text and calls written |
| WireGemini.ParseWireResponse | src/gateway/wire-proxy.ts:964-985 | the gemini branch computes the specified parse |
| WireGemini.TakeParts | src/gateway/wire-proxy.ts:971-983 | the loop over the parts of a frame |
| WireGemini.ReadsWhatIsSaid | src/gateway/wire-proxy.ts:964-985 | any response is read as the text and the calls of all its parts in order, and the token counts reported last; a call without an id goes by its name |
| WireGemini.GeminiStream.Text | src/gateway/wire-proxy.ts:702 | adds to what will be read as text |
| WireGemini.GeminiStream.ToolCall | src/gateway/wire-proxy.ts:703 | adds one call, read back without arguments if they are an array |
| WireGemini.GeminiStream.End | src/gateway/wire-proxy.ts:704-707 | the finished stream counts in its last frame only, and is read back as the text and the calls, an array of arguments as none |
| WireTranscode.Transcode | src/gateway/wire-proxy.ts:1721-1734 | the transcoded body has the cached text, and the cached calls exactly when the target carries them: distinct nonempty ids for responses, object arguments for Gemini |
| WireTranscode.RoundTrip | src/gateway/wire-proxy.ts:815-986 | from any protocol to any other and read again the turn means the same, under that condition |
| WireTranscode.ArrayArgumentsAreLost | src/gateway/wire-proxy.ts:300-309 | a chat response with the arguments `[1]`, which every target but Gemini carries |
| WireTranscode.CallsWithoutIdsCollide | src/gateway/wire-proxy.ts:971-983 | a Gemini response with two calls of one tool without ids, which every target but responses carries |
| Arbiter.GrantExtends | src/domain.ts:437-473 | a grant takes exactly the requested resources and nobody else's |
| Arbiter.AdmissionWithinCap | src/domain.ts:454-466 | no admission takes the number of operations past the cap |
| Arbiter.DecidesExactly | src/domain.ts:437-473 | admitted exactly when nobody else holds what is asked for and the cap leaves room or has the operation counted; otherwise the first held resource is named, or the cap |
| Arbiter.PassChangesExactly | src/domain.ts:572-624 | the resources of the granted requests are theirs, their operations are counted, and everything else is as it was |
| Arbiter.ProcessExtends | src/domain.ts:572-624 | a queue pass takes nothing away and stays within the cap |
| Arbiter.KeptAndGranted | src/domain.ts:572-624 | a pass grants or keeps every request that is not cancelled, and a granted one holds what it asked for |
| Arbiter.NobodyOvertakes | src/domain.ts:572-624 | nothing is granted that an earlier request still in the queue wants |
| Arbiter.PassLeavesNobodyGrantable | src/domain.ts:572-624 | after a pass every remaining request is blocked by a holder, an earlier overlapping request or the cap |
| ArbiterDomain.RebuildKeepsLeases | src/domain.ts:276-334 | a rebuild keeps every persisted lease and every unfinished operation's resources for their own operation, and nothing else |
| ArbiterDomain.ReleasesExactly | src/domain.ts:648-695 | after a release the listed leases, or all of the operation, are free and no others, and it counts for the cap exactly if it did and still holds one; others count as before |
| ArbiterDomain.ExecutionDomain.RebuildIsolationFromStore | src/domain.ts:276-334 | the loops compute the specified table |
| ArbiterDomain.ExecutionDomain.AllocateResources | src/domain.ts:437-473 | fenced, refused for the first held resource or the cap, or admitted with exactly what it asked for |
| ArbiterDomain.ExecutionDomain.AllocateResourcesWithWait | src/domain.ts:478-555 | tried at once exactly when no queued request wants a resource of it; otherwise queued at the end or failed |
| ArbiterDomain.ExecutionDomain.CancelWait | src/domain.ts:560-570 | takes the first request of the operation out of the queue and nothing else |
| ArbiterDomain.ExecutionDomain.ProcessWaitQueue | src/domain.ts:572-624 | the indexed loop computes the specified pass |
| ArbiterDomain.ExecutionDomain.InternalReleaseResources | src/domain.ts:648-695 | what was listed is free or belongs to someone granted in the pass, the operation counts for the cap exactly as long as it holds a lease, others as before apart from grants, and nobody is left who could be granted |
| ArbiterRuns.PassGrantsExactly | src/domain.ts:572-624 | a pass grants nobody exactly when every request is blocked by a holder, an earlier overlapping request or the cap |
| ArbiterRuns.RemovalLeavesGrantableExactly | src/domain.ts:521-570 | in a queue where all are blocked, taking out a request leaves one that a pass would grant exactly when a later request can be taken, is behind no other earlier one and is not stopped by the cap without it |
| ArbiterRuns.FreedHadWaitedForIt | src/domain.ts:521-570 | what is freed had waited behind the removed request, or behind its being stopped by the cap |
| ArbiterRuns.CancelWaitLeavesGrantable | src/domain.ts:560-570 | a queue of two in which cancelling the first leaves the second grantable |
| ArbiterRuns.PassTwice | src/domain.ts:572-624 | a second pass grants nothing and keeps the same queue |
| ArbiterRuns.AfterAPassNobody | src/domain.ts:572-624 | so between a pass and the next step nobody could be granted |
| ArbiterRuns.RunInOrder | src/domain.ts:478-624 | on every run the queue is in order of arrival |
| ArbiterRuns.FirstComeFirstServed | src/domain.ts:478-624 | on every run a granted request shares nothing with one that arrived before it and is still waiting |
| ArbiterRuns.GrantedOnce | src/domain.ts:478-624 | no request is granted twice on any run |
| ArbiterRuns.OnlyReleasesTakeLeases | src/domain.ts:437-695 | on every run, as long as one owner is at work, a lease changes hands only in a release that drops it |
| ArbiterRuns.OnlyOwnersReleaseExactly | src/domain.ts:648-692 | on every run leases are taken by their own operation's release alone, exactly when no release lists a resource that is persisted for its operation and held by another |
| ArbiterRuns.ReleaseTakesAnothersLease | src/domain.ts:276-298 | a resource that the store lists for two operations: locked for the second by the rebuild, and taken by the release of the first |
| ArbiterRuns.CapOnEveryRun | src/domain.ts:454-466 | on every run, rebuilds included, no more operations are active than the cap allows, unless the store already had more |
| ArbiterRuns.StepAdmits | src/domain.ts:437-695 | which operations a step counts in and out |
| ArbiterRuns.AdmittedExactly | src/domain.ts:437-695 | on every run an operation counts for the cap exactly since a step that admitted it, and as long as no release has left it without a lease |
| ArbiterRuns.PlaceIsGivenBack | src/domain.ts:677-680 | a cap of one: the place of an operation that has released its lease is free for the next |
| Recovery.RecoveryEngine.RecordOperationResult | src/store/sqlite.ts:705-762 | one result per operation; its persisted leases go with a determinate one |
| Recovery.RecoveryEngine.FinalizeOperation | src/supervisor/finalize.ts:39-72 | single writer; an indeterminate result keeps every lease and marks the Run |
| Recovery.RecoveryEngine.ReleaseOpAndServiceResources | src/recovery/engine.ts:58-66 | a service's leases go only when none of its instances is unsettled |
| Recovery.DecidesByEvidence | src/recovery/engine.ts:108-457 | what is recorded of an operation, from its kind, record and answers alone: never succeeded; restored, cancelled, failed or indeterminate each on exactly its evidence |
| Recovery.RecoveryEngine.RecoverOperations | src/recovery/engine.ts:88-457 | every unfinished operation is done with the result its evidence shows, whatever the order |
| Recovery.RecoveryEngine.ConvergeRuns | src/recovery/engine.ts:459-475 | every active Run without pending operations is settled, as indeterminate if one of its operations is |
| Recovery.RecoveryEngine.ReleaseServices | src/recovery/engine.ts:484-543 | a service lease survives if and only if it was held and some instance is still unsettled |
| Recovery.RecoveryEngine.Recover | src/recovery/engine.ts:40-543 | the whole recovery, on the fields: every unfinished operation has the result its evidence shows, every lease is kept exactly when it should be, a Run is indeterminate exactly when an operation of it is and failed otherwise, and every action is reported |
| Launch.RunKeeps | src/supervisor/process-run.ts:52-78 | intent is recorded before the spawn and the gate opens only after the identity is, on every run with a crash anywhere; nothing executes before the gate opened |
| Launch.RecordSaysWhatHappened | src/supervisor/process-run.ts:52-133 | on every run the record is done exactly since a step that ended it, with the result that step gave, and carries an identity exactly since the activation that recorded it |
| Launch.OverStaysOver | native/reaper/xioflow-reaper.c:528-566 | after a crash, where no process of the command executes and none waits at an opened gate, none ever does |
| Launch.GateNeverOpenedMeansNeverExecuted | src/recovery/engine.ts:182-226 | an operation taken for one whose gate never opened has not executed and never will |
| Launch.UngatedIntentMayHaveExecuted | src/recovery/engine.ts:182-226 | without a gate the same record proves nothing, and recovery releases nothing on it |
| Launch.CrashThenRecover | src/recovery/engine.ts:182-457 | from any crash point, a release on true answers means that the launched process never executes again, and no process of the command does if the evidence covers the tree, or covers the group and none has left it |
| Launch.ReleaseLeavesNothingRunningExactly | src/recovery/engine.ts:227-457 | over all runs with these answers, true of the processes: a release leaves nothing executing then or later exactly when the gate never opened, the cgroup or the helper's tree is empty; a dead leader, an empty group or a stop of group or leader alone leaves a process that left the group |
| ProcessTree.FindPid | native/reaper/xioflow-reaper.c:352-355 | the binary search finds an entry of that pid or there is none |
| ProcessTree.Sweep | native/reaper/xioflow-reaper.c:383-394 | one sweep marks only descendants, and marks more unless it is at the fixpoint |
| ProcessTree.CollectTree | native/reaper/xioflow-reaper.c:370-400 | exactly the live processes that descend from the helper, zombies linking but not listed |
| ProcessTree.FixpointIsComplete | native/reaper/xioflow-reaper.c:382-394 | at the fixpoint every descendant is marked |
| ProcessSampler.SearchIsComplete | src/driver/sampler.ts:185-257 | a finished search has visited everything reached |
| ProcessSampler.Expand | src/driver/sampler.ts:228-244 | the children of one process enter the search, each once |
| ProcessSampler.Search | src/driver/sampler.ts:227-245 | the breadth-first loop visits exactly what is reached from leader and seeds |
| ProcessSampler.GroupOrphans | src/driver/sampler.ts:247-254 | adds the live members of the leader's group that no link reached |
| ProcessSampler.GetProcessTree | src/driver/sampler.ts:185-257 | exactly the live processes reached plus group orphans, without repetition, split into in-group and escaped |
| ReaperLines.CutsDoNotMatterExactly | native/reaper/xioflow-reaper.c:734-756 | the commands are the same however the stream is cut exactly when no harmful NUL precedes the end of a line |
| ReaperLines.ShortLinesArriveWhole | native/reaper/xioflow-reaper.c:734-756 | text without NULs whose lines fit arrives line by line whatever the cuts |
| ReaperLines.TailsArrive | native/reaper/xioflow-reaper.c:734-756 | where no NUL is harmful every line arrives without its NULs and without the whole buffers it fills, whatever the cuts |
| ReaperLines.LinesAreBetweenNewlines | native/reaper/xioflow-reaper.c:744-751 | the lines are what stands between the newlines |
| ReaperLines.NulHidesACommand | native/reaper/xioflow-reaper.c:734-756 | a NUL before `go`: handled if read byte by byte, lost if read at once |
| ReaperLines.CommandBuffer.HandleLines | native/reaper/xioflow-reaper.c:744-751 | handles exactly the complete lines before the terminator |
| ReaperLines.CommandBuffer.Receive | native/reaper/xioflow-reaper.c:735-755 | one read, with the unfinished line moved to the front or dropped when it fills the buffer |
| ReaperLines.ReceiveAll | native/reaper/xioflow-reaper.c:697-757 | the loop over reads computes the specified commands |
| ReaperHost.HeldSession.OnLine | src/driver/reaper-driver.ts:473-503 | the fields after a line |
| ReaperHost.HeldSession.OnClose | src/driver/reaper-driver.ts:462-469 | the fields after the channel closed |
| ReaperHost.HeldSession.OnStopTimeout | src/driver/reaper-driver.ts:539-553 | an unanswered stop becomes no answer |
| ReaperHost.HeldSession.BeginTerminate | src/driver/reaper-driver.ts:288-303 | what is known already is answered at once, otherwise the helper is asked |
| ReaperHost.HeldSession.FinishTerminate | src/driver/reaper-driver.ts:361-396 | the answer that the reply allows |
| ReaperHost.HeldSession.SettleTree | src/driver/reaper-driver.ts:309-335 | empty exactly on the helper's word |
| ReaperHost.HistoryDecides | src/driver/reaper-driver.ts:288-553 | on every sequence of events the fields say what has happened: whether emptiness is known or remembered, whether the channel closed too early, what request waits and what settled it |
| ReaperHost.AnswersExactly | src/driver/reaper-driver.ts:288-396 | every answer from that alone: confirmed exactly by a `stopped`, or by an emptiness known when the request ended without an answer; empty, residual or left to the operating system by what is known and whether the channel is open |
| ReaperHost.EveryAnswerIsRecorded | src/driver/reaper-driver.ts:288-396 | what a call is answered is what is recorded |
| ReaperSession.EchildMeansEmpty | native/reaper/xioflow-reaper.c:468-483 | ECHILD means that the tree is gone, because every orphan is the helper's |
| ReaperSession.StepKeeps | native/reaper/xioflow-reaper.c:697-757 | every step of processes, helper and host keeps the invariant |
| ReaperSession.PositiveAnswersAreProofs | src/driver/reaper-driver.ts:288-396 | a positive answer means that ECHILD was observed and no process of the tree exists, over all orders of lines, timeouts and close |
| ReaperSession.EmptinessIsStable | native/reaper/xioflow-reaper.c:702-706 | once observed, emptiness lasts |
| ReaperSession.ChannelConserves | src/driver/reaper-driver.ts:462-553 | on every run the host is what its own events make of it, hears what the helper says in the order it is said, and requests are those answered and those open; the helper has said `empty` or `stopped` exactly when it saw the tree empty |
| WorkspaceRecovery.ReplayObservationLog | src/workspace/observation-replay.ts:44-93 | the loop computes the specified replay and counts its steps |
| WorkspaceRecovery.ReplaysExactly | src/workspace/observation-replay.ts:44-93 | a replay goes on to the first step that neither shows what was recorded nor was cut off as recorded, says how it failed, and lists the cutoffs before it; there is one such replay |
| WorkspaceRecovery.SamePrefixSameFailure | src/agents/workspace-recovery.ts:89-95 | a log that extends the failing part of another fails at the same point in the same way |
| WorkspaceRecovery.AfterSkip | src/agents/workspace-recovery.ts:91-95 | the replay of a skipped candidate would have said what was reused |
| WorkspaceRecovery.NewestThatReplays | src/agents/workspace-recovery.ts:68-143 | replaying every candidate restores the newest that replays, rejects those newer each with its own replay, and looks at no older one; an unusable log ends it |
| WorkspaceRecovery.FindKnown | src/agents/workspace-recovery.ts:89-90 | finds a known prefix of the log exactly when there is one |
| WorkspaceRecovery.PrepareCandidates | src/agents/workspace-recovery.ts:68-143 | restores the same checkpoint or none, with the same divergences and no more replayed steps than replaying every candidate, skips exactly the candidates a newer failure covers, and leaves no rejected fork open; throws exactly at the first failing fork, and says which fork and snapshot that leaves |
| Capability.ContainmentIsAPartialOrder | src/capability/path-utils.ts:35-44 | containment of resolved paths is reflexive, transitive and antisymmetric |
| Capability.ContainmentIsBySegments | src/capability/path-utils.ts:35-44 | what is contained but different goes on with a separator |
| Capability.AttenuationNarrows | src/domain.ts:1084-1162 | an attenuated capability is within its parent in every dimension |
| Capability.AttenuatedExactly | src/domain.ts:1084-1162 | a child can be made exactly of a capability in force and for no more than it has; it has what was asked for, and the parent's where nothing was |
| Capability.AdmittedExactly | src/capability/check.ts:152-297 | admitted exactly when each condition on the fields holds: domain, epoch, expiry, revocation, ancestors, policy, opcode, workspace, secrets, limits, counts, resources, roots; the rejection names one that does not |
| Capability.WiderScopeAdmits | src/capability/check.ts:227-289 | what a narrower scope and limits admit, a wider one does not reject |
| Capability.LiveAncestors | src/capability/check.ts:208-225 | the ancestors of a live capability are themselves live and wider |
| Capability.AdmissionIsMonotone | src/capability/check.ts:152-297 | what is admitted under a descendant is admitted under an ancestor at that moment exactly when the domains are equal |
| Capability.RevocationCascades | src/capability/check.ts:200-225 | revoking any ancestor, or the capability itself, rejects every request |
| Capability.AttenuationCrossesDomains | src/domain.ts:1084-1162 | a child in another domain can be made |
| Capability.CapabilityStore.Issue | src/domain.ts:1018-1078 | a root capability with a normalized scope, journaled, exactly if the domain is not fenced, the expiry lies ahead and the limits are natural safe integers |
| Capability.CapabilityStore.AttenuateCapability | src/domain.ts:1084-1162 | unless fenced, the store grows by exactly the child that was asked for and the journal says so, or nothing changes |
| Capability.CapabilityStore.Revoke | src/domain.ts:1167-1185 | unless fenced, revokes within the caller's domain only, and records it either way |
| Capability.CapabilityStore.CheckAdmission | src/capability/check.ts:152-297 | admits exactly when each condition holds, with resources and roots within the scope, and journals every rejection |

## Left out

- Validator.ValidateProgram: of `validateProgram` the checks on ids, opcodes, dependencies and cycles are modelled; arguments, preconditions, outputs, versions and capabilities are not, and would add no dependency between instructions.
- Pipeline: the executor's and the checker's answers are arbitrary; result values, error objects and the final status fold are not modelled. Operation keys and fingerprints are given per instruction, the hash taken as injective.
- CborCodec.CborWriter.WriteText: the text's bytes are spread as call arguments, which a host refuses for a text of about a hundred thousand bytes.
- CBOR: the host's float64 bytes are a parameter that must be faithful, numbers are real numbers, so -0 is 0; object keys are ordered as the host orders strings.
- Agents are numbered in order of creation instead of named by strings, and an agent's events by their place in its own log; `AgentDomainJournal` gives both back their names and sequence numbers. Of an agent's data the checkpoint is modelled; its input, workspaces and evidence versions are left out of the state machine, and Run status is a choice of the environment; where `assertRun` or a workspace assertion throws, the action is not taken. Abort listeners that call back into the runtime at once are not modelled.
- Checkpoint selection by evidence, `drain` and the bookkeeping of shutdown promises: waiting without decisions of their own.
- AgentExecution: ownership of operation ids and the process supervisor behind a command.
- Wire: a frame is an object; on `data: null` the parser throws. Arguments are identified by what `JSON.stringify` writes of them, so a literal such as `1e999`, written back as `null`, is not told apart from that.
- Wire: the host's JSON text is a parameter that must be lawful; frame fields the parser never reads, among them the item ids of a responses stream, are not written. Mapping a cached call to another client's shell tool before transcoding.
- Arbiter: timers, the texts of diagnoses and budgets of single operations; which requests are cancelled is given to a pass. `registerOperationIntent` allocates past the queue, so first come first served is stated for the waiting path. The cap over whole runs is stated for unchanging answers of the store.
- ArbiterDomain.ExecutionDomain.RebuildIsolationFromStore: the part that restores transaction isolation is not modelled.
- Recovery: the platform driver's answers are arbitrary; `Launch.Truthful` says what it means that they are true. Coverage details of a rollback result and the events that announce stopped services are not modelled; operation ids are distinct.
- Launch: what happens when a registration fails, and the reuse of process ids: a process group that is alive counts as the command's own unless the recorded facts speak against it.
- ProcessTree.CollectTree: a failed allocation, which leaves the list empty, and the macOS branches.
- ReaperLines: that a stop which emptied the tree ends the loop before later lines; framing on the host's side.
- ReaperSession: resource usage lines, the delays between signals and their number.
- WorkspaceRecovery: replay adapters are functions of the log prefix; errors while pruning the shared snapshot.
- Capability: wildcard path patterns and the walk of `resolveRealPath`; the file system resolves paths as a fixed idempotent function. Concurrency counts of a capability are a parameter of the request, and its reason and issuer are not modelled.
- SQLite, the file system, git, sockets, HTTP, signals and clocks; the command line, IPC, MCP, confinement, snapshots, the HTTP cache and telemetry.
