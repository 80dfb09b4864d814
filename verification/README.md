# Aurora: a verified model of its protocols

Aurora runs language-model agents inside durable "Bots". This project models the parts of it that carry state across
`await`s, retries, crashes and restarts, and proves what they keep on every run:

- **The ReAct run** (`AgentRun.dfy`, `Messages.dfy`). One driver advances a run; at each `await` the host may append
  messages or request cancellation any number of times, and the awaited call may return anything or raise. The class
  `Run` carries its environment as functions from a tick to what happens at that await, so a contract that holds for
  every such function holds for every interleaving.
- **Operation dispatch** (`Operations.dfy`). A write-ahead request and receipt protocol with a reference-counted lock
  per request identity. Each method is the code between two awaits; `Perform` runs any sequence of segments of any
  number of dispatches, interruptions and process crashes.
- **Event-sourced Bot state and the wake clock** (`BotState.dfy`, `BotStore.dfy`, `Clock.dfy`). `World` is the shared
  journal: at every await it lets arbitrary other writers in, and may interrupt the caller with its own commit landed or
  not. `JournalBotState` is one replica, `PersistentBotClock` delivers wakes over it.
- **Kernel resolution** (`Resolve.dfy`, `Topological.dfy`), **host and lifecycle** (`Host.dfy`, `Lifecycle.dfy`,
  `Cleanups.dfy`) and the **transaction store** (`Context.dfy`).
- **Paged discovery** (`Catalog.dfy`), the **prefix cache** of the memory policy (`TgnPolicy.dfy`), the **dependency
  closure and bundle choice** (`Selection.dfy`) and **prompt assembly** (`Composer.dfy`).

Each method that the source writes as a loop or as a change of fields is an imperative method here, proved against a
specification; the lemmas then say what that specification means.

Assumptions. The journal keeps its commits in order, gives each identity one commit, returns the old commit when an
identity is appended with equal content and refuses it otherwise. Only clocks write commands whose identity begins with
`wake:claim:` or `wake:result:`, and only they complete a wake: `src/aurora_bot/bot/operations.py` names its commands by
the identity of the request and schedules and cancels wakes only. Different executions of a run have different
identities. A reference names one version of one operation definition: a restart may register other handlers, and another
version under another reference, but no other kind or retry-safety under the same one. Digests and fingerprints are
injective. Tensors, model answers, hooks, rendering functions and JSON schema checks are arbitrary functions.

## What turned out not to hold as one might expect

- A "failed" receipt should mean that the handler said so or never began. That holds in every run for commands that are
  not retry-safe or have no deadline (`Operations.MisleadsOnlyIf`, kept by `OperationRegistry.Perform`), and for nothing
  else: every new query and every new retry-safe command with a deadline that a process can handle has a run that ends
  with a misleading receipt (`Operations.UnreliableCanMislead`). A query is failed by an exception of its handler; a
  retry-safe command is interrupted, and its deadline has passed when it is dispatched again.
- A wake that is settled as completed should be one whose run recorded "completed", and the other way round. In a journal
  that nobody else writes that holds of an evaluation exactly unless the run was already recorded as completed when the
  wake was launched, or records it and then breaks (`PersistentBotClock.EvaluateOnce`). The first happens after a
  cancelled delivery in the same process, never right after a restart (`Clock.RelaunchDeniesCompletion`), the second is
  `Clock.BrokenAfterCompletion`.
- An activation that is awaiting a start hook while the host is closed goes on afterwards. Nothing is left behind if at
  that moment no background task is left to start (`ManagedAssembly.Perform`); from every state in which one is, a run
  starts it past the release, and its failure is not reported (`Lifecycle.ActivationOutlivesClose`).
- A projection that was scored and saved is read back exactly when all its memories are finite
  (`TgnPolicy.ScoreSaveRestore`); finite scores do not ensure that (`TgnPolicy.FiniteScoresAreNotEnough`).
- A score should not depend on what was restored. That holds unless the label of a restored file claims the beginning of
  the request and the file is not the projection of it (`TGNMemoryPolicy.Score`); the label is checked against the
  request, the graph behind it is not (`TgnPolicy.ForeignFileIsBelieved`).

## Model

| member | source | states |
|---|---|---|
| Messages.ValidateHistory | src/aurora_agent/messages.py:69-89 | accepts exactly the histories in which, read by position, every result answers an open call, everything else waits until nothing is open, identities are proposed once, and nothing stays open unless allowed |
| Messages.PairDecidesWellPaired | src/aurora_agent/messages.py:69-89 | the one-pass `seen`/`pending` sets decide the positional reading, and are exactly the proposed and the open identities |
| Messages.RejectedForGood | src/aurora_agent/messages.py:73-87 | a history with a rejected prefix is rejected whatever follows |
| Messages.PairInputs | src/aurora_agent/messages.py:81-82 | inputs extend a history in which nothing is open and leave the pairing as it is |
| AgentRun.Run.constructor | src/aurora_agent/run.py:60-77 | a new run satisfies the whole invariant (pairing, delivery, log, outcome) |
| AgentRun.Run.AppendMessage | src/aurora_agent/run.py:91-97 | refused with no change after the end or for blank content; otherwise queued last, at any await, keeping the invariant |
| AgentRun.Run.RequestCancel | src/aurora_agent/run.py:99-106 | idempotent; outside the driver it ends the run as cancelled at once, inside it only marks the request |
| AgentRun.Run.Events | src/aurora_agent/run.py:108-112 | a subscription starts at its cursor; a cursor outside the log is refused |
| AgentRun.Subscription.Next | src/aurora_agent/run.py:113-121 | yields the next event behind the cursor; waits exactly while it has everything and the run goes on; ends exactly when the run has ended and everything, the finish event last, was received |
| AgentRun.Subscription.Behind | src/aurora_agent/run.py:108-117 | the events behind the cursor are exactly those with a larger sequence number |
| AgentRun.Observe | src/aurora_agent/run.py:108-121 | with steps, messages, cancellations and deliveries in any order a subscriber receives exactly the events with a larger sequence number, in order and once, up to the finish event |
| AgentRun.Run.Suspend | src/aurora_agent/run.py:180-188 | whatever the host does during one await, the invariant holds and the queue grows by exactly the admitted messages in order |
| AgentRun.Run.RecordOutput | src/aurora_agent/run.py:250-254 | settles the oldest open call with the flag of its output and appends its one result message |
| AgentRun.Run.AllowTool | src/aurora_agent/run.py:232-245 | a denial answers this call, a reconsideration every pending one, a cancel during the policy starts nothing; anything that is not a decision raises |
| AgentRun.Run.MarkUnknown | src/aurora_agent/run.py:256-260 | exactly the started call, if there is one, becomes unknown |
| AgentRun.Run.ExecuteTool | src/aurora_agent/run.py:217-230 | an allowed call is started once and settled by what execution answers, with every exception case |
| AgentRun.Run.ToolStep | src/aurora_agent/run.py:203-230 | when a call is started and when it is refused, as an if-and-only-if over limit, catalogue, schema, policy and cancellation, and what each ending leaves behind |
| AgentRun.Run.ApplyMessages | src/aurora_agent/run.py:262-267 | delivers a prefix of the queue in order |
| AgentRun.Run.CheckRequest | src/aurora_agent/run.py:183-184 | passes exactly the sendable requests |
| AgentRun.Run.ModelStep | src/aurora_agent/run.py:172-201 | when the model is called, what is delivered before it, what its answer does, and that messages arriving during inference keep the run from completing |
| AgentRun.Run.AcceptResponse | src/aurora_agent/run.py:189-201 | an answer is accepted exactly if it keeps the history paired, and its usage is then added; completion exactly if it proposes nothing, nothing is queued and no cancel is pending |
| AgentRun.Run.Advance | src/aurora_agent/run.py:160-170 | from the state before the step and the answers of its awaits: which state and which raised error it leaves; a step that does not end the run decreases (remaining model calls, open calls); after a cancel request it only ends the run as cancelled |
| AgentRun.StepEnds | src/aurora_agent/run.py:133-245 | failed exactly if an await of the step raised or gave a foreign value, a request or an answer was refused, or a tool effect is unknown; limit reached exactly if the next model or tool call would exceed its limit; completed exactly if a fitting answer proposes nothing, nothing was queued meanwhile and nobody cancelled; cancelled exactly if a cancel request came before or during the step and nothing else ended it |
| AgentRun.ModelTells | src/aurora_agent/run.py:172-201 | without an open call the model is called exactly if the assembled request can be sent and nobody cancelled; then the messages taken are delivered, and a fitting answer follows them with its calls pending and its usage counted |
| AgentRun.ToolTells | src/aurora_agent/run.py:203-254 | with an open call exactly the first one meets the ending its catalogue, schema, policy and execution decide, or a reconsideration answers all pending ones; it is executed exactly if they let it through |
| AgentRun.Run.Settle | src/aurora_agent/run.py:144-156 | an exception leaves no started call and ends the run as failed or cancelled |
| AgentRun.Run.Conclude | src/aurora_agent/run.py:144-156 | which exceptions the driver settles itself and which it passes on, with the status each leaves |
| AgentRun.Run.Drive | src/aurora_agent/run.py:133-158 | terminates under any appends, decisions and answers; a single step makes exactly one, a continuous drive goes on until a step ends the run or raises; the run then is failed, completed, limit reached or cancelled exactly if the awaits of that last step give cause for it, with its output and the error passed on; a second driver is refused without effect |
| AgentRun.Run.Steps | src/aurora_agent/run.py:140-142 | the loop of the driver takes the steps in which the run goes on and then the one that ends it |
| AgentRun.Run.Finish | src/aurora_agent/run.py:275-278 | ends the run with its result and the finish event, keeping the invariant |
| AgentRun.Run.StartTool | src/aurora_agent/run.py:217-219 | marks the oldest open call as started, counts it and writes its start event |
| AgentRun.Run.AddUsage | src/aurora_agent/run.py:269-273 | token counts are summed per kind; no report changes nothing |
| AgentRun.PairedAnswer | src/aurora_agent/run.py:250-254 | answering the oldest open call keeps history and call table in step: one result each, in proposal order, with the recorded flag |
| AgentRun.PairedMark | src/aurora_agent/run.py:256-260 | starting the oldest open call or marking it unknown keeps history and call table in step |
| AgentRun.PairedPropose | src/aurora_agent/run.py:191-198 | a valid proposal adds fresh, distinct identities and keeps history and call table in step |
| AgentRun.PairedDeliver | src/aurora_agent/run.py:262-267 | delivery between tool batches keeps history and call table in step |
| AgentRun.OpenCallsAreUnanswered | src/aurora_agent/run.py:172-260 | at every await the unanswered calls of the history are exactly the records that are pending, started or unknown |
| AgentRun.OnlyTheFirstOpenCall | src/aurora_agent/run.py:203-230 | at most one call is started at a time |
| AgentRun.PendingNext | src/aurora_agent/run.py:247-248 | the pending calls are the open calls in the order of their proposal |
| AgentRun.StartedOnce | src/aurora_agent/run.py:217-219 | no call identity has two start events |
| AgentRun.LogCall | src/aurora_agent/run.py:217-219 | each change of a call writes its one event and keeps the log, the life of every call and the counters consistent |
| AgentRun.LogQuiet | src/aurora_agent/run.py:91-97 | queueing, delivery and the ends of a model call keep the log consistent; no model call starts after a cancel request |
| AgentRun.LogCancel | src/aurora_agent/run.py:99-106 | one cancel event, after which nothing is started |
| AgentRun.LogFinish | src/aurora_agent/run.py:275-282 | the finish event is the only one and the last |
| AgentRun.DeliverQueue | src/aurora_agent/run.py:262-267 | delivered messages followed by queued ones are always the initial ones followed by everything appended, in order and each once |
| AgentRun.QueueMore | src/aurora_agent/run.py:91-97 | an append extends both sides of that equation |
| Operations.OperationRegistry.constructor | src/aurora_bot/operations/registry.py:48-79 | an empty registry over an empty journal satisfies the invariant |
| Operations.OperationRegistry.Enter | src/aurora_bot/operations/registry.py:101-129 | a request of another Bot and a recursive wait are refused without a trace; otherwise the slot counts one more user |
| Operations.OperationRegistry.Acquire | src/aurora_bot/operations/registry.py:130-132 | the lock is taken by one waiting dispatch of the identity |
| Operations.OperationRegistry.Leave | src/aurora_bot/operations/registry.py:133-140 | a leaving dispatch, finished or interrupted, gives its lock back, and the slot of the last user disappears |
| Operations.OperationRegistry.Look | src/aurora_bot/operations/registry.py:106-116 | reads the request commit; without one the target is frozen or the rejection decided |
| Operations.OperationRegistry.RecordRequest | src/aurora_bot/operations/registry.py:197-211 | the request commit is new and precedes every effect |
| Operations.OperationRegistry.Proceed | src/aurora_bot/operations/registry.py:119-120 | a rejected or expired request is settled without the handler being begun |
| Operations.OperationRegistry.BeginHandler | src/aurora_bot/operations/registry.py:162-173 | a handler begins only after its request commit, only without a result commit, and for what must not be replayed only the first time |
| Operations.OperationRegistry.HandlerReturns | src/aurora_bot/operations/registry.py:171-180 | an exception, timeout or foreign value becomes unknown for a command and failed for a query |
| Operations.OperationRegistry.RecordResult | src/aurora_bot/operations/registry.py:213-225 | the result commit is new: an identity gets one receipt |
| Operations.OperationRegistry.Compare | src/aurora_bot/operations/registry.py:142-145 | a retry under the same identity with other content is refused, and only then |
| Operations.OperationRegistry.Fetch | src/aurora_bot/operations/registry.py:146-160 | a retry gets the stored receipt if there is one; otherwise abandoned, unconfirmed, expired or executed again, as the frozen target decides |
| Operations.OperationRegistry.Finish | src/aurora_bot/operations/registry.py:213-225 | the caller gets the receipt that was written |
| Operations.OperationRegistry.Crash | src/aurora_bot/operations/registry.py:79 | a crash forgets slots and dispatches, keeps the journal, and a restart may register other handlers; the invariant holds |
| Operations.OperationRegistry.Perform | src/aurora_bot/operations/registry.py:101-180 | over any sequence of dispatches, retries, interruptions and crashes: the journal only grows, no handler begins for an identity that has its result, a command that is not retry-safe begins at most once, and a failed receipt of a reliable operation means that its handler said so or never began |
| Operations.OperationRegistry.Dispatch | src/aurora_bot/operations/registry.py:101-180 | one dispatch that nobody interrupts, from any reachable state: a new request is recorded with its frozen target, its handler begun once unless rejected or too late, and the recorded answer is the handler's; a retry is refused for other content, gets the stored receipt, or without one what the frozen target allows |
| Operations.OperationRegistry.DispatchAgain | src/aurora_bot/operations/registry.py:101-160 | after an answer and a crash the same request gets the same answer, whatever the new process registers: nothing is begun and nothing recorded |
| Operations.AnswersAgree | src/aurora_bot/operations/registry.py:142-148 | all answers ever given under one identity are the same |
| Operations.SoleHolder | src/aurora_bot/operations/registry.py:122-140 | at most one dispatch of an identity is under the lock |
| Operations.StepKeeps | src/aurora_bot/operations/registry.py:101-180 | a step of the holder changes nothing that any other dispatch relies on |
| Operations.CountEnter | src/aurora_bot/operations/registry.py:125-131 | entering keeps every slot count equal to the number of its dispatches |
| Operations.CountLeave | src/aurora_bot/operations/registry.py:137-140 | leaving keeps them so, and a slot exists exactly while it has users |
| Operations.MisleadsOnlyIf | src/aurora_bot/operations/registry.py:146-180 | in every reachable state a failed receipt misleads (the handler began and did not say failed) only for a query or for a retry-safe command with a deadline |
| Operations.UnreliableCanMislead | src/aurora_bot/operations/registry.py:146-180 | from every reachable state, every new request of that kind that the process can handle has a run that ends with a misleading receipt |
| Topological.Sort | src/aurora_kernel/resolve.py:252-281 | of all orders that put every dependency first the one that is lexicographically least by input position; fails exactly when a cycle is reachable, naming exactly the modules that reach one |
| Topological.LeadingStep | src/aurora_kernel/resolve.py:270-276 | taking the least ready position keeps the result ahead of every valid order |
| Topological.Release | src/aurora_kernel/resolve.py:273-276 | the degrees stay the numbers of open dependencies and the queue the ready positions |
| Topological.Dependents | src/aurora_kernel/resolve.py:262-265 | the reverse of the dependency relation |
| Topological.Leftover | src/aurora_kernel/resolve.py:278-280 | with an empty queue and modules left, those left are exactly the ones that reach a cycle |
| Topological.ClosedAvoidsCycles | src/aurora_kernel/resolve.py:270-276 | nothing that was ordered reaches a cycle |
| Topological.StuckReachesCycle | src/aurora_kernel/resolve.py:278-280 | where everything needs something of the rest, everything reaches a cycle |
| Topological.NoOrderAcrossACycle | src/aurora_kernel/resolve.py:278-280 | an order exists only if no module reaches a cycle |
| Topological.UnconstrainedKeepsInput | src/aurora_kernel/resolve.py:256 | without dependencies the input order is kept |
| Resolve.DropUnsatisfiedOptional | src/aurora_kernel/resolve.py:144-156 | keeps the greatest set of modules closed under the rule that an optional module needs its requirements and namespaces present |
| Resolve.GreatestIsUnique | src/aurora_kernel/resolve.py:144-156 | that set is unique |
| Resolve.OnlyOptional | src/aurora_kernel/resolve.py:155-156 | only optional modules are dropped |
| Resolve.KeptServed | src/aurora_kernel/resolve.py:144-156 | read without the filter: every optional module kept finds what it requires and depends on among what is kept, and no larger choice does |
| Resolve.UnsatisfiedStays | src/aurora_kernel/resolve.py:146-152 | a module unsatisfied by more modules stays unsatisfied by fewer |
| Resolve.Providers | src/aurora_kernel/resolve.py:159-174 | each capability goes to the entry that outranks all others; fails exactly when some capability is tied at the top |
| Resolve.WinnerOutranks | src/aurora_kernel/resolve.py:169-173 | the chosen provider has strictly higher priority than every other module offering the capability |
| Resolve.TopTwoDecide | src/aurora_kernel/resolve.py:169-173 | comparing the first two of the ranked candidates decides whether the top is tied |
| Resolve.OffersCount | src/aurora_kernel/resolve.py:160-163 | a module is a candidate once for each time it lists the capability |
| Resolve.ProvidersAreActive | src/aurora_kernel/resolve.py:63-71 | a selected provider is never filtered out |
| Resolve.ValidateRequires | src/aurora_kernel/resolve.py:177-188 | fails exactly on a self-dependency, a missing namespace or a requirement nobody provides |
| Resolve.ValidateDeclarations | src/aurora_kernel/resolve.py:199-213 | fails exactly on a contribution point nobody or more than one module declares |
| Resolve.ValidateOrderings | src/aurora_kernel/resolve.py:216-221 | fails exactly on a constraint that names a later phase |
| Resolve.ValidateModuleApi | src/aurora_kernel/resolve.py:126-133 | fails exactly when a module does not accept the kernel version, the skipped ones included |
| Resolve.ValidateIdentities | src/aurora_kernel/resolve.py:136-141 | fails exactly on a repeated module name |
| Resolve.Construct | src/aurora_kernel/resolve.py:77-79 | of all orders that construct every feeding module before the modules it feeds, the one that comes first by name; fails exactly with the names of the modules from which, going back along feeding, one comes round in a circle |
| Resolve.DependenciesAreFeeds | src/aurora_kernel/resolve.py:224-235 | among the active modules the compiled dependencies of a module are exactly the modules that feed it: those it depends on, the selected providers of what it requires and the contributors of what it consumes |
| Resolve.ArrangedNotCircular | src/aurora_kernel/resolve.py:252-281 | modules that can be put in order do not feed each other in a circle |
| Resolve.FirstByNames | src/aurora_kernel/resolve.py:252-281 | the least order of the names is the least order of the modules by their place in the input, over the edges alone |
| Resolve.WalkIsChain | src/aurora_kernel/resolve.py:278-280 | a name reaches a cycle of dependencies exactly if its module leads into a circle of edges |
| Resolve.ResolveModules | src/aurora_kernel/resolve.py:57-87 | on success: the greatest satisfiable set of modules, each capability with its one winner, all requirements met, no self-dependency, every contribution point declared once, no late ordering, and of all construction orders that put every feeding module first the first by name; on failure an error that names something wrong with that one choice, a cycle being one of feeding modules |
| Resolve.ResolvedOrNot | src/aurora_kernel/resolve.py:57-87 | no listing both resolves and has something wrong with it, so success and failure are each exact |
| Resolve.LeftOut | src/aurora_kernel/resolve.py:63-71 | of the kept modules exactly those are left out that only offer capabilities and were selected for none of them |
| Resolve.SameChoice | src/aurora_kernel/resolve.py:61-74 | the kept modules, the providers and the active modules of a listing are unique |
| Resolve.PhaseModules | src/aurora_kernel/resolve.py:111-123 | the participants in the first order of all that keep the constraints of the phase, ties going to the place in construction; fails exactly with the names of the participants that lead into a circle of constraints; without constraints the participants as they were constructed, on shutdown in reverse |
| Resolve.ShutdownReverses | src/aurora_kernel/resolve.py:120-121 | without constraints participants come as they were constructed, on shutdown the other way round |
| Resolve.ArrangedOrNot | src/aurora_kernel/resolve.py:111-123 | the constraints of a phase admit an order or have a cycle, never both |
| BotState.Project | src/aurora_bot/bot/store.py:131-164 | accepts a change exactly if every wake passes against the snapshot and the changed goals; then every changed goal stands as written and every other as before, the changed wakes stand as written except that pending wakes of goals that are not active are cancelled, and every other wake is as before or so cancelled |
| BotState.PutGoalsAt | src/aurora_bot/bot/store.py:133-134 | a changed goal stands as written, every other goal as before |
| BotState.ChangeTakesEffect | src/aurora_bot/bot/store.py:122-129 | a change in the journal takes effect on the goals and wakes of its version, read from the change alone |
| BotState.GoalsLastWritten | src/aurora_bot/bot/store.py:99-129 | every replayed snapshot holds exactly the goals that have the last word: written by some change and named by none after it |
| BotState.CheckWake | src/aurora_bot/bot/store.py:136-143 | acceptable exactly if the wake is new and pending, or keeps everything but status and detail and moves along the transition graph, and its goal exists and, unless the wake is settled, is active; the move is judged first, then whether the goal exists, then whether it is active |
| BotState.UpdateWakes | src/aurora_bot/bot/store.py:136-144 | accepts exactly if each wake is acceptable; the first offender decides the error |
| BotState.CancelWakes | src/aurora_bot/bot/store.py:145-151 | exactly the pending wakes of goals that are not active are cancelled |
| BotState.ProjectedCoherent | src/aurora_bot/bot/store.py:131-164 | an accepted change keeps every wake's goal existing and the goal of a pending wake active |
| BotState.ProjectedEvolves | src/aurora_bot/bot/store.py:19-22 | a change moves a wake along the transition graph or not at all, and never its time, message or goal |
| BotState.ReplayCoherent | src/aurora_bot/bot/store.py:131-152 | every snapshot reachable through the journal is coherent |
| BotState.WakesEvolve | src/aurora_bot/bot/store.py:154-164 | between any two versions a wake stays, keeps its time, message and goal, and is frozen once settled |
| BotState.VersionsWithoutGap | src/aurora_bot/bot/store.py:117-118 | the journal holds a state commit for each of the versions 1, 2, 3, … up to its length and none beyond |
| BotState.AppendHonest | src/aurora_bot/bot/store.py:78-88 | what a replica may append keeps versions gapless and commands unique |
| BotState.StepRead | src/aurora_bot/bot/store.py:106-111 | reading the next commit keeps a replica equal to the fold of what it has read, and never finds the log broken |
| BotState.InStepStable | src/aurora_bot/bot/store.py:99-111 | commits of other replicas never invalidate what a replica holds |
| BotState.OwnCommit | src/aurora_bot/bot/store.py:94-96 | a replica's own commit, wherever it landed, takes it from what it had read to the projected state |
| BotState.CursorSplits | src/aurora_bot/bot/store.py:107-108 | cursor order and scope order agree: a bounded journal is a prefix of the scope |
| BotState.NothingNew | src/aurora_bot/bot/store.py:78-88 | while nobody has taken the next version, a complete reader has read every state commit |
| BotStore.World.Append | src/aurora_bot/world/store.py:97-143 | a known identity returns its commit on equal content and is refused otherwise; a new one is appended; an interruption may hide either |
| BotStore.World.Pass | src/aurora_bot/world/store.py:126-135 | at an await other writers extend the journal by commits the protocol admits |
| BotStore.JournalBotState.constructor | src/aurora_bot/bot/store.py:28-39 | an unread replica is in step |
| BotStore.JournalBotState.Restore | src/aurora_bot/bot/store.py:113-129 | restores exactly the next version with a matching expectation and an acceptable change; otherwise nothing changes |
| BotStore.JournalBotState.Refresh | src/aurora_bot/bot/store.py:99-111 | ends with everything read up to the bound, or interrupted; in step either way, whatever others append meanwhile |
| BotStore.JournalBotState.Read | src/aurora_bot/bot/store.py:51-55 | the snapshot is the fold of the whole journal at the last await |
| BotStore.JournalBotState.ReadAt | src/aurora_bot/bot/store.py:57-63 | the snapshot at a cursor is the fold of the commits with a cursor up to it; a negative cursor is refused; the replica does not move |
| BotStore.JournalBotState.Apply | src/aurora_bot/bot/store.py:65-97 | success means the change stands in the journal and has taken effect on goals and wakes, and for a fresh change on the snapshot it returns; each refusal means its reason; when nobody else writes the outcome is decided by the folded journal alone |
| BotStore.JournalBotState.Put | src/aurora_bot/bot/store.py:77-97 | the append: landed, found already landed, overtaken or interrupted, the replica in step in each case |
| BotStore.JournalBotState.Overtaken | src/aurora_bot/bot/store.py:89-93 | when the version is taken, the version has moved after reading on, so a conflict is reported |
| BotStore.OwnLasting | src/aurora_bot/bot/store.py:78-88 | what a complete reader is about to append stays admissible until someone else takes the version |
| BotStore.AppendDeserved | src/aurora_bot/clock/clock.py:110-155 | under the clock's discipline every completed wake has its completed run record, every run start a claimed wake, every run end a start |
| Clock.PersistentBotClock.constructor | src/aurora_bot/clock/clock.py:28-45 | a clock starts uninitialised over a replica |
| Clock.PersistentBotClock.Begin | src/aurora_bot/engine/ledger.py:69-75 | a run starts only if no start record exists, and only for the execution whose identity the start record then carries; a racing second start is refused |
| Clock.SoleStarter | src/aurora_bot/engine/ledger.py:69-85 | however many executions race for a run, the start record belongs to one of them, for good |
| Clock.PersistentBotClock.Finish | src/aurora_bot/engine/ledger.py:189-214 | the end of a run is recorded once, after its start |
| Clock.PersistentBotClock.Cognize | src/aurora_bot/clock/clock.py:129-135 | a run reported as completed is recorded as completed, and only the execution that owns the start record reports a result |
| Clock.PersistentBotClock.Settle | src/aurora_bot/clock/clock.py:138-155 | retries until the wake is settled by this clock or another; terminates once others stop writing; never settles as completed without the record |
| Clock.PersistentBotClock.Launch | src/aurora_bot/clock/clock.py:116-136 | an exception settles the wake as failed, a cancellation leaves it running, a result settles it accordingly |
| Clock.PersistentBotClock.Verdict | src/aurora_bot/clock/clock.py:59-67 | what the records of a run say about its wake |
| Clock.PersistentBotClock.Initialize | src/aurora_bot/clock/clock.py:51-68 | after a restart each running wake is completed, failed or interrupted as its records say, or stays running if its run never started; all others are untouched |
| Clock.PersistentBotClock.Claim | src/aurora_bot/clock/clock.py:92-97 | the claim stands in the journal before anything is launched |
| Clock.PersistentBotClock.EvaluateOnce | src/aurora_bot/clock/clock.py:70-98 | launches the first due wake by time and identity, at most one, and only a claimed one; when nobody else writes, the journal after recovery decides what is launched and how the wake ends, and the settled wake says completed exactly as the record of its run does, unless the run was recorded as completed before (never right after a restart) or broke after recording it |
| Clock.FirstDue | src/aurora_bot/clock/clock.py:80-91 | finds the least due wake, or none exactly if none is due |
| Clock.WakeLater | src/aurora_bot/bot/store.py:154-164 | through any commits of anyone a wake stays and only evolves |
| Clock.StatusProjected | src/aurora_bot/bot/store.py:131-152 | giving one wake an allowed status is always acceptable and changes nothing else |
| Clock.ResultAcceptable | src/aurora_bot/clock/clock.py:145-152 | the result of a running wake is acceptable and its command is new |
| Clock.RefusedResult | src/aurora_bot/clock/clock.py:145-155 | other than for a changed version a result is refused only because another clock settled the wake |
| Clock.SettledAgrees | src/aurora_bot/clock/clock.py:129-136 | the same condition from the outcome of a launch alone |
| Clock.DeliveredTells | src/aurora_bot/clock/clock.py:116-155 | what a delivery leaves in the plan agrees with the record of its run exactly unless the launch denies it |
| Clock.RecoveredUnfinished | src/aurora_bot/clock/clock.py:51-68 | nothing that is due after a recovery has a completed run |
| Clock.RelaunchDeniesCompletion | src/aurora_bot/clock/clock.py:84-98 | a concrete run in which a wake whose run completed is settled as failed, and a restart would have completed it |
| Clock.BrokenAfterCompletion | src/aurora_bot/clock/clock.py:129-134 | a concrete run that records its completion and then raises: the same launch settles its wake as failed |
| Catalog.Browse | src/aurora_bot/resources/catalog.py:88-114 | refuses exactly a damaged cursor or one of other filters; otherwise the first page that breaks the protocol or a disagreement, reported exactly when two of the listed descriptions of an undeclared resource differ; what it returns is within the page size, matches every filter given, comes after the cursor and is in order, whoever answers; with honest agreeing providers it is exactly the page the union owes: the least remaining, and a cursor exactly when more remain |
| Catalog.OffendsInvalid | src/aurora_bot/resources/catalog.py:140-156 | a page breaks the protocol exactly if it is too long, holds a resource that is not wanted or not behind the cursor, is out of order, or has a cursor before it is full or one that does not name its last resource |
| Catalog.BrowseAll | src/aurora_bot/resources/catalog.py:88-114 | following the cursors with any page sizes terminates and returns everything the union owes, in order |
| Catalog.EnumeratesOnce | src/aurora_bot/contracts/resource_paging.py:22-32 | that is each resource of the union that matches every filter given exactly once, in strictly increasing position |
| Catalog.HonestPageValid | src/aurora_bot/resources/catalog.py:140-157 | an honest page always passes the page protocol |
| Catalog.MergedFirst | src/aurora_bot/resources/catalog.py:99-112 | the first n of a union are the first n of everyone's first n |
| Catalog.MoreRemain | src/aurora_bot/resources/catalog.py:113-114 | more remain than fit exactly when the merged first pages overflow or some source does |
| Catalog.MergedPage | src/aurora_bot/resources/catalog.py:102-114 | merging honest pages yields the union's page with static definitions first |
| Catalog.Merge | src/aurora_bot/resources/catalog.py:103-111 | each reference once with the static definition preferred, or a real disagreement |
| Catalog.Smallest | src/aurora_bot/resources/catalog.py:93-95 | the first n of a set in resource order |
| Catalog.OwedStep | src/aurora_bot/resources/catalog.py:112-114 | one page and what is owed after its cursor make up what was owed before it |
| Catalog.NextPage | src/aurora_bot/contracts/resource_paging.py:29-32 | what remains beyond a page's cursor is what remained without that page |
| TgnPolicy.Update | src/aurora_bot/memory_model/tgn.py:84-113 | in place; read from the graph before: each end remembers what the recurrent cell makes of its message, which is made of both old memories, both features and both old silences; a node with text replaces the stored one and a node without text only fills a gap; different ends become neighbours; nothing else changes |
| TgnPolicy.MeetsDecides | src/aurora_bot/memory_model/tgn.py:84-113 | that reading determines the graph after the interaction |
| TgnPolicy.EndsExchange | src/aurora_bot/memory_model/tgn.py:85 | neither end has an effect on what the other makes of an interaction: which of two different ends is called the source makes no difference |
| TgnPolicy.ScoresExchanged | src/aurora_bot/memory_model/tgn.py:53-113 | exchanging the ends of any interactions of a history changes no score |
| TgnPolicy.Feature | src/aurora_bot/memory_model/tgn.py:124-131 | the feature cache never changes an answer |
| TgnPolicy.Project | src/aurora_bot/memory_model/tgn.py:57-63 | projects the events in order; a failure leaves a prefix |
| TgnPolicy.NodeEmbedding | src/aurora_bot/memory_model/tgn.py:115-122 | made of the own memory, the mean over exactly the neighbours, the feature of the stored node and its silence; fills only the cache |
| TgnPolicy.Rank | src/aurora_bot/memory_model/tgn.py:65-82 | scores as a function of request and graph |
| TgnPolicy.RankedAt | src/aurora_bot/memory_model/tgn.py:65-82 | each score is made of the candidate, what is read of its memory node and what is read of every goal in focus, in order |
| TgnPolicy.ProjectedSplit | src/aurora_bot/memory_model/tgn.py:57-63 | projecting a prefix and then the rest is projecting the whole |
| TgnPolicy.SameProjected | src/aurora_bot/memory_model/tgn.py:84-113 | graphs equal up to listed empty neighbour sets stay so |
| TgnPolicy.SoundProjected | src/aurora_bot/memory_model/tgn.py:84-113 | a projected graph has one entry per node everywhere and symmetric links without loops |
| TgnPolicy.TGNMemoryPolicy.constructor | src/aurora_bot/memory_model/tgn.py:141-148 | a fresh policy holds the projection of nothing |
| TgnPolicy.TGNMemoryPolicy.VerifyRestored | src/aurora_bot/memory_model/tgn.py:214-229 | a restored projection is believed exactly for requests that begin with the interactions it was made from |
| TgnPolicy.TGNMemoryPolicy.BaseOfGenuine | src/aurora_bot/memory_model/tgn.py:214-229 | for a genuine restored projection the label accepts exactly the requests that begin with its interactions |
| TgnPolicy.TGNMemoryPolicy.Score | src/aurora_bot/memory_model/tgn.py:160-185 | after any history of scores, failures and restores the answer is the one of scoring from nothing, unless a restored file of foreign making claimed the beginning of the request, and then it is the one of continuing from that file; failures clear the cache; which requests move the cache |
| TgnPolicy.ScoreFromProjection | src/aurora_bot/memory_model/tgn.py:160-185 | continuing from the projection of a prefix scores like scoring from nothing |
| TgnPolicy.ForeignFileIsBelieved | src/aurora_bot/memory_model/tgn.py:214-229 | a readable file with the right label and other memories: the policy that restored it scores the same request differently |
| TgnPolicy.TGNMemoryPolicy.Checkpoint | src/aurora_bot/memory_model/tgn.py:187-201 | written only for confirmed interactions, not twice for the same ones; it holds the cached graph, and is genuine if that is |
| TgnPolicy.TGNMemoryPolicy.Restore | src/aurora_bot/memory_model/tgn.py:203-212 | declined for another model or coordinates, an error on damage, neither changing anything; any other readable file, whoever wrote it, is taken on probation |
| TgnPolicy.CheckpointRoundTrip | src/aurora_bot/memory_model/checkpoint.py:98-138 | a genuine checkpoint is read back exactly when all memories are finite, and gives the projection back |
| TgnPolicy.ReadableSound | src/aurora_bot/memory_model/checkpoint.py:98-138 | whatever is read back has one entry per node everywhere and symmetric links without loops |
| TgnPolicy.ScoreSaveRestore | src/aurora_bot/memory_model/checkpoint.py:28-138 | scoring, saving and loading into another policy of the model succeeds exactly if all memories are finite, whatever the scores |
| TgnPolicy.FiniteScoresAreNotEnough | src/aurora_bot/memory_model/checkpoint.py:111-113 | a network and a request with finite scores whose checkpoint every policy of the model rejects |
| TgnPolicy.ReadNodes | src/aurora_bot/memory_model/checkpoint.py:98-138 | accepts exactly the readable rows and builds their graph |
| TgnPolicy.MutualNeighbors | src/aurora_bot/memory_model/checkpoint.py:133-137 | the adjacency check accepts exactly mutual, loop-free neighbour lists |
| TgnPolicy.EncodeRows | src/aurora_bot/memory_model/checkpoint.py:28-49 | every node once with its memory, time and neighbours |
| TgnPolicy.BuiltSame | src/aurora_bot/memory_model/checkpoint.py:28-49 | reading the written rows gives the same graph |
| Selection.Closure | src/aurora_bot/memory/selection.py:83-103 | terminates on cycles; exactly the reachable records, each once, by cursor; exactly the reachable identities without a record |
| Selection.ReachLeast | src/aurora_bot/memory/selection.py:90-102 | the reach is the least set closed under premises and replacements |
| Selection.ReachFollowed | src/aurora_bot/memory/selection.py:83-103 | the reach is the least set around the roots that holds the premises of its records and the records that supersede them |
| Selection.Replacements | src/aurora_bot/memory/selection.py:52-55 | the replacements are exactly the superseding records |
| Selection.SelectMemories | src/aurora_bot/memory/selection.py:52-80 | the required evidence is the least set around the required references that follows every premise and every superseding record; each bundle adds what its root leads to in that way; a ranked candidate gets a bundle exactly unless, seen from the bundles before it, it is already included, something it leads to is missing, or what it adds does not fit; the sizes sum to at most the budget |
| Selection.GreedyInRanking | src/aurora_bot/memory/selection.py:62-80 | the greedy choice read place by place: where a root was taken and why every other was passed over |
| Selection.Complete | src/aurora_bot/memory/selection.py:70-79 | a candidate is completed exactly if nothing is missing and it fits |
| Selection.SizeListed | src/aurora_bot/memory/selection.py:74 | a set of records weighs the same however it is listed |
| Selection.SizeCounts | src/aurora_bot/memory/selection.py:74 | what counts against the budget: all texts, all identities and 240 characters for each record |
| Selection.BundlesClosed | src/aurora_bot/memory/selection.py:57-80 | required evidence with any completed bundles is closed under every link up to what the required evidence lacks |
| Composer.TranscriptGroups | src/aurora_bot/prompt/composer.py:175-190 | cuts the transcript exactly where every call made so far is answered; a group ends at the first message after which all its calls are answered, and only the last may end before that |
| Composer.OpenIsWaiting | src/aurora_bot/prompt/composer.py:179-184 | an identity is pending after n messages exactly if one of them makes the call and no result from there on answers it |
| Composer.AnswerWithItsCall | src/aurora_bot/prompt/composer.py:175-190 | a result that answers an open call is in the group of that call |
| Composer.TrimHistory | src/aurora_bot/prompt/composer.py:81-96 | keeps the first group and the longest suffix of whole groups that fits; fails exactly if the last group does not |
| Composer.Assemble | src/aurora_bot/prompt/composer.py:39-79 | the transcript in groups that end where their calls are answered; total size within the budget, first and last group kept, trimmed only when needed; fails exactly when the kept minimum exceeds the budget, or history must be cut and the minimum with the marker exceeds it |
| Composer.SelectBundles | src/aurora_bot/prompt/composer.py:193-207 | all of what a bundle adds or nothing, as long as the rendering fits |
| Composer.LeftOutDoesNotFit | src/aurora_bot/prompt/composer.py:193-207 | a bundle that is not shown whole brought something new that did not fit behind what was loaded before it |
| Composer.SelectScopes | src/aurora_bot/prompt/composer.py:103-121 | commit after commit, exactly those are taken that are new and fit after all taken before; the text is their rendering |
| Composer.ChosenFits | src/aurora_bot/prompt/composer.py:103-121 | everything taken is listed, none twice or besides the required evidence, and its rendering fits |
| Composer.LeftOutOverflows | src/aurora_bot/prompt/composer.py:103-121 | if showing more never takes fewer characters, no commit that was left out would still fit |
| Composer.SelectMemory | src/aurora_bot/prompt/composer.py:98-121 | what is shown, whole bundles or single commits, and that it fits the available characters |
| Composer.LoadedAccepted | src/aurora_bot/prompt/composer.py:193-207 | what is loaded with the required evidence is exactly the accepted bundles with it |
| Composer.IncludedClosed | src/aurora_bot/prompt/composer.py:193-207 | what a prompt includes of a selection is dependency-closed up to missing references, whatever fits |
| SharedContext.Context.constructor | src/aurora_kernel/context.py:45-54 | a new or staged context |
| SharedContext.Context.Record | src/aurora_kernel/context.py:150-155 | one revision, its keys and its data recorded together |
| SharedContext.Context.Ensure | src/aurora_kernel/context.py:86-98 | a new namespace is one change and empty, an existing one none, an invalid name an error; no value changes |
| SharedContext.Context.Set | src/aurora_kernel/context.py:186-194 | an assignment is one change after which the value is read back, or an error and none; every other key keeps its value |
| SharedContext.Context.Delete | src/aurora_kernel/context.py:196-202 | a deletion is one change after which the key is gone, or an error and none; every other key keeps its value |
| SharedContext.Context.Begin | src/aurora_kernel/context.py:114-121 | refused exactly on an unexpected revision; otherwise staged over the current data |
| SharedContext.Context.Commit | src/aurora_kernel/context.py:124-132 | nothing staged is no change; a moved revision is a conflict without effect; otherwise one change whose transaction read exactly the state before it |
| SharedContext.Context.Update | src/aurora_kernel/context.py:212-217 | all fields become one change or none does; fails exactly for a missing namespace, an invalid name, or a change that another caller committed meanwhile, whatever it touched |
| SharedContext.Interleave | src/aurora_kernel/context.py:86-132 | over any interleaving of writes and transactions nested to any depth the data is the serial execution of the committed changes in revision order |
| SharedContext.SerialFlatten | src/aurora_kernel/context.py:124-132 | executing committed batches one by one is executing all their writes in a row |
| SharedContext.OutsideUntouched | src/aurora_kernel/context.py:150-155 | keys outside a change keep their values, and no namespace disappears |
| SharedContext.LastWrite | src/aurora_kernel/context.py:186-202 | what is read under a key is what the last write naming it assigned, or nothing if that was a deletion |
| Host.Host.Prepare | src/aurora_kernel/host.py:66-95 | a host is prepared once; the hooks of the setup and build steps are called in order up to the first that fails, and it succeeds exactly if none does; then every acquired cleanup is left to the lifecycle; otherwise the constructed modules are closed, every acquired cleanup is run once, latest first, and exactly what failed is reported |
| Host.DidAcquires | src/aurora_kernel/host.py:71-92 | the cleanups acquired by the calls before a failure are numbered 0, 1, 2, … in the order of acquisition, one for each setup hook that returns one |
| Host.Host.Rollback | src/aurora_kernel/host.py:108-122 | closes the constructed modules and then runs every cleanup latest first, and reports exactly what failed |
| Host.ClosedOnce | src/aurora_kernel/host.py:111-118 | a constructed module with a close hook is closed exactly once, and no other |
| Host.ReleasedInReverse | src/aurora_kernel/host.py:119-121 | each acquired cleanup is run exactly once, in reverse order of acquisition |
| Lifecycle.ManagedAssembly.constructor | src/aurora_kernel/lifecycle.py:27-41 | an open assembly |
| Lifecycle.ManagedAssembly.Begin | src/aurora_kernel/lifecycle.py:61-65 | activation once, and not after closing; background tasks are started without a gap up to the first awaited hook |
| Lifecycle.ManagedAssembly.GoOn | src/aurora_kernel/lifecycle.py:66-70 | consecutive background tasks are started with nothing in between, and left alone |
| Lifecycle.ManagedAssembly.Resume | src/aurora_kernel/lifecycle.py:66-73 | an awaited start hook that succeeds lets activation go on; one that fails closes the assembly |
| Lifecycle.ManagedAssembly.End | src/aurora_kernel/lifecycle.py:128-148 | a failing task is recorded, and so is a cancellation nobody asked for |
| Lifecycle.ManagedAssembly.CloseCall | src/aurora_kernel/lifecycle.py:87-95 | only the first caller starts the release and owns its report |
| Lifecycle.ManagedAssembly.Report | src/aurora_kernel/lifecycle.py:94-95 | every caller waits for the one release; the report goes to its owner only |
| Lifecycle.ManagedAssembly.AwaitTasks | src/aurora_kernel/lifecycle.py:97-101 | nothing is released before the tasks found have ended; the failures nobody fetched head the report |
| Lifecycle.ManagedAssembly.RunHook | src/aurora_kernel/lifecycle.py:102-104 | a failing shutdown hook is reported and does not stop the rest |
| Lifecycle.ManagedAssembly.RunCleanup | src/aurora_kernel/lifecycle.py:105-108 | a failing cleanup is reported and does not stop the rest |
| Lifecycle.ManagedAssembly.Fetch | src/aurora_kernel/lifecycle.py:52-59 | the oldest failure nobody has, handed out once; nothing once closed |
| Lifecycle.ManagedAssembly.Perform | src/aurora_kernel/lifecycle.py:52-109 | in any run each recorded failure is handed out at most once and in order, by `next_failure` or in the report, or is pending; hooks and cleanups are each run once in order; nothing is left behind if at the first close no activation had a background task left to start |
| Lifecycle.ReleasedEachOnce | src/aurora_kernel/lifecycle.py:102-109 | the release runs each hook once in plan order and each cleanup once in reverse order |
| Lifecycle.ActivationOutlivesClose | src/aurora_kernel/lifecycle.py:66-70 | from every open state in which an activation has a background task left to start, a run leads past the release to a failure that stays behind |

## Left out

- Concrete error texts, details of wakes and reasons of results; errors are constructors.
- `BaseException` kinds other than `CancelledError`, which the driver of a run does not settle.
- One process at a time serves the operations of a Bot; two registries over one journal are not interleaved.
- Operations: the encoding of requests and receipts, artifacts for large bodies and the scopes of commits.
- The order of goals and wakes inside a snapshot: they are maps.
- BotStore.JournalBotState.Refresh: other writers are assumed to stop eventually, because a reader that is outrun for ever never finishes.
- State commits under the state kind that were not written by a replica; the journal is assumed honest in that respect, as its only writer in the repository is the replica.
- Clock: wall-clock time and the polling loop of `run`; a cognition run is reduced to its two records and how it ends.
- Resolve: names are numbers, since only equality and input order matter; collecting and sorting the phases and checking their groups (`_collect_phases`, `_validate_phase_groups`).
- Catalog: the encoding of cursors, aliases, `resolve` and `inspect`, and a population that changes between pages.
- TgnPolicy: tensors, training, time scaling and the order of rows in a checkpoint; the mean over neighbours is a function of the neighbours' memories; an identity is blank if it is made of spaces.
- TgnPolicy.FiniteScoresAreNotEnough: its network is a stand-in whose recurrent cell overflows; that trained weights do so is not claimed.
- Selection: recall by text, goal and entity, and the ranking itself, which is an arbitrary function.
- Composer: the texts of fragments, renderings and of the notice that history was cut, exposure records, and the size of tool definitions, which is already subtracted from the budget.
- SharedContext: watchers and their failures, deep copies of containers (values are immutable here) and the circularity check.
- Host: the synchronous `build`, call routes, and the grouping of exceptions; what fails is reported, how Python nests the exceptions is not.
- Lifecycle: a cancellation of a caller of `close`, which is deferred until the release is done and changes nothing of it.
