# Hodei: protocols, caches and exact cores

Hodei runs pipeline tasks on short-lived workers. `hodei-app` admits tasks, throttles them with a slot dispatcher,
starts workers, and keeps users, tokens, roles and migrations in databases. `remote_worker` runs processes, streams
their output back, and synchronises files. This project models the parts of both programs that keep state under
concurrency or failure, or that have an exact specification, and proves what they promise.

How the models are built:

- **Protocols** (`TaskDispatcher.dfy` with `DispatcherProgress.dfy`, `ProcessExecutor.dfy`). Every channel operation, lock
  and unlock is one atomic step of a transition system: `Enabled` says when the step would not block, `Next` what it
  does, `ValidRun` and `After` make runs of any length and any interleaving. A task that never finishes, a failing
  worker, a process that exits at any time and a caller that cancels at any time are all among the runs. The classes
  `TaskManager` and `Execution` hold the code: the dispatcher's loop, the body of a task, the readers, the monitor and
  the waiting goroutine, as they are written, with other goroutines moving between any two of their operations. All that
  they do is proved to be steps of the transition system.
- **Objects over stores that fail** (`TokenRepository.dfy`, `AuthService.dfy`, `Authorization.dfy`, `Migrations.dfy`,
  `WorkerState.dfy`, `FileUpload.dfy`). A class with the source's fields; each method is proved equal to a function on
  the abstract value, for every answer that the database, the clock, the random source or the peer can give. These
  answers are parameters. A write that fails may still have taken effect. Runs are sequences of calls.
- **Computations** (`SyncDiff.dfy`, `DirectoryScan.dfy`, `Pagination.dfy`, `RoundRobin.dfy`). The source's loops, proved
  against an independent definition: a filter of the full walk, a list of exactly the wanted changes, a partition.

`Sequences.dfy` holds sums over sequences, `Options.dfy` the option type.

Where the code does not do what one would expect, the model keeps the code, a lemma shows the input, and where there is
an exact condition it is proved as an equivalence:

- A task whose `Run` returns nil can block for ever on a second receive and keep its slot; when every slot is kept in
  this way, no task ever starts again (`WedgeReachable`, `WedgedForever`). In the model this is, apart from the
  shutdown, the only obstacle: a waiting task can still be started if and only if the dispatcher is neither stopped
  nor wedged (`ServedUnlessWedged`).
- The exit of a process cancels its readers, so that output can be lost: the caller is sure of all lines of a stream
  exactly from the moment they have all been sent (`OutputIsSafeOnceSent`, `OutputCanBeLost`), and after the
  cancellation at most one more line of each stream comes (`OneMoreLineAfterCancel`). The exit also closes the pipes,
  so that a line can arrive cut short (`LineCanBeCut`); `LinesArriveInOrder` says exactly when.
- Deleting a user's tokens leaves live cache entries exactly when listing them fails and one of the rows that go
  belongs to a cached token that has not expired (`DeleteUserNeedsListing`), a cached token outlives its row by the
  one instant at which it expires (`ValidateAgrees`), and a validation that interleaves with a deletion revives the
  deleted token (`InterleavedFillResurrects`).
- An upload whose delta chunks refer to the destination itself is reassembled exactly when no chunk reads a byte that
  an earlier one has changed (`UploadReassembles`, `SameFileDeltaFails`).
- An unreadable entry one level past the depth limit still fails the scan (`FailsExactlyOnReachedErrors`).
- A cache key belongs to one role alone exactly when its three parts are free of colons (`KeyUniqueIffColonFree`); two
  roles with one key change decisions in both directions (`CollisionChangesDecisions`), and the decisions about a
  resource are safe exactly when its organization and project are (`DecidesAsTriplesIffColonFree`). A URN survives
  printing and parsing exactly when its parts are free of colons (`PrintParse`).
- The offset of a page wraps around in 64 bits (`PageIsRightIffItFits`).
- Of the migration scripts with one version only the first is ever applied (`SecondOfTwoIsLost`); the run that meets a
  second one fails, and the rerun reports success (`CleanRunNeedsDistinctVersions`, `RerunReportsSuccess`).

## Model

| member | source | states |
|---|---|---|
| TaskDispatcher.SlotConservation | hodei-app/internal/domain/application/manager/worker_instance_manager.go:60-122 | In every reachable state the free slots, the slot in the dispatcher's hand and the slots held by started tasks add up to the initial limit, so at most that many tasks run |
| TaskDispatcher.SlotSendsNeverBlock | hodei-app/internal/domain/application/manager/worker_instance_manager.go:118-148 | Whenever the invariant holds, the dispatcher's give-back send and every deferred release find room in the slot channel |
| TaskDispatcher.NoTaskLost | hodei-app/internal/domain/application/manager/worker_instance_manager.go:92-122 | After any run the multiset of accepted tasks equals pending, received by ProcessTasks, in an app goroutine, dropped, queued, in the dispatcher's hand, parked and started (running or finished) together |
| TaskDispatcher.StepMovesTasks | hodei-app/internal/domain/application/manager/hodei_app.go:93-185 | A step of any kind moves a task from one place to another; only an admission changes how often a task occurs, and only for the admitted task |
| TaskDispatcher.OverflowIsFifo | hodei-app/internal/domain/application/manager/worker_instance_manager.go:107-115 | In every reachable state the parked tasks that have started, in the order in which their goroutines started, followed by the overflow list, are the parked tasks in the order in which they were parked; fresh arrivals may start in between |
| TaskDispatcher.ChannelsAreFifo | hodei-app/internal/domain/application/manager/hodei_app.go:93-98 | In every reachable state the pending channel and the task queue hold the latest arrivals in their order, and the task in the receiver's hand is the one that arrived just before them |
| TaskDispatcher.QueueHoldsHundred | hodei-app/internal/domain/application/manager/worker_instance_manager.go:63-63 | The task queue holds at most a hundred tasks, and a goroutine of the app can send exactly while it holds fewer |
| TaskDispatcher.RegistrySafety | hodei-app/internal/domain/application/manager/worker_instance_manager.go:147-164 | In every reachable state each key of the registry belongs to a task whose goroutine still holds a slot |
| TaskDispatcher.WorkKeepsRegistry | hodei-app/internal/domain/application/manager/worker_instance_manager.go:162-198 | A step of one goroutine keeps the registry equal to the set of tasks that still have to unregister |
| TaskDispatcher.UnwindIsReversedPrefix | hodei-app/internal/domain/application/manager/worker_instance_manager.go:139-245 | From every exit the deferred calls run in the reverse order of their registration, each once, down to the first |
| TaskDispatcher.EveryExitReleasesOnce | hodei-app/internal/domain/application/manager/worker_instance_manager.go:138-198 | Whichever way the body exits, the slot is released exactly once, after unregistering, which comes after stopping the worker |
| DispatcherProgress.StepDrains | hodei-app/internal/domain/application/manager/worker_instance_manager.go:94-121 | A rank over all tasks strictly drops on every productive step, is unchanged by taking and giving back a slot, and grows by at most a constant on an admission |
| DispatcherProgress.RunIsBounded | hodei-app/internal/domain/application/manager/worker_instance_manager.go:92-122 | In any run the number of productive steps is bounded by the work there was and the number of admissions |
| DispatcherProgress.DispatcherNeverDeadlocks | hodei-app/internal/domain/application/manager/worker_instance_manager.go:96-121 | While a task waits, the dispatcher alone does productive work within two steps, unless all waiting tasks are parked and every slot is held by a started task |
| DispatcherProgress.ProgressUnlessWedged | hodei-app/internal/domain/application/manager/worker_instance_manager.go:96-121 | While the dispatcher has a task to start and is not wedged, some run of at most two steps, none of which blocks a goroutine, does productive work |
| DispatcherProgress.ServedUnlessWedged | hodei-app/internal/domain/application/manager/worker_instance_manager.go:92-122 | An accepted task that has neither started nor been dropped, wherever it waits, has a run that starts it if and only if the dispatcher is neither stopped nor wedged |
| DispatcherProgress.StartsUnlessWedged | hodei-app/internal/domain/application/manager/worker_instance_manager.go:96-121 | While the dispatcher has a task to start, some run starts one more goroutine if and only if the dispatcher is neither stopped nor wedged |
| DispatcherProgress.ServingRun | hodei-app/internal/domain/application/manager/worker_instance_manager.go:92-198 | Steps that neither admit, drop, stop nor observe a result never wedge the dispatcher |
| DispatcherProgress.StartedTaskCanBlock | hodei-app/internal/domain/application/manager/worker_instance_manager.go:247-265 | Every goroutine that has just entered has a run in which Run returns nil and it blocks with its slot still held, while nothing else moves |
| DispatcherProgress.CanBlockUnlessLeaving | hodei-app/internal/domain/application/manager/worker_instance_manager.go:247-265 | For every state and goroutine, some run leads the goroutine to its blocking second receive if and only if it has neither left its body nor been sent an error as its result |
| DispatcherProgress.WedgedForever | hodei-app/internal/domain/application/manager/worker_instance_manager.go:257-265 | Once every slot is held by a blocked goroutine this stays so, and no run starts another task |
| DispatcherProgress.WedgeReachable | hodei-app/internal/domain/application/manager/worker_instance_manager.go:257-265 | For every number of slots and every capacity of the pending channel, zero included, there is a run from the initial state that ends in that situation |
| TaskDispatcher.RunKeepsInvariant | hodei-app/internal/domain/application/manager/worker_instance_manager.go:92-198 | Slots, tasks, defer stacks, registry, start order of parked tasks and channel capacities are kept by every step, hence over every run |
| TaskManagers.TaskManager.constructor | hodei-app/internal/domain/application/manager/worker_instance_manager.go:60-84 | Filling the slot channel one by one yields the initial state with all slots free |
| TaskManagers.TaskManager.AddTask | hodei-app/internal/domain/application/manager/hodei_app.go:93-98 | The select accepts the task, or refuses it with nothing changed exactly when the send would block: the buffer is full, or there is none and ProcessTasks is not waiting in its receive |
| TaskManagers.TaskManager.DispatchTasks | hodei-app/internal/domain/application/manager/worker_instance_manager.go:92-122 | The loop of selects, with other goroutines moving between any two channel operations, ends in exactly the state that its turns amount to, by steps of the transition system that keep the invariant; it has stopped if and only if some turn took the shutdown |
| TaskManagers.TaskManager.TakeSlot | hodei-app/internal/domain/application/manager/worker_instance_manager.go:110-119 | Receiving a slot, what others do meanwhile, and starting the oldest parked task or giving the slot back, with exactly that resulting state; the give-back send is never blocked |
| TaskManagers.TaskManager.TakeTask | hodei-app/internal/domain/application/manager/worker_instance_manager.go:100-108 | Receiving a task, what others do meanwhile, and starting or parking it, with exactly that resulting state |
| TaskManagers.TaskManager.StartTaskOrPark | hodei-app/internal/domain/application/manager/worker_instance_manager.go:100-108 | The inner select is the StartOrPark step: start with a slot, else append to the overflow list |
| TaskManagers.TaskManager.UseOrReturnSlot | hodei-app/internal/domain/application/manager/worker_instance_manager.go:110-119 | The reaction to a received slot is the UseSlot step: start the oldest parked task, else give the slot back |
| TaskManagers.TaskManager.ProcessTask | hodei-app/internal/domain/application/manager/worker_instance_manager.go:138-331 | The body with its deferred calls, others moving in between: when it ends, its goroutine holds no slot and its task is not registered; otherwise it is still in its loop or blocked |
| TaskManagers.TaskManager.StartWorker | hodei-app/internal/domain/application/manager/worker_instance_manager.go:139-251 | The defers in source order up to the start of Run, with the exits of a failed creation and a failed preparation |
| TaskManagers.TaskManager.MonitorTask | hodei-app/internal/domain/application/manager/worker_instance_manager.go:257-318 | The loop over run results and messages ends in exactly the state that they amount to, by steps of the transition system; it has been left by any final message, and a result seen twice blocks it |
| TaskManagers.TaskManager.RunDeferredCalls | hodei-app/internal/domain/application/manager/worker_instance_manager.go:139-187 | The deferred calls run last one first until none is left, and the deferred release never blocks |
| TaskManagers.TaskManager.CreateWorker | hodei-app/internal/domain/application/manager/worker_instance_manager.go:154-164 | Creation registers the worker and defers its removal, or exits without doing either |
| TaskManagers.TaskManager.RunDeferred | hodei-app/internal/domain/application/manager/worker_instance_manager.go:139-187 | Each deferred call does its own step: release, unregister or neither |
| WorkerStates.ConsumerSeesLatest | hodei-app/internal/domain/application/manager/worker_state.go:80-113 | In every run the consumer reads a subsequence of the states entered, and at rest the newest state is in the channel or was the last one read |
| WorkerStates.MoveKeepsConsistent | hodei-app/internal/domain/application/manager/worker_state.go:98-108 | Replacing the unread value by the new one, or sending into an empty channel, keeps that order and that newest value |
| WorkerStates.HistoriesAreLegal | hodei-app/internal/domain/application/manager/worker_state.go:34-55 | Every history of a worker is one of the listed ones: at most three states, and none after ERROR, STOPPED or FINISHED |
| WorkerStates.LegalHistoryOccurs | hodei-app/internal/domain/application/manager/worker_state.go:34-55 | Each of the listed histories occurs in some run |
| WorkerStates.AllowedMoves | hodei-app/internal/domain/application/manager/worker_state.go:34-55 | The transitions of the table, both directions |
| WorkerStates.StoppingMoves | hodei-app/internal/domain/application/manager/worker_state.go:42-55 | Of the permitted transitions exactly those to FINISHED stop the worker |
| WorkerStates.MovesExactlyWhen | hodei-app/internal/domain/application/manager/worker_state.go:80-113 | A call enters the state and publishes it exactly if it is another, permitted state and, for FINISHED, the worker could be stopped; otherwise it changes nothing |
| WorkerStates.WorkerState.constructor | hodei-app/internal/domain/application/manager/worker_state.go:26-58 | Seven calls of AddTransition build the table, and the state is UNKNOWN with an empty channel |
| WorkerStates.WorkerState.AddTransition | hodei-app/internal/domain/application/manager/worker_state.go:60-72 | Appends to the list of the from-state and leaves the others alone |
| WorkerStates.WorkerState.Publish | hodei-app/internal/domain/application/manager/worker_state.go:98-108 | With the consumer receiving before, between and after the selects, the last send finds room, the channel holds the new state, and the consumer has read at most the old one |
| WorkerStates.WorkerState.SetState | hodei-app/internal/domain/application/manager/worker_state.go:80-113 | Same state, forbidden transition, failed stop action and success have exactly their outcomes; only success changes anything |
| ProcessExecutor.ExecutorSafety | remote_worker/internal/application/api/process_executor.go:211-299 | In every interleaving nothing is sent on the closed channel, it is closed at most once and only after readers and monitor have ended, and HEALTH/FINISHED is then the last message |
| ProcessExecutor.ExitIsAnnounced | remote_worker/internal/application/api/process_executor.go:263-299 | A run that reaches the close contains the exit of the process once and announces before the last message how it exited: ERROR if and only if it failed, else FINISHED |
| ProcessExecutor.ErrorHasCause | remote_worker/internal/application/api/process_executor.go:236-281 | HEALTH/ERROR is sent only in runs in which the process failed or the monitor found it so |
| ProcessExecutor.StatusesAreKnown | remote_worker/internal/application/api/process_executor.go:80-113 | No line is ever sent with the status UNKNOWN, and whoever reports a status holds the mutex with that status current |
| ProcessExecutor.StatusMeaning | remote_worker/internal/application/api/process_executor.go:80-87 | A reader takes the current status along with its line; a report and the exit change it to what they say |
| ProcessExecutor.FirstMessages | remote_worker/internal/application/api/process_executor.go:143-209 | Every run begins with DEBUG unless a shell is used, three SETUP, INFO and HEALTH/RUNNING |
| ProcessExecutor.BufferHoldsHundred | remote_worker/internal/application/api/process_executor.go:124-124 | The output channel holds at most a hundred messages, and a line in hand can be sent exactly while it holds fewer |
| ProcessExecutor.ClosedIsFinal | remote_worker/internal/application/api/process_executor.go:296-298 | After the close no run adds a message; the caller only drains the buffer |
| ProcessExecutor.LinesArriveInOrder | remote_worker/internal/application/api/process_executor.go:90-117 | The delivered lines of each stream are the lines of the process in order and without gap; they are a prefix if and only if the last one is not the token cut short by the exit |
| ProcessExecutor.ReaderKeepsOrder | remote_worker/internal/application/api/process_executor.go:97-113 | Each move of a reader keeps the sent lines equal to the scanned ones, but for the one in hand |
| ProcessExecutor.StepUsesPotential | remote_worker/internal/application/api/process_executor.go:211-299 | Every step but a tick of the monitor uses up a potential, and a tick adds four to it |
| ProcessExecutor.RunIsBounded | remote_worker/internal/application/api/process_executor.go:211-299 | The length of every run is bounded by the lines of the process and the number of ticks |
| ProcessExecutor.NoDeadlock | remote_worker/internal/application/api/process_executor.go:227-299 | While the caller receives, in every safe state before the end some step is enabled, unless everybody waits for the process, the clock or nothing; sending under the health mutex cannot deadlock |
| ProcessExecutor.ReachesClose | remote_worker/internal/application/api/process_executor.go:263-299 | Once the process has exited, the program and the receiving caller reach the closed and drained channel without any tick |
| ProcessExecutor.OutputIsSafeOnceSent | remote_worker/internal/application/api/process_executor.go:90-117 | At every point of every run, all continuations to the close deliver all lines of a stream if and only if all of them have been sent by then |
| ProcessExecutor.OneMoreLineAfterCancel | remote_worker/internal/application/api/process_executor.go:92-113 | Once the readers are cancelled each stream gets at most one more line in any continuation, and none if its reader is not scanning or holding one |
| ProcessExecutor.QuietlyCloses | remote_worker/internal/application/api/process_executor.go:263-299 | From every safe state some run closes and drains the channel without one more line of either stream |
| ProcessExecutor.OutputCanBeLost | remote_worker/internal/application/api/process_executor.go:92-95 | For every output of the process there is a run that closes the channel without sending one line |
| ProcessExecutor.LineCanBeCut | remote_worker/internal/application/api/process_executor.go:97-109 | For every proper non-empty prefix of the first line there is a run that sends just that prefix |
| Executions.Execution.constructor | remote_worker/internal/application/api/process_executor.go:120-213 | Start's first messages, in order, fit the buffer, and the goroutines begin in the initial state |
| Executions.Execution.Put | remote_worker/internal/application/api/process_executor.go:69-77 | A send appends to the open channel and panics on the closed one |
| Executions.Execution.MoveReader | remote_worker/internal/application/api/process_executor.go:80-117 | Each move of a reader is the corresponding step |
| Executions.Execution.MoveWaiter | remote_worker/internal/application/api/process_executor.go:263-299 | Each move of the waiting goroutine is the corresponding step |
| Executions.Execution.MoveMonitor | remote_worker/internal/application/api/process_executor.go:227-260 | Each move of the monitor goroutine is the corresponding step |
| Executions.Execution.ReadOutput | remote_worker/internal/application/api/process_executor.go:90-117 | The loop with its two selects, others moving in between, takes only steps of the transition system; it sends one line in each of its first n turns and then has returned, by cancellation or at the end of the stream, or has no move left but to wait |
| Executions.SendsAreLines | remote_worker/internal/application/api/process_executor.go:107-113 | A run adds as many lines of a stream as its reader makes sends |
| Executions.Execution.AwaitProcess | remote_worker/internal/application/api/process_executor.go:263-299 | The goroutine from the exit of the process to the close, others moving in between: it never panics; when it is done the channel is closed once, HEALTH/FINISHED is the last message and ERROR or FINISHED, as the process exited, was announced before it; otherwise the process has exited and no move of the goroutine is enabled |
| Executions.Execution.MonitorHealth | remote_worker/internal/application/api/process_executor.go:227-260 | The loop of ticks, holding the mutex while it reports, takes only steps of the transition system; it ticks once in each turn with a tick, passes over no cancellation, and then has returned, has taken all turns, or has no enabled move |
| TokenRepositories.CachedRefinesPlain | hodei-app/internal/adapters/outgoing/repository/iam/token_repository.go:85-332 | After any run with failures in which listing a user's rows works, a validation answered by the collection accepts exactly what a repository without caches accepts, with the same user, except at the instant of expiry of a row already removed |
| TokenRepositories.RunCoherent | hodei-app/internal/adapters/outgoing/repository/iam/token_repository.go:85-332 | Every unexpired cache entry has an identical row of its type, over every such run, restarts of the process included, and the collection is that of the cache-free repository |
| TokenRepositories.ValidateAgrees | hodei-app/internal/adapters/outgoing/repository/iam/token_repository.go:243-332 | On coherent caches cached and plain verdicts accept alike; the exceptions, the expiry instant and an unanswered query, are pinned down |
| TokenRepositories.AtLastMomentReachable | hodei-app/internal/adapters/outgoing/repository/iam/token_repository.go:60-64 | Storing any token, waiting for its lifetime and the collection's own deletion lead to the excepted instant |
| TokenRepositories.StoreCoherent | hodei-app/internal/adapters/outgoing/repository/iam/token_repository.go:112-173 | A store keeps coherence whether the insert succeeds, is a duplicate, fails, or fails after taking effect |
| TokenRepositories.StoredIsAccepted | hodei-app/internal/adapters/outgoing/repository/iam/token_repository.go:112-173 | A stored token is accepted for its user up to and including its expiry, without asking the collection |
| TokenRepositories.UnstoredMeaning | hodei-app/internal/adapters/outgoing/repository/iam/token_repository.go:132-138 | After a failed store the token is what the collection makes of it: the duplicate, the write that arrived all the same, or nothing |
| TokenRepositories.DeletedIsInvalid | hodei-app/internal/adapters/outgoing/repository/iam/token_repository.go:176-207 | A confirmed deletion makes the token invalid and changes no other verdict |
| TokenRepositories.DeletedUserHasNoTokens | hodei-app/internal/adapters/outgoing/repository/iam/token_repository.go:210-240 | A deletion of a user's tokens whose steps all succeed leaves none of them valid and changes no verdict about another user's |
| TokenRepositories.ValidationFillsCache | hodei-app/internal/adapters/outgoing/repository/iam/token_repository.go:260-285 | A cache miss asks the collection, or reports its error; what it accepts is accepted from the cache from then on |
| TokenRepositories.CleaningMeaning | hodei-app/internal/adapters/outgoing/repository/iam/token_repository.go:85-104 | The clean-up drops exactly the expired entries, and asking for an expired entry drops it |
| TokenRepositories.MemoryCachedTokenRepository.constructor | hodei-app/internal/adapters/outgoing/repository/iam/token_repository.go:66-72 | A new process starts with empty caches over whatever the collection holds |
| TokenRepositories.DeleteUserNeedsListing | hodei-app/internal/adapters/outgoing/repository/iam/token_repository.go:210-240 | For every coherent repository and every outcome of the deletion, the repository stays coherent if and only if the found rows were listed, or none of the rows that go belongs to a cached unexpired token |
| TokenRepositories.UnlistedTokenSurvives | hodei-app/internal/adapters/outgoing/repository/iam/token_repository.go:221-234 | A concrete deletion whose listing fails, after which the cache still accepts the deleted token |
| TokenRepositories.InterleavedFillResurrects | hodei-app/internal/adapters/outgoing/repository/iam/token_repository.go:176-286 | A validation that read a live row before a deletion and fills the cache after it makes the deleted token acceptable again |
| TokenRepositories.MemoryCachedTokenRepository.Store | hodei-app/internal/adapters/outgoing/repository/iam/token_repository.go:112-173 | Cache first, then the collection, and the entry is removed on any error |
| TokenRepositories.MemoryCachedTokenRepository.Delete | hodei-app/internal/adapters/outgoing/repository/iam/token_repository.go:176-207 | The cache entry goes in any case, the row of that type as the reply says |
| TokenRepositories.MemoryCachedTokenRepository.DeleteUserTokens | hodei-app/internal/adapters/outgoing/repository/iam/token_repository.go:210-240 | Find error, listing error and delete error each leave exactly the state the code leaves |
| TokenRepositories.MemoryCachedTokenRepository.Validate | hodei-app/internal/adapters/outgoing/repository/iam/token_repository.go:243-332 | Cache hit, expired entry, query error, missing or expired row and cache fill, with the resulting state |
| TokenRepositories.MemoryCachedTokenRepository.WithoutExpired | hodei-app/internal/adapters/outgoing/repository/iam/token_repository.go:92-103 | The clean-up loop keeps exactly the entries that have not expired |
| TokenRepositories.MemoryCachedTokenRepository.CleanExpiredTokens | hodei-app/internal/adapters/outgoing/repository/iam/token_repository.go:85-104 | Both caches lose their expired entries and nothing else |
| AuthServices.OneLiveTokenPerLineage | hodei-app/internal/domain/application/iam/auth_service.go:125-188 | In every run a login and the refreshes that descend from it have at most one acceptable refresh token |
| AuthServices.ConsumedIsRefused | hodei-app/internal/domain/application/iam/auth_service.go:149-152 | A refresh token whose deletion was confirmed is refused for ever, whatever happens in between and whatever the collection answers |
| AuthServices.LoggedOutIsRefused | hodei-app/internal/domain/application/iam/auth_service.go:120-122 | An access token whose logout succeeded is never validated again |
| AuthServices.AcceptedWithinClaims | hodei-app/internal/domain/application/iam/token_service.go:157-192 | An acceptable refresh token is before its exp claim (section 4.1.4 of RFC 7519) and its stored user is the claimed one |
| AuthServices.RefreshRotates | hodei-app/internal/domain/application/iam/auth_service.go:149-187 | A granted refresh has consumed the prior token and made the new one acceptable, for the same user and lineage |
| AuthServices.LoginStartsLineage | hodei-app/internal/domain/application/iam/auth_service.go:82-116 | A granted login makes its token acceptable in a new lineage and changes no other token's acceptability |
| AuthServices.LoginOutcome | hodei-app/internal/domain/application/iam/auth_service.go:65-106 | Wrong credentials and a failed signature are refused with nothing changed; otherwise the login is granted exactly if both stores succeed |
| AuthServices.RefreshOutcome | hodei-app/internal/domain/application/iam/auth_service.go:125-178 | The answer to a refresh is the error of the first check, deletion, signature or store that fails, and the new pair if none does |
| AuthServices.EarlyRefusalCostsNothing | hodei-app/internal/domain/application/iam/auth_service.go:127-147 | A refresh refused before the deletion leaves every token exactly as acceptable as it was |
| AuthServices.AccessAfterLogin | hodei-app/internal/domain/application/iam/auth_service.go:98-106 | After a login the access token is valid for its user until it expires exactly if it stays stored: the login was granted, a lost write arrived, or the clean-up failed |
| AuthServices.GrantedAccessIsValid | hodei-app/internal/domain/application/iam/auth_service.go:170-178 | The access token of a stored pair is valid until it expires, even while the collection does not answer |
| AuthServices.LogoutKeepsRefreshTokens | hodei-app/internal/domain/application/iam/auth_service.go:120-122 | Logging out leaves every refresh token exactly as acceptable as it was |
| AuthServices.LogoutRefuses | hodei-app/internal/domain/application/iam/auth_service.go:120-122 | A confirmed logout makes the access token invalid at once and records it as gone |
| AuthServices.PairKeepsInvariant | hodei-app/internal/domain/application/iam/auth_service.go:94-106 | Storing a fresh pair, including the clean-up after a half-failed store, keeps one stored refresh token per lineage |
| AuthServices.RunKeepsInvariant | hodei-app/internal/domain/application/iam/auth_service.go:65-188 | What is stored was issued, what is gone stays gone, one token per lineage: kept over every run of logins, refreshes, logouts, expiry, clean-up, user deletion and restarts |
| AuthServices.AuthenticationService.StoreNewPair | hodei-app/internal/domain/application/iam/auth_service.go:98-106 | The second store's failure deletes the access token again |
| AuthServices.AuthenticationService.Login | hodei-app/internal/domain/application/iam/auth_service.go:65-117 | Wrong credentials change nothing; each refusal and the grant with the resulting session |
| AuthServices.AuthenticationService.RefreshToken | hodei-app/internal/domain/application/iam/auth_service.go:125-188 | Each refusal and the grant with the resulting session, in the order of the checks |
| AuthServices.AuthenticationService.Logout | hodei-app/internal/domain/application/iam/auth_service.go:120-122 | Deletes the access token and answers whether the collection confirmed it |
| AuthServices.AuthenticationService.ValidateAccess | hodei-app/internal/domain/application/iam/auth_service.go:191-210 | Valid exactly when the repository accepts the token for the claimed user; nothing new becomes acceptable |
| FileUploads.UploadReassembles | remote_worker/internal/application/services/sync_service.go:151-228 | For every tiling by literal and delta pieces sent in any order, the destination ends as the intended bytes followed by what the old file held beyond them, every byte counted once, the handle closed and no other file changed, if and only if no piece reads a byte of the destination that an earlier one changed |
| FileUploads.PiecesStream | remote_worker/internal/adapters/grpc/sync_handler.go:67-85 | The session keeps the right bytes and the right count after every piece |
| FileUploads.SpoiledStream | remote_worker/internal/application/services/sync_service.go:362-392 | The first piece that reads a changed byte makes the upload fail or end with a wrong byte |
| FileUploads.TilesCover | remote_worker/internal/application/services/sync_service.go:198-201 | The pieces of a tiling cover every byte and their sizes add up to the total |
| FileUploads.TilesDisjoint | remote_worker/internal/application/services/sync_service.go:151-228 | In whatever order they are sent, no two pieces cover the same byte |
| FileUploads.WrittenAt | remote_worker/internal/application/services/sync_service.go:190-190 | WriteAt overwrites its range, extends the file as far as needed, fills a gap with zeros and changes no other byte |
| FileUploads.DeltaOutcome | remote_worker/internal/application/services/sync_service.go:362-392 | A delta chunk is accepted exactly if its block can be read and has the checksum; a wrong checksum changes nothing, and the bytes written have the checksum |
| FileUploads.LiteralOutcome | remote_worker/internal/application/services/sync_service.go:190-191 | A literal chunk for an open upload is accepted exactly if its offset is not negative, with that new file and count |
| FileUploads.FailureChangesNoFile | remote_worker/internal/application/services/sync_service.go:193-195 | A chunk that is answered with a failure has changed no file |
| FileUploads.ClosedOutcome | remote_worker/internal/application/services/sync_service.go:201-213 | For a closed upload only a chunk that writes nothing and is not the last one is accepted |
| FileUploads.RequestOutcome | remote_worker/internal/adapters/grpc/sync_handler.go:61-72 | Metadata opens the file without touching what it holds or ends the stream; a chunk without metadata ends the stream |
| FileUploads.AnswersInOrder | remote_worker/internal/adapters/grpc/sync_handler.go:74-84 | Every piece of a stream that does not fail is answered once and in order, with the bytes so far and whether it was the last |
| FileUploads.ClosedUploadIsFrozen | remote_worker/internal/application/services/sync_service.go:208-215 | After the last chunk no sequence of chunks changes any file until new metadata arrives |
| FileUploads.SameFileDeltaFails | remote_worker/internal/application/services/sync_service.go:362-392 | A concrete upload with the destination as its own source that is not reassembled |
| FileUploads.SyncHandler.InitiateFileUpload | remote_worker/internal/application/services/sync_service.go:151-179 | Opens without truncating, creates a missing file, or fails with nothing changed |
| FileUploads.SyncHandler.WriteChunk | remote_worker/internal/application/services/sync_service.go:186-196 | The errors and the effect of a write on the handle |
| FileUploads.SyncHandler.ProcessFileChunk | remote_worker/internal/application/services/sync_service.go:181-228 | Source, range, checksum, write and close errors and the new file, progress and handle state; DeltaOutcome and LiteralOutcome say what that amounts to |
| FileUploads.SyncHandler.HandleRequest | remote_worker/internal/adapters/grpc/sync_handler.go:61-84 | One message of the stream, with the error for a chunk before any metadata |
| FileUploads.SyncHandler.SyncFilesStream | remote_worker/internal/adapters/grpc/sync_handler.go:50-87 | The session loop handles the messages in order and stops at the first error |
| SyncDiff.CalculateChanges | remote_worker/internal/application/services/sync_service.go:537-576 | The list holds exactly the changes that are called for, each path once, whatever the order of the maps |
| SyncDiff.ListedMeaning | remote_worker/internal/application/services/sync_service.go:537-576 | A path is listed exactly when the target lacks it, the two entries disagree in checksum, or in size, time by more than a second or asked-for mode, or only the target has it and deletion is on |
| SyncDiff.PatchMeaning | remote_worker/internal/application/services/sync_service.go:537-576 | Applying such a list touches exactly the listed paths, with the listed result |
| SyncDiff.PatchSynchronises | remote_worker/internal/application/services/sync_service.go:712-735 | Every order of the list turns the target into the same listing |
| SyncDiff.RoundLeavesAgreement | remote_worker/internal/application/services/sync_service.go:712-735 | After a round every file of the source is in the target and agrees with it in what the options compare; an entry that agreed before is kept |
| SyncDiff.DiffConverges | remote_worker/internal/application/services/sync_service.go:537-576 | After applying the list in any order the next diff is empty; with deletion the paths are those of the source, without it no target-only path has changed |
| DirectoryScan.ScanDirectory | remote_worker/internal/application/services/sync_service.go:464-503 | The pruned walk returns what filtering the walk of the whole tree returns, in the same order, for every tree and depth |
| DirectoryScan.ScanEntry | remote_worker/internal/application/services/sync_service.go:468-500 | The same for every subtree that the walk reaches |
| DirectoryScan.ShouldSkipFile | remote_worker/internal/application/services/sync_service.go:687-710 | Skipped exactly when an exclusion matches or there are inclusions and none matches |
| DirectoryScan.SkippedMeaning | remote_worker/internal/application/services/sync_service.go:687-710 | Exclusion wins; without inclusions everything else stays, with them only what one of them matches |
| DirectoryScan.FailsExactlyOnReachedErrors | remote_worker/internal/application/services/sync_service.go:469-471 | The scan fails if and only if an entry at most one level past the limit cannot be read |
| DirectoryScan.ScanIsSelection | remote_worker/internal/application/services/sync_service.go:464-503 | Without such an entry the result is the sequence of all files within the limit that pass the filters |
| DirectoryScan.SelectMembers | remote_worker/internal/application/services/sync_service.go:464-503 | A path is returned exactly for a file within the depth limit that no exclusion matches and, if there are inclusions, one of them matches |
| DirectoryScan.DeepAreUnreached | remote_worker/internal/application/services/sync_service.go:480-484 | Below a directory past the limit nothing can be reached |
| Authorization.AuthorizationService.Authorize | hodei-app/internal/domain/application/iam/authorization_service.go:113-135 | True exactly when some direct or inherited role, cached for the resource's organization and project, has a permission each of whose components is a star or equal and which lists the action or admin |
| Authorization.AuthorizeRefinesTriples | hodei-app/internal/domain/application/iam/authorization_service.go:42-48 | After any history of updates with colon-free organizations and projects, string-keyed caches decide as maps keyed by triples do |
| Authorization.DecidesAsTriplesIffColonFree | hodei-app/internal/domain/application/iam/authorization_service.go:113-135 | For every resource, string keys decide as triples do after every colon-free history and for all subjects and actions, if and only if its organization and project are free of colons |
| Authorization.GrowingNeverRevokes | hodei-app/internal/domain/application/iam/authorization_service.go:113-135 | More roles, groups, memberships and actions and more general patterns never take away access |
| Authorization.MatchesIsPreorder | hodei-app/internal/domain/application/iam/authorization_service.go:216-230 | Pattern matching is reflexive, transitive and antisymmetric |
| Authorization.WildcardMeaning | hodei-app/internal/domain/application/iam/authorization_service.go:216-230 | A star in any component matches whatever the resource has there, and without stars only the resource itself matches |
| Authorization.AdminMeaning | hodei-app/internal/domain/model/iam.go:110-115 | A permission with admin permits every action, any other one exactly those it lists |
| Authorization.GrantedMeaning | hodei-app/internal/domain/application/iam/authorization_service.go:113-135 | The decision spelt out in keys, role names, stars and actions |
| Authorization.UpdateMeaning | hodei-app/internal/domain/application/iam/authorization_service.go:32-59 | A lookup finds the entity put, nothing after a deletion, and under any other key what was there |
| Authorization.KeyInjective | hodei-app/internal/domain/application/iam/authorization_service.go:42-48 | Keys determine organization, project and name where the first two are free of colons |
| Authorization.KeysCollide | hodei-app/internal/domain/application/iam/authorization_service.go:42-48 | With a colon in a project two different roles have one key |
| Authorization.KeyUniqueIffColonFree | hodei-app/internal/domain/application/iam/authorization_service.go:42-48 | No other organization, project and name have the same key if and only if none of the three contains a colon |
| Authorization.CollisionChangesDecisions | hodei-app/internal/domain/application/iam/authorization_service.go:113-135 | For all names, two cached roles with one key deny an access that triples grant, and put in the other order grant one that triples deny |
| Authorization.ParsePrint | hodei-app/internal/domain/model/iam.go:59-77 | Printing a parsed URN gives the input back, and its parts are free of colons |
| Authorization.PrintParse | hodei-app/internal/domain/model/iam.go:59-77 | Parsing a printed URN gives the record back if and only if no part contains a colon |
| Authorization.ParseInOrder | hodei-app/internal/domain/model/iam.go:66-77 | The parts are read as system, organization, project and resource |
| Authorization.ParsesIffThreeColons | hodei-app/internal/domain/model/iam.go:66-70 | A text is a URN if and only if it has three colons |
| Authorization.MatchesResourcePattern | hodei-app/internal/domain/application/iam/authorization_service.go:216-230 | The early exits decide the conjunction of the four component matches |
| Authorization.ContainsAction | hodei-app/internal/domain/model/iam.go:118-125 | The loop finds the action if and only if it is listed |
| Authorization.RoleAllowsAction | hodei-app/internal/domain/application/iam/authorization_service.go:207-214 | Some permission matches the resource and lists the action or admin |
| Authorization.PutRefines | hodei-app/internal/domain/application/iam/authorization_service.go:36-57 | Putting under a string key is putting under the triple |
| Authorization.RemoveRefines | hodei-app/internal/domain/application/iam/authorization_service.go:164-167 | Deleting a string key is deleting the triple |
| Authorization.AuthorizationService.CreateOrUpdateRole | hodei-app/internal/domain/application/iam/authorization_service.go:32-40 | The cache changes only after the repository has stored the role |
| Authorization.AuthorizationService.CreateOrUpdateGroup | hodei-app/internal/domain/application/iam/authorization_service.go:51-59 | The cache changes only after the repository has stored the group |
| Authorization.AuthorizationService.DeleteRole | hodei-app/internal/domain/application/iam/authorization_service.go:151-170 | Removes the entry of the fetched role, fails with nothing changed, or crashes exactly when the repository returns neither a role nor an error |
| Authorization.AuthorizationService.DeleteGroup | hodei-app/internal/domain/application/iam/authorization_service.go:172-191 | The same for groups |
| Authorization.AuthorizationService.SyncCache | hodei-app/internal/domain/application/iam/authorization_service.go:72-93 | Puts every listed role and then every listed group, keeps all else, and keeps the roles when listing the groups fails |
| Pagination.PagesPartition | hodei-app/internal/adapters/outgoing/repository/generic/read_repository.go:130-145 | Pages one to TotalPages concatenate to the whole list without gap or overlap, and exactly the later ones are empty |
| Pagination.FindByCriteria | hodei-app/internal/adapters/outgoing/repository/generic/read_repository.go:105-156 | Content, totals, page and size, which are 1 and 10 where they are not positive, and both flags for every list, page and size, including the error cases |
| Pagination.PageIsRightIffItFits | hodei-app/internal/adapters/outgoing/repository/generic/read_repository.go:159-174 | For every list, page and size, the query answers with the page asked for if and only if the offset fits 64 bits or wraps to a position past the list |
| Pagination.AllListsPagedRight | hodei-app/internal/adapters/outgoing/repository/generic/read_repository.go:159-174 | The query is right for all lists at once if and only if the offset fits 64 bits or wraps to the largest int |
| Pagination.FindReturnsPage | hodei-app/internal/adapters/outgoing/repository/generic/read_repository.go:159-174 | Where the offset fits 64 bits the query with skip and limit returns the page that was asked for |
| Pagination.NextMeaning | hodei-app/internal/adapters/outgoing/repository/generic/read_repository.go:140-145 | There is a next page exactly when elements remain after this one |
| Pagination.ConvertDocuments | hodei-app/internal/adapters/outgoing/repository/generic/read_repository.go:188-198 | All documents converted in order, or failure exactly when one does not convert |
| RoundRobins.PicksExactly | hodei-app/internal/domain/application/scheduler/round_robin.go:36-43 | The exact number of times each candidate is picked in k picks among n |
| RoundRobins.PicksAreFair | hodei-app/internal/domain/application/scheduler/round_robin.go:36-43 | Each of n candidates is picked k/n times, rounded down or up, after any earlier picks, even among more candidates |
| RoundRobins.RoundRobin.constructor | hodei-app/internal/domain/application/scheduler/round_robin.go:14-16 | The turn starts before the first candidate |
| RoundRobins.RoundRobin.Pick | hodei-app/internal/domain/application/scheduler/round_robin.go:36-43 | The next candidate in turn with the index in range whatever the number of candidates was before; no candidates, no change |
| RoundRobins.RoundRobin.SelectCandidateNodes | hodei-app/internal/domain/application/scheduler/round_robin.go:18-26 | The matching pools in their order |
| RoundRobins.MatchingMembers | hodei-app/internal/domain/application/scheduler/round_robin.go:18-26 | A pool is a candidate exactly when it is listed and matches |
| RoundRobins.MatchingInOrder | hodei-app/internal/domain/application/scheduler/round_robin.go:18-26 | The candidates are the pools at the matching places, one for each |
| RoundRobins.PlacesIncrease | hodei-app/internal/domain/application/scheduler/round_robin.go:18-26 | These places come in the order of the list |
| RoundRobins.PlacesMeaning | hodei-app/internal/domain/application/scheduler/round_robin.go:18-26 | They are exactly the places whose pool matches |
| Migrations.ResumeEqualsCleanRun | hodei-app/internal/adapters/outgoing/repository/migrations/migration_manager.go:98-137 | After any number of failed runs one clean run leaves the database as a clean run at the start would: every pending script exactly once, in order |
| Migrations.RunAppliesPrefix | hodei-app/internal/adapters/outgoing/repository/migrations/migration_manager.go:117-133 | A run applies a prefix of the pending scripts, each once and in order, and stops early only with an error |
| Migrations.RunStopsAtFailure | hodei-app/internal/adapters/outgoing/repository/migrations/migration_manager.go:117-133 | A run over fresh pending scripts succeeds exactly if each of their attempts does |
| Migrations.ApplyMeaning | hodei-app/internal/adapters/outgoing/repository/migrations/migration_manager.go:208-235 | Script and record take effect together or not at all, and a rolled-back attempt changes neither |
| Migrations.PendingAfterPrefix | hodei-app/internal/adapters/outgoing/repository/migrations/migration_manager.go:122-126 | What is pending after a prefix was recorded is the rest |
| Migrations.CleanRunNeedsDistinctVersions | hodei-app/internal/adapters/outgoing/repository/migrations/migration_manager.go:118-132 | A run without failures of its own succeeds if and only if no two pending scripts share a version |
| Migrations.SecondOfTwoIsLost | hodei-app/internal/adapters/outgoing/repository/migrations/migration_manager.go:118-132 | In any file list, after any number of runs with any failures, a script that is not the first of its version has never been applied |
| Migrations.NotFirst | hodei-app/internal/adapters/outgoing/repository/migrations/migration_manager.go:117-120 | A file that another one of the same version precedes is not the first of its version |
| Migrations.RerunReportsSuccess | hodei-app/internal/adapters/outgoing/repository/migrations/migration_manager.go:118-132 | With two such files the first run fails on the second one, and the next run reports success without it |
| Migrations.MigrationManager.ApplyOne | hodei-app/internal/adapters/outgoing/repository/migrations/migration_manager.go:197-239 | Script and record take effect together or not at all; a recorded version is refused |
| Migrations.MigrationManager.RunMigrations | hodei-app/internal/adapters/outgoing/repository/migrations/migration_manager.go:98-137 | The loop skips what was recorded when it began and stops at the first error |

## Left out

- gRPC, HTTP and WebSocket transport, TLS, Docker, Kubernetes, MongoDB and Postgres clients and metrics collection: foreign calls; a collection is a map with a unique key whose operations can fail.
- JWT signatures, bcrypt and SHA-256: an authentic token is one that was issued, credentials are a parameter, the hash is an arbitrary function. Identifiers of new tokens and of new executions are assumed fresh.
- Atomicity of token calls: each method of the repository and of the authentication service is one step; `InterleavedFillResurrects` shows what goes wrong otherwise. In `AuthServices` the stored expiry is the exp claim itself, without the drift between computing the duration and storing it.
- Sub-millisecond times: the source's cache keeps nanoseconds and the collection milliseconds, so the instant that `ValidateAgrees` excepts lasts up to a millisecond there.
- Output messages, timeouts and log texts of the task body: `Complete` may happen at any time in the loop. Messages that fill the output channel can block a task at other places too.
- The manager's operation channel (nothing sends on it), `SetConcurrencyLimit`, `StopTask` and `Stop` beyond the end of the dispatcher goroutine.
- Fairness: a task that arrives when a slot is free may overtake parked ones; no claim says when a given task starts.
- Failures before a process has started (pipes, start): one error message and a close on a channel that nobody has seen. `LocalProcessExecutor.Stop` and `MonitorHealth`, and several processes sharing the health mutex, whose consumers would have to be live too; process identifiers are assumed distinct.
- What ends a stream early: in the model a scanner may end at any time, as it does on a line of more than 64 KiB.
- Percentages and statistics of uploads, write errors in the middle of a chunk, source files that exist but cannot be read, and one file under two paths. A negative delta length makes the source panic; here it ends the stream with an error.
- `copyFileWithProgress` (its `break` leaves only the select, so the copy loop does not end at the end of the file), `applyChange` on real paths (it uses the relative path as source and as destination), the delta stubs, `ListFiles`, `scanDirectoryWithMetadata` and bandwidth limits. Patching is defined on metadata maps.
- The role and group database adapters, document converters, CRUD services and validation tags: field copying.
- Failures while counting or reading documents in `FindByCriteria`, and of the migration table or the script listing: they end the call before it has changed anything. Sorting of file names and of documents: the lists are given sorted.
- Pick: does not model concurrent calls; the source updates its field without a lock.
- `Epvm.Score` and other floating-point scores.
