# Verification of simple_db

A Dafny model of the two cores of simple_db, with proofs that hold for every input, every run and every reachable state.

**The transaction protocol** (`src/tx`). Clients run START, PUT, ..., PUT, COMMIT against one server that keeps a
multi-version store and commits optimistically. The classes `RequestsManager`, `TxParticipant`, `ClientTx`, `Client`,
`ServerTx`, `Server`, `Storage`, `Retrier`, `Clock` and `Runtime` have the fields and the methods of the program; each
method is proved equal to a function on values. Those functions are the steps of a state machine (`Protocol`): in one
step one transaction, on one side, handles any batch of its messages in flight, at a timestamp of its own. The network
is a set of messages, so any delivery order, delay and grouping is allowed; nothing is lost or duplicated. One inductive
invariant (`Safety.Inv`, built from the invariant of a single transaction in `Channel`) gives the safety theorems for
every run. The tick runtime is a refinement of this state machine: `Runtime.RunFor` is proved to produce runs made of
ticks, and ticks give the bound on the time to a decision and the order in which puts arrive. `Deployment.RunAll` builds
a server and any number of clients, registers and runs them, and shows that every transaction's object is decided and
that the server's storage is as the decisions say.

**The storage engine** (`src/buffer_pool`, `src/table`, `src/transform`). `ClockCache`, `FramePool`, `File`,
`FixedTablePage`, `Marshal` and `Table` keep the bytes in one array, as the program does. The top result is that a table
over a pool of any size is an append-only map from row ids to rows (`Table.InsertRow`, `Table.GetRow`), whatever is
evicted in between: any mix of inserts and gets on two tables that share a pool is answered as two plain lists would
(`TableRuns.Replay`), and the rows are still there after a restart (`TableRuns.Restart`, `TableRuns.StoreRestartRead`).

Files: `tx_types`, `storage`, `retrier`, `server_tx`, `requests_manager`, `tx_participant`, `client_tx`, `server`,
`client`, `delivery`, `runtime` and `deployment` hold the program's parts; `protocol` the state machine; `channel*`,
`store_safety`, `safety`, `theorems` and `timing` the safety proofs; `progress`, `progress_ticks`, `actor_ticks`,
`tick_turns` and `put_order` the proofs about ticks; `clock_cache`, `frame_pool`, `marshal`, `pool_usage`,
`fixed_table_page`, `table` and `table_runs` the storage engine.

## What the code needs from its callers

These conditions appear as `requires` clauses, with two exceptions: where there is one descriptor, a `File` object is
all there is of a file, and the results hold for the empty schema as well. The lemma named with each condition says
exactly what depends on it.

- The declared lengths of a schema leave room for its values. The codec writes `sizeof(T)` bytes, but slots are laid out
  by the declared `length` (`src/transform/marshal.cpp:13-17`, `:38-51`). On any page, one just allocated included, a
  row stays readable after an insert into the free slot behind it, for all rows of the schema's types, if and only if
  this holds (`FixedPages.RowsReadableIff`). Under the same condition, and no other, the free slot behind an insert
  always stays free (`FixedPages.IsolationIff`). With the schema of `example/main.cpp:11-27` the first insert into a new
  page can take the second slot as well (`FixedPages.ExampleSchemaOverlaps`).
- Rows have the schema's types. A row comes back from its bytes if and only if it has them (`Codec.RowRoundTrip`); the
  rows of `example/main.cpp:32-36` have a number in the boolean column, so none of them does
  (`FixedPages.ExampleRowsDoNotReturn`).
- No cached page has the id (0, 0), the default tag of a frame that was never used: replacing such a frame erases that
  page from the lookup table. The table and the tags stay inverse to each other if and only if the victim was used
  before or (0, 0) is not cached (`ClockEviction.ReplaceKeepsIndexIff`); with two frames, putting (0, 0) and then
  another page loses (0, 0) (`ClockEviction.DefaultTagIsLost`). Descriptors of opened files are not 0 as long as
  standard input is open.
- Some frame has no handle when a page must be loaded. The sweep ends if and only if some frame is unlocked
  (`ClockEviction.SweepEndsIff`), and a page that is not cached is loaded if and only if some frame has no handle
  (`FramePool.LoadEndsIff`).
- At least one slot fits in a page, and the insert never waits for a frame. As far as the pages go, the insert loop ends
  if and only if a slot fits (`Tables.InsertEndsIff`); otherwise it goes on past the last page, where every turn adds a
  page, and no turn ever adds a row (`Tables.TurnsAddNoRow`). With the frames taken into account, an insert returns if
  and only if a slot fits and either some frame has no handle or a page with room is cached, with all pages tried before
  it (`Table.InsertReturnsIff`).
- The declared lengths are not all 0: `Marshal::fixed_row_space` asserts so (`src/transform/marshal.h:24`). When the
  lengths leave room for the values, this says that the schema has a column (`FixedPages.NoSpaceIff`).
- The id of a row to get names a page of the file and a slot of that page. Exactly the slots below the maximal index lie
  in the page (`FixedPages.SlotInsideIff`).
- A path is open through one descriptor at a time. Bytes written through one descriptor are what another one reads if
  and only if they were that before (`BufferPool.DescriptorsAgreeIff`).
- A runtime that runs has its server and all clients registered. Filling the inboxes throws if and only if a due message
  has no registered destination (`Runtime.FillInboxes`).

Where the code differs from what its names suggest, the model follows the code: `Storage::apply` uses
`std::map::insert`, so of two puts of one transaction to the same key the first one received is stored
(`StoreSafety.FirstPut`); under the tick runtime that is the first one of the spec (`PutOrder.FirstOfSpecIsStored`). The
arm of `progress_state` that turns a rollback into COMMITTED exists in the code and is modelled; it is never taken,
neither within the tick that handles the decision (`Theorems.OneDecision`) nor later (`Theorems.OutcomeIsFinal`).

## Model

| member | source | states |
|---|---|---|
| VersionStore.InsertKeepsExisting | src/tx/storage/storage.cpp:19-24 | a version is in the history afterwards if and only if it was there before, or it is the new one and its time was free: nothing is overwritten |
| VersionStore.LastIsNewest | src/tx/storage/storage.cpp:11-17 | the last version of a key is the one with the largest time, and there is one as soon as the key has any version |
| VersionStore.Storage.GetLastVersion | src/tx/storage/storage.cpp:11-17 | the answer is a version of the key whose time bounds all others, and there is none exactly when the key has no version |
| VersionStore.Storage.ApplyPut | src/tx/storage/storage.cpp:19-24 | one put is inserted into the history of its key, all other histories stay |
| Outbox.Retrier.GetScheduled | src/tx/retrier/retrier.cpp:24-35 | everything scheduled moves, in order, behind what the caller already has; the outbox is empty afterwards |
| PutRequests.AddPutKeepsAccounting | src/tx/client/requests_manager.cpp:31-39 | asking for a put keeps the accounting: the completed count is the number of acknowledged puts, requests from `next` on are unsent and those before are sent, and the ids of sent PUTs lead one to one to the sent requests |
| PutRequests.CompleteRequestKeepsAccounting | src/tx/client/requests_manager.cpp:11-29 | the first reply to a sent put raises the count by one, a duplicate or unknown reply changes nothing, and the accounting is kept |
| PutRequests.PrepareKeepsAccounting | src/tx/client/requests_manager.cpp:41-55 | sending all pending puts keeps the accounting and leaves nothing unsent |
| PutRequests.PrepareSends | src/tx/client/requests_manager.cpp:41-55 | for any number of pending requests: one PUT each, in order, with the next message ids and the put of its own request; afterwards all are sent |
| PutRequests.PrepareIndexes | src/tx/client/requests_manager.cpp:53-53 | each new message id leads to the request its PUT was sent for; older ids lead where they did; there are no other ids |
| PutRequests.SendKeepsIndexIffIdIsFresh | src/tx/client/requests_manager.cpp:53-53 | the table of sent ids stays one to one if and only if the new id was not in use |
| PutRequests.ExportedAfterUpdate | src/tx/client/requests_manager.cpp:57-65 | the number of exported puts changes with the status of one request by what that status contributes |
| PutRequests.ExportedPositions | src/tx/client/requests_manager.cpp:57-65 | for any list, the export has one entry for each acknowledged position, with its put, in the order of the positions, and no other entry |
| PutRequests.RequestsManager.Complete | src/tx/client/requests_manager.cpp:11-29 | the request of a known, outstanding id is completed and counted once, otherwise nothing changes |
| PutRequests.RequestsManager.PrepareMessages | src/tx/client/requests_manager.cpp:41-55 | one PUT per unsent request, in order, each with a new id that is recorded for its request |
| PutRequests.RequestsManager.ExportResults | src/tx/client/requests_manager.cpp:57-65 | appends the export, which `ExportedPositions` fixes entry by entry |
| Participants.AcknowledgedKeepsAccounting | src/tx/client/tx_participant.cpp:138-153 | any batch of replies, with duplicates and strangers, keeps the put accounting |
| Participants.TxParticipant.ScheduleStart | src/tx/client/tx_participant.cpp:48-64 | one START with a new message id and a new transaction id is scheduled, and that id becomes the participant's |
| Participants.TxParticipant.ProcessRepliesStartSent | src/tx/client/tx_participant.cpp:103-136 | an empty batch changes nothing; a batch of START_ACKs opens the participant with their read timestamp; any other message, an undefined timestamp or a second opening throws |
| Participants.TxParticipant.ProcessRepliesOpen | src/tx/client/tx_participant.cpp:138-153 | every PUT_REPLY completes the request it names, other messages are ignored |
| Participants.TxParticipant.ProcessIncoming | src/tx/client/tx_participant.cpp:71-85 | which of these happens depends on the state; a participant that was not started throws |
| Participants.TxParticipant.ScheduleRequests | src/tx/client/tx_participant.cpp:87-101 | an open participant schedules its unsent puts, any other schedules nothing |
| ClientTransaction.ClientTx.GroupReplies | src/tx/client/client_tx.cpp:101-113 | for every actor, exactly the START_ACKs and PUT_REPLYs that come from it, in order |
| ClientTransaction.ReplyPositions | src/tx/client/client_tx.cpp:101-117 | the replies of a server are the batch's START_ACKs and PUT_REPLYs from it, each once, none other, in the order of the batch |
| ClientTransaction.ClientTx.DeliverReplies | src/tx/client/client_tx.cpp:115-117 | the participant is handed the replies of its own server and nothing else |
| ClientTransaction.ClientTx.ConfigureCoordinator | src/tx/client/client_tx.cpp:213-227 | the server becomes coordinator, a participant is created, its START scheduled and its transaction id taken over |
| ClientTransaction.ClientTx.SendNextPut | src/tx/client/client_tx.cpp:151-165 | at most one put per tick is asked for: the next of the spec, once its time has come |
| ClientTransaction.ClientTx.SendCommit | src/tx/client/client_tx.cpp:167-186 | COMMIT is scheduled exactly when all puts are acknowledged, its time has come and the action is COMMIT |
| ClientTransaction.ClientTx.ProcessRepliesCommitSent | src/tx/client/client_tx.cpp:244-267 | each decision message moves the state, any other message throws |
| ClientTransaction.ClientTx.Move | src/tx/client/client_tx.cpp:122-200 | the state machine of one tick, with its assertions and exceptions: START as `StartsOnTime` says, puts and COMMIT as in `NothingIsEarly`, decisions as `DecideThrowsIff` says |
| ClientTransaction.StartsOnTime | src/tx/client/client_tx.cpp:126-140 | a client that has not started sends START, with new ids, if and only if the time of the tick is not before its earliest start; before that nothing changes |
| ClientTransaction.DecideThrowsIff | src/tx/client/client_tx.cpp:244-267 | a client that waits for the decision throws if and only if the batch has a message that is not a decision |
| ClientTransaction.ClientTx.DoTick | src/tx/client/client_tx.cpp:94-211 | a tick is: replies to the participant, a move, new requests; the outbox is emptied behind the caller's messages |
| ClientTransaction.ClientTx.ExportResults | src/tx/client/client_tx.cpp:277-292 | the acknowledged puts of the participant, as `ExportedPositions` says |
| ServerTransaction.ServerTx.ProcessNotStarted | src/tx/server/server_tx.cpp:64-97 | START fixes the snapshot and the id and is answered by START_ACK; a second START would throw; other messages are ignored |
| ServerTransaction.ServerTx.FindConflict | src/tx/server/server_tx.cpp:126-150 | none if and only if no version of a put key is newer than the snapshot; otherwise the writer of the newest version of the first put key, in arrival order, that has a newer version |
| ServerTransaction.ServerTx.InstallPuts | src/tx/server/server_tx.cpp:163-166 | every put is applied at the commit time, in arrival order |
| ServerTransaction.ServerTx.ProcessOpen | src/tx/server/server_tx.cpp:99-177 | PUT is kept and answered; COMMIT is decided by the conflict test and answered by one decision |
| ServerTransaction.ServerTx.Tick | src/tx/server/server_tx.cpp:40-62 | a batch is handled message by message at one timestamp; a message for a decided transaction throws |
| ServerTransaction.LateMessagesThrow | src/tx/server/server_tx.cpp:55-57 | any message for a decided record throws, and changes nothing else |
| ServerTransaction.ThrewStays | src/tx/server/server_tx.cpp:44-59 | an exception anywhere in a batch is an exception of the tick |
| ServerActor.Server.GroupByTx | src/tx/server/server.cpp:25-35 | every transaction's messages in order of arrival; a message without a transaction id throws |
| ActorTicks.OfTxPositions | src/tx/server/server.cpp:25-35 | a transaction is handed each message of the batch with its id once, no other one, in the order of the batch |
| ServerActor.Server.GetOrCreateTx | src/tx/server/server.cpp:48-54 | a missing record is created fresh; existing records and all others are untouched |
| ServerActor.Server.TickTx | src/tx/server/server.cpp:38-41 | a record's tick, at its own timestamp, is a step of the system |
| ServerActor.Server.OnTick | src/tx/server/server.cpp:25-46 | in whatever order the records are visited, the tick is a run of the system with one step per transaction in the batch, each with all its messages; afterwards the batch is out of flight and exactly the returned messages are in |
| ServerActor.TurnDone | src/tx/server/server.cpp:37-45 | each turn takes exactly the messages of its transaction out of flight and puts its answers in, with new ids |
| ClientActor.Client.GroupByTx | src/tx/client/client.cpp:45-55 | every transaction's messages in order of arrival; messages without a transaction id are dropped |
| ClientActor.HandedHas | src/tx/client/client.cpp:59-70 | a transaction is handed exactly the messages with its id that no earlier transaction took |
| ClientActor.Client.TickTx | src/tx/client/client.cpp:71-71 | a transaction's tick, at its own timestamp, is a step of the system; other transactions keep their state |
| ClientActor.Client.OnTick | src/tx/client/client.cpp:44-81 | the tick is a run of the system with one step per transaction, in the order of the specs; afterwards the messages for these transactions are out of flight and exactly the returned messages are in |
| Delivery.TopExists | src/tx/msg/sent_message.cpp:11-15 | a queue that is not empty has a top under the order by delivery and sending time |
| Delivery.TopIsEarliest | src/tx/msg/sent_message.cpp:11-15 | the top is due no later than any other message, and was sent no later than any that is due at the same time |
| Delivery.MovedStep | src/tx/runtime/runtime.cpp:66-81 | taking the top keeps: every message is in the queue or, once, in its destination's inbox, and inboxes follow the order of the queue |
| Delivery.Joins | src/tx/runtime/runtime.cpp:27-38 | a message with a new id is queued once and nothing else changes |
| TickRuntime.Runtime.constructor | src/tx/runtime/runtime.h:31-38 | a new runtime has no actors, an empty queue and the time 0, whatever ids the process has handed out before |
| TickRuntime.Runtime.Register | src/tx/runtime/runtime.cpp:15-25 | a second actor with the same id is refused and nothing changes; otherwise the actor is added with an empty inbox, and what the runtime may change grows by exactly that actor's objects |
| TickRuntime.Runtime.SendAll | src/tx/runtime/proxy_runtime.cpp:19-30 | the proxy stamps the sender on every message; each is queued once |
| TickRuntime.Runtime.ClearInboxes | src/tx/runtime/runtime.cpp:57-64 | every inbox is empty, none is added or removed |
| TickRuntime.Runtime.FillInboxes | src/tx/runtime/runtime.cpp:66-81 | every due message is moved to its destination's inbox, once and in queue order, and no other; an unknown destination throws |
| TickRuntime.Runtime.AfterFill | src/tx/runtime/runtime.cpp:66-81 | in a valid runtime no destination is unknown, the queue is empty after the fill and each inbox holds exactly what is in flight for its actor |
| TickRuntime.Runtime.DeliverTo | src/tx/runtime/runtime.cpp:85-91 | an actor's turn uses up its whole inbox, and what it sends is queued and not delivered in this tick |
| TickRuntime.Runtime.SendToActors | src/tx/runtime/runtime.cpp:83-92 | the turns of all actors, in the order of registration, are one tick of the system, nothing throws, and afterwards the queue is exactly what is in flight |
| TickRuntime.Runtime.Tick | src/tx/runtime/runtime.cpp:41-54 | one round delivers everything sent before it, lets every client transaction tick once and the actors in the order of registration, and leaves the clock past the tick's time, moving it itself exactly if nobody ticked |
| TickRuntime.Runtime.AdvanceClock | src/tx/runtime/runtime.cpp:50-53 | the clock moves on by one and becomes the tick's time; every actor still holds its part of the state and the invariant is kept |
| TickRuntime.RoundFacts | src/tx/runtime/runtime.cpp:40-55 | a round is exactly a tick if there is a client transaction and exactly one advance of the clock if there is none |
| TickRuntime.Runtime.RunFor | src/tx/runtime/runtime.cpp:40-55 | any number of rounds is a run of the system by ticks from the runtime's state to its new state; with enough rounds every COMMIT transaction is decided; without client transactions only the clock moves |
| TickRuntime.Runtime.ReadyToRun | src/tx/runtime/runtime.cpp:15-25 | registering the server and all clients of an initial state is enough to run |
| Deployment.Deploy | tests/test_full_tx.cpp:32-77 | for any server and any clients with ids of their own, and whatever ids the process used before: building and registering them refuses none and gives a runtime that can run, in the initial state with all their transactions |
| Deployment.RunAll | tests/test_full_tx.cpp:63-88 | any number of clients with any COMMIT specs, built, registered and run for enough rounds: the object of every transaction is committed or rolled back; a committed one exports its spec, and the server's storage has, under its id and commit time, exactly the first put of each key; it has nothing under the id of a rolled back one; the runtime is new and can go on |
| Deployment.RunTwice | tests/test_full_tx.cpp:63-141 | two deployments one after the other in one process, the second starting from the ids that the first one left: afterwards every transaction of both is settled in its own server's storage |
| TickTurns.TurnsAppend | src/tx/runtime/runtime.cpp:83-92 | the turns of different actors do not repeat or miss a message or a transaction |
| TickTurns.NextInTurn | src/tx/runtime/runtime.cpp:85-91 | the steps of an actor registered earlier come before those of one registered later |
| TickTurns.Addressed | src/tx/runtime/runtime.cpp:72-78 | in every state with the invariant, a message in flight is for the server or for the client of its transaction |
| TickTurns.TurnsAreTick | src/tx/runtime/runtime.cpp:40-55 | when the server and all clients had their turns, everything in flight at the start was delivered, nothing else was, every client transaction ticked and nothing ticked twice |
| ActorTicks.HandleAllNumbered | src/tx/server/server_tx.cpp:110-171 | the ids of a server tick's messages are the next ones, without gaps |
| ActorTicks.TickNumbered | src/tx/client/client_tx.cpp:94-211 | the ids of a client tick's messages are the next ones, without gaps |
| ChannelServer.HandleBatch | src/tx/server/server_tx.cpp:40-177 | for any batch of a transaction's messages in flight, in any order: the server does not throw, answers each message once to the client, and the invariant of the transaction is kept |
| ChannelTick.TickKeepsInv | src/tx/client/client_tx.cpp:94-211 | for any batch of replies in flight, in any order: the client does not throw, no assertion fails, it sends only new messages to the server, and the invariant of the transaction is kept |
| ChannelClient.AcknowledgeBatch | src/tx/client/tx_participant.cpp:138-153 | any batch of PUT_REPLYs in flight keeps: each sent put is in exactly one of three places, PUT in flight, reply in flight, acknowledged |
| ChannelClient.BarrierReached | src/tx/client/client_tx.cpp:167-186 | when all puts sent are acknowledged nothing is in flight and the server holds exactly them, each once |
| ChannelClient.AllExported | src/tx/client/requests_manager.cpp:57-65 | the export has as many puts as there are requests if and only if all are acknowledged, and then it is all of them in order |
| Safety.StepKeeps | src/tx/server/server.cpp:25-46 | every step of every transaction keeps the invariant of the whole system |
| Safety.RunKeeps | src/tx/runtime/runtime.cpp:40-55 | so does every run |
| Safety.ServerOthers | src/tx/server/server.cpp:37-41 | a server tick changes nothing of any other transaction's client, record or messages |
| Safety.ClientOthers | src/tx/client/client.cpp:59-72 | a client tick changes nothing of any other transaction's client, record or messages |
| Theorems.NothingThrows | src/tx/server/server_tx.cpp:55-57 | in every reachable state nothing was ever thrown and no assertion failed, on either side, under any delivery order |
| Theorems.CommittedAgrees | src/tx/client/client_tx.cpp:244-267 | a client that sees COMMITTED agrees with its record on both timestamps and was told of no conflict; the record holds exactly the puts of the spec, the export is the spec's list; the store has, at that commit time and no other, one version per written key with the first put to it |
| Theorems.ExportsAreHeld | src/tx/client/client_tx.cpp:277-292 | in every reachable state, at any time of its life, a client exports only puts that its server record holds |
| Theorems.RolledBackAgrees | src/tx/client/client_tx.cpp:249-255 | a client that sees ROLLED_BACK_BY_SERVER was rolled back; the transaction it was told about is committed, wrote a common key and committed after its snapshot and before its rollback: it is the writer of the version that was then the newest of the first put key with a version newer than the snapshot; no version is tagged with the rolled back transaction |
| Theorems.RolledBackIff | src/tx/server/server_tx.cpp:126-166 | in every reachable state: a decided record was rolled back if and only if some other transaction that wrote a common key committed strictly between its snapshot and its decision |
| Theorems.OutcomeIsFinal | src/tx/client/client_tx.cpp:64-72 | once a client is decided it never changes again: a rollback never turns into COMMITTED |
| Theorems.OneDecision | src/tx/client/client_tx.cpp:244-267 | in every reachable state the batch handed to a client that waits for the decision is empty or one decision, so the state is COMMIT_SENT whenever a message of it is applied and a rollback does not turn into COMMITTED within a tick |
| Theorems.RecordsEvolve | src/tx/server/server_tx.cpp:40-177 | over any run a record's snapshot is set once, its puts only grow, and a decision with its commit time is final |
| Timing.StepStamps | src/tx/server/server_tx.cpp:71-77 | in every run the snapshot of a record is the time of the step that handled its START, its commit time is that of the step that decided it, and no other step changes the record |
| Timing.NothingIsEarly | src/tx/client/client_tx.cpp:126-186 | in every reachable state: no START, PUT or COMMIT was sent before its time in the spec; the snapshot is later than the earliest start, and the decision later than the earliest commit |
| Theorems.CommitBarrier | src/tx/server/server_tx.cpp:120-173 | when the server is handed a COMMIT, that is all that is in flight for the transaction, the record is open and it holds every put of the spec exactly once |
| Theorems.PutsAreKept | src/tx/server/server_tx.cpp:104-119 | a batch of PUTs for an open record is kept and answered put by put in the order of the batch, with the next message ids |
| Theorems.NoPutAfterCommit | src/tx/client/client_tx.cpp:167-189 | from the moment COMMIT is sent no PUT of the transaction is ever in flight |
| Theorems.IntervalsAreDisjoint | src/tx/server/server_tx.cpp:130-166 | first committer wins: two committed transactions that wrote a common key have disjoint intervals from snapshot to commit |
| Theorems.VersionsAreSeen | src/tx/server/server_tx.cpp:143-149 | of two versions of a key, the older one was committed before the snapshot of the writer of the newer one |
| Theorems.StoreIsSerial | src/tx/storage/storage.cpp:11-24 | the newest value of every key is the one left by running the committed transactions one by one in commit order, the first put to a key counting |
| Theorems.CommitOrderExists | src/tx/server/server.cpp:37-41 | commit times are distinct, so that order exists |
| Theorems.DecisionIsExact | src/tx/server/server_tx.cpp:126-159 | COMMIT rolls back if and only if some version, not just the newest, of some put key is newer than the snapshot; a rollback leaves the store alone and its message names the writer of the newest version of the first put key that has one |
| StoreSafety.ConflictTestIsExact | src/tx/server/server_tx.cpp:126-150 | testing only the newest version of each key decides the same as testing all versions, and what is answered is the writer of the newest version of the first put key that has a version newer than the snapshot |
| StoreSafety.FirstPutIsFirst | src/tx/storage/storage.cpp:19-24 | the stored put of a key is the first one in the list, and there is none if and only if the key is not in it |
| StoreSafety.ApplyAllAppends | src/tx/server/server_tx.cpp:163-166 | installing puts at a new latest time appends one version per written key, its first put, and leaves all other histories |
| StoreSafety.CommitStep | src/tx/server/server_tx.cpp:161-166 | a commit without conflict keeps: the store is exactly the installed versions, commit times are distinct, first committer wins |
| StoreSafety.RollbackHasWitness | src/tx/server/server_tx.cpp:152-159 | the conflict a rollback reports is a committed transaction with a common key and a commit time between the snapshot and the rollback, and is the first that the test meets |
| StoreSafety.AnswerKept | src/tx/server/server_tx.cpp:126-159 | what a conflict test answered can be read off the store at any later time, because versions from after the test do not count |
| StoreSafety.HandleAllKeepsStore | src/tx/server/server_tx.cpp:40-62 | any batch keeps the relation between store and records, and every conflict it reports is real |
| StoreSafety.HandleAllStamps | src/tx/server/server_tx.cpp:40-177 | a batch handled at one time sets the snapshot of a record to that time if it opens it, and the commit time if it decides it; neither is ever changed |
| Progress.ServerRank | src/tx/server/server_tx.cpp:40-177 | no batch handled by the server raises a transaction's rank, and outside OPEN every batch lowers it |
| Progress.ClientRank | src/tx/client/client_tx.cpp:122-211 | no tick raises the rank, and a tick with something to react to and nothing to wait for lowers it |
| ProgressTicks.TickRank | src/tx/runtime/runtime.cpp:40-55 | once the times of its spec have passed, each tick lowers the rank of every undecided COMMIT transaction |
| ProgressTicks.BoundedProgress | src/tx/client/client_tx.cpp:122-211 | from the initial state every COMMIT transaction of n puts is COMMITTED or ROLLED_BACK_BY_SERVER once max(0, latest - 1) + n + 7 ticks have run, whatever the others do |
| ProgressTicks.ClockAdvances | src/tx/clock/clock.cpp:16-19 | every run that is not empty advances the clock |
| PutOrder.ServerInLine | src/tx/server/server_tx.cpp:104-119 | a server tick takes the PUT that was sent first |
| PutOrder.ClientInLine | src/tx/client/client_tx.cpp:148-189 | a client tick sends at most one PUT, carrying the next put of the spec |
| PutOrder.PutsArriveInOrder | src/tx/runtime/runtime.cpp:40-55 | between ticks the puts received are a prefix of the spec's, in order, and at most the next one is on its way |
| PutOrder.CommittedInOrder | src/tx/server/server_tx.cpp:104-119 | under the tick runtime, from the tick in which COMMIT is sent on, the record's puts are exactly the spec's list, in order |
| PutOrder.FirstOfSpecIsStored | src/tx/storage/storage.cpp:19-24 | under the tick runtime the store has, for each key of a committed transaction, the first put of its spec |
| PutOrder.DecidedIsSettled | src/tx/client/client_tx.cpp:277-292 | under the tick runtime, for every decided client: if committed, it exports its spec, and a version with its id is in the store exactly if it has its commit time and is the first put of its spec to that key; if rolled back, none is |
| ClockEviction.VictimIsUnique | src/buffer_pool/clock_cache.h:37-46 | the closed form (first frame clockwise from the cursor among the unlocked frames of least usage) determines the victim |
| ClockEviction.LeastUsage | src/buffer_pool/clock_cache.h:41-43 | with an unlocked frame there is a least usage among the unlocked frames |
| ClockEviction.MidwayStep | src/buffer_pool/clock_cache.h:38-46 | one advance of the sweep keeps its closed form: laps, position in the lap, and what each frame has lost |
| ClockEviction.MidwayEnd | src/buffer_pool/clock_cache.h:38-46 | when the sweep stops it is at the victim, after as many laps as the least usage |
| ClockEviction.HitsCount | src/buffer_pool/clock_cache.h:27-35 | after any list of hits each usage has grown by the number of hits on its frame |
| ClockEviction.MoreHitsStay | src/buffer_pool/clock_cache.h:27-46 | of two frames of which the first was not used less, the one hit more often is not the victim while the other is unlocked |
| ClockEviction.SweepStops | src/buffer_pool/clock_cache.h:38-46 | with an unlocked frame the sweep, advance by advance, stops after exactly m * capacity + offset advances at the victim, in the closed form, and at none before |
| ClockEviction.SweepEndsIff | src/buffer_pool/clock_cache.h:38-46 | some number of advances reaches a frame that ends the sweep if and only if some frame is unlocked |
| ClockEviction.ReplaceKeepsIndexIff | src/buffer_pool/clock_cache.h:48-54 | replacing a page keeps table and tags inverse if and only if the victim was used before or the default tag is not cached |
| ClockEviction.DefaultTagIsLost | src/buffer_pool/clock_cache.h:48-54 | in a cache of two frames that holds the default tag, putting any other page makes the default tag a miss, although its frame was not chosen |
| ClockEviction.ClockCache.constructor | src/buffer_pool/clock_cache.h:19-24 | all descriptors are unused, unlocked and have the default tag |
| ClockEviction.ClockCache.Get | src/buffer_pool/clock_cache.h:27-35 | a cached page's frame is found and used once more; otherwise nothing changes |
| ClockEviction.ClockCache.Sweep | src/buffer_pool/clock_cache.h:38-46 | with an unlocked frame the loop makes exactly the advances after which it first stops, at the victim; unlocked frames before it lost m + 1, those after it m, locked ones nothing |
| ClockEviction.ClockCache.Put | src/buffer_pool/clock_cache.h:37-60 | the victim gets the new page with usage 1 and the table follows; lookup table and tags are inverse afterwards exactly under the condition on the default tag |
| BufferPool.File.PageCount | src/buffer_pool/file.cpp:93-96 | the rounded-up quotient is the number of pages |
| BufferPool.File.Open | src/buffer_pool/file.cpp:89-91 | opening a stored file gives its pages as they are |
| BufferPool.File.AllocPage | src/buffer_pool/file.cpp:54-65 | a zero page is appended and its index returned |
| BufferPool.File.Write | src/buffer_pool/file.cpp:67-74 | one page is replaced by a frame's bytes |
| BufferPool.File.Read | src/buffer_pool/file.cpp:76-83 | a page is copied into a frame, the rest of the memory stays |
| BufferPool.ReplaceKeepsContent | src/buffer_pool/frame_pool.cpp:46-50 | writing the old page back and loading the new one changes no page's content |
| BufferPool.LoadKeepsDescribed | src/buffer_pool/frame_pool.cpp:46-50 | after a reload frames and descriptors agree, and the reused frame had no handle |
| BufferPool.PinKeepsDescribed | src/buffer_pool/frame_pool.cpp:53-56 | the reference count is the number of handles and the lock is set while there is one |
| BufferPool.UnpinKeepsDescribed | src/buffer_pool/frame_pool.cpp:61-67 | giving a handle back keeps that, and the lock is cleared with the last one |
| BufferPool.HitIsOwned | src/buffer_pool/frame_pool.cpp:40-44 | on a hit the frame belongs to the file and holds the page asked for: the assertions hold |
| BufferPool.FreeIffUnlocked | src/buffer_pool/frame_pool.cpp:53-56 | some frame is unlocked if and only if some frame has no handle |
| BufferPool.WriteChangesOnePage | src/buffer_pool/frame_pool.cpp:58-58 | bytes written into a frame are the new content of its page and of no other page |
| BufferPool.DescriptorsAgreeIff | src/buffer_pool/frame_pool.cpp:38-42 | pages are cached by descriptor: of one path open twice, bytes written through one descriptor are what the other reads if and only if they were that before |
| BufferPool.FlushStep | src/buffer_pool/frame_pool.cpp:28-33 | writing one frame back changes exactly its page in the file |
| BufferPool.FramePool.constructor | src/buffer_pool/frame_pool.cpp:19-27 | no frame is used or pinned, and the cache starts with unused frames and the cursor at the first |
| BufferPool.FramePool.DumpFrame | src/buffer_pool/frame_pool.cpp:75-78 | a used frame's page in the file becomes the frame's bytes |
| BufferPool.FramePool.ReadFrame | src/buffer_pool/frame_pool.cpp:80-88 | the frame takes over owner, page and bytes of the page, with no reference |
| BufferPool.FramePool.LoadEndsIff | src/buffer_pool/frame_pool.cpp:45-46 | the sweep for a page that is not cached ends if and only if some frame has no handle |
| BufferPool.FramePool.Load | src/buffer_pool/frame_pool.cpp:45-51 | a miss loads the page into the victim of the sweep, which had no handle; usages and cursor are as after the sweep; every page's content is kept, whichever page was evicted |
| BufferPool.FramePool.AcquireFrame | src/buffer_pool/frame_pool.cpp:35-59 | a page that is cached, or any page if some frame has no handle: the frame returned belongs to the page and holds its content; there is one more handle on it; no page's content changes and every frame with a handle keeps its page. A hit counts one use of that frame and moves nothing else; a miss takes the victim, with the usages and the cursor as after the sweep |
| BufferPool.FramePool.ReleaseFrame | src/buffer_pool/frame_pool.cpp:61-67 | there is one handle less, the frame stays cached with its usage, its lock goes with the last handle, no content changes |
| PoolUsage.TouchAll | src/buffer_pool/frame_pool.cpp:35-67 | any list of requests for cached pages, each given back, raises the usage of every page by the number of its requests and changes nothing else |
| PoolUsage.MoreRequestedStays | src/buffer_pool/clock_cache.h:27-46 | of two cached pages, the second not used more so far and without a handle: after any requests for cached pages of which more are for the first, the next miss leaves the first in the cache |
| BufferPool.FramePool.HandleShowsContent | src/buffer_pool/frame_pool.cpp:58-58 | a handle gives access to the content of its page |
| BufferPool.FramePool.WriteThroughHandle | src/buffer_pool/pool_page.cpp:16-18 | writing through a handle changes the content of its page to what was written, and no other page of any file |
| BufferPool.FramePool.PageAdded | src/buffer_pool/file.cpp:54-65 | a page added to a file is not cached and reads as zeros; nothing else changes |
| BufferPool.FramePool.Flush | src/buffer_pool/frame_pool.cpp:28-33 | after the destructor every page of every file is its defined content |
| Codec.LittleEndianRoundTrip | src/transform/marshal.cpp:13-25 | an integer that fits comes back from its bytes |
| Codec.ValueRoundTrip | src/transform/marshal.cpp:13-25 | a value of the column's type takes exactly the type's width and comes back |
| Codec.ValueBytes | src/transform/marshal.cpp:13-17 | a boolean is one byte 0 or 1; an integer is eight bytes, the least significant first, written out as a sum |
| Codec.RowRoundTrip | src/transform/marshal.cpp:60-91 | a row comes back from its bytes, whatever follows them, if and only if it conforms to the schema; then its bytes are as many as the types need |
| Codec.EncodeAdds | src/transform/marshal.cpp:60-66 | the bytes of a row are those of its values in the order of the values |
| Codec.EncodeOne | src/transform/marshal.cpp:13-17 | the bytes of a row of one value are exactly those of the value |
| Codec.SpacesAdd | src/transform/marshal.cpp:38-51 | declared lengths and real widths add up over the columns, one column counting its own |
| Codec.DecodeReadsPrefix | src/transform/marshal.cpp:68-91 | only the bytes of the row are read |
| Codec.CalculateRowSpace | src/transform/marshal.cpp:38-51 | the loop computes the sum of the declared lengths |
| Codec.SerializeRow | src/transform/marshal.cpp:60-66 | exactly the row's bytes are written, one value after the other, and nothing else changes |
| Codec.DeserializeRow | src/transform/marshal.cpp:68-91 | the loop reads one value per column at successive positions |
| FixedPages.SlotInsideIff | src/table/fixed_table_page.h:30-30 | a slot lies within the page if and only if its index is below the maximal one |
| FixedPages.NoSpaceIff | src/transform/marshal.h:22-26 | the space per row is 0, which the program asserts not to be, exactly if every declared length is 0 |
| FixedPages.SlotsDisjoint | src/table/fixed_table_page.cpp:50-53 | different slots do not overlap |
| FixedPages.PutSlotIsolated | src/table/fixed_table_page.cpp:16-24 | inserting at a slot leaves header and bytes of every other slot |
| FixedPages.PutSlotReadsBack | src/table/fixed_table_page.cpp:16-38 | the inserted row is read back from its slot, which is occupied: the assertion after the insert holds |
| FixedPages.PutSlotAddsRow | src/table/fixed_table_page.cpp:16-29 | the rows of the page gain exactly the inserted one |
| FixedPages.InsertedBytes | src/table/fixed_table_page.cpp:16-29 | inserting at slot i writes 1 at byte i * (1 + sum of the declared lengths) and the bytes of the row behind it, and no other byte |
| FixedPages.SlotAt | src/table/fixed_table_page.cpp:31-53 | slot i is read at byte i * (1 + sum of the declared lengths): the header there says whether it is taken, the row is behind it |
| FixedPages.IsolationIff | src/table/fixed_table_page.cpp:50-53 | on any page and at any slot whose successor is free, inserting a row of the schema's types never makes the successor look taken if and only if the declared lengths leave room for the values |
| FixedPages.RowsReadableIff | src/table/fixed_table_page.cpp:16-38 | on any page and at any slot, a row of the schema's types is still read back after any other one is inserted into the slot behind it, if that slot was still free, if and only if the declared lengths leave room for the values |
| FixedPages.ShortLengthsDamage | src/table/fixed_table_page.cpp:50-53 | with lengths that are too short, a row of the schema's types without a zero byte always marks the next slot as taken, whatever the page holds |
| FixedPages.ShortLengthsLose | src/table/fixed_table_page.cpp:16-38 | with lengths that are too short, the row of zeros leaves the slot behind it free and is not read back once a row is inserted there, whatever the page holds |
| FixedPages.ExampleSchemaOverlaps | example/main.cpp:11-27 | with the schema of the example, the first insert into a page just allocated can mark the second slot as taken |
| FixedPages.ExampleRowsDoNotReturn | example/main.cpp:30-37 | no row of the shape the example inserts comes back from its bytes |
| FixedPages.FixedTablePage.FindFreeSlot | src/table/fixed_table_page.cpp:40-48 | the first free slot, or none exactly when the page is full |
| FixedPages.FixedTablePage.InsertRow | src/table/fixed_table_page.cpp:16-29 | the row is added at the first free slot, byte for byte as `InsertedBytes` says, and every other row stays; a full page is unchanged; no byte outside the page changes |
| FixedPages.FixedTablePage.GetRow | src/table/fixed_table_page.cpp:31-38 | the row of an occupied slot, read as `SlotAt` says, an empty row for a free one |
| Tables.OnePageChanged | src/table/table.cpp:26-31 | a row added to one page is added to the table under that page's id, and all other rows stay |
| Tables.EarlierAreTaken | src/table/table.cpp:20-33 | all slots before the one found are occupied |
| Tables.InsertEndsIff | src/table/table.cpp:20-33 | frames aside: on any pages, some turn of the insert loop finds a slot if and only if a slot fits into a page |
| Tables.TurnsAddNoRow | src/table/table.cpp:20-33 | any number of turns that find no slot leaves the rows as they were |
| Tables.Table.TryInsert | src/table/table.cpp:25-32 | one turn of the loop, on a cached page or with a frame without handle, either inserts the row into the page or leaves all files as they read, and the latter exactly if the page is full; the page is requested once |
| Tables.Table.TakeTurn | src/table/table.cpp:20-33 | a turn adds a page exactly if the file ends at the current one, then inserts into the first free slot of that page or, exactly if it is full, moves on to the next page |
| Tables.Table.AddPage | src/table/table.cpp:21-23 | the file grows by a page of zeros that holds no row and becomes the current one; all other files stay |
| Tables.Table.InsertRow | src/table/table.cpp:19-34 | the insert ends; its id is new, the table gains exactly that row, and the file exactly its bytes in that slot, no other file changes; all smaller ids were taken; the loop runs exactly until it first finds a slot, and the file grows only when all pages were full |
| Tables.Table.InsertReturnsIff | src/table/table.cpp:19-34 | with the frames: a turn finds a slot, and every request for a page up to then comes to an end, if and only if a slot fits and either some frame has no handle or a page with room and all pages tried before it are cached |
| Tables.Table.GetRow | src/table/table.cpp:36-39 | the row inserted under the id, from a cached page or through a frame without handle; nothing changes that can be read; the page is requested once |
| Tables.Table.Undisturbed | src/table/table.cpp:19-39 | whatever else is done with the pool, a table whose file reads as before has the same rows |
| Tables.Table.EmptyFileIsDense | src/table/table.cpp:19-23 | a table on an empty file has no rows and needs no pages: the start of the dense filling |
| Tables.DenseInsert | src/table/table.cpp:19-34 | on a file with exactly the first n slots taken and ceil(n / S) pages, the next insert returns (n div S, n mod S) and leaves n + 1 slots taken and ceil((n + 1) / S) pages |
| Tables.StoreAll | example/main.cpp:30-39 | inserting any list of rows gives distinct new ids, adds exactly these rows, and on a densely filled table the ids are consecutive |
| Tables.ReadAll | example/main.cpp:41-51 | reading any list of ids gives the rows under them, whatever is evicted |
| Tables.StoreAndReadBack | example/main.cpp:30-51 | every inserted row is read back under the id its insert returned |
| TableRuns.Replay | src/table/table.cpp:19-39 | any list of inserts and gets on two tables that share a pool is answered exactly as two plain lists of rows would answer it; the pool serves the same files afterwards |
| TableRuns.Restart | src/buffer_pool/frame_pool.cpp:28-33 | after the pool is destroyed, a new pool of any size on the reopened file alone, under any descriptor, has a table with the same rows; everything about it is new |
| TableRuns.StoreRestartRead | example/main.cpp:30-51 | any rows stored, then a restart with a pool of any size, then reads under the returned ids: exactly these rows come back |

## Left out

- System calls of `File` (open, pread, pwrite, fallocate): a file is a growable sequence of 4096-byte pages; calls succeed; the initial size is a multiple of the page size.
- Reopening a path under a second descriptor while its pages are still cached, beyond the statement of `BufferPool.DescriptorsAgreeIff`.
- Several server nodes: `Discovery` of a single node always answers the same server, so a client transaction has at most one participant, held as one reference instead of a map.
- GET requests, the ROLLBACK action and retries: present in types only; the retrier sends once.
- Wrap-around of ids, usage counters, cursors and timestamps: integers are unbounded, except that `uint64` values are bounded in the codec.
- The two static counters of `Generator` are one object that all actors of a process share. Deployments may follow each other; a runtime is not run again after another one has used ids.
- `ProxyRuntime` as an object: `OnTick` returns what the actor sends and `Runtime.SendAll` stamps and queues it, which is when the program does so.
- `IActor` as an interface: the actors of a runtime are a list of server and client objects.
- The network is a set of messages: ids are never reused, so a multiset would hold each message once.
- The memory of a new pool is uninitialised in the program; no result depends on it.
- A `NullAttribute` in a row is encoded as one byte 0; the program copies one byte of an empty object, whose value is not defined. No decoding produces it.
- Logging, stream operators, hash functions, the `Store` and `Database` wrappers and smart pointers, except that releasing a page handle releases its frame.
- Message comparison and the `CreateMsg*` functions beyond ids, sender, destination and payload: constructors of `Message`.
- Tables.Table.GetRow: requires the page and slot of the id to exist, because the program reads outside the page otherwise.
- Codec.DeserializeRow: requires enough bytes for the types of the schema, which the program does not check.
