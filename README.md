# Sharded UTXO ledger: a Dafny model of its core

The system is a distributed transaction manager for a UTXO-style coin ledger. Client addresses are
split across shards. Each shard keeps a ledger made of two parts: a history of transactions keyed by
transaction id, and a balance per address holding that address's unspent transaction outputs (UTxOs).
A transaction spends UTxOs and credits transfers to destination addresses. A per-shard sequencer
stamps requests with a global timestamp and fans them out to every server of the shard. Membership,
leaders and timestamps come from ZooKeeper. A Multi-Paxos based atomic broadcast orders messages and
delivers them without gaps. gRPC records carry the domain objects between servers. A Python client
generates random transfers, transactions and atomic lists, and a test driver configures shards and
targets.

The model covers these parts, one Dafny module each:

- `Model` (model.dfy): `Transaction` as a value with field-wise equality, with its constructors,
  setters, source-address rule and id computation. `UTxO` and `Transfer` are classes, because Java
  compares them by identity. The digest function is a parameter.
- `Wire` (wire.dfy): the conversions between domain objects and gRPC records in both directions,
  the HTTP status resolution, and the retry-over-servers call.
- `Ledger` (ledger.dfy): `TransactionLedger` as a class over a history map and a balance map,
  specified by pure functions (`SpendInputs`, `CreditOutputs`, `Register`, `CheckTransaction`,
  `ListTransactionsForAddress`). The lemmas state what registration does to the balances, that
  registration is not atomic, the ledger invariant, and the approval rule. As written, the duplicate
  check looks up the source address among transaction ids, and the output total starts from one.
- `Sequencing` (sequencer.dfy): the broadcast message builders, `broadcastToShards` over the sorted
  shard list, and the sequencer and executor as classes with queues. As written, the `done` set is
  never extended, so a repeated request is executed twice (`DuplicatesBothExecuted`).
- `Reorder` (reorder.dfy): the message buffer of the Multi-Paxos atomic broadcast. It is a priority
  queue, modelled as a multiset, plus a `lastDelivered` counter. The model proves that the delivery
  log stays gap-free and that the delivered stream is numbered 1, 2, 3, …. A stale entry is never
  removed and blocks delivery for good.
- `Proposing` (proposer.dfy): the proposer's queue, `doPropose`, the per-instance round loop with
  value adoption, re-queueing of the original value, and the YES/NO replies, plus `maxByRoundNo`.
- `Naming` (naming.dfy): the ZooKeeper client's naming rules: shard of a server, node
  creation, leader selection, responsible shard and timestamp parsing, over an explicit set of nodes.
- `ClientUtils` (client_utils.dfy): the Python helpers that compute unused UTxOs from a history and
  generate random requests. Randomness is nondeterministic choice.
- `Subsets` (subsets.dfy): the test driver's shard map, ports, initial leaders and the subsets of
  shards it broadcasts to.
- `Strings` (strings.dfy): the library behaviour these files rely on: string ordering and sort
  (over Unicode code points), `Collections.min`, `Integer.parseInt`/`Long.parseLong` (ASCII digits only), `replaceFirst("^.*marker", …)`, and
  Python's stable `sorted` followed by `groupby`.
- `Wrappers` (wrappers.dfy): `Option` and `Result`.

Java `null` is `Option.None`. A thrown exception is a `Result.Err`, or an `Option<Exception>` for
a `void` method. Java `long` and `int` are bounded through subset types wherever the source's
arithmetic depends on the width.

## Model

| member | source | states |
|---|---|---|
| Model.UTxO.constructor | server/src/main/java/model/UTxO.java:18-21 | the new UTxO carries the given address and transaction id |
| Model.Transfer.constructor | server/src/main/java/model/Transfer.java:16-19 | the new transfer carries the given address and coin amount |
| Model.ComputeSourceAddress | server/src/main/java/model/Transaction.java:101-111 | the source is defined exactly when there is at least one input and all inputs share one address, and then it is that address |
| Model.TransactionIdIgnoresIdentity | server/src/main/java/model/Transaction.java:80-98 | the computed id depends only on the source and on the content of inputs and outputs, not on which objects carry them (this and the two rows below specify `ComputeTransactionId`) |
| Model.InputsTextByContent | server/src/main/java/model/Transaction.java:85-89 | the digest text of the inputs depends only on their addresses and transaction ids, in order |
| Model.OutputsTextByContent | server/src/main/java/model/Transaction.java:90-94 | the digest text of the outputs depends only on their addresses and coins, in order |
| Model.NewTransaction | server/src/main/java/model/Transaction.java:30-36 | null lists become empty; an explicit source is kept, otherwise the common input address; an explicit id is kept; otherwise the id is computed, and this throws a null pointer exception exactly when no source resolves |
| Model.NewTransactionWithId | server/src/main/java/model/Transaction.java:38-40 | timestamp -1 and a source derived from the inputs |
| Model.NewTransactionFromParts | server/src/main/java/model/Transaction.java:42-44 | timestamp -1, a derived source, and success exactly when the inputs have a common address |
| Model.Equals | server/src/main/java/model/Transaction.java:113-119 | two transactions are equal exactly when all their fields are equal |
| Model.SettersChangeOneField | server/src/main/java/model/Transaction.java:51-77 | each setter stores its value in its own field and keeps the other four; so it leaves the transaction unchanged exactly when it sets the current value, and resetting the timestamp restores the original (specifies `SetSourceAddress`, `SetInputs`, `SetOutputs`, `SetTimestamp` and `SetTransactionId`) |
| Model.ResolveStatus | server/src/main/java/grpcservice/RequestHandlerUtils.java:83 | a resolved status has the given numeric code |
| Model.ResolveStatusValue | server/src/main/java/grpcservice/RequestHandlerUtils.java:127 | every status resolves back from its own numeric code |
| Wire.TryCallServer | server/src/main/java/grpcservice/RequestHandlerUtils.java:19-33 | the servers are tried in order and the first answer is returned; the result is null only after every server was contacted and failed |
| Wire.FirstSuccessSpec | server/src/main/java/grpcservice/RequestHandlerUtils.java:19-33 | the result is null exactly when every server fails, and otherwise it is the answer of the first server that succeeds (specifies `FirstSuccess`) |
| Wire.UTxOMsgsOf | server/src/main/java/grpcservice/RequestHandlerUtils.java:157-162 | one record per UTxO, in order |
| Wire.TransferMsgsOf | server/src/main/java/grpcservice/RequestHandlerUtils.java:163-168 | one record per transfer, in order |
| Wire.TransactionMsgOf | server/src/main/java/grpcservice/RequestHandlerUtils.java:169-177 | building the record throws exactly when the source address is null |
| Wire.TransactionMsgsOf | server/src/main/java/grpcservice/RequestHandlerUtils.java:138-144 | a list converts record by record in order, and throws exactly when some transaction has no source |
| Wire.HttpResponseOf | server/src/main/java/grpcservice/RequestHandlerUtils.java:125-130 | building the response throws exactly when the status is null; otherwise the code resolves back to the status and the reason is kept |
| Wire.CreateUTxO | server/src/main/java/grpcservice/RequestHandlerUtils.java:108-110 | a fresh UTxO whose record is the given record |
| Wire.CreateTransfer | server/src/main/java/grpcservice/RequestHandlerUtils.java:111-113 | a fresh transfer whose record is the given record |
| Wire.CreateTransaction | server/src/main/java/grpcservice/RequestHandlerUtils.java:114-122 | the transaction represents the record field by field, with fresh and pairwise distinct input and output objects |
| Wire.CreateTransactionResp | server/src/main/java/grpcservice/RequestHandlerUtils.java:81-87 | the status is resolved from the code, the reason is kept, and the transaction is the first record, if any |
| Wire.CreateTransactionListResp | server/src/main/java/grpcservice/RequestHandlerUtils.java:88-95 | an empty list becomes null, and otherwise each record becomes a transaction |
| Wire.CreateUnusedUTxOListResp | server/src/main/java/grpcservice/RequestHandlerUtils.java:96-105 | an empty UTxO list becomes null, and otherwise each record becomes a UTxO |
| Wire.TransactionMsgRoundTrip | server/src/main/java/grpcservice/RequestHandlerUtils.java:114-122 | encoding a decoded transaction gives back the record |
| Wire.TransactionObjectRoundTrip | server/src/main/java/grpcservice/RequestHandlerUtils.java:169-177 | decoding an encoded transaction gives back its fields and the content of its inputs and outputs |
| Wire.HttpResponseRoundTrip | server/src/main/java/grpcservice/RequestHandlerUtils.java:125-130 | a response with a resolvable code round-trips; any other code makes the encoder throw |
| Wire.RespTransactionRoundTrip | server/src/main/java/grpcservice/RequestHandlerUtils.java:131-137 | re-encoding a decoded transaction response keeps at most the first transaction (with the exact round trip below, specifies `RespTransactionMsgOf`) |
| Wire.RespTransactionExactRoundTrip | server/src/main/java/grpcservice/RequestHandlerUtils.java:131-137 | a response with at most one transaction round-trips exactly |
| Wire.RespTransactionListRoundTrip | server/src/main/java/grpcservice/RequestHandlerUtils.java:138-144 | a transaction-list response round-trips exactly (specifies `RespTransactionListMsgOf`) |
| Wire.EmptyTransactionListBecomesNull | server/src/main/java/grpcservice/RequestHandlerUtils.java:88-95 | an empty list sent over the wire comes back as null |
| Wire.RespUnusedUTxOListRoundTrip | server/src/main/java/grpcservice/RequestHandlerUtils.java:145-154 | an unused-UTxO response round-trips exactly (specifies `RespUnusedUTxOListMsgOf`) |
| Wire.ReqTransactionMsgOf | server/src/main/java/grpcservice/RequestHandlerUtils.java:36-49 | one input record per input and one output record per output |
| Wire.ReqAtomicTxListMsgOf | server/src/main/java/grpcservice/RequestHandlerUtils.java:69-73 | one transaction record per request, the i-th being the record of the i-th request |
| Wire.ReqTransactionMsgCarriesContent | server/src/main/java/grpcservice/RequestHandlerUtils.java:36-49 | objects decoded from a request record carry the request's content |
| Ledger.SpendInputs | server/src/main/java/transactionmanager/TransactionLedger.java:44-51 | the input loop keeps the set of addresses that have a balance |
| Ledger.CreditOutputs | server/src/main/java/transactionmanager/TransactionLedger.java:54-57 | the output loop never drops an address |
| Ledger.Register | server/src/main/java/transactionmanager/TransactionLedger.java:38-60 | registration never removes a history entry or a balance |
| Ledger.SpendInputsSucceeds | server/src/main/java/transactionmanager/TransactionLedger.java:44-51 | the input loop succeeds exactly when no input meets a missing or immutable balance |
| Ledger.SpendInputsAt | server/src/main/java/transactionmanager/TransactionLedger.java:44-51 | after a successful loop, each balance has lost exactly the inputs at its address |
| Ledger.SpendInputsStopsAtFirstBlocked | server/src/main/java/transactionmanager/TransactionLedger.java:44-51 | the loop throws at the first blocked input, after removing the inputs before it |
| Ledger.CreditOutputsSucceeds | server/src/main/java/transactionmanager/TransactionLedger.java:54-57 | the output loop succeeds exactly when no new UTxO goes to an immutable balance |
| Ledger.CreditOutputsAt | server/src/main/java/transactionmanager/TransactionLedger.java:54-57 | a successful loop creates missing balances and adds exactly the new UTxOs of each address |
| Ledger.CreditOutputsKeepsFlag | server/src/main/java/transactionmanager/TransactionLedger.java:55 | crediting never changes whether a balance is immutable |
| Ledger.RegisterEffect | server/src/main/java/transactionmanager/TransactionLedger.java:38-60 | an unblocked registration records the transaction and sets each balance to old minus inputs plus new UTxOs of that address |
| Ledger.RegisterMovesUTxOs | server/src/main/java/transactionmanager/TransactionLedger.java:44-59 | every output's UTxO lands at its address, every input leaves its address, and untouched addresses are unchanged |
| Ledger.RegisterIsNotAtomic | server/src/main/java/transactionmanager/TransactionLedger.java:44-51 | a blocked input throws, leaves the history unchanged and keeps the removals of the inputs before it |
| Ledger.SpendInputsKeepsInvariant | server/src/main/java/transactionmanager/TransactionLedger.java:44-51 | the input loop keeps balances keyed by their UTxOs' address and keeps the immutable balance under a recorded id |
| Ledger.CreditOutputsKeepsInvariant | server/src/main/java/transactionmanager/TransactionLedger.java:54-57 | the output loop keeps the same invariant |
| Ledger.RegisterPreservesInvariant | server/src/main/java/transactionmanager/TransactionLedger.java:38-60 | every outcome of registration, failed ones included, keeps the ledger invariant |
| Ledger.Destinations | server/src/main/java/transactionmanager/TransactionLedger.java:91 | the output addresses, one per output, in order |
| Ledger.FirstTransferTo | server/src/main/java/transactionmanager/TransactionLedger.java:103-106 | the coins of the first transfer to the address, and none exactly when no transfer goes there |
| Ledger.CheckTransaction | server/src/main/java/transactionmanager/TransactionLedger.java:75-117 | it throws exactly when the source resolves, is not a recorded id and has no balance, and the inputs and outputs are unique; it answers CONFLICT exactly when the source address is a recorded id; any other answer is OK or BAD_REQUEST |
| Ledger.ScanInputsSucceeds | server/src/main/java/transactionmanager/TransactionLedger.java:94-111 | the input loop passes exactly when every input is valid, and then yields the inputs' total coins (with the row below, specifies `ScanInputs`) |
| Ledger.ScanInputsFirstProblem | server/src/main/java/transactionmanager/TransactionLedger.java:94-111 | the input loop reports the problem of the first invalid input |
| Ledger.CheckApprovesIff | server/src/main/java/transactionmanager/TransactionLedger.java:75-117 | the answer is OK exactly when every check passes, including inputs worth one coin more than the outputs |
| Ledger.GenesisLedgerApprovesNothing | server/src/main/java/transactionmanager/TransactionLedger.java:29-36 | a ledger holding only the genesis block approves no transaction |
| Ledger.ApprovedTransactionRegisters | server/src/main/java/transactionmanager/TransactionLedger.java:38-117 | an approved transaction registers without failure and removes its inputs from the source's balance |
| Ledger.SelectInvolvingSpec | server/src/main/java/transactionmanager/TransactionLedger.java:63-66 | the filter throws exactly when a recorded transaction has a null source, and otherwise keeps exactly the transactions from or to the address (specifies `SelectInvolving`) |
| Ledger.CompareByTimestampExact | server/src/main/java/transactionmanager/TransactionLedger.java:67 | when the timestamps differ by at most an int's range, the comparator returns their exact difference (specifies `CompareByTimestamp`) |
| Ledger.InsertByTimestamp | server/src/main/java/transactionmanager/TransactionLedger.java:67 | insertion adds exactly the one element |
| Ledger.SortByTimestamp | server/src/main/java/transactionmanager/TransactionLedger.java:67 | the sort is a permutation |
| Ledger.InsertByTimestampSorted | server/src/main/java/transactionmanager/TransactionLedger.java:67 | insertion keeps ascending timestamps when the comparator is exact |
| Ledger.SortByTimestampSorted | server/src/main/java/transactionmanager/TransactionLedger.java:67 | the sort orders by ascending timestamp when the comparator is exact |
| Ledger.ListTransactionsForAddress | server/src/main/java/transactionmanager/TransactionLedger.java:62-69 | exactly `limit` transactions when the limit is between 0 and the number involving the address; otherwise IllegalArgumentException for a negative limit and IndexOutOfBoundsException for one too large |
| Ledger.ListedTransactionsInvolveAddress | server/src/main/java/transactionmanager/TransactionLedger.java:62-69 | every listed transaction is recorded and involves the address |
| Ledger.ListTransactionsEarliestFirst | server/src/main/java/transactionmanager/TransactionLedger.java:62-69 | the list is in ascending timestamp order and no left-out involving transaction is earlier than a listed one |
| Ledger.ListTransactionsComplete | server/src/main/java/transactionmanager/TransactionLedger.java:62-69 | asking for all involving transactions lists every one of them |
| Ledger.TransactionLedger.constructor | server/src/main/java/transactionmanager/TransactionLedger.java:21-27 | an empty history and empty balances |
| Ledger.TransactionLedger.AddGenesisBlockToLedger | server/src/main/java/transactionmanager/TransactionLedger.java:29-36 | records the genesis transaction and an immutable one-UTxO balance under "GenesisTx", keeping the invariant |
| Ledger.TransactionLedger.RegisterTransaction | server/src/main/java/transactionmanager/TransactionLedger.java:38-60 | the new history, balances and exception are those of `Register`, with freshly built UTxOs, and the invariant is kept |
| Ledger.TransactionLedger.SpendAll | server/src/main/java/transactionmanager/TransactionLedger.java:44-51 | the balances and exception are those of `SpendInputs` |
| Ledger.TransactionLedger.MintOutputs | server/src/main/java/transactionmanager/TransactionLedger.java:53 | one fresh UTxO per output, with the output's address and the transaction's id |
| Ledger.TransactionLedger.CreditAll | server/src/main/java/transactionmanager/TransactionLedger.java:54-57 | the balances and exception are those of `CreditOutputs` |
| Ledger.TransactionLedger.ListUTxOsForAddress | server/src/main/java/transactionmanager/TransactionLedger.java:71-73 | the address's UTxOs, or null exactly when it has no balance |
| Ledger.TransactionLedger.ScanInputCoins | server/src/main/java/transactionmanager/TransactionLedger.java:94-111 | the loop's result is the first input problem or the inputs' coins |
| Ledger.TransactionLedger.CanProcessTransaction | server/src/main/java/transactionmanager/TransactionLedger.java:75-117 | the answer is `CheckTransaction` on the current state |
| Ledger.OutputCoins | server/src/main/java/transactionmanager/TransactionLedger.java:112 | the output total is one plus the sum of the outputs' coins |
| Ledger.HasDuplicates | server/src/main/java/transactionmanager/TransactionLedger.java:82-87 | the set-size comparison is true exactly when some element occurs twice |
| Sequencing.TransactionBroadcast | server/src/main/java/atomicbroadcast/AtomicBroadcast.java:127-136 | the message carries the given origin server, pending request id and idempotency key and the transaction's record and nothing else, and building it throws exactly when the source is null |
| Sequencing.AtomicTxListBroadcast | server/src/main/java/atomicbroadcast/AtomicBroadcast.java:137-146 | the message carries the given origin server, pending request id and idempotency key and exactly the records of the transactions, in order, and nothing else; building it throws exactly when some source is null |
| Sequencing.ListEntireHistoryBroadcast | server/src/main/java/atomicbroadcast/AtomicBroadcast.java:147-154 | the message carries the given origin server and pending request id and only the limit |
| Sequencing.ProposeAllPrefix | server/src/main/java/atomicbroadcast/AtomicBroadcast.java:159-169 | the proposals reach a prefix of the shards; the loop fails exactly when it stops early, at the first shard whose sequencer is unreachable (specifies `ProposeAll`) |
| Sequencing.ProposeInOrder | server/src/main/java/atomicbroadcast/AtomicBroadcast.java:159-169 | the loop's proposals and failure are those of `ProposeAll` |
| Sequencing.BroadcastToShards | server/src/main/java/atomicbroadcast/AtomicBroadcast.java:155-170 | the shards are visited in sorted order |
| Sequencing.BroadcastOrderIgnoresArgumentOrder | server/src/main/java/atomicbroadcast/AtomicBroadcast.java:155-157 | the order of the given shard list does not matter; proposals always go out in ascending shard order |
| Sequencing.DispatchSpec | server/src/main/java/atomicbroadcast/AtomicBroadcast.java:281-296 | a transaction is processed with the assigned timestamp, an atomic list as sent, a limit as a history request, and an empty message does nothing (specifies `Dispatch`) |
| Sequencing.ActionsOf | server/src/main/java/atomicbroadcast/AtomicBroadcast.java:281-296 | a packet causes at most one call into the manager, and exactly one when it carries a request |
| Sequencing.Executor.constructor | server/src/main/java/atomicbroadcast/AtomicBroadcast.java:272-275 | an empty packet queue and nothing processed |
| Sequencing.Executor.ExecutePacket | server/src/main/java/atomicbroadcast/AtomicBroadcast.java:281-296 | appends the packet's action to what was processed |
| Sequencing.Executor.ExecuteMsg | server/src/main/java/atomicbroadcast/AtomicBroadcast.java:190-195 | queues the packet |
| Sequencing.Executor.Run | server/src/main/java/atomicbroadcast/AtomicBroadcast.java:299-309 | takes packets in queue order and executes each |
| Sequencing.Proposal.constructor | server/src/main/java/atomicbroadcast/AtomicBroadcast.java:45-48 | the message, not yet scheduled |
| Sequencing.Proposal.Finish | server/src/main/java/atomicbroadcast/AtomicBroadcast.java:49-54 | marks the proposal scheduled |
| Sequencing.Stamped | server/src/main/java/atomicbroadcast/AtomicBroadcast.java:238-242 | only a transaction gets the timestamp, and no other field changes |
| Sequencing.FanOut | server/src/main/java/atomicbroadcast/AtomicBroadcast.java:244-252 | one call per sibling, each with the same message |
| Sequencing.Sequencer.constructor | server/src/main/java/atomicbroadcast/AtomicBroadcast.java:211-215 | empty queue, empty `done` set, no calls, and the manager's clock not yet drawn from |
| Sequencing.Sequencer.BroadcastToShard | server/src/main/java/atomicbroadcast/AtomicBroadcast.java:178-186 | queues a fresh, unscheduled proposal |
| Sequencing.Sequencer.Step | server/src/main/java/atomicbroadcast/AtomicBroadcast.java:229-254 | pops the head, marks it scheduled, and does the fan-out and local execution of `Handle` with the clock's next value; a clock value is drawn only for a single transaction that is not suppressed; `done` is unchanged |
| Sequencing.Sequencer.Run | server/src/main/java/atomicbroadcast/AtomicBroadcast.java:225-259 | runs for the given number of iterations or until the queue is empty; every popped proposal is scheduled, sent to every sibling and executed locally, in queue order, the single transactions stamped with successive clock values, and the clock advances by their number; only the popped proposals may change, and the executor's packet queue is unchanged |
| Sequencing.RunAdvances | server/src/main/java/atomicbroadcast/AtomicBroadcast.java:237-253 | one more iteration adds exactly the fan-out and the action of the next message, stamped with the clock value after the transactions before it, and draws one more value exactly when it is a transaction |
| Sequencing.RunStepAdvances | server/src/main/java/atomicbroadcast/AtomicBroadcast.java:225-259 | one iteration of `run` with an empty `done` set keeps the loop's account of calls, actions and clock draws |
| Sequencing.StampInOrderAt | server/src/main/java/atomicbroadcast/AtomicBroadcast.java:238-242 | the i-th handled message gets the clock value numbered by the count of transactions before it; other messages keep their timestamp |
| Sequencing.TxCountGrows | server/src/main/java/atomicbroadcast/AtomicBroadcast.java:238-240 | each transaction handled draws one more clock value |
| Sequencing.TransactionsStampedInClockOrder | server/src/main/java/atomicbroadcast/AtomicBroadcast.java:238-242 | when the clock strictly increases over the values the run draws, a transaction handled later gets a strictly later timestamp, whatever messages come between |
| Sequencing.NothingSuppressed | server/src/main/java/atomicbroadcast/AtomicBroadcast.java:233-253 | with an empty `done` set, every message is sent to all siblings and executed (with `Sequencer.Step`, specifies `Handle`) |
| Sequencing.DuplicatesBothExecuted | server/src/main/java/atomicbroadcast/AtomicBroadcast.java:226-253 | two requests with the same origin and request id are both executed, because `done` is never extended |
| Reorder.MinKey | server/src/main/kotlin/multipaxos/AtomicBroadcast.kt:101-104 | the head of the priority queue has the smallest sequence number |
| Reorder.Emitted | server/src/main/kotlin/multipaxos/AtomicBroadcast.kt:130-143 | the delivered messages are numbered 1, 2, 3, … with no more messages than polled entries |
| Reorder.PollKeepsLog | server/src/main/kotlin/multipaxos/AtomicBroadcast.kt:130-143 | polling the next entry keeps the log gap-free, keeps every received entry accounted for, and extends the stream by at most one message |
| Reorder.MessageBuffer.constructor | server/src/main/kotlin/multipaxos/AtomicBroadcast.kt:95-105 | empty buffer, nothing delivered, sequence number 0 |
| Reorder.MessageBuffer.Buffer | server/src/main/kotlin/multipaxos/AtomicBroadcast.kt:112-114 | adds the entry to the buffer and to what was received, changing nothing else |
| Reorder.MessageBuffer.IsLatestMessageDeliverable | server/src/main/kotlin/multipaxos/AtomicBroadcast.kt:127-128 | true exactly when the smallest buffered number is one past the last delivered |
| Reorder.MessageBuffer.DeliverLatestMessage | server/src/main/kotlin/multipaxos/AtomicBroadcast.kt:130-143 | polls a minimal entry; an empty payload emits nothing, any other payload emits one decoded message with the next sequence number |
| Reorder.MessageBuffer.DeliverAll | server/src/main/kotlin/multipaxos/AtomicBroadcast.kt:117-122 | stops only when the buffer is empty or its head is not next, and keeps the invariant |
| Reorder.MessageBuffer.OnLearned | server/src/main/kotlin/multipaxos/AtomicBroadcast.kt:78-81 | buffers the entry and then delivers all that became deliverable |
| Reorder.EmittedFromPolled | server/src/main/kotlin/multipaxos/AtomicBroadcast.kt:135-142 | each delivered message is the decoding of some polled non-empty payload |
| Reorder.EmittedPrefix | server/src/main/kotlin/multipaxos/AtomicBroadcast.kt:130-143 | later polls only extend the delivered stream |
| Reorder.StaleNeverPolledAgain | server/src/main/kotlin/multipaxos/AtomicBroadcast.kt:127-132 | a number already delivered is never delivered again |
| Reorder.StaleEntryStays | server/src/main/kotlin/multipaxos/AtomicBroadcast.kt:117-132 | a buffered duplicate of a delivered number stays in the buffer for good |
| Reorder.StaleEntryBlocks | server/src/main/kotlin/multipaxos/AtomicBroadcast.kt:117-128 | while such a duplicate is buffered, no further message is deliverable |
| Proposing.Next | server/src/main/kotlin/multipaxos/Proposer.kt:105 | the next round number is greater and keeps the proposer |
| Proposing.ScanChoice | server/src/main/kotlin/multipaxos/Proposer.kt:197-203 | the loop keeps the start value when no promise is higher, and otherwise takes the value of the first promise with the highest round |
| Proposing.MaxByRoundNoChoice | server/src/main/kotlin/multipaxos/Proposer.kt:193-205 | the empty value when no promise exceeds round (0, 0), and otherwise the value of the first promise with the highest round (specifies `MaxByRoundNoOf`) |
| Proposing.ChosenUnique | server/src/main/kotlin/multipaxos/Proposer.kt:197-203 | the chosen promise is unique |
| Proposing.MaxByRoundNo | server/src/main/kotlin/multipaxos/Proposer.kt:193-205 | the loop returns `MaxByRoundNoOf` |
| Proposing.ReplyChannel.Send | server/src/main/kotlin/multipaxos/Proposer.kt:96-97 | appends the reply |
| Proposing.Adopt | server/src/main/kotlin/multipaxos/Proposer.kt:111-112 | a non-empty promised value replaces the proposal, and an empty one keeps it |
| Proposing.Requeued | server/src/main/kotlin/multipaxos/Proposer.kt:111-116 | the original proposal is re-queued exactly when a different non-empty value was adopted |
| Proposing.YesOnlyAfterOwnCommit | server/src/main/kotlin/multipaxos/Proposer.kt:85-124 | a finished instance answers YES only after committing its own original value |
| Proposing.NoOnlyWithoutCommit | server/src/main/kotlin/multipaxos/Proposer.kt:85-101 | a finished instance answers NO only with its own value and without committing |
| Proposing.Proposer.constructor | server/src/main/kotlin/multipaxos/Proposer.kt:57-58 | an empty queue and no commits |
| Proposing.Proposer.AddProposal | server/src/main/kotlin/multipaxos/Proposer.kt:59 | appends to the queue |
| Proposing.Proposer.DoPropose | server/src/main/kotlin/multipaxos/Proposer.kt:61-70 | queues the value with a fresh, empty reply channel |
| Proposing.Proposer.StartNext | server/src/main/kotlin/multipaxos/Proposer.kt:72-77 | takes the queue head and runs an instance numbered one past the last instance; a finished instance is settled, an unfinished one has sent nothing and committed nothing; the rest of the queue is kept in order, and every entry added behind it is the original proposal (its value and channel) put back |
| Proposing.Instance.constructor | server/src/main/kotlin/multipaxos/Proposer.kt:79-84 | value and original value are the proposal, and the round number is (1, id) |
| Proposing.Instance.DoRound | server/src/main/kotlin/multipaxos/Proposer.kt:104-125 | increments the round; succeeds exactly when both quorums answer; adopts and re-queues after prepare; commits and answers YES only on success |
| Proposing.Instance.Run | server/src/main/kotlin/multipaxos/Proposer.kt:85-101 | a finished instance is settled (one YES after its own commit, or a NO, or a silent commit of an adopted value); only original proposals are re-queued; the round number never decreases |
| Naming.JavaIntDiv | server/src/main/java/zookeeper/ZooKeeperClientImpl.java:127 | Java's truncating division agrees with Dafny's on non-negative operands |
| Naming.ShardForServer | server/src/main/java/zookeeper/ZooKeeperClientImpl.java:124-128 | it fails only with a number format error or a division by zero shard count |
| Naming.ShardForServerOfSequentialId | server/src/main/java/zookeeper/ZooKeeperClientImpl.java:124-128 | a sequential server id with index `k` belongs to shard `k / numShards` |
| Naming.ShardNameInjective | server/src/main/java/zookeeper/ZooKeeperClientImpl.java:127 | different shard numbers give different shard names |
| Naming.ShardNameCreatedIff | server/src/main/java/zookeeper/ZooKeeperClientImpl.java:177-179 | the name of shard `k` is created exactly when `k < numShards` |
| Naming.ShardForServerBeyondInitialShards | server/src/main/java/zookeeper/ZooKeeperClientImpl.java:124-128 | with two shards, server index 4 is assigned to "shard-2", which setup never creates |
| Naming.NormaliseServerIdOfSequentialId | server/src/main/java/zookeeper/ZooKeeperClientImpl.java:194 | normalising a created path keeps "server-" and the sequence digits (specifies `NormaliseServerId`) |
| Naming.NormalisingKeepsShard | server/src/main/java/zookeeper/ZooKeeperClientImpl.java:194-197 | normalising does not change the shard a server is assigned to |
| Naming.SortedChildren | server/src/main/java/zookeeper/ZooKeeperClientImpl.java:105-116 | the children sorted ascending, as a permutation |
| Naming.SortedChildrenIgnoresOrder | server/src/main/java/zookeeper/ZooKeeperClientImpl.java:105-116 | the sorted list does not depend on the order ZooKeeper returns |
| Naming.GetShardLeader | server/src/main/java/zookeeper/ZooKeeperClientImpl.java:335-338 | the least server, and NoSuchElementException exactly for an empty shard |
| Naming.WatchLeader | server/src/main/java/zookeeper/ZooKeeperClientImpl.java:348-372 | null when the children cannot be read, and otherwise the shard leader |
| Naming.LeaderIsFirstSorted | server/src/main/java/zookeeper/ZooKeeperClientImpl.java:335-338 | the leader is the first of the sorted servers |
| Naming.LeaderIgnoresOrder | server/src/main/java/zookeeper/ZooKeeperClientImpl.java:335-338 | the leader does not depend on the order of the children |
| Naming.GetResponsibleShard | server/src/main/java/zookeeper/ZooKeeperClientImpl.java:320-324 | a shard from the list, and IllegalArgumentException exactly when there are no shards |
| Naming.ResponsibleShardIgnoresOrder | server/src/main/java/zookeeper/ZooKeeperClientImpl.java:320-324 | the responsible shard does not depend on the order of the children |
| Naming.GetTimestamp | server/src/main/java/zookeeper/ZooKeeperClientImpl.java:422-442 | -1 when the node cannot be created, and otherwise a `long` or a number format error |
| Naming.GetTimestampOfCounterNode | server/src/main/java/zookeeper/ZooKeeperClientImpl.java:427-429 | the timestamp is the counter node's sequence number |
| Naming.ZooKeeperClient.constructor | server/src/main/java/zookeeper/ZooKeeperClientImpl.java:77-79 | no server id, no shard id, no nodes |
| Naming.ZooKeeperClient.CreateNodeIfNotExists | server/src/main/java/zookeeper/ZooKeeperClientImpl.java:444-450 | the node exists afterwards, whether or not it existed before |
| Naming.ZooKeeperClient.SetupInitialStructures | server/src/main/java/zookeeper/ZooKeeperClientImpl.java:165-180 | the root, servers, shards, barriers and counter nodes and one node per initial shard exist |
| Naming.ZooKeeperClient.CreateShardNodes | server/src/main/java/zookeeper/ZooKeeperClientImpl.java:177-179 | the loop creates exactly the nodes "/shards/shard-0" to "/shards/shard-(n-1)" |
| Naming.NoShardNodeBeyondInitialShards | server/src/main/java/zookeeper/ZooKeeperClientImpl.java:196-198 | with two shards, the server with index 4 is assigned "shard-2", whose node start-up never creates and which is not a server node, so its registration fails with `NoNodeException` |
| Naming.ZooKeeperClient.RegisterServer | server/src/main/java/zookeeper/ZooKeeperClientImpl.java:191-199 | records the normalised id; if the shard computation throws, that exception, with only the server node created; otherwise records the shard, then throws `NoNodeException` when the shard's node does not exist and `NodeExistsException` when the member node already does, and otherwise creates the member node |
| ClientUtils.UnusedOutputs | client/Utils.py:55-58 | the outputs of one transaction that no input of the history spends |
| ClientUtils.UnusedFromSpec | client/Utils.py:55-58 | the comprehension over several transactions keeps exactly the unspent outputs |
| ClientUtils.UnusedSpec | client/Utils.py:55-58 | an entry is listed exactly when it is an output of a recorded transaction that no input spends |
| ClientUtils.GroupSorted | client/Utils.py:59 | grouping a list sorted by address yields one group per address |
| ClientUtils.UnusedGroupedByAddress | client/Utils.py:54-60 | the table's keys are exactly the addresses with unused outputs, and each row lists that address's entries in their original order (with the row below, specifies `GetAllUnusedUTxOsFromHistory`) |
| ClientUtils.UnusedTableWellFormed | client/Utils.py:54-60 | every row is non-empty and holds only entries of its own address |
| ClientUtils.DivideNumber | client/Utils.py:70-76 | `n` positive pieces summing to `a` |
| ClientUtils.Sample | client/Utils.py:81 | `k` elements drawn without replacement |
| ClientUtils.Shuffle | client/Utils.py:86 | a permutation |
| ClientUtils.CreateRandomCoinTransfer | client/Utils.py:63-67 | an IndexError exactly for an empty table; otherwise a listed source, another basic client as target, and between 1 and the source's coins; the only other error is a ValueError, which cannot occur when every entry has positive coins |
| ClientUtils.Zip | client/Utils.py:87 | pairs each target with the piece at the same position |
| ClientUtils.SumZip | client/Utils.py:87 | the outputs carry exactly the pieces' total |
| ClientUtils.SumPermutation | client/Utils.py:86 | shuffling does not change the total |
| ClientUtils.DrawOutputs | client/Utils.py:84-87 | distinct basic-client targets with positive coins summing to the input total |
| ClientUtils.CreateRandomTransaction | client/Utils.py:79-88 | an IndexError exactly for an empty table; otherwise inputs sampled from one source and outputs that spend exactly their coins |
| ClientUtils.WithoutTxId | client/Utils.py:98-99 | removes exactly the entries with the given transaction id |
| ClientUtils.WithoutInputsSpec | client/Utils.py:97-99 | after the loop, exactly the entries whose transaction id no input names remain |
| ClientUtils.AfterSpendSpec | client/Utils.py:96-101 | removing the inputs keeps the table well formed and positive, drops at most the source's row, and consumes every input |
| ClientUtils.NewInputsFresh | client/Utils.py:95-101 | the next transaction spends no UTxO that an earlier transaction of the list spent |
| ClientUtils.UnusedUTxOs.constructor | client/Utils.py:91 | holds the given table |
| ClientUtils.UnusedUTxOs.Spend | client/Utils.py:96-101 | a KeyError for an unknown source, and otherwise the table after removing the inputs |
| ClientUtils.DrawnInTurnSnoc | client/Utils.py:93-101 | one more drawn-and-spent transaction extends the account of tables by one |
| ClientUtils.BookkeptStep | client/Utils.py:93-101 | drawing and spending one transaction keeps the table well formed, consumes its inputs, and keeps the list free of reused inputs |
| ClientUtils.ConsumesOneMore | client/Utils.py:93-101 | drawing and spending one more transaction from a well-formed table that consumes the earlier inputs leaves a well-formed table that consumes those inputs and the new ones |
| ClientUtils.DrawnInTurnConsumes | client/Utils.py:91-102 | from a well-formed table, the table left after the list is well formed and holds none of the outputs the list spends |
| ClientUtils.UnusedUTxOs.CreateRandomAtomicList | client/Utils.py:91-102 | between two (when possible) and the table's size transactions, none reusing an input; each is drawn from the table as it stands and its inputs are then spent from it, and the final table is the last of those tables (`DrawnInTurn`); the table stays well formed, and from a well-formed positive table the call never fails |
| Strings.SortStrings | server/src/main/java/zookeeper/ZooKeeperClientImpl.java:107 | an ascending permutation of the list |
| Strings.SortStringsIgnoresOrder | server/src/main/java/zookeeper/ZooKeeperClientImpl.java:114 | the sort depends only on the list's elements |
| Strings.MinString | server/src/main/java/zookeeper/ZooKeeperClientImpl.java:337 | an element of the list no greater than any other |
| Strings.SortByKey | client/Utils.py:59 | a permutation sorted by the key |
| Strings.SortByKeyStable | client/Utils.py:59 | entries with equal keys keep their relative order |
| Strings.ParseDigits | server/src/main/java/zookeeper/ZooKeeperClientImpl.java:126 | a digit string within range parses to its value |
| Strings.ParseJavaIntegerRoundTrip | server/src/main/java/zookeeper/ZooKeeperClientImpl.java:429 | parsing the decimal form of a value in range gives the value back |
| Strings.ReplaceThroughLastDigits | server/src/main/java/zookeeper/ZooKeeperClientImpl.java:125 | replacing everything through the last marker leaves the replacement followed by the digits |
| Strings.DecimalInjective | server/src/test/kotlin/multipaxos/main.kt:30-31 | distinct numbers have distinct decimal names |
| Subsets.Subsets | server/src/test/kotlin/multipaxos/main.kt:123-135 | 2^n subsets, starting with the empty one |
| Subsets.SubsetsWithin | server/src/test/kotlin/multipaxos/main.kt:123-135 | every subset draws from the set, without repetition |
| Subsets.SubsetsComplete | server/src/test/kotlin/multipaxos/main.kt:123-135 | every subset of the set is produced |
| Subsets.SubsetsDistinct | server/src/test/kotlin/multipaxos/main.kt:123-135 | no subset is produced twice |
| Subsets.SubsetsNonEmptyAfterFirst | server/src/test/kotlin/multipaxos/main.kt:123-135 | only the first subset is empty |
| Subsets.NonEmpty | server/src/test/kotlin/multipaxos/main.kt:146-147 | exactly the non-empty subsets are kept |
| Subsets.TargetSetsSkipEmpty | server/src/test/kotlin/multipaxos/main.kt:145-148 | the targets are the subsets after the empty one |
| Subsets.TargetSetsCount | server/src/test/kotlin/multipaxos/main.kt:145-148 | there are 2^n - 1 target sets |
| Subsets.TargetSetsShape | server/src/test/kotlin/multipaxos/main.kt:145-148 | each target set is non-empty, without repetition, and within shards 1 to n |
| Subsets.TargetSetsPairwiseDistinct | server/src/test/kotlin/multipaxos/main.kt:145-148 | no two target sets are equal |
| Subsets.TargetSetsComplete | server/src/test/kotlin/multipaxos/main.kt:145-148 | every non-empty set of shards is a target |
| Subsets.ShardsKeys | server/src/test/kotlin/multipaxos/main.kt:28-32 | the shard map has keys "1" to "n", each with `perShard` members (specifies `Shards`) |
| Subsets.InitialLeaderIsFirstMember | server/src/test/kotlin/multipaxos/main.kt:58-60 | every shard's initial leader is its first member (specifies `InitialLeaders`) |
| Subsets.SquareMembersPartition | server/src/test/kotlin/multipaxos/main.kt:28-32 | with as many servers per shard as shards, shards are disjoint and ids stay within n*n |
| Subsets.SquareConfigurationConsistent | server/src/test/kotlin/multipaxos/main.kt:28-35 | then every server is in one shard and has a port (this is what is proved about `IdToPort`) |
| Subsets.DriverConfigurationConsistent | server/src/test/kotlin/multipaxos/main.kt:23-35 | the driver's own constants (3 shards of 3) give a consistent configuration |
| Subsets.WideShardsOverlap | server/src/test/kotlin/multipaxos/main.kt:28-32 | with more servers per shard than shards, shards 1 and 2 share a server |
| Subsets.NarrowShardsLackPort | server/src/test/kotlin/multipaxos/main.kt:28-35 | with fewer servers per shard than shards, the last shard names a server that has no port |
| Subsets.TargetsNameShards | server/src/test/kotlin/multipaxos/main.kt:145-148 | every target names a shard of the shard map |

## Left out

- ZooKeeper sessions, watchers, locks, barriers and `NodeData` serialisation are not modelled. The ZooKeeper tree is a set of paths, and the children of a node are an input list.
- `Hashing.consistentHash` and `String.hashCode` are a `Bucketing` parameter that returns an index in range.
- MD5 is a parameter `digest`. The model builds the exact text that is digested.
- Proposing.Next: the `RoundNo` class is not part of this model. Its order is taken as lexicographic on (round, proposer), and `++` as incrementing the round.
- Quorum RPCs, the leader oracle and the quorum waiters are not modelled. Each round's outcome is an input (`Quorums`), and so is each leadership check (`Turn`).
- The learner's `lastInstance` is an input to `Proposing.Proposer.StartNext`.
- Proposing.Proposer.DoPropose: it returns the reply channel and does not wait on it, because waiting is a coroutine suspension.
- Threads, coroutines, blocking queues and `synchronized` are not modelled. Each queue is a sequence that `take` pops, and each loop runs a given number of steps. The `wait`/`notify` pair of a proposal is reduced to its flag.
- The gRPC stubs and the `StatusRuntimeException` retry loop are not modelled. Reachability of a server is a map input.
- `TransactionManager`, the REST controllers and services, and the request handler servers are not part of this model. The executor records the manager call it would make as an `Action`.
- The Python request drivers, printing and formatting helpers are left out, because they are I/O.
- Ledger.CompareByTimestampExact: the `(int)` cast of a timestamp difference is modelled bit for bit. Sortedness is proved only when all differences fit an `int`, because otherwise the comparator is not a consistent order. `SortByTimestamp` is an insertion sort; it equals Java's stable `List.sort` only when the comparator is a total preorder. When the cast wraps, Java's TimSort may order the list differently, or throw `IllegalArgumentException` on 32 or more elements, and the model does not capture that.
- Kotlin `Int` wrap-around is not modelled: the `sequence#` counter and the Paxos instance numbers are unbounded here, though both are 32-bit `Int`s in the source. The buffer's comparator `o1.first - o2.first` and the check `peek().first == lastDelivered + 1` (server/src/main/kotlin/multipaxos/AtomicBroadcast.kt:103, 128) can therefore wrap in the source but not in the model. The proposer numbers each instance one past the last instance learned, so a wrap would need more than 2^31 - 1 instances.
- Deserialisation of a delivered payload is a `decode` parameter, and `_deliver` yields exactly one message per payload, as in the source.
- String ordering: characters are Unicode code points, so `LexLe` is code-point order. Java's `compareTo` compares UTF-16 code units, and its order differs from this when supplementary characters meet characters U+E000–U+FFFF. No Unicode normalisation is modelled.
- `HttpStatus` is limited to the four statuses the core uses (OK, BAD_REQUEST, NOT_FOUND, CONFLICT). Any other code resolves to null.
- Naming.GetTimestamp: the deletion of the counter node after reading it is not modelled, because it does not affect the result.
- Randomness (`random.choice`, `randint`, `sample`, `shuffle`) is nondeterministic choice, constrained only by the ranges the library guarantees.
- Python dict iteration order and Java `HashMap` iteration order are inputs (`order`).
- `getChildren` failures with a `KeeperException` are not modelled, except in `watchLeader`, where they give null.
- Naming.ZooKeeperClient.SetupInitialStructures: the five base nodes are added in one step. The per-shard loop is modelled node by node in `CreateShardNodes`.
- The test driver's coroutines, channels, failure detectors and message payload strings are not modelled. Only its configuration maps and target sets are.
- `tail.subsets()` is evaluated twice in the source. It is deterministic, so it is modelled once.
- ClientUtils.DivideNumber: the Python `assert a >= n >= 1` is a precondition.
- Strings.ParseJavaInteger: only the ASCII digits '0'–'9' are accepted (`Strings.IsDigit`). Java's `Integer.parseInt` and `Long.parseLong` go through `Character.digit` and also accept other Unicode decimal digits, such as Arabic-Indic digits. The ids parsed here are ZooKeeper sequence suffixes, which ZooKeeper writes in ASCII.
- `createReqCoinTransferMsg`, `createReqListAddrTransactionsMsg`, `createReqListEntireHistoryMsg` and `createReqListAddrUTxOMsg` (server/src/main/java/grpcservice/RequestHandlerUtils.java:50-76) are not modelled. Each copies its arguments into the fields of a request record, and no modelled operation calls them.
- Naming.ZooKeeperClient.RegisterServer: the first `create` of the sequential server node is not modelled; the path ZooKeeper returns is the input `created`. Only the second `create`, under the shard's node, can fail in the model.
- Model.SettersChangeOneField: the Java setters (server/src/main/java/model/Transaction.java:51-77) mutate a `Transaction` object in place, so every holder of a reference to it sees the change. The model treats a transaction as a value and a setter as returning an updated copy, so aliasing is not captured. `setInputs` and `setOutputs` also accept null, and the model takes only lists there.
- Wire.CreateUnusedUTxOListResp: the source passes three arguments to the four-argument `UnusedUTxOListResp` constructor (server/src/main/java/grpcservice/RequestHandlerUtils.java:97-104, with the fourth argument commented out at lines 102-103; the constructor is at server/src/main/java/model/Response.java:35). The model takes the missing transactions list to be null (`transactionsList := None`).
- Sequencing.Sequencer.constructor: the transaction manager's `getNewTimestamp` is the parameter `clock`; the n-th value drawn is `clock(n)`. Its ZooKeeper counter is not modelled, so `TransactionsStampedInClockOrder` takes as a hypothesis that the clock strictly increases over the draws the run makes.
- The genesis balance is keyed by "GenesisTx" while its UTxO carries address "Genesis", as in the source. The genesis UTxO can therefore never be spent (`Ledger.GenesisLedgerApprovesNothing`).
