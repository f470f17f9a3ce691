# Verified model of the LangGraph server's state

The server keeps three kinds of state in one process: checkpoints in a bounded
saver, reservations of threads in a run coordinator, and thread metadata with an
owning assistant in a thread store. This project models the code that changes
this state, in the form it has in the source, and proves what it promises over
whole runs and over all interleavings of requests. A small third part models the
request body limit.

## The checkpoint saver

- `ByteSizes`, `Items`: sizes of serialized values, and the unbounded store as one
  flat map from the ledger's keys to checkpoints, blobs and pending writes.
- `Dictionaries`, `InMemorySaverModel`: the parent class with its nested
  dictionaries, as a small concrete class. The upstream class itself is not part of
  this model; what is assumed about it is what its methods' contracts say.
- `SaverSpec`: what each public call does to the store and to the recency order. A
  run is a sequence of calls, each atomic because its body runs under one lock.
- `SaverInvariant`, `SaverSteps`, `SaverAdmission`, `SaverHistory`: theorems about
  runs. The caps, exact admission, minimal eviction, the byte budget and its slack,
  the frame of a rejection, refinement of an unbounded store, recency and time.
- `SaverMeaning`, `StoredBytes`: the same calls on keys, items, entries and bytes alone:
  what a read sees after a write, when a write is rejected, who is evicted, and that
  sizes are lengths of what is stored.
- `BudgetCondition`: exactly which operations can exceed the byte budget.
- `BoundedSaver`: the class with its recency list, size ledger and running total.
  Every public method leaves the state its specification demands, so the theorems
  about runs hold of the object. `Valid()` says that the ledger has exactly one entry
  per stored item, equal to its recomputed size, and that the total is their sum.

## Requests

- `Coordination`, `LeaseProtocol`: the coordinator and its leases as classes, and the
  same operations under arbitrary interleaving and cancellation.
- `ThreadStore`, `ThreadOwnership`: the thread store, and a claim without interference.
- `ServerProtocol`: all requests as programs whose steps are the sections between two
  awaits. The thread store and the checkpointer may lose threads at any time.
- `LeaseSafety`, `RequestCompletion`, `OwnershipSafety`, `DeletionSafety`,
  `StatusSafety`: theorems about all runs of that system.
- `Scenarios`, `OwnershipCondition`: runs that show where a guarantee ends, and that
  every unsafe removal of a record leads to one.

## The body limit

- `BodyLimit`: the buffering loop and the replaying receive channel. Messages are those
  of the ASGI HTTP specification, section "Request - receive event".

## Where the code and its documentation differ

- The documentation of the saver lists `max_total_bytes` as a limit on the total
  serialized payload. The code checks an estimate that leaves out the
  marker of a new channel without a value and counts a task path once per batch, while
  every stored write is charged with it. The model follows the code: the total can
  exceed the limit (`SaverAdmission.BudgetBroken`), by an exactly known amount.
  `BudgetCondition.KeepsBudgetIff` says exactly which operations can do so.
- A write that is rejected for the byte budget has already evicted every other thread
  (`SaverAdmission.OverBudgetEvictsAllOthers`).
- A thread that is deleted between a run's claim and its lease can end up with
  checkpoints of two assistants (`Scenarios.DeletionBreaksDurableOwnership`). The locks
  of the coordinator and of the in-memory thread store are never held across an await,
  so with that store the two calls follow each other without a switch; the window opens
  with another `ThreadStore` whose claim suspends after it has committed.
- The same happens to a thread whose record is lost while all its checkpoints lie
  outside the root namespace, the only one an ownership lookup reads
  (`Scenarios.LossBreaksDurableOwnership`).
- `OwnershipSafety.OwnershipKeptIff` says exactly which deletions and losses are safe.
  Durable ownership holds in every run whose deletions and losses are, and
  `OwnershipCondition.UnsafeForgettingCanBreak` continues every other one to a failure.
- The background release of a stream that is not driven to its end leaves the status
  `busy` without a lease (`Scenarios.BusyWithoutLease`). No other step of the model does
  (`StatusSafety.StatusKeptIff`). With a thread store that suspends after its write has
  committed, a timeout between the write of `busy` and the `try` that restores `idle`
  would do so too; that moment is not part of the model.

## Model

| member | source | states |
|---|---|---|
| `SaverHistory.ThreadIsReplay` | src/fastapi_langgraph_server/checkpoint/memory.py:120-290 | After any sequence of calls a thread holds exactly what an unbounded store holds after replaying the thread's accepted writes since its last removal (delete, eviction, expiry, clear): never a partly pruned or stale thread |
| `SaverHistory.LookupIsUnboundedOrNothing` | src/fastapi_langgraph_server/checkpoint/memory.py:120-130 | A lookup after any run answers what it would over the items that may still be read of the thread: its replayed writes, or nothing when its last touch is at least the TTL ago |
| `SaverHistory.ListIsUnboundedOrNothing` | src/fastapi_langgraph_server/checkpoint/memory.py:132-160 | The same for the listing of one thread |
| `SaverHistory.ItemsKept` | src/fastapi_langgraph_server/checkpoint/memory.py:588-593 | Over any continuation of a run that does not remove a thread, none of its checkpoints, blobs and pending writes disappears |
| `SaverHistory.AncestryKept` | src/fastapi_langgraph_server/checkpoint/memory.py:588-593 | Over such a continuation no parent or channel-blob reference that could be resolved becomes dangling |
| `SaverHistory.ReferencesKept` | src/fastapi_langgraph_server/checkpoint/memory.py:208-215 | Whatever a single call removes or stores in any reachable state, a checkpoint that survives it and is not overwritten is unchanged and keeps every reference that could be resolved |
| `SaverHistory.RecencyOrder` | src/fastapi_langgraph_server/checkpoint/memory.py:573-575 | After any run the recency order lists exactly the threads that were touched and not removed since, strictly by their last touch in the run, each with the clock reading of that touch |
| `SaverHistory.TimestampsSorted` | src/fastapi_langgraph_server/checkpoint/memory.py:573-586 | Under a clock that never goes back the timestamps of the recency order are sorted in every reachable state |
| `SaverHistory.PurgeIsPrefix` | src/fastapi_langgraph_server/checkpoint/memory.py:577-586 | Then a purge removes exactly a prefix of the order: the threads idle for at least the TTL, and no other |
| `SaverHistory.ExpiredIff` | src/fastapi_langgraph_server/checkpoint/memory.py:578-583 | A live thread is expired if and only if its last touch in the run is not after the cutoff |
| `SaverMeaning.PutRoundTrip` | src/fastapi_langgraph_server/checkpoint/memory.py:162-216 | After an accepted put and before expiry, a read of the thread sees under the checkpoint key its body, metadata and parent, under each new channel version its value or the marker, and under all other keys exactly what was there before the put |
| `SaverMeaning.GetAfterPut` | src/fastapi_langgraph_server/checkpoint/memory.py:120-130 | A lookup of that checkpoint or of its namespace then answers with it and with all those channel values |
| `SaverMeaning.PutWritesRoundTrip` | src/fastapi_langgraph_server/checkpoint/memory.py:218-280 | After an accepted batch and before expiry, a read sees under each key the channel, value and task path of the entry that settles it (the last that overwrites, or the first of a new key), and under all other keys exactly what was there before |
| `SaverMeaning.LookupAnswers` | src/fastapi_langgraph_server/checkpoint/memory.py:120-130 | A lookup answers if and only if a checkpoint of the thread and namespace, with the identifier if one is given, is readable; the answer holds every key of that thread and namespace with its item, and nothing else |
| `SaverMeaning.SelectLists` | src/fastapi_langgraph_server/checkpoint/memory.py:132-160 | A listing finds exactly the readable checkpoint keys that are selected and, when a thread is given, of that thread, each with its item |
| `SaverMeaning.GetTouches` | src/fastapi_langgraph_server/checkpoint/memory.py:573-575 | A lookup that finds something puts its thread last in the recency order, and changes the order otherwise only by expiry |
| `SaverMeaning.ListMeaning` | src/fastapi_langgraph_server/checkpoint/memory.py:132-160 | What a listing finds, key by key, and that a listing of one thread touches it if and only if it finds something |
| `SaverMeaning.PutOutcome` | src/fastapi_langgraph_server/checkpoint/memory.py:176-207 | In every reachable state the outcome of put follows, in this order, from the payload limit, from whether the thread was touched within the TTL, from the set of its namespaces and the set of its checkpoints (stored or referred to by a pending write) against their caps, and from its own bytes against the total |
| `SaverMeaning.PutWritesOutcome` | src/fastapi_langgraph_server/checkpoint/memory.py:237-273 | The same for put_writes |
| `SaverMeaning.AdmitCaps` | src/fastapi_langgraph_server/checkpoint/memory.py:188-203 | Admission reports too many namespaces or checkpoints if and only if the new one is not among those of the thread and their number has reached the cap |
| `SaverMeaning.NamespaceCap` | src/fastapi_langgraph_server/checkpoint/memory.py:252-261 | In every reachable state any set of namespaces that each hold a checkpoint or a pending write of a thread has at most max_namespaces_per_thread elements |
| `SaverMeaning.CheckpointCap` | src/fastapi_langgraph_server/checkpoint/memory.py:262-269 | In every reachable state any set of (namespace, id) pairs that each occur in a stored checkpoint or a pending write of a thread has at most max_checkpoints_per_thread elements |
| `SaverMeaning.ThreadCap` | src/fastapi_langgraph_server/checkpoint/memory.py:538-543 | In every reachable state any set of threads that each hold some item has at most max_threads elements |
| `SaverMeaning.EvictionIsLru` | src/fastapi_langgraph_server/checkpoint/memory.py:595-614 | Eviction for bytes spares the protected thread and removes no other thread before one that was touched earlier |
| `SaverMeaning.EvictionStops` | src/fastapi_langgraph_server/checkpoint/memory.py:601 | Had the last of the evicted threads been spared, the request would not have fitted |
| `SaverMeaning.PurgeOnKeys` | src/fastapi_langgraph_server/checkpoint/memory.py:577-586 | A purge keeps exactly the items of the threads touched after the cutoff, and exactly the entries that are later than it |
| `SaverInvariant.RunKeepsInvariant` | src/fastapi_langgraph_server/checkpoint/memory.py:186-203 | In every reachable state every item belongs to a thread of the recency order, no thread is listed twice, and the caps hold (see also the rows on caps by keys) |
| `SaverInvariant.StatsBound` | src/fastapi_langgraph_server/checkpoint/memory.py:397-412 | In every reachable state the stored checkpoints number at most max_threads * max_checkpoints_per_thread |
| `SaverInvariant.AdmitDrops` | src/fastapi_langgraph_server/checkpoint/memory.py:186-207 | Admission changes a state only by removing complete threads, and its own thread only when that thread has expired |
| `SaverInvariant.AdmitKeepsInvariant` | src/fastapi_langgraph_server/checkpoint/memory.py:186-207 | Admission keeps the invariant, and when it accepts there is a place for the thread and the write stays within the caps |
| `SaverSteps.StepForm` | src/fastapi_langgraph_server/checkpoint/memory.py:120-290 | Every call removes a set of complete threads, then stores at most one accepted write, then touches at most one thread |
| `SaverAdmission.BytesFitIff` | src/fastapi_langgraph_server/checkpoint/memory.py:595-614 | Making room for bytes succeeds if and only if the protected thread's own bytes plus the request stay within max_total_bytes |
| `SaverAdmission.PutVerdict` | src/fastapi_langgraph_server/checkpoint/memory.py:176-207 | In every reachable state the outcome of put, each error included, is a function of the payload size and of the thread's own contents; a thread without a live entry is accepted whenever the payload check passes |
| `SaverAdmission.PutWritesVerdict` | src/fastapi_langgraph_server/checkpoint/memory.py:237-273 | The same for put_writes |
| `SaverAdmission.ThreadEvictionMinimal` | src/fastapi_langgraph_server/checkpoint/memory.py:538-543 | For a new thread exactly the max(0, count - max_threads + 1) oldest threads go, and one fewer would leave no place |
| `SaverAdmission.ByteEvictionMinimal` | src/fastapi_langgraph_server/checkpoint/memory.py:595-614 | The victims for bytes are the shortest prefix of the recency order without the protected thread whose removal makes the request fit; all of them go only when nothing shorter suffices |
| `SaverAdmission.OverBudgetEvictsAllOthers` | src/fastapi_langgraph_server/checkpoint/memory.py:601-614 | A write rejected for the byte budget has removed every other thread first and leaves exactly its own thread's contents |
| `SaverAdmission.RejectedPutFrame` | src/fastapi_langgraph_server/checkpoint/memory.py:182-207 | A put rejected in any reachable state leaves its own thread's items and last access unchanged; every other thread is unchanged or completely removed; the survivors keep their order |
| `SaverAdmission.RejectedPutWritesFrame` | src/fastapi_langgraph_server/checkpoint/memory.py:246-273 | The same for a rejected put_writes |
| `SaverAdmission.PutBytes` | src/fastapi_langgraph_server/checkpoint/memory.py:496-503 | An accepted put changes the total by exactly its estimate plus one marker per new channel without a value, minus what it overwrote, and exceeds the budget by no more than those markers |
| `SaverAdmission.PutWritesBytes` | src/fastapi_langgraph_server/checkpoint/memory.py:237-245 | An accepted batch of n writes exceeds the budget by at most max(0, (n - 1) * path - task id) |
| `SaverAdmission.PutWritesBytesExact` | src/fastapi_langgraph_server/checkpoint/memory.py:505-528 | With fresh keys a batch adds exactly its estimate plus (n - 1) task paths minus the task id, so the slack is real |
| `SaverAdmission.OtherStepBytes` | src/fastapi_langgraph_server/checkpoint/memory.py:182-207 | A call that stores nothing, a rejected write above all, never raises the total |
| `SaverAdmission.BudgetHolds` | src/fastapi_langgraph_server/checkpoint/memory.py:595-614 | When every operation is slackless (a put whose absent channels cost nothing, a batch that alone in its thread fits its own estimate, or a write over its payload limit) the total stays within max_total_bytes in every reachable state |
| `SaverAdmission.SlacklessBatchIff` | src/fastapi_langgraph_server/checkpoint/memory.py:237-245 | A batch without path slack is slackless, and with distinct indices no other batch is |
| `BudgetCondition.KeepsBudgetIff` | src/fastapi_langgraph_server/checkpoint/memory.py:595-614 | For every valid configuration and every operation: after all runs of slackless operations it leaves the total within max_total_bytes if and only if it is slackless itself, a condition on the configuration and the operation alone |
| `BudgetCondition.SlackBreaksBudget` | src/fastapi_langgraph_server/checkpoint/memory.py:595-614 | An operation that is not slackless exceeds the limit after some run of slackless puts of its own checkpoint, which use no identifier but its own |
| `BudgetCondition.PutKeepsBudgetIff` | src/fastapi_langgraph_server/checkpoint/memory.py:464-482 | For a put within its payload limit this condition is that its new channels without a value cost no byte |
| `BudgetCondition.BatchKeepsBudgetIff` | src/fastapi_langgraph_server/checkpoint/memory.py:237-245 | For a batch with distinct indices within its payload limit it is that the task paths beyond the first cost no more than the task id |
| `SaverAdmission.BudgetBroken` | src/fastapi_langgraph_server/checkpoint/memory.py:601-614 | A concrete saver and put for which the documented total limit does not hold |
| `SaverAdmission.BudgetBrokenByPaths` | src/fastapi_langgraph_server/checkpoint/memory.py:237-245 | A concrete batch of two writes for which it does not hold either |
| `Items.PutItemsBytes` | src/fastapi_langgraph_server/checkpoint/memory.py:464-503 | What a put stores is its announced size plus one marker for every new channel without a value |
| `Items.ApplyEntriesBytes` | src/fastapi_langgraph_server/checkpoint/memory.py:505-528 | A batch adds at most its entries, each charged with the task path, whether repeated entries are kept or replaced |
| `Items.FreshEntriesBytes` | src/fastapi_langgraph_server/checkpoint/memory.py:505-528 | With fresh keys it adds exactly that |
| `StoredBytes.CharRoundTrip` | src/fastapi_langgraph_server/checkpoint/memory.py:459-462 | The UTF-8 bytes of a character can be read back, and their number is the one that is counted |
| `StoredBytes.EncodedLength` | src/fastapi_langgraph_server/checkpoint/memory.py:459-462 | The counted size of a string is the length of its UTF-8 encoding |
| `StoredBytes.EncodingInjective` | src/fastapi_langgraph_server/checkpoint/memory.py:459-462 | No two strings share an encoding |
| `StoredBytes.ItemLength` | src/fastapi_langgraph_server/checkpoint/memory.py:484-528 | The size of a stored item is the length of its type names, payloads, channel name and task path written out |
| `StoredBytes.TotalIsLength` | src/fastapi_langgraph_server/checkpoint/memory.py:530-536 | The total of a store is the length of all its items written one after the other, in any order |
| `StoredBytes.PutAnnounces` | src/fastapi_langgraph_server/checkpoint/memory.py:464-482 | The estimate of a put is the length of its body, its metadata and the values of its new channels written out, in any order of the channels |
| `StoredBytes.BatchAnnounces` | src/fastapi_langgraph_server/checkpoint/memory.py:237-245 | The size of a batch is the length of its values with their channel names, the task id and the task path written out |
| `BoundedSaver.BoundedInMemorySaver.constructor` | src/fastapi_langgraph_server/checkpoint/memory.py:105-118 | A new saver is in the state of the empty run with an empty ledger |
| `BoundedSaver.BoundedInMemorySaver.GetTuple` | src/fastapi_langgraph_server/checkpoint/memory.py:120-130 | Refines the run specification; the answer is that of the readable items, key by key, and the recency order changes by expiry and, when something is found, by a touch only |
| `BoundedSaver.BoundedInMemorySaver.List` | src/fastapi_langgraph_server/checkpoint/memory.py:132-160 | Refines the run specification; finds exactly the selected readable checkpoints, of one thread or of all, and touches one thread when something is found |
| `BoundedSaver.BoundedInMemorySaver.Put` | src/fastapi_langgraph_server/checkpoint/memory.py:162-216 | Refines the run specification; the outcome is that of the limits on the thread's own namespaces, checkpoints and bytes; an accepted put makes its thread the last; the ledger agrees with a full recount |
| `BoundedSaver.BoundedInMemorySaver.PutWrites` | src/fastapi_langgraph_server/checkpoint/memory.py:218-280 | The same for pending writes |
| `BoundedSaver.BoundedInMemorySaver.DeleteThread` | src/fastapi_langgraph_server/checkpoint/memory.py:282-290 | Keeps exactly the items and the entries of all other threads, unchanged, and refines the run specification |
| `BoundedSaver.BoundedInMemorySaver.PurgeExpired` | src/fastapi_langgraph_server/checkpoint/memory.py:382-385 | Keeps exactly the items and entries of the threads touched after the cutoff and returns the number of the others |
| `BoundedSaver.BoundedInMemorySaver.Clear` | src/fastapi_langgraph_server/checkpoint/memory.py:387-395 | Nothing is left: no item, no entry, no recorded size, and a total of zero |
| `BoundedSaver.BoundedInMemorySaver.ReadStats` | src/fastapi_langgraph_server/checkpoint/memory.py:397-412 | After a purge, the reported numbers are those of all stored checkpoint keys and pending-write keys, the bytes are the length of the store written out, and the caps hold |
| `BoundedSaver.BoundedInMemorySaver.AdmitLocked` | src/fastapi_langgraph_server/checkpoint/memory.py:186-207 | The checks and evictions before a write, in this order, equal the specified admission; the two caps decide by the thread's own namespaces and checkpoints |
| `BoundedSaver.BoundedInMemorySaver.MakeRoomForThreadLocked` | src/fastapi_langgraph_server/checkpoint/memory.py:538-543 | The loop ends, keeps the ledger and evicts exactly the specified oldest threads |
| `BoundedSaver.BoundedInMemorySaver.MakeRoomForBytesLocked` | src/fastapi_langgraph_server/checkpoint/memory.py:595-614 | The loop ends and evicts exactly the specified minimal prefix; fits if and only if the request then fits |
| `BoundedSaver.BoundedInMemorySaver.FirstOther` | src/fastapi_langgraph_server/checkpoint/memory.py:602-609 | The oldest thread besides the protected one, if any |
| `BoundedSaver.BoundedInMemorySaver.KnownNamespacesLocked` | src/fastapi_langgraph_server/checkpoint/memory.py:545-552 | Exactly the namespaces for which a checkpoint is stored or a pending write refers to one |
| `BoundedSaver.BoundedInMemorySaver.KnownCheckpointsLocked` | src/fastapi_langgraph_server/checkpoint/memory.py:554-571 | Exactly the (namespace, id) pairs for which a checkpoint is stored or a pending write refers to it |
| `BoundedSaver.BoundedInMemorySaver.TouchLocked` | src/fastapi_langgraph_server/checkpoint/memory.py:573-575 | Moves the thread to the end of the recency order with the new reading |
| `BoundedSaver.BoundedInMemorySaver.PurgeExpiredLocked` | src/fastapi_langgraph_server/checkpoint/memory.py:577-586 | Deleting the expired threads one by one equals removing all of them at once |
| `BoundedSaver.BoundedInMemorySaver.DeleteThreadLocked` | src/fastapi_langgraph_server/checkpoint/memory.py:588-593 | Removes exactly one thread from the store, the recency order and the ledger |
| `BoundedSaver.BoundedInMemorySaver.RecordCheckpointSizesLocked` | src/fastapi_langgraph_server/checkpoint/memory.py:484-503 | The rescan after a put enters the size of every item the put stored, markers included |
| `BoundedSaver.BoundedInMemorySaver.RecordWriteSizesLocked` | src/fastapi_langgraph_server/checkpoint/memory.py:505-528 | The rescan after put_writes makes the ledger agree with all pending writes of the checkpoint, old ones included |
| `BoundedSaver.BoundedInMemorySaver.SetSizeLocked` | src/fastapi_langgraph_server/checkpoint/memory.py:530-533 | The running total stays the sum of the ledger when an entry is set |
| `BoundedSaver.BoundedInMemorySaver.RemoveSizeLocked` | src/fastapi_langgraph_server/checkpoint/memory.py:535-536 | The running total stays the sum of the ledger when an entry is removed |
| `BoundedSaver.BoundedInMemorySaver.RemoveSizesLocked` | src/fastapi_langgraph_server/checkpoint/memory.py:591-593 | Forgets exactly the sizes of one thread |
| `BoundedSaver.BoundedInMemorySaver.EstimateCheckpointSize` | src/fastapi_langgraph_server/checkpoint/memory.py:464-482 | The loop computes the announced size of a put |
| `BoundedSaver.BoundedInMemorySaver.EstimateWriteSize` | src/fastapi_langgraph_server/checkpoint/memory.py:237-245 | The loop computes the announced size of a batch |
| `BoundedSaver.CountCheckpoints` | src/fastapi_langgraph_server/checkpoint/memory.py:401-405 | Summing over threads and namespaces counts every stored checkpoint once |
| `BoundedSaver.CountPending` | src/fastapi_langgraph_server/checkpoint/memory.py:406 | Summing over checkpoints counts every pending write once |
| `Dictionaries.NamespacesAgree` | src/fastapi_langgraph_server/checkpoint/memory.py:545-552 | The two nested dictionaries know exactly the namespaces that occur in a checkpoint key or a pending-write key of the thread |
| `Dictionaries.CheckpointsAgree` | src/fastapi_langgraph_server/checkpoint/memory.py:554-571 | The two nested dictionaries know exactly the (namespace, id) pairs that occur in such a key |
| `InMemorySaverModel.InMemorySaver.Put` | src/fastapi_langgraph_server/checkpoint/memory.py:208 | Assumed behaviour of the parent: storing blobs and checkpoint in the nested dictionaries overwrites exactly the keys of the put |
| `InMemorySaverModel.InMemorySaver.PutWrites` | src/fastapi_langgraph_server/checkpoint/memory.py:274 | Assumed behaviour of the parent: entries are stored one by one, each kept or replaced when its key exists |
| `InMemorySaverModel.InMemorySaver.GetTuple` | src/fastapi_langgraph_server/checkpoint/memory.py:127 | Assumed behaviour of the parent: a lookup in the nested dictionaries finds what the flat store holds and changes nothing |
| `InMemorySaverModel.InMemorySaver.List` | src/fastapi_langgraph_server/checkpoint/memory.py:150-157 | Assumed behaviour of the parent: a listing finds the selected checkpoints and changes nothing |
| `InMemorySaverModel.InMemorySaver.DeleteThread` | src/fastapi_langgraph_server/checkpoint/memory.py:589 | Assumed behaviour of the parent: exactly one thread's keys go |
| `BodyLimit.RequestBodyLimitMiddleware.Handle` | src/fastapi_langgraph_server/middleware.py:14-60 | Rejects at the first message with which the concatenated body bytes exceed the limit, forwards at the first message that ends the body, and forwards a channel positioned at the first message; a declared length over the limit, in the last content-length header, is rejected unread |
| `BodyLimit.RejectedIffBodyTooLong` | src/fastapi_langgraph_server/middleware.py:35-48 | A message sequence is rejected at some chunk if and only if the concatenated bytes of its whole body, up to the first request without more to come or disconnect, are longer than the limit |
| `BodyLimit.WholeBodyExists` | src/fastapi_langgraph_server/middleware.py:37-48 | Every message sequence has exactly one whole body |
| `BodyLimit.ChunkAppended` | src/fastapi_langgraph_server/middleware.py:40-41 | The last message adds exactly its chunk to the body, whether or not it announces more, and nothing if it has none |
| `BodyLimit.OpenAfter` | src/fastapi_langgraph_server/middleware.py:45-48 | The body stays open after a message if and only if that is a request with more_body true or neither a request nor a disconnect |
| `BodyLimit.DeclaredIff` | src/fastapi_langgraph_server/middleware.py:24-31 | The declared length is the value of the last content-length header when that is a number |
| `BodyLimit.OneVerdict` | src/fastapi_langgraph_server/middleware.py:37-48 | Rejection and forwarding exclude each other and happen at one message only |
| `BodyLimit.FirstCrossing` | src/fastapi_langgraph_server/middleware.py:41-44 | A body over the limit has a first chunk with which its bytes exceed it |
| `BodyLimit.Replay.Receive` | src/fastapi_langgraph_server/middleware.py:52-58 | What the application receives is always the original message sequence, in order, without gap or repetition |
| `Coordination.RunCoordinator.Acquire` | src/fastapi_langgraph_server/coordination.py:42-53 | Reports a conflict if and only if the thread is active, a full table if and only if it is not and the maximum is reached, and otherwise adds exactly one entry with a new token |
| `Coordination.RunCoordinator.ActiveRuns` | src/fastapi_langgraph_server/coordination.py:60-63 | Reports the number of reservations, never above the maximum |
| `Coordination.RunLease.Release` | src/fastapi_langgraph_server/coordination.py:24-29 | Afterwards this lease's token is gone and all other reservations stand, for a first and a repeated call alike |
| `LeaseProtocol.RunKeepsInv` | src/fastapi_langgraph_server/coordination.py:24-58 | Over all interleavings of acquire, release, cancellation and late flag setting: at most the maximum of reservations, and a set flag never belongs to a standing reservation |
| `LeaseProtocol.LiveIffUnreleased` | src/fastapi_langgraph_server/coordination.py:42-58 | In every run a reservation stands if and only if the run has granted its lease and the locked section of none of that lease's releases has run |
| `LeaseProtocol.OneReservationPerThread` | src/fastapi_langgraph_server/coordination.py:45-52 | In every run at most one lease of a thread has been granted without one of its own releases having taken effect |
| `LeaseProtocol.OnlyOwnReleaseEnds` | src/fastapi_langgraph_server/coordination.py:55-58 | Only the locked section of one of a lease's own releases ends it |
| `LeaseProtocol.ReleaseIsExact` | src/fastapi_langgraph_server/coordination.py:24-29 | A release that reaches its locked section, late, repeated or with a cancelled caller, ends its own lease and leaves every other one in place |
| `LeaseProtocol.DeadStaysDead` | src/fastapi_langgraph_server/coordination.py:24-58 | A reservation, once removed, never comes back |
| `ThreadStore.OwnerKept` | src/fastapi_langgraph_server/storage.py:65-94 | Neither a metadata write nor a claim replaces a recorded owner |
| `ThreadStore.InMemoryThreadStore.PutThread` | src/fastapi_langgraph_server/storage.py:65-75 | Stores exactly the given metadata unless it is too large, keeps the owner either way, and changes no other record |
| `ThreadStore.InMemoryThreadStore.ClaimAssistant` | src/fastapi_langgraph_server/storage.py:83-94 | Succeeds if and only if the record exists and is unowned or owned by the claimant, which then owns it; names the other owner otherwise; changes no metadata, no other record and no owner |
| `ThreadOwnership.GetThreadAssistantId` | src/fastapi_langgraph_server/routes/threads.py:146-161 | The recorded owner, else the marker of the newest checkpoint, which is then recorded |
| `ThreadOwnership.ClaimThreadAssistant` | src/fastapi_langgraph_server/routes/threads.py:164-180 | Without interference a recorded thread accepts an assistant if and only if its durable owner is that assistant or absent, and records the durable owner |
| `LeaseSafety.RunKeepsLeases` | src/fastapi_langgraph_server/routes/runs.py:110-136 | Over all interleavings of all requests the coordinator's table is exactly the set of unfinished leaseholders, one per thread, at most the maximum |
| `LeaseSafety.Exclusive` | src/fastapi_langgraph_server/routes/runs.py:139-146 | No two requests hold the same thread |
| `LeaseSafety.ActiveIsHolders` | src/fastapi_langgraph_server/coordination.py:60-63 | The table has as many entries as there are unfinished leaseholders and is empty when all requests are done |
| `LeaseSafety.EndsByOwnRelease` | src/fastapi_langgraph_server/routes/threads.py:356-357 | No step ends a reservation but its holder's own last section or its background task |
| `LeaseSafety.GivenBackForGood` | src/fastapi_langgraph_server/routes/runs.py:104-107 | A request that has given its lease back never has a reservation again, whatever releases follow |
| `RequestCompletion.EveryRequestFinishes` | src/fastapi_langgraph_server/routes/runs.py:312-338 | On every path, success, rejection, failure or early release, a request is done after a bounded number of its own sections and holds nothing then |
| `RequestCompletion.UnknownThreadEnds` | src/fastapi_langgraph_server/routes/threads.py:297-299 | A state update, or a request that demands an existing thread, never gets past the existence check while its thread has neither a record nor a root checkpoint, whatever other requests do |
| `RequestCompletion.NotPastChangesNothing` | src/fastapi_langgraph_server/routes/threads.py:135-143 | At the check a request takes no lease and changes no record and no checkpoint |
| `RequestCompletion.KnownThreadPasses` | src/fastapi_langgraph_server/routes/threads.py:141-143 | A request for a recorded thread passes the check: a state update to the lease, all others to the record |
| `ServerProtocol.LatestRootIff` | src/fastapi_langgraph_server/routes/threads.py:155-158 | The checkpoint that decides about ownership is the one behind which no other root checkpoint follows, and there is none if and only if no checkpoint is in the root namespace |
| `ServerProtocol.WrittenIsNewest` | src/fastapi_langgraph_server/routes/runs.py:312-338 | A checkpoint that is written follows all others of its thread, with its writer's marker, and no other thread changes |
| `OwnershipSafety.StepKeepsOwner` | src/fastapi_langgraph_server/storage.py:65-94 | No step of any request replaces the owner of a thread whose record it leaves in place |
| `OwnershipSafety.OwnerChangesOnlyThroughAbsence` | src/fastapi_langgraph_server/storage.py:65-94 | In every run, between two different owners of a thread lies a state in which its record is absent, even with concurrent metadata and status writes |
| `OwnershipSafety.OwnershipKeptIff` | src/fastapi_langgraph_server/routes/threads.py:146-180 | From a state in which markers, owners and the claims of all requests agree, a step breaks the agreement if and only if it deletes or loses a record that a request still relies on or whose owner no lookup would find |
| `OwnershipSafety.DurableOwnership` | src/fastapi_langgraph_server/routes/threads.py:146-180 | In every run, with any deletions and losses of records and checkpoints that are safe in this sense, all checkpoints of a thread carry one assistant's marker, which is the recorded owner or, when none is recorded, the one a lookup finds |
| `OwnershipSafety.WorksForOwner` | src/fastapi_langgraph_server/routes/threads.py:164-180 | In such a run a graph works on a thread only for its recorded owner |
| `OwnershipCondition.UnsafeForgettingCanBreak` | src/fastapi_langgraph_server/routes/threads.py:146-180 | After any run that forgets records only safely, and with room for the thread among the active runs, an unsafe deletion or loss of a record can be continued, with any assistant but the owner as a new claimant, so that the thread ends up with checkpoints of two assistants |
| `OwnershipSafety.DeletionSafeIff` | src/fastapi_langgraph_server/routes/threads.py:396-417 | In every reachable state a delete may commit safely if and only if no run of the thread stands between its claim and its lease |
| `OwnershipSafety.FreshClaim` | src/fastapi_langgraph_server/routes/threads.py:164-180 | From a recorded but unowned thread and with no competing claim, a run is decided after at most four of its own sections; with i the position behind which no root checkpoint follows, it is accepted if and only if the marker at i is its own assistant or absent, or no such i exists, and the durable owner is recorded either way |
| `DeletionSafety.DeleteCommits` | src/fastapi_langgraph_server/routes/threads.py:396-417 | At the moment a delete commits, the thread has neither a record nor a checkpoint and is still reserved, for every interleaving |
| `DeletionSafety.DeleteHasDeleted` | src/fastapi_langgraph_server/routes/threads.py:396-417 | In every run a delete that is about to give its thread back, and has not failed, has held the thread with neither a record nor a checkpoint of it left |
| `DeletionSafety.WritesUnderLease` | src/fastapi_langgraph_server/routes/runs.py:312-338 | Checkpoints of a thread are added only by the holder of its reservation |
| `DeletionSafety.StatelessLeavesNothing` | src/fastapi_langgraph_server/routes/runs.py:149-171 | A stateless run at its release has left no checkpoint of its generated thread, unless its cleanup failed |
| `Scenarios.DeletionBreaksDurableOwnership` | src/fastapi_langgraph_server/routes/threads.py:387-418 | With a thread store whose claim can suspend after it has committed: a concrete run with a deletion between claim and lease, after which one thread has checkpoints of two assistants |
| `Scenarios.LossBreaksDurableOwnership` | src/fastapi_langgraph_server/routes/threads.py:146-161 | A concrete run without deletion in which the record of a thread with checkpoints outside the root namespace only is lost, after which the thread has checkpoints of two assistants |
| `StatusSafety.StatusKeptIff` | src/fastapi_langgraph_server/streaming.py:153-194 | From a state in which every busy record is held by a live stream, a step breaks this if and only if it abandons the lease of a stream recorded as busy |
| `StatusSafety.BusyImpliesLease` | src/fastapi_langgraph_server/streaming.py:153-194 | In every run whose streams are driven to completion or failure, a stored status of busy means that the thread's lease is held by a stream that will restore it |
| `StatusSafety.WorkWasMarked` | src/fastapi_langgraph_server/streaming.py:153-166 | In every run a stream at its graph has had its thread recorded as busy before, unless the thread had no record then |
| `StatusSafety.ReleaseLeavesIdle` | src/fastapi_langgraph_server/streaming.py:193-194 | If every stream is driven to completion or failure, no request gives back a thread that is recorded as busy |
| `Scenarios.BusyWithoutLease` | src/fastapi_langgraph_server/routes/runs.py:104-107 | A concrete run in which the background task releases a stream at work and leaves the thread busy without a lease |
| `StatusSafety.OnlyHolderWritesBusy` | src/fastapi_langgraph_server/streaming.py:126-136 | Only the holder of a thread's lease turns its status to busy |

## Left out

- The upstream saver's own code: its parts that are used here are assumptions, stated as contracts of `InMemorySaverModel.InMemorySaver`.
- Serialization and metadata merging: a serialized value is a type name and a byte sequence, the same in the estimate and in the store; the marker for an absent channel is a parameter, and a body's bytes are not tied to its channel versions.
- The decoding of a found checkpoint, the choice of the newest identifier, and the `filter`, `before` and `limit` of a listing: a lookup yields the namespace's items, a listing a selected set of checkpoints.
- Entries that the parent's default dictionaries create on reads, and exceptions in the middle of a parent write.
- `get_delta_channel_history`: its reconstruction is upstream, and it touches a thread without making room for it.
- Validation of identifiers and of configuration types: identifiers are strings, configurations are valid. Concrete examples use identifiers that the saver accepts.
- `asyncio.to_thread`: each saver call is one atomic step, with its clock readings as parameters.
- Two stored-thread references to one record: records are values, which the defensive copies of the store make indistinguishable.
- The age and count rules of the metadata cache: it may lose any record at any time, which the rules are instances of.
- Saver calls that outlive a request that timed out: a failed section has either happened completely or not at all.
- A failure after the `busy` status was written and before the `try` of the stream, which only a thread store that suspends after its write allows.
- Collection of an abandoned stream by the garbage collector: a stream completes, fails, or is given up by its background task.
- Metadata too large for the store on a status write, and a failed restoration of the idle status.
- A server without a checkpointer, and checkpointers that do not support deletion.
- Resolving and claiming the generated thread of a stateless run: it happens on a store of its own and an unused thread.
- Tokens in the interleaved requests: a request acquires once, so its number stands for its token; tokens proper are in `Coordination` and `LeaseProtocol`.
- The response of a rejected body and the parsing of the declared length: a header value is a number or not a number.
- Requests turned away for their options or for an existing thread: a request may fail at any of its steps.
- Routing, authorization, event formatting, assistant search, graph and schema discovery.
- BoundedSaver.BoundedInMemorySaver.AdmitLocked: `put` and `put_writes` contain the same statements twice in the source; here they share one method.
- SaverHistory.LookupIsUnboundedOrNothing: speaks of the items of the namespace a lookup reads; which checkpoint the upstream saver chooses among them, and its decoding, are not part of this model.
- BoundedSaver.BoundedInMemorySaver.GetTuple: answers with those items, for the same reason.
- InMemorySaverModel.InMemorySaver.GetTuple: answers with those items, for the same reason.
- Scenarios.DeletionBreaksDurableOwnership: with the in-memory thread store no request runs between a claim and its lease; the run needs a store that suspends after its claim.
- OwnershipSafety.FreshClaim: speaks of runs in which no other request changes the thread's record, owner or checkpoints while the claim is under way.
- OwnershipSafety.DurableOwnership: asks of the checkpoints found at start-up that each thread has one in the root namespace and that they carry one marker; `Scenarios.LossBreaksDurableOwnership` shows why the root namespace matters.
