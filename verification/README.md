# Semaphore service, verified

A Dafny model of the user-space System V semaphore service and of two smaller
pieces beside it, with proofs of what they promise:

- the **store**: a fixed table of semaphore sets with generation-tagged
  identifiers, a shared table of SEM_UNDO adjustments, and an all-or-nothing
  multi-operation semop (`StoreModel`, `SemopMeaning`, `SemopAtomic`,
  `StoreValid`, `UndoLedger`, `ExitReplay`, `StoreRuns`, `Restoration`,
  `StaleIds`, `StoreLaws`, `ReadLaws`, `SemopLaws`, and the class `SemStore` that changes the tables in place);
- the **wire path**: little-endian codec, header, framing over a chunked byte
  stream, dispatcher, client and timeouts (`Wire`, `Protocol`, `Messages`,
  `Remote`, `Transport`, `WireLaws`, `Dispatcher`, `ClientCalls`, `Connections`,
  `Timeouts`);
- the **broker**: a queue of blocked operations, wait counters, deadlines and a
  monitor of process exits, under one mutex and one condition variable
  (`BrokerModel`, `BrokerSafety`, `BrokerShape`, `BrokerHistory`,
  `BrokerEpochs`, `BrokerCoverage`, `BrokerTidy`, `BrokerSteps`, `BrokerRuns`,
  `BrokerAnswers`, `BrokerWakes`, `BrokerScans`, `BrokerArrivals`, `BrokerWitness`,
  and the classes `WaiterQueue` and `BrokerServer`);
- the **in-process shim**, a second implementation of semop (`Shim`);
- the **VDF editor** that selects a default compatibility tool (`Vdf`,
  `VdfLines`, `VdfEdit`, `VdfTwice`, `VdfLaws`).

`dafny verify dfyconfig.toml` checks everything.

How to read it. Each operation is a function on values; its loops are functions
of how many steps are done (`EvalTo`, `CommitTo`, `ExitTo`). The classes hold
arrays, linked nodes and buffers and are proved to go from one value of the
model to the next. The broker is a state machine whose steps are the stretches
of code that run under the mutex: a request arrives, a sleeper wakes, the
monitor scans. What the operating system answers in a step (clocks, whether the
peer has closed, whether a process has exited, failures) is a parameter of the
step, so the run theorems hold for all of it. The condition variable is a flag
on each sleeper, raised by a broadcast and lowered when it goes to sleep; the
periodic poll is a wake-up like any other and no theorem relies on it.

An observer's history accompanies a broker run (`BrokerHistory.History`). It
records arrival numbers, retries that committed, removals per slot, submission
times and waiters whose process was reaped, and two conditions the theorems
name: `current`, that no waiter has stayed queued through 32767 removals of its
slot, and `closed`, that no retry has found the connection of a reaped process
still open. No broker step reads the history.

Where the code departs from Linux the model follows the code: a waiter on a
removed set gets -EINVAL, a waiter's recorded reason is fixed when it first
blocks, and only the earliest waiter of a set retries.

## Model

| member | source | states |
|---|---|---|
| StoreValid.IdRoundTrip | reference-termux-glibc-compat/src/sem_store.c:50-72 | the identifier made from any slot and any generation 1..32767 has the generation in its upper half and the slot plus one in its lower, and decoding gives both back |
| StoreValid.IdDecodes | reference-termux-glibc-compat/src/sem_store.c:50-72 | every accepted identifier has its slot and generation in range and is the one made from them |
| StoreValid.FindSetIsId | reference-termux-glibc-compat/src/sem_store.c:74-97 | an identifier resolves to a slot if and only if the slot is live and the identifier is the one of its current generation |
| StaleIds.ApplyGeneration | reference-termux-glibc-compat/src/sem_store.c:136-139 | any call moves a used slot to the next generation if it removes the set there, and otherwise leaves the generation alone |
| StaleIds.RunGeneration | reference-termux-glibc-compat/src/sem_store.c:224-276 | over every run, k removals of a slot move it from generation g to ((g - 1 + k) mod 32767) + 1 |
| StaleIds.StaleUntilWrap | reference-termux-glibc-compat/src/sem_store.c:55-97 | over every run, an identifier once live resolves again if and only if its slot is in use and was removed a multiple of 32767 times since; it resolves to nothing in between |
| StoreValid.ApplyValid | reference-termux-glibc-compat/src/sem_store.c:173-345 | every store call keeps the invariant: values 0..32767, public keys unique, undo entries unique per process and semaphore, naming a live semaphore, nonzero and in -32768..32767 |
| StoreValid.TryOpValid | reference-termux-glibc-compat/src/sem_store.c:506-631 | semop keeps that invariant |
| StoreValid.ExitValid | reference-termux-glibc-compat/src/sem_store.c:468-496 | the exit loop keeps that invariant after any number of entries |
| StoreValid.Run | reference-termux-glibc-compat/src/sem_store.c:166-631 | the store after any sequence of calls from the empty store satisfies the invariant |
| StoreRuns.ExitGuardPasses | reference-termux-glibc-compat/src/sem_store.c:479-493 | in every reachable store the liveness and range test of the exit loop passes for every active entry |
| StoreLaws.GetLaw | reference-termux-glibc-compat/src/sem_store.c:173-245 | semget gives the identifier of a live set with that key and enough semaphores; a new set is all zero, unknown before and owed nothing; any failure and every other set is left alone |
| StoreLaws.GetFinds | reference-termux-glibc-compat/src/sem_store.c:180-194 | semget of a public key that a live set has: -EEXIST for IPC_CREAT and IPC_EXCL together, otherwise the identifier of exactly that set if and only if the size asked for is 0..its size, and -EINVAL if not; nothing changes |
| StoreLaws.GetMakes | reference-termux-glibc-compat/src/sem_store.c:195-245 | semget of a private key, or of one no live set has: -ENOENT if and only if public and without IPC_CREAT; then -EINVAL unless the size is 1..512, -ENOSPC if every slot is in use, -ENOMEM without memory; otherwise the first free slot gets a set of that key, size, owner, group, mode and change time, all values, last processes and wait counters zero, under an identifier that resolved to nothing |
| SemTypes.FlagMeaning | reference-termux-glibc-compat/src/sem_store.c:186-197 | a flag test is true if and only if the word has a one at that bit |
| StoreLaws.GetAgain | reference-termux-glibc-compat/src/sem_store.c:173-200 | asking again for a public key gives the same identifier and changes nothing, unless exclusivity or more semaphores are asked for |
| StoreLaws.SetValLaw | reference-termux-glibc-compat/src/sem_store.c:288-303 | SETVAL gives -EINVAL unless the semaphore is live, then -ERANGE above 32767; on success later reads see exactly that value and process and the change time changed, and exactly the debts on that semaphore gone |
| StoreLaws.SetAllLaw | reference-termux-glibc-compat/src/sem_store.c:326-345 | SETALL gives -EINVAL unless the set is live and of that size, then -ERANGE for a value above 32767; on success GETALL and GETVAL return the values, GETPID the caller for every semaphore, the change time is new, other sets are untouched, and exactly the debts on that set are gone |
| StoreLaws.ExitLaw | reference-termux-glibc-compat/src/sem_store.c:468-496 | after the exit of a process nobody finds a debt of it; each semaphore it owed holds the value in 0..32767 nearest to its value plus the debt and names the process, and its set gets the time; nothing else changes; the result says whether it owed anything |
| StoreLaws.RemoveLaw | reference-termux-glibc-compat/src/sem_store.c:247-276 | removal succeeds if and only if the set is live; its identifier then resolves to nothing, other sets are untouched, and exactly the debts on that set are gone |
| ReadLaws.ReadsAgree | reference-termux-glibc-compat/src/sem_store.c:278-324 | GETVAL and GETPID answer exactly for live semaphores and GETALL exactly for the size of a live set; GETALL and GETVAL agree |
| ReadLaws.StatLaw | reference-termux-glibc-compat/src/sem_store.c:347-370 | STAT answers exactly for live sets, with their size and metadata and the upper half of the identifier |
| ReadLaws.StatIndexLaw | reference-termux-glibc-compat/src/sem_store.c:372-382 | STAT by index answers exactly for slots in use, with the identifier that resolves to the slot and what STAT says of it |
| ReadLaws.SetMetaLaw | reference-termux-glibc-compat/src/sem_store.c:384-403 | group and mode change if and only if owner or creator asks, the owner stays, the group is the old one or the caller's, and the mode has nine bits; nothing else about any set changes |
| ReadLaws.InfoLaw | reference-termux-glibc-compat/src/sem_store.c:436-466 | the limits, the number of sets and of semaphores in use, and the highest slot in use |
| ReadLaws.AdjustWaitLaw | reference-termux-glibc-compat/src/sem_store.c:417-434 | exactly one wait counter moves by one, if and only if its semaphore is live and the counter stays in 32 bits |
| ReadLaws.WaitCountLaw | reference-termux-glibc-compat/src/sem_store.c:405-415 | GETNCNT and GETZCNT report the counter, cut at INT_MAX, exactly for live semaphores |
| SemopLaws.SemopStops | reference-termux-glibc-compat/src/sem_store.c:506-559 | -EINVAL if and only if the set is dead, the batch empty, an index out of range or a flag unknown; otherwise the first operation that may not run by running sums decides: -ERANGE if it adds, -EAGAIN with IPC_NOWAIT, else BLOCKED with its semaphore and kind of wait |
| SemopLaws.SemopUndo | reference-termux-glibc-compat/src/sem_store.c:561-599 | when every operation may run: -ERANGE if and only if a running or resulting adjustment leaves 16 bits, -ENOSPC if and only if there would be more than 4096 debts, else success |
| SemopLaws.SemopDone | reference-termux-glibc-compat/src/sem_store.c:601-628 | on success every operation is added to its semaphore, the caller is the last process of exactly the semaphores named, the set gets the time, the SEM_UNDO operations are taken off the caller's adjustments, and nothing else changes |
| SemopMeaning.EvalMeaning | reference-termux-glibc-compat/src/sem_store.c:527-559 | the evaluation loop succeeds if and only if every operation may run after the sums of those before it, then holds each start value plus the sum of its operations, and otherwise stops at the first operation that may not |
| SemopMeaning.EvalAppend | reference-termux-glibc-compat/src/sem_store.c:527-559 | evaluating A followed by B is evaluating A and then B on what A left, with the stopping position shifted |
| SemopMeaning.DeltasMeaning | reference-termux-glibc-compat/src/sem_store.c:561-573 | each undo change is minus the sum of the SEM_UNDO operations on that semaphore |
| SemopMeaning.DeltasDefined | reference-termux-glibc-compat/src/sem_store.c:561-573 | the undo changes are computed if and only if every running SEM_UNDO total stays in range |
| SemopMeaning.StampMeaning | reference-termux-glibc-compat/src/sem_store.c:601-604 | the last process of a semaphore becomes the caller if and only if the batch names it |
| SemopAtomic.CommitHasRoom | reference-termux-glibc-compat/src/sem_store.c:575-628 | if the reservation count fits the free entries, the commit loop finds a free entry whenever it needs one and never returns from the middle |
| SemopAtomic.SucceedsIff | reference-termux-glibc-compat/src/sem_store.c:506-631 | semop succeeds if and only if the set is live, the batch non-empty and valid, every operation may run after those before it, and the undo changes stay in range and fit the free entries |
| SemopAtomic.TryOpAtomic | reference-termux-glibc-compat/src/sem_store.c:561-631 | semop with any result other than 0 leaves the whole store unchanged |
| StoreRuns.BatchCompose | reference-termux-glibc-compat/src/sem_store.c:516-628 | if A followed by B, A alone, and then B all succeed, both ways give the same values, last processes and undo balances |
| StoreRuns.TryOpConserves | reference-termux-glibc-compat/src/sem_store.c:527-628 | a successful batch changes value plus all adjustments of each live semaphore by exactly the sum of its operations without SEM_UNDO |
| UndoLedger.TryOpRefines | reference-termux-glibc-compat/src/sem_store.c:506-631 | semop on the 4096-entry table returns and leaves exactly what it would on a plain map from process and semaphore to balance |
| ExitReplay.ExitIsReplay | reference-termux-glibc-compat/src/sem_store.c:468-496 | the exit loop has a closed form in which no entry sees the effect of another |
| ExitReplay.ExitRefines | reference-termux-glibc-compat/src/sem_store.c:468-496 | process exit on the table is process exit on the map: every balance of the process is added, cut at 0 and 32767, and dropped; the result says whether there was any |
| StoreRuns.ExitConserves | reference-termux-glibc-compat/src/sem_store.c:468-496 | process exit sets each value to value plus adjustment, to 0 if that is below 0 and to 32767 if it is above 32767, and conserves value plus all adjustments if and only if neither |
| StoreRuns.ApplyRefines | reference-termux-glibc-compat/src/sem_store.c:99-134 | every call on the table returns the code and data and leaves the sets and balances it would on the map |
| StoreRuns.TableOrderInvisible | reference-termux-glibc-compat/src/sem_store.c:99-134 | two stores that differ only in where undo entries sit stay so through every run |
| Restoration.RunKeeps | reference-termux-glibc-compat/src/sem_store.c:468-628 | while only one process operates on a semaphore, always with SEM_UNDO, value plus its balance never changes |
| Restoration.ExactRestoration | reference-termux-glibc-compat/src/sem_store.c:468-628 | after any such run the process exit puts the original value back, and the clamp does not act |
| SemStore.Evaluate | reference-termux-glibc-compat/src/sem_store.c:527-559 | the evaluation loop on a working copy computes the sequential evaluation, stopping where it does |
| SemStore.UndoDeltas | reference-termux-glibc-compat/src/sem_store.c:561-573 | the loop over SEM_UNDO operations computes the undo changes or reports a running total out of range |
| SemStore.SemStore.Get | reference-termux-glibc-compat/src/sem_store.c:173-245 | semget in place: finds the key, or fills the first free slot, and leaves the tables and code the model says |
| SemStore.SemStore.Remove | reference-termux-glibc-compat/src/sem_store.c:247-276 | removal in place: clears the set, moves its generation on and drops its undo entries |
| SemStore.SemStore.SetVal | reference-termux-glibc-compat/src/sem_store.c:288-303 | sets one value, stamps the caller and drops the undo entries of that semaphore |
| SemStore.SemStore.SetAll | reference-termux-glibc-compat/src/sem_store.c:326-345 | sets all values if every one is in range, stamps the caller and drops the undo entries of the set |
| SemStore.SemStore.AdjustWait | reference-termux-glibc-compat/src/sem_store.c:417-434 | moves one wait counter up or down, refusing to leave its range |
| SemStore.SemStore.Reserve | reference-termux-glibc-compat/src/sem_store.c:575-599 | the reservation loop counts the entries the commit will need, or finds an adjustment out of range |
| SemStore.SemStore.CommitUndo | reference-termux-glibc-compat/src/sem_store.c:605-628 | given the reservation, the commit loop posts every change, taking free entries as needed |
| SemStore.SemStore.TryOp | reference-termux-glibc-compat/src/sem_store.c:506-631 | semop in place takes both tables to exactly the state of the model and returns its code and wait reason |
| SemStore.SemStore.ProcessExit | reference-termux-glibc-compat/src/sem_store.c:468-496 | the exit loop in place takes both tables to exactly the state of the model and returns whether it changed anything |
| Wire.U32At | reference-termux-glibc-compat/src/protocol.c:13-51 | reading four bytes gives a value if and only if they are its encoding |
| Wire.I64At | reference-termux-glibc-compat/src/protocol.c:37-72 | reading eight bytes gives a signed value if and only if they are its encoding |
| Wire.PutU32 | reference-termux-glibc-compat/src/protocol.c:13-19 | writes exactly the four little-endian bytes at the offset and nothing else |
| WireLaws.ThirtyTwoBits | reference-termux-glibc-compat/src/protocol.c:42-62 | four bytes are base 256 digits, least significant first, signed by the top bit |
| WireLaws.AllowedIff | reference-termux-glibc-compat/src/protocol.c:74-94 | which headers are allowed, and -EMSGSIZE exactly for a length above 8192 in an otherwise plain header, else -EPROTO |
| WireLaws.HeaderLayout | reference-termux-glibc-compat/src/protocol.c:96-117 | every field of the 24 bytes at its place |
| Protocol.HeaderCodec | reference-termux-glibc-compat/src/protocol.c:74-145 | decoding yields a header if and only if the header is allowed and the bytes are its encoding |
| Protocol.EncodeHeaderInto | reference-termux-glibc-compat/src/protocol.c:96-117 | writes the 24 bytes of an allowed header and nothing else; refuses any other with its error and writes nothing |
| Transport.ReceiveIff | reference-termux-glibc-compat/src/transport.c:243-262 | a packet and a rest are received from a stream if and only if the packet may be sent and the stream is its encoding followed by that rest |
| WireLaws.BrokenStream | reference-termux-glibc-compat/src/transport.c:218-262 | a stream that gives no packet is empty, or announces more than 8192 bytes, or is malformed or cut, each with its result |
| Transport.FramingRoundTrip | reference-termux-glibc-compat/src/transport.c:243-312 | any list of sendable packets written back to back is received as exactly those packets and then a clean end |
| Transport.CutStream | reference-termux-glibc-compat/src/transport.c:218-262 | a stream cut inside a packet yields the whole packets before it and then -EPROTO |
| Transport.Socket.ReceiveExact | reference-termux-glibc-compat/src/transport.c:218-241 | however the kernel chunks and interrupts, success means exactly the next bytes of the stream were read and no more; end of stream is clean only before the first byte |
| Transport.Socket.ReceivePacket | reference-termux-glibc-compat/src/transport.c:243-262 | the packet received is the one the stream begins with, whatever the chunking; without errors the result is exactly that of the stream |
| Transport.Socket.ReceiveUntilEnd | reference-termux-glibc-compat/src/transport.c:218-262 | however the kernel chunks and restarts, receiving until the stream ends gives exactly the packets and the end code of the whole stream |
| Transport.Deliver | reference-termux-glibc-compat/src/transport.c:218-312 | any list of sendable packets, sent back to back and delivered in any chunks, is received as that list and then a clean end; with a further packet cut short, as that list and then -EPROTO |
| Transport.Socket.SendExact | reference-termux-glibc-compat/src/transport.c:275-293 | all bytes are written in order however the kernel splits them; a failure, a send of nothing included, leaves a prefix |
| Transport.Socket.SendPacket | reference-termux-glibc-compat/src/transport.c:295-312 | on success exactly the encoding of the packet was written; without errors that happens if and only if the packet may be sent |
| Messages.UsesUndoAgrees | reference-termux-glibc-compat/src/broker_server.c:451-475 | for every packet that dispatches as a batch, the broker's own scan reports SEM_UNDO if and only if some operation of the batch has it |
| Messages.OpsRoundTrip | reference-termux-glibc-compat/src/broker_dispatch.c:124-165 | the bytes of a batch decode to the identical batch with all reserved fields clear |
| Dispatcher.DecodeOps | reference-termux-glibc-compat/src/broker_dispatch.c:145-154 | the decoding loop yields the batch at an offset, or nothing if a reserved field is set |
| Dispatcher.EncodeMetadata | reference-termux-glibc-compat/src/broker_dispatch.c:167-183 | writes the 56 bytes of a metadata response |
| Dispatcher.ScanUndo | reference-termux-glibc-compat/src/broker_server.c:451-475 | the scan loop, as the broker runs it on every request, decides whether some operation of a well-formed batch has SEM_UNDO |
| Dispatcher.Execute | reference-termux-glibc-compat/src/broker_dispatch.c:260-333 | runs any store call in place with the code and data the model gives |
| Dispatcher.DispatchRequest | reference-termux-glibc-compat/src/broker_dispatch.c:260-333 | a request buffer is refused, or performed on the store with the model's response written to the response buffer; the request is untouched |
| WireLaws.BuildIff | reference-termux-glibc-compat/src/client.c:141-408 | a client sends a request if and only if its arguments are in range, call by call, and otherwise returns -EINVAL |
| WireLaws.RequestLayout | reference-termux-glibc-compat/src/client.c:141-408 | every request a client sends, operation code and fields each at its place |
| WireLaws.TakenIff | reference-termux-glibc-compat/src/broker_dispatch.c:30-333 | the dispatcher takes a packet if and only if some client call sends it, other than a semget with unknown flags, and takes it as that very call |
| WireLaws.RefusedWhy | reference-termux-glibc-compat/src/broker_dispatch.c:30-333 | every refusal: -ENOSYS for an unknown code, -EMSGSIZE for a wrong length, -EINVAL for a field out of range, -EPROTO for a reserved field |
| WireLaws.ResponseLayout | reference-termux-glibc-compat/src/broker_dispatch.c:19-258 | every response, header and fields each at its place; a refusal carries no data |
| WireLaws.BelievedIff | reference-termux-glibc-compat/src/client.c:93-101 | a response is believed for a request if and only if it was written for one with the same code and number |
| WireLaws.DoubtedIff | reference-termux-glibc-compat/src/client.c:93-101 | any other packet is not believed, a refusal with data included |
| WireLaws.InterpretStrict | reference-termux-glibc-compat/src/client.c:111-139 | what the client hands on as data is laid out in the response; an error is handed on as it is; anything else is a protocol error |
| Remote.OperateParses | reference-termux-glibc-compat/src/client.c:260-287 | for every identifier, 1..512 operations and optional non-negative timeout, the request fits and the dispatcher reads the identical batch and timeout |
| Remote.BuildParses | reference-termux-glibc-compat/src/client.c:141-408 | every request any client call builds is read by the dispatcher as that very call |
| Remote.ReplyReadsBack | reference-termux-glibc-compat/src/client.c:214-408 | the client reads back the result and data of any response the dispatcher writes; a BLOCKED semop is a protocol error |
| Remote.RemoteRefinesLocal | reference-termux-glibc-compat/src/client.c:65-408 | a remote call leaves the store a direct call leaves and returns what it returns |
| ClientCalls.CallOverTheWire | reference-termux-glibc-compat/src/client.c:65-408 | the same through framing both ways: request and response survive the stream whatever follows them, the response correlates, and the caller gets the result of the direct call |
| ClientCalls.BuildSemop | reference-termux-glibc-compat/src/client.c:260-284 | the request buffer is filled with exactly the request the model builds |
| ClientCalls.Client.EnsureConnection | reference-termux-glibc-compat/src/client.c:49-63 | keeps the socket if and only if the calling process opened it; otherwise drops it and takes a new one, or reports the failure |
| ClientCalls.Client.Exchange | reference-termux-glibc-compat/src/client.c:65-102 | numbers and sends the request, and succeeds only with a correlated response that is the next packet of the stream; any failure closes the connection |
| ClientCalls.Client.Semop | reference-termux-glibc-compat/src/client.c:260-287 | refuses bad arguments and changes nothing; otherwise keeps or opens a connection, returns the failure if it cannot, and leaves the client record as `Connections` says; while the connection is kept the numbered batch was sent and the result is what the correlated response means; a failure closes the connection and is negative |
| Connections.BeginRecord | reference-termux-glibc-compat/src/client.c:49-85 | a call that begins leaves the client record the class leaves after it connects and numbers the request |
| Connections.FinishRecord | reference-termux-glibc-compat/src/client.c:65-102 | a call that ends leaves the client record the class leaves: kept on an accepted response, closed otherwise |
| Connections.NextExclusive | reference-termux-glibc-compat/src/client.c:37-139 | every call step, broker step, hang-up, close and fork keeps connections exclusive: one owner each, empty when idle, at most the one call in progress otherwise |
| Connections.SendsOnCleanOwnConnection | reference-termux-glibc-compat/src/client.c:49-85 | over every run, a call sends only on a connection its own process opened, that no other client owns and that holds no request or response of an earlier call |
| Connections.NoStaleAnswer | reference-termux-glibc-compat/src/client.c:65-102 | over every run, a response that is accepted answers the very call that accepts it |
| Connections.ConnectionsStayHome | reference-termux-glibc-compat/src/client.c:49-63 | over every run, a client with a call in progress is on a connection opened by its own process |
| Connections.CallCompletes | reference-termux-glibc-compat/src/client.c:49-102 | in any reachable state an idle client that can connect sends alone on a connection of its own process, and if the broker answers with a correlated response reads exactly that one, accepts it and keeps the connection, open and empty |
| Connections.IdsGoRound | reference-termux-glibc-compat/src/client.c:76-80 | after k calls the request number is ((n - 1 + k) mod 4294967295) + 1, so numbering alone does not tell calls apart |
| Timeouts.WireTimeoutExact | reference-termux-glibc-compat/integration/termux-glibc/overlay/tgcompat-glibc.c:246-276 | a timeout is accepted if and only if it is well formed and its total fits in 64 bits, with the right error otherwise, and the total splits back into the same pair |
| Timeouts.DeadlineExact | reference-termux-glibc-compat/src/broker_server.c:377-403 | the deadline is normalised, equals now plus the timeout while the seconds stay within INT_MAX, and saturates otherwise |
| Timeouts.CompareIsOrder | reference-termux-glibc-compat/src/broker_server.c:366-375 | comparing normalised times field by field is comparing instants |
| Timeouts.EndToEnd | reference-termux-glibc-compat/src/broker_server.c:377-403 | from the libc arguments to the stored deadline: exactly that many seconds and nanoseconds after now |
| Timeouts.WakeByBounds | reference-termux-glibc-compat/src/broker_server.c:405-437 | a sleep ends a quarter second on, or at the deadline if that is sooner |
| BrokerRuns.TimeoutNeverEarly | reference-termux-glibc-compat/src/broker_server.c:607-623 | over every run, a timeout reply goes only to a timed request and never before its stored deadline; that is never before its timeout has passed since it was submitted, provided the clock readings are normalised and start seconds plus timeout / 10^9 stay within INT_MAX |
| Timeouts.SleepLimit | reference-termux-glibc-compat/src/broker_server.c:405-437 | the end of a sleep as the code works it out is the bound of the model; BrokerServer sleeps until it |
| WaiterQueue.WaiterQueue.Enqueue | reference-termux-glibc-compat/src/broker_server.c:305-315 | the pointers represent the old sequence with the node appended |
| WaiterQueue.WaiterQueue.Remove | reference-termux-glibc-compat/src/broker_server.c:317-337 | the pointers represent the old sequence without exactly that node, tail included; nothing changes if it is not queued |
| WaiterQueue.WaiterQueue.IsFirstForSet | reference-termux-glibc-compat/src/broker_server.c:339-352 | true for a queued node if and only if no earlier node has the same set identifier |
| BrokerServer.BrokerServer.WatchProcess | reference-termux-glibc-compat/src/broker_server.c:477-509 | one pass over the watcher table: already watched, table full, lookup failure or the first free slot taken, as in the model |
| BrokerServer.BrokerServer.FinishWaiter | reference-termux-glibc-compat/src/broker_server.c:439-449 | unlinks the waiter, takes back its count whatever that returns, and wakes everyone |
| BrokerServer.BrokerServer.Settle | reference-termux-glibc-compat/src/broker_server.c:588-624 | one pass of the retry loop up to the next sleep leaves the broker and reply of the model |
| BrokerServer.BrokerServer.Wake | reference-termux-glibc-compat/src/broker_server.c:605-624 | a wake-up, with its failures and its deadline check, leaves the broker and reply of the model |
| BrokerServer.BrokerServer.Submit | reference-termux-glibc-compat/src/broker_server.c:525-587 | a new request, watched if it uses SEM_UNDO, dispatched, and queued if it blocks, leaves the broker and reply of the model |
| BrokerServer.BrokerServer.ReapExited | reference-termux-glibc-compat/src/broker_server.c:152-168 | the monitor loop replays and forgets exactly the exited watched processes |
| BrokerServer.BrokerServer.ScanOnce | reference-termux-glibc-compat/src/broker_server.c:145-194 | a scan ends in the wait that suits what is left to watch, or ends the monitor |
| BrokerSafety.BlockedResponse | reference-termux-glibc-compat/src/broker_server.c:545-572 | a response that says BLOCKED means the store is untouched, the batch would block, and its reason reads back |
| BrokerSafety.SubmitSafe | reference-termux-glibc-compat/src/broker_server.c:525-606 | a request keeps the broker safe: invariants, no lost wake-up, monitor awake when needed |
| BrokerSafety.WakeSafe | reference-termux-glibc-compat/src/broker_server.c:588-624 | a wake-up keeps the broker safe |
| BrokerSafety.ScanSafe | reference-termux-glibc-compat/src/broker_server.c:145-194 | a scan keeps the broker safe, though it announces only replays that changed something |
| BrokerRuns.NoLostWakeups | reference-termux-glibc-compat/src/broker_server.c:291-303 | over every run, a sleeper behind no waiter with the same set identifier and not yet woken would block again, whenever tried |
| BrokerRuns.MonitorNeverMisses | reference-termux-glibc-compat/src/broker_server.c:145-194 | over every run, the monitor waits without a limit and unwoken only when nobody is watched, and then, if peers close, nobody owes an adjustment |
| BrokerRuns.CountersAgree | reference-termux-glibc-compat/src/broker_server.c:559-588 | over every run, each counter of a live set equals the number of queued waiters recorded under it, through removal and reuse of slots, while no waiter outlives 32767 removals of its slot |
| BrokerRuns.DecrementFailsOnlyIfRemoved | reference-termux-glibc-compat/src/broker_server.c:439-449 | over every such run, taking back a waiter's count succeeds if and only if its set has not been removed |
| BrokerEpochs.NewSetCountsIff | reference-termux-glibc-compat/src/sem_store.c:224-245 | a new set starts with counters that agree with the queue if and only if no queued waiter holds its identifier under one of its semaphores |
| BrokerRuns.RetriesInOrder | reference-termux-glibc-compat/src/broker_server.c:588-606 | over every run, batches of one set that commit on retry commit in the order they were queued |
| BrokerRuns.RetryIsEarliest | reference-termux-glibc-compat/src/broker_server.c:596-606 | over every run, a sleeper that retries is older than every other waiter for its set, and its result is the store's own and not BLOCKED |
| BrokerRuns.OwingIsWatchedOnce | reference-termux-glibc-compat/src/broker_server.c:451-509 | over every run in which retries find the connections of exited processes closed, every process with an undo adjustment has exactly one active watcher |
| BrokerCoverage.CommitCoversIff | reference-termux-glibc-compat/src/broker_server.c:595-606 | a retry keeps every debtor watched if and only if, before it, its process is watched, or its batch cannot run now, or its SEM_UNDO operations sum to zero on every semaphore |
| BrokerCoverage.OwesAfterIff | reference-termux-glibc-compat/src/sem_store.c:605-628 | a process that owed nothing owes something after semop if and only if the batch can run and its SEM_UNDO operations do not sum to zero on some semaphore |
| BrokerWitness.DebtorUnwatched | reference-termux-glibc-compat/src/broker_server.c:145-194 | a run of five steps after which a process that is gone owes an adjustment and no watcher replays it: a SEM_UNDO batch blocks, a scan reaps its process, the value is raised, and the batch commits on a connection still open |
| BrokerAnswers.ArrivalTells | reference-termux-glibc-compat/src/broker_server.c:525-587 | over every run, a client call answered as it arrives reads the result and data of the direct call on the broker's store, which is left as that call leaves it; the only other answers are a refused watch and the one to a closed peer |
| BrokerAnswers.RetryTells | reference-termux-glibc-compat/src/broker_server.c:588-624 | over every run, a client call answered after waiting reads the result and data of the direct call on the store of that very step; or -EAGAIN and no data if its time is up; the only other answer is the one to a closed peer |
| BrokerRuns.OpenNeverBlocked | reference-termux-glibc-compat/src/broker_server.c:589-624 | over every run, a semop is answered BLOCKED only if its connection was found closed |
| BrokerRuns.AnsweredOnce | reference-termux-glibc-compat/src/broker_server.c:588-624 | over every run, a wake-up that answers removes exactly that waiter, and one that does not leaves the queue as it was |
| BrokerWakes.WakeMeans | reference-termux-glibc-compat/src/broker_server.c:588-624 | over every run, all of a wake-up: hang-ups for failed waits and clocks, the timeout, the closed peer, back to sleep behind an earlier waiter for the set, and otherwise whatever the store's semop says now; with who leaves the queue, whose count is taken back and who is woken |
| BrokerWakes.FirstIsServed | reference-termux-glibc-compat/src/broker_server.c:596-606 | over every run, a sleeper with no earlier waiter for its set that wakes with no failure, an open peer and time left is answered if and only if the store's semop does not block now, with its code and data, and its effect stays |
| BrokerWakes.LaterWaits | reference-termux-glibc-compat/src/broker_server.c:589-596 | over every run, behind an earlier waiter for its set a sleeper goes back to sleep, whatever the store holds |
| BrokerWakes.TimeoutIff | reference-termux-glibc-compat/src/broker_server.c:607-623 | over every run, with working clocks and a deadline within INT_MAX seconds, a wake-up times out if and only if its request is timed and its timeout has passed since it was submitted |
| BrokerWakes.TimeoutAnswer | reference-termux-glibc-compat/src/broker_server.c:616-623 | over every run, the caller of a request that times out gets -EAGAIN and no data in a packet that answers its request, and values, last processes and adjustments stay |
| BrokerScans.ScanMeans | reference-termux-glibc-compat/src/broker_server.c:145-194 | over every run, a scan whose wait did not fail forgets watcher i if and only if it was active and found exited; a process owes afterwards if and only if it owed and no watcher of it was found exited; sets and balances are those of exactly those exits, in table order, on the map; all are woken if and only if one of them owed; and the next wait is timed if and only if someone is left to watch |
| BrokerArrivals.WatchIs | reference-termux-glibc-compat/src/broker_server.c:477-509 | registering a process: nothing if it is watched, -ENOSPC if every slot is taken, the lookup's error if it fails, and otherwise the first free slot |
| BrokerArrivals.ArrivalMeans | reference-termux-glibc-compat/src/broker_server.c:525-606 | over every run, all of an arrival: registered first if and only if an operation has SEM_UNDO, refused if that fails, answered at once with the direct result unless it is a batch that blocks, and then counted under what it waits for, queued last with its deadline and passed once through the retry loop |
| BrokerArrivals.RefusedArrival | reference-termux-glibc-compat/src/broker_server.c:525-555 | over every run, a packet that is no plain request is dropped with -EPROTO and one the dispatcher refuses is answered with that error and no data; store and queue stay |
| BrokerArrivals.WaitersCounted | reference-termux-glibc-compat/src/sem_store.c:405-415 | over every run in which no waiter outlives 32767 removals of its slot, GETNCNT and GETZCNT return the number of queued batches that wait for that semaphore in that way |
| Shim.AgreeIff | steam-sysv-shim.c:123-159 | for every batch whatever, SEM_UNDO included: a pass of the shim blocks, gives EAGAIN or applies exactly as the store's semop, with equal values, if and only if the batch is non-empty and valid, the store's undo table can take it when nothing stops it, and either no operation is refused at the start values and all pass in sequence, or the first refused and the first failing operation both exist, agree on IPC_NOWAIT, and the failing one does not overflow |
| Shim.ImplementationsAgree | steam-sysv-shim.c:123-159 | corollary that a caller can check at once: for a non-empty batch naming each semaphore at most once, in range, with no flag but IPC_NOWAIT and no sum above 32767, one pass blocks, gives EAGAIN or applies exactly as the store's semop, with equal values |
| Shim.TwiceDisagrees | steam-sysv-shim.c:131-155 | with a semaphore named twice the shim applies what the store blocks, and wraps the value |
| Shim.OverflowDisagrees | steam-sysv-shim.c:153-155 | past the limit the shim applies what the store refuses |
| Shim.PassIff | steam-sysv-shim.c:131-150 | a pass proceeds if and only if every operation names a semaphore whose value before the batch allows it; otherwise the first that does not decides, EFBIG for the index, EAGAIN or waiting for the value |
| Shim.ApplyMeaning | steam-sysv-shim.c:153-155 | applying leaves value plus the sum of its operations, modulo 65536 |
| Shim.ShimGetFinds | steam-sysv-shim.c:40-52 | a public key in use gives its set, or EEXIST to an exclusive creation |
| Shim.ShimGetMakes | steam-sysv-shim.c:53-68 | any other key: ENOENT if and only if public and without IPC_CREAT, then ENOSPC, then EINVAL unless the size is 1..32, otherwise the first free slot, all zero |
| Shim.ShimGetStable | steam-sysv-shim.c:36-68 | semget keeps the table well formed and its keys unique, and asking again for a public key finds the same set |
| Shim.Table.SemGet | steam-sysv-shim.c:36-68 | one pass looks for the key and the first free slot together, with the table and result of the model |
| Shim.Table.SemOpPass | steam-sysv-shim.c:123-159 | the check loop and the apply loop in place, with the verdict and values of the model |
| Vdf.LexAppend | configure-steam-default-compat.py:10 | lexing a text with no unclosed quote and then whatever follows is lexing the two apart |
| VdfLaws.LexFinds | configure-steam-default-compat.py:10 | the tokens of a text are the matches of the pattern, found one behind the other |
| VdfLaws.FindsOnce | configure-steam-default-compat.py:10 | and there is only one such list |
| VdfLaws.DepthCounts | configure-steam-default-compat.py:17-26 | the running depth is the number of opening less the number of closing braces |
| VdfLaws.ClosesIff | configure-steam-default-compat.py:17-26 | a block ends at a brace if and only if that brace matches its opening |
| VdfLaws.DefaultDecides | configure-steam-default-compat.py:70-85 | with a default in the first mapping, its first name decides: kept if it is one of the three tools of this system or does not start with proton_, otherwise renamed; refused without a name |
| VdfLaws.InsertionDecides | configure-steam-default-compat.py:69-101 | without a default an entry goes before the mapping's closing brace, without a mapping one goes before that of the first Steam block; an open block or no Steam block is refused |
| VdfLaws.OpenDefault | configure-steam-default-compat.py:36-49 | a default that is not closed is refused |
| VdfLaws.DefaultTool | configure-steam-default-compat.py:75-85 | on the text itself: a kept tool leaves it as it is, any other name is replaced and nothing else |
| VdfLaws.EntryText | configure-steam-default-compat.py:57-66 | the entry written, line by line |
| VdfLaws.MappingText | configure-steam-default-compat.py:97-100 | the mapping written around it |
| VdfLaws.InsertionText | configure-steam-default-compat.py:52-101 | an insertion puts that text, indented like the brace, before the brace and changes nothing else |
| VdfEdit.FindBlockEnd | configure-steam-default-compat.py:17-26 | the depth loop returns the first brace that closes the nesting opened at the start, or finds none |
| VdfEdit.BlockEndMatches | configure-steam-default-compat.py:17-26 | that brace is the matching one: what it encloses is balanced and never closes below its level |
| VdfEdit.BalancedCloses | configure-steam-default-compat.py:17-26 | in balanced text every opening brace has one |
| VdfEdit.FindNamedBlock | configure-steam-default-compat.py:29-33 | the first name followed by an opening brace, with its matching brace |
| VdfEdit.FindChildBlock | configure-steam-default-compat.py:36-49 | the first such name directly inside the block, with its matching brace |
| VdfEdit.ConfigureText | configure-steam-default-compat.py:69-101 | the whole edit, branch by branch, gives the text and tool of the model |
| VdfTwice.EditIsMinimal | configure-steam-default-compat.py:69-101 | on text whose gaps are space and whose spliced brace is first on its line, a successful run keeps the text, replaces one string word, or inserts one balanced entry or mapping before one brace, all other words in order |
| VdfTwice.ConfigureTwice | configure-steam-default-compat.py:69-101 | on such text, running it again changes nothing and reports the same tool |
| VdfLines.LineCases | configure-steam-default-compat.py:52-54 | a line of text whose gaps are space has such gaps itself; or it starts inside a string, and then either reads as words of its own or begins with a brace or a string of blanks |
| VdfTwice.MinimalIff | configure-steam-default-compat.py:52-101 | on text whose gaps are space, an insertion is minimal if and only if the brace is first on its line, also where the line starts inside a string |
| VdfTwice.OneLineIsNotMinimal | configure-steam-default-compat.py:52-66 | on a mapping written on one line the insertion writes the mapping's key again |

## Left out

- Socket creation, permission checks, peer credentials, pidfd and `/proc` reads, thread creation, daemon startup and shutdown: operating-system calls whose answers are parameters.
- Allocation failure, except as a refusal that changes nothing.
- The libc overlay apart from its timeout check: it copies operations field by field and maps results to errno.
- semctl of the shim, and the waiting between passes of its semop: single assignments, and a re-run of the same pass.
- The editor's command line and file handling.
- The Steamworks bridge, the other preload shims, the download and packaging scripts.
- Shim.Table.SemOpPass: one pass only; a caller that must wait runs another pass after a broadcast.
- BrokerServer.BrokerServer.Submit: the packets of a blocked thread are values held by its queue node, not the thread's own buffers; decoding and encoding in buffers is `Dispatcher`.
- BrokerServer.BrokerServer.Settle: as for Submit, the last response of a blocked thread is a value.
- BrokerRuns.CountersAgree: states agreement only while `current` holds; `BrokerEpochs.NewSetCountsIff` says exactly which new set would break it.
- BrokerRuns.OwingIsWatchedOnce: states coverage only while `closed` holds, since it fails otherwise: `BrokerWitness.DebtorUnwatched` is such a run, and `BrokerCoverage.CommitCoversIff` says, before a retry, exactly when it keeps coverage.
- BrokerRuns.TimeoutNeverEarly: promises the full timeout only while the deadline's seconds stay within INT_MAX, since `Timeouts.DeadlineExact` shows that beyond it the stored deadline is earlier.
- Connections.NoStaleAnswer: a fork happens between the calls of the client record it copies, and process numbers are not reused.
- ClientCalls.Client.Semop: the other client calls are built as values (`Remote.Build`), since they only write fixed fields.
- Vdf.LexAppend: the token pattern is modelled by a scanner written for it, not by a regular-expression engine.
