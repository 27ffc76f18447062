# Verification of the virtio-accel protocol stack

virtio-accel lets a guest drive an accelerator through a virtqueue. The guest sends framed commands; the device decodes
them, keeps a graph of contexts, buffers, programs, queues and events, calls a provider backend, and answers. This
project is a Dafny model of the device side of protocol 1.0 and of the parts of the Core ML provider that carry hard
invariants. `dafny verify dfyconfig.toml` checks all of it.

## What is proved

**Commands and runs.** `Commands.CommandMove` is a pure reference for every opcode: the next object graph, the
quarantine, the backend calls made, the response status and payload. `Engines.Processor` is the engine as the source
writes it, with fields updated in place, and `Processor.Process` performs exactly that move for every backend behaviour
(each backend call consults an arbitrary oracle). Every move keeps the object graph exact and the books balanced:
what the backend handed out and has not taken back equals what is live plus what is quarantined, per object kind and for
both byte totals.

**What commands mean.** `Meanings` says of each command, in terms of live objects and their fields alone, when it reaches
the backend and what follows. A submission is put to the backend exactly when queue, program and every buffer are there in
one context, the event fits quota and table, memory suffices, and every binding lies in its buffer and in what the buffer
was declared for; otherwise nothing changes and the status is that of the first thing wrong. A buffer is published exactly
as requested and within policy, or freed again before anyone learns its identifier. An object is destroyed exactly when
no live object depends on it.

**Whole lives.** `Lives.Run` lets anything arrive at a device: any byte string in any chain layout and segmentation, any
fault of the response buffer, any order of resets, any backend. In every state of every such life the graph is exact, the
books balance and quarantine means discard; calls only accumulate; and a device whose backend must be discarded never calls
it again, changes no object and repeats its report (`Lives.LivesAreSound`). `Lives.IdentifiersAreForOnce` adds what the
protocol promises about identifiers: once an issued one does not resolve it never resolves again, across every command
and reset, and no identifier is published twice, whatever its kind. The engine refuses only the namespace in force, so
this holds under the rule the source puts on its caller, that namespaces are not reused; `Lives.NamespacesMustBeFresh`
shows that identifiers repeat exactly when namespaces do, and `Lives.NamespaceComesBack` is the smallest case.

**A remote call.** `Devices.Call` joins all layers. A valid request, sent as its canonical frame in any scattering to a
running device, makes the device perform exactly the move of that request, and the guest recovers exactly the meaning of
that move from the response bytes; data read from a buffer arrives as the backend answered it.

**Reset.** `Processor.Reset` conserves every column of the books, makes at most four calls per event and one per other
object, works through events, queues, programs, buffers and contexts in that order, makes no call after an indeterminate
release, leaves every old identifier stale when the backend is reusable, and is reusable whenever the backend is willing.
It also returns, as a ghost, the list of its visits, which accounts for every call and every object: an event is destroyed
only right after the backend called it finished or cancelled it, an event left pending is still there and makes the backend
unusable, each object is visited at most once, and the report is unusable exactly when some visit or refusal explains it.

**Object table.** Over every history of inserts and removals an identifier is never issued twice and never resolves
again after its removal. An insertion is refused exactly when every slot is live or retired and the table is at its bound or
cannot grow; a removed slot is reused before the table grows, last freed first.

**Object graph.** Child counters, reference counters and retained bytes equal what the live records imply, so no
counter can overflow, no release commit can fail, and a refused submission restores the graph exactly.

**Wire format.** The clean-room codec is a bijection between valid requests and accepted byte strings, and its in-place
encoder writes exactly that encoding. The production decoder accepts a frame exactly when the clean-room decoder accepts
it and the limits, memory domains and response capacity allow it, and yields the same fields with bindings sorted by slot;
what it refuses, it refuses for the reason the clean-room decoder sees.
It reads through any segmentation of the frame with the same outcome. `Devices.Serve` joins decoding and execution: a frame
that an independent decoder rejects can touch neither the objects nor the backend, and an accepted one leaves exactly its
response in the buffer.

**Byte ports and responses.** Segment loops refine flat reads and writes through any nesting of regions. A response is
header then payload and nothing past it, in one write or in 4096-byte chunks, and the header is written last. Once
preflight passes, only the sink itself can make a response fail. The guest's decoders recover the outcome of every
response the engine can write, and accept nothing but the encoding of an outcome their request can have; device information
is accepted exactly when the largest artifact fits a request.

**Core ML provider.** Allocation counters are exact in every interleaving of acquisitions and drops; preparing a
submission holds each allocation once at its strongest access or gives everything back. Binding admission matches
bindings and slots one to one. Its four-word bitmap covers 256 slots: a plan can overrun it exactly when it has more.
A path artifact has at most 256 mappings, so its plan never does. A lowered program has one slot per feature, and neither
lowering nor its plan bounds their number: with more than 256 no submission is admitted and some submission reaches the
failing index (`Programs.LoweredProgramsFit`).
The emitted INT8 MATMUL computes the exact zero-point-adjusted product exactly when the inner dimension is at most 33025.
The path artifact codec is a bijection, its string test accepts exactly Unicode text, and protobuf framing parses uniquely
to any depth.

## Layout

| file | content |
|---|---|
| bytes.dfy, sorting.dfy, merging.dfy | little-endian fields, sorting by key, sort-and-merge |
| object_table.dfy | identifiers and the generational table |
| graph.dfy, graph_laws.dfy, graph_effects.dfy, device_state.dfy | the object graph, its invariant, the state that maintains it |
| wire.dfy, ledger.dfy | requests, statuses, the backend, the books and what one step owes |
| commands.dfy, meanings.dfy, quotas.dfy | the moves of commands, what they mean for the objects, quotas against tables |
| reset_laws.dfy, reset_log.dfy, engine.dfy | the laws of reset, its visits one by one, the engine |
| identity.dfy, lifetimes.dfy, life.dfy | how identifiers age, what commands issue, whole lives of a device |
| cleanroom.dfy, decoder.dfy, agreement.dfy | the two codecs and their agreement |
| regions.dfy, response.dfy, frame.dfy, device.dfy, guest.dfy | byte ports, response framing, preflight, one whole chain, the guest |
| backings.dfy, admission.dfy, programs.dfy, matmul.dfy, artifact.dfy, protobuf.dfy | the Core ML provider |

## Modelling choices

- Identifiers are records of slot, kind tag, generation and namespace. `ObjectTables.PackingIsBijective` ties them to the
  packed 64-bit words.
- The five object tables are one map keyed by kind, with one record type. The five near-identical destroy handlers and the
  four later reset passes are one method each with the kind as a parameter.
- Machine counters and totals are unbounded integers. The graph invariant and `GraphLaws.ReferencesFit` bound them, so the
  widths of the source are never reached.
- The backend is a function from the number of the call to its answers. The trace records each call with its effect.
- A provider callback inside state admission is split into the steps before and after it: `BeginEvent`, then `FinishEvent`
  or `AbortEvent`.
- Allocation failure and a response port that cannot be written are inputs. An internal error the source guards against
  but cannot reach is an assertion in the model.
- Saturating sums of object counts and bytes are plain sums.
- The library's unstable sort is any sorted permutation; with distinct keys there is only one
  (`Sorting.SortedPermutationIsUnique`).
- The clean-room decoder keeps bindings encoded and reads them on demand. The model gives them by the values read and
  checks their length and reserved bytes when the payload is decoded; both failures have the same error.
- Borrowed tails (transfer data, artifacts) are the bytes they denote. Strings are their UTF-8 bytes.
- To the engine a response port is a capacity, a frame limit and which responses it will take; `Responses.ResponseSink` is
  the same port byte by byte, and `Devices.Execute` proves that the one predicts the other.
- A provider that reads a buffer stores through the payload region before the header is written. What it stores comes from
  the backend's answer, and a fault of the port during that store is part of the answer.

## Model

| member | source | states |
|---|---|---|
| `ObjectTables.PackingIsBijective` | crates/virtio-accel-device/src/object_table.rs:54-75 | the packed form is a bijection between identifiers and 64-bit words, and an issued identifier is never zero |
| `ObjectTables.IssuedWord` | crates/virtio-accel-device/src/object_table.rs:54-75 | an issued word carries slot and kind where the protocol has them, kinds numbered from context to event |
| `ObjectTables.InsertKeepsValid` | crates/virtio-accel-device/src/object_table.rs:180-202 | an insertion keeps every slot exactly one of live, free (once) or retired, with an exact live count |
| `ObjectTables.RemoveKeepsValid` | crates/virtio-accel-device/src/object_table.rs:220-233 | a removal keeps the same, retiring the slot whose generation is exhausted |
| `ObjectTables.NextIdSkipsNothing` | crates/virtio-accel-device/src/object_table.rs:235-249 | the cursor scan names the next live slot and skips none |
| `ObjectTables.NeverReissued` | crates/virtio-accel-device/src/object_table.rs:155-202 | along any history the issued identifiers are pairwise distinct and none had been issued before |
| `ObjectTables.ResolvesUntilRemoved` | crates/virtio-accel-device/src/object_table.rs:204-272 | a live identifier keeps its value through any history that does not remove it; an issued dead one is stale for ever |
| `ObjectTables.RemovedNeverRevives` | crates/virtio-accel-device/src/object_table.rs:220-272 | a removed identifier never resolves and is never issued again, whatever follows |
| `ObjectTables.ForeignIdsNeverResolve` | crates/virtio-accel-device/src/object_table.rs:251-272 | identifiers of another kind or namespace are refused as such |
| `ObjectTables.InsertionRoom` | crates/virtio-accel-device/src/object_table.rs:155-178 | an insertion is refused exactly when no slot is vacant and the table is at its bound or there is no memory to grow it |
| `ObjectTables.FreedIsReused` | crates/virtio-accel-device/src/object_table.rs:180-233 | along any history, a slot that was freed and is not used since is handed out before the table grows, the last freed one first |
| `ObjectTables.ObjectTable.constructor` | crates/virtio-accel-device/src/object_table.rs:107-131 | a new table is valid and empty |
| `ObjectTables.ObjectTable.TryInsert` | crates/virtio-accel-device/src/object_table.rs:155-202 | full exactly when every slot is live or retired and the table is at its bound; out of memory exactly when it would have to grow and cannot; otherwise it issues a never-issued identifier resolving to the value, growing only without a vacancy, and leaves all others alone; a failure changes nothing |
| `ObjectTables.ObjectTable.TryRemove` | crates/virtio-accel-device/src/object_table.rs:220-233 | a removal returns the value, makes the identifier stale and leaves all others alone; a failure changes nothing |
| `ObjectTables.ObjectTable.NextIdFrom` | crates/virtio-accel-device/src/object_table.rs:235-249 | the loop returns the first live identifier at or after the cursor |
| `Graphs.NewGraphInv` | crates/virtio-accel-device/src/state.rs:507-550 | a new device state is exact and has no object |
| `GraphLaws.ReSlotKeepsInv` | crates/virtio-accel-device/src/state.rs:79-115 | taking a resource out of an unheld record, or putting one back, keeps the graph exact |
| `GraphLaws.AdmittedKeepsInv` | crates/virtio-accel-device/src/state.rs:682-828 | admitting a context, buffer, program or queue with its parent counter and bytes keeps the graph exact |
| `GraphLaws.UnownedKeepsInv` | crates/virtio-accel-device/src/state.rs:1000-1100 | removing an unheld one with its parent counter and bytes keeps the graph exact |
| `GraphLaws.UnheldIsUnnamed` | crates/virtio-accel-device/src/state.rs:984-1115 | what nothing holds is named by no live record |
| `GraphLaws.AdmittedEventKeepsInv` | crates/virtio-accel-device/src/state.rs:830-910 | admitting an event with all its references keeps every counter exact |
| `GraphLaws.DroppedEventKeepsInv` | crates/virtio-accel-device/src/state.rs:1117-1134 | committing the release of an event drops exactly its references |
| `GraphLaws.RefsUndone` | crates/virtio-accel-device/src/state.rs:1244-1304 | dropping the references a submission took restores the graph exactly |
| `GraphLaws.ReferencesFit` | crates/virtio-accel-device/src/state.rs:1198-1242 | no reference counter reaches 2^32, also after one more submission |
| `DeviceStates.ContextCheckAdmits` | crates/virtio-accel-device/src/state.rs:682-697 | the context checks suffice for admission |
| `DeviceStates.ChildCheckAdmits` | crates/virtio-accel-device/src/state.rs:1136-1153 | the parent, quota and table checks suffice for admitting a child |
| `DeviceStates.EventCheckAdmits` | crates/virtio-accel-device/src/state.rs:830-855 | the submission checks suffice for admitting the event |
| `Meanings.ContextRefusals` | crates/virtio-accel-device/src/state.rs:682-697 | the context check refuses exactly for an exhausted limit or table, or a table that cannot grow, with the error of each |
| `Meanings.ChildRefusals` | crates/virtio-accel-device/src/state.rs:1136-1153 | the child check refuses exactly for a missing context, a context owning its quota, an exhausted table, or one that cannot grow |
| `Meanings.SubmissionRefusals` | crates/virtio-accel-device/src/state.rs:1155-1176 | a submission is refused for the first of queue, program, their contexts and the buffers in order that is missing or foreign, and otherwise for none |
| `Meanings.EventRefusals` | crates/virtio-accel-device/src/state.rs:830-855 | and beyond its objects exactly for its context's quota of events or the event table; the event names each buffer as often as it is bound |
| `Quotas.QuotasSuffice` | crates/virtio-accel-device/src/state.rs:507-550 | until identifiers are used up, a context below its quota finds room in the table: other contexts cannot crowd it out |
| `DeviceStates.EventRevalidates` | crates/virtio-accel-device/src/state.rs:1117-1126 | a live event still passes the validation of its admission, so committing its release cannot fail on it |
| `DeviceStates.SubmissionFits` | crates/virtio-accel-device/src/state.rs:1198-1242 | the overflow check never rejects a submission that passed the others |
| `DeviceStates.NewDeviceState` | crates/virtio-accel-device/src/state.rs:507-550 | construction succeeds exactly for limits whose tables and counters fit, and yields an exact empty graph; otherwise the error names the first kind of limit that fails |
| `DeviceStates.DeviceState.constructor` | crates/virtio-accel-device/src/state.rs:507-550 | the fields are those of the new graph |
| `DeviceStates.DeviceState.Find` | crates/virtio-accel-device/src/state.rs:635-660 | lookup returns the live record or the error of its table |
| `DeviceStates.DeviceState.Insert` | crates/virtio-accel-device/src/state.rs:682-828 | the new state is the admitted graph, exact, with a fresh identifier for the record |
| `DeviceStates.DeviceState.BeginRelease` | crates/virtio-accel-device/src/state.rs:984-1108 | succeeds exactly for a live, unheld, unreleased record, takes its resource out and changes nothing else; a failure changes nothing |
| `DeviceStates.DeviceState.Restore` | crates/virtio-accel-device/src/state.rs:1389-1404 | puts a resource back exactly into a releasing record; a failure changes nothing, and is an invalid transition exactly for a live record |
| `DeviceStates.DeviceState.CheckReferenceIncrements` | crates/virtio-accel-device/src/state.rs:1198-1242 | the run-length loop passes exactly when each distinct object has room for all its references |
| `DeviceStates.DeviceState.ValidateSubmission` | crates/virtio-accel-device/src/state.rs:1155-1176 | queue, program and every buffer are present, unreleased and in one context |
| `DeviceStates.DeviceState.ShiftReferences` | crates/virtio-accel-device/src/state.rs:1244-1304 | the loops add or drop exactly the references of one event |
| `DeviceStates.DeviceState.CommitEvent` | crates/virtio-accel-device/src/state.rs:1117-1134 | succeeds exactly for a releasing event and leaves the graph without it and its references |
| `DeviceStates.DeviceState.CommitOwned` | crates/virtio-accel-device/src/state.rs:1000-1100 | succeeds exactly for a releasing record and leaves the graph without it, its parent count and its bytes |
| `DeviceStates.DeviceState.Commit` | crates/virtio-accel-device/src/state.rs:1000-1134 | a releasing record of any kind can always be committed, and the graph stays exact |
| `DeviceStates.DeviceState.BeginEvent` | crates/virtio-accel-device/src/state.rs:837-866 | takes the references of a submission exactly when every check passes |
| `DeviceStates.DeviceState.FinishEvent` | crates/virtio-accel-device/src/state.rs:901-910 | records an admitted event: the graph is the one with the event and its references |
| `DeviceStates.DeviceState.AbortEvent` | crates/virtio-accel-device/src/state.rs:887-899 | a refused submission leaves the graph it started from |
| `GraphEffects.ReleasedEffect` | crates/virtio-accel-device/src/state.rs:984-1134 | a completed release removes exactly one record and its bytes, and no other record starts or stops a release |
| `GraphEffects.RejectedEffect` | crates/virtio-accel-device/src/state.rs:1389-1404 | a refused release removes nothing, and no record starts or stops a release |
| `Wire.BackendStatuses` | crates/virtio-accel-device/src/lib.rs:42-56 | distinct backend errors have distinct statuses, except that all external ones share INTERNAL_ERROR |
| `Wire.BackendCodes` | crates/virtio-accel-proto/src/lib.rs:149-162 | which backend error each status number stands for |
| `Wire.StateStatuses` | crates/virtio-accel-device/src/lib.rs:67-82 | state errors share a status exactly in four pairs |
| `Wire.StateCodes` | crates/virtio-accel-device/src/lib.rs:67-82 | which state errors each status number stands for |
| `Wire.ValidateBindings` | crates/virtio-accel-core/src/lib.rs:821-845 | the ordered fast path and the pairwise loop accept exactly nonempty, bounded, duplicate-free slots |
| `Wire.PowersOfTwo` | crates/virtio-accel-core/src/lib.rs:213-215 | accepted alignments are exactly the powers of two |
| `Ledgers.StaysBalanced` | crates/virtio-accel-device/src/engine.rs:439-523 | recording a call together with the matching growth, loss or quarantine keeps the books balanced |
| `Ledgers.ResponsesFit` | crates/virtio-accel-device/src/response.rs:111-122 | once preflight passed, a response of any shape the engine writes can fail only at the sink |
| `Ledgers.ResponseIsTight` | crates/virtio-accel-device/src/decoder.rs:279-304 | and the room preflight asks for is needed by some successful response |
| `Ledgers.WriteErrors` | crates/virtio-accel-device/src/response.rs:111-122 | a response refused for its size names the bound it exceeds, the frame limit before the capacity |
| `Commands.TransfersReachBackend` | crates/virtio-accel-device/src/engine.rs:995-1071 | a transfer is put to the backend exactly for a live idle buffer that covers its range and was declared for it, once, and changes no object |
| `Commands.FirstFault` | crates/virtio-accel-device/src/engine.rs:439-523 | bindings are refused for the first one whose buffer does not cover its range or grant its access, with the status of that fault |
| `Commands.CleanupRestores` | crates/virtio-accel-device/src/engine.rs:961-993 | an unpublished buffer that is freed again leaves the guest-visible objects as they were |
| `Commands.SubmissionResolves` | crates/virtio-accel-device/src/engine.rs:439-523 | taking the references of a submission changes nothing its binding checks look at |
| `Commands.SettleKeeps` | crates/virtio-accel-device/src/engine.rs:1073-1201 | a release keeps graph and books whether it completes, is refused or is uncertain |
| `Commands.DestroyEventKeeps` | crates/virtio-accel-device/src/engine.rs:907-959 | so does polling and then destroying an event |
| `Commands.AllocateKeeps` | crates/virtio-accel-device/src/engine.rs:308-437 | so does allocation, including an allocation freed again because it does not match or does not fit |
| `Commands.SubmitKeeps` | crates/virtio-accel-device/src/engine.rs:439-523 | so does submission, including an uncertain admission |
| `Commands.CommandKeeps` | crates/virtio-accel-device/src/engine.rs:308-437 | every command on a running device keeps graph and books, answers in its shape, quarantines only with discard, and may lose its response unnoticed only if it changed nothing |
| `Commands.MoveIsSound` | crates/virtio-accel-device/src/engine.rs:1348-1369 | an engine that performs such a move has taken a good step, whether or not the response could be written |
| `Meanings.InfoMeaning` | crates/virtio-accel-device/src/engine.rs:308-325 | GET_DEVICE_INFO is answered without the backend and changes nothing |
| `Meanings.ContextMeaning` | crates/virtio-accel-device/src/engine.rs:308-437 | CREATE_CONTEXT reaches the backend exactly when limit and table leave room, and records what it returns |
| `Meanings.QueueMeaning` | crates/virtio-accel-device/src/engine.rs:308-437 | CREATE_QUEUE reaches the backend exactly when its context is there with quota and table room left; otherwise the status says which is missing |
| `Meanings.ProgramMeaning` | crates/virtio-accel-device/src/engine.rs:308-437 | LOAD_PROGRAM likewise, with positive sizes within limit and policy |
| `Meanings.BufferMeaning` | crates/virtio-accel-device/src/engine.rs:308-437 | ALLOCATE_BUFFER reaches the backend exactly within limit, domains, policy, quota and table; the buffer is published exactly if granted as described and within policy, and recorded with that description; otherwise one destroy follows and no identifier is told |
| `Meanings.HeldIffNamed` | crates/virtio-accel-device/src/state.rs:984-1115 | the counters of an object hold it exactly while a live object depends on it |
| `Meanings.ReleaseMeaning` | crates/virtio-accel-device/src/engine.rs:1073-1201 | an object is destroyed at the backend exactly when it is there and no live object depends on it, and then goes, stays with the resource returned, or goes into quarantine as the backend answers |
| `Meanings.DestroyEventMeaning` | crates/virtio-accel-device/src/engine.rs:907-959 | DESTROY_EVENT asks for the state and releases exactly an event the backend calls finished |
| `Meanings.PollMeaning` | crates/virtio-accel-device/src/engine.rs:854-883 | POLL_EVENT answers exactly the state or error of the backend and requires discard exactly for a lost device |
| `Meanings.CancelMeaning` | crates/virtio-accel-device/src/engine.rs:885-905 | CANCEL_EVENT is unsupported, or names a missing event, or passes on the backend's one answer |
| `Meanings.TransferMeaning` | crates/virtio-accel-device/src/engine.rs:995-1071 | a transfer is put to the backend exactly for a live buffer no event uses, in its range and declared for that direction; otherwise the status is that of the first of these that fails |
| `Meanings.MisfitFault` | crates/virtio-accel-device/src/engine.rs:464-480 | bindings are refused for the first one out of its buffer's range or not declared, with the status of that fault |
| `Meanings.SubmitMeaning` | crates/virtio-accel-device/src/engine.rs:439-523 | SUBMIT reaches the backend exactly when memory suffices, its objects are there in one context, the event fits, and every binding is in range and declared; an accepted or uncertain event is recorded with its objects; every refusal has its status and changes nothing |
| `Meanings.MutationIsSeen` | crates/virtio-accel-device/src/engine.rs:1348-1369 | a command whose response may not get lost has changed something at the backend |
| `Engines.Processor.constructor` | crates/virtio-accel-device/src/engine.rs:128-157 | a new engine is valid, running, and has made no call |
| `Engines.Processor.RespondBackendError` | crates/virtio-accel-device/src/engine.rs:1231-1247 | device loss requires discard; the status is that of the error |
| `Engines.Processor.DiscardResponse` | crates/virtio-accel-device/src/engine.rs:1254-1261 | DEVICE_LOST, and the backend must be discarded |
| `Engines.Processor.Conclude` | crates/virtio-accel-device/src/engine.rs:1073-1201 | released: committed; refused: restored with the resource returned; uncertain: committed and quarantined |
| `Engines.Processor.Release` | crates/virtio-accel-device/src/engine.rs:1073-1201 | destroying performs exactly the release the reference describes, with its status |
| `Engines.Processor.DestroyEvent` | crates/virtio-accel-device/src/engine.rs:907-959 | destroying an event performs the move that `Meanings.DestroyEventMeaning` is about, calls in order |
| `Engines.Processor.Admit` | crates/virtio-accel-device/src/engine.rs:308-437 | creation asks the backend once and records and publishes exactly what it returned |
| `Engines.Processor.CreateContext` | crates/virtio-accel-device/src/engine.rs:308-437 | context creation performs the reference move |
| `Engines.Processor.CreateChild` | crates/virtio-accel-device/src/engine.rs:308-437 | program loading and queue creation perform the reference move |
| `Engines.Processor.AllocateBuffer` | crates/virtio-accel-device/src/engine.rs:308-437 | allocation performs the move that `Meanings.BufferMeaning` is about, with its cleanup path |
| `Engines.Processor.ReleaseUnpublished` | crates/virtio-accel-device/src/engine.rs:961-993 | an unusable allocation is freed before its identifier is seen; failing that, the backend must be discarded |
| `Engines.Processor.PollEvent` | crates/virtio-accel-device/src/engine.rs:854-883 | polling reports the backend state and changes no object |
| `Engines.Processor.CancelEvent` | crates/virtio-accel-device/src/engine.rs:885-905 | cancellation is refused where unsupported and otherwise makes one call |
| `Engines.Processor.TransferBuffer` | crates/virtio-accel-device/src/engine.rs:995-1071 | a transfer reaches the backend only for an idle buffer, in bounds, with the declared usage |
| `Engines.Processor.CheckBindings` | crates/virtio-accel-device/src/engine.rs:439-523 | the loop finds the first binding out of range or without permission |
| `Engines.Processor.Submit` | crates/virtio-accel-device/src/engine.rs:439-523 | submission performs the move that `Meanings.SubmitMeaning` is about: references first, checks, backend, and back out on refusal |
| `Engines.Processor.Dispatch` | crates/virtio-accel-device/src/engine.rs:308-437 | every opcode performs its reference move |
| `Engines.Processor.Process` | crates/virtio-accel-device/src/engine.rs:274-306 | a running device performs the move of the command and takes a good step; any other answers DEVICE_LOST and changes nothing |
| `Engines.Processor.ResetRelease` | crates/virtio-accel-device/src/engine.rs:668-852 | one release attempted by reset: which calls, what becomes of the object and the report, and whether the pass may go on |
| `Engines.Processor.Settle` | crates/virtio-accel-device/src/engine.rs:536-635 | at most three queries; a final state exactly when the last of them was a poll answered with it or a cancellation the backend confirmed, and the flags say what each answer implies; a willing backend always gives one |
| `Engines.Processor.CancelPending` | crates/virtio-accel-device/src/engine.rs:566-620 | a pending event is cancelled where supported, and polled once more if the backend is busy; the same contract |
| `Engines.Processor.ResetEvent` | crates/virtio-accel-device/src/engine.rs:536-666 | at most four calls; the event is destroyed exactly after a final state, and otherwise stays |
| `Engines.Processor.ResetEvents` | crates/virtio-accel-device/src/engine.rs:525-534 | the event pass conserves objects and bytes, visits every event until the backend may not be called, and logs each visit |
| `Engines.Processor.ResetPass` | crates/virtio-accel-device/src/engine.rs:668-852 | the same for queues, programs, buffers and contexts, one call each; a willing backend releases all |
| `Engines.Processor.Reset` | crates/virtio-accel-device/src/engine.rs:196-267 | the whole contract of reset: conservation, order, call bound, staleness of old identifiers, sticky discard with a repeated report, and a log of visits that accounts for every call, every object and the report |
| `ResetLaws.OldIdsAreStale` | crates/virtio-accel-device/src/engine.rs:243-255 | every identifier of the previous namespace is stale |
| `ResetLaws.PassFinishes` | crates/virtio-accel-device/src/engine.rs:668-852 | a cursor pass that ran to its end has released or reported every object of its kind |
| `ResetLaws.ResetSettledEffect` | crates/virtio-accel-device/src/engine.rs:637-665 | one release attempted by reset moves its object and bytes from live to released, or leaves them counted |
| `ResetLaws.NothingRemains` | crates/virtio-accel-device/src/engine.rs:233-242 | passes that all succeeded leave no object |
| `ResetLaws.ReportAddsUp` | crates/virtio-accel-device/src/engine.rs:219-267 | released plus reported quarantine equals what was live plus quarantined before |
| `ResetLogs.EventVisitLogged` | crates/virtio-accel-device/src/engine.rs:536-666 | a visit to an event is what its answers make it: queries, then a destroy exactly after a final state, and the flags those answers imply |
| `ResetLogs.EventsFinishFirst` | crates/virtio-accel-device/src/engine.rs:637-665 | in every reset each event destroy directly follows a poll answered with a final state or a confirmed cancellation |
| `ResetLogs.PendingSurvives` | crates/virtio-accel-device/src/engine.rs:602-635 | an event that is pending and cannot be cancelled gets one call, is still there after the reset, and the backend is not reusable |
| `ResetLogs.LossIsTheOnlyExcuse` | crates/virtio-accel-device/src/engine.rs:525-534 | as long as no call loses the backend, every live object is visited |
| `ResetLogs.VisitedOnce` | crates/virtio-accel-device/src/engine.rs:525-852 | no object of a reset's log is visited twice |
| `ResetLogs.AllFreedIffAllGave` | crates/virtio-accel-device/src/engine.rs:219-267 | every visit ended in a release exactly when every live object was given back |
| `Identities.AdmittedAges` | crates/virtio-accel-device/src/state.rs:682-828 | admitting an object issues an identifier never issued before and leaves all others as they were |
| `Identities.AdmittedEventAges` | crates/virtio-accel-device/src/state.rs:830-910 | the same for events |
| `Identities.ReleaseAges` | crates/virtio-accel-device/src/state.rs:984-1134 | however a release ends, nothing dead resolves again and nothing issued is forgotten |
| `Lifetimes.CleanupIssues` | crates/virtio-accel-device/src/engine.rs:961-993 | freeing an unpublished buffer uses up an identifier nobody is told |
| `Lifetimes.CommandIssues` | crates/virtio-accel-device/src/engine.rs:308-437 | for every command and backend answer identifiers only age, and a published one is new and resolves |
| `Lives.Run` | crates/virtio-accel-device/src/engine.rs:196-306 | any script of chains and resets is a life: each step is what `Serve` and `Reset` promise, visits included |
| `Lives.LivesAreSound` | crates/virtio-accel-device/src/engine.rs:196-306 | every state of every life is exact and balanced, calls only accumulate, discard is for ever and freezes the device |
| `Lives.StepAges` | crates/virtio-accel-device/src/engine.rs:196-306 | a step lets identifiers age in the same namespace, or moves to the different namespace of its reset |
| `Lives.PublishedIsNew` | crates/virtio-accel-device/src/engine.rs:1281-1320 | an identifier in a response was never issued before and resolves |
| `Lives.IdentifiersAreForOnce` | crates/virtio-accel-device/src/object_table.rs:26-31 | with fresh namespaces a dead identifier never resolves again, across commands and resets, and none is published twice |
| `Lives.NamespacesMustBeFresh` | crates/virtio-accel-device/src/engine.rs:209-211 | identifiers repeat, and stale ones resolve again, exactly when a namespace comes back |
| `Lives.NamespaceComesBack` | crates/virtio-accel-device/src/engine.rs:209-211 | namespaces 1, 2, 1 publish one identifier twice |
| `CleanRoom.ValidateBindings` | conformance/rust-clean-room/src/lib.rs:637-671 | the nested loops accept exactly bindings that can be read, are valid and share no slot |
| `CleanRoom.EncodedDecodes` | conformance/rust-clean-room/src/lib.rs:309-359 | every valid request decodes back from its encoding |
| `CleanRoom.DecodedReencodes` | conformance/rust-clean-room/src/lib.rs:331-359 | every accepted byte string is the encoding of the request it decodes to |
| `CleanRoom.CodecIsBijective` | conformance/rust-clean-room/src/lib.rs:309-359 | valid requests and accepted frames correspond one to one |
| `CleanRoom.BodyRoundTrip` | conformance/rust-clean-room/src/lib.rs:361-538 | each body decodes back from its payload, which has the declared length |
| `CleanRoom.BodyCanonical` | conformance/rust-clean-room/src/lib.rs:361-486 | each accepted payload is the encoding of its body |
| `CleanRoom.WriteSlice` | conformance/rust-clean-room/src/lib.rs:1106-1115 | a write in bounds replaces exactly its range; one out of bounds changes nothing |
| `CleanRoom.EncodeBinding` | conformance/rust-clean-room/src/lib.rs:699-706 | one binding is written field by field into cleared bytes |
| `CleanRoom.EncodeBody` | conformance/rust-clean-room/src/lib.rs:540-594 | the payload region becomes the encoding of the body and nothing around it changes |
| `CleanRoom.Encode` | conformance/rust-clean-room/src/lib.rs:309-328 | the buffer becomes the frame followed by its old tail, exactly when the request may be encoded and fits; otherwise it is untouched |
| `Decoders.NewDecoderLimits` | crates/virtio-accel-device/src/decoder.rs:50-70 | limits exist exactly for a valid configuration and nonzero device limits, and carry those values; otherwise the error names what fails |
| `Decoders.ConfigFault` | crates/virtio-accel-proto/src/lib.rs:226-247 | a configuration is without fault exactly when it offers the protocol 1.0 baseline, and a fault names a field that does not |
| `Decoders.SortedWithoutDuplicates` | crates/virtio-accel-device/src/decoder.rs:568-574 | sorting and comparing neighbours rejects exactly the duplicate slots |
| `Decoders.DecodeSubmit` | crates/virtio-accel-device/src/decoder.rs:506-582 | the binding loop over the source yields the slot-sorted bindings of the flat bytes |
| `Decoders.DecodeBody` | crates/virtio-accel-device/src/decoder.rs:306-504 | each body is read through the source as from the flat bytes |
| `Decoders.Decode` | crates/virtio-accel-device/src/decoder.rs:237-304 | the outcome is a function of the flat content, so it does not depend on segmentation |
| `Agreement.BindingsAgree` | crates/virtio-accel-device/src/decoder.rs:543-566 | both decoders accept the same bindings with the same values |
| `Agreement.SubmitAgrees` | crates/virtio-accel-device/src/decoder.rs:506-582 | both decoders accept the same SUBMIT payloads, up to the binding limit |
| `Agreement.FixedAgrees` | crates/virtio-accel-device/src/decoder.rs:306-504 | and the same payloads of every other opcode, up to limits and domains |
| `Agreement.DecodersAgree` | crates/virtio-accel-device/src/decoder.rs:237-304 | production accepts exactly what the clean room accepts within limits, domains and capacity, with equal fields and slot-sorted bindings |
| `Agreement.RefusalsCorrespond` | crates/virtio-accel-device/src/decoder.rs:237-304 | the status of every refused frame against the clean-room error: INVALID_ARGUMENT only for what it finds invalid, UNSUPPORTED for all it does not support, RESOURCE_LIMIT only for sizes, and for frames it accepts exactly the limit or domain at fault |
| `Agreement.CleanRefusals` | conformance/rust-clean-room/src/lib.rs:331-359 | which error the clean-room decoder gives for short frames, unknown opcodes or flags, and frames or binding counts beyond the protocol |
| `Agreement.OnlySubmitAllocates` | crates/virtio-accel-device/src/decoder.rs:536-540 | without memory only SUBMIT frames are refused, as OUT_OF_MEMORY |
| `Agreement.DecodedDispatches` | crates/virtio-accel-device/src/decoder.rs:279-304 | an accepted frame meets everything dispatch relies on, and its largest response fits |
| `Regions.CheckedSegmentLen` | crates/virtio-accel-device/src/regions.rs:205-223 | the loop accepts exactly nonempty lists of nonempty segments whose total fits 64 bits, and returns the total |
| `Regions.NewSegmentedSource` | crates/virtio-accel-device/src/regions.rs:27-32 | construction succeeds exactly then, and the source stands for the concatenation |
| `Regions.NewReadableRegion` | crates/virtio-accel-device/src/regions.rs:136-145 | a region exists exactly within its source and stands for that slice |
| `Regions.AsContiguous` | crates/virtio-accel-device/src/regions.rs:67-69 | a contiguous view is the flat content |
| `Regions.ReadSegments` | crates/virtio-accel-device/src/regions.rs:45-64 | the segment loop yields the flat read |
| `Regions.ReadAt` | crates/virtio-accel-device/src/regions.rs:39-65 | a read succeeds exactly in bounds and yields the flat bytes through any segmentation and nesting; a failure changes nothing |
| `Regions.RegionsCompose` | crates/virtio-accel-device/src/regions.rs:147-159 | a region of a region is a region of the port underneath |
| `Regions.WriteSegments` | crates/virtio-accel-device/src/regions.rs:97-117 | the segment loop performs the flat update |
| `Regions.RootHolds` | crates/virtio-accel-device/src/regions.rs:183-195 | a nested writable region shows its window of the port at the bottom |
| `Regions.WriteAt` | crates/virtio-accel-device/src/regions.rs:91-118 | a write succeeds exactly in bounds and is the flat update of this port and of the one at the bottom |
| `Responses.ResponseSink.WriteEmpty` | crates/virtio-accel-device/src/response.rs:101-109 | an empty response is its header and nothing else; a failed preflight writes nothing |
| `Responses.ResponseSink.Stream` | crates/virtio-accel-device/src/response.rs:77-96 | one write or 4096-byte chunks put the same payload in place and touch nothing outside it, also on failure |
| `Responses.ResponseSink.WriteResponse` | crates/virtio-accel-device/src/response.rs:68-99 | success is header, payload, old tail; the header is untouched until the whole payload is in place; errors are exactly preflight, source or sink |
| `Frames.ValidateChainLayout` | crates/virtio-accel-transport/src/regions.rs:107-156 | the loop accepts exactly nonempty regions, readable before writable, both present, totals in range; its error is that of the first region out of place, or of a missing direction, or of the count |
| `Frames.PreflightFrame` | crates/virtio-accel-device/src/frame.rs:51-94 | which of the four outcomes a chain gets, exactly: ready if well laid and decodable, and then nothing is written and the response fits; refused with exactly the error header for a protocol error, unless the sink fails; otherwise unusable, with the reason and an untouched response |
| `Devices.OnlyValidFrames` | crates/virtio-accel-device/src/decoder.rs:237-304 | whatever the decoder accepts, the clean-room decoder reads as the same request |
| `Devices.Deliver` | crates/virtio-accel-device/src/engine.rs:1309-1346 | payload first, header last: the response and the old bytes past it, exactly when the needed writes succeed |
| `Devices.Execute` | crates/virtio-accel-device/src/engine.rs:1029-1071 | the command performs its move, the buffer holds exactly its response, also for data stored by the provider, and the guest recovers its meaning |
| `Devices.Serve` | crates/virtio-accel-device/src/engine.rs:274-306 | exactly well-laid chains both decoders accept reach objects or backend; the device then does what the frame encodes and answers it in bytes the guest understands; every other chain is refused with its decode error, fails at the sink, or is ignored, each exactly when it should be |
| `Devices.SamePending` | crates/virtio-accel-guest/src/client.rs:1131-1173 | the order of bindings does not change how a response is read |
| `Devices.Call` | crates/virtio-accel-device/src/engine.rs:274-306 | a request encoded by the guest, decoded and executed by the device, answered and decoded again: the guest learns exactly the outcome of its request, and a read finds the bytes the backend answered |
| `Guests.StateCodecIsBijective` | crates/virtio-accel-guest/src/operation.rs:687-709 | an event-state payload is accepted exactly as the encoding of that state |
| `Guests.StateWords` | crates/virtio-accel-device/src/engine.rs:1424-1432 | the code of each event state on the wire, a failure with the status of its error |
| `Guests.InfoReads` | crates/virtio-accel-device/src/engine.rs:1405-1422 | device information survives its 76-byte encoding |
| `Guests.GuestUnderstands` | crates/virtio-accel-guest/src/operation.rs:507-546 | the decoder of each opcode recovers the outcome of every response of its shape; device information exactly if the artifact limit plus 96 fits a request |
| `Guests.GuestAcceptsOnly` | crates/virtio-accel-guest/src/operation.rs:507-546 | whatever the guest accepts is the encoding of an outcome its operation can have, with the request's identifier and no flags |
| `Guests.GuestBlames` | crates/virtio-accel-guest/src/operation.rs:507-546 | every refusal by the guest names a fault the response has |
| `Guests.CapabilityBits` | crates/virtio-accel-core/src/lib.rs:66-86 | which capability bits are reserved and which are memory domains |
| `Merging.SortAndMerge` | crates/virtio-accel-coreml/src/macos.rs:241-255 | sorting and merging neighbours yields strictly sorted keys, exactly those claimed, each with the union of its claims |
| `Merging.MergeIsUnique` | crates/virtio-accel-coreml/src/macos.rs:241-255 | a merge is determined by what it merges |
| `Backings.AcquireKeepsExact` | crates/virtio-accel-coreml/src/macos.rs:214-239 | an acquisition keeps the counter exact and its drop undoes it |
| `Backings.AcquiresWhenOpen` | crates/virtio-accel-coreml/src/macos.rs:214-239 | an exact counter admits a reader exactly when no writer holds it and readers are below the maximum, and a writer exactly when nobody holds it |
| `Backings.DropKeepsExact` | crates/virtio-accel-coreml/src/macos.rs:257-277 | dropping a held guard keeps the counter exact, never underflows and always meets its own mark |
| `Backings.GuardsExclude` | crates/virtio-accel-coreml/src/macos.rs:640-650 | a writer excludes everyone else, and a zero counter means no holder |
| `Backings.RunsStayExact` | crates/virtio-accel-coreml/src/macos.rs:214-277 | in every interleaving of acquisitions and drops each counter is the number of readers or the mark of one writer |
| `Backings.OthersLeaveHolds` | crates/virtio-accel-coreml/src/macos.rs:214-277 | steps of other events leave the guards of this one alone |
| `Backings.Allocations.Acquire` | crates/virtio-accel-coreml/src/macos.rs:214-239 | one atomic acquisition, which succeeds exactly when the holders allow it |
| `Backings.Allocations.Interfere` | crates/virtio-accel-coreml/src/macos.rs:257-277 | completions on other threads keep counters exact and the guards of this event |
| `Backings.Allocations.Prepare` | crates/virtio-accel-coreml/src/macos.rs:241-255 | holds each distinct allocation once at its strongest access, or a prefix of them up to one whose holders do not allow it; undisturbed, it succeeds exactly when the holders of all allow it |
| `Backings.Allocations.DropAll` | crates/virtio-accel-coreml/src/macos.rs:257-277 | nothing of the submission remains, and undisturbed every counter is back where it was |
| `Admission.BuildSlotPlan` | crates/virtio-accel-coreml/src/macos.rs:534-559 | strictly sorted, exactly the mapped slots, each access the union of its mappings, no longer than the mappings |
| `Admission.AccessIsPermission` | crates/virtio-accel-core/src/lib.rs:235-246 | the access of a slot asks of a buffer exactly the usage its reading and writing need |
| `Admission.Pigeonhole` | crates/virtio-accel-coreml/src/macos.rs:962-964 | as many distinct slot indexes as slots leave none out |
| `Admission.UnfitMeaning` | crates/virtio-accel-coreml/src/macos.rs:928-960 | a buffer suits a binding exactly if it is of the program's context, was declared for the access, and holds the nonempty range; otherwise the error is that of the first of these that fails |
| `Admission.Scan` | crates/virtio-accel-coreml/src/macos.rs:928-964 | the binding loop admits exactly a one-to-one match of suitable buffers when there are at most 256 slots, and hands on each binding field by field; otherwise its error is that of the first binding that does not fit, or of a slot left over; it overruns exactly at a slot index of 256 or more |
| `Admission.Admit` | crates/virtio-accel-coreml/src/macos.rs:903-964 | the same with the entry checks of a submission, each with its error |
| `Admission.OverrunsIffTooManySlots` | crates/virtio-accel-coreml/src/macos.rs:928-946 | some submission, of one binding already, overruns the bitmap exactly when the plan has more than 256 slots |
| `Programs.PlanArtifact` | crates/virtio-accel-coreml/src/macos.rs:842-848 | a path artifact that decodes yields the strict plan of its mappings, and no submission overruns the bitmap with it |
| `Programs.FeaturesAreMappings` | crates/virtio-accel-coreml/src/macos.rs:534-559 | a slot is an input or output of the plan exactly as some mapping of the artifact says |
| `Programs.LoweredPlanIsStrict` | crates/virtio-accel-coreml/src/macos.rs:561-573 | the plan of a lowered program needs no sorting or merging: it is strict and each slot is at its own number |
| `Programs.EveryPlanMatches` | crates/virtio-accel-coreml/src/macos.rs:928-964 | every strict plan has bindings that match it one to one |
| `Programs.LoweredProgramsFit` | crates/virtio-accel-coreml/src/macos.rs:903-946 | a lowered program can be submitted exactly if it has at most 256 features; with more, one binding overruns the bitmap |
| `MilPrograms.MatmulEval` | crates/virtio-accel-coreml/src/mlprogram.rs:238-333 | the emitted operations compute the INT32 product of the two zero-point-shifted inputs |
| `MilPrograms.SignedResidue` | crates/virtio-accel-coreml/src/mlprogram.rs:238-333 | a zero-point byte stands for the one INT8 value congruent to it modulo 256 |
| `MilPrograms.NarrowResidue` | crates/virtio-accel-coreml/src/mlprogram.rs:184-236 | narrowing yields the one INT8 value congruent modulo 256 |
| `MilPrograms.AccumulationIsExact` | crates/virtio-accel-coreml/src/mlprogram.rs:238-333 | INT32 accumulation is exact while 65025 per term fits |
| `MilPrograms.MatmulIsExact` | crates/virtio-accel-coreml/src/mlprogram.rs:238-333 | up to an inner dimension of 33025 the block is exact for all shapes, operands and zero points |
| `MilPrograms.MatmulOverflows` | crates/virtio-accel-coreml/src/mlprogram.rs:238-333 | from 33026 on, in every shape, extreme operands make it inexact |
| `MilPrograms.MatmulExactIff` | crates/virtio-accel-coreml/src/mlprogram.rs:238-333 | exactness for all operands of a shape is exactly that bound |
| `MilPrograms.IdentityIsExact` | crates/virtio-accel-coreml/src/mlprogram.rs:184-236 | widening, adding zero and narrowing is the identity on INT8 tensors |
| `Artifacts.NewArtifact` | crates/virtio-accel-coreml/src/artifact.rs:73-85 | a builder exists exactly for a path of allowed length, and the error says on which side it fails |
| `Artifacts.MapFeature` | crates/virtio-accel-coreml/src/artifact.rs:140-165 | a mapping is added exactly when the result is buildable, and the error names what prevents it |
| `Artifacts.Encode` | crates/virtio-accel-coreml/src/artifact.rs:103-138 | encoding succeeds exactly for encodable artifacts and yields their bytes |
| `Artifacts.EncodedDecodes` | crates/virtio-accel-coreml/src/artifact.rs:103-138 | every encodable artifact decodes to itself |
| `Artifacts.DecodedReencodes` | crates/virtio-accel-coreml/src/artifact.rs:183-257 | every accepted byte string is the encoding of the artifact it decodes to |
| `Artifacts.CodecIsBijective` | crates/virtio-accel-coreml/src/artifact.rs:103-257 | encodable artifacts and accepted byte strings correspond one to one |
| `Artifacts.Utf8IsUnicode` | crates/virtio-accel-coreml/src/artifact.rs:183-257 | the byte test for strings accepts exactly the encodings of sequences of Unicode scalar values |
| `Artifacts.TruncationsAreOutOfRange` | crates/virtio-accel-coreml/src/artifact.rs:183-257 | every proper prefix of an artifact that contains the header is out of range |
| `Artifacts.LargeArtifacts` | crates/virtio-accel-coreml/src/artifact.rs:183-215 | what exceeds the limit is too large whatever it holds; otherwise only an artifact there is no memory for |
| `Artifacts.DecodeEntries` | crates/virtio-accel-coreml/src/artifact.rs:223-249 | the cursor loop with its set of seen features parses exactly the entries of the flat bytes |
| `Artifacts.Decode` | crates/virtio-accel-coreml/src/artifact.rs:183-257 | decoding through any source parses its flat bytes |
| `Protobuf.Varint` | crates/virtio-accel-coreml/src/lower.rs:872-878 | the loop appends the varint of the value |
| `Protobuf.VarintRoundTrip` | crates/virtio-accel-coreml/src/lower.rs:872-878 | a varint decodes back whatever follows it |
| `Protobuf.VarintIsShort` | crates/virtio-accel-coreml/src/lower.rs:872-878 | at most ten bytes, exactly ten from 2^63 on |
| `Protobuf.SignedRoundTrip` | crates/virtio-accel-coreml/src/mlprogram.rs:441-447 | sign-extended values decode back at 64 and at 32 bits |
| `Protobuf.PackVarints` | crates/virtio-accel-coreml/src/lower.rs:864-870 | the loop packs the varints of the values |
| `Protobuf.PackedRoundTrip` | crates/virtio-accel-coreml/src/lower.rs:864-870 | packed varints parse back |
| `Protobuf.FieldRoundTrip` | crates/virtio-accel-coreml/src/lower.rs:836-862 | a varint, float or length-delimited field parses back whatever follows it |
| `Protobuf.MessageRoundTrip` | crates/virtio-accel-coreml/src/lower.rs:836-862 | any concatenation of fields parses back to the same list |
| `Protobuf.FramingIsUnambiguous` | crates/virtio-accel-coreml/src/lower.rs:836-862 | equal bytes mean equal fields |
| `Protobuf.TreeRoundTrip` | crates/virtio-accel-coreml/src/mlprogram.rs:468-485 | nested messages parse back to any depth |
| `Sorting.SortedPermutationIsUnique` | crates/virtio-accel-device/src/decoder.rs:568-568 | with distinct keys there is one sorted permutation, whatever the sorting algorithm |

## Left out

- The transport below flattened chains (split rings, queue resets, notifications) and the guest client's session and pending-operation bookkeeping: protocols of their own that nothing here relies on.
- Vendor backends other than the Core ML pieces above: they appear only as an arbitrary backend.
- Create-event sequences: a provider-side primitive that no wire operation reaches.
- Foreign calls, raw pointers, allocation layout and the native completion block of the Core ML provider: only the counter protocol, the slot plan and the admission checks are modelled.
- Path resolution, file access and model loading: input and output.
- FP16 and FP8 conversions, floating-point lowering, the TOSA parser and graph analysis: finite tables or separate components.
- The exact-copy execution path of a Core ML submission after admission: straight-line code.
- Clean-room configuration and response codecs: they would repeat the request codec in smaller form.
- Writable counterparts of the region constructors: they check the same ranges as the readable ones.
- Commands.AllocateKeeps: a provider allocation is described by its descriptor and size; its alignment and properties are validated where the description is built, outside this model.
- Artifacts.Decode: the fallible reservation is one flag; other allocation failures are not modelled.
- MilPrograms.MatmulEval: value names are symbolic and declared output shapes are those of the validated graph.
- Backings.Allocations.Prepare: fairness between events is not stated; a refused submission is retried by the guest.
