/** What each command means: a pure reference for the engine, and what every command keeps. */
module Commands {
  import opened Bytes
  import opened ObjectTables
  import opened Graphs
  import opened GraphLaws
  import opened DeviceStates
  import opened GraphEffects
  import opened Wire
  import opened Ledgers

  /** Whether the allocator can serve table growth and submission scratch space. */
  datatype Memory = Memory(table: bool, scratch: bool, native: bool)

  predicate StrictlyBySlot(bindings: seq<Binding>) {
    forall i, j | 0 <= i < j < |bindings| :: bindings[i].slot < bindings[j].slot
  }

  /** What decoding has already established about a request. */
  predicate Dispatchable(body: Body, limits: Limits) {
    match body
    case LoadProgram(_, _, _, resident, _) => resident < U64
    case Submit(_, _, _, bindings) => StrictlyBySlot(bindings) && 1 <= |bindings| <= limits.maxBindings
    case _ => true
  }

  predicate BindingsResolve(g: Graph, bindings: seq<Binding>) {
    forall b | b in bindings :: Alive(g, Buffer, FromRaw(b.buffer)) && Rec(g, Buffer, FromRaw(b.buffer)).BufferRecord?
  }

  /** The first binding whose range or access its buffer does not permit. */
  function BindingFault(g: Graph, bindings: seq<Binding>): (r: Option<nat>)
    requires BindingsResolve(g, bindings)
    ensures r.Some? ==> KnownStatus(r.value) && r.value != OK
  {
    if bindings == [] then None
    else
      var b := bindings[0];
      var desc := Rec(g, Buffer, FromRaw(b.buffer)).info.desc;
      if b.offset + b.bytes > desc.bytes then Some(OUT_OF_BOUNDS)
      else if !AllowsAccess(desc.usage, b.access) then Some(PERMISSION_DENIED)
      else BindingFault(g, bindings[1..])
  }

  ghost predicate Covers(g: Graph, b: Binding)
    requires Alive(g, Buffer, FromRaw(b.buffer)) && Rec(g, Buffer, FromRaw(b.buffer)).BufferRecord?
  {
    b.offset + b.bytes <= Rec(g, Buffer, FromRaw(b.buffer)).info.desc.bytes
  }

  ghost predicate Grants(g: Graph, b: Binding)
    requires Alive(g, Buffer, FromRaw(b.buffer)) && Rec(g, Buffer, FromRaw(b.buffer)).BufferRecord?
  {
    AllowsAccess(Rec(g, Buffer, FromRaw(b.buffer)).info.desc.usage, b.access)
  }

  /** The bindings are refused for the first one that its buffer does not cover or grant; with
      `n == |bindings|` there is none. */
  lemma {:induction false} FirstFault(g: Graph, bindings: seq<Binding>, n: nat)
    requires BindingsResolve(g, bindings) && n <= |bindings|
    requires forall i | 0 <= i < n :: Covers(g, bindings[i]) && Grants(g, bindings[i])
    requires n < |bindings| ==> !(Covers(g, bindings[n]) && Grants(g, bindings[n]))
    ensures BindingFault(g, bindings)
            == if n == |bindings| then None
               else if Covers(g, bindings[n]) then Some(PERMISSION_DENIED) else Some(OUT_OF_BOUNDS)
    decreases n
  {
    hide Get, FromRaw, AllowsAccess, Alive, Rec;
    if n > 0 {
      assert Covers(g, bindings[0]) && Grants(g, bindings[0]);
      assert forall i | 0 <= i < n - 1 :: bindings[1..][i] == bindings[i + 1];
      FirstFault(g, bindings[1..], n - 1);
    }
  }

  function BufferIds(bindings: seq<Binding>): (ids: seq<Id>)
    ensures |ids| == |bindings|
  {
    seq(|bindings|, i requires 0 <= i < |bindings| => FromRaw(bindings[i].buffer))
  }

  /** Why a transfer on a buffer record is refused, if it is. */
  function TransferFault(r: Record, offset: nat, bytes: nat, usage: nat): (f: Option<nat>)
    requires usage > 0
    ensures f.Some? ==> KnownStatus(f.value) && f.value != OK
  {
    if !r.BufferRecord? then Some(INTERNAL_ERROR)
    else if r.inFlight != 0 then Some(BUSY)
    else if offset + bytes > r.info.desc.bytes then Some(OUT_OF_BOUNDS)
    else if !UsageBit(r.info.desc.usage, usage) then Some(PERMISSION_DENIED)
    else None
  }

  /** An unpublished buffer that is freed again leaves the guest-visible objects as they were. */
  lemma CleanupRestores(g: Graph, r: Record)
    requires Admissible(g, r) && r.BufferRecord?
    ensures var g1 := Admitted(g, r); var id := InsertedId(g.tables[Buffer]);
            && Inv(g1) && Releasable(g1, Buffer, id) && Rec(g1, Buffer, id) == r
            && SameObjects(g, ReleasedGraph(g1, Buffer, id))
  {
    hide Get, Admitted, InsertedId, CanInsert, ReSlot, Unowned, RecordOk, ObjectTables.Valid, Tally, Weight,
         ValidLimits, TableLimit;
    AdmittedKeepsInv(g, r);
    AdmittedFacts(g, r);
    var g1, id := Admitted(g, r), InsertedId(g.tables[Buffer]);
    BegunEffect(g1, Buffer, id);
    UnownedFacts(ReSlot(g1, Buffer, id, None), Buffer, id);
  }

  ghost predicate ResolvesAlike(g: Graph, e: Record, bindings: seq<Binding>)
    requires Shape(g)
  {
    && e.EventRecord? && EventOk(g, e) && BindingsResolve(g, bindings) && BindingsResolve(WithRefs(g, e, 1), bindings)
    && BindingFault(WithRefs(g, e, 1), bindings) == BindingFault(g, bindings)
  }

  /** Taking the references of a submission changes nothing its binding checks look at. */
  lemma SubmissionResolves(g: Graph, queue: Id, program: Id, bindings: seq<Binding>, memory: bool)
    requires Inv(g) && Shape(g) && EventCheck(g, queue, program, BufferIds(bindings), memory).Ok?
    ensures ResolvesAlike(g, EventCheck(g, queue, program, BufferIds(bindings), memory).value, bindings)
  {
    hide Inv, ObjectTables.Valid, ValidLimits, TableLimit, EventOk, EventCheck, WithRefs, BindingFault, BindingsResolve;
    var e := EventCheck(g, queue, program, BufferIds(bindings), memory).value;
    CheckedIsOk(g, queue, program, BufferIds(bindings), memory);
    BoundAreThere(g, bindings);
    ReferencedResolve(g, e, bindings);
    SameFault(g, WithRefs(g, e, 1), bindings);
  }

  lemma CheckedIsOk(g: Graph, queue: Id, program: Id, ids: seq<Id>, memory: bool)
    requires Inv(g) && Shape(g) && EventCheck(g, queue, program, ids, memory).Ok?
    ensures var e := EventCheck(g, queue, program, ids, memory).value; e.EventRecord? && EventOk(g, e)
    ensures forall x | x in ids :: Alive(g, Buffer, x) && Rec(g, Buffer, x).BufferRecord?
  {
    hide Inv, ObjectTables.Valid, ValidLimits, TableLimit, Look, DeviceStates.BufferFault, EventCheck;
    var e := EventCheck(g, queue, program, ids, memory).value;
    EventCheckAdmits(g, queue, program, ids, memory, 0);
    CheckPassed(g, queue, program, ids, memory);
    SlotIrrelevant(g, e, 0);
    ShapeTables(g, Buffer);
    NoBufferFault(g, e.context, ids);
  }

  lemma CheckPassed(g: Graph, queue: Id, program: Id, ids: seq<Id>, memory: bool)
    requires Shape(g) && EventCheck(g, queue, program, ids, memory).Ok?
    ensures var e := EventCheck(g, queue, program, ids, memory).value;
            Buffer in g.tables && e.EventRecord? && DeviceStates.BufferFault(g, e.context, ids).None?
  {
    hide Look, DeviceStates.BufferFault, ReserveCheck, RawKey;
  }

  lemma SlotIrrelevant(g: Graph, e: Record, h: Handle)
    requires Shape(g) && e.EventRecord? && AdmissibleEvent(g, WithSlot(e, Some(h)))
    ensures EventOk(g, e)
  {
    hide Inv, Shape, Alive, Rec;
  }

  /** Bound buffers are still there, with the same description, once referenced. */
  lemma ReferencedResolve(g: Graph, e: Record, bindings: seq<Binding>)
    requires Inv(g) && e.EventRecord? && EventOk(g, e) && BindingsResolve(g, bindings)
    ensures BindingsResolve(WithRefs(g, e, 1), bindings)
    ensures forall x | Alive(g, Buffer, x) && Rec(g, Buffer, x).BufferRecord? ::
              && Alive(WithRefs(g, e, 1), Buffer, x) && Rec(WithRefs(g, e, 1), Buffer, x).BufferRecord?
              && Rec(WithRefs(g, e, 1), Buffer, x).info == Rec(g, Buffer, x).info
  {
    hide Inv, Shape, EventOk, WithRefs, Submittable, Alive, Rec, FromRaw, Weight;
    InvSubmittable(g, e);
    WithRefsFacts(g, e, 1);
  }

  lemma BoundAreThere(g: Graph, bindings: seq<Binding>)
    requires forall x | x in BufferIds(bindings) :: Alive(g, Buffer, x) && Rec(g, Buffer, x).BufferRecord?
    ensures BindingsResolve(g, bindings)
  {
    hide Get, FromRaw;
    forall b | b in bindings
      ensures Alive(g, Buffer, FromRaw(b.buffer)) && Rec(g, Buffer, FromRaw(b.buffer)).BufferRecord?
    {
      var i :| 0 <= i < |bindings| && bindings[i] == b;
      assert BufferIds(bindings)[i] in BufferIds(bindings);
    }
  }

  lemma {:induction false} SameFault(g: Graph, g': Graph, bindings: seq<Binding>)
    requires BindingsResolve(g, bindings) && BindingsResolve(g', bindings)
    requires forall x | && Alive(g, Buffer, x) && Rec(g, Buffer, x).BufferRecord?
                        && Alive(g', Buffer, x) && Rec(g', Buffer, x).BufferRecord? ::
               Rec(g', Buffer, x).info == Rec(g, Buffer, x).info
    ensures BindingFault(g', bindings) == BindingFault(g, bindings)
  {
    hide Get, FromRaw;
    if bindings != [] {
      assert bindings[0] in bindings;
      SameFault(g, g', bindings[1..]);
    }
  }

  // ------------------------------------------------------------------------------------------
  // Moves.

  /** The backend and the device's fixed capabilities. */
  datatype Setup = Setup(backend: nat -> Reply, domains: set<nat>, cancellation: bool)

  /** The whole meaning of one command: the next objects and quarantine, the backend calls made, the
      response, whether an unwritable response must force a reset, and whether the backend must be
      discarded. */
  datatype Move = Move(graph: Graph, quarantined: Account, calls: seq<Call>, status: nat, payload: Payload,
                       mutated: bool, discard: bool)

  /** An engine that made this move and answered through `port`. */
  ghost predicate Performs(b: Engine, a: Engine, out: Outcome, port: Port, request: nat, m: Move) {
    && a.graph == m.graph && a.quarantined == m.quarantined && a.trace == b.trace + m.calls
    && out == Written(port, request, m.status, m.payload)
    && a.health == if m.discard then DiscardRequired
                   else if out.WriteFailed? && m.mutated && b.health == Running then NeedsReset
                   else b.health
  }

  function Refuse(e: Engine, status: nat): Move { Move(e.graph, e.quarantined, [], status, NoPayload, false, false) }

  function Quiet(e: Engine, call: Call, status: nat, p: Payload, mutated: bool, discard: bool): Move {
    Move(e.graph, e.quarantined, [call], status, p, mutated, discard)
  }

  function Fail(e: Engine, call: Call, error: BackendError, mutated: bool): Move {
    Quiet(e, call, StatusOfBackend(error), NoPayload, mutated, error == BackendError.DeviceLost)
  }

  /** A created object, recorded and published. */
  function Gain(e: Engine, record: Record, call: Call): Move
    requires Admissible(e.graph, record)
  {
    Move(Admitted(e.graph, record), e.quarantined, [call], OK,
         ObjectPayload(InsertedId(e.graph.tables[KindOf(record)])), true, false)
  }

  /** A release the backend has answered. */
  function SettleMove(e: Engine, k: Kind, id: Id, reply: Release): Move
    requires Inv(e.graph) && Releasable(e.graph, k, id)
  {
    var charge := Charge(Rec(e.graph, k, id));
    var calls := [DestroyCall(k, charge, reply)];
    match reply
    case Released => Move(ReleasedGraph(e.graph, k, id), e.quarantined, calls, OK, NoPayload, true, false)
    case Rejected(error, h) =>
      Move(RejectedGraph(e.graph, k, id, h), e.quarantined, calls, StatusOfBackend(error), NoPayload, false,
           error == BackendError.DeviceLost)
    case Indeterminate(_) =>
      Move(ReleasedGraph(e.graph, k, id), Enter(e.quarantined, k, charge), calls, DEVICE_LOST, NoPayload, true, true)
  }

  /** Destroy a context, buffer, program or queue, or an event already known to be terminal. */
  function ReleaseMove(e: Engine, k: Kind, id: Id, reply: Release): Move
    requires Inv(e.graph)
  {
    var found := Look(e.graph, k, id);
    if found.Err? then Refuse(e, StatusOfState(found.error))
    else if Held(found.value) || found.value.slot.release != Live then Refuse(e, BUSY)
    else SettleMove(e, k, id, reply)
  }

  /** A terminal event may be destroyed; a pending one is busy. */
  function DestroyEventMove(e: Engine, id: Id, polled: Reply, released: Reply): Move
    requires Inv(e.graph)
  {
    var found := Look(e.graph, Event, id);
    if found.Err? then Refuse(e, StatusOfState(found.error))
    else
      var call := PollCall(polled.poll);
      match polled.poll
      case Err(error) => Fail(e, call, error, false)
      case Ok(s) =>
        if s == Pending then Quiet(e, call, BUSY, NoPayload, false, false)
        else if s == Failed(BackendError.DeviceLost) then Quiet(e, call, DEVICE_LOST, NoPayload, false, true)
        else
          var m := ReleaseMove(e, Event, id, released.release);
          m.(calls := [call] + m.calls)
  }

  function CreateMove(e: Engine, blank: Record, reply: Result<Handle, BackendError>): Move
    requires forall h :: Admissible(e.graph, WithSlot(blank, Some(h)))
  {
    var call := CreateCall(KindOf(blank), Charge(blank), reply);
    match reply
    case Ok(h) => Gain(e, WithSlot(blank, Some(h)), call)
    case Err(error) => Fail(e, call, error, false)
  }

  const VACANT := ResourceSlot(None, Releasing)

  function ContextMove(e: Engine, memory: Memory, reply: Reply): Move
    requires Inv(e.graph)
  {
    InvShape(e.graph);
    var refused := ContextCheck(e.graph, memory.table);
    if refused.Some? then Refuse(e, StatusOfState(refused.value))
    else
      ContextAdmissible(e.graph, memory.table);
      CreateMove(e, ContextRecord(VACANT, NO_CHILDREN), reply.create)
  }

  lemma AdmissibleFits(g: Graph, r: Record)
    requires Admissible(g, r)
    ensures Inv(g) && Shape(g) && KindOf(r) in g.tables && ObjectTables.Valid(g.tables[KindOf(r)])
            && CanInsert(g.tables[KindOf(r)])
  {}

  lemma ContextAdmissible(g: Graph, memory: bool)
    requires Inv(g) && ContextCheck(g, memory).None?
    ensures forall h :: Admissible(g, WithSlot(ContextRecord(VACANT, NO_CHILDREN), Some(h)))
  {
    hide Inv, Admissible, ContextCheck;
    forall h
      ensures Admissible(g, WithSlot(ContextRecord(VACANT, NO_CHILDREN), Some(h)))
    {
      ContextCheckAdmits(g, memory, h);
    }
  }

  /** The record a LOAD_PROGRAM or CREATE_QUEUE asks for. */
  function ChildRecord(body: Body): Record
    requires body.LoadProgram? || body.CreateQueue?
  {
    if body.CreateQueue? then QueueRecord(VACANT, FromRaw(body.context), 0)
    else ProgramRecord(VACANT, FromRaw(body.context), body.resident, 0)
  }

  function ChildRefusal(g: Graph, body: Body, memory: bool): Option<StateError>
    requires (body.LoadProgram? || body.CreateQueue?) && Shape(g)
  {
    if body.CreateQueue? then ChildCheck(g, Queue, FromRaw(body.context), memory)
    else ProgramCheck(g, FromRaw(body.context), |body.artifact|, body.resident, memory)
  }

  lemma ChildAdmissible(g: Graph, body: Body, memory: bool)
    requires Inv(g) && (body.LoadProgram? || body.CreateQueue?) && Dispatchable(body, g.limits)
             && ChildRefusal(g, body, memory).None?
    ensures forall h :: Admissible(g, WithSlot(ChildRecord(body), Some(h)))
    ensures g.resident + Resident(KindOf(ChildRecord(body)), Charge(ChildRecord(body))) <= g.policy.maxResident
            || body.CreateQueue?
  {
    hide Inv, Admissible, ChildCheck, FromRaw;
    var blank := ChildRecord(body);
    forall h
      ensures Admissible(g, WithSlot(blank, Some(h)))
    {
      ChildCheckAdmits(g, KindOf(blank), FromRaw(body.context), memory, WithSlot(blank, Some(h)));
    }
  }

  function ChildMove(e: Engine, body: Body, memory: Memory, reply: Reply): Move
    requires Inv(e.graph) && (body.LoadProgram? || body.CreateQueue?) && Dispatchable(body, e.graph.limits)
  {
    InvShape(e.graph);
    var refused := ChildRefusal(e.graph, body, memory.table);
    if refused.Some? then Refuse(e, StatusOfState(refused.value))
    else
      ChildAdmissible(e.graph, body, memory.table);
      CreateMove(e, ChildRecord(body), reply.create)
  }

  function BufferRefusal(g: Graph, body: Body, domains: set<nat>, memory: bool): Option<nat>
    requires Shape(g) && body.AllocateBuffer?
  {
    if body.desc.bytes > g.limits.maxBufferBytes then Some(RESOURCE_LIMIT)
    else if body.desc.domain !in domains then Some(UNSUPPORTED)
    else
      match BufferCheck(g, FromRaw(body.context), body.desc, memory)
      case Some(error) => Some(StatusOfState(error))
      case None => None
  }

  function BufferOf(body: Body, h: Handle, info: BufferInfo): Record
    requires body.AllocateBuffer?
  {
    BufferRecord(LiveSlot(h), FromRaw(body.context), info, 0)
  }

  lemma BufferAdmissible(g: Graph, body: Body, domains: set<nat>, memory: bool, h: Handle, info: ProviderInfo)
    requires Inv(g) && body.AllocateBuffer? && BufferRefusal(g, body, domains, memory).None?
    ensures Admissible(g, BufferOf(body, h, info))
  {
    hide Inv, Admissible, ChildCheck, FromRaw;
    ChildCheckAdmits(g, Buffer, FromRaw(body.context), memory, BufferOf(body, h, info));
  }

  /** Allocate backing; an allocation that does not match its request or exceeds the device's policy
      is freed again without its identifier ever being published. */
  function AllocateMove(e: Engine, body: Body, setup: Setup, memory: Memory): Move
    requires Inv(e.graph) && body.AllocateBuffer?
  {
    InvShape(e.graph);
    var refused := BufferRefusal(e.graph, body, setup.domains, memory.table);
    if refused.Some? then Refuse(e, refused.value) else BackedMove(e, body, setup, memory)
  }

  function BackedMove(e: Engine, body: Body, setup: Setup, memory: Memory): Move
    requires Inv(e.graph) && Shape(e.graph) && body.AllocateBuffer?
             && BufferRefusal(e.graph, body, setup.domains, memory.table).None?
  {
    var reply, info := setup.backend(|e.trace|).create, setup.backend(|e.trace|).info;
    var call := CreateCall(Buffer, info.allocationBytes, reply);
    match reply
    case Err(error) => Fail(e, call, error, false)
    case Ok(h) =>
      BufferAdmissible(e.graph, body, setup.domains, memory.table, h, info);
      if info.desc != body.desc then
        CleanupMove(e, BufferOf(body, h, info), call, setup.backend(|e.trace| + 1).release, INCOMPATIBLE)
      else if e.graph.backing + info.allocationBytes > e.graph.policy.maxBacking then
        CleanupMove(e, BufferOf(body, h, info), call, setup.backend(|e.trace| + 1).release, RESOURCE_LIMIT)
      else Gain(e, BufferOf(body, h, info), call)
  }

  function CleanupMove(e: Engine, record: Record, call: Call, reply: Release, status: nat): Move
    requires Admissible(e.graph, record) && record.BufferRecord?
  {
    CleanupRestores(e.graph, record);
    var m := SettleMove(e.(graph := Admitted(e.graph, record)), Buffer, InsertedId(e.graph.tables[Buffer]), reply);
    if reply.Released? then m.(calls := [call] + m.calls, status := status, mutated := false)
    else m.(calls := [call] + m.calls, status := DEVICE_LOST, mutated := true, discard := true)
  }

  function PollMove(e: Engine, id: Id, reply: Reply): Move
    requires Inv(e.graph)
  {
    var found := Look(e.graph, Event, id);
    if found.Err? then Refuse(e, StatusOfState(found.error))
    else
      match reply.poll
      case Ok(s) => Quiet(e, PollCall(reply.poll), OK, StatePayload(s), false, s == Failed(BackendError.DeviceLost))
      case Err(error) => Fail(e, PollCall(reply.poll), error, false)
  }

  function CancelMove(e: Engine, id: Id, cancellation: bool, reply: Reply): Move
    requires Inv(e.graph)
  {
    var found := Look(e.graph, Event, id);
    if !cancellation then Refuse(e, UNSUPPORTED)
    else if found.Err? then Refuse(e, StatusOfState(found.error))
    else
      match reply.transfer
      case Ok(_) => Quiet(e, CancelCall(reply.transfer), OK, NoPayload, true, false)
      case Err(error) => Fail(e, CancelCall(reply.transfer), error, false)
  }

  /** Explicit transfers reach the backend only for an idle buffer, inside its bounds and with the
      declared usage. A write may have happened even when it is reported as failed. */
  function TransferMove(e: Engine, body: Body, reply: Reply): Move
    requires Inv(e.graph) && (body.WriteBuffer? || body.ReadBuffer?)
  {
    var write, found := body.WriteBuffer?, Look(e.graph, Buffer, FromRaw(body.buffer));
    if found.Err? then Refuse(e, StatusOfState(found.error))
    else
      var usage := if write then TRANSFER_DESTINATION else TRANSFER_SOURCE;
      var fault := TransferFault(found.value, body.offset, body.bytes, usage);
      if fault.Some? then Refuse(e, fault.value)
      else
        var call := TransferCall(write, reply.transfer);
        match reply.transfer
        case Ok(_) => Quiet(e, call, OK, if write then NoPayload else DataPayload(body.bytes), write, false)
        case Err(error) => Fail(e, call, error, write)
  }

  /** A transfer is put to the backend exactly for a live idle buffer that covers it and was declared
      for it, and it never changes an object. */
  lemma TransfersReachBackend(e: Engine, body: Body, reply: Reply)
    requires Inv(e.graph) && (body.WriteBuffer? || body.ReadBuffer?)
    ensures var m, id := TransferMove(e, body, reply), FromRaw(body.buffer);
            && m.graph == e.graph && m.quarantined == e.quarantined && |m.calls| <= 1
            && (m.calls != [] <==>
                  && Alive(e.graph, Buffer, id) && Rec(e.graph, Buffer, id).BufferRecord?
                  && Rec(e.graph, Buffer, id).inFlight == 0
                  && body.offset + body.bytes <= Rec(e.graph, Buffer, id).info.desc.bytes
                  && UsageBit(Rec(e.graph, Buffer, id).info.desc.usage,
                              if body.WriteBuffer? then TRANSFER_DESTINATION else TRANSFER_SOURCE))
  {
    hide Inv, FromRaw, UsageBit;
    InvShape(e.graph);
  }

  /** A recorded event, published with its admission status. */
  function EventGain(e: Engine, record: Record, call: Call, status: nat, lost: bool): Move
    requires AdmissibleEvent(e.graph, record)
  {
    Move(AdmittedEvent(e.graph, record), e.quarantined, [call], status,
         ObjectPayload(InsertedId(e.graph.tables[Event])), true, lost)
  }

  /** The event record a SUBMIT asks for, if every object it names can take part. */
  function SubmitCheck(g: Graph, body: Body, memory: bool): Result<Record, StateError>
    requires Shape(g) && body.Submit?
  {
    EventCheck(g, FromRaw(body.queue), FromRaw(body.program), BufferIds(body.bindings), memory)
  }

  /** References are taken before the backend is asked and given back exactly when it refuses; an
      uncertain admission is recorded like an accepted one. */
  function SubmitMove(e: Engine, body: Body, memory: Memory, reply: Reply): Move
    requires Inv(e.graph) && body.Submit?
  {
    InvShape(e.graph);
    var check := SubmitCheck(e.graph, body, memory.table);
    if !memory.scratch then Refuse(e, OUT_OF_MEMORY)
    else if check.Err? then Refuse(e, StatusOfState(check.error))
    else if !memory.native then Refuse(e, OUT_OF_MEMORY)
    else
      SubmissionResolves(e.graph, FromRaw(body.queue), FromRaw(body.program), body.bindings, memory.table);
      var fault := BindingFault(e.graph, body.bindings);
      if fault.Some? then Refuse(e, fault.value) else AnswerMove(e, body, memory, check.value, reply.submit)
  }

  function AnswerMove(e: Engine, body: Body, memory: Memory, record: Record, reply: Admission): Move
    requires Inv(e.graph) && body.Submit? && Shape(e.graph) && SubmitCheck(e.graph, body, memory.table) == Ok(record)
  {
    match reply
    case Refused(error) => Fail(e, SubmitCall(reply), error, false)
    case Accepted(h) =>
      EventCheckAdmits(e.graph, FromRaw(body.queue), FromRaw(body.program), BufferIds(body.bindings), memory.table, h);
      EventGain(e, WithSlot(record, Some(h)), SubmitCall(reply), OK, false)
    case Uncertain(error, h) =>
      EventCheckAdmits(e.graph, FromRaw(body.queue), FromRaw(body.program), BufferIds(body.bindings), memory.table, h);
      EventGain(e, WithSlot(record, Some(h)), SubmitCall(reply), StatusOfBackend(error),
                error == BackendError.DeviceLost)
  }

  /** One command on a running device. */
  function CommandMove(e: Engine, body: Body, setup: Setup, memory: Memory): Move
    requires Inv(e.graph) && Dispatchable(body, e.graph.limits)
  {
    var reply := setup.backend(|e.trace|);
    match body
    case GetDeviceInfo => Move(e.graph, e.quarantined, [], OK, InfoPayload, false, false)
    case CreateContext => ContextMove(e, memory, reply)
    case DestroyContext(id) => ReleaseMove(e, Context, FromRaw(id), reply.release)
    case AllocateBuffer(_, _) => AllocateMove(e, body, setup, memory)
    case FreeBuffer(id) => ReleaseMove(e, Buffer, FromRaw(id), reply.release)
    case WriteBuffer(_, _, _, _) => TransferMove(e, body, reply)
    case ReadBuffer(_, _, _) => TransferMove(e, body, reply)
    case LoadProgram(_, _, _, _, _) => ChildMove(e, body, memory, reply)
    case UnloadProgram(id) => ReleaseMove(e, Program, FromRaw(id), reply.release)
    case CreateQueue(_) => ChildMove(e, body, memory, reply)
    case DestroyQueue(id) => ReleaseMove(e, Queue, FromRaw(id), reply.release)
    case Submit(_, _, _, _) => SubmitMove(e, body, memory, reply)
    case PollEvent(id) => PollMove(e, FromRaw(id), reply)
    case CancelEvent(id) => CancelMove(e, FromRaw(id), setup.cancellation, reply)
    case DestroyEvent(id) => DestroyEventMove(e, FromRaw(id), reply, setup.backend(|e.trace| + 1))
  }

  /** The engine did exactly what the request means. */
  ghost predicate Obeyed(b: Engine, a: Engine, out: Outcome, port: Port, request: Request, setup: Setup,
                         memory: Memory) {
    && Inv(b.graph) && Dispatchable(request.body, b.graph.limits)
    && Performs(b, a, out, port, request.id, CommandMove(b, request.body, setup, memory))
  }

  // ------------------------------------------------------------------------------------------
  // What every move keeps.

  function After(b: Engine, m: Move): Engine {
    b.(graph := m.graph, quarantined := m.quarantined, trace := b.trace + m.calls)
  }

  ghost predicate IsRunning(b: Engine) { EngineInv(b) && b.health == Running }

  /** The move keeps the graph exact and the books balanced, answers in the shape its opcode allows,
      and may go unanswered without consequence only if it changed nothing the guest can see. */
  ghost predicate Keeps(b: Engine, body: Body, m: Move) {
    && ReplyShape(body, m.status, m.payload) && |m.calls| <= 2
    && Inv(m.graph) && Balanced(After(b, m))
    && m.graph.namespace == b.graph.namespace && m.graph.limits == b.graph.limits && m.graph.policy == b.graph.policy
    && (m.quarantined != EMPTY ==> m.discard)
    && (!m.discard ==> Settled(m.graph))
    && (forall i | 0 <= i < |m.calls| :: m.calls[i].lost || m.calls[i].effect == Unknown ==> m.discard)
    && (!m.mutated && !m.discard ==>
          SameObjects(b.graph, m.graph) && forall i | 0 <= i < |m.calls| :: m.calls[i].effect != Mutated)
  }

  /** No release is under way and the retained bytes are within policy. */
  ghost predicate Settled(g: Graph) {
    AtRest(g) && g.backing <= g.policy.maxBacking && g.resident <= g.policy.maxResident
  }

  /** An engine that performs a move which keeps these things has taken a good step. */
  lemma MoveIsSound(b: Engine, a: Engine, out: Outcome, request: Request, port: Port, m: Move)
    requires IsRunning(b) && PortFits(port, request.body) && Keeps(b, request.body, m)
    requires Performs(b, a, out, port, request.id, m)
    ensures StepOk(b, a, out, request, port)
  {
    hide Inv, Balanced, AtRest, ReplyShape, PortFits, SameObjects, Written, Outstanding;
    ResponsesFit(port, request.body, request.id, m.status, m.payload);
    SameBooks(After(b, m), a);
    assert forall i | |b.trace| <= i < |a.trace| :: a.trace[i] == m.calls[i - |b.trace|];
  }

  lemma SameBooks(a: Engine, b: Engine)
    requires Balanced(a) && a.graph == b.graph && a.quarantined == b.quarantined && a.trace == b.trace
    ensures Balanced(b)
  {}

  lemma RunningFacts(b: Engine)
    requires IsRunning(b)
    ensures Inv(b.graph) && Shape(b.graph) && Balanced(b) && b.quarantined == EMPTY && Settled(b.graph)
            && SameObjects(b.graph, b.graph)
  {
    hide Get, RecordOk, Tally, ObjectTables.Valid, ValidLimits, TableLimit, Outstanding;
  }

  lemma RefuseKeeps(b: Engine, body: Body, m: Move)
    requires IsRunning(b) && m == Move(b.graph, b.quarantined, [], m.status, m.payload, m.mutated, false)
    requires ReplyShape(body, m.status, m.payload)
    ensures Keeps(b, body, m)
  {
    hide Inv, Balanced, AtRest, ReplyShape, SameObjects, Outstanding, IsRunning;
    RunningFacts(b);
    assert b.trace + [] == b.trace;
    SameBooks(b, After(b, m));
  }

  /** A backend call that moves no ownership. */
  lemma QuietKeeps(b: Engine, body: Body, call: Call, m: Move)
    requires IsRunning(b) && m == Quiet(b, call, m.status, m.payload, m.mutated, m.discard)
             && ReplyShape(body, m.status, m.payload)
    requires Delta(call) == 0 && call.effect != Unknown && (call.lost ==> m.discard)
             && (call.effect == Mutated ==> m.mutated || m.discard)
    ensures Keeps(b, body, m)
  {
    hide Get, Inv, Balanced, AtRest, ReplyShape, SameObjects, Outstanding, Count, IsRunning;
    RunningFacts(b);
    StaysBalanced(b, call, b.graph, 0, b.quarantined);
  }

  lemma RejectedKeepsObjects(g: Graph, k: Kind, id: Id, h: Handle)
    requires Inv(g) && Releasable(g, k, id)
    ensures SameObjects(g, RejectedGraph(g, k, id, h))
  {
    hide Get, ReSlot, RecordOk, ObjectTables.Valid, Tally, ValidLimits, TableLimit, Held;
    BegunEffect(g, k, id);
    RestoredEffect(ReSlot(g, k, id, None), k, id, h);
  }


  lemma SettleKeeps(b: Engine, body: Body, k: Kind, id: Id, reply: Release)
    requires IsRunning(b) && Inv(b.graph) && Releasable(b.graph, k, id)
    requires forall status | KnownStatus(status) :: ReplyShape(body, status, NoPayload)
    ensures Keeps(b, body, SettleMove(b, k, id, reply))
  {
    hide Inv, Balanced, Settled, ReplyShape, SameObjects, IsRunning, ReleasedGraph, RejectedGraph, Enter, Shape, Alive,
         Rec, Charge;
    RunningFacts(b);
    var m := SettleMove(b, k, id, reply);
    var h := if reply.Rejected? then reply.resource else 0;
    SettleBalances(b, k, id, reply);
    if reply.Rejected? { RejectedKeepsObjects(b.graph, k, id, h); }
  }

  /** The books after a release was answered, from a state that need not be running. */
  lemma SettleBalances(b: Engine, k: Kind, id: Id, reply: Release)
    requires Inv(b.graph) && Balanced(b) && Releasable(b.graph, k, id)
    ensures var m := SettleMove(b, k, id, reply);
            && Inv(m.graph) && Balanced(After(b, m)) && (Settled(b.graph) ==> Settled(m.graph))
            && m.graph.namespace == b.graph.namespace && m.graph.limits == b.graph.limits
            && m.graph.policy == b.graph.policy
            && (m.quarantined != b.quarantined ==> m.discard)
  {
    hide Get, Inv, AtRest, Outstanding, Count, ReleasedGraph, RejectedGraph, Enter, Held, Shape, Balanced;
    var h := if reply.Rejected? then reply.resource else 0;
    var charge := Charge(Rec(b.graph, k, id));
    var m := SettleMove(b, k, id, reply);
    InvShape(b.graph);
    ReleasedEffect(b.graph, k, id);
    RejectedEffect(b.graph, k, id, h);
    InvShape(m.graph);
    NoNegativeProduct(Backing(k, charge), Resident(k, charge));
    if reply.Rejected? {
      NothingCharged(b.graph, m.graph, k, charge);
      StaysBalanced(b, DestroyCall(k, charge, reply), m.graph, 0, m.quarantined);
    } else {
      StaysBalanced(b, DestroyCall(k, charge, reply), m.graph, -1, m.quarantined);
    }
  }

  lemma NothingCharged(g: Graph, g': Graph, k: Kind, charge: nat)
    requires Shape(g) && Shape(g') && Grown(g, g', k, 0, 0)
    ensures Grown(g, g', k, 0, charge)
  {}

  lemma NoNegativeProduct(a: nat, b: nat)
    ensures -1 * a <= 0 && -1 * b <= 0 && 0 * a == 0 && 0 * b == 0
  {}

  lemma ReleaseKeeps(b: Engine, body: Body, k: Kind, id: Id, reply: Release)
    requires IsRunning(b) && Inv(b.graph) && forall status | KnownStatus(status) :: ReplyShape(body, status, NoPayload)
    ensures Keeps(b, body, ReleaseMove(b, k, id, reply))
  {
    hide Get, Inv, Held, ReplyShape, Keeps, IsRunning, SettleMove;
    InvShape(b.graph);
    var found := Look(b.graph, k, id);
    if found.Err? || Held(found.value) || found.value.slot.release != Live {
      RefuseKeeps(b, body, ReleaseMove(b, k, id, reply));
    } else {
      SettleKeeps(b, body, k, id, reply);
    }
  }

  /** Adding a call without effect in front of a move. */
  lemma PrependKeeps(b: Engine, body: Body, call: Call, m: Move)
    requires IsRunning(b) && Delta(call) == 0 && call.effect == Unchanged && !call.lost && |m.calls| <= 1
    requires Keeps(b.(trace := b.trace + [call]), body, m)
    ensures Keeps(b, body, m.(calls := [call] + m.calls))
  {
    hide Inv, Balanced, AtRest, ReplyShape, SameObjects, Outstanding, Count, IsRunning, Settled;
    assert b.trace + [call] + m.calls == b.trace + ([call] + m.calls);
    SameBooks(After(b.(trace := b.trace + [call]), m), After(b, m.(calls := [call] + m.calls)));
  }

  lemma NoteCall(b: Engine, call: Call)
    requires IsRunning(b) && Delta(call) == 0
    ensures IsRunning(b.(trace := b.trace + [call]))
  {
    hide Get, Inv, Balanced, AtRest, Outstanding, Count;
    InvShape(b.graph);
    StaysBalanced(b, call, b.graph, 0, b.quarantined);
  }

  lemma DestroyEventKeeps(b: Engine, body: Body, id: Id, polled: Reply, released: Reply)
    requires IsRunning(b) && Inv(b.graph) && body.DestroyEvent?
    ensures Keeps(b, body, DestroyEventMove(b, id, polled, released))
  {
    hide Get, Inv, Held, Keeps, IsRunning, SettleMove, Balanced;
    InvShape(b.graph);
    var m, call := DestroyEventMove(b, id, polled, released), PollCall(polled.poll);
    if Look(b.graph, Event, id).Err? {
      RefuseKeeps(b, body, m);
    } else if polled.poll.Err? || polled.poll == Ok(Pending) || polled.poll == Ok(Failed(BackendError.DeviceLost)) {
      QuietKeeps(b, body, call, m);
    } else {
      NoteCall(b, call);
      ReleaseKeeps(b.(trace := b.trace + [call]), body, Event, id, released.release);
      ReleaseOneCall(b, b.(trace := b.trace + [call]), Event, id, released.release);
      PrependKeeps(b, body, call, ReleaseMove(b, Event, id, released.release));
    }
  }

  /** A release looks at the objects and the quarantine only, and makes at most one call. */
  lemma ReleaseOneCall(b: Engine, c: Engine, k: Kind, id: Id, reply: Release)
    requires Inv(b.graph) && c == b.(trace := c.trace)
    ensures ReleaseMove(c, k, id, reply) == ReleaseMove(b, k, id, reply) && |ReleaseMove(b, k, id, reply).calls| <= 1
  {
    hide Get, Inv, Held;
  }

  lemma FailKeeps(b: Engine, body: Body, call: Call, error: BackendError, mutated: bool)
    requires IsRunning(b) && Delta(call) == 0 && call.effect != Unknown
             && (call.lost ==> error == BackendError.DeviceLost)
    requires call.effect == Mutated ==> mutated || error == BackendError.DeviceLost
    requires ReplyShape(body, StatusOfBackend(error), NoPayload)
    ensures Keeps(b, body, Fail(b, call, error, mutated))
  {
    hide Keeps, IsRunning, ReplyShape;
    QuietKeeps(b, body, call, Fail(b, call, error, mutated));
  }

  /** A successful creation, recorded and published. */
  lemma GainKeeps(b: Engine, body: Body, record: Record, call: Call)
    requires IsRunning(b) && Admissible(b.graph, record)
             && ReplyShape(body, OK, ObjectPayload(InsertedId(b.graph.tables[KindOf(record)])))
    requires call == Call(Create, KindOf(record), Charge(record), Gained, false)
    requires b.graph.backing + Backing(KindOf(record), Charge(record)) <= b.graph.policy.maxBacking
    requires b.graph.resident + Resident(KindOf(record), Charge(record)) <= b.graph.policy.maxResident
    ensures Keeps(b, body, Gain(b, record, call))
  {
    hide Get, Inv, Balanced, AtRest, ReplyShape, SameObjects, Outstanding, Count, IsRunning, Admissible, Admitted,
         InsertedId, Shape;
    RunningFacts(b);
    AdmissibleFits(b.graph, record);
    AdmittedEffect(b.graph, record);
    InvShape(Admitted(b.graph, record));
    StaysBalanced(b, call, Admitted(b.graph, record), 1, b.quarantined);
  }

  lemma IssuedFits(g: Graph, k: Kind)
    requires Shape(g) && CanInsert(g.tables[k])
    ensures Encodable(InsertedId(g.tables[k])) && InsertedId(g.tables[k]).slot > 0
  {}

  lemma CreateKeeps(b: Engine, body: Body, blank: Record, reply: Result<Handle, BackendError>)
    requires IsRunning(b) && forall h :: Admissible(b.graph, WithSlot(blank, Some(h)))
    requires body.CreateContext? || body.LoadProgram? || body.CreateQueue?
    requires KindOf(blank) != Buffer
             && b.graph.resident + Resident(KindOf(blank), Charge(blank)) <= b.graph.policy.maxResident
    ensures Keeps(b, body, CreateMove(b, blank, reply))
  {
    hide Get, Inv, Keeps, IsRunning, Balanced, AtRest, InsertedId, CanInsert, Gain, Admissible, Shape;
    RunningFacts(b);
    var call := CreateCall(KindOf(blank), Charge(blank), reply);
    if reply.Ok? {
      AdmissibleFits(b.graph, WithSlot(blank, Some(reply.value)));
      IssuedFits(b.graph, KindOf(blank));
      GainKeeps(b, body, WithSlot(blank, Some(reply.value)), call);
    } else {
      FailKeeps(b, body, call, reply.error, false);
    }
  }

  lemma ContextKeeps(b: Engine, body: Body, memory: Memory, reply: Reply)
    requires IsRunning(b) && Inv(b.graph) && body.CreateContext?
    ensures Keeps(b, body, ContextMove(b, memory, reply))
  {
    hide Get, Inv, Keeps, IsRunning, Balanced, AtRest, ContextCheck, CreateMove, Admissible;
    RunningFacts(b);
    if ContextCheck(b.graph, memory.table).Some? {
      RefuseKeeps(b, body, ContextMove(b, memory, reply));
    } else {
      ContextAdmissible(b.graph, memory.table);
      CreateKeeps(b, body, ContextRecord(VACANT, NO_CHILDREN), reply.create);
    }
  }

  lemma ChildKeeps(b: Engine, body: Body, memory: Memory, reply: Reply)
    requires IsRunning(b) && Inv(b.graph) && (body.LoadProgram? || body.CreateQueue?)
             && Dispatchable(body, b.graph.limits)
    ensures Keeps(b, body, ChildMove(b, body, memory, reply))
  {
    hide Get, Inv, Keeps, IsRunning, Balanced, AtRest, ChildRefusal, CreateMove, Admissible, FromRaw;
    RunningFacts(b);
    if ChildRefusal(b.graph, body, memory.table).Some? {
      RefuseKeeps(b, body, ChildMove(b, body, memory, reply));
    } else {
      ChildAdmissible(b.graph, body, memory.table);
      CreateKeeps(b, body, ChildRecord(body), reply.create);
    }
  }

  /** Freeing an unpublished buffer after its admission was refused. */
  lemma CleanupKeeps(b: Engine, body: Body, record: Record, call: Call, reply: Release, status: nat)
    requires IsRunning(b) && body.AllocateBuffer? && Admissible(b.graph, record) && record.BufferRecord?
    requires call == Call(Create, Buffer, Charge(record), Gained, false) && KnownStatus(status) && status != OK
    ensures Keeps(b, body, CleanupMove(b, record, call, reply, status))
  {
    hide Get, Inv, Balanced, AtRest, SameObjects, Outstanding, Count, IsRunning, Admissible, Admitted, InsertedId,
         Shape, ReleasedGraph, RejectedGraph, Enter, Held, Settled, SettleMove;
    RunningFacts(b);
    AdmissibleFits(b.graph, record);
    var mid := b.(graph := Admitted(b.graph, record), trace := b.trace + [call]);
    var id := InsertedId(b.graph.tables[Buffer]);
    AdmittedEffect(b.graph, record);
    InvShape(mid.graph);
    StaysBalanced(b, call, mid.graph, 1, b.quarantined);
    CleanupRestores(b.graph, record);
    SettleBalances(mid, Buffer, id, reply);
    CleanupShape(b, mid, record, call, reply, status);
    if reply.Released? { CleanupSettled(b.graph, record); }
  }

  lemma CleanupShape(b: Engine, mid: Engine, record: Record, call: Call, reply: Release, status: nat)
    requires Admissible(b.graph, record) && record.BufferRecord?
    requires mid == b.(graph := Admitted(b.graph, record), trace := b.trace + [call])
    requires Inv(mid.graph) && Releasable(mid.graph, Buffer, InsertedId(b.graph.tables[Buffer]))
    ensures var m := CleanupMove(b, record, call, reply, status);
            var s := SettleMove(mid, Buffer, InsertedId(b.graph.tables[Buffer]), reply);
            && After(b, m) == After(mid, s).(health := b.health, lastReset := b.lastReset) && m.graph == s.graph
            && m.quarantined == s.quarantined
            && m.calls == [call] + s.calls && |s.calls| == 1
            && s.calls[0]
               == DestroyCall(Buffer, Charge(Rec(mid.graph, Buffer, InsertedId(b.graph.tables[Buffer]))), reply)
            && m.payload == NoPayload && m.discard == !reply.Released? && m.mutated == m.discard
            && m.status == (if reply.Released? then status else DEVICE_LOST)
            && (reply.Released? ==>
                 m.graph == ReleasedGraph(Admitted(b.graph, record), Buffer, InsertedId(b.graph.tables[Buffer]))
                                    && m.quarantined == b.quarantined)
  {
    hide Get, Inv, Admissible, Admitted, InsertedId, ReleasedGraph, RejectedGraph, Enter, Held;
    AdmissibleFits(b.graph, record);
    var s := SettleMove(mid, Buffer, InsertedId(b.graph.tables[Buffer]), reply);
    assert b.trace + [call] + s.calls == b.trace + ([call] + s.calls);
  }

  /** A cleaned-up admission ends with the bytes it began with. */
  lemma CleanupSettled(g: Graph, record: Record)
    requires Admissible(g, record) && record.BufferRecord? && Settled(g)
    ensures Inv(Admitted(g, record)) && Releasable(Admitted(g, record), Buffer, InsertedId(g.tables[Buffer]))
    ensures Settled(ReleasedGraph(Admitted(g, record), Buffer, InsertedId(g.tables[Buffer])))
  {
    hide Get, Inv, AtRest, Count, Admissible, Admitted, InsertedId, ReleasedGraph, Held;
    AdmissibleFits(g, record);
    AdmittedEffect(g, record);
    CleanupRestores(g, record);
    ReleasedEffect(Admitted(g, record), Buffer, InsertedId(g.tables[Buffer]));
  }

  lemma AllocateKeeps(b: Engine, body: Body, setup: Setup, memory: Memory)
    requires IsRunning(b) && Inv(b.graph) && body.AllocateBuffer?
    ensures Keeps(b, body, AllocateMove(b, body, setup, memory))
  {
    hide Get, Inv, Keeps, IsRunning, Balanced, AtRest, BufferRefusal, Admissible, CleanupMove, Gain, InsertedId,
         FromRaw, Shape, CanInsert;
    RunningFacts(b);
    var refused := BufferRefusal(b.graph, body, setup.domains, memory.table);
    var reply, info := setup.backend(|b.trace|).create, setup.backend(|b.trace|).info;
    var call := CreateCall(Buffer, info.allocationBytes, reply);
    if refused.Some? {
      RefusalIsKnown(b.graph, body, setup.domains, memory.table);
      RefuseKeeps(b, body, AllocateMove(b, body, setup, memory));
    } else if reply.Err? {
      FailKeeps(b, body, call, reply.error, false);
    } else {
      var record := BufferOf(body, reply.value, info);
      BufferAdmissible(b.graph, body, setup.domains, memory.table, reply.value, info);
      CleanupKeeps(b, body, record, call, setup.backend(|b.trace| + 1).release, INCOMPATIBLE);
      CleanupKeeps(b, body, record, call, setup.backend(|b.trace| + 1).release, RESOURCE_LIMIT);
      if b.graph.backing + info.allocationBytes <= b.graph.policy.maxBacking {
        AdmissibleIssues(b.graph, record);
        GainKeeps(b, body, record, call);
      }
    }
  }

  lemma AdmissibleIssues(g: Graph, record: Record)
    requires Admissible(g, record)
    ensures IssuedPayload(ObjectPayload(InsertedId(g.tables[KindOf(record)])))
  {
    hide InsertedId;
    InvShape(g);
    IssuedFits(g, KindOf(record));
  }

  lemma RefusalIsKnown(g: Graph, body: Body, domains: set<nat>, memory: bool)
    requires Shape(g) && body.AllocateBuffer? && BufferRefusal(g, body, domains, memory).Some?
    ensures ReplyShape(body, BufferRefusal(g, body, domains, memory).value, NoPayload)
  {
    hide BufferCheck, FromRaw;
  }

  lemma EventGainKeeps(b: Engine, body: Body, record: Record, call: Call, status: nat, lost: bool)
    requires IsRunning(b) && AdmissibleEvent(b.graph, record) && body.Submit? && KnownStatus(status)
    requires call == Call(Create, Event, 0, Gained, lost)
    ensures Keeps(b, body, EventGain(b, record, call, status, lost))
  {
    hide Get, Inv, Balanced, AtRest, SameObjects, Outstanding, Count, IsRunning, AdmittedEvent, InsertedId, CanInsert,
         EventOk, ObjectTables.Valid, ValidLimits, TableLimit;
    RunningFacts(b);
    IssuedFits(b.graph, Event);
    AdmittedEventEffect(b.graph, record);
    InvShape(AdmittedEvent(b.graph, record));
    StaysBalanced(b, call, AdmittedEvent(b.graph, record), 1, b.quarantined);
  }

  lemma SubmitKeeps(b: Engine, body: Body, memory: Memory, reply: Reply)
    requires IsRunning(b) && Inv(b.graph) && body.Submit?
    ensures Keeps(b, body, SubmitMove(b, body, memory, reply))
  {
    hide Get, Inv, Keeps, IsRunning, Balanced, AtRest, EventCheck, BindingFault, AdmissibleEvent, EventGain, FromRaw,
         BufferIds, Shape, AnswerMove;
    RunningFacts(b);
    var check := SubmitCheck(b.graph, body, memory.table);
    var m := SubmitMove(b, body, memory, reply);
    if !memory.scratch || check.Err? || !memory.native {
      RefuseKeeps(b, body, m);
    } else {
      SubmissionResolves(b.graph, FromRaw(body.queue), FromRaw(body.program), body.bindings, memory.table);
      if BindingFault(b.graph, body.bindings).Some? {
        RefuseKeeps(b, body, m);
      } else {
        AnswerKeeps(b, body, memory, check.value, reply.submit);
      }
    }
  }

  lemma AnswerKeeps(b: Engine, body: Body, memory: Memory, record: Record, reply: Admission)
    requires IsRunning(b) && Inv(b.graph) && body.Submit? && Shape(b.graph)
             && SubmitCheck(b.graph, body, memory.table) == Ok(record)
    ensures Keeps(b, body, AnswerMove(b, body, memory, record, reply))
  {
    hide Get, Inv, Keeps, IsRunning, Balanced, AtRest, EventCheck, AdmissibleEvent, EventGain, FromRaw, BufferIds,
         Shape;
    match reply {
      case Refused(error) => FailKeeps(b, body, SubmitCall(reply), error, false);
      case Accepted(h) =>
        EventCheckAdmits(b.graph, FromRaw(body.queue), FromRaw(body.program), BufferIds(body.bindings), memory.table,
                         h);
        EventGainKeeps(b, body, WithSlot(record, Some(h)), SubmitCall(reply), OK, false);
      case Uncertain(error, h) =>
        EventCheckAdmits(b.graph, FromRaw(body.queue), FromRaw(body.program), BufferIds(body.bindings), memory.table,
                         h);
        EventGainKeeps(b, body, WithSlot(record, Some(h)), SubmitCall(reply), StatusOfBackend(error),
                       error == BackendError.DeviceLost);
    }
  }

  lemma QueryKeeps(b: Engine, body: Body, id: Id, cancellation: bool, reply: Reply)
    requires IsRunning(b) && Inv(b.graph)
    ensures body.PollEvent? ==> Keeps(b, body, PollMove(b, id, reply))
    ensures body.CancelEvent? ==> Keeps(b, body, CancelMove(b, id, cancellation, reply))
  {
    hide Get, Inv, Keeps, IsRunning, Balanced, AtRest;
    InvShape(b.graph);
    if body.PollEvent? {
      if Look(b.graph, Event, id).Err? { RefuseKeeps(b, body, PollMove(b, id, reply)); }
      else { QuietKeeps(b, body, PollCall(reply.poll), PollMove(b, id, reply)); }
    }
    if body.CancelEvent? {
      if !cancellation || Look(b.graph, Event, id).Err? {
        RefuseKeeps(b, body, CancelMove(b, id, cancellation, reply));
      }
      else { QuietKeeps(b, body, CancelCall(reply.transfer), CancelMove(b, id, cancellation, reply)); }
    }
  }

  lemma TransferKeeps(b: Engine, body: Body, reply: Reply)
    requires IsRunning(b) && Inv(b.graph) && (body.WriteBuffer? || body.ReadBuffer?)
    ensures Keeps(b, body, TransferMove(b, body, reply))
  {
    hide Get, Inv, Keeps, IsRunning, Balanced, AtRest, TransferFault, FromRaw;
    InvShape(b.graph);
    var m, found := TransferMove(b, body, reply), Look(b.graph, Buffer, FromRaw(body.buffer));
    var usage := if body.WriteBuffer? then TRANSFER_DESTINATION else TRANSFER_SOURCE;
    if found.Err? || TransferFault(found.value, body.offset, body.bytes, usage).Some? {
      RefuseKeeps(b, body, m);
    } else {
      QuietKeeps(b, body, TransferCall(body.WriteBuffer?, reply.transfer), m);
    }
  }

  /** Every command on a running device, whatever the backend answers. */
  lemma CommandKeeps(b: Engine, body: Body, setup: Setup, memory: Memory)
    requires IsRunning(b) && Inv(b.graph) && Dispatchable(body, b.graph.limits)
    ensures Keeps(b, body, CommandMove(b, body, setup, memory))
  {
    hide Inv, Keeps, IsRunning, ReleaseMove, DestroyEventMove, ContextMove, ChildMove, AllocateMove, SubmitMove,
         PollMove, CancelMove, TransferMove, FromRaw;
    var reply := setup.backend(|b.trace|);
    match body {
      case GetDeviceInfo => RefuseKeeps(b, body, CommandMove(b, body, setup, memory));
      case CreateContext => ContextKeeps(b, body, memory, reply);
      case DestroyContext(id) => ReleaseKeeps(b, body, Context, FromRaw(id), reply.release);
      case AllocateBuffer(_, _) => AllocateKeeps(b, body, setup, memory);
      case FreeBuffer(id) => ReleaseKeeps(b, body, Buffer, FromRaw(id), reply.release);
      case WriteBuffer(_, _, _, _) => TransferKeeps(b, body, reply);
      case ReadBuffer(_, _, _) => TransferKeeps(b, body, reply);
      case LoadProgram(_, _, _, _, _) => ChildKeeps(b, body, memory, reply);
      case UnloadProgram(id) => ReleaseKeeps(b, body, Program, FromRaw(id), reply.release);
      case CreateQueue(_) => ChildKeeps(b, body, memory, reply);
      case DestroyQueue(id) => ReleaseKeeps(b, body, Queue, FromRaw(id), reply.release);
      case Submit(_, _, _, _) => SubmitKeeps(b, body, memory, reply);
      case PollEvent(id) => QueryKeeps(b, body, FromRaw(id), setup.cancellation, reply);
      case CancelEvent(id) => QueryKeeps(b, body, FromRaw(id), setup.cancellation, reply);
      case DestroyEvent(id) => DestroyEventKeeps(b, body, FromRaw(id), reply, setup.backend(|b.trace| + 1));
    }
  }
}
