/** What commands mean in terms of the objects themselves: which ones reach the backend, what is
    answered, and what becomes of every object. Nothing here refers to how a command is carried out. */
module Meanings {
  import opened Bytes
  import opened ObjectTables
  import opened Graphs
  import opened GraphLaws
  import opened DeviceStates
  import opened GraphEffects
  import opened Wire
  import opened Ledgers
  import opened Commands
  import opened Sorting

  // ------------------------------------------------------------------------------------------
  // Vocabulary.

  /** The error of naming an object that is not there. */
  function Missing(id: Id): StateError { if id.slot == 0 then InvalidObject else StaleObject }

  function MissingStatus(id: Id): nat { if id.slot == 0 then INVALID_ARGUMENT else STALE_OBJECT }

  /** All slots the table of kind `k` may have are live or retired. */
  ghost predicate Full(g: Graph, k: Kind) {
    k in g.tables && NoVacancy(g.tables[k]) && |g.tables[k].slots| == g.tables[k].maxSlots
  }

  /** The table of kind `k` would have to grow. */
  ghost predicate Grows(g: Graph, k: Kind) {
    k in g.tables && NoVacancy(g.tables[k]) && |g.tables[k].slots| < g.tables[k].maxSlots
  }

  /** How many live objects of kind `k` belong to `context`. */
  ghost function OwnedBy(g: Graph, k: Kind, context: Id): nat
    requires k in g.tables
  {
    Tally(g.tables[k].slots, Owned(context))
  }

  /** The record without the counters that other records determine. */
  function Plain(r: Record): Record {
    match r
    case ContextRecord(slot, _) => ContextRecord(slot, NO_CHILDREN)
    case BufferRecord(slot, context, info, _) => BufferRecord(slot, context, info, 0)
    case ProgramRecord(slot, context, bytes, _) => ProgramRecord(slot, context, bytes, 0)
    case QueueRecord(slot, context, _) => QueueRecord(slot, context, 0)
    case EventRecord(_, _, _, _, _) => r
  }

  /** Object `id` appears as `r`; all others stay as they were. */
  ghost predicate Adds(g: Graph, g': Graph, k: Kind, id: Id, r: Record) {
    && !Alive(g, k, id) && Alive(g', k, id) && Rec(g', k, id) == r
    && (forall j, x :: Alive(g', j, x) <==> Alive(g, j, x) || (j == k && x == id))
    && (forall j, x | Alive(g, j, x) :: Plain(Rec(g', j, x)) == Plain(Rec(g, j, x)))
  }

  /** Object `id` goes; all others stay as they were. */
  ghost predicate Removes(g: Graph, g': Graph, k: Kind, id: Id) {
    && (forall j, x :: Alive(g', j, x) <==> Alive(g, j, x) && !(j == k && x == id))
    && (forall j, x | Alive(g', j, x) :: Plain(Rec(g', j, x)) == Plain(Rec(g, j, x)))
  }

  /** Object `id` has resource `h` now; everything else is as it was. */
  ghost predicate Resources(g: Graph, g': Graph, k: Kind, id: Id, h: Handle) {
    && Alive(g, k, id)
    && (forall j, x :: Alive(g', j, x) <==> Alive(g, j, x))
    && (forall j, x | Alive(g, j, x) ::
          Rec(g', j, x)
          == if j == k && x == id then Rec(g, j, x).(slot := ResourceSlot(Some(h), Live)) else Rec(g, j, x))
  }

  /** No call is made and nothing changes. */
  ghost predicate Refuses(b: Engine, m: Move, status: nat) {
    && m.graph == b.graph && m.quarantined == b.quarantined && m.calls == []
    && m.status == status && m.payload == NoPayload && !m.mutated && !m.discard
  }

  /** One call is made and nothing changes; a lost device must be discarded. */
  ghost predicate Asks(b: Engine, m: Move, call: Call, status: nat, payload: Payload, mutated: bool) {
    && m.graph == b.graph && m.quarantined == b.quarantined && m.calls == [call]
    && m.status == status && m.payload == payload && m.mutated == mutated && m.discard == call.lost
  }

  /** One object is created, recorded as `r` and its identifier published. */
  ghost predicate Creates(b: Engine, m: Move, call: Call, r: Record) {
    && m.quarantined == b.quarantined && m.calls == [call] && m.status == OK && m.mutated && !m.discard
    && m.payload.ObjectPayload? && Adds(b.graph, m.graph, KindOf(r), m.payload.id, r)
  }

  // ------------------------------------------------------------------------------------------
  // Admission checks.

  lemma LookMeaning(g: Graph, k: Kind, id: Id)
    requires Shape(g)
    ensures k in g.tables
    ensures Look(g, k, id) == if Alive(g, k, id) then Ok(Rec(g, k, id)) else Err(Missing(id))
    ensures StatusOfState(Missing(id)) == MissingStatus(id)
  {}

  lemma RoomMeaning(g: Graph, k: Kind, memory: bool)
    requires Shape(g)
    ensures k in g.tables
    ensures ReserveCheck(g, k, memory)
            == if Full(g, k) then Some(StateError.ResourceLimit)
               else if Grows(g, k) && !memory then Some(StateError.OutOfMemory) else None
  {
    hide ValidLimits, TableLimit, NoVacancy;
    ReserveRoom(g.tables[k], memory);
  }

  /** A context is refused exactly when the limit or its table is exhausted, or the table cannot grow. */
  lemma ContextRefusals(g: Graph, memory: bool)
    requires Shape(g)
    ensures Context in g.tables
    ensures ContextCheck(g, memory)
            == if Count(g, Context) >= g.limits.maxContexts || Full(g, Context) then Some(StateError.ResourceLimit)
               else if Grows(g, Context) && !memory then Some(StateError.OutOfMemory) else None
  {
    hide Shape, Full, Grows, ReserveCheck;
    RoomMeaning(g, Context, memory);
  }

  /** The counters of a context are the numbers of objects that belong to it. */
  lemma ChildrenAreOwned(g: Graph, k: Kind, context: Id)
    requires Inv(g) && Alive(g, Context, context) && k != Context
    ensures k in g.tables && Rec(g, Context, context).ContextRecord?
    ensures Child(Rec(g, Context, context).children, k) == OwnedBy(g, k, context)
  {
    hide Get, Inv, Tally, Valid, ValidLimits, TableLimit, LeafOk, EventOk;
    RecordIsOk(g, Context, context);
  }

  /** A child is refused exactly when its context is not there, owns its quota, or the table is
      exhausted or cannot grow. */
  lemma ChildRefusals(g: Graph, k: Kind, context: Id, memory: bool)
    requires Inv(g) && AtRest(g) && k != Context
    ensures Context in g.tables && k in g.tables
    ensures ChildCheck(g, k, context, memory)
            == if !Alive(g, Context, context) then Some(Missing(context))
               else if OwnedBy(g, k, context) >= PerContext(g.limits, k) || Full(g, k) then
                 Some(StateError.ResourceLimit)
               else if Grows(g, k) && !memory then Some(StateError.OutOfMemory) else None
  {
    hide Inv, Shape, Look, Full, Grows, ReserveCheck, OwnedBy, Child, PerContext, Alive, Rec;
    InvShape(g);
    LookMeaning(g, Context, context);
    RoomMeaning(g, k, memory);
    if Alive(g, Context, context) {
      ChildrenAreOwned(g, k, context);
      RestingHasResource(g, Context, context);
    }
  }

  lemma RestingHasResource(g: Graph, k: Kind, id: Id)
    requires Inv(g) && AtRest(g) && Alive(g, k, id)
    ensures KindOf(Rec(g, k, id)) == k && Rec(g, k, id).slot.resource.Some? && Rec(g, k, id).slot.release == Live
  {
    hide Get, Inv, ContextOk, LeafOk, EventOk;
    RecordIsOk(g, k, id);
  }

  // ------------------------------------------------------------------------------------------
  // Creating contexts, programs and queues.

  lemma AdmittedAdds(g: Graph, r: Record)
    requires Admissible(g, r)
    ensures KindOf(r) in g.tables && ObjectTables.Valid(g.tables[KindOf(r)])
    ensures Adds(g, Admitted(g, r), KindOf(r), InsertedId(g.tables[KindOf(r)]), r)
  {
    hide Get, Inv, Admitted, InsertedId, CanInsert, Tally, Weight, ValidLimits, TableLimit, ObjectTables.Valid;
    AdmissibleFits(g, r);
    AdmittedFacts(g, r);
  }

  /** What creating `blank` does once nothing stands in the way: the backend alone decides. */
  ghost predicate Created(b: Engine, m: Move, blank: Record, reply: Result<Handle, BackendError>) {
    var call := CreateCall(KindOf(blank), Charge(blank), reply);
    match reply
    case Ok(h) => Creates(b, m, call, blank.(slot := LiveSlot(h)))
    case Err(error) => Asks(b, m, call, StatusOfBackend(error), NoPayload, false)
  }

  lemma CreateMeaning(b: Engine, blank: Record, reply: Result<Handle, BackendError>)
    requires forall h :: Admissible(b.graph, WithSlot(blank, Some(h)))
    ensures Created(b, CreateMove(b, blank, reply), blank, reply)
  {
    hide Inv, Admissible, Admitted, InsertedId, Adds, StatusOfBackend;
    if reply.Ok? {
      AdmissibleFits(b.graph, WithSlot(blank, Some(reply.value)));
      AdmittedAdds(b.graph, WithSlot(blank, Some(reply.value)));
    }
  }

  /** GET_DEVICE_INFO is answered without the backend. */
  lemma InfoMeaning(b: Engine, setup: Setup, memory: Memory)
    requires Inv(b.graph)
    ensures CommandMove(b, GetDeviceInfo, setup, memory)
            == Move(b.graph, b.quarantined, [], OK, InfoPayload, false, false)
  {}

  /** CREATE_CONTEXT reaches the backend exactly when the limit and the table leave room. */
  lemma ContextMeaning(b: Engine, setup: Setup, memory: Memory)
    requires Inv(b.graph)
    ensures Shape(b.graph)
    ensures var g, m := b.graph, CommandMove(b, CreateContext, setup, memory);
            if Count(g, Context) >= g.limits.maxContexts || Full(g, Context) then Refuses(b, m, RESOURCE_LIMIT)
            else if Grows(g, Context) && !memory.table then Refuses(b, m, OUT_OF_MEMORY)
            else Created(b, m, ContextRecord(VACANT, NO_CHILDREN), setup.backend(|b.trace|).create)
  {
    hide Inv, Shape, Full, Grows, ContextCheck, CreateMove, Created, Admissible;
    InvShape(b.graph);
    ContextRefusals(b.graph, memory.table);
    if ContextCheck(b.graph, memory.table).None? {
      ContextAdmissible(b.graph, memory.table);
      CreateMeaning(b, ContextRecord(VACANT, NO_CHILDREN), setup.backend(|b.trace|).create);
    }
  }

  /** Where a child of `context` is refused before the backend is asked, and with which status. */
  ghost predicate Crowded(b: Engine, m: Move, k: Kind, context: Id, quota: nat, memory: bool)
    requires Shape(b.graph)
  {
    if !Alive(b.graph, Context, context) then Refuses(b, m, MissingStatus(context))
    else if OwnedBy(b.graph, k, context) >= quota || Full(b.graph, k) then Refuses(b, m, RESOURCE_LIMIT)
    else Grows(b.graph, k) && !memory && Refuses(b, m, OUT_OF_MEMORY)
  }

  /** The context is there, owns less than its quota, and the table has room. */
  ghost predicate Roomy(g: Graph, k: Kind, context: Id, quota: nat, memory: bool)
    requires Shape(g)
  {
    && Alive(g, Context, context) && OwnedBy(g, k, context) < quota && !Full(g, k) && (Grows(g, k) ==> memory)
  }

  /** The checks on a child pass exactly when there is room, and refuse as they should otherwise. */
  lemma ChildRoom(b: Engine, k: Kind, context: Id, memory: bool, m: Move)
    requires Inv(b.graph) && AtRest(b.graph) && Shape(b.graph) && k != Context
    ensures Context in b.graph.tables && k in b.graph.tables
    ensures var check, quota := ChildCheck(b.graph, k, context, memory), PerContext(b.graph.limits, k);
            && (check.None? <==> Roomy(b.graph, k, context, quota, memory))
            && (check.Some? && Refuses(b, m, StatusOfState(check.value)) ==> Crowded(b, m, k, context, quota, memory))
  {
    hide Inv, Shape, Full, Grows, ChildCheck, OwnedBy, PerContext, Alive, Refuses;
    LookMeaning(b.graph, Context, context);
    ChildRefusals(b.graph, k, context, memory);
  }

  /** CREATE_QUEUE reaches the backend exactly when the context is there, owns fewer queues than its
      quota, and the table has room. */
  lemma QueueMeaning(b: Engine, body: Body, setup: Setup, memory: Memory)
    requires Inv(b.graph) && AtRest(b.graph) && body.CreateQueue?
    ensures Shape(b.graph)
    ensures var g, m, context := b.graph, CommandMove(b, body, setup, memory), FromRaw(body.context);
            if Roomy(g, Queue, context, g.limits.maxQueues, memory.table) then
              Created(b, m, QueueRecord(VACANT, context, 0), setup.backend(|b.trace|).create)
            else Crowded(b, m, Queue, context, g.limits.maxQueues, memory.table)
  {
    hide Inv, Shape, ChildCheck, CreateMove, Created, Admissible, FromRaw, Roomy, Crowded;
    InvShape(b.graph);
    ChildRoom(b, Queue, FromRaw(body.context), memory.table, CommandMove(b, body, setup, memory));
    if ChildRefusal(b.graph, body, memory.table).None? {
      ChildAdmissible(b.graph, body, memory.table);
      CreateMeaning(b, ChildRecord(body), setup.backend(|b.trace|).create);
    }
  }

  /** LOAD_PROGRAM reaches the backend exactly when its sizes are positive and within limit and policy
      and its context and table have room. */
  lemma ProgramMeaning(b: Engine, body: Body, setup: Setup, memory: Memory)
    requires Inv(b.graph) && AtRest(b.graph) && body.LoadProgram? && Dispatchable(body, b.graph.limits)
    ensures Shape(b.graph)
    ensures var g, m, context := b.graph, CommandMove(b, body, setup, memory), FromRaw(body.context);
            if |body.artifact| == 0 || body.resident == 0 then Refuses(b, m, INVALID_ARGUMENT)
            else if |body.artifact| > g.limits.maxArtifactBytes
                    || g.resident + body.resident > g.policy.maxResident then
              Refuses(b, m, RESOURCE_LIMIT)
            else if Roomy(g, Program, context, g.limits.maxPrograms, memory.table) then
              Created(b, m, ProgramRecord(VACANT, context, body.resident, 0), setup.backend(|b.trace|).create)
            else Crowded(b, m, Program, context, g.limits.maxPrograms, memory.table)
  {
    hide Inv, Shape, ChildCheck, CreateMove, Created, Admissible, FromRaw, Roomy, Crowded;
    InvShape(b.graph);
    ChildRoom(b, Program, FromRaw(body.context), memory.table, CommandMove(b, body, setup, memory));
    if ChildRefusal(b.graph, body, memory.table).None? {
      ChildAdmissible(b.graph, body, memory.table);
      CreateMeaning(b, ChildRecord(body), setup.backend(|b.trace|).create);
    }
  }

  // ------------------------------------------------------------------------------------------
  // Allocating buffers.

  /** An allocation that is freed again: its identifier is told to nobody, and unless the backend took
      it back the device is lost. */
  ghost predicate FreedAgain(b: Engine, m: Move, call: Call, r: Record, reply: Release, status: nat) {
    && m.calls == [call, DestroyCall(Buffer, Charge(r), reply)] && m.payload == NoPayload
    && match reply
       case Released =>
         && m.quarantined == b.quarantined && m.status == status && !m.mutated && !m.discard
         && SameObjects(b.graph, m.graph)
       case Rejected(_, h) =>
         && m.quarantined == b.quarantined && m.status == DEVICE_LOST && m.mutated && m.discard
         && Lingers(b.graph, m.graph, r.(slot := LiveSlot(h)))
       case Indeterminate(_) =>
         && m.quarantined == Enter(b.quarantined, Buffer, Charge(r))
         && m.status == DEVICE_LOST && m.mutated && m.discard && SameObjects(b.graph, m.graph)
  }

  ghost predicate Lingers(g: Graph, g': Graph, r: Record) { exists id :: Adds(g, g', KindOf(r), id, r) }

  lemma ItLingers(g: Graph, g': Graph, id: Id, r: Record)
    requires Adds(g, g', KindOf(r), id, r)
    ensures Lingers(g, g', r)
  {
    hide Adds;
  }

  lemma CleanupMeaning(b: Engine, r: Record, call: Call, reply: Release, status: nat)
    requires Admissible(b.graph, r) && r.BufferRecord?
    ensures FreedAgain(b, CleanupMove(b, r, call, reply, status), call, r, reply, status)
  {
    hide Inv, Admissible, Admitted, InsertedId, ReleasedGraph, RejectedGraph, Adds, Lingers, SameObjects, Enter,
         Releasable, Resources;
    AdmissibleFits(b.graph, r);
    CleanupRestores(b.graph, r);
    var g1, id := Admitted(b.graph, r), InsertedId(b.graph.tables[Buffer]);
    if reply.Rejected? {
      AdmittedAdds(b.graph, r);
      RejectedResources(g1, Buffer, id, reply.resource);
      var g2 := RejectedGraph(g1, Buffer, id, reply.resource);
      AddsThenResources(b.graph, g1, g2, Buffer, id, r, reply.resource);
      ItLingers(b.graph, g2, id, WithSlot(r, Some(reply.resource)));
    }
  }

  lemma RejectedResources(g: Graph, k: Kind, id: Id, h: Handle)
    requires Inv(g) && Releasable(g, k, id)
    ensures Resources(g, RejectedGraph(g, k, id, h), k, id, h)
  {
    hide Get, Inv, Shape, ReSlot, Held, Grown;
    InvShape(g);
    BegunEffect(g, k, id);
    RestoredEffect(ReSlot(g, k, id, None), k, id, h);
  }

  lemma AddsThenResources(g: Graph, g1: Graph, g': Graph, k: Kind, id: Id, r: Record, h: Handle)
    requires Adds(g, g1, k, id, r) && Resources(g1, g', k, id, h)
    ensures Adds(g, g', k, id, r.(slot := LiveSlot(h)))
  {
    hide Alive, Rec, Plain;
  }

  /** ALLOCATE_BUFFER is refused before the backend is asked exactly for its size, its domain, the
      backing policy, its context or the table. What the backend grants is published exactly if it is
      what was asked for and stays within policy; then the record is that grant, unreferenced, in the
      requested context. */
  lemma BufferMeaning(b: Engine, body: Body, setup: Setup, memory: Memory)
    requires Inv(b.graph) && AtRest(b.graph) && body.AllocateBuffer?
    ensures Shape(b.graph)
    ensures var g, m, context := b.graph, CommandMove(b, body, setup, memory), FromRaw(body.context);
            if body.desc.bytes > g.limits.maxBufferBytes then Refuses(b, m, RESOURCE_LIMIT)
            else if body.desc.domain !in setup.domains then Refuses(b, m, UNSUPPORTED)
            else if g.backing + body.desc.bytes > g.policy.maxBacking then Refuses(b, m, RESOURCE_LIMIT)
            else if Roomy(g, Buffer, context, g.limits.maxBuffers, memory.table) then
              Granted(b, m, body, setup.backend(|b.trace|), setup.backend(|b.trace| + 1).release)
            else Crowded(b, m, Buffer, context, g.limits.maxBuffers, memory.table)
  {
    hide Inv, Shape, ChildCheck, BackedMove, Granted, FromRaw, Roomy, Crowded;
    InvShape(b.graph);
    ChildRoom(b, Buffer, FromRaw(body.context), memory.table, CommandMove(b, body, setup, memory));
    if BufferRefusal(b.graph, body, setup.domains, memory.table).None? { GrantMeaning(b, body, setup, memory); }
  }

  /** What follows the backend's answer to an allocation. */
  ghost predicate Granted(b: Engine, m: Move, body: Body, reply: Reply, release: Release)
    requires body.AllocateBuffer?
  {
    var call := CreateCall(Buffer, reply.info.allocationBytes, reply.create);
    match reply.create
    case Err(error) => Asks(b, m, call, StatusOfBackend(error), NoPayload, false)
    case Ok(h) =>
      var r := BufferRecord(ResourceSlot(Some(h), Live), FromRaw(body.context), reply.info, 0);
      if reply.info.desc != body.desc then FreedAgain(b, m, call, r, release, INCOMPATIBLE)
      else if b.graph.backing + reply.info.allocationBytes > b.graph.policy.maxBacking then
        FreedAgain(b, m, call, r, release, RESOURCE_LIMIT)
      else Creates(b, m, call, r)
  }

  lemma GrantMeaning(b: Engine, body: Body, setup: Setup, memory: Memory)
    requires Inv(b.graph) && Shape(b.graph) && body.AllocateBuffer?
    requires BufferRefusal(b.graph, body, setup.domains, memory.table).None?
    ensures Granted(b, BackedMove(b, body, setup, memory), body, setup.backend(|b.trace|),
                    setup.backend(|b.trace| + 1).release)
  {
    hide Inv, Shape, BufferRefusal, CleanupMove, FreedAgain, Admissible, Admitted, Adds, InsertedId, FromRaw;
    var reply := setup.backend(|b.trace|);
    var call := CreateCall(Buffer, reply.info.allocationBytes, reply.create);
    if reply.create.Ok? {
      var r := BufferOf(body, reply.create.value, reply.info);
      BufferAdmissible(b.graph, body, setup.domains, memory.table, reply.create.value, reply.info);
      AdmissibleFits(b.graph, r);
      AdmittedAdds(b.graph, r);
      CleanupMeaning(b, r, call, setup.backend(|b.trace| + 1).release, INCOMPATIBLE);
      CleanupMeaning(b, r, call, setup.backend(|b.trace| + 1).release, RESOURCE_LIMIT);
    }
  }

  // ------------------------------------------------------------------------------------------
  // Releasing objects.

  /** Record `r` refers to object `id` of kind `k`: a child to its context, an event to its queue, its
      program and its buffers. */
  ghost predicate Names(r: Record, k: Kind, id: Id) {
    match k
    case Context => !r.ContextRecord? && r.context == id
    case Queue => r.EventRecord? && r.queue == id
    case Program => r.EventRecord? && r.program == id
    case Buffer => r.EventRecord? && id in r.buffers
    case Event => false
  }

  /** A live object depends on this one. */
  ghost predicate Named(g: Graph, k: Kind, id: Id) {
    exists j, x :: Alive(g, j, x) && Names(Rec(g, j, x), k, id)
  }

  /** The counters hold an object exactly while a live object depends on it. */
  lemma HeldIffNamed(g: Graph, k: Kind, id: Id)
    requires Inv(g) && Alive(g, k, id)
    ensures Held(Rec(g, k, id)) <==> Named(g, k, id)
  {
    hide Get, Inv, Tally, ObjectTables.Valid, ValidLimits, TableLimit, Held;
    if !Held(Rec(g, k, id)) {
      UnheldIsUnnamed(g, k, id);
      if j, x :| Alive(g, j, x) && Names(Rec(g, j, x), k, id) { KindIsItsTable(g, j, x); }
    } else if !Named(g, k, id) {
      if k == Context { ChildlessIsUnheld(g, id); } else { UnusedIsUnheld(g, k, id); }
    }
  }

  lemma KindIsItsTable(g: Graph, k: Kind, id: Id)
    requires Inv(g) && Alive(g, k, id)
    ensures KindOf(Rec(g, k, id)) == k
  {
    hide Get, Inv, SlotOk, ContextOk, LeafOk, EventOk;
    RecordIsOk(g, k, id);
  }

  lemma UnusedIsUnheld(g: Graph, k: Kind, id: Id)
    requires Inv(g) && Alive(g, k, id) && k != Context && !Named(g, k, id)
    ensures !Held(Rec(g, k, id))
  {
    hide Get, Inv, Tally, ObjectTables.Valid, ValidLimits, TableLimit, ContextOk, EventOk;
    RecordIsOk(g, k, id);
    forall x | Alive(g, Event, x)
      ensures Weight(Uses(k, id), Rec(g, Event, x)) == 0
    {
      var r := Rec(g, Event, x);
      if k == Buffer && r.EventRecord? { assert id !in r.buffers; }
    }
    var slots := T(g, Event).slots;
    UnnamedTally(g, Event, Uses(k, id), |slots|);
    assert slots[..|slots|] == slots;
  }

  lemma ChildlessIsUnheld(g: Graph, id: Id)
    requires Inv(g) && Alive(g, Context, id) && !Named(g, Context, id)
    ensures !Held(Rec(g, Context, id))
  {
    hide Get, Inv, Tally, ObjectTables.Valid, ValidLimits, TableLimit, LeafOk, EventOk;
    RecordIsOk(g, Context, id);
    forall k | k != Context
      ensures Child(Rec(g, Context, id).children, k) == 0
    {
      forall x | Alive(g, k, x)
        ensures Weight(Owned(id), Rec(g, k, x)) == 0
      {
      }
      var slots := T(g, k).slots;
      UnnamedTally(g, k, Owned(id), |slots|);
      assert slots[..|slots|] == slots;
    }
    var c := Rec(g, Context, id).children;
    assert Child(c, Buffer) == 0 && Child(c, Program) == 0 && Child(c, Queue) == 0 && Child(c, Event) == 0;
  }

  /** What follows the backend's answer to a release, after the calls in `before`: released, the object
      goes; refused, it stays with the resource handed back; uncertain, it goes into quarantine and the
      backend must be discarded. */
  ghost predicate Settles(b: Engine, m: Move, before: seq<Call>, k: Kind, id: Id, reply: Release)
    requires Alive(b.graph, k, id)
  {
    var charge := Charge(Rec(b.graph, k, id));
    && m.calls == before + [DestroyCall(k, charge, reply)] && m.payload == NoPayload
    && match reply
       case Released =>
         && Removes(b.graph, m.graph, k, id) && m.quarantined == b.quarantined
         && m.status == OK && m.mutated && !m.discard
       case Rejected(error, h) =>
         && Resources(b.graph, m.graph, k, id, h) && m.quarantined == b.quarantined
         && m.status == StatusOfBackend(error) && !m.mutated && m.discard == (error == BackendError.DeviceLost)
       case Indeterminate(_) =>
         && Removes(b.graph, m.graph, k, id) && m.quarantined == Enter(b.quarantined, k, charge)
         && m.status == DEVICE_LOST && m.mutated && m.discard
  }

  lemma ReleasedRemoves(g: Graph, k: Kind, id: Id)
    requires Inv(g) && Releasable(g, k, id)
    ensures Removes(g, ReleasedGraph(g, k, id), k, id)
  {
    hide Get, Inv, Shape, ReSlot, Unowned, DroppedEvent, Held, Grown, Tally, Weight, Child, WithChild;
    InvShape(g);
    var g1 := ReSlot(g, k, id, None);
    BegunEffect(g, k, id);
    InvShape(g1);
    CommittedEffect(g1, k, id);
    if k == Event {
      DroppedEventFacts(g1, id);
    } else {
      OwnerIsThere(g1, k, id);
      UnownedFacts(g1, k, id);
    }
  }

  lemma SettleMeaning(b: Engine, k: Kind, id: Id, reply: Release)
    requires Inv(b.graph) && Releasable(b.graph, k, id)
    ensures Settles(b, SettleMove(b, k, id, reply), [], k, id, reply)
  {
    hide Inv, ReleasedGraph, RejectedGraph, Removes, Resources, Held, Enter, StatusOfBackend;
    ReleasedRemoves(b.graph, k, id);
    if reply.Rejected? { RejectedResources(b.graph, k, id, reply.resource); }
  }

  /** What the four destroying commands other than DESTROY_EVENT are about. */
  function Doomed(body: Body): Option<(Kind, nat)> {
    match body
    case DestroyContext(id) => Some((Context, id))
    case FreeBuffer(id) => Some((Buffer, id))
    case UnloadProgram(id) => Some((Program, id))
    case DestroyQueue(id) => Some((Queue, id))
    case _ => None
  }

  lemma ReleaseMoveMeaning(b: Engine, k: Kind, id: Id, reply: Release)
    requires Inv(b.graph) && AtRest(b.graph)
    ensures var m := ReleaseMove(b, k, id, reply);
            if !Alive(b.graph, k, id) then Refuses(b, m, MissingStatus(id))
            else if Named(b.graph, k, id) then Refuses(b, m, BUSY)
            else Settles(b, m, [], k, id, reply)
  {
    hide Inv, Shape, Look, Alive, Rec, Held, Named, Settles, SettleMove;
    InvShape(b.graph);
    LookMeaning(b.graph, k, id);
    if Alive(b.graph, k, id) {
      HeldIffNamed(b.graph, k, id);
      RestingHasResource(b.graph, k, id);
      if !Held(Rec(b.graph, k, id)) { SettleMeaning(b, k, id, reply); }
    }
  }

  /** Destroying a context, buffer, program or queue reaches the backend exactly when it is there and no
      live object depends on it. */
  lemma ReleaseMeaning(b: Engine, body: Body, setup: Setup, memory: Memory)
    requires Inv(b.graph) && AtRest(b.graph) && Doomed(body).Some?
    ensures var m, k, id := CommandMove(b, body, setup, memory), Doomed(body).value.0, FromRaw(Doomed(body).value.1);
            if !Alive(b.graph, k, id) then Refuses(b, m, MissingStatus(id))
            else if Named(b.graph, k, id) then Refuses(b, m, BUSY)
            else Settles(b, m, [], k, id, setup.backend(|b.trace|).release)
  {
    hide Inv, Alive, Named, Settles, ReleaseMove, FromRaw;
    ReleaseMoveMeaning(b, Doomed(body).value.0, FromRaw(Doomed(body).value.1), setup.backend(|b.trace|).release);
  }

  // ------------------------------------------------------------------------------------------
  // Events.

  /** DESTROY_EVENT asks for the state first. Only an event the backend calls finished is released. */
  lemma DestroyEventMeaning(b: Engine, raw: nat, setup: Setup, memory: Memory)
    requires Inv(b.graph) && AtRest(b.graph)
    ensures var m, id := CommandMove(b, DestroyEvent(raw), setup, memory), FromRaw(raw);
            var poll := setup.backend(|b.trace|).poll;
            if !Alive(b.graph, Event, id) then Refuses(b, m, MissingStatus(id))
            else match poll
              case Err(error) => Asks(b, m, PollCall(poll), StatusOfBackend(error), NoPayload, false)
              case Ok(Pending) => Asks(b, m, PollCall(poll), BUSY, NoPayload, false)
              case Ok(Failed(DeviceLost)) => Asks(b, m, PollCall(poll), DEVICE_LOST, NoPayload, false)
              case Ok(_) => Settles(b, m, [PollCall(poll)], Event, id, setup.backend(|b.trace| + 1).release)
  {
    hide Inv, Shape, Look, Alive, Rec, Named, ReleaseMove, FromRaw, StatusOfBackend, Removes, Resources, Enter;
    var id := FromRaw(raw);
    InvShape(b.graph);
    LookMeaning(b.graph, Event, id);
    NeverNamed(b.graph, id);
    ReleaseMoveMeaning(b, Event, id, setup.backend(|b.trace| + 1).release);
  }

  lemma NeverNamed(g: Graph, id: Id)
    ensures !Named(g, Event, id)
  {}

  /** POLL_EVENT reports exactly the state the backend answers, and a lost device with it. */
  lemma PollMeaning(b: Engine, raw: nat, setup: Setup, memory: Memory)
    requires Inv(b.graph)
    ensures var m, id := CommandMove(b, PollEvent(raw), setup, memory), FromRaw(raw);
            var poll := setup.backend(|b.trace|).poll;
            if !Alive(b.graph, Event, id) then Refuses(b, m, MissingStatus(id))
            else match poll
              case Ok(state) => Asks(b, m, PollCall(poll), OK, StatePayload(state), false)
              case Err(error) => Asks(b, m, PollCall(poll), StatusOfBackend(error), NoPayload, false)
  {
    hide Inv, Shape, Look, Alive, Rec, FromRaw, StatusOfBackend;
    InvShape(b.graph);
    LookMeaning(b.graph, Event, FromRaw(raw));
  }

  /** CANCEL_EVENT is unsupported before anything else, and otherwise asks the backend once. */
  lemma CancelMeaning(b: Engine, raw: nat, setup: Setup, memory: Memory)
    requires Inv(b.graph)
    ensures var m, id := CommandMove(b, CancelEvent(raw), setup, memory), FromRaw(raw);
            var answer := setup.backend(|b.trace|).transfer;
            if !setup.cancellation then Refuses(b, m, UNSUPPORTED)
            else if !Alive(b.graph, Event, id) then Refuses(b, m, MissingStatus(id))
            else match answer
              case Ok(_) => Asks(b, m, CancelCall(answer), OK, NoPayload, true)
              case Err(error) => Asks(b, m, CancelCall(answer), StatusOfBackend(error), NoPayload, false)
  {
    hide Inv, Shape, Look, Alive, Rec, FromRaw, StatusOfBackend;
    InvShape(b.graph);
    LookMeaning(b.graph, Event, FromRaw(raw));
  }

  // ------------------------------------------------------------------------------------------
  // Transfers.

  /** WRITE_BUFFER and READ_BUFFER reach the backend exactly for a buffer that is there, that no live
      event uses, that covers the range and was declared for it; otherwise the status names the first
      of these that fails. */
  lemma TransferMeaning(b: Engine, body: Body, setup: Setup, memory: Memory)
    requires Inv(b.graph) && (body.WriteBuffer? || body.ReadBuffer?)
    ensures var m, id := CommandMove(b, body, setup, memory), FromRaw(body.buffer);
            var answer, write := setup.backend(|b.trace|).transfer, body.WriteBuffer?;
            if !Alive(b.graph, Buffer, id) then Refuses(b, m, MissingStatus(id))
            else
              var r := Rec(b.graph, Buffer, id);
              && r.BufferRecord?
              && if Named(b.graph, Buffer, id) then Refuses(b, m, BUSY)
                 else if body.offset + body.bytes > r.info.desc.bytes then Refuses(b, m, OUT_OF_BOUNDS)
                 else if !UsageBit(r.info.desc.usage, if write then 2 else 1) then Refuses(b, m, PERMISSION_DENIED)
                 else match answer
                      case Ok(_) =>
                        Asks(b, m, TransferCall(write, answer), OK,
                             if write then NoPayload else DataPayload(body.bytes), write)
                      case Err(error) =>
                        Asks(b, m, TransferCall(write, answer), StatusOfBackend(error), NoPayload, write)
  {
    hide Inv, Shape, Look, Alive, Rec, FromRaw, StatusOfBackend, UsageBit, Named;
    var id := FromRaw(body.buffer);
    InvShape(b.graph);
    LookMeaning(b.graph, Buffer, id);
    if Alive(b.graph, Buffer, id) {
      HeldIffNamed(b.graph, Buffer, id);
      IsBuffer(b.graph, id);
    }
  }

  lemma IsBuffer(g: Graph, id: Id)
    requires Inv(g) && Alive(g, Buffer, id)
    ensures Rec(g, Buffer, id).BufferRecord?
  {
    hide Get, Inv, SlotOk, ContextOk, LeafOk, EventOk;
    RecordIsOk(g, Buffer, id);
  }

  // ------------------------------------------------------------------------------------------
  // Submissions.

  /** Buffer `id` is there and belongs to `context`. */
  ghost predicate Belongs(g: Graph, id: Id, context: Id) {
    Alive(g, Buffer, id) && Rec(g, Buffer, id).BufferRecord? && Rec(g, Buffer, id).context == context
  }

  ghost predicate FirstStranger(g: Graph, ids: seq<Id>, context: Id, n: nat) {
    n < |ids| && (forall i | 0 <= i < n :: Belongs(g, ids[i], context)) && !Belongs(g, ids[n], context)
  }

  /** The buffers of a submission are refused for the first one that is not there or not of its context. */
  lemma {:induction false} StrangerFault(g: Graph, ids: seq<Id>, context: Id, n: nat)
    requires Inv(g) && AtRest(g) && Buffer in g.tables
    requires n == |ids| || FirstStranger(g, ids, context, n)
    requires forall i | 0 <= i < n :: Belongs(g, ids[i], context)
    ensures DeviceStates.BufferFault(g, context, ids)
            == if n == |ids| then None
               else if Alive(g, Buffer, ids[n]) then Some(ContextMismatch) else Some(Missing(ids[n]))
    decreases n
  {
    hide Inv, Shape, Look, Alive, Rec;
    InvShape(g);
    if ids != [] {
      LookMeaning(g, Buffer, ids[0]);
      if Alive(g, Buffer, ids[0]) {
        RestingHasResource(g, Buffer, ids[0]);
        IsBuffer(g, ids[0]);
      }
      if n > 0 {
        assert Belongs(g, ids[0], context);
        assert forall i | 0 <= i < n - 1 :: ids[1..][i] == ids[i + 1];
        StrangerFault(g, ids[1..], context, n - 1);
      }
    }
  }

  /** Queue and program are there, in one context. */
  ghost predicate Paired(g: Graph, queue: Id, program: Id) {
    && Alive(g, Queue, queue) && Rec(g, Queue, queue).QueueRecord?
    && Alive(g, Program, program) && Rec(g, Program, program).ProgramRecord?
    && Rec(g, Program, program).context == Rec(g, Queue, queue).context
  }

  ghost function Home(g: Graph, queue: Id): Id
    requires Alive(g, Queue, queue) && Rec(g, Queue, queue).QueueRecord?
  {
    Rec(g, Queue, queue).context
  }

  lemma IsQueue(g: Graph, id: Id)
    requires Inv(g) && Alive(g, Queue, id)
    ensures Rec(g, Queue, id).QueueRecord? && Alive(g, Context, Rec(g, Queue, id).context)
  {
    hide Get, Inv, SlotOk, ContextOk, EventOk;
    RecordIsOk(g, Queue, id);
  }

  lemma IsProgram(g: Graph, id: Id)
    requires Inv(g) && Alive(g, Program, id)
    ensures Rec(g, Program, id).ProgramRecord?
  {
    hide Get, Inv, SlotOk, ContextOk, LeafOk, EventOk;
    RecordIsOk(g, Program, id);
  }

  /** Which objects a submission is refused for, first things first: `n` is the first buffer that does
      not belong to the queue's context, or the number of buffers. */
  lemma SubmissionRefusals(g: Graph, queue: Id, program: Id, ids: seq<Id>, n: nat)
    requires Inv(g) && AtRest(g) && Shape(g)
    requires Paired(g, queue, program) ==>
               && (n == |ids| || FirstStranger(g, ids, Home(g, queue), n))
               && forall i | 0 <= i < n :: Belongs(g, ids[i], Home(g, queue))
    ensures SubmissionCheck(g, queue, program, ids)
            == if !Alive(g, Queue, queue) then Err(Missing(queue))
               else if !Alive(g, Program, program) then Err(Missing(program))
               else if !Paired(g, queue, program) then Err(ContextMismatch)
               else if n == |ids| then Ok(Home(g, queue))
               else if Alive(g, Buffer, ids[n]) then Err(ContextMismatch) else Err(Missing(ids[n]))
  {
    hide Inv, ObjectTables.Valid, ValidLimits, TableLimit, Look, Alive, Rec, Belongs, FirstStranger,
         DeviceStates.BufferFault;
    LookMeaning(g, Queue, queue);
    LookMeaning(g, Program, program);
    if Alive(g, Queue, queue) {
      RestingHasResource(g, Queue, queue);
      IsQueue(g, queue);
      if Alive(g, Program, program) {
        RestingHasResource(g, Program, program);
        IsProgram(g, program);
        if Paired(g, queue, program) { StrangerFault(g, ids, Home(g, queue), n); }
      }
    }
  }

  /** Beyond its objects, a submission needs a free event in its context's quota and in the table. */
  lemma EventRefusals(g: Graph, queue: Id, program: Id, ids: seq<Id>, memory: bool)
    requires Inv(g) && AtRest(g) && Shape(g) && 1 <= |ids| <= g.limits.maxBindings
    ensures var objects, check := SubmissionCheck(g, queue, program, ids), EventCheck(g, queue, program, ids, memory);
            && (objects.Err? ==> check == Err(objects.error))
            && (objects.Ok? ==> Alive(g, Queue, queue) && Rec(g, Queue, queue).QueueRecord?
                                && Alive(g, Context, Home(g, queue)))
            && (objects.Ok? ==>
                  if OwnedBy(g, Event, Home(g, queue)) >= g.limits.maxEvents || Full(g, Event) then
                    check == Err(StateError.ResourceLimit)
                  else if Grows(g, Event) && !memory then check == Err(StateError.OutOfMemory)
                  else check.Ok? && EventFor(check.value, VACANT, Home(g, queue), queue, program, ids))
  {
    hide Inv, ObjectTables.Valid, ValidLimits, TableLimit, Look, Alive, Rec, Full, Grows, OwnedBy, ReserveCheck,
         DeviceStates.BufferFault;
    LookMeaning(g, Queue, queue);
    RoomMeaning(g, Event, memory);
    if SubmissionCheck(g, queue, program, ids).Ok? {
      IsQueue(g, queue);
      LookMeaning(g, Context, Home(g, queue));
      ChildrenAreOwned(g, Event, Home(g, queue));
    }
  }

  /** The event of a submission names its objects, each buffer as often as it is bound, in order. */
  ghost predicate EventFor(e: Record, slot: ResourceSlot, context: Id, queue: Id, program: Id, ids: seq<Id>) {
    && e.EventRecord? && e.slot == slot && e.context == context && e.queue == queue && e.program == program
    && multiset(e.buffers) == multiset(ids) && SortedBy(e.buffers, RawKey)
  }

  /** The buffer covers the bound range. */
  ghost predicate InRange(g: Graph, b: Binding) {
    && Alive(g, Buffer, FromRaw(b.buffer)) && Rec(g, Buffer, FromRaw(b.buffer)).BufferRecord?
    && b.offset + b.bytes <= Rec(g, Buffer, FromRaw(b.buffer)).info.desc.bytes
  }

  /** The buffer was declared for the bound access: program input (4), program output (8), or mutable
      state (16), which alone permits reading and writing. */
  ghost predicate Declared(g: Graph, b: Binding) {
    && Alive(g, Buffer, FromRaw(b.buffer)) && Rec(g, Buffer, FromRaw(b.buffer)).BufferRecord?
    && var usage := Rec(g, Buffer, FromRaw(b.buffer)).info.desc.usage;
       || UsageBit(usage, 16) || (b.access == 1 && UsageBit(usage, 4)) || (b.access == 2 && UsageBit(usage, 8))
  }

  ghost predicate FirstMisfit(g: Graph, bindings: seq<Binding>, n: nat) {
    && n < |bindings| && (forall i | 0 <= i < n :: InRange(g, bindings[i]) && Declared(g, bindings[i]))
    && !(InRange(g, bindings[n]) && Declared(g, bindings[n]))
  }

  /** Bindings are refused for the first one out of range or undeclared. */
  lemma MisfitFault(g: Graph, bindings: seq<Binding>, n: nat)
    requires BindingsResolve(g, bindings) && (n == |bindings| || FirstMisfit(g, bindings, n))
    requires forall i | 0 <= i < n :: InRange(g, bindings[i]) && Declared(g, bindings[i])
    ensures BindingFault(g, bindings)
            == if n == |bindings| then None
               else if InRange(g, bindings[n]) then Some(PERMISSION_DENIED) else Some(OUT_OF_BOUNDS)
  {
    hide Alive, Rec, FromRaw, UsageBit, BindingFault;
    forall i | 0 <= i < |bindings|
      ensures InRange(g, bindings[i]) <==> Covers(g, bindings[i])
      ensures Declared(g, bindings[i]) <==> Grants(g, bindings[i])
    {
      assert bindings[i] in bindings;
    }
    FirstFault(g, bindings, n);
  }

  /** The event is recorded with the handle the backend gave and its identifier published. */
  ghost predicate Records(b: Engine, m: Move, body: Body, context: Id, call: Call, h: Handle, status: nat)
    requires body.Submit?
  {
    && m.quarantined == b.quarantined && m.calls == [call] && m.status == status && m.mutated && m.discard == call.lost
    && m.payload.ObjectPayload? && Alive(m.graph, Event, m.payload.id)
    && Adds(b.graph, m.graph, Event, m.payload.id, Rec(m.graph, Event, m.payload.id))
    && EventFor(Rec(m.graph, Event, m.payload.id), LiveSlot(h), context, FromRaw(body.queue), FromRaw(body.program),
                BufferIds(body.bindings))
  }

  /** What follows the backend's answer to a submission: an uncertain one is recorded too. */
  ghost predicate Submitted(b: Engine, m: Move, body: Body, context: Id, reply: Admission)
    requires body.Submit?
  {
    match reply
    case Refused(error) => Asks(b, m, SubmitCall(reply), StatusOfBackend(error), NoPayload, false)
    case Accepted(h) => Records(b, m, body, context, SubmitCall(reply), h, OK)
    case Uncertain(error, h) => Records(b, m, body, context, SubmitCall(reply), h, StatusOfBackend(error))
  }

  lemma EventAdds(g: Graph, e: Record)
    requires AdmissibleEvent(g, e)
    ensures Shape(g) && e.EventRecord? && CanInsert(g.tables[Event])
    ensures Adds(g, AdmittedEvent(g, e), Event, InsertedId(g.tables[Event]), e)
  {
    hide Get, Inv, AdmittedEvent, InsertedId, CanInsert, EventOk, Tally, Weight, ValidLimits, TableLimit,
         ObjectTables.Valid;
    InvShape(g);
    AdmittedEventFacts(g, e);
  }

  lemma EventGainRecords(b: Engine, body: Body, e: Record, context: Id, call: Call, h: Handle, status: nat)
    requires body.Submit? && AdmissibleEvent(b.graph, e)
    requires EventFor(e, LiveSlot(h), context, FromRaw(body.queue), FromRaw(body.program), BufferIds(body.bindings))
    ensures Records(b, EventGain(b, e, call, status, call.lost), body, context, call, h, status)
  {
    hide Inv, AdmissibleEvent, AdmittedEvent, InsertedId, CanInsert, ObjectTables.Valid, ValidLimits, TableLimit,
         FromRaw, BufferIds;
    EventAdds(b.graph, e);
  }

  lemma AnswerMeaning(b: Engine, body: Body, memory: Memory, e: Record, context: Id, reply: Admission)
    requires Inv(b.graph) && body.Submit? && Shape(b.graph) && SubmitCheck(b.graph, body, memory.table) == Ok(e)
    requires EventFor(e, VACANT, context, FromRaw(body.queue), FromRaw(body.program), BufferIds(body.bindings))
    ensures Submitted(b, AnswerMove(b, body, memory, e, reply), body, context, reply)
  {
    hide Inv, EventCheck, AdmissibleEvent, EventGain, FromRaw, BufferIds, Records, StatusOfBackend;
    if !reply.Refused? {
      var r := WithSlot(e, Some(reply.event));
      EventCheckAdmits(b.graph, FromRaw(body.queue), FromRaw(body.program), BufferIds(body.bindings), memory.table,
                       reply.event);
      EventGainRecords(b, body, r, context, SubmitCall(reply), reply.event,
                       if reply.Accepted? then OK else StatusOfBackend(reply.error));
    }
  }

  ghost predicate AllBelong(g: Graph, ids: seq<Id>, context: Id) {
    forall i | 0 <= i < |ids| :: Belongs(g, ids[i], context)
  }

  /** Refused for the first buffer that is not there or not of the context. */
  ghost predicate RefusesStranger(b: Engine, m: Move, ids: seq<Id>, context: Id) {
    exists n: nat :: FirstStranger(b.graph, ids, context, n) && Refuses(b, m, StrangerStatus(b.graph, ids[n]))
  }

  function StrangerStatus(g: Graph, id: Id): nat { if Alive(g, Buffer, id) then STALE_OBJECT else MissingStatus(id) }

  /** Everything a submission names is there, in one context, and another event has room. */
  ghost predicate Startable(g: Graph, queue: Id, program: Id, ids: seq<Id>, memory: Memory)
    requires Shape(g)
  {
    && memory.scratch && memory.native && Paired(g, queue, program) && AllBelong(g, ids, Home(g, queue))
    && OwnedBy(g, Event, Home(g, queue)) < g.limits.maxEvents && !Full(g, Event) && (Grows(g, Event) ==> memory.table)
  }

  /** Why a submission that is not startable is refused. */
  ghost predicate NotStarted(b: Engine, m: Move, queue: Id, program: Id, ids: seq<Id>, memory: Memory)
    requires Shape(b.graph)
  {
    if !memory.scratch then Refuses(b, m, OUT_OF_MEMORY)
    else if !Alive(b.graph, Queue, queue) then Refuses(b, m, MissingStatus(queue))
    else if !Alive(b.graph, Program, program) then Refuses(b, m, MissingStatus(program))
    else if !Paired(b.graph, queue, program) then Refuses(b, m, STALE_OBJECT)
    else if !AllBelong(b.graph, ids, Home(b.graph, queue)) then RefusesStranger(b, m, ids, Home(b.graph, queue))
    else if OwnedBy(b.graph, Event, Home(b.graph, queue)) >= b.graph.limits.maxEvents || Full(b.graph, Event) then
      Refuses(b, m, RESOURCE_LIMIT)
    else Refuses(b, m, OUT_OF_MEMORY)
  }

  /** Refused for the first binding out of range or undeclared. */
  ghost predicate RefusesMisfit(b: Engine, m: Move, bindings: seq<Binding>) {
    exists n: nat :: FirstMisfit(b.graph, bindings, n)
                && Refuses(b, m, if InRange(b.graph, bindings[n]) then PERMISSION_DENIED else OUT_OF_BOUNDS)
  }

  /** SUBMIT reaches the backend exactly when memory suffices, queue, program and buffers are there in
      one context, another event has room, and every binding is in range and declared. Otherwise nothing
      changes and the status names the first of these that fails. */
  lemma SubmitMeaning(b: Engine, body: Body, setup: Setup, memory: Memory)
    requires Inv(b.graph) && AtRest(b.graph) && body.Submit? && Dispatchable(body, b.graph.limits)
    ensures Shape(b.graph)
    ensures var g, m := b.graph, CommandMove(b, body, setup, memory);
            var queue, program := FromRaw(body.queue), FromRaw(body.program);
            if !Startable(g, queue, program, BufferIds(body.bindings), memory) then
              NotStarted(b, m, queue, program, BufferIds(body.bindings), memory)
            else if forall i | 0 <= i < |body.bindings| ::
                      InRange(g, body.bindings[i]) && Declared(g, body.bindings[i]) then
              Submitted(b, m, body, Home(g, queue), setup.backend(|b.trace|).submit)
            else RefusesMisfit(b, m, body.bindings)
  {
    hide Inv, Shape, SubmitMove, Startable, NotStarted, RefusesMisfit, Submitted, InRange, Declared, FromRaw,
         BufferIds, Home;
    InvShape(b.graph);
    if Startable(b.graph, FromRaw(body.queue), FromRaw(body.program), BufferIds(body.bindings), memory) {
      StartedMeaning(b, body, memory, setup.backend(|b.trace|));
    } else {
      NotStartedMeaning(b, body, memory, setup.backend(|b.trace|));
    }
  }

  lemma NotStartedMeaning(b: Engine, body: Body, memory: Memory, reply: Reply)
    requires Inv(b.graph) && AtRest(b.graph) && Shape(b.graph) && body.Submit? && Dispatchable(body, b.graph.limits)
    requires !Startable(b.graph, FromRaw(body.queue), FromRaw(body.program), BufferIds(body.bindings), memory)
    ensures NotStarted(b, SubmitMove(b, body, memory, reply), FromRaw(body.queue), FromRaw(body.program),
                       BufferIds(body.bindings), memory)
  {
    hide Inv, ObjectTables.Valid, ValidLimits, TableLimit, EventCheck, SubmissionCheck, BindingFault, AnswerMove,
         FromRaw, BufferIds, Alive, Rec, Full, Grows, OwnedBy, FirstStranger, Belongs;
    var g, ids := b.graph, BufferIds(body.bindings);
    var queue, program := FromRaw(body.queue), FromRaw(body.program);
    var n := |ids|;
    if Paired(g, queue, program) {
      n := FindStranger(g, ids, Home(g, queue));
    }
    SubmissionRefusals(g, queue, program, ids, n);
    EventRefusals(g, queue, program, ids, memory.table);
  }

  lemma FindStranger(g: Graph, ids: seq<Id>, context: Id) returns (n: nat)
    ensures n == |ids| || FirstStranger(g, ids, context, n)
    ensures n <= |ids| && forall i | 0 <= i < n :: Belongs(g, ids[i], context)
    ensures n == |ids| <==> AllBelong(g, ids, context)
  {
    hide Belongs;
    n := 0;
    while n < |ids| && Belongs(g, ids[n], context)
      invariant n <= |ids| && forall i | 0 <= i < n :: Belongs(g, ids[i], context)
    {
      n := n + 1;
    }
  }

  lemma FindMisfit(g: Graph, bindings: seq<Binding>) returns (n: nat)
    ensures n == |bindings| || FirstMisfit(g, bindings, n)
    ensures n <= |bindings| && forall i | 0 <= i < n :: InRange(g, bindings[i]) && Declared(g, bindings[i])
    ensures n == |bindings| <==> forall i | 0 <= i < |bindings| :: InRange(g, bindings[i]) && Declared(g, bindings[i])
  {
    hide InRange, Declared;
    n := 0;
    while n < |bindings| && InRange(g, bindings[n]) && Declared(g, bindings[n])
      invariant n <= |bindings| && forall i | 0 <= i < n :: InRange(g, bindings[i]) && Declared(g, bindings[i])
    {
      n := n + 1;
    }
  }

  lemma StartedMeaning(b: Engine, body: Body, memory: Memory, reply: Reply)
    requires Inv(b.graph) && AtRest(b.graph) && Shape(b.graph) && body.Submit? && Dispatchable(body, b.graph.limits)
    requires Startable(b.graph, FromRaw(body.queue), FromRaw(body.program), BufferIds(body.bindings), memory)
    ensures var g, m := b.graph, SubmitMove(b, body, memory, reply);
            if forall i | 0 <= i < |body.bindings| :: InRange(g, body.bindings[i]) && Declared(g, body.bindings[i]) then
              Submitted(b, m, body, Home(g, FromRaw(body.queue)), reply.submit)
            else RefusesMisfit(b, m, body.bindings)
  {
    hide Inv, ObjectTables.Valid, ValidLimits, TableLimit, EventCheck, SubmissionCheck, BindingFault, AnswerMove,
         FromRaw, BufferIds, Alive, Rec, Full, Grows, OwnedBy, FirstMisfit, InRange, Declared, Submitted,
         BindingsResolve, EventFor;
    var g, ids := b.graph, BufferIds(body.bindings);
    var queue, program := FromRaw(body.queue), FromRaw(body.program);
    SubmissionRefusals(g, queue, program, ids, |ids|);
    EventRefusals(g, queue, program, ids, memory.table);
    var e := SubmitCheck(g, body, memory.table).value;
    SubmissionResolves(g, queue, program, body.bindings, memory.table);
    var n := FindMisfit(g, body.bindings);
    MisfitFault(g, body.bindings, n);
    AnswerMeaning(b, body, memory, e, Home(g, queue), reply.submit);
  }

  // ------------------------------------------------------------------------------------------
  // Mutation.

  ghost predicate Touches(calls: seq<Call>) { exists i | 0 <= i < |calls| :: calls[i].effect != Unchanged }

  lemma SettleTouches(b: Engine, k: Kind, id: Id, reply: Release)
    requires Inv(b.graph)
    ensures ReleaseMove(b, k, id, reply).mutated ==> Touches(ReleaseMove(b, k, id, reply).calls)
  {
    hide Inv, Alive, Rec, Held, Look, ReleasedGraph, RejectedGraph, Enter, Charge;
    var m := ReleaseMove(b, k, id, reply);
    if m.mutated { assert m.calls[0].effect != Unchanged; }
  }

  lemma AllocationTouches(b: Engine, body: Body, setup: Setup, memory: Memory)
    requires Inv(b.graph) && body.AllocateBuffer?
    ensures AllocateMove(b, body, setup, memory).mutated ==> Touches(AllocateMove(b, body, setup, memory).calls)
  {
    hide Inv, Admitted, InsertedId, ReleasedGraph, RejectedGraph, Enter, Charge, BufferRefusal, SettleMove,
         ObjectTables.Valid, ValidLimits, TableLimit, Admissible, Releasable;
    InvShape(b.graph);
    var m := AllocateMove(b, body, setup, memory);
    if m.mutated { assert m.calls[0].effect != Unchanged; }
  }

  lemma SubmitTouches(b: Engine, body: Body, memory: Memory, reply: Reply)
    requires Inv(b.graph) && body.Submit?
    ensures SubmitMove(b, body, memory, reply).mutated ==> Touches(SubmitMove(b, body, memory, reply).calls)
  {
    hide Inv, AdmittedEvent, InsertedId, SubmitCheck, BindingFault, BufferIds;
    var m := SubmitMove(b, body, memory, reply);
    if m.mutated { assert m.calls[0].effect != Unchanged; }
  }

  lemma CreationTouches(b: Engine, body: Body, memory: Memory, reply: Reply)
    requires Inv(b.graph) && (body.LoadProgram? || body.CreateQueue?) && Dispatchable(body, b.graph.limits)
    ensures ChildMove(b, body, memory, reply).mutated ==> Touches(ChildMove(b, body, memory, reply).calls)
    ensures ContextMove(b, memory, reply).mutated ==> Touches(ContextMove(b, memory, reply).calls)
  {
    hide Inv, Admitted, InsertedId, ChildRefusal, ContextCheck, ChildRecord;
    var m, c := ChildMove(b, body, memory, reply), ContextMove(b, memory, reply);
    if m.mutated { assert m.calls[0].effect != Unchanged; }
    if c.mutated { assert c.calls[0].effect != Unchanged; }
  }

  lemma QueriesTouch(b: Engine, body: Body, id: Id, cancellation: bool, reply: Reply)
    requires Inv(b.graph)
    ensures !PollMove(b, id, reply).mutated
    ensures CancelMove(b, id, cancellation, reply).mutated ==> Touches(CancelMove(b, id, cancellation, reply).calls)
    ensures (body.WriteBuffer? || body.ReadBuffer?) && TransferMove(b, body, reply).mutated ==>
              Touches(TransferMove(b, body, reply).calls)
  {
    hide Inv, Look, TransferFault;
    var c := CancelMove(b, id, cancellation, reply);
    if c.mutated { assert c.calls[0].effect != Unchanged; }
    if body.WriteBuffer? || body.ReadBuffer? {
      var t := TransferMove(b, body, reply);
      if t.mutated { assert t.calls[0].effect != Unchanged; }
    }
  }

  lemma DestroyTouches(b: Engine, id: Id, polled: Reply, released: Reply)
    requires Inv(b.graph)
    ensures DestroyEventMove(b, id, polled, released).mutated ==>
              Touches(DestroyEventMove(b, id, polled, released).calls)
  {
    hide Inv, Look, ReleaseMove;
    SettleTouches(b, Event, id, released.release);
    var m, r := DestroyEventMove(b, id, polled, released), ReleaseMove(b, Event, id, released.release);
    if m.mutated {
      var i :| 0 <= i < |r.calls| && r.calls[i].effect != Unchanged;
      assert m.calls[i + 1] == r.calls[i];
    }
  }

  /** A command whose response may not get lost has changed something at the backend. */
  lemma MutationIsSeen(b: Engine, body: Body, setup: Setup, memory: Memory)
    requires Inv(b.graph) && Dispatchable(body, b.graph.limits)
    ensures CommandMove(b, body, setup, memory).mutated ==> Touches(CommandMove(b, body, setup, memory).calls)
  {
    hide Inv, ReleaseMove, ContextMove, ChildMove, AllocateMove, TransferMove, SubmitMove, PollMove, CancelMove,
         DestroyEventMove, Touches;
    var reply := setup.backend(|b.trace|);
    match body
    case DestroyContext(id) => SettleTouches(b, Context, FromRaw(id), reply.release);
    case FreeBuffer(id) => SettleTouches(b, Buffer, FromRaw(id), reply.release);
    case UnloadProgram(id) => SettleTouches(b, Program, FromRaw(id), reply.release);
    case DestroyQueue(id) => SettleTouches(b, Queue, FromRaw(id), reply.release);
    case CreateContext => CreationTouches(b, CreateQueue(0), memory, reply);
    case LoadProgram(_, _, _, _, _) => CreationTouches(b, body, memory, reply);
    case CreateQueue(_) => CreationTouches(b, body, memory, reply);
    case AllocateBuffer(_, _) => AllocationTouches(b, body, setup, memory);
    case Submit(_, _, _, _) => SubmitTouches(b, body, memory, reply);
    case DestroyEvent(id) => DestroyTouches(b, FromRaw(id), reply, setup.backend(|b.trace| + 1));
    case PollEvent(id) => QueriesTouch(b, body, FromRaw(id), setup.cancellation, reply);
    case CancelEvent(id) => QueriesTouch(b, body, FromRaw(id), setup.cancellation, reply);
    case WriteBuffer(id, _, _, _) => QueriesTouch(b, body, FromRaw(id), setup.cancellation, reply);
    case ReadBuffer(id, _, _) => QueriesTouch(b, body, FromRaw(id), setup.cancellation, reply);
    case GetDeviceInfo =>
  }
}
