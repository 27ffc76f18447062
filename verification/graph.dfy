/** The device's object graph: records, ownership counters, and the invariant tying every counter
    to the records that account for it. */
module Graphs {
  import opened Bytes
  import opened ObjectTables

  type Handle = nat

  datatype ReleaseState = Live | Releasing

  datatype ResourceSlot = ResourceSlot(resource: Option<Handle>, release: ReleaseState)

  datatype ChildCounts = ChildCounts(buffers: int, programs: int, queues: int, events: int)

  datatype BufferDesc = BufferDesc(bytes: nat, alignment: nat, domain: nat, usage: nat)

  datatype BufferInfo = BufferInfo(desc: BufferDesc, allocationBytes: nat)

  datatype Record =
    | ContextRecord(slot: ResourceSlot, children: ChildCounts)
    | BufferRecord(slot: ResourceSlot, context: Id, info: BufferInfo, inFlight: int)
    | ProgramRecord(slot: ResourceSlot, context: Id, residentBytes: nat, inFlight: int)
    | QueueRecord(slot: ResourceSlot, context: Id, inFlight: int)
    | EventRecord(slot: ResourceSlot, context: Id, queue: Id, program: Id, buffers: seq<Id>)

  datatype Limits = Limits(maxContexts: nat, maxBuffers: nat, maxPrograms: nat, maxQueues: nat,
                           maxEvents: nat, maxBindings: nat, maxBufferBytes: nat, maxArtifactBytes: nat)

  datatype Policy = Policy(maxBacking: nat, maxResident: nat)

  /** All tables of one device, keyed by kind, with the retained-byte totals. */
  datatype Graph = Graph(namespace: nat, limits: Limits, policy: Policy, backing: int, resident: int,
                         tables: map<Kind, Table<Record>>)

  datatype StateError =
    | InvalidArgument | InvalidObject | StaleObject | ContextMismatch | Busy | ResourceLimit
    | OutOfMemory | ReleasePending | InvalidTransition | ReferenceCountOverflow

  function MapError(e: TableError): StateError {
    match e
    case InvalidId => InvalidObject
    case WrongKind => StaleObject
    case StaleId => StaleObject
    case Full => ResourceLimit
    case AllocationFailed => OutOfMemory
  }

  const HARD_MAX_BINDINGS: nat := 4096

  predicate ValidLimits(l: Limits) {
    && 0 < l.maxContexts && 0 < l.maxBuffers && 0 < l.maxPrograms && 0 < l.maxQueues && 0 < l.maxEvents
    && 0 < l.maxBufferBytes && 0 < l.maxArtifactBytes
    && 1 <= l.maxBindings <= HARD_MAX_BINDINGS
    && l.maxEvents * l.maxBindings < U32
    && l.maxContexts < U32
    && l.maxContexts * l.maxBuffers < U32 && l.maxContexts * l.maxPrograms < U32
    && l.maxContexts * l.maxQueues < U32 && l.maxContexts * l.maxEvents < U32
  }

  function PerContext(l: Limits, k: Kind): nat {
    match k
    case Context => 1
    case Buffer => l.maxBuffers
    case Program => l.maxPrograms
    case Queue => l.maxQueues
    case Event => l.maxEvents
  }

  function TableLimit(l: Limits, k: Kind): nat {
    if k == Context then l.maxContexts else l.maxContexts * PerContext(l, k)
  }

  function NewGraph(namespace: nat, limits: Limits, policy: Policy): Graph {
    Graph(namespace, limits, policy, 0, 0,
          map[Context := NewTable(Context, namespace, TableLimit(limits, Context)),
              Buffer := NewTable(Buffer, namespace, TableLimit(limits, Buffer)),
              Program := NewTable(Program, namespace, TableLimit(limits, Program)),
              Queue := NewTable(Queue, namespace, TableLimit(limits, Queue)),
              Event := NewTable(Event, namespace, TableLimit(limits, Event))])
  }

  function KindOf(r: Record): Kind {
    match r
    case ContextRecord(_, _) => Context
    case BufferRecord(_, _, _, _) => Buffer
    case ProgramRecord(_, _, _, _) => Program
    case QueueRecord(_, _, _) => Queue
    case EventRecord(_, _, _, _, _) => Event
  }

  function Child(c: ChildCounts, k: Kind): int {
    match k
    case Context => 0
    case Buffer => c.buffers
    case Program => c.programs
    case Queue => c.queues
    case Event => c.events
  }

  function WithChild(c: ChildCounts, k: Kind, n: int): ChildCounts {
    match k
    case Context => c
    case Buffer => c.(buffers := n)
    case Program => c.(programs := n)
    case Queue => c.(queues := n)
    case Event => c.(events := n)
  }

  const NO_CHILDREN := ChildCounts(0, 0, 0, 0)

  /** Something still depends on this record, so it cannot begin its release. */
  predicate Held(r: Record) {
    match r
    case ContextRecord(_, children) => children != NO_CHILDREN
    case BufferRecord(_, _, _, inFlight) => inFlight != 0
    case ProgramRecord(_, _, _, inFlight) => inFlight != 0
    case QueueRecord(_, _, inFlight) => inFlight != 0
    case EventRecord(_, _, _, _, _) => false
  }

  /** Bulk bytes a record retains in the provider. */
  function Charge(r: Record): nat {
    match r
    case BufferRecord(_, _, info, _) => info.allocationBytes
    case ProgramRecord(_, _, residentBytes, _) => residentBytes
    case _ => 0
  }

  // ------------------------------------------------------------------------------------------
  // Weighted sums over the live records of a table.

  datatype Measure = Ones | Owned(context: Id) | Uses(kind: Kind, id: Id) | Charged

  function Weight(m: Measure, r: Record): nat {
    match m
    case Ones => 1
    case Owned(c) => if !r.ContextRecord? && r.context == c then 1 else 0
    case Charged => Charge(r)
    case Uses(k, id) =>
      if !r.EventRecord? then 0
      else match k
           case Queue => if r.queue == id then 1 else 0
           case Program => if r.program == id then 1 else 0
           case Buffer => multiset(r.buffers)[id]
           case _ => 0
  }

  function SlotWeight(m: Measure, s: Slot<Record>): nat {
    if s.value.Some? then Weight(m, s.value.value) else 0
  }

  function Tally(slots: seq<Slot<Record>>, m: Measure): nat {
    if slots == [] then 0
    else Tally(slots[..|slots| - 1], m) + SlotWeight(m, slots[|slots| - 1])
  }

  lemma {:induction false} TallyUpdate(slots: seq<Slot<Record>>, i: nat, s: Slot<Record>, m: Measure)
    requires i < |slots|
    ensures Tally(slots[i := s], m) == Tally(slots, m) - SlotWeight(m, slots[i]) + SlotWeight(m, s)
    ensures SlotWeight(m, slots[i]) <= Tally(slots, m)
  {
    var n := |slots| - 1;
    if i < n {
      TallyUpdate(slots[..n], i, s, m);
      assert slots[i := s][..n] == slots[..n][i := s];
    } else {
      assert slots[i := s][..n] == slots[..n];
    }
  }

  lemma {:induction false} TallyOnes(slots: seq<Slot<Record>>)
    ensures Tally(slots, Ones) == LiveCount(slots)
  {
    if slots != [] { TallyOnes(slots[..|slots| - 1]); }
  }

  lemma TallyStore(t: Table<Record>, id: Id, r: Record)
    requires Has(t, id)
    ensures forall m ::
              Tally(Store(t, id, r).slots, m) == Tally(t.slots, m) - Weight(m, Get(t, id).value) + Weight(m, r)
  {
    var i := Locate(t, id).value;
    forall m
      ensures Tally(Store(t, id, r).slots, m) == Tally(t.slots, m) - Weight(m, Get(t, id).value) + Weight(m, r)
    {
      TallyUpdate(t.slots, i, t.slots[i].(value := Some(r)), m);
    }
  }

  lemma TallyInsert(t: Table<Record>, r: Record)
    requires Valid(t) && CanInsert(t)
    ensures forall m :: Tally(Inserted(t, r).slots, m) == Tally(t.slots, m) + Weight(m, r)
  {
    var t' := Inserted(t, r);
    if t.free != [] {
      var i := InsertedAt(t);
      assert i in t.free;
      forall m
        ensures Tally(t'.slots, m) == Tally(t.slots, m) + Weight(m, r)
      {
        TallyUpdate(t.slots, i, t'.slots[i], m);
      }
    } else {
      assert t'.slots[..|t.slots|] == t.slots;
    }
  }

  lemma TallyRemove(t: Table<Record>, id: Id)
    requires Valid(t) && Has(t, id)
    ensures forall m :: Tally(Removed(t, id).slots, m) == Tally(t.slots, m) - Weight(m, Get(t, id).value)
  {
    var i := Locate(t, id).value;
    forall m
      ensures Tally(Removed(t, id).slots, m) == Tally(t.slots, m) - Weight(m, Get(t, id).value)
    {
      TallyUpdate(t.slots, i, Removed(t, id).slots[i], m);
    }
  }

  /** No single live record weighs more than the whole table. */
  lemma TallyMember(t: Table<Record>, id: Id, m: Measure)
    requires Has(t, id)
    ensures Weight(m, Get(t, id).value) <= Tally(t.slots, m)
  {
    var i := Locate(t, id).value;
    TallyUpdate(t.slots, i, t.slots[i], m);
  }

  // ------------------------------------------------------------------------------------------
  // The graph invariant.


  ghost predicate Shape(g: Graph) {
    && g.namespace < U16 && ValidLimits(g.limits)
    && forall k :: k in g.tables && Valid(g.tables[k]) && g.tables[k].kind == k
                && g.tables[k].namespace == g.namespace && g.tables[k].maxSlots == TableLimit(g.limits, k)
  }

  function T(g: Graph, k: Kind): Table<Record>
    requires k in g.tables
  {
    g.tables[k]
  }

  predicate Alive(g: Graph, k: Kind, id: Id) { k in g.tables && Has(g.tables[k], id) }

  function Rec(g: Graph, k: Kind, id: Id): Record
    requires Alive(g, k, id)
  {
    Get(g.tables[k], id).value
  }

  function Look(g: Graph, k: Kind, id: Id): Result<Record, StateError>
    requires k in g.tables
  {
    match Get(g.tables[k], id)
    case Ok(r) => Ok(r)
    case Err(e) => Err(MapError(e))
  }

  ghost predicate SlotOk(r: Record) {
    && (r.slot.resource.Some? <==> r.slot.release == Live)
    && (Held(r) ==> r.slot.release == Live)
  }

  /** A context's child counters are exact and within quota. */
  ghost predicate ContextOk(g: Graph, id: Id, r: Record)
    requires Shape(g)
  {
    r.ContextRecord? ==>
      forall k | k != Context ::
        Child(r.children, k) == Tally(T(g, k).slots, Owned(id)) && Child(r.children, k) <= PerContext(g.limits, k)
  }

  /** A leaf's reference count is the number of times live events name it. */
  ghost predicate LeafOk(g: Graph, k: Kind, id: Id, r: Record)
    requires Shape(g)
  {
    r.BufferRecord? || r.ProgramRecord? || r.QueueRecord? ==>
      && Alive(g, Context, r.context)
      && r.inFlight == Tally(T(g, Event).slots, Uses(k, id))
      && Charge(r) < U64
  }

  ghost predicate InContext(g: Graph, k: Kind, id: Id, context: Id) {
    Alive(g, k, id) && !Rec(g, k, id).ContextRecord? && Rec(g, k, id).context == context
  }

  /** An event keeps its queue, program and buffers alive, all in its own context. */
  ghost predicate EventOk(g: Graph, r: Record)
    requires Shape(g)
  {
    r.EventRecord? ==>
      && Alive(g, Context, r.context)
      && InContext(g, Queue, r.queue, r.context)
      && InContext(g, Program, r.program, r.context)
      && (forall b | b in r.buffers :: InContext(g, Buffer, b, r.context))
      && 1 <= |r.buffers| <= g.limits.maxBindings
  }

  ghost predicate RecordOk(g: Graph, k: Kind, id: Id)
    requires Shape(g) && Alive(g, k, id)
  {
    var r := Rec(g, k, id);
    KindOf(r) == k && SlotOk(r) && ContextOk(g, id, r) && LeafOk(g, k, id, r) && EventOk(g, r)
  }

  ghost predicate Inv(g: Graph) {
    && Shape(g)
    && (forall k, id | Alive(g, k, id) :: RecordOk(g, k, id))
    && g.backing == Tally(T(g, Buffer).slots, Charged)
    && g.resident == Tally(T(g, Program).slots, Charged)
  }

  lemma InvShape(g: Graph)
    requires Inv(g)
    ensures Shape(g)
  {}

  lemma ShapeTables(g: Graph, k: Kind)
    requires Shape(g)
    ensures k in g.tables
  {}

  lemma NewGraphInv(namespace: nat, limits: Limits, policy: Policy)
    requires namespace < U16 && ValidLimits(limits)
    ensures Inv(NewGraph(namespace, limits, policy))
    ensures forall k, id :: !Alive(NewGraph(namespace, limits, policy), k, id)
  {
    var g := NewGraph(namespace, limits, policy);
    forall k
      ensures k in g.tables && TableLimit(limits, k) < U32
              && g.tables[k] == NewTable(k, namespace, TableLimit(limits, k))
    {
      match k { case Context => case Buffer => case Program => case Queue => case Event => }
    }
  }

  function Count(g: Graph, k: Kind): nat
    requires k in g.tables
  {
    g.tables[k].live
  }

  // ------------------------------------------------------------------------------------------
  // Graph operations.

  function StoreRec(g: Graph, k: Kind, id: Id, r: Record): Graph
    requires Alive(g, k, id)
  {
    g.(tables := g.tables[k := Store(g.tables[k], id, r)])
  }

  /** Move the resource out (`None`) or back in. */
  function WithSlot(r: Record, resource: Option<Handle>): Record {
    r.(slot := ResourceSlot(resource, if resource.Some? then Live else Releasing))
  }

  function ReSlot(g: Graph, k: Kind, id: Id, resource: Option<Handle>): Graph
    requires Alive(g, k, id)
  {
    StoreRec(g, k, id, WithSlot(Rec(g, k, id), resource))
  }

  function AddChild(g: Graph, context: Id, k: Kind, delta: int): Graph {
    if Alive(g, Context, context) && Rec(g, Context, context).ContextRecord? then
      var r := Rec(g, Context, context);
      StoreRec(g, Context, context, r.(children := WithChild(r.children, k, Child(r.children, k) + delta)))
    else g
  }

  /** The retained-byte totals after records of kind `k` charge `delta` more bytes. */
  function Retain(g: Graph, k: Kind, delta: int): Graph {
    match k
    case Buffer => g.(backing := g.backing + delta)
    case Program => g.(resident := g.resident + delta)
    case _ => g
  }

  function InsertRec(g: Graph, r: Record): Graph
    requires KindOf(r) in g.tables && Valid(g.tables[KindOf(r)]) && CanInsert(g.tables[KindOf(r)])
  {
    g.(tables := g.tables[KindOf(r) := Inserted(g.tables[KindOf(r)], r)])
  }

  function RemoveRec(g: Graph, k: Kind, id: Id): Graph
    requires Alive(g, k, id) && Valid(g.tables[k])
  {
    g.(tables := g.tables[k := Removed(g.tables[k], id)])
  }

  /** Remove a context or leaf together with its share of its parent's counters. */
  function Unowned(g: Graph, k: Kind, id: Id): Graph
    requires Alive(g, k, id) && Valid(g.tables[k])
  {
    var r := Rec(g, k, id);
    var g1 := Retain(RemoveRec(g, k, id), k, 0 - Charge(r));
    if r.ContextRecord? then g1 else AddChild(g1, r.context, k, -1)
  }

  /** Insert a context or leaf and charge it to its parent. */
  function Admitted(g: Graph, r: Record): Graph
    requires KindOf(r) in g.tables && Valid(g.tables[KindOf(r)]) && CanInsert(g.tables[KindOf(r)])
  {
    var g1 := Retain(InsertRec(g, r), KindOf(r), Charge(r));
    if r.ContextRecord? then g1 else AddChild(g1, r.context, KindOf(r), 1)
  }

  predicate IsLeaf(r: Record) { r.BufferRecord? || r.ProgramRecord? || r.QueueRecord? }

  /** Add `n` references to one leaf. */
  function Refer(t: Table<Record>, id: Id, n: int): Table<Record> {
    if Has(t, id) && IsLeaf(Get(t, id).value) then
      var r := Get(t, id).value;
      Store(t, id, r.(inFlight := r.inFlight + n))
    else t
  }

  function ReferAll(t: Table<Record>, ids: seq<Id>, n: int): Table<Record> {
    if ids == [] then t else Refer(ReferAll(t, ids[..|ids| - 1], n), ids[|ids| - 1], n)
  }

  function LeafRefs(g: Graph, e: Record, n: int): Graph
    requires Queue in g.tables && Program in g.tables && Buffer in g.tables && e.EventRecord?
  {
    g.(tables := g.tables[Queue := Refer(g.tables[Queue], e.queue, n)]
                         [Program := Refer(g.tables[Program], e.program, n)]
                         [Buffer := ReferAll(g.tables[Buffer], e.buffers, n)])
  }

  /** Add (`n == 1`) or drop (`n == -1`) every reference that event `e` holds. */
  function WithRefs(g: Graph, e: Record, n: int): Graph
    requires Queue in g.tables && Program in g.tables && Buffer in g.tables && e.EventRecord?
  {
    AddChild(LeafRefs(g, e, n), e.context, Event, n)
  }

  function AdmittedEvent(g: Graph, e: Record): Graph
    requires Queue in g.tables && Program in g.tables && Buffer in g.tables && e.EventRecord?
    requires Event in g.tables && Valid(g.tables[Event]) && CanInsert(g.tables[Event])
  {
    InsertRec(WithRefs(g, e, 1), e)
  }

  function DroppedEvent(g: Graph, id: Id): Graph
    requires Queue in g.tables && Program in g.tables && Buffer in g.tables
    requires Alive(g, Event, id) && Valid(g.tables[Event]) && Rec(g, Event, id).EventRecord?
  {
    WithRefs(RemoveRec(g, Event, id), Rec(g, Event, id), -1)
  }
}
