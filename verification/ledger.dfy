/** What the command engine must account for: an abstract engine state, the trace of backend
    calls, and the ledger that balances one against the other. */
module Ledgers {
  import opened Bytes
  import opened ObjectTables
  import opened Graphs
  import opened GraphEffects
  import opened Wire

  datatype Health = Running | NeedsReset | DiscardRequired

  /** Per-kind object counts with the two retained-byte totals. */
  datatype Account = Account(contexts: nat, buffers: nat, programs: nat, queues: nat, events: nat,
                             backing: nat, resident: nat)

  const EMPTY := Account(0, 0, 0, 0, 0, 0, 0)

  /** One line of the books. */
  datatype Column = Objects(kind: Kind) | BackingBytes | ResidentBytes

  function In(a: Account, c: Column): nat {
    match c
    case Objects(Context) => a.contexts
    case Objects(Buffer) => a.buffers
    case Objects(Program) => a.programs
    case Objects(Queue) => a.queues
    case Objects(Event) => a.events
    case BackingBytes => a.backing
    case ResidentBytes => a.resident
  }

  /** What one object of kind `k` charging `charge` bytes adds to a column. */
  function Unit(k: Kind, charge: nat, c: Column): nat {
    match c
    case Objects(j) => if j == k then 1 else 0
    case BackingBytes => Backing(k, charge)
    case ResidentBytes => Resident(k, charge)
  }

  function Enter(a: Account, k: Kind, charge: nat): (r: Account)
    ensures forall c :: In(r, c) == In(a, c) + Unit(k, charge, c)
  {
    match k
    case Context => a.(contexts := a.contexts + 1)
    case Buffer => a.(buffers := a.buffers + 1, backing := a.backing + charge)
    case Program => a.(programs := a.programs + 1, resident := a.resident + charge)
    case Queue => a.(queues := a.queues + 1)
    case Event => a.(events := a.events + 1)
  }

  function Standing(g: Graph, c: Column): int
    requires Shape(g)
  {
    match c
    case Objects(k) => Count(g, k)
    case BackingBytes => g.backing
    case ResidentBytes => g.resident
  }

  function Sum(a: Account, b: Account): (r: Account)
    ensures forall c :: In(r, c) == In(a, c) + In(b, c)
  {
    Account(a.contexts + b.contexts, a.buffers + b.buffers, a.programs + b.programs, a.queues + b.queues,
            a.events + b.events, a.backing + b.backing, a.resident + b.resident)
  }

  lemma AccountsEqual(a: Account, b: Account)
    requires forall c :: In(a, c) == In(b, c)
    ensures a == b
  {
    assert In(a, Objects(Context)) == In(b, Objects(Context));
    assert In(a, Objects(Buffer)) == In(b, Objects(Buffer));
    assert In(a, Objects(Program)) == In(b, Objects(Program));
    assert In(a, Objects(Queue)) == In(b, Objects(Queue));
    assert In(a, Objects(Event)) == In(b, Objects(Event));
    assert In(a, BackingBytes) == In(b, BackingBytes) && In(a, ResidentBytes) == In(b, ResidentBytes);
  }

  // ------------------------------------------------------------------------------------------
  // The backend, as seen from the outside.

  datatype Release = Released | Rejected(error: BackendError, resource: Handle) | Indeterminate(error: BackendError)

  datatype Admission =
    | Accepted(event: Handle) | Refused(error: BackendError) | Uncertain(error: BackendError, event: Handle)

  /** A verified allocation holds at least the bytes it was described with. */
  type ProviderInfo = i: BufferInfo | i.desc.bytes <= i.allocationBytes < U64 && 0 < i.allocationBytes
    witness BufferInfo(BufferDesc(1, 1, 1, 1), 1)

  /** What the backend answers to the next call, whichever call that is; `data` is what a read puts
      into the response, byte by byte. */
  datatype Reply = Reply(create: Result<Handle, BackendError>, info: ProviderInfo, transfer: Result<(), BackendError>,
                         data: nat -> Byte, poll: Result<EventState, BackendError>, submit: Admission, release: Release)

  datatype Effect = Gained | Gone | Unknown | Mutated | Unchanged

  datatype CallOp = Create | Destroy | Poll | Cancel | Transfer

  /** One backend call with its observable effect; `lost` when it reported a lost device. */
  datatype Call = Call(op: CallOp, kind: Kind, charge: nat, effect: Effect, lost: bool)

  function CreateCall(k: Kind, charge: nat, reply: Result<Handle, BackendError>): Call {
    Call(Create, k, charge, if reply.Ok? then Gained else Unchanged, reply == Err(BackendError.DeviceLost))
  }

  function SubmitCall(reply: Admission): Call {
    match reply
    case Accepted(_) => Call(Create, Event, 0, Gained, false)
    case Refused(e) => Call(Create, Event, 0, Unchanged, e == BackendError.DeviceLost)
    case Uncertain(e, _) => Call(Create, Event, 0, Gained, e == BackendError.DeviceLost)
  }

  function DestroyCall(k: Kind, charge: nat, reply: Release): Call {
    match reply
    case Released => Call(Destroy, k, charge, Gone, false)
    case Rejected(e, _) => Call(Destroy, k, charge, Unchanged, e == BackendError.DeviceLost)
    case Indeterminate(e) => Call(Destroy, k, charge, Unknown, e == BackendError.DeviceLost)
  }

  function PollCall(reply: Result<EventState, BackendError>): Call {
    Call(Poll, Event, 0, Unchanged,
         reply == Err(BackendError.DeviceLost) || reply == Ok(Failed(BackendError.DeviceLost)))
  }

  function CancelCall(reply: Result<(), BackendError>): Call {
    Call(Cancel, Event, 0, if reply.Ok? then Mutated else Unchanged, reply == Err(BackendError.DeviceLost))
  }

  function TransferCall(write: bool, reply: Result<(), BackendError>): Call {
    Call(Transfer, Buffer, 0, if write then Mutated else Unchanged, reply == Err(BackendError.DeviceLost))
  }

  function Delta(c: Call): int { match c.effect case Gained => 1 case Gone => -1 case _ => 0 }

  /** Objects and bytes the backend has handed out and not yet taken back, from its calls alone. */
  function Outstanding(trace: seq<Call>, c: Column): int {
    if trace == [] then 0
    else
      var last := trace[|trace| - 1];
      Outstanding(trace[..|trace| - 1], c) + Delta(last) * Unit(last.kind, last.charge, c)
  }

  lemma OutstandingStep(trace: seq<Call>, call: Call)
    ensures forall c ::
              Outstanding(trace + [call], c) == Outstanding(trace, c) + Delta(call) * Unit(call.kind, call.charge, c)
  {
    assert (trace + [call])[..|trace|] == trace;
  }

  // ------------------------------------------------------------------------------------------
  // The engine.

  datatype Report = Report(reusable: bool, released: Account, quarantined: Account)

  datatype Engine = Engine(graph: Graph, health: Health, quarantined: Account, lastReset: Option<Report>,
                           trace: seq<Call>)

  /** Everything the backend handed out is either live in the graph or quarantined. */
  ghost predicate Balanced(e: Engine) {
    Shape(e.graph) && forall c :: Outstanding(e.trace, c) == Standing(e.graph, c) + In(e.quarantined, c)
  }

  /** The invariant of every reachable engine state. */
  ghost predicate EngineInv(e: Engine) {
    && Inv(e.graph) && Balanced(e)
    && (e.quarantined != EMPTY ==> e.health == DiscardRequired)
    && (e.health != DiscardRequired ==>
          && AtRest(e.graph) && e.graph.backing <= e.graph.policy.maxBacking
          && e.graph.resident <= e.graph.policy.maxResident)
  }

  /** Growing the graph and recording the matching call keeps the books balanced. */
  lemma StaysBalanced(e: Engine, call: Call, g': Graph, n: int, q: Account)
    requires Balanced(e) && Shape(g') && Grown(e.graph, g', call.kind, n, call.charge)
    requires (n == Delta(call) && q == e.quarantined)
             || (call.effect == Unknown && n == -1 && q == Enter(e.quarantined, call.kind, call.charge))
    ensures Balanced(e.(graph := g', trace := e.trace + [call], quarantined := q))
  {
    hide Shape, Count;
    OutstandingStep(e.trace, call);
    forall c
      ensures Outstanding(e.trace + [call], c) == Standing(g', c) + In(q, c)
    {
      assert Outstanding(e.trace, c) == Standing(e.graph, c) + In(e.quarantined, c);
      assert Standing(g', c) == Standing(e.graph, c) + n * Unit(call.kind, call.charge, c);
    }
  }

  // ------------------------------------------------------------------------------------------
  // Responses.

  datatype Payload =
    | NoPayload | ObjectPayload(id: Id) | InfoPayload | StatePayload(state: EventState) | DataPayload(bytes: nat)

  function PayloadLength(p: Payload): nat {
    match p
    case NoPayload => 0
    case ObjectPayload(_) => 8
    case InfoPayload => DEVICE_INFO_BYTES
    case StatePayload(_) => 8
    case DataPayload(bytes) => bytes
  }

  datatype WriteError = FrameTooLarge | InsufficientCapacity | SourceAccess | SinkAccess

  /** The response port of one command: its capacity, the frame limit, and whether the writes of a
      response with a given payload will reach it. */
  datatype Port = Port(capacity: nat, maxResponse: nat, sink: Payload -> bool)

  /** Used length of a response with `payload` bytes, if the frame and the port can hold it. */
  function Preflight(payload: nat, maxResponse: nat, capacity: nat): Result<nat, WriteError> {
    var total := RESPONSE_HEADER_BYTES + payload;
    if total > maxResponse || total >= U32 then Err(FrameTooLarge)
    else if total > capacity then Err(InsufficientCapacity)
    else Ok(total)
  }

  /** A response written, or one that could not be. */
  datatype Outcome =
    | Response(request: nat, status: nat, payload: Payload, used: nat)
    | WriteFailed(status: nat, payload: Payload, error: WriteError)

  function Written(port: Port, request: nat, status: nat, payload: Payload): Outcome {
    match Preflight(PayloadLength(payload), port.maxResponse, port.capacity)
    case Err(e) => WriteFailed(status, payload, e)
    case Ok(used) =>
      if port.sink(payload) then Response(request, status, payload, used)
      else WriteFailed(status, payload, SinkAccess)
  }

  predicate IssuedPayload(p: Payload) { p.ObjectPayload? && Encodable(p.id) && p.id.slot > 0 }

  /** Shape of every response the engine writes to `body`. */
  predicate ReplyShape(body: Body, status: nat, p: Payload) {
    && KnownStatus(status)
    && match body
       case GetDeviceInfo => if status == OK then p == InfoPayload else p == NoPayload
       case CreateContext => if status == OK then IssuedPayload(p) else p == NoPayload
       case AllocateBuffer(_, _) => if status == OK then IssuedPayload(p) else p == NoPayload
       case LoadProgram(_, _, _, _, _) => if status == OK then IssuedPayload(p) else p == NoPayload
       case CreateQueue(_) => if status == OK then IssuedPayload(p) else p == NoPayload
       case Submit(_, _, _, _) => IssuedPayload(p) || (status != OK && p == NoPayload)
       case PollEvent(_) => if status == OK then p.StatePayload? else p == NoPayload
       case ReadBuffer(_, _, bytes) => if status == OK then p == DataPayload(bytes) else p == NoPayload
       case _ => p == NoPayload
  }

  /** Same objects, disregarding which provider handle backs them. */
  ghost predicate SameObjects(g: Graph, g': Graph) {
    && (forall k, id :: Alive(g', k, id) <==> Alive(g, k, id))
    && (forall k, id | Alive(g, k, id) :: WithSlot(Rec(g', k, id), None) == WithSlot(Rec(g, k, id), None))
  }

  /** What one command guarantees, whatever the backend answers and whether or not the response
      can be written. */
  ghost predicate StepOk(b: Engine, a: Engine, out: Outcome, request: Request, port: Port) {
    && EngineInv(a)
    && a.graph.namespace == b.graph.namespace && a.graph.limits == b.graph.limits && a.graph.policy == b.graph.policy
    && b.trace <= a.trace && |a.trace| <= |b.trace| + 2
    && ReplyShape(request.body, out.status, out.payload)
    && (out.Response? ==> out.request == request.id && out.used == RESPONSE_HEADER_BYTES + PayloadLength(out.payload)
                          && out.used <= port.capacity && port.sink(out.payload))
    && (out.WriteFailed? ==> out.error == SinkAccess && !port.sink(out.payload))
    && (forall i | |b.trace| <= i < |a.trace| && (a.trace[i].lost || a.trace[i].effect == Unknown) ::
          a.health == DiscardRequired)
    && (out.WriteFailed? && a.health == Running ==>
          && SameObjects(b.graph, a.graph)
          && forall i | |b.trace| <= i < |a.trace| :: a.trace[i].effect != Mutated)
  }

  /** The port can take the largest response to `body`, as preflight checks before dispatch. */
  predicate PortFits(port: Port, body: Body) {
    RequiredResponse(body) <= port.maxResponse < U32 && RequiredResponse(body) <= port.capacity
  }

  /** Once preflight has passed, no response the engine writes can be too large or short of room. */
  lemma ResponsesFit(port: Port, body: Body, request: nat, status: nat, p: Payload)
    requires PortFits(port, body) && ReplyShape(body, status, p)
    ensures Written(port, request, status, p)
            == if port.sink(p) then Response(request, status, p, RESPONSE_HEADER_BYTES + PayloadLength(p))
               else WriteFailed(status, p, SinkAccess)
    ensures RESPONSE_HEADER_BYTES + PayloadLength(p) <= RequiredResponse(body) <= port.capacity
  {
    match body { case ReadBuffer(_, _, _) => case _ => }
  }

  /** The room preflight asks for is needed: some successful reply to the body has exactly that length. */
  lemma ResponseIsTight(body: Body)
    ensures exists p :: ReplyShape(body, OK, p) && RESPONSE_HEADER_BYTES + PayloadLength(p) == RequiredResponse(body)
  {
    var id := ObjectPayload(Id(1, 0, 0, 0));
    var p := match body
      case GetDeviceInfo => InfoPayload
      case ReadBuffer(_, _, bytes) => DataPayload(bytes)
      case PollEvent(_) => StatePayload(Pending)
      case CreateContext => id
      case AllocateBuffer(_, _) => id
      case LoadProgram(_, _, _, _, _) => id
      case CreateQueue(_) => id
      case Submit(_, _, _, _) => id
      case _ => NoPayload;
    assert ReplyShape(body, OK, p);
  }

  /** A write that fails for its size says which bound was too small. */
  lemma WriteErrors(port: Port, request: nat, status: nat, p: Payload)
    ensures var w, total := Written(port, request, status, p), RESPONSE_HEADER_BYTES + PayloadLength(p);
            && (w == WriteFailed(status, p, FrameTooLarge) <==> total > port.maxResponse || total >= U32)
            && (w == WriteFailed(status, p, InsufficientCapacity) ==> port.capacity < total <= port.maxResponse)
            && (w.Response? <==> total <= port.maxResponse && total < U32 && total <= port.capacity && port.sink(p))
  {}
}
