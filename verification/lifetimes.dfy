/** Identifiers over the life of a device: what commands issue, and what may ever resolve again. */
module Lifetimes {
  import opened Bytes
  import opened ObjectTables
  import opened Graphs
  import opened GraphLaws
  import opened DeviceStates
  import opened GraphEffects
  import opened Identities
  import opened Wire
  import opened Ledgers
  import opened Commands

  /** The kind of object whose identifier a response to `body` may publish. */
  function Publishes(body: Body): Option<Kind> {
    match body
    case CreateContext => Some(Context)
    case AllocateBuffer(_, _) => Some(Buffer)
    case LoadProgram(_, _, _, _, _) => Some(Program)
    case CreateQueue(_) => Some(Queue)
    case Submit(_, _, _, _) => Some(Event)
    case _ => None
  }

  /** Identifiers only age, and an identifier in the response is new and resolves. */
  ghost predicate Issues(g: Graph, body: Body, m: Move) {
    && Descends(g, m.graph)
    && (m.payload.ObjectPayload? ==>
          && Publishes(body).Some?
          && !IssuedIn(g, Publishes(body).value, m.payload.id) && Alive(m.graph, Publishes(body).value, m.payload.id))
  }

  lemma StillIssues(g: Graph, body: Body, m: Move)
    requires m.graph == g && !m.payload.ObjectPayload?
    ensures Issues(g, body, m)
  {
    AgesItself(g);
  }

  lemma SettleIssues(b: Engine, body: Body, k: Kind, id: Id, reply: Release)
    requires Inv(b.graph) && Releasable(b.graph, k, id)
    ensures Issues(b.graph, body, SettleMove(b, k, id, reply))
  {
    hide Get, Inv, Held, Descends, ReleasedGraph, RejectedGraph, Enter;
    ReleaseAges(b.graph, k, id, if reply.Rejected? then reply.resource else 0);
  }

  lemma ReleaseIssues(b: Engine, body: Body, k: Kind, id: Id, reply: Release)
    requires Inv(b.graph)
    ensures Issues(b.graph, body, ReleaseMove(b, k, id, reply))
  {
    hide Get, Inv, Held, Issues, SettleMove;
    InvShape(b.graph);
    var found := Look(b.graph, k, id);
    if found.Err? || Held(found.value) || found.value.slot.release != Live {
      StillIssues(b.graph, body, ReleaseMove(b, k, id, reply));
    } else {
      SettleIssues(b, body, k, id, reply);
    }
  }

  lemma DestroyEventIssues(b: Engine, body: Body, id: Id, polled: Reply, released: Reply)
    requires Inv(b.graph)
    ensures Issues(b.graph, body, DestroyEventMove(b, id, polled, released))
  {
    hide Get, Inv, Descends, ReleaseMove;
    InvShape(b.graph);
    AgesItself(b.graph);
    ReleaseIssues(b, body, Event, id, released.release);
  }

  lemma CreateIssues(b: Engine, body: Body, blank: Record, reply: Result<Handle, BackendError>)
    requires Inv(b.graph) && Publishes(body) == Some(KindOf(blank))
             && forall h :: Admissible(b.graph, WithSlot(blank, Some(h)))
    ensures Issues(b.graph, body, CreateMove(b, blank, reply))
  {
    hide Get, Inv, Admissible, Admitted, InsertedId, Descends, IssuedIn;
    AgesItself(b.graph);
    if reply.Ok? {
      AdmissibleFits(b.graph, WithSlot(blank, Some(reply.value)));
      AdmittedAges(b.graph, WithSlot(blank, Some(reply.value)));
    }
  }

  lemma ContextIssues(b: Engine, body: Body, memory: Memory, reply: Reply)
    requires Inv(b.graph) && body.CreateContext?
    ensures Issues(b.graph, body, ContextMove(b, memory, reply))
  {
    hide Get, Inv, Issues, ContextCheck, CreateMove, Admissible;
    InvShape(b.graph);
    if ContextCheck(b.graph, memory.table).Some? {
      StillIssues(b.graph, body, ContextMove(b, memory, reply));
    } else {
      ContextAdmissible(b.graph, memory.table);
      CreateIssues(b, body, ContextRecord(VACANT, NO_CHILDREN), reply.create);
    }
  }

  lemma ChildIssues(b: Engine, body: Body, memory: Memory, reply: Reply)
    requires Inv(b.graph) && (body.LoadProgram? || body.CreateQueue?) && Dispatchable(body, b.graph.limits)
    ensures Issues(b.graph, body, ChildMove(b, body, memory, reply))
  {
    hide Get, Inv, Issues, ChildRefusal, CreateMove, Admissible, FromRaw;
    InvShape(b.graph);
    if ChildRefusal(b.graph, body, memory.table).Some? {
      StillIssues(b.graph, body, ChildMove(b, body, memory, reply));
    } else {
      ChildAdmissible(b.graph, body, memory.table);
      CreateIssues(b, body, ChildRecord(body), reply.create);
    }
  }

  /** An unpublished buffer uses up an identifier that nobody is told. */
  lemma CleanupIssues(b: Engine, body: Body, record: Record, call: Call, reply: Release, status: nat)
    requires Admissible(b.graph, record) && record.BufferRecord?
    ensures Issues(b.graph, body, CleanupMove(b, record, call, reply, status))
  {
    hide Get, Inv, Admissible, Admitted, InsertedId, Descends, SettleMove, Held, IssuedIn;
    AdmissibleFits(b.graph, record);
    AdmittedAges(b.graph, record);
    CleanupRestores(b.graph, record);
    var g1, id := Admitted(b.graph, record), InsertedId(b.graph.tables[Buffer]);
    var m := SettleMove(b.(graph := g1), Buffer, id, reply);
    SettleIssues(b.(graph := g1), body, Buffer, id, reply);
    SettleTellsNothing(b.(graph := g1), Buffer, id, reply);
    DescendsTransitively(b.graph, g1, m.graph);
  }

  lemma SettleTellsNothing(b: Engine, k: Kind, id: Id, reply: Release)
    requires Inv(b.graph) && Releasable(b.graph, k, id)
    ensures SettleMove(b, k, id, reply).payload == NoPayload
  {
    hide Get, Inv, Held;
  }

  lemma AllocateIssues(b: Engine, body: Body, setup: Setup, memory: Memory)
    requires Inv(b.graph) && body.AllocateBuffer?
    ensures Issues(b.graph, body, AllocateMove(b, body, setup, memory))
  {
    hide Get, Inv, Descends, BufferRefusal, Admissible, Admitted, CleanupMove, InsertedId, FromRaw, IssuedIn;
    InvShape(b.graph);
    AgesItself(b.graph);
    var reply, info := setup.backend(|b.trace|).create, setup.backend(|b.trace|).info;
    var call := CreateCall(Buffer, info.allocationBytes, reply);
    if BufferRefusal(b.graph, body, setup.domains, memory.table).None? && reply.Ok? {
      var record := BufferOf(body, reply.value, info);
      BufferAdmissible(b.graph, body, setup.domains, memory.table, reply.value, info);
      AdmissibleFits(b.graph, record);
      AdmittedAges(b.graph, record);
      CleanupIssues(b, body, record, call, setup.backend(|b.trace| + 1).release, INCOMPATIBLE);
      CleanupIssues(b, body, record, call, setup.backend(|b.trace| + 1).release, RESOURCE_LIMIT);
    }
  }

  lemma AnswerIssues(b: Engine, body: Body, memory: Memory, record: Record, reply: Admission)
    requires Inv(b.graph) && body.Submit? && Shape(b.graph) && SubmitCheck(b.graph, body, memory.table) == Ok(record)
    ensures Issues(b.graph, body, AnswerMove(b, body, memory, record, reply))
  {
    hide Get, Inv, Descends, EventCheck, AdmissibleEvent, AdmittedEvent, InsertedId, FromRaw, BufferIds, IssuedIn;
    AgesItself(b.graph);
    if !reply.Refused? {
      EventCheckAdmits(b.graph, FromRaw(body.queue), FromRaw(body.program), BufferIds(body.bindings), memory.table,
                       reply.event);
      AdmittedEventAges(b.graph, WithSlot(record, Some(reply.event)));
    }
  }

  lemma SubmitIssues(b: Engine, body: Body, memory: Memory, reply: Reply)
    requires Inv(b.graph) && body.Submit?
    ensures Issues(b.graph, body, SubmitMove(b, body, memory, reply))
  {
    hide Get, Inv, Issues, EventCheck, BindingFault, FromRaw, BufferIds, Shape, AnswerMove;
    InvShape(b.graph);
    var check := SubmitCheck(b.graph, body, memory.table);
    var m := SubmitMove(b, body, memory, reply);
    if !memory.scratch || check.Err? || !memory.native {
      StillIssues(b.graph, body, m);
    } else {
      SubmissionResolves(b.graph, FromRaw(body.queue), FromRaw(body.program), body.bindings, memory.table);
      if BindingFault(b.graph, body.bindings).Some? {
        StillIssues(b.graph, body, m);
      } else {
        AnswerIssues(b, body, memory, check.value, reply.submit);
      }
    }
  }

  lemma QueryIssues(b: Engine, body: Body, id: Id, cancellation: bool, reply: Reply)
    requires Inv(b.graph)
    ensures Issues(b.graph, body, PollMove(b, id, reply))
            && Issues(b.graph, body, CancelMove(b, id, cancellation, reply))
    ensures body.WriteBuffer? || body.ReadBuffer? ==> Issues(b.graph, body, TransferMove(b, body, reply))
  {
    hide Get, Inv, Issues, TransferFault, FromRaw;
    InvShape(b.graph);
    StillIssues(b.graph, body, PollMove(b, id, reply));
    StillIssues(b.graph, body, CancelMove(b, id, cancellation, reply));
    if body.WriteBuffer? || body.ReadBuffer? { StillIssues(b.graph, body, TransferMove(b, body, reply)); }
  }

  /** Every command, whatever the backend answers: identifiers only age, and a published one is new. */
  lemma CommandIssues(b: Engine, body: Body, setup: Setup, memory: Memory)
    requires Inv(b.graph) && Dispatchable(body, b.graph.limits)
    ensures Issues(b.graph, body, CommandMove(b, body, setup, memory))
  {
    hide Inv, Issues, ReleaseMove, DestroyEventMove, ContextMove, ChildMove, AllocateMove, SubmitMove, PollMove,
         CancelMove, TransferMove, FromRaw;
    var reply := setup.backend(|b.trace|);
    match body {
      case GetDeviceInfo => StillIssues(b.graph, body, CommandMove(b, body, setup, memory));
      case CreateContext => ContextIssues(b, body, memory, reply);
      case DestroyContext(id) => ReleaseIssues(b, body, Context, FromRaw(id), reply.release);
      case AllocateBuffer(_, _) => AllocateIssues(b, body, setup, memory);
      case FreeBuffer(id) => ReleaseIssues(b, body, Buffer, FromRaw(id), reply.release);
      case WriteBuffer(_, _, _, _) => QueryIssues(b, body, FromRaw(0), false, reply);
      case ReadBuffer(_, _, _) => QueryIssues(b, body, FromRaw(0), false, reply);
      case LoadProgram(_, _, _, _, _) => ChildIssues(b, body, memory, reply);
      case UnloadProgram(id) => ReleaseIssues(b, body, Program, FromRaw(id), reply.release);
      case CreateQueue(_) => ChildIssues(b, body, memory, reply);
      case DestroyQueue(id) => ReleaseIssues(b, body, Queue, FromRaw(id), reply.release);
      case Submit(_, _, _, _) => SubmitIssues(b, body, memory, reply);
      case PollEvent(id) => QueryIssues(b, body, FromRaw(id), setup.cancellation, reply);
      case CancelEvent(id) => QueryIssues(b, body, FromRaw(id), setup.cancellation, reply);
      case DestroyEvent(id) => DestroyEventIssues(b, body, FromRaw(id), reply, setup.backend(|b.trace| + 1));
    }
  }

  lemma FirstId(namespace: nat, limits: Limits, policy: Policy)
    requires Inv(NewGraph(namespace, limits, policy))
    ensures var g := NewGraph(namespace, limits, policy);
            && Context in g.tables && ContextCheck(g, true).None?
            && InsertedId(g.tables[Context]) == NewId(0, namespace, 0, Context)
  {}

  /** The first context of an empty device gets the one identifier its namespace determines. */
  lemma FirstContext(b: Engine, a: Engine, out: Outcome, port: Port, request: Request, setup: Setup, memory: Memory,
                     namespace: nat)
    requires b.health == Running && b.graph == NewGraph(namespace, b.graph.limits, b.graph.policy)
    requires request.body == CreateContext && memory.table && setup.backend(|b.trace|).create.Ok?
    requires Obeyed(b, a, out, port, request, setup, memory) && PortFits(port, request.body)
             && port.sink(ObjectPayload(NewId(0, namespace, 0, Context)))
    ensures out == Response(request.id, OK, ObjectPayload(NewId(0, namespace, 0, Context)), 24)
    ensures a.health == Running && Alive(a.graph, Context, NewId(0, namespace, 0, Context))
  {
    hide Inv, Admissible, Admitted, Get, NewGraph, ContextCheck, InsertedId, Descends, IssuedIn, Alive;
    InvShape(b.graph);
    FirstId(namespace, b.graph.limits, b.graph.policy);
    ContextAdmissible(b.graph, memory.table);
    var record := WithSlot(ContextRecord(VACANT, NO_CHILDREN), Some(setup.backend(|b.trace|).create.value));
    assert Admissible(b.graph, record);
    AdmittedAges(b.graph, record);
  }
}
