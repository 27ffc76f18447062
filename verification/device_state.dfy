/** The device state: admission checks, release transitions and event references, updated in place. */
module DeviceStates {
  import opened Bytes
  import opened Sorting
  import opened ObjectTables
  import opened Graphs
  import opened GraphLaws

  // ------------------------------------------------------------------------------------------
  // Read-only admission checks, made before the provider is called.

  function ReserveCheck(g: Graph, k: Kind, memory: bool): Option<StateError>
    requires k in g.tables
  {
    match Reserve(g.tables[k], memory)
    case None => None
    case Some(e) => Some(MapError(e))
  }

  function ContextCheck(g: Graph, memory: bool): Option<StateError>
    requires Context in g.tables
  {
    if Count(g, Context) >= g.limits.maxContexts then Some(ResourceLimit) else ReserveCheck(g, Context, memory)
  }

  function ChildCheck(g: Graph, k: Kind, context: Id, memory: bool): Option<StateError>
    requires Context in g.tables && k in g.tables
  {
    match Look(g, Context, context)
    case Err(e) => Some(e)
    case Ok(r) =>
      if !r.ContextRecord? || r.slot.resource.None? then Some(ReleasePending)
      else if Child(r.children, k) >= PerContext(g.limits, k) then Some(ResourceLimit)
      else ReserveCheck(g, k, memory)
  }

  function BufferCheck(g: Graph, context: Id, desc: BufferDesc, memory: bool): Option<StateError>
    requires Context in g.tables && Buffer in g.tables
  {
    if desc.bytes > g.limits.maxBufferBytes then Some(ResourceLimit)
    else if g.backing + desc.bytes > g.policy.maxBacking then Some(ResourceLimit)
    else ChildCheck(g, Buffer, context, memory)
  }

  function ProgramCheck(g: Graph, context: Id, artifactBytes: nat, residentBytes: nat, memory: bool): Option<StateError>
    requires Context in g.tables && Program in g.tables
  {
    if artifactBytes == 0 || residentBytes == 0 then Some(InvalidArgument)
    else if artifactBytes > g.limits.maxArtifactBytes then Some(ResourceLimit)
    else if g.resident + residentBytes > g.policy.maxResident then Some(ResourceLimit)
    else ChildCheck(g, Program, context, memory)
  }

  function LiveSlot(h: Handle): ResourceSlot { ResourceSlot(Some(h), Live) }

  lemma ContextCheckAdmits(g: Graph, memory: bool, h: Handle)
    requires Inv(g) && ContextCheck(g, memory).None?
    ensures Admissible(g, ContextRecord(LiveSlot(h), NO_CHILDREN))
  {
    hide Get, Valid, Tally, ValidLimits, TableLimit, RecordOk;
  }

  lemma ChildCheckAdmits(g: Graph, k: Kind, context: Id, memory: bool, r: Record)
    requires Inv(g) && k != Context && k != Event && ChildCheck(g, k, context, memory).None?
    requires KindOf(r) == k && IsLeaf(r) && r.context == context && r.inFlight == 0
    requires r.slot.resource.Some? && r.slot.release == Live && Charge(r) < U64
    ensures Admissible(g, r)
  {
    hide Get, Valid, Tally, ValidLimits, TableLimit;
    assert RecordOk(g, Context, context);
  }

  /** The first buffer of a submission that cannot be used from `context`. */
  function BufferFault(g: Graph, context: Id, ids: seq<Id>): Option<StateError>
    requires Buffer in g.tables
  {
    if ids == [] then None
    else match Look(g, Buffer, ids[0])
         case Err(e) => Some(e)
         case Ok(b) =>
           if b.slot.resource.None? then Some(ReleasePending)
           else if !b.BufferRecord? || b.context != context then Some(ContextMismatch)
           else BufferFault(g, context, ids[1..])
  }

  /** Queue, program and buffers are live and of one context, which is returned. */
  function SubmissionCheck(g: Graph, queue: Id, program: Id, ids: seq<Id>): Result<Id, StateError>
    requires Queue in g.tables && Program in g.tables && Buffer in g.tables
  {
    var q :- Look(g, Queue, queue);
    if q.slot.resource.None? then Err(ReleasePending) else
    var p :- Look(g, Program, program);
    if p.slot.resource.None? then Err(ReleasePending)
    else if !q.QueueRecord? || !p.ProgramRecord? || p.context != q.context then Err(ContextMismatch)
    else match BufferFault(g, q.context, ids)
         case Some(e) => Err(e)
         case None => Ok(q.context)
  }

  function RawKey(id: Id): int { Raw(id) }

  /** All checks of a submission; the result is the event record still lacking its resource. */
  function EventCheck(g: Graph, queue: Id, program: Id, ids: seq<Id>, memory: bool): Result<Record, StateError>
    requires forall k :: k in g.tables
  {
    if ids == [] then Err(InvalidArgument)
    else if |ids| > g.limits.maxBindings then Err(ResourceLimit)
    else
      var context :- SubmissionCheck(g, queue, program, ids);
      var c :- Look(g, Context, context);
      if !c.ContextRecord? || c.children.events >= g.limits.maxEvents then Err(ResourceLimit)
      else match ReserveCheck(g, Event, memory)
           case Some(e) => Err(e)
           case None => Ok(EventRecord(ResourceSlot(None, Releasing), context, queue, program, SortByKey(ids, RawKey)))
  }

  lemma {:induction false} NoBufferFault(g: Graph, context: Id, ids: seq<Id>)
    requires Buffer in g.tables
    ensures BufferFault(g, context, ids).None? <==>
            forall b | b in ids ::
              InContext(g, Buffer, b, context) && Rec(g, Buffer, b).BufferRecord?
                && Rec(g, Buffer, b).slot.resource.Some?
  {
    hide Get;
    if ids != [] {
      NoBufferFault(g, context, ids[1..]);
      assert ids[0] in ids && forall b :: b in ids <==> b == ids[0] || b in ids[1..];
    }
  }

  lemma EventCheckAdmits(g: Graph, queue: Id, program: Id, ids: seq<Id>, memory: bool, h: Handle)
    requires Inv(g) && EventCheck(g, queue, program, ids, memory).Ok?
    ensures var e := EventCheck(g, queue, program, ids, memory).value;
            AdmissibleEvent(g, WithSlot(e, Some(h)))
  {
    hide Get, Valid, Tally, ValidLimits, TableLimit, ContextOk, LeafOk, SortByKey;
    var e := EventCheck(g, queue, program, ids, memory).value;
    NoBufferFault(g, e.context, ids);
    SameMembers(ids, e.buffers);
    assert RecordOk(g, Queue, queue);
    assert RecordOk(g, Program, program);
    assert RecordOk(g, Context, e.context);
    assert EventOk(g, e);
    forall k, x | k != Context && k != Event && InContext(g, k, x, e.context) && Weight(Uses(k, x), e) > 0
      ensures Rec(g, k, x).slot.release == Live
    {
      assert RecordOk(g, k, x);
      if k == Buffer { assert x in e.buffers; }
    }
  }

  /** Live events still pass the validation they passed at admission, so committing the release of
      an event cannot fail on it. */
  lemma EventRevalidates(g: Graph, id: Id)
    requires Inv(g) && Alive(g, Event, id)
    ensures var e := Rec(g, Event, id);
            e.EventRecord? && SubmissionCheck(g, e.queue, e.program, e.buffers) == Ok(e.context)
  {
    hide Get, Valid, Tally, ValidLimits, TableLimit, ContextOk;
    assert RecordOk(g, Event, id);
    var e := Rec(g, Event, id);
    assert EventOk(g, e);
    forall k, x | (k == Queue && x == e.queue) || (k == Program && x == e.program) || (k == Buffer && x in e.buffers)
      ensures Alive(g, k, x) && KindOf(Rec(g, k, x)) == k && Rec(g, k, x).slot.resource.Some?
    {
      assert RecordOk(g, k, x);
      TallyMember(T(g, Event), id, Uses(k, x));
    }
    NoBufferFault(g, e.context, e.buffers);
  }

  // ------------------------------------------------------------------------------------------
  // Reference-count overflow, decided on runs of equal identifiers in the sorted buffer list.

  lemma {:induction false} RunMultiplicity(ids: seq<Id>, from: nat, to: nat, id: Id)
    requires from <= to <= |ids| && forall i | from <= i < to :: ids[i] == id
    ensures multiset(ids[from..to])[id] == to - from
  {
    if from < to {
      RunMultiplicity(ids, from, to - 1, id);
      assert ids[from..to] == ids[from..to - 1] + [id];
    } else {
      assert ids[from..to] == [];
    }
  }

  lemma SplitMultiplicity(ids: seq<Id>, from: nat, to: nat, id: Id)
    requires from <= to <= |ids|
    ensures multiset(ids)[id] == multiset(ids[..from])[id] + multiset(ids[from..to])[id] + multiset(ids[to..])[id]
  {
    assert ids == ids[..from] + ids[from..to] + ids[to..];
  }

  lemma KeyIsInjective(a: Id, b: Id)
    requires Encodable(a) && Encodable(b) && RawKey(a) == RawKey(b)
    ensures a == b
  {
    PackingIsBijective(a, 0);
    PackingIsBijective(b, 0);
  }

  /** In a list sorted by encoding, all copies of an identifier are one run. */
  lemma RunIsAll(ids: seq<Id>, from: nat, to: nat)
    requires from < to <= |ids| && SortedBy(ids, RawKey)
    requires forall i | from <= i < to :: ids[i] == ids[from]
    requires from > 0 ==> ids[from - 1] != ids[from]
    requires to < |ids| ==> ids[to] != ids[from]
    requires forall i | 0 <= i < |ids| :: Encodable(ids[i])
    ensures multiset(ids)[ids[from]] == to - from
  {
    hide RawKey, Encodable;
    var id := ids[from];
    if from > 0 && RawKey(ids[from - 1]) == RawKey(id) { KeyIsInjective(ids[from - 1], id); }
    if to < |ids| && RawKey(ids[to]) == RawKey(id) { KeyIsInjective(ids[to], id); }
    assert id !in ids[..from];
    assert id !in ids[to..];
    RunMultiplicity(ids, from, to, id);
    SplitMultiplicity(ids, from, to, id);
  }

  lemma AliveEncodable(g: Graph, k: Kind, id: Id)
    requires Shape(g) && Alive(g, k, id)
    ensures Encodable(id) && id.slot > 0
  {}

  predicate Fits(t: Table<Record>, id: Id, n: int) {
    Has(t, id) && IsLeaf(Get(t, id).value) && Get(t, id).value.inFlight + n < U32
  }

  /** Every counter of an accepted submission has room, so the overflow check never rejects. */
  lemma SubmissionFits(g: Graph, queue: Id, program: Id, ids: seq<Id>, memory: bool)
    requires Inv(g) && EventCheck(g, queue, program, ids, memory).Ok?
    ensures var e := EventCheck(g, queue, program, ids, memory).value;
            && Submittable(g, e)
            && Fits(g.tables[Queue], queue, 1) && Fits(g.tables[Program], program, 1)
            && forall b | b in e.buffers :: Fits(g.tables[Buffer], b, multiset(e.buffers)[b])
  {
    hide Get, Valid, Tally, ValidLimits, TableLimit, ContextOk, LeafOk, SlotOk, SortByKey, Weight;
    EventCheckAdmits(g, queue, program, ids, memory, 0);
    var e := EventCheck(g, queue, program, ids, memory).value;
    InvSubmittable(g, e);
    assert RecordOk(g, Queue, e.queue) && RecordOk(g, Program, e.program);
    ReferencesFit(g, Queue, e.queue);
    ReferencesFit(g, Program, e.program);
    forall b | b in e.buffers
      ensures Fits(g.tables[Buffer], b, multiset(e.buffers)[b])
    {
      assert RecordOk(g, Buffer, b);
      ReferencesFit(g, Buffer, b);
      MultiplicityBound(e.buffers, b);
    }
  }

  datatype ConfigError = ZeroLimit | BindingLimit | CountOverflow | CounterOverflow

  function Committed(g: Graph, k: Kind, id: Id): Graph
    requires Shape(g) && Alive(g, k, id) && (k == Event ==> Rec(g, k, id).EventRecord?)
  {
    if k == Event then DroppedEvent(g, id) else Unowned(g, k, id)
  }

  lemma CommittedKeepsInv(g: Graph, k: Kind, id: Id)
    requires Inv(g) && Alive(g, k, id) && Rec(g, k, id).slot.release == Releasing
    ensures k == Event ==> Rec(g, k, id).EventRecord?
    ensures Inv(Committed(g, k, id))
  {
    hide Get, Valid, Tally, ValidLimits, TableLimit, Unowned, DroppedEvent, ContextOk, LeafOk, EventOk;
    assert RecordOk(g, k, id);
    if k == Event { DroppedEventKeepsInv(g, id); } else { UnownedKeepsInv(g, k, id); }
  }

  /** Where a fresh record goes, and that its parent is still found beside it. */
  lemma Inserts(g: Graph, r: Record)
    requires Admissible(g, r)
    ensures var k := KindOf(r); var id := InsertedId(g.tables[k]);
            && !Alive(g, k, id) && Alive(Admitted(g, r), k, id) && Rec(Admitted(g, r), k, id) == r
            && (!r.ContextRecord? ==>
                 Alive(InsertRec(g, r), Context, r.context) && Rec(InsertRec(g, r), Context, r.context).ContextRecord?)
  {
    hide Get, Inserted, InsertedId, CanInsert, ObjectTables.Valid, ValidLimits, TableLimit, Inv, Tally, Weight,
         Admitted;
    InvShape(g);
    AdmittedFacts(g, r);
    InsertRecFacts(g, r);
  }

  /** The three updates that remove a context or leaf. */
  lemma UnownedForm(g: Graph, k: Kind, id: Id)
    requires Inv(g) && Alive(g, k, id) && k != Event && Valid(g.tables[k])
    requires k != Context ==> !Rec(g, k, id).ContextRecord? && Alive(g, Context, Rec(g, k, id).context)
                              && Rec(g, Context, Rec(g, k, id).context).ContextRecord?
    requires k == Context ==> Rec(g, k, id).ContextRecord?
    ensures var r := Rec(g, k, id);
            var tables := g.tables[k := Removed(g.tables[k], id)];
            Unowned(g, k, id)
            == g.(backing := g.backing - (if k == Buffer then Charge(r) else 0),
                  resident := g.resident - (if k == Program then Charge(r) else 0),
                  tables := if k == Context then tables
                            else var c := Rec(g, Context, r.context);
                                 tables[Context := Store(tables[Context], r.context,
                                   c.(children := WithChild(c.children, k, Child(c.children, k) - 1)))])
  {
    hide Get, Store, Removed, Valid, Shape, Inv, Charge, Child, WithChild;
  }

  /** A releasing record is unheld, and its parent context is there. */
  lemma OwnedFacts(g: Graph, k: Kind, id: Id)
    requires Inv(g) && Alive(g, k, id) && k != Event
    ensures var r := Rec(g, k, id);
            && KindOf(r) == k && (r.slot.release == Releasing ==> !Held(r))
            && (k != Context ==> Alive(g, Context, r.context) && Rec(g, Context, r.context).ContextRecord?)
  {
    hide Get, ObjectTables.Valid, Tally, ValidLimits, TableLimit;
    var r := Rec(g, k, id);
    assert RecordOk(g, k, id);
    if k != Context { assert RecordOk(g, Context, r.context); }
  }

  /** The device state, updated in place. `View` is its graph. */
  class DeviceState {
    const namespace: nat
    const limits: Limits
    const policy: Policy
    var backing: int
    var resident: int
    var tables: map<Kind, Table<Record>>

    function View(): Graph
      reads this
    {
      Graph(namespace, limits, policy, backing, resident, tables)
    }

    constructor (namespace: nat, limits: Limits, policy: Policy)
      requires namespace < U16 && ValidLimits(limits)
      ensures View() == NewGraph(namespace, limits, policy) && Inv(View())
      ensures this.namespace == namespace && this.limits == limits && this.policy == policy
    {
      NewGraphInv(namespace, limits, policy);
      this.namespace, this.limits, this.policy := namespace, limits, policy;
      backing, resident := 0, 0;
      tables := NewGraph(namespace, limits, policy).tables;
    }

    method Next(k: Kind, start: nat) returns (r: Option<(nat, Id)>)
      requires Inv(View())
      ensures k in tables && r == NextId(tables[k], start)
      ensures r.Some? ==> start < r.value.0 <= |tables[k].slots|
    {
      hide RecordOk, ObjectTables.Valid, ValidLimits, TableLimit, Tally;
      r := NextId(tables[k], start);
    }

    method Find(k: Kind, id: Id) returns (r: Result<Record, StateError>)
      requires Inv(View())
      ensures r == Look(View(), k, id) && (r.Ok? <==> Alive(View(), k, id))
      ensures r.Ok? ==> r.value == Rec(View(), k, id) && KindOf(r.value) == k
      ensures r.Ok? ==> (r.value.slot.resource.Some? <==> r.value.slot.release == Live)
    {
      hide Get, ObjectTables.Valid, ValidLimits, TableLimit, ContextOk, LeafOk, EventOk, Tally;
      r := Look(View(), k, id);
      assert r.Ok? ==> RecordOk(View(), k, id);
    }

    method Insert(r: Record) returns (id: Id)
      requires Admissible(View(), r)
      modifies this
      ensures View() == Admitted(old(View()), r) && Inv(View())
      ensures id == InsertedId(old(View()).tables[KindOf(r)])
      ensures !old(Alive(View(), KindOf(r), id)) && Alive(View(), KindOf(r), id) && Rec(View(), KindOf(r), id) == r
    {
      hide Get, Store, Inserted, InsertedId, CanInsert, Valid, ValidLimits, TableLimit, Inv, Tally, Weight;
      ghost var g := View();
      InvShape(g);
      AdmittedKeepsInv(g, r);
      Inserts(g, r);
      var k := KindOf(r);
      id := InsertedId(tables[k]);
      tables := tables[k := Inserted(tables[k], r)];
      match k {
        case Buffer => backing := backing + Charge(r);
        case Program => resident := resident + Charge(r);
        case Context => return;
        case Queue =>
        case Event =>
      }
      var c := Get(tables[Context], r.context).value;
      tables := tables[Context :=
        Store(tables[Context], r.context, c.(children := WithChild(c.children, k, Child(c.children, k) + 1)))];
    }

    /** Take the resource out of an unheld live record; the record stays and keeps its identifier. */
    method BeginRelease(k: Kind, id: Id) returns (r: Result<Handle, StateError>)
      requires Inv(View())
      modifies this`tables
      ensures Inv(View())
      ensures r.Ok? <==>
              && old(Alive(View(), k, id)) && old(!Held(Rec(View(), k, id)))
              && old(Rec(View(), k, id)).slot.release == Live
      ensures r.Ok? ==>
                old(Rec(View(), k, id)).slot.resource == Some(r.value) && View() == old(ReSlot(View(), k, id, None))
      ensures r.Err? ==> View() == old(View())
      ensures r.Err? && old(Alive(View(), k, id)) ==>
                r.error == if old(Held(Rec(View(), k, id))) then Busy else ReleasePending
      ensures !old(Alive(View(), k, id)) ==> r == Err(old(Look(View(), k, id)).error)
    {
      hide Get, Store, Valid, Tally, ValidLimits, TableLimit, ContextOk, LeafOk, EventOk;
      var found := Look(View(), k, id);
      if found.Err? { return Err(found.error); }
      var record := found.value;
      assert RecordOk(View(), k, id);
      if Held(record) { return Err(Busy); }
      if record.slot.release != Live { return Err(ReleasePending); }
      ReSlotKeepsInv(View(), k, id, None);
      tables := tables[k := Store(tables[k], id, WithSlot(record, None))];
      return Ok(record.slot.resource.value);
    }

    method Restore(k: Kind, id: Id, h: Handle) returns (r: Result<(), StateError>)
      requires Inv(View())
      modifies this`tables
      ensures Inv(View())
      ensures r.Ok? <==> old(Alive(View(), k, id)) && old(Rec(View(), k, id)).slot.release == Releasing
      ensures View() == if r.Ok? then old(ReSlot(View(), k, id, Some(h))) else old(View())
      ensures r.Err? && old(Alive(View(), k, id)) ==> r.error == InvalidTransition
      ensures !old(Alive(View(), k, id)) ==> r == Err(old(Look(View(), k, id)).error)
    {
      hide Get, Store, Valid, Tally, ValidLimits, TableLimit, ContextOk, LeafOk, EventOk;
      var found := Look(View(), k, id);
      if found.Err? { return Err(found.error); }
      var record := found.value;
      assert RecordOk(View(), k, id);
      if record.slot.release != Releasing { return Err(InvalidTransition); }
      ReSlotKeepsInv(View(), k, id, Some(h));
      tables := tables[k := Store(tables[k], id, WithSlot(record, Some(h)))];
      return Ok(());
    }

    /** Queue, program and buffer counters of one submission would stay below 2^32. */
    method CheckReferenceIncrements(queue: Id, program: Id, ids: seq<Id>) returns (r: Result<(), StateError>)
      requires Shape(View()) && SortedBy(ids, RawKey)
      requires Alive(View(), Queue, queue) && IsLeaf(Rec(View(), Queue, queue))
      requires Alive(View(), Program, program) && IsLeaf(Rec(View(), Program, program))
      requires forall b | b in ids :: Alive(View(), Buffer, b) && IsLeaf(Rec(View(), Buffer, b))
      ensures r.Ok? <==> Fits(tables[Queue], queue, 1) && Fits(tables[Program], program, 1)
                         && forall b | b in ids :: Fits(tables[Buffer], b, multiset(ids)[b])
      ensures r.Err? ==> r.error == ReferenceCountOverflow
    {
      hide Get, Shape, SortedBy, RawKey, Encodable;
      ShapeTables(View(), Buffer);
      if Get(tables[Queue], queue).value.inFlight + 1 >= U32 { return Err(ReferenceCountOverflow); }
      if Get(tables[Program], program).value.inFlight + 1 >= U32 { return Err(ReferenceCountOverflow); }
      forall i | 0 <= i < |ids|
        ensures Encodable(ids[i])
      {
        AliveEncodable(View(), Buffer, ids[i]);
      }
      var index := 0;
      while index < |ids|
        invariant 0 <= index <= |ids|
        invariant 0 < index < |ids| ==> ids[index - 1] != ids[index]
        invariant forall i | 0 <= i < index :: Fits(tables[Buffer], ids[i], multiset(ids)[ids[i]])
      {
        var id := ids[index];
        var end := index + 1;
        while end < |ids| && ids[end] == id
          invariant index < end <= |ids| && forall i | index <= i < end :: ids[i] == id
        {
          end := end + 1;
        }
        RunIsAll(ids, index, end);
        assert id in ids && Alive(View(), Buffer, id);
        if Get(tables[Buffer], id).value.inFlight + (end - index) >= U32 {
          assert id in ids && !Fits(tables[Buffer], id, multiset(ids)[id]);
          return Err(ReferenceCountOverflow);
        }
        index := end;
      }
      return Ok(());
    }

    method ValidateSubmission(queue: Id, program: Id, ids: seq<Id>) returns (r: Result<Id, StateError>)
      requires Shape(View())
      ensures r == SubmissionCheck(View(), queue, program, ids)
    {
      hide Get, Valid, ValidLimits, TableLimit;
      var q := Look(View(), Queue, queue);
      if q.Err? { return Err(q.error); }
      if q.value.slot.resource.None? { return Err(ReleasePending); }
      var p := Look(View(), Program, program);
      if p.Err? { return Err(p.error); }
      if p.value.slot.resource.None? { return Err(ReleasePending); }
      if !q.value.QueueRecord? || !p.value.ProgramRecord? || p.value.context != q.value.context {
        return Err(ContextMismatch);
      }
      var context := q.value.context;
      assert ids[0..] == ids;
      for i := 0 to |ids|
        invariant BufferFault(View(), context, ids) == BufferFault(View(), context, ids[i..])
      {
        assert ids[i..][0] == ids[i] && ids[i..][1..] == ids[i + 1..];
        var b := Look(View(), Buffer, ids[i]);
        if b.Err? { return Err(b.error); }
        if b.value.slot.resource.None? { return Err(ReleasePending); }
        if !b.value.BufferRecord? || b.value.context != context { return Err(ContextMismatch); }
      }
      return Ok(context);
    }

    static method ReferEach(table: Table<Record>, ids: seq<Id>, n: int) returns (r: Table<Record>)
      ensures r == ReferAll(table, ids, n)
    {
      hide Refer;
      r := table;
      for i := 0 to |ids|
        invariant r == ReferAll(table, ids[..i], n)
      {
        r := Refer(r, ids[i], n);
        assert ids[..i + 1][..i] == ids[..i];
      }
      assert ids[..|ids|] == ids;
    }

    /** Take (`n == 1`) or drop (`n == -1`) the references of one event. */
    method ShiftReferences(e: Record, n: int)
      requires Submittable(View(), e)
      modifies this`tables
      ensures View() == WithRefs(old(View()), e, n)
    {
      hide Get, Refer, ReferAll, Store, Valid, ValidLimits, TableLimit, InContext, WithChild;
      ghost var g := View();
      tables := tables[Queue := Refer(tables[Queue], e.queue, n)];
      tables := tables[Program := Refer(tables[Program], e.program, n)];
      var buffers := ReferEach(tables[Buffer], e.buffers, n);
      tables := tables[Buffer := buffers];
      assert View() == LeafRefs(g, e, n);
      var found := Look(View(), Context, e.context);
      var c := found.value;
      tables := tables[Context := Store(tables[Context], e.context,
                                        c.(children := WithChild(c.children, Event, c.children.events + n)))];
    }

    method CommitEvent(id: Id) returns (r: Result<(), StateError>)
      requires Inv(View())
      modifies this
      ensures Inv(View())
      ensures r.Ok? <==> old(Alive(View(), Event, id)) && old(Rec(View(), Event, id)).slot.release == Releasing
      ensures r.Err? ==> View() == old(View())
      ensures r.Ok? ==> old(Rec(View(), Event, id)).EventRecord? && View() == old(DroppedEvent(View(), id))
    {
      hide Get, Removed, Valid, Tally, ValidLimits, TableLimit, WithRefs, RecordOk;
      ghost var g := View();
      var found := Look(View(), Event, id);
      if found.Err? { return Err(found.error); }
      var record := found.value;
      if record.slot.release != Releasing { return Err(InvalidTransition); }
      EventRevalidates(g, id);
      var valid := ValidateSubmission(record.queue, record.program, record.buffers);
      assert valid.Ok?;
      DropIsSubmittable(g, id);
      DroppedEventKeepsInv(g, id);
      tables := tables[Event := Removed(tables[Event], id)];
      ShiftReferences(record, -1);
      return Ok(());
    }

    method CommitOwned(k: Kind, id: Id) returns (r: Result<(), StateError>)
      requires Inv(View()) && k != Event
      modifies this
      ensures Inv(View())
      ensures r.Ok? <==> old(Alive(View(), k, id)) && old(Rec(View(), k, id)).slot.release == Releasing
      ensures r.Err? ==> View() == old(View())
      ensures r.Ok? ==> View() == old(Unowned(View(), k, id))
    {
      hide Get, Store, Removed, Valid, ValidLimits, TableLimit, Inv, Charge, Held, Child, WithChild, Unowned;
      ghost var g := View();
      InvShape(g);
      var found := Look(View(), k, id);
      if found.Err? { return Err(found.error); }
      var record := found.value;
      if record.slot.release != Releasing { return Err(InvalidTransition); }
      OwnedFacts(g, k, id);
      UnownedKeepsInv(g, k, id);
      UnownedForm(g, k, id);
      tables := tables[k := Removed(tables[k], id)];
      if k == Buffer { backing := backing - Charge(record); }
      if k == Program { resident := resident - Charge(record); }
      if k != Context {
        var c := Get(tables[Context], record.context).value;
        tables := tables[Context :=
          Store(tables[Context], record.context, c.(children := WithChild(c.children, k, Child(c.children, k) - 1)))];
      }
      return Ok(());
    }

    /** Remove a record whose release the provider has settled. Given the invariant, a releasing
        record can always be committed: its parent is there and its event still validates. */
    method Commit(k: Kind, id: Id) returns (r: Result<(), StateError>)
      requires Inv(View())
      modifies this
      ensures Inv(View())
      ensures r.Ok? <==> old(Alive(View(), k, id)) && old(Rec(View(), k, id)).slot.release == Releasing
      ensures r.Err? ==> View() == old(View())
      ensures r.Ok? ==> (k == Event ==> old(Rec(View(), k, id)).EventRecord?) && View() == old(Committed(View(), k, id))
    {
      hide Get, Inv, Unowned, DroppedEvent, Valid;
      if k == Event { r := CommitEvent(id); } else { r := CommitOwned(k, id); }
    }

    /** Validate a submission and take its references, before the provider is asked to accept it.
        The reference-count overflow check cannot fire. */
    method BeginEvent(queue: Id, program: Id, ids: seq<Id>, memory: bool) returns (r: Result<Record, StateError>)
      requires Inv(View())
      modifies this
      ensures r == old(EventCheck(View(), queue, program, ids, memory))
      ensures r.Err? ==> View() == old(View())
      ensures r.Ok? ==> r.value.EventRecord? && View() == old(WithRefs(View(), r.value, 1))
    {
      hide Get, Valid, Tally, ValidLimits, TableLimit, WithRefs, ContextOk, LeafOk, SlotOk;
      ghost var g := View();
      if |ids| == 0 { return Err(InvalidArgument); }
      if |ids| > limits.maxBindings { return Err(ResourceLimit); }
      var context := ValidateSubmission(queue, program, ids);
      if context.Err? { return Err(context.error); }
      var c := Look(View(), Context, context.value);
      if c.Err? { return Err(c.error); }
      if !c.value.ContextRecord? || c.value.children.events >= limits.maxEvents { return Err(ResourceLimit); }
      var full := ReserveCheck(View(), Event, memory);
      if full.Some? { return Err(full.value); }
      var sorted := SortByKey(ids, RawKey);
      var e := EventRecord(ResourceSlot(None, Releasing), context.value, queue, program, sorted);
      SubmissionFits(g, queue, program, ids, memory);
      var fits := CheckReferenceIncrements(queue, program, sorted);
      assert fits.Ok?;
      ShiftReferences(e, 1);
      return Ok(e);
    }

    /** Record the event of an accepted submission. `g` is the graph before `BeginEvent`. */
    method FinishEvent(ghost g: Graph, e: Record, h: Handle) returns (id: Id)
      requires e.EventRecord? && AdmissibleEvent(g, WithSlot(e, Some(h)))
      requires View() == WithRefs(g, e, 1)
      modifies this
      ensures View() == AdmittedEvent(g, WithSlot(e, Some(h))) && Inv(View())
      ensures id == InsertedId(g.tables[Event])
      ensures !Alive(g, Event, id) && Alive(View(), Event, id) && Rec(View(), Event, id) == WithSlot(e, Some(h))
    {
      hide Get, Inserted, InsertedId, CanInsert, Valid, Tally, ValidLimits, TableLimit, LeafRefs, AddChild, RecordOk,
           Weight;
      ghost var e' := WithSlot(e, Some(h));
      assert WithRefs(g, e', 1) == View() by { SlotDoesNotMatter(g, e, h); }
      InvSubmittable(g, e');
      WithRefsFacts(g, e', 1);
      AdmittedEventKeepsInv(g, e');
      AdmittedEventFacts(g, e');
      id := InsertedId(tables[Event]);
      tables := tables[Event := Inserted(tables[Event], WithSlot(e, Some(h)))];
    }

    /** Drop the references of a submission the provider did not accept: nothing has changed. */
    method AbortEvent(ghost g: Graph, e: Record)
      requires Inv(g) && e.EventRecord? && EventOk(g, e) && View() == WithRefs(g, e, 1)
      modifies this
      ensures View() == g
    {
      hide Get, WithRefs, Valid, Tally, ValidLimits, TableLimit, RecordOk, Weight;
      RefsUndone(g, e);
      InvSubmittable(g, e);
      WithRefsFacts(g, e, 1);
      assert Submittable(View(), e);
      ShiftReferences(e, -1);
    }
  }

  predicate SomeZero(l: Limits) {
    || l.maxContexts == 0 || l.maxBuffers == 0 || l.maxPrograms == 0 || l.maxQueues == 0 || l.maxEvents == 0
    || l.maxBufferBytes == 0 || l.maxArtifactBytes == 0
  }

  /** Construction rejects exactly the limits whose tables or counters would not fit. */
  method NewDeviceState(namespace: nat, limits: Limits, policy: Policy) returns (r: Result<DeviceState, ConfigError>)
    requires namespace < U16 && limits.maxContexts < U32
    ensures r.Ok? <==> ValidLimits(limits)
    ensures r == Err(ZeroLimit) <==> SomeZero(limits)
    ensures r == Err(BindingLimit) <==> !SomeZero(limits) && !(1 <= limits.maxBindings <= HARD_MAX_BINDINGS)
    ensures r == Err(CounterOverflow) ==> limits.maxEvents * limits.maxBindings >= U32
    ensures r == Err(CountOverflow) ==>
              && limits.maxEvents * limits.maxBindings < U32
              && exists k :: k != Context && TableLimit(limits, k) >= U32
    ensures r.Ok? ==> fresh(r.value) && r.value.View() == NewGraph(namespace, limits, policy) && Inv(r.value.View())
  {
    hide Inv, NewGraph;
    if SomeZero(limits) { return Err(ZeroLimit); }
    if !(1 <= limits.maxBindings <= HARD_MAX_BINDINGS) { return Err(BindingLimit); }
    if limits.maxEvents * limits.maxBindings >= U32 { return Err(CounterOverflow); }
    if TableLimit(limits, Buffer) >= U32 { return Err(CountOverflow); }
    if TableLimit(limits, Program) >= U32 { return Err(CountOverflow); }
    if TableLimit(limits, Queue) >= U32 { return Err(CountOverflow); }
    if TableLimit(limits, Event) >= U32 { return Err(CountOverflow); }
    var state := new DeviceState(namespace, limits, policy);
    return Ok(state);
  }

  lemma SlotDoesNotMatter(g: Graph, e: Record, h: Handle)
    requires Queue in g.tables && Program in g.tables && Buffer in g.tables && e.EventRecord?
    ensures WithRefs(g, WithSlot(e, Some(h)), 1) == WithRefs(g, e, 1)
  {
    hide Refer, ReferAll, AddChild;
  }
}
