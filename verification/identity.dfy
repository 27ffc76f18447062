/** How identifiers age: what was issued stays issued, and what has died stays dead. */
module Identities {
  import opened Bytes
  import opened ObjectTables
  import opened Graphs
  import opened GraphLaws
  import opened DeviceStates
  import opened GraphEffects

  predicate IssuedIn(g: Graph, k: Kind, id: Id) { k in g.tables && Issued(g.tables[k], id) }

  ghost predicate TableAges(t: Table<Record>, t': Table<Record>) {
    forall x: Id | Issued(t, x) :: Issued(t', x) && (Has(t', x) ==> Has(t, x))
  }

  ghost predicate Ages(g: Graph, g': Graph) {
    forall k | k in g.tables :: k in g'.tables && TableAges(g.tables[k], g'.tables[k])
  }

  /** `g'` is a later state of the same device under the same namespace. */
  ghost predicate Descends(g: Graph, g': Graph) {
    g'.namespace == g.namespace && g'.limits == g.limits && g'.policy == g.policy && Ages(g, g')
  }

  lemma AgesTransitively(g: Graph, g1: Graph, g2: Graph)
    requires Ages(g, g1) && Ages(g1, g2)
    ensures Ages(g, g2)
  {
    hide Issued, Get;
    forall k | k in g.tables
      ensures k in g2.tables && TableAges(g.tables[k], g2.tables[k])
    {
      assert TableAges(g.tables[k], g1.tables[k]) && TableAges(g1.tables[k], g2.tables[k]);
    }
  }

  lemma DescendsTransitively(g: Graph, g1: Graph, g2: Graph)
    requires Descends(g, g1) && Descends(g1, g2)
    ensures Descends(g, g2)
  {
    hide Ages;
    AgesTransitively(g, g1, g2);
  }

  lemma AgesItself(g: Graph)
    ensures Ages(g, g) && Descends(g, g)
  {
    hide Issued, Get;
  }

  // ------------------------------------------------------------------------------------------
  // Table operations.

  lemma SkeletonAges(t: Table<Record>, t': Table<Record>)
    requires SameSkeleton(t, t')
    ensures TableAges(t, t')
  {}

  lemma InsertAges(t: Table<Record>, r: Record)
    requires ObjectTables.Valid(t) && CanInsert(t)
    ensures TableAges(t, Inserted(t, r)) && !Issued(t, InsertedId(t)) && Has(Inserted(t, r), InsertedId(t))
  {
    hide Issued, Get, Inserted, InsertedId, CanInsert, ObjectTables.Valid;
    InsertGets(t, r);
  }

  lemma RemoveAges(t: Table<Record>, id: Id)
    requires ObjectTables.Valid(t) && Has(t, id)
    ensures TableAges(t, Removed(t, id))
  {
    hide Issued, Get, Removed, ObjectTables.Valid;
    RemoveGets(t, id);
  }

  // ------------------------------------------------------------------------------------------
  // Graph operations.

  lemma TableAgesItself(t: Table<Record>)
    ensures TableAges(t, t)
  {
    hide Issued, Get;
  }

  lemma OneTableAges(g: Graph, g': Graph, k: Kind)
    requires k in g.tables && k in g'.tables && g'.tables == g.tables[k := g'.tables[k]]
             && TableAges(g.tables[k], g'.tables[k])
    ensures Ages(g, g')
  {
    hide TableAges;
    forall j | j in g.tables
      ensures j in g'.tables && TableAges(g.tables[j], g'.tables[j])
    {
      if j != k { TableAgesItself(g.tables[j]); }
    }
  }

  lemma StoreRecAges(g: Graph, k: Kind, id: Id, r: Record)
    requires Alive(g, k, id) && ObjectTables.Valid(g.tables[k])
    ensures Ages(g, StoreRec(g, k, id, r))
  {
    hide Get, Store, ObjectTables.Valid, TableAges, SameSkeleton;
    StoreKeepsValid(g.tables[k], id, r);
    SkeletonAges(g.tables[k], Store(g.tables[k], id, r));
    OneTableAges(g, StoreRec(g, k, id, r), k);
  }

  lemma AddChildAges(g: Graph, context: Id, k: Kind, delta: int)
    requires Context in g.tables ==> ObjectTables.Valid(g.tables[Context])
    ensures Ages(g, AddChild(g, context, k, delta))
  {
    hide Get, Store, ObjectTables.Valid, Ages, WithChild, Child;
    if Alive(g, Context, context) && Rec(g, Context, context).ContextRecord? {
      var r := Rec(g, Context, context);
      StoreRecAges(g, Context, context, r.(children := WithChild(r.children, k, Child(r.children, k) + delta)));
    } else {
      AgesItself(g);
    }
  }

  lemma RetainAges(g: Graph, k: Kind, delta: int)
    ensures Ages(g, Retain(g, k, delta))
  {
    hide TableAges;
    forall j | j in g.tables
      ensures TableAges(g.tables[j], g.tables[j])
    {
      TableAgesItself(g.tables[j]);
    }
  }

  lemma ReSlotAges(g: Graph, k: Kind, id: Id, resource: Option<Handle>)
    requires Shape(g) && Alive(g, k, id)
    ensures Descends(g, ReSlot(g, k, id, resource))
  {
    hide Get, Store, Ages, ObjectTables.Valid, ValidLimits, TableLimit;
    StoreRecAges(g, k, id, WithSlot(Rec(g, k, id), resource));
  }

  /** Admission issues an identifier that had never been issued. */
  lemma AdmittedAges(g: Graph, r: Record)
    requires Admissible(g, r)
    ensures Descends(g, Admitted(g, r))
    ensures var id := InsertedId(g.tables[KindOf(r)]);
            !IssuedIn(g, KindOf(r), id) && Alive(Admitted(g, r), KindOf(r), id)
  {
    hide Get, Inserted, InsertedId, CanInsert, AddChild, ObjectTables.Valid, ValidLimits, TableLimit, RecordOk, Tally,
         Ages, Issued;
    var k := KindOf(r);
    AdmittedFacts(g, r);
    InsertAges(g.tables[k], r);
    var g1 := InsertRec(g, r);
    InsertRecFacts(g, r);
    OneTableAges(g, g1, k);
    RetainAges(g1, k, Charge(r));
    var g2 := Retain(g1, k, Charge(r));
    AgesTransitively(g, g1, g2);
    if !r.ContextRecord? {
      AddChildAges(g2, r.context, k, 1);
      AgesTransitively(g, g2, Admitted(g, r));
    }
  }

  lemma UnownedAges(g: Graph, k: Kind, id: Id)
    requires Inv(g) && Alive(g, k, id) && k != Event
    ensures Descends(g, Unowned(g, k, id))
  {
    hide Get, Removed, AddChild, ObjectTables.Valid, ValidLimits, TableLimit, RecordOk, Tally, Ages, Issued, Charge,
         Held;
    var r := Rec(g, k, id);
    UnownedFacts(g, k, id);
    RemoveAges(g.tables[k], id);
    var g1 := RemoveRec(g, k, id);
    RemoveRecFacts(g, k, id);
    OneTableAges(g, g1, k);
    RetainAges(g1, k, 0 - Charge(r));
    var g2 := Retain(g1, k, 0 - Charge(r));
    AgesTransitively(g, g1, g2);
    if !r.ContextRecord? {
      AddChildAges(g2, r.context, k, -1);
      AgesTransitively(g, g2, Unowned(g, k, id));
    }
  }

  lemma WithRefsAges(g: Graph, e: Record, n: int)
    requires Submittable(g, e)
    ensures Descends(g, WithRefs(g, e, n))
  {
    hide Get, WithRefs, ObjectTables.Valid, ValidLimits, TableLimit, Tally, SameSkeleton, TableAges, EventOk,
         Rereferenced;
    WithRefsFacts(g, e, n);
    var g' := WithRefs(g, e, n);
    forall k | k in g.tables
      ensures k in g'.tables && TableAges(g.tables[k], g'.tables[k])
    {
      assert SameSkeleton(T(g, k), T(g', k));
      SkeletonAges(g.tables[k], g'.tables[k]);
    }
  }

  lemma AdmittedEventAges(g: Graph, e: Record)
    requires AdmissibleEvent(g, e)
    ensures Descends(g, AdmittedEvent(g, e))
    ensures var id := InsertedId(g.tables[Event]); !IssuedIn(g, Event, id) && Alive(AdmittedEvent(g, e), Event, id)
  {
    hide Get, WithRefs, Inserted, InsertedId, CanInsert, ObjectTables.Valid, ValidLimits, TableLimit, RecordOk, Tally,
         Ages, Issued, EventOk, Weight, Rereferenced;
    AdmittedEventFacts(g, e);
    InvSubmittable(g, e);
    WithRefsFacts(g, e, 1);
    WithRefsAges(g, e, 1);
    var g1 := WithRefs(g, e, 1);
    InsertAges(g.tables[Event], e);
    OneTableAges(g1, AdmittedEvent(g, e), Event);
    AgesTransitively(g, g1, AdmittedEvent(g, e));
  }

  lemma DroppedEventAges(g: Graph, id: Id)
    requires Inv(g) && Alive(g, Event, id) && Rec(g, Event, id).EventRecord?
    ensures Descends(g, DroppedEvent(g, id))
  {
    hide Get, WithRefs, Removed, ObjectTables.Valid, ValidLimits, TableLimit, RecordOk, Tally, Ages, Issued, EventOk;
    RemoveAges(g.tables[Event], id);
    var g1 := RemoveRec(g, Event, id);
    OneTableAges(g, g1, Event);
    DropIsSubmittable(g, id);
    WithRefsAges(g1, Rec(g, Event, id), -1);
    AgesTransitively(g, g1, DroppedEvent(g, id));
  }

  lemma CommittedAges(g: Graph, k: Kind, id: Id)
    requires Inv(g) && Alive(g, k, id) && Rec(g, k, id).slot.release == Releasing
    ensures k == Event ==> Rec(g, k, id).EventRecord?
    ensures Descends(g, Committed(g, k, id))
  {
    hide Get, Unowned, DroppedEvent, ObjectTables.Valid, ValidLimits, TableLimit, RecordOk, Tally, Descends;
    CommittedKeepsInv(g, k, id);
    if k == Event { DroppedEventAges(g, id); } else { UnownedAges(g, k, id); }
  }

  /** However a release ends, identifiers only age. */
  lemma ReleaseAges(g: Graph, k: Kind, id: Id, h: Handle)
    requires Inv(g) && Releasable(g, k, id)
    ensures Descends(g, ReSlot(g, k, id, None))
    ensures Descends(g, ReleasedGraph(g, k, id))
    ensures Descends(g, RejectedGraph(g, k, id, h))
  {
    hide Get, ReSlot, Committed, ObjectTables.Valid, ValidLimits, TableLimit, RecordOk, Tally, Descends, Held;
    BegunEffect(g, k, id);
    var g1 := ReSlot(g, k, id, None);
    ReSlotAges(g, k, id, None);
    CommittedAges(g1, k, id);
    ReSlotAges(g1, k, id, Some(h));
    DescendsTransitively(g, g1, ReleasedGraph(g, k, id));
    DescendsTransitively(g, g1, RejectedGraph(g, k, id, h));
  }
}
