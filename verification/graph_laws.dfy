/** Every graph operation keeps the graph invariant. */
module GraphLaws {
  import opened Bytes
  import opened ObjectTables
  import opened Graphs

  lemma TableExtensional(t: Table<Record>, t': Table<Record>)
    requires Valid(t) && SameSkeleton(t, t') && forall x | Has(t, x) :: Get(t', x) == Get(t, x)
    ensures t' == t
  {
    forall i | 0 <= i < |t.slots|
      ensures t'.slots[i] == t.slots[i]
    {
      var id := NewId(i, t.namespace, t.slots[i].generation, t.kind);
      assert Has(t, id) ==> Get(t', id) == Get(t, id);
    }
    assert t'.slots == t.slots;
  }

  // ------------------------------------------------------------------------------------------
  // What each primitive update leaves alone.

  lemma StoreRecFacts(g: Graph, k: Kind, id: Id, r: Record)
    requires Shape(g) && Alive(g, k, id)
    ensures Shape(StoreRec(g, k, id, r))
    ensures forall j, x :: Alive(StoreRec(g, k, id, r), j, x) <==> Alive(g, j, x)
    ensures forall j, x | Alive(g, j, x) ::
              Rec(StoreRec(g, k, id, r), j, x) == if j == k && x == id then r else Rec(g, j, x)
    ensures forall j :: SameSkeleton(T(g, j), T(StoreRec(g, k, id, r), j))
    ensures forall m :: Tally(T(StoreRec(g, k, id, r), k).slots, m)
                        == Tally(T(g, k).slots, m) - Weight(m, Rec(g, k, id)) + Weight(m, r)
  {
    hide Get, Store, Valid, Tally, Weight, ValidLimits, TableLimit;
    StoreKeepsValid(g.tables[k], id, r);
    StoreGets(g.tables[k], id, r);
    TallyStore(g.tables[k], id, r);
  }

  lemma InsertRecFacts(g: Graph, r: Record)
    requires Shape(g) && CanInsert(g.tables[KindOf(r)])
    ensures var k := KindOf(r); var id := InsertedId(g.tables[k]); var g' := InsertRec(g, r);
            && Shape(g') && !Alive(g, k, id) && Alive(g', k, id) && Rec(g', k, id) == r
            && (forall j, x :: Alive(g', j, x) <==> Alive(g, j, x) || (j == k && x == id))
            && (forall j, x | Alive(g, j, x) :: Rec(g', j, x) == Rec(g, j, x))
            && (forall m :: Tally(T(g', k).slots, m) == Tally(T(g, k).slots, m) + Weight(m, r))
            && g'.(tables := g.tables) == g && (forall j | j != k :: T(g', j) == T(g, j))
  {
    hide Get, Inserted, InsertedId, CanInsert, Valid, Tally, Weight, ValidLimits, TableLimit, KindOf;
    var t := g.tables[KindOf(r)];
    InsertKeepsValid(t, r);
    InsertGets(t, r);
    TallyInsert(t, r);
  }

  lemma RemoveRecFacts(g: Graph, k: Kind, id: Id)
    requires Shape(g) && Alive(g, k, id)
    ensures var g' := RemoveRec(g, k, id);
            && Shape(g') && !Alive(g', k, id)
            && (forall j, x :: Alive(g', j, x) <==> Alive(g, j, x) && !(j == k && x == id))
            && (forall j, x | Alive(g', j, x) :: Rec(g', j, x) == Rec(g, j, x))
            && (forall m :: Tally(T(g', k).slots, m) == Tally(T(g, k).slots, m) - Weight(m, Rec(g, k, id)))
            && g'.(tables := g.tables) == g && (forall j | j != k :: T(g', j) == T(g, j))
  {
    hide Get, Removed, Valid, Tally, Weight, ValidLimits, TableLimit;
    RemoveKeepsValid(g.tables[k], id);
    RemoveGets(g.tables[k], id);
    TallyRemove(g.tables[k], id);
  }

  // ------------------------------------------------------------------------------------------
  // Release transitions.

  lemma ReSlotFacts(g: Graph, k: Kind, id: Id, resource: Option<Handle>)
    requires Shape(g) && Alive(g, k, id)
    ensures var g' := ReSlot(g, k, id, resource);
            && Shape(g') && g'.(tables := g.tables) == g
            && (forall j, x :: Alive(g', j, x) <==> Alive(g, j, x))
            && (forall j, x | Alive(g, j, x) ::
                  Rec(g', j, x) == if j == k && x == id then WithSlot(Rec(g, k, id), resource) else Rec(g, j, x))
            && (forall j, m :: Tally(T(g', j).slots, m) == Tally(T(g, j).slots, m))
  {
    hide Get, Store, Valid, Tally, ValidLimits, TableLimit;
    StoreRecFacts(g, k, id, WithSlot(Rec(g, k, id), resource));
  }

  lemma ReSlotKeepsInv(g: Graph, k: Kind, id: Id, resource: Option<Handle>)
    requires Inv(g) && Alive(g, k, id)
    requires resource.None? ==> !Held(Rec(g, k, id))
    ensures Inv(ReSlot(g, k, id, resource))
  {
    hide Get, ReSlot, Valid, Tally, Weight, ValidLimits, TableLimit, RecordOk;
    ReSlotFacts(g, k, id, resource);
    forall j, x | Alive(ReSlot(g, k, id, resource), j, x)
      ensures RecordOk(ReSlot(g, k, id, resource), j, x)
    {
      ReSlotRecordOk(g, k, id, resource, j, x);
    }
  }

  /** Moving resources changes nothing that a record's counters, parents or references depend on. */
  lemma ReSlotRecordOk(g: Graph, k: Kind, id: Id, resource: Option<Handle>, j: Kind, x: Id)
    requires Inv(g) && Alive(g, k, id) && Shape(ReSlot(g, k, id, resource)) && Alive(ReSlot(g, k, id, resource), j, x)
    requires resource.None? ==> !Held(Rec(g, k, id))
    ensures RecordOk(ReSlot(g, k, id, resource), j, x)
  {
    hide Get, ReSlot, Inv, Shape, ContextOk, LeafOk, EventOk;
    RecordIsOk(g, k, id);
    ReSlotFacts(g, k, id, resource);
    RecordIsOk(g, j, x);
    var g', s := ReSlot(g, k, id, resource), Rec(g, j, x);
    var s' := Rec(g', j, x);
    ContextStays(g, g', x, s, s');
    LeafStays(g, g', j, x, s, s');
    EventStays(g, g', s, s');
  }

  lemma RecordIsOk(g: Graph, k: Kind, id: Id)
    requires Inv(g) && Alive(g, k, id)
    ensures Shape(g) && RecordOk(g, k, id)
  {
    hide Get, Valid, Tally, ValidLimits, TableLimit, RecordOk;
  }

  lemma ContextStays(g: Graph, g': Graph, id: Id, r: Record, r': Record)
    requires Shape(g) && Shape(g') && g'.limits == g.limits && r' == r.(slot := r'.slot) && ContextOk(g, id, r)
    requires forall k, m :: Tally(T(g', k).slots, m) == Tally(T(g, k).slots, m)
    ensures ContextOk(g', id, r')
  {
    hide Shape, Tally, PerContext;
  }

  lemma LeafStays(g: Graph, g': Graph, k: Kind, id: Id, r: Record, r': Record)
    requires Shape(g) && Shape(g') && r' == r.(slot := r'.slot) && LeafOk(g, k, id, r)
    requires forall j, x :: Alive(g', j, x) <==> Alive(g, j, x)
    requires forall j, m :: Tally(T(g', j).slots, m) == Tally(T(g, j).slots, m)
    ensures LeafOk(g', k, id, r')
  {
    hide Shape, Tally, Get;
  }

  lemma EventStays(g: Graph, g': Graph, r: Record, r': Record)
    requires Shape(g) && Shape(g') && g'.limits == g.limits && r' == r.(slot := r'.slot) && EventOk(g, r)
    requires forall j, x :: Alive(g', j, x) <==> Alive(g, j, x)
    requires forall j, x | Alive(g, j, x) :: Rec(g', j, x) == Rec(g, j, x).(slot := Rec(g', j, x).slot)
    ensures EventOk(g', r')
  {
    hide Shape, Get;
  }

  /** A record that nothing holds is named by no live record. */
  lemma UnheldIsUnnamed(g: Graph, k: Kind, id: Id)
    requires Inv(g) && Alive(g, k, id) && !Held(Rec(g, k, id))
    ensures k == Context ==> forall j, x | Alive(g, j, x) && !Rec(g, j, x).ContextRecord? :: Rec(g, j, x).context != id
    ensures k == Queue ==>
              forall x | Alive(g, Event, x) && Rec(g, Event, x).EventRecord? :: Rec(g, Event, x).queue != id
    ensures k == Program ==>
              forall x | Alive(g, Event, x) && Rec(g, Event, x).EventRecord? :: Rec(g, Event, x).program != id
    ensures k == Buffer ==>
              forall x | Alive(g, Event, x) && Rec(g, Event, x).EventRecord? :: id !in Rec(g, Event, x).buffers
  {
    hide Get, Store, Inserted, InsertedId, CanInsert, Removed, Valid, Tally, ValidLimits, TableLimit;
    assert RecordOk(g, k, id);
    forall j, x | Alive(g, j, x)
      ensures k == Context && j != Context ==> Rec(g, j, x).context != id
      ensures k == Queue && j == Event ==> Rec(g, j, x).queue != id
      ensures k == Program && j == Event ==> Rec(g, j, x).program != id
      ensures k == Buffer && j == Event ==> id !in Rec(g, j, x).buffers
    {
      assert RecordOk(g, j, x);
      if k == Context && j != Context {
        TallyMember(T(g, j), x, Owned(id));
      } else if k != Context && k != Event && j == Event {
        TallyMember(T(g, Event), x, Uses(k, id));
      }
    }
  }

  lemma AddChildFacts(g: Graph, context: Id, k: Kind, delta: int)
    requires Shape(g) && Alive(g, Context, context) && Rec(g, Context, context).ContextRecord?
    ensures var g' := AddChild(g, context, k, delta); var c := Rec(g, Context, context);
            && Shape(g') && g'.(tables := g.tables) == g
            && (forall j, x :: Alive(g', j, x) <==> Alive(g, j, x))
            && (forall j, x | Alive(g, j, x) && !(j == Context && x == context) :: Rec(g', j, x) == Rec(g, j, x))
            && Rec(g', Context, context) == c.(children := WithChild(c.children, k, Child(c.children, k) + delta))
            && (forall j, m :: Tally(T(g', j).slots, m) == Tally(T(g, j).slots, m))
            && (forall j :: SameSkeleton(T(g, j), T(g', j)))
  {
    hide Get, Store, Valid, Tally, ValidLimits, TableLimit, Child, WithChild, SameSkeleton;
    var c := Rec(g, Context, context);
    StoreRecFacts(g, Context, context, c.(children := WithChild(c.children, k, Child(c.children, k) + delta)));
  }

  lemma RetainFacts(g: Graph, k: Kind, delta: int)
    ensures var g' := Retain(g, k, delta);
            && g'.tables == g.tables && (Shape(g) ==> Shape(g'))
            && g'.(backing := g.backing, resident := g.resident) == g
            && g'.backing == g.backing + (if k == Buffer then delta else 0)
            && g'.resident == g.resident + (if k == Program then delta else 0)
            && (forall j, x :: Alive(g', j, x) <==> Alive(g, j, x))
            && (forall j, x | Alive(g, j, x) :: Rec(g', j, x) == Rec(g, j, x))
  {
    hide Get, Valid, ValidLimits, TableLimit;
  }

  lemma OwnerIsThere(g: Graph, k: Kind, id: Id)
    requires Inv(g) && Alive(g, k, id) && k != Event
    ensures Shape(g) && KindOf(Rec(g, k, id)) == k
    ensures var r := Rec(g, k, id);
            k != Context ==> Alive(g, Context, r.context) && Rec(g, Context, r.context).ContextRecord?
  {
    hide Get, Valid, Tally, ValidLimits, TableLimit;
    assert RecordOk(g, k, id);
    var r := Rec(g, k, id);
    if k != Context { assert RecordOk(g, Context, r.context); }
  }

  lemma UnownedFacts(g: Graph, k: Kind, id: Id)
    requires Inv(g) && Alive(g, k, id) && k != Event
    ensures var g' := Unowned(g, k, id); var r := Rec(g, k, id);
            && Shape(g') && g'.(tables := g.tables, backing := g.backing, resident := g.resident) == g
            && g'.backing == g.backing - (if k == Buffer then Charge(r) else 0)
            && g'.resident == g.resident - (if k == Program then Charge(r) else 0)
            && (forall j, x :: Alive(g', j, x) <==> Alive(g, j, x) && !(j == k && x == id))
            && (forall j, x | Alive(g', j, x) && (k == Context || !(j == Context && x == r.context)) ::
                  Rec(g', j, x) == Rec(g, j, x))
            && (k != Context ==>
                  && Alive(g', Context, r.context)
                  && var c := Rec(g, Context, r.context);
                     Rec(g', Context, r.context) == c.(children := WithChild(c.children, k, Child(c.children, k) - 1)))
            && (forall m :: Tally(T(g', k).slots, m) == Tally(T(g, k).slots, m) - Weight(m, r))
            && (forall j, m | j != k :: Tally(T(g', j).slots, m) == Tally(T(g, j).slots, m))
  {
    hide Get, Inv, RemoveRec, Retain, AddChild, Valid, Tally, Weight, ValidLimits, TableLimit, Child, WithChild, Charge,
         SameSkeleton;
    OwnerIsThere(g, k, id);
    var r := Rec(g, k, id);
    RemoveRecFacts(g, k, id);
    var g1 := RemoveRec(g, k, id);
    RetainFacts(g1, k, 0 - Charge(r));
    if k != Context {
      AddChildFacts(Retain(g1, k, 0 - Charge(r)), r.context, k, -1);
    }
  }

  /** Removing an unheld context, buffer, program or queue, with its parent's counter and its
      retained bytes, keeps the graph exact. */
  lemma UnownedKeepsInv(g: Graph, k: Kind, id: Id)
    requires Inv(g) && Alive(g, k, id) && k != Event && !Held(Rec(g, k, id))
    ensures Inv(Unowned(g, k, id))
  {
    hide Get, Unowned, Valid, Tally, ValidLimits, TableLimit, RecordOk;
    UnownedFacts(g, k, id);
    forall j, x | Alive(Unowned(g, k, id), j, x)
      ensures RecordOk(Unowned(g, k, id), j, x)
    {
      UnownedRecordOk(g, k, id, j, x);
    }
  }

  lemma UnownedRecordOk(g: Graph, k: Kind, id: Id, j: Kind, x: Id)
    requires Inv(g) && Alive(g, k, id) && k != Event && !Held(Rec(g, k, id)) && Shape(Unowned(g, k, id))
    requires Alive(Unowned(g, k, id), j, x)
    ensures RecordOk(Unowned(g, k, id), j, x)
  {
    hide Get, Inv, Unowned, Valid, Tally, ValidLimits, TableLimit, EventOk;
    RecordIsOk(g, k, id);
    var r, g' := Rec(g, k, id), Unowned(g, k, id);
    UnheldIsUnnamed(g, k, id);
    UnownedFacts(g, k, id);
    RecordIsOk(g, j, x);
    var s := Rec(g', j, x);
    if j == Event {
      UnnamedEventOk(g, g', k, id, s);
    } else {
      NoEvent(g', s);
      if j == Context && k != Context && x == r.context { TallyMember(T(g, k), id, Owned(x)); }
      assert ContextOk(g', x, s);
      assert LeafOk(g', j, x, s);
    }
  }

  lemma NoEvent(g: Graph, r: Record)
    requires Shape(g) && !r.EventRecord?
    ensures EventOk(g, r)
  {}

  /** An event stays valid when an object it does not name goes. */
  lemma UnnamedEventOk(g: Graph, g': Graph, k: Kind, id: Id, r: Record)
    requires Shape(g) && Shape(g') && EventOk(g, r) && r.EventRecord? && g'.limits == g.limits
    requires forall j, x :: Alive(g', j, x) <==> Alive(g, j, x) && !(j == k && x == id)
    requires forall j, x | j != Context && Alive(g', j, x) :: Rec(g', j, x) == Rec(g, j, x)
    requires k == Context ==> r.context != id
    requires k == Queue ==> r.queue != id
    requires k == Program ==> r.program != id
    requires k == Buffer ==> id !in r.buffers
    ensures EventOk(g', r)
  {
    hide Shape, Get;
  }

  // ------------------------------------------------------------------------------------------
  // Admission.

  /** `r` may join the graph as a fresh, unreferenced record. */
  ghost predicate Admissible(g: Graph, r: Record) {
    && Inv(g) && CanInsert(g.tables[KindOf(r)]) && !r.EventRecord?
    && r.slot.resource.Some? && r.slot.release == Live && !Held(r) && Charge(r) < U64
    && (!r.ContextRecord? ==>
          && Alive(g, Context, r.context)
          && Rec(g, Context, r.context).ContextRecord?
          && Rec(g, Context, r.context).slot.release == Live
          && Child(Rec(g, Context, r.context).children, KindOf(r)) < PerContext(g.limits, KindOf(r)))
  }

  lemma {:induction false} UnnamedTally(g: Graph, k: Kind, m: Measure, n: nat)
    requires Inv(g) && n <= |T(g, k).slots|
    requires forall x | Alive(g, k, x) :: Weight(m, Rec(g, k, x)) == 0
    ensures Tally(T(g, k).slots[..n], m) == 0
  {
    hide RecordOk, ValidLimits, TableLimit, Weight;
    if n > 0 {
      var t := T(g, k);
      UnnamedTally(g, k, m, n - 1);
      assert t.slots[..n][..n - 1] == t.slots[..n - 1];
      if t.slots[n - 1].value.Some? {
        var id := NewId(n - 1, t.namespace, t.slots[n - 1].generation, t.kind);
        assert Alive(g, k, id);
      }
    }
  }

  /** No live record names an identifier that does not resolve. */
  lemma FreshIsUnnamed(g: Graph, k: Kind, id: Id)
    requires Inv(g) && !Alive(g, k, id)
    ensures k == Context ==> forall j | j != Context :: Tally(T(g, j).slots, Owned(id)) == 0
    ensures k == Queue || k == Program || k == Buffer ==> Tally(T(g, Event).slots, Uses(k, id)) == 0
  {
    hide Get, Store, Inserted, InsertedId, CanInsert, Removed, Valid, Tally, ValidLimits, TableLimit;
    forall j, x | Alive(g, j, x)
      ensures k == Context ==> Weight(Owned(id), Rec(g, j, x)) == 0
      ensures k == Queue || k == Program || k == Buffer ==> Weight(Uses(k, id), Rec(g, j, x)) == 0
    {
      assert RecordOk(g, j, x);
      var r := Rec(g, j, x);
      assert EventOk(g, r);
      if k == Buffer && r.EventRecord? { assert id !in r.buffers; }
    }
    if k == Context {
      forall j | j != Context
        ensures Tally(T(g, j).slots, Owned(id)) == 0
      {
        UnnamedTally(g, j, Owned(id), |T(g, j).slots|);
        assert T(g, j).slots[..|T(g, j).slots|] == T(g, j).slots;
      }
    } else if k != Event {
      UnnamedTally(g, Event, Uses(k, id), |T(g, Event).slots|);
      assert T(g, Event).slots[..|T(g, Event).slots|] == T(g, Event).slots;
    }
  }

  lemma AdmittedFacts(g: Graph, r: Record)
    requires Admissible(g, r)
    ensures var k := KindOf(r); var id := InsertedId(g.tables[k]); var g' := Admitted(g, r);
            && Shape(g') && g'.(tables := g.tables, backing := g.backing, resident := g.resident) == g
            && g'.backing == g.backing + (if k == Buffer then Charge(r) else 0)
            && g'.resident == g.resident + (if k == Program then Charge(r) else 0)
            && !Alive(g, k, id) && Alive(g', k, id) && Rec(g', k, id) == r
            && (forall j, x :: Alive(g', j, x) <==> Alive(g, j, x) || (j == k && x == id))
            && (forall j, x | Alive(g, j, x) && (k == Context || !(j == Context && x == r.context)) ::
                  Rec(g', j, x) == Rec(g, j, x))
            && (k != Context ==>
                  && Alive(g', Context, r.context)
                  && var c := Rec(g, Context, r.context);
                     Rec(g', Context, r.context) == c.(children := WithChild(c.children, k, Child(c.children, k) + 1)))
            && (forall m :: Tally(T(g', k).slots, m) == Tally(T(g, k).slots, m) + Weight(m, r))
            && (forall j, m | j != k :: Tally(T(g', j).slots, m) == Tally(T(g, j).slots, m))
  {
    hide Get, InsertRec, InsertedId, CanInsert, Retain, AddChild, Valid, Tally, Weight, ValidLimits, TableLimit,
         RecordOk, Child, WithChild, Held, Charge, SameSkeleton;
    InsertRecFacts(g, r);
    RetainFacts(InsertRec(g, r), KindOf(r), Charge(r));
    if !r.ContextRecord? {
      AddChildFacts(Retain(InsertRec(g, r), KindOf(r), Charge(r)), r.context, KindOf(r), 1);
    }
  }

  /** Admitting a fresh record, charged to its context and to the retained bytes, keeps the graph exact. */
  lemma AdmittedKeepsInv(g: Graph, r: Record)
    requires Admissible(g, r)
    ensures Inv(Admitted(g, r))
  {
    hide Get, Admitted, InsertedId, CanInsert, Valid, Tally, ValidLimits, TableLimit, RecordOk;
    AdmittedFacts(g, r);
    var g' := Admitted(g, r);
    forall j, x | Alive(g', j, x)
      ensures RecordOk(g', j, x)
    {
      if Alive(g, j, x) { AdmittedOldOk(g, r, j, x); } else { AdmittedNewOk(g, r); }
    }
  }

  lemma AdmittedOldOk(g: Graph, r: Record, j: Kind, x: Id)
    requires Admissible(g, r) && Shape(Admitted(g, r)) && Alive(g, j, x) && Alive(Admitted(g, r), j, x)
    ensures RecordOk(Admitted(g, r), j, x)
  {
    hide Get, Inv, Admitted, InsertedId, CanInsert, Valid, Tally, ValidLimits, TableLimit;
    AdmittedFacts(g, r);
    RecordIsOk(g, j, x);
    var g', s := Admitted(g, r), Rec(Admitted(g, r), j, x);
    assert SlotOk(s) && ContextOk(g', x, s);
    assert LeafOk(g', j, x, s);
    assert EventOk(g', s);
  }

  lemma AdmittedNewOk(g: Graph, r: Record)
    requires Admissible(g, r)
    ensures Shape(g) && KindOf(r) in g.tables && Valid(g.tables[KindOf(r)])
    ensures var id := InsertedId(g.tables[KindOf(r)]);
            Shape(Admitted(g, r)) && Alive(Admitted(g, r), KindOf(r), id) && RecordOk(Admitted(g, r), KindOf(r), id)
  {
    hide Get, Admitted, InsertedId, CanInsert, Valid, Tally, ValidLimits, TableLimit, RecordOk;
    AdmittedFacts(g, r);
    FreshIsUnnamed(g, KindOf(r), InsertedId(g.tables[KindOf(r)]));
    UnreferencedOk(Admitted(g, r), KindOf(r), InsertedId(g.tables[KindOf(r)]), r);
  }

  /** A record without children or references that nothing names. */
  lemma UnreferencedOk(g: Graph, k: Kind, id: Id, r: Record)
    requires Shape(g) && Alive(g, k, id) && Rec(g, k, id) == r && KindOf(r) == k && !r.EventRecord?
    requires r.slot.resource.Some? && r.slot.release == Live && !Held(r) && Charge(r) < U64
    requires k == Context ==> forall j | j != Context :: Tally(T(g, j).slots, Owned(id)) == 0
    requires k != Context ==> Alive(g, Context, r.context) && Tally(T(g, Event).slots, Uses(k, id)) == 0
    ensures RecordOk(g, k, id)
  {
    hide Get, Valid, Tally, ValidLimits, TableLimit;
  }

  // ------------------------------------------------------------------------------------------
  // Events and the references they hold.

  /** A leaf after `n` more references. */
  function Shifted(r: Record, n: int): Record {
    if IsLeaf(r) then r.(inFlight := r.inFlight + n) else r
  }

  lemma SkeletonItself(t: Table<Record>)
    ensures SameSkeleton(t, t)
  {}

  lemma SkeletonIdentity(t: Table<Record>, t': Table<Record>)
    requires SameSkeleton(t, t')
    ensures SameIdentity(t, t')
  {}

  /** References weigh nothing in any measure. */
  lemma ReferencesWeighNothing(r: Record, n: int)
    requires IsLeaf(r)
    ensures forall m :: Weight(m, r.(inFlight := n)) == Weight(m, r)
  {}

  lemma ReferFacts(t: Table<Record>, id: Id, n: int)
    requires Valid(t) && Has(t, id)
    ensures var t' := Refer(t, id, n);
            && Valid(t') && SameSkeleton(t, t')
            && (forall x | x != id :: Get(t', x) == Get(t, x))
            && Get(t', id) == Ok(Shifted(Get(t, id).value, n))
            && (forall m :: Tally(t'.slots, m) == Tally(t.slots, m))
  {
    hide Get, Store, Valid, SameSkeleton, Tally, Weight;
    var r := Get(t, id).value;
    if IsLeaf(r) {
      var r' := r.(inFlight := r.inFlight + n);
      StoreKeepsValid(t, id, r');
      StoreGets(t, id, r');
      TallyStore(t, id, r');
      ReferencesWeighNothing(r, r.inFlight + n);
    } else {
      SkeletonItself(t);
    }
  }

  lemma ShiftedTwice(r: Record, front: seq<Id>, last: Id, x: Id, n: int)
    ensures var all := multiset(front + [last])[x];
            Shifted(r, n * all) == if x == last then Shifted(Shifted(r, n * multiset(front)[x]), n)
                                   else Shifted(r, n * multiset(front)[x])
  {
    if x == last {
      assert multiset(front + [last])[x] == multiset(front)[x] + 1;
      assert n * (multiset(front)[x] + 1) == n * multiset(front)[x] + n;
    } else {
      assert multiset(front + [last])[x] == multiset(front)[x];
    }
  }

  lemma {:induction false} ReferAllFacts(t: Table<Record>, ids: seq<Id>, n: int)
    requires Valid(t) && forall x | x in ids :: Has(t, x)
    ensures var t' := ReferAll(t, ids, n);
            && Valid(t') && SameSkeleton(t, t')
            && (forall x | !Has(t, x) :: Get(t', x) == Get(t, x))
            && (forall x | Has(t, x) :: Get(t', x) == Ok(Shifted(Get(t, x).value, n * multiset(ids)[x])))
            && (forall m :: Tally(t'.slots, m) == Tally(t.slots, m))
  {
    hide Get, Refer, Valid, Tally, Shifted;
    if ids == [] {
      assert forall r :: Shifted(r, n * 0) == r by { forall r ensures Shifted(r, n * 0) == r { NotShifted(r, n); } }
    } else {
      var front, last := ids[..|ids| - 1], ids[|ids| - 1];
      assert ids == front + [last];
      ReferAllFacts(t, front, n);
      ReferFacts(ReferAll(t, front, n), last, n);
      forall x | Has(t, x)
        ensures Get(ReferAll(t, ids, n), x) == Ok(Shifted(Get(t, x).value, n * multiset(ids)[x]))
      {
        ShiftedTwice(Get(t, x).value, front, last, x, n);
      }
    }
  }

  lemma NotShifted(r: Record, n: int)
    ensures Shifted(r, n * 0) == r
  {}

  /** How taking or dropping the references of `e` changes one record. */
  function Rereferenced(r: Record, k: Kind, id: Id, e: Record, n: int): Record {
    if k == Context && r.ContextRecord? then
      r.(children := r.children.(events := r.children.events + n * Weight(Owned(id), e)))
    else Shifted(r, n * Weight(Uses(k, id), e))
  }

  /** `e` names live records of one context, as a submission that passed validation does. */
  ghost predicate Submittable(g: Graph, e: Record) {
    && Shape(g) && e.EventRecord? && EventOk(g, e)
    && (forall k, x | Alive(g, k, x) :: KindOf(Rec(g, k, x)) == k)
  }

  /** The queue or program of an event after `n` more references. */
  lemma OneRefers(t: Table<Record>, k: Kind, id: Id, e: Record, n: int)
    requires Valid(t) && Has(t, id) && e.EventRecord?
             && ((k == Queue && id == e.queue) || (k == Program && id == e.program))
    ensures var t' := Refer(t, id, n);
            && Valid(t') && SameSkeleton(t, t')
            && (forall x :: Has(t', x) <==> Has(t, x))
            && (forall x | Has(t, x) :: Get(t', x) == Ok(Shifted(Get(t, x).value, n * Weight(Uses(k, x), e))))
            && (forall m :: Tally(t'.slots, m) == Tally(t.slots, m))
  {
    hide Get, Refer, Valid, SameSkeleton, Tally, Shifted;
    ReferFacts(t, id, n);
    forall x | Has(t, x)
      ensures Get(Refer(t, id, n), x) == Ok(Shifted(Get(t, x).value, n * Weight(Uses(k, x), e)))
    {
      NotShifted(Get(t, x).value, n);
    }
  }

  lemma LeafRefsFacts(g: Graph, e: Record, n: int)
    requires Submittable(g, e)
    ensures var g' := LeafRefs(g, e, n);
            && Shape(g') && g'.(tables := g.tables) == g
            && T(g', Event) == T(g, Event) && T(g', Context) == T(g, Context)
            && (forall k, x :: Alive(g', k, x) <==> Alive(g, k, x))
            && (forall k, x | Alive(g, k, x) && k != Context ::
                  Rec(g', k, x) == Shifted(Rec(g, k, x), n * Weight(Uses(k, x), e)))
            && (forall k, m :: Tally(T(g', k).slots, m) == Tally(T(g, k).slots, m))
            && (forall k :: SameSkeleton(T(g, k), T(g', k)))
  {
    hide Get, Refer, ReferAll, Valid, Tally, ValidLimits, TableLimit, SameSkeleton;
    OneRefers(g.tables[Queue], Queue, e.queue, e, n);
    OneRefers(g.tables[Program], Program, e.program, e, n);
    ReferAllFacts(g.tables[Buffer], e.buffers, n);
    SkeletonItself(g.tables[Event]);
    SkeletonItself(g.tables[Context]);
    forall k
      ensures SameIdentity(T(g, k), LeafRefs(g, e, n).tables[k])
    {
      SkeletonIdentity(T(g, k), LeafRefs(g, e, n).tables[k]);
    }
  }

  lemma WithRefsFacts(g: Graph, e: Record, n: int)
    requires Submittable(g, e)
    ensures var g' := WithRefs(g, e, n);
            && Shape(g') && g'.(tables := g.tables) == g
            && T(g', Event) == T(g, Event)
            && (forall k, x :: Alive(g', k, x) <==> Alive(g, k, x))
            && (forall k, x | Alive(g, k, x) :: Rec(g', k, x) == Rereferenced(Rec(g, k, x), k, x, e, n))
            && (forall k, m :: Tally(T(g', k).slots, m) == Tally(T(g, k).slots, m))
            && (forall k :: SameSkeleton(T(g, k), T(g', k)))
  {
    hide Get, LeafRefs, Valid, Tally, ValidLimits, TableLimit, SameSkeleton;
    LeafRefsFacts(g, e, n);
    AddChildFacts(LeafRefs(g, e, n), e.context, Event, n);
  }

  /** A submission that passed validation, quota and reservation. */
  ghost predicate AdmissibleEvent(g: Graph, e: Record) {
    && Inv(g) && e.EventRecord? && EventOk(g, e) && CanInsert(g.tables[Event])
    && e.slot.resource.Some? && e.slot.release == Live
    && Rec(g, Context, e.context).ContextRecord?
    && Rec(g, Context, e.context).children.events < g.limits.maxEvents
    && (forall k, x | k != Context && k != Event && InContext(g, k, x, e.context) && Weight(Uses(k, x), e) > 0 ::
          Rec(g, k, x).slot.release == Live)
  }

  lemma InvSubmittable(g: Graph, e: Record)
    requires Inv(g) && e.EventRecord? && EventOk(g, e)
    ensures Submittable(g, e)
  {
    hide Get, Valid, Tally, ValidLimits, TableLimit, SlotOk, ContextOk, LeafOk, EventOk;
    forall k, x | Alive(g, k, x)
      ensures KindOf(Rec(g, k, x)) == k
    {
      assert RecordOk(g, k, x);
    }
  }

  lemma AdmittedEventFacts(g: Graph, e: Record)
    requires AdmissibleEvent(g, e)
    ensures var id := InsertedId(g.tables[Event]); var g' := AdmittedEvent(g, e);
            && Shape(g') && g'.(tables := g.tables) == g
            && !Alive(g, Event, id) && Alive(g', Event, id) && Rec(g', Event, id) == e
            && (forall k, x :: Alive(g', k, x) <==> Alive(g, k, x) || (k == Event && x == id))
            && (forall k, x | Alive(g, k, x) :: Rec(g', k, x) == Rereferenced(Rec(g, k, x), k, x, e, 1))
            && (forall m :: Tally(T(g', Event).slots, m) == Tally(T(g, Event).slots, m) + Weight(m, e))
            && (forall k, m | k != Event :: Tally(T(g', k).slots, m) == Tally(T(g, k).slots, m))
  {
    hide Get, WithRefs, Inserted, InsertedId, CanInsert, Valid, Tally, Weight, ValidLimits, TableLimit, Rereferenced,
         SameSkeleton, SlotOk, ContextOk, LeafOk, EventOk;
    InvSubmittable(g, e);
    WithRefsFacts(g, e, 1);
    InsertRecFacts(WithRefs(g, e, 1), e);
  }

  /** Admitting an event with all its references keeps every counter exact. */
  lemma AdmittedEventKeepsInv(g: Graph, e: Record)
    requires AdmissibleEvent(g, e)
    ensures Inv(AdmittedEvent(g, e))
  {
    hide Get, AdmittedEvent, InsertedId, CanInsert, Valid, Tally, ValidLimits, TableLimit, RecordOk, Rereferenced;
    var g' := AdmittedEvent(g, e);
    AdmittedEventFacts(g, e);
    forall k, x | Alive(g', k, x)
      ensures RecordOk(g', k, x)
    {
      if Alive(g, k, x) { AdmittedEventOldOk(g, e, k, x); } else { AdmittedEventNewOk(g, e); }
    }
  }

  lemma AdmittedEventOldOk(g: Graph, e: Record, k: Kind, x: Id)
    requires AdmissibleEvent(g, e) && Shape(AdmittedEvent(g, e)) && Alive(g, k, x) && Alive(AdmittedEvent(g, e), k, x)
    ensures RecordOk(AdmittedEvent(g, e), k, x)
  {
    hide Get, Inv, AdmittedEvent, InsertedId, CanInsert, Valid, Tally, ValidLimits, TableLimit, EventOk;
    AdmittedEventFacts(g, e);
    RecordIsOk(g, k, x);
    var g', s := AdmittedEvent(g, e), Rec(AdmittedEvent(g, e), k, x);
    if k == Event {
      EventFollows(g, g', s);
    } else {
      NoEvent(g', s);
      NamedByEvent(g, e, k, x);
      if k == Context && x == e.context { TallyMember(T(g, Queue), e.queue, Owned(x)); }
      assert SlotOk(s);
      assert ContextOk(g', x, s);
      assert LeafOk(g', k, x, s);
    }
  }

  lemma NamedByEvent(g: Graph, e: Record, k: Kind, x: Id)
    requires Shape(g) && e.EventRecord? && EventOk(g, e)
    ensures InContext(g, Queue, e.queue, e.context)
    ensures k != Context && k != Event && Weight(Uses(k, x), e) > 0 ==> InContext(g, k, x, e.context)
  {
    hide Shape, Get, InContext;
    if k == Buffer && multiset(e.buffers)[x] > 0 { assert x in e.buffers; }
  }

  /** An event stays valid while everything it names stays in its context. */
  lemma EventFollows(g: Graph, g': Graph, r: Record)
    requires Shape(g) && Shape(g') && EventOk(g, r) && g'.limits == g.limits
    requires forall k, x, c | k != Event && InContext(g, k, x, c) :: InContext(g', k, x, c)
    requires forall x | Alive(g, Context, x) :: Alive(g', Context, x)
    ensures EventOk(g', r)
  {
    hide Shape, Get, InContext;
  }

  lemma AdmittedEventNewOk(g: Graph, e: Record)
    requires AdmissibleEvent(g, e)
    ensures Shape(g) && Event in g.tables && Valid(g.tables[Event])
    ensures var id := InsertedId(g.tables[Event]);
            && Shape(AdmittedEvent(g, e)) && Alive(AdmittedEvent(g, e), Event, id)
            && RecordOk(AdmittedEvent(g, e), Event, id)
  {
    hide Get, AdmittedEvent, InsertedId, CanInsert, Valid, Tally, ValidLimits, TableLimit, EventOk, RecordOk;
    AdmittedEventFacts(g, e);
    var g' := AdmittedEvent(g, e);
    EventFollows(g, g', e);
    FreshEventOk(g', InsertedId(g.tables[Event]), e);
  }

  lemma FreshEventOk(g: Graph, id: Id, e: Record)
    requires Shape(g) && Alive(g, Event, id) && Rec(g, Event, id) == e && e.EventRecord? && EventOk(g, e)
    requires e.slot.resource.Some? && e.slot.release == Live
    ensures RecordOk(g, Event, id)
  {
    hide Get, Shape, EventOk;
  }

  lemma DropIsSubmittable(g: Graph, id: Id)
    requires Inv(g) && Alive(g, Event, id) && Rec(g, Event, id).EventRecord?
    ensures Submittable(RemoveRec(g, Event, id), Rec(g, Event, id))
  {
    hide Get, Removed, Valid, Tally, Weight, ValidLimits, TableLimit, SlotOk, ContextOk, LeafOk;
    assert RecordOk(g, Event, id);
    InvSubmittable(g, Rec(g, Event, id));
    RemoveRecFacts(g, Event, id);
  }

  lemma DroppedEventFacts(g: Graph, id: Id)
    requires Inv(g) && Alive(g, Event, id) && Rec(g, Event, id).EventRecord?
    ensures var e := Rec(g, Event, id); var g' := DroppedEvent(g, id);
            && Shape(g') && g'.(tables := g.tables) == g
            && (forall k, x :: Alive(g', k, x) <==> Alive(g, k, x) && !(k == Event && x == id))
            && (forall k, x | Alive(g', k, x) :: Rec(g', k, x) == Rereferenced(Rec(g, k, x), k, x, e, -1))
            && (forall m :: Tally(T(g', Event).slots, m) == Tally(T(g, Event).slots, m) - Weight(m, e))
            && (forall k, m | k != Event :: Tally(T(g', k).slots, m) == Tally(T(g, k).slots, m))
  {
    hide Get, WithRefs, Removed, Valid, Tally, Weight, ValidLimits, TableLimit, Rereferenced, SameSkeleton, RecordOk;
    var e := Rec(g, Event, id);
    RemoveRecFacts(g, Event, id);
    DropIsSubmittable(g, id);
    WithRefsFacts(RemoveRec(g, Event, id), e, -1);
  }

  /** Dropping an event gives back exactly the references it held. */
  lemma DroppedEventKeepsInv(g: Graph, id: Id)
    requires Inv(g) && Alive(g, Event, id) && Rec(g, Event, id).EventRecord?
    ensures Inv(DroppedEvent(g, id))
  {
    hide Get, DroppedEvent, Valid, Tally, ValidLimits, TableLimit, RecordOk, Rereferenced;
    DroppedEventFacts(g, id);
    forall k, x | Alive(DroppedEvent(g, id), k, x)
      ensures RecordOk(DroppedEvent(g, id), k, x)
    {
      DroppedEventRecordOk(g, id, k, x);
    }
  }

  lemma DroppedEventRecordOk(g: Graph, id: Id, k: Kind, x: Id)
    requires Inv(g) && Alive(g, Event, id) && Rec(g, Event, id).EventRecord?
    requires Shape(DroppedEvent(g, id)) && Alive(DroppedEvent(g, id), k, x)
    ensures RecordOk(DroppedEvent(g, id), k, x)
  {
    hide Get, Inv, DroppedEvent, Valid, Tally, ValidLimits, TableLimit, EventOk;
    DroppedEventFacts(g, id);
    RecordIsOk(g, k, x);
    var g', s := DroppedEvent(g, id), Rec(DroppedEvent(g, id), k, x);
    TallyMember(T(g, Event), id, Uses(k, x));
    TallyMember(T(g, Event), id, Owned(x));
    if k == Event {
      EventFollows(g, g', s);
    } else {
      NoEvent(g', s);
      assert ContextOk(g', x, s);
      assert LeafOk(g', k, x, s);
    }
  }

  /** Taking the references of an event leaves it submittable. */
  lemma StillSubmittable(g: Graph, e: Record)
    requires Submittable(g, e)
    ensures Submittable(WithRefs(g, e, 1), e)
  {
    hide Get, WithRefs, Shape, Tally, Weight;
    WithRefsFacts(g, e, 1);
  }

  /** A rejected submission gives back exactly the graph it started from. */
  lemma RefsUndone(g: Graph, e: Record)
    requires Inv(g) && e.EventRecord? && EventOk(g, e)
    ensures WithRefs(WithRefs(g, e, 1), e, -1) == g
  {
    hide Get, WithRefs, Valid, Tally, Weight, ValidLimits, TableLimit, Inv, EventOk;
    InvSubmittable(g, e);
    WithRefsFacts(g, e, 1);
    var g1 := WithRefs(g, e, 1);
    StillSubmittable(g, e);
    WithRefsFacts(g1, e, -1);
    var g2 := WithRefs(g1, e, -1);
    forall k
      ensures k in g2.tables && k in g.tables && g2.tables[k] == g.tables[k]
    {
      assert SameSkeleton(T(g, k), T(g1, k)) && SameSkeleton(T(g1, k), T(g2, k));
      forall x | Has(T(g, k), x)
        ensures Get(T(g2, k), x) == Get(T(g, k), x)
      {
        assert Alive(g, k, x) && Alive(g2, k, x) && Rec(g2, k, x) == Rec(g, k, x);
      }
      TableExtensional(T(g, k), T(g2, k));
    }
    assert g2.tables == g.tables;
  }

  // ------------------------------------------------------------------------------------------
  // Reference counts fit their 32-bit counters.

  lemma {:induction false} MultiplicityBound(ids: seq<Id>, x: Id)
    ensures multiset(ids)[x] <= |ids|
  {
    if ids != [] {
      var front := ids[..|ids| - 1];
      assert ids == front + [ids[|ids| - 1]];
      MultiplicityBound(front, x);
    }
  }

  /** Only events of the leaf's own context refer to it, each at most `maxBindings` times. */
  lemma UseBound(g: Graph, k: Kind, id: Id, x: Id)
    requires Inv(g) && Alive(g, k, id) && IsLeaf(Rec(g, k, id)) && Alive(g, Event, x)
    ensures Weight(Uses(k, id), Rec(g, Event, x)) <= g.limits.maxBindings
    ensures Weight(Uses(k, id), Rec(g, Event, x)) > 0 ==> Weight(Owned(Rec(g, k, id).context), Rec(g, Event, x)) == 1
  {
    hide Get, Valid, Tally, TableLimit, SlotOk, ContextOk, LeafOk;
    assert RecordOk(g, Event, x);
    assert RecordOk(g, k, id);
    var e := Rec(g, Event, x);
    assert EventOk(g, e);
    MultiplicityBound(e.buffers, id);
    if k == Buffer && multiset(e.buffers)[id] > 0 { assert id in e.buffers; }
  }

  /** The live record in a slot is the one its identifier resolves to. */
  lemma SlotIsAlive(g: Graph, k: Kind, i: nat) returns (x: Id)
    requires Shape(g) && i < |T(g, k).slots| && T(g, k).slots[i].value.Some?
    ensures Alive(g, k, x) && Rec(g, k, x) == T(g, k).slots[i].value.value
    ensures Locate(T(g, k), x) == Ok(i)
  {
    x := NewId(i, g.namespace, T(g, k).slots[i].generation, k);
  }

  lemma OneMoreTerm(bound: nat, uses: nat, use: nat, before: nat, owned: nat)
    requires uses <= bound * before && use <= bound && (use > 0 ==> owned >= 1)
    ensures uses + use <= bound * (before + owned)
  {
    Monotone(bound, before, before);
    if use > 0 { Monotone(bound, before + 1, before + owned); } else { Monotone(bound, before, before + owned); }
  }

  lemma {:induction false} UsesBound(g: Graph, k: Kind, id: Id, n: nat)
    requires Inv(g) && Alive(g, k, id) && IsLeaf(Rec(g, k, id)) && n <= |T(g, Event).slots|
    ensures Tally(T(g, Event).slots[..n], Uses(k, id))
            <= g.limits.maxBindings * Tally(T(g, Event).slots[..n], Owned(Rec(g, k, id).context))
  {
    hide Get, Inv, Valid, Weight;
    RecordIsOk(g, k, id);
    if n > 0 {
      var slots, c := T(g, Event).slots, Rec(g, k, id).context;
      UsesBound(g, k, id, n - 1);
      assert slots[..n][..n - 1] == slots[..n - 1];
      var before, owned := Tally(slots[..n - 1], Owned(c)), SlotWeight(Owned(c), slots[n - 1]);
      if slots[n - 1].value.Some? {
        var x := SlotIsAlive(g, Event, n - 1);
        UseBound(g, k, id, x);
      }
      OneMoreTerm(g.limits.maxBindings, Tally(slots[..n - 1], Uses(k, id)), SlotWeight(Uses(k, id), slots[n - 1]),
                  before, owned);
    } else {
      assert T(g, Event).slots[..0] == [];
    }
  }

  /** Every reference count stays below 2^32, also after one more event of the context takes up to
      `maxBindings` references: the overflow check of a submission can never fire. */
  lemma ReferencesFit(g: Graph, k: Kind, id: Id)
    requires Inv(g) && Alive(g, k, id) && IsLeaf(Rec(g, k, id))
    ensures 0 <= Rec(g, k, id).inFlight < U32
    ensures Alive(g, Context, Rec(g, k, id).context)
    ensures var c := Rec(g, Context, Rec(g, k, id).context);
            c.ContextRecord? && c.children.events < g.limits.maxEvents
            ==> Rec(g, k, id).inFlight + g.limits.maxBindings < U32
  {
    hide Get, Valid, Tally, TableLimit, EventOk, SlotOk;
    var t, r := T(g, Event), Rec(g, k, id);
    assert RecordOk(g, k, id);
    assert RecordOk(g, Context, r.context);
    UsesBound(g, k, id, |t.slots|);
    assert t.slots[..|t.slots|] == t.slots;
    var events := Rec(g, Context, r.context).children.events;
    assert Child(Rec(g, Context, r.context).children, Event) == events;
    Monotone(g.limits.maxBindings, events, g.limits.maxEvents);
    if events < g.limits.maxEvents {
      Monotone(g.limits.maxBindings, events + 1, g.limits.maxEvents);
    }
  }

  lemma Monotone(a: nat, b: int, c: int)
    requires b <= c
    ensures a * b <= a * c && a * (b + 1) == a * b + a
  {}

  lemma CountIsTally(g: Graph, k: Kind)
    requires Shape(g)
    ensures Count(g, k) == Tally(T(g, k).slots, Ones)
  {
    TallyOnes(T(g, k).slots);
  }
}
