/** Net effect of whole admissions and releases on object counts, retained bytes and quiescence. */
module GraphEffects {
  import opened Bytes
  import opened ObjectTables
  import opened Graphs
  import opened GraphLaws
  import opened DeviceStates

  /** No release is under way. */
  ghost predicate AtRest(g: Graph) {
    forall k, id | Alive(g, k, id) :: Rec(g, k, id).slot.release == Live
  }

  function Backing(k: Kind, charge: nat): nat { if k == Buffer then charge else 0 }
  function Resident(k: Kind, charge: nat): nat { if k == Program then charge else 0 }

  /** `g'` is `g` with `n` more records of kind `k` charging `charge` bytes each. */
  ghost predicate Grown(g: Graph, g': Graph, k: Kind, n: int, charge: nat)
    requires Shape(g) && Shape(g')
  {
    && (forall j :: Count(g', j) == Count(g, j) + if j == k then n else 0)
    && g'.backing == g.backing + n * Backing(k, charge)
    && g'.resident == g.resident + n * Resident(k, charge)
    && g'.namespace == g.namespace && g'.limits == g.limits && g'.policy == g.policy
  }

  lemma CountsFollowTallies(g: Graph, g': Graph, k: Kind, n: int)
    requires Shape(g) && Shape(g')
    requires Tally(T(g', k).slots, Ones) == Tally(T(g, k).slots, Ones) + n
    requires forall j, m | j != k :: Tally(T(g', j).slots, m) == Tally(T(g, j).slots, m)
    ensures forall j :: Count(g', j) == Count(g, j) + if j == k then n else 0
  {
    hide Tally, Valid, ValidLimits, TableLimit;
    forall j
      ensures Count(g', j) == Count(g, j) + if j == k then n else 0
    {
      CountIsTally(g, j);
      CountIsTally(g', j);
    }
  }

  lemma AdmittedEffect(g: Graph, r: Record)
    requires Admissible(g, r)
    ensures Inv(Admitted(g, r)) && Grown(g, Admitted(g, r), KindOf(r), 1, Charge(r))
    ensures AtRest(g) ==> AtRest(Admitted(g, r))
  {
    hide Get, Admitted, InsertedId, CanInsert, Valid, Tally, ValidLimits, TableLimit, RecordOk, WithChild, Child;
    AdmittedKeepsInv(g, r);
    AdmittedFacts(g, r);
    CountsFollowTallies(g, Admitted(g, r), KindOf(r), 1);
  }

  lemma AdmittedEventEffect(g: Graph, e: Record)
    requires AdmissibleEvent(g, e)
    ensures Inv(AdmittedEvent(g, e)) && Grown(g, AdmittedEvent(g, e), Event, 1, 0)
    ensures AtRest(g) ==> AtRest(AdmittedEvent(g, e))
  {
    hide Get, AdmittedEvent, InsertedId, CanInsert, Valid, Tally, ValidLimits, TableLimit, RecordOk;
    AdmittedEventKeepsInv(g, e);
    AdmittedEventFacts(g, e);
    CountsFollowTallies(g, AdmittedEvent(g, e), Event, 1);
  }

  /** A record that may begin its release. */
  predicate Releasable(g: Graph, k: Kind, id: Id) {
    Alive(g, k, id) && !Held(Rec(g, k, id)) && Rec(g, k, id).slot.release == Live
  }

  lemma BegunEffect(g: Graph, k: Kind, id: Id)
    requires Inv(g) && Releasable(g, k, id)
    ensures var g1 := ReSlot(g, k, id, None);
            && Inv(g1) && Grown(g, g1, k, 0, 0)
            && Alive(g1, k, id) && Rec(g1, k, id) == WithSlot(Rec(g, k, id), None)
            && (forall j, x :: Alive(g1, j, x) <==> Alive(g, j, x))
            && (forall j, x | Alive(g, j, x) && !(j == k && x == id) :: Rec(g1, j, x) == Rec(g, j, x))
  {
    hide Get, ReSlot, Valid, Tally, ValidLimits, TableLimit, RecordOk, WithSlot;
    ReSlotKeepsInv(g, k, id, None);
    ReSlotFacts(g, k, id, None);
    CountsFollowTallies(g, ReSlot(g, k, id, None), k, 0);
  }

  lemma RestoredEffect(g: Graph, k: Kind, id: Id, h: Handle)
    requires Inv(g) && Alive(g, k, id)
    ensures var g1 := ReSlot(g, k, id, Some(h));
            && Inv(g1) && Grown(g, g1, k, 0, 0)
            && Alive(g1, k, id) && Rec(g1, k, id) == WithSlot(Rec(g, k, id), Some(h))
            && (forall j, x :: Alive(g1, j, x) <==> Alive(g, j, x))
            && (forall j, x | Alive(g, j, x) && !(j == k && x == id) :: Rec(g1, j, x) == Rec(g, j, x))
  {
    hide Get, ReSlot, Valid, Tally, ValidLimits, TableLimit, RecordOk, WithSlot;
    ReSlotKeepsInv(g, k, id, Some(h));
    ReSlotFacts(g, k, id, Some(h));
    CountsFollowTallies(g, ReSlot(g, k, id, Some(h)), k, 0);
  }

  lemma CommittedEffect(g: Graph, k: Kind, id: Id)
    requires Inv(g) && Alive(g, k, id) && Rec(g, k, id).slot.release == Releasing
    ensures k == Event ==> Rec(g, k, id).EventRecord?
    ensures var g' := Committed(g, k, id);
            && Inv(g') && Grown(g, g', k, -1, Charge(Rec(g, k, id)))
            && (forall j, x :: Alive(g', j, x) <==> Alive(g, j, x) && !(j == k && x == id))
            && (forall j, x | Alive(g', j, x) :: Rec(g', j, x).slot == Rec(g, j, x).slot)
  {
    hide Get, Unowned, DroppedEvent, Valid, Tally, ValidLimits, TableLimit, ContextOk, LeafOk, EventOk, WithChild,
         Child;
    assert RecordOk(g, k, id);
    CommittedKeepsInv(g, k, id);
    if k == Event {
      DroppedEventFacts(g, id);
      CountsFollowTallies(g, DroppedEvent(g, id), k, -1);
    } else {
      UnownedFacts(g, k, id);
      CountsFollowTallies(g, Unowned(g, k, id), k, -1);
    }
  }

  function ReleasedGraph(g: Graph, k: Kind, id: Id): (g': Graph)
    requires Inv(g) && Releasable(g, k, id)
    ensures Inv(g')
  {
    BegunEffect(g, k, id);
    CommittedEffect(ReSlot(g, k, id, None), k, id);
    Committed(ReSlot(g, k, id, None), k, id)
  }

  function RejectedGraph(g: Graph, k: Kind, id: Id, h: Handle): (g': Graph)
    requires Inv(g) && Releasable(g, k, id)
    ensures Inv(g')
  {
    BegunEffect(g, k, id);
    RestoredEffect(ReSlot(g, k, id, None), k, id, h);
    ReSlot(ReSlot(g, k, id, None), k, id, Some(h))
  }

  lemma GrowthAdds(g: Graph, g1: Graph, g': Graph, k: Kind, n: int, charge: nat)
    requires Shape(g) && Shape(g1) && Shape(g') && Grown(g, g1, k, 0, 0) && Grown(g1, g', k, n, charge)
    ensures Grown(g, g', k, n, charge)
  {
    hide Shape, Count;
  }

  /** A completed release removes its record; the others keep their state. */
  lemma ReleasedEffect(g: Graph, k: Kind, id: Id)
    requires Inv(g) && Releasable(g, k, id)
    ensures var g' := ReleasedGraph(g, k, id);
            && Grown(g, g', k, -1, Charge(Rec(g, k, id)))
            && (forall j, x :: Alive(g', j, x) <==> Alive(g, j, x) && !(j == k && x == id))
            && (AtRest(g) ==> AtRest(g'))
  {
    hide Get, ReSlot, Committed, Inv, Shape, Held, Grown, Alive, Rec;
    var g1 := ReSlot(g, k, id, None);
    var g' := ReleasedGraph(g, k, id);
    BegunEffect(g, k, id);
    CommittedEffect(g1, k, id);
    InvShape(g);
    InvShape(g1);
    InvShape(g');
    GrowthAdds(g, g1, g', k, -1, Charge(Rec(g, k, id)));
  }

  /** A refused release changes nothing but the handle of its record. */
  lemma RejectedEffect(g: Graph, k: Kind, id: Id, h: Handle)
    requires Inv(g) && Releasable(g, k, id)
    ensures var g' := RejectedGraph(g, k, id, h);
            && Grown(g, g', k, 0, 0)
            && (forall j, x :: Alive(g', j, x) <==> Alive(g, j, x))
            && (AtRest(g) ==> AtRest(g'))
  {
    hide Get, ReSlot, Inv, Shape, Held, Grown, Alive, Rec;
    var g1 := ReSlot(g, k, id, None);
    var g' := RejectedGraph(g, k, id, h);
    BegunEffect(g, k, id);
    RestoredEffect(g1, k, id, h);
    InvShape(g);
    InvShape(g1);
    InvShape(g');
    GrowthAdds(g, g1, g', k, 0, 0);
  }
}
