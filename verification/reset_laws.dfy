/** What one reset-time release does, and why child-before-parent order lets reset finish. */
module ResetLaws {
  import opened Bytes
  import opened ObjectTables
  import opened Graphs
  import opened GraphLaws
  import opened DeviceStates
  import opened GraphEffects
  import opened Identities
  import opened Wire
  import opened Ledgers

  // ------------------------------------------------------------------------------------------
  // Conservation.

  /** What left the graph between `g` and `g'` is exactly what entered the released account. */
  ghost predicate Conserves(g: Graph, r: Account, g': Graph, r': Account) {
    Shape(g) && Shape(g') && forall c :: In(r', c) + Standing(g', c) == In(r, c) + Standing(g, c)
  }

  lemma ConservesTransitively(g: Graph, r: Account, g1: Graph, r1: Account, g2: Graph, r2: Account)
    requires Conserves(g, r, g1, r1) && Conserves(g1, r1, g2, r2)
    ensures Conserves(g, r, g2, r2)
  {
    hide Shape, Standing, In;
  }

  /** The tables of kind `k` differ at most in slot `i`. */
  ghost predicate OnlySlot(t: Table<Record>, t': Table<Record>, i: nat) {
    |t'.slots| == |t.slots| && forall j | 0 <= j < |t.slots| && j != i :: t'.slots[j] == t.slots[j]
  }

  lemma ReSlotSlots(g: Graph, k: Kind, id: Id, resource: Option<Handle>)
    requires Inv(g) && Alive(g, k, id)
    ensures var t' := T(ReSlot(g, k, id, resource), k); var i := Locate(T(g, k), id).value;
            OnlySlot(T(g, k), t', i) && i < |t'.slots| && t'.slots[i].value.Some? && Locate(t', id) == Ok(i)
  {
    hide Inv, WithSlot;
  }

  lemma RemovedSlots(t: Table<Record>, id: Id)
    requires ObjectTables.Valid(t) && Has(t, id)
    ensures var i := Locate(t, id).value;
            OnlySlot(t, Removed(t, id), i) && i < |Removed(t, id).slots| && Removed(t, id).slots[i].value.None?
  {}

  /** Committing a release removes the record from its own table and does nothing else to it. */
  lemma CommittedTable(g: Graph, k: Kind, id: Id)
    requires Inv(g) && Alive(g, k, id) && (k == Event ==> Rec(g, k, id).EventRecord?) && KindOf(Rec(g, k, id)) == k
    ensures k in Committed(g, k, id).tables && Committed(g, k, id).tables[k] == Removed(g.tables[k], id)
  {
    hide Get, Store, Removed, RecordOk, ObjectTables.Valid, Tally, Weight, ValidLimits, TableLimit, WithRefs;
    if k == Event {
      DropIsSubmittable(g, id);
      WithRefsFacts(RemoveRec(g, Event, id), Rec(g, Event, id), -1);
    }
  }

  /** A completed release empties exactly its own slot; a refused one touches no other. */
  lemma ReleaseSlots(g: Graph, k: Kind, id: Id, h: Handle)
    requires Inv(g) && Releasable(g, k, id)
    ensures Locate(T(g, k), id).Ok?
    ensures var i := Locate(T(g, k), id).value;
            && i < |T(g, k).slots|
            && OnlySlot(T(g, k), T(ReleasedGraph(g, k, id), k), i) && T(ReleasedGraph(g, k, id), k).slots[i].value.None?
            && OnlySlot(T(g, k), T(RejectedGraph(g, k, id, h), k), i)
            && OnlySlot(T(g, k), T(ReSlot(g, k, id, None), k), i)
  {
    hide ReSlot, Committed, Removed, ContextOk, LeafOk, EventOk, SlotOk, ObjectTables.Valid, Tally, ValidLimits,
         TableLimit, Held;
    BegunEffect(g, k, id);
    var g1 := ReSlot(g, k, id, None);
    ReSlotSlots(g, k, id, None);
    CommittedEffect(g1, k, id);
    assert RecordOk(g1, k, id);
    CommittedTable(g1, k, id);
    RemovedSlots(T(g1, k), id);
    ReSlotSlots(g1, k, id, Some(h));
  }

  // ------------------------------------------------------------------------------------------
  // One reset-time release.

  datatype Progress = Progress(reusable: bool, callable: bool)

  /** Engine after the backend answered a release attempted by reset. Unlike a command, reset
      leaves an indeterminate record in the graph. */
  ghost predicate ResetSettled(b: Engine, r: Account, a: Engine, r': Account, k: Kind, id: Id, release: Release)
    requires Inv(b.graph) && Releasable(b.graph, k, id)
  {
    var charge := Charge(Rec(b.graph, k, id));
    && a == b.(graph := a.graph, trace := b.trace + [DestroyCall(k, charge, release)])
    && match release
       case Released => a.graph == ReleasedGraph(b.graph, k, id) && r' == Enter(r, k, charge)
       case Rejected(_, h) => a.graph == RejectedGraph(b.graph, k, id, h) && r' == r
       case Indeterminate(_) => a.graph == ReSlot(b.graph, k, id, None) && r' == r
  }

  lemma ResetSettledEffect(b: Engine, r: Account, a: Engine, r': Account, k: Kind, id: Id, release: Release)
    requires Inv(b.graph) && Balanced(b) && Releasable(b.graph, k, id) && ResetSettled(b, r, a, r', k, id, release)
    ensures Inv(a.graph) && Balanced(a) && Conserves(b.graph, r, a.graph, r')
    ensures forall j | j != k :: Count(a.graph, j) == Count(b.graph, j)
    ensures Descends(b.graph, a.graph)
    ensures release.Released? && AtRest(b.graph) ==> AtRest(a.graph)
  {
    hide Get, ReSlot, Inv, Shape, Enter, Outstanding, ReleasedGraph, RejectedGraph, Held, Count, Ages, AtRest;
    InvShape(b.graph);
    var h := if release.Rejected? then release.resource else 0;
    var charge := Charge(Rec(b.graph, k, id));
    ReleasedEffect(b.graph, k, id);
    RejectedEffect(b.graph, k, id, h);
    BegunEffect(b.graph, k, id);
    InvShape(a.graph);
    ReleaseAges(b.graph, k, id, h);
    var n := if release.Released? then -1 else 0;
    assert Grown(b.graph, a.graph, k, n, charge);
    StaysBalanced(b, DestroyCall(k, charge, release), a.graph, n, a.quarantined);
    assert Conserves(b.graph, r, a.graph, r') by {
      forall c
        ensures In(r', c) + Standing(a.graph, c) == In(r, c) + Standing(b.graph, c)
      {
        assert Standing(a.graph, c) == Standing(b.graph, c) + n * Unit(k, charge, c);
      }
    }
  }

  // ------------------------------------------------------------------------------------------
  // Progress of a cooperative reset.

  lemma {:induction false} EmptyTally(slots: seq<Slot<Record>>, m: Measure)
    requires LiveCount(slots) == 0
    ensures Tally(slots, m) == 0
  {
    if slots != [] { EmptyTally(slots[..|slots| - 1], m); }
  }

  /** With no events left, no queue, program or buffer is held. */
  lemma NoEventsNoHolds(g: Graph, k: Kind, id: Id)
    requires Inv(g) && Count(g, Event) == 0 && k != Context && k != Event && Alive(g, k, id)
    ensures !Held(Rec(g, k, id))
  {
    hide Get, ValidLimits, TableLimit, Tally;
    EmptyTally(T(g, Event).slots, Uses(k, id));
    assert RecordOk(g, k, id);
  }

  /** With nothing but contexts left, no context is held. */
  lemma NoChildrenNoHolds(g: Graph, id: Id)
    requires Inv(g) && (forall k | k != Context :: Count(g, k) == 0) && Alive(g, Context, id)
    ensures !Held(Rec(g, Context, id))
  {
    hide Get, ValidLimits, TableLimit, Tally;
    assert RecordOk(g, Context, id);
    forall k | k != Context
      ensures Tally(T(g, k).slots, Owned(id)) == 0
    {
      assert Count(g, k) == 0;
      EmptyTally(T(g, k).slots, Owned(id));
    }
    var c := Rec(g, Context, id).children;
    assert Child(c, Buffer) == 0 && Child(c, Program) == 0 && Child(c, Queue) == 0 && Child(c, Event) == 0;
  }

  /** Releasing one context or leaf leaves its siblings of the same kind exactly as they were. */
  lemma SiblingsUntouched(g: Graph, k: Kind, id: Id, x: Id)
    requires Inv(g) && Releasable(g, k, id) && k != Event && Alive(ReleasedGraph(g, k, id), k, x)
    ensures Alive(g, k, x) && Rec(ReleasedGraph(g, k, id), k, x) == Rec(g, k, x)
  {
    hide Get, ReSlot, Unowned, RecordOk, ObjectTables.Valid, Tally, Weight, ValidLimits, TableLimit, Held;
    BegunEffect(g, k, id);
    UnownedFacts(ReSlot(g, k, id, None), k, id);
  }

  lemma {:induction false} LivePrefix<A>(slots: seq<Slot<A>>, from: nat, end: nat)
    requires from < end <= |slots| && slots[end - 1].value.Some?
    ensures LiveCount(slots[..end]) >= LiveCount(slots[..from]) + 1
    decreases end
  {
    assert slots[..end][..end - 1] == slots[..end - 1];
    LiveMonotone(slots, from, end - 1);
  }

  lemma {:induction false} LiveMonotone<A>(slots: seq<Slot<A>>, from: nat, end: nat)
    requires from <= end <= |slots|
    ensures LiveCount(slots[..from]) <= LiveCount(slots[..end])
    decreases end
  {
    if from < end {
      assert slots[..end][..end - 1] == slots[..end - 1];
      LiveMonotone(slots, from, end - 1);
    }
  }

  lemma {:induction false} NoneLive<A>(slots: seq<Slot<A>>)
    requires forall i | 0 <= i < |slots| :: slots[i].value.None?
    ensures LiveCount(slots) == 0
  {
    if slots != [] { NoneLive(slots[..|slots| - 1]); }
  }

  // ------------------------------------------------------------------------------------------
  // Shape of the calls made by reset.

  function Phase(k: Kind): nat {
    match k
    case Event => 0
    case Queue => 1
    case Program => 2
    case Buffer => 3
    case Context => 4
  }

  /** `after` adds at most `n` calls about kind `k`, and an indeterminate one can only be the last. */
  ghost predicate PassCalls(before: seq<Call>, after: seq<Call>, k: Kind, n: int) {
    && before <= after && |after| <= |before| + n
    && (forall i | |before| <= i < |after| :: after[i].kind == k && after[i].op != Create && after[i].op != Transfer)
    && (forall i | |before| <= i < |after| - 1 :: after[i].effect != Unknown)
  }

  ghost predicate Certain(before: seq<Call>, after: seq<Call>) {
    forall i | |before| <= i < |after| :: after[i].effect != Unknown
  }

  lemma PassExtends(before: seq<Call>, mid: seq<Call>, after: seq<Call>, k: Kind, n: int, m: int)
    requires PassCalls(before, mid, k, n) && Certain(before, mid) && PassCalls(mid, after, k, m)
    ensures PassCalls(before, after, k, n + m)
    ensures Certain(mid, after) ==> Certain(before, after)
  {
    assert forall i | |before| <= i < |mid| :: after[i] == mid[i];
  }

  // ------------------------------------------------------------------------------------------
  // The invariant of one reset pass over the table of kind `k`.

  ghost predicate SuffixSame(t: Table<Record>, t': Table<Record>, cursor: nat) {
    && cursor <= |t.slots| == |t'.slots|
    && forall i | cursor <= i < |t.slots| :: t'.slots[i] == t.slots[i]
  }

  ghost predicate PrefixEmpty(t: Table<Record>, cursor: nat) {
    forall i | 0 <= i < cursor && i < |t.slots| :: t.slots[i].value.None?
  }

  /** Between `b` (pass start) and `e` (cursor position) only records of kind `k` before the cursor
      were touched, at most `perObject` calls were made for each live one, and the books balance. */
  ghost predicate PassInv(b: Engine, r0: Account, e: Engine, r: Account, k: Kind, cursor: nat, perObject: nat,
                          p: Progress) {
    && Inv(b.graph) && Inv(e.graph) && Balanced(e) && e == b.(graph := e.graph, trace := e.trace)
    && Descends(b.graph, e.graph)
    && Conserves(b.graph, r0, e.graph, r)
    && (forall j | j != k :: Count(e.graph, j) == Count(b.graph, j))
    && SuffixSame(T(b.graph, k), T(e.graph, k), cursor)
    && PassCalls(b.trace, e.trace, k, perObject * LiveCount(T(b.graph, k).slots[..cursor]))
    && (p.callable ==> Certain(b.trace, e.trace))
    && (p.reusable ==> PrefixEmpty(T(e.graph, k), cursor) && (AtRest(b.graph) ==> AtRest(e.graph)))
  }

  lemma PassStart(b: Engine, r0: Account, k: Kind, perObject: nat)
    requires Inv(b.graph) && Balanced(b)
    ensures PassInv(b, r0, b, r0, k, 0, perObject, Progress(true, true)) && Certain(b.trace, b.trace)
  {
    hide Ages, RecordOk, ObjectTables.Valid, Tally, ValidLimits, TableLimit, Outstanding;
    AgesItself(b.graph);
    assert T(b.graph, k).slots[..0] == [];
    assert LiveCount(T(b.graph, k).slots[..0]) == 0;
  }

  /** Moving the cursor to the next live slot, and counting the calls made for it. */
  lemma CallsFit(slots: seq<Slot<Record>>, cursor: nat, next: nat, perObject: nat, before: seq<Call>, mid: seq<Call>,
                 after: seq<Call>, k: Kind, calls: nat)
    requires cursor < next <= |slots| && slots[next - 1].value.Some?
    requires PassCalls(before, mid, k, perObject * LiveCount(slots[..cursor])) && Certain(before, mid)
    requires PassCalls(mid, after, k, calls) && calls <= perObject
    ensures PassCalls(before, after, k, perObject * LiveCount(slots[..next]))
    ensures Certain(mid, after) ==> Certain(before, after)
  {
    hide LiveCount, Certain;
    var m, n := LiveCount(slots[..cursor]), LiveCount(slots[..next]);
    LivePrefix(slots, cursor, next);
    PassExtends(before, mid, after, k, perObject * m, calls);
    Monotone(perObject, m, m);
    Monotone(perObject, m + 1, n);
  }

  /** One object visited by the pass: `e` becomes `a` and the flags `p` become `q`. `made` is the
      engine just before the release was attempted, after any polling calls. */
  lemma PassStep(b: Engine, r0: Account, e: Engine, r: Account, made: Engine, a: Engine, r': Account, k: Kind,
                 cursor: nat, next: nat, id: Id, perObject: nat, calls: nat, p: Progress, q: Progress)
    requires PassInv(b, r0, e, r, k, cursor, perObject, p) && Certain(b.trace, e.trace)
    requires cursor < next <= |T(e.graph, k).slots| && Locate(T(e.graph, k), id) == Ok(next - 1)
    requires p.reusable ==> forall i | cursor <= i < next - 1 :: T(e.graph, k).slots[i].value.None?
    requires made == e.(trace := made.trace) && Balanced(made)
    requires PassCalls(e.trace, a.trace, k, calls) && calls <= perObject
    requires q.reusable ==> p.reusable
    requires q.callable ==> Certain(e.trace, a.trace)
    requires (a == made && r' == r && !q.reusable) ||
             exists release :: Releasable(e.graph, k, id) && ResetSettled(made, r, a, r', k, id, release)
                               && (q.reusable ==> release == Released)
    ensures PassInv(b, r0, a, r', k, next, perObject, q)
    ensures k in a.graph.tables && |a.graph.tables[k].slots| == |e.graph.tables[k].slots|
    ensures Certain(e.trace, a.trace) ==> Certain(b.trace, a.trace)
  {
    hide Get, Inv, Outstanding, LiveCount, Certain, PassCalls, Held, Enter, ReleasedGraph, RejectedGraph, ReSlot,
         Conserves, Balanced, AtRest, Ages, Shape, Count, Locate, OnlySlot;
    InvShape(b.graph);
    InvShape(e.graph);
    CallsFit(T(b.graph, k).slots, cursor, next, perObject, b.trace, e.trace, a.trace, k, calls);
    SuffixShrinks(T(b.graph, k), T(e.graph, k), cursor, next);
    if !(a == made && r' == r && !q.reusable) {
      var release :| && Releasable(e.graph, k, id) && ResetSettled(made, r, a, r', k, id, release)
                     && (q.reusable ==> release == Released);
      ResetSettledEffect(made, r, a, r', k, id, release);
      InvShape(a.graph);
      ReleaseSlots(e.graph, k, id, if release.Rejected? then release.resource else 0);
      ConservesTransitively(b.graph, r0, e.graph, r, a.graph, r');
      DescendsTransitively(b.graph, e.graph, a.graph);
      SlotStep(T(b.graph, k), T(e.graph, k), T(a.graph, k), cursor, next);
    }
  }

  lemma SuffixShrinks(t: Table<Record>, t': Table<Record>, cursor: nat, next: nat)
    requires SuffixSame(t, t', cursor) && cursor <= next <= |t'.slots|
    ensures SuffixSame(t, t', next)
    ensures forall i | cursor <= i < |t.slots| :: t.slots[i] == t'.slots[i]
  {}

  /** Touching only the slot before `next` keeps the rest of the table; emptying it extends an empty
      prefix. */
  lemma SlotStep(t: Table<Record>, mid: Table<Record>, t': Table<Record>, cursor: nat, next: nat)
    requires SuffixSame(t, mid, cursor) && cursor < next <= |mid.slots| && OnlySlot(mid, t', next - 1)
    ensures SuffixSame(t, t', next) && |t'.slots| == |mid.slots|
    ensures PrefixEmpty(mid, cursor) && (forall i | cursor <= i < next - 1 :: mid.slots[i].value.None?)
            && t'.slots[next - 1].value.None?
            ==> PrefixEmpty(t', next)
  {}

  /** What a finished pass over kind `k` guarantees. */
  ghost predicate PassDone(b: Engine, r0: Account, a: Engine, r: Account, k: Kind, perObject: nat, p: Progress) {
    && Inv(b.graph) && Inv(a.graph) && Balanced(a) && a == b.(graph := a.graph, trace := a.trace)
    && Descends(b.graph, a.graph)
    && Conserves(b.graph, r0, a.graph, r)
    && (forall j | j != k :: Count(a.graph, j) == Count(b.graph, j))
    && PassCalls(b.trace, a.trace, k, perObject * Count(b.graph, k))
    && (p.callable ==> Certain(b.trace, a.trace))
    && (p.reusable ==> p.callable && Count(a.graph, k) == 0 && (AtRest(b.graph) ==> AtRest(a.graph)))
  }

  lemma PassFinishes(b: Engine, r0: Account, e: Engine, r: Account, k: Kind, cursor: nat, perObject: nat, p: Progress)
    requires PassInv(b, r0, e, r, k, cursor, perObject, p)
    requires p.reusable ==> p.callable && NextId(T(e.graph, k), cursor).None?
    ensures PassDone(b, r0, e, r, k, perObject, p)
  {
    hide Get, RecordOk, Tally, ValidLimits, TableLimit, ObjectTables.Valid, Outstanding, Certain, Conserves, Balanced,
         AtRest, LiveCount, NextId;
    var slots := T(b.graph, k).slots;
    LiveMonotone(slots, cursor, |slots|);
    assert slots[..|slots|] == slots;
    LiveIsCount(b.graph, k);
    Monotone(perObject, LiveCount(slots[..cursor]), LiveCount(slots));
    if p.reusable {
      LiveIsCount(e.graph, k);
      NextIdSkipsNothing(T(e.graph, k), cursor);
      NoneLive(T(e.graph, k).slots);
    }
  }

  lemma LiveIsCount(g: Graph, k: Kind)
    requires Shape(g)
    ensures Count(g, k) == LiveCount(T(g, k).slots)
  {}

  lemma OneCall(trace: seq<Call>, k: Kind, charge: nat, release: Release)
    ensures var after := trace + [DestroyCall(k, charge, release)];
            PassCalls(trace, after, k, 1) && (Certain(trace, after) <==> !release.Indeterminate?)
  {
    var after := trace + [DestroyCall(k, charge, release)];
    assert after[|trace|] == DestroyCall(k, charge, release);
  }

  lemma NoteBalanced(e: Engine, call: Call)
    requires Inv(e.graph) && Balanced(e) && Delta(call) == 0
    ensures Balanced(e.(trace := e.trace + [call]))
  {
    hide Inv, Outstanding, Count, Standing;
    assert Shape(e.graph);
    assert Grown(e.graph, e.graph, call.kind, 0, call.charge) by { hide Shape; }
    StaysBalanced(e, call, e.graph, 0, e.quarantined);
  }

  /** Polling and cancelling calls about events, before a release is attempted. */
  lemma QueryCall(before: seq<Call>, mid: seq<Call>, call: Call, n: int)
    requires PassCalls(before, mid, Event, n) && Certain(before, mid)
    requires call.kind == Event && (call.op == Poll || call.op == Cancel) && call.effect != Unknown
    ensures PassCalls(before, mid + [call], Event, n + 1) && Certain(before, mid + [call])
  {
    var after := mid + [call];
    assert forall i | |before| <= i < |mid| :: after[i] == mid[i];
    assert after[|mid|] == call;
  }

  lemma NoCalls(trace: seq<Call>, k: Kind)
    ensures PassCalls(trace, trace, k, 0) && Certain(trace, trace)
  {}

  lemma PassWiden(before: seq<Call>, after: seq<Call>, k: Kind, n: int, m: int)
    requires PassCalls(before, after, k, n) && n <= m
    ensures PassCalls(before, after, k, m)
  {}

  // ------------------------------------------------------------------------------------------
  // The five passes in order.

  /** At most four calls per event and one per other object, over the passes before `phase`. */
  function Budget(g: Graph, phase: nat): nat
    requires Shape(g)
  {
    (if phase > 0 then 4 * Count(g, Event) else 0) + (if phase > 1 then Count(g, Queue) else 0)
    + (if phase > 2 then Count(g, Program) else 0) + (if phase > 3 then Count(g, Buffer) else 0)
    + (if phase > 4 then Count(g, Context) else 0)
  }

  /** Calls come in phase order and nothing follows an indeterminate release. */
  ghost predicate Ordered(before: seq<Call>, after: seq<Call>, phase: nat) {
    && before <= after
    && (forall i | |before| <= i < |after| ::
          Phase(after[i].kind) < phase && after[i].op != Create && after[i].op != Transfer)
    && (forall i, j | |before| <= i < j < |after| :: Phase(after[i].kind) <= Phase(after[j].kind))
    && (forall i | |before| <= i < |after| - 1 :: after[i].effect != Unknown)
  }

  ghost predicate SoFar(b: Engine, e: Engine, r: Account, phase: nat, p: Progress) {
    && Inv(b.graph) && Inv(e.graph) && Balanced(e) && e == b.(graph := e.graph, trace := e.trace)
    && Descends(b.graph, e.graph)
    && Conserves(b.graph, EMPTY, e.graph, r)
    && Ordered(b.trace, e.trace, phase) && |e.trace| <= |b.trace| + Budget(b.graph, phase)
    && (p.callable ==> Certain(b.trace, e.trace))
    && (p.reusable ==>
         p.callable && (AtRest(b.graph) ==> AtRest(e.graph)) && forall k | Phase(k) < phase :: Count(e.graph, k) == 0)
    && (forall k | Phase(k) >= phase :: Count(e.graph, k) == Count(b.graph, k))
  }

  lemma NothingYet(b: Engine)
    requires Inv(b.graph) && Balanced(b)
    ensures SoFar(b, b, EMPTY, 0, Progress(true, true))
  {
    hide Ages, RecordOk, ObjectTables.Valid, Tally, ValidLimits, TableLimit, Outstanding;
    AgesItself(b.graph);
    forall c
      ensures In(EMPTY, c) == 0
    {
      match c {
        case Objects(k) => match k { case Context => case Buffer => case Program => case Queue => case Event => }
        case BackingBytes =>
        case ResidentBytes =>
      }
    }
  }

  lemma OrderedExtends(before: seq<Call>, mid: seq<Call>, after: seq<Call>, k: Kind, n: int)
    requires Ordered(before, mid, Phase(k)) && Certain(before, mid) && PassCalls(mid, after, k, n)
    ensures Ordered(before, after, Phase(k) + 1) && (Certain(mid, after) ==> Certain(before, after))
  {
    assert forall i | |before| <= i < |mid| :: after[i] == mid[i];
  }

  lemma Advance(b: Engine, e: Engine, r: Account, p: Progress, k: Kind, a: Engine, r': Account, perObject: nat,
                q: Progress)
    requires SoFar(b, e, r, Phase(k), p) && p.callable && PassDone(e, r, a, r', k, perObject, q)
    requires perObject == if k == Event then 4 else 1
    ensures SoFar(b, a, r', Phase(k) + 1, Progress(p.reusable && q.reusable, q.callable))
  {
    hide Get, RecordOk, ObjectTables.Valid, Tally, ValidLimits, TableLimit, Outstanding, Balanced, Conserves, AtRest,
         Ordered, Certain, Count;
    OrderedExtends(b.trace, e.trace, a.trace, k, perObject * Count(e.graph, k));
    ConservesTransitively(b.graph, EMPTY, e.graph, r, a.graph, r');
    DescendsTransitively(b.graph, e.graph, a.graph);
    assert Budget(b.graph, Phase(k) + 1) == Budget(b.graph, Phase(k)) + perObject * Count(b.graph, k);
    PhaseInjective();
  }

  lemma PhaseInjective()
    ensures forall j, k :: Phase(j) == Phase(k) ==> j == k
    ensures forall k :: Phase(k) <= 4
  {}

  lemma PassSkipped(b: Engine, e: Engine, r: Account, phase: nat, p: Progress)
    requires SoFar(b, e, r, phase, p) && !p.callable
    ensures SoFar(b, e, r, phase + 1, p)
  {
    hide Get, Inv, Balanced, Conserves, AtRest, Count, Certain, Shape;
  }

  /** Once the earlier passes have emptied their tables, everything of kind `k` can be released. */
  lemma ReadyForPass(g: Graph, k: Kind, x: Id)
    requires Inv(g) && AtRest(g) && Alive(g, k, x) && forall j | Phase(j) < Phase(k) :: Count(g, j) == 0
    ensures Releasable(g, k, x)
  {
    hide Get, Tally, ValidLimits, TableLimit, ObjectTables.Valid, RecordOk;
    if k == Context {
      forall j | j != Context
        ensures Count(g, j) == 0
      {
        assert Phase(j) < Phase(Context);
      }
      NoChildrenNoHolds(g, x);
    } else if k != Event {
      assert Phase(Event) < Phase(k);
      NoEventsNoHolds(g, k, x);
    } else {
      EventsAreNeverHeld(g, x);
    }
  }

  lemma EventsAreNeverHeld(g: Graph, x: Id)
    requires Inv(g) && Alive(g, Event, x)
    ensures !Held(Rec(g, Event, x))
  {
    hide Get, Tally, ValidLimits, TableLimit, ObjectTables.Valid;
    assert RecordOk(g, Event, x);
  }

  /** What is still in the graph, as an account. */
  function Remaining(g: Graph): (a: Account)
    requires Inv(g)
    ensures forall c :: In(a, c) == Standing(g, c)
  {
    Account(Count(g, Context), Count(g, Buffer), Count(g, Program), Count(g, Queue), Count(g, Event), g.backing,
            g.resident)
  }

  /** Result of a reset that ran its passes. */
  ghost predicate ResetResult(b: Engine, a: Engine, report: Report, namespace: nat) {
    && Inv(b.graph) && Inv(a.graph)
    && (forall c :: In(report.released, c) + In(report.quarantined, c) == Standing(b.graph, c) + In(b.quarantined, c))
    && Ordered(b.trace, a.trace, 5) && |a.trace| <= |b.trace| + Budget(b.graph, 5)
    && (report.reusable ==>
          && a.health == Running && a.lastReset == None
          && a.graph == NewGraph(namespace, b.graph.limits, b.graph.policy)
          && a.quarantined == EMPTY && report.quarantined == EMPTY && Certain(b.trace, a.trace)
          && (forall k, id | Alive(b.graph, k, id) :: Get(a.graph.tables[k], id) == Err(StaleId)))
    && (!report.reusable ==>
          && a.health == DiscardRequired && a.lastReset == Some(report) && a.quarantined == b.quarantined
          && Descends(b.graph, a.graph)
          && forall c :: In(report.quarantined, c) == Standing(a.graph, c) + In(a.quarantined, c))
  }

  lemma OldIdsAreStale(b: Graph, namespace: nat, k: Kind, id: Id)
    requires Inv(b) && Alive(b, k, id) && namespace != b.namespace
    ensures k in NewGraph(namespace, b.limits, b.policy).tables
    ensures Get(NewGraph(namespace, b.limits, b.policy).tables[k], id) == Err(StaleId)
  {
    hide RecordOk, Tally, ValidLimits;
  }

  lemma ZeroSum(a: Account, b: Account)
    requires Sum(a, b) == EMPTY
    ensures a == EMPTY && b == EMPTY
  {}

  lemma EmptyIsZero()
    ensures forall c :: In(EMPTY, c) == 0
  {
    forall c
      ensures In(EMPTY, c) == 0
    {
      match c {
        case Objects(k) => match k { case Context => case Buffer => case Program => case Queue => case Event => }
        case BackingBytes =>
        case ResidentBytes =>
      }
    }
  }

  /** A graph without objects retains no bytes either. */
  lemma NothingRemains(g: Graph)
    requires Inv(g) && forall k :: Count(g, k) == 0
    ensures Remaining(g) == EMPTY
  {
    hide RecordOk, ValidLimits, TableLimit, Tally;
    assert Count(g, Buffer) == 0 && Count(g, Program) == 0 && Count(g, Context) == 0 && Count(g, Queue) == 0
           && Count(g, Event) == 0;
    EmptyTally(T(g, Buffer).slots, Charged);
    EmptyTally(T(g, Program).slots, Charged);
  }

  lemma NewGraphStandsEmpty(namespace: nat, limits: Limits, policy: Policy, c: Column)
    requires namespace < U16 && ValidLimits(limits)
    ensures Inv(NewGraph(namespace, limits, policy)) && Standing(NewGraph(namespace, limits, policy), c) == 0
  {
    hide RecordOk, Tally, ValidLimits;
    NewGraphInv(namespace, limits, policy);
    match c {
      case Objects(k) => match k { case Context => case Buffer => case Program => case Queue => case Event => }
      case BackingBytes =>
      case ResidentBytes =>
    }
  }

  /** A fresh graph under the old trace: the backend has everything back. */
  lemma Restarted(e: Engine, a: Engine, namespace: nat)
    requires Inv(e.graph) && Balanced(e) && e.quarantined == EMPTY && Remaining(e.graph) == EMPTY && namespace < U16
    requires a.graph == NewGraph(namespace, e.graph.limits, e.graph.policy) && a.trace == e.trace
             && a.quarantined == EMPTY
    ensures EngineInv(a)
  {
    hide RecordOk, Tally, Outstanding, Remaining, Standing, In, ObjectTables.Valid, TableLimit;
    NewGraphInv(namespace, e.graph.limits, e.graph.policy);
    EmptyIsZero();
    forall c
      ensures Outstanding(a.trace, c) == Standing(a.graph, c) + In(a.quarantined, c)
    {
      assert Outstanding(e.trace, c) == Standing(e.graph, c) + In(e.quarantined, c);
      assert In(Remaining(e.graph), c) == 0;
      NewGraphStandsEmpty(namespace, e.graph.limits, e.graph.policy, c);
    }
  }

  /** Released plus reported quarantined is everything there was before the reset. */
  lemma ReportAddsUp(b: Graph, e: Graph, q: Account, released: Account, total: Account)
    requires Inv(b) && Inv(e) && Conserves(b, EMPTY, e, released) && total == Sum(q, Remaining(e))
    ensures forall c :: In(released, c) + In(total, c) == Standing(b, c) + In(q, c)
    ensures forall c :: In(total, c) == Standing(e, c) + In(q, c)
  {
    hide Inv, Remaining, Sum, Shape, In, Standing;
    EmptyIsZero();
  }
}
