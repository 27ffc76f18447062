/** What reset does object by object: which calls it makes about each, on what answers, and why an
    object is passed over. */
module ResetLogs {
  import opened Bytes
  import opened ObjectTables
  import opened Graphs
  import opened GraphLaws
  import opened DeviceStates
  import opened GraphEffects
  import opened Wire
  import opened Ledgers
  import opened Commands
  import opened ResetLaws
  import opened Meanings

  /** One object visited: its queries are the calls from `start` to `asked`, and if `end` is past
      `asked`, the call at `asked` attempts its release. */
  datatype Visit = Visit(kind: Kind, id: Id, start: nat, asked: nat, end: nat)

  /** The backend's answer to call `i` says that the event asked about has finished. */
  ghost predicate Finished(s: Setup, trace: seq<Call>, i: nat)
    requires i < |trace|
  {
    || (trace[i].op == Poll && s.backend(i).poll.Ok?
        && s.backend(i).poll.value != Pending && s.backend(i).poll.value != Failed(BackendError.DeviceLost))
    || (trace[i].op == Cancel && s.backend(i).transfer.Ok?)
  }

  /** How an event is asked about: one poll; a cancellation exactly if it is pending and cancellation
      is supported; and one more poll exactly if the cancellation is answered busy. */
  ghost predicate Queried(s: Setup, trace: seq<Call>, from: nat, to: nat) {
    && from < to <= |trace| && to <= from + 3
    && trace[from] == PollCall(s.backend(from).poll)
    && (to > from + 1 <==> s.cancellation && s.backend(from).poll == Ok(Pending))
    && (to > from + 1 ==> trace[from + 1] == CancelCall(s.backend(from + 1).transfer))
    && (to > from + 2 <==> to > from + 1 && s.backend(from + 1).transfer == Err(BackendError.Busy))
    && (to > from + 2 ==> trace[from + 2] == PollCall(s.backend(from + 2).poll))
  }

  /** The state a poll reports, if it is final and the device is not lost. */
  function FinalState(reply: Result<EventState, BackendError>): Option<EventState> {
    match reply
    case Err(_) => None
    case Ok(Pending) => None
    case Ok(Failed(DeviceLost)) => None
    case Ok(state) => Some(state)
  }

  /** A poll that reports a lost device ends the calls. */
  function AfterPoll(reply: Result<EventState, BackendError>): Progress {
    Progress(false, reply != Err(BackendError.DeviceLost) && reply != Ok(Failed(BackendError.DeviceLost)))
  }

  /** What the queries from `from` on have shown: the final state, if the last answer gives it; and
      otherwise the flags, callable exactly if that answer did not report a lost device. */
  ghost predicate Learned(s: Setup, from: nat, trace: seq<Call>, final: Option<EventState>, p: Progress) {
    && Queried(s, trace, from, |trace|)
    && var last := |trace| - 1;
       && (final.Some? <==> Finished(s, trace, last))
       && (final.Some? ==> if trace[last].op == Poll then s.backend(last).poll == Ok(final.value)
                           else final.value == Cancelled && s.backend(last).transfer.Ok?)
       && (final.None? ==> p == Progress(false, !trace[last].lost))
  }

  lemma OneAnswer(s: Setup, t: seq<Call>, final: Option<EventState>, p: Progress)
    requires !(s.cancellation && s.backend(|t|).poll == Ok(Pending))
    requires final == FinalState(s.backend(|t|).poll) && p == AfterPoll(s.backend(|t|).poll)
    ensures Learned(s, |t|, t + [PollCall(s.backend(|t|).poll)], final, p)
  {}

  lemma TwoAnswers(s: Setup, t: seq<Call>, final: Option<EventState>, p: Progress)
    requires s.cancellation && s.backend(|t|).poll == Ok(Pending)
    requires match s.backend(|t| + 1).transfer
             case Ok(_) => final == Some(Cancelled)
             case Err(error) =>
               error != BackendError.Busy && final == None && p == Progress(false, error != BackendError.DeviceLost)
    ensures Learned(s, |t|, t + [PollCall(s.backend(|t|).poll)] + [CancelCall(s.backend(|t| + 1).transfer)], final, p)
  {}

  lemma ThreeAnswers(s: Setup, t: seq<Call>, final: Option<EventState>, p: Progress)
    requires s.cancellation && s.backend(|t|).poll == Ok(Pending)
    requires s.backend(|t| + 1).transfer == Err(BackendError.Busy)
    requires final == FinalState(s.backend(|t| + 2).poll) && p == AfterPoll(s.backend(|t| + 2).poll)
    ensures var first, second := PollCall(s.backend(|t|).poll), CancelCall(s.backend(|t| + 1).transfer);
            Learned(s, |t|, t + [first] + [second] + [PollCall(s.backend(|t| + 2).poll)], final, p)
  {}

  /** The calls of one visit. An event is asked about first; the release is attempted exactly if nothing
      depends on the object (`free`) and, for an event, the last answer said it has finished. */
  ghost predicate Calls(s: Setup, trace: seq<Call>, v: Visit, charge: nat, free: bool) {
    && v.start <= v.asked <= v.end <= v.asked + 1 && v.end <= |trace|
    && (if v.kind == Event then Queried(s, trace, v.start, v.asked) else v.start == v.asked)
    && (v.end > v.asked <==> free && (v.kind == Event ==> Finished(s, trace, v.asked - 1)))
    && (v.end > v.asked ==> trace[v.asked] == DestroyCall(v.kind, charge, s.backend(v.asked).release))
  }

  /** The backend took the object back. */
  ghost predicate Freed(trace: seq<Call>, v: Visit) {
    v.asked < v.end <= |trace| && trace[v.asked].effect == Gone
  }

  /** The visit ended with an indeterminate release. */
  ghost predicate Unsure(trace: seq<Call>, v: Visit) {
    v.start < v.end <= |trace| && trace[v.end - 1].effect == Unknown
  }

  /** The visit ended with the device lost. */
  ghost predicate Lossy(trace: seq<Call>, v: Visit) {
    v.start < v.end <= |trace| && (trace[v.end - 1].lost || trace[v.end - 1].effect == Unknown)
  }

  /** Visits follow one another without gap through the calls. */
  ghost predicate Tiles(log: seq<Visit>, from: nat, to: nat) {
    && (if log == [] then from == to else log[0].start == from && log[|log| - 1].end == to)
    && (forall n | 0 <= n < |log| - 1 :: log[n].end == log[n + 1].start)
  }

  /** `w` may come after `v`: children before parents, in table order; nothing after an indeterminate
      release; after a lost device only the rest of a pass over queues, programs, buffers or contexts. */
  ghost predicate Then(trace: seq<Call>, v: Visit, w: Visit) {
    && (Phase(v.kind) < Phase(w.kind) || (v.kind == w.kind && v.id.slot < w.id.slot))
    && (Lossy(trace, v) ==> v.kind == w.kind && v.kind != Event && !Unsure(trace, v))
  }

  /** The object was visited. */
  ghost predicate Seen(log: seq<Visit>, k: Kind, x: Id) {
    exists n | 0 <= n < |log| :: log[n].kind == k && log[n].id == x
  }

  /** The object was visited and released. */
  ghost predicate Gave(log: seq<Visit>, trace: seq<Call>, k: Kind, x: Id) {
    exists n | 0 <= n < |log| :: log[n].kind == k && log[n].id == x && Freed(trace, log[n])
  }

  /** The record without counters and resource: what it is and what it refers to. */
  function Core(r: Record): Record { WithSlot(Plain(r), None) }

  ghost predicate SameCores(g: Graph, g': Graph) {
    forall k, x | Alive(g, k, x) && Alive(g', k, x) :: Core(Rec(g', k, x)) == Core(Rec(g, k, x))
  }

  ghost predicate Recorded(s: Setup, b: Engine, e: Engine, v: Visit) {
    && Alive(b.graph, v.kind, v.id)
    && Calls(s, e.trace, v, Charge(Rec(b.graph, v.kind, v.id)), !Named(e.graph, v.kind, v.id))
  }

  /** `log` accounts for everything that happened between `b` and `e`. */
  ghost predicate Logged(s: Setup, b: Engine, e: Engine, log: seq<Visit>) {
    && b.trace <= e.trace && Tiles(log, |b.trace|, |e.trace|)
    && (forall n | 0 <= n < |log| :: Recorded(s, b, e, log[n]))
    && (forall m, n | 0 <= m < n < |log| :: Then(e.trace, log[m], log[n]))
    && (forall k, x :: Alive(e.graph, k, x) <==> Alive(b.graph, k, x) && !Gave(log, e.trace, k, x))
    && SameCores(b.graph, e.graph)
    && (Certain(b.trace, e.trace) ==> AtRest(e.graph))
  }

  lemma NothingLogged(s: Setup, b: Engine)
    requires AtRest(b.graph)
    ensures Logged(s, b, b, [])
  {
    hide Alive, Rec;
  }

  // ------------------------------------------------------------------------------------------
  // One more visit.

  /** What a visit does to the graph. */
  ghost predicate Touched(g: Graph, g': Graph, k: Kind, id: Id, freed: bool) {
    && (forall j, x :: Alive(g', j, x) <==> Alive(g, j, x) && !(freed && j == k && x == id))
    && SameCores(g, g')
  }

  lemma CoreNames(r: Record, r': Record, k: Kind, id: Id)
    requires Core(r) == Core(r')
    ensures Names(r, k, id) <==> Names(r', k, id)
    ensures Charge(r) == Charge(r') && KindOf(r) == KindOf(r')
  {}

  lemma NamersComeFirst(r: Record, k: Kind, id: Id)
    requires Names(r, k, id)
    ensures Phase(KindOf(r)) < Phase(k)
  {}

  /** Visiting an object does not change what depends on those visited before it. */
  lemma StillNamed(g: Graph, g': Graph, k: Kind, id: Id, freed: bool, j: Kind, x: Id)
    requires Inv(g) && Inv(g') && Touched(g, g', k, id, freed) && Phase(j) <= Phase(k)
    ensures Named(g', j, x) <==> Named(g, j, x)
  {
    hide Alive, Rec, Inv, Core, Names;
    forall i, y | Alive(g, i, y) && Names(Rec(g, i, y), j, x)
      ensures Alive(g', i, y) && Names(Rec(g', i, y), j, x)
    {
      NamersComeFirst(Rec(g, i, y), j, x);
      KindIsItsTable(g, i, y);
      CoreNames(Rec(g, i, y), Rec(g', i, y), j, x);
    }
    forall i, y | Alive(g', i, y) && Names(Rec(g', i, y), j, x)
      ensures Alive(g, i, y) && Names(Rec(g, i, y), j, x)
    {
      CoreNames(Rec(g, i, y), Rec(g', i, y), j, x);
    }
  }

  /** Later calls do not change what a visit is. */
  lemma CallsStay(s: Setup, t: seq<Call>, t': seq<Call>, v: Visit, charge: nat, free: bool)
    requires t <= t' && Calls(s, t, v, charge, free)
    ensures Calls(s, t', v, charge, free)
    ensures Freed(t', v) <==> Freed(t, v)
    ensures Lossy(t', v) <==> Lossy(t, v)
    ensures Unsure(t', v) <==> Unsure(t, v)
  {
    assert forall i | 0 <= i < |t| :: t'[i] == t[i];
  }

  lemma GaveMore(log: seq<Visit>, v: Visit, t: seq<Call>, t': seq<Call>, k: Kind, x: Id)
    requires forall n | 0 <= n < |log| :: Freed(t', log[n]) <==> Freed(t, log[n])
    ensures Gave(log + [v], t', k, x) <==> Gave(log, t, k, x) || (v.kind == k && v.id == x && Freed(t', v))
  {
    hide Freed;
    var more := log + [v];
    if n :| 0 <= n < |log| && log[n].kind == k && log[n].id == x && Freed(t, log[n]) {
      assert more[n] == log[n];
    }
    if v.kind == k && v.id == x && Freed(t', v) { assert more[|log|] == v; }
  }

  /** Everything visit `v` must be for it to continue the log. */
  ghost predicate Continues(s: Setup, b: Engine, e: Engine, a: Engine, log: seq<Visit>, v: Visit) {
    && Inv(e.graph) && Inv(a.graph) && e.trace <= a.trace && v.start == |e.trace| && v.end == |a.trace|
    && Alive(e.graph, v.kind, v.id)
    && Calls(s, a.trace, v, Charge(Rec(e.graph, v.kind, v.id)), !Named(e.graph, v.kind, v.id))
    && Touched(e.graph, a.graph, v.kind, v.id, Freed(a.trace, v))
    && (forall n | 0 <= n < |log| :: Then(e.trace, log[n], v))
    && (!Unsure(a.trace, v) && AtRest(e.graph) ==> AtRest(a.graph))
  }

  lemma LogVisit(s: Setup, b: Engine, e: Engine, a: Engine, log: seq<Visit>, v: Visit)
    requires Logged(s, b, e, log) && Continues(s, b, e, a, log, v)
    ensures Logged(s, b, a, log + [v])
  {
    hide Inv, Alive, Rec, AtRest, Calls, Freed, Lossy, Unsure, Gave, Named, Core, Charge, Certain, Tiles, SameCores,
         Recorded, Then;
    var more := log + [v];
    forall n | 0 <= n < |more|
      ensures Recorded(s, b, a, more[n])
    {
      if n < |log| { KeepsRecorded(s, b, e, a, log, v, n); } else { NewlyRecorded(s, b, e, a, log, v); }
    }
    TilesOn(log, v, |b.trace|, |e.trace|);
    ThenOn(s, b, e, a, log, v);
    AliveOn(s, b, e, a, log, v);
    CoresOn(b.graph, e.graph, a.graph);
    RestOn(s, b, e, a, log, v);
  }

  lemma KeepsRecorded(s: Setup, b: Engine, e: Engine, a: Engine, log: seq<Visit>, v: Visit, n: nat)
    requires Logged(s, b, e, log) && Continues(s, b, e, a, log, v) && n < |log|
    ensures Recorded(s, b, a, log[n])
  {
    hide Inv, Alive, Rec, AtRest, Freed, Lossy, Unsure, Gave, Core, Certain, Tiles, SameCores, Names, Named, Calls;
    var w := log[n];
    assert Then(e.trace, w, v);
    StillNamed(e.graph, a.graph, v.kind, v.id, Freed(a.trace, v), w.kind, w.id);
    CallsStay(s, e.trace, a.trace, w, Charge(Rec(b.graph, w.kind, w.id)), !Named(e.graph, w.kind, w.id));
  }

  lemma NewlyRecorded(s: Setup, b: Engine, e: Engine, a: Engine, log: seq<Visit>, v: Visit)
    requires Logged(s, b, e, log) && Continues(s, b, e, a, log, v)
    ensures Recorded(s, b, a, v)
  {
    hide Inv, Alive, Rec, AtRest, Freed, Lossy, Unsure, Gave, Core, Certain, Tiles, Then, Names, Named, Calls, Charge;
    CoreNames(Rec(b.graph, v.kind, v.id), Rec(e.graph, v.kind, v.id), v.kind, v.id);
    StillNamed(e.graph, a.graph, v.kind, v.id, Freed(a.trace, v), v.kind, v.id);
  }

  lemma TilesOn(log: seq<Visit>, v: Visit, from: nat, mid: nat)
    requires Tiles(log, from, mid) && v.start == mid
    ensures Tiles(log + [v], from, v.end)
  {}

  lemma ThenOn(s: Setup, b: Engine, e: Engine, a: Engine, log: seq<Visit>, v: Visit)
    requires Logged(s, b, e, log) && Continues(s, b, e, a, log, v)
    ensures var more := log + [v]; forall m, n | 0 <= m < n < |more| :: Then(a.trace, more[m], more[n])
  {
    hide Inv, Alive, Rec, AtRest, Gave, Core, Certain, Tiles, SameCores, Named, Calls, Freed, Lossy, Unsure, Charge;
    var more := log + [v];
    forall m, n | 0 <= m < n < |more|
      ensures Then(a.trace, more[m], more[n])
    {
      var w := log[m];
      assert Recorded(s, b, e, w);
      CallsStay(s, e.trace, a.trace, w, Charge(Rec(b.graph, w.kind, w.id)), !Named(e.graph, w.kind, w.id));
      assert Then(e.trace, more[m], more[n]);
    }
  }

  lemma AliveOn(s: Setup, b: Engine, e: Engine, a: Engine, log: seq<Visit>, v: Visit)
    requires Logged(s, b, e, log) && Continues(s, b, e, a, log, v)
    ensures forall k, x :: Alive(a.graph, k, x) <==> Alive(b.graph, k, x) && !Gave(log + [v], a.trace, k, x)
  {
    hide Inv, Alive, Rec, AtRest, Gave, Core, Certain, Tiles, SameCores, Named, Calls, Freed, Lossy, Unsure, Charge,
         Then;
    forall n | 0 <= n < |log|
      ensures Freed(a.trace, log[n]) <==> Freed(e.trace, log[n])
    {
      var w := log[n];
      assert Recorded(s, b, e, w);
      CallsStay(s, e.trace, a.trace, w, Charge(Rec(b.graph, w.kind, w.id)), !Named(e.graph, w.kind, w.id));
    }
    forall k, x
      ensures Alive(a.graph, k, x) <==> Alive(b.graph, k, x) && !Gave(log + [v], a.trace, k, x)
    {
      GaveMore(log, v, e.trace, a.trace, k, x);
      assert Alive(a.graph, k, x) <==> Alive(e.graph, k, x) && !(Freed(a.trace, v) && k == v.kind && x == v.id);
    }
  }

  lemma CoresOn(g: Graph, mid: Graph, g': Graph)
    requires SameCores(g, mid) && SameCores(mid, g') && forall k, x | Alive(g', k, x) :: Alive(mid, k, x)
    ensures SameCores(g, g')
  {
    hide Alive, Rec, Core;
  }

  lemma RestOn(s: Setup, b: Engine, e: Engine, a: Engine, log: seq<Visit>, v: Visit)
    requires Logged(s, b, e, log) && Continues(s, b, e, a, log, v)
    ensures Certain(b.trace, a.trace) ==> AtRest(a.graph)
  {
    hide Inv, Alive, Rec, AtRest, Gave, Core, Tiles, SameCores, Named, Calls, Freed, Charge, Then, Recorded;
    if Certain(b.trace, a.trace) {
      assert forall i | |b.trace| <= i < |e.trace| :: a.trace[i] == e.trace[i];
      assert Certain(b.trace, e.trace);
      assert !Unsure(a.trace, v);
    }
  }

  // ------------------------------------------------------------------------------------------
  // Visits as the engine makes them.

  /** However a release ends, it touches nothing but its own object, and only an indeterminate one leaves
      a release under way. */
  lemma SettledTouches(e: Engine, r: Account, a: Engine, r': Account, k: Kind, id: Id, release: Release)
    requires Inv(e.graph) && Releasable(e.graph, k, id) && ResetSettled(e, r, a, r', k, id, release)
    ensures Inv(a.graph) && Touched(e.graph, a.graph, k, id, release.Released?)
    ensures a.trace == e.trace + [DestroyCall(k, Charge(Rec(e.graph, k, id)), release)]
    ensures AtRest(e.graph) && !release.Indeterminate? ==> AtRest(a.graph)
  {
    hide Inv, Alive, Rec, AtRest, ReSlot, ReleasedGraph, RejectedGraph, Releasable, Enter, Grown, Plain, Charge;
    match release {
      case Released =>
        ReleasedRemoves(e.graph, k, id);
        ReleasedEffect(e.graph, k, id);
        PlainIsCore(e.graph, a.graph);
      case Rejected(_, h) =>
        RejectedResources(e.graph, k, id, h);
        RejectedEffect(e.graph, k, id, h);
        ResourcesKeepCores(e.graph, a.graph, k, id, h);
      case Indeterminate(_) =>
        BegunEffect(e.graph, k, id);
        EmptiedKeepsCores(e.graph, a.graph, k, id);
    }
  }

  lemma PlainIsCore(g: Graph, g': Graph)
    requires forall k, x | Alive(g', k, x) :: Alive(g, k, x) && Plain(Rec(g', k, x)) == Plain(Rec(g, k, x))
    ensures SameCores(g, g')
  {
    hide Alive, Rec, Plain;
  }

  lemma ResourcesKeepCores(g: Graph, g': Graph, k: Kind, id: Id, h: Handle)
    requires Resources(g, g', k, id, h)
    ensures SameCores(g, g')
  {
    hide Alive, Rec;
  }

  lemma EmptiedKeepsCores(g: Graph, g': Graph, k: Kind, id: Id)
    requires Alive(g, k, id) && Alive(g', k, id) && Rec(g', k, id) == WithSlot(Rec(g, k, id), None)
    requires forall j, x | Alive(g, j, x) && !(j == k && x == id) :: Alive(g', j, x) && Rec(g', j, x) == Rec(g, j, x)
    ensures SameCores(g, g')
  {
    hide Alive, Rec;
  }

  /** At rest, an object can be released exactly when nothing depends on it. */
  lemma ReleasableIffUnnamed(g: Graph, k: Kind, id: Id)
    requires Inv(g) && AtRest(g) && Alive(g, k, id)
    ensures Releasable(g, k, id) <==> !Named(g, k, id)
  {
    hide Inv, Alive, Rec, Held, Named;
    HeldIffNamed(g, k, id);
    RestingHasResource(g, k, id);
  }

  lemma Untouched(g: Graph, k: Kind, id: Id)
    ensures Touched(g, g, k, id, false)
  {
    hide Alive, Rec;
  }

  /** The visits of a log all let `v` come next. */
  ghost predicate Poised(trace: seq<Call>, log: seq<Visit>, k: Kind, cursor: nat) {
    forall n | 0 <= n < |log| ::
      && (Phase(log[n].kind) < Phase(k) || (log[n].kind == k && log[n].id.slot <= cursor))
      && (Lossy(trace, log[n]) ==> log[n].kind == k && k != Event && !Unsure(trace, log[n]))
  }

  /** Visiting a queue, program, buffer or context. */
  lemma PlainVisit(s: Setup, b: Engine, e: Engine, r: Account, a: Engine, r': Account, log: seq<Visit>, k: Kind, id: Id,
                   cursor: nat)
    requires Logged(s, b, e, log) && Inv(e.graph) && AtRest(e.graph) && k != Event && Alive(e.graph, k, id)
    requires !Releasable(e.graph, k, id) ==> a == e
    requires Releasable(e.graph, k, id) ==> ResetSettled(e, r, a, r', k, id, s.backend(|e.trace|).release)
    requires Poised(e.trace, log, k, cursor) && cursor < id.slot
    ensures var v := Visit(k, id, |e.trace|, |e.trace|, |a.trace|);
            var tried, release := Releasable(e.graph, k, id), s.backend(|e.trace|).release;
            && Logged(s, b, a, log + [v])
            && (Freed(a.trace, v) <==> tried && release.Released?)
            && (Unsure(a.trace, v) <==> tried && release.Indeterminate?)
            && (Lossy(a.trace, v) <==>
                  tried && (release.Indeterminate? || (release.Rejected? && release.error == BackendError.DeviceLost)))
            && (!(tried && release.Indeterminate?) ==> AtRest(a.graph))
    ensures forall x | Alive(a.graph, k, x) :: Alive(e.graph, k, x)
  {
    hide Inv, Alive, Rec, AtRest, Releasable, Logged, Named, SameCores, Charge, ResetSettled;
    var v := Visit(k, id, |e.trace|, |e.trace|, |a.trace|);
    ReleasableIffUnnamed(e.graph, k, id);
    if Releasable(e.graph, k, id) {
      SettledTouches(e, r, a, r', k, id, s.backend(|e.trace|).release);
    } else {
      Untouched(e.graph, k, id);
    }
    PoisedThen(e.trace, log, k, cursor, v);
    LogVisit(s, b, e, a, log, v);
  }

  lemma PoisedThen(trace: seq<Call>, log: seq<Visit>, k: Kind, cursor: nat, v: Visit)
    requires Poised(trace, log, k, cursor) && v.kind == k && cursor < v.id.slot
    ensures forall n | 0 <= n < |log| :: Then(trace, log[n], v)
  {
    hide Lossy, Unsure;
  }

  /** Visiting an event: `made` is the engine after the queries. */
  lemma EventVisitLogged(s: Setup, b: Engine, e: Engine, r: Account, made: Engine, a: Engine, r': Account,
                         log: seq<Visit>, id: Id, cursor: nat)
    requires Logged(s, b, e, log) && Inv(e.graph) && AtRest(e.graph) && Alive(e.graph, Event, id)
    requires made == e.(trace := made.trace) && e.trace < made.trace && Queried(s, made.trace, |e.trace|, |made.trace|)
    requires !Finished(s, made.trace, |made.trace| - 1) ==> a == made
    requires Finished(s, made.trace, |made.trace| - 1) ==>
               && Releasable(e.graph, Event, id)
               && ResetSettled(made, r, a, r', Event, id, s.backend(|made.trace|).release)
    requires Poised(e.trace, log, Event, cursor) && cursor < id.slot
    ensures var v := Visit(Event, id, |e.trace|, |made.trace|, |a.trace|);
            var tried, release := Finished(s, made.trace, |made.trace| - 1), s.backend(|made.trace|).release;
            && Logged(s, b, a, log + [v])
            && (Freed(a.trace, v) <==> tried && release.Released?)
            && (Unsure(a.trace, v) <==> tried && release.Indeterminate?)
            && (Lossy(a.trace, v) <==>
                  if tried then
                    release.Indeterminate? || (release.Rejected? && release.error == BackendError.DeviceLost)
                  else made.trace[|made.trace| - 1].lost)
            && (!(tried && release.Indeterminate?) ==> AtRest(a.graph))
    ensures forall x | Alive(a.graph, Event, x) :: Alive(e.graph, Event, x)
  {
    hide Inv, Alive, Rec, AtRest, Releasable, Logged, Named, SameCores, Charge, ResetSettled, Finished, Queried;
    var v := Visit(Event, id, |e.trace|, |made.trace|, |a.trace|);
    NeverNamed(e.graph, id);
    if Finished(s, made.trace, |made.trace| - 1) {
      SettledTouches(made, r, a, r', Event, id, s.backend(|made.trace|).release);
    } else {
      Untouched(e.graph, Event, id);
    }
    QueriesStay(s, made.trace, a.trace, |e.trace|, |made.trace|);
    EventCharges(e.graph, id);
    PoisedThen(e.trace, log, Event, cursor, v);
    LogVisit(s, b, e, a, log, v);
  }

  lemma EventCharges(g: Graph, id: Id)
    requires Inv(g) && Alive(g, Event, id)
    ensures Charge(Rec(g, Event, id)) == 0
  {
    hide Inv, Alive, Rec;
    KindIsItsTable(g, Event, id);
  }

  lemma QueriesStay(s: Setup, t: seq<Call>, t': seq<Call>, from: nat, to: nat)
    requires t <= t' && Queried(s, t, from, to) && to == |t|
    ensures Queried(s, t', from, to) && 0 < to && (Finished(s, t', to - 1) <==> Finished(s, t, to - 1))
    ensures t'[to - 1] == t[to - 1] && t[to - 1].effect != Unknown
  {
    assert forall i | 0 <= i < |t| :: t'[i] == t[i];
  }

  // ------------------------------------------------------------------------------------------
  // A pass over one kind.

  /** Every live object of kind `k` up to slot `cursor` was visited. */
  ghost predicate Covered(log: seq<Visit>, g: Graph, k: Kind, cursor: nat) {
    forall x | Alive(g, k, x) && x.slot <= cursor :: Seen(log, k, x)
  }

  /** The flags sum up the visits from `from` on: callable while none lost the backend, reusable while
      every one was released. */
  ghost predicate Flags(trace: seq<Call>, log: seq<Visit>, from: nat, p: Progress) {
    && from <= |log|
    && (p.callable <==> forall n | from <= n < |log| :: !Lossy(trace, log[n]))
    && (p.reusable <==> forall n | from <= n < |log| :: Freed(trace, log[n]))
  }

  /** The visit that loses the backend is why an object of kind `k` is not visited. */
  ghost predicate Excuses(trace: seq<Call>, v: Visit, k: Kind) {
    && Lossy(trace, v)
    && (Phase(v.kind) < Phase(k) || (v.kind == k && (k == Event || Unsure(trace, v))))
  }

  ghost predicate Excused(trace: seq<Call>, log: seq<Visit>, k: Kind) {
    exists n | 0 <= n < |log| :: Excuses(trace, log[n], k)
  }

  /** Every object of kind `k` was visited, or the backend was lost before its turn. */
  ghost predicate Swept(g: Graph, trace: seq<Call>, log: seq<Visit>, k: Kind) {
    (forall x | Alive(g, k, x) :: Seen(log, k, x)) || Excused(trace, log, k)
  }

  lemma SameSlotSameId<T>(t: Table<T>, x: Id, y: Id)
    requires Has(t, x) && Has(t, y) && x.slot == y.slot
    ensures x == y
  {}

  lemma SeenMore(log: seq<Visit>, v: Visit, k: Kind, x: Id)
    ensures Seen(log + [v], k, x) <==> Seen(log, k, x) || (v.kind == k && v.id == x)
  {
    var more := log + [v];
    if n :| 0 <= n < |log| && log[n].kind == k && log[n].id == x { assert more[n] == log[n]; }
    if v.kind == k && v.id == x { assert more[|log|] == v; }
  }

  /** The cursor moves to the slot of `id`, the next live one. */
  lemma CoverNext(log: seq<Visit>, v: Visit, g: Graph, g': Graph, k: Kind, cursor: nat)
    requires Covered(log, g, k, cursor) && Shape(g) && v.kind == k
    requires NextId(g.tables[k], cursor).Some? && NextId(g.tables[k], cursor).value.1 == v.id
    requires forall x | Alive(g', k, x) :: Alive(g, k, x)
    ensures Covered(log + [v], g', k, NextId(g.tables[k], cursor).value.0)
    ensures v.id.slot == NextId(g.tables[k], cursor).value.0 > cursor
  {
    hide ObjectTables.Valid, NextId, Seen, ValidLimits, TableLimit;
    var t, next := g.tables[k], NextId(g.tables[k], cursor).value.0;
    NextIdSkipsNothing(t, cursor);
    forall x | Alive(g', k, x) && x.slot <= next
      ensures Seen(log + [v], k, x)
    {
      SeenMore(log, v, k, x);
      if x.slot > cursor {
        assert t.slots[x.slot - 1].value.Some?;
        SameSlotSameId(t, x, v.id);
      }
    }
  }

  lemma CoverAll(log: seq<Visit>, g: Graph, k: Kind, cursor: nat)
    requires Covered(log, g, k, cursor) && Shape(g) && NextId(g.tables[k], cursor).None?
    ensures forall x | Alive(g, k, x) :: Seen(log, k, x)
  {
    hide ObjectTables.Valid, NextId, Seen, ValidLimits, TableLimit;
    var t := g.tables[k];
    NextIdSkipsNothing(t, cursor);
    forall x | Alive(g, k, x)
      ensures Seen(log, k, x)
    {
      assert 0 < x.slot <= |t.slots| && t.slots[x.slot - 1].value.Some?;
    }
  }

  /** What is still there was seen, and what is gone was given back, so seen too. */
  lemma SweptAll(s: Setup, b: Engine, e: Engine, log: seq<Visit>, k: Kind)
    requires Logged(s, b, e, log) && forall x | Alive(e.graph, k, x) :: Seen(log, k, x)
    ensures Swept(b.graph, e.trace, log, k)
  {
    hide Alive, Rec, Tiles, Recorded, Then, AtRest, SameCores, Certain, Freed;
    forall x | Alive(b.graph, k, x)
      ensures Seen(log, k, x)
    {
      if !Alive(e.graph, k, x) { assert Gave(log, e.trace, k, x); }
    }
  }

  lemma SweptStays(s: Setup, b: Engine, e: Engine, a: Engine, log: seq<Visit>, more: seq<Visit>, k: Kind)
    requires Logged(s, b, e, log) && Swept(b.graph, e.trace, log, k) && log <= more && e.trace <= a.trace
    ensures Swept(b.graph, a.trace, more, k)
  {
    hide Alive, Rec, Tiles, Then, AtRest, SameCores, Certain, Freed, Gave, Named, Calls, Lossy, Unsure, Charge;
    forall x | Seen(log, k, x)
      ensures Seen(more, k, x)
    {
      var n :| 0 <= n < |log| && log[n].kind == k && log[n].id == x;
      assert more[n] == log[n];
    }
    if n :| 0 <= n < |log| && Excuses(e.trace, log[n], k) {
      var w := log[n];
      assert Recorded(s, b, e, w);
      CallsStay(s, e.trace, a.trace, w, Charge(Rec(b.graph, w.kind, w.id)), !Named(e.graph, w.kind, w.id));
      assert more[n] == w && Excuses(a.trace, more[n], k);
    }
  }

  lemma FlagsNext(s: Setup, b: Engine, e: Engine, a: Engine, log: seq<Visit>, v: Visit, from: nat,
                  p: Progress, q: Progress)
    requires Logged(s, b, e, log) && e.trace <= a.trace && Flags(e.trace, log, from, p)
    requires q.callable == (p.callable && !Lossy(a.trace, v)) && q.reusable == (p.reusable && Freed(a.trace, v))
    ensures Flags(a.trace, log + [v], from, q)
  {
    hide Alive, Rec, Tiles, Then, AtRest, SameCores, Certain, Freed, Gave, Named, Calls, Lossy, Charge;
    forall n | 0 <= n < |log|
      ensures Lossy(a.trace, log[n]) <==> Lossy(e.trace, log[n])
      ensures Freed(a.trace, log[n]) <==> Freed(e.trace, log[n])
    {
      var w := log[n];
      assert Recorded(s, b, e, w);
      CallsStay(s, e.trace, a.trace, w, Charge(Rec(b.graph, w.kind, w.id)), !Named(e.graph, w.kind, w.id));
    }
    var more := log + [v];
    assert more[|log|] == v && forall n | 0 <= n < |log| :: more[n] == log[n];
  }

  lemma PoisedNext(s: Setup, b: Engine, e: Engine, a: Engine, log: seq<Visit>, v: Visit, k: Kind, cursor: nat,
                   next: nat)
    requires Logged(s, b, e, log) && e.trace <= a.trace && Poised(e.trace, log, k, cursor) && cursor <= next
    requires v.kind == k && v.id.slot <= next && (Lossy(a.trace, v) ==> k != Event && !Unsure(a.trace, v))
    ensures Poised(a.trace, log + [v], k, next)
  {
    hide Alive, Rec, Tiles, Then, AtRest, SameCores, Certain, Freed, Gave, Named, Calls, Lossy, Unsure, Charge;
    var more := log + [v];
    forall n | 0 <= n < |more|
      ensures && (Phase(more[n].kind) < Phase(k) || (more[n].kind == k && more[n].id.slot <= next))
              && (Lossy(a.trace, more[n]) ==> more[n].kind == k && k != Event && !Unsure(a.trace, more[n]))
    {
      if n < |log| {
        var w := log[n];
        assert more[n] == w && Recorded(s, b, e, w);
        CallsStay(s, e.trace, a.trace, w, Charge(Rec(b.graph, w.kind, w.id)), !Named(e.graph, w.kind, w.id));
      }
    }
  }

  /** A pass may begin where no visit lost the backend and all were of earlier kinds. */
  lemma PoisedAtStart(trace: seq<Call>, log: seq<Visit>, k: Kind, p: Progress)
    requires Flags(trace, log, 0, p) && p.callable && forall n | 0 <= n < |log| :: Phase(log[n].kind) < Phase(k)
    ensures Poised(trace, log, k, 0)
  {
    hide Lossy, Freed, Unsure;
  }

  /** Where a pass over kind `k` stands: `from` is the number of visits before it. */
  ghost predicate AtCursor(s: Setup, b: Engine, e: Engine, log: seq<Visit>, from: nat, k: Kind, cursor: nat,
                           p: Progress) {
    && Logged(s, b, e, log) && Flags(e.trace, log, from, p) && Covered(log, e.graph, k, cursor)
    && Poised(e.trace, log, k, cursor) && AtRest(e.graph)
    && (forall n | from <= n < |log| :: log[n].kind == k)
  }

  /** Where a pass over kind `k` ended, with every object of the kind visited or the backend lost. */
  ghost predicate AtEnd(s: Setup, b: Engine, e: Engine, log: seq<Visit>, from: nat, k: Kind, p: Progress) {
    && Logged(s, b, e, log) && Flags(e.trace, log, from, p) && Swept(b.graph, e.trace, log, k)
    && (forall n | from <= n < |log| :: log[n].kind == k)
  }

  lemma CursorAtStart(s: Setup, b: Engine, e: Engine, log: seq<Visit>, k: Kind, p: Progress)
    requires LogTo(s, b, e, log, Phase(k), p) && p.callable && AtRest(e.graph) && Shape(e.graph)
    ensures AtCursor(s, b, e, log, |log|, k, 0, Progress(true, true))
  {
    hide Logged, Alive, Lossy, Freed, Unsure, AtRest, Swept, Shape;
    PoisedAtStart(e.trace, log, k, p);
    NoSlotZero(e.graph, k);
  }

  lemma NoSlotZero(g: Graph, k: Kind)
    ensures forall x | Alive(g, k, x) :: x.slot > 0
  {}

  lemma CursorAtEnd(s: Setup, b: Engine, e: Engine, log: seq<Visit>, from: nat, k: Kind, cursor: nat, p: Progress)
    requires AtCursor(s, b, e, log, from, k, cursor, p) && Shape(e.graph) && NextId(e.graph.tables[k], cursor).None?
    ensures AtEnd(s, b, e, log, from, k, p)
  {
    hide Logged, Alive, Lossy, Freed, Unsure, AtRest, Swept, Shape, Covered, Seen;
    CoverAll(log, e.graph, k, cursor);
    SweptAll(s, b, e, log, k);
  }

  /** One visit of a pass over queues, programs, buffers or contexts. */
  lemma PlainStep(s: Setup, b: Engine, e: Engine, r: Account, a: Engine, r': Account, log: seq<Visit>, from: nat,
                  k: Kind, cursor: nat, p: Progress, q: Progress)
    requires AtCursor(s, b, e, log, from, k, cursor, p) && Inv(e.graph) && Shape(e.graph) && k != Event
    requires NextId(e.graph.tables[k], cursor).Some? && e.trace <= a.trace
    requires var id, release := NextId(e.graph.tables[k], cursor).value.1, s.backend(|e.trace|).release;
             && Alive(e.graph, k, id)
             && (!Releasable(e.graph, k, id) ==> a == e && q == Progress(false, p.callable))
             && (Releasable(e.graph, k, id) ==>
                   && ResetSettled(e, r, a, r', k, id, release)
                   && q == match release
                           case Released => p
                           case Rejected(error, _) => Progress(false, p.callable && error != BackendError.DeviceLost)
                           case Indeterminate(_) => Progress(false, false))
    ensures var (next, id) := NextId(e.graph.tables[k], cursor).value;
            var more := log + [Visit(k, id, |e.trace|, |e.trace|, |a.trace|)];
            if Releasable(e.graph, k, id) && s.backend(|e.trace|).release.Indeterminate? then
              AtEnd(s, b, a, more, from, k, q)
            else AtCursor(s, b, a, more, from, k, next, q)
  {
    hide Inv, Shape, Logged, Alive, AtRest, Lossy, Freed, Unsure, Covered, Poised, Flags, Releasable, ResetSettled,
         Seen, NextId;
    ShapeTables(e.graph, k);
    var (next, id) := NextId(e.graph.tables[k], cursor).value;
    var v := Visit(k, id, |e.trace|, |e.trace|, |a.trace|);
    NextSlot(e.graph, k, cursor);
    PlainVisit(s, b, e, r, a, r', log, k, id, cursor);
    CoverNext(log, v, e.graph, a.graph, k, cursor);
    FlagsNext(s, b, e, a, log, v, from, p, q);
    if Unsure(a.trace, v) {
      UnsureEnds(b.graph, a.trace, log, v);
    } else {
      PoisedNext(s, b, e, a, log, v, k, cursor, next);
    }
  }

  lemma NextSlot(g: Graph, k: Kind, cursor: nat)
    requires Shape(g) && NextId(g.tables[k], cursor).Some?
    ensures NextId(g.tables[k], cursor).value.1.slot == NextId(g.tables[k], cursor).value.0 > cursor
  {
    hide ObjectTables.Valid, NextId, ValidLimits, TableLimit;
    NextIdSkipsNothing(g.tables[k], cursor);
  }

  /** Nothing is owed to the objects after an indeterminate release or, among events, a lost device. */
  lemma UnsureEnds(g: Graph, trace: seq<Call>, log: seq<Visit>, v: Visit)
    requires Unsure(trace, v) || (v.kind == Event && Lossy(trace, v))
    ensures Swept(g, trace, log + [v], v.kind)
  {
    var more := log + [v];
    assert more[|log|] == v && Excuses(trace, more[|log|], v.kind);
  }

  // ------------------------------------------------------------------------------------------
  // The whole reset.

  /** A survivor of the reset depends on this object. */
  ghost predicate Needed(g: Graph, trace: seq<Call>, log: seq<Visit>, k: Kind, id: Id) {
    exists j, x :: Alive(g, j, x) && !Gave(log, trace, j, x) && Names(Rec(g, j, x), k, id)
  }

  /** `log` is what a reset of graph `g` did, in the calls of `trace` from `from` on: every object is
      visited, children before parents, unless the backend was lost before its turn; a release is
      attempted exactly when no survivor depends on the object and, for an event, exactly when the backend
      has just said that it finished. */
  ghost predicate Explains(s: Setup, g: Graph, from: nat, trace: seq<Call>, log: seq<Visit>) {
    && Tiles(log, from, |trace|)
    && (forall n | 0 <= n < |log| ::
          && Alive(g, log[n].kind, log[n].id)
          && Calls(s, trace, log[n], Charge(Rec(g, log[n].kind, log[n].id)),
                   !Needed(g, trace, log, log[n].kind, log[n].id)))
    && (forall m, n | 0 <= m < n < |log| :: Then(trace, log[m], log[n]))
    && (forall k :: Swept(g, trace, log, k))
  }

  /** The report says reusable exactly if every object was given back; otherwise exactly the others are
      still there. */
  ghost predicate Concludes(g: Graph, a: Engine, report: Report, log: seq<Visit>) {
    && (report.reusable <==> forall k, x | Alive(g, k, x) :: Gave(log, a.trace, k, x))
    && (!report.reusable ==> forall k, x :: Alive(a.graph, k, x) <==> Alive(g, k, x) && !Gave(log, a.trace, k, x))
  }

  /** Some log explains the reset and its report. */
  ghost predicate Explained(s: Setup, b: Engine, a: Engine, report: Report) {
    exists log :: Explains(s, b.graph, |b.trace|, a.trace, log) && Concludes(b.graph, a, report, log)
  }

  lemma NeededIsNamed(s: Setup, b: Engine, e: Engine, log: seq<Visit>, k: Kind, id: Id)
    requires Logged(s, b, e, log)
    ensures Needed(b.graph, e.trace, log, k, id) <==> Named(e.graph, k, id)
  {
    hide Alive, Rec, Tiles, Recorded, Then, AtRest, Core, Certain, Gave, Names;
    forall j, x | Alive(e.graph, j, x)
      ensures Alive(b.graph, j, x) && (Names(Rec(e.graph, j, x), k, id) <==> Names(Rec(b.graph, j, x), k, id))
    {
      CoreNames(Rec(b.graph, j, x), Rec(e.graph, j, x), k, id);
    }
  }

  lemma LogExplains(s: Setup, b: Engine, e: Engine, log: seq<Visit>)
    requires Logged(s, b, e, log) && forall k :: Swept(b.graph, e.trace, log, k)
    ensures Explains(s, b.graph, |b.trace|, e.trace, log)
  {
    hide Alive, Rec, Tiles, Then, AtRest, SameCores, Certain, Gave, Names, Calls, Needed, Named, Charge, Swept;
    forall n | 0 <= n < |log|
      ensures var v := log[n];
              && Alive(b.graph, v.kind, v.id)
              && Calls(s, e.trace, v, Charge(Rec(b.graph, v.kind, v.id)), !Needed(b.graph, e.trace, log, v.kind, v.id))
    {
      assert Recorded(s, b, e, log[n]);
      NeededIsNamed(s, b, e, log, log[n].kind, log[n].id);
    }
  }

  /** Visits are of different objects. */
  lemma VisitedOnce(trace: seq<Call>, log: seq<Visit>)
    requires forall i, j | 0 <= i < j < |log| :: Then(trace, log[i], log[j])
    ensures forall i, j | 0 <= i < j < |log| :: log[i].kind != log[j].kind || log[i].id != log[j].id
  {
    hide Lossy, Unsure;
    forall i, j | 0 <= i < j < |log|
      ensures log[i].kind != log[j].kind || log[i].id != log[j].id
    {
      assert Then(trace, log[i], log[j]);
    }
  }

  /** Some visit was not released exactly if some object was not given back. */
  lemma AllFreedIffAllGave(s: Setup, g: Graph, from: nat, trace: seq<Call>, log: seq<Visit>)
    requires Explains(s, g, from, trace, log)
    ensures (forall n | 0 <= n < |log| :: Freed(trace, log[n])) <==>
            (forall k, x | Alive(g, k, x) :: Gave(log, trace, k, x))
  {
    hide Alive, Rec, Tiles, Then, Calls, Needed, Charge, Freed, Unsure;
    if forall n | 0 <= n < |log| :: Freed(trace, log[n]) {
      forall n | 0 <= n < |log|
        ensures !Lossy(trace, log[n])
      {
        var v := log[n];
        FreedIsSure(s, trace, v, Charge(Rec(g, v.kind, v.id)), !Needed(g, trace, log, v.kind, v.id));
      }
      forall k, x | Alive(g, k, x)
        ensures Gave(log, trace, k, x)
      {
        assert Swept(g, trace, log, k) && Seen(log, k, x);
      }
    }
    if forall k, x | Alive(g, k, x) :: Gave(log, trace, k, x) {
      forall n | 0 <= n < |log|
        ensures Freed(trace, log[n])
      {
        assert Gave(log, trace, log[n].kind, log[n].id);
        var m :| 0 <= m < |log| && log[m].kind == log[n].kind && log[m].id == log[n].id && Freed(trace, log[m]);
        VisitedOnce(trace, log);
      }
    }
  }

  lemma FreedIsSure(s: Setup, trace: seq<Call>, v: Visit, charge: nat, free: bool)
    requires Calls(s, trace, v, charge, free) && Freed(trace, v)
    ensures !Lossy(trace, v)
  {}

  /** The log after all passes before `phase`. */
  ghost predicate LogTo(s: Setup, b: Engine, e: Engine, log: seq<Visit>, phase: nat, p: Progress) {
    && Logged(s, b, e, log) && Flags(e.trace, log, 0, p)
    && (forall n | 0 <= n < |log| :: Phase(log[n].kind) < phase)
    && (forall k | Phase(k) < phase :: Swept(b.graph, e.trace, log, k))
  }

  lemma LogStart(s: Setup, b: Engine)
    requires AtRest(b.graph)
    ensures LogTo(s, b, b, [], 0, Progress(true, true))
  {
    hide Logged, Alive;
    NothingLogged(s, b);
  }

  /** A pass that is not made because the backend was lost. */
  lemma LogSkips(s: Setup, b: Engine, e: Engine, log: seq<Visit>, phase: nat, p: Progress)
    requires LogTo(s, b, e, log, phase, p) && !p.callable
    ensures LogTo(s, b, e, log, phase + 1, p)
  {
    hide Logged, Alive, Lossy, Freed, Unsure, Seen;
    forall k | Phase(k) < phase + 1
      ensures Swept(b.graph, e.trace, log, k)
    {
      if Phase(k) == phase {
        var n :| 0 <= n < |log| && Lossy(e.trace, log[n]);
        assert Excuses(e.trace, log[n], k);
      }
    }
  }

  /** A pass over kind `k` that was made. */
  lemma LogAdvances(s: Setup, b: Engine, e: Engine, a: Engine, log: seq<Visit>, more: seq<Visit>, k: Kind, p: Progress,
                    q: Progress)
    requires LogTo(s, b, e, log, Phase(k), p) && p.callable
    requires Logged(s, b, a, more) && log <= more && e.trace <= a.trace
    requires Flags(a.trace, more, |log|, q) && Swept(b.graph, a.trace, more, k)
    requires forall n | |log| <= n < |more| :: more[n].kind == k
    ensures LogTo(s, b, a, more, Phase(k) + 1, Progress(p.reusable && q.reusable, q.callable))
  {
    hide Alive, Rec, Tiles, Then, AtRest, SameCores, Certain, Freed, Gave, Named, Calls, Lossy, Unsure, Charge, Swept;
    forall n | 0 <= n < |log|
      ensures more[n] == log[n]
      ensures Lossy(a.trace, log[n]) <==> Lossy(e.trace, log[n])
      ensures Freed(a.trace, log[n]) <==> Freed(e.trace, log[n])
    {
      var w := log[n];
      assert Recorded(s, b, e, w);
      CallsStay(s, e.trace, a.trace, w, Charge(Rec(b.graph, w.kind, w.id)), !Named(e.graph, w.kind, w.id));
    }
    forall j | Phase(j) < Phase(k) + 1
      ensures Swept(b.graph, a.trace, more, j)
    {
      if Phase(j) < Phase(k) { SweptStays(s, b, e, a, log, more, j); } else { PhaseInjective(); }
    }
  }

  /** A finished log is the explanation of its reset. */
  lemma LogConcludes(s: Setup, b: Engine, e: Engine, a: Engine, log: seq<Visit>, p: Progress, report: Report)
    requires LogTo(s, b, e, log, 5, p) && a.trace == e.trace && report.reusable == p.reusable
    requires !report.reusable ==> a.graph == e.graph
    ensures Explains(s, b.graph, |b.trace|, a.trace, log) && Concludes(b.graph, a, report, log)
  {
    hide Alive, Rec, Tiles, Then, AtRest, SameCores, Certain, Freed, Gave, Named, Calls, Lossy, Unsure, Charge, Swept,
         Recorded, Explains;
    PhaseInjective();
    forall k
      ensures Swept(b.graph, e.trace, log, k)
    {
      assert Phase(k) < 5;
    }
    LogExplains(s, b, e, log);
    AllFreedIffAllGave(s, b.graph, |b.trace|, e.trace, log);
  }

  // ------------------------------------------------------------------------------------------
  // What follows.

  /** Every call of a reset belongs to a visit. */
  lemma {:induction false} CallBelongs(log: seq<Visit>, from: nat, to: nat, i: nat) returns (n: nat)
    requires Tiles(log, from, to) && from <= i < to
    ensures n < |log| && log[n].start <= i < log[n].end
  {
    n := 0;
    while log[n].end <= i
      invariant n < |log| && log[n].start <= i
      decreases |log| - n
    {
      n := n + 1;
    }
  }

  /** Reset destroys an event only right after the backend has said that it finished. */
  lemma EventsFinishFirst(s: Setup, g: Graph, from: nat, trace: seq<Call>, log: seq<Visit>, i: nat)
    requires Explains(s, g, from, trace, log) && from <= i < |trace|
    requires trace[i].op == Destroy && trace[i].kind == Event
    ensures from < i && Finished(s, trace, i - 1)
  {
    hide Alive, Rec, Needed, Swept, Then, Finished;
    var n := CallBelongs(log, from, |trace|, i);
    var v := log[n];
    TilesFrom(log, from, |trace|, n);
  }

  lemma {:induction false} TilesFrom(log: seq<Visit>, from: nat, to: nat, n: nat)
    requires Tiles(log, from, to) && n < |log| && forall m | 0 <= m < |log| :: log[m].start <= log[m].end
    ensures from <= log[n].start
  {
    if n > 0 { TilesFrom(log, from, to, n - 1); }
  }

  /** An event that is pending and cannot be cancelled gets one call, is still there afterwards, and keeps
      the backend from being reused. */
  lemma PendingSurvives(s: Setup, g: Graph, a: Engine, from: nat, report: Report, log: seq<Visit>, n: nat)
    requires Explains(s, g, from, a.trace, log) && Concludes(g, a, report, log)
    requires n < |log| && log[n].kind == Event && s.backend(log[n].start).poll == Ok(Pending) && !s.cancellation
    ensures log[n].end == log[n].start + 1 && !report.reusable && Alive(a.graph, Event, log[n].id)
  {
    hide Alive, Rec, Needed, Swept, Then, Tiles;
    var v := log[n];
    assert !Freed(a.trace, v);
    assert !Gave(log, a.trace, Event, v.id) by { VisitedOnce(a.trace, log); }
  }

  /** While no call loses the backend, every object is visited. */
  lemma LossIsTheOnlyExcuse(s: Setup, g: Graph, from: nat, trace: seq<Call>, log: seq<Visit>, k: Kind, x: Id)
    requires Explains(s, g, from, trace, log) && Alive(g, k, x)
    requires forall i | from <= i < |trace| :: !trace[i].lost && trace[i].effect != Unknown
    ensures Seen(log, k, x)
  {
    hide Alive, Rec, Needed, Then, Calls;
    assert Swept(g, trace, log, k);
    forall n | 0 <= n < |log|
      ensures !Lossy(trace, log[n])
    {
      StartsInside(s, g, from, trace, log, n);
    }
  }

  lemma StartsInside(s: Setup, g: Graph, from: nat, trace: seq<Call>, log: seq<Visit>, n: nat)
    requires Explains(s, g, from, trace, log) && n < |log|
    ensures from <= log[n].start <= log[n].end <= |trace|
  {
    hide Alive, Rec, Needed, Swept, Then, Queried, Finished;
    TilesFrom(log, from, |trace|, n);
  }
}
