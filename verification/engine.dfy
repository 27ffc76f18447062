/** The command engine: semantic dispatch, response commitment and bounded reset. */
module Engines {
  import opened Bytes
  import opened ObjectTables
  import opened Graphs
  import opened GraphLaws
  import opened DeviceStates
  import opened GraphEffects
  import opened Wire
  import opened Ledgers
  import opened Commands
  import opened ResetLaws
  import opened ResetLogs

  lemma ForgetReport(b: Engine, b': Engine)
    requires EngineInv(b) && b' == b.(lastReset := b'.lastReset)
    ensures EngineInv(b')
  {
    hide Balanced, Inv, AtRest;
    SameBooks(b, b');
  }

  lemma StepIgnoresReport(b: Engine, b': Engine, a: Engine, out: Outcome, request: Request, port: Port)
    requires b' == b.(lastReset := b'.lastReset) && StepOk(b', a, out, request, port)
    ensures StepOk(b, a, out, request, port) && EngineInv(a)
  {
    hide EngineInv, ReplyShape, SameObjects;
  }

  /** A refusal answered by a device that is not running. */
  lemma RefusalStep(b: Engine, out: Outcome, request: Request, port: Port, status: nat)
    requires EngineInv(b) && PortFits(port, request.body) && out == Written(port, request.id, status, NoPayload)
    requires KnownStatus(status) && status != OK
    ensures StepOk(b, b, out, request, port)
  {
    hide EngineInv, PortFits, Get;
    ResponsesFit(port, request.body, request.id, status, NoPayload);
  }

  /** A call noted before a move belongs to it. */
  lemma PerformsAfter(b: Engine, call: Call, mid: Engine, a: Engine, out: Outcome, port: Port, request: nat, m: Move)
    requires mid == b.(trace := b.trace + [call]) && Performs(mid, a, out, port, request, m)
    ensures Performs(b, a, out, port, request, m.(calls := [call] + m.calls))
  {
    hide Written;
    assert b.trace + [call] + m.calls == b.trace + ([call] + m.calls);
  }

  /** The backend, from call `from` on, reports every event terminal or lets it be cancelled, and
      completes every release. */
  ghost predicate Willing(backend: nat -> Reply, cancellation: bool, from: nat) {
    forall n: nat | n >= from ::
      && backend(n).release == Released
      && (cancellation ==> backend(n).transfer.Ok?)
      && match backend(n).poll
         case Ok(Pending) => cancellation
         case Ok(s) => s != Failed(BackendError.DeviceLost)
         case Err(_) => false
  }

  lemma StillWilling(backend: nat -> Reply, cancellation: bool, from: nat, later: nat)
    requires Willing(backend, cancellation, from) && from <= later
    ensures Willing(backend, cancellation, later)
  {}

  /** One iteration of a pass that makes at most one call per object. */
  lemma PassVisit(b: Engine, r0: Account, e: Engine, r: Account, a: Engine, r': Account, k: Kind, cursor: nat,
                  p: Progress, q: Progress, reply: Release)
    requires PassInv(b, r0, e, r, k, cursor, 1, p) && Certain(b.trace, e.trace) && Inv(e.graph) && Balanced(e)
    requires k in e.graph.tables && NextId(e.graph.tables[k], cursor).Some?
    requires var id := NextId(e.graph.tables[k], cursor).value.1;
             && (!Releasable(e.graph, k, id) ==> a == e && r' == r && q == Progress(false, p.callable))
             && (Releasable(e.graph, k, id) ==>
                   && ResetSettled(e, r, a, r', k, id, reply)
                   && q.reusable == (p.reusable && reply.Released?)
                   && (q.callable ==> !reply.Indeterminate?))
    ensures PassInv(b, r0, a, r', k, NextId(e.graph.tables[k], cursor).value.0, 1, q)
    ensures Inv(a.graph) && Balanced(a) && |e.trace| <= |a.trace|
    ensures k in a.graph.tables && |a.graph.tables[k].slots| == |e.graph.tables[k].slots|
    ensures var id := NextId(e.graph.tables[k], cursor).value.1;
            !(Releasable(e.graph, k, id) && reply.Indeterminate?) ==> Certain(b.trace, a.trace)
    ensures var id := NextId(e.graph.tables[k], cursor).value.1; Alive(e.graph, k, id)
  {
    hide Get, RecordOk, ValidLimits, TableLimit, ObjectTables.Valid, Tally, Outstanding, LiveCount, Held, Enter,
         ReleasedGraph, RejectedGraph, ReSlot, Conserves, Balanced, AtRest, NextId, PassInv, PassCalls, Certain;
    var t := e.graph.tables[k];
    NextIdSkipsNothing(t, cursor);
    var next, id := NextId(t, cursor).value.0, NextId(t, cursor).value.1;
    LocatedIsAlive(e.graph, k, id);
    if Releasable(e.graph, k, id) {
      ResetSettledEffect(e, r, a, r', k, id, reply);
      OneCall(e.trace, k, Charge(Rec(e.graph, k, id)), reply);
    } else {
      NoCalls(e.trace, k);
      PassWiden(e.trace, e.trace, k, 0, 1);
    }
    PassStep(b, r0, e, r, e, a, r', k, cursor, next, id, 1, 1, p, q);
  }

  lemma LocatedIsAlive(g: Graph, k: Kind, id: Id)
    requires k in g.tables && Locate(g.tables[k], id).Ok?
    ensures Alive(g, k, id)
  {}

  lemma ReleaseTrace(e: Engine, r: Account, a: Engine, r': Account, k: Kind, id: Id, reply: Release)
    requires Inv(e.graph) && (Releasable(e.graph, k, id) ==> ResetSettled(e, r, a, r', k, id, reply))
    requires !Releasable(e.graph, k, id) ==> a == e
    ensures e.trace <= a.trace
  {
    hide Inv, Releasable, ReleasedGraph, RejectedGraph, ReSlot, Enter;
  }

  /** The state of a pass over kind `k` begun at `b` with log `log0`, between two visits. */
  ghost predicate PassAt(w: Setup, b0: Engine, log0: seq<Visit>, b: Engine, r0: Account, e: Engine, r: Account, k: Kind,
                         cursor: nat, p: Progress, log: seq<Visit>) {
    && PassInv(b, r0, e, r, k, cursor, 1, p) && Inv(e.graph) && Shape(e.graph) && Balanced(e)
    && Certain(b.trace, e.trace) && |b.trace| <= |e.trace| && (p.reusable ==> p.callable)
    && log0 <= log && AtCursor(w, b0, e, log, |log0|, k, cursor, p)
  }

  /** How a visit of such a pass goes: `q` is what the attempted release reports, `stop` whether the pass
      must end. */
  ghost predicate Attempted(w: Setup, e: Engine, r: Account, a: Engine, r': Account, k: Kind, id: Id, q: Progress,
                            stop: bool)
    requires Inv(e.graph)
  {
    if !Releasable(e.graph, k, id) then a == e && r' == r && q == Progress(false, true) && !stop
    else
      var reply := w.backend(|e.trace|).release;
      && ResetSettled(e, r, a, r', k, id, reply)
      && match reply
         case Released => q == Progress(true, true) && !stop
         case Rejected(error, _) => q == Progress(false, error != BackendError.DeviceLost) && !stop
         case Indeterminate(_) => q == Progress(false, false) && stop
  }

  lemma PassAdvances(w: Setup, b0: Engine, log0: seq<Visit>, b: Engine, r0: Account, e: Engine, r: Account, a: Engine,
                     r': Account, k: Kind, cursor: nat, p: Progress, q: Progress, stop: bool, log: seq<Visit>)
    requires PassAt(w, b0, log0, b, r0, e, r, k, cursor, p, log) && k != Event && k in e.graph.tables
    requires NextId(e.graph.tables[k], cursor).Some?
    requires Attempted(w, e, r, a, r', k, NextId(e.graph.tables[k], cursor).value.1, q, stop)
    ensures var (next, id) := NextId(e.graph.tables[k], cursor).value;
            var flags := Progress(p.reusable && q.reusable, p.callable && q.callable);
            var more := log + [Visit(k, id, |e.trace|, |e.trace|, |a.trace|)];
            && Alive(e.graph, k, id) && Inv(a.graph) && |b.trace| <= |a.trace|
            && if stop then PassDone(b, r0, a, r', k, 1, flags) && AtEnd(w, b0, a, more, |log0|, k, flags)
               else PassAt(w, b0, log0, b, r0, a, r', k, next, flags, more)
    ensures k in a.graph.tables && |a.graph.tables[k].slots| == |e.graph.tables[k].slots|
  {
    hide Inv, Shape, Balanced, Certain, PassInv, AtCursor, AtEnd, Alive, Releasable, NextId, ResetSettled, PassDone, T;
    var (next, id) := NextId(e.graph.tables[k], cursor).value;
    var flags := Progress(p.reusable && q.reusable, p.callable && q.callable);
    var reply := w.backend(|e.trace|).release;
    PassVisit(b, r0, e, r, a, r', k, cursor, p, flags, reply);
    InvShape(a.graph);
    ReleaseTrace(e, r, a, r', k, id, reply);
    PlainStep(w, b0, e, r, a, r', log, |log0|, k, cursor, p, flags);
    if stop { PassFinishes(b, r0, a, r', k, next, 1, flags); }
  }

  ghost predicate AllReleasable(g: Graph, k: Kind) { forall x | Alive(g, k, x) :: Releasable(g, k, x) }

  lemma PassBegins(w: Setup, b0: Engine, log0: seq<Visit>, p0: Progress, b: Engine, r0: Account, k: Kind)
    requires Inv(b.graph) && Balanced(b) && LogTo(w, b0, b, log0, Phase(k), p0) && p0.callable && AtRest(b.graph)
    ensures PassAt(w, b0, log0, b, r0, b, r0, k, 0, Progress(true, true), log0)
  {
    hide Inv, Balanced, LogTo, AtRest, AtCursor, PassInv, Certain;
    InvShape(b.graph);
    PassStart(b, r0, k, 1);
    CursorAtStart(w, b0, b, log0, k, p0);
  }

  lemma PassKeeps(w: Setup, b0: Engine, log0: seq<Visit>, b: Engine, r0: Account, e: Engine, r: Account, k: Kind,
                  cursor: nat, p: Progress, log: seq<Visit>)
    requires PassAt(w, b0, log0, b, r0, e, r, k, cursor, p, log)
    ensures Balanced(e) && log0 <= log
  {
    hide Balanced;
  }

  lemma PassEnds(w: Setup, b0: Engine, log0: seq<Visit>, b: Engine, r0: Account, e: Engine, r: Account, k: Kind,
                 cursor: nat, p: Progress, log: seq<Visit>)
    requires PassAt(w, b0, log0, b, r0, e, r, k, cursor, p, log) && k in e.graph.tables
    requires NextId(e.graph.tables[k], cursor).None?
    ensures PassDone(b, r0, e, r, k, 1, p) && AtEnd(w, b0, e, log, |log0|, k, p)
  {
    hide Inv, Shape, Balanced, Certain, PassInv, PassDone, AtCursor, AtEnd, NextId;
    PassFinishes(b, r0, e, r, k, cursor, 1, p);
    CursorAtEnd(w, b0, e, log, |log0|, k, cursor, p);
  }

  lemma AttemptWilling(w: Setup, from: nat, e: Engine, r: Account, a: Engine, r': Account, k: Kind, id: Id, q: Progress,
                       stop: bool)
    requires Willing(w.backend, w.cancellation, from) && from <= |e.trace| && k != Event && Inv(e.graph)
    requires AllReleasable(e.graph, k) && Alive(e.graph, k, id) && Attempted(w, e, r, a, r', k, id, q, stop)
    ensures q == Progress(true, true) && AllReleasable(a.graph, k)
  {
    hide Inv, AllReleasable, Alive, Releasable, ResetSettled, Willing;
    PassWilling(w.backend, w.cancellation, from, e, r, a, r', k, id);
  }

  /** A willing backend releases every releasable object, and its siblings stay releasable. */
  lemma PassWilling(backend: nat -> Reply, cancellation: bool, from: nat, e: Engine, r: Account, a: Engine, r': Account,
                    k: Kind, id: Id)
    requires Willing(backend, cancellation, from) && from <= |e.trace| && k != Event && Inv(e.graph)
    requires AllReleasable(e.graph, k)
    requires Alive(e.graph, k, id)
    requires Releasable(e.graph, k, id) ==> ResetSettled(e, r, a, r', k, id, backend(|e.trace|).release)
    ensures Releasable(e.graph, k, id) && backend(|e.trace|).release == Released
    ensures AllReleasable(a.graph, k)
  {
    hide Get, Inv, Held, ReleasedGraph, RejectedGraph, ReSlot, Enter;
    assert backend(|e.trace|).release == Released;
    forall x | Alive(a.graph, k, x)
      ensures Releasable(a.graph, k, x)
    {
      SiblingsUntouched(e.graph, k, id, x);
    }
  }

  /** How reset dealt with one event: it asked about it, and attempted its release exactly if the backend
      said it had finished. */
  ghost predicate EventVisited(w: Setup, e: Engine, r: Account, made: Engine, a: Engine, r': Account, id: Id,
                               q: Progress)
    requires Inv(e.graph)
  {
    && made == e.(trace := made.trace) && Balanced(made)
    && e.trace < made.trace && Queried(w, made.trace, |e.trace|, |made.trace|)
    && PassCalls(e.trace, a.trace, Event, 4) && (q.callable ==> Certain(e.trace, a.trace))
    && if Finished(w, made.trace, |made.trace| - 1) && Releasable(e.graph, Event, id) then
         var release := w.backend(|made.trace|).release;
         && ResetSettled(made, r, a, r', Event, id, release)
         && match release
            case Released => q == Progress(true, true)
            case Rejected(error, _) => q == Progress(false, error != BackendError.DeviceLost)
            case Indeterminate(_) => q == Progress(false, false)
       else a == made && r' == r && q == Progress(false, !made.trace[|made.trace| - 1].lost)
  }

  /** An event that was asked about and left. */
  lemma EventLeft(w: Setup, e: Engine, r: Account, made: Engine, id: Id, q: Progress)
    requires Inv(e.graph) && made == e.(trace := made.trace) && Balanced(made) && e.trace < made.trace
    requires Queried(w, made.trace, |e.trace|, |made.trace|) && !Finished(w, made.trace, |made.trace| - 1)
    requires PassCalls(e.trace, made.trace, Event, 3) && Certain(e.trace, made.trace)
    requires q == Progress(false, !made.trace[|made.trace| - 1].lost)
    ensures EventVisited(w, e, r, made, made, r, id, q)
  {
    hide Inv, Balanced, Queried, Finished, Certain, PassCalls;
    PassWiden(e.trace, made.trace, Event, 3, 4);
  }

  /** An event that finished, and whose release was attempted. */
  lemma EventTried(w: Setup, e: Engine, r: Account, made: Engine, a: Engine, r': Account, id: Id, q: Progress,
                   stop: bool)
    requires Inv(e.graph) && made == e.(trace := made.trace) && Balanced(made) && e.trace < made.trace
    requires Queried(w, made.trace, |e.trace|, |made.trace|) && Finished(w, made.trace, |made.trace| - 1)
    requires PassCalls(e.trace, made.trace, Event, 3) && Certain(e.trace, made.trace)
    requires Attempted(w, made, r, a, r', Event, id, q, stop)
    ensures EventVisited(w, e, r, made, a, r', id, q)
    ensures Willing(w.backend, w.cancellation, |e.trace|) && Releasable(e.graph, Event, id) ==>
              q == Progress(true, true)
  {
    hide Inv, Balanced, Queried, Finished, Certain, PassCalls, Held, ReleasedGraph, RejectedGraph, ReSlot, Enter,
         Willing, Alive, Rec, Charge;
    FinishedIsSure(w, made.trace, |e.trace|, |made.trace|);
    if Willing(w.backend, w.cancellation, |e.trace|) {
      WillingRelease(w.backend, w.cancellation, |e.trace|, |made.trace|);
    }
    if Releasable(e.graph, Event, id) {
      OneCall(made.trace, Event, Charge(Rec(e.graph, Event, id)), w.backend(|made.trace|).release);
      PassExtends(e.trace, made.trace, a.trace, Event, 3, 1);
    } else {
      PassWiden(e.trace, made.trace, Event, 3, 4);
    }
  }

  lemma EventVisit(w: Setup, b: Engine, r0: Account, e: Engine, r: Account, made: Engine, a: Engine, r': Account,
                   cursor: nat, p: Progress, q: Progress)
    requires PassInv(b, r0, e, r, Event, cursor, 4, p) && Certain(b.trace, e.trace) && Inv(e.graph) && Balanced(e)
             && p.callable
    requires Event in e.graph.tables && NextId(e.graph.tables[Event], cursor).Some?
    requires EventVisited(w, e, r, made, a, r', NextId(e.graph.tables[Event], cursor).value.1, q)
    ensures var next := NextId(e.graph.tables[Event], cursor).value.0;
            PassInv(b, r0, a, r', Event, next, 4, Progress(p.reusable && q.reusable, q.callable))
    ensures Inv(a.graph) && Balanced(a) && |e.trace| <= |a.trace|
    ensures Event in a.graph.tables && |a.graph.tables[Event].slots| == |e.graph.tables[Event].slots|
    ensures (q.callable ==> Certain(b.trace, a.trace)) && (q.reusable ==> q.callable) && e.trace <= a.trace
  {
    hide Get, RecordOk, ValidLimits, TableLimit, ObjectTables.Valid, Tally, Outstanding, LiveCount, Held, Enter,
         ReleasedGraph, RejectedGraph, ReSlot, Conserves, Balanced, AtRest, NextId, PassInv, Certain, ResetSettled,
         Queried, Finished;
    var t := e.graph.tables[Event];
    NextIdSkipsNothing(t, cursor);
    var next, id := NextId(t, cursor).value.0, NextId(t, cursor).value.1;
    LocatedIsAlive(e.graph, Event, id);
    if Finished(w, made.trace, |made.trace| - 1) && Releasable(e.graph, Event, id) {
      ResetSettledEffect(made, r, a, r', Event, id, w.backend(|made.trace|).release);
    }
    PassStep(b, r0, e, r, made, a, r', Event, cursor, next, id, 4, 4, p,
             Progress(p.reusable && q.reusable, q.callable));
  }

  /** One visit of the event pass. */
  lemma EventStep(w: Setup, b: Engine, e: Engine, r: Account, made: Engine, a: Engine, r': Account, log: seq<Visit>,
                  cursor: nat, p: Progress, q: Progress)
    requires AtCursor(w, b, e, log, 0, Event, cursor, p) && Inv(e.graph) && Shape(e.graph) && p.callable
    requires NextId(e.graph.tables[Event], cursor).Some? && e.trace <= a.trace
    requires var id := NextId(e.graph.tables[Event], cursor).value.1;
             Alive(e.graph, Event, id) && EventVisited(w, e, r, made, a, r', id, q)
    ensures var (next, id) := NextId(e.graph.tables[Event], cursor).value;
            var more := log + [Visit(Event, id, |e.trace|, |made.trace|, |a.trace|)];
            var flags := Progress(p.reusable && q.reusable, q.callable);
            if q.callable then AtCursor(w, b, a, more, 0, Event, next, flags) else AtEnd(w, b, a, more, 0, Event, flags)
  {
    hide Inv, Shape, Logged, Alive, AtRest, Lossy, Freed, Unsure, Covered, Poised, Flags, Releasable, ResetSettled,
         Seen, NextId, Queried, Finished, PassCalls, Certain, Balanced;
    ShapeTables(e.graph, Event);
    var (next, id) := NextId(e.graph.tables[Event], cursor).value;
    var v := Visit(Event, id, |e.trace|, |made.trace|, |a.trace|);
    NextSlot(e.graph, Event, cursor);
    RestingEventReleasable(e.graph, id);
    FinishedIsSure(w, made.trace, |e.trace|, |made.trace|);
    EventVisitLogged(w, b, e, r, made, a, r', log, id, cursor);
    CoverNext(log, v, e.graph, a.graph, Event, cursor);
    FlagsNext(w, b, e, a, log, v, 0, p, Progress(p.reusable && q.reusable, q.callable));
    if q.callable {
      PoisedNext(w, b, e, a, log, v, Event, cursor, next);
    } else {
      UnsureEnds(b.graph, a.trace, log, v);
    }
  }

  lemma FinishedIsSure(w: Setup, trace: seq<Call>, from: nat, to: nat)
    requires Queried(w, trace, from, to)
    ensures Finished(w, trace, to - 1) ==> !trace[to - 1].lost
  {}

  lemma QueriesAreQuiet()
    ensures forall r :: var c := PollCall(r);
                        c.kind == Event && c.op == Poll && Delta(c) == 0 && c.effect != Unknown
    ensures forall r :: var c := CancelCall(r);
                        c.kind == Event && c.op == Cancel && Delta(c) == 0 && c.effect != Unknown
  {}

  lemma WillingAnswers(backend: nat -> Reply, cancellation: bool, from: nat, n: nat)
    requires Willing(backend, cancellation, from) && from <= n
    ensures backend(n).poll.Ok? && backend(n).poll.value != Failed(BackendError.DeviceLost)
    ensures backend(n).poll.value == Pending ==> cancellation
    ensures cancellation ==> backend(n).transfer.Ok?
  {}

  lemma WillingRelease(backend: nat -> Reply, cancellation: bool, from: nat, n: nat)
    requires Willing(backend, cancellation, from) && from <= n
    ensures backend(n).release == Released
  {}

  lemma NextIsAlive(g: Graph, k: Kind, cursor: nat)
    requires Inv(g) && k in g.tables && NextId(g.tables[k], cursor).Some?
    ensures Alive(g, k, NextId(g.tables[k], cursor).value.1)
  {
    hide NextId, RecordOk, Tally, ValidLimits, TableLimit;
    NextIdSkipsNothing(g.tables[k], cursor);
  }

  lemma RestingEventReleasable(g: Graph, id: Id)
    requires Inv(g) && AtRest(g) && Alive(g, Event, id)
    ensures Releasable(g, Event, id)
  {
    hide Get, Tally, ValidLimits, TableLimit, ObjectTables.Valid;
    assert RecordOk(g, Event, id);
  }

  lemma SumOfEmpties(a: Account, b: Account)
    requires a == EMPTY && b == EMPTY
    ensures Sum(a, b) == EMPTY
  {
    hide In, Sum;
    EmptyIsZero();
    AccountsEqual(Sum(a, b), EMPTY);
  }

  lemma LimitsAreValid(g: Graph)
    requires Inv(g)
    ensures ValidLimits(g.limits)
  {}

  lemma CursorRests(w: Setup, b: Engine, e: Engine, log: seq<Visit>, from: nat, k: Kind, cursor: nat, p: Progress)
    requires AtCursor(w, b, e, log, from, k, cursor, p)
    ensures AtRest(e.graph)
  {}

  lemma PassTrace(b: Engine, r0: Account, a: Engine, r: Account, k: Kind, perObject: nat, p: Progress)
    requires PassDone(b, r0, a, r, k, perObject, p)
    ensures b.trace <= a.trace
  {}

  lemma PassLogged(w: Setup, b: Engine, e: Engine, a: Engine, log: seq<Visit>, more: seq<Visit>, k: Kind, p: Progress,
                   q: Progress)
    requires LogTo(w, b, e, log, Phase(k), p) && p.callable && e.trace <= a.trace
    requires log <= more && AtEnd(w, b, a, more, |log|, k, q)
    ensures LogTo(w, b, a, more, Phase(k) + 1, Progress(p.reusable && q.reusable, q.callable))
  {
    hide Logged, Flags, Swept, LogTo;
    LogAdvances(w, b, e, a, log, more, k, p, q);
  }

  /** While the backend may be called, no release is under way. */
  lemma LogRests(w: Setup, b: Engine, e: Engine, log: seq<Visit>, phase: nat, p: Progress)
    requires LogTo(w, b, e, log, phase, p) && Certain(b.trace, e.trace)
    ensures AtRest(e.graph)
  {}

  datatype ResetError = NamespaceReuse

  lemma TracesGrow(b: Engine, e: Engine, r: Account, phase: nat, p: Progress)
    requires SoFar(b, e, r, phase, p)
    ensures |b.trace| <= |e.trace|
  {}

  lemma NewEngineInv(namespace: nat, limits: Limits, policy: Policy)
    requires namespace < U16 && ValidLimits(limits)
    ensures EngineInv(Engine(NewGraph(namespace, limits, policy), Running, EMPTY, None, []))
  {
    hide Inv, Shape, Standing, Get, ValidLimits;
    NewGraphInv(namespace, limits, policy);
    InvShape(NewGraph(namespace, limits, policy));
    EmptyIsZero();
    forall c
      ensures Outstanding([], c) == Standing(NewGraph(namespace, limits, policy), c) + In(EMPTY, c)
    {
      NewGraphStandsEmpty(namespace, limits, policy, c);
    }
  }

  class Processor {
    const backend: nat -> Reply
    const limits: Limits
    const policy: Policy
    const domains: set<nat>
    const cancellation: bool
    var state: DeviceState
    var health: Health
    var quarantined: Account
    var lastReset: Option<Report>
    var trace: seq<Call>

    ghost function View(): Engine
      reads this, state
    {
      Engine(state.View(), health, quarantined, lastReset, trace)
    }

    ghost predicate Valid()
      reads this, state
    {
      EngineInv(View()) && state.limits == limits && state.policy == policy
    }

    constructor (backend: nat -> Reply, namespace: nat, limits: Limits, policy: Policy, domains: set<nat>,
                 cancellation: bool)
      requires namespace < U16 && ValidLimits(limits)
      ensures Valid() && fresh(state) && health == Running && trace == []
      ensures state.View() == NewGraph(namespace, limits, policy)
      ensures this.backend == backend && this.limits == limits && this.policy == policy
      ensures this.domains == domains && this.cancellation == cancellation
    {
      this.backend, this.limits, this.policy := backend, limits, policy;
      this.domains, this.cancellation := domains, cancellation;
      state := new DeviceState(namespace, limits, policy);
      health, quarantined, lastReset, trace := Running, EMPTY, None, [];
      new;
      hide EngineInv;
      NewEngineInv(namespace, limits, policy);
    }

    method Respond(port: Port, request: nat, status: nat, payload: Payload, mutated: bool) returns (out: Outcome)
      modifies this`health, this`lastReset
      ensures out == Written(port, request, status, payload)
      ensures health == if out.WriteFailed? && mutated && old(health) == Running then NeedsReset else old(health)
      ensures lastReset == if out.WriteFailed? && mutated && old(health) == Running then None else old(lastReset)
    {
      out := Written(port, request, status, payload);
      if out.WriteFailed? && mutated && health == Running {
        health := NeedsReset;
        lastReset := None;
      }
    }

    method RequireDiscard()
      modifies this`health, this`lastReset
      ensures health == DiscardRequired && lastReset == None
    {
      health := DiscardRequired;
      lastReset := None;
    }

    method RespondBackendError(port: Port, request: nat, error: BackendError, mutated: bool) returns (out: Outcome)
      modifies this`health, this`lastReset
      ensures out == Written(port, request, StatusOfBackend(error), NoPayload)
      ensures error == BackendError.DeviceLost ==> health == DiscardRequired
      ensures error != BackendError.DeviceLost ==>
                health == if out.WriteFailed? && mutated && old(health) == Running then NeedsReset else old(health)
    {
      if error == BackendError.DeviceLost { RequireDiscard(); }
      out := Respond(port, request, StatusOfBackend(error), NoPayload, mutated);
    }

    method DiscardResponse(port: Port, request: nat) returns (out: Outcome)
      modifies this`health, this`lastReset
      ensures out == Written(port, request, DEVICE_LOST, NoPayload) && health == DiscardRequired
    {
      RequireDiscard();
      out := Respond(port, request, DEVICE_LOST, NoPayload, true);
    }

    ghost function Wiring(): Setup { Setup(backend, domains, cancellation) }

    /** The second half of a release, once the resource is out of the record: ask the backend, then
        commit, restore or quarantine. `g` is the graph before the release began. */
    method Conclude(k: Kind, id: Id, charge: nat, ghost g: Graph) returns (reply: Release)
      requires Inv(g) && Releasable(g, k, id) && charge == Charge(Rec(g, k, id))
               && state.View() == ReSlot(g, k, id, None)
      modifies this, state
      ensures state == old(state) && health == old(health) && lastReset == old(lastReset)
      ensures reply == backend(|old(trace)|).release
      ensures var m := SettleMove(old(View()).(graph := g), k, id, reply);
              state.View() == m.graph && quarantined == m.quarantined && trace == old(trace) + m.calls
    {
      hide Get, Inv, ObjectTables.Valid, ValidLimits, TableLimit, ReSlot, Committed, Enter, Held;
      BegunEffect(g, k, id);
      reply := backend(|trace|).release;
      trace := trace + [DestroyCall(k, charge, reply)];
      match reply {
        case Released =>
          var committed := state.Commit(k, id);
          assert committed.Ok?;
        case Rejected(_, h) =>
          var restored := state.Restore(k, id, h);
          assert restored.Ok?;
        case Indeterminate(_) =>
          var committed := state.Commit(k, id);
          assert committed.Ok?;
          quarantined := Enter(quarantined, k, charge);
      }
    }

    /** Destroy a context, buffer, program or queue, or an event already known to be terminal. */
    method Release(port: Port, request: nat, k: Kind, id: Id) returns (out: Outcome)
      requires Inv(state.View())
      modifies this, state
      ensures state == old(state)
      ensures Performs(old(View()), View(), out, port, request,
                       ReleaseMove(old(View()), k, id, backend(|old(trace)|).release))
    {
      hide Get, Inv, ObjectTables.Valid, ValidLimits, TableLimit, Held, Written, ReleasedGraph, RejectedGraph, Enter,
           Charge, ReSlot;
      ghost var g := state.View();
      InvShape(g);
      var found := state.Find(k, id);
      var charge := if found.Ok? then Charge(found.value) else 0;
      var begun := state.BeginRelease(k, id);
      if begun.Err? {
        out := Respond(port, request, StatusOfState(begun.error), NoPayload, false);
        return;
      }
      var reply := Conclude(k, id, charge, g);
      match reply {
        case Released => out := Respond(port, request, OK, NoPayload, true);
        case Rejected(error, _) => out := RespondBackendError(port, request, error, false);
        case Indeterminate(_) => out := DiscardResponse(port, request);
      }
    }

    /** A terminal event may be destroyed; a pending one is busy. */
    method DestroyEvent(port: Port, request: nat, id: Id) returns (out: Outcome)
      requires Inv(state.View())
      modifies this, state
      ensures state == old(state)
      ensures Performs(old(View()), View(), out, port, request,
                       DestroyEventMove(old(View()), id, backend(|old(trace)|), backend(|old(trace)| + 1)))
    {
      hide Get, Inv, Shape, Written, ReleaseMove, Look, Alive, Rec, StatusOfState, StatusOfBackend;
      ghost var before := View();
      InvShape(state.View());
      var found := state.Find(Event, id);
      if found.Err? {
        out := Respond(port, request, StatusOfState(found.error), NoPayload, false);
        return;
      }
      var reply := backend(|trace|).poll;
      trace := trace + [PollCall(reply)];
      ghost var call := PollCall(reply);
      match reply {
        case Ok(Pending) => out := Respond(port, request, BUSY, NoPayload, false);
        case Ok(Failed(error)) =>
          if error == BackendError.DeviceLost {
            RequireDiscard();
            out := Respond(port, request, DEVICE_LOST, NoPayload, false);
          } else {
            out := DestroyTerminal(before, call, port, request, id);
          }
        case Ok(_) => out := DestroyTerminal(before, call, port, request, id);
        case Err(error) => out := RespondBackendError(port, request, error, false);
      }
    }

    method DestroyTerminal(ghost before: Engine, ghost call: Call, port: Port, request: nat, id: Id)
      returns (out: Outcome)
      requires Inv(state.View()) && View() == before.(trace := before.trace + [call])
      modifies this, state
      ensures state == old(state)
      ensures var m := ReleaseMove(before, Event, id, backend(|before.trace| + 1).release);
              Performs(before, View(), out, port, request, m.(calls := [call] + m.calls))
    {
      hide Inv, Performs, ReleaseMove;
      ghost var mid := View();
      out := Release(port, request, Event, id);
      ReleaseOneCall(before, mid, Event, id, backend(|before.trace| + 1).release);
      PerformsAfter(before, call, mid, View(), out, port, request,
                    ReleaseMove(before, Event, id, backend(|before.trace| + 1).release));
    }

    /** Ask the backend for a resource and record it. `blank` is the record without its resource,
        already checked for quota, parent and table room. */
    method Admit(port: Port, request: nat, blank: Record) returns (out: Outcome)
      requires forall h :: Admissible(state.View(), WithSlot(blank, Some(h)))
      modifies this, state
      ensures state == old(state)
      ensures Performs(old(View()), View(), out, port, request,
                       CreateMove(old(View()), blank, backend(|old(trace)|).create))
    {
      hide Get, Inv, ObjectTables.Valid, ValidLimits, TableLimit, Admissible, Admitted, InsertedId, Written, Charge;
      var reply := backend(|trace|).create;
      trace := trace + [CreateCall(KindOf(blank), Charge(blank), reply)];
      match reply {
        case Ok(h) =>
          var id := state.Insert(WithSlot(blank, Some(h)));
          out := Respond(port, request, OK, ObjectPayload(id), true);
        case Err(error) =>
          out := RespondBackendError(port, request, error, false);
      }
    }

    method CreateContext(port: Port, request: nat, memory: Memory) returns (out: Outcome)
      requires Inv(state.View())
      modifies this, state
      ensures state == old(state)
      ensures Performs(old(View()), View(), out, port, request, ContextMove(old(View()), memory, backend(|old(trace)|)))
    {
      hide Get, Inv, ObjectTables.Valid, ValidLimits, TableLimit, Admissible, CreateMove, Written, ContextCheck;
      InvShape(state.View());
      var refused := ContextCheck(state.View(), memory.table);
      if refused.Some? {
        out := Respond(port, request, StatusOfState(refused.value), NoPayload, false);
        return;
      }
      ContextAdmissible(state.View(), memory.table);
      out := Admit(port, request, ContextRecord(VACANT, NO_CHILDREN));
    }

    /** Create a queue or load a program in a context. */
    method CreateChild(port: Port, request: nat, body: Body, memory: Memory) returns (out: Outcome)
      requires Inv(state.View()) && (body.LoadProgram? || body.CreateQueue?) && Dispatchable(body, state.limits)
      modifies this, state
      ensures state == old(state)
      ensures Performs(old(View()), View(), out, port, request,
                       ChildMove(old(View()), body, memory, backend(|old(trace)|)))
    {
      hide Get, Inv, ObjectTables.Valid, ValidLimits, TableLimit, Admissible, CreateMove, Written, ChildCheck, FromRaw;
      InvShape(state.View());
      var context := FromRaw(body.context);
      var refused := if body.CreateQueue? then ChildCheck(state.View(), Queue, context, memory.table)
                     else ProgramCheck(state.View(), context, |body.artifact|, body.resident, memory.table);
      if refused.Some? {
        out := Respond(port, request, StatusOfState(refused.value), NoPayload, false);
        return;
      }
      var blank := if body.CreateQueue? then QueueRecord(VACANT, context, 0)
                   else ProgramRecord(VACANT, context, body.resident, 0);
      ChildAdmissible(state.View(), body, memory.table);
      out := Admit(port, request, blank);
    }

    method AllocateBuffer(port: Port, request: nat, body: Body, memory: Memory) returns (out: Outcome)
      requires Inv(state.View()) && body.AllocateBuffer?
      modifies this, state
      ensures state == old(state)
      ensures Performs(old(View()), View(), out, port, request, AllocateMove(old(View()), body, Wiring(), memory))
    {
      hide Get, Inv, ObjectTables.Valid, ValidLimits, TableLimit, Written, BufferCheck, BackedMove, FromRaw;
      InvShape(state.View());
      var desc, context := body.desc, FromRaw(body.context);
      if desc.bytes > state.limits.maxBufferBytes {
        out := Respond(port, request, StatusOfBackend(BackendError.ResourceLimit), NoPayload, false);
        return;
      }
      if desc.domain !in domains {
        out := Respond(port, request, StatusOfBackend(BackendError.Unsupported), NoPayload, false);
        return;
      }
      var check := BufferCheck(state.View(), context, desc, memory.table);
      if check.Some? {
        out := Respond(port, request, StatusOfState(check.value), NoPayload, false);
        return;
      }
      out := AllocateChecked(port, request, body, context, memory);
    }

    /** Allocate backing and record it, or free it again if it is not what was asked for. */
    method AllocateChecked(port: Port, request: nat, body: Body, context: Id, ghost memory: Memory)
      returns (out: Outcome)
      requires Inv(state.View()) && Shape(state.View()) && body.AllocateBuffer? && context == FromRaw(body.context)
      requires BufferRefusal(state.View(), body, domains, memory.table).None?
      modifies this, state
      ensures state == old(state)
      ensures Performs(old(View()), View(), out, port, request, BackedMove(old(View()), body, Wiring(), memory))
    {
      hide Get, Inv, Shape, Admissible, Admitted, InsertedId, Written, BufferRefusal, CleanupMove, FromRaw;
      ghost var before := View();
      var reply, info: BufferInfo := backend(|trace|).create, backend(|trace|).info;
      ghost var call := CreateCall(Buffer, info.allocationBytes, reply);
      trace := trace + [CreateCall(Buffer, info.allocationBytes, reply)];
      if reply.Err? {
        out := RespondBackendError(port, request, reply.error, false);
        return;
      }
      var record := BufferRecord(LiveSlot(reply.value), context, info, 0);
      BufferAdmissible(before.graph, body, domains, memory.table, reply.value, backend(|before.trace|).info);
      var fits := state.backing + info.allocationBytes <= state.policy.maxBacking;
      var id := state.Insert(record);
      if info.desc == body.desc && fits {
        out := Respond(port, request, OK, ObjectPayload(id), true);
      } else {
        out := ReleaseUnpublished(before, record, call, port, request, id,
                                  if info.desc != body.desc then BackendError.Incompatible
                                     else BackendError.ResourceLimit);
      }
    }

    /** Free an allocation that does not match its request or exceeds the policy, before anyone has
        seen its identifier. */
    method ReleaseUnpublished(ghost before: Engine, ghost record: Record, ghost call: Call, port: Port, request: nat,
                              id: Id, error: BackendError) returns (out: Outcome)
      requires Admissible(before.graph, record) && record.BufferRecord? && error != BackendError.DeviceLost
      requires View() == before.(graph := Admitted(before.graph, record), trace := before.trace + [call])
      requires id == InsertedId(before.graph.tables[Buffer])
      modifies this, state
      ensures state == old(state)
      ensures Performs(before, View(), out, port, request,
                       CleanupMove(before, record, call, backend(|before.trace| + 1).release, StatusOfBackend(error)))
    {
      hide Get, Inv, ObjectTables.Valid, ValidLimits, TableLimit, Admissible, Admitted, InsertedId, Written, Held,
           ReleasedGraph, RejectedGraph, Enter, Charge, ReSlot;
      ghost var g := state.View();
      CleanupRestores(before.graph, record);
      var found := state.Find(Buffer, id);
      var charge := Charge(found.value);
      var begun := state.BeginRelease(Buffer, id);
      assert begun.Ok?;
      var reply := Conclude(Buffer, id, charge, g);
      assert before.trace + [call] + [DestroyCall(Buffer, charge, reply)]
             == before.trace + ([call] + [DestroyCall(Buffer, charge, reply)]);
      if reply.Released? {
        out := RespondBackendError(port, request, error, false);
      } else {
        out := DiscardResponse(port, request);
      }
    }

    method PollEvent(port: Port, request: nat, id: Id) returns (out: Outcome)
      requires Inv(state.View())
      modifies this, state
      ensures state == old(state)
      ensures Performs(old(View()), View(), out, port, request, PollMove(old(View()), id, backend(|old(trace)|)))
    {
      hide Get, Inv, ObjectTables.Valid, ValidLimits, TableLimit, Written;
      InvShape(state.View());
      var found := state.Find(Event, id);
      if found.Err? {
        out := Respond(port, request, StatusOfState(found.error), NoPayload, false);
        return;
      }
      var reply := backend(|trace|).poll;
      trace := trace + [PollCall(reply)];
      match reply {
        case Ok(s) =>
          if s == Failed(BackendError.DeviceLost) { RequireDiscard(); }
          out := Respond(port, request, OK, StatePayload(s), false);
        case Err(error) =>
          out := RespondBackendError(port, request, error, false);
      }
    }

    method CancelEvent(port: Port, request: nat, id: Id) returns (out: Outcome)
      requires Inv(state.View())
      modifies this, state
      ensures state == old(state)
      ensures Performs(old(View()), View(), out, port, request,
                       CancelMove(old(View()), id, cancellation, backend(|old(trace)|)))
    {
      hide Get, Inv, ObjectTables.Valid, ValidLimits, TableLimit, Written;
      InvShape(state.View());
      if !cancellation {
        out := Respond(port, request, UNSUPPORTED, NoPayload, false);
        return;
      }
      var found := state.Find(Event, id);
      if found.Err? {
        out := Respond(port, request, StatusOfState(found.error), NoPayload, false);
        return;
      }
      var reply := backend(|trace|).transfer;
      trace := trace + [CancelCall(reply)];
      match reply {
        case Ok(_) => out := Respond(port, request, OK, NoPayload, true);
        case Err(error) => out := RespondBackendError(port, request, error, false);
      }
    }

    /** Explicit transfers. */
    method TransferBuffer(port: Port, request: nat, body: Body) returns (out: Outcome)
      requires Inv(state.View()) && (body.WriteBuffer? || body.ReadBuffer?)
      modifies this, state
      ensures state == old(state)
      ensures Performs(old(View()), View(), out, port, request, TransferMove(old(View()), body, backend(|old(trace)|)))
    {
      hide Get, Inv, ObjectTables.Valid, ValidLimits, TableLimit, Written, TransferFault, FromRaw;
      InvShape(state.View());
      var write := body.WriteBuffer?;
      var found := state.Find(Buffer, FromRaw(body.buffer));
      if found.Err? {
        out := Respond(port, request, StatusOfState(found.error), NoPayload, false);
        return;
      }
      var usage := if write then TRANSFER_DESTINATION else TRANSFER_SOURCE;
      var fault := TransferFault(found.value, body.offset, body.bytes, usage);
      if fault.Some? {
        out := Respond(port, request, fault.value, NoPayload, false);
        return;
      }
      var reply := backend(|trace|).transfer;
      trace := trace + [TransferCall(write, reply)];
      match reply {
        case Ok(_) => out := Respond(port, request, OK, if write then NoPayload else DataPayload(body.bytes), write);
        case Err(error) => out := RespondBackendError(port, request, error, write);
      }
    }

    /** Range and access of every binding against its buffer, in slot order. */
    method CheckBindings(bindings: seq<Binding>) returns (r: Option<nat>)
      requires BindingsResolve(state.View(), bindings)
      ensures r == BindingFault(state.View(), bindings)
    {
      hide FromRaw, AllowsAccess;
      assert bindings[0..] == bindings;
      for i := 0 to |bindings|
        invariant BindingFault(state.View(), bindings) == BindingFault(state.View(), bindings[i..])
      {
        assert bindings[i..][0] == bindings[i] && bindings[i..][1..] == bindings[i + 1..] && bindings[i] in bindings;
        var b := bindings[i];
        var desc := Get(state.tables[Buffer], FromRaw(b.buffer)).value.info.desc;
        if b.offset + b.bytes > desc.bytes { return Some(OUT_OF_BOUNDS); }
        if !AllowsAccess(desc.usage, b.access) { return Some(PERMISSION_DENIED); }
      }
      return None;
    }

    /** Submission: references are taken before the bindings are checked and the backend is asked. */
    method Submit(port: Port, request: nat, body: Body, memory: Memory) returns (out: Outcome)
      requires Inv(state.View()) && body.Submit? && Dispatchable(body, state.limits)
      modifies this, state
      ensures state == old(state)
      ensures Performs(old(View()), View(), out, port, request,
                       SubmitMove(old(View()), body, memory, backend(|old(trace)|)))
    {
      hide Get, Inv, ObjectTables.Valid, ValidLimits, TableLimit, EventCheck, BindingFault, WithRefs, BufferIds,
           Written, FromRaw, EventOk, AnswerMove;
      ghost var before := View();
      ghost var g := state.View();
      InvShape(g);
      var bindings := body.bindings;
      if !memory.scratch {
        out := Respond(port, request, OUT_OF_MEMORY, NoPayload, false);
        return;
      }
      var begun := state.BeginEvent(FromRaw(body.queue), FromRaw(body.program), BufferIds(bindings), memory.table);
      if begun.Err? {
        out := Respond(port, request, StatusOfState(begun.error), NoPayload, false);
        return;
      }
      var e := begun.value;
      SubmissionResolves(g, FromRaw(body.queue), FromRaw(body.program), bindings, memory.table);
      var refused: Option<nat> := if memory.native then None else Some(OUT_OF_MEMORY);
      if memory.native {
        refused := CheckBindings(bindings);
      }
      if refused.Some? {
        state.AbortEvent(g, e);
        out := Respond(port, request, refused.value, NoPayload, false);
        return;
      }
      var slots := seq(|bindings|, i requires 0 <= i < |bindings| => bindings[i].slot);
      var structural := ValidateBindings(slots, state.limits.maxBindings);
      assert structural.None?;
      out := SubmitChecked(before, port, request, body, e, memory);
    }

    /** The backend's answer: a refusal gives the references back, anything else records the event. */
    method SubmitChecked(ghost before: Engine, port: Port, request: nat, ghost body: Body, e: Record,
                         ghost memory: Memory)
      returns (out: Outcome)
      requires Inv(before.graph) && Shape(before.graph) && body.Submit? && e.EventRecord? && EventOk(before.graph, e)
      requires SubmitCheck(before.graph, body, memory.table) == Ok(e)
               && View() == before.(graph := WithRefs(before.graph, e, 1))
      modifies this, state
      ensures state == old(state)
      ensures Performs(before, View(), out, port, request,
                       AnswerMove(before, body, memory, e, backend(|before.trace|).submit))
    {
      hide Get, Inv, ObjectTables.Valid, ValidLimits, TableLimit, Shape, EventCheck, WithRefs, AdmittedEvent,
           AdmissibleEvent, InsertedId, Written, EventOk, FromRaw, BufferIds;
      ghost var g := before.graph;
      var reply := backend(|trace|).submit;
      trace := trace + [SubmitCall(reply)];
      if reply.Refused? {
        state.AbortEvent(g, e);
        out := RespondBackendError(port, request, reply.error, false);
      } else {
        var h := reply.event;
        EventCheckAdmits(g, FromRaw(body.queue), FromRaw(body.program), BufferIds(body.bindings), memory.table, h);
        var id := state.FinishEvent(g, e, h);
        var status := OK;
        if reply.Uncertain? {
          status := StatusOfBackend(reply.error);
          if reply.error == BackendError.DeviceLost { RequireDiscard(); }
        }
        out := Respond(port, request, status, ObjectPayload(id), true);
      }
    }

    method DescribeDevice(port: Port, request: nat) returns (out: Outcome)
      modifies this
      ensures state == old(state)
      ensures Performs(old(View()), View(), out, port, request,
                       Move(old(View()).graph, old(View()).quarantined, [], OK, InfoPayload, false, false))
    {
      hide Written;
      out := Respond(port, request, OK, InfoPayload, false);
    }

    /** The handler of one opcode. */
    method Dispatch(port: Port, request: nat, body: Body, memory: Memory) returns (out: Outcome)
      requires Inv(state.View()) && Dispatchable(body, state.limits)
      modifies this, state
      ensures state == old(state)
      ensures Performs(old(View()), View(), out, port, request, CommandMove(old(View()), body, Wiring(), memory))
    {
      hide Inv, ReleaseMove, DestroyEventMove, ContextMove, ChildMove, AllocateMove, SubmitMove, PollMove, CancelMove,
           TransferMove, FromRaw, Performs, Written;
      match body {
        case GetDeviceInfo => out := DescribeDevice(port, request);
        case CreateContext => out := CreateContext(port, request, memory);
        case DestroyContext(id) => out := Release(port, request, Context, FromRaw(id));
        case AllocateBuffer(_, _) => out := AllocateBuffer(port, request, body, memory);
        case FreeBuffer(id) => out := Release(port, request, Buffer, FromRaw(id));
        case WriteBuffer(_, _, _, _) => out := TransferBuffer(port, request, body);
        case ReadBuffer(_, _, _) => out := TransferBuffer(port, request, body);
        case LoadProgram(_, _, _, _, _) => out := CreateChild(port, request, body, memory);
        case UnloadProgram(id) => out := Release(port, request, Program, FromRaw(id));
        case CreateQueue(_) => out := CreateChild(port, request, body, memory);
        case DestroyQueue(id) => out := Release(port, request, Queue, FromRaw(id));
        case Submit(_, _, _, _) => out := Submit(port, request, body, memory);
        case PollEvent(id) => out := PollEvent(port, request, FromRaw(id));
        case CancelEvent(id) => out := CancelEvent(port, request, FromRaw(id));
        case DestroyEvent(id) => out := DestroyEvent(port, request, FromRaw(id));
      }
    }

    /** One decoded command. A running device makes exactly the move the command means; once
        recovery is required, commands are answered `DEVICE_LOST` and touch nothing. */
    method Process(port: Port, request: Request, memory: Memory) returns (out: Outcome)
      requires Valid() && PortFits(port, request.body) && Dispatchable(request.body, limits)
      modifies this, state
      ensures Valid() && state == old(state)
      ensures StepOk(old(View()), View(), out, request, port)
      ensures old(health) != Running ==>
                View() == old(View()) && out == Written(port, request.id, DEVICE_LOST, NoPayload)
      ensures old(health) == Running ==>
                Obeyed(old(View()).(lastReset := None), View(), out, port, request, Wiring(), memory)
    {
      hide Inv, EngineInv, StepOk, PortFits, Dispatchable, Performs, CommandMove;
      ghost var before := View();
      if health != Running {
        out := Respond(port, request.id, DEVICE_LOST, NoPayload, false);
        RefusalStep(before, out, request, port, DEVICE_LOST);
        return;
      }
      lastReset := None;
      ghost var b := View();
      ForgetReport(before, b);
      RunningFacts(b);
      out := Dispatch(port, request.id, request.body, memory);
      CommandKeeps(b, request.body, Wiring(), memory);
      MoveIsSound(b, View(), out, request, port, CommandMove(b, request.body, Wiring(), memory));
      StepIgnoresReport(before, b, View(), out, request, port);
    }

    // ----------------------------------------------------------------------------------------
    // Reset.

    /** One release attempted by reset. */
    method ResetRelease(k: Kind, id: Id, released: Account) returns (total: Account, p: Progress, stop: bool)
      requires Inv(state.View()) && Balanced(View())
      modifies this, state
      ensures state == old(state) && Inv(state.View())
      ensures Attempted(Wiring(), old(View()), released, View(), total, k, id, p, stop)
    {
      hide Get, Inv, ReSlot, Committed, Enter, Outstanding, Balanced, Held;
      ghost var before := View();
      var found := state.Find(k, id);
      var charge := if found.Ok? then Charge(found.value) else 0;
      total, p, stop := released, Progress(false, true), false;
      var begun := state.BeginRelease(k, id);
      if begun.Err? { return; }
      BegunEffect(before.graph, k, id);
      var reply := backend(|trace|).release;
      trace := trace + [DestroyCall(k, charge, reply)];
      match reply {
        case Released =>
          var committed := state.Commit(k, id);
          assert committed.Ok?;
          total, p := Enter(total, k, charge), Progress(true, true);
        case Rejected(error, h) =>
          p := Progress(false, error != BackendError.DeviceLost);
          var restored := state.Restore(k, id, h);
          assert restored.Ok?;
        case Indeterminate(_) =>
          p, stop := Progress(false, false), true;
      }
    }

    /** The pass over queues, programs, buffers or contexts. A release refused because the device
        was lost does not end the pass; an indeterminate one does. */
    method ResetPass(k: Kind, released: Account, ghost b0: Engine, ghost log0: seq<Visit>, ghost p0: Progress)
      returns (total: Account, p: Progress, ghost log: seq<Visit>)
      requires k != Event && Inv(state.View()) && Balanced(View())
      requires LogTo(Wiring(), b0, View(), log0, Phase(k), p0) && p0.callable && AtRest(state.View())
      modifies this, state
      ensures state == old(state)
      ensures PassDone(old(View()), released, View(), total, k, 1, p)
      ensures log0 <= log && AtEnd(Wiring(), b0, View(), log, |log0|, k, p)
      ensures Willing(backend, cancellation, old(|trace|)) && old(AllReleasable(state.View(), k)) ==>
                p == Progress(true, true)
    {
      hide Inv, Shape, PassInv, PassDone, Certain, Balanced, NextId, Willing, AllReleasable, Alive, Releasable, AtRest,
           AtCursor, AtEnd, LogTo, PassAt, Attempted, ResetSettled;
      ghost var b := View();
      ghost var willing := Willing(backend, cancellation, |trace|) && AllReleasable(state.View(), k);
      total, p, log := released, Progress(true, true), log0;
      PassBegins(Wiring(), b0, log0, p0, b, released, k);
      var cursor := 0;
      var next := state.Next(k, cursor);
      ghost var size := |state.tables[k].slots|;
      while next.Some?
        invariant state == old(state) && PassAt(Wiring(), b0, log0, b, released, View(), total, k, cursor, p, log)
        invariant Inv(state.View()) && Balanced(View()) && |b.trace| <= |trace| && log0 <= log
        invariant k in state.tables && next == NextId(state.tables[k], cursor) && |state.tables[k].slots| == size
        invariant next.Some? ==> cursor < next.value.0 <= size
        invariant willing ==> p == Progress(true, true) && AllReleasable(state.View(), k)
        decreases size - cursor
      {
        var id := next.value.1;
        ghost var e, r, was := View(), total, p;
        var q, stop;
        total, q, stop := ResetRelease(k, id, total);
        p := Progress(p.reusable && q.reusable, p.callable && q.callable);
        PassAdvances(Wiring(), b0, log0, b, released, e, r, View(), total, k, cursor, was, q, stop, log);
        log := log + [Visit(k, id, |e.trace|, |e.trace|, |trace|)];
        if willing { AttemptWilling(Wiring(), |b.trace|, e, r, View(), total, k, id, q, stop); }
        cursor := next.value.0;
        if stop { return; }
        PassKeeps(Wiring(), b0, log0, b, released, View(), total, k, cursor, p, log);
        next := state.Next(k, cursor);
      }
      PassEnds(Wiring(), b0, log0, b, released, View(), total, k, cursor, p, log);
    }

    method Query(call: Call, ghost e: Engine, ghost n: int)
      requires Inv(e.graph) && View() == e.(trace := trace) && Balanced(View())
      requires PassCalls(e.trace, trace, Event, n) && Certain(e.trace, trace)
      requires call.kind == Event && (call.op == Poll || call.op == Cancel) && Delta(call) == 0
               && call.effect != Unknown
      modifies this`trace
      ensures trace == old(trace) + [call] && View() == e.(trace := trace) && Balanced(View())
      ensures PassCalls(e.trace, trace, Event, n + 1) && Certain(e.trace, trace)
    {
      hide Inv, PassCalls, Certain, Balanced;
      NoteBalanced(View(), call);
      QueryCall(e.trace, trace, call, n);
      trace := trace + [call];
      assert View() == e.(trace := trace);
    }

    /** Bring one event to a terminal state if it is pending and cancellable. `Some` is the terminal
        state; `None` leaves the event in place with the flags that follow. */
    method Settle(id: Id) returns (final: Option<EventState>, p: Progress)
      requires Inv(state.View()) && Balanced(View()) && Alive(state.View(), Event, id)
      modifies this`trace
      ensures View() == old(View()).(trace := trace) && Balanced(View())
      ensures PassCalls(old(trace), trace, Event, 3) && Certain(old(trace), trace) && old(trace) < trace
      ensures Learned(Wiring(), old(|trace|), trace, final, p)
      ensures Willing(backend, cancellation, old(|trace|)) ==> final.Some?
    {
      hide Inv, Balanced, PassCalls, Certain, Learned, PollCall, Willing, Alive;
      ghost var e := View();
      NoCalls(trace, Event);
      QueriesAreQuiet();
      var reply := backend(|trace|).poll;
      if Willing(backend, cancellation, |trace|) { WillingAnswers(backend, cancellation, |trace|, |trace|); }
      Query(PollCall(reply), e, 0);
      PassWiden(e.trace, trace, Event, 1, 3);
      if reply == Ok(Pending) && cancellation {
        final, p := CancelPending(e);
        return;
      }
      final, p := FinalState(reply), AfterPoll(reply);
      OneAnswer(Wiring(), e.trace, final, p);
    }

    method CancelPending(ghost e: Engine) returns (final: Option<EventState>, p: Progress)
      requires Inv(e.graph) && View() == e.(trace := trace) && Balanced(View()) && cancellation
      requires trace == e.trace + [PollCall(backend(|e.trace|).poll)] && backend(|e.trace|).poll == Ok(Pending)
      requires PassCalls(e.trace, trace, Event, 1) && Certain(e.trace, trace)
      modifies this`trace
      ensures View() == e.(trace := trace) && Balanced(View())
      ensures PassCalls(e.trace, trace, Event, 3) && Certain(e.trace, trace) && e.trace < trace
      ensures Learned(Wiring(), |e.trace|, trace, final, p)
      ensures Willing(backend, cancellation, |e.trace|) ==> final.Some?
    {
      hide Inv, Balanced, PassCalls, Certain, Learned, PollCall, CancelCall, Willing;
      QueriesAreQuiet();
      var answer := backend(|trace|).transfer;
      if Willing(backend, cancellation, |e.trace|) { WillingAnswers(backend, cancellation, |e.trace|, |trace|); }
      Query(CancelCall(answer), e, 1);
      PassWiden(e.trace, trace, Event, 2, 3);
      match answer {
        case Ok(_) => final, p := Some(Cancelled), Progress(false, true);
        case Err(Busy) =>
          var again := backend(|trace|).poll;
          Query(PollCall(again), e, 2);
          final, p := FinalState(again), AfterPoll(again);
          ThreeAnswers(Wiring(), e.trace, final, p);
          return;
        case Err(error) => final, p := None, Progress(false, error != BackendError.DeviceLost);
      }
      TwoAnswers(Wiring(), e.trace, final, p);
    }

    method ResetEvent(id: Id, released: Account) returns (total: Account, q: Progress, ghost made: Engine)
      requires Inv(state.View()) && Balanced(View()) && Alive(state.View(), Event, id)
      modifies this, state
      ensures state == old(state) && Inv(state.View())
      ensures EventVisited(Wiring(), old(View()), released, made, View(), total, id, q)
      ensures Willing(backend, cancellation, old(|trace|)) && old(Releasable(state.View(), Event, id)) ==>
                q == Progress(true, true)
    {
      hide Inv, Balanced, PassCalls, Certain, Queried, Finished, Attempted, EventVisited, Willing, Alive, Releasable;
      ghost var e := View();
      var final, p := Settle(id);
      made := View();
      total, q := released, p;
      if final.None? {
        EventLeft(Wiring(), e, released, made, id, p);
        return;
      }
      var stop;
      total, q, stop := ResetRelease(Event, id, released);
      EventTried(Wiring(), e, released, made, View(), total, id, q, stop);
    }

    method ResetEvents(released: Account) returns (total: Account, p: Progress, ghost log: seq<Visit>)
      requires Inv(state.View()) && Balanced(View()) && AtRest(state.View())
      modifies this, state
      ensures state == old(state)
      ensures PassDone(old(View()), released, View(), total, Event, 4, p)
      ensures AtEnd(Wiring(), old(View()), View(), log, 0, Event, p)
      ensures Willing(backend, cancellation, old(|trace|)) ==> p == Progress(true, true)
    {
      hide Get, Inv, Shape, ResetSettled, PassInv, PassDone, PassCalls, Certain, Balanced, Held, NextId, Willing,
           Conserves, AtRest, EventVisited, ReleasedGraph, AtCursor, AtEnd, LogTo;
      ghost var b := View();
      ghost var willing := Willing(backend, cancellation, |trace|);
      InvShape(state.View());
      PassStart(b, released, Event, 4);
      LogStart(Wiring(), b);
      CursorAtStart(Wiring(), b, b, [], Event, Progress(true, true));
      total, p, log := released, Progress(true, true), [];
      var cursor := 0;
      var next := state.Next(Event, cursor);
      ghost var size := |state.tables[Event].slots|;
      while next.Some?
        invariant state == old(state) && PassInv(b, released, View(), total, Event, cursor, 4, p)
        invariant Inv(state.View()) && Shape(state.View()) && Balanced(View())
        invariant (p.callable ==> Certain(b.trace, trace)) && |b.trace| <= |trace|
        invariant Event in state.tables && next == NextId(state.tables[Event], cursor)
                  && |state.tables[Event].slots| == size
        invariant next.Some? ==> cursor < next.value.0 <= size
        invariant p.reusable ==> p.callable
        invariant if p.callable then AtCursor(Wiring(), b, View(), log, 0, Event, cursor, p)
                  else AtEnd(Wiring(), b, View(), log, 0, Event, p)
        invariant willing ==> p == Progress(true, true)
        decreases size - cursor
      {
        if !p.callable {
          PassFinishes(b, released, View(), total, Event, cursor, 4, p);
          return;
        }
        var id := next.value.1;
        ghost var e, r, was := View(), total, p;
        NextIsAlive(e.graph, Event, cursor);
        CursorRests(Wiring(), b, e, log, 0, Event, cursor, p);
        RestingEventReleasable(e.graph, id);
        var q;
        ghost var made;
        if willing { StillWilling(backend, cancellation, |b.trace|, |trace|); }
        total, q, made := ResetEvent(id, total);
        p := Progress(p.reusable && q.reusable, q.callable);
        EventVisit(Wiring(), b, released, e, r, made, View(), total, cursor, was, q);
        InvShape(state.View());
        EventStep(Wiring(), b, e, r, made, View(), total, log, cursor, was, q);
        log := log + [Visit(Event, id, |e.trace|, |made.trace|, |trace|)];
        cursor := next.value.0;
        next := state.Next(Event, cursor);
      }
      PassFinishes(b, released, View(), total, Event, cursor, 4, p);
      if p.callable { CursorAtEnd(Wiring(), b, View(), log, 0, Event, cursor, p); }
    }

    /** One later pass, skipped once the backend may no longer be called. */
    method NextPass(k: Kind, released: Account, p: Progress, ghost b: Engine, ghost log0: seq<Visit>)
      returns (total: Account, q: Progress, ghost log: seq<Visit>)
      requires k != Event && SoFar(b, View(), released, Phase(k), p) && |b.trace| <= |trace|
      requires LogTo(Wiring(), b, View(), log0, Phase(k), p)
      modifies this, state
      ensures state == old(state) && SoFar(b, View(), total, Phase(k) + 1, q) && |b.trace| <= |trace|
      ensures LogTo(Wiring(), b, View(), log, Phase(k) + 1, q)
      ensures Willing(backend, cancellation, |b.trace|) && AtRest(b.graph) && p == Progress(true, true) ==>
                q == Progress(true, true)
    {
      hide Get, Inv, Balanced, AtRest, PassDone, Certain, Conserves, Ordered, Held, Willing, Count, Budget, LogTo,
           AtEnd, Alive, Releasable;
      ghost var e := View();
      if !p.callable {
        PassSkipped(b, e, released, Phase(k), p);
        LogSkips(Wiring(), b, e, log0, Phase(k), p);
        return released, p, log0;
      }
      LogRests(Wiring(), b, e, log0, Phase(k), p);
      if Willing(backend, cancellation, |b.trace|) && AtRest(b.graph) && p == Progress(true, true) {
        StillWilling(backend, cancellation, |b.trace|, |trace|);
        forall x | Alive(e.graph, k, x)
          ensures Releasable(e.graph, k, x)
        {
          ReadyForPass(e.graph, k, x);
        }
      }
      var own;
      total, own, log := ResetPass(k, released, b, log0, p);
      q := Progress(p.reusable && own.reusable, own.callable);
      Advance(b, e, released, p, k, View(), total, 1, own);
      PassTrace(e, released, View(), total, k, 1, own);
      PassLogged(Wiring(), b, e, View(), log0, log, k, p, own);
      TracesGrow(b, View(), total, Phase(k) + 1, q);
    }

    method RunPasses() returns (total: Account, p: Progress, ghost log: seq<Visit>)
      requires Inv(state.View()) && Balanced(View()) && AtRest(state.View())
      modifies this, state
      ensures state == old(state) && SoFar(old(View()), View(), total, 5, p)
      ensures LogTo(Wiring(), old(View()), View(), log, 5, p)
      ensures Willing(backend, cancellation, old(|trace|)) ==> p == Progress(true, true)
    {
      hide Get, Inv, Balanced, AtRest, PassDone, SoFar, Willing, LogTo, AtEnd;
      ghost var b := View();
      NothingYet(b);
      LogStart(Wiring(), b);
      total, p, log := ResetEvents(EMPTY);
      Advance(b, b, EMPTY, Progress(true, true), Event, View(), total, 4, p);
      PassTrace(b, EMPTY, View(), total, Event, 4, p);
      PassLogged(Wiring(), b, b, View(), [], log, Event, Progress(true, true), p);
      TracesGrow(b, View(), total, 1, p);
      total, p, log := NextPass(Queue, total, p, b, log);
      total, p, log := NextPass(Program, total, p, b, log);
      total, p, log := NextPass(Buffer, total, p, b, log);
      total, p, log := NextPass(Context, total, p, b, log);
    }

    /** Bounded child-before-parent reset. */
    method Reset(namespace: nat) returns (r: Result<Report, ResetError>, ghost log: seq<Visit>)
      requires Valid() && namespace < U16
      modifies this, state
      ensures Valid() && (state == old(state) || fresh(state))
      ensures old(health) == DiscardRequired ==>
                && r.Ok? && View() == old(View()).(lastReset := Some(r.value))
                && (old(lastReset).Some? ==> r.value == old(lastReset).value)
                && (old(lastReset).None? ==> !r.value.reusable && r.value.released == EMPTY && forall c ::
                      In(r.value.quarantined, c) == Standing(state.View(), c) + In(quarantined, c))
      ensures old(health) != DiscardRequired && namespace == old(state.namespace) ==>
                r == Err(NamespaceReuse) && View() == old(View())
      ensures old(health) != DiscardRequired && namespace != old(state.namespace) ==>
                && r.Ok? && ResetResult(old(View()), View(), r.value, namespace)
                && Explains(Wiring(), old(state.View()), old(|trace|), trace, log)
                && Concludes(old(state.View()), View(), r.value, log)
      ensures old(health) != DiscardRequired && namespace != old(state.namespace) ==>
                (Willing(backend, cancellation, old(|trace|)) ==> r.value.reusable)
    {
      hide Get, Inv, Balanced, AtRest, SoFar, Willing, Outstanding, Remaining, LogTo, Explains, Concludes;
      log := [];
      if health == DiscardRequired {
        if lastReset.None? {
          var report := Report(false, EMPTY, Sum(quarantined, Remaining(state.View())));
          lastReset := Some(report);
        }
        SameBooks(old(View()), View());
        return Ok(lastReset.value), log;
      }
      if namespace == state.namespace { return Err(NamespaceReuse), log; }
      ghost var b0 := View();
      health := NeedsReset;
      lastReset := None;
      ghost var b := View();
      SameBooks(b0, b);
      var released, p;
      released, p, log := RunPasses();
      r := FinishReset(namespace, b0, b, released, p, log);
    }

    method FinishReset(namespace: nat, ghost b0: Engine, ghost b: Engine, released: Account, p: Progress,
                       ghost log: seq<Visit>)
      returns (r: Result<Report, ResetError>)
      requires LogTo(Wiring(), b, View(), log, 5, p)
      requires SoFar(b, View(), released, 5, p) && EngineInv(b0) && b0.health != DiscardRequired
      requires b == b0.(health := NeedsReset, lastReset := None)
      requires namespace < U16 && namespace != b0.graph.namespace && state.limits == limits && state.policy == policy
      modifies this
      ensures Valid() && (state == old(state) || fresh(state))
      ensures r.Ok? && ResetResult(b0, View(), r.value, namespace)
      ensures Explains(Wiring(), b0.graph, |b0.trace|, trace, log) && Concludes(b0.graph, View(), r.value, log)
      ensures p == Progress(true, true) ==> r.value.reusable
    {
      hide LogTo, Explains, Concludes, Get, Inv, Balanced, AtRest, Outstanding, Ordered, Certain, Budget, Remaining,
           Sum, Conserves, NewGraph, Count, Standing;
      ghost var e := View();
      var remaining := Remaining(state.View());
      var total := Sum(quarantined, remaining);
      ReportAddsUp(b.graph, e.graph, quarantined, released, total);
      InvShape(e.graph);
      if p.reusable {
        PhaseInjective();
        forall k
          ensures Count(e.graph, k) == 0
        {
          assert Phase(k) < 5;
        }
        NothingRemains(e.graph);
      }
      if quarantined == EMPTY && remaining == EMPTY { SumOfEmpties(quarantined, remaining); }
      if p.reusable && total == EMPTY {
        ZeroSum(quarantined, remaining);
        assert state.View().limits == limits && state.View().policy == policy;
        LimitsAreValid(state.View());
        var renewed := new DeviceState(namespace, limits, policy);
        state := renewed;
        health, lastReset := Running, None;
        Restarted(e, View(), namespace);
        forall k, id | Alive(b0.graph, k, id)
          ensures k in state.View().tables && Get(state.View().tables[k], id) == Err(StaleId)
        {
          OldIdsAreStale(b0.graph, namespace, k, id);
        }
        LogConcludes(Wiring(), b, e, View(), log, p, Report(true, released, total));
        return Ok(Report(true, released, total));
      }
      var report := Report(false, released, total);
      health, lastReset := DiscardRequired, Some(report);
      SameBooks(e, View());
      LogConcludes(Wiring(), b, e, View(), log, p, report);
      return Ok(report);
    }
  }
}
