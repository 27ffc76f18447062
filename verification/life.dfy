/** Whole lives of a device: any chains, any resets, any backend. */
module Lives {
  import opened Bytes
  import opened ObjectTables
  import opened Graphs
  import opened DeviceStates
  import opened GraphEffects
  import opened Identities
  import opened Wire
  import opened Regions
  import opened Decoders
  import opened Ledgers
  import opened Responses
  import opened Frames
  import opened Commands
  import opened ResetLaws
  import opened ResetLogs
  import opened Engines
  import opened Guests
  import opened Devices
  import opened Lifetimes

  /** What the transport brings: a chain with its request bytes, its response buffer and the faults of
      that buffer, or a reset to a namespace. */
  datatype Arrival =
    | Chain(regions: seq<ChainRegion>, source: Source, response: seq<Byte>, faults: nat -> Option<nat>, memory: Memory,
            decodeMemory: bool)
    | ResetTo(namespace: nat)

  datatype Answer = Handled(served: Served, response: seq<Byte>) | Renewed(report: Result<Report, ResetError>)

  ghost predicate Typed(a: Arrival) { if a.Chain? then ValidSource(a.source) else 0 < a.namespace < U16 }

  /** One chain, as `Serve` handles it. */
  ghost predicate ChainStep(l: DecoderLimits, setup: Setup, b: Engine, a: Engine, arrival: Arrival, served: Served)
    requires arrival.Chain? && Typed(arrival)
  {
    var capacity := |arrival.response|;
    && EngineInv(a)
    && (!served.Completed? ==> a == b)
    && (served.Completed? ==>
          var port := PortOf(capacity, l.maxResponse, arrival.faults, 0);
          && Encodes(l, Content(arrival.source), capacity, arrival.decodeMemory, served.request)
          && StepOk(b, a, served.outcome, served.request, port)
          && (b.health != Running ==>
               a == b && served.outcome == Written(port, served.request.id, DEVICE_LOST, NoPayload))
          && (b.health == Running ==>
               Obeyed(b.(lastReset := None), a, served.outcome, port, served.request, setup, arrival.memory)))
  }

  ghost predicate ResetStep(setup: Setup, b: Engine, a: Engine, namespace: nat, r: Result<Report, ResetError>) {
    && EngineInv(a)
    && (b.health == DiscardRequired ==>
          r.Ok? && a == b.(lastReset := Some(r.value)) && (b.lastReset.Some? ==> r.value == b.lastReset.value))
    && (b.health != DiscardRequired && namespace == b.graph.namespace ==> r == Err(NamespaceReuse) && a == b)
    && (b.health != DiscardRequired && namespace != b.graph.namespace ==>
         r.Ok? && ResetResult(b, a, r.value, namespace) && Explained(setup, b, a, r.value))
  }

  ghost predicate Stepped(l: DecoderLimits, setup: Setup, b: Engine, a: Engine, arrival: Arrival, answer: Answer) {
    && Typed(arrival)
    && if arrival.Chain? then answer.Handled? && ChainStep(l, setup, b, a, arrival, answer.served)
       else answer.Renewed? && ResetStep(setup, b, a, arrival.namespace, answer.report)
  }

  /** The states a device goes through and the answers it gives. */
  datatype Life = Life(states: seq<Engine>, script: seq<Arrival>, answers: seq<Answer>)

  ghost predicate IsLife(l: DecoderLimits, setup: Setup, life: Life) {
    && |life.states| == |life.script| + 1 && |life.answers| == |life.script|
    && EngineInv(life.states[0])
    && forall i | 0 <= i < |life.script| ::
         Stepped(l, setup, life.states[i], life.states[i + 1], life.script[i], life.answers[i])
  }

  /** Any script at all: every byte string, every layout, every fault, every order of resets. */
  method Run(p: Processor, l: DecoderLimits, info: DeviceInfo, script: seq<Arrival>) returns (ghost life: Life)
    requires p.Valid() && Configured(p, l, info) && forall i | 0 <= i < |script| :: Typed(script[i])
    modifies p, p.state
    ensures p.Valid() && (p.state == old(p.state) || fresh(p.state))
    ensures IsLife(l, p.Wiring(), life) && life.script == script
    ensures life.states[0] == old(p.View()) && life.states[|script|] == p.View()
  {
    hide EngineInv, Stepped, Typed, Configured;
    life := Life([p.View()], [], []);
    for n := 0 to |script|
      invariant p.Valid() && (p.state == old(p.state) || fresh(p.state))
      invariant IsLife(l, p.Wiring(), life) && life.script == script[..n]
      invariant life.states[0] == old(p.View()) && life.states[n] == p.View()
    {
      ghost var before := p.View();
      ghost var answer := Step(p, l, info, script[n]);
      Extend(l, p.Wiring(), life, p.View(), script[n], answer);
      life := Life(life.states + [p.View()], life.script + [script[n]], life.answers + [answer]);
      assert script[..n + 1] == script[..n] + [script[n]];
    }
    assert script[..|script|] == script;
  }

  method Step(p: Processor, l: DecoderLimits, info: DeviceInfo, arrival: Arrival) returns (ghost answer: Answer)
    requires p.Valid() && Configured(p, l, info) && Typed(arrival)
    modifies p, p.state
    ensures p.Valid() && (p.state == old(p.state) || fresh(p.state))
    ensures Stepped(l, p.Wiring(), old(p.View()), p.View(), arrival, answer)
  {
    hide EngineInv, StepOk, Obeyed, Encodes, ResetResult, Willing, Content, ValidSource, LaidFor, DecodeFrame, Answered,
         ValidateResponse, Explains, Concludes;
    match arrival {
      case Chain(regions, source, response, faults, memory, decodeMemory) =>
        var sink := new ResponseSink(response, faults);
        var served := Serve(p, l, info, regions, source, sink, memory, decodeMemory);
        answer := Handled(served, sink.bytes);
      case ResetTo(namespace) =>
        var r, log := p.Reset(namespace);
        answer := Renewed(r);
    }
  }

  lemma Extend(l: DecoderLimits, setup: Setup, life: Life, a: Engine, arrival: Arrival, answer: Answer)
    requires IsLife(l, setup, life) && Stepped(l, setup, life.states[|life.script|], a, arrival, answer)
    ensures IsLife(l, setup, Life(life.states + [a], life.script + [arrival], life.answers + [answer]))
  {
    hide EngineInv, Stepped;
  }

  // ------------------------------------------------------------------------------------------
  // What every life keeps.

  /** What any later state owes to an earlier one. */
  ghost predicate Follows(e: Engine, later: Engine) {
    && e.trace <= later.trace
    && (e.health == DiscardRequired ==> later == e.(lastReset := later.lastReset))
    && (e.health == DiscardRequired && e.lastReset.Some? ==> later.lastReset == e.lastReset)
  }

  lemma StepFollows(l: DecoderLimits, setup: Setup, b: Engine, a: Engine, arrival: Arrival, answer: Answer)
    requires Stepped(l, setup, b, a, arrival, answer)
    ensures EngineInv(a) && Follows(b, a)
  {
    hide EngineInv, Obeyed, Encodes, ReplyShape, SameObjects, Content, ValidSource, Inv, Standing, Budget, Certain;
  }

  lemma {:induction false} FollowsOn(l: DecoderLimits, setup: Setup, life: Life, i: nat, j: nat)
    requires IsLife(l, setup, life) && i <= j < |life.states|
    ensures EngineInv(life.states[j]) && Follows(life.states[i], life.states[j])
    decreases j
  {
    hide EngineInv, Stepped;
    if i < j {
      FollowsOn(l, setup, life, i, j - 1);
      StepFollows(l, setup, life.states[j - 1], life.states[j], life.script[j - 1], life.answers[j - 1]);
    } else if j > 0 {
      StepFollows(l, setup, life.states[j - 1], life.states[j], life.script[j - 1], life.answers[j - 1]);
    }
  }

  /** Whatever arrives and whatever the backend answers: in every state of every life the books
      balance and quarantine means discard, backend calls only accumulate, and a device that must be
      discarded makes no further call, changes no object and repeats its report. */
  lemma LivesAreSound(l: DecoderLimits, setup: Setup, life: Life)
    requires IsLife(l, setup, life)
    ensures forall i | 0 <= i < |life.states| :: EngineInv(life.states[i])
    ensures forall i, j | 0 <= i <= j < |life.states| :: Follows(life.states[i], life.states[j])
  {
    hide EngineInv, IsLife, Follows;
    forall i, j | 0 <= i <= j < |life.states|
      ensures EngineInv(life.states[j]) && Follows(life.states[i], life.states[j])
    {
      FollowsOn(l, setup, life, i, j);
    }
  }

  // ------------------------------------------------------------------------------------------
  // Identifiers.

  /** The namespace in force when arrival `n` comes, as long as no reset has failed. */
  function Current(script: seq<Arrival>, first: nat, n: nat): nat
    requires n <= |script|
  {
    if n == 0 then first
    else if script[n - 1].ResetTo? then script[n - 1].namespace
    else Current(script, first, n - 1)
  }

  /** The device may have been in this namespace before arrival `n`. */
  ghost predicate Used(script: seq<Arrival>, first: nat, n: nat, namespace: nat)
    requires n <= |script|
  {
    namespace == first || exists j | 0 <= j < n :: script[j] == ResetTo(namespace)
  }

  /** A reset to the namespace in force is refused; no other reset returns to a used namespace. */
  ghost predicate FreshNamespaces(script: seq<Arrival>, first: nat) {
    forall i | 0 <= i < |script| && script[i].ResetTo? ::
      script[i].namespace == Current(script, first, i) || !Used(script, first, i, script[i].namespace)
  }

  /** In the later state nothing resolves that had been issued and was gone, and what was issued under
      the same namespace counts as issued. */
  ghost predicate Remembers(g: Graph, later: Graph) {
    forall k, x | IssuedIn(g, k, x) ::
      (later.namespace == g.namespace ==> IssuedIn(later, k, x)) && (Alive(later, k, x) ==> Alive(g, k, x))
  }

  lemma NamespaceOf(g: Graph, k: Kind, x: Id)
    requires Shape(g) && (IssuedIn(g, k, x) || Alive(g, k, x))
    ensures x.namespace == g.namespace && x.tag == Tag(k) && IssuedIn(g, k, x)
  {
    if Alive(g, k, x) { HasIssued(g.tables[k], x); }
  }

  lemma RemembersNext(g: Graph, b: Graph, a: Graph)
    requires Shape(g) && Shape(b) && Shape(a) && Remembers(g, b)
    requires Descends(b, a) || a.namespace != g.namespace
    ensures Remembers(g, a)
  {
    hide Shape, IssuedIn, Get, Issued;
    forall k, x | IssuedIn(g, k, x)
      ensures (a.namespace == g.namespace ==> IssuedIn(a, k, x)) && (Alive(a, k, x) ==> Alive(g, k, x))
    {
      NamespaceOf(g, k, x);
      if Alive(a, k, x) { NamespaceOf(a, k, x); }
      if a.namespace == g.namespace { DescendsOne(b, a, k, x); }
    }
  }

  lemma DescendsOne(b: Graph, a: Graph, k: Kind, x: Id)
    requires Descends(b, a) && IssuedIn(b, k, x)
    ensures IssuedIn(a, k, x) && (Alive(a, k, x) ==> Alive(b, k, x))
  {
    hide Get, Issued;
    assert TableAges(b.tables[k], a.tables[k]);
  }

  /** One step either keeps the namespace and lets identifiers age, or takes the namespace of its
      reset. */
  lemma StepAges(l: DecoderLimits, setup: Setup, b: Engine, a: Engine, arrival: Arrival, answer: Answer)
    requires EngineInv(b) && Stepped(l, setup, b, a, arrival, answer)
    ensures Shape(b.graph) && Shape(a.graph)
    ensures Descends(b.graph, a.graph)
            || (arrival == ResetTo(a.graph.namespace) && b.health != DiscardRequired
                && a.graph.namespace != b.graph.namespace)
  {
    hide Inv, Encodes, StepOk, Content, ValidSource, Balanced, AtRest, CommandMove, Dispatchable, Standing, Written,
         Budget, Certain, Ordered, Descends, Issues, Shape;
    InvShape(b.graph);
    InvShape(a.graph);
    AgesItself(b.graph);
    if arrival.Chain? && answer.served.Completed? && b.health == Running {
      CommandIssues(b.(lastReset := None), answer.served.request.body, setup, arrival.memory);
      IssuesFacts(b.graph, answer.served.request.body,
                  CommandMove(b.(lastReset := None), answer.served.request.body, setup, arrival.memory));
    }
  }

  lemma IssuesFacts(g: Graph, body: Body, m: Move)
    requires Issues(g, body, m)
    ensures Descends(g, m.graph)
  {}

  /** The object a response publishes: its kind and identifier. */
  ghost function Published(answer: Answer): Option<(Kind, Id)> {
    if answer.Handled? && answer.served.Completed? && answer.served.outcome.Response?
       && answer.served.outcome.payload.ObjectPayload? && Publishes(answer.served.request.body).Some?
    then Some((Publishes(answer.served.request.body).value, answer.served.outcome.payload.id))
    else None
  }

  /** A published identifier is a valid one, was never issued before, and resolves. */
  lemma PublishedIsNew(l: DecoderLimits, setup: Setup, b: Engine, a: Engine, arrival: Arrival, answer: Answer)
    requires EngineInv(b) && Stepped(l, setup, b, a, arrival, answer) && Published(answer).Some?
    ensures var (k, x) := Published(answer).value;
            !IssuedIn(b.graph, k, x) && Alive(a.graph, k, x) && Encodable(x)
    ensures b.graph.namespace == a.graph.namespace && Shape(a.graph)
  {
    hide Inv, Encodes, Content, ValidSource, Balanced, AtRest, CommandMove, Dispatchable, Descends, IssuedIn, Shape,
         EngineInv, SameObjects;
    var request, out := answer.served.request, answer.served.outcome;
    InvOf(a);
    if b.health == Running {
      CommandIssues(b.(lastReset := None), request.body, setup, arrival.memory);
      WrittenAs(PortOf(|arrival.response|, l.maxResponse, arrival.faults, 0), request.id,
                CommandMove(b.(lastReset := None), request.body, setup, arrival.memory), out);
    }
  }

  lemma InvOf(e: Engine)
    requires EngineInv(e)
    ensures Inv(e.graph) && Shape(e.graph)
  {
    hide Inv, Balanced, AtRest;
    InvShape(e.graph);
  }
  lemma {:induction false} NamespaceIsUsed(l: DecoderLimits, setup: Setup, life: Life, i: nat)
    requires IsLife(l, setup, life) && i < |life.states|
    ensures EngineInv(life.states[i])
            && Used(life.script, life.states[0].graph.namespace, i, life.states[i].graph.namespace)
    ensures life.states[i].health == DiscardRequired
            || life.states[i].graph.namespace == Current(life.script, life.states[0].graph.namespace, i)
  {
    hide EngineInv, Stepped, Descends;
    if i > 0 {
      var b, a := life.states[i - 1], life.states[i];
      NamespaceIsUsed(l, setup, life, i - 1);
      StepAges(l, setup, b, a, life.script[i - 1], life.answers[i - 1]);
      StepFollows(l, setup, b, a, life.script[i - 1], life.answers[i - 1]);
      NamespaceStays(l, setup, b, a, life.script[i - 1], life.answers[i - 1]);
    }
  }

  /** The namespace changes only to that of a reset, which otherwise was refused or leads to discard. */
  lemma NamespaceStays(l: DecoderLimits, setup: Setup, b: Engine, a: Engine, arrival: Arrival, answer: Answer)
    requires EngineInv(b) && Stepped(l, setup, b, a, arrival, answer)
    ensures a.graph.namespace
            == if arrival.ResetTo? && a.health != DiscardRequired then arrival.namespace else b.graph.namespace
  {
    hide Inv, Encodes, Obeyed, Content, ValidSource, Balanced, AtRest, Standing, Written, Budget, Certain, Ordered,
         SameObjects, ReplyShape, Ages;
  }

  lemma {:induction false} RemembersOn(l: DecoderLimits, setup: Setup, life: Life, i: nat, j: nat)
    requires IsLife(l, setup, life) && i <= j < |life.states|
    requires FreshNamespaces(life.script, life.states[0].graph.namespace)
    ensures Remembers(life.states[i].graph, life.states[j].graph) && Shape(life.states[i].graph)
            && Shape(life.states[j].graph)
    decreases j
  {
    hide EngineInv, Stepped, Descends, Remembers, Shape;
    NamespaceIsUsed(l, setup, life, i);
    InvOf(life.states[i]);
    if i == j {
      RemembersItself(life.states[i].graph);
    } else {
      var b, a := life.states[j - 1], life.states[j];
      RemembersOn(l, setup, life, i, j - 1);
      NamespaceIsUsed(l, setup, life, j - 1);
      StepAges(l, setup, b, a, life.script[j - 1], life.answers[j - 1]);
      RemembersNext(life.states[i].graph, b.graph, a.graph);
    }
  }

  lemma RemembersItself(g: Graph)
    ensures Remembers(g, g)
  {}

  /** An identifier published by step `j` had not been issued in any state up to `j`. */
  lemma NeverIssuedBefore(l: DecoderLimits, setup: Setup, life: Life, i: nat, j: nat)
    requires IsLife(l, setup, life) && i <= j < |life.answers| && Published(life.answers[j]).Some?
    requires FreshNamespaces(life.script, life.states[0].graph.namespace)
    ensures var (k, x) := Published(life.answers[j]).value;
            && !IssuedIn(life.states[i].graph, k, x) && IssuedIn(life.states[j + 1].graph, k, x) && Encodable(x)
            && x.tag == Tag(k)
  {
    hide EngineInv, Stepped, Published, Shape, IssuedIn, Get;
    var (k, x) := Published(life.answers[j]).value;
    NamespaceIsUsed(l, setup, life, j);
    PublishedIsNew(l, setup, life.states[j], life.states[j + 1], life.script[j], life.answers[j]);
    NamespaceOf(life.states[j + 1].graph, k, x);
    RemembersOn(l, setup, life, i, j);
    if IssuedIn(life.states[i].graph, k, x) { NamespaceOf(life.states[i].graph, k, x); }
  }

  /** Identifiers over a whole life with fresh namespaces. Once an issued identifier does not resolve,
      it never resolves again, across every command and every reset; and no identifier is published
      twice, whatever its kind. */
  lemma IdentifiersAreForOnce(l: DecoderLimits, setup: Setup, life: Life)
    requires IsLife(l, setup, life) && FreshNamespaces(life.script, life.states[0].graph.namespace)
    ensures forall i, j | 0 <= i <= j < |life.states| :: Remembers(life.states[i].graph, life.states[j].graph)
    ensures forall i, j | && 0 <= i < j < |life.answers|
                          && Published(life.answers[i]).Some? && Published(life.answers[j]).Some? ::
              Raw(Published(life.answers[i]).value.1) != Raw(Published(life.answers[j]).value.1)
  {
    hide IsLife, Remembers, FreshNamespaces, Published, IssuedIn, Encodable, Raw;
    forall i, j | 0 <= i <= j < |life.states|
      ensures Remembers(life.states[i].graph, life.states[j].graph)
    {
      RemembersOn(l, setup, life, i, j);
    }
    LifeLengths(l, setup, life);
    forall i, j | 0 <= i < j < |life.answers| && Published(life.answers[i]).Some? && Published(life.answers[j]).Some?
      ensures Raw(Published(life.answers[i]).value.1) != Raw(Published(life.answers[j]).value.1)
    {
      var (k, x) := Published(life.answers[i]).value;
      var (k', x') := Published(life.answers[j]).value;
      NeverIssuedBefore(l, setup, life, i, i);
      NeverIssuedBefore(l, setup, life, i + 1, j);
      if Raw(x) == Raw(x') {
        KeyIsInjective(x, x');
        TagsAreDistinct(k, k');
      }
    }
  }

  lemma LifeLengths(l: DecoderLimits, setup: Setup, life: Life)
    requires IsLife(l, setup, life)
    ensures |life.states| == |life.answers| + 1
  {}

  lemma TagsAreDistinct(k: Kind, k': Kind)
    requires Tag(k) == Tag(k')
    ensures k == k'
  {}

  /** The condition is needed: reset refuses only the namespace in force. A device that creates one
      context in each of these namespaces publishes the same identifier twice, and the stale one
      resolves again, exactly when a namespace comes back. The backend is any that grants contexts and
      releases. */
  method NamespacesMustBeFresh(p: Processor, epochs: seq<nat>, maxResponse: nat) returns (published: seq<Id>)
    requires p.Valid() && p.health == Running && p.state.View() == NewGraph(p.state.namespace, p.limits, p.policy)
    requires epochs != [] && epochs[0] == p.state.namespace && 24 <= maxResponse < U32
    requires forall n | 0 <= n < |epochs| :: epochs[n] < U16
    requires forall n | 0 < n < |epochs| :: epochs[n] != epochs[n - 1]
    requires Willing(p.backend, p.cancellation, 0) && forall n :: p.backend(n).create.Ok?
    modifies p, p.state
    ensures p.Valid() && |published| == |epochs|
    ensures forall i, j | 0 <= i < j < |epochs| :: published[i] == published[j] <==> epochs[i] == epochs[j]
    ensures forall i | 0 <= i < |epochs| ::
              Alive(p.state.View(), Context, published[i]) <==> epochs[i] == epochs[|epochs| - 1]
  {
    hide EngineInv, Willing, NewGraph, Get;
    published := [];
    var n := 0;
    while true
      invariant n < |epochs| && |published| == n && p.Valid() && p.health == Running
                && (p.state == old(p.state) || fresh(p.state))
      invariant p.state.View() == NewGraph(epochs[n], p.limits, p.policy)
      invariant forall i | 0 <= i < n :: published[i] == NewId(0, epochs[i], 0, Context)
      decreases |epochs| - n
    {
      var id := OneContext(p, epochs[n], maxResponse);
      published := published + [id];
      n := n + 1;
      if n == |epochs| { break; }
      Renew(p, epochs[n - 1], epochs[n]);
    }
    forall i | 0 <= i < |epochs|
      ensures Alive(p.state.View(), Context, published[i]) <==> epochs[i] == epochs[|epochs| - 1]
    {
      OnlyOwnNamespace(p.View(), epochs[|epochs| - 1], epochs[i]);
    }
  }

  lemma OnlyOwnNamespace(e: Engine, namespace: nat, other: nat)
    requires EngineInv(e) && Alive(e.graph, Context, NewId(0, namespace, 0, Context))
    ensures Alive(e.graph, Context, NewId(0, other, 0, Context)) <==> other == namespace
  {
    hide EngineInv, Get, IssuedIn, Shape;
    InvOf(e);
    NamespaceOf(e.graph, Context, NewId(0, namespace, 0, Context));
    if Alive(e.graph, Context, NewId(0, other, 0, Context)) {
      NamespaceOf(e.graph, Context, NewId(0, other, 0, Context));
    }
  }

  method OneContext(p: Processor, namespace: nat, maxResponse: nat) returns (id: Id)
    requires p.Valid() && p.health == Running && p.state.View() == NewGraph(namespace, p.limits, p.policy)
    requires 24 <= maxResponse < U32 && forall n :: p.backend(n).create.Ok?
    modifies p, p.state
    ensures p.Valid() && p.state == old(p.state) && p.health == Running && p.state.namespace == namespace
    ensures id == NewId(0, namespace, 0, Context) && Alive(p.state.View(), Context, id)
  {
    hide EngineInv, StepOk, NewTable, Get, Obeyed, Written;
    var port := Port(maxResponse, maxResponse, _ => true);
    var request, memory := Request(1, CreateContext), Memory(true, true, true);
    ghost var b := p.View().(lastReset := None);
    var out := p.Process(port, request, memory);
    FirstContext(b, p.View(), out, port, request, p.Wiring(), memory, namespace);
    id := out.payload.id;
  }

  method Renew(p: Processor, from: nat, to: nat)
    requires p.Valid() && p.health == Running && p.state.namespace == from != to < U16
             && Willing(p.backend, p.cancellation, 0)
    modifies p, p.state
    ensures p.Valid() && (p.state == old(p.state) || fresh(p.state)) && p.health == Running
    ensures p.state.View() == NewGraph(to, p.limits, p.policy)
  {
    hide EngineInv, Willing, NewGraph, Get, Inv, Standing, Ordered, Budget, Certain;
    StillWilling(p.backend, p.cancellation, 0, |p.trace|);
    var report, _ := p.Reset(to);
  }

  /** Concretely: from namespace 1 to 2 and back, the first identifier is published again while a
      guest may still hold it. */
  method NamespaceComesBack() returns (p: Processor, published: seq<Id>)
    ensures fresh(p) && p.Valid() && |published| == 3
    ensures published[0] == published[2] != published[1] && Alive(p.state.View(), Context, published[0])
  {
    hide EngineInv, Get;
    var reply := Reply(Ok(0), BufferInfo(BufferDesc(1, 1, 1, 1), 1), Ok(()), _ => 0, Ok(Complete), Accepted(0),
                       Released);
    p := new Processor(_ => reply, 1, Limits(1, 1, 1, 1, 1, 1, 1, 1), Policy(1, 1), {}, false);
    assert Willing(p.backend, p.cancellation, 0);
    published := NamespacesMustBeFresh(p, [1, 2, 1], 24);
  }
}
