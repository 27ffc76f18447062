/** Tables are as large as the quotas of all contexts together, so it is the quota that decides. */
module Quotas {
  import opened Bytes
  import opened ObjectTables
  import opened Graphs
  import opened GraphLaws
  import opened Meanings

  /** The identifier of the object in slot `j`. */
  function IdAt(t: Table<Record>, j: nat): Id
    requires j < |t.slots|
  {
    NewId(j, t.namespace, t.slots[j].generation, t.kind)
  }

  /** How many of the objects in `slots` belong to the contexts in the first `n` slots of `t`. */
  ghost function Shared(t: Table<Record>, n: nat, slots: seq<Slot<Record>>): nat
    requires n <= |t.slots|
  {
    if n == 0 then 0
    else Shared(t, n - 1, slots) + if t.slots[n - 1].value.Some? then Tally(slots, Owned(IdAt(t, n - 1))) else 0
  }

  lemma {:induction false} SharedGrows(t: Table<Record>, n: nat, slots: seq<Slot<Record>>, s: Slot<Record>, j: nat)
    requires n <= |t.slots| && j < |t.slots| && t.slots[j].value.Some?
    ensures Shared(t, n, slots + [s])
            >= Shared(t, n, slots) + if j < n then SlotWeight(Owned(IdAt(t, j)), s) else 0
  {
    hide SlotWeight;
    assert (slots + [s])[..|slots|] == slots;
    if n > 0 { SharedGrows(t, n - 1, slots, s, j); }
  }

  lemma OwnerIsThere(g: Graph, k: Kind, j: nat) returns (owner: nat)
    requires Inv(g) && k != Context && j < |T(g, k).slots| && T(g, k).slots[j].value.Some?
    ensures Context in g.tables && owner < |T(g, Context).slots| && T(g, Context).slots[owner].value.Some?
    ensures SlotWeight(Owned(IdAt(T(g, Context), owner)), T(g, k).slots[j]) == 1
  {
    hide Inv, Shape, Alive, Rec, IdAt;
    InvShape(g);
    var id := IdAt(T(g, k), j);
    SlotResolves(g, k, j);
    OwnerIsAlive(g, k, id);
    SlotOf(g, Rec(g, k, id).context);
    owner := Rec(g, k, id).context.slot - 1;
  }

  lemma OwnerIsAlive(g: Graph, k: Kind, id: Id)
    requires Inv(g) && k != Context && Alive(g, k, id)
    ensures !Rec(g, k, id).ContextRecord? && Alive(g, Context, Rec(g, k, id).context)
  {
    hide Get, Inv, Tally, Valid, ValidLimits, TableLimit, ContextOk;
    RecordIsOk(g, k, id);
  }

  lemma SlotResolves(g: Graph, k: Kind, j: nat)
    requires Shape(g) && j < |T(g, k).slots| && T(g, k).slots[j].value.Some?
    ensures Alive(g, k, IdAt(T(g, k), j)) && Rec(g, k, IdAt(T(g, k), j)) == T(g, k).slots[j].value.value
  {
    hide ValidLimits, TableLimit, LiveCount;
  }

  /** Every object belongs to some context. */
  lemma {:induction false} AllShared(g: Graph, k: Kind, m: nat)
    requires Inv(g) && k != Context && m <= |T(g, k).slots|
    ensures Context in g.tables
    ensures Shared(T(g, Context), |T(g, Context).slots|, T(g, k).slots[..m]) >= Tally(T(g, k).slots[..m], Ones)
  {
    hide Inv, Shape;
    InvShape(g);
    ShapeTables(g, Context);
    var contexts, slots := T(g, Context), T(g, k).slots;
    if m > 0 {
      AllShared(g, k, m - 1);
      assert slots[..m] == slots[..m - 1] + [slots[m - 1]];
      assert slots[..m][..m - 1] == slots[..m - 1];
      if slots[m - 1].value.Some? {
        var j := OwnerIsThere(g, k, m - 1);
        SharedGrows(contexts, |contexts.slots|, slots[..m - 1], slots[m - 1], j);
      } else {
        SharedKeeps(contexts, |contexts.slots|, slots[..m - 1], slots[m - 1]);
      }
    } else {
      assert slots[..0] == [];
    }
  }

  lemma {:induction false} SharedKeeps(t: Table<Record>, n: nat, slots: seq<Slot<Record>>, s: Slot<Record>)
    requires n <= |t.slots| && s.value.None?
    ensures Shared(t, n, slots + [s]) >= Shared(t, n, slots)
  {
    assert (slots + [s])[..|slots|] == slots;
    if n > 0 { SharedKeeps(t, n - 1, slots, s); }
  }

  lemma ContextWithin(g: Graph, k: Kind, context: Id)
    requires Inv(g) && k != Context && Alive(g, Context, context)
    ensures k in g.tables && OwnedBy(g, k, context) <= PerContext(g.limits, k)
  {
    hide Get, Inv, Tally, Valid, ValidLimits, TableLimit, LeafOk, EventOk;
    RecordIsOk(g, Context, context);
  }

  /** Contexts hold no more than their quotas, and one of them less. */
  lemma {:induction false} SharedWithin(g: Graph, k: Kind, context: Id, n: nat)
    requires Inv(g) && k != Context && Alive(g, Context, context) && k in g.tables
    requires OwnedBy(g, k, context) < PerContext(g.limits, k) && n <= |T(g, Context).slots|
    ensures Shared(T(g, Context), n, T(g, k).slots)
            <= PerContext(g.limits, k) * n - if context.slot - 1 < n then 1 else 0
  {
    hide Inv, Shape, Alive, Rec, Tally, PerContext, IdAt;
    InvShape(g);
    SlotOf(g, context);
    var contexts, quota := T(g, Context), PerContext(g.limits, k);
    if n > 0 {
      SharedWithin(g, k, context, n - 1);
      Monotone(quota, n - 1, n);
      if contexts.slots[n - 1].value.Some? {
        SlotResolves(g, Context, n - 1);
        ContextWithin(g, k, IdAt(contexts, n - 1));
      }
    }
  }

  lemma SlotOf(g: Graph, context: Id)
    requires Alive(g, Context, context) && Shape(g)
    ensures 0 < context.slot <= |T(g, Context).slots| && T(g, Context).slots[context.slot - 1].value.Some?
    ensures IdAt(T(g, Context), context.slot - 1) == context
  {
    hide ValidLimits, TableLimit, LiveCount;
  }

  ghost predicate NoneRetired(t: Table<Record>) { forall i | 0 <= i < |t.slots| :: !t.slots[i].retired }

  lemma {:induction false} AllLive(slots: seq<Slot<Record>>)
    requires forall i | 0 <= i < |slots| :: slots[i].value.Some?
    ensures Tally(slots, Ones) == |slots|
  {
    if slots != [] { AllLive(slots[..|slots| - 1]); }
  }

  lemma FullIsLive(g: Graph, k: Kind)
    requires Shape(g) && Meanings.Full(g, k) && NoneRetired(g.tables[k])
    ensures forall i | 0 <= i < |g.tables[k].slots| :: g.tables[k].slots[i].value.Some?
    ensures |g.tables[k].slots| == TableLimit(g.limits, k)
    ensures Context in g.tables && |g.tables[Context].slots| <= g.limits.maxContexts
  {
    hide ValidLimits, LiveCount;
  }

  /** While no identifier space is used up, a context below its quota finds its table with room: what other
      contexts own can never crowd it out. */
  lemma QuotasSuffice(g: Graph, k: Kind, context: Id)
    requires Inv(g) && k != Context && Alive(g, Context, context) && k in g.tables
    requires OwnedBy(g, k, context) < PerContext(g.limits, k) && NoneRetired(g.tables[k])
    ensures !Meanings.Full(g, k)
  {
    hide Inv, Shape, Alive, Tally, PerContext, NoneRetired, Meanings.Full, Shared;
    InvShape(g);
    var slots, quota := T(g, k).slots, PerContext(g.limits, k);
    if Meanings.Full(g, k) {
      FullIsLive(g, k);
      var contexts := T(g, Context).slots;
      AllLive(slots);
      AllShared(g, k, |slots|);
      assert slots[..|slots|] == slots;
      SharedWithin(g, k, context, |contexts|);
      SlotOf(g, context);
      Monotone(quota, |contexts|, g.limits.maxContexts);
    }
  }
}
