/** The generational object table: packed identifiers, slot reuse and slot retirement. */
module ObjectTables {
  import opened Bytes

  datatype Kind = Context | Buffer | Program | Queue | Event

  function Tag(kind: Kind): (t: nat)
    ensures 1 <= t <= 5
  {
    match kind
    case Context => 1
    case Buffer => 2
    case Program => 3
    case Queue => 4
    case Event => 5
  }

  const GENERATION_MASK: nat := 8191

  /** A guest-visible identifier by its fields: slot number (the slot index plus one), kind tag,
      generation and device namespace. `Raw` and `FromRaw` are its 64-bit encoding. */
  datatype Id = Id(slot: nat, tag: nat, generation: nat, namespace: nat)

  predicate Encodable(id: Id) {
    id.slot < U32 && id.tag < 8 && id.generation <= GENERATION_MASK && id.namespace < U16
  }

  /** The fields do not overlap, so the shifts and bitwise ors of the packing are sums. */
  function Raw(id: Id): nat {
    (id.namespace * 0x1_0000 + id.generation * 8 + id.tag) * U32 + id.slot
  }

  function FromRaw(raw: nat): Id {
    var token := raw / U32;
    Id(raw % U32, token % 8, token / 8 % 8192, token / 0x1_0000)
  }

  /** The packing is a bijection between encodable identifiers and 64-bit words, so distinct
      identifiers have distinct encodings; an issued identifier is never the reserved word zero. */
  lemma PackingIsBijective(id: Id, raw: nat)
    requires Encodable(id) && raw < U64
    ensures FromRaw(Raw(id)) == id && Raw(id) < U64
    ensures Encodable(FromRaw(raw)) && Raw(FromRaw(raw)) == raw
    ensures id.slot > 0 ==> Raw(id) != 0
  {
    var token := id.namespace * 0x1_0000 + id.generation * 8 + id.tag;
    assert token < U32 && Raw(id) / U32 == token && Raw(id) % U32 == id.slot;
    assert token / 8 == id.namespace * 8192 + id.generation;
    var back := raw / U32;
    assert back / 8 / 8192 == back / 0x1_0000;
    assert back == back / 8 * 8 + back % 8;
  }

  function NewId(index: nat, namespace: nat, generation: nat, kind: Kind): Id {
    Id(index + 1, Tag(kind), generation, namespace)
  }

  datatype Slot<T> = Slot(generation: nat, value: Option<T>, retired: bool)

  datatype TableError = InvalidId | WrongKind | StaleId | Full | AllocationFailed

  datatype Table<T> = Table(kind: Kind, namespace: nat, maxSlots: nat, live: nat,
                            slots: seq<Slot<T>>, free: seq<nat>)

  /** An issued word carries its slot below, and above it the kind: 1 to 5 in the order context, buffer,
      program, queue, event. */
  lemma IssuedWord(index: nat, namespace: nat, generation: nat, kind: Kind)
    requires index + 1 < U32
    ensures var raw := Raw(NewId(index, namespace, generation, kind));
            && raw % U32 == index + 1
            && raw / U32 % 8
               == match kind case Context => 1 case Buffer => 2 case Program => 3 case Queue => 4 case Event => 5
  {
    var id := NewId(index, namespace, generation, kind);
    var upper := id.namespace * 0x1_0000 + id.generation * 8 + id.tag;
    assert Raw(id) == upper * U32 + id.slot;
    assert upper == 8 * (id.namespace * 0x2000 + id.generation) + id.tag;
  }

  function NewTable<T>(kind: Kind, namespace: nat, maxSlots: nat): Table<T> {
    Table(kind, namespace, maxSlots, 0, [], [])
  }

  predicate Vacant<T>(s: Slot<T>) { s.value.None? && !s.retired }

  function LiveCount<T>(slots: seq<Slot<T>>): nat {
    if slots == [] then 0
    else LiveCount(slots[..|slots| - 1]) + if slots[|slots| - 1].value.Some? then 1 else 0
  }

  /** A generation that fits its field; a retired slot is empty and at the last generation. */
  predicate Sound<T>(s: Slot<T>) {
    s.generation <= GENERATION_MASK && (s.retired ==> s.value.None? && s.generation == GENERATION_MASK)
  }

  ghost predicate AllSound<T>(slots: seq<Slot<T>>) { forall i | 0 <= i < |slots| :: Sound(slots[i]) }

  /** The free list holds exactly the vacant slots, each once. */
  ghost predicate FreeExact<T>(slots: seq<Slot<T>>, free: seq<nat>) {
    && (forall i | 0 <= i < |slots| :: Vacant(slots[i]) <==> i in free)
    && (forall i | 0 <= i < |free| :: free[i] < |slots|)
    && (forall i, j | 0 <= i < j < |free| :: free[i] != free[j])
  }

  /** Every slot is exactly one of live, on the free list (once), or retired. */
  ghost predicate Valid<T>(t: Table<T>) {
    && |t.slots| <= t.maxSlots < U32 && t.namespace < U16
    && t.live == LiveCount(t.slots) && AllSound(t.slots) && FreeExact(t.slots, t.free)
  }

  function Locate<T>(t: Table<T>, id: Id): (r: Result<nat, TableError>)
    ensures r.Ok? ==> r.value < |t.slots| && t.slots[r.value].value.Some? && r.value + 1 == id.slot
  {
    if id.slot == 0 then Err(InvalidId)
    else if id.tag != Tag(t.kind) then Err(WrongKind)
    else if id.namespace != t.namespace then Err(StaleId)
    else
      var index := id.slot - 1;
      if index >= |t.slots| then Err(StaleId)
      else if t.slots[index].generation != id.generation || t.slots[index].retired || t.slots[index].value.None?
      then Err(StaleId)
      else Ok(index)
  }

  function Get<T>(t: Table<T>, id: Id): Result<T, TableError> {
    var index :- Locate(t, id);
    Ok(t.slots[index].value.value)
  }

  predicate Has<T>(t: Table<T>, id: Id) { Get(t, id).Ok? }

  /** Writing through a mutable borrow of the live record behind `id`. */
  function Store<T>(t: Table<T>, id: Id, value: T): Table<T>
    requires Has(t, id)
  {
    var index := Locate(t, id).value;
    t.(slots := t.slots[index := t.slots[index].(value := Some(value))])
  }

  function Reserve<T>(t: Table<T>, memory: bool): Option<TableError> {
    if t.free != [] then None
    else if |t.slots| >= t.maxSlots then Some(Full)
    else if !memory then Some(AllocationFailed)
    else None
  }

  /** Every slot is live or retired, so none can be filled again. */
  ghost predicate NoVacancy<T>(t: Table<T>) {
    forall i | 0 <= i < |t.slots| :: t.slots[i].value.Some? || t.slots[i].retired
  }

  lemma FreeMeansVacant<T>(t: Table<T>)
    requires Valid(t)
    ensures t.free == [] <==> NoVacancy(t)
  {
    if t.free != [] {
      LastIsFree(t.slots, t.free);
      assert Vacant(t.slots[t.free[|t.free| - 1]]);
    }
  }

  lemma FreeIsThere<T>(t: Table<T>)
    requires Valid(t) && t.free != []
    ensures t.free[|t.free| - 1] < |t.slots|
  {}

  /** A table refuses a value exactly when no slot is vacant and it cannot grow: it has all the slots
      it may have, or there is no memory for another. */
  lemma InsertionRoom<T>(t: Table<T>, value: T, memory: bool)
    requires Valid(t)
    ensures Apply(t, Insert(value, memory)).1.None? <==> NoVacancy(t) && (|t.slots| == t.maxSlots || !memory)
  {
    FreeMeansVacant(t);
  }

  lemma ReserveRoom<T>(t: Table<T>, memory: bool)
    requires Valid(t)
    ensures Reserve(t, memory)
            == if !NoVacancy(t) then None
               else if |t.slots| == t.maxSlots then Some(Full)
               else if memory then None else Some(AllocationFailed)
  {
    FreeMeansVacant(t);
  }

  predicate CanInsert<T>(t: Table<T>) { t.free != [] || |t.slots| < t.maxSlots }

  function InsertedAt<T>(t: Table<T>): nat {
    if t.free != [] then t.free[|t.free| - 1] else |t.slots|
  }

  function InsertedId<T>(t: Table<T>): Id
    requires Valid(t) && CanInsert(t)
  {
    var index := InsertedAt(t);
    NewId(index, t.namespace, if t.free != [] then t.slots[index].generation else 0, t.kind)
  }

  function Inserted<T>(t: Table<T>, value: T): Table<T>
    requires Valid(t) && CanInsert(t)
  {
    var index := InsertedAt(t);
    if t.free != [] then
      t.(slots := t.slots[index := t.slots[index].(value := Some(value))],
         free := t.free[..|t.free| - 1], live := t.live + 1)
    else
      t.(slots := t.slots + [Slot(0, Some(value), false)], live := t.live + 1)
  }

  function Removed<T>(t: Table<T>, id: Id): Table<T>
    requires Valid(t) && Has(t, id)
  {
    var index := Locate(t, id).value;
    LiveUpdate(t.slots, index, t.slots[index].(value := None));
    var s := t.slots[index].(value := None);
    if s.generation == GENERATION_MASK then
      t.(slots := t.slots[index := s.(retired := true)], live := t.live - 1)
    else
      t.(slots := t.slots[index := s.(generation := s.generation + 1)],
         free := t.free + [index], live := t.live - 1)
  }

  lemma {:induction false} LiveUpdate<T>(slots: seq<Slot<T>>, i: nat, s: Slot<T>)
    requires i < |slots|
    ensures LiveCount(slots[i := s]) == LiveCount(slots)
              - (if slots[i].value.Some? then 1 else 0) + (if s.value.Some? then 1 else 0)
    ensures slots[i].value.Some? ==> LiveCount(slots) > 0
  {
    var n := |slots| - 1;
    if i < n {
      LiveUpdate(slots[..n], i, s);
      assert slots[i := s][..n] == slots[..n][i := s];
    } else {
      assert slots[i := s][..n] == slots[..n];
    }
  }

  /** The first live slot at or after `start`: the position after it, and its identifier. */
  function NextId<T>(t: Table<T>, start: nat): (r: Option<(nat, Id)>)
    ensures r.Some? ==> start < r.value.0 <= |t.slots| && t.slots[r.value.0 - 1].value.Some?
    decreases |t.slots| - start
  {
    if start >= |t.slots| then None
    else if !t.slots[start].retired && t.slots[start].value.Some? then
      Some((start + 1, NewId(start, t.namespace, t.slots[start].generation, t.kind)))
    else NextId(t, start + 1)
  }

  /** Scanning with `NextId` skips no live slot. */
  lemma {:induction false} NextIdSkipsNothing<T>(t: Table<T>, start: nat)
    requires Valid(t)
    ensures NextId(t, start).Some? ==>
              Locate(t, NextId(t, start).value.1) == Ok(NextId(t, start).value.0 - 1)
    ensures NextId(t, start).Some? ==>
              forall i | start <= i < NextId(t, start).value.0 - 1 :: t.slots[i].value.None?
    ensures NextId(t, start).None? ==> forall i | start <= i < |t.slots| :: t.slots[i].value.None?
    decreases |t.slots| - start
  {
    hide LiveCount, FreeExact;
    if start < |t.slots| && !(!t.slots[start].retired && t.slots[start].value.Some?) {
      NextIdSkipsNothing(t, start + 1);
    }
  }

  // ------------------------------------------------------------------------------------------
  // Effect of each operation on lookups and on the identifiers ever issued.

  /** `id` was handed out by this table at some time: its slot has moved on from that generation,
      or is at it with a live or finally retired value. */
  predicate Issued<T>(t: Table<T>, id: Id) {
    && id.slot > 0 && id.tag == Tag(t.kind) && id.namespace == t.namespace
    && id.slot - 1 < |t.slots|
    && var s := t.slots[id.slot - 1];
       id.generation < s.generation || (id.generation == s.generation && !Vacant(s))
  }

  predicate SameIdentity<T>(t: Table<T>, t': Table<T>) {
    t'.kind == t.kind && t'.namespace == t.namespace && t'.maxSlots == t.maxSlots
  }

  /** The tables differ only in the contents of live records. */
  ghost predicate SameSkeleton<T>(t: Table<T>, t': Table<T>) {
    && SameIdentity(t, t') && t'.live == t.live && t'.free == t.free && |t'.slots| == |t.slots|
    && forall i | 0 <= i < |t.slots| ::
         && t'.slots[i].generation == t.slots[i].generation && t'.slots[i].retired == t.slots[i].retired
         && (t'.slots[i].value.Some? <==> t.slots[i].value.Some?)
  }

  lemma LiveAppend<T>(slots: seq<Slot<T>>, s: Slot<T>)
    ensures LiveCount(slots + [s]) == LiveCount(slots) + if s.value.Some? then 1 else 0
  {
    assert (slots + [s])[..|slots|] == slots;
  }

  lemma LastIsFree<T>(slots: seq<Slot<T>>, free: seq<nat>)
    requires FreeExact(slots, free) && free != []
    ensures var index := free[|free| - 1]; index < |slots| && Vacant(slots[index])
  {
    assert free[|free| - 1] in free;
  }

  /** Taking the last entry of the free list and filling its slot. */
  lemma FreeTaken<T>(slots: seq<Slot<T>>, free: seq<nat>, s: Slot<T>)
    requires FreeExact(slots, free) && free != [] && s.value.Some?
    ensures var index := free[|free| - 1];
            index < |slots| && Vacant(slots[index]) && FreeExact(slots[index := s], free[..|free| - 1])
  {
    var index, rest := free[|free| - 1], free[..|free| - 1];
    assert free == rest + [index] && index in free;
    forall i | 0 <= i < |slots|
      ensures Vacant(slots[index := s][i]) <==> i in rest
    {
      assert i in free <==> i in rest || i == index;
    }
  }

  lemma InsertKeepsValid<T>(t: Table<T>, value: T)
    requires Valid(t) && CanInsert(t)
    ensures Valid(Inserted(t, value)) && SameIdentity(t, Inserted(t, value))
    ensures Inserted(t, value).live == t.live + 1
  {
    hide FreeExact, LiveCount;
    var t', index := Inserted(t, value), InsertedAt(t);
    if t.free != [] {
      LastIsFree(t.slots, t.free);
      FreeTaken(t.slots, t.free, t'.slots[index]);
      LiveUpdate(t.slots, index, t'.slots[index]);
    } else {
      LiveAppend(t.slots, t'.slots[index]);
      FreeGrown(t.slots, t'.slots[index]);
    }
  }

  lemma FreeGrown<T>(slots: seq<Slot<T>>, s: Slot<T>)
    requires FreeExact(slots, []) && s.value.Some?
    ensures FreeExact(slots + [s], [])
  {}

  /** A slot that stays off the free list, or joins it when it becomes vacant. */
  lemma FreeKept<T>(slots: seq<Slot<T>>, free: seq<nat>, i: nat, s: Slot<T>)
    requires FreeExact(slots, free) && i < |slots| && !Vacant(slots[i])
    ensures !Vacant(s) ==> FreeExact(slots[i := s], free)
    ensures Vacant(s) ==> FreeExact(slots[i := s], free + [i])
  {
    assert i !in free;
  }

  lemma RemoveKeepsValid<T>(t: Table<T>, id: Id)
    requires Valid(t) && Has(t, id)
    ensures Valid(Removed(t, id)) && SameIdentity(t, Removed(t, id))
    ensures Removed(t, id).live == t.live - 1
  {
    hide FreeExact, LiveCount;
    var index := Locate(t, id).value;
    LiveUpdate(t.slots, index, Removed(t, id).slots[index]);
    FreeKept(t.slots, t.free, index, Removed(t, id).slots[index]);
  }

  lemma StoreKeepsValid<T>(t: Table<T>, id: Id, value: T)
    requires Valid(t) && Has(t, id)
    ensures Valid(Store(t, id, value)) && SameSkeleton(t, Store(t, id, value))
  {
    hide FreeExact, LiveCount;
    var index := Locate(t, id).value;
    LiveUpdate(t.slots, index, Store(t, id, value).slots[index]);
    FreeKept(t.slots, t.free, index, Store(t, id, value).slots[index]);
  }

  lemma StoreGets<T>(t: Table<T>, id: Id, value: T)
    requires Has(t, id)
    ensures Get(Store(t, id, value), id) == Ok(value)
    ensures forall x: Id | x != id :: Get(Store(t, id, value), x) == Get(t, x)
  {}

  lemma InsertGets<T>(t: Table<T>, value: T)
    requires Valid(t) && CanInsert(t)
    ensures Get(Inserted(t, value), InsertedId(t)) == Ok(value)
    ensures !Issued(t, InsertedId(t)) && Get(t, InsertedId(t)) == Err(StaleId)
    ensures Encodable(InsertedId(t)) && InsertedId(t).slot > 0
    ensures forall x: Id | x != InsertedId(t) :: Get(Inserted(t, value), x) == Get(t, x)
    ensures forall x: Id :: Issued(Inserted(t, value), x) <==> Issued(t, x) || x == InsertedId(t)
  {
    var t', id, index := Inserted(t, value), InsertedId(t), InsertedAt(t);
    assert t.free != [] ==> index in t.free;
  }

  lemma RemoveGets<T>(t: Table<T>, id: Id)
    requires Valid(t) && Has(t, id)
    ensures Get(Removed(t, id), id) == Err(StaleId)
    ensures forall x: Id | x != id :: Get(Removed(t, id), x) == Get(t, x)
    ensures forall x: Id :: Issued(Removed(t, id), x) <==> Issued(t, x)
  {}

  // ------------------------------------------------------------------------------------------
  // Whole histories.

  /** One public table operation. `memory` says whether the allocator can serve a growth. */
  datatype Op<T> = Insert(value: T, memory: bool) | Remove(id: Id)

  function Apply<T>(t: Table<T>, op: Op<T>): (r: (Table<T>, Option<Id>))
    requires Valid(t)
    ensures Valid(r.0)
  {
    match op
    case Insert(value, memory) =>
      if Reserve(t, memory).Some? then (t, None)
      else InsertKeepsValid(t, value); (Inserted(t, value), Some(InsertedId(t)))
    case Remove(id) =>
      if Has(t, id) then RemoveKeepsValid(t, id); (Removed(t, id), None) else (t, None)
  }

  /** The table after a whole history, and the identifiers it issued on the way, in order. */
  function History<T>(t: Table<T>, ops: seq<Op<T>>): (r: (Table<T>, seq<Id>))
    requires Valid(t)
    ensures Valid(r.0)
    decreases |ops|
  {
    if ops == [] then (t, [])
    else
      var (t1, issued) := Apply(t, ops[0]);
      var (t2, later) := History(t1, ops[1..]);
      (t2, (if issued.Some? then [issued.value] else []) + later)
  }

  lemma ApplyIssues<T>(t: Table<T>, op: Op<T>)
    requires Valid(t)
    ensures var (t', issued) := Apply(t, op);
            && (issued.Some? ==> !Issued(t, issued.value))
            && forall x: Id :: Issued(t', x) <==> Issued(t, x) || issued == Some(x)
  {
    match op
    case Insert(value, memory) => if Reserve(t, memory).None? { InsertGets(t, value); }
    case Remove(id) => if Has(t, id) { RemoveGets(t, id); }
  }

  /** No identifier is ever issued twice: the identifiers issued along any history are pairwise
      distinct and none of them had been issued before it. */
  lemma {:induction false} NeverReissued<T>(t: Table<T>, ops: seq<Op<T>>)
    requires Valid(t)
    ensures forall i, j | 0 <= i < j < |History(t, ops).1| :: History(t, ops).1[i] != History(t, ops).1[j]
    ensures forall x: Id | x in History(t, ops).1 :: !Issued(t, x)
    ensures forall x: Id :: Issued(History(t, ops).0, x) <==> Issued(t, x) || x in History(t, ops).1
    decreases |ops|
  {
    if ops != [] {
      ApplyIssues(t, ops[0]);
      NeverReissued(Apply(t, ops[0]).0, ops[1..]);
    }
  }

  lemma ApplyGets<T>(t: Table<T>, op: Op<T>, id: Id)
    requires Valid(t) && Issued(t, id) && op != Remove(id)
    ensures Get(Apply(t, op).0, id) == Get(t, id)
  {
    match op
    case Insert(value, memory) => if Reserve(t, memory).None? { InsertGets(t, value); }
    case Remove(x) => if Has(t, x) { RemoveGets(t, x); }
  }

  lemma HasIssued<T>(t: Table<T>, id: Id)
    requires Valid(t) && Has(t, id)
    ensures Issued(t, id)
  {}

  /** A live identifier keeps resolving to its own value through any history that does not remove
      it; a removed one is reported stale after every further history. */
  lemma {:induction false} ResolvesUntilRemoved<T>(t: Table<T>, id: Id, ops: seq<Op<T>>)
    requires Valid(t) && Issued(t, id)
    ensures Has(t, id) && Remove(id) !in ops ==> Get(History(t, ops).0, id) == Get(t, id)
    ensures !Has(t, id) ==> Get(History(t, ops).0, id) == Err(StaleId)
    decreases |ops|
  {
    if ops != [] {
      var t1 := Apply(t, ops[0]).0;
      ApplyIssues(t, ops[0]);
      if ops[0] != Remove(id) {
        ApplyGets(t, ops[0], id);
      } else if Has(t, id) {
        RemoveGets(t, id);
      }
      ResolvesUntilRemoved(t1, id, ops[1..]);
    }
  }

  lemma {:induction false} HistorySplits<T>(t: Table<T>, before: seq<Op<T>>, after: seq<Op<T>>)
    requires Valid(t)
    ensures History(t, before + after).0 == History(History(t, before).0, after).0
    decreases |before|
  {
    if before == [] {
      assert before + after == after;
    } else {
      assert (before + after)[1..] == before[1..] + after;
      HistorySplits(Apply(t, before[0]).0, before[1..], after);
    }
  }

  /** The use-after-free guarantee over whole histories: once a live identifier is removed, it
      never resolves again and is never issued again, whatever follows. */
  lemma RemovedNeverRevives<T>(t: Table<T>, before: seq<Op<T>>, id: Id, after: seq<Op<T>>)
    requires Valid(t) && Has(History(t, before).0, id)
    ensures var history := before + [Remove(id)] + after;
            && Get(History(t, history).0, id) == Err(StaleId)
            && id !in History(Apply(History(t, before).0, Remove(id)).0, after).1
  {
    var t1 := History(t, before).0;
    var t2 := Removed(t1, id);
    HasIssued(t1, id);
    RemoveKeepsValid(t1, id);
    RemoveGets(t1, id);
    assert Apply(t1, Remove(id)).0 == t2;
    ResolvesUntilRemoved(t2, id, after);
    NeverReissued(t2, after);
    assert History(t1, [Remove(id)]).0 == t2;
    HistorySplits(t, before, [Remove(id)]);
    HistorySplits(t, before + [Remove(id)], after);
  }

  /** A slot given back below the last generation is used again: whatever came before, the next
      insertion succeeds even without memory, in the same slot and with the next generation. */
  lemma FreedIsReused<T>(t: Table<T>, before: seq<Op<T>>, id: Id, value: T, memory: bool)
    requires Valid(t) && Has(History(t, before).0, id) && id.generation < GENERATION_MASK
    ensures var t1 := Apply(History(t, before).0, Remove(id)).0;
            var (t2, issued) := Apply(t1, Insert(value, memory));
            && issued == Some(id.(generation := id.generation + 1))
            && Get(t2, issued.value) == Ok(value) && |t2.slots| == |History(t, before).0.slots|
  {
    hide Valid, History, Removed, Inserted, InsertedId, Get;
    var t0 := History(t, before).0;
    var t1 := Removed(t0, id);
    RemoveKeepsValid(t0, id);
    FreedIsNext(t0, id, value);
    InsertGets(t1, value);
  }

  lemma FreedIsNext<T>(t: Table<T>, id: Id, value: T)
    requires Valid(t) && Has(t, id) && id.generation < GENERATION_MASK && Valid(Removed(t, id))
    ensures var t1 := Removed(t, id);
            && t1.free != [] && InsertedId(t1) == id.(generation := id.generation + 1)
            && |Inserted(t1, value).slots| == |t.slots|
  {
    hide Valid;
  }

  /** Identifiers of another namespace or another kind never resolve. */
  lemma ForeignIdsNeverResolve<T, U>(t: Table<T>, other: Table<U>, id: Id)
    requires Has(t, id)
    ensures t.namespace != other.namespace && t.kind == other.kind ==> Get(other, id) == Err(StaleId)
    ensures t.kind != other.kind ==> Get(other, id) == Err(WrongKind)
  {}

  // ------------------------------------------------------------------------------------------

  /** The table as the source keeps it: fields updated in place. */
  class ObjectTable<T> {
    const kind: Kind
    const namespace: nat
    const maxSlots: nat
    var live: nat
    var slots: seq<Slot<T>>
    var free: seq<nat>

    function View(): Table<T>
      reads this
    {
      Table(kind, namespace, maxSlots, live, slots, free)
    }

    constructor (kind: Kind, maxSlots: nat, namespace: nat)
      requires namespace < U16 && maxSlots < U32
      ensures View() == NewTable(kind, namespace, maxSlots) && Valid(View())
    {
      this.kind, this.maxSlots, this.namespace := kind, maxSlots, namespace;
      live, slots, free := 0, [], [];
    }

    method TryInsert(value: T, memory: bool) returns (r: Result<Id, TableError>)
      requires Valid(View())
      modifies this
      ensures Valid(View())
      ensures r == Err(Full) <==> old(NoVacancy(View())) && old(|slots|) == maxSlots
      ensures r == Err(AllocationFailed) <==> old(NoVacancy(View())) && old(|slots|) < maxSlots && !memory
      ensures r.Err? ==> (r.error == Full || r.error == AllocationFailed) && View() == old(View())
      ensures r.Ok? ==> |slots| == old(|slots|) + if old(NoVacancy(View())) then 1 else 0
      ensures r.Ok? ==> !old(Issued(View(), r.value)) && Get(View(), r.value) == Ok(value)
      ensures r.Ok? ==> forall x: Id | x != r.value :: Get(View(), x) == old(Get(View(), x))
      ensures View() == Apply(old(View()), Insert(value, memory)).0
    {
      hide Valid, NoVacancy, Issued, Get, LiveCount;
      ReserveRoom(View(), memory);
      FreeMeansVacant(View());
      if |free| == 0 {
        if |slots| >= maxSlots { return Err(Full); }
        if !memory { return Err(AllocationFailed); }
      }
      InsertKeepsValid(View(), value);
      InsertGets(View(), value);
      if |free| > 0 {
        var index := free[|free| - 1];
        FreeIsThere(View());
        free := free[..|free| - 1];
        slots := slots[index := slots[index].(value := Some(value))];
        live := live + 1;
        return Ok(NewId(index, namespace, slots[index].generation, kind));
      }
      var index := |slots|;
      slots := slots + [Slot(0, Some(value), false)];
      live := live + 1;
      return Ok(NewId(index, namespace, 0, kind));
    }

    method TryRemove(id: Id) returns (r: Result<T, TableError>)
      requires Valid(View())
      modifies this
      ensures Valid(View())
      ensures r == old(Get(View(), id))
      ensures r.Ok? ==> Get(View(), id) == Err(StaleId)
      ensures r.Ok? ==> forall x: Id | x != id :: Get(View(), x) == old(Get(View(), x))
      ensures View() == Apply(old(View()), Remove(id)).0
    {
      hide Valid, LiveCount;
      var located := Locate(View(), id);
      if located.Err? { return Err(located.error); }
      RemoveKeepsValid(View(), id);
      RemoveGets(View(), id);
      var index := located.value;
      var value := slots[index].value.value;
      LiveUpdate(slots, index, slots[index].(value := None));
      slots := slots[index := slots[index].(value := None)];
      live := live - 1;
      if slots[index].generation == GENERATION_MASK {
        slots := slots[index := slots[index].(retired := true)];
      } else {
        slots := slots[index := slots[index].(generation := slots[index].generation + 1)];
        free := free + [index];
      }
      assert slots == Removed(old(View()), id).slots;
      return Ok(value);
    }

    method NextIdFrom(start: nat) returns (r: Option<(nat, Id)>)
      ensures r == NextId(View(), start)
    {
      var index := start;
      while index < |slots|
        invariant start <= index && NextId(View(), start) == NextId(View(), index)
      {
        if !slots[index].retired && slots[index].value.Some? {
          return Some((index + 1, NewId(index, namespace, slots[index].generation, kind)));
        }
        index := index + 1;
      }
      return None;
    }
  }
}
