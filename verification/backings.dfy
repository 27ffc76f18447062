/** Core ML backing guards: a reader/writer protocol on one atomic counter per allocation. */
module Backings {
  import opened Bytes
  import opened Merging

  const EXCLUSIVE: nat := 0x8000_0000_0000_0000
  const MAX_SHARED: nat := EXCLUSIVE - 1

  /** One allocation: its counter, and which events hold a shared or an exclusive guard on it. The
      protocol decides by the counter alone; the holders are what the counter must account for. */
  datatype Cell = Cell(count: nat, shared: multiset<nat>, exclusive: multiset<nat>)

  type Cells = map<nat, Cell>

  /** The counter is the number of shared holders, or the exclusive mark with one holder. */
  predicate Exact(c: Cell) {
    || (c.exclusive == multiset{} && c.count == |c.shared| <= MAX_SHARED)
    || (c.count == EXCLUSIVE && |c.exclusive| == 1 && c.shared == multiset{})
  }

  ghost predicate AllExact(s: Cells) { forall key | key in s :: Exact(s[key]) }

  /** The compare-and-swap of one acquisition. */
  function TryAcquire(c: Cell, owner: nat, write: bool): Option<Cell> {
    if write then
      if c.count == 0 then Some(Cell(EXCLUSIVE, c.shared, c.exclusive + multiset{owner})) else None
    else if c.count < MAX_SHARED then Some(Cell(c.count + 1, c.shared + multiset{owner}, c.exclusive))
    else None
  }

  predicate HeldBy(c: Cell, owner: nat, write: bool) { if write then owner in c.exclusive else owner in c.shared }

  /** The atomic update when an acquired guard is dropped; 64-bit subtraction wraps. */
  function Drop(c: Cell, owner: nat, write: bool): Cell {
    if write then
      Cell(if c.count == EXCLUSIVE then 0 else c.count, c.shared, c.exclusive - multiset{owner})
    else
      var count := if c.count == 0 then 0x1_0000_0000_0000_0000 - 1 else c.count - 1;
      Cell(count, c.shared - multiset{owner}, c.exclusive)
  }

  lemma OnlyHolder(m: multiset<nat>, owner: nat)
    requires |m| == 1 && owner in m
    ensures m == multiset{owner}
  {
    assert m == m - multiset{owner} + multiset{owner};
  }

  lemma AcquireKeepsExact(c: Cell, owner: nat, write: bool)
    requires Exact(c) && TryAcquire(c, owner, write).Some?
    ensures Exact(TryAcquire(c, owner, write).value)
    ensures Drop(TryAcquire(c, owner, write).value, owner, write) == c
  {
    assert c.shared + multiset{owner} - multiset{owner} == c.shared;
    assert c.exclusive + multiset{owner} - multiset{owner} == c.exclusive;
  }

  /** A writer may enter an idle allocation, a reader one without a writer that has room for another. */
  predicate Open(c: Cell, write: bool) {
    c.exclusive == multiset{} && if write then c.shared == multiset{} else |c.shared| < MAX_SHARED
  }

  /** An acquisition succeeds exactly when the holders leave it room, and adds exactly its owner. */
  lemma AcquiresWhenOpen(c: Cell, owner: nat, write: bool)
    requires Exact(c)
    ensures TryAcquire(c, owner, write).Some? <==> Open(c, write)
    ensures Open(c, write) ==>
              var after := TryAcquire(c, owner, write).value;
              && after.shared == c.shared + (if write then multiset{} else multiset{owner})
              && after.exclusive == c.exclusive + (if write then multiset{owner} else multiset{})
  {
    GuardsExclude(c, owner, owner);
  }

  /** Dropping a held guard never underflows the counter and never meets the wrong mark. */
  lemma DropKeepsExact(c: Cell, owner: nat, write: bool)
    requires Exact(c) && HeldBy(c, owner, write)
    ensures Exact(Drop(c, owner, write))
    ensures if write then c.count == EXCLUSIVE else 1 <= c.count <= MAX_SHARED
  {
    if write {
      OnlyHolder(c.exclusive, owner);
    } else {
      assert |c.shared - multiset{owner}| == |c.shared| - 1;
    }
  }

  /** Readers and writers exclude each other, two writers too, and the host may touch an idle
      allocation only. */
  lemma GuardsExclude(c: Cell, owner: nat, other: nat)
    requires Exact(c)
    ensures owner in c.exclusive ==> other !in c.shared && (other in c.exclusive ==> other == owner)
    ensures c.count == 0 <==> c.shared == multiset{} && c.exclusive == multiset{}
  {
    if owner in c.exclusive { OnlyHolder(c.exclusive, owner); }
    assert c.shared == multiset{} <==> |c.shared| == 0;
  }

  // ------------------------------------------------------------------------------------------
  // Runs: any interleaving of the atomic steps of any number of events.

  datatype Step = Acquire(owner: nat, key: nat, write: bool) | Release(owner: nat, key: nat, write: bool)

  /** A refused acquisition changes nothing, and a guard that was never acquired drops nothing. */
  function Do(s: Cells, step: Step): (r: Cells)
    ensures r.Keys == s.Keys
  {
    if step.key !in s then s
    else
      match step
      case Acquire(owner, key, write) =>
        var c := TryAcquire(s[key], owner, write);
        if c.None? then s else s[key := c.value]
      case Release(owner, key, write) =>
        if HeldBy(s[key], owner, write) then s[key := Drop(s[key], owner, write)] else s
  }

  function Run(s: Cells, steps: seq<Step>): Cells {
    if steps == [] then s else Do(Run(s, steps[..|steps| - 1]), steps[|steps| - 1])
  }

  lemma StepKeepsExact(s: Cells, step: Step)
    requires AllExact(s)
    ensures AllExact(Do(s, step))
  {
    hide Exact, TryAcquire, HeldBy, Drop;
    if step.key in s {
      var c := s[step.key];
      if step.Acquire? && TryAcquire(c, step.owner, step.write).Some? {
        AcquireKeepsExact(c, step.owner, step.write);
      }
      if step.Release? && HeldBy(c, step.owner, step.write) { DropKeepsExact(c, step.owner, step.write); }
    }
  }

  /** Every counter is exact in every state of every interleaving. */
  lemma {:induction false} RunsStayExact(s: Cells, steps: seq<Step>)
    requires AllExact(s)
    ensures AllExact(Run(s, steps))
  {
    if steps != [] {
      RunsStayExact(s, steps[..|steps| - 1]);
      StepKeepsExact(Run(s, steps[..|steps| - 1]), steps[|steps| - 1]);
    }
  }

  /** What one event holds. */
  ghost predicate SameHolds(s: Cells, t: Cells, owner: nat) {
    && t.Keys == s.Keys
    && forall key | key in s ::
         t[key].shared[owner] == s[key].shared[owner] && t[key].exclusive[owner] == s[key].exclusive[owner]
  }

  lemma OthersLeaveHolds(s: Cells, step: Step, me: nat)
    requires step.owner != me
    ensures SameHolds(s, Do(s, step), me)
  {
    hide TryAcquire, Drop, HeldBy;
    if step.key in s { OtherHolds(s[step.key], step.owner, step.write, me); }
  }

  lemma OtherHolds(c: Cell, owner: nat, write: bool, me: nat)
    requires owner != me
    ensures var d := Drop(c, owner, write); d.shared[me] == c.shared[me] && d.exclusive[me] == c.exclusive[me]
    ensures var d := TryAcquire(c, owner, write);
            d.Some? ==> d.value.shared[me] == c.shared[me] && d.value.exclusive[me] == c.exclusive[me]
  {}

  // ------------------------------------------------------------------------------------------
  // One submission.

  /** An event holds exactly one guard per named allocation, exclusive where it writes. */
  ghost predicate HoldsExactly(s: Cells, me: nat, claims: seq<Claim>) {
    forall key | key in s ::
      && s[key].exclusive[me] == (if Writes(claims, key) then 1 else 0)
      && s[key].shared[me] == (if Names(claims, key) && !Writes(claims, key) then 1 else 0)
  }

  lemma SameHoldsExactly(s: Cells, t: Cells, me: nat, claims: seq<Claim>)
    requires SameHolds(s, t, me) && HoldsExactly(s, me, claims)
    ensures HoldsExactly(t, me, claims)
  {
    hide Writes, Names;
  }

  lemma HoldsOneMore(s: Cells, me: nat, merged: seq<Claim>, i: nat, c: Cell)
    requires Strict(merged) && i < |merged| && merged[i].key in s && HoldsExactly(s, me, merged[..i])
    requires TryAcquire(s[merged[i].key], me, merged[i].write) == Some(c)
    ensures HoldsExactly(s[merged[i].key := c], me, merged[..i + 1])
  {
    hide Writes, Names;
    Extended(merged[..i], merged[i]);
    assert merged[..i + 1] == merged[..i] + [merged[i]];
    StrictPrefix(merged, i);
  }

  lemma StrictPrefix(merged: seq<Claim>, i: nat)
    requires Strict(merged) && i < |merged|
    ensures !Names(merged[..i], merged[i].key) && !Writes(merged[..i], merged[i].key)
    ensures !Names(merged[i + 1..], merged[i].key) && !Writes(merged[i + 1..], merged[i].key)
  {}

  lemma HoldsOneLess(s: Cells, me: nat, merged: seq<Claim>, i: nat)
    requires Strict(merged) && i < |merged| && merged[i].key in s && HoldsExactly(s, me, merged[i..])
    ensures HeldBy(s[merged[i].key], me, merged[i].write)
    ensures HoldsExactly(s[merged[i].key := Drop(s[merged[i].key], me, merged[i].write)], me, merged[i + 1..])
  {
    hide Writes, Names;
    assert merged[i..] == [merged[i]] + merged[i + 1..];
    ExtendedFront(merged[i], merged[i + 1..]);
    StrictPrefix(merged, i);
  }

  lemma ExtendedFront(c: Claim, s: seq<Claim>)
    ensures forall key: nat :: Names([c] + s, key) <==> Names(s, key) || c.key == key
    ensures forall key: nat :: Writes([c] + s, key) <==> Writes(s, key) || (c.key == key && c.write)
  {
    var t := [c] + s;
    assert t[0] == c && forall i | 0 <= i < |s| :: t[i + 1] == s[i];
  }

  /** With nothing else going on, `after` is `before` with these claims acquired. */
  ghost predicate Gained(before: Cells, after: Cells, me: nat, claims: seq<Claim>) {
    && after.Keys == before.Keys
    && forall key | key in before ::
         if Names(claims, key) then TryAcquire(before[key], me, Writes(claims, key)) == Some(after[key])
         else after[key] == before[key]
  }

  lemma GainOne(before: Cells, s: Cells, me: nat, merged: seq<Claim>, i: nat, c: Cell)
    requires Strict(merged) && i < |merged| && merged[i].key in s && Gained(before, s, me, merged[..i])
    requires TryAcquire(s[merged[i].key], me, merged[i].write) == Some(c)
    ensures Gained(before, s[merged[i].key := c], me, merged[..i + 1])
  {
    hide Writes, Names;
    Extended(merged[..i], merged[i]);
    assert merged[..i + 1] == merged[..i] + [merged[i]];
    StrictPrefix(merged, i);
  }

  lemma LoseOne(before: Cells, s: Cells, me: nat, merged: seq<Claim>, i: nat)
    requires AllExact(before) && Strict(merged) && i < |merged| && merged[i].key in s
             && Gained(before, s, me, merged[i..])
    ensures Gained(before, s[merged[i].key := Drop(s[merged[i].key], me, merged[i].write)], me, merged[i + 1..])
  {
    hide Writes, Names;
    assert merged[i..] == [merged[i]] + merged[i + 1..];
    ExtendedFront(merged[i], merged[i + 1..]);
    StrictPrefix(merged, i);
    AcquireKeepsExact(before[merged[i].key], me, merged[i].write);
  }

  /** Every claim could be acquired. */
  ghost predicate Available(s: Cells, me: nat, merged: seq<Claim>) {
    forall i | 0 <= i < |merged| :: merged[i].key in s && TryAcquire(s[merged[i].key], me, merged[i].write).Some?
  }

  /** Every claimed allocation is open to its claim. */
  ghost predicate AllOpen(s: Cells, merged: seq<Claim>) {
    forall i | 0 <= i < |merged| :: merged[i].key in s && Open(s[merged[i].key], merged[i].write)
  }

  lemma AvailableWhenOpen(s: Cells, me: nat, merged: seq<Claim>)
    requires AllExact(s)
    ensures Available(s, me, merged) <==> AllOpen(s, merged)
  {
    hide TryAcquire, Open, Exact;
    forall i | 0 <= i < |merged| && merged[i].key in s
      ensures TryAcquire(s[merged[i].key], me, merged[i].write).Some? <==> Open(s[merged[i].key], merged[i].write)
    {
      AcquiresWhenOpen(s[merged[i].key], me, merged[i].write);
    }
  }

  lemma ClosedWhenRefused(s: Cells, me: nat, claim: Claim)
    requires AllExact(s) && claim.key in s
    ensures TryAcquire(s[claim.key], me, claim.write).Some? <==> Open(s[claim.key], claim.write)
  {
    AcquiresWhenOpen(s[claim.key], me, claim.write);
  }

  lemma Refused(before: Cells, s: Cells, me: nat, merged: seq<Claim>, i: nat)
    requires Strict(merged) && i < |merged| && merged[i].key in s && Gained(before, s, me, merged[..i])
    requires TryAcquire(s[merged[i].key], me, merged[i].write).None?
    ensures !Available(before, me, merged)
  {
    hide Names, Writes;
    StrictPrefix(merged, i);
  }

  lemma AllWereAvailable(before: Cells, s: Cells, me: nat, merged: seq<Claim>)
    requires Strict(merged) && Gained(before, s, me, merged) && forall i | 0 <= i < |merged| :: merged[i].key in before
    ensures Available(before, me, merged)
  {
    hide TryAcquire;
    forall i | 0 <= i < |merged|
      ensures TryAcquire(before[merged[i].key], me, merged[i].write).Some?
    {
      assert Names(merged, merged[i].key);
      assert Writes(merged, merged[i].key) <==> merged[i].write;
    }
  }

  class Allocations {
    var cells: Cells

    constructor (cells: Cells)
      ensures this.cells == cells
    {
      this.cells := cells;
    }

    /** Atomic steps of other events, whose completions run on other threads. */
    method Interfere(me: nat, steps: seq<Step>)
      requires AllExact(cells) && forall i | 0 <= i < |steps| :: steps[i].owner != me
      modifies this
      ensures AllExact(cells) && SameHolds(old(cells), cells, me)
      ensures cells == Run(old(cells), steps)
    {
      hide Do, AllExact;
      for n := 0 to |steps|
        invariant AllExact(cells) && SameHolds(old(cells), cells, me) && cells == Run(old(cells), steps[..n])
      {
        OthersLeaveHolds(cells, steps[n], me);
        StepKeepsExact(cells, steps[n]);
        assert steps[..n + 1][..n] == steps[..n];
        cells := Do(cells, steps[n]);
      }
      assert steps[..|steps|] == steps;
    }

    method Acquire(me: nat, claim: Claim) returns (ok: bool)
      requires claim.key in cells && AllExact(cells)
      modifies this
      ensures AllExact(cells)
      ensures ok <==> Open(old(cells)[claim.key], claim.write)
      ensures cells
              == if ok then old(cells)[claim.key := TryAcquire(old(cells)[claim.key], me, claim.write).value]
                 else old(cells)
    {
      var c := TryAcquire(cells[claim.key], me, claim.write);
      AcquiresWhenOpen(cells[claim.key], me, claim.write);
      if c.None? { return false; }
      AcquireKeepsExact(cells[claim.key], me, claim.write);
      cells := cells[claim.key := c.value];
      return true;
    }

    /** Acquires the merged claims one by one, other events stepping in between. It ends holding
        either every distinct allocation once at its strongest access, or a prefix of them. */
    method Prepare(me: nat, requests: seq<Claim>, others: nat -> seq<Step>)
      returns (ok: bool, merged: seq<Claim>, acquired: nat)
      requires AllExact(cells) && HoldsExactly(cells, me, [])
      requires forall i | 0 <= i < |requests| :: requests[i].key in cells
      requires forall n, i | 0 <= i < |others(n)| :: others(n)[i].owner != me
      modifies this
      ensures AllExact(cells) && cells.Keys == old(cells).Keys
      ensures MergeOf(requests, merged) && acquired <= |merged| && (ok <==> acquired == |merged|)
      ensures forall i | 0 <= i < |merged| :: merged[i].key in cells
      ensures HoldsExactly(cells, me, merged[..acquired])
      ensures !ok ==> !Open(cells[merged[acquired].key], merged[acquired].write)
      ensures (forall n :: others(n) == []) ==> Gained(old(cells), cells, me, merged[..acquired])
      ensures (forall n :: others(n) == []) ==> (ok <==> AllOpen(old(cells), merged))
    {
      hide Available, AllOpen, Open, MergeOf, AllExact, HoldsExactly, Gained, SameHolds, TryAcquire, Run;
      ghost var initial := cells;
      merged := SortAndMerge(requests);
      StaysInside(requests, merged, cells);
      AvailableWhenOpen(cells, me, merged);
      assert merged[..0] == [];
      GainNothing(cells, me);
      acquired := 0;
      while acquired < |merged|
        invariant acquired <= |merged| && AllExact(cells) && cells.Keys == initial.Keys
        invariant HoldsExactly(cells, me, merged[..acquired])
        invariant (forall n :: others(n) == []) ==> Gained(initial, cells, me, merged[..acquired])
      {
        ghost var before := cells;
        Interfere(me, others(acquired));
        SameHoldsExactly(before, cells, me, merged[..acquired]);
        HoldsKeys(before, cells, me);
        if others(acquired) == [] { Quiet(before, others(acquired)); }
        ghost var middle := cells;
        var got := Acquire(me, merged[acquired]);
        ClosedWhenRefused(middle, me, merged[acquired]);
        if !got {
          if forall n :: others(n) == [] { Refused(initial, middle, me, merged, acquired); }
          return false, merged, acquired;
        }
        HoldsOneMore(middle, me, merged, acquired, cells[merged[acquired].key]);
        if forall n :: others(n) == [] { GainOne(initial, middle, me, merged, acquired, cells[merged[acquired].key]); }
        acquired := acquired + 1;
      }
      assert merged[..acquired] == merged;
      if forall n :: others(n) == [] { AllWereAvailable(initial, cells, me, merged); }
      return true, merged, acquired;
    }

    /** Dropping the guards of a submission, finished or refused. Nothing of it remains, and if no
        other event stepped in since `before`, every counter is back where it was. */
    method DropAll(me: nat, merged: seq<Claim>, acquired: nat, others: nat -> seq<Step>, ghost before: Cells)
      requires AllExact(cells) && Strict(merged) && acquired <= |merged| && HoldsExactly(cells, me, merged[..acquired])
      requires forall i | 0 <= i < |merged| :: merged[i].key in cells
      requires forall n, i | 0 <= i < |others(n)| :: others(n)[i].owner != me
      modifies this
      ensures AllExact(cells) && cells.Keys == old(cells).Keys && HoldsExactly(cells, me, [])
      ensures (forall n :: others(n) == []) ==>
                AllExact(before) && Gained(before, old(cells), me, merged[..acquired]) ==> cells == before
    {
      hide AllExact, HoldsExactly, Gained, SameHolds, Run, Strict, Drop;
      ghost var held := merged[..acquired];
      StrictHeld(merged, acquired);
      assert held[0..] == held;
      ghost var calm := (forall n :: others(n) == []) && AllExact(before) && Gained(before, cells, me, held);
      for i := 0 to acquired
        invariant AllExact(cells) && cells.Keys == old(cells).Keys && HoldsExactly(cells, me, held[i..])
        invariant calm ==> Gained(before, cells, me, held[i..])
      {
        ghost var earlier := cells;
        Interfere(me, others(i));
        SameHoldsExactly(earlier, cells, me, held[i..]);
        HoldsKeys(earlier, cells, me);
        if others(i) == [] { Quiet(earlier, others(i)); }
        var key, write := merged[i].key, merged[i].write;
        HoldsOneLess(cells, me, held, i);
        if calm { LoseOne(before, cells, me, held, i); }
        DropExact(cells, key, me, write);
        cells := cells[key := Drop(cells[key], me, write)];
      }
      assert held[acquired..] == [];
      if calm { LostEverything(before, cells, me); }
    }
  }

  lemma DropExact(s: Cells, key: nat, me: nat, write: bool)
    requires AllExact(s) && key in s && HeldBy(s[key], me, write)
    ensures AllExact(s[key := Drop(s[key], me, write)])
  {
    DropKeepsExact(s[key], me, write);
  }

  lemma StrictHeld(merged: seq<Claim>, n: nat)
    requires Strict(merged) && n <= |merged|
    ensures Strict(merged[..n])
  {}

  lemma HoldsKeys(s: Cells, t: Cells, me: nat)
    requires SameHolds(s, t, me)
    ensures s.Keys == t.Keys
  {}

  lemma Quiet(s: Cells, steps: seq<Step>)
    requires steps == []
    ensures Run(s, steps) == s
  {}

  lemma GainNothing(s: Cells, me: nat)
    ensures Gained(s, s, me, [])
  {}

  lemma LostEverything(before: Cells, after: Cells, me: nat)
    requires Gained(before, after, me, [])
    ensures before == after
  {}

  lemma StaysInside(requests: seq<Claim>, merged: seq<Claim>, s: Cells)
    requires MergeOf(requests, merged) && forall i | 0 <= i < |requests| :: requests[i].key in s
    ensures Strict(merged) && forall i | 0 <= i < |merged| :: merged[i].key in s
  {
    forall i | 0 <= i < |merged|
      ensures merged[i].key in s
    {
      assert Names(merged, merged[i].key);
      assert Names(requests, merged[i].key);
    }
  }
}
