/** Core ML program slots and the admission half of a submission. */
module Admission {
  import opened Bytes
  import opened Graphs
  import opened Wire
  import opened Merging

  datatype FeatureMapping = FeatureMapping(slot: nat, input: bool)

  /** One program slot; access is 1 (read), 2 (write) or 3 (both). */
  datatype SlotPlan = SlotPlan(slot: nat, access: nat)

  ghost predicate StrictPlan(plan: seq<SlotPlan>) { forall i, j | 0 <= i < j < |plan| :: plan[i].slot < plan[j].slot }

  function AccessOf(read: bool, write: bool): nat { (if read then 1 else 0) + if write then 2 else 0 }

  /** What a slot's access permits of a buffer: reading needs program input, writing program output, and
      mutable state serves for either or both. */
  lemma AccessIsPermission(read: bool, write: bool, usage: nat)
    requires read || write
    ensures AllowsAccess(usage, AccessOf(read, write)) <==>
            UsageBit(usage, 16) || (!write && UsageBit(usage, 4)) || (!read && UsageBit(usage, 8))
  {}

  ghost predicate Maps(mappings: seq<FeatureMapping>, slot: nat, input: bool) {
    exists i | 0 <= i < |mappings| :: mappings[i] == FeatureMapping(slot, input)
  }

  lemma ClaimsAreMappings(mappings: seq<FeatureMapping>, claims: seq<Claim>, slot: nat)
    requires |claims| == |mappings|
    requires forall i | 0 <= i < |mappings| ::
               claims[i] == Claim(mappings[i].slot, mappings[i].input, !mappings[i].input)
    ensures Reads(claims, slot) <==> Maps(mappings, slot, true)
    ensures Writes(claims, slot) <==> Maps(mappings, slot, false)
    ensures Names(claims, slot) <==> Maps(mappings, slot, true) || Maps(mappings, slot, false)
  {
    forall i | 0 <= i < |mappings|
      ensures claims[i].read <==> mappings[i] == FeatureMapping(claims[i].key, true)
      ensures claims[i].write <==> mappings[i] == FeatureMapping(claims[i].key, false)
    {
    }
  }

  /** The plan of a path artifact: strictly sorted, exactly the mapped slots, and each access the
      union of all mappings of that slot. */
  method BuildSlotPlan(mappings: seq<FeatureMapping>) returns (plan: seq<SlotPlan>)
    ensures StrictPlan(plan) && |plan| <= |mappings|
    ensures forall slot: nat :: (exists i | 0 <= i < |plan| :: plan[i].slot == slot)
                                <==> Maps(mappings, slot, true) || Maps(mappings, slot, false)
    ensures forall i | 0 <= i < |plan| ::
              plan[i].access == AccessOf(Maps(mappings, plan[i].slot, true), Maps(mappings, plan[i].slot, false))
  {
    var claims := seq(|mappings|,
                      i requires 0 <= i < |mappings| => Claim(mappings[i].slot, mappings[i].input, !mappings[i].input));
    var merged := SortAndMerge(claims);
    plan := seq(|merged|,
                i requires 0 <= i < |merged| => SlotPlan(merged[i].key, AccessOf(merged[i].read, merged[i].write)));
    forall slot: nat
      ensures (exists i | 0 <= i < |plan| :: plan[i].slot == slot) <==>
              Maps(mappings, slot, true) || Maps(mappings, slot, false)
    {
      ClaimsAreMappings(mappings, claims, slot);
      if Names(merged, slot) {
        var i :| 0 <= i < |merged| && merged[i].key == slot;
        assert plan[i].slot == slot;
      }
      if i :| 0 <= i < |plan| && plan[i].slot == slot {
        assert merged[i].key == slot;
      }
    }
    forall i | 0 <= i < |plan|
      ensures plan[i].access == AccessOf(Maps(mappings, plan[i].slot, true), Maps(mappings, plan[i].slot, false))
    {
      ClaimsAreMappings(mappings, claims, plan[i].slot);
      StrictFlags(merged, i);
    }
  }

  lemma StrictFlags(merged: seq<Claim>, i: nat)
    requires Strict(merged) && i < |merged|
    ensures Reads(merged, merged[i].key) <==> merged[i].read
    ensures Writes(merged, merged[i].key) <==> merged[i].write
  {}

  // ------------------------------------------------------------------------------------------
  // Admission.

  datatype CoreBuffer = CoreBuffer(context: nat, desc: BufferDesc, allocation: nat)

  datatype CoreBinding = CoreBinding(buffer: CoreBuffer, slot: nat, access: nat, offset: nat, bytes: nat)

  /** One entry handed to the native model: where the bytes of a slot are. */
  datatype Native = Empty | Bound(slot: nat, access: nat, allocation: nat, start: nat, bytes: nat)

  function NativeOf(b: CoreBinding): Native { Bound(b.slot, b.access, b.buffer.allocation, b.offset, b.bytes) }

  function ClaimOf(b: CoreBinding): Claim { Claim(b.buffer.allocation, true, b.access != 1) }

  function UnfitBuffer(context: nat, b: CoreBinding): Option<BackendError> {
    if b.buffer.context != context then Some(BackendError.InvalidArgument)
    else if !AllowsAccess(b.buffer.desc.usage, b.access) then Some(BackendError.PermissionDenied)
    else if b.bytes == 0 then Some(BackendError.InvalidArgument)
    else if b.offset + b.bytes >= U64 || b.offset + b.bytes > b.buffer.desc.bytes then Some(BackendError.OutOfBounds)
    else None
  }

  /** The buffer was declared for the bound access: program input (4), program output (8), or mutable
      state (16), which alone permits reading and writing. */
  ghost predicate Licensed(b: CoreBinding) {
    var usage := b.buffer.desc.usage;
    || UsageBit(usage, 16) || (b.access == 1 && UsageBit(usage, 4)) || (b.access == 2 && UsageBit(usage, 8))
  }

  /** The bound range lies in the buffer. */
  ghost predicate Inside(b: CoreBinding) {
    b.offset + b.bytes < U64 && b.offset + b.bytes <= b.buffer.desc.bytes
  }

  /** The buffer is of the queue's context and holds the bound range, which is not empty and licensed. */
  ghost predicate Sits(context: nat, b: CoreBinding) {
    b.buffer.context == context && Licensed(b) && 0 < b.bytes && Inside(b)
  }

  lemma UnfitMeaning(context: nat, b: CoreBinding)
    ensures UnfitBuffer(context, b).None? <==> Sits(context, b)
    ensures UnfitBuffer(context, b).Some? ==> UnfitBuffer(context, b).value == Misfit(context, b)
  {
    hide UsageBit;
  }

  /** The error of a binding that does not sit. */
  ghost function Misfit(context: nat, b: CoreBinding): BackendError {
    if b.buffer.context != context then BackendError.InvalidArgument
    else if !Licensed(b) then BackendError.PermissionDenied
    else if b.bytes == 0 then BackendError.InvalidArgument
    else BackendError.OutOfBounds
  }

  /** Where `slot` is in a sorted plan; a strict plan has at most one such place. */
  function Search(plan: seq<SlotPlan>, slot: nat): (r: Option<nat>)
    ensures r.Some? ==> r.value < |plan| && plan[r.value].slot == slot
    ensures r.None? ==> forall i | 0 <= i < |plan| :: plan[i].slot != slot
  {
    if plan == [] then None
    else if plan[|plan| - 1].slot == slot then Some(|plan| - 1)
    else Search(plan[..|plan| - 1], slot)
  }

  lemma SearchFinds(plan: seq<SlotPlan>, i: nat)
    requires StrictPlan(plan) && i < |plan|
    ensures Search(plan, plan[i].slot) == Some(i)
  {
    var j := Search(plan, plan[i].slot).value;
    assert plan[j].slot == plan[i].slot;
  }

  datatype Verdict = Refused(error: BackendError) | Panicked | Admitted(native: seq<Native>, claims: seq<Claim>)

  /** A binding its own checks, the plan and the plan's access mode accept. */
  ghost predicate Suits(context: nat, plan: seq<SlotPlan>, b: CoreBinding) {
    && Sits(context, b)
    && Search(plan, b.slot).Some? && plan[Search(plan, b.slot).value].access == b.access
  }

  ghost predicate SeparateSlots(bindings: seq<CoreBinding>, n: nat)
    requires n <= |bindings|
  {
    forall i, j | 0 <= i < j < n :: bindings[i].slot != bindings[j].slot
  }

  /** Bindings and slots match one to one with equal access. */
  ghost predicate Matching(context: nat, plan: seq<SlotPlan>, bindings: seq<CoreBinding>) {
    && |bindings| == |plan| && (forall i | 0 <= i < |bindings| :: Suits(context, plan, bindings[i]))
    && SeparateSlots(bindings, |bindings|)
  }

  /** Binding `n` is the first to be refused nothing until its slot index overruns the bitmap. */
  ghost predicate Overruns(context: nat, plan: seq<SlotPlan>, bindings: seq<CoreBinding>, n: nat) {
    && n < |bindings|
    && (forall i | 0 <= i < n :: Suits(context, plan, bindings[i]) && Search(plan, bindings[i].slot).value < 256)
    && SeparateSlots(bindings, n) && Sits(context, bindings[n])
    && Search(plan, bindings[n].slot).Some? && Search(plan, bindings[n].slot).value >= 256
  }

  /** Binding `n` is the first that does not suit or takes a slot again, and `error` says how. */
  ghost predicate RefusedAt(context: nat, plan: seq<SlotPlan>, bindings: seq<CoreBinding>, n: nat,
                            error: BackendError) {
    && n < |bindings| && SeparateSlots(bindings, n)
    && (forall i | 0 <= i < n :: Suits(context, plan, bindings[i]) && Search(plan, bindings[i].slot).value < 256)
    && var b := bindings[n];
       if !Sits(context, b) then error == Misfit(context, b)
       else if Search(plan, b.slot).None? then error == BackendError.Incompatible
       else
         && Search(plan, b.slot).value < 256
         && if exists i | 0 <= i < n :: bindings[i].slot == b.slot then error == BackendError.InvalidArgument
            else plan[Search(plan, b.slot).value].access != b.access && error == BackendError.Incompatible
  }

  /** What an admitted submission hands on: for every slot one binding, with its range inside its buffer,
      and for every binding a claim on its allocation, exclusive unless it only reads. */
  ghost predicate HandsOn(plan: seq<SlotPlan>, bindings: seq<CoreBinding>, native: seq<Native>, claims: seq<Claim>) {
    && |native| == |plan| && |claims| == |bindings|
    && (forall i | 0 <= i < |bindings| ::
          var b := bindings[i];
          && Search(plan, b.slot).Some?
          && native[Search(plan, b.slot).value] == Bound(b.slot, b.access, b.buffer.allocation, b.offset, b.bytes))
    && (forall i | 0 <= i < |plan| :: Backed(native[i], plan[i], bindings))
    && (forall i | 0 <= i < |bindings| ::
          && claims[i].key == bindings[i].buffer.allocation && claims[i].read
          && (claims[i].write <==> bindings[i].access != 1))
  }

  /** The entry of a slot is the range of a binding of that slot and access, inside its buffer. */
  ghost predicate Backed(entry: Native, slot: SlotPlan, bindings: seq<CoreBinding>) {
    exists j | 0 <= j < |bindings| ::
      && entry == Bound(slot.slot, slot.access, bindings[j].buffer.allocation, bindings[j].offset, bindings[j].bytes)
      && bindings[j].slot == slot.slot && bindings[j].access == slot.access
      && entry.start + entry.bytes <= bindings[j].buffer.desc.bytes
  }

  /** A four-word bitmap, each word the set of its one bits. */
  predicate Marked(seen: seq<set<nat>>, index: nat)
    requires |seen| == 4 && index < 256
  {
    index % 64 in seen[index / 64]
  }

  function Mark(seen: seq<set<nat>>, index: nat): (r: seq<set<nat>>)
    requires |seen| == 4 && index < 256
    ensures |r| == 4 && forall i: nat | i < 256 :: Marked(r, i) <==> Marked(seen, i) || i == index
  {
    seen[index / 64 := seen[index / 64] + {index % 64}]
  }

  /** The first `n` bindings suit the plan and took distinct slots: `at` sends a slot index to the
      binding that took it. */
  ghost predicate Taken(context: nat, plan: seq<SlotPlan>, bindings: seq<CoreBinding>, n: nat, at: map<nat, nat>) {
    && n <= |bindings| && |at| == n
    && (forall i | 0 <= i < n :: TookSlot(context, plan, bindings[i], i, at))
    && (forall i | i in at :: TakenSlot(plan, bindings, n, i, at[i]))
  }

  ghost predicate TookSlot(context: nat, plan: seq<SlotPlan>, b: CoreBinding, n: nat, at: map<nat, nat>) {
    && Suits(context, plan, b) && Search(plan, b.slot).value < 256
    && Search(plan, b.slot).value in at && at[Search(plan, b.slot).value] == n
  }

  ghost predicate TakenSlot(plan: seq<SlotPlan>, bindings: seq<CoreBinding>, n: nat, i: nat, b: nat) {
    i < |plan| && i < 256 && b < n <= |bindings| && Search(plan, bindings[b].slot) == Some(i)
  }

  /** The bitmap and the native entries record exactly that. */
  ghost predicate Recorded(bindings: seq<CoreBinding>, seen: seq<set<nat>>, native: seq<Native>, at: map<nat, nat>) {
    && |seen| == 4 && (forall i: nat | i < 256 :: Marked(seen, i) <==> i in at)
    && (forall i | i in at :: i < |native| && at[i] < |bindings| && native[i] == NativeOf(bindings[at[i]]))
  }

  ghost predicate Scanned(context: nat, plan: seq<SlotPlan>, bindings: seq<CoreBinding>, n: nat, seen: seq<set<nat>>,
                          native: seq<Native>, at: map<nat, nat>)
  {
    && n <= |bindings| && |native| == |plan| && SeparateSlots(bindings, n)
    && Taken(context, plan, bindings, n, at) && Recorded(bindings, seen, native, at)
  }

  lemma TakeNext(context: nat, plan: seq<SlotPlan>, bindings: seq<CoreBinding>, n: nat, at: map<nat, nat>, index: nat)
    requires n < |bindings| && Taken(context, plan, bindings, n, at) && SeparateSlots(bindings, n)
    requires Suits(context, plan, bindings[n]) && Search(plan, bindings[n].slot) == Some(index) && index < 256
             && index !in at
    ensures Taken(context, plan, bindings, n + 1, at[index := n]) && SeparateSlots(bindings, n + 1)
  {
    hide Suits, Search;
    assert |at[index := n]| == n + 1 by { assert at[index := n].Keys == at.Keys + {index}; }
    forall i | 0 <= i < n
      ensures bindings[i].slot != bindings[n].slot && TookSlot(context, plan, bindings[i], i, at[index := n])
    {
      assert TookSlot(context, plan, bindings[i], i, at);
    }
    assert TookSlot(context, plan, bindings[n], n, at[index := n]);
  }

  lemma ScanNext(context: nat, plan: seq<SlotPlan>, bindings: seq<CoreBinding>, n: nat, seen: seq<set<nat>>,
                 native: seq<Native>, at: map<nat, nat>, index: nat)
    requires Scanned(context, plan, bindings, n, seen, native, at) && n < |bindings|
    requires Suits(context, plan, bindings[n]) && Search(plan, bindings[n].slot) == Some(index) && index < 256
             && !Marked(seen, index)
    ensures Scanned(context, plan, bindings, n + 1, Mark(seen, index), native[index := NativeOf(bindings[n])],
                    at[index := n])
  {
    hide Suits, Search, Marked, Mark, NativeOf, Taken, SeparateSlots;
    TakeNext(context, plan, bindings, n, at, index);
  }

  function Upto(n: nat): (r: set<nat>)
    ensures forall i: nat :: i in r <==> i < n
    ensures |r| == n
  {
    if n == 0 then {} else Upto(n - 1) + {n - 1}
  }

  /** As many distinct slot indexes as slots leave none out. */
  lemma Pigeonhole(taken: set<nat>, n: nat)
    requires (forall i | i in taken :: i < n) && |taken| == n
    ensures taken == Upto(n)
  {
    var missing := Upto(n) - taken;
    assert taken + missing == Upto(n) && taken * missing == {};
    assert |taken| + |missing| == n;
  }

  lemma EverySlotTaken(context: nat, plan: seq<SlotPlan>, bindings: seq<CoreBinding>, seen: seq<set<nat>>,
                       native: seq<Native>, at: map<nat, nat>)
    requires Scanned(context, plan, bindings, |bindings|, seen, native, at) && |bindings| == |plan|
    ensures forall i | 0 <= i < |plan| :: i in at
  {
    hide Suits, Search, Marked, NativeOf;
    assert |at.Keys| == |at|;
    Pigeonhole(at.Keys, |plan|);
    assert forall i: nat :: i in at <==> i in Upto(|plan|);
  }

  /** The admission checks of a submission. With at most 256 slots it admits exactly the bindings
      that match the plan one to one, and then every native entry is the binding of its slot. */
  method Admit(queueContext: nat, programContext: nat, plan: seq<SlotPlan>, bindings: seq<CoreBinding>,
               maxBindings: nat, memory: bool)
    returns (v: Verdict)
    requires StrictPlan(plan)
    ensures var entered := 1 <= |bindings| <= maxBindings && queueContext == programContext && memory;
            && (v.Panicked? <==> entered && exists n: nat :: Overruns(queueContext, plan, bindings, n))
            && (|plan| <= 256 ==> (v.Admitted? <==> entered && Matching(queueContext, plan, bindings)))
    ensures v.Admitted? ==> Matching(queueContext, plan, bindings) && HandsOn(plan, bindings, v.native, v.claims)
    ensures v.Refused? ==>
              if !(1 <= |bindings| <= maxBindings) then v.error == BackendError.ResourceLimit
              else if queueContext != programContext then v.error == BackendError.InvalidArgument
              else if !memory then v.error == BackendError.OutOfMemory
              else
                || (exists n: nat :: RefusedAt(queueContext, plan, bindings, n, v.error))
                || (|bindings| != |plan| && v.error == BackendError.Incompatible
                    && forall i | 0 <= i < |bindings| :: Suits(queueContext, plan, bindings[i]))
  {
    if |bindings| == 0 || |bindings| > maxBindings { return Refused(BackendError.ResourceLimit); }
    if queueContext != programContext { return Refused(BackendError.InvalidArgument); }
    if !memory { return Refused(BackendError.OutOfMemory); }
    v := Scan(queueContext, plan, bindings);
  }

  method Scan(context: nat, plan: seq<SlotPlan>, bindings: seq<CoreBinding>) returns (v: Verdict)
    requires StrictPlan(plan)
    ensures v.Panicked? <==> exists n: nat :: Overruns(context, plan, bindings, n)
    ensures |plan| <= 256 ==> (v.Admitted? <==> Matching(context, plan, bindings))
    ensures v.Admitted? ==> Matching(context, plan, bindings) && HandsOn(plan, bindings, v.native, v.claims)
    ensures v.Refused? ==>
              || (exists n: nat :: RefusedAt(context, plan, bindings, n, v.error))
              || (|bindings| != |plan| && v.error == BackendError.Incompatible
                  && forall i | 0 <= i < |bindings| :: Suits(context, plan, bindings[i]))
  {
    hide UnfitBuffer, Search, Marked, Mark, ClaimOf, Scanned, Matching, Overruns, StrictPlan, NativeOf, Sits, Misfit,
         RefusedAt, HandsOn;
    var native := seq(|plan|, _ => Empty);
    var seen: seq<set<nat>> := [{}, {}, {}, {}];
    var claims: seq<Claim> := [];
    ghost var at: map<nat, nat> := map[];
    NothingSeen(context, plan, bindings, seen, native);
    for n := 0 to |bindings|
      invariant Scanned(context, plan, bindings, n, seen, native, at) && |seen| == 4 && |native| == |plan|
      invariant |claims| == n && forall i | 0 <= i < n :: claims[i] == ClaimOf(bindings[i])
    {
      var binding := bindings[n];
      var fault := UnfitBuffer(context, binding);
      UnfitMeaning(context, binding);
      if fault.Some? {
        Stopped(context, plan, bindings, n, seen, native, at, fault.value);
        return Refused(fault.value);
      }
      var index := Search(plan, binding.slot);
      if index.None? {
        Stopped(context, plan, bindings, n, seen, native, at, BackendError.Incompatible);
        return Refused(BackendError.Incompatible);
      }
      if index.value >= 256 {
        PastBitmap(context, plan, bindings, n, seen, native, at);
        return Panicked;
      }
      if Marked(seen, index.value) {
        Repeated(context, plan, bindings, n, seen, native, at, index.value);
        return Refused(BackendError.InvalidArgument);
      }
      if binding.access != plan[index.value].access {
        NotTaken(context, plan, bindings, n, seen, native, at, index.value);
        Stopped(context, plan, bindings, n, seen, native, at, BackendError.Incompatible);
        return Refused(BackendError.Incompatible);
      }
      ScanNext(context, plan, bindings, n, seen, native, at, index.value);
      seen := Mark(seen, index.value);
      native := native[index.value := NativeOf(binding)];
      at := at[index.value := n];
      claims := claims + [ClaimOf(binding)];
    }
    NoOverrun(context, plan, bindings, seen, native, at);
    if |bindings| != |plan| { return Refused(BackendError.Incompatible); }
    EverySlotTaken(context, plan, bindings, seen, native, at);
    Filled(context, plan, bindings, seen, native, at, claims);
    return Admitted(native, claims);
  }

  lemma NothingSeen(context: nat, plan: seq<SlotPlan>, bindings: seq<CoreBinding>, seen: seq<set<nat>>,
                    native: seq<Native>)
    requires seen == [{}, {}, {}, {}] && |native| == |plan|
    ensures Scanned(context, plan, bindings, 0, seen, native, map[])
  {
    forall i: nat | i < 256
      ensures !Marked(seen, i)
    {
      assert i / 64 in {0, 1, 2, 3};
    }
  }

  lemma PastBitmap(context: nat, plan: seq<SlotPlan>, bindings: seq<CoreBinding>, n: nat, seen: seq<set<nat>>,
                   native: seq<Native>, at: map<nat, nat>)
    requires Scanned(context, plan, bindings, n, seen, native, at) && n < |bindings|
    requires Sits(context, bindings[n])
    requires Search(plan, bindings[n].slot).Some? && Search(plan, bindings[n].slot).value >= 256
    ensures Overruns(context, plan, bindings, n)
    ensures |plan| > 256
  {
    hide UnfitBuffer, Search, Marked, NativeOf;
    forall i | 0 <= i < n
      ensures Suits(context, plan, bindings[i]) && Search(plan, bindings[i].slot).value < 256
    {
      assert TookSlot(context, plan, bindings[i], i, at);
    }
  }

  lemma TakenSuit(context: nat, plan: seq<SlotPlan>, bindings: seq<CoreBinding>, n: nat, seen: seq<set<nat>>,
                  native: seq<Native>, at: map<nat, nat>)
    requires Scanned(context, plan, bindings, n, seen, native, at)
    ensures SeparateSlots(bindings, n)
    ensures forall i | 0 <= i < n :: Suits(context, plan, bindings[i]) && Search(plan, bindings[i].slot).value < 256
  {
    hide Suits, Search, Marked, NativeOf;
    forall i | 0 <= i < n
      ensures Suits(context, plan, bindings[i]) && Search(plan, bindings[i].slot).value < 256
    {
      assert TookSlot(context, plan, bindings[i], i, at);
    }
  }

  /** A binding that does not suit is refused, and that rules out both other verdicts. */
  lemma Stopped(context: nat, plan: seq<SlotPlan>, bindings: seq<CoreBinding>, n: nat, seen: seq<set<nat>>,
                native: seq<Native>, at: map<nat, nat>, error: BackendError)
    requires Scanned(context, plan, bindings, n, seen, native, at) && n < |bindings|
    requires var b := bindings[n];
             if !Sits(context, b) then error == Misfit(context, b)
             else
               && error == BackendError.Incompatible
               && (Search(plan, b.slot).Some? ==>
                     && Search(plan, b.slot).value < 256 && plan[Search(plan, b.slot).value].access != b.access
                     && forall i | 0 <= i < n :: bindings[i].slot != b.slot)
    ensures !Matching(context, plan, bindings) && forall m: nat :: !Overruns(context, plan, bindings, m)
    ensures RefusedAt(context, plan, bindings, n, error)
  {
    hide Sits, Misfit, Search, Scanned;
    TakenSuit(context, plan, bindings, n, seen, native, at);
    assert !Suits(context, plan, bindings[n]);
  }

  lemma NotTaken(context: nat, plan: seq<SlotPlan>, bindings: seq<CoreBinding>, n: nat, seen: seq<set<nat>>,
                 native: seq<Native>, at: map<nat, nat>, index: nat)
    requires Scanned(context, plan, bindings, n, seen, native, at) && n < |bindings| && index < 256
    requires Search(plan, bindings[n].slot) == Some(index) && !Marked(seen, index)
    ensures forall i | 0 <= i < n :: bindings[i].slot != bindings[n].slot
  {
    hide Suits, Search, Marked, NativeOf;
    forall i | 0 <= i < n
      ensures bindings[i].slot != bindings[n].slot
    {
      assert TookSlot(context, plan, bindings[i], i, at);
    }
  }

  lemma Repeated(context: nat, plan: seq<SlotPlan>, bindings: seq<CoreBinding>, n: nat, seen: seq<set<nat>>,
                 native: seq<Native>, at: map<nat, nat>, index: nat)
    requires Scanned(context, plan, bindings, n, seen, native, at) && n < |bindings| && index < 256
    requires Sits(context, bindings[n]) && Search(plan, bindings[n].slot) == Some(index) && Marked(seen, index)
    ensures !Matching(context, plan, bindings) && forall m: nat :: !Overruns(context, plan, bindings, m)
    ensures RefusedAt(context, plan, bindings, n, BackendError.InvalidArgument)
  {
    hide Sits, Search, Marked, NativeOf;
    TakenSuit(context, plan, bindings, n, seen, native, at);
    assert Search(plan, bindings[at[index]].slot) == Some(index);
    SameSlot(plan, bindings[at[index]].slot, bindings[n].slot, index);
  }

  lemma SameSlot(plan: seq<SlotPlan>, a: nat, b: nat, index: nat)
    requires Search(plan, a) == Some(index) && Search(plan, b) == Some(index)
    ensures a == b
  {}

  lemma NoOverrun(context: nat, plan: seq<SlotPlan>, bindings: seq<CoreBinding>, seen: seq<set<nat>>,
                  native: seq<Native>, at: map<nat, nat>)
    requires Scanned(context, plan, bindings, |bindings|, seen, native, at)
    ensures forall m: nat :: !Overruns(context, plan, bindings, m)
    ensures forall i | 0 <= i < |bindings| :: Suits(context, plan, bindings[i])
    ensures Matching(context, plan, bindings) <==> |bindings| == |plan|
  {
    hide Sits, Search, Scanned;
    TakenSuit(context, plan, bindings, |bindings|, seen, native, at);
  }

  lemma Filled(context: nat, plan: seq<SlotPlan>, bindings: seq<CoreBinding>, seen: seq<set<nat>>, native: seq<Native>,
               at: map<nat, nat>, claims: seq<Claim>)
    requires Scanned(context, plan, bindings, |bindings|, seen, native, at) && forall i | 0 <= i < |plan| :: i in at
    requires |claims| == |bindings| && forall i | 0 <= i < |bindings| :: claims[i] == ClaimOf(bindings[i])
    ensures HandsOn(plan, bindings, native, claims)
  {
    hide Marked, Search, UsageBit, Backed;
    TakenSuit(context, plan, bindings, |bindings|, seen, native, at);
    forall i | 0 <= i < |bindings|
      ensures Search(plan, bindings[i].slot).Some?
      ensures native[Search(plan, bindings[i].slot).value] == NativeOf(bindings[i])
    {
      assert TookSlot(context, plan, bindings[i], i, at);
    }
    forall i | 0 <= i < |plan|
      ensures Backed(native[i], plan[i], bindings)
    {
      SlotBacked(context, plan, bindings, native[i], i, at[i]);
    }
  }

  lemma SlotBacked(context: nat, plan: seq<SlotPlan>, bindings: seq<CoreBinding>, entry: Native, i: nat, j: nat)
    requires i < |plan| && j < |bindings| && Suits(context, plan, bindings[j])
    requires Search(plan, bindings[j].slot) == Some(i) && entry == NativeOf(bindings[j])
    ensures Backed(entry, plan[i], bindings)
  {
    hide UsageBit;
  }

  /** A plan has a binding list that overruns the bitmap exactly when it has more than 256 slots. */
  lemma OverrunsIffTooManySlots(context: nat, plan: seq<SlotPlan>)
    requires StrictPlan(plan)
    ensures (exists bindings, n: nat :: Overruns(context, plan, bindings, n)) <==> |plan| > 256
    ensures (exists bindings, n: nat :: |bindings| == 1 && Overruns(context, plan, bindings, n)) <==> |plan| > 256
  {
    if |plan| > 256 {
      var slot := plan[256].slot;
      SearchFinds(plan, 256);
      var b := CoreBinding(CoreBuffer(context, BufferDesc(1, 1, 1, 16), 0), slot, 3, 0, 1);
      assert UsageBit(16, 16);
      assert Overruns(context, plan, [b], 0);
    }
  }
}
