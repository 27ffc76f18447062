/** The two decoders agree on every byte string. */
module Agreement {
  import opened Bytes
  import opened Sorting
  import opened Graphs
  import opened Wire
  import opened Regions
  import opened Decoders
  import C = CleanRoom
  import Ledgers
  import Commands

  /** What the configured limits and the advertised memory domains leave of the protocol. */
  predicate BodyWithin(l: DecoderLimits, body: Body) {
    match body
    case AllocateBuffer(_, desc) => desc.bytes <= l.maxBuffer && desc.domain in l.domains
    case LoadProgram(_, _, _, _, artifact) => |artifact| <= l.maxArtifact
    case Submit(_, _, _, bindings) => |bindings| <= l.maxBindings
    case _ => true
  }

  /** Equal up to the order of bindings, which the production decoder sorts by slot. */
  ghost predicate SameBody(wire: Body, decoded: Body) {
    if wire.Submit? && decoded.Submit? then
      && wire.queue == decoded.queue && wire.program == decoded.program && wire.timeout == decoded.timeout
      && multiset(wire.bindings) == multiset(decoded.bindings)
      && (forall i, j | 0 <= i < j < |decoded.bindings| :: decoded.bindings[i].slot < decoded.bindings[j].slot)
    else wire == decoded
  }

  /** The clean-room outcome for one payload: the body and the check that its length fits. */
  function CleanBody(opcode: nat, p: seq<Byte>): Result<Body, C.Error>
    requires KnownOpcode(opcode)
  {
    var body :- C.DecodeBody(opcode, p);
    var len :- C.PayloadLen(body);
    if len != |p| then Err(C.Invalid) else Ok(body)
  }

  /** Both sides accept the payload or neither does, and what they accept is the same. */
  ghost predicate BodiesAgree(l: DecoderLimits, clean: Result<Body, C.Error>, decoded: Result<Body, nat>) {
    && (decoded.Ok? <==> clean.Ok? && BodyWithin(l, clean.value))
    && (decoded.Ok? ==> SameBody(clean.value, decoded.value))
  }

  lemma FixedFields(s: seq<Byte>, n: nat)
    requires 16 + n <= |s|
    ensures forall off: nat, w: nat | off + w <= n :: Field(s[16..16 + n], off, w) == Field(s[16..], off, w)
    ensures s[16 + n..] == s[16..][n..]
  {
    forall off: nat, w: nat | off + w <= n
      ensures Field(s[16..16 + n], off, w) == Field(s[16..], off, w)
    {
      assert s[16..] == s[16..|s|];
      SubField(s, 16, 16 + n, off, w);
      SubField(s, 16, |s|, off, w);
    }
  }

  lemma AllocateAgrees(l: DecoderLimits, s: seq<Byte>)
    requires |s| == 56
    ensures BodiesAgree(l, CleanBody(0x0200, s[16..]), AllocateBody(l, s[16..56]))
  {
    hide Field, IsPowerOfTwo;
    FixedFields(s, 40);
    assert s[16..] == s[16..56];
  }

  lemma {:induction false} TargetsAgree(p: seq<Byte>, q: seq<Byte>)
    requires 64 <= |p| && 64 <= |q|
    requires forall off: nat, w: nat | off + w <= 64 :: Field(p, off, w) == Field(q, off, w)
    ensures TargetWords(p, 12) == C.ReadWords(q, 16, 12)
  {
    hide Field;
    forall i | 0 <= i < 12
      ensures TargetWords(p, 12)[i] == C.ReadWords(q, 16, 12)[i]
    {
      C.WordAt(q, 16, 12, i);
      assert 16 + 4 * i + 4 <= 64;
    }
  }

  lemma LoadAgrees(l: DecoderLimits, s: seq<Byte>)
    requires 96 <= |s| < U64
    ensures BodiesAgree(l, CleanBody(0x0300, s[16..]), LoadBody(l, |s| - 16, s[16..96], s[96..]))
  {
    hide Field, TargetWords, C.ReadWords;
    FixedFields(s, 80);
    TargetsAgree(s[16..96], s[16..]);
  }

  /** The requests that name one object and nothing else. */
  predicate NamesObject(opcode: nat) {
    opcode in {0x0101, 0x0201, 0x0301, 0x0401, 0x0501, 0x0502, 0x0503}
  }

  ghost predicate FixedPayloadsAgree(l: DecoderLimits, s: seq<Byte>, opcode: nat)
    requires KnownOpcode(opcode) && opcode != 0x0500 && 16 <= |s| && LengthOk(opcode, |s| - 16)
  {
    var n := FixedBytes(opcode);
    BodiesAgree(l, CleanBody(opcode, s[16..]), FixedBody(l, opcode, |s| - 16, s[16..16 + n], s[16 + n..]))
  }

  lemma ObjectAgrees(l: DecoderLimits, s: seq<Byte>, opcode: nat)
    requires KnownOpcode(opcode) && NamesObject(opcode) && 16 <= |s| && LengthOk(opcode, |s| - 16)
    ensures FixedPayloadsAgree(l, s, opcode)
  {
    hide Field;
    FixedFields(s, 8);
  }

  lemma TransferAgrees(l: DecoderLimits, s: seq<Byte>, opcode: nat)
    requires opcode in {0x0202, 0x0203} && 16 <= |s| < U32 && LengthOk(opcode, |s| - 16)
    ensures FixedPayloadsAgree(l, s, opcode)
  {
    hide Field;
    FixedFields(s, 24);
  }

  lemma CreateAgrees(l: DecoderLimits, s: seq<Byte>, opcode: nat)
    requires opcode in {0x0001, 0x0100, 0x0400} && 16 <= |s| && LengthOk(opcode, |s| - 16)
    ensures FixedPayloadsAgree(l, s, opcode)
  {
    hide Field;
    FixedFields(s, FixedBytes(opcode));
  }

  lemma FixedAgrees(l: DecoderLimits, s: seq<Byte>, opcode: nat)
    requires KnownOpcode(opcode) && opcode != 0x0500 && 16 <= |s| < U32 && LengthOk(opcode, |s| - 16)
    ensures FixedPayloadsAgree(l, s, opcode)
  {
    hide CleanBody, LoadBody, AllocateBody, BodiesAgree;
    if NamesObject(opcode) {
      ObjectAgrees(l, s, opcode);
    } else if opcode == 0x0200 {
      AllocateAgrees(l, s);
    } else if opcode == 0x0300 {
      LoadAgrees(l, s);
    } else if opcode in {0x0202, 0x0203} {
      TransferAgrees(l, s, opcode);
    } else {
      CreateAgrees(l, s, opcode);
    }
  }

  // ------------------------------------------------------------------------------------------
  // SUBMIT.

  lemma BindingAgrees(p: seq<Byte>, tail: seq<Byte>, i: nat)
    requires 32 <= |p| && tail == p[32..] && 32 * i + 32 <= |tail|
    ensures WireBinding(Piece(tail, i)).Ok?
            <==> p[32 + 32 * i + 29..32 + 32 * i + 32] == Zeros(3) && C.ValidBinding(C.BindingAt(p, 32 + 32 * i))
    ensures WireBinding(Piece(tail, i)).Ok? ==> WireBinding(Piece(tail, i)).value == C.BindingAt(p, 32 + 32 * i)
  {
    hide Field;
    var at := 32 + 32 * i;
    assert Piece(tail, i) == p[at..at + 32];
    SubField(p, at, at + 32, 0, 8);
    SubField(p, at, at + 32, 8, 8);
    SubField(p, at, at + 32, 16, 8);
    SubField(p, at, at + 32, 24, 4);
    SubField(p, at, at + 32, 28, 1);
    assert p[at..at + 32][29..32] == p[at + 29..at + 32];
  }

  predicate Reserved(p: seq<Byte>, i: nat)
    requires 64 + 32 * i <= |p|
  {
    p[32 + 32 * i + 29..32 + 32 * i + 32] == Zeros(3)
  }

  lemma {:induction false} ReservedFrom(p: seq<Byte>, k: nat, n: nat)
    requires k <= n && 32 + 32 * n <= |p| && forall i | k <= i < n :: Reserved(p, i)
    ensures C.ReservedZero(p, 32 + 32 * k, n - k)
    decreases n - k
  {
    if k < n {
      assert Reserved(p, k);
      ReservedFrom(p, k + 1, n);
    }
  }

  lemma ReservedEach(p: seq<Byte>, n: nat)
    requires 32 + 32 * n <= |p|
    ensures C.ReservedZero(p, 32, n) <==> forall i | 0 <= i < n :: Reserved(p, i)
  {
    if C.ReservedZero(p, 32, n) {
      forall i | 0 <= i < n
        ensures Reserved(p, i)
      {
        C.BindingIndex(p, 32, n, i);
      }
    } else if forall i | 0 <= i < n :: Reserved(p, i) {
      ReservedFrom(p, 0, n);
    }
  }

  /** The bindings of a SUBMIT payload are acceptable to both decoders or to neither. */
  lemma BindingsAgree(p: seq<Byte>, tail: seq<Byte>, n: nat)
    requires 32 + 32 * n == |p| && tail == p[32..]
    ensures var bs := C.ReadBindings(p, 32, n);
            AllBind(tail, n) <==> C.ReservedZero(p, 32, n) && forall i | 0 <= i < n :: C.ValidBinding(bs[i])
    ensures AllBind(tail, n) ==> InWireOrder(tail, n) == C.ReadBindings(p, 32, n)
  {
    hide WireBinding, C.BindingAt, C.ValidBinding, C.ReservedZero;
    var bs := C.ReadBindings(p, 32, n);
    ReservedEach(p, n);
    forall i | 0 <= i < n
      ensures WireBinding(Piece(tail, i)).Ok? <==> Reserved(p, i) && C.ValidBinding(bs[i])
      ensures WireBinding(Piece(tail, i)).Ok? ==> WireBinding(Piece(tail, i)).value == bs[i]
    {
      BindingAgrees(p, tail, i);
      C.BindingIndex(p, 32, n, i);
    }
    if AllBind(tail, n) {
      assert forall i | 0 <= i < n :: WireBinding(Piece(tail, i)).Ok?;
      assert forall i | 0 <= i < n :: Reserved(p, i) && C.ValidBinding(bs[i]);
    } else {
      var i :| 0 <= i < n && !WireBinding(Piece(tail, i)).Ok?;
      assert !(Reserved(p, i) && C.ValidBinding(bs[i]));
    }
  }

  lemma WellFormedValues(bs: seq<Binding>)
    ensures C.WellFormed(C.Values(bs), |bs|) <==>
            (forall i | 0 <= i < |bs| :: C.ValidBinding(bs[i])) && DistinctKeys(bs, SlotOf)
  {
    hide C.ValidBinding;
    var v := C.Values(bs);
    assert forall i | 0 <= i < |bs| :: C.Get(v, i) == Ok(bs[i]);
    if C.WellFormed(v, |bs|) {
      forall i, j | 0 <= i < j < |bs|
        ensures SlotOf(bs[i]) != SlotOf(bs[j])
      {
        assert C.Get(v, i).value.slot != C.Get(v, j).value.slot;
      }
    }
  }

  lemma SubmitAgrees(l: DecoderLimits, s: seq<Byte>)
    requires Usable(l) && 48 <= |s| < U32
    ensures BodiesAgree(l, CleanBody(0x0500, s[16..]), SubmitBody(l, |s| - 16, s[16..48], s[48..], true))
  {
    hide Field, C.ReadBindings, C.ReservedZero, InWireOrder, AllBind, C.WellFormed, SortByKey, C.ValidBinding;
    FixedFields(s, 32);
    var p, n := s[16..], Field(s[16..48], 16, 4);
    if |p| == 32 + 32 * n {
      BindingsAgree(p, p[32..], n);
      WellFormedValues(C.ReadBindings(p, 32, n));
      if AllBind(p[32..], n) && DistinctKeys(InWireOrder(p[32..], n), SlotOf) {
        StrictlySorted(InWireOrder(p[32..], n));
      }
    }
  }

  lemma StrictlySorted(bs: seq<Binding>)
    requires DistinctKeys(bs, SlotOf)
    ensures var sorted := SortByKey(bs, SlotOf);
            multiset(sorted) == multiset(bs) && forall i, j | 0 <= i < j < |sorted| :: sorted[i].slot < sorted[j].slot
  {
    var sorted := SortByKey(bs, SlotOf);
    DistinctPermutation(bs, sorted, SlotOf);
    forall i, j | 0 <= i < j < |sorted|
      ensures sorted[i].slot < sorted[j].slot
    {
      assert SlotOf(sorted[i]) <= SlotOf(sorted[j]) && SlotOf(sorted[i]) != SlotOf(sorted[j]);
    }
  }

  // ------------------------------------------------------------------------------------------
  // Whole frames.

  lemma BodyAgrees(l: DecoderLimits, s: seq<Byte>, opcode: nat)
    requires Usable(l) && KnownOpcode(opcode) && 16 <= |s| < U32
    ensures BodiesAgree(l, CleanBody(opcode, s[16..]), BodyOf(l, s, opcode, true))
  {
    hide CleanBody, FixedBody, SubmitBody, BodiesAgree;
    if !LengthOk(opcode, |s| - 16) {
      TooShort(l, s, opcode);
    } else if opcode == 0x0500 {
      SubmitAgrees(l, s);
    } else {
      FixedAgrees(l, s, opcode);
    }
  }

  lemma TooShort(l: DecoderLimits, s: seq<Byte>, opcode: nat)
    requires KnownOpcode(opcode) && 16 <= |s| && !LengthOk(opcode, |s| - 16)
    ensures BodiesAgree(l, CleanBody(opcode, s[16..]), Err(INVALID_ARGUMENT))
  {
    hide Field, C.ReadWords, C.ReadBindings, C.ReservedZero;
  }

  lemma SameNeeds(wire: Body, decoded: Body)
    requires SameBody(wire, decoded)
    ensures RequiredResponse(wire) == RequiredResponse(decoded)
  {}

  /** The production decoder accepts a frame exactly when the clean-room decoder accepts it and the
      configured limits, the memory domains and the response capacity allow it. What they accept
      agrees in every field, bindings being the slot-sorted permutation of the wire order. */
  lemma DecodersAgree(l: DecoderLimits, s: seq<Byte>, capacity: nat)
    requires Usable(l)
    ensures var decoded, clean := DecodeFrame(l, s, capacity, true), C.DecodeRequest(s);
            && (decoded.Ok? <==> && clean.Ok? && |s| <= l.maxRequest && BodyWithin(l, clean.value.body)
                                 && RequiredResponse(clean.value.body) <= l.maxResponse
                                 && RequiredResponse(clean.value.body) <= capacity)
            && (decoded.Ok? ==> decoded.value.id == clean.value.id && SameBody(clean.value.body, decoded.value.body))
  {
    hide Field, KnownOpcode, C.DecodeBody, C.PayloadLen, BodyOf, BodyWithin, SameBody, RequiredResponse;
    if 16 <= |s| <= HARD_MAX_REQUEST_BYTES && KnownOpcode(Field(s, 0, 2)) {
      BodyAgrees(l, s, Field(s, 0, 2));
      assert |s[16..]| == |s| - 16;
      var decoded, clean := BodyOf(l, s, Field(s, 0, 2), true), CleanBody(Field(s, 0, 2), s[16..]);
      if decoded.Ok? {
        SameNeeds(clean.value, decoded.value);
        NeedsHeader(decoded.value);
      }
    }
  }

  lemma NeedsHeader(body: Body)
    ensures RequiredResponse(body) >= RESPONSE_HEADER_BYTES
  {}

  /** Without the bounded allocation, acceptance only shrinks, and to nothing but SUBMIT. */
  lemma OnlySubmitAllocates(l: DecoderLimits, s: seq<Byte>, capacity: nat)
    ensures var starved, fed := DecodeFrame(l, s, capacity, false), DecodeFrame(l, s, capacity, true);
            starved != fed ==> starved.Err? && starved.error.Protocol? && starved.error.status == OUT_OF_MEMORY
                               && (fed.Ok? ==> fed.value.body.Submit?)
  {
    hide Field, FixedBody, SortByKey, InWireOrder, AllBind, DistinctKeys, KnownOpcode;
  }

  /** Whatever the decoder accepts meets everything the engine asks of a dispatched request. */
  lemma DecodedDispatches(l: DecoderLimits, s: seq<Byte>, capacity: nat, memory: bool, limits: Limits,
                          sink: Ledgers.Payload -> bool)
    requires Usable(l) && limits.maxBindings == l.maxBindings && DecodeFrame(l, s, capacity, memory).Ok?
    ensures var request := DecodeFrame(l, s, capacity, memory).value;
            && Commands.Dispatchable(request.body, limits)
            && Ledgers.PortFits(Ledgers.Port(capacity, l.maxResponse, sink), request.body)
  {
    hide DecodeFrame, C.DecodeRequest, SameBody, C.TypedBody, C.PayloadLen, Commands.Dispatchable, RequiredResponse;
    if !memory { OnlySubmitAllocates(l, s, capacity); }
    DecodersAgree(l, s, capacity);
    C.DecodedReencodes(s);
    var clean, decoded := C.DecodeRequest(s).value.body, DecodeFrame(l, s, capacity, memory).value.body;
    SameNeeds(clean, decoded);
    ValidDispatches(l, clean, decoded, limits);
  }

  lemma ValidDispatches(l: DecoderLimits, wire: Body, decoded: Body, limits: Limits)
    requires SameBody(wire, decoded) && C.TypedBody(wire) && C.PayloadLen(wire).Ok? && BodyWithin(l, wire)
    requires limits.maxBindings == l.maxBindings
    ensures Commands.Dispatchable(decoded, limits)
  {
    if wire.Submit? && decoded.Submit? {
      assert |multiset(wire.bindings)| == |wire.bindings| && |multiset(decoded.bindings)| == |decoded.bindings|;
    }
  }

  // ------------------------------------------------------------------------------------------
  // Refusals.

  /** A declared number of bindings beyond the limit, or a declared length beyond 64 bits. */
  predicate Oversized(l: DecoderLimits, opcode: nat, p: seq<Byte>) {
    || (opcode == 0x0500 && 32 <= |p| && Field(p, 16, 4) > l.maxBindings)
    || (opcode == 0x0202 && 24 <= |p| && 24 + Field(p, 16, 8) >= U64)
    || (opcode == 0x0300 && 80 <= |p| && 80 + Field(p, 64, 8) >= U64)
  }

  /** Bits of no meaning that the clean-room decoder looks at later than other faults. */
  predicate UnknownBits(opcode: nat, p: seq<Byte>) {
    || (opcode == 0x0500 && 32 <= |p| && Field(p, 20, 4) != 0)
    || (opcode == 0x0200 && |p| == 40 && Field(p, 32, 4) >= 32)
  }

  /** The statuses of the production decoder against the errors of the clean-room decoder. */
  ghost predicate RefusalsAgree(l: DecoderLimits, opcode: nat, p: seq<Byte>, clean: Result<Body, C.Error>,
                                status: nat)
  {
    && status in {INVALID_ARGUMENT, UNSUPPORTED, RESOURCE_LIMIT}
    && (status == INVALID_ARGUMENT ==> clean == Err(C.Invalid))
    && (status == UNSUPPORTED ==> clean.Ok? || clean == Err(C.NotSupported) || UnknownBits(opcode, p))
    && (status == RESOURCE_LIMIT ==> clean.Ok? || Oversized(l, opcode, p))
    && (clean == Err(C.NotSupported) ==> status == UNSUPPORTED)
    && (clean.Ok? ==>
          status == if clean.value.AllocateBuffer? && clean.value.desc.bytes <= l.maxBuffer then UNSUPPORTED
                    else RESOURCE_LIMIT)
  }

  ghost predicate BodyRefusals(l: DecoderLimits, s: seq<Byte>, opcode: nat)
    requires KnownOpcode(opcode) && 16 <= |s|
  {
    var clean, decoded := CleanBody(opcode, s[16..]), BodyOf(l, s, opcode, true);
    decoded.Err? ==> RefusalsAgree(l, opcode, s[16..], clean, decoded.error)
  }

  lemma ShortRefusals(l: DecoderLimits, s: seq<Byte>, opcode: nat)
    requires KnownOpcode(opcode) && 16 <= |s| && !LengthOk(opcode, |s| - 16)
    ensures BodyRefusals(l, s, opcode)
  {
    hide Field, C.ReadWords, C.ReadBindings, C.ReservedZero;
  }

  lemma SmallRefusals(l: DecoderLimits, s: seq<Byte>, opcode: nat)
    requires KnownOpcode(opcode) && 16 <= |s| && LengthOk(opcode, |s| - 16)
    requires NamesObject(opcode) || opcode in {0x0001, 0x0100, 0x0400}
    ensures BodyRefusals(l, s, opcode)
  {
    hide Field;
    FixedFields(s, FixedBytes(opcode));
  }

  lemma TransferRefusals(l: DecoderLimits, s: seq<Byte>, opcode: nat)
    requires opcode in {0x0202, 0x0203} && 16 <= |s| < U32 && LengthOk(opcode, |s| - 16)
    ensures BodyRefusals(l, s, opcode)
  {
    hide Field;
    FixedFields(s, 24);
  }

  lemma AllocateRefusals(l: DecoderLimits, s: seq<Byte>)
    requires |s| == 56
    ensures BodyRefusals(l, s, 0x0200)
  {
    hide Field, IsPowerOfTwo;
    FixedFields(s, 40);
    assert s[16..] == s[16..56];
  }

  lemma LoadRefusals(l: DecoderLimits, s: seq<Byte>)
    requires 96 <= |s| < U64
    ensures BodyRefusals(l, s, 0x0300)
  {
    hide Field, TargetWords, C.ReadWords;
    FixedFields(s, 80);
    TargetsAgree(s[16..96], s[16..]);
  }

  lemma SubmitRefusals(l: DecoderLimits, s: seq<Byte>)
    requires Usable(l) && 48 <= |s| < U32
    ensures BodyRefusals(l, s, 0x0500)
  {
    hide Field, C.ReadBindings, C.ReservedZero, InWireOrder, AllBind, C.WellFormed, SortByKey, C.ValidBinding;
    FixedFields(s, 32);
    var p, n := s[16..], Field(s[16..48], 16, 4);
    if |p| == 32 + 32 * n {
      BindingsAgree(p, p[32..], n);
      WellFormedValues(C.ReadBindings(p, 32, n));
    }
  }

  lemma BodyRefused(l: DecoderLimits, s: seq<Byte>, opcode: nat)
    requires Usable(l) && KnownOpcode(opcode) && 16 <= |s| < U32
    ensures BodyRefusals(l, s, opcode)
  {
    hide BodyRefusals;
    if !LengthOk(opcode, |s| - 16) {
      ShortRefusals(l, s, opcode);
    } else if opcode == 0x0500 {
      SubmitRefusals(l, s);
    } else if opcode == 0x0200 {
      AllocateRefusals(l, s);
    } else if opcode == 0x0300 {
      LoadRefusals(l, s);
    } else if opcode in {0x0202, 0x0203} {
      TransferRefusals(l, s, opcode);
    } else {
      SmallRefusals(l, s, opcode);
    }
  }

  /** The header names a request of protocol 1.0 of the size it came in. */
  predicate GoodHeader(s: seq<Byte>)
    requires 16 <= |s|
  {
    KnownOpcode(Field(s, 0, 2)) && Field(s, 2, 2) == 0 && |s| == 16 + Field(s, 4, 4) && Field(s, 8, 8) != 0
  }

  /** What the clean-room decoder says of a frame whose header or size is wrong. */
  lemma CleanRefusals(s: seq<Byte>)
    ensures C.DecodeRequest(s) == Err(C.Size) <==> |s| < 16
    ensures 16 <= |s| && (!KnownOpcode(Field(s, 0, 2)) || Field(s, 2, 2) != 0) ==>
              C.DecodeRequest(s) == Err(C.NotSupported)
    ensures 16 <= |s| && GoodHeader(s) && |s| > HARD_MAX_REQUEST_BYTES ==> C.DecodeRequest(s) == Err(C.TooLarge)
    ensures 16 <= |s| && GoodHeader(s) && |s| <= HARD_MAX_REQUEST_BYTES ==>
              (C.DecodeRequest(s) == Err(C.TooLarge) <==>
               Field(s, 0, 2) == 0x0500 && 48 <= |s| && Field(s[16..], 16, 4) > HARD_MAX_BINDINGS)
    ensures C.DecodeRequest(s) != Err(C.OutputTooSmall)
  {
    hide Field, C.ReadBindings, C.ReservedZero, C.ReadWords, C.WellFormed, IsPowerOfTwo;
  }

  /** Unknown usage bits alone make an allocation unsupported: with known ones it would be accepted. */
  lemma UnknownUsage(context: nat, desc: BufferDesc)
    ensures C.CheckAllocate(context, desc) == Err(C.NotSupported) <==>
            desc.usage >= 32 && C.CheckAllocate(context, desc.(usage := 1)).Ok?
  {}

  /** When the production decoder refuses a frame, the clean-room decoder says why: INVALID_ARGUMENT only
      for what it finds invalid, UNSUPPORTED for everything it does not support, and RESOURCE_LIMIT or
      UNSUPPORTED for what it accepts, as a size or the memory domain is at fault. */
  lemma RefusalsCorrespond(l: DecoderLimits, s: seq<Byte>, capacity: nat)
    requires Usable(l) && 16 <= |s| && 16 <= capacity && DecodeFrame(l, s, capacity, true).Err?
    ensures var e, clean := DecodeFrame(l, s, capacity, true).error, C.DecodeRequest(s);
            if |s| > l.maxRequest then e == Protocol(Field(s, 8, 8), RESOURCE_LIMIT)
            else if |s| != 16 + Field(s, 4, 4) || Field(s, 8, 8) == 0 then
              e == Protocol(Field(s, 8, 8), INVALID_ARGUMENT) && clean.Err?
            else if !GoodHeader(s) then e == Protocol(Field(s, 8, 8), UNSUPPORTED) && clean == Err(C.NotSupported)
            else if clean.Ok? && BodyWithin(l, clean.value.body) then
              var needed := RequiredResponse(clean.value.body);
              e == if needed > l.maxResponse then Protocol(Field(s, 8, 8), RESOURCE_LIMIT)
                   else InsufficientResponse(Field(s, 8, 8), needed, capacity)
            else
              && e.Protocol? && e.id == Field(s, 8, 8)
              && RefusalsAgree(l, Field(s, 0, 2), s[16..], CleanBody(Field(s, 0, 2), s[16..]), e.status)
              && (clean.Ok? ==> CleanBody(Field(s, 0, 2), s[16..]) == Ok(clean.value.body))
              && (clean.Err? ==> CleanBody(Field(s, 0, 2), s[16..]) == Err(clean.error))
  {
    hide Field, KnownOpcode, C.DecodeBody, C.PayloadLen, BodyOf, BodyWithin, SameBody, RequiredResponse, RefusalsAgree;
    if |s| <= l.maxRequest && KnownOpcode(Field(s, 0, 2)) {
      BodyRefused(l, s, Field(s, 0, 2));
      BodyAgrees(l, s, Field(s, 0, 2));
      var decoded, clean := BodyOf(l, s, Field(s, 0, 2), true), CleanBody(Field(s, 0, 2), s[16..]);
      assert |s[16..]| == |s| - 16;
      if decoded.Ok? { SameNeeds(clean.value, decoded.value); }
    }
  }
}
