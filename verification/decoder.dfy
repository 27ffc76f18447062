/** The production frame decoder: limit-aware, over any byte source, with slot-sorted bindings. */
module Decoders {
  import opened Bytes
  import opened Sorting
  import opened Graphs
  import opened Wire
  import opened Regions

  const HARD_MAX_CHAIN_DESCRIPTORS: nat := 256

  // ------------------------------------------------------------------------------------------
  // Limits.

  datatype Config = Config(major: nat, queues: nat, chain: nat, request: nat, response: nat)

  datatype DecoderLimits = DecoderLimits(maxChain: nat, maxRequest: nat, maxResponse: nat, maxBindings: nat,
                                         maxBuffer: nat, maxArtifact: nat, domains: set<nat>)

  datatype WireConfigError = Version | CommandQueueCount | ChainDescriptorLimit | RequestByteLimit | ResponseByteLimit

  datatype LimitsError = BadConfig(config: WireConfigError) | BindingLimit | BufferLimit | ArtifactLimit

  predicate ValidConfig(c: Config) {
    && c.major == 1 && c.queues == 1 && 2 <= c.chain <= HARD_MAX_CHAIN_DESCRIPTORS
    && MIN_MAX_REQUEST_BYTES <= c.request <= HARD_MAX_REQUEST_BYTES
    && MIN_MAX_RESPONSE_BYTES <= c.response <= HARD_MAX_RESPONSE_BYTES
  }

  /** The first part of the configuration outside protocol 1.0. */
  function ConfigFault(c: Config): (r: Option<WireConfigError>)
    ensures r.None? <==> ValidConfig(c)
    ensures r == Some(Version) <==> c.major != 1
    ensures r == Some(CommandQueueCount) ==> c.queues != 1
    ensures r == Some(ChainDescriptorLimit) ==> c.queues == 1 && !(2 <= c.chain <= HARD_MAX_CHAIN_DESCRIPTORS)
    ensures r == Some(RequestByteLimit) ==> !(MIN_MAX_REQUEST_BYTES <= c.request <= HARD_MAX_REQUEST_BYTES)
    ensures r == Some(ResponseByteLimit) ==> !(MIN_MAX_RESPONSE_BYTES <= c.response <= HARD_MAX_RESPONSE_BYTES)
  {
    if c.major != 1 then Some(Version)
    else if c.queues != 1 then Some(CommandQueueCount)
    else if !(2 <= c.chain <= HARD_MAX_CHAIN_DESCRIPTORS) then Some(ChainDescriptorLimit)
    else if !(MIN_MAX_REQUEST_BYTES <= c.request <= HARD_MAX_REQUEST_BYTES) then Some(RequestByteLimit)
    else if !(MIN_MAX_RESPONSE_BYTES <= c.response <= HARD_MAX_RESPONSE_BYTES) then Some(ResponseByteLimit)
    else None
  }

  predicate Usable(l: DecoderLimits) {
    && 2 <= l.maxChain <= HARD_MAX_CHAIN_DESCRIPTORS
    && MIN_MAX_REQUEST_BYTES <= l.maxRequest <= HARD_MAX_REQUEST_BYTES
    && MIN_MAX_RESPONSE_BYTES <= l.maxResponse <= HARD_MAX_RESPONSE_BYTES
    && 1 <= l.maxBindings <= HARD_MAX_BINDINGS && 0 < l.maxBuffer && 0 < l.maxArtifact
  }

  function NewDecoderLimits(c: Config, info: Limits, domains: set<nat>): (r: Result<DecoderLimits, LimitsError>)
    ensures r.Ok? <==> && ValidConfig(c) && 1 <= info.maxBindings <= HARD_MAX_BINDINGS
                       && info.maxBufferBytes > 0 && info.maxArtifactBytes > 0
    ensures r.Ok? ==>
              && Usable(r.value)
              && (r.value.maxChain, r.value.maxRequest, r.value.maxResponse) == (c.chain, c.request, c.response)
              && (r.value.maxBindings, r.value.maxBuffer, r.value.maxArtifact)
                 == (info.maxBindings, info.maxBufferBytes, info.maxArtifactBytes)
              && r.value.domains == domains
    ensures r.Err? ==>
              && (r.error.BadConfig? <==> !ValidConfig(c))
              && (r.error.BadConfig? ==> ConfigFault(c) == Some(r.error.config))
              && (r.error == BufferLimit ==> info.maxBufferBytes == 0)
              && (r.error == ArtifactLimit ==> info.maxArtifactBytes == 0 < info.maxBufferBytes)
              && (r.error == BindingLimit ==> !(1 <= info.maxBindings <= HARD_MAX_BINDINGS))
  {
    if !ValidConfig(c) then Err(BadConfig(ConfigFault(c).value))
    else if !(1 <= info.maxBindings <= HARD_MAX_BINDINGS) then Err(BindingLimit)
    else if info.maxBufferBytes == 0 then Err(BufferLimit)
    else if info.maxArtifactBytes == 0 then Err(ArtifactLimit)
    else Ok(DecoderLimits(c.chain, c.request, c.response, info.maxBindings, info.maxBufferBytes, info.maxArtifactBytes,
                          domains))
  }

  // ------------------------------------------------------------------------------------------
  // Bodies with a fixed layout.

  datatype DecodeError =
    | NoResponseHeader | NoRequestHeader
    | Protocol(id: nat, status: nat)
    | InsufficientResponse(id: nat, required: nat, available: nat)

  /** Bytes of the fixed part of a payload. */
  function FixedBytes(opcode: nat): nat {
    if opcode == 0x0001 then 0
    else if opcode == 0x0200 then 40
    else if opcode == 0x0202 || opcode == 0x0203 then 24
    else if opcode == 0x0300 then 80
    else if opcode == 0x0400 then 16
    else if opcode == 0x0500 then 32
    else 8
  }

  /** Whether the fixed part may be read: bodies without a tail have exactly their length. */
  predicate LengthOk(opcode: nat, payload: nat) {
    if opcode == 0x0202 || opcode == 0x0203 || opcode == 0x0300 || opcode == 0x0500 then FixedBytes(opcode) <= payload
    else FixedBytes(opcode) == payload
  }

  function ObjectBody(id: nat, body: Body): Result<Body, nat> {
    if id == 0 then Err(INVALID_ARGUMENT) else Ok(body)
  }

  function TransferBody(payload: nat, expected: nat, buffer: nat, offset: nat, bytes: nat, body: Body)
    : Result<Body, nat>
  {
    if bytes == 0 || offset + bytes >= U64 then Err(INVALID_ARGUMENT)
    else if expected >= U64 then Err(RESOURCE_LIMIT)
    else if expected != payload then Err(INVALID_ARGUMENT)
    else if buffer == 0 then Err(INVALID_ARGUMENT)
    else Ok(body)
  }

  function AllocateBody(l: DecoderLimits, p: seq<Byte>): Result<Body, nat>
    requires |p| == 40
  {
    var desc := BufferDesc(Field(p, 8, 8), Field(p, 16, 8), Field(p, 24, 1), Field(p, 32, 4));
    if Field(p, 0, 8) == 0 then Err(INVALID_ARGUMENT)
    else if p[25..32] != Zeros(7) || Field(p, 36, 4) != 0 then Err(INVALID_ARGUMENT)
    else if !(1 <= desc.domain <= 3) then Err(INVALID_ARGUMENT)
    else if desc.usage >= 32 then Err(UNSUPPORTED)
    else if desc.usage == 0 || desc.bytes == 0 || !IsPowerOfTwo(desc.alignment) then Err(INVALID_ARGUMENT)
    else if desc.bytes > l.maxBuffer then Err(RESOURCE_LIMIT)
    else if desc.domain !in l.domains then Err(UNSUPPORTED)
    else Ok(AllocateBuffer(Field(p, 0, 8), desc))
  }

  function TargetWords(p: seq<Byte>, n: nat): (r: seq<nat>)
    requires n <= 12 && 64 <= |p|
    ensures |r| == n && forall i | 0 <= i < n :: r[i] == Field(p, 16 + 4 * i, 4)
  {
    if n == 0 then [] else TargetWords(p, n - 1) + [Field(p, 16 + 4 * (n - 1), 4)]
  }

  function LoadBody(l: DecoderLimits, payload: nat, p: seq<Byte>, tail: seq<Byte>): Result<Body, nat>
    requires |p| == 80
  {
    var len := Field(p, 64, 8);
    if Field(p, 12, 4) != 0 then Err(UNSUPPORTED)
    else if Field(p, 0, 8) == 0 || Field(p, 8, 4) == 0 || len == 0 || Field(p, 72, 8) == 0 then Err(INVALID_ARGUMENT)
    else if 80 + len >= U64 then Err(RESOURCE_LIMIT)
    else if 80 + len != payload then Err(INVALID_ARGUMENT)
    else if len > l.maxArtifact then Err(RESOURCE_LIMIT)
    else Ok(LoadProgram(Field(p, 0, 8), Field(p, 8, 4), TargetWords(p, 12), Field(p, 72, 8), tail))
  }

  /** Every body but SUBMIT, from its fixed part `p` and the bytes of the borrowed tail. */
  function FixedBody(l: DecoderLimits, opcode: nat, payload: nat, p: seq<Byte>, tail: seq<Byte>): Result<Body, nat>
    requires KnownOpcode(opcode) && opcode != 0x0500 && |p| == FixedBytes(opcode)
  {
    if opcode == 0x0001 then Ok(GetDeviceInfo)
    else if opcode == 0x0100 then
      if Field(p, 0, 4) != 0 then Err(UNSUPPORTED)
      else if Field(p, 4, 4) != 0 then Err(INVALID_ARGUMENT)
      else Ok(CreateContext)
    else if opcode == 0x0101 then ObjectBody(Field(p, 0, 8), DestroyContext(Field(p, 0, 8)))
    else if opcode == 0x0200 then AllocateBody(l, p)
    else if opcode == 0x0201 then ObjectBody(Field(p, 0, 8), FreeBuffer(Field(p, 0, 8)))
    else if opcode == 0x0202 then
      TransferBody(payload, 24 + Field(p, 16, 8), Field(p, 0, 8), Field(p, 8, 8), Field(p, 16, 8),
                   WriteBuffer(Field(p, 0, 8), Field(p, 8, 8), Field(p, 16, 8), tail))
    else if opcode == 0x0203 then
      TransferBody(payload, 24, Field(p, 0, 8), Field(p, 8, 8), Field(p, 16, 8),
                   ReadBuffer(Field(p, 0, 8), Field(p, 8, 8), Field(p, 16, 8)))
    else if opcode == 0x0300 then LoadBody(l, payload, p, tail)
    else if opcode == 0x0301 then ObjectBody(Field(p, 0, 8), UnloadProgram(Field(p, 0, 8)))
    else if opcode == 0x0400 then
      if Field(p, 8, 4) != 0 then Err(UNSUPPORTED)
      else if Field(p, 12, 4) != 0 then Err(INVALID_ARGUMENT)
      else ObjectBody(Field(p, 0, 8), CreateQueue(Field(p, 0, 8)))
    else if opcode == 0x0401 then ObjectBody(Field(p, 0, 8), DestroyQueue(Field(p, 0, 8)))
    else if opcode == 0x0501 then ObjectBody(Field(p, 0, 8), PollEvent(Field(p, 0, 8)))
    else if opcode == 0x0502 then ObjectBody(Field(p, 0, 8), CancelEvent(Field(p, 0, 8)))
    else ObjectBody(Field(p, 0, 8), DestroyEvent(Field(p, 0, 8)))
  }

  // ------------------------------------------------------------------------------------------
  // SUBMIT.

  function WireBinding(w: seq<Byte>): Result<Binding, nat>
    requires |w| == 32
  {
    if w[29..32] != Zeros(3) then Err(INVALID_ARGUMENT)
    else if Field(w, 16, 8) == 0 || Field(w, 8, 8) + Field(w, 16, 8) >= U64 then Err(INVALID_ARGUMENT)
    else if !(1 <= Field(w, 28, 1) <= 3) then Err(INVALID_ARGUMENT)
    else if Field(w, 0, 8) == 0 then Err(INVALID_ARGUMENT)
    else Ok(Binding(Field(w, 0, 8), Field(w, 8, 8), Field(w, 16, 8), Field(w, 24, 4), Field(w, 28, 1)))
  }

  function Piece(tail: seq<Byte>, i: nat): seq<Byte>
    requires 32 * i + 32 <= |tail|
  {
    tail[32 * i..32 * i + 32]
  }

  predicate AllBind(tail: seq<Byte>, n: nat)
    requires 32 * n <= |tail|
  {
    forall i | 0 <= i < n :: WireBinding(Piece(tail, i)).Ok?
  }

  /** The bindings in wire order. */
  function InWireOrder(tail: seq<Byte>, n: nat): (r: seq<Binding>)
    requires 32 * n <= |tail| && AllBind(tail, n)
    ensures |r| == n && forall i | 0 <= i < n :: r[i] == WireBinding(Piece(tail, i)).value
  {
    if n == 0 then [] else InWireOrder(tail, n - 1) + [WireBinding(Piece(tail, n - 1)).value]
  }

  function SlotOf(b: Binding): int { b.slot }

  /** What a SUBMIT payload decodes to. */
  ghost function SubmitBody(l: DecoderLimits, payload: nat, p: seq<Byte>, tail: seq<Byte>, memory: bool)
    : Result<Body, nat>
    requires |p| == 32 && payload == 32 + |tail|
  {
    var count := Field(p, 16, 4);
    if Field(p, 20, 4) != 0 then Err(UNSUPPORTED)
    else if count == 0 then Err(INVALID_ARGUMENT)
    else if count > l.maxBindings || count > HARD_MAX_BINDINGS then Err(RESOURCE_LIMIT)
    else if 32 + 32 * count != payload then Err(INVALID_ARGUMENT)
    else if !memory then Err(OUT_OF_MEMORY)
    else if !AllBind(tail, count) || !DistinctKeys(InWireOrder(tail, count), SlotOf) then Err(INVALID_ARGUMENT)
    else if Field(p, 0, 8) == 0 || Field(p, 8, 8) == 0 then Err(INVALID_ARGUMENT)
    else Ok(Submit(Field(p, 0, 8), Field(p, 8, 8), Field(p, 24, 8), SortByKey(InWireOrder(tail, count), SlotOf)))
  }

  /** Reads `bytes` bytes through the port into a scratch buffer. */
  method ReadWire(source: Source, offset: nat, bytes: nat) returns (r: seq<Byte>)
    requires ValidSource(source) && offset + bytes <= Length(source)
    ensures r == Content(source)[offset..offset + bytes]
  {
    var scratch := new Byte[bytes];
    var read := ReadAt(source, offset, scratch);
    assert read.Ok?;
    r := scratch[..];
  }

  lemma NeighboursSuffice(s: seq<Binding>)
    requires SortedBy(s, SlotOf) && forall i | 1 <= i < |s| :: s[i - 1].slot != s[i].slot
    ensures DistinctKeys(s, SlotOf)
  {
    forall i, j | 0 <= i < j < |s|
      ensures SlotOf(s[i]) != SlotOf(s[j])
    {
      assert SlotOf(s[i]) <= SlotOf(s[j - 1]) <= SlotOf(s[j]);
      assert s[j - 1].slot != s[j].slot;
    }
  }

  method SortedWithoutDuplicates(bindings: seq<Binding>) returns (r: Option<seq<Binding>>)
    ensures r == if DistinctKeys(bindings, SlotOf) then Some(SortByKey(bindings, SlotOf)) else None
  {
    var sorted := SortByKey(bindings, SlotOf);
    if DistinctKeys(bindings, SlotOf) { DistinctPermutation(bindings, sorted, SlotOf); }
    var i := 1;
    while i < |sorted|
      invariant forall k | 1 <= k < i && k < |sorted| :: sorted[k - 1].slot != sorted[k].slot
    {
      if sorted[i - 1].slot == sorted[i].slot {
        assert SlotOf(sorted[i - 1]) == SlotOf(sorted[i]);
        return None;
      }
      i := i + 1;
    }
    NeighboursSuffice(sorted);
    DistinctPermutation(sorted, bindings, SlotOf);
    return Some(sorted);
  }

  method DecodeSubmit(l: DecoderLimits, source: Source, payload: nat, memory: bool) returns (r: Result<Body, nat>)
    requires ValidSource(source) && Length(source) == 16 + payload && 32 <= payload
    ensures r == SubmitBody(l, payload, Content(source)[16..48], Content(source)[48..], memory)
  {
    hide Field, WireBinding, SortByKey, DistinctKeys, ValidSource, Content;
    ghost var tail := Content(source)[48..];
    var value := ReadWire(source, 16, 32);
    if Field(value, 20, 4) != 0 { return Err(UNSUPPORTED); }
    var count := Field(value, 16, 4);
    if count == 0 { return Err(INVALID_ARGUMENT); }
    if count > l.maxBindings || count > HARD_MAX_BINDINGS { return Err(RESOURCE_LIMIT); }
    if 32 + 32 * count != payload { return Err(INVALID_ARGUMENT); }
    if !memory { return Err(OUT_OF_MEMORY); }
    var bindings := [];
    for index := 0 to count
      invariant AllBind(tail, index) && bindings == InWireOrder(tail, index)
    {
      var w := ReadWire(source, 48 + 32 * index, 32);
      assert tail == Content(source)[48..|Content(source)|];
      SliceOfSlice(Content(source), 48, |Content(source)|, 32 * index, 32 * index + 32);
      assert w == Piece(tail, index);
      var binding := WireBinding(w);
      if binding.Err? {
        AnyBadBinding(tail, index);
        return Err(INVALID_ARGUMENT);
      }
      bindings := bindings + [binding.value];
    }
    var sorted := SortedWithoutDuplicates(bindings);
    if sorted.None? { return Err(INVALID_ARGUMENT); }
    if Field(value, 0, 8) == 0 || Field(value, 8, 8) == 0 { return Err(INVALID_ARGUMENT); }
    return Ok(Submit(Field(value, 0, 8), Field(value, 8, 8), Field(value, 24, 8), sorted.value));
  }

  lemma AnyBadBinding(tail: seq<Byte>, i: nat)
    requires 32 * i + 32 <= |tail| && WireBinding(Piece(tail, i)).Err?
    ensures forall n | i < n && 32 * n <= |tail| :: !AllBind(tail, n)
  {}

  // ------------------------------------------------------------------------------------------
  // Whole frames.

  ghost function BodyOf(l: DecoderLimits, s: seq<Byte>, opcode: nat, memory: bool): Result<Body, nat>
    requires KnownOpcode(opcode) && 16 <= |s|
  {
    var fixed := FixedBytes(opcode);
    if !LengthOk(opcode, |s| - 16) then Err(INVALID_ARGUMENT)
    else if opcode == 0x0500 then SubmitBody(l, |s| - 16, s[16..48], s[48..], memory)
    else FixedBody(l, opcode, |s| - 16, s[16..16 + fixed], s[16 + fixed..])
  }

  method DecodeBody(l: DecoderLimits, source: Source, opcode: nat, payload: nat, memory: bool)
    returns (r: Result<Body, nat>)
    requires ValidSource(source) && Length(source) == 16 + payload && KnownOpcode(opcode)
    ensures r == BodyOf(l, Content(source), opcode, memory)
  {
    hide SubmitBody, FixedBody, ValidSource;
    if !LengthOk(opcode, payload) { return Err(INVALID_ARGUMENT); }
    if opcode == 0x0500 {
      r := DecodeSubmit(l, source, payload, memory);
    } else {
      var fixed := FixedBytes(opcode);
      var p := ReadWire(source, 16, fixed);
      var tail := NewReadableRegion(source, 16 + fixed, payload - fixed);
      assert tail.Ok?;
      assert Content(source)[16 + fixed..16 + payload] == Content(source)[16 + fixed..];
      r := FixedBody(l, opcode, payload, p, Content(tail.value));
    }
  }

  /** What a frame decodes to, as a function of its flat bytes and the response capacity alone. */
  ghost function DecodeFrame(l: DecoderLimits, s: seq<Byte>, capacity: nat, memory: bool)
    : Result<Request, DecodeError>
  {
    if capacity < RESPONSE_HEADER_BYTES then Err(NoResponseHeader)
    else if |s| < REQUEST_HEADER_BYTES then Err(NoRequestHeader)
    else
      var id := Field(s, 8, 8);
      if |s| > l.maxRequest then Err(Protocol(id, RESOURCE_LIMIT))
      else if |s| != REQUEST_HEADER_BYTES + Field(s, 4, 4) then Err(Protocol(id, INVALID_ARGUMENT))
      else if id == 0 then Err(Protocol(id, INVALID_ARGUMENT))
      else if Field(s, 2, 2) != 0 then Err(Protocol(id, UNSUPPORTED))
      else if !KnownOpcode(Field(s, 0, 2)) then Err(Protocol(id, UNSUPPORTED))
      else
        match BodyOf(l, s, Field(s, 0, 2), memory)
        case Err(status) => Err(Protocol(id, status))
        case Ok(body) =>
          if RequiredResponse(body) > l.maxResponse then Err(Protocol(id, RESOURCE_LIMIT))
          else if capacity < RequiredResponse(body) then Err(InsufficientResponse(id, RequiredResponse(body), capacity))
          else Ok(Request(id, body))
  }

  /** Decodes a frame read through any byte source. The outcome depends on the flat content only,
      so it is the same for every segmentation of the same bytes. */
  method Decode(l: DecoderLimits, source: Source, capacity: nat, memory: bool) returns (r: Result<Request, DecodeError>)
    requires ValidSource(source)
    ensures r == DecodeFrame(l, Content(source), capacity, memory)
  {
    hide Field, BodyOf, ValidSource, KnownOpcode;
    ghost var s := Content(source);
    if capacity < RESPONSE_HEADER_BYTES { return Err(NoResponseHeader); }
    if Length(source) < REQUEST_HEADER_BYTES { return Err(NoRequestHeader); }
    var header := ReadWire(source, 0, 16);
    HeaderFields(s, header);
    var id := Field(header, 8, 8);
    if Length(source) > l.maxRequest { return Err(Protocol(id, RESOURCE_LIMIT)); }
    if Length(source) != REQUEST_HEADER_BYTES + Field(header, 4, 4) { return Err(Protocol(id, INVALID_ARGUMENT)); }
    if id == 0 { return Err(Protocol(id, INVALID_ARGUMENT)); }
    if Field(header, 2, 2) != 0 { return Err(Protocol(id, UNSUPPORTED)); }
    if !KnownOpcode(Field(header, 0, 2)) { return Err(Protocol(id, UNSUPPORTED)); }
    var body := DecodeBody(l, source, Field(header, 0, 2), Field(header, 4, 4), memory);
    if body.Err? { return Err(Protocol(id, body.error)); }
    var required := RequiredResponse(body.value);
    if required > l.maxResponse { return Err(Protocol(id, RESOURCE_LIMIT)); }
    if capacity < required { return Err(InsufficientResponse(id, required, capacity)); }
    return Ok(Request(id, body.value));
  }

  lemma HeaderFields(s: seq<Byte>, header: seq<Byte>)
    requires 16 <= |s| && header == s[0..16]
    ensures Field(header, 0, 2) == Field(s, 0, 2) && Field(header, 2, 2) == Field(s, 2, 2)
    ensures Field(header, 4, 4) == Field(s, 4, 4) && Field(header, 8, 8) == Field(s, 8, 8)
  {
    hide Field;
    SubField(s, 0, 16, 0, 2);
    SubField(s, 0, 16, 2, 2);
    SubField(s, 0, 16, 4, 4);
    SubField(s, 0, 16, 8, 8);
  }
}
