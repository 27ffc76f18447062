/** The clean-room request codec: an independent encoder and decoder of the same wire format. */
module CleanRoom {
  import opened Bytes
  import opened Graphs
  import opened Wire

  datatype Error = Size | NotSupported | Invalid | TooLarge | OutputTooSmall

  // ------------------------------------------------------------------------------------------
  // Bindings, either still encoded or given by value.

  datatype Bindings = Encoded(bytes: seq<Byte>, count: nat) | Values(values: seq<Binding>)

  function BindingAt(s: seq<Byte>, off: nat): Binding
    requires off + 32 <= |s|
  {
    Binding(Field(s, off, 8), Field(s, off + 8, 8), Field(s, off + 16, 8), Field(s, off + 24, 4), Field(s, off + 28, 1))
  }

  function DecodeBinding(s: seq<Byte>, off: nat): Result<Binding, Error> {
    if off + 32 > |s| then Err(Invalid)
    else if s[off + 29..off + 32] != Zeros(3) then Err(Invalid)
    else Ok(BindingAt(s, off))
  }

  function Count(b: Bindings): nat { if b.Encoded? then b.count else |b.values| }

  function Get(b: Bindings, index: nat): Result<Binding, Error> {
    match b
    case Encoded(bytes, count) => if index >= count then Err(Invalid) else DecodeBinding(bytes, 32 * index)
    case Values(values) => if index >= |values| then Err(Invalid) else Ok(values[index])
  }

  predicate ValidBinding(b: Binding) {
    b.buffer != 0 && b.bytes != 0 && 1 <= b.access <= 3 && b.offset + b.bytes < U64
  }

  /** Every binding can be read and is valid, and no two share a slot. */
  predicate WellFormed(b: Bindings, n: nat) {
    && (forall i | 0 <= i < n :: Get(b, i).Ok? && ValidBinding(Get(b, i).value))
    && (forall i, j | 0 <= i < j < n :: Get(b, i).value.slot != Get(b, j).value.slot)
  }

  function CheckBindings(b: Bindings): Result<nat, Error> {
    if Count(b) == 0 then Err(Invalid)
    else if Count(b) > HARD_MAX_BINDINGS then Err(TooLarge)
    else if b.Encoded? && |b.bytes| != 32 * b.count then Err(Invalid)
    else if !WellFormed(b, Count(b)) then Err(Invalid)
    else Ok(32 + 32 * Count(b))
  }

  method ValidateBindings(b: Bindings) returns (r: Result<nat, Error>)
    ensures r == CheckBindings(b)
  {
    hide DecodeBinding, ValidBinding;
    if Count(b) == 0 { return Err(Invalid); }
    if Count(b) > HARD_MAX_BINDINGS { return Err(TooLarge); }
    if b.Encoded? && |b.bytes| != 32 * b.count { return Err(Invalid); }
    for index := 0 to Count(b)
      invariant WellFormed(b, index)
    {
      var binding := Get(b, index);
      if binding.Err? || !ValidBinding(binding.value) { return Err(Invalid); }
      for previous := 0 to index
        invariant forall i | 0 <= i < previous :: Get(b, i).value.slot != binding.value.slot
      {
        if Get(b, previous).value.slot == binding.value.slot { return Err(Invalid); }
      }
    }
    return Ok(32 + 32 * Count(b));
  }

  // ------------------------------------------------------------------------------------------
  // Request validity.

  /** Field widths of the wire types. */
  predicate TypedBinding(b: Binding) {
    b.buffer < U64 && b.offset < U64 && b.bytes < U64 && b.slot < U32 && b.access < 256
  }

  predicate TypedBody(body: Body) {
    match body
    case GetDeviceInfo => true
    case CreateContext => true
    case DestroyContext(o) => o < U64
    case AllocateBuffer(c, d) => c < U64 && d.bytes < U64 && d.alignment < U64 && d.domain < 256 && d.usage < U32
    case FreeBuffer(o) => o < U64
    case WriteBuffer(b, o, n, _) => b < U64 && o < U64 && n < U64
    case ReadBuffer(b, o, n) => b < U64 && o < U64 && n < U64
    case LoadProgram(c, f, t, r, a) =>
      c < U64 && f < U32 && |t| == 12 && r < U64 && |a| < U64 && forall i | 0 <= i < |t| :: t[i] < U32
    case UnloadProgram(o) => o < U64
    case CreateQueue(c) => c < U64
    case DestroyQueue(o) => o < U64
    case Submit(q, p, t, bs) => q < U64 && p < U64 && t < U64 && forall b | b in bs :: TypedBinding(b)
    case PollEvent(o) => o < U64
    case CancelEvent(o) => o < U64
    case DestroyEvent(o) => o < U64
  }

  function ObjectLen(id: nat): Result<nat, Error> { if id == 0 then Err(Invalid) else Ok(8) }

  function CheckAllocate(context: nat, d: BufferDesc): Result<nat, Error> {
    if context == 0 || d.bytes == 0 || !IsPowerOfTwo(d.alignment) || !(1 <= d.domain <= 3) || d.usage == 0 then
      Err(Invalid)
    else if d.usage >= 32 then Err(NotSupported)
    else Ok(40)
  }

  function CheckTransfer(buffer: nat, offset: nat, bytes: nat): Result<nat, Error> {
    if buffer == 0 || bytes == 0 || offset + bytes >= U64 then Err(Invalid) else Ok(24)
  }

  /** Payload length of a request, or the reason it may not be encoded. */
  function PayloadLen(body: Body): Result<nat, Error> {
    match body
    case GetDeviceInfo => Ok(0)
    case CreateContext => Ok(8)
    case DestroyContext(o) => ObjectLen(o)
    case AllocateBuffer(c, d) => CheckAllocate(c, d)
    case FreeBuffer(o) => ObjectLen(o)
    case WriteBuffer(b, o, n, data) =>
      var fixed :- CheckTransfer(b, o, n);
      if n != |data| then Err(Invalid) else Ok(fixed + n)
    case ReadBuffer(b, o, n) => CheckTransfer(b, o, n)
    case LoadProgram(c, f, _, r, a) =>
      if c == 0 || f == 0 || a == [] || r == 0 then Err(Invalid) else Ok(80 + |a|)
    case UnloadProgram(o) => ObjectLen(o)
    case CreateQueue(c) =>
      var _ :- ObjectLen(c);
      Ok(16)
    case DestroyQueue(o) => ObjectLen(o)
    case Submit(q, p, _, bs) => if q == 0 || p == 0 then Err(Invalid) else CheckBindings(Values(bs))
    case PollEvent(o) => ObjectLen(o)
    case CancelEvent(o) => ObjectLen(o)
    case DestroyEvent(o) => ObjectLen(o)
  }

  /** Total frame length of a request that may be encoded. */
  function FrameLen(r: Request): Result<nat, Error> {
    if r.id == 0 then Err(Invalid)
    else
      var payload :- PayloadLen(r.body);
      if REQUEST_HEADER_BYTES + payload > HARD_MAX_REQUEST_BYTES then Err(TooLarge)
      else Ok(REQUEST_HEADER_BYTES + payload)
  }

  /** A request of the wire types that the encoder accepts. */
  predicate ValidRequest(r: Request) { r.id < U64 && TypedBody(r.body) && FrameLen(r).Ok? }

  // ------------------------------------------------------------------------------------------
  // The encoded form.

  function Words(words: seq<nat>, rest: seq<Byte>): (r: seq<Byte>)
    ensures |r| == 4 * |words| + |rest|
  {
    if words == [] then rest else Put(4, words[0], Words(words[1..], rest))
  }

  function BindingBytes(bs: seq<Binding>): (r: seq<Byte>)
    ensures |r| == 32 * |bs|
  {
    if bs == [] then []
    else
      Put(8, bs[0].buffer, Put(8, bs[0].offset, Put(8, bs[0].bytes, Put(4, bs[0].slot, Put(1, bs[0].access,
        Put(3, 0, BindingBytes(bs[1..])))))))
  }

  function Payload(body: Body): seq<Byte> {
    match body
    case GetDeviceInfo => []
    case CreateContext => Put(4, 0, Put(4, 0, []))
    case DestroyContext(o) => Put(8, o, [])
    case AllocateBuffer(c, d) =>
      Put(8, c, Put(8, d.bytes, Put(8, d.alignment, Put(1, d.domain, Put(7, 0, Put(4, d.usage, Put(4, 0, [])))))))
    case FreeBuffer(o) => Put(8, o, [])
    case WriteBuffer(b, o, n, data) => Put(8, b, Put(8, o, Put(8, n, data)))
    case ReadBuffer(b, o, n) => Put(8, b, Put(8, o, Put(8, n, [])))
    case LoadProgram(c, f, t, r, a) => Put(8, c, Put(4, f, Put(4, 0, Words(t, Put(8, |a|, Put(8, r, a))))))
    case UnloadProgram(o) => Put(8, o, [])
    case CreateQueue(c) => Put(8, c, Put(4, 0, Put(4, 0, [])))
    case DestroyQueue(o) => Put(8, o, [])
    case Submit(q, p, t, bs) => Put(8, q, Put(8, p, Put(4, |bs|, Put(4, 0, Put(8, t, BindingBytes(bs))))))
    case PollEvent(o) => Put(8, o, [])
    case CancelEvent(o) => Put(8, o, [])
    case DestroyEvent(o) => Put(8, o, [])
  }

  function Header(opcode: nat, payload: nat, id: nat, rest: seq<Byte>): seq<Byte> {
    Put(2, opcode, Put(2, 0, Put(4, payload, Put(8, id, rest))))
  }

  /** The bytes of a request frame. */
  function Frame(r: Request): seq<Byte> {
    var payload := Payload(r.body);
    Header(Opcode(r.body), |payload|, r.id, payload)
  }

  // ------------------------------------------------------------------------------------------
  // Decoding.

  function ReadWords(s: seq<Byte>, off: nat, n: nat): (r: seq<nat>)
    requires off + 4 * n <= |s|
    ensures |r| == n
    decreases n
  {
    if n == 0 then [] else [Field(s, off, 4)] + ReadWords(s, off + 4, n - 1)
  }

  function ReadBindings(s: seq<Byte>, off: nat, n: nat): (r: seq<Binding>)
    requires off + 32 * n <= |s|
    ensures |r| == n
    decreases n
  {
    if n == 0 then [] else [BindingAt(s, off)] + ReadBindings(s, off + 32, n - 1)
  }

  predicate ReservedZero(s: seq<Byte>, off: nat, n: nat)
    requires off + 32 * n <= |s|
    decreases n
  {
    n == 0 || (s[off + 29..off + 32] == Zeros(3) && ReservedZero(s, off + 32, n - 1))
  }

  function DecodeObject(p: seq<Byte>): Result<nat, Error> {
    if |p| != 8 || Field(p, 0, 8) == 0 then Err(Invalid) else Ok(Field(p, 0, 8))
  }

  /** Body of a payload. Encoded bindings are given by the values that reading them yields; their
      length and reserved bytes are checked here instead of on first access. */
  function DecodeBody(opcode: nat, p: seq<Byte>): Result<Body, Error>
    requires KnownOpcode(opcode)
  {
    if opcode == 0x0001 then
      if p != [] then Err(Invalid) else Ok(GetDeviceInfo)
    else if opcode == 0x0100 then
      if |p| != 8 then Err(Invalid)
      else if Field(p, 0, 4) != 0 then Err(NotSupported)
      else if Field(p, 4, 4) != 0 then Err(Invalid)
      else Ok(CreateContext)
    else if opcode == 0x0101 then
      var o :- DecodeObject(p);
      Ok(DestroyContext(o))
    else if opcode == 0x0200 then
      if |p| != 40 || p[25..32] != Zeros(7) || Field(p, 36, 4) != 0 then Err(Invalid)
      else Ok(AllocateBuffer(Field(p, 0, 8),
                             BufferDesc(Field(p, 8, 8), Field(p, 16, 8), Field(p, 24, 1), Field(p, 32, 4))))
    else if opcode == 0x0201 then
      var o :- DecodeObject(p);
      Ok(FreeBuffer(o))
    else if opcode == 0x0202 then
      if |p| < 24 then Err(Invalid)
      else Ok(WriteBuffer(Field(p, 0, 8), Field(p, 8, 8), Field(p, 16, 8), p[24..]))
    else if opcode == 0x0203 then
      if |p| != 24 then Err(Invalid)
      else Ok(ReadBuffer(Field(p, 0, 8), Field(p, 8, 8), Field(p, 16, 8)))
    else if opcode == 0x0300 then
      if |p| < 80 then Err(Invalid)
      else if Field(p, 12, 4) != 0 then Err(NotSupported)
      else if Field(p, 64, 8) != |p| - 80 then Err(Invalid)
      else Ok(LoadProgram(Field(p, 0, 8), Field(p, 8, 4), ReadWords(p, 16, 12), Field(p, 72, 8), p[80..]))
    else if opcode == 0x0301 then
      var o :- DecodeObject(p);
      Ok(UnloadProgram(o))
    else if opcode == 0x0400 then
      if |p| != 16 then Err(Invalid)
      else if Field(p, 8, 4) != 0 then Err(NotSupported)
      else if Field(p, 12, 4) != 0 then Err(Invalid)
      else Ok(CreateQueue(Field(p, 0, 8)))
    else if opcode == 0x0401 then
      var o :- DecodeObject(p);
      Ok(DestroyQueue(o))
    else if opcode == 0x0500 then
      DecodeSubmit(p)
    else if opcode == 0x0501 then
      var o :- DecodeObject(p);
      Ok(PollEvent(o))
    else if opcode == 0x0502 then
      var o :- DecodeObject(p);
      Ok(CancelEvent(o))
    else
      var o :- DecodeObject(p);
      Ok(DestroyEvent(o))
  }

  function DecodeSubmit(p: seq<Byte>): Result<Body, Error> {
    if |p| < 32 then Err(Invalid)
    else
      var count := Field(p, 16, 4);
      if count == 0 then Err(Invalid)
      else if count > HARD_MAX_BINDINGS then Err(TooLarge)
      else if Field(p, 20, 4) != 0 then Err(NotSupported)
      else if |p| != 32 + 32 * count || !ReservedZero(p, 32, count) then Err(Invalid)
      else Ok(Submit(Field(p, 0, 8), Field(p, 8, 8), Field(p, 24, 8), ReadBindings(p, 32, count)))
  }

  function DecodeRequest(s: seq<Byte>): Result<Request, Error> {
    if |s| < REQUEST_HEADER_BYTES then Err(Size)
    else if !KnownOpcode(Field(s, 0, 2)) then Err(NotSupported)
    else if Field(s, 2, 2) != 0 then Err(NotSupported)
    else if REQUEST_HEADER_BYTES + Field(s, 4, 4) != |s| then Err(Invalid)
    else if |s| > HARD_MAX_REQUEST_BYTES then Err(TooLarge)
    else if Field(s, 8, 8) == 0 then Err(Invalid)
    else
      var body :- DecodeBody(Field(s, 0, 2), s[REQUEST_HEADER_BYTES..]);
      var payload :- PayloadLen(body);
      if payload != Field(s, 4, 4) then Err(Invalid) else Ok(Request(Field(s, 8, 8), body))
  }

  // ------------------------------------------------------------------------------------------
  // Every valid request decodes back from its encoding.

  lemma {:induction false} WordsRoundTrip(words: seq<nat>, rest: seq<Byte>, s: seq<Byte>, off: nat)
    requires forall i | 0 <= i < |words| :: words[i] < U32
    requires off <= |s| && s[off..] == Words(words, rest)
    ensures ReadWords(s, off, |words|) == words && s[off + 4 * |words|..] == rest
  {
    hide LeBytes, LeValue, Pow256;
    if words != [] {
      Widths();
      PutReads(4, words[0], Words(words[1..], rest));
      assert s[off..] == s[off..|s|];
      SubField(s, off, |s|, 0, 4);
      assert s[off..][4..] == s[off + 4..];
      WordsRoundTrip(words[1..], rest, s, off + 4);
    }
  }

  lemma BindingReads(b: Binding, rest: seq<Byte>, s: seq<Byte>)
    requires TypedBinding(b)
    requires s == Put(8, b.buffer, Put(8, b.offset, Put(8, b.bytes, Put(4, b.slot, Put(1, b.access, Put(3, 0, rest))))))
    ensures BindingAt(s, 0) == b && Field(s, 29, 3) == 0 && s[32..] == rest
  {
    hide LeBytes, LeValue, Pow256, Put, Field;
    Widths();
    var s5 := Put(3, 0, rest);
    PutReads(3, 0, rest);
    var s4 := Put(1, b.access, s5);
    PutReads(1, b.access, s5);
    var s3 := Put(4, b.slot, s4);
    PutReads(4, b.slot, s4);
    var s2 := Put(8, b.bytes, s3);
    PutReads(8, b.bytes, s3);
    var s1 := Put(8, b.offset, s2);
    PutReads(8, b.offset, s2);
    PutReads(8, b.buffer, s1);
    assert s[32..] == s1[24..] == s2[16..] == s3[8..] == s4[4..] == s5[3..];
  }

  lemma {:induction false} BindingsRoundTrip(bs: seq<Binding>, s: seq<Byte>, off: nat)
    requires (forall b | b in bs :: TypedBinding(b)) && off <= |s| && s[off..] == BindingBytes(bs)
    ensures ReadBindings(s, off, |bs|) == bs && ReservedZero(s, off, |bs|)
  {
    hide LeBytes, LeValue, Pow256, Put, Field, BindingAt, TypedBinding;
    if bs != [] {
      BindingReads(bs[0], BindingBytes(bs[1..]), s[off..]);
      SubBinding(s, off);
      assert s[off..][32..] == s[off + 32..];
      BindingsRoundTrip(bs[1..], s, off + 32);
      ZeroField(s, off + 29, 3);
      assert bs == [bs[0]] + bs[1..];
    }
  }

  lemma SubBinding(s: seq<Byte>, off: nat)
    requires off + 32 <= |s|
    ensures BindingAt(s[off..], 0) == BindingAt(s, off) && Field(s[off..], 29, 3) == Field(s, off + 29, 3)
  {
    hide Field;
    assert s[off..] == s[off..|s|];
    SubField(s, off, |s|, 0, 8);
    SubField(s, off, |s|, 8, 8);
    SubField(s, off, |s|, 16, 8);
    SubField(s, off, |s|, 24, 4);
    SubField(s, off, |s|, 28, 1);
    SubField(s, off, |s|, 29, 3);
  }

  lemma PutZero(w: nat, rest: seq<Byte>)
    ensures Put(w, 0, rest)[..w] == Zeros(w) && Field(Put(w, 0, rest), 0, w) == 0
  {
    ZeroValue(w);
    PutReads(w, 0, rest);
  }

  lemma AllocateRoundTrip(c: nat, d: BufferDesc)
    requires TypedBody(AllocateBuffer(c, d))
    ensures DecodeBody(0x0200, Payload(AllocateBuffer(c, d))) == Ok(AllocateBuffer(c, d))
    ensures |Payload(AllocateBuffer(c, d))| == 40
  {
    hide LeBytes, LeValue, Pow256, Put, Field;
    Widths();
    var s6 := Put(4, 0, []);
    PutReads(4, 0, []);
    var s5 := Put(4, d.usage, s6);
    PutReads(4, d.usage, s6);
    var s4 := Put(7, 0, s5);
    PutReads(7, 0, s5);
    PutZero(7, s5);
    var s3 := Put(1, d.domain, s4);
    PutReads(1, d.domain, s4);
    var s2 := Put(8, d.alignment, s3);
    PutReads(8, d.alignment, s3);
    var s1 := Put(8, d.bytes, s2);
    PutReads(8, d.bytes, s2);
    var s := Put(8, c, s1);
    PutReads(8, c, s1);
    assert s[25..32] == s1[17..24] == s2[9..16] == s3[1..8] == s4[..7];
  }

  lemma TransferReads(b: nat, o: nat, n: nat, data: seq<Byte>, s: seq<Byte>)
    requires b < U64 && o < U64 && n < U64 && s == Put(8, b, Put(8, o, Put(8, n, data)))
    ensures |s| == 24 + |data| && s[24..] == data
    ensures Field(s, 0, 8) == b && Field(s, 8, 8) == o && Field(s, 16, 8) == n
  {
    hide LeBytes, LeValue, Pow256, Put, Field;
    Widths();
    var s2 := Put(8, n, data);
    PutReads(8, n, data);
    var s1 := Put(8, o, s2);
    PutReads(8, o, s2);
    PutReads(8, b, s1);
    assert s[24..] == s1[16..] == s2[8..];
  }

  lemma LoadRoundTrip(c: nat, f: nat, t: seq<nat>, r: nat, a: seq<Byte>)
    requires TypedBody(LoadProgram(c, f, t, r, a))
    ensures DecodeBody(0x0300, Payload(LoadProgram(c, f, t, r, a))) == Ok(LoadProgram(c, f, t, r, a))
    ensures |Payload(LoadProgram(c, f, t, r, a))| == 80 + |a|
  {
    hide LeBytes, LeValue, Pow256, Put, Field, Words, ReadWords;
    Widths();
    var s5 := Put(8, r, a);
    PutReads(8, r, a);
    var s4 := Put(8, |a|, s5);
    PutReads(8, |a|, s5);
    var s3 := Words(t, s4);
    var s2 := Put(4, 0, s3);
    PutReads(4, 0, s3);
    var s1 := Put(4, f, s2);
    PutReads(4, f, s2);
    var s := Put(8, c, s1);
    PutReads(8, c, s1);
    assert s[16..] == s1[8..] == s2[4..] == s3;
    WordsRoundTrip(t, s4, s, 16);
    assert s[64..] == s[64..|s|];
    SubField(s, 64, |s|, 0, 8);
    SubField(s, 64, |s|, 8, 8);
    assert s[80..] == s[64..][16..] == s4[16..] == s5[8..];
  }

  lemma SubmitRoundTrip(q: nat, p: nat, t: nat, bs: seq<Binding>)
    requires TypedBody(Submit(q, p, t, bs)) && 1 <= |bs| <= HARD_MAX_BINDINGS
    ensures DecodeBody(0x0500, Payload(Submit(q, p, t, bs))) == Ok(Submit(q, p, t, bs))
    ensures |Payload(Submit(q, p, t, bs))| == 32 + 32 * |bs|
  {
    hide LeBytes, LeValue, Pow256, Put, Field, BindingBytes, ReadBindings, ReservedZero;
    Widths();
    var s5 := BindingBytes(bs);
    var s4 := Put(8, t, s5);
    PutReads(8, t, s5);
    var s3 := Put(4, 0, s4);
    PutReads(4, 0, s4);
    var s2 := Put(4, |bs|, s3);
    PutReads(4, |bs|, s3);
    var s1 := Put(8, p, s2);
    PutReads(8, p, s2);
    var s := Put(8, q, s1);
    PutReads(8, q, s1);
    assert s[32..] == s1[24..] == s2[16..] == s3[12..] == s4[8..] == s5;
    BindingsRoundTrip(bs, s, 32);
  }

  lemma ObjectRoundTrip(o: nat)
    requires 0 < o < U64
    ensures DecodeObject(Put(8, o, [])) == Ok(o) && |Put(8, o, [])| == 8
  {
    Widths();
    PutReads(8, o, []);
  }

  lemma ContextAndQueueRoundTrip(c: nat)
    requires c < U64
    ensures DecodeBody(0x0100, Payload(CreateContext)) == Ok(CreateContext) && |Payload(CreateContext)| == 8
    ensures DecodeBody(0x0400, Payload(CreateQueue(c))) == Ok(CreateQueue(c)) && |Payload(CreateQueue(c))| == 16
  {
    hide LeBytes, LeValue, Pow256, Put, Field;
    Widths();
    PutReads(4, 0, []);
    PutReads(4, 0, Put(4, 0, []));
    PutReads(8, c, Put(4, 0, Put(4, 0, [])));
  }

  /** The requests that carry one object identifier and nothing else. */
  predicate NamesObject(body: Body) {
    || body.DestroyContext? || body.FreeBuffer? || body.UnloadProgram? || body.DestroyQueue?
    || body.PollEvent? || body.CancelEvent? || body.DestroyEvent?
  }

  lemma ObjectBodyRoundTrip(body: Body)
    requires TypedBody(body) && PayloadLen(body).Ok? && NamesObject(body)
    ensures KnownOpcode(Opcode(body)) && DecodeBody(Opcode(body), Payload(body)) == Ok(body)
    ensures |Payload(body)| == PayloadLen(body).value
  {
    hide Put, DecodeObject;
    match body {
      case DestroyContext(o) => ObjectRoundTrip(o);
      case FreeBuffer(o) => ObjectRoundTrip(o);
      case UnloadProgram(o) => ObjectRoundTrip(o);
      case DestroyQueue(o) => ObjectRoundTrip(o);
      case PollEvent(o) => ObjectRoundTrip(o);
      case CancelEvent(o) => ObjectRoundTrip(o);
      case DestroyEvent(o) => ObjectRoundTrip(o);
    }
  }

  lemma BodyRoundTrip(body: Body)
    requires TypedBody(body) && PayloadLen(body).Ok?
    ensures KnownOpcode(Opcode(body)) && DecodeBody(Opcode(body), Payload(body)) == Ok(body)
    ensures |Payload(body)| == PayloadLen(body).value
  {
    hide Put, Field, Words, ReadWords, BindingBytes, ReadBindings, DecodeObject, DecodeSubmit, WellFormed, IsPowerOfTwo;
    match body {
      case GetDeviceInfo =>
      case CreateContext => ContextAndQueueRoundTrip(1);
      case CreateQueue(c) => ContextAndQueueRoundTrip(c);
      case AllocateBuffer(c, d) => AllocateRoundTrip(c, d);
      case WriteBuffer(b, o, n, data) => TransferReads(b, o, n, data, Payload(body));
      case ReadBuffer(b, o, n) => TransferReads(b, o, n, [], Payload(body));
      case LoadProgram(c, f, t, r, a) => LoadRoundTrip(c, f, t, r, a);
      case Submit(q, p, t, bs) => SubmitRoundTrip(q, p, t, bs);
      case _ => ObjectBodyRoundTrip(body);
    }
  }

  lemma HeaderReads(opcode: nat, payload: nat, id: nat, rest: seq<Byte>)
    requires opcode < U16 && payload < U32 && id < U64
    ensures var s := Header(opcode, payload, id, rest);
            && |s| == 16 + |rest| && s[16..] == rest
            && Field(s, 0, 2) == opcode && Field(s, 2, 2) == 0 && Field(s, 4, 4) == payload && Field(s, 8, 8) == id
  {
    hide LeBytes, LeValue, Pow256, Put, Field;
    Widths();
    var s3 := Put(8, id, rest);
    PutReads(8, id, rest);
    var s2 := Put(4, payload, s3);
    PutReads(4, payload, s3);
    var s1 := Put(2, 0, s2);
    PutReads(2, 0, s2);
    var s := Put(2, opcode, s1);
    PutReads(2, opcode, s1);
    assert s[16..] == s1[14..] == s2[12..] == s3[8..];
  }

  /** Every valid request decodes back from its encoding. */
  lemma EncodedDecodes(r: Request)
    requires ValidRequest(r)
    ensures DecodeRequest(Frame(r)) == Ok(r) && |Frame(r)| == FrameLen(r).value
  {
    hide Put, Field, Header, DecodeBody, PayloadLen, Payload, TypedBody;
    BodyRoundTrip(r.body);
    HeaderReads(Opcode(r.body), |Payload(r.body)|, r.id, Payload(r.body));
  }

  // ------------------------------------------------------------------------------------------
  // Every accepted byte string re-encodes to itself.

  lemma {:induction false} WordsCanonical(s: seq<Byte>, off: nat, n: nat)
    requires off + 4 * n <= |s|
    ensures Words(ReadWords(s, off, n), s[off + 4 * n..]) == s[off..]
    ensures forall i | 0 <= i < n :: ReadWords(s, off, n)[i] < U32
    decreases n
  {
    hide Field, Put;
    if n > 0 {
      Widths();
      WordsCanonical(s, off + 4, n - 1);
      Peel(s, off, 4);
      assert ReadWords(s, off, n)[1..] == ReadWords(s, off + 4, n - 1);
    }
  }

  lemma BindingPeels(s: seq<Byte>, off: nat)
    requires off + 32 <= |s| && s[off + 29..off + 32] == Zeros(3)
    ensures TypedBinding(BindingAt(s, off))
    ensures var b := BindingAt(s, off);
            s[off..] == Put(8, b.buffer, Put(8, b.offset, Put(8, b.bytes, Put(4, b.slot, Put(1, b.access,
                          Put(3, 0, s[off + 32..]))))))
  {
    hide LeBytes, LeValue, Pow256, Put;
    Widths();
    ZeroField(s, off + 29, 3);
    Peel(s, off, 8);
    Peel(s, off + 8, 8);
    Peel(s, off + 16, 8);
    Peel(s, off + 24, 4);
    Peel(s, off + 28, 1);
    Peel(s, off + 29, 3);
  }

  lemma {:induction false} BindingsCanonical(s: seq<Byte>, off: nat, n: nat)
    requires off + 32 * n == |s| && ReservedZero(s, off, n)
    ensures BindingBytes(ReadBindings(s, off, n)) == s[off..]
    ensures forall i | 0 <= i < n :: TypedBinding(ReadBindings(s, off, n)[i])
    decreases n
  {
    hide Put, Field, BindingAt;
    if n > 0 {
      BindingsCanonical(s, off + 32, n - 1);
      BindingPeels(s, off);
      assert ReadBindings(s, off, n)[1..] == ReadBindings(s, off + 32, n - 1);
    }
  }

  lemma ObjectCanonical(p: seq<Byte>)
    requires DecodeObject(p).Ok?
    ensures Put(8, DecodeObject(p).value, []) == p && DecodeObject(p).value < U64
  {
    Widths();
    Peel(p, 0, 8);
  }

  lemma AllocateCanonical(p: seq<Byte>)
    requires DecodeBody(0x0200, p).Ok?
    ensures Payload(DecodeBody(0x0200, p).value) == p && TypedBody(DecodeBody(0x0200, p).value)
  {
    hide LeBytes, LeValue, Pow256, Put;
    Widths();
    ZeroField(p, 25, 7);
    Peel(p, 0, 8);
    Peel(p, 8, 8);
    Peel(p, 16, 8);
    Peel(p, 24, 1);
    Peel(p, 25, 7);
    Peel(p, 32, 4);
    Peel(p, 36, 4);
  }

  lemma TransferCanonical(p: seq<Byte>)
    requires |p| >= 24
    ensures Put(8, Field(p, 0, 8), Put(8, Field(p, 8, 8), Put(8, Field(p, 16, 8), p[24..]))) == p
    ensures Field(p, 0, 8) < U64 && Field(p, 8, 8) < U64 && Field(p, 16, 8) < U64
  {
    hide LeBytes, LeValue, Pow256, Put;
    Widths();
    Peel(p, 0, 8);
    Peel(p, 8, 8);
    Peel(p, 16, 8);
  }

  lemma LoadCanonical(p: seq<Byte>)
    requires DecodeBody(0x0300, p).Ok?
    ensures Payload(DecodeBody(0x0300, p).value) == p && TypedBody(DecodeBody(0x0300, p).value)
  {
    hide LeBytes, LeValue, Pow256, Put, Words, ReadWords;
    Widths();
    Peel(p, 0, 8);
    Peel(p, 8, 4);
    Peel(p, 12, 4);
    WordsCanonical(p, 16, 12);
    Peel(p, 64, 8);
    Peel(p, 72, 8);
  }

  lemma SubmitCanonical(p: seq<Byte>)
    requires DecodeSubmit(p).Ok?
    ensures DecodeSubmit(p).value.Submit?
    ensures Payload(DecodeSubmit(p).value) == p && TypedBody(DecodeSubmit(p).value)
  {
    hide LeBytes, LeValue, Pow256, Put, BindingBytes, ReadBindings, ReservedZero;
    Widths();
    Peel(p, 0, 8);
    Peel(p, 8, 8);
    Peel(p, 16, 4);
    Peel(p, 20, 4);
    Peel(p, 24, 8);
    BindingsCanonical(p, 32, Field(p, 16, 4));
  }

  lemma ContextAndQueueCanonical(p: seq<Byte>)
    ensures DecodeBody(0x0100, p).Ok? ==> Payload(CreateContext) == p
    ensures DecodeBody(0x0400, p).Ok? ==> Payload(CreateQueue(Field(p, 0, 8))) == p && Field(p, 0, 8) < U64
  {
    hide LeBytes, LeValue, Pow256, Put;
    Widths();
    if |p| == 8 {
      Peel(p, 0, 4);
      Peel(p, 4, 4);
    }
    if |p| == 16 {
      Peel(p, 0, 8);
      Peel(p, 8, 4);
      Peel(p, 12, 4);
    }
  }

  lemma BodyCanonical(opcode: nat, p: seq<Byte>)
    requires KnownOpcode(opcode) && DecodeBody(opcode, p).Ok?
    ensures var body := DecodeBody(opcode, p).value; Opcode(body) == opcode && Payload(body) == p && TypedBody(body)
  {
    hide Put, Field, Words, ReadWords, BindingBytes, ReadBindings, DecodeObject, DecodeSubmit;
    if opcode == 0x0001 {
    } else if opcode == 0x0100 || opcode == 0x0400 {
      ContextAndQueueCanonical(p);
    } else if opcode == 0x0200 {
      AllocateCanonical(p);
    } else if opcode == 0x0202 || opcode == 0x0203 {
      TransferCanonical(p);
    } else if opcode == 0x0300 {
      LoadCanonical(p);
    } else if opcode == 0x0500 {
      SubmitCanonical(p);
    } else {
      ObjectCanonical(p);
    }
  }

  lemma HeaderCanonical(s: seq<Byte>)
    requires |s| >= 16 && Field(s, 2, 2) == 0
    ensures Header(Field(s, 0, 2), Field(s, 4, 4), Field(s, 8, 8), s[16..]) == s && Field(s, 8, 8) < U64
  {
    hide LeBytes, LeValue, Pow256, Put;
    Widths();
    Peel(s, 0, 2);
    Peel(s, 2, 2);
    Peel(s, 4, 4);
    Peel(s, 8, 8);
  }

  /** Every accepted byte string is the encoding of the request it decodes to. */
  lemma DecodedReencodes(s: seq<Byte>)
    requires DecodeRequest(s).Ok?
    ensures ValidRequest(DecodeRequest(s).value) && Frame(DecodeRequest(s).value) == s
  {
    hide Put, Field, Header, DecodeBody, PayloadLen, Payload, TypedBody;
    BodyCanonical(Field(s, 0, 2), s[16..]);
    HeaderCanonical(s);
  }

  /** Valid requests and accepted frames correspond one to one. */
  lemma CodecIsBijective(r: Request, s: seq<Byte>)
    ensures ValidRequest(r) && Frame(r) == s <==> DecodeRequest(s) == Ok(r)
  {
    hide DecodeRequest, Frame, ValidRequest;
    if ValidRequest(r) && Frame(r) == s { EncodedDecodes(r); }
    if DecodeRequest(s) == Ok(r) { DecodedReencodes(s); }
  }

  // ------------------------------------------------------------------------------------------
  // Encoding in place.

  /** The bytes a write in progress is heading for: `goal` replaces `under` between `head` and `tail`. */
  datatype Region = Region(head: seq<Byte>, goal: seq<Byte>, under: seq<Byte>, tail: seq<Byte>)

  /** The first `k` bytes of the goal are in place and the rest still holds what was there before. */
  ghost predicate Filled(s: seq<Byte>, f: Region, k: nat) {
    |f.under| == |f.goal| && k <= |f.goal| && s == f.head + f.goal[..k] + f.under[k..] + f.tail
  }

  lemma OverwriteMiddle(a: seq<Byte>, b: seq<Byte>, c: seq<Byte>, data: seq<Byte>)
    requires |data| <= |b|
    ensures Overwrite(a + b + c, |a|, data) == a + data + b[|data|..] + c
  {
    var s := a + b + c;
    assert s[..|a|] == a;
    assert s[|a| + |data|..] == b[|data|..] + c;
  }

  lemma FillNext(s: seq<Byte>, f: Region, k: nat, data: seq<Byte>)
    requires Filled(s, f, k) && k + |data| <= |f.goal| && f.goal[k..k + |data|] == data
    ensures |f.head| + k + |data| <= |s|
    ensures Filled(Overwrite(s, |f.head| + k, data), f, k + |data|)
  {
    hide Overwrite;
    OverwriteMiddle(f.head + f.goal[..k], f.under[k..], f.tail, data);
    assert f.under[k..][|data|..] == f.under[k + |data|..];
    assert f.head + f.goal[..k] + data == f.head + f.goal[..k + |data|];
  }

  method WriteSlice(output: array<Byte>, offset: nat, value: seq<Byte>) returns (r: Result<(), Error>)
    modifies output
    ensures r == if offset + |value| <= output.Length then Ok(()) else Err(OutputTooSmall)
    ensures r.Ok? ==> output[..] == Overwrite(old(output[..]), offset, value)
    ensures r.Err? ==> output[..] == old(output[..])
  {
    if offset + |value| > output.Length { return Err(OutputTooSmall); }
    forall i | 0 <= i < |value| {
      output[offset + i] := value[i];
    }
    return Ok(());
  }

  /** Writes the field at `offset` of the region starting at `base`. */
  method WriteInt(output: array<Byte>, base: nat, offset: nat, width: nat, value: nat, ghost f: Region)
    requires Filled(output[..], f, offset) && base == |f.head| && offset + width <= |f.goal|
    requires Field(f.goal, offset, width) == value
    modifies output
    ensures Filled(output[..], f, offset + width)
  {
    hide LeValue, LeBytes, Filled;
    LeCanonical(f.goal[offset..offset + width]);
    FillNext(output[..], f, offset, LeBytes(width, value));
    var r := WriteSlice(output, base + offset, LeBytes(width, value));
    assert r.Ok?;
  }

  lemma {:induction false} WordAt(s: seq<Byte>, off: nat, n: nat, i: nat)
    requires off + 4 * n <= |s| && i < n
    ensures ReadWords(s, off, n)[i] == Field(s, off + 4 * i, 4)
    decreases n
  {
    if i > 0 { WordAt(s, off + 4, n - 1, i - 1); }
  }

  lemma {:induction false} BindingIndex(s: seq<Byte>, off: nat, n: nat, i: nat)
    requires off + 32 * n <= |s| && i < n
    ensures ReadBindings(s, off, n)[i] == BindingAt(s, off + 32 * i)
    ensures ReservedZero(s, off, n) ==> s[off + 32 * i + 29..off + 32 * i + 32] == Zeros(3)
    decreases n
  {
    hide Field;
    if i > 0 { BindingIndex(s, off + 32, n - 1, i - 1); }
  }

  method EncodeBinding(b: Binding, output: array<Byte>, base: nat, offset: nat, ghost f: Region)
    requires Filled(output[..], f, offset) && base == |f.head| && offset + 32 <= |f.goal| && f.under == Zeros(|f.goal|)
    requires BindingAt(f.goal, offset) == b && f.goal[offset + 29..offset + 32] == Zeros(3)
    modifies output
    ensures Filled(output[..], f, offset + 32)
  {
    hide Filled, Field;
    WriteInt(output, base, offset, 8, b.buffer, f);
    WriteInt(output, base, offset + 8, 8, b.offset, f);
    WriteInt(output, base, offset + 16, 8, b.bytes, f);
    WriteInt(output, base, offset + 24, 4, b.slot, f);
    WriteInt(output, base, offset + 28, 1, b.access, f);
    Settle(output[..], f, offset + 29, offset + 32);
  }

  /** Bytes the goal leaves zero need no write in a cleared region. */
  lemma Settle(s: seq<Byte>, f: Region, k: nat, end: nat)
    requires Filled(s, f, k) && k <= end <= |f.goal| && f.under == Zeros(|f.goal|) && f.goal[k..end] == Zeros(end - k)
    ensures Filled(s, f, end)
  {
    assert f.under[k..] == Zeros(end - k) + f.under[end..];
    assert f.goal[..end] == f.goal[..k] + f.goal[k..end];
  }

  method EncodeAllocate(body: Body, output: array<Byte>, base: nat, ghost f: Region)
    requires body.AllocateBuffer? && TypedBody(body) && f.goal == Payload(body) && f.under == Zeros(|f.goal|)
    requires Filled(output[..], f, 0) && base == |f.head|
    modifies output
    ensures Filled(output[..], f, |f.goal|)
  {
    hide Filled, Field, Payload, Put;
    AllocateRoundTrip(body.context, body.desc);
    WriteInt(output, base, 0, 8, body.context, f);
    WriteInt(output, base, 8, 8, body.desc.bytes, f);
    WriteInt(output, base, 16, 8, body.desc.alignment, f);
    WriteInt(output, base, 24, 1, body.desc.domain, f);
    Settle(output[..], f, 25, 32);
    WriteInt(output, base, 32, 4, body.desc.usage, f);
    ZeroField(f.goal, 36, 4);
    Settle(output[..], f, 36, 40);
  }

  method EncodeTransfer(buffer: nat, offset: nat, bytes: nat, data: seq<Byte>, output: array<Byte>, base: nat,
                        ghost f: Region)
    requires buffer < U64 && offset < U64 && bytes < U64
             && f.goal == Put(8, buffer, Put(8, offset, Put(8, bytes, data)))
    requires Filled(output[..], f, 0) && base == |f.head|
    modifies output
    ensures Filled(output[..], f, |f.goal|)
  {
    hide Filled, Field, Put;
    TransferReads(buffer, offset, bytes, data, f.goal);
    WriteInt(output, base, 0, 8, buffer, f);
    WriteInt(output, base, 8, 8, offset, f);
    WriteInt(output, base, 16, 8, bytes, f);
    FillNext(output[..], f, 24, data);
    var r := WriteSlice(output, base + 24, data);
    assert r.Ok?;
  }

  method EncodeLoad(body: Body, output: array<Byte>, base: nat, ghost f: Region)
    requires body.LoadProgram? && TypedBody(body) && f.goal == Payload(body) && f.under == Zeros(|f.goal|)
    requires Filled(output[..], f, 0) && base == |f.head|
    modifies output
    ensures Filled(output[..], f, |f.goal|)
  {
    hide Filled, Field, Payload, Put, Words, ReadWords;
    LoadRoundTrip(body.context, body.format, body.target, body.resident, body.artifact);
    WriteInt(output, base, 0, 8, body.context, f);
    WriteInt(output, base, 8, 4, body.format, f);
    ZeroField(f.goal, 12, 4);
    Settle(output[..], f, 12, 16);
    for index := 0 to 12
      invariant Filled(output[..], f, 16 + 4 * index)
    {
      WordAt(f.goal, 16, 12, index);
      WriteInt(output, base, 16 + 4 * index, 4, body.target[index], f);
    }
    WriteInt(output, base, 64, 8, |body.artifact|, f);
    WriteInt(output, base, 72, 8, body.resident, f);
    assert f.goal[80..|f.goal|] == f.goal[80..];
    FillNext(output[..], f, 80, body.artifact);
    var r := WriteSlice(output, base + 80, body.artifact);
    assert r.Ok?;
  }

  method EncodeSubmit(body: Body, output: array<Byte>, base: nat, ghost f: Region)
    requires body.Submit? && TypedBody(body) && 1 <= |body.bindings| <= HARD_MAX_BINDINGS
    requires f.goal == Payload(body) && f.under == Zeros(|f.goal|)
    requires Filled(output[..], f, 0) && base == |f.head|
    modifies output
    ensures Filled(output[..], f, |f.goal|)
  {
    hide Filled, Field, Payload, Put, BindingBytes, ReadBindings, ReservedZero;
    SubmitRoundTrip(body.queue, body.program, body.timeout, body.bindings);
    WriteInt(output, base, 0, 8, body.queue, f);
    WriteInt(output, base, 8, 8, body.program, f);
    WriteInt(output, base, 16, 4, |body.bindings|, f);
    ZeroField(f.goal, 20, 4);
    Settle(output[..], f, 20, 24);
    WriteInt(output, base, 24, 8, body.timeout, f);
    for index := 0 to |body.bindings|
      invariant Filled(output[..], f, 32 + 32 * index)
    {
      BindingIndex(f.goal, 32, |body.bindings|, index);
      EncodeBinding(body.bindings[index], output, base, 32 + 32 * index, f);
    }
  }

  method EncodeObject(id: nat, output: array<Byte>, base: nat, ghost f: Region)
    requires id < U64 && f.goal == Put(8, id, []) && Filled(output[..], f, 0) && base == |f.head|
    modifies output
    ensures Filled(output[..], f, |f.goal|)
  {
    Widths();
    PutReads(8, id, []);
    WriteInt(output, base, 0, 8, id, f);
  }

  method EncodeQueue(context: nat, output: array<Byte>, base: nat, ghost f: Region)
    requires context < U64 && f.goal == Payload(CreateQueue(context)) && f.under == Zeros(|f.goal|)
    requires Filled(output[..], f, 0) && base == |f.head|
    modifies output
    ensures Filled(output[..], f, |f.goal|)
  {
    hide Filled, Field, Payload, Put;
    ContextAndQueueRoundTrip(context);
    WriteInt(output, base, 0, 8, context, f);
    ZeroField(f.goal, 8, 4);
    Settle(output[..], f, 8, 12);
    ZeroField(f.goal, 12, 4);
    Settle(output[..], f, 12, 16);
  }

  method EncodeBody(body: Body, output: array<Byte>, base: nat, end: nat, ghost f: Region)
    requires TypedBody(body) && PayloadLen(body).Ok? && base + |Payload(body)| == end <= output.Length
    requires f == Region(output[..base], Payload(body), Zeros(end - base), output[end..])
    modifies output
    ensures output[..] == f.head + Payload(body) + f.tail
  {
    hide Field, Put, Words, BindingBytes, Filled, IsPowerOfTwo, WellFormed;
    forall i | base <= i < end {
      output[i] := 0;
    }
    Untouched(output[..], f);
    match body {
      case GetDeviceInfo =>
      case CreateContext =>
        PutZeros();
        Settle(output[..], f, 0, 8);
      case CreateQueue(c) => EncodeQueue(c, output, base, f);
      case AllocateBuffer(_, _) => EncodeAllocate(body, output, base, f);
      case WriteBuffer(b, o, n, data) => EncodeTransfer(b, o, n, data, output, base, f);
      case ReadBuffer(b, o, n) => EncodeTransfer(b, o, n, [], output, base, f);
      case LoadProgram(_, _, _, _, _) => EncodeLoad(body, output, base, f);
      case Submit(_, _, _, _) => EncodeSubmit(body, output, base, f);
      case DestroyContext(o) => EncodeObject(o, output, base, f);
      case FreeBuffer(o) => EncodeObject(o, output, base, f);
      case UnloadProgram(o) => EncodeObject(o, output, base, f);
      case DestroyQueue(o) => EncodeObject(o, output, base, f);
      case PollEvent(o) => EncodeObject(o, output, base, f);
      case CancelEvent(o) => EncodeObject(o, output, base, f);
      case DestroyEvent(o) => EncodeObject(o, output, base, f);
    }
    FilledIsWritten(output[..], f);
  }

  lemma PutZeros()
    ensures |Put(4, 0, Put(4, 0, []))| == 8 && Put(4, 0, Put(4, 0, []))[0..8] == Zeros(8)
  {
    ZeroValue(4);
  }

  lemma FilledIsWritten(s: seq<Byte>, f: Region)
    requires Filled(s, f, |f.goal|)
    ensures s == f.head + f.goal + f.tail
  {}

  /** Encodes a request at the start of `output`, touching nothing past the frame; a request that
      may not be encoded or does not fit leaves `output` as it was. */
  method Encode(r: Request, output: array<Byte>) returns (n: Result<nat, Error>)
    requires r.id < U64 && TypedBody(r.body)
    modifies output
    ensures n == if FrameLen(r).Ok? && FrameLen(r).value > output.Length then Err(OutputTooSmall) else FrameLen(r)
    ensures n.Ok? ==> n.value == |Frame(r)| && output[..] == Frame(r) + old(output[n.value..])
    ensures n.Err? ==> output[..] == old(output[..])
  {
    hide PayloadLen, TypedBody, Payload, Put, Field, Filled, Header;
    if r.id == 0 { return Err(Invalid); }
    var len := PayloadLen(r.body);
    if len.Err? { return Err(len.error); }
    var total := REQUEST_HEADER_BYTES + len.value;
    if total > HARD_MAX_REQUEST_BYTES { return Err(TooLarge); }
    if output.Length < total { return Err(OutputTooSmall); }
    BodyRoundTrip(r.body);
    HeaderReads(Opcode(r.body), len.value, r.id, []);
    ghost var rest := output[16..];
    ghost var f := Region([], Header(Opcode(r.body), len.value, r.id, []), output[..16], rest);
    Untouched(output[..], f);
    WriteInt(output, 0, 0, 2, Opcode(r.body), f);
    WriteInt(output, 0, 2, 2, 0, f);
    WriteInt(output, 0, 4, 4, len.value, f);
    WriteInt(output, 0, 8, 8, r.id, f);
    FilledIsWritten(output[..], f);
    ghost var h := Region(output[..16], Payload(r.body), Zeros(total - 16), output[total..]);
    EncodeBody(r.body, output, 16, total, h);
    HeaderFirst(Opcode(r.body), len.value, r.id, Payload(r.body));
    assert h.head == f.goal && h.tail == old(output[total..]);
    return Ok(total);
  }

  lemma Untouched(s: seq<Byte>, f: Region)
    requires |f.under| == |f.goal| && s == f.head + f.under + f.tail
    ensures Filled(s, f, 0)
  {}

  lemma HeaderFirst(opcode: nat, payload: nat, id: nat, rest: seq<Byte>)
    ensures Header(opcode, payload, id, rest) == Header(opcode, payload, id, []) + rest
  {}
}
