/** The guest's response decoders, against everything the engine can write. */
module Guests {
  import opened Bytes
  import opened ObjectTables
  import opened Wire
  import opened Ledgers
  import opened Responses

  // ------------------------------------------------------------------------------------------
  // Device information.

  datatype DeviceInfo = DeviceInfo(uuid: seq<Byte>, class': nat, vendor: nat, device: nat, capabilities: nat,
                                   maxContexts: nat, maxBuffers: nat, maxPrograms: nat, maxQueues: nat, maxEvents: nat,
                                   maxBindings: nat, maxBufferBytes: nat, maxArtifactBytes: nat)

  predicate TypedInfo(i: DeviceInfo) {
    && |i.uuid| == 16 && i.class' < U16 && i.vendor < U32 && i.device < U32 && i.capabilities < U64
    && i.maxContexts < U32 && i.maxBuffers < U32 && i.maxPrograms < U32 && i.maxQueues < U32 && i.maxEvents < U32
    && i.maxBindings < U32 && i.maxBufferBytes < U64 && i.maxArtifactBytes < U64
  }

  predicate ReservedCapability(capabilities: nat) { UsageBit(capabilities, 8) || UsageBit(capabilities, 16) }

  predicate SomeMemoryDomain(capabilities: nat) {
    UsageBit(capabilities, 1) || UsageBit(capabilities, 2) || UsageBit(capabilities, 32)
  }

  /** What the device checks before it starts: provider metadata and the decoder's binding limit. */
  predicate ServedInfo(i: DeviceInfo) {
    && TypedInfo(i) && !ReservedCapability(i.capabilities) && SomeMemoryDomain(i.capabilities)
    && 0 < i.maxContexts && 0 < i.maxBuffers && 0 < i.maxPrograms && 0 < i.maxQueues && 0 < i.maxEvents
    && 1 <= i.maxBindings <= 4096 && 0 < i.maxBufferBytes && 0 < i.maxArtifactBytes
  }

  function LimitBytes(i: DeviceInfo): seq<Byte> {
    Put(4, i.maxContexts, Put(4, i.maxBuffers, Put(4, i.maxPrograms, Put(4, i.maxQueues, Put(4, i.maxEvents,
      Put(4, i.maxBindings, Put(8, i.maxBufferBytes, Put(8, i.maxArtifactBytes, []))))))))
  }

  function IdentityBytes(i: DeviceInfo, rest: seq<Byte>): seq<Byte> {
    Put(2, i.class', Put(2, 0, Put(4, i.vendor, Put(4, i.device, Put(8, i.capabilities, rest)))))
  }

  function InfoBytes(i: DeviceInfo): seq<Byte> { i.uuid + IdentityBytes(i, LimitBytes(i)) }

  datatype ResponseError =
    | WrongUsed | OverLimit | WrongRequest | WrongFlags | WrongLength | BadEncoding | ZeroObject | UnknownState
    | WrongStatus | BadDeviceInfo

  function InfoAt(s: seq<Byte>, off: nat): DeviceInfo
    requires off + 76 <= |s|
  {
    DeviceInfo(s[off..off + 16], Field(s, off + 16, 2), Field(s, off + 20, 4), Field(s, off + 24, 4),
               Field(s, off + 28, 8), Field(s, off + 36, 4), Field(s, off + 40, 4), Field(s, off + 44, 4),
               Field(s, off + 48, 4), Field(s, off + 52, 4), Field(s, off + 56, 4), Field(s, off + 60, 8),
               Field(s, off + 68, 8))
  }

  function DecodeInfo(s: seq<Byte>, off: nat, maxRequest: nat): Result<DeviceInfo, ResponseError>
    requires off + 76 <= |s|
  {
    var i := InfoAt(s, off);
    if Field(s, off + 18, 2) != 0 then Err(BadDeviceInfo)
    else if ReservedCapability(i.capabilities) || !SomeMemoryDomain(i.capabilities) then Err(BadDeviceInfo)
    else if i.maxContexts == 0 || i.maxBuffers == 0 || i.maxPrograms == 0 || i.maxQueues == 0 || i.maxEvents == 0 then
      Err(BadDeviceInfo)
    else if !(1 <= i.maxBindings <= 4096) then Err(BadDeviceInfo)
    else if i.maxBufferBytes == 0 || i.maxArtifactBytes == 0 then Err(BadDeviceInfo)
    else if 96 + i.maxArtifactBytes > maxRequest then Err(BadDeviceInfo)
    else Ok(i)
  }

  // ------------------------------------------------------------------------------------------
  // Event states.

  /** An event state as the guest sees it: a failure carries its wire status. */
  datatype GuestState = GuestPending | GuestComplete | GuestFailed(status: nat) | GuestCancelled

  function Seen(state: Wire.EventState): GuestState {
    match state
    case Pending => GuestPending
    case Complete => GuestComplete
    case Failed(e) => GuestFailed(StatusOfBackend(e))
    case Cancelled => GuestCancelled
  }

  function StateBytes(state: GuestState): seq<Byte> {
    match state
    case GuestPending => Put(2, 0, Put(2, OK, Put(4, 0, [])))
    case GuestComplete => Put(2, 1, Put(2, OK, Put(4, 0, [])))
    case GuestFailed(status) => Put(2, 2, Put(2, status, Put(4, 0, [])))
    case GuestCancelled => Put(2, 3, Put(2, OK, Put(4, 0, [])))
  }

  function DecodeState(s: seq<Byte>, off: nat): Result<GuestState, ResponseError>
    requires off + 8 <= |s|
  {
    var state, error := Field(s, off, 2), Field(s, off + 2, 2);
    if Field(s, off + 4, 4) != 0 then Err(BadEncoding)
    else if state > 3 then Err(UnknownState)
    else if state == 0 && error == OK then Ok(GuestPending)
    else if state == 1 && error == OK then Ok(GuestComplete)
    else if state == 2 && error != OK then Ok(GuestFailed(error))
    else if state == 3 && error == OK then Ok(GuestCancelled)
    else Err(WrongStatus)
  }

  lemma ThreeFields(s: seq<Byte>, off: nat, a: nat, b: nat, rest: seq<Byte>)
    requires a < U16 && b < U16 && off <= |s| && s[off..] == Put(2, a, Put(2, b, Put(4, 0, rest)))
    ensures off + 8 <= |s| && Field(s, off, 2) == a && Field(s, off + 2, 2) == b && Field(s, off + 4, 4) == 0
  {
    hide LeBytes, LeValue, Pow256, Put, Field;
    Widths();
    PutReads(4, 0, rest);
    PutReads(2, b, Put(4, 0, rest));
    PutReads(2, a, Put(2, b, Put(4, 0, rest)));
    assert s[off..] == s[off..|s|];
    SubField(s, off, |s|, 0, 2);
    SubField(s, off, |s|, 2, 2);
    SubField(s, off, |s|, 4, 4);
  }

  /** An eight-byte payload decodes to a state exactly when it is that state's encoding. */
  lemma StateCodecIsBijective(s: seq<Byte>, state: GuestState)
    requires |s| == 8
    ensures DecodeState(s, 0) == Ok(state)
            <==> (state.GuestFailed? ==> OK < state.status < U16) && s == StateBytes(state)
  {
    hide LeBytes, LeValue, Pow256, Put, Field;
    Widths();
    assert s[0..] == s;
    if (state.GuestFailed? ==> OK < state.status < U16) && s == StateBytes(state) {
      match state {
        case GuestPending => ThreeFields(s, 0, 0, OK, []);
        case GuestComplete => ThreeFields(s, 0, 1, OK, []);
        case GuestFailed(status) => ThreeFields(s, 0, 2, status, []);
        case GuestCancelled => ThreeFields(s, 0, 3, OK, []);
      }
    } else if DecodeState(s, 0) == Ok(state) {
      Peel(s, 0, 2);
      Peel(s, 2, 2);
      Peel(s, 4, 4);
    }
  }

  // ------------------------------------------------------------------------------------------
  // Responses.

  datatype GuestOutcome =
    | DeviceError(status: nat) | Discovered(info: DeviceInfo) | Created(id: nat) | Observed(state: GuestState)
    | Read(bytes: nat) | Done | Admitted(event: nat) | Uncertain(status: nat, event: nat)

  /** A response to everything but SUBMIT: no payload on failure, exactly `expected` bytes on success. */
  function Ordinary(status: nat, payload: nat, expected: nat, success: Result<GuestOutcome, ResponseError>)
    : Result<GuestOutcome, ResponseError>
  {
    if status != OK then
      if payload != 0 then Err(WrongLength) else Ok(GuestOutcome.DeviceError(status))
    else if payload != expected then Err(WrongLength)
    else success
  }

  function ObjectAt(s: seq<Byte>): Result<nat, ResponseError> {
    if |s| < 24 then Err(BadEncoding)
    else if Field(s, 16, 8) == 0 then Err(ZeroObject)
    else Ok(Field(s, 16, 8))
  }

  function Fetch(s: seq<Byte>): Result<GuestOutcome, ResponseError> {
    var id :- ObjectAt(s);
    Ok(Created(id))
  }

  function DecodeSubmitted(s: seq<Byte>, status: nat, payload: nat): Result<GuestOutcome, ResponseError> {
    if status == OK then
      if payload != 8 then Err(WrongLength)
      else
        var id :- ObjectAt(s);
        Ok(Admitted(id))
    else if payload == 0 then Ok(GuestOutcome.DeviceError(status))
    else if !KnownStatus(status) then Err(WrongLength)
    else if payload != 8 then Err(WrongLength)
    else
      var id :- ObjectAt(s);
      Ok(GuestOutcome.Uncertain(status, id))
  }

  /** The decoder of one pending operation; `s` is the response buffer. */
  function DecodeOperation(pending: Body, s: seq<Byte>, status: nat, payload: nat, maxRequest: nat)
    : Result<GuestOutcome, ResponseError>
  {
    match pending
    case GetDeviceInfo =>
      Ordinary(status, payload, 76,
               if |s| < 92 then Err(BadEncoding)
               else match DecodeInfo(s, 16, maxRequest) case Ok(i) => Ok(Discovered(i)) case Err(e) => Err(e))
    case CreateContext => Ordinary(status, payload, 8, Fetch(s))
    case AllocateBuffer(_, _) => Ordinary(status, payload, 8, Fetch(s))
    case LoadProgram(_, _, _, _, _) => Ordinary(status, payload, 8, Fetch(s))
    case CreateQueue(_) => Ordinary(status, payload, 8, Fetch(s))
    case Submit(_, _, _, _) => DecodeSubmitted(s, status, payload)
    case PollEvent(_) =>
      Ordinary(status, payload, 8,
               if |s| < 24 then Err(BadEncoding)
               else match DecodeState(s, 16) case Ok(x) => Ok(Observed(x)) case Err(e) => Err(e))
    case ReadBuffer(_, _, bytes) => Ordinary(status, payload, bytes, Ok(Read(bytes)))
    case _ => Ordinary(status, payload, 0, Ok(Done))
  }

  function ValidateResponse(pending: Request, s: seq<Byte>, used: nat, maxRequest: nat, maxResponse: nat)
    : Result<GuestOutcome, ResponseError>
    requires 16 <= |s|
  {
    if used < 16 then Err(WrongUsed)
    else if used > maxResponse then Err(OverLimit)
    else if Field(s, 8, 8) != pending.id then Err(WrongRequest)
    else if Field(s, 2, 2) != 0 then Err(WrongFlags)
    else if 16 + Field(s, 4, 4) != used then Err(WrongUsed)
    else DecodeOperation(pending.body, s, Field(s, 0, 2), Field(s, 4, 4), maxRequest)
  }

  // ------------------------------------------------------------------------------------------
  // What the engine writes, and what the guest makes of it.

  /** The payload bytes of an engine response. */
  function Sent(p: Payload, info: DeviceInfo, data: seq<Byte>): seq<Byte> {
    match p
    case NoPayload => []
    case ObjectPayload(id) => Put(8, Raw(id), [])
    case InfoPayload => InfoBytes(info)
    case StatePayload(state) => StateBytes(Seen(state))
    case DataPayload(_) => data
  }

  /** The outcome a response stands for. */
  function Meaning(body: Body, status: nat, p: Payload, info: DeviceInfo): GuestOutcome {
    match p
    case ObjectPayload(id) =>
      if !body.Submit? then Created(Raw(id))
      else if status == OK then Admitted(Raw(id))
      else GuestOutcome.Uncertain(status, Raw(id))
    case InfoPayload => Discovered(info)
    case StatePayload(state) => Observed(Seen(state))
    case DataPayload(bytes) => Read(bytes)
    case NoPayload => if status == OK then Done else GuestOutcome.DeviceError(status)
  }

  /** What the guest makes of a response to `body`. */
  function Understood(body: Body, status: nat, p: Payload, info: DeviceInfo, maxRequest: nat)
    : Result<GuestOutcome, ResponseError>
  {
    if p.InfoPayload? && 96 + info.maxArtifactBytes > maxRequest then Err(BadDeviceInfo)
    else Ok(Meaning(body, status, p, info))
  }

  lemma HeaderFields(s: seq<Byte>, status: nat, payload: nat, id: nat, rest: seq<Byte>)
    requires status < U16 && payload < U32 && id < U64 && s == ResponseHeader(status, payload, id) + rest
    ensures Field(s, 0, 2) == status && Field(s, 2, 2) == 0 && Field(s, 4, 4) == payload && Field(s, 8, 8) == id
  {
    hide LeBytes, LeValue, Pow256, Put, Field;
    Widths();
    var h3 := Put(8, id, []);
    PutReads(8, id, []);
    var h2 := Put(4, payload, h3);
    PutReads(4, payload, h3);
    var h1 := Put(2, 0, h2);
    PutReads(2, 0, h2);
    var h := Put(2, status, h1);
    PutReads(2, status, h1);
    assert s[0..16] == h;
    SubField(s, 0, 16, 0, 2);
    SubField(s, 0, 16, 2, 2);
    SubField(s, 0, 16, 4, 4);
    SubField(s, 0, 16, 8, 8);
  }

  lemma LimitReads(i: DeviceInfo)
    requires TypedInfo(i)
    ensures var s := LimitBytes(i);
            && |s| == 40 && Field(s, 0, 4) == i.maxContexts && Field(s, 4, 4) == i.maxBuffers
            && Field(s, 8, 4) == i.maxPrograms && Field(s, 12, 4) == i.maxQueues && Field(s, 16, 4) == i.maxEvents
            && Field(s, 20, 4) == i.maxBindings && Field(s, 24, 8) == i.maxBufferBytes
            && Field(s, 32, 8) == i.maxArtifactBytes
  {
    hide LeBytes, LeValue, Pow256, Put, Field;
    Widths();
    var s7 := Put(8, i.maxArtifactBytes, []);
    PutReads(8, i.maxArtifactBytes, []);
    var s6 := Put(8, i.maxBufferBytes, s7);
    PutReads(8, i.maxBufferBytes, s7);
    var s5 := Put(4, i.maxBindings, s6);
    PutReads(4, i.maxBindings, s6);
    var s4 := Put(4, i.maxEvents, s5);
    PutReads(4, i.maxEvents, s5);
    var s3 := Put(4, i.maxQueues, s4);
    PutReads(4, i.maxQueues, s4);
    var s2 := Put(4, i.maxPrograms, s3);
    PutReads(4, i.maxPrograms, s3);
    var s1 := Put(4, i.maxBuffers, s2);
    PutReads(4, i.maxBuffers, s2);
    PutReads(4, i.maxContexts, s1);
  }

  lemma IdentityReads(i: DeviceInfo, rest: seq<Byte>)
    requires TypedInfo(i)
    ensures var s := IdentityBytes(i, rest);
            && |s| == 20 + |rest| && s[20..] == rest && Field(s, 0, 2) == i.class' && Field(s, 2, 2) == 0
            && Field(s, 4, 4) == i.vendor && Field(s, 8, 4) == i.device && Field(s, 12, 8) == i.capabilities
  {
    hide LeBytes, LeValue, Pow256, Put, Field;
    Widths();
    var s4 := Put(8, i.capabilities, rest);
    PutReads(8, i.capabilities, rest);
    var s3 := Put(4, i.device, s4);
    PutReads(4, i.device, s4);
    var s2 := Put(4, i.vendor, s3);
    PutReads(4, i.vendor, s3);
    var s1 := Put(2, 0, s2);
    PutReads(2, 0, s2);
    var s := Put(2, i.class', s1);
    PutReads(2, i.class', s1);
    assert s[20..] == s1[18..] == s2[16..] == s3[12..] == s4[8..];
  }

  lemma InfoReads(s: seq<Byte>, i: DeviceInfo)
    requires TypedInfo(i) && 16 <= |s| && InfoBytes(i) <= s[16..]
    ensures |InfoBytes(i)| == 76 && 92 <= |s| && InfoAt(s, 16) == i && Field(s, 34, 2) == 0
  {
    hide LeBytes, LeValue, Pow256, Put, Field, LimitBytes, IdentityBytes;
    LimitReads(i);
    IdentityReads(i, LimitBytes(i));
    var identity, limits := IdentityBytes(i, LimitBytes(i)), LimitBytes(i);
    assert s[16..32] == i.uuid;
    assert s[32..52] == identity[0..20];
    assert s[52..92] == limits[0..40] by { assert identity[20..60] == limits; }
    IdentityAt(s, identity);
    LimitsAt(s, limits);
  }

  lemma IdentityAt(s: seq<Byte>, identity: seq<Byte>)
    requires 92 <= |s| && |identity| == 60 && s[32..52] == identity[0..20]
    ensures Field(s, 32, 2) == Field(identity, 0, 2) && Field(s, 34, 2) == Field(identity, 2, 2)
    ensures Field(s, 36, 4) == Field(identity, 4, 4) && Field(s, 40, 4) == Field(identity, 8, 4)
    ensures Field(s, 44, 8) == Field(identity, 12, 8)
  {
    Same(s, 32, 52, identity, 0, 20, 0, 2);
    Same(s, 32, 52, identity, 0, 20, 2, 2);
    Same(s, 32, 52, identity, 0, 20, 4, 4);
    Same(s, 32, 52, identity, 0, 20, 8, 4);
    Same(s, 32, 52, identity, 0, 20, 12, 8);
  }

  lemma LimitsAt(s: seq<Byte>, limits: seq<Byte>)
    requires 92 <= |s| && |limits| == 40 && s[52..92] == limits[0..40]
    ensures Field(s, 52, 4) == Field(limits, 0, 4) && Field(s, 56, 4) == Field(limits, 4, 4)
    ensures Field(s, 60, 4) == Field(limits, 8, 4) && Field(s, 64, 4) == Field(limits, 12, 4)
    ensures Field(s, 68, 4) == Field(limits, 16, 4) && Field(s, 72, 4) == Field(limits, 20, 4)
    ensures Field(s, 76, 8) == Field(limits, 24, 8) && Field(s, 84, 8) == Field(limits, 32, 8)
  {
    Same(s, 52, 92, limits, 0, 40, 0, 4);
    Same(s, 52, 92, limits, 0, 40, 4, 4);
    Same(s, 52, 92, limits, 0, 40, 8, 4);
    Same(s, 52, 92, limits, 0, 40, 12, 4);
    Same(s, 52, 92, limits, 0, 40, 16, 4);
    Same(s, 52, 92, limits, 0, 40, 20, 4);
    Same(s, 52, 92, limits, 0, 40, 24, 8);
    Same(s, 52, 92, limits, 0, 40, 32, 8);
  }

  lemma Same(s: seq<Byte>, a: nat, b: nat, t: seq<Byte>, c: nat, d: nat, off: nat, w: nat)
    requires a + off + w <= b <= |s| && c + off + w <= d <= |t| && s[a..b] == t[c..d]
    ensures Field(s, a + off, w) == Field(t, c + off, w)
  {
    SubField(s, a, b, off, w);
    SubField(t, c, d, off, w);
  }

  lemma ObjectReads(s: seq<Byte>, id: Id)
    requires Encodable(id) && id.slot > 0 && 16 <= |s| && Put(8, Raw(id), []) <= s[16..]
    ensures ObjectAt(s) == Ok(Raw(id))
  {
    hide Raw, FromRaw;
    PackingIsBijective(id, 0);
    Widths();
    PutReads(8, Raw(id), []);
    Same(s, 16, 24, Put(8, Raw(id), []), 0, 8, 0, 8);
  }

  lemma StateReads(s: seq<Byte>, state: Wire.EventState)
    requires 16 <= |s| && StateBytes(Seen(state)) <= s[16..]
    ensures |StateBytes(Seen(state))| == 8 && 24 <= |s| && DecodeState(s, 16) == Ok(Seen(state))
  {
    hide LeBytes, LeValue, Pow256, Put, Field;
    var t := StateBytes(Seen(state));
    assert |t| == 8;
    StateCodecIsBijective(t, Seen(state));
    assert s[16..24] == t[0..8];
    Same(s, 16, 24, t, 0, 8, 0, 2);
    Same(s, 16, 24, t, 0, 8, 2, 2);
    Same(s, 16, 24, t, 0, 8, 4, 4);
  }

  /** The codes of event states: pending 0, complete 1, failed 2 with the status of the error, cancelled 3. */
  lemma StateWords(state: Wire.EventState)
    ensures |StateBytes(Seen(state))| == 8
    ensures Field(StateBytes(Seen(state)), 0, 2)
            == match state case Pending => 0 case Complete => 1 case Failed(_) => 2 case Cancelled => 3
    ensures Field(StateBytes(Seen(state)), 2, 2) == if state.Failed? then StatusOfBackend(state.error) else 0
  {
    hide LeBytes, LeValue, Pow256, Put, Field;
    var t := StateBytes(Seen(state));
    Widths();
    assert t[0..] == t;
    match state {
      case Pending => ThreeFields(t, 0, 0, OK, []);
      case Complete => ThreeFields(t, 0, 1, OK, []);
      case Failed(e) => ThreeFields(t, 0, 2, StatusOfBackend(e), []);
      case Cancelled => ThreeFields(t, 0, 3, OK, []);
    }
  }

  /** Whatever the engine answers, the guest's decoder for that opcode recovers it. Device
      information is the one exception: it is accepted exactly when the largest artifact fits a
      request frame of the configured size. */
  lemma GuestUnderstands(request: Request, status: nat, p: Payload, info: DeviceInfo, data: seq<Byte>,
                         excess: seq<Byte>, maxRequest: nat, maxResponse: nat)
    requires request.id < U64 && ReplyShape(request.body, status, p) && ServedInfo(info)
             && (p.DataPayload? ==> |data| == p.bytes)
    requires 16 + PayloadLength(p) <= maxResponse < U32
    ensures |Sent(p, info, data)| == PayloadLength(p)
    ensures var s := ResponseHeader(status, PayloadLength(p), request.id) + Sent(p, info, data) + excess;
            ValidateResponse(request, s, 16 + PayloadLength(p), maxRequest, maxResponse)
            == Understood(request.body, status, p, info, maxRequest)
  {
    hide LeBytes, LeValue, Pow256, Put, Field, ResponseHeader, InfoBytes, StateBytes, DecodeState, Raw, InfoAt,
         ObjectAt;
    var sent := Sent(p, info, data);
    var s := ResponseHeader(status, PayloadLength(p), request.id) + sent + excess;
    assert s == ResponseHeader(status, PayloadLength(p), request.id) + (sent + excess);
    HeaderFields(s, status, PayloadLength(p), request.id, sent + excess);
    assert sent <= s[16..];
    match p {
      case NoPayload =>
      case DataPayload(_) =>
      case ObjectPayload(id) => ObjectReads(s, id);
      case InfoPayload => InfoReads(s, info);
      case StatePayload(state) => StateReads(s, state);
    }
  }

  // ------------------------------------------------------------------------------------------
  // What the guest accepts, and nothing else.

  function StatusIn(o: GuestOutcome): nat {
    match o
    case DeviceError(status) => status
    case Uncertain(status, _) => status
    case _ => OK
  }

  /** The payload an outcome is read from; data is whatever it is. */
  function BytesIn(o: GuestOutcome, data: seq<Byte>): seq<Byte> {
    match o
    case DeviceError(_) => []
    case Discovered(info) => InfoBytes(info)
    case Created(id) => Put(8, id, [])
    case Observed(state) => StateBytes(state)
    case Read(_) => data
    case Done => []
    case Admitted(event) => Put(8, event, [])
    case Uncertain(_, event) => Put(8, event, [])
  }

  /** The outcomes an operation can have. */
  predicate Expects(body: Body, o: GuestOutcome, maxRequest: nat) {
    match o
    case DeviceError(status) => 0 < status < U16
    case Discovered(info) => body.GetDeviceInfo? && ServedInfo(info) && 96 + info.maxArtifactBytes <= maxRequest
    case Created(id) =>
      0 < id < U64 && (body.CreateContext? || body.AllocateBuffer? || body.LoadProgram? || body.CreateQueue?)
    case Observed(state) => body.PollEvent? && (state.GuestFailed? ==> 0 < state.status < U16)
    case Read(bytes) => body.ReadBuffer? && bytes == body.bytes
    case Done =>
      || body.DestroyContext? || body.FreeBuffer? || body.WriteBuffer? || body.UnloadProgram? || body.DestroyQueue?
      || body.CancelEvent? || body.DestroyEvent?
    case Admitted(event) => body.Submit? && 0 < event < U64
    case Uncertain(status, event) => body.Submit? && KnownStatus(status) && status != OK && 0 < event < U64
  }

  lemma HeaderCanonical(s: seq<Byte>)
    requires 16 <= |s| && Field(s, 2, 2) == 0
    ensures s[..16] == ResponseHeader(Field(s, 0, 2), Field(s, 4, 4), Field(s, 8, 8))
    ensures Field(s, 0, 2) < U16 && Field(s, 4, 4) < U32 && Field(s, 8, 8) < U64
  {
    hide LeBytes, LeValue, Pow256, Put, Field;
    var t := s[0..16];
    SubField(s, 0, 16, 0, 2);
    SubField(s, 0, 16, 2, 2);
    SubField(s, 0, 16, 4, 4);
    SubField(s, 0, 16, 8, 8);
    Peel(t, 0, 2);
    Peel(t, 2, 2);
    Peel(t, 4, 4);
    Peel(t, 8, 8);
    assert t[0..] == t && t[16..] == [];
    FieldBound(s, 0, 2);
    FieldBound(s, 4, 4);
    FieldBound(s, 8, 8);
    Widths();
  }

  lemma FieldBound(s: seq<Byte>, off: nat, w: nat)
    requires off + w <= |s|
    ensures Field(s, off, w) < Pow256(w)
  {
    LeCanonical(s[off..off + w]);
  }

  lemma WordCanonical(s: seq<Byte>)
    requires 24 <= |s|
    ensures s[16..24] == Put(8, Field(s, 16, 8), []) && Field(s, 16, 8) < U64
  {
    hide LeBytes, LeValue, Pow256, Put, Field;
    var t := s[16..24];
    SubField(s, 16, 24, 0, 8);
    Peel(t, 0, 8);
    assert t[0..] == t && t[8..] == [];
    FieldBound(s, 16, 8);
    Widths();
  }

  lemma StateCanonical(s: seq<Byte>, state: GuestState)
    requires 24 <= |s| && DecodeState(s, 16) == Ok(state)
    ensures s[16..24] == StateBytes(state) && (state.GuestFailed? ==> 0 < state.status < U16)
  {
    hide LeBytes, LeValue, Pow256, Put, Field, StateBytes;
    var t := s[16..24];
    SubField(s, 16, 24, 0, 2);
    SubField(s, 16, 24, 2, 2);
    SubField(s, 16, 24, 4, 4);
    StateCodecIsBijective(t, state);
  }

  lemma LimitsCanonical(t: seq<Byte>, i: DeviceInfo)
    requires |t| == 40
    requires i.maxContexts == Field(t, 0, 4) && i.maxBuffers == Field(t, 4, 4) && i.maxPrograms == Field(t, 8, 4)
    requires i.maxQueues == Field(t, 12, 4) && i.maxEvents == Field(t, 16, 4) && i.maxBindings == Field(t, 20, 4)
    requires i.maxBufferBytes == Field(t, 24, 8) && i.maxArtifactBytes == Field(t, 32, 8)
    ensures LimitBytes(i) == t
  {
    hide LeBytes, LeValue, Pow256, Put, Field;
    Peel(t, 0, 4);
    Peel(t, 4, 4);
    Peel(t, 8, 4);
    Peel(t, 12, 4);
    Peel(t, 16, 4);
    Peel(t, 20, 4);
    Peel(t, 24, 8);
    Peel(t, 32, 8);
    assert t[0..] == t && t[40..] == [];
  }

  lemma IdentityCanonical(t: seq<Byte>, i: DeviceInfo)
    requires |t| == 60 && Field(t, 2, 2) == 0
    requires i.class' == Field(t, 0, 2) && i.vendor == Field(t, 4, 4) && i.device == Field(t, 8, 4)
    requires i.capabilities == Field(t, 12, 8)
    ensures IdentityBytes(i, t[20..]) == t
  {
    hide LeBytes, LeValue, Pow256, Put, Field;
    Peel(t, 0, 2);
    Peel(t, 2, 2);
    Peel(t, 4, 4);
    Peel(t, 8, 4);
    Peel(t, 12, 8);
    assert t[0..] == t;
  }

  lemma InfoCanonical(s: seq<Byte>)
    requires 92 <= |s| && Field(s, 34, 2) == 0
    ensures s[16..92] == InfoBytes(InfoAt(s, 16)) && TypedInfo(InfoAt(s, 16))
  {
    hide LeBytes, LeValue, Pow256, Put, Field, LimitBytes, IdentityBytes;
    var i, t := InfoAt(s, 16), s[32..92];
    IdentityAt(s, t);
    LimitsAt(s, s[52..92]);
    IdentityCanonical(t, i);
    LimitsCanonical(s[52..92], i);
    assert t[20..] == s[52..92];
    assert s[16..92] == s[16..32] + t;
    InfoTyped(s);
  }

  lemma InfoTyped(s: seq<Byte>)
    requires 92 <= |s|
    ensures TypedInfo(InfoAt(s, 16))
  {
    hide LeBytes, LeValue, Pow256, Field;
    Widths();
    FieldBound(s, 32, 2);
    FieldBound(s, 36, 4);
    FieldBound(s, 40, 4);
    FieldBound(s, 44, 8);
    FieldBound(s, 52, 4);
    FieldBound(s, 56, 4);
    FieldBound(s, 60, 4);
    FieldBound(s, 64, 4);
    FieldBound(s, 68, 4);
    FieldBound(s, 72, 4);
    FieldBound(s, 76, 8);
    FieldBound(s, 84, 8);
  }

  /** An outcome the guest accepts is one its operation can have, and the response is exactly its
      encoding: header with the request's identifier and no flags, then the payload of that outcome. */
  lemma GuestAcceptsOnly(pending: Request, s: seq<Byte>, used: nat, maxRequest: nat, maxResponse: nat, o: GuestOutcome)
    requires 16 <= |s| && used <= |s| && ValidateResponse(pending, s, used, maxRequest, maxResponse) == Ok(o)
    ensures 16 <= used <= maxResponse && Expects(pending.body, o, maxRequest)
    ensures s[..used] == ResponseHeader(StatusIn(o), used - 16, pending.id) + BytesIn(o, s[16..used])
  {
    hide LeBytes, LeValue, Pow256, Put, Field, ResponseHeader, InfoBytes, StateBytes, DecodeState, InfoAt;
    HeaderCanonical(s);
    assert s[..used] == s[..16] + s[16..used];
    if used >= 24 { WordCanonical(s); }
    if o.Discovered? { InfoCanonical(s); }
    if o.Observed? { StateCanonical(s, o.state); }
  }

  /** What an error says is wrong with a response is wrong with it. */
  predicate Blames(pending: Request, s: seq<Byte>, used: nat, maxRequest: nat, maxResponse: nat, e: ResponseError)
    requires 16 <= |s|
  {
    var status, payload := Field(s, 0, 2), Field(s, 4, 4);
    match e
    case OverLimit => used > maxResponse
    case WrongRequest => Field(s, 8, 8) != pending.id
    case WrongFlags => Field(s, 2, 2) != 0
    case WrongUsed => used < 16 || 16 + payload != used
    case WrongLength =>
      if pending.body.Submit? then !KnownStatus(status) || (payload != 8 && (status == OK || payload != 0))
      else payload != if status == OK then SuccessPayload(pending.body) else 0
    case ZeroObject => 24 <= |s| && payload == 8 && Field(s, 16, 8) == 0
    case UnknownState => pending.body.PollEvent? && status == OK && 24 <= |s| && Field(s, 16, 2) > 3
    case WrongStatus =>
      && pending.body.PollEvent? && status == OK && 24 <= |s|
      && Field(s, 16, 2) <= 3 && (Field(s, 16, 2) == 2 <==> Field(s, 18, 2) == 0)
    case BadEncoding => pending.body.PollEvent? && status == OK && 24 <= |s| && Field(s, 20, 4) != 0
    case BadDeviceInfo =>
      && pending.body.GetDeviceInfo? && status == OK && 92 <= |s|
      && (Field(s, 34, 2) != 0 || !ServedInfo(InfoAt(s, 16)) || 96 + InfoAt(s, 16).maxArtifactBytes > maxRequest)
  }

  /** Every refusal by the guest names a fault the response has. */
  lemma GuestBlames(pending: Request, s: seq<Byte>, used: nat, maxRequest: nat, maxResponse: nat)
    requires 16 <= |s| && used <= |s| && ValidateResponse(pending, s, used, maxRequest, maxResponse).Err?
    ensures Blames(pending, s, used, maxRequest, maxResponse,
                   ValidateResponse(pending, s, used, maxRequest, maxResponse).error)
  {
    hide LeBytes, LeValue, Pow256, Field, ServedInfo, InfoAt, DecodeInfo, DecodeState;
    if 92 <= |s| { InfoRefused(s, maxRequest); }
    if 24 <= |s| && DecodeState(s, 16).Err? { StateRefused(s); }
  }

  lemma StateRefused(s: seq<Byte>)
    requires 24 <= |s| && DecodeState(s, 16).Err?
    ensures match DecodeState(s, 16).error
            case BadEncoding => Field(s, 20, 4) != 0
            case UnknownState => Field(s, 16, 2) > 3
            case WrongStatus => Field(s, 16, 2) <= 3 && (Field(s, 16, 2) == 2 <==> Field(s, 18, 2) == 0)
            case _ => false
  {
    hide LeBytes, LeValue, Pow256, Field;
  }

  lemma InfoRefused(s: seq<Byte>, maxRequest: nat)
    requires 92 <= |s|
    ensures DecodeInfo(s, 16, maxRequest).Err? ==>
              && DecodeInfo(s, 16, maxRequest).error == BadDeviceInfo
              && (Field(s, 34, 2) != 0 || !ServedInfo(InfoAt(s, 16))
                  || 96 + InfoAt(s, 16).maxArtifactBytes > maxRequest)
  {
    hide LeBytes, LeValue, Pow256, Field;
  }

  /** Capability bits 3 and 4 are reserved; bits 0, 1 and 5 are the memory domains. */
  lemma CapabilityBits(capabilities: nat)
    ensures ReservedCapability(capabilities) <==> capabilities / 8 % 4 != 0
    ensures SomeMemoryDomain(capabilities) <==> capabilities % 4 != 0 || capabilities / 32 % 2 != 0
  {
    TwoBits(capabilities);
    TwoBits(capabilities / 8);
    assert capabilities / 16 == capabilities / 8 / 2;
  }

  lemma TwoBits(n: nat)
    ensures n % 4 != 0 <==> n % 2 == 1 || n / 2 % 2 == 1
  {
    var q, r := n / 4, n % 4;
    assert n == 4 * q + r;
    assert r in {0, 1, 2, 3};
  }
}
