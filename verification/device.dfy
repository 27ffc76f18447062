/** From a descriptor chain to a finished command, and what the guest makes of the response. */
module Devices {
  import opened Bytes
  import opened Graphs
  import opened Wire
  import opened Regions
  import opened Decoders
  import opened Ledgers
  import opened Responses
  import opened Frames
  import opened Commands
  import opened Engines
  import opened Guests
  import Agreement
  import CleanRoom

  datatype Served =
    | Completed(request: Request, outcome: Ledgers.Outcome)
    | Refused(id: nat, status: nat, used: nat)
    | Ignored(why: UnusableFrame)
    | Failed(error: WriteError)

  /** Decoder and device information were configured from the limits this device enforces. */
  ghost predicate Configured(p: Processor, l: DecoderLimits, info: DeviceInfo) {
    && Usable(l) && l.maxBindings == p.limits.maxBindings
    && ServedInfo(info) && info.maxBindings == p.limits.maxBindings
  }

  /** Both decoders read the frame as this request. */
  ghost predicate Encodes(l: DecoderLimits, s: seq<Byte>, capacity: nat, memory: bool, request: Request) {
    && DecodeFrame(l, s, capacity, memory) == Ok(request) && CleanRoom.DecodeRequest(s).Ok?
    && CleanRoom.DecodeRequest(s).value.id == request.id < U64
    && Agreement.SameBody(CleanRoom.DecodeRequest(s).value.body, request.body)
  }

  /** Whether the writes of a response reach the port, the next write being number `n`. */
  predicate Reaches(faults: nat -> Option<nat>, n: nat, p: Payload) {
    faults(n).None? && (p.NoPayload? || p.DataPayload? || faults(n + 1).None?)
  }

  function PortOf(capacity: nat, maxResponse: nat, faults: nat -> Option<nat>, n: nat): Port {
    Port(capacity, maxResponse, p => Reaches(faults, n, p))
  }

  lemma SentLength(p: Payload, info: DeviceInfo, data: seq<Byte>)
    requires ServedInfo(info) && (p.DataPayload? ==> |data| == p.bytes)
    ensures |Sent(p, info, data)| == PayloadLength(p)
  {}

  /** Payload first, header last. Data is already in place: the provider stored it there. */
  method Deliver(sink: ResponseSink, maxResponse: nat, id: nat, status: nat, payload: Payload, info: DeviceInfo,
                 ghost data: seq<Byte>)
    returns (ok: bool)
    requires ServedInfo(info) && Preflight(PayloadLength(payload), maxResponse, |sink.bytes|).Ok?
    requires payload.DataPayload? ==> |data| == payload.bytes && sink.bytes[16..16 + |data|] == data
    modifies sink
    ensures |sink.bytes| == old(|sink.bytes|)
    ensures ok <==> Reaches(sink.faults, old(sink.writes), payload)
    ensures ok ==> sink.bytes == ResponseHeader(status, PayloadLength(payload), id) + Sent(payload, info, data)
                                 + old(sink.bytes[16 + PayloadLength(payload)..])
    ensures sink.bytes[16 + PayloadLength(payload)..] == old(sink.bytes[16 + PayloadLength(payload)..])
  {
    hide ResponseHeader, StateBytes, InfoBytes, ServedInfo;
    SentLength(payload, info, data);
    var n := 16 + PayloadLength(payload);
    match payload {
      case NoPayload =>
        var used := sink.WriteEmpty(maxResponse, status, id);
        return used.Ok?;
      case DataPayload(bytes) =>
        ghost var before := sink.bytes;
        ok := sink.WriteAt(0, ResponseHeader(status, bytes, id));
        HeaderOnly(before, sink.bytes, ResponseHeader(status, bytes, id), data, ok);
      case _ =>
        var used, _ := sink.WriteResponse(maxResponse, status, id, Slice(Sent(payload, info, [])), _ => true);
        return used.Ok?;
    }
  }

  /** Writing the header in front of data that is already there. */
  lemma HeaderOnly(before: seq<Byte>, after: seq<Byte>, header: seq<Byte>, data: seq<Byte>, ok: bool)
    requires |before| == |after| && |header| == 16 && 16 + |data| <= |before| && before[16..16 + |data|] == data
    requires if ok then after == Overwrite(before, 0, header) else after[16..] == before[16..]
    ensures ok ==> after == header + data + before[16 + |data|..]
    ensures after[16 + |data|..] == before[16 + |data|..]
  {
    HeaderApart(before, after, 16 + |data|);
  }

  /** The response buffer after a command: exactly the response, and nothing past the room the
      request reserved. A refused read may have left data in that room. */
  ghost predicate Answered(request: Request, out: Ledgers.Outcome, info: DeviceInfo, data: seq<Byte>, before: seq<Byte>,
                           after: seq<Byte>) {
    && |after| == |before| && RequiredResponse(request.body) <= |before|
    && after[RequiredResponse(request.body)..] == before[RequiredResponse(request.body)..]
    && (out.Response? ==>
          && out.used <= |after|
          && after[..out.used]
               == ResponseHeader(out.status, PayloadLength(out.payload), request.id) + Sent(out.payload, info, data))
    && (out.Response? && !request.body.ReadBuffer? ==> after[out.used..] == before[out.used..])
  }

  /** The data a read yields: the answer of the backend to the call the command is about to make. */
  function ReadData(body: Body, reply: Reply): (data: seq<Byte>)
    ensures body.ReadBuffer? ==> |data| == body.bytes
  {
    if body.ReadBuffer? then seq<Byte>(body.bytes, i requires 0 <= i < body.bytes => reply.data(i)) else []
  }

  /** One chain, start to finish. Only a frame that an independent decoder of the protocol would also
      accept reaches the objects or the backend; then the device does exactly what it encodes, writes
      exactly that response, and the guest recovers its meaning. */
  method Serve(p: Processor, l: DecoderLimits, info: DeviceInfo, regions: seq<ChainRegion>, source: Source,
               sink: ResponseSink, memory: Memory, decodeMemory: bool) returns (r: Served)
    requires p.Valid() && Configured(p, l, info) && ValidSource(source)
    modifies p, p.state, sink
    ensures p.Valid() && p.state == old(p.state) && |sink.bytes| == old(|sink.bytes|)
    ensures r.Completed? <==>
            && LaidFor(l, regions, Length(source), |sink.bytes|)
            && DecodeFrame(l, Content(source), |sink.bytes|, decodeMemory).Ok?
    ensures !r.Completed? ==> p.View() == old(p.View())
    ensures r.Completed? ==>
              var port := PortOf(|sink.bytes|, l.maxResponse, sink.faults, old(sink.writes));
              && Encodes(l, Content(source), |sink.bytes|, decodeMemory, r.request)
              && StepOk(old(p.View()), p.View(), r.outcome, r.request, port)
              && (old(p.health) == Running ==>
                    Obeyed(old(p.View()).(lastReset := None), p.View(), r.outcome, port, r.request, p.Wiring(), memory))
              && (old(p.health) != Running ==>
                   p.View() == old(p.View()) && r.outcome == Written(port, r.request.id, DEVICE_LOST, NoPayload))
    ensures r.Completed? ==>
              Answered(r.request, r.outcome, info, ReadData(r.request.body, p.backend(old(|p.trace|))),
                       old(sink.bytes), sink.bytes)
    ensures r.Completed? && r.outcome.Response? ==>
              && 16 <= |sink.bytes|
              && ValidateResponse(r.request, sink.bytes, r.outcome.used, l.maxRequest, l.maxResponse)
                 == Understood(r.request.body, r.outcome.status, r.outcome.payload, info, l.maxRequest)
    ensures r.Refused? || r.Failed? <==>
            && LaidFor(l, regions, Length(source), |sink.bytes|)
            && DecodeFrame(l, Content(source), |sink.bytes|, decodeMemory).Err?
            && DecodeFrame(l, Content(source), |sink.bytes|, decodeMemory).error.Protocol?
    ensures r.Refused? ==>
              && 16 <= old(|sink.bytes|) && r.used == 16
              && DecodeFrame(l, Content(source), |sink.bytes|, decodeMemory) == Err(Protocol(r.id, r.status))
              && sink.bytes == ResponseHeader(r.status, 0, r.id) + old(sink.bytes[16..])
    ensures r.Failed? ==> r.error == SinkAccess && sink.faults(old(sink.writes)).Some?
    ensures r.Ignored? ==> sink.bytes == old(sink.bytes)
    ensures r.Ignored? ==>
              if LaidFor(l, regions, Length(source), |sink.bytes|)
              then r.why.Undecodable? && DecodeFrame(l, Content(source), |sink.bytes|, decodeMemory) == Err(r.why.error)
              else r.why.ChainLayout?
  {
    hide LaidFor, DecodeFrame, Content, ValidSource, Encodes, StepOk, Obeyed, ResponseHeader, PortFits, Dispatchable,
         EngineInv, Answered, ValidateResponse, ServedInfo, Usable;
    var frame := PreflightFrame(l, regions, source, sink, decodeMemory, p.limits);
    if frame.Err? { return Served.Failed(frame.error); }
    match frame.value {
      case Unusable(why) => return Ignored(why);
      case Rejected(id, status, used) => return Served.Refused(id, status, used);
      case Ready(request) =>
        OnlyValidFrames(l, Content(source), |sink.bytes|, decodeMemory);
        var outcome := Execute(p, l, info, request, sink, memory);
        return Completed(request, outcome);
    }
  }

  /** The semantic half: dispatch, and the response written to the port. */
  method Execute(p: Processor, l: DecoderLimits, info: DeviceInfo, request: Request, sink: ResponseSink, memory: Memory)
    returns (out: Ledgers.Outcome)
    requires p.Valid() && Configured(p, l, info) && request.id < U64
    requires Dispatchable(request.body, p.limits)
             && PortFits(PortOf(|sink.bytes|, l.maxResponse, sink.faults, sink.writes), request.body)
    modifies p, p.state, sink
    ensures p.Valid() && p.state == old(p.state) && |sink.bytes| == old(|sink.bytes|)
    ensures var port := PortOf(|sink.bytes|, l.maxResponse, sink.faults, old(sink.writes));
            && StepOk(old(p.View()), p.View(), out, request, port)
            && (old(p.health) == Running ==>
                  Obeyed(old(p.View()).(lastReset := None), p.View(), out, port, request, p.Wiring(), memory))
            && (old(p.health) != Running ==>
                 p.View() == old(p.View()) && out == Written(port, request.id, DEVICE_LOST, NoPayload))
    ensures Answered(request, out, info, ReadData(request.body, p.backend(old(|p.trace|))), old(sink.bytes), sink.bytes)
    ensures out.Response? ==>
              && 16 <= |sink.bytes|
              && ValidateResponse(request, sink.bytes, out.used, l.maxRequest, l.maxResponse)
                 == Understood(request.body, out.status, out.payload, info, l.maxRequest)
  {
    hide StepOk, Obeyed, ResponseHeader, PortFits, Dispatchable, EngineInv, ValidateResponse, ServedInfo, Usable, Sent,
         Answered, Understood;
    ghost var before, engine := sink.bytes, p.View();
    var body, calls := request.body, |p.trace|;
    var data := ReadData(body, p.backend(calls));
    out := p.Process(PortOf(|sink.bytes|, l.maxResponse, sink.faults, sink.writes), request, memory);
    OutcomeFacts(engine, p.View(), out, request, PortOf(|before|, l.maxResponse, sink.faults, sink.writes));
    FromTheBackend(engine, p.View(), out, request, PortOf(|before|, l.maxResponse, sink.faults, sink.writes),
                   p.Wiring(), memory);
    if body.ReadBuffer? && |p.trace| > calls {
      sink.Fill(data);
    }
    ghost var filled := sink.bytes;
    var ok := Deliver(sink, l.maxResponse, request.id, out.status, out.payload, info, data);
    IsAnswered(request, out, info, data, before, filled, sink.bytes, l.maxResponse);
    if out.Response? {
      AnswersAreUnderstood(request, out, info, data, before, sink.bytes, l.maxRequest, l.maxResponse);
    }
  }

  /** What a good step says about its response. */
  lemma OutcomeFacts(b: Engine, a: Engine, out: Ledgers.Outcome, request: Request, port: Port)
    requires StepOk(b, a, out, request, port) && PortFits(port, request.body)
    ensures ReplyShape(request.body, out.status, out.payload) && (out.Response? <==> port.sink(out.payload))
    ensures 16 + PayloadLength(out.payload) <= RequiredResponse(request.body) <= port.capacity
            && RequiredResponse(request.body) <= port.maxResponse < U32
    ensures Preflight(PayloadLength(out.payload), port.maxResponse, port.capacity).Ok?
    ensures out.Response? ==> out.used == 16 + PayloadLength(out.payload)
  {
    hide EngineInv, SameObjects, ReplyShape;
    ResponsesFit(port, request.body, request.id, out.status, out.payload);
  }

  /** Data is returned only by a read that reached the backend. */
  lemma FromTheBackend(b: Engine, a: Engine, out: Ledgers.Outcome, request: Request, port: Port, setup: Setup,
                       memory: Memory)
    requires ReplyShape(request.body, out.status, out.payload)
    requires b.health == Running ==> Obeyed(b.(lastReset := None), a, out, port, request, setup, memory)
    requires b.health != Running ==> a == b && out == Written(port, request.id, DEVICE_LOST, NoPayload)
    ensures out.payload.DataPayload? ==> request.body.ReadBuffer? && |a.trace| > |b.trace|
  {
    hide Inv, ReplyShape, TransferMove, Dispatchable, Written;
    if out.payload.DataPayload? {
      DataIsRead(request.body, out.status, out.payload);
      if b.health == Running {
        var e := b.(lastReset := None);
        WrittenAs(port, request.id, CommandMove(e, request.body, setup, memory), out);
        DataIsCalledFor(e, request.body, setup.backend(|e.trace|));
      } else {
        WrittenAs(port, request.id, Refuse(b, DEVICE_LOST), out);
      }
    }
  }

  lemma DataIsRead(body: Body, status: nat, payload: Payload)
    requires ReplyShape(body, status, payload) && payload.DataPayload?
    ensures body.ReadBuffer?
  {}

  lemma DataIsCalledFor(e: Engine, body: Body, reply: Reply)
    requires Inv(e.graph) && body.ReadBuffer?
    ensures TransferMove(e, body, reply).payload.DataPayload? ==> |TransferMove(e, body, reply).calls| == 1
  {
    hide Inv, TransferFault, Look;
    InvShape(e.graph);
  }

  lemma IsAnswered(request: Request, out: Ledgers.Outcome, info: DeviceInfo, data: seq<Byte>, before: seq<Byte>,
                   filled: seq<Byte>, after: seq<Byte>, maxResponse: nat)
    requires ServedInfo(info) && (out.payload.DataPayload? ==> |data| == out.payload.bytes)
    requires 16 + PayloadLength(out.payload) <= RequiredResponse(request.body) <= |before| == |after|
    requires filled == before
             || (request.body.ReadBuffer? && 16 + |data| <= |before| && |data| == request.body.bytes
                 && filled == Overwrite(before, 16, data))
    requires out.Response? ==>
               && out.used == 16 + PayloadLength(out.payload)
               && after == ResponseHeader(out.status, PayloadLength(out.payload), request.id)
                    + Sent(out.payload, info, data) + filled[out.used..]
    requires |filled| == |after|
             && after[16 + PayloadLength(out.payload)..] == filled[16 + PayloadLength(out.payload)..]
    ensures Answered(request, out, info, data, before, after)
  {
    hide ResponseHeader, Sent, ServedInfo, Overwrite;
    SentLength(out.payload, info, data);
    var n, room := 16 + PayloadLength(out.payload), RequiredResponse(request.body);
    Suffixes(after, filled, n, room);
    if filled != before {
      PastData(before, data);
    }
    if out.Response? {
      Prefixed(ResponseHeader(out.status, PayloadLength(out.payload), request.id) + Sent(out.payload, info, data),
               filled[n..], after);
    }
  }

  lemma Suffixes(s: seq<Byte>, t: seq<Byte>, n: nat, m: nat)
    requires n <= m <= |s| == |t| && s[n..] == t[n..]
    ensures s[m..] == t[m..]
  {
    assert s[m..] == s[n..][m - n..] && t[m..] == t[n..][m - n..];
  }

  lemma PastData(s: seq<Byte>, data: seq<Byte>)
    requires 16 + |data| <= |s|
    ensures Overwrite(s, 16, data)[16 + |data|..] == s[16 + |data|..]
  {}

  lemma Prefixed(head: seq<Byte>, tail: seq<Byte>, s: seq<Byte>)
    requires s == head + tail
    ensures s[..|head|] == head && s[|head|..] == tail
  {}

  /** The guest decodes an answered response to what it means. */
  lemma AnswersAreUnderstood(request: Request, out: Ledgers.Outcome, info: DeviceInfo, data: seq<Byte>,
                             before: seq<Byte>, after: seq<Byte>, maxRequest: nat, maxResponse: nat)
    requires Answered(request, out, info, data, before, after) && out.Response? && request.id < U64 && ServedInfo(info)
    requires ReplyShape(request.body, out.status, out.payload)
             && (out.payload.DataPayload? ==> |data| == out.payload.bytes)
    requires out.used == 16 + PayloadLength(out.payload) <= maxResponse < U32
    ensures 16 <= |after|
    ensures ValidateResponse(request, after, out.used, maxRequest, maxResponse)
            == Understood(request.body, out.status, out.payload, info, maxRequest)
  {
    hide ResponseHeader, Sent, ReplyShape, ValidateResponse, Understood, ServedInfo;
    GuestUnderstands(request, out.status, out.payload, info, data, after[out.used..], maxRequest, maxResponse);
    assert after == after[..out.used] + after[out.used..];
  }

  /** Whatever the production decoder accepts, the clean-room decoder accepts as the same request. */
  lemma OnlyValidFrames(l: DecoderLimits, s: seq<Byte>, capacity: nat, memory: bool)
    requires Usable(l) && DecodeFrame(l, s, capacity, memory).Ok?
    ensures Encodes(l, s, capacity, memory, DecodeFrame(l, s, capacity, memory).value)
    ensures DecodeFrame(l, s, capacity, memory).value.id < U64
  {
    hide DecodeFrame, CleanRoom.DecodeRequest, Agreement.SameBody, Agreement.BodyWithin, CleanRoom.TypedBody,
         CleanRoom.FrameLen;
    if !memory { Agreement.OnlySubmitAllocates(l, s, capacity); }
    Agreement.DecodersAgree(l, s, capacity);
    CleanRoom.DecodedReencodes(s);
  }
  /** The guest decodes a response by its own request, whose bindings need not be in slot order. */
  lemma SamePending(id: nat, wire: Body, decoded: Body, s: seq<Byte>, used: nat, maxRequest: nat, maxResponse: nat)
    requires Agreement.SameBody(wire, decoded) && 16 <= |s|
    ensures ValidateResponse(Request(id, wire), s, used, maxRequest, maxResponse)
            == ValidateResponse(Request(id, decoded), s, used, maxRequest, maxResponse)
    ensures forall status, p, info ::
              Understood(wire, status, p, info, maxRequest) == Understood(decoded, status, p, info, maxRequest)
  {
    hide Field, DecodeInfo, DecodeState, ObjectAt;
  }

  /** Nothing stands in the way of this request: it is within the limits, it fits, and its chain is
      well laid. */
  ghost predicate Transportable(l: DecoderLimits, request: Request, regions: seq<ChainRegion>, room: nat) {
    && CleanRoom.ValidRequest(request) && |CleanRoom.Frame(request)| <= l.maxRequest
    && Agreement.BodyWithin(l, request.body)
    && RequiredResponse(request.body) <= l.maxResponse && RequiredResponse(request.body) <= room
    && LaidFor(l, regions, |CleanRoom.Frame(request)|, room)
  }

  lemma TransportableDecodes(l: DecoderLimits, request: Request, regions: seq<ChainRegion>, room: nat)
    requires Usable(l) && Transportable(l, request, regions, room)
    ensures var decoded := DecodeFrame(l, CleanRoom.Frame(request), room, true);
            decoded.Ok? && decoded.value.id == request.id && Agreement.SameBody(request.body, decoded.value.body)
  {
    hide DecodeFrame, CleanRoom.DecodeRequest, CleanRoom.Frame, CleanRoom.ValidRequest, Agreement.SameBody,
         Agreement.BodyWithin, RequiredResponse, LaidFor;
    CleanRoom.EncodedDecodes(request);
    Agreement.DecodersAgree(l, CleanRoom.Frame(request), room);
  }

  /** A remote call. The request travels as its canonical frame, scattered in any way, to a running
      device; the device makes exactly the move of that request, and the guest recovers exactly the
      meaning of that move from the response bytes. `done` is the request with its bindings in slot
      order. */
  method Call(p: Processor, l: DecoderLimits, info: DeviceInfo, request: Request, regions: seq<ChainRegion>,
              source: Source, sink: ResponseSink, memory: Memory)
    returns (r: Result<GuestOutcome, ResponseError>, ghost done: Body)
    requires p.Valid() && Configured(p, l, info) && p.health == Running && ValidSource(source)
    requires Transportable(l, request, regions, |sink.bytes|) && Content(source) == CleanRoom.Frame(request)
    requires forall n :: sink.faults(n).None?
    modifies p, p.state, sink
    ensures p.Valid() && p.state == old(p.state)
    ensures Agreement.SameBody(request.body, done) && Dispatchable(done, p.limits) && Inv(old(p.View()).graph)
    ensures var m := CommandMove(old(p.View()).(lastReset := None), done, p.Wiring(), memory);
            && p.View().graph == m.graph && p.View().quarantined == m.quarantined
            && p.View().trace == old(p.View()).trace + m.calls
            && p.health == (if m.discard then DiscardRequired else Running)
            && r == Understood(request.body, m.status, m.payload, info, l.maxRequest)
            && (m.payload.DataPayload? ==>
                  && done.ReadBuffer? && m.payload.bytes == done.bytes && 16 + done.bytes <= |sink.bytes|
                  && sink.bytes[16..16 + done.bytes] == ReadData(done, p.backend(old(|p.trace|))))
  {
    hide DecodeFrame, Content, ValidSource, StepOk, EngineInv, Inv, Answered, ValidateResponse, ServedInfo, Usable,
         LaidFor, Understood, CommandMove, Dispatchable, CleanRoom.ValidRequest, CleanRoom.Frame, Agreement.SameBody,
         Agreement.BodyWithin, RequiredResponse, Written;
    TransportableDecodes(l, request, regions, |sink.bytes|);
    ghost var before := p.View();
    ghost var port := PortOf(|sink.bytes|, l.maxResponse, sink.faults, sink.writes);
    var served := Serve(p, l, info, regions, source, sink, memory, true);
    done := served.request.body;
    WrittenWell(before, p.View(), served.outcome, served.request, port);
    SamePending(request.id, request.body, done, sink.bytes, served.outcome.used, l.maxRequest, l.maxResponse);
    DataArrived(served.request, served.outcome, info, ReadData(done, p.backend(old(|p.trace|))), old(sink.bytes),
                sink.bytes);
    WrittenAs(port, request.id, CommandMove(before.(lastReset := None), done, p.Wiring(), memory), served.outcome);
    r := ValidateResponse(request, sink.bytes, served.outcome.used, l.maxRequest, l.maxResponse);
  }

  lemma WrittenWell(b: Engine, a: Engine, out: Ledgers.Outcome, request: Request, port: Port)
    requires StepOk(b, a, out, request, port) && forall p :: port.sink(p)
    ensures out.Response? && out.used == 16 + PayloadLength(out.payload)
    ensures ReplyShape(request.body, out.status, out.payload)
  {
    hide EngineInv, SameObjects, ReplyShape;
  }

  /** The data of a read arrives unchanged. */
  lemma DataArrived(request: Request, out: Ledgers.Outcome, info: DeviceInfo, data: seq<Byte>, before: seq<Byte>,
                    after: seq<Byte>)
    requires Answered(request, out, info, data, before, after) && ReplyShape(request.body, out.status, out.payload)
    requires out.Response? && out.used == 16 + PayloadLength(out.payload)
    requires request.body.ReadBuffer? ==> |data| == request.body.bytes
    ensures out.payload.DataPayload? ==>
              && request.body.ReadBuffer? && out.payload.bytes == request.body.bytes
              && 16 + request.body.bytes <= |after|
              && after[16..16 + request.body.bytes] == data
  {
    hide ResponseHeader;
    if out.payload.DataPayload? {
      var header := ResponseHeader(out.status, PayloadLength(out.payload), request.id);
      assert after[16..out.used] == after[..out.used][16..] == (header + data)[16..] == data;
    }
  }

  lemma WrittenAs(port: Port, request: nat, m: Move, out: Ledgers.Outcome)
    requires out == Written(port, request, m.status, m.payload)
    ensures out.status == m.status && out.payload == m.payload
  {}
}
