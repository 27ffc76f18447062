/** Preflight of one command frame: chain layout, complete decoding, and the error response. */
module Frames {
  import opened Bytes
  import opened Graphs
  import opened Wire
  import opened Regions
  import opened Decoders
  import opened Ledgers
  import opened Responses
  import Agreement
  import Commands

  datatype ChainRegion = ChainRegion(writable: bool, bytes: nat)

  datatype LayoutError = DescriptorCount | ZeroBytes | Direction | ByteOverflow | PortLengthMismatch

  datatype Layout = Layout(readable: nat, writable: nat)

  function RegionBytes(regions: seq<ChainRegion>, writable: bool): nat {
    if regions == [] then 0
    else
      var last := regions[|regions| - 1];
      RegionBytes(regions[..|regions| - 1], writable) + (if last.writable == writable then last.bytes else 0)
  }

  /** The first `n` regions are nonempty, readable ones come first, and both totals fit 64 bits. */
  ghost predicate Sane(regions: seq<ChainRegion>, n: nat) {
    && n <= |regions|
    && (forall i | 0 <= i < n :: regions[i].bytes > 0)
    && (forall i, j | 0 <= i < j < n :: regions[i].writable ==> regions[j].writable)
    && RegionBytes(regions[..n], false) < U64 && RegionBytes(regions[..n], true) < U64
  }

  ghost predicate Holds(regions: seq<ChainRegion>, n: nat, writable: bool) {
    exists i | 0 <= i < n && i < |regions| :: regions[i].writable == writable
  }

  /** What is wrong with region `n`, if the regions before it are sane. */
  ghost function Blame(regions: seq<ChainRegion>, n: nat): LayoutError
    requires n < |regions|
  {
    if regions[n].bytes == 0 then ZeroBytes
    else if !regions[n].writable && Holds(regions, n, true) then Direction
    else ByteOverflow
  }

  /** Readable regions first, then writable ones, at least one of each and none empty. */
  ghost predicate WellLaid(regions: seq<ChainRegion>) {
    Sane(regions, |regions|) && Holds(regions, |regions|, false) && Holds(regions, |regions|, true)
  }

  datatype Totals = Totals(readable: nat, writable: nat, readableBytes: nat, writableBytes: nat)

  /** The counts and totals of a sane prefix. */
  ghost predicate Counted(regions: seq<ChainRegion>, n: nat, t: Totals) {
    && Sane(regions, n)
    && t.readableBytes == RegionBytes(regions[..n], false) && t.writableBytes == RegionBytes(regions[..n], true)
    && (t.readable > 0 <==> Holds(regions, n, false)) && (t.writable > 0 <==> Holds(regions, n, true))
  }

  lemma OneMoreRegion(regions: seq<ChainRegion>, n: nat)
    requires n < |regions|
    ensures forall w :: RegionBytes(regions[..n + 1], w)
                        == RegionBytes(regions[..n], w) + if regions[n].writable == w then regions[n].bytes else 0
    ensures forall w :: Holds(regions, n + 1, w) <==> Holds(regions, n, w) || regions[n].writable == w
  {
    assert regions[..n + 1][..n] == regions[..n];
    assert Holds(regions, n + 1, regions[n].writable);
  }

  lemma CountNext(regions: seq<ChainRegion>, n: nat, t: Totals, t': Totals)
    requires Counted(regions, n, t) && n < |regions| && regions[n].bytes > 0
    requires !regions[n].writable ==> t.writable == 0
    requires t' == if regions[n].writable
                   then t.(writable := t.writable + 1, writableBytes := t.writableBytes + regions[n].bytes)
                   else t.(readable := t.readable + 1, readableBytes := t.readableBytes + regions[n].bytes)
    requires (if regions[n].writable then t'.writableBytes else t'.readableBytes) < U64
    ensures Counted(regions, n + 1, t')
  {
    hide RegionBytes;
    OneMoreRegion(regions, n);
  }

  /** A bad region spoils every longer prefix. */
  lemma {:induction false} Spoilt(regions: seq<ChainRegion>, n: nat)
    requires n <= |regions| && !Sane(regions, n)
    ensures !Sane(regions, |regions|)
    decreases |regions| - n
  {
    hide RegionBytes;
    if n < |regions| {
      OneMoreRegion(regions, n);
      Spoilt(regions, n + 1);
    }
  }

  /** One pass over the regions. It accepts exactly the well-laid chains, and an error is that of the
      first region that is not in place. */
  method ValidateChainLayout(regions: seq<ChainRegion>, maxDescriptors: nat) returns (r: Result<Layout, LayoutError>)
    ensures r.Ok? <==> 2 <= |regions| <= maxDescriptors && WellLaid(regions)
    ensures r.Ok? ==> r.value == Layout(RegionBytes(regions, false), RegionBytes(regions, true))
    ensures r == Err(DescriptorCount) <==> !(2 <= |regions| <= maxDescriptors)
    ensures r.Err? && 2 <= |regions| <= maxDescriptors && Sane(regions, |regions|) ==> r.error == Direction
    ensures r.Err? && 2 <= |regions| <= maxDescriptors && !Sane(regions, |regions|) ==>
              exists n | 0 <= n < |regions| :: Sane(regions, n) && !Sane(regions, n + 1) && r.error == Blame(regions, n)
  {
    hide Sane, Holds, RegionBytes, Blame;
    if |regions| < 2 || |regions| > maxDescriptors { return Err(DescriptorCount); }
    var t := Totals(0, 0, 0, 0);
    NothingCounted(regions);
    for n := 0 to |regions|
      invariant Counted(regions, n, t)
    {
      var region := regions[n];
      if region.bytes == 0 {
        Rejected(regions, n, t, ZeroBytes);
        return Err(ZeroBytes);
      }
      if !region.writable {
        if t.writable > 0 {
          Rejected(regions, n, t, Direction);
          return Err(Direction);
        }
        if t.readableBytes + region.bytes >= U64 {
          Rejected(regions, n, t, ByteOverflow);
          return Err(ByteOverflow);
        }
        CountNext(regions, n, t, t.(readable := t.readable + 1, readableBytes := t.readableBytes + region.bytes));
        t := t.(readable := t.readable + 1, readableBytes := t.readableBytes + region.bytes);
      } else {
        if t.writableBytes + region.bytes >= U64 {
          Rejected(regions, n, t, ByteOverflow);
          return Err(ByteOverflow);
        }
        CountNext(regions, n, t, t.(writable := t.writable + 1, writableBytes := t.writableBytes + region.bytes));
        t := t.(writable := t.writable + 1, writableBytes := t.writableBytes + region.bytes);
      }
    }
    assert regions[..|regions|] == regions;
    if t.readable == 0 || t.writable == 0 { return Err(Direction); }
    return Ok(Layout(t.readableBytes, t.writableBytes));
  }

  lemma NothingCounted(regions: seq<ChainRegion>)
    ensures Counted(regions, 0, Totals(0, 0, 0, 0))
  {}

  lemma Rejected(regions: seq<ChainRegion>, n: nat, t: Totals, error: LayoutError)
    requires Counted(regions, n, t) && n < |regions|
    requires match error
             case ZeroBytes => regions[n].bytes == 0
             case Direction => regions[n].bytes > 0 && !regions[n].writable && t.writable > 0
             case ByteOverflow =>
               && regions[n].bytes > 0 && (!regions[n].writable ==> t.writable == 0)
               && (if regions[n].writable then t.writableBytes else t.readableBytes) + regions[n].bytes >= U64
             case _ => false
    ensures Sane(regions, n) && !Sane(regions, n + 1) && !Sane(regions, |regions|) && error == Blame(regions, n)
  {
    hide RegionBytes;
    OneMoreRegion(regions, n);
    Spoilt(regions, n + 1);
  }

  /** The chain is well laid and its totals are exactly the lengths of the two ports. */
  ghost predicate LaidFor(l: DecoderLimits, regions: seq<ChainRegion>, request: nat, response: nat) {
    && 2 <= |regions| <= l.maxChain && WellLaid(regions)
    && RegionBytes(regions, false) == request && RegionBytes(regions, true) == response
  }

  /** Why a chain completes without a response. */
  datatype UnusableFrame = ChainLayout(layout: LayoutError) | Undecodable(error: DecodeError)

  datatype Preflighted =
    | Ready(request: Request)
    | Rejected(id: nat, status: nat, used: nat)
    | Unusable(why: UnusableFrame)

  /** Validates one chain before anything semantic can be reached. A ready frame has been decoded
      completely and its response is sure to fit; a rejected one has exactly its error header
      written; otherwise the response is untouched. Only the sink itself can make it fail. */
  method PreflightFrame(l: DecoderLimits, regions: seq<ChainRegion>, source: Source, sink: ResponseSink, memory: bool,
                        ghost limits: Limits)
    returns (r: Result<Preflighted, WriteError>)
    requires Usable(l) && ValidSource(source) && limits.maxBindings == l.maxBindings
    modifies sink
    ensures |sink.bytes| == old(|sink.bytes|)
    ensures r.Ok? && r.value.Ready? ==>
              && sink.bytes == old(sink.bytes) && sink.writes == old(sink.writes)
              && DecodeFrame(l, Content(source), |sink.bytes|, memory) == Ok(r.value.request)
              && Commands.Dispatchable(r.value.request.body, limits)
              && forall sinkOk :: PortFits(Port(|sink.bytes|, l.maxResponse, sinkOk), r.value.request.body)
    ensures r.Ok? && r.value.Rejected? ==>
              && r.value.used == 16
              && DecodeFrame(l, Content(source), |sink.bytes|, memory) == Err(Protocol(r.value.id, r.value.status))
              && sink.bytes == ResponseHeader(r.value.status, 0, r.value.id) + old(sink.bytes[16..])
    ensures r.Ok? && r.value.Unusable? ==> sink.bytes == old(sink.bytes)
    ensures r.Ok? && r.value.Unusable? && r.value.why.Undecodable? ==>
              && !r.value.why.error.Protocol?
              && DecodeFrame(l, Content(source), |sink.bytes|, memory) == Err(r.value.why.error)
    ensures r.Err? ==> r.error == SinkAccess && sink.faults(old(sink.writes)).Some?
    ensures r.Ok? && r.value.Unusable? && r.value.why.ChainLayout? <==>
            !LaidFor(l, regions, Length(source), |sink.bytes|)
    ensures r.Ok? && r.value.Ready? <==>
            && LaidFor(l, regions, Length(source), |sink.bytes|)
            && DecodeFrame(l, Content(source), |sink.bytes|, memory).Ok?
    ensures r.Err? || r.value.Rejected? <==>
            && LaidFor(l, regions, Length(source), |sink.bytes|)
            && DecodeFrame(l, Content(source), |sink.bytes|, memory).Err?
            && DecodeFrame(l, Content(source), |sink.bytes|, memory).error.Protocol?
  {
    hide DecodeFrame, Content, ValidSource, WellLaid, RegionBytes, PortFits, Commands.Dispatchable, ResponseHeader;
    assert |Content(source)| < U64;
    var layout := ValidateChainLayout(regions, l.maxChain);
    if layout.Err? { return Ok(Unusable(ChainLayout(layout.error))); }
    if layout.value.readable != Length(source) || layout.value.writable != |sink.bytes| {
      return Ok(Unusable(ChainLayout(PortLengthMismatch)));
    }
    var decoded := Decode(l, source, |sink.bytes|, memory);
    match decoded {
      case Ok(request) =>
        forall sinkOk
          ensures PortFits(Port(|sink.bytes|, l.maxResponse, sinkOk), request.body)
          ensures Commands.Dispatchable(request.body, limits)
        {
          Agreement.DecodedDispatches(l, Content(source), |sink.bytes|, memory, limits, sinkOk);
        }
        Agreement.DecodedDispatches(l, Content(source), |sink.bytes|, memory, limits, _ => true);
        return Ok(Ready(request));
      case Err(Protocol(id, status)) =>
        RejectionsFit(l, Content(source), |sink.bytes|, memory);
        var used := sink.WriteEmpty(l.maxResponse, status, id);
        if used.Err? { return Err(used.error); }
        return Ok(Preflighted.Rejected(id, status, used.value));
      case Err(error) => return Ok(Unusable(Undecodable(error)));
    }
  }

  /** A protocol error is reported only where its header fits. */
  lemma RejectionsFit(l: DecoderLimits, s: seq<Byte>, capacity: nat, memory: bool)
    requires Usable(l) && DecodeFrame(l, s, capacity, memory).Err?
             && DecodeFrame(l, s, capacity, memory).error.Protocol?
    ensures Preflight(0, l.maxResponse, capacity) == Ok(16)
  {
    hide BodyOf, Field, KnownOpcode;
  }
}
