/** Byte ports over scattered memory, and the flat byte strings they stand for. */
module Regions {
  import opened Bytes

  datatype AccessError = OutOfBounds

  datatype SegmentError = Empty | ZeroLength | LengthOverflow

  function Total(lengths: seq<nat>): nat {
    if lengths == [] then 0 else Total(lengths[..|lengths| - 1]) + lengths[|lengths| - 1]
  }

  lemma {:induction false} TotalGrows(lengths: seq<nat>, n: nat)
    requires n <= |lengths|
    ensures Total(lengths[..n]) <= Total(lengths)
    decreases |lengths| - n
  {
    if n < |lengths| {
      TotalGrows(lengths, n + 1);
      assert lengths[..n + 1][..n] == lengths[..n];
    } else {
      assert lengths[..n] == lengths;
    }
  }

  method CheckedSegmentLen(lengths: seq<nat>) returns (r: Result<nat, SegmentError>)
    ensures r.Ok? <==> lengths != [] && (forall i | 0 <= i < |lengths| :: lengths[i] > 0) && Total(lengths) < U64
    ensures r.Ok? ==> r.value == Total(lengths)
    ensures r == Err(Empty) <==> lengths == []
  {
    var total := 0;
    for i := 0 to |lengths|
      invariant total == Total(lengths[..i]) < U64 && forall j | 0 <= j < i :: lengths[j] > 0
    {
      if lengths[i] == 0 { return Err(ZeroLength); }
      assert lengths[..i + 1][..i] == lengths[..i];
      TotalGrows(lengths, i + 1);
      if total + lengths[i] >= U64 { return Err(LengthOverflow); }
      total := total + lengths[i];
    }
    assert lengths[..|lengths|] == lengths;
    if |lengths| == 0 { return Err(Empty); }
    return Ok(total);
  }

  // ------------------------------------------------------------------------------------------
  // Flattening.

  /** The bytes of consecutive segments. */
  function Concat(segments: seq<seq<Byte>>): seq<Byte> {
    if segments == [] then [] else Concat(segments[..|segments| - 1]) + segments[|segments| - 1]
  }

  lemma ConcatNone(segments: seq<seq<Byte>>)
    ensures Concat(segments[..0]) == []
  {}

  lemma ConcatNext(segments: seq<seq<Byte>>, i: nat)
    requires i < |segments|
    ensures Concat(segments[..i + 1]) == Concat(segments[..i]) + segments[i]
  {
    assert segments[..i + 1][..i] == segments[..i];
  }

  lemma {:induction false} ConcatPrefix(segments: seq<seq<Byte>>, i: nat)
    requires i <= |segments|
    ensures Concat(segments[..i]) <= Concat(segments)
    decreases |segments| - i
  {
    if i == |segments| {
      assert segments[..i] == segments;
    } else {
      ConcatPrefix(segments, i + 1);
      ConcatNext(segments, i);
    }
  }

  /** Segment `i` sits in the flat string right after the segments before it. */
  lemma SegmentPlace(segments: seq<seq<Byte>>, i: nat)
    requires i < |segments|
    ensures var at := |Concat(segments[..i])|;
            at + |segments[i]| <= |Concat(segments)| && Concat(segments)[at..at + |segments[i]|] == segments[i]
  {
    ConcatNext(segments, i);
    ConcatPrefix(segments, i + 1);
  }

  lemma {:induction false} ConcatUpdate(segments: seq<seq<Byte>>, i: nat, new': seq<Byte>)
    requires i < |segments| && |new'| == |segments[i]|
    ensures |Concat(segments[..i])| + |new'| <= |Concat(segments)|
    ensures Concat(segments[i := new']) == Overwrite(Concat(segments), |Concat(segments[..i])|, new')
  {
    SegmentPlace(segments, i);
    var last := |segments| - 1;
    if i == last {
      assert segments[i := new'][..last] == segments[..last];
    } else {
      assert segments[..last][..i] == segments[..i];
      ConcatUpdate(segments[..last], i, new');
      assert segments[i := new'][..last] == segments[..last][i := new'];
    }
  }

  lemma OverwriteWithin(s: seq<Byte>, at: nat, len: nat, start: nat, data: seq<Byte>)
    requires at + len <= |s| && start + |data| <= len
    ensures Overwrite(s, at, Overwrite(s[at..at + len], start, data)) == Overwrite(s, at + start, data)
  {}

  lemma OverwriteNext(s: seq<Byte>, off: nat, first: seq<Byte>, second: seq<Byte>)
    requires off + |first| + |second| <= |s|
    ensures Overwrite(Overwrite(s, off, first), off + |first|, second) == Overwrite(s, off, first + second)
  {}

  // ------------------------------------------------------------------------------------------
  // Sources.

  /** A readable port: one slice, scattered segments, or a subregion of another port. */
  datatype Source =
    | Slice(bytes: seq<Byte>)
    | Segmented(segments: seq<seq<Byte>>, len: nat)
    | Subregion(source: Source, offset: nat, len: nat)

  function Length(s: Source): nat {
    match s
    case Slice(bytes) => |bytes|
    case Segmented(_, len) => len
    case Subregion(_, _, len) => len
  }

  /** What the constructors establish. */
  predicate ValidSource(s: Source) {
    match s
    case Slice(bytes) => |bytes| < U64
    case Segmented(segments, len) => segments != [] && len == |Concat(segments)| && len < U64
    case Subregion(source, offset, len) => ValidSource(source) && offset + len <= Length(source)
  }

  /** The flat bytes a source stands for. */
  function Content(s: Source): (r: seq<Byte>)
    requires ValidSource(s)
    ensures |r| == Length(s) < U64
  {
    match s
    case Slice(bytes) => bytes
    case Segmented(segments, _) => Concat(segments)
    case Subregion(source, offset, len) => Content(source)[offset..offset + len]
  }

  lemma {:induction false} TotalIsConcat(segments: seq<seq<Byte>>, lengths: seq<nat>)
    requires |lengths| == |segments| && forall i | 0 <= i < |segments| :: lengths[i] == |segments[i]|
    ensures Total(lengths) == |Concat(segments)|
  {
    if segments != [] { TotalIsConcat(segments[..|segments| - 1], lengths[..|lengths| - 1]); }
  }

  method NewSegmentedSource(segments: seq<seq<Byte>>) returns (r: Result<Source, SegmentError>)
    ensures r.Ok? <==>
            segments != [] && (forall i | 0 <= i < |segments| :: segments[i] != []) && |Concat(segments)| < U64
    ensures r.Ok? ==> ValidSource(r.value) && Content(r.value) == Concat(segments)
  {
    var lengths := seq(|segments|, i requires 0 <= i < |segments| => |segments[i]|);
    TotalIsConcat(segments, lengths);
    assert forall i | 0 <= i < |segments| :: lengths[i] == |segments[i]|;
    var len := CheckedSegmentLen(lengths);
    if len.Err? { return Err(len.error); }
    return Ok(Segmented(segments, len.value));
  }

  method NewReadableRegion(source: Source, offset: nat, len: nat) returns (r: Result<Source, AccessError>)
    requires ValidSource(source)
    ensures r.Ok? <==> offset + len <= Length(source)
    ensures r.Ok? ==> ValidSource(r.value) && Content(r.value) == Content(source)[offset..offset + len]
  {
    assert |Content(source)| < U64;
    if offset + len >= U64 || offset + len > Length(source) { return Err(OutOfBounds); }
    return Ok(Subregion(source, offset, len));
  }

  /** The contiguous view, when the port has one, is the flat content. */
  function AsContiguous(s: Source): (r: Option<seq<Byte>>)
    requires ValidSource(s)
    ensures r.Some? ==> r.value == Content(s)
  {
    match s
    case Slice(bytes) => Some(bytes)
    case Segmented(segments, _) =>
      if |segments| == 1 then assert Concat(segments) == Concat([]) + segments[0]; Some(segments[0]) else None
    case Subregion(source, offset, len) =>
      var view := AsContiguous(source);
      if view.None? || offset + len > |view.value| then None else Some(view.value[offset..offset + len])
  }

  method CopyFrom(target: array<Byte>, at: nat, data: seq<Byte>)
    requires at + |data| <= target.Length
    modifies target
    ensures target[..] == Overwrite(old(target[..]), at, data)
  {
    forall i | 0 <= i < |data| {
      target[at + i] := data[i];
    }
  }

  /** Copies bytes from `offset` until `target` is full. It succeeds exactly when the range is in
      bounds, and then yields the flat read whatever the segmentation. */
  method ReadAt(source: Source, offset: nat, target: array<Byte>) returns (r: Result<(), AccessError>)
    requires ValidSource(source)
    modifies target
    ensures r.Ok? <==> offset + target.Length <= Length(source)
    ensures r.Ok? ==> target[..] == Content(source)[offset..offset + target.Length]
    ensures r.Err? ==> target[..] == old(target[..])
    decreases source
  {
    assert |Content(source)| < U64;
    if offset + target.Length >= U64 || offset + target.Length > Length(source) { return Err(OutOfBounds); }
    match source {
      case Slice(bytes) =>
        CopyFrom(target, 0, bytes[offset..offset + target.Length]);
        return Ok(());
      case Segmented(segments, _) =>
        if target.Length == 0 { return Ok(()); }
        ReadSegments(segments, offset, target);
        return Ok(());
      case Subregion(inner, at, len) =>
        r := ReadAt(inner, at + offset, target);
        SliceOfSlice(Content(inner), at, at + len, offset, offset + target.Length);
    }
  }

  method ReadSegments(segments: seq<seq<Byte>>, offset: nat, target: array<Byte>)
    requires 0 < target.Length && offset + target.Length <= |Concat(segments)|
    modifies target
    ensures target[..] == Concat(segments)[offset..offset + target.Length]
  {
    hide Concat, Overwrite;
    ghost var flat := Concat(segments);
    var skip: nat, written: nat := offset, 0;
    ConcatNone(segments);
    assert segments[..|segments|] == segments;
    for i := 0 to |segments|
      invariant written < target.Length && |Concat(segments[..i])| + skip == offset + written
      invariant written > 0 ==> skip == 0
      invariant target[..written] == flat[offset..offset + written]
    {
      var segment := segments[i];
      ConcatNext(segments, i);
      SegmentPlace(segments, i);
      if skip >= |segment| {
        skip := skip - |segment|;
      } else {
        var start := skip;
        var room := target.Length - written;
        var count := if |segment| - start <= room then |segment| - start else room;
        ghost var before := target[..];
        CopyFrom(target, written, segment[start..start + count]);
        SegmentRead(flat, |Concat(segments[..i])|, segment, start, count, offset, before, written);
        written := written + count;
        skip := 0;
        if written == target.Length {
          assert target[..written] == target[..];
          return;
        }
      }
    }
    assert false;
  }

  /** A region of a region is a region of the port underneath. */
  lemma RegionsCompose(source: Source, a: nat, n: nat, b: nat, m: nat)
    requires ValidSource(Subregion(Subregion(source, a, n), b, m))
    ensures ValidSource(Subregion(source, a + b, m))
    ensures Content(Subregion(Subregion(source, a, n), b, m)) == Content(Subregion(source, a + b, m))
  {
    SliceOfSlice(Content(source), a, a + n, b, b + m);
  }

  /** One iteration of the segment loop extends the flat read by the bytes it copied. */
  lemma SegmentRead(flat: seq<Byte>, at: nat, segment: seq<Byte>, start: nat, count: nat, offset: nat,
                    target: seq<Byte>, written: nat)
    requires at + |segment| <= |flat| && flat[at..at + |segment|] == segment && start + count <= |segment|
    requires at + start == offset + written && written + count <= |target|
    requires target[..written] == flat[offset..offset + written]
    ensures Overwrite(target, written, segment[start..start + count])[..written + count]
            == flat[offset..offset + written + count]
  {
    var piece := segment[start..start + count];
    SliceOfSlice(flat, at, at + |segment|, start, start + count);
    assert Overwrite(target, written, piece)[..written + count] == target[..written] + piece;
  }

  // ------------------------------------------------------------------------------------------
  // Sinks.

  /** A writable port; exclusive borrows make its segments distinct arrays. */
  datatype Sink =
    | SliceSink(bytes: array<Byte>)
    | SegmentedSink(segments: seq<array<Byte>>, len: nat)
    | SubregionSink(sink: Sink, offset: nat, len: nat)

  function SinkLength(s: Sink): nat {
    match s
    case SliceSink(bytes) => bytes.Length
    case SegmentedSink(_, len) => len
    case SubregionSink(_, _, len) => len
  }

  ghost function Footprint(s: Sink): set<object> {
    match s
    case SliceSink(bytes) => {bytes}
    case SegmentedSink(segments, _) => set a | a in segments
    case SubregionSink(sink, _, _) => Footprint(sink)
  }

  ghost predicate DistinctArrays(segments: seq<array<Byte>>) {
    forall i, j | 0 <= i < j < |segments| :: segments[i] != segments[j]
  }

  ghost function Snapshot(segments: seq<array<Byte>>): (r: seq<seq<Byte>>)
    reads segments
    ensures |r| == |segments| && forall i | 0 <= i < |segments| :: r[i] == segments[i][..]
  {
    seq(|segments|, i requires 0 <= i < |segments| reads segments => segments[i][..])
  }

  ghost function SegmentTotal(segments: seq<array<Byte>>): nat {
    if segments == [] then 0 else SegmentTotal(segments[..|segments| - 1]) + segments[|segments| - 1].Length
  }

  lemma {:induction false} SnapshotLength(segments: seq<array<Byte>>)
    ensures |Concat(Snapshot(segments))| == SegmentTotal(segments)
  {
    if segments != [] {
      var last := |segments| - 1;
      SnapshotLength(segments[..last]);
      assert Snapshot(segments)[..last] == Snapshot(segments[..last]);
    }
  }

  ghost predicate ValidSink(s: Sink) {
    match s
    case SliceSink(bytes) => bytes.Length < U64
    case SegmentedSink(segments, len) => DistinctArrays(segments) && len == SegmentTotal(segments) && len < U64
    case SubregionSink(sink, offset, len) => ValidSink(sink) && offset + len <= SinkLength(sink)
  }

  ghost function Held(s: Sink): (r: seq<Byte>)
    requires ValidSink(s)
    reads Footprint(s)
    ensures |r| == SinkLength(s) < U64
  {
    match s
    case SliceSink(bytes) => bytes[..]
    case SegmentedSink(segments, _) => SnapshotLength(segments); Concat(Snapshot(segments))
    case SubregionSink(sink, offset, len) => Held(sink)[offset..offset + len]
  }

  /** The port at the bottom of nested subregions and where this one begins in it. */
  ghost function Root(s: Sink): (r: Sink)
    ensures Footprint(r) == Footprint(s) && (ValidSink(s) ==> ValidSink(r))
  {
    if s.SubregionSink? then Root(s.sink) else s
  }

  ghost function Start(s: Sink): (n: nat)
    ensures ValidSink(s) ==> n + SinkLength(s) <= SinkLength(Root(s))
  {
    if s.SubregionSink? then Start(s.sink) + s.offset else 0
  }

  lemma RootOf(s: Sink)
    ensures if s.SubregionSink? then Root(s) == Root(s.sink) && Start(s) == Start(s.sink) + s.offset
            else Root(s) == s && Start(s) == 0
  {}

  /** A nested region shows the corresponding window of the port at the bottom. */
  lemma {:induction false} RootHolds(s: Sink)
    requires ValidSink(s)
    ensures Held(s) == Held(Root(s))[Start(s)..Start(s) + SinkLength(s)]
  {
    hide Root, Start;
    RootOf(s);
    if s.SubregionSink? {
      RootHolds(s.sink);
      var at := Start(s.sink);
      SliceOfSlice(Held(Root(s)), at, at + SinkLength(s.sink), s.offset, s.offset + s.len);
    }
  }

  lemma OverwriteWindow(s: seq<Byte>, at: nat, len: nat, off: nat, data: seq<Byte>)
    requires at + len <= |s| && off + |data| <= len
    ensures Overwrite(s, at + off, data)[at..at + len] == Overwrite(s[at..at + len], off, data)
  {}

  /** Writes `data` at `offset`. It succeeds exactly when the range is in bounds, and then both this
      port and the one at the bottom hold the flat update: every other byte is as it was. */
  method WriteAt(sink: Sink, offset: nat, data: seq<Byte>) returns (r: Result<(), AccessError>)
    requires ValidSink(sink)
    modifies Footprint(sink)
    ensures r.Ok? <==> offset + |data| <= SinkLength(sink)
    ensures r.Ok? ==> Held(Root(sink)) == Overwrite(old(Held(Root(sink))), Start(sink) + offset, data)
    ensures r.Ok? ==> Held(sink) == Overwrite(old(Held(sink)), offset, data)
    ensures r.Err? ==> Held(Root(sink)) == old(Held(Root(sink)))
    decreases sink
  {
    hide Overwrite, SegmentTotal, DistinctArrays, Snapshot, Concat, Root, Start;
    RootOf(sink);
    assert |Held(sink)| < U64;
    if offset + |data| >= U64 || offset + |data| > SinkLength(sink) { return Err(OutOfBounds); }
    match sink {
      case SliceSink(bytes) =>
        CopyFrom(bytes, offset, data);
        return Ok(());
      case SegmentedSink(segments, _) =>
        if |data| == 0 {
          NothingWritten(Held(sink), offset, data);
          return Ok(());
        }
        SnapshotLength(segments);
        WriteSegments(segments, offset, data);
        return Ok(());
      case SubregionSink(inner, at, len) =>
        ghost var before := Held(inner);
        r := WriteAt(inner, at + offset, data);
        OverwriteWindow(before, at, len, offset, data);
    }
  }

  /** Writing one of several distinct segments leaves the others alone. */
  method CopyInto(segments: seq<array<Byte>>, i: nat, start: nat, data: seq<Byte>)
    requires DistinctArrays(segments) && i < |segments| && start + |data| <= segments[i].Length
    modifies segments[i]
    ensures Snapshot(segments) == old(Snapshot(segments))[i := Overwrite(old(segments[i][..]), start, data)]
  {
    hide Overwrite, Snapshot;
    CopyFrom(segments[i], start, data);
  }

  method WriteSegments(segments: seq<array<Byte>>, offset: nat, data: seq<Byte>)
    requires DistinctArrays(segments) && data != [] && offset + |data| <= |Concat(Snapshot(segments))|
    modifies segments
    ensures Concat(Snapshot(segments)) == Overwrite(old(Concat(Snapshot(segments))), offset, data)
  {
    hide Concat, Overwrite, Snapshot, DistinctArrays;
    ghost var initial := Snapshot(segments);
    var skip: nat, read: nat := offset, 0;
    ConcatNone(initial);
    assert initial[..|segments|] == initial;
    NothingWritten(Concat(initial), offset, data[..0]);
    for i := 0 to |segments|
      invariant read < |data| && |Concat(initial[..i])| + skip == offset + read
      invariant read > 0 ==> skip == 0
      invariant Concat(Snapshot(segments)) == Overwrite(Concat(initial), offset, data[..read])
    {
      var segment := segments[i];
      SameLengths(initial, Snapshot(segments), segments);
      ConcatNext(initial, i);
      if skip >= segment.Length {
        skip := skip - segment.Length;
      } else {
        var start := skip;
        var count := if segment.Length - start <= |data| - read then segment.Length - start else |data| - read;
        ghost var before := Snapshot(segments);
        CopyInto(segments, i, start, data[read..read + count]);
        SegmentWritten(initial, before, Snapshot(segments), i, offset, data, read, start, count);
        read := read + count;
        skip := 0;
        if read == |data| {
          assert data[..read] == data;
          return;
        }
      }
    }
    assert false;
  }

  lemma NothingWritten(s: seq<Byte>, offset: nat, none: seq<Byte>)
    requires offset <= |s| && none == []
    ensures Overwrite(s, offset, none) == s
  {}

  lemma SameLengths(a: seq<seq<Byte>>, b: seq<seq<Byte>>, segments: seq<array<Byte>>)
    requires |a| == |segments| == |b|
    requires forall j | 0 <= j < |a| :: |a[j]| == segments[j].Length
    requires forall j | 0 <= j < |a| :: |b[j]| == segments[j].Length
    ensures forall j | 0 <= j < |a| :: |a[j]| == |b[j]|
  {}

  lemma {:induction false} ConcatLengths(a: seq<seq<Byte>>, b: seq<seq<Byte>>)
    requires |a| == |b| && forall j | 0 <= j < |a| :: |a[j]| == |b[j]|
    ensures |Concat(a)| == |Concat(b)|
  {
    if a != [] { ConcatLengths(a[..|a| - 1], b[..|b| - 1]); }
  }

  /** One iteration of the segment loop extends the flat update by the bytes it copied. */
  lemma SegmentWritten(start0: seq<seq<Byte>>, before: seq<seq<Byte>>, after: seq<seq<Byte>>, i: nat, offset: nat,
                       data: seq<Byte>, read: nat, start: nat, count: nat)
    requires |before| == |start0| == |after| && i < |before| && read + count <= |data|
    requires forall j | 0 <= j < |before| :: |before[j]| == |start0[j]|
    requires start + count <= |before[i]| && |Concat(start0[..i])| + start == offset + read
    requires offset + |data| <= |Concat(start0)| && Concat(before) == Overwrite(Concat(start0), offset, data[..read])
    requires after == before[i := Overwrite(before[i], start, data[read..read + count])]
    ensures Concat(after) == Overwrite(Concat(start0), offset, data[..read + count])
  {
    hide Overwrite;
    var piece := data[read..read + count];
    ConcatLengths(before[..i], start0[..i]);
    ConcatUpdate(before, i, Overwrite(before[i], start, piece));
    SegmentPlace(before, i);
    OverwriteWithin(Concat(before), |Concat(before[..i])|, |before[i]|, start, piece);
    OverwriteNext(Concat(start0), offset, data[..read], piece);
    assert data[..read] + piece == data[..read + count];
  }
}
