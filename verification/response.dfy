/** Response framing: payload first, header last, nothing past the frame. */
module Responses {
  import opened Bytes
  import opened Wire
  import opened Regions
  import opened Ledgers

  function ResponseHeader(status: nat, payload: nat, id: nat): (h: seq<Byte>)
    ensures |h| == 16
  {
    Put(2, status, Put(2, 0, Put(4, payload, Put(8, id, []))))
  }

  /** Any response port. A write in bounds either stores all its bytes or fails having stored some
      prefix of them; which writes fail is up to the transport. */
  class ResponseSink {
    var bytes: seq<Byte>
    var writes: nat
    const faults: nat -> Option<nat>

    constructor (bytes: seq<Byte>, faults: nat -> Option<nat>)
      ensures this.bytes == bytes && this.faults == faults && writes == 0
    {
      this.bytes, this.writes, this.faults := bytes, 0, faults;
    }

    method WriteAt(offset: nat, data: seq<Byte>) returns (ok: bool)
      modifies this
      ensures |bytes| == old(|bytes|) && writes == old(writes) + 1
      ensures ok <==> offset + |data| <= |bytes| && faults(old(writes)).None?
      ensures ok ==> bytes == Overwrite(old(bytes), offset, data)
      ensures !ok && offset + |data| <= |bytes| ==>
                bytes[..offset] == old(bytes[..offset]) && bytes[offset + |data|..] == old(bytes[offset + |data|..])
      ensures !ok && offset + |data| > |bytes| ==> bytes == old(bytes)
    {
      var fault := faults(writes);
      writes := writes + 1;
      if offset + |data| > |bytes| { return false; }
      if fault.Some? {
        var stored := if fault.value <= |data| then fault.value else |data|;
        bytes := Overwrite(bytes, offset, data[..stored]);
        return false;
      }
      bytes := Overwrite(bytes, offset, data);
      return true;
    }

    /** The payload region handed to a provider, which stores through it. */
    method Fill(data: seq<Byte>)
      requires 16 + |data| <= |bytes|
      modifies this`bytes
      ensures bytes == Overwrite(old(bytes), 16, data)
    {
      bytes := Overwrite(bytes, 16, data);
    }

    /** Writing a header without payload. */
    method WriteEmpty(maxResponse: nat, status: nat, id: nat) returns (r: Result<nat, WriteError>)
      modifies this
      ensures |bytes| == old(|bytes|)
      ensures Preflight(0, maxResponse, |bytes|).Err? ==> r == Preflight(0, maxResponse, |bytes|) && bytes == old(bytes)
      ensures Preflight(0, maxResponse, |bytes|).Ok? ==>
                r == if faults(old(writes)).None? then Ok(16) else Err(SinkAccess)
      ensures r.Ok? ==> bytes == ResponseHeader(status, 0, id) + old(bytes[16..])
      ensures r.Err? && |bytes| >= 16 ==> bytes[16..] == old(bytes[16..])
    {
      var used := Preflight(0, maxResponse, |bytes|);
      if used.Err? { return used; }
      var ok := WriteAt(0, ResponseHeader(status, 0, id));
      return if ok then Ok(16) else Err(SinkAccess);
    }

    /** Streams a payload of any length and then commits the header. `readable` says which reads of
        the payload source succeed; `committed` that the header write was reached. */
    method WriteResponse(maxResponse: nat, status: nat, id: nat, payload: Source, readable: nat -> bool)
      returns (r: Result<nat, WriteError>, ghost committed: bool)
      requires ValidSource(payload)
      modifies this
      ensures |bytes| == old(|bytes|)
      ensures Preflight(Length(payload), maxResponse, |bytes|).Err? ==>
                r == Preflight(Length(payload), maxResponse, |bytes|) && bytes == old(bytes)
      ensures Preflight(Length(payload), maxResponse, |bytes|).Ok? ==>
                r == Ok(16 + Length(payload)) || r == Err(SinkAccess) || r == Err(SourceAccess)
      ensures (forall n :: faults(n).None?) ==> r != Err(SinkAccess)
      ensures (forall n :: readable(n)) ==> r != Err(SourceAccess)
      ensures Preflight(Length(payload), maxResponse, |bytes|).Ok? && AsContiguous(payload).Some? ==>
                (r.Ok? <==> faults(old(writes)).None? && faults(old(writes) + 1).None?)
      ensures r.Ok? ==> committed
                        && bytes == ResponseHeader(status, Length(payload), id) + Content(payload)
                             + old(bytes[16 + Length(payload)..])
      ensures !committed && |bytes| >= 16 ==> bytes[..16] == old(bytes[..16])
      ensures committed ==> 16 + Length(payload) <= |bytes| && bytes[16..16 + Length(payload)] == Content(payload)
      ensures 16 + Length(payload) <= |bytes| ==> bytes[16 + Length(payload)..] == old(bytes[16 + Length(payload)..])
    {
      hide Content, ValidSource, ResponseHeader, Overwrite;
      committed := false;
      var used := Preflight(Length(payload), maxResponse, |bytes|);
      if used.Err? { return used, false; }
      var streamed := Stream(payload, readable);
      if streamed.Err? { return Err(streamed.error), false; }
      ghost var before := bytes;
      Placed(old(bytes), Content(payload));
      committed := true;
      var ok := WriteAt(0, ResponseHeader(status, Length(payload), id));
      if !ok {
        HeaderApart(before, bytes, 16 + Length(payload));
        return Err(SinkAccess), true;
      }
      Framed(old(bytes), Content(payload), ResponseHeader(status, Length(payload), id));
      return used, true;
    }

    /** The payload half: in one write when the source is contiguous, in 4096-byte chunks otherwise. */
    method Stream(payload: Source, readable: nat -> bool) returns (r: Result<(), WriteError>)
      requires ValidSource(payload) && 16 + Length(payload) <= |bytes|
      modifies this
      ensures |bytes| == old(|bytes|)
      ensures r.Ok? ==> bytes == Overwrite(old(bytes), 16, Content(payload))
      ensures r.Err? ==> r.error == SinkAccess || r.error == SourceAccess
      ensures (forall n :: faults(n).None?) ==> r != Err(SinkAccess)
      ensures (forall n :: readable(n)) ==> r != Err(SourceAccess)
      ensures AsContiguous(payload).Some? ==> (r.Ok? <==> faults(old(writes)).None?) && writes == old(writes) + 1
      ensures bytes[..16] == old(bytes[..16]) && bytes[16 + Length(payload)..] == old(bytes[16 + Length(payload)..])
    {
      hide Content, ValidSource, Overwrite;
      ghost var content := Content(payload);
      var view := AsContiguous(payload);
      if view.Some? {
        var ok := WriteAt(16, view.value);
        if !ok { return Err(SinkAccess); }
        Placed(old(bytes), content);
        return Ok(());
      }
      var offset, chunk := 0, 0;
      NothingWritten(bytes, 16, content[..0]);
      while offset < Length(payload)
        invariant offset <= Length(payload) && |bytes| == old(|bytes|)
        invariant bytes == Overwrite(old(bytes), 16, content[..offset])
      {
        var remaining := Length(payload) - offset;
        var count := if remaining <= 4096 then remaining else 4096;
        if !readable(chunk) {
          Partial(old(bytes), content, offset, bytes, 0);
          return Err(SourceAccess);
        }
        var scratch := new Byte[count];
        var read := ReadAt(payload, offset, scratch);
        assert read.Ok?;
        chunk := chunk + 1;
        ghost var before := bytes;
        var ok := WriteAt(16 + offset, scratch[..]);
        if !ok {
          Partial(old(bytes), content, offset, bytes, count);
          return Err(SinkAccess);
        }
        OverwriteNext(old(bytes), 16, content[..offset], scratch[..]);
        assert content[..offset] + scratch[..] == content[..offset + count];
        offset := offset + count;
      }
      assert content[..offset] == content;
      Placed(old(bytes), content);
      return Ok(());
    }
  }

  lemma Placed(s: seq<Byte>, content: seq<Byte>)
    requires 16 + |content| <= |s|
    ensures var t := Overwrite(s, 16, content);
            t[..16] == s[..16] && t[16..16 + |content|] == content && t[16 + |content|..] == s[16 + |content|..]
  {}

  /** A write that fails past `offset` payload bytes leaves everything outside the payload alone. */
  lemma Partial(s: seq<Byte>, content: seq<Byte>, offset: nat, after: seq<Byte>, count: nat)
    requires offset + count <= |content| && 16 + |content| <= |s| == |after|
    requires var t := Overwrite(s, 16, content[..offset]);
             after[..16 + offset] == t[..16 + offset] && after[16 + offset + count..] == t[16 + offset + count..]
    ensures after[..16] == s[..16] && after[16 + |content|..] == s[16 + |content|..]
  {
    var t := Overwrite(s, 16, content[..offset]);
    assert after[..16] == after[..16 + offset][..16] == t[..16 + offset][..16];
    assert after[16 + |content|..] == after[16 + offset + count..][|content| - offset - count..];
    assert t[16 + |content|..] == t[16 + offset + count..][|content| - offset - count..];
  }

  lemma HeaderApart(before: seq<Byte>, after: seq<Byte>, n: nat)
    requires |before| == |after| && 16 <= n <= |after| && after[16..] == before[16..]
    ensures after[16..n] == before[16..n] && after[n..] == before[n..]
  {
    assert forall i | 16 <= i < |after| :: after[i] == after[16..][i - 16] == before[16..][i - 16] == before[i];
  }

  lemma Framed(s: seq<Byte>, content: seq<Byte>, header: seq<Byte>)
    requires 16 + |content| <= |s| && |header| == 16
    ensures var t := Overwrite(Overwrite(s, 16, content), 0, header);
            && t == header + content + s[16 + |content|..]
            && t[16..16 + |content|] == content && t[16 + |content|..] == s[16 + |content|..]
  {}
}
