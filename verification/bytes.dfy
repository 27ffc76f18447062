/** Bytes, little-endian integers and the field algebra shared by every codec. */
module Bytes {

  datatype Option<+T> = None | Some(value: T)

  datatype Result<+T, +E> = Ok(value: T) | Err(error: E) {
    predicate IsFailure() { Err? }
    function PropagateFailure<U>(): Result<U, E>
      requires Err?
    {
      Err(error)
    }
    function Extract(): T
      requires Ok?
    {
      value
    }
  }

  type Byte = b: int | 0 <= b < 256

  const U16: nat := 0x1_0000
  const U32: nat := 0x1_0000_0000
  const U64: nat := 0x1_0000_0000_0000_0000

  function Pow256(n: nat): (p: nat)
    ensures p > 0
  {
    if n == 0 then 1 else 256 * Pow256(n - 1)
  }

  lemma Widths()
    ensures Pow256(1) == 256 && Pow256(2) == U16 && Pow256(4) == U32 && Pow256(8) == U64
  {
    assert Pow256(1) == 256 * Pow256(0);
    assert Pow256(2) == 256 * Pow256(1);
    assert Pow256(3) == 256 * Pow256(2);
    assert Pow256(4) == 256 * Pow256(3);
    assert Pow256(5) == 256 * Pow256(4);
    assert Pow256(6) == 256 * Pow256(5);
    assert Pow256(7) == 256 * Pow256(6);
    assert Pow256(8) == 256 * Pow256(7);
  }

  /** The `width` low-order bytes of `v`, least significant first. */
  function LeBytes(width: nat, v: nat): (s: seq<Byte>)
    ensures |s| == width
  {
    if width == 0 then [] else [v % 256] + LeBytes(width - 1, v / 256)
  }

  function LeValue(s: seq<Byte>): nat {
    if s == [] then 0 else s[0] + 256 * LeValue(s[1..])
  }

  lemma {:induction false} LeRoundTrip(width: nat, v: nat)
    requires v < Pow256(width)
    ensures LeValue(LeBytes(width, v)) == v
  {
    if width > 0 {
      LeRoundTrip(width - 1, v / 256);
      assert LeBytes(width, v)[1..] == LeBytes(width - 1, v / 256);
    }
  }

  lemma DigitSplit(b: Byte, v: nat, p: nat)
    requires v < p
    ensures (b + 256 * v) % 256 == b && (b + 256 * v) / 256 == v && b + 256 * v < 256 * p
  {}

  lemma {:induction false} LeCanonical(s: seq<Byte>)
    ensures LeValue(s) < Pow256(|s|)
    ensures LeBytes(|s|, LeValue(s)) == s
  {
    if s != [] {
      LeCanonical(s[1..]);
      DigitSplit(s[0], LeValue(s[1..]), Pow256(|s| - 1));
      assert s == [s[0]] + s[1..];
    }
  }

  function Zeros(n: nat): (z: seq<Byte>)
    ensures |z| == n
  {
    seq(n, _ => 0)
  }

  lemma {:induction false} ZeroValue(n: nat)
    ensures LeBytes(n, 0) == Zeros(n)
  {
    if n > 0 {
      ZeroValue(n - 1);
      assert Zeros(n) == [0] + Zeros(n - 1);
    }
  }

  /** The little-endian integer in bytes `off .. off + w`. */
  function Field(s: seq<Byte>, off: nat, w: nat): (v: nat)
    requires off + w <= |s|
    ensures v < Pow256(w)
  {
    LeCanonical(s[off..off + w]);
    LeValue(s[off..off + w])
  }

  /** One field in front of the bytes that follow it. */
  function Put(w: nat, v: nat, rest: seq<Byte>): (r: seq<Byte>)
    ensures |r| == w + |rest| && r[w..] == rest
  {
    LeBytes(w, v) + rest
  }

  lemma ReadPast(w: nat, v: nat, rest: seq<Byte>, off: nat, n: nat)
    requires w <= off && off + n <= w + |rest|
    ensures Field(Put(w, v, rest), off, n) == Field(rest, off - w, n)
  {
    assert Put(w, v, rest)[off..off + n] == rest[off - w..off - w + n];
  }

  /** Reading at the front of `Put(w, v, rest)` gives `v`; every later read is a read of `rest`. */
  lemma PutReads(w: nat, v: nat, rest: seq<Byte>)
    requires v < Pow256(w)
    ensures Field(Put(w, v, rest), 0, w) == v
    ensures forall off: nat, n: nat | w <= off && off + n <= w + |rest| ::
              Field(Put(w, v, rest), off, n) == Field(rest, off - w, n)
  {
    assert Put(w, v, rest)[0..w] == LeBytes(w, v);
    LeRoundTrip(w, v);
    forall off: nat, n: nat | w <= off && off + n <= w + |rest|
      ensures Field(Put(w, v, rest), off, n) == Field(rest, off - w, n)
    {
      ReadPast(w, v, rest, off, n);
    }
  }

  /** Reading a field and putting it back in front of what follows restores the bytes. */
  lemma Peel(s: seq<Byte>, off: nat, w: nat)
    requires off + w <= |s|
    ensures Put(w, Field(s, off, w), s[off + w..]) == s[off..]
  {
    LeCanonical(s[off..off + w]);
    assert s[off..] == s[off..off + w] + s[off + w..];
  }

  lemma SliceOfSlice(s: seq<Byte>, a: nat, b: nat, i: nat, j: nat)
    requires a + j <= b <= |s| && i <= j
    ensures s[a..b][i..j] == s[a + i..a + j]
  {
    assert forall k | 0 <= k < j - i :: s[a..b][i..j][k] == s[a..b][i + k] == s[a + i + k];
  }

  lemma SubField(s: seq<Byte>, a: nat, b: nat, off: nat, w: nat)
    requires a + off + w <= b <= |s|
    ensures Field(s[a..b], off, w) == Field(s, a + off, w)
  {
    SliceOfSlice(s, a, b, off, off + w);
  }

  /** A field is zero exactly when all its bytes are. */
  lemma ZeroField(s: seq<Byte>, off: nat, w: nat)
    requires off + w <= |s|
    ensures s[off..off + w] == Zeros(w) <==> Field(s, off, w) == 0
  {
    ZeroValue(w);
    LeRoundTrip(w, 0);
    LeCanonical(s[off..off + w]);
  }

  /** `s` with the bytes at `off` replaced. */
  function Overwrite(s: seq<Byte>, off: nat, data: seq<Byte>): (r: seq<Byte>)
    requires off + |data| <= |s|
    ensures |r| == |s|
  {
    s[..off] + data + s[off + |data|..]
  }
}
