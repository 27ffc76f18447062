/** The protobuf framing of the Core ML encoders, with the parser that shows it unambiguous. */
module Protobuf {
  import opened Bytes

  // ------------------------------------------------------------------------------------------
  // Base 128 varints.

  function VarintBytes(v: nat): (r: seq<Byte>)
    ensures r != []
  {
    if v < 128 then [v] else [v % 128 + 128] + VarintBytes(v / 128)
  }

  /** Appends the varint of a 64-bit value, low seven bits first. */
  method Varint(target: seq<Byte>, value: nat) returns (r: seq<Byte>)
    requires value < U64
    ensures r == target + VarintBytes(value)
  {
    r := target;
    var rest := value;
    while rest >= 128
      invariant r + VarintBytes(rest) == target + VarintBytes(value)
      decreases rest
    {
      assert r + VarintBytes(rest) == (r + [rest % 128 + 128]) + VarintBytes(rest / 128);
      r := r + [rest % 128 + 128];
      rest := rest / 128;
    }
    r := r + [rest];
  }

  datatype Parsed<T> = Parsed(value: T, rest: seq<Byte>)

  function ParseVarint(s: seq<Byte>): (r: Option<Parsed<nat>>)
    ensures r.Some? ==> |r.value.rest| < |s|
  {
    if s == [] then None
    else if s[0] < 128 then Some(Parsed(s[0], s[1..]))
    else
      var high := ParseVarint(s[1..]);
      if high.None? then None else Some(Parsed(s[0] - 128 + 128 * high.value.value, high.value.rest))
  }

  /** A varint decodes back whatever follows it. */
  lemma {:induction false} VarintRoundTrip(v: nat, tail: seq<Byte>)
    ensures ParseVarint(VarintBytes(v) + tail) == Some(Parsed(v, tail))
    decreases v
  {
    var s := VarintBytes(v) + tail;
    if v >= 128 {
      VarintRoundTrip(v / 128, tail);
      assert s[1..] == VarintBytes(v / 128) + tail;
    } else {
      assert s[1..] == tail;
    }
  }

  function Pow128(n: nat): nat { if n == 0 then 1 else 128 * Pow128(n - 1) }

  /** `n` groups of seven bits take at most `n` bytes. */
  lemma {:induction false} VarintLength(v: nat, n: nat)
    requires 1 <= n && v < Pow128(n)
    ensures |VarintBytes(v)| <= n
    decreases n
  {
    if v >= 128 {
      assert Pow128(n) == 128 * Pow128(n - 1);
      assert n > 1 by { assert Pow128(1) == 128 * Pow128(0); }
      VarintLength(v / 128, n - 1);
    }
  }

  /** A 64-bit value takes at most ten bytes, and a sign-extended negative one exactly ten. */
  lemma VarintIsShort(v: nat)
    requires v < U64
    ensures |VarintBytes(v)| <= 10
    ensures v >= 0x8000_0000_0000_0000 ==> |VarintBytes(v)| == 10
  {
    TenGroups();
    VarintLength(v, 10);
    if v >= 0x8000_0000_0000_0000 { VarintAtLeast(v, 9); }
  }

  lemma TenGroups()
    ensures Pow128(9) == 0x8000_0000_0000_0000 && U64 <= Pow128(10)
  {
    assert Pow128(2) == 128 * Pow128(1) && Pow128(1) == 128 * Pow128(0);
    assert Pow128(4) == 128 * Pow128(3) && Pow128(3) == 128 * Pow128(2);
    assert Pow128(6) == 128 * Pow128(5) && Pow128(5) == 128 * Pow128(4);
    assert Pow128(8) == 128 * Pow128(7) && Pow128(7) == 128 * Pow128(6);
    assert Pow128(10) == 128 * Pow128(9) && Pow128(9) == 128 * Pow128(8);
  }

  lemma {:induction false} VarintAtLeast(v: nat, n: nat)
    requires Pow128(n) <= v
    ensures |VarintBytes(v)| > n
    decreases n
  {
    if n > 0 { VarintAtLeast(v / 128, n - 1); }
  }

  /** The 64-bit pattern of a sign-extended signed value, and back at either width. */
  function SignExtend(v: int): nat
    requires -0x8000_0000_0000_0000 <= v < 0x8000_0000_0000_0000
  {
    if v >= 0 then v else v + U64
  }

  function AsInt64(u: nat): int { if u < 0x8000_0000_0000_0000 then u else u - U64 }

  function AsInt32(u: nat): int { if u % U32 < 0x8000_0000 then u % U32 else u % U32 - U32 }

  /** Signed values survive, also when the reader truncates an INT32 to its low half. */
  lemma SignedRoundTrip(v: int, tail: seq<Byte>)
    requires -0x8000_0000_0000_0000 <= v < 0x8000_0000_0000_0000
    ensures var parsed := ParseVarint(VarintBytes(SignExtend(v)) + tail);
            && parsed == Some(Parsed(SignExtend(v), tail)) && AsInt64(parsed.value.value) == v
            && (-0x8000_0000 <= v < 0x8000_0000 ==> AsInt32(parsed.value.value) == v)
            && (v < 0 ==> |VarintBytes(SignExtend(v))| == 10)
  {
    VarintRoundTrip(SignExtend(v), tail);
    if v < 0 { VarintIsShort(SignExtend(v)); }
  }

  // ------------------------------------------------------------------------------------------
  // Packed varints.

  function PackedBytes(values: seq<nat>): seq<Byte> {
    if values == [] then [] else PackedBytes(values[..|values| - 1]) + VarintBytes(values[|values| - 1])
  }

  method PackVarints(values: seq<nat>) returns (packed: seq<Byte>)
    requires forall i | 0 <= i < |values| :: values[i] < U64
    ensures packed == PackedBytes(values)
  {
    packed := [];
    for n := 0 to |values|
      invariant packed == PackedBytes(values[..n])
    {
      packed := Varint(packed, values[n]);
      assert values[..n + 1][..n] == values[..n];
    }
    assert values[..|values|] == values;
  }

  function ParsePacked(s: seq<Byte>): Option<seq<nat>>
    decreases |s|
  {
    if s == [] then Some([])
    else
      var first := ParseVarint(s);
      if first.None? then None
      else
        var others := ParsePacked(first.value.rest);
        if others.None? then None else Some([first.value.value] + others.value)
  }

  lemma PackedBack(values: seq<nat>)
    ensures PackedBytes(values)
            == if values == [] then []
               else PackedBytes(values[..|values| - 1]) + VarintBytes(values[|values| - 1])
  {}

  lemma Associate(a: seq<Byte>, b: seq<Byte>, c: seq<Byte>)
    ensures (a + b) + c == a + (b + c)
  {}

  lemma {:induction false} PackedFront(values: seq<nat>)
    requires values != []
    ensures PackedBytes(values) == VarintBytes(values[0]) + PackedBytes(values[1..])
  {
    hide PackedBytes, VarintBytes;
    var last := |values| - 1;
    PackedBack(values);
    PackedBack(values[1..]);
    if last > 0 {
      PackedFront(values[..last]);
      assert values[..last][1..] == values[1..][..last - 1];
      Associate(VarintBytes(values[0]), PackedBytes(values[..last][1..]), VarintBytes(values[last]));
    } else {
      assert values[..0] == [] && values[1..] == [];
    }
  }

  lemma {:induction false} PackedRoundTrip(values: seq<nat>)
    ensures ParsePacked(PackedBytes(values)) == Some(values)
  {
    if values != [] {
      PackedFront(values);
      VarintRoundTrip(values[0], PackedBytes(values[1..]));
      PackedRoundTrip(values[1..]);
      assert values == [values[0]] + values[1..];
    }
  }

  // ------------------------------------------------------------------------------------------
  // Fields.

  /** One field of a message: a varint, a 32-bit float by its bits, or length-delimited bytes. */
  datatype Field =
    | VarintField(number: nat, value: nat)
    | FloatField(number: nat, bits: nat)
    | BytesField(number: nat, data: seq<Byte>)

  function FieldBytes(f: Field): (r: seq<Byte>)
    ensures r != [] && (f.BytesField? ==> |f.data| < |r|)
  {
    match f
    case VarintField(number, value) => VarintBytes(number * 8) + VarintBytes(value)
    case FloatField(number, bits) => VarintBytes(number * 8 + 5) + LeBytes(4, bits)
    case BytesField(number, data) => VarintBytes(number * 8 + 2) + VarintBytes(|data|) + data
  }

  predicate TypedField(f: Field) { f.FloatField? ==> f.bits < U32 }

  function ParseField(s: seq<Byte>): (r: Option<Parsed<Field>>)
    ensures r.Some? ==> |r.value.rest| < |s|
    ensures r.Some? && r.value.value.BytesField? ==> |r.value.value.data| < |s|
  {
    var key := ParseVarint(s);
    if key.None? then None
    else
      var number, kind, rest := key.value.value / 8, key.value.value % 8, key.value.rest;
      if kind == 0 then
        var v := ParseVarint(rest);
        if v.None? then None else Some(Parsed(VarintField(number, v.value.value), v.value.rest))
      else if kind == 5 then
        if |rest| < 4 then None else Some(Parsed(FloatField(number, LeValue(rest[..4])), rest[4..]))
      else if kind == 2 then
        var n := ParseVarint(rest);
        if n.None? || n.value.value > |n.value.rest| then None
        else Some(Parsed(BytesField(number, n.value.rest[..n.value.value]), n.value.rest[n.value.value..]))
      else None
  }

  lemma VarintFieldRoundTrip(number: nat, value: nat, tail: seq<Byte>)
    requires TypedField(VarintField(number, value))
    ensures ParseField(FieldBytes(VarintField(number, value)) + tail) == Some(Parsed(VarintField(number, value), tail))
  {
    hide VarintBytes, ParseVarint;
    assert FieldBytes(VarintField(number, value)) + tail == VarintBytes(number * 8) + (VarintBytes(value) + tail);
    VarintRoundTrip(number * 8, VarintBytes(value) + tail);
    VarintRoundTrip(value, tail);
  }

  lemma FloatFieldRoundTrip(number: nat, bits: nat, tail: seq<Byte>)
    requires TypedField(FloatField(number, bits))
    ensures ParseField(FieldBytes(FloatField(number, bits)) + tail) == Some(Parsed(FloatField(number, bits), tail))
  {
    hide VarintBytes, ParseVarint, LeBytes, LeValue, Pow256;
    assert FieldBytes(FloatField(number, bits)) + tail == VarintBytes(number * 8 + 5) + (LeBytes(4, bits) + tail);
    VarintRoundTrip(number * 8 + 5, LeBytes(4, bits) + tail);
    Widths();
    LeRoundTrip(4, bits);
    assert (LeBytes(4, bits) + tail)[..4] == LeBytes(4, bits) && (LeBytes(4, bits) + tail)[4..] == tail;
  }

  lemma BytesFieldRoundTrip(number: nat, data: seq<Byte>, tail: seq<Byte>)
    requires TypedField(BytesField(number, data))
    ensures ParseField(FieldBytes(BytesField(number, data)) + tail) == Some(Parsed(BytesField(number, data), tail))
  {
    hide VarintBytes, ParseVarint;
    assert FieldBytes(BytesField(number, data)) + tail
           == VarintBytes(number * 8 + 2) + (VarintBytes(|data|) + (data + tail));
    VarintRoundTrip(number * 8 + 2, VarintBytes(|data|) + (data + tail));
    VarintRoundTrip(|data|, data + tail);
    assert (data + tail)[..|data|] == data && (data + tail)[|data|..] == tail;
  }

  lemma FieldRoundTrip(f: Field, tail: seq<Byte>)
    requires TypedField(f)
    ensures ParseField(FieldBytes(f) + tail) == Some(Parsed(f, tail))
  {
    hide FieldBytes, ParseField, TypedField;
    match f {
      case VarintField(number, value) => VarintFieldRoundTrip(number, value, tail);
      case FloatField(number, bits) => FloatFieldRoundTrip(number, bits, tail);
      case BytesField(number, data) => BytesFieldRoundTrip(number, data, tail);
    }
  }

  function MessageBytes(fields: seq<Field>): seq<Byte> {
    if fields == [] then [] else FieldBytes(fields[0]) + MessageBytes(fields[1..])
  }

  function ParseMessage(s: seq<Byte>): (r: Option<seq<Field>>)
    ensures r.Some? ==> forall i | 0 <= i < |r.value| :: r.value[i].BytesField? ==> |r.value[i].data| < |s|
    decreases |s|
  {
    if s == [] then Some([])
    else
      var first := ParseField(s);
      if first.None? then None
      else
        var others := ParseMessage(first.value.rest);
        if others.None? then None else Some([first.value.value] + others.value)
  }

  /** Any concatenation of fields parses back to the same list. */
  lemma {:induction false} MessageRoundTrip(fields: seq<Field>)
    requires forall i | 0 <= i < |fields| :: TypedField(fields[i])
    ensures ParseMessage(MessageBytes(fields)) == Some(fields)
  {
    hide FieldBytes, ParseField;
    if fields != [] {
      FieldRoundTrip(fields[0], MessageBytes(fields[1..]));
      MessageRoundTrip(fields[1..]);
      assert fields == [fields[0]] + fields[1..];
    }
  }

  /** So equal bytes mean equal fields. */
  lemma FramingIsUnambiguous(a: seq<Field>, b: seq<Field>)
    requires forall i | 0 <= i < |a| :: TypedField(a[i])
    requires forall i | 0 <= i < |b| :: TypedField(b[i])
    requires MessageBytes(a) == MessageBytes(b)
    ensures a == b
  {
    MessageRoundTrip(a);
    MessageRoundTrip(b);
  }

  // ------------------------------------------------------------------------------------------
  // Nested messages.

  /** A message tree: scalar fields, opaque bytes and submessages. */
  datatype Node =
    | Plain(field: Field)
    | Sub(number: nat, children: seq<Node>)

  /** Which field numbers hold submessages, and with what schema. */
  datatype Schema = Schema(messages: map<nat, Schema>)

  function FieldOf(n: Node): Field
    decreases n, 0
  {
    match n
    case Plain(f) => f
    case Sub(number, children) => BytesField(number, MessageBytes(FieldsOf(children)))
  }

  function FieldsOf(nodes: seq<Node>): (r: seq<Field>)
    ensures |r| == |nodes|
    decreases nodes, 1
  {
    if nodes == [] then [] else [FieldOf(nodes[0])] + FieldsOf(nodes[1..])
  }

  predicate Conforms(n: Node, schema: Schema)
    decreases n, 0
  {
    match n
    case Plain(f) => TypedField(f) && (f.BytesField? ==> f.number !in schema.messages)
    case Sub(number, children) => number in schema.messages && AllConform(children, schema.messages[number])
  }

  predicate AllConform(nodes: seq<Node>, schema: Schema)
    decreases nodes, 1
  {
    nodes == [] || (Conforms(nodes[0], schema) && AllConform(nodes[1..], schema))
  }

  function ParseTree(s: seq<Byte>, schema: Schema): Option<seq<Node>>
    decreases |s|, 1, 0
  {
    var fields := ParseMessage(s);
    if fields.None? then None else ParseNodes(fields.value, |s|, schema)
  }

  /** Opens the submessages among the fields of a message of `bound` bytes. */
  function ParseNodes(fields: seq<Field>, bound: nat, schema: Schema): Option<seq<Node>>
    requires forall i | 0 <= i < |fields| :: fields[i].BytesField? ==> |fields[i].data| < bound
    decreases bound, 0, |fields|
  {
    if fields == [] then Some([])
    else
      var f := fields[0];
      var node :=
        if f.BytesField? && f.number in schema.messages then
          var children := ParseTree(f.data, schema.messages[f.number]);
          if children.None? then None else Some(Sub(f.number, children.value))
        else Some(Plain(f));
      var others := ParseNodes(fields[1..], bound, schema);
      if node.None? || others.None? then None else Some([node.value] + others.value)
  }

  lemma {:induction false} ConformingIsTyped(nodes: seq<Node>, schema: Schema)
    requires AllConform(nodes, schema)
    ensures forall i | 0 <= i < |nodes| :: TypedField(FieldsOf(nodes)[i])
  {
    if nodes != [] { ConformingIsTyped(nodes[1..], schema); }
  }

  lemma {:induction false} NodesRoundTrip(nodes: seq<Node>, bound: nat, schema: Schema)
    requires AllConform(nodes, schema)
    requires forall i | 0 <= i < |nodes| :: FieldsOf(nodes)[i].BytesField? ==> |FieldsOf(nodes)[i].data| < bound
    ensures ParseNodes(FieldsOf(nodes), bound, schema) == Some(nodes)
    decreases nodes, 0
  {
    if nodes != [] {
      var fields := FieldsOf(nodes);
      assert fields[1..] == FieldsOf(nodes[1..]) && fields[0] == FieldOf(nodes[0]);
      assert nodes[0] in nodes;
      if nodes[0].Sub? { TreeRoundTrip(nodes[0].children, schema.messages[nodes[0].number]); }
      NodesRoundTrip(nodes[1..], bound, schema);
      assert nodes == [nodes[0]] + nodes[1..];
    }
  }

  /** Nested messages parse back too, to any depth. */
  lemma {:induction false} TreeRoundTrip(nodes: seq<Node>, schema: Schema)
    requires AllConform(nodes, schema)
    ensures ParseTree(MessageBytes(FieldsOf(nodes)), schema) == Some(nodes)
    decreases nodes, 1
  {
    ConformingIsTyped(nodes, schema);
    MessageRoundTrip(FieldsOf(nodes));
    NodesRoundTrip(nodes, |MessageBytes(FieldsOf(nodes))|, schema);
  }
}
