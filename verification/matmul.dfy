/** The integer ML Program tier: INT8 MATMUL and IDENTITY as sequences of MIL operations. */
module MilPrograms {
  import opened Bytes

  const INT32_MAX: int := 0x7fff_ffff

  /** Two's-complement 32-bit and 8-bit arithmetic. */
  function Wrap32(x: int): int { (x + 0x8000_0000) % 0x1_0000_0000 - 0x8000_0000 }

  function Wrap8(x: int): int { (x + 128) % 256 - 128 }

  function SignedByte(b: Byte): int { if b < 128 then b else b - 256 }

  predicate Int8(x: int) { -128 <= x <= 127 }

  // ------------------------------------------------------------------------------------------
  // Rank-three tensors.

  type Tensor = seq<seq<seq<int>>>

  ghost predicate Shaped(t: Tensor, a: nat, b: nat, c: nat) {
    |t| == a && forall n | 0 <= n < a :: |t[n]| == b && forall h | 0 <= h < b :: |t[n][h]| == c
  }

  ghost predicate AllInt8(t: Tensor) {
    forall n, h, c | 0 <= n < |t| && 0 <= h < |t[n]| && 0 <= c < |t[n][h]| :: Int8(t[n][h][c])
  }

  ghost predicate RowInt8(row: seq<int>) { forall c | 0 <= c < |row| :: Int8(row[c]) }

  ghost predicate RowsInt8(m: seq<seq<int>>) { forall c | 0 <= c < |m| :: RowInt8(m[c]) }

  function Shift(row: seq<int>, y: int): (r: seq<int>)
    ensures |r| == |row| && forall c | 0 <= c < |row| :: r[c] == Wrap32(row[c] + y)
  {
    if row == [] then [] else Shift(row[..|row| - 1], y) + [Wrap32(row[|row| - 1] + y)]
  }

  function ShiftRows(m: seq<seq<int>>, y: int): (r: seq<seq<int>>)
    ensures |r| == |m| && forall h | 0 <= h < |m| :: r[h] == Shift(m[h], y)
  {
    if m == [] then [] else ShiftRows(m[..|m| - 1], y) + [Shift(m[|m| - 1], y)]
  }

  function ShiftAll(t: Tensor, y: int): (r: Tensor)
    ensures |r| == |t| && forall n | 0 <= n < |t| :: r[n] == ShiftRows(t[n], y)
  {
    if t == [] then [] else ShiftAll(t[..|t| - 1], y) + [ShiftRows(t[|t| - 1], y)]
  }

  function NarrowRow(row: seq<int>): (r: seq<int>)
    ensures |r| == |row| && forall c | 0 <= c < |row| :: r[c] == Wrap8(row[c])
  {
    if row == [] then [] else NarrowRow(row[..|row| - 1]) + [Wrap8(row[|row| - 1])]
  }

  function NarrowRows(m: seq<seq<int>>): (r: seq<seq<int>>)
    ensures |r| == |m| && forall h | 0 <= h < |m| :: r[h] == NarrowRow(m[h])
  {
    if m == [] then [] else NarrowRows(m[..|m| - 1]) + [NarrowRow(m[|m| - 1])]
  }

  function NarrowAll(t: Tensor): (r: Tensor)
    ensures |r| == |t| && forall n | 0 <= n < |t| :: r[n] == NarrowRows(t[n])
  {
    if t == [] then [] else NarrowAll(t[..|t| - 1]) + [NarrowRows(t[|t| - 1])]
  }

  ghost predicate Columns(m: seq<seq<int>>, k: nat, w: nat) { k <= |m| && forall c | 0 <= c < k :: w < |m[c]| }

  /** INT32 accumulation of one output element. */
  function Accumulate(row: seq<int>, m: seq<seq<int>>, w: nat, k: nat): int
    requires k <= |row| && Columns(m, k, w)
  {
    if k == 0 then 0 else Wrap32(Accumulate(row, m, w, k - 1) + Wrap32(row[k - 1] * m[k - 1][w]))
  }

  /** The same sum in unbounded integers, with both zero points subtracted: one element of the
      TOSA 1.0 MATMUL operator. */
  function ExactDot(row: seq<int>, m: seq<seq<int>>, w: nat, k: nat, zl: int, zr: int): int
    requires k <= |row| && Columns(m, k, w)
  {
    if k == 0 then 0 else ExactDot(row, m, w, k - 1, zl, zr) + (row[k - 1] - zl) * (m[k - 1][w] - zr)
  }

  // ------------------------------------------------------------------------------------------
  // Operations and their meaning.

  datatype Name =
    | Input0 | Input1 | Output0 | LhsWideDtype | RhsWideDtype | LhsWide | RhsWide | LhsZeroPoint | RhsZeroPoint
    | LhsCentered | RhsCentered | TransposeX | TransposeY
    | IdentityWideDtype | IdentityWide | IdentityZero | IdentityExact | IdentityNarrowDtype

  datatype DType = Int8Type | Int32Type

  datatype Value = Type(dtype: DType) | Scalar(int32: int) | Flag(bool) | Data(dtype: DType, t: Tensor)

  datatype Op =
    | Const(out: Name, value: Value)
    | Cast(x: Name, dtype: Name, out: Name)
    | Sub(x: Name, y: Name, out: Name)
    | Add(x: Name, y: Name, out: Name)
    | MatMul(x: Name, y: Name, transposeX: Name, transposeY: Name, out: Name)

  type Env = map<Name, Value>

  predicate IsData(e: Env, x: Name, dtype: DType) { x in e && e[x].Data? && e[x].dtype == dtype }

  function Width(m: seq<seq<int>>): nat { if m == [] then 0 else |m[0]| }

  predicate Multipliable(x: Tensor, y: Tensor) {
    && |y| == |x|
    && (forall n | 0 <= n < |x| :: forall h | 0 <= h < |x[n]| :: |x[n][h]| == |y[n]|)
    && (forall n | 0 <= n < |y| :: forall c | 0 <= c < |y[n]| :: |y[n][c]| == Width(y[n]))
  }

  /** The matrix products of two batches, every element accumulated in INT32. */
  function Multiply(x: Tensor, y: Tensor): Tensor
    requires Multipliable(x, y)
  {
    seq(|x|, n requires 0 <= n < |x| =>
      seq(|x[n]|, h requires 0 <= h < |x[n]| =>
        seq(Width(y[n]), w requires 0 <= w < Width(y[n]) => Accumulate(x[n][h], y[n], w, |y[n]|))))
  }

  /** The value one operation defines, from the values computed so far. */
  function Step(e: Env, op: Op): Option<Value> {
    match op
    case Const(_, value) => Some(value)
    case Cast(x, dtype, _) =>
      if dtype in e && e[dtype] == Type(Int32Type) && IsData(e, x, Int8Type) then Some(Data(Int32Type, e[x].t))
      else if dtype in e && e[dtype] == Type(Int8Type) && IsData(e, x, Int32Type) then
        Some(Data(Int8Type, NarrowAll(e[x].t)))
      else None
    case Sub(x, y, _) =>
      if IsData(e, x, Int32Type) && y in e && e[y].Scalar? then Some(Data(Int32Type, ShiftAll(e[x].t, -e[y].int32)))
      else None
    case Add(x, y, _) =>
      if IsData(e, x, Int32Type) && y in e && e[y].Scalar? then Some(Data(Int32Type, ShiftAll(e[x].t, e[y].int32)))
      else None
    case MatMul(x, y, tx, ty, _) =>
      if IsData(e, x, Int32Type) && IsData(e, y, Int32Type) && tx in e && e[tx] == Flag(false) && ty in e
         && e[ty] == Flag(false)
         && Multipliable(e[x].t, e[y].t) then Some(Data(Int32Type, Multiply(e[x].t, e[y].t)))
      else None
  }

  /** The block from operation `i` on, each operation defining its output in turn. */
  function Eval(e: Env, ops: seq<Op>, i: nat): Option<Env>
    requires i <= |ops|
    decreases |ops| - i
  {
    if i == |ops| then Some(e)
    else
      var r := Step(e, ops[i]);
      if r.None? then None else Eval(e[ops[i].out := r.value], ops, i + 1)
  }

  function EncodeMatmul(lhsZero: Byte, rhsZero: Byte): seq<Op> {
    [Const(LhsWideDtype, Type(Int32Type)),
     Cast(Input0, LhsWideDtype, LhsWide),
     Const(RhsWideDtype, Type(Int32Type)),
     Cast(Input1, RhsWideDtype, RhsWide),
     Const(LhsZeroPoint, Scalar(SignedByte(lhsZero))),
     Sub(LhsWide, LhsZeroPoint, LhsCentered),
     Const(RhsZeroPoint, Scalar(SignedByte(rhsZero))),
     Sub(RhsWide, RhsZeroPoint, RhsCentered),
     Const(TransposeX, Flag(false)),
     Const(TransposeY, Flag(false)),
     MatMul(LhsCentered, RhsCentered, TransposeX, TransposeY, Output0)]
  }

  function EncodeIdentity(): seq<Op> {
    [Const(IdentityWideDtype, Type(Int32Type)),
     Cast(Input0, IdentityWideDtype, IdentityWide),
     Const(IdentityZero, Scalar(0)),
     Add(IdentityWide, IdentityZero, IdentityExact),
     Const(IdentityNarrowDtype, Type(Int8Type)),
     Cast(IdentityExact, IdentityNarrowDtype, Output0)]
  }

  lemma EvalNext(e: Env, ops: seq<Op>, i: nat, r: Value) returns (next: Env)
    requires i < |ops| && Step(e, ops[i]) == Some(r)
    ensures next == e[ops[i].out := r] && Eval(e, ops, i) == Eval(next, ops, i + 1)
  {
    next := e[ops[i].out := r];
  }

  lemma EvalDone(e: Env, ops: seq<Op>)
    ensures Eval(e, ops, |ops|) == Some(e)
  {}

  lemma Widened(e: Env, ops: seq<Op>, lhs: Tensor, rhs: Tensor, lhsZero: Byte, rhsZero: Byte) returns (next: Env)
    requires ops == EncodeMatmul(lhsZero, rhsZero)
    requires Input0 in e && Input1 in e && e[Input0] == Data(Int8Type, lhs) && e[Input1] == Data(Int8Type, rhs)
    ensures LhsWide in next && RhsWide in next && next[LhsWide] == Data(Int32Type, lhs)
            && next[RhsWide] == Data(Int32Type, rhs)
    ensures Eval(e, ops, 0) == Eval(next, ops, 4)
  {
    hide Eval, SignedByte;
    var e1 := EvalNext(e, ops, 0, Type(Int32Type));
    var e2 := EvalNext(e1, ops, 1, Data(Int32Type, lhs));
    var e3 := EvalNext(e2, ops, 2, Type(Int32Type));
    next := EvalNext(e3, ops, 3, Data(Int32Type, rhs));
  }

  lemma Centered(e: Env, ops: seq<Op>, lhs: Tensor, rhs: Tensor, lhsZero: Byte, rhsZero: Byte) returns (next: Env)
    requires ops == EncodeMatmul(lhsZero, rhsZero)
    requires LhsWide in e && RhsWide in e && e[LhsWide] == Data(Int32Type, lhs) && e[RhsWide] == Data(Int32Type, rhs)
    ensures LhsCentered in next && next[LhsCentered] == Data(Int32Type, ShiftAll(lhs, -SignedByte(lhsZero)))
    ensures RhsCentered in next && next[RhsCentered] == Data(Int32Type, ShiftAll(rhs, -SignedByte(rhsZero)))
    ensures Eval(e, ops, 4) == Eval(next, ops, 8)
  {
    hide Eval, SignedByte, ShiftAll;
    var e5 := EvalNext(e, ops, 4, Scalar(SignedByte(lhsZero)));
    var e6 := EvalNext(e5, ops, 5, Data(Int32Type, ShiftAll(lhs, -SignedByte(lhsZero))));
    var e7 := EvalNext(e6, ops, 6, Scalar(SignedByte(rhsZero)));
    next := EvalNext(e7, ops, 7, Data(Int32Type, ShiftAll(rhs, -SignedByte(rhsZero))));
  }

  lemma Multiplied(e: Env, ops: seq<Op>, x: Tensor, y: Tensor, lhsZero: Byte, rhsZero: Byte) returns (final: Env)
    requires ops == EncodeMatmul(lhsZero, rhsZero) && Multipliable(x, y)
    requires LhsCentered in e && RhsCentered in e && e[LhsCentered] == Data(Int32Type, x)
             && e[RhsCentered] == Data(Int32Type, y)
    ensures Output0 in final && final[Output0] == Data(Int32Type, Multiply(x, y)) && Eval(e, ops, 8) == Some(final)
  {
    hide Eval, SignedByte, Multipliable, Multiply;
    var e9 := EvalNext(e, ops, 8, Flag(false));
    var e10 := EvalNext(e9, ops, 9, Flag(false));
    final := EvalNext(e10, ops, 10, Data(Int32Type, Multiply(x, y)));
    EvalDone(final, ops);
  }

  /** What the emitted MATMUL block computes: the product of the two shifted inputs. */
  lemma MatmulEval(lhs: Tensor, rhs: Tensor, lhsZero: Byte, rhsZero: Byte)
    requires Multipliable(ShiftAll(lhs, -SignedByte(lhsZero)), ShiftAll(rhs, -SignedByte(rhsZero)))
    ensures MatmulOutput(lhs, rhs, lhsZero, rhsZero)
            == Some(Multiply(ShiftAll(lhs, -SignedByte(lhsZero)), ShiftAll(rhs, -SignedByte(rhsZero))))
  {
    hide Multiply, Multipliable, SignedByte, ShiftAll, Eval, EncodeMatmul;
    var e: Env := map[Input0 := Data(Int8Type, lhs), Input1 := Data(Int8Type, rhs)];
    var ops := EncodeMatmul(lhsZero, rhsZero);
    var e4 := Widened(e, ops, lhs, rhs, lhsZero, rhsZero);
    var e8 := Centered(e4, ops, lhs, rhs, lhsZero, rhsZero);
    var final := Multiplied(e8, ops, e8[LhsCentered].t, e8[RhsCentered].t, lhsZero, rhsZero);
  }

  lemma IdentityEval(t: Tensor)
    ensures var final := Eval(map[Input0 := Data(Int8Type, t)], EncodeIdentity(), 0);
            && final.Some? && Output0 in final.value
            && final.value[Output0] == Data(Int8Type, NarrowAll(ShiftAll(t, 0)))
  {
    hide ShiftAll, NarrowAll, Eval;
    var ops := EncodeIdentity();
    var e1 := EvalNext(map[Input0 := Data(Int8Type, t)], ops, 0, Type(Int32Type));
    var e2 := EvalNext(e1, ops, 1, Data(Int32Type, t));
    var e3 := EvalNext(e2, ops, 2, Scalar(0));
    var e4 := EvalNext(e3, ops, 3, Data(Int32Type, ShiftAll(t, 0)));
    var e5 := EvalNext(e4, ops, 4, Type(Int8Type));
    var e6 := EvalNext(e5, ops, 5, Data(Int8Type, NarrowAll(ShiftAll(t, 0))));
    EvalDone(e6, ops);
  }

  // ------------------------------------------------------------------------------------------
  // Meaning preserved.

  lemma RowPasses(row: seq<int>)
    requires RowInt8(row)
    ensures NarrowRow(Shift(row, 0)) == row
  {
    hide Wrap32, Wrap8, NarrowRow, Shift;
    forall c | 0 <= c < |row|
      ensures Wrap8(Wrap32(row[c] + 0)) == row[c]
    {
      Fits(row[c]);
      FitsInt8(row[c]);
    }
  }

  lemma FitsInt8(x: int)
    requires Int8(x)
    ensures Wrap8(x) == x
  {}

  lemma RowsPass(m: seq<seq<int>>)
    requires RowsInt8(m)
    ensures NarrowRows(ShiftRows(m, 0)) == m
  {
    hide NarrowRow, Shift, NarrowRows, ShiftRows;
    forall h | 0 <= h < |m|
      ensures NarrowRow(Shift(m[h], 0)) == m[h]
    {
      RowPasses(m[h]);
    }
  }

  /** Every INT8 tensor passes the widening, the addition of zero and the narrowing unchanged. */
  lemma IdentityIsExact(t: Tensor)
    requires AllInt8(t)
    ensures Eval(map[Input0 := Data(Int8Type, t)], EncodeIdentity(), 0).Some?
    ensures Output0 in Eval(map[Input0 := Data(Int8Type, t)], EncodeIdentity(), 0).value
    ensures Eval(map[Input0 := Data(Int8Type, t)], EncodeIdentity(), 0).value[Output0] == Data(Int8Type, t)
  {
    hide Eval, NarrowRows, ShiftRows, EncodeIdentity;
    IdentityEval(t);
    forall n | 0 <= n < |t|
      ensures NarrowRows(ShiftRows(t[n], 0)) == t[n]
    {
      forall h | 0 <= h < |t[n]|
        ensures RowInt8(t[n][h])
      {
      }
      RowsPass(t[n]);
    }
    assert NarrowAll(ShiftAll(t, 0)) == t;
  }

  lemma SignedIsInt8(b: Byte)
    ensures Int8(SignedByte(b))
  {}

  /** A zero-point byte stands for the one INT8 value with its residue modulo 256. */
  lemma SignedResidue(b: Byte, v: int)
    ensures v == SignedByte(b) <==> Int8(v) && v % 256 == b
  {}

  /** Narrowing keeps the residue modulo 256. */
  lemma NarrowResidue(x: int, v: int)
    ensures v == Wrap8(x) <==> Int8(v) && (v - x) % 256 == 0
  {
    var q := (x + 128) / 256;
    assert Wrap8(x) - x == 256 * -q;
    if Int8(v) && (v - x) % 256 == 0 {
      var d := (v - x) / 256;
      assert v - Wrap8(x) == 256 * (d + q);
    }
  }

  /** The 32-bit arithmetic keeps the residue modulo 2^32. */
  lemma WideResidue(x: int, v: int)
    ensures v == Wrap32(x) <==> -0x8000_0000 <= v <= INT32_MAX && (v - x) % 0x1_0000_0000 == 0
  {}

  lemma ProductBound(x: int, y: int)
    requires -255 <= x <= 255 && -255 <= y <= 255
    ensures -65025 <= x * y <= 65025
  {
    if x >= 0 {
      Scale(x, y, 255);
      Scale(x, -255, y);
    } else {
      Scale(-x, y, 255);
      Scale(-x, -255, y);
    }
  }

  lemma Scale(a: nat, b: int, c: int)
    requires b <= c
    ensures a * b <= a * c
  {}

  lemma Fits(x: int)
    requires -0x8000_0000 <= x <= INT32_MAX
    ensures Wrap32(x) == x
  {}

  lemma FewerColumns(m: seq<seq<int>>, k: nat, w: nat)
    requires 0 < k && Columns(m, k, w)
    ensures Columns(m, k - 1, w) && k - 1 < |m| && w < |m[k - 1]|
  {}

  lemma ShiftedColumns(m: seq<seq<int>>, k: nat, w: nat, y: int)
    requires Columns(m, k, w)
    ensures Columns(ShiftRows(m, y), k, w)
  {}

  /** As long as 65025 per term fits, INT32 accumulation of the shifted operands is exact. */
  lemma {:induction false} AccumulationIsExact(row: seq<int>, m: seq<seq<int>>, w: nat, k: nat, zl: int, zr: int)
    requires k <= |row| && Columns(m, k, w) && RowInt8(row) && RowsInt8(m) && Int8(zl) && Int8(zr)
    requires 65025 * k <= INT32_MAX
    ensures Columns(ShiftRows(m, -zr), k, w)
    ensures Accumulate(Shift(row, -zl), ShiftRows(m, -zr), w, k) == ExactDot(row, m, w, k, zl, zr)
    ensures -65025 * k <= ExactDot(row, m, w, k, zl, zr) <= 65025 * k
  {
    hide Wrap32, Shift, ShiftRows, Columns;
    ShiftedColumns(m, k, w, -zr);
    if k > 0 {
      FewerColumns(m, k, w);
      ShiftedColumns(m, k - 1, w, -zr);
      AccumulationIsExact(row, m, w, k - 1, zl, zr);
      var a, b := row[k - 1], m[k - 1][w];
      assert Int8(a) && Int8(b) by { assert RowInt8(m[k - 1]); }
      ProductBound(a - zl, b - zr);
      Fits(a - zl);
      Fits(b - zr);
      assert Shift(row, -zl)[k - 1] == a - zl;
      assert ShiftRows(m, -zr)[k - 1] == Shift(m[k - 1], -zr);
      Fits((a - zl) * (b - zr));
      Fits(ExactDot(row, m, w, k, zl, zr));
    }
  }

  /** The INT8 MATMUL of batches `[N, H, C]` and `[N, C, W]`. */
  ghost predicate MatmulOperands(lhs: Tensor, rhs: Tensor, batch: nat, height: nat, inner: nat, width: nat) {
    && Shaped(lhs, batch, height, inner) && Shaped(rhs, batch, inner, width) && AllInt8(lhs) && AllInt8(rhs)
    && 0 < batch && 0 < height && 0 < inner && 0 < width
  }

  lemma ShiftedShape(t: Tensor, a: nat, b: nat, c: nat, y: int)
    requires Shaped(t, a, b, c)
    ensures Shaped(ShiftAll(t, y), a, b, c)
  {
    forall n | 0 <= n < a
      ensures |ShiftAll(t, y)[n]| == b && forall h | 0 <= h < b :: |ShiftAll(t, y)[n][h]| == c
    {
      assert ShiftAll(t, y)[n] == ShiftRows(t[n], y);
    }
  }

  /** One output element is the accumulation of its row and column. */
  ghost predicate Element(row: seq<int>, m: seq<seq<int>>, w: nat, k: nat, v: int) {
    k <= |row| && Columns(m, k, w) && v == Accumulate(row, m, w, k)
  }

  lemma ShapedMultiply(x: Tensor, y: Tensor, batch: nat, height: nat, inner: nat, width: nat)
    requires Shaped(x, batch, height, inner) && Shaped(y, batch, inner, width) && 0 < inner
    ensures Multipliable(x, y) && Shaped(Multiply(x, y), batch, height, width)
    ensures forall n, h, w | 0 <= n < batch && 0 <= h < height && 0 <= w < width ::
              Element(x[n][h], y[n], w, inner, Multiply(x, y)[n][h][w])
  {
    hide Accumulate;
    assert forall n | 0 <= n < batch :: Width(y[n]) == width;
    forall n, h, w | 0 <= n < batch && 0 <= h < height && 0 <= w < width
      ensures Element(x[n][h], y[n], w, inner, Multiply(x, y)[n][h][w])
    {
      assert |y[n]| == inner && Columns(y[n], inner, w);
      assert Multiply(x, y)[n][h][w] == Accumulate(x[n][h], y[n], w, |y[n]|);
    }
  }

  /** The output of the emitted block on the given operands and zero points. */
  function MatmulOutput(lhs: Tensor, rhs: Tensor, lhsZero: Byte, rhsZero: Byte): Option<Tensor> {
    var final := Eval(map[Input0 := Data(Int8Type, lhs), Input1 := Data(Int8Type, rhs)],
                      EncodeMatmul(lhsZero, rhsZero), 0);
    if final.Some? && Output0 in final.value && final.value[Output0].Data? then Some(final.value[Output0].t) else None
  }

  /** The block computes the exact zero-point-adjusted product. */
  ghost predicate ExactOn(lhs: Tensor, rhs: Tensor, lhsZero: Byte, rhsZero: Byte, batch: nat, height: nat, inner: nat,
                          width: nat)
    requires MatmulOperands(lhs, rhs, batch, height, inner, width)
  {
    var r := MatmulOutput(lhs, rhs, lhsZero, rhsZero);
    && r.Some? && Shaped(r.value, batch, height, width)
    && forall n, h, w | 0 <= n < batch && 0 <= h < height && 0 <= w < width ::
         r.value[n][h][w] == ExactDot(lhs[n][h], rhs[n], w, inner, SignedByte(lhsZero), SignedByte(rhsZero))
  }

  lemma MatmulElements(lhs: Tensor, rhs: Tensor, lhsZero: Byte, rhsZero: Byte, batch: nat, height: nat, inner: nat,
                       width: nat)
    requires MatmulOperands(lhs, rhs, batch, height, inner, width)
    ensures var r := MatmulOutput(lhs, rhs, lhsZero, rhsZero);
            && r.Some? && Shaped(r.value, batch, height, width)
            && forall n, h, w | 0 <= n < batch && 0 <= h < height && 0 <= w < width ::
                 Element(Shift(lhs[n][h], -SignedByte(lhsZero)), ShiftRows(rhs[n], -SignedByte(rhsZero)), w, inner,
                         r.value[n][h][w])
  {
    hide Multiply, MatmulOutput, ShiftRows, Shift, Multipliable, Element, SignedByte;
    var zl, zr := -SignedByte(lhsZero), -SignedByte(rhsZero);
    ShiftedShape(lhs, batch, height, inner, zl);
    ShiftedShape(rhs, batch, inner, width, zr);
    ShapedMultiply(ShiftAll(lhs, zl), ShiftAll(rhs, zr), batch, height, inner, width);
    MatmulEval(lhs, rhs, lhsZero, rhsZero);
    forall n, h | 0 <= n < batch && 0 <= h < height
      ensures ShiftAll(lhs, zl)[n][h] == Shift(lhs[n][h], zl) && ShiftAll(rhs, zr)[n] == ShiftRows(rhs[n], zr)
    {
      assert ShiftAll(lhs, zl)[n] == ShiftRows(lhs[n], zl);
    }
    var r := MatmulOutput(lhs, rhs, lhsZero, rhsZero).value;
    forall n, h, w | 0 <= n < batch && 0 <= h < height && 0 <= w < width
      ensures Element(Shift(lhs[n][h], zl), ShiftRows(rhs[n], zr), w, inner, r[n][h][w])
    {
      assert Element(ShiftAll(lhs, zl)[n][h], ShiftAll(rhs, zr)[n], w, inner, r[n][h][w]);
    }
  }

  /** With an inner dimension of at most 33025 the block computes the exact product for all shapes,
      operands and zero points. */
  lemma MatmulIsExact(lhs: Tensor, rhs: Tensor, lhsZero: Byte, rhsZero: Byte, batch: nat, height: nat, inner: nat,
                      width: nat)
    requires MatmulOperands(lhs, rhs, batch, height, inner, width) && inner <= 33025
    ensures ExactOn(lhs, rhs, lhsZero, rhsZero, batch, height, inner, width)
  {
    hide MatmulOutput, ShiftRows, Shift, Accumulate, ExactDot;
    MatmulElements(lhs, rhs, lhsZero, rhsZero, batch, height, inner, width);
    var r := MatmulOutput(lhs, rhs, lhsZero, rhsZero).value;
    forall n, h, w | 0 <= n < batch && 0 <= h < height && 0 <= w < width
      ensures r[n][h][w] == ExactDot(lhs[n][h], rhs[n], w, inner, SignedByte(lhsZero), SignedByte(rhsZero))
    {
      SignedIsInt8(lhsZero);
      SignedIsInt8(rhsZero);
      assert RowInt8(lhs[n][h]);
      assert RowsInt8(rhs[n]) by { assert forall c | 0 <= c < inner :: RowInt8(rhs[n][c]); }
      AccumulationIsExact(lhs[n][h], rhs[n], w, inner, SignedByte(lhsZero), SignedByte(rhsZero));
      assert Element(Shift(lhs[n][h], -SignedByte(lhsZero)), ShiftRows(rhs[n], -SignedByte(rhsZero)), w, inner,
                     r[n][h][w]);
    }
  }

  function Constant(a: nat, b: nat, c: nat, v: int): (t: Tensor)
    ensures Shaped(t, a, b, c) && forall n, h, k | 0 <= n < a && 0 <= h < b && 0 <= k < c :: t[n][h][k] == v
  {
    seq(a, _ => seq(b, _ => seq(c, _ => v)))
  }

  lemma {:induction false} ExtremeDot(row: seq<int>, m: seq<seq<int>>, w: nat, k: nat)
    requires k <= |row| && Columns(m, k, w)
    requires forall c | 0 <= c < k :: row[c] == -128 && m[c][w] == -128
    ensures ExactDot(row, m, w, k, 127, 127) == 65025 * k
  {
    if k > 0 { ExtremeDot(row, m, w, k - 1); }
  }

  /** At 33026 and beyond, in every shape, the extreme operands overflow the accumulator. */
  lemma MatmulOverflows(batch: nat, height: nat, inner: nat, width: nat)
    requires 0 < batch && 0 < height && 0 < width && 33026 <= inner
    ensures var lhs, rhs := Constant(batch, height, inner, -128), Constant(batch, inner, width, -128);
            && MatmulOperands(lhs, rhs, batch, height, inner, width)
            && !ExactOn(lhs, rhs, 127, 127, batch, height, inner, width)
  {
    hide MatmulOutput, ShiftRows, Shift;
    var lhs, rhs := Constant(batch, height, inner, -128), Constant(batch, inner, width, -128);
    assert MatmulOperands(lhs, rhs, batch, height, inner, width);
    MatmulElements(lhs, rhs, 127, 127, batch, height, inner, width);
    ExtremeDot(lhs[0][0], rhs[0], 0, inner);
    assert SignedByte(127) == 127;
    var r := MatmulOutput(lhs, rhs, 127, 127).value;
    assert Element(Shift(lhs[0][0], -127), ShiftRows(rhs[0], -127), 0, inner, r[0][0][0]);
    Bounded(Shift(lhs[0][0], -127), ShiftRows(rhs[0], -127), 0, inner);
    assert r[0][0][0] != ExactDot(lhs[0][0], rhs[0], 0, inner, 127, 127);
  }

  lemma Bounded(row: seq<int>, m: seq<seq<int>>, w: nat, k: nat)
    requires 0 < k <= |row| && Columns(m, k, w)
    ensures Accumulate(row, m, w, k) <= INT32_MAX
  {}

  /** Exactness for all operands of a shape is exactly the bound on its inner dimension. */
  lemma MatmulExactIff(batch: nat, height: nat, inner: nat, width: nat)
    requires 0 < batch && 0 < height && 0 < inner && 0 < width
    ensures (forall lhs, rhs, lhsZero: Byte, rhsZero: Byte | MatmulOperands(lhs, rhs, batch, height, inner, width) ::
               ExactOn(lhs, rhs, lhsZero, rhsZero, batch, height, inner, width))
            <==> inner <= 33025
  {
    hide ExactOn, MatmulOperands;
    if inner <= 33025 {
      forall lhs, rhs, lhsZero: Byte, rhsZero: Byte | MatmulOperands(lhs, rhs, batch, height, inner, width)
        ensures ExactOn(lhs, rhs, lhsZero, rhsZero, batch, height, inner, width)
      {
        MatmulIsExact(lhs, rhs, lhsZero, rhsZero, batch, height, inner, width);
      }
    } else {
      MatmulOverflows(batch, height, inner, width);
    }
  }
}
