/**
 A stacked batch of packed blocks, addressed flat as the kernels address it, and the tokens it denotes.
*/
module Batches {
  import opened Bytes
  import opened Half
  import opened Indexing
  import opened Quant
  import opened Attention
  import opened Exponential

  datatype Batch = Batch(
    packedK: seq<Byte>, packedV: seq<Byte>, scalesK: seq<Pattern>, scalesV: seq<Pattern>, validTokens: seq<int>,
    blocks: nat, tokens: nat, packedDim: nat, groups: nat, bits: nat, groupSize: nat)
  {
    /** What the launch checks and `PackedBatch.validate` ask, for tensors whose rows hold whole bytes. */
    predicate Valid(g: Geometry) {
      && g.Valid() && IsBits(bits) && groupSize > 0
      && g.headDim % groupSize == 0 && g.headDim % PerByte(bits) == 0
      && packedDim == g.headDim / PerByte(bits) && groups == g.headDim / groupSize
      && |packedK| == |packedV| == Rows(g) * packedDim
      && |scalesK| == |scalesV| == Rows(g) * groups
      && |validTokens| == blocks
    }

    /** Every scale is a finite FP16 value. */
    predicate FiniteScales() {
      && (forall i :: 0 <= i < |scalesK| ==> Finite(scalesK[i]))
      && (forall i :: 0 <= i < |scalesV| ==> Finite(scalesV[i]))
    }

    /** Valid counts that stay inside a block. */
    predicate CountsInside() {
      forall b :: 0 <= b < |validTokens| ==> 0 <= validTokens[b] <= tokens
    }

    function Rows(g: Geometry): nat {
      blocks * tokens * g.kvHeads
    }
  }

  /** (b * tokens_per_block + t) * kv_heads + kvh */
  function Row(g: Geometry, batch: Batch, b: nat, t: nat, k: nat): nat {
    (b * batch.tokens + t) * g.kvHeads + k
  }

  lemma RowBound(g: Geometry, batch: Batch, b: nat, t: nat, k: nat)
    requires b < batch.blocks && t < batch.tokens && k < g.kvHeads
    ensures Row(g, batch, b, t, k) < batch.Rows(g)
  {
    Flat(b, batch.blocks, t, batch.tokens);
    Flat(b * batch.tokens + t, batch.blocks * batch.tokens, k, g.kvHeads);
  }

  /** The address arithmetic of one element of a row-major [rows, headDim] tensor, split in bytes or groups. */
  lemma SplitRow(row: nat, rows: nat, d: nat, headDim: nat, piece: nat)
    requires row < rows && d < headDim && piece > 0 && headDim % piece == 0
    ensures d / piece < headDim / piece
    ensures row * (headDim / piece) + d / piece < rows * (headDim / piece)
    ensures (row * headDim + d) / piece == row * (headDim / piece) + d / piece
    ensures (row * headDim + d) % piece == d % piece
  {
    var pieces := headDim / piece;
    WholeRows(headDim, piece);
    RowBelow(d, pieces, piece);
    Flat(row, rows, d / piece, pieces);
    assert row * headDim == (row * pieces) * piece;
    assert (row * pieces + d / piece) * piece == (row * pieces) * piece + (d / piece) * piece;
    DivideUnique(row * headDim + d, piece, row * pieces + d / piece, d % piece);
  }

  /** row * packed_dim + d / per_byte */
  function ByteAddress(g: Geometry, batch: Batch, row: nat, d: nat): (j: nat)
    requires batch.Valid(g) && row < batch.Rows(g) && d < g.headDim
    ensures j < batch.Rows(g) * batch.packedDim
  {
    SplitRow(row, batch.Rows(g), d, g.headDim, PerByte(batch.bits));
    row * batch.packedDim + d / PerByte(batch.bits)
  }

  /** row * groups + d / group_size */
  function ScaleAddress(g: Geometry, batch: Batch, row: nat, d: nat): (k: nat)
    requires batch.Valid(g) && row < batch.Rows(g) && d < g.headDim
    ensures k < batch.Rows(g) * batch.groups
  {
    SplitRow(row, batch.Rows(g), d, g.headDim, batch.groupSize);
    row * batch.groups + d / batch.groupSize
  }

  /** The field of element `d` inside its byte, d % per_byte. */
  function Field(batch: Batch, d: nat): nat
    requires IsBits(batch.bits)
  {
    d % PerByte(batch.bits)
  }

  /** The kernels' load: byte address, shift and mask, and scale address. */
  function Load(g: Geometry, batch: Batch, packed: seq<Byte>, scales: seq<Pattern>, row: nat, d: nat): real
    requires batch.Valid(g) && row < batch.Rows(g) && d < g.headDim
    requires |packed| == batch.Rows(g) * batch.packedDim && |scales| == batch.Rows(g) * batch.groups
    requires Finite(scales[ScaleAddress(g, batch, row, d)])
  {
    var code := Extract(packed[ByteAddress(g, batch, row, d)], Field(batch, d) * batch.bits, batch.bits);
    (code - Midpoint(batch.bits)) as real * Value(scales[ScaleAddress(g, batch, row, d)])
  }

  lemma Regroup(a: nat, b: nat, c: nat)
    ensures (a * b) * c == a * (b * c)
  {
  }

  /** Flat packed bytes and scales of a batch, as the tensor [blocks, tokens, kv_heads, head_dim]. */
  lemma TensorShape(g: Geometry, batch: Batch, packed: seq<Byte>, scales: seq<Pattern>)
    requires batch.Valid(g)
    requires |packed| == batch.Rows(g) * batch.packedDim && |scales| == batch.Rows(g) * batch.groups
    ensures Quantized(packed, scales, batch.bits, batch.groupSize).Valid()
    ensures |packed| * PerByte(batch.bits) == batch.Rows(g) * g.headDim
  {
    WholeRows(g.headDim, PerByte(batch.bits));
    WholeRows(g.headDim, batch.groupSize);
    Regroup(batch.Rows(g), batch.packedDim, PerByte(batch.bits));
    Regroup(batch.Rows(g), batch.groups, batch.groupSize);
  }

  lemma UnpackedFrom(packed: seq<Byte>, bits: nat, i: nat)
    requires IsBits(bits) && i < |packed| * PerByte(bits)
    ensures i / PerByte(bits) < |packed|
    ensures Unpack(packed, bits)[i] == Extract(packed[i / PerByte(bits)], (i % PerByte(bits)) * bits, bits)
  {
    hide Extract;
    RowBelow(i, |packed|, PerByte(bits));
  }

  lemma DequantizedFrom(q: Quantized, i: nat, j: nat, r: nat, k: nat)
    requires q.Valid() && i < |q.packed| * PerByte(q.bits)
    requires j == i / PerByte(q.bits) && r == i % PerByte(q.bits) && k == i / q.groupSize
    requires Finite(ScaleOf(q, i))
    ensures j < |q.packed| && k < |q.scales| && q.scales[k] == ScaleOf(q, i)
    ensures DequantizeAt(q, i) == (Extract(q.packed[j], r * q.bits, q.bits) - Midpoint(q.bits)) as real * Value(q.scales[k])
  {
    hide Extract, Value, Midpoint, Unpack, PerByte;
    UnpackedFrom(q.packed, q.bits, i);
    RowBelow(i, |q.scales|, q.groupSize);
  }

  /** What the reference backend reads: element [row, d] of the dequantized tensor. */
  function Element(g: Geometry, batch: Batch, packed: seq<Byte>, scales: seq<Pattern>, row: nat, d: nat): real
    requires batch.Valid(g) && row < batch.Rows(g) && d < g.headDim
    requires |packed| == batch.Rows(g) * batch.packedDim && |scales| == batch.Rows(g) * batch.groups
    requires Finite(scales[ScaleAddress(g, batch, row, d)])
  {
    TensorShape(g, batch, packed, scales);
    Flat(row, batch.Rows(g), d, g.headDim);
    AddressesOfElement(g, batch, row, d);
    DequantizeAt(Quantized(packed, scales, batch.bits, batch.groupSize), row * g.headDim + d)
  }

  lemma ElementOfTensor(g: Geometry, batch: Batch, packed: seq<Byte>, scales: seq<Pattern>, row: nat, d: nat)
    requires batch.Valid(g) && row < batch.Rows(g) && d < g.headDim
    requires |packed| == batch.Rows(g) * batch.packedDim && |scales| == batch.Rows(g) * batch.groups
    requires forall i :: 0 <= i < |scales| ==> Finite(scales[i])
    ensures var q := Quantized(packed, scales, batch.bits, batch.groupSize);
            && q.Valid() && q.FiniteScales() && row * g.headDim + d < |Dequantize(q)|
            && Element(g, batch, packed, scales, row, d) == Dequantize(q)[row * g.headDim + d]
  {
    hide DequantizeAt, ScaleAddress, Finite;
    TensorShape(g, batch, packed, scales);
    Flat(row, batch.Rows(g), d, g.headDim);
  }

  /** The kernels' flat load is that element. */
  lemma LoadIsElement(g: Geometry, batch: Batch, packed: seq<Byte>, scales: seq<Pattern>, row: nat, d: nat)
    requires batch.Valid(g) && row < batch.Rows(g) && d < g.headDim
    requires |packed| == batch.Rows(g) * batch.packedDim && |scales| == batch.Rows(g) * batch.groups
    requires Finite(scales[ScaleAddress(g, batch, row, d)])
    ensures Load(g, batch, packed, scales, row, d) == Element(g, batch, packed, scales, row, d)
  {
    hide Extract, Value, Midpoint, DequantizeAt, ByteAddress, ScaleAddress, Field, Finite;
    var q := Quantized(packed, scales, batch.bits, batch.groupSize);
    TensorShape(g, batch, packed, scales);
    Flat(row, batch.Rows(g), d, g.headDim);
    AddressesOfElement(g, batch, row, d);
    DequantizedFrom(q, row * g.headDim + d, ByteAddress(g, batch, row, d), Field(batch, d), ScaleAddress(g, batch, row, d));
  }

  lemma AddressesOfElement(g: Geometry, batch: Batch, row: nat, d: nat)
    requires batch.Valid(g) && row < batch.Rows(g) && d < g.headDim
    ensures var i, per := row * g.headDim + d, PerByte(batch.bits);
            && i / per == ByteAddress(g, batch, row, d)
            && i % per == Field(batch, d)
            && i / batch.groupSize == ScaleAddress(g, batch, row, d)
  {
    SplitRow(row, batch.Rows(g), d, g.headDim, PerByte(batch.bits));
    SplitRow(row, batch.Rows(g), d, g.headDim, batch.groupSize);
  }

  // ----- the tokens of a batch

  /** The scale of element [b, t, k, d] is a finite FP16 value. */
  predicate FiniteAt(g: Geometry, batch: Batch, scales: seq<Pattern>, b: nat, t: nat, k: nat, d: nat)
    requires batch.Valid(g) && b < batch.blocks && t < batch.tokens && k < g.kvHeads && d < g.headDim
    requires |scales| == batch.Rows(g) * batch.groups
  {
    RowBound(g, batch, b, t, k);
    Finite(scales[ScaleAddress(g, batch, Row(g, batch, b, t, k), d)])
  }

  ghost predicate FiniteToken(g: Geometry, batch: Batch, scales: seq<Pattern>, b: nat, t: nat)
    requires batch.Valid(g) && b < batch.blocks && t < batch.tokens
    requires |scales| == batch.Rows(g) * batch.groups
  {
    forall k, d :: 0 <= k < g.kvHeads && 0 <= d < g.headDim ==> FiniteAt(g, batch, scales, b, t, k, d)
  }

  /** The scales of every valid token are finite; those of padded tokens may be anything. */
  ghost predicate FiniteTokens(g: Geometry, batch: Batch)
    requires batch.Valid(g)
  {
    forall b, t :: 0 <= b < batch.blocks && 0 <= t < batch.tokens && t < batch.validTokens[b] ==>
      FiniteToken(g, batch, batch.scalesK, b, t) && FiniteToken(g, batch, batch.scalesV, b, t)
  }

  ghost predicate Readable(g: Geometry, batch: Batch) {
    batch.Valid(g) && batch.CountsInside() && FiniteTokens(g, batch)
  }

  lemma FiniteTokensIn(g: Geometry, batch: Batch)
    requires batch.Valid(g) && batch.FiniteScales()
    ensures forall b, t :: 0 <= b < batch.blocks && 0 <= t < batch.tokens ==>
              FiniteToken(g, batch, batch.scalesK, b, t) && FiniteToken(g, batch, batch.scalesV, b, t)
    ensures batch.CountsInside() ==> Readable(g, batch)
  {
    hide Finite, ScaleAddress;
  }

  /** Row `k` of token `t` of block `b`, as `dequantize_tensor` gives it. */
  function KeyToken(g: Geometry, batch: Batch, b: nat, t: nat): (token: Token)
    requires batch.Valid(g) && b < batch.blocks && t < batch.tokens && FiniteToken(g, batch, batch.scalesK, b, t)
    ensures g.IsToken(token)
  {
    seq(g.kvHeads, k requires 0 <= k < g.kvHeads =>
      RowBound(g, batch, b, t, k);
      seq(g.headDim, d requires 0 <= d < g.headDim =>
        assert FiniteAt(g, batch, batch.scalesK, b, t, k, d);
        Element(g, batch, batch.packedK, batch.scalesK, Row(g, batch, b, t, k), d)))
  }

  function ValueToken(g: Geometry, batch: Batch, b: nat, t: nat): (token: Token)
    requires batch.Valid(g) && b < batch.blocks && t < batch.tokens && FiniteToken(g, batch, batch.scalesV, b, t)
    ensures g.IsToken(token)
  {
    seq(g.kvHeads, k requires 0 <= k < g.kvHeads =>
      RowBound(g, batch, b, t, k);
      seq(g.headDim, d requires 0 <= d < g.headDim =>
        assert FiniteAt(g, batch, batch.scalesV, b, t, k, d);
        Element(g, batch, batch.packedV, batch.scalesV, Row(g, batch, b, t, k), d)))
  }

  /** The valid keys of the blocks before `b` and of the first `t` tokens of block `b`, in order. */
  function KeysUpTo(g: Geometry, batch: Batch, b: nat, t: nat): (keys: seq<Token>)
    requires Readable(g, batch) && b <= batch.blocks && (b < batch.blocks ==> t <= batch.validTokens[b])
    requires b == batch.blocks ==> t == 0
    ensures g.AreTokens(keys)
    decreases b, t
  {
    if 0 < t then KeysUpTo(g, batch, b, t - 1) + [KeyToken(g, batch, b, t - 1)]
    else if 0 < b then KeysUpTo(g, batch, b - 1, batch.validTokens[b - 1])
    else []
  }

  function ValuesUpTo(g: Geometry, batch: Batch, b: nat, t: nat): (values: seq<Token>)
    requires Readable(g, batch) && b <= batch.blocks && (b < batch.blocks ==> t <= batch.validTokens[b])
    requires b == batch.blocks ==> t == 0
    ensures g.AreTokens(values)
    ensures |values| == |KeysUpTo(g, batch, b, t)|
    decreases b, t
  {
    if 0 < t then ValuesUpTo(g, batch, b, t - 1) + [ValueToken(g, batch, b, t - 1)]
    else if 0 < b then ValuesUpTo(g, batch, b - 1, batch.validTokens[b - 1])
    else []
  }

  /** The concatenated valid prefixes that `ReferenceAttentionBackend.run` attends over. */
  function BatchKeys(g: Geometry, batch: Batch): (keys: seq<Token>)
    requires Readable(g, batch)
    ensures g.AreTokens(keys)
  {
    KeysUpTo(g, batch, batch.blocks, 0)
  }

  function BatchValues(g: Geometry, batch: Batch): (values: seq<Token>)
    requires Readable(g, batch)
    ensures g.AreTokens(values) && |values| == |BatchKeys(g, batch)|
  {
    ValuesUpTo(g, batch, batch.blocks, 0)
  }

  // ----- counts outside a block

  /** What the kernels' loops make of a count: none below zero, and no more than the block has. */
  function Clipped(v: int, tokens: nat): (n: nat)
    ensures n <= tokens && (0 <= v <= tokens ==> n == v)
  {
    if v < 0 then 0 else if tokens < v then tokens else v
  }

  /** The length of the slice [:v] of a block, where a negative count drops tokens from the end. */
  function Sliced(v: int, tokens: nat): (n: nat)
    ensures n <= tokens && (0 <= v <= tokens ==> n == v)
    ensures -(tokens as int) <= v < 0 ==> tokens - n == -v
  {
    Clipped(if v < 0 then tokens + v else v, tokens)
  }

  function Clip(batch: Batch): Batch {
    batch.(validTokens := seq(|batch.validTokens|, b requires 0 <= b < |batch.validTokens| => Clipped(batch.validTokens[b], batch.tokens)))
  }

  function Slice(batch: Batch): Batch {
    batch.(validTokens := seq(|batch.validTokens|, b requires 0 <= b < |batch.validTokens| => Sliced(batch.validTokens[b], batch.tokens)))
  }

  lemma CountsMadeInside(g: Geometry, batch: Batch)
    requires batch.Valid(g)
    ensures Clip(batch).Valid(g) && Clip(batch).CountsInside() && Slice(batch).Valid(g) && Slice(batch).CountsInside()
    ensures batch.CountsInside() ==> Clip(batch) == batch && Slice(batch) == batch
  {
    assert batch.CountsInside() ==> Clip(batch).validTokens == batch.validTokens && Slice(batch).validTokens == batch.validTokens;
  }

  /** Kernels and slices read every count alike exactly when none drops some tokens of a block from its end. */
  lemma CountsAgreeIff(batch: Batch)
    requires |batch.validTokens| == batch.blocks
    ensures Clip(batch) == Slice(batch) <==>
              forall b :: 0 <= b < batch.blocks ==> 0 <= batch.validTokens[b] || batch.validTokens[b] <= -(batch.tokens as int)
  {
    if Clip(batch) == Slice(batch) {
      forall b | 0 <= b < batch.blocks
        ensures 0 <= batch.validTokens[b] || batch.validTokens[b] <= -(batch.tokens as int)
      {
        assert Clip(batch).validTokens[b] == Slice(batch).validTokens[b];
      }
    }
    if forall b :: 0 <= b < batch.blocks ==> 0 <= batch.validTokens[b] || batch.validTokens[b] <= -(batch.tokens as int) {
      assert Clip(batch).validTokens == Slice(batch).validTokens;
    }
  }

  /** A launch with the right shapes and at least one valid token. */
  ghost predicate Runnable(E: ExpLog, g: Geometry, query: seq<seq<real>>, batch: Batch) {
    && E.Valid() && g.Valid() && g.IsQuery(query)
    && Readable(g, batch) && BatchKeys(g, batch) != []
  }

  /** `ReferenceAttentionBackend.run` on the batch. */
  function BatchReference(E: ExpLog, g: Geometry, query: seq<seq<real>>, batch: Batch, scale: real): (p: Partial)
    requires Runnable(E, g, query, batch)
    ensures IsPartial(p, g)
  {
    Reference(E, g, query, BatchKeys(g, batch), BatchValues(g, batch), scale)
  }
}
