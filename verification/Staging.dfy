/**
 Staging: a chunk of packed blocks becomes one stacked batch, whose tokens are the blocks' valid tokens in order.
*/
module Staging {
  import opened Bytes
  import opened Half
  import opened Indexing
  import opened Quant
  import opened Format
  import opened Attention
  import opened Batches
  import Store

  // ----- rows of equal length, one after the other

  function Joined<T>(parts: seq<seq<T>>): seq<T> {
    if parts == [] then [] else Joined(parts[..|parts| - 1]) + parts[|parts| - 1]
  }

  /** Part `p` is the `p`-th piece of the whole. */
  lemma {:induction false} JoinedAt<T>(parts: seq<seq<T>>, m: nat, p: nat)
    requires p < |parts| && forall i :: 0 <= i < |parts| ==> |parts[i]| == m
    ensures |Joined(parts)| == Offset(|parts|, m) && Offset(p, m) + m <= |Joined(parts)|
    ensures Joined(parts)[Offset(p, m)..Offset(p, m) + m] == parts[p]
  {
    hide Offset;
    var n := |parts| - 1;
    var init, last := parts[..n], parts[n];
    NoOffset(m);
    NextOffset(n, m);
    OffsetInside(p, |parts|, m);
    if n == 0 {
      assert Joined(init) == [];
    } else {
      JoinedAt(init, m, if p < n then p else 0);
      if p < n {
        SliceOfPrefix(Joined(init), last, Offset(p, m), Offset(p, m) + m);
      }
    }
  }

  lemma SliceOfPrefix<T>(s: seq<T>, t: seq<T>, low: nat, high: nat)
    requires low <= high <= |s|
    ensures (s + t)[low..high] == s[low..high]
  {
  }

  lemma JoinedOf<T>(parts: seq<seq<T>>, part: seq<T>)
    ensures Joined(parts + [part]) == Joined(parts) + part
  {
    assert (parts + [part])[..|parts|] == parts;
  }

  // ----- dequantizing row by row

  lemma QuotientAfter(a: nat, i: nat, d: nat)
    requires 0 < d
    ensures (a * d + i) / d == a + i / d && (a * d + i) % d == i % d
  {
    assert a * d + i == (a + i / d) * d + i % d;
    DivideUnique(a * d + i, d, a + i / d, i % d);
  }

  /** The byte, the field in it and the scale that element `i` is restored from. */
  function Origin(q: Quantized, i: nat): (Byte, nat, Pattern)
    requires q.Valid() && i < |q.packed| * PerByte(q.bits)
  {
    RowBelow(i, |q.packed|, PerByte(q.bits));
    RowBelow(i, |q.scales|, q.groupSize);
    (q.packed[i / PerByte(q.bits)], i % PerByte(q.bits), q.scales[i / q.groupSize])
  }

  lemma SameElement(c: Quantized, a: Quantized, i: nat, j: nat)
    requires c.Valid() && c.FiniteScales() && a.Valid() && a.FiniteScales() && a.bits == c.bits
    requires i < |c.packed| * PerByte(c.bits) && j < |a.packed| * PerByte(a.bits)
    requires Origin(c, i) == Origin(a, j)
    ensures Dequantize(c)[i] == Dequantize(a)[j]
  {
    hide *;
    FromOrigin(c, i);
    FromOrigin(a, j);
  }

  lemma FromOrigin(q: Quantized, i: nat)
    requires q.Valid() && q.FiniteScales() && i < |q.packed| * PerByte(q.bits)
    ensures Finite(Origin(q, i).2)
    ensures Dequantize(q)[i] == (Extract(Origin(q, i).0, Origin(q, i).1 * q.bits, q.bits) - Midpoint(q.bits)) as real * Value(Origin(q, i).2)
  {
    hide Extract, Value, Midpoint, Finite, Dequantize, DequantizeAt, ScaleOf, PerByte;
    DequantizedElement(q, i);
    RowBelow(i, |q.packed|, PerByte(q.bits));
    RowBelow(i, |q.scales|, q.groupSize);
    DequantizedFrom(q, i, i / PerByte(q.bits), i % PerByte(q.bits), i / q.groupSize);
  }

  lemma ConcatValid(a: Quantized, b: Quantized)
    requires a.Valid() && b.Valid() && a.FiniteScales() && b.FiniteScales() && a.bits == b.bits && a.groupSize == b.groupSize
    ensures var c := Quantized(a.packed + b.packed, a.scales + b.scales, a.bits, a.groupSize);
            c.Valid() && c.FiniteScales() && |c.packed| * PerByte(c.bits) == |a.packed| * PerByte(a.bits) + |b.packed| * PerByte(b.bits)
  {
    hide PerByte, Finite;
    Distribute(|a.packed|, |b.packed|, PerByte(a.bits));
    Distribute(|a.scales|, |b.scales|, a.groupSize);
  }

  lemma Distribute(a: nat, b: nat, d: nat)
    ensures (a + b) * d == a * d + b * d
  {
  }

  /** Dequantizing looks at one group at a time. */
  lemma DequantizeConcat(a: Quantized, b: Quantized)
    requires a.Valid() && b.Valid() && a.FiniteScales() && b.FiniteScales() && a.bits == b.bits && a.groupSize == b.groupSize
    ensures var c := Quantized(a.packed + b.packed, a.scales + b.scales, a.bits, a.groupSize);
            c.Valid() && c.FiniteScales() && Dequantize(c) == Dequantize(a) + Dequantize(b)
  {
    hide Finite, Dequantize, PerByte, Quantized.Valid, Quantized.FiniteScales;
    var c := Quantized(a.packed + b.packed, a.scales + b.scales, a.bits, a.groupSize);
    ConcatValid(a, b);
    forall i | 0 <= i < |Dequantize(c)|
      ensures Dequantize(c)[i] == (Dequantize(a) + Dequantize(b))[i]
    {
      if i < |Dequantize(a)| {
        ElementOfFirst(a, b, i);
      } else {
        ElementOfSecond(a, b, i - |Dequantize(a)|);
      }
    }
  }

  lemma ElementOfFirst(a: Quantized, b: Quantized, i: nat)
    requires a.Valid() && b.Valid() && a.FiniteScales() && b.FiniteScales() && a.bits == b.bits && a.groupSize == b.groupSize
    requires i < |a.packed| * PerByte(a.bits)
    ensures var c := Quantized(a.packed + b.packed, a.scales + b.scales, a.bits, a.groupSize);
            && c.Valid() && c.FiniteScales() && i < |c.packed| * PerByte(c.bits)
            && Dequantize(c)[i] == Dequantize(a)[i]
  {
    hide Finite, Dequantize, PerByte;
    var c := Quantized(a.packed + b.packed, a.scales + b.scales, a.bits, a.groupSize);
    ConcatValid(a, b);
    RowBelow(i, |a.packed|, PerByte(a.bits));
    RowBelow(i, |a.scales|, a.groupSize);
    SameElement(c, a, i, i);
  }

  lemma ElementOfSecond(a: Quantized, b: Quantized, j: nat)
    requires a.Valid() && b.Valid() && a.FiniteScales() && b.FiniteScales() && a.bits == b.bits && a.groupSize == b.groupSize
    requires j < |b.packed| * PerByte(b.bits)
    ensures var c := Quantized(a.packed + b.packed, a.scales + b.scales, a.bits, a.groupSize);
            var i := |a.packed| * PerByte(a.bits) + j;
            && c.Valid() && c.FiniteScales() && i < |c.packed| * PerByte(c.bits)
            && Dequantize(c)[i] == Dequantize(b)[j]
  {
    hide Origin, Finite, Dequantize, PerByte, Quantized.FiniteScales;
    ConcatValid(a, b);
    var c := Quantized(a.packed + b.packed, a.scales + b.scales, a.bits, a.groupSize);
    OriginAfter(a, b, j);
    SameElement(c, b, |a.packed| * PerByte(a.bits) + j, j);
  }

  lemma PieceAfter<T>(s: seq<T>, t: seq<T>, d: nat, i: nat, j: nat)
    requires 0 < d && j < |t| * d && i == |s| * d + j
    ensures 0 <= j / d < |t| && i / d == |s| + j / d && i % d == j % d
    ensures (s + t)[i / d] == t[j / d]
  {
    RowBelow(j, |t|, d);
    QuotientAfter(|s|, j, d);
  }

  lemma OriginAfter(a: Quantized, b: Quantized, j: nat)
    requires a.Valid() && b.Valid() && a.bits == b.bits && a.groupSize == b.groupSize
    requires j < |b.packed| * PerByte(b.bits)
    ensures var c := Quantized(a.packed + b.packed, a.scales + b.scales, a.bits, a.groupSize);
            var i := |a.packed| * PerByte(a.bits) + j;
            c.Valid() && i < |c.packed| * PerByte(c.bits) && Origin(c, i) == Origin(b, j)
  {
    hide PerByte;
    var i := |a.packed| * PerByte(a.bits) + j;
    Distribute(|a.packed|, |b.packed|, PerByte(a.bits));
    Distribute(|a.scales|, |b.scales|, a.groupSize);
    PieceAfter(a.packed, b.packed, PerByte(a.bits), i, j);
    PieceAfter(a.scales, b.scales, a.groupSize, i, j);
  }

  /** The packed bytes and the scales of quantized tensors, stacked. */
  function JoinData(parts: seq<Quantized>, bits: nat, groupSize: nat): (q: Quantized)
    ensures q.bits == bits && q.groupSize == groupSize
  {
    Quantized(
      Joined(seq(|parts|, i requires 0 <= i < |parts| => parts[i].packed)),
      Joined(seq(|parts|, i requires 0 <= i < |parts| => parts[i].scales)),
      bits, groupSize)
  }

  ghost predicate AreParts(parts: seq<Quantized>, bits: nat, groupSize: nat) {
    forall i :: 0 <= i < |parts| ==>
      parts[i].Valid() && parts[i].FiniteScales() && parts[i].bits == bits && parts[i].groupSize == groupSize
  }

  function EachDequantized(parts: seq<Quantized>, bits: nat, groupSize: nat): seq<seq<real>>
    requires AreParts(parts, bits, groupSize)
  {
    seq(|parts|, i requires 0 <= i < |parts| => Dequantize(parts[i]))
  }

  lemma JoinDataOf(parts: seq<Quantized>, part: Quantized, bits: nat, groupSize: nat)
    ensures var joined := JoinData(parts, bits, groupSize);
            JoinData(parts + [part], bits, groupSize) == Quantized(joined.packed + part.packed, joined.scales + part.scales, bits, groupSize)
  {
    var all := parts + [part];
    var packed := seq(|parts|, i requires 0 <= i < |parts| => parts[i].packed);
    var scales := seq(|parts|, i requires 0 <= i < |parts| => parts[i].scales);
    assert seq(|all|, i requires 0 <= i < |all| => all[i].packed) == packed + [part.packed];
    assert seq(|all|, i requires 0 <= i < |all| => all[i].scales) == scales + [part.scales];
    JoinedOf(packed, part.packed);
    JoinedOf(scales, part.scales);
  }

  lemma {:induction false} DequantizeJoined(parts: seq<Quantized>, bits: nat, groupSize: nat)
    requires IsBits(bits) && 0 < groupSize && AreParts(parts, bits, groupSize)
    ensures var joined := JoinData(parts, bits, groupSize);
            joined.Valid() && joined.FiniteScales() && Dequantize(joined) == Joined(EachDequantized(parts, bits, groupSize))
  {
    hide Dequantize, Finite;
    if parts == [] {
      assert Dequantize(JoinData(parts, bits, groupSize)) == [];
    } else {
      var n := |parts| - 1;
      var init, last := parts[..n], parts[n];
      assert parts == init + [last];
      DequantizeJoined(init, bits, groupSize);
      JoinDataOf(init, last, bits, groupSize);
      DequantizeConcat(JoinData(init, bits, groupSize), last);
      assert EachDequantized(parts, bits, groupSize) == EachDequantized(init, bits, groupSize) + [Dequantize(last)];
      JoinedOf(EachDequantized(init, bits, groupSize), Dequantize(last));
    }
  }

  // ----- stacking blocks

  /** Blocks laid out like the spec, with finite scales and no more valid tokens than fit. */
  ghost predicate Stackable(blocks: seq<PackedBlock>, spec: Spec) {
    spec.Valid() && forall i :: 0 <= i < |blocks| ==> StackableBlock(blocks[i], spec)
  }

  ghost predicate StackableBlock(block: PackedBlock, spec: Spec)
    requires spec.Valid()
  {
    && Matches(block, spec) && block.validTokens <= spec.blockTokens
    && block.key.data.Valid() && block.key.data.FiniteScales()
    && block.value.data.Valid() && block.value.data.FiniteScales()
  }

  function KeyData(blocks: seq<PackedBlock>): seq<Quantized> {
    seq(|blocks|, i requires 0 <= i < |blocks| => blocks[i].key.data)
  }

  function ValueData(blocks: seq<PackedBlock>): seq<Quantized> {
    seq(|blocks|, i requires 0 <= i < |blocks| => blocks[i].value.data)
  }

  /** The four payload tensors stacked along a new first dimension, and the valid counts. */
  function Stack(blocks: seq<PackedBlock>, spec: Spec): Batch
    requires spec.Valid()
  {
    var keys := JoinData(KeyData(blocks), spec.bits, spec.groupSize);
    var values := JoinData(ValueData(blocks), spec.bits, spec.groupSize);
    Batch(keys.packed, values.packed, keys.scales, values.scales,
          seq(|blocks|, i requires 0 <= i < |blocks| => blocks[i].validTokens),
          |blocks|, spec.blockTokens, spec.PackedDim(), spec.Groups(), spec.bits, spec.groupSize)
  }

  ghost predicate Fits(g: Geometry, spec: Spec) {
    g.Valid() && g.kvHeads == spec.kvHeads && g.headDim == spec.headDim
  }

  function BlockElements(spec: Spec): nat {
    spec.blockTokens * spec.kvHeads * spec.headDim
  }

  lemma ElementsOfPieces(spec: Spec)
    requires spec.Valid()
    ensures spec.headDim % PerByte(spec.bits) == 0 && spec.PackedDim() == spec.headDim / PerByte(spec.bits)
    ensures spec.PackedCount() * PerByte(spec.bits) == BlockElements(spec)
  {
    hide PerByte;
    var per := PerByte(spec.bits);
    PiecesOfRows(spec.headDim, spec.groupSize, per);
    Store.PackedDimension(spec.headDim, spec.bits);
    Regroup(spec.blockTokens * spec.kvHeads, spec.PackedDim(), per);
  }

  lemma DataOfBlocks(parts: seq<Quantized>, spec: Spec, packed: nat, scales: nat)
    requires forall i :: 0 <= i < |parts| ==> |parts[i].packed| == packed && |parts[i].scales| == scales
    ensures |JoinData(parts, spec.bits, spec.groupSize).packed| == Offset(|parts|, packed)
    ensures |JoinData(parts, spec.bits, spec.groupSize).scales| == Offset(|parts|, scales)
  {
    hide Offset;
    var p := seq(|parts|, i requires 0 <= i < |parts| => parts[i].packed);
    var s := seq(|parts|, i requires 0 <= i < |parts| => parts[i].scales);
    NoOffset(packed);
    NoOffset(scales);
    if parts != [] {
      JoinedAt(p, packed, 0);
      JoinedAt(s, scales, 0);
    }
  }

  lemma RowsOfPieces(blocks: nat, tokens: nat, heads: nat, piece: nat)
    ensures Offset(blocks, tokens * heads * piece) == blocks * tokens * heads * piece
  {
    Regroup(blocks, tokens, heads);
    Regroup(blocks, tokens * heads, piece);
  }

  lemma StackParts(g: Geometry, blocks: seq<PackedBlock>, spec: Spec)
    requires Stackable(blocks, spec) && Fits(g, spec)
    ensures AreParts(KeyData(blocks), spec.bits, spec.groupSize) && AreParts(ValueData(blocks), spec.bits, spec.groupSize)
    ensures Stack(blocks, spec).Valid(g) && Stack(blocks, spec).FiniteScales() && Stack(blocks, spec).CountsInside()
  {
    hide PerByte, JoinData, Offset, Dequantize, Finite, Spec.PackedDim, Quantized.FiniteScales, Quantized.Valid;
    ElementsOfPieces(spec);
    DataOfBlocks(KeyData(blocks), spec, spec.PackedCount(), spec.ScaleCount());
    DataOfBlocks(ValueData(blocks), spec, spec.PackedCount(), spec.ScaleCount());
    RowsOfPieces(|blocks|, spec.blockTokens, spec.kvHeads, spec.PackedDim());
    RowsOfPieces(|blocks|, spec.blockTokens, spec.kvHeads, spec.Groups());
    DequantizeJoined(KeyData(blocks), spec.bits, spec.groupSize);
    DequantizeJoined(ValueData(blocks), spec.bits, spec.groupSize);
    FiniteScalesOfStack(blocks, spec);
  }

  lemma StackReadable(g: Geometry, blocks: seq<PackedBlock>, spec: Spec)
    requires Stackable(blocks, spec) && Fits(g, spec)
    ensures AreParts(KeyData(blocks), spec.bits, spec.groupSize) && AreParts(ValueData(blocks), spec.bits, spec.groupSize)
    ensures Stack(blocks, spec).Valid(g) && Stack(blocks, spec).FiniteScales() && Stack(blocks, spec).CountsInside()
    ensures Readable(g, Stack(blocks, spec))
  {
    assert spec.Valid();
    hide Stackable, Readable, Stack, Batch.Valid, Batch.FiniteScales, Batch.CountsInside, AreParts, FiniteToken;
    StackParts(g, blocks, spec);
    FiniteTokensIn(g, Stack(blocks, spec));
  }

  lemma FiniteScalesOfStack(blocks: seq<PackedBlock>, spec: Spec)
    requires spec.Valid()
    requires JoinData(KeyData(blocks), spec.bits, spec.groupSize).FiniteScales()
    requires JoinData(ValueData(blocks), spec.bits, spec.groupSize).FiniteScales()
    ensures Stack(blocks, spec).FiniteScales()
  {
    hide JoinData, Finite;
  }

  // ----- the tokens of blocks

  /** Element [t, k, d] of a block tensor. */
  function ElementIndex(spec: Spec, t: nat, k: nat, d: nat): (i: nat)
    requires t < spec.blockTokens && k < spec.kvHeads && d < spec.headDim
    ensures i < BlockElements(spec)
  {
    Flat(t, spec.blockTokens, k, spec.kvHeads);
    Flat(t * spec.kvHeads + k, spec.blockTokens * spec.kvHeads, d, spec.headDim);
    (t * spec.kvHeads + k) * spec.headDim + d
  }

  ghost predicate RestorableTensor(tensor: Tensor, spec: Spec) {
    && spec.Valid() && tensor.data.Valid() && tensor.data.FiniteScales()
    && |Dequantize(tensor.data)| == BlockElements(spec)
  }

  lemma BlockRestorable(block: PackedBlock, spec: Spec)
    requires spec.Valid() && StackableBlock(block, spec)
    ensures RestorableTensor(block.key, spec) && RestorableTensor(block.value, spec)
  {
    hide PerByte, Dequantize, Quantized.FiniteScales, Quantized.Valid, BlockElements;
    ElementsOfPieces(spec);
  }

  /** Token `t` of a block tensor, dequantized. */
  function TensorToken(tensor: Tensor, spec: Spec, t: nat): Token
    requires RestorableTensor(tensor, spec) && t < spec.blockTokens
  {
    seq(spec.kvHeads, k requires 0 <= k < spec.kvHeads =>
      seq(spec.headDim, d requires 0 <= d < spec.headDim => Dequantize(tensor.data)[ElementIndex(spec, t, k, d)]))
  }

  /** The valid prefix of a block tensor. */
  function ValidPrefix(tensor: Tensor, spec: Spec, valid: nat): (tokens: seq<Token>)
    requires RestorableTensor(tensor, spec) && valid <= spec.blockTokens
    ensures |tokens| == valid
  {
    seq(valid, t requires 0 <= t < valid => TensorToken(tensor, spec, t))
  }

  /** The valid keys of blocks, in order. */
  function KeysOf(blocks: seq<PackedBlock>, spec: Spec): seq<Token>
    requires Stackable(blocks, spec)
  {
    if blocks == [] then []
    else
      var last := blocks[|blocks| - 1];
      BlockRestorable(last, spec);
      KeysOf(blocks[..|blocks| - 1], spec) + ValidPrefix(last.key, spec, last.validTokens)
  }

  function ValuesOf(blocks: seq<PackedBlock>, spec: Spec): seq<Token>
    requires Stackable(blocks, spec)
  {
    if blocks == [] then []
    else
      var last := blocks[|blocks| - 1];
      BlockRestorable(last, spec);
      ValuesOf(blocks[..|blocks| - 1], spec) + ValidPrefix(last.value, spec, last.validTokens)
  }

  lemma RowPosition(b: nat, tokens: nat, t: nat, heads: nat, k: nat, dim: nat, d: nat)
    ensures ((b * tokens + t) * heads + k) * dim + d == Offset(b, tokens * heads * dim) + ((t * heads + k) * dim + d)
  {
    Regroup(b, tokens, heads);
    Regroup(b, tokens * heads, dim);
    assert (b * tokens + t) * heads == b * tokens * heads + t * heads;
    assert (b * tokens * heads + (t * heads + k)) * dim == b * tokens * heads * dim + (t * heads + k) * dim;
  }

  lemma ElementPosition(g: Geometry, batch: Batch, spec: Spec, b: nat, t: nat, k: nat, d: nat)
    requires Fits(g, spec) && batch.tokens == spec.blockTokens
    requires t < spec.blockTokens && k < spec.kvHeads && d < spec.headDim
    ensures d < g.headDim
    ensures Row(g, batch, b, t, k) * g.headDim + d == Offset(b, BlockElements(spec)) + ElementIndex(spec, t, k, d)
  {
    hide Offset;
    RowPosition(b, spec.blockTokens, t, spec.kvHeads, k, spec.headDim, d);
  }

  lemma JoinedElement(parts: seq<Quantized>, spec: Spec, b: nat, i: nat, p: nat)
    requires spec.Valid() && AreParts(parts, spec.bits, spec.groupSize) && b < |parts| && i < BlockElements(spec)
    requires forall j :: 0 <= j < |parts| ==> |Dequantize(parts[j])| == BlockElements(spec)
    requires p == Offset(b, BlockElements(spec)) + i
    ensures JoinData(parts, spec.bits, spec.groupSize).Valid() && JoinData(parts, spec.bits, spec.groupSize).FiniteScales()
    ensures p < |Dequantize(JoinData(parts, spec.bits, spec.groupSize))|
    ensures Dequantize(JoinData(parts, spec.bits, spec.groupSize))[p] == Dequantize(parts[b])[i]
  {
    hide Dequantize, JoinData, Offset, Finite, PerByte, Joined, Quantized.Valid, Quantized.FiniteScales, BlockElements;
    var rows, n := EachDequantized(parts, spec.bits, spec.groupSize), BlockElements(spec);
    DequantizeJoined(parts, spec.bits, spec.groupSize);
    JoinedAt(rows, n, b);
    assert Joined(rows)[Offset(b, n)..Offset(b, n) + n][i] == rows[b][i];
  }

  /** Row [b, t, k] of the stacked tensor is row [t, k] of block `b`. */
  lemma ElementOfStack(
    g: Geometry, blocks: seq<PackedBlock>, spec: Spec, parts: seq<Quantized>, packed: seq<Byte>, scales: seq<Pattern>,
    b: nat, t: nat, k: nat, d: nat)
    requires Stackable(blocks, spec) && Fits(g, spec) && b < |blocks| == |parts|
    requires AreParts(parts, spec.bits, spec.groupSize)
    requires forall i :: 0 <= i < |parts| ==> |Dequantize(parts[i])| == BlockElements(spec)
    requires t < spec.blockTokens && k < spec.kvHeads && d < spec.headDim
    requires JoinData(parts, spec.bits, spec.groupSize) == Quantized(packed, scales, spec.bits, spec.groupSize)
    requires var batch := Stack(blocks, spec);
             && batch.Valid(g) && Row(g, batch, b, t, k) < batch.Rows(g)
             && |packed| == batch.Rows(g) * batch.packedDim && |scales| == batch.Rows(g) * batch.groups
    requires forall i :: 0 <= i < |scales| ==> Finite(scales[i])
    ensures Element(g, Stack(blocks, spec), packed, scales, Row(g, Stack(blocks, spec), b, t, k), d)
         == Dequantize(parts[b])[ElementIndex(spec, t, k, d)]
  {
    var batch := Stack(blocks, spec);
    ElementPosition(g, batch, spec, b, t, k, d);
    assert spec.Valid() && batch.bits == spec.bits && batch.groupSize == spec.groupSize;
    hide *;
    ElementOfTensor(g, batch, packed, scales, Row(g, batch, b, t, k), d);
    JoinedElement(parts, spec, b, ElementIndex(spec, t, k, d), Row(g, batch, b, t, k) * g.headDim + d);
  }

  lemma KeyOfStack(g: Geometry, blocks: seq<PackedBlock>, spec: Spec, b: nat, t: nat, k: nat, d: nat)
    requires Stackable(blocks, spec) && Fits(g, spec) && b < |blocks| && t < spec.blockTokens && k < spec.kvHeads && d < spec.headDim
    requires RestorableTensor(blocks[b].key, spec) && RestorableTensor(blocks[b].value, spec)
    requires Stack(blocks, spec).Valid(g) && Stack(blocks, spec).FiniteScales()
    requires FiniteToken(g, Stack(blocks, spec), Stack(blocks, spec).scalesK, b, t)
    requires FiniteToken(g, Stack(blocks, spec), Stack(blocks, spec).scalesV, b, t)
    ensures KeyToken(g, Stack(blocks, spec), b, t)[k][d] == TensorToken(blocks[b].key, spec, t)[k][d]
    ensures ValueToken(g, Stack(blocks, spec), b, t)[k][d] == TensorToken(blocks[b].value, spec, t)[k][d]
  {
    hide Dequantize, JoinData, Finite, PerByte, Joined, Quantized.Valid, Quantized.FiniteScales, ElementIndex, Row,
         BlockElements, Matches, Spec.PackedDim, Spec.Groups, Element, Batch.Rows;
    var batch := Stack(blocks, spec);
    StackReadable(g, blocks, spec);
    DataLengths(blocks, spec);
    RowBound(g, batch, b, t, k);
    ElementOfStack(g, blocks, spec, KeyData(blocks), batch.packedK, batch.scalesK, b, t, k, d);
    ElementOfStack(g, blocks, spec, ValueData(blocks), batch.packedV, batch.scalesV, b, t, k, d);
  }

  lemma DataLengths(blocks: seq<PackedBlock>, spec: Spec)
    requires Stackable(blocks, spec)
    requires AreParts(KeyData(blocks), spec.bits, spec.groupSize) && AreParts(ValueData(blocks), spec.bits, spec.groupSize)
    ensures forall i :: 0 <= i < |blocks| ==> |Dequantize(KeyData(blocks)[i])| == BlockElements(spec)
    ensures forall i :: 0 <= i < |blocks| ==> |Dequantize(ValueData(blocks)[i])| == BlockElements(spec)
  {
    hide Dequantize, PerByte, BlockElements, Matches;
    forall i | 0 <= i < |blocks|
      ensures |Dequantize(KeyData(blocks)[i])| == BlockElements(spec) && |Dequantize(ValueData(blocks)[i])| == BlockElements(spec)
    {
      BlockRestorable(blocks[i], spec);
    }
  }

  lemma TokensOfStack(g: Geometry, blocks: seq<PackedBlock>, spec: Spec, b: nat, t: nat)
    requires Stackable(blocks, spec) && Fits(g, spec) && b < |blocks| && t < spec.blockTokens
    ensures RestorableTensor(blocks[b].key, spec) && RestorableTensor(blocks[b].value, spec)
    ensures Stack(blocks, spec).Valid(g)
    ensures FiniteToken(g, Stack(blocks, spec), Stack(blocks, spec).scalesK, b, t)
    ensures FiniteToken(g, Stack(blocks, spec), Stack(blocks, spec).scalesV, b, t)
    ensures KeyToken(g, Stack(blocks, spec), b, t) == TensorToken(blocks[b].key, spec, t)
    ensures ValueToken(g, Stack(blocks, spec), b, t) == TensorToken(blocks[b].value, spec, t)
  {
    hide Dequantize, KeyToken, ValueToken, Readable, FiniteToken, Batch.Valid, Batch.FiniteScales;
    var batch := Stack(blocks, spec);
    StackReadable(g, blocks, spec);
    BlockRestorable(blocks[b], spec);
    FiniteTokensIn(g, batch);
    forall k, d | 0 <= k < g.kvHeads && 0 <= d < g.headDim
      ensures KeyToken(g, batch, b, t)[k][d] == TensorToken(blocks[b].key, spec, t)[k][d]
      ensures ValueToken(g, batch, b, t)[k][d] == TensorToken(blocks[b].value, spec, t)[k][d]
    {
      KeyOfStack(g, blocks, spec, b, t, k, d);
    }
    SameToken(g, KeyToken(g, batch, b, t), TensorToken(blocks[b].key, spec, t));
    SameToken(g, ValueToken(g, batch, b, t), TensorToken(blocks[b].value, spec, t));
  }

  lemma SameToken(g: Geometry, a: Token, b: Token)
    requires g.IsToken(a) && g.IsToken(b)
    requires forall k, d :: 0 <= k < g.kvHeads && 0 <= d < g.headDim ==> a[k][d] == b[k][d]
    ensures a == b
  {
    forall k | 0 <= k < g.kvHeads
      ensures a[k] == b[k]
    {
    }
  }

  /** The valid keys of the blocks before `b`, and the first `t` keys of block `b`. */
  function KeysBefore(blocks: seq<PackedBlock>, spec: Spec, b: nat, t: nat): seq<Token>
    requires Stackable(blocks, spec) && b <= |blocks| && if b < |blocks| then t <= blocks[b].validTokens else t == 0
  {
    if b == |blocks| then KeysOf(blocks[..b], spec)
    else
      BlockRestorable(blocks[b], spec);
      KeysOf(blocks[..b], spec) + ValidPrefix(blocks[b].key, spec, t)
  }

  function ValuesBefore(blocks: seq<PackedBlock>, spec: Spec, b: nat, t: nat): seq<Token>
    requires Stackable(blocks, spec) && b <= |blocks| && if b < |blocks| then t <= blocks[b].validTokens else t == 0
  {
    if b == |blocks| then ValuesOf(blocks[..b], spec)
    else
      BlockRestorable(blocks[b], spec);
      ValuesOf(blocks[..b], spec) + ValidPrefix(blocks[b].value, spec, t)
  }

  lemma PrefixGrows(tensor: Tensor, spec: Spec, t: nat)
    requires RestorableTensor(tensor, spec) && t < spec.blockTokens
    ensures ValidPrefix(tensor, spec, t + 1) == ValidPrefix(tensor, spec, t) + [TensorToken(tensor, spec, t)]
  {
    hide RestorableTensor, TensorToken;
  }

  lemma NextTokens(blocks: seq<PackedBlock>, spec: Spec, b: nat, t: nat)
    requires Stackable(blocks, spec) && b < |blocks| && t < blocks[b].validTokens
    ensures RestorableTensor(blocks[b].key, spec) && RestorableTensor(blocks[b].value, spec)
    ensures KeysBefore(blocks, spec, b, t + 1) == KeysBefore(blocks, spec, b, t) + [TensorToken(blocks[b].key, spec, t)]
    ensures ValuesBefore(blocks, spec, b, t + 1) == ValuesBefore(blocks, spec, b, t) + [TensorToken(blocks[b].value, spec, t)]
  {
    hide RestorableTensor, TensorToken, KeysOf, ValuesOf, ValidPrefix, Matches;
    BlockRestorable(blocks[b], spec);
    PrefixGrows(blocks[b].key, spec, t);
    PrefixGrows(blocks[b].value, spec, t);
  }

  lemma NextBlock(blocks: seq<PackedBlock>, spec: Spec, b: nat)
    requires Stackable(blocks, spec) && b < |blocks|
    ensures KeysBefore(blocks, spec, b + 1, 0) == KeysBefore(blocks, spec, b, blocks[b].validTokens)
    ensures ValuesBefore(blocks, spec, b + 1, 0) == ValuesBefore(blocks, spec, b, blocks[b].validTokens)
  {
    hide RestorableTensor, TensorToken, Matches;
    assert blocks[..b + 1][..b] == blocks[..b];
    assert forall i :: 0 <= i < b + 1 ==> blocks[..b + 1][i] == blocks[i];
    BlockRestorable(blocks[b], spec);
    assert b + 1 < |blocks| ==> StackableBlock(blocks[b + 1], spec);
  }

  lemma {:induction false} TokensUpTo(g: Geometry, blocks: seq<PackedBlock>, spec: Spec, b: nat, t: nat)
    requires Stackable(blocks, spec) && Fits(g, spec) && b <= |blocks|
    requires if b < |blocks| then t <= blocks[b].validTokens else t == 0
    requires Readable(g, Stack(blocks, spec))
    ensures KeysUpTo(g, Stack(blocks, spec), b, t) == KeysBefore(blocks, spec, b, t)
    ensures ValuesUpTo(g, Stack(blocks, spec), b, t) == ValuesBefore(blocks, spec, b, t)
    decreases b, t
  {
    hide KeyToken, ValueToken, TensorToken, Batch.Valid, Batch.FiniteScales, JoinData, Matches, KeysBefore, ValuesBefore, Dequantize;
    if 0 < t {
      TokensUpTo(g, blocks, spec, b, t - 1);
      TokensOfStack(g, blocks, spec, b, t - 1);
      NextTokens(blocks, spec, b, t - 1);
    } else if 0 < b {
      TokensUpTo(g, blocks, spec, b - 1, blocks[b - 1].validTokens);
      NextBlock(blocks, spec, b - 1);
    } else {
      NoTokensBefore(blocks, spec);
    }
  }

  lemma NoTokensBefore(blocks: seq<PackedBlock>, spec: Spec)
    requires Stackable(blocks, spec)
    ensures KeysBefore(blocks, spec, 0, 0) == [] == ValuesBefore(blocks, spec, 0, 0)
  {
    hide RestorableTensor, TensorToken, Matches;
  }

  /** What the backends attend over is the blocks' valid tokens, in the order of the blocks. */
  lemma BatchTokens(g: Geometry, blocks: seq<PackedBlock>, spec: Spec)
    requires Stackable(blocks, spec) && Fits(g, spec)
    ensures Readable(g, Stack(blocks, spec))
    ensures BatchKeys(g, Stack(blocks, spec)) == KeysOf(blocks, spec)
    ensures BatchValues(g, Stack(blocks, spec)) == ValuesOf(blocks, spec)
  {
    hide Readable, Stackable, KeysUpTo, ValuesUpTo, KeysOf, ValuesOf;
    StackReadable(g, blocks, spec);
    TokensUpTo(g, blocks, spec, |blocks|, 0);
    assert blocks[..|blocks|] == blocks;
  }
}
