/** The valid tokens of stored blocks are the cached tokens, each row quantized and restored on its own. */
module StoreTokens {
  import opened Indexing
  import opened Quant
  import opened QuantBounds
  import opened Format
  import opened Store
  import opened StoreReading
  import opened Attention
  import opened Staging
  import Half

  /** A row whose groups all have scales that FP16 can hold. */
  ghost predicate RowInRange(row: seq<real>, spec: Spec) {
    Quantizable(row, spec.bits, spec.groupSize) && InRange(row, spec.bits, spec.groupSize)
  }

  ghost predicate RowsInRange(rows: seq<seq<real>>, spec: Spec) {
    forall t :: 0 <= t < |rows| ==> RowInRange(rows[t], spec)
  }

  /** Groups per token row. */
  function GroupsPerRow(spec: Spec): nat
    requires spec.Valid()
  {
    Pieces(Width(spec), spec.groupSize)
  }

  lemma BlockIsQuantizable(rows: seq<seq<real>>, start: nat, spec: Spec)
    requires spec.Valid() && RowsMatch(rows, spec)
    ensures Quantizable(BlockValues(rows, start, spec), spec.bits, spec.groupSize)
    ensures forall row: seq<real> :: |row| == Width(spec) ==> Quantizable(row, spec.bits, spec.groupSize)
    ensures GroupsPerRow(spec) * spec.groupSize == Width(spec)
    ensures |BlockValues(rows, start, spec)| / spec.groupSize == spec.blockTokens * GroupsPerRow(spec)
  {
    hide BlockValues;
    BlockQuantizable(spec.blockTokens, spec);
    WholeRows(Width(spec), spec.groupSize);
    RegroupRows(spec.blockTokens, GroupsPerRow(spec), spec.groupSize);
  }

  lemma RegroupRows(bt: nat, m: nat, g: nat)
    requires 0 < g
    ensures (bt * (m * g)) / g == bt * m
  {
    assert bt * (m * g) == (bt * m) * g;
    MultipleRemainder(bt * m, g);
  }

  /** Where element j of row t, and its group, lie in the block. */
  lemma RowGroup(t: nat, bt: nat, j: nat, m: nat, g: nat)
    requires 0 < g && t < bt && j < m * g
    ensures t * (m * g) + j < bt * (m * g)
    ensures (t * (m * g) + j) / g == t * m + j / g && (t * (m * g) + j) % g == j % g
    ensures j / g < m && t * m + j / g < bt * m
    ensures (t * m + j / g) * g == t * (m * g) + (j / g) * g
  {
    Flat(t, bt, j, m * g);
    RowBelow(j, m, g);
    Flat(t, bt, j / g, m);
    assert (t * m + j / g) * g == t * (m * g) + (j / g) * g;
    DivideUnique(t * (m * g) + j, g, t * m + j / g, j % g);
  }

  function ZeroRow(n: nat): (z: seq<real>)
    ensures |z| == n && forall i :: 0 <= i < n ==> z[i] == 0.0
  {
    seq(n, i => 0.0)
  }

  /** The row of a block: a cached row, or zeros past the last token. */
  function PaddedRow(rows: seq<seq<real>>, start: nat, spec: Spec, t: nat): (row: seq<real>)
    requires RowsMatch(rows, spec)
    ensures |row| == Width(spec)
  {
    if start + t < |rows| then rows[start + t] else ZeroRow(Width(spec))
  }

  lemma PaddedRowAt(rows: seq<seq<real>>, start: nat, spec: Spec, t: nat, j: nat)
    requires RowsMatch(rows, spec) && t < spec.blockTokens && j < Width(spec)
    ensures t * Width(spec) + j < |BlockValues(rows, start, spec)|
    ensures BlockValues(rows, start, spec)[t * Width(spec) + j] == PaddedRow(rows, start, spec, t)[j]
  {
    hide BlockValues, Width;
    BlockValueAt(rows, start, spec, t, j);
  }

  /** Group `k` of row `t` is a group of the block. */
  lemma GroupOfBlock(rows: seq<seq<real>>, start: nat, spec: Spec, t: nat, k: nat)
    requires spec.Valid() && RowsMatch(rows, spec) && t < spec.blockTokens && k < GroupsPerRow(spec)
    ensures var x, g, m := BlockValues(rows, start, spec), spec.groupSize, GroupsPerRow(spec);
            && k < |PaddedRow(rows, start, spec, t)| / g && t * m + k < |x| / g
            && GroupAt(x, g, t * m + k) == GroupAt(PaddedRow(rows, start, spec, t), g, k)
  {
    hide BlockValues, Width, PaddedRow;
    BlockIsQuantizable(rows, start, spec);
    var x, g, m, row := BlockValues(rows, start, spec), spec.groupSize, GroupsPerRow(spec), PaddedRow(rows, start, spec, t);
    Flat(t, spec.blockTokens, k, m);
    RowInside(k, |row|, g);
    RowInside(t * m + k, |x|, g);
    forall r | 0 <= r < g
      ensures GroupAt(x, g, t * m + k)[r] == GroupAt(row, g, k)[r]
    {
      TimesMonotone(k + 1, m, g);
      assert (k + 1) * g == k * g + g;
      PositionInBlock(t, m, g, k, r);
      PaddedRowAt(rows, start, spec, t, k * g + r);
    }
  }

  lemma PositionInBlock(t: nat, m: nat, g: nat, k: nat, r: nat)
    ensures (t * m + k) * g + r == t * (m * g) + (k * g + r)
  {
  }

  lemma ZeroGroupInRange(g: seq<real>)
    requires forall i :: 0 <= i < |g| ==> g[i] == 0.0
    ensures MaxAbs(g) == 0.0
  {
  }

  lemma PaddedRowInRange(rows: seq<seq<real>>, start: nat, spec: Spec, t: nat)
    requires spec.Valid() && RowsMatch(rows, spec) && RowsInRange(rows, spec)
    ensures RowInRange(PaddedRow(rows, start, spec, t), spec)
  {
    hide MaxAbs, BlockValues, Width;
    BlockIsQuantizable(rows, start, spec);
    var row := PaddedRow(rows, start, spec, t);
    if |rows| <= start + t {
      forall k | 0 <= k < |row| / spec.groupSize
        ensures MaxAbs(GroupAt(row, spec.groupSize, k)) < 65520.0 * PositiveMax(spec.bits) as real
      {
        RowInside(k, |row|, spec.groupSize);
        ZeroGroupInRange(GroupAt(row, spec.groupSize, k));
      }
    }
  }

  lemma BlockInRange(rows: seq<seq<real>>, start: nat, spec: Spec)
    requires spec.Valid() && RowsMatch(rows, spec) && RowsInRange(rows, spec)
    ensures RowInRange(BlockValues(rows, start, spec), spec)
  {
    hide MaxAbs, BlockValues, Width, PaddedRow, GroupAt;
    BlockIsQuantizable(rows, start, spec);
    var x, m := BlockValues(rows, start, spec), GroupsPerRow(spec);
    forall k | 0 <= k < |x| / spec.groupSize
      ensures MaxAbs(GroupAt(x, spec.groupSize, k)) < 65520.0 * PositiveMax(spec.bits) as real
    {
      RowBelow(k, spec.blockTokens, m);
      GroupOfBlock(rows, start, spec, k / m, k % m);
      PaddedRowInRange(rows, start, spec, k / m);
    }
  }

  /** Elements that agree in value and scale are restored alike. */
  lemma SameRestored(x: seq<real>, y: seq<real>, bits: nat, groupSize: nat, i: nat, j: nat)
    requires Quantizable(x, bits, groupSize) && InRange(x, bits, groupSize) && i < |x|
    requires Quantizable(y, bits, groupSize) && InRange(y, bits, groupSize) && j < |y|
    requires x[i] == y[j] && ScaleAt(x, bits, groupSize, i) == ScaleAt(y, bits, groupSize, j)
    ensures Restored(x, bits, groupSize)[i] == Restored(y, bits, groupSize)[j]
  {
    hide Quantizable, InRange, ScaleAt, Restored, RoundHalfEven, Half.Round, Half.Value, Half.Finite;
    RestoredAt(x, bits, groupSize, i);
    RestoredAt(y, bits, groupSize, j);
  }

  /** The position of element `j` of row `t` in a block. */
  function Position(spec: Spec, t: nat, j: nat): (i: nat)
    requires t < spec.blockTokens && j < Width(spec)
    ensures i < spec.blockTokens * Width(spec)
  {
    Flat(t, spec.blockTokens, j, Width(spec));
    t * Width(spec) + j
  }

  lemma GroupNumbers(spec: Spec, t: nat, j: nat)
    requires spec.Valid() && t < spec.blockTokens && j < Width(spec)
    ensures Width(spec) % spec.groupSize == 0 && (spec.blockTokens * Width(spec)) % spec.groupSize == 0
    ensures GroupNumber(j, Width(spec), spec.groupSize) < GroupsPerRow(spec)
    ensures GroupNumber(Position(spec, t, j), spec.blockTokens * Width(spec), spec.groupSize)
         == t * GroupsPerRow(spec) + GroupNumber(j, Width(spec), spec.groupSize)
  {
    hide Width;
    BlockQuantizable(spec.blockTokens, spec);
    WholeRows(Width(spec), spec.groupSize);
    RowGroup(t, spec.blockTokens, j, GroupsPerRow(spec), spec.groupSize);
  }

  lemma ScaleInBlock(rows: seq<seq<real>>, start: nat, spec: Spec, t: nat, j: nat)
    requires spec.Valid() && RowsMatch(rows, spec) && t < spec.blockTokens && j < Width(spec)
    ensures Quantizable(BlockValues(rows, start, spec), spec.bits, spec.groupSize)
    ensures Quantizable(PaddedRow(rows, start, spec, t), spec.bits, spec.groupSize)
    ensures ScaleAt(BlockValues(rows, start, spec), spec.bits, spec.groupSize, Position(spec, t, j))
         == ScaleAt(PaddedRow(rows, start, spec, t), spec.bits, spec.groupSize, j)
  {
    hide BlockValues, Width, PaddedRow, GroupAt, Scale, GroupsPerRow, GroupNumber, Position, Quantizable;
    BlockIsQuantizable(rows, start, spec);
    GroupNumbers(spec, t, j);
    GroupOfBlock(rows, start, spec, t, GroupNumber(j, Width(spec), spec.groupSize));
  }

  /** Quantizing a whole block restores each row as quantizing the row alone would. */
  lemma RestoredInBlock(rows: seq<seq<real>>, start: nat, spec: Spec, t: nat, j: nat)
    requires spec.Valid() && RowsMatch(rows, spec) && RowsInRange(rows, spec) && t < spec.blockTokens && j < Width(spec)
    ensures RowInRange(BlockValues(rows, start, spec), spec) && RowInRange(PaddedRow(rows, start, spec, t), spec)
    ensures Restored(BlockValues(rows, start, spec), spec.bits, spec.groupSize)[Position(spec, t, j)]
         == Restored(PaddedRow(rows, start, spec, t), spec.bits, spec.groupSize)[j]
  {
    hide Width, ScaleAt, InRange, Restored, Quantizable, PaddedRow, BlockValues;
    BlockInRange(rows, start, spec);
    PaddedRowInRange(rows, start, spec, t);
    PaddedRowAt(rows, start, spec, t, j);
    ScaleInBlock(rows, start, spec, t, j);
    SameRestored(BlockValues(rows, start, spec), PaddedRow(rows, start, spec, t), spec.bits, spec.groupSize, Position(spec, t, j), j);
  }

  /** Past the last token, every restored element is an exact zero. */
  lemma PaddingRestoresToZero(rows: seq<seq<real>>, start: nat, spec: Spec, t: nat, j: nat)
    requires spec.Valid() && RowsMatch(rows, spec) && RowsInRange(rows, spec) && t < spec.blockTokens && j < Width(spec)
    requires |rows| <= start + t
    ensures RowInRange(BlockValues(rows, start, spec), spec)
    ensures Restored(BlockValues(rows, start, spec), spec.bits, spec.groupSize)[Position(spec, t, j)] == 0.0
  {
    hide Width, InRange, Restored, Quantizable, BlockValues;
    PaddedRowInRange(rows, start, spec, t);
    RestoredInBlock(rows, start, spec, t, j);
    ZeroIsExact(PaddedRow(rows, start, spec, t), spec.bits, spec.groupSize, j);
  }

  // ----- tokens of the cache

  /** A row cut into one vector per KV head. */
  function ToToken(row: seq<real>, spec: Spec): (token: Token)
    requires |row| == Width(spec)
  {
    seq(spec.kvHeads, k requires 0 <= k < spec.kvHeads =>
      seq(spec.headDim, d requires 0 <= d < spec.headDim => row[InRow(spec, k, d)]))
  }

  function InRow(spec: Spec, k: nat, d: nat): (j: nat)
    requires k < spec.kvHeads && d < spec.headDim
    ensures j < Width(spec)
  {
    Flat(k, spec.kvHeads, d, spec.headDim);
    k * spec.headDim + d
  }

  lemma RowWithinBlock(spec: Spec, t: nat, k: nat, d: nat)
    requires t < spec.blockTokens && k < spec.kvHeads && d < spec.headDim
    ensures ElementIndex(spec, t, k, d) == Position(spec, t, InRow(spec, k, d))
  {
    assert (t * spec.kvHeads + k) * spec.headDim == t * spec.kvHeads * spec.headDim + k * spec.headDim;
    assert t * spec.kvHeads * spec.headDim == t * (spec.kvHeads * spec.headDim);
  }

  /** A row as a reader of the store sees it. */
  function RestoredRow(row: seq<real>, spec: Spec): (restored: seq<real>)
    requires RowInRange(row, spec)
    ensures |restored| == |row|
  {
    Restored(row, spec.bits, spec.groupSize)
  }

  /** The tokens of a layer, each quantized and restored on its own. */
  function RestoredTokens(rows: seq<seq<real>>, spec: Spec): (tokens: seq<Token>)
    requires RowsMatch(rows, spec) && RowsInRange(rows, spec)
    ensures |tokens| == |rows|
  {
    seq(|rows|, t requires 0 <= t < |rows| => ToToken(RestoredRow(rows[t], spec), spec))
  }

  /** KV head `k` of token `t` is its stretch of `headDim` elements of the restored row. */
  lemma HeadOfRow(rows: seq<seq<real>>, spec: Spec, t: nat, k: nat)
    requires RowsMatch(rows, spec) && RowsInRange(rows, spec) && t < |rows| && k < spec.kvHeads
    ensures k * spec.headDim + spec.headDim <= |rows[t]|
    ensures RestoredTokens(rows, spec)[t][k]
         == Restored(rows[t], spec.bits, spec.groupSize)[k * spec.headDim..k * spec.headDim + spec.headDim]
  {
    hide Restored, InRange, Quantizable;
    TimesMonotone(k + 1, spec.kvHeads, spec.headDim);
  }

  lemma BlockTensorRestorable(rows: seq<seq<real>>, start: nat, spec: Spec)
    requires spec.Valid() && RowsMatch(rows, spec) && RowsInRange(rows, spec)
    ensures RowInRange(BlockValues(rows, start, spec), spec)
    ensures RestorableTensor(BlockTensor(rows, start, spec), spec)
    ensures Dequantize(BlockTensor(rows, start, spec).data) == Restored(BlockValues(rows, start, spec), spec.bits, spec.groupSize)
  {
    hide BlockValues, Width, InRange, Dequantize, Quantize, BlockElements;
    BlockInRange(rows, start, spec);
    FiniteScalesIff(BlockValues(rows, start, spec), spec.bits, spec.groupSize);
    ElementsPerBlock(spec);
  }

  lemma ElementsPerBlock(spec: Spec)
    ensures spec.blockTokens * Width(spec) == BlockElements(spec)
  {
  }

  lemma TokenOfBlock(rows: seq<seq<real>>, start: nat, spec: Spec, t: nat)
    requires spec.Valid() && RowsMatch(rows, spec) && RowsInRange(rows, spec)
    requires t < spec.blockTokens && start + t < |rows|
    ensures RestorableTensor(BlockTensor(rows, start, spec), spec)
    ensures TensorToken(BlockTensor(rows, start, spec), spec, t) == RestoredTokens(rows, spec)[start + t]
  {
    hide BlockValues, Width, InRange, Dequantize, Restored, BlockTensor, Position, InRow, ElementIndex, BlockElements;
    BlockTensorRestorable(rows, start, spec);
    forall k, d | 0 <= k < spec.kvHeads && 0 <= d < spec.headDim
      ensures TensorToken(BlockTensor(rows, start, spec), spec, t)[k][d] == RestoredTokens(rows, spec)[start + t][k][d]
    {
      RowWithinBlock(spec, t, k, d);
      RestoredInBlock(rows, start, spec, t, InRow(spec, k, d));
    }
    var a, b := TensorToken(BlockTensor(rows, start, spec), spec, t), RestoredTokens(rows, spec)[start + t];
    forall k | 0 <= k < spec.kvHeads
      ensures a[k] == b[k]
    {
    }
  }

  lemma PrefixOfBlock(rows: seq<seq<real>>, start: nat, spec: Spec, valid: nat)
    requires spec.Valid() && RowsMatch(rows, spec) && RowsInRange(rows, spec)
    requires valid <= spec.blockTokens && start + valid <= |rows|
    ensures RestorableTensor(BlockTensor(rows, start, spec), spec)
    ensures ValidPrefix(BlockTensor(rows, start, spec), spec, valid) == RestoredTokens(rows, spec)[start..start + valid]
  {
    hide BlockTensor, TensorToken, RestorableTensor, RestoredTokens, RowsInRange;
    BlockTensorRestorable(rows, start, spec);
    forall t | 0 <= t < valid
      ensures ValidPrefix(BlockTensor(rows, start, spec), spec, valid)[t] == RestoredTokens(rows, spec)[start..start + valid][t]
    {
      TokenOfBlock(rows, start, spec, t);
    }
  }

  // ----- selections

  ghost predicate IsSelection(ids: seq<nat>, tokens: nat, spec: Spec)
    requires 0 < spec.blockTokens
  {
    forall i :: 0 <= i < |ids| ==> ids[i] < BlockCount(tokens, spec)
  }

  /** The runs of tokens that the selected blocks stand for, one after the other. */
  function Selected(all: seq<Token>, spec: Spec, ids: seq<nat>): seq<Token>
    requires 0 < spec.blockTokens && IsSelection(ids, |all|, spec)
  {
    if ids == [] then []
    else
      var b := ids[|ids| - 1];
      Selected(all, spec, ids[..|ids| - 1])
      + all[b * spec.blockTokens..b * spec.blockTokens + ValidTokens(|all|, spec, b)]
  }

  /** Tokens b * blockTokens up to the end of the block, or to the last token. */
  function BlockTokens(all: seq<Token>, spec: Spec, b: nat): seq<Token> {
    var start := Min(Offset(b, spec.blockTokens), |all|);
    all[start..Min(start + spec.blockTokens, |all|)]
  }

  lemma TokensOfBlock(all: seq<Token>, spec: Spec, b: nat)
    requires 0 < spec.blockTokens && b < BlockCount(|all|, spec)
    ensures b * spec.blockTokens + ValidTokens(|all|, spec, b) <= |all|
    ensures all[b * spec.blockTokens..b * spec.blockTokens + ValidTokens(|all|, spec, b)] == BlockTokens(all, spec, b)
  {
    hide BlockCount;
  }

  /** The next block adds its own tokens. */
  lemma SelectedNext(all: seq<Token>, spec: Spec, ids: seq<nat>, b: nat)
    requires 0 < spec.blockTokens && IsSelection(ids, |all|, spec) && b < BlockCount(|all|, spec)
    ensures IsSelection(ids + [b], |all|, spec)
    ensures Selected(all, spec, ids + [b]) == Selected(all, spec, ids) + BlockTokens(all, spec, b)
  {
    hide BlockCount, ValidTokens, BlockTokens;
    TokensOfBlock(all, spec, b);
    assert (ids + [b])[..|ids|] == ids;
  }

  /** Selecting every block in order selects every token in order. */
  lemma {:induction false} SelectedRange(all: seq<Token>, spec: Spec, n: nat)
    requires 0 < spec.blockTokens && n <= BlockCount(|all|, spec)
    ensures IsSelection(Range(n), |all|, spec)
    ensures Selected(all, spec, Range(n)) == all[..Min(n * spec.blockTokens, |all|)]
  {
    hide BlockCount, Range;
    if 0 < n {
      assert Range(n)[..n - 1] == Range(n - 1);
      SelectedRange(all, spec, n - 1);
      assert (n - 1) * spec.blockTokens < |all|;
      assert n * spec.blockTokens == (n - 1) * spec.blockTokens + spec.blockTokens;
    }
  }

  lemma EveryBlock(all: seq<Token>, spec: Spec)
    requires 0 < spec.blockTokens
    ensures IsSelection(Range(BlockCount(|all|, spec)), |all|, spec)
    ensures Selected(all, spec, Range(BlockCount(|all|, spec))) == all
  {
    hide BlockCount, Selected, Range, IsSelection;
    SelectedRange(all, spec, BlockCount(|all|, spec));
  }

  /** The blocks of layer `l` that `create` wrote for these ids. */
  function BlocksOf(keys: Cache, values: Cache, tokens: nat, spec: Spec, l: nat, ids: seq<nat>): (blocks: seq<PackedBlock>)
    requires spec.Valid() && CacheMatches(keys, tokens, spec) && CacheMatches(values, tokens, spec)
    requires l < spec.layers && IsSelection(ids, tokens, spec)
    ensures |blocks| == |ids|
  {
    seq(|ids|, i requires 0 <= i < |ids| => BlockOf(keys, values, tokens, spec, l, ids[i]))
  }

  ghost predicate InRangeCache(x: Cache, spec: Spec) {
    forall l :: 0 <= l < |x| ==> RowsInRange(x[l], spec)
  }

  lemma BlocksStackable(keys: Cache, values: Cache, tokens: nat, spec: Spec, l: nat, ids: seq<nat>)
    requires spec.Valid() && CacheMatches(keys, tokens, spec) && CacheMatches(values, tokens, spec)
    requires l < spec.layers && IsSelection(ids, tokens, spec)
    requires InRangeCache(keys, spec) && InRangeCache(values, spec)
    ensures Stackable(BlocksOf(keys, values, tokens, spec, l, ids), spec)
  {
    hide BlockTensor, Matches, RowsMatch, RowsInRange, ValidTokens, BlockCount, RestorableTensor;
    forall i | 0 <= i < |ids|
      ensures StackableBlock(BlocksOf(keys, values, tokens, spec, l, ids)[i], spec)
    {
      var start := ids[i] * spec.blockTokens;
      BlockMatches(keys, values, tokens, spec, l, ids[i]);
      RestorableData(keys[l], start, spec);
      RestorableData(values[l], start, spec);
    }
  }

  lemma RestorableData(rows: seq<seq<real>>, start: nat, spec: Spec)
    requires spec.Valid() && RowsMatch(rows, spec) && RowsInRange(rows, spec)
    ensures BlockTensor(rows, start, spec).data.Valid() && BlockTensor(rows, start, spec).data.FiniteScales()
  {
    hide BlockTensor, Quantized.Valid, Quantized.FiniteScales;
    BlockTensorRestorable(rows, start, spec);
  }

  lemma LastBlockTokens(keys: Cache, values: Cache, tokens: nat, spec: Spec, l: nat, ids: seq<nat>)
    requires spec.Valid() && CacheMatches(keys, tokens, spec) && CacheMatches(values, tokens, spec)
    requires l < spec.layers && IsSelection(ids, tokens, spec) && ids != []
    requires InRangeCache(keys, spec) && InRangeCache(values, spec)
    requires Stackable(BlocksOf(keys, values, tokens, spec, l, ids), spec)
    requires Stackable(BlocksOf(keys, values, tokens, spec, l, ids[..|ids| - 1]), spec)
    ensures var b, before := ids[|ids| - 1], BlocksOf(keys, values, tokens, spec, l, ids[..|ids| - 1]);
            var start, end := b * spec.blockTokens, b * spec.blockTokens + ValidTokens(tokens, spec, b);
            && KeysOf(BlocksOf(keys, values, tokens, spec, l, ids), spec) == KeysOf(before, spec) + RestoredTokens(keys[l], spec)[start..end]
            && ValuesOf(BlocksOf(keys, values, tokens, spec, l, ids), spec) == ValuesOf(before, spec) + RestoredTokens(values[l], spec)[start..end]
  {
    hide BlockTensor, Matches, RowsMatch, RowsInRange, ValidTokens, BlockCount, RestorableTensor, Stackable, RestoredTokens,
         ValidPrefix;
    var n := |ids| - 1;
    assert BlocksOf(keys, values, tokens, spec, l, ids)[..n] == BlocksOf(keys, values, tokens, spec, l, ids[..n]);
    PrefixOfBlock(keys[l], ids[n] * spec.blockTokens, spec, ValidTokens(tokens, spec, ids[n]));
    PrefixOfBlock(values[l], ids[n] * spec.blockTokens, spec, ValidTokens(tokens, spec, ids[n]));
  }

  /** The valid tokens of stored blocks are the restored tokens of the cache that the ids stand for. */
  lemma {:induction false} TokensOfBlocks(keys: Cache, values: Cache, tokens: nat, spec: Spec, l: nat, ids: seq<nat>)
    requires spec.Valid() && CacheMatches(keys, tokens, spec) && CacheMatches(values, tokens, spec)
    requires l < spec.layers && IsSelection(ids, tokens, spec)
    requires InRangeCache(keys, spec) && InRangeCache(values, spec)
    ensures Stackable(BlocksOf(keys, values, tokens, spec, l, ids), spec)
    ensures KeysOf(BlocksOf(keys, values, tokens, spec, l, ids), spec) == Selected(RestoredTokens(keys[l], spec), spec, ids)
    ensures ValuesOf(BlocksOf(keys, values, tokens, spec, l, ids), spec) == Selected(RestoredTokens(values[l], spec), spec, ids)
  {
    hide BlockTensor, Matches, RowsMatch, RowsInRange, ValidTokens, BlockCount, RestorableTensor, Stackable, RestoredTokens,
         ValidPrefix, BlocksOf, KeysOf, ValuesOf;
    BlocksStackable(keys, values, tokens, spec, l, ids);
    if ids == [] {
      NoTokens(keys, values, tokens, spec, l);
    } else {
      TokensOfBlocks(keys, values, tokens, spec, l, ids[..|ids| - 1]);
      LastBlockTokens(keys, values, tokens, spec, l, ids);
    }
  }

  lemma NoTokens(keys: Cache, values: Cache, tokens: nat, spec: Spec, l: nat)
    requires spec.Valid() && CacheMatches(keys, tokens, spec) && CacheMatches(values, tokens, spec) && l < spec.layers
    requires Stackable(BlocksOf(keys, values, tokens, spec, l, []), spec)
    ensures KeysOf(BlocksOf(keys, values, tokens, spec, l, []), spec) == [] == ValuesOf(BlocksOf(keys, values, tokens, spec, l, []), spec)
  {
    hide Stackable;
  }
}
