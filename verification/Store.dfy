/** `KVCacheStore`: fixed-size records, one per layer and token block, and what reading them back gives. */
module Store {
  import opened Bytes
  import opened Indexing
  import opened Quant
  import opened Format

  /** [layers][tokens] rows of kv_heads * head_dim elements. */
  type Cache = seq<seq<seq<real>>>

  datatype Entry = Entry(layer: nat, block: nat, offset: nat, length: nat, validTokens: nat, crc: nat)

  function Width(spec: Spec): nat {
    spec.kvHeads * spec.headDim
  }

  predicate RowsMatch(rows: seq<seq<real>>, spec: Spec) {
    forall t :: 0 <= t < |rows| ==> |rows[t]| == Width(spec)
  }

  /** The shape checks of `create`. */
  predicate CacheMatches(x: Cache, tokens: nat, spec: Spec) {
    |x| == spec.layers && forall l :: 0 <= l < |x| ==> |x[l]| == tokens && RowsMatch(x[l], spec)
  }

  /** len(range(0, tokens, block_tokens)) */
  function BlockCount(tokens: nat, spec: Spec): (n: nat)
    requires 0 < spec.blockTokens
    ensures n * spec.blockTokens < tokens + spec.blockTokens
    ensures tokens <= n * spec.blockTokens
    ensures forall b :: 0 <= b < n ==> b * spec.blockTokens < tokens
  {
    var n := (tokens + spec.blockTokens - 1) / spec.blockTokens;
    forall b | 0 <= b < n
      ensures b * spec.blockTokens < tokens
    {
      TimesMonotone(b + 1, n, spec.blockTokens);
    }
    n
  }

  function ValidTokens(tokens: nat, spec: Spec, b: nat): (valid: nat)
    requires 0 < spec.blockTokens && b < BlockCount(tokens, spec)
    ensures 1 <= valid <= spec.blockTokens && b * spec.blockTokens + valid <= tokens
  {
    Min(spec.blockTokens, tokens - b * spec.blockTokens)
  }

  /** Rows `start` to `start + blockTokens` of a layer, zero rows past the last token. */
  function BlockValues(rows: seq<seq<real>>, start: nat, spec: Spec): (x: seq<real>)
    requires RowsMatch(rows, spec)
    ensures |x| == spec.blockTokens * Width(spec)
  {
    seq(spec.blockTokens * Width(spec), i requires 0 <= i < spec.blockTokens * Width(spec) =>
      RowBelow(i, spec.blockTokens, Width(spec));
      if start + i / Width(spec) < |rows| then rows[start + i / Width(spec)][i % Width(spec)] else 0.0)
  }

  lemma BlockQuantizable(n: nat, spec: Spec)
    requires spec.Valid()
    ensures Width(spec) % spec.groupSize == 0 && Width(spec) > 0
    ensures (n * Width(spec)) % spec.groupSize == 0
  {
    var m := spec.headDim / spec.groupSize;
    WholeRows(spec.headDim, spec.groupSize);
    assert Width(spec) == (spec.kvHeads * m) * spec.groupSize;
    MultipleRemainder(spec.kvHeads * m, spec.groupSize);
    assert n * Width(spec) == (n * (spec.kvHeads * m)) * spec.groupSize;
    MultipleRemainder(n * (spec.kvHeads * m), spec.groupSize);
    Positive(spec.kvHeads, spec.headDim);
  }

  lemma Positive(a: nat, b: nat)
    requires 0 < a && 0 < b
    ensures 0 < a * b
  {
  }

  function BlockTensor(rows: seq<seq<real>>, start: nat, spec: Spec): Tensor
    requires spec.Valid() && RowsMatch(rows, spec)
  {
    BlockQuantizable(spec.blockTokens, spec);
    Tensor(spec.Shape(), Quantize(BlockValues(rows, start, spec), spec.bits, spec.groupSize))
  }

  /** The packed block that `create` writes for layer `l`, block `b`. */
  function BlockOf(keys: Cache, values: Cache, tokens: nat, spec: Spec, l: nat, b: nat): PackedBlock
    requires spec.Valid() && CacheMatches(keys, tokens, spec) && CacheMatches(values, tokens, spec)
    requires l < spec.layers && b < BlockCount(tokens, spec)
  {
    PackedBlock(l, b, ValidTokens(tokens, spec, b),
      BlockTensor(keys[l], b * spec.blockTokens, spec), BlockTensor(values[l], b * spec.blockTokens, spec))
  }

  lemma TensorCounts(rows: seq<seq<real>>, start: nat, spec: Spec)
    requires spec.Valid() && RowsMatch(rows, spec)
    ensures TensorMatches(BlockTensor(rows, start, spec), spec)
  {
    hide Pack, Codes, Scales, BlockValues;
    BlockQuantizable(spec.blockTokens, spec);
    var x := BlockValues(rows, start, spec);
    var q := Quantize(x, spec.bits, spec.groupSize);
    var per, bt, h, d := PerByte(spec.bits), spec.blockTokens, spec.kvHeads, spec.headDim;
    PiecesOfRows(d, spec.groupSize, per);
    assert d * spec.bits / 8 == d / per by { PackedDimension(d, spec.bits); }
    CountRows(bt, h, d, per);
    CountRows(bt, h, d, spec.groupSize);
    assert |q.packed| == |x| / per by { MultipleRemainder(|q.packed|, per); }
  }

  lemma PackedDimension(d: nat, bits: nat)
    requires IsBits(bits) && d % PerByte(bits) == 0
    ensures d * bits / 8 == d / PerByte(bits)
  {
  }

  lemma CountRows(bt: nat, h: nat, d: nat, piece: nat)
    requires 0 < piece && d % piece == 0
    ensures (bt * (h * d)) / piece == bt * h * (d / piece)
  {
    WholeRows(d, piece);
    assert bt * (h * d) == (bt * h * (d / piece)) * piece;
    MultipleRemainder(bt * h * (d / piece), piece);
  }

  lemma BlockMatches(keys: Cache, values: Cache, tokens: nat, spec: Spec, l: nat, b: nat)
    requires spec.Valid() && CacheMatches(keys, tokens, spec) && CacheMatches(values, tokens, spec)
    requires l < spec.layers && b < BlockCount(tokens, spec)
    ensures Matches(BlockOf(keys, values, tokens, spec, l, b), spec)
  {
    TensorCounts(keys[l], b * spec.blockTokens, spec);
    TensorCounts(values[l], b * spec.blockTokens, spec);
  }

  // ----- the file and its entries

  /** Position of layer `l`, block `b` in the order of writing. */
  function RecordIndex(l: nat, b: nat, blocks: nat): nat {
    l * blocks + b
  }

  /** `entries` and `file` hold the first `count` records of the store of `keys` and `values`, in order. */
  ghost predicate Holds(keys: Cache, values: Cache, tokens: nat, spec: Spec, file: seq<Byte>, entries: seq<Entry>, count: nat)
    requires spec.Valid() && CacheMatches(keys, tokens, spec) && CacheMatches(values, tokens, spec)
  {
    var n, size := BlockCount(tokens, spec), spec.RecordBytes();
    && |entries| == count && |file| == Offset(count, size)
    && forall l, b :: 0 <= l < spec.layers && 0 <= b < n && RecordIndex(l, b, n) < count ==>
         HoldsRecord(keys, values, tokens, spec, file, entries, l, b)
  }

  /** Entry `i` and the `i`-th slice of `size` bytes of the file. */
  ghost predicate StoredAt(
    file: seq<Byte>, entries: seq<Entry>, i: nat, size: nat, l: nat, b: nat, valid: nat, encoded: Result<(seq<Byte>, nat), Error>)
  {
    && encoded.Ok?
    && i < |entries| && entries[i] == Entry(l, b, Offset(i, size), size, valid, encoded.value.1)
    && Offset(i, size) + size <= |file| && file[Offset(i, size)..Offset(i, size) + size] == encoded.value.0
  }

  ghost predicate HoldsRecord(keys: Cache, values: Cache, tokens: nat, spec: Spec, file: seq<Byte>, entries: seq<Entry>, l: nat, b: nat)
    requires spec.Valid() && CacheMatches(keys, tokens, spec) && CacheMatches(values, tokens, spec)
    requires l < spec.layers && b < BlockCount(tokens, spec)
  {
    StoredAt(file, entries, RecordIndex(l, b, BlockCount(tokens, spec)), spec.RecordBytes(),
             l, b, ValidTokens(tokens, spec, b), EncodeRecord(BlockOf(keys, values, tokens, spec, l, b), spec))
  }

  datatype StoreError = InvalidSpec | ShapeMismatch | NotPackAligned | Record(error: Error)

  lemma BlockValueAt(rows: seq<seq<real>>, start: nat, spec: Spec, t: nat, j: nat)
    requires RowsMatch(rows, spec) && t < spec.blockTokens && j < Width(spec)
    ensures t * Width(spec) + j < spec.blockTokens * Width(spec)
    ensures BlockValues(rows, start, spec)[t * Width(spec) + j] == if start + t < |rows| then rows[start + t][j] else 0.0
  {
    hide Width;
    Flat(t, spec.blockTokens, j, Width(spec));
  }

  lemma RowOfBlock(rows: seq<seq<real>>, start: nat, spec: Spec, t: nat)
    requires RowsMatch(rows, spec) && t < spec.blockTokens && start + t < |rows|
    ensures Offset(t, Width(spec)) + Width(spec) <= spec.blockTokens * Width(spec)
    ensures BlockValues(rows, start, spec)[Offset(t, Width(spec))..Offset(t, Width(spec)) + Width(spec)] == rows[start + t]
  {
    hide BlockValues, Width;
    TimesMonotone(t + 1, spec.blockTokens, Width(spec));
    var part := BlockValues(rows, start, spec)[t * Width(spec)..t * Width(spec) + Width(spec)];
    forall j | 0 <= j < Width(spec)
      ensures part[j] == rows[start + t][j]
    {
      BlockValueAt(rows, start, spec, t, j);
    }
  }

  method CopyRow(row: seq<real>, x: array<real>, at: nat)
    requires at + |row| <= x.Length
    modifies x
    ensures x[..at] == old(x[..at]) && x[at..at + |row|] == row
    ensures forall i :: at + |row| <= i < x.Length ==> x[i] == old(x[i])
  {
    for j := 0 to |row|
      invariant x[..at] == old(x[..at]) && x[at..at + j] == row[..j]
      invariant forall i :: at + |row| <= i < x.Length ==> x[i] == old(x[i])
    {
      x[at + j] := row[j];
    }
  }

  /** `k = torch.zeros(shape); k[:valid].copy_(rows[start : start + valid])` */
  method PadBlock(rows: seq<seq<real>>, start: nat, valid: nat, spec: Spec) returns (x: array<real>)
    requires RowsMatch(rows, spec) && valid <= spec.blockTokens && start + valid <= |rows|
    requires valid == spec.blockTokens || start + valid == |rows|
    ensures fresh(x) && x[..] == BlockValues(rows, start, spec)
  {
    hide BlockValues, Width, Offset;
    var width := Width(spec);
    ghost var expected := BlockValues(rows, start, spec);
    x := new real[spec.blockTokens * width](i => 0.0);
    NoOffset(width);
    for t := 0 to valid
      invariant Offset(t, width) <= x.Length
      invariant x[..Offset(t, width)] == expected[..Offset(t, width)]
      invariant forall i :: Offset(t, width) <= i < x.Length ==> x[i] == 0.0
    {
      var at := Offset(t, width);
      RowOfBlock(rows, start, spec, t);
      ghost var before := x[..at];
      CopyRow(rows[start + t], x, at);
      NextOffset(t, width);
      assert x[..at + width] == before + x[at..at + width];
      assert expected[..at + width] == expected[..at] + expected[at..at + width];
    }
    PaddedWhole(x[..], rows, start, valid, spec);
  }

  lemma PaddedWhole(x: seq<real>, rows: seq<seq<real>>, start: nat, valid: nat, spec: Spec)
    requires RowsMatch(rows, spec) && valid <= spec.blockTokens && start + valid <= |rows|
    requires valid == spec.blockTokens || start + valid == |rows|
    requires |x| == spec.blockTokens * Width(spec) && Offset(valid, Width(spec)) <= |x|
    requires x[..Offset(valid, Width(spec))] == BlockValues(rows, start, spec)[..Offset(valid, Width(spec))]
    requires forall i :: Offset(valid, Width(spec)) <= i < |x| ==> x[i] == 0.0
    ensures x == BlockValues(rows, start, spec)
  {
    hide BlockValues, Width;
    var expected := BlockValues(rows, start, spec);
    forall i | 0 <= i < |x|
      ensures x[i] == expected[i]
    {
      if valid * Width(spec) <= i {
        PaddingIsZero(rows, start, valid, spec, i);
      } else {
        assert x[i] == x[..valid * Width(spec)][i];
      }
    }
  }

  lemma PaddingIsZero(rows: seq<seq<real>>, start: nat, valid: nat, spec: Spec, i: nat)
    requires RowsMatch(rows, spec) && valid <= spec.blockTokens && start + valid <= |rows|
    requires valid == spec.blockTokens || start + valid == |rows|
    requires valid * Width(spec) <= i < spec.blockTokens * Width(spec)
    ensures BlockValues(rows, start, spec)[i] == 0.0
  {
    hide BlockValues, Width;
    var width := Width(spec);
    RowBelow(i, spec.blockTokens, width);
    if i / width < valid {
      TimesMonotone(i / width + 1, valid, width);
      assert false;
    }
    BlockValueAt(rows, start, spec, i / width, i % width);
  }

  lemma NextIndex(l: nat, b: nat, layer: nat, block: nat, n: nat)
    requires block < n && b < n && RecordIndex(l, b, n) < RecordIndex(layer, block, n) + 1
    ensures RecordIndex(l, b, n) < RecordIndex(layer, block, n) || (l == layer && b == block)
  {
    if RecordIndex(l, b, n) == RecordIndex(layer, block, n) {
      DivideUnique(RecordIndex(l, b, n), n, l, b);
      DivideUnique(RecordIndex(l, b, n), n, layer, block);
    }
  }

  lemma AppendRecord(
    keys: Cache, values: Cache, tokens: nat, spec: Spec, file: seq<Byte>, entries: seq<Entry>, l: nat, b: nat, entry: Entry, record: seq<Byte>)
    requires spec.Valid() && CacheMatches(keys, tokens, spec) && CacheMatches(values, tokens, spec)
    requires l < spec.layers && b < BlockCount(tokens, spec)
    requires Holds(keys, values, tokens, spec, file, entries, RecordIndex(l, b, BlockCount(tokens, spec)))
    requires var encoded := EncodeRecord(BlockOf(keys, values, tokens, spec, l, b), spec);
             && encoded.Ok? && record == encoded.value.0 && |record| == spec.RecordBytes()
             && entry == Entry(l, b, |file|, |record|, ValidTokens(tokens, spec, b), encoded.value.1)
    ensures Holds(keys, values, tokens, spec, file + record, entries + [entry], RecordIndex(l, b, BlockCount(tokens, spec)) + 1)
  {
    hide EncodeRecord, BlockOf, Spec.RecordBytes, RecordIndex, StoredAt, Offset;
    var n, size := BlockCount(tokens, spec), spec.RecordBytes();
    var count := RecordIndex(l, b, n);
    NextOffset(count, size);
    forall layer, block | 0 <= layer < spec.layers && 0 <= block < n && RecordIndex(layer, block, n) < count + 1
      ensures HoldsRecord(keys, values, tokens, spec, file + record, entries + [entry], layer, block)
    {
      NextIndex(layer, block, l, b, n);
      var i, valid := RecordIndex(layer, block, n), ValidTokens(tokens, spec, block);
      var encoded := EncodeRecord(BlockOf(keys, values, tokens, spec, layer, block), spec);
      if i < count {
        assert HoldsRecord(keys, values, tokens, spec, file, entries, layer, block);
        StillStored(file, entries, i, size, layer, block, valid, encoded, record, entry);
      } else {
        NewlyStored(file, entries, count, size, layer, block, valid, encoded, record, entry);
      }
    }
  }

  lemma StillStored(
    file: seq<Byte>, entries: seq<Entry>, i: nat, size: nat, l: nat, b: nat, valid: nat, encoded: Result<(seq<Byte>, nat), Error>,
    record: seq<Byte>, entry: Entry)
    requires StoredAt(file, entries, i, size, l, b, valid, encoded)
    ensures StoredAt(file + record, entries + [entry], i, size, l, b, valid, encoded)
  {
    hide Offset;
    var start := Offset(i, size);
    assert (file + record)[start..start + size] == file[start..start + size];
  }

  lemma NewlyStored(
    file: seq<Byte>, entries: seq<Entry>, i: nat, size: nat, l: nat, b: nat, valid: nat, encoded: Result<(seq<Byte>, nat), Error>,
    record: seq<Byte>, entry: Entry)
    requires encoded.Ok? && record == encoded.value.0 && |record| == size
    requires |entries| == i && |file| == Offset(i, size)
    requires entry == Entry(l, b, |file|, size, valid, encoded.value.1)
    ensures StoredAt(file + record, entries + [entry], i, size, l, b, valid, encoded)
  {
    hide Offset;
    assert (file + record)[|file|..|file| + size] == record;
  }

  /** Every header field of every block of the store is a 32-bit number. */
  predicate FieldsFit(tokens: nat, spec: Spec)
    requires spec.Valid()
  {
    var limit := 0x1_0000_0000;
    tokens == 0 ||
    (&& spec.layers <= limit && BlockCount(tokens, spec) <= limit
     && spec.PayloadBytes() < limit && spec.blockTokens < limit && spec.kvHeads < limit && spec.headDim < limit)
  }

  /** The last block of the last layer decides it. */
  lemma FieldsFitIff(keys: Cache, values: Cache, tokens: nat, spec: Spec, l: nat, b: nat)
    requires spec.Valid() && CacheMatches(keys, tokens, spec) && CacheMatches(values, tokens, spec)
    requires l < spec.layers && b < BlockCount(tokens, spec)
    ensures FieldsFit(tokens, spec) ==> HeaderFits(BlockOf(keys, values, tokens, spec, l, b), spec)
    ensures l == spec.layers - 1 && b == BlockCount(tokens, spec) - 1 && HeaderFits(BlockOf(keys, values, tokens, spec, l, b), spec)
            ==> FieldsFit(tokens, spec)
  {
    hide BlockTensor, Spec.PayloadBytes, BlockCount;
    DivisorBelow(spec.headDim, spec.groupSize);
  }

  lemma DivisorBelow(n: nat, d: nat)
    requires 0 < n && 0 < d && n % d == 0
    ensures d <= n
  {
  }

  /** The loops of `create`: one record after another, layer by layer. */
  method WriteRecords(keys: Cache, values: Cache, tokens: nat, spec: Spec)
    returns (r: Result<(seq<Byte>, seq<Entry>), StoreError>)
    requires spec.Valid() && CacheMatches(keys, tokens, spec) && CacheMatches(values, tokens, spec)
    ensures r.Ok? ==>
              Holds(keys, values, tokens, spec, r.value.0, r.value.1, RecordIndex(spec.layers, 0, BlockCount(tokens, spec)))
    ensures r.Ok? <==> FieldsFit(tokens, spec)
    ensures r.Err? ==> r == Err(Record(FieldTooWide))
  {
    hide EncodeRecord, Holds, BlockOf, Spec.RecordBytes, Spec.PayloadBytes, HeaderFits, FieldsFit, BlockCount, ValidTokens, RowsMatch, RecordIndex;
    var n := BlockCount(tokens, spec);
    var file: seq<Byte>, entries: seq<Entry> := [], [];
    EmptyHolds(keys, values, tokens, spec);
    for l := 0 to spec.layers
      invariant Holds(keys, values, tokens, spec, file, entries, RecordIndex(l, 0, n))
      invariant 0 < l && 0 < n ==> HeaderFits(BlockOf(keys, values, tokens, spec, l - 1, n - 1), spec)
    {
      NextLayer(l, n);
      for b := 0 to n
        invariant Holds(keys, values, tokens, spec, file, entries, RecordIndex(l, b, n))
        invariant 0 < b ==> HeaderFits(BlockOf(keys, values, tokens, spec, l, b - 1), spec)
      {
        var encoded := WriteBlock(keys, values, tokens, spec, l, b);
        FieldsFitIff(keys, values, tokens, spec, l, b);
        if encoded.Err? {
          return Err(Record(encoded.error));
        }
        var (record, crc) := encoded.value;
        var entry := Entry(l, b, |file|, |record|, ValidTokens(tokens, spec, b), crc);
        NextRecord(l, b, n);
        AppendRecord(keys, values, tokens, spec, file, entries, l, b, entry, record);
        file, entries := file + record, entries + [entry];
      }
    }
    if n == 0 {
      NoBlocksFit(tokens, spec);
    } else {
      FieldsFitIff(keys, values, tokens, spec, spec.layers - 1, n - 1);
    }
    r := Ok((file, entries));
  }

  lemma NoBlocksFit(tokens: nat, spec: Spec)
    requires spec.Valid() && BlockCount(tokens, spec) == 0
    ensures FieldsFit(tokens, spec)
  {
    hide BlockCount;
  }

  lemma NextRecord(l: nat, b: nat, n: nat)
    ensures RecordIndex(l, b + 1, n) == RecordIndex(l, b, n) + 1
  {
  }

  lemma NextLayer(l: nat, n: nat)
    ensures RecordIndex(l + 1, 0, n) == RecordIndex(l, n, n)
  {
  }

  /** `KVCacheStore.create`: the file it writes and the entries of its manifest. */
  method Create(keys: Cache, values: Cache, tokens: nat, spec: Spec)
    returns (r: Result<(seq<Byte>, seq<Entry>), StoreError>)
    ensures !spec.Accepted() ==> r == Err(InvalidSpec)
    ensures spec.Accepted() && !(CacheMatches(keys, tokens, spec) && CacheMatches(values, tokens, spec)) ==> r == Err(ShapeMismatch)
    ensures (spec.Accepted() && !spec.Valid() && CacheMatches(keys, tokens, spec) && CacheMatches(values, tokens, spec))
            ==> r == if tokens == 0 then Ok(([], [])) else Err(NotPackAligned)
    ensures r.Ok? ==> CacheMatches(keys, tokens, spec) && CacheMatches(values, tokens, spec)
    ensures r.Ok? && spec.Valid() ==>
              Holds(keys, values, tokens, spec, r.value.0, r.value.1, RecordIndex(spec.layers, 0, BlockCount(tokens, spec)))
    ensures (spec.Valid() && CacheMatches(keys, tokens, spec) && CacheMatches(values, tokens, spec))
            ==> (r.Ok? <==> FieldsFit(tokens, spec)) && (r.Err? ==> r == Err(Record(FieldTooWide)))
  {
    hide Holds, FieldsFit, BlockCount, RowsMatch;
    if !spec.Accepted() {
      return Err(InvalidSpec);
    }
    if !(CacheMatches(keys, tokens, spec) && CacheMatches(values, tokens, spec)) {
      return Err(ShapeMismatch);
    }
    if !spec.Valid() {
      // Only quantizing a block would notice, and without tokens there is none.
      if tokens == 0 {
        return Ok(([], []));
      }
      return Err(NotPackAligned);
    }
    r := WriteRecords(keys, values, tokens, spec);
  }

  lemma EmptyHolds(keys: Cache, values: Cache, tokens: nat, spec: Spec)
    requires spec.Valid() && CacheMatches(keys, tokens, spec) && CacheMatches(values, tokens, spec)
    ensures Holds(keys, values, tokens, spec, [], [], RecordIndex(0, 0, BlockCount(tokens, spec)))
  {
    hide EncodeRecord, HoldsRecord;
  }

  /** Pads, quantizes and encodes one block. */
  method WriteBlock(keys: Cache, values: Cache, tokens: nat, spec: Spec, l: nat, b: nat)
    returns (encoded: Result<(seq<Byte>, nat), Error>)
    requires spec.Valid() && CacheMatches(keys, tokens, spec) && CacheMatches(values, tokens, spec)
    requires l < spec.layers && b < BlockCount(tokens, spec)
    ensures encoded == EncodeRecord(BlockOf(keys, values, tokens, spec, l, b), spec)
    ensures encoded.Ok? ==> |encoded.value.0| == spec.RecordBytes()
    ensures encoded.Ok? <==> HeaderFits(BlockOf(keys, values, tokens, spec, l, b), spec)
    ensures encoded.Err? ==> encoded == Err(FieldTooWide)
  {
    hide EncodeRecord, Spec.RecordBytes, Spec.PayloadBytes, Quantize;
    var start, valid := b * spec.blockTokens, ValidTokens(tokens, spec, b);
    var k := PadBlock(keys[l], start, valid, spec);
    var v := PadBlock(values[l], start, valid, spec);
    BlockQuantizable(spec.blockTokens, spec);
    var key := Tensor(spec.Shape(), Quantize(k[..], spec.bits, spec.groupSize));
    var value := Tensor(spec.Shape(), Quantize(v[..], spec.bits, spec.groupSize));
    encoded := EncodeRecord(PackedBlock(l, b, valid, key, value), spec);
    BlockMatches(keys, values, tokens, spec, l, b);
    EncodeSucceedsIff(BlockOf(keys, values, tokens, spec, l, b), spec);
  }
}
