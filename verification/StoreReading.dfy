/** Looking records up, reading them back, and rebuilding the cached tensors from them. */
module StoreReading {
  import opened Bytes
  import opened Indexing
  import opened Format
  import opened Store
  import Crc32

  /** The store that `create` leaves behind. */
  ghost predicate IsStoreOf(keys: Cache, values: Cache, tokens: nat, spec: Spec, file: seq<Byte>, entries: seq<Entry>) {
    && spec.Valid() && CacheMatches(keys, tokens, spec) && CacheMatches(values, tokens, spec)
    && Holds(keys, values, tokens, spec, file, entries, RecordIndex(spec.layers, 0, BlockCount(tokens, spec)))
  }

  /** `_entries`: a dict by (layer, block), where a later entry would replace an earlier one. */
  function Lookup(entries: seq<Entry>, l: nat, b: nat): Option<Entry> {
    if entries == [] then None
    else
      var last := entries[|entries| - 1];
      if last.layer == l && last.block == b then Some(last) else Lookup(entries[..|entries| - 1], l, b)
  }

  lemma EntryAt(keys: Cache, values: Cache, tokens: nat, spec: Spec, file: seq<Byte>, entries: seq<Entry>, l: nat, b: nat)
    requires IsStoreOf(keys, values, tokens, spec, file, entries)
    requires l < spec.layers && b < BlockCount(tokens, spec)
    ensures RecordIndex(l, b, BlockCount(tokens, spec)) < |entries|
    ensures HoldsRecord(keys, values, tokens, spec, file, entries, l, b)
  {
    hide HoldsRecord, BlockCount;
    Flat(l, spec.layers, b, BlockCount(tokens, spec));
  }

  lemma IndexOfEntry(keys: Cache, values: Cache, tokens: nat, spec: Spec, file: seq<Byte>, entries: seq<Entry>, i: nat)
    returns (l: nat, b: nat)
    requires IsStoreOf(keys, values, tokens, spec, file, entries) && i < |entries|
    ensures l < spec.layers && b < BlockCount(tokens, spec) && i == RecordIndex(l, b, BlockCount(tokens, spec))
    ensures entries[i].layer == l && entries[i].block == b
    ensures entries[i].offset == Offset(i, spec.RecordBytes()) && entries[i].length == spec.RecordBytes()
    ensures entries[i].validTokens == ValidTokens(tokens, spec, b)
  {
    hide BlockCount, BlockOf, EncodeRecord, Offset, Spec.RecordBytes;
    var n := BlockCount(tokens, spec);
    RowBelow(i, spec.layers, n);
    l, b := i / n, i % n;
    EntryAt(keys, values, tokens, spec, file, entries, l, b);
  }

  /** Layer and block identify an entry. */
  lemma EntriesUnique(keys: Cache, values: Cache, tokens: nat, spec: Spec, file: seq<Byte>, entries: seq<Entry>, i: nat, j: nat)
    requires IsStoreOf(keys, values, tokens, spec, file, entries) && i < |entries| && j < |entries|
    requires entries[i].layer == entries[j].layer && entries[i].block == entries[j].block
    ensures i == j
  {
    hide Holds;
    var l, b := IndexOfEntry(keys, values, tokens, spec, file, entries, i);
    var m, c := IndexOfEntry(keys, values, tokens, spec, file, entries, j);
  }

  lemma AlignedMultiple(i: nat, size: nat)
    requires size % ALIGNMENT == 0
    ensures Offset(i, size) % ALIGNMENT == 0
  {
    var q := size / ALIGNMENT;
    assert i * size == (i * q) * ALIGNMENT;
  }

  lemma RecordAligned(spec: Spec)
    requires spec.Valid()
    ensures spec.RecordBytes() % ALIGNMENT == 0
  {
    hide Spec.PayloadBytes, AlignUp;
  }

  /** Records follow each other without gap or overlap, on 4096-byte boundaries, to the end of the file. */
  lemma Layout(keys: Cache, values: Cache, tokens: nat, spec: Spec, file: seq<Byte>, entries: seq<Entry>, i: nat)
    requires IsStoreOf(keys, values, tokens, spec, file, entries) && i < |entries|
    ensures entries[i].offset == Offset(i, spec.RecordBytes()) && entries[i].offset % ALIGNMENT == 0
    ensures entries[i].length == spec.RecordBytes()
    ensures entries[i].offset + entries[i].length == if i + 1 < |entries| then entries[i + 1].offset else |file|
    ensures 1 <= entries[i].validTokens <= spec.blockTokens
  {
    hide Holds, BlockCount, Spec.RecordBytes, Offset;
    var l, b := IndexOfEntry(keys, values, tokens, spec, file, entries, i);
    RecordAligned(spec);
    AlignedMultiple(i, spec.RecordBytes());
    NextOffset(i, spec.RecordBytes());
    if i + 1 < |entries| {
      var m, c := IndexOfEntry(keys, values, tokens, spec, file, entries, i + 1);
    } else {
      FileLength(keys, values, tokens, spec, file, entries);
    }
  }

  /**
   The entry of layer `l`, block `b` is number l * n + b, layer by layer, and says where its record starts, how long it
   is, how many of its tokens are valid, and the CRC of its payload.
  */
  lemma EntryOf(keys: Cache, values: Cache, tokens: nat, spec: Spec, file: seq<Byte>, entries: seq<Entry>, l: nat, b: nat)
    requires IsStoreOf(keys, values, tokens, spec, file, entries) && l < spec.layers && b * spec.blockTokens < tokens
    ensures b < BlockCount(tokens, spec) && l * BlockCount(tokens, spec) + b < |entries|
    ensures var i, size := l * BlockCount(tokens, spec) + b, spec.RecordBytes();
            && i * size + size <= |file|
            && 52 + spec.PayloadBytes() <= size
            && entries[i] == Entry(l, b, i * size, size,
                                   if (b + 1) * spec.blockTokens <= tokens then spec.blockTokens else tokens - b * spec.blockTokens,
                                   Crc32.Checksum(file[i * size..i * size + size][52..52 + spec.PayloadBytes()]))
  {
    hide Spec.PayloadBytes, EncodeRecord, BlockOf, Holds, Spec.RecordBytes, Crc32.Checksum;
    WithinBlocks(tokens, spec, b);
    EntryAt(keys, values, tokens, spec, file, entries, l, b);
    BlockMatches(keys, values, tokens, spec, l, b);
    var block := BlockOf(keys, values, tokens, spec, l, b);
    EncodeSucceedsIff(block, spec);
    EncodedParts(block, spec);
  }

  lemma WithinBlocks(tokens: nat, spec: Spec, b: nat)
    requires 0 < spec.blockTokens && b * spec.blockTokens < tokens
    ensures b < BlockCount(tokens, spec)
  {
    if BlockCount(tokens, spec) <= b {
      TimesMonotone(BlockCount(tokens, spec), b, spec.blockTokens);
      assert false;
    }
  }

  lemma FileLength(keys: Cache, values: Cache, tokens: nat, spec: Spec, file: seq<Byte>, entries: seq<Entry>)
    requires IsStoreOf(keys, values, tokens, spec, file, entries)
    ensures |file| == Offset(|entries|, spec.RecordBytes())
  {
    hide HoldsRecord, BlockCount, Spec.RecordBytes, Offset;
  }

  lemma {:induction false} LookupFinds(entries: seq<Entry>, i: nat)
    requires i < |entries|
    requires forall j :: 0 <= j < |entries| && entries[j].layer == entries[i].layer && entries[j].block == entries[i].block ==> j == i
    ensures Lookup(entries, entries[i].layer, entries[i].block) == Some(entries[i])
  {
    var n := |entries| - 1;
    if i < n {
      assert entries[n].layer != entries[i].layer || entries[n].block != entries[i].block;
      LookupFinds(entries[..n], i);
    }
  }

  lemma {:induction false} LookupMisses(entries: seq<Entry>, l: nat, b: nat)
    requires forall j :: 0 <= j < |entries| ==> entries[j].layer != l || entries[j].block != b
    ensures Lookup(entries, l, b) == None
  {
    if entries != [] {
      LookupMisses(entries[..|entries| - 1], l, b);
    }
  }

  datatype ReadError = KeyError | EOFError | RecordError(error: Error)

  /** The positioned read of one whole record. */
  function Slice(file: seq<Byte>, entry: Entry): Result<seq<Byte>, ReadError> {
    if entry.offset + entry.length <= |file| then Ok(file[entry.offset..entry.offset + entry.length]) else Err(EOFError)
  }

  /** `KVCacheStore.read` */
  function Read(file: seq<Byte>, entries: seq<Entry>, spec: Spec, l: nat, b: nat, verifyCrc: bool): Result<PackedBlock, ReadError>
    requires 0 < spec.groupSize
  {
    match Lookup(entries, l, b)
    case None => Err(KeyError)
    case Some(entry) =>
      match Slice(file, entry)
      case Err(error) => Err(error)
      case Ok(raw) =>
        match DecodeRecord(raw, spec, verifyCrc)
        case Err(error) => Err(RecordError(error))
        case Ok(block) => Ok(block)
  }

  /** Reading finds exactly the written blocks, each as it was packed. */
  lemma ReadBack(keys: Cache, values: Cache, tokens: nat, spec: Spec, file: seq<Byte>, entries: seq<Entry>, l: nat, b: nat, verifyCrc: bool)
    requires IsStoreOf(keys, values, tokens, spec, file, entries)
    ensures if l < spec.layers && b < BlockCount(tokens, spec)
            then Read(file, entries, spec, l, b, verifyCrc) == Ok(BlockOf(keys, values, tokens, spec, l, b))
            else Read(file, entries, spec, l, b, verifyCrc) == Err(KeyError)
  {
    hide Holds, BlockCount, Spec.RecordBytes, Offset, BlockOf, EncodeRecord, DecodeRecord, RecordIndex, Lookup, HeaderFits;
    if l < spec.layers && b < BlockCount(tokens, spec) {
      EntryAt(keys, values, tokens, spec, file, entries, l, b);
      var i := RecordIndex(l, b, BlockCount(tokens, spec));
      forall j | 0 <= j < |entries| && entries[j].layer == l && entries[j].block == b
        ensures j == i
      {
        EntriesUnique(keys, values, tokens, spec, file, entries, j, i);
      }
      LookupFinds(entries, i);
      BlockMatches(keys, values, tokens, spec, l, b);
      EncodeSucceedsIff(BlockOf(keys, values, tokens, spec, l, b), spec);
      RecordRoundTrip(BlockOf(keys, values, tokens, spec, l, b), spec, verifyCrc);
    } else {
      forall j | 0 <= j < |entries|
        ensures entries[j].layer != l || entries[j].block != b
      {
        var m, c := IndexOfEntry(keys, values, tokens, spec, file, entries, j);
      }
      LookupMisses(entries, l, b);
    }
  }

  // ----- blocks_for_layer

  function LayerBlocks(entries: seq<Entry>, l: nat): seq<nat> {
    if entries == [] then []
    else
      var last := entries[|entries| - 1];
      LayerBlocks(entries[..|entries| - 1], l) + (if last.layer == l then [last.block] else [])
  }

  function Insert(x: nat, s: seq<nat>): seq<nat> {
    if s == [] || s[|s| - 1] <= x then s + [x] else Insert(x, s[..|s| - 1]) + [s[|s| - 1]]
  }

  function Sorted(s: seq<nat>): seq<nat> {
    if s == [] then [] else Insert(s[|s| - 1], Sorted(s[..|s| - 1]))
  }

  /** `blocks_for_layer` */
  function BlocksForLayer(entries: seq<Entry>, l: nat): seq<nat> {
    Sorted(LayerBlocks(entries, l))
  }

  function Range(n: nat): (r: seq<nat>)
    ensures |r| == n && forall i :: 0 <= i < n ==> r[i] == i
  {
    seq(n, i => i)
  }

  lemma {:induction false} InsertCounts(x: nat, s: seq<nat>)
    ensures multiset(Insert(x, s)) == multiset(s) + multiset{x}
  {
    if s != [] && x < s[|s| - 1] {
      var init, last := s[..|s| - 1], s[|s| - 1];
      InsertCounts(x, init);
      assert s == init + [last];
    }
  }

  lemma {:induction false} InsertBelow(x: nat, s: seq<nat>, top: nat)
    requires x <= top && forall i :: 0 <= i < |s| ==> s[i] <= top
    ensures forall i :: 0 <= i < |Insert(x, s)| ==> Insert(x, s)[i] <= top
  {
    if s != [] && x < s[|s| - 1] {
      InsertBelow(x, s[..|s| - 1], top);
    }
  }

  lemma {:induction false} InsertSorts(x: nat, s: seq<nat>)
    requires IsSorted(s)
    ensures IsSorted(Insert(x, s))
  {
    if s != [] && x < s[|s| - 1] {
      var init, last := s[..|s| - 1], s[|s| - 1];
      InsertSorts(x, init);
      InsertBelow(x, init, last);
    }
  }

  ghost predicate IsSorted(s: seq<nat>) {
    forall i, j :: 0 <= i < j < |s| ==> s[i] <= s[j]
  }

  lemma {:induction false} SortedSorts(s: seq<nat>)
    ensures IsSorted(Sorted(s)) && multiset(Sorted(s)) == multiset(s)
  {
    hide Insert;
    if s != [] {
      var n := |s| - 1;
      assert s == s[..n] + [s[n]];
      SortedSorts(s[..n]);
      InsertSorts(s[n], Sorted(s[..n]));
      InsertCounts(s[n], Sorted(s[..n]));
    }
  }

  /** For any manifest: the blocks of a layer in ascending order, each as often as an entry names it. */
  lemma BlocksOfLayer(entries: seq<Entry>, l: nat, b: nat)
    ensures IsSorted(BlocksForLayer(entries, l))
    ensures multiset(BlocksForLayer(entries, l))[b] == Naming(entries, l, b)
  {
    hide Sorted, LayerBlocks, Naming;
    SortedSorts(LayerBlocks(entries, l));
    LayerCounts(entries, l, b);
  }

  /** How many entries name this layer and block. */
  function Naming(entries: seq<Entry>, l: nat, b: nat): nat {
    if entries == [] then 0
    else
      var last := entries[|entries| - 1];
      Naming(entries[..|entries| - 1], l, b) + if last.layer == l && last.block == b then 1 else 0
  }

  lemma {:induction false} LayerCounts(entries: seq<Entry>, l: nat, b: nat)
    ensures multiset(LayerBlocks(entries, l))[b] == Naming(entries, l, b)
  {
    if entries != [] {
      LayerCounts(entries[..|entries| - 1], l, b);
    }
  }

  lemma InsertLargest(x: nat, s: seq<nat>)
    requires forall i :: 0 <= i < |s| ==> s[i] <= x
    ensures Insert(x, s) == s + [x]
  {
  }

  lemma {:induction false} SortedRange(n: nat)
    ensures Sorted(Range(n)) == Range(n)
  {
    hide Range, Insert;
    if 0 < n {
      var r := Range(n);
      assert r[..n - 1] == Range(n - 1);
      SortedRange(n - 1);
      InsertLargest(n - 1, Range(n - 1));
      assert Range(n - 1) + [n - 1] == r;
    }
  }

  lemma IndexOrder(m: nat, c: nat, l: nat, n: nat)
    requires c < n
    ensures m < l ==> RecordIndex(m, c, n) < RecordIndex(l, 0, n)
    ensures l < m ==> RecordIndex(l, 0, n) + n <= RecordIndex(m, c, n)
    ensures m == l ==> RecordIndex(m, c, n) == RecordIndex(l, 0, n) + c
  {
    if m < l {
      TimesMonotone(m + 1, l, n);
    } else if l < m {
      TimesMonotone(l + 1, m, n);
    }
  }

  lemma {:induction false} LayerBlocksPrefix(entries: seq<Entry>, l: nat, n: nat)
    requires forall i :: 0 <= i < |entries| ==> entries[i].block < n && i == RecordIndex(entries[i].layer, entries[i].block, n)
    ensures LayerBlocks(entries, l) ==
            if |entries| <= RecordIndex(l, 0, n) then []
            else Range(Min(n, |entries| - RecordIndex(l, 0, n)))
  {
    hide Range, RecordIndex;
    if entries != [] {
      var k := |entries| - 1;
      var last := entries[k];
      LayerBlocksPrefix(entries[..k], l, n);
      IndexOrder(last.layer, last.block, l, n);
      if last.layer == l {
        assert Range(0) == [];
        assert Range(last.block) + [last.block] == Range(last.block + 1);
      }
    }
  }

  /** A layer's blocks are 0, 1, ... up to its block count. */
  lemma BlocksAreRange(keys: Cache, values: Cache, tokens: nat, spec: Spec, file: seq<Byte>, entries: seq<Entry>, l: nat)
    requires IsStoreOf(keys, values, tokens, spec, file, entries)
    ensures BlocksForLayer(entries, l) == if l < spec.layers then Range(BlockCount(tokens, spec)) else []
  {
    hide BlockCount, RecordIndex, LayerBlocks, Range, Sorted;
    var n := BlockCount(tokens, spec);
    IndexedEntries(keys, values, tokens, spec, file, entries);
    LayerBlocksPrefix(entries, l, n);
    WholeLayer(spec.layers, l, n);
    SortedRange(n);
    SortedRange(0);
    assert Range(0) == [];
  }

  lemma WholeLayer(layers: nat, l: nat, n: nat)
    ensures l < layers ==> RecordIndex(l, 0, n) + n <= RecordIndex(layers, 0, n)
    ensures layers <= l ==> RecordIndex(layers, 0, n) <= RecordIndex(l, 0, n)
  {
    if l < layers {
      TimesMonotone(l + 1, layers, n);
    } else {
      TimesMonotone(layers, l, n);
    }
  }

  lemma IndexedEntries(keys: Cache, values: Cache, tokens: nat, spec: Spec, file: seq<Byte>, entries: seq<Entry>)
    requires IsStoreOf(keys, values, tokens, spec, file, entries)
    ensures |entries| == RecordIndex(spec.layers, 0, BlockCount(tokens, spec))
    ensures forall i :: 0 <= i < |entries| ==>
              && entries[i].block < BlockCount(tokens, spec)
              && i == RecordIndex(entries[i].layer, entries[i].block, BlockCount(tokens, spec))
  {
    hide BlockCount, HoldsRecord, RecordIndex;
    forall i | 0 <= i < |entries|
      ensures entries[i].block < BlockCount(tokens, spec)
      ensures i == RecordIndex(entries[i].layer, entries[i].block, BlockCount(tokens, spec))
    {
      var m, c := IndexOfEntry(keys, values, tokens, spec, file, entries, i);
    }
  }

  function ValidSum(tokens: nat, spec: Spec, blocks: nat): nat
    requires 0 < spec.blockTokens && blocks <= BlockCount(tokens, spec)
  {
    if blocks == 0 then 0 else ValidSum(tokens, spec, blocks - 1) + ValidTokens(tokens, spec, blocks - 1)
  }

  /** The valid counts of a layer add up to its tokens. */
  lemma {:induction false} ValidCountsCover(tokens: nat, spec: Spec, blocks: nat)
    requires 0 < spec.blockTokens && blocks <= BlockCount(tokens, spec)
    ensures ValidSum(tokens, spec, blocks) == if blocks < BlockCount(tokens, spec) then blocks * spec.blockTokens else tokens
  {
    hide BlockCount;
    if 0 < blocks {
      ValidCountsCover(tokens, spec, blocks - 1);
      if blocks < BlockCount(tokens, spec) {
        assert blocks * spec.blockTokens < tokens;
      }
    } else if BlockCount(tokens, spec) == 0 {
      assert tokens == 0;
    }
  }
}
