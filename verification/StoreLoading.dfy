/** A loader over a store: every block it yields is the block that `create` packed. */
module StoreLoading {
  import opened Bytes
  import opened Quant
  import opened Format
  import opened Store
  import opened StoreReading
  import L = Loader
  import B = Buffered

  /** The four payload slices of a record, as `_decode_device_record` and `decode_record` cut them. */
  function Cuts(spec: Spec): (cuts: seq<(nat, nat)>)
    requires 0 < spec.groupSize
    ensures |cuts| == L.PARTS
    ensures forall p :: 0 <= p < L.PARTS ==> cuts[p].0 <= cuts[p].1 <= HEADER_SIZE + spec.PayloadBytes()
  {
    var scaleBytes, packedBytes := spec.ScaleCount() * 2, spec.PackedCount();
    var c1 := HEADER_SIZE + scaleBytes;
    var c2 := c1 + scaleBytes;
    var c3 := c2 + packedBytes;
    [(HEADER_SIZE, c1), (c1, c2), (c2, c3), (c3, c3 + packedBytes)]
  }

  /** Tensors over detached slices: key scales, value scales, key codes, value codes. */
  function Assembled(spec: Spec, layer: nat, block: nat, validTokens: nat, parts: seq<Option<seq<Byte>>>): PackedBlock
    requires |parts| == L.PARTS && forall p :: 0 <= p < L.PARTS ==> parts[p].Some?
    requires |parts[0].value| % 2 == 0 && |parts[1].value| % 2 == 0
  {
    PackedBlock(layer, block, validTokens,
      Tensor(spec.Shape(), Quantized(parts[2].value, BytesToHalves(parts[0].value), spec.bits, spec.groupSize)),
      Tensor(spec.Shape(), Quantized(parts[3].value, BytesToHalves(parts[1].value), spec.bits, spec.groupSize)))
  }

  /** Request `i` of the loader is for block `b` of layer `l`. */
  ghost predicate Requests(c: L.Config, i: nat, spec: Spec, file: seq<Byte>, entries: seq<Entry>, l: nat, b: nat)
    requires spec.Valid()
  {
    && c.Valid() && c.size == spec.RecordBytes() && c.cuts == Cuts(spec)
    && i < |c.records| && Lookup(entries, l, b).Some? && Slice(file, Lookup(entries, l, b).value) == Ok(c.records[i])
  }

  lemma StoredRecord(keys: Cache, values: Cache, tokens: nat, spec: Spec, file: seq<Byte>, entries: seq<Entry>, l: nat, b: nat)
    requires IsStoreOf(keys, values, tokens, spec, file, entries) && l < spec.layers && b < BlockCount(tokens, spec)
    ensures Lookup(entries, l, b).Some? && Lookup(entries, l, b).value.validTokens == ValidTokens(tokens, spec, b)
    ensures var encoded := EncodeRecord(BlockOf(keys, values, tokens, spec, l, b), spec);
            encoded.Ok? && Slice(file, Lookup(entries, l, b).value) == Ok(encoded.value.0)
  {
    hide Holds, BlockCount, Spec.RecordBytes, BlockOf, EncodeRecord, RecordIndex, Lookup;
    EntryAt(keys, values, tokens, spec, file, entries, l, b);
    var i := RecordIndex(l, b, BlockCount(tokens, spec));
    forall j | 0 <= j < |entries| && entries[j].layer == l && entries[j].block == b
      ensures j == i
    {
      EntriesUnique(keys, values, tokens, spec, file, entries, j, i);
    }
    LookupFinds(entries, i);
  }

  lemma EvenSlices(c: L.Config, spec: Spec, raw: seq<Byte>)
    requires 0 < spec.groupSize && c.Valid() && c.cuts == Cuts(spec) && |raw| == c.size
    ensures var parts := L.Detach(c, raw); |parts[0].value| % 2 == 0 && |parts[1].value| % 2 == 0
  {
    hide Spec.ScaleCount, Spec.PackedCount;
  }

  lemma SlicesAreParts(c: L.Config, spec: Spec, raw: seq<Byte>, l: nat, b: nat, valid: nat)
    requires 0 < spec.groupSize && c.Valid() && c.cuts == Cuts(spec) && |raw| == c.size && HEADER_SIZE + spec.PayloadBytes() <= |raw|
    ensures var parts := L.Detach(c, raw); |parts[0].value| % 2 == 0 && |parts[1].value| % 2 == 0
    ensures Assembled(spec, l, b, valid, L.Detach(c, raw)) == Slices(raw, spec, l, b, valid)
  {
    hide BytesToHalves, Spec.ScaleCount, Spec.PackedCount;
    EvenSlices(c, spec, raw);
  }

  /** Host slots read layer, block and count from the header, device slots from the manifest entry; both yield the packed block. */
  lemma LoadedBlock(
    keys: Cache, values: Cache, tokens: nat, spec: Spec, file: seq<Byte>, entries: seq<Entry>, l: nat, b: nat, c: L.Config, i: nat)
    requires IsStoreOf(keys, values, tokens, spec, file, entries) && l < spec.layers && b < BlockCount(tokens, spec)
    requires Requests(c, i, spec, file, entries, l, b)
    ensures DecodeRecord(c.records[i], spec, true) == Ok(BlockOf(keys, values, tokens, spec, l, b))
    ensures Lookup(entries, l, b).Some?
    ensures var parts := L.Detach(c, c.records[i]);
            && (forall p :: 0 <= p < L.PARTS ==> parts[p].Some?)
            && |parts[0].value| % 2 == 0 && |parts[1].value| % 2 == 0
    ensures Assembled(spec, l, b, Lookup(entries, l, b).value.validTokens, L.Detach(c, c.records[i]))
         == BlockOf(keys, values, tokens, spec, l, b)
  {
    hide Holds, BlockCount, Spec.RecordBytes, EncodeRecord, Lookup, BlockTensor, HeaderFits, DecodeRecord, Slices, Cuts, Assembled,
         Payload, Header;
    StoredRecord(keys, values, tokens, spec, file, entries, l, b);
    var block := BlockOf(keys, values, tokens, spec, l, b);
    BlockMatches(keys, values, tokens, spec, l, b);
    EncodeSucceedsIff(block, spec);
    RecordRoundTrip(block, spec, true);
    EncodedParts(block, spec);
    SlicesOfPayload(block, spec, c.records[i]);
    SlicesAreParts(c, spec, c.records[i], l, b, block.validTokens);
  }

  lemma EntryInside(keys: Cache, values: Cache, tokens: nat, spec: Spec, file: seq<Byte>, entries: seq<Entry>, l: nat, b: nat)
    requires IsStoreOf(keys, values, tokens, spec, file, entries) && l < spec.layers && b < BlockCount(tokens, spec)
    ensures Lookup(entries, l, b).Some?
    ensures var entry := Lookup(entries, l, b).value;
            && 0 < entry.length == spec.RecordBytes() && entry.offset + entry.length <= |file|
            && Slice(file, entry) == Ok(file[entry.offset..entry.offset + entry.length])
  {
    hide Holds, BlockCount, BlockOf, EncodeRecord, Lookup, BlockTensor, HeaderFits;
    StoredRecord(keys, values, tokens, spec, file, entries, l, b);
    var block := BlockOf(keys, values, tokens, spec, l, b);
    BlockMatches(keys, values, tokens, spec, l, b);
    EncodeSucceedsIff(block, spec);
    EncodedParts(block, spec);
  }

  /**
   `KVCacheStore.read_into` with the portable backend: for every block of the store the read succeeds, however short
   the system's reads come back, and the destination holds the record that the block was encoded to. `Requests` makes
   the same slice the record that a finished read of the loader leaves in its slot.
  */
  method ReadInto(
    fd: B.Descriptor, ghost keys: Cache, ghost values: Cache, ghost tokens: nat, spec: Spec, entries: seq<Entry>, l: nat, b: nat,
    destination: array<Byte>)
    returns (r: Result<(), B.ReadError>)
    requires IsStoreOf(keys, values, tokens, spec, fd.file, entries) && l < spec.layers && b < BlockCount(tokens, spec)
    requires spec.RecordBytes() <= destination.Length
    modifies fd, destination
    ensures r.Ok? && Lookup(entries, l, b).Some?
    ensures Slice(fd.file, Lookup(entries, l, b).value) == Ok(destination[..spec.RecordBytes()])
    ensures EncodeRecord(BlockOf(keys, values, tokens, spec, l, b), spec).Ok?
    ensures destination[..spec.RecordBytes()] == EncodeRecord(BlockOf(keys, values, tokens, spec, l, b), spec).value.0
  {
    hide Holds, BlockCount, Lookup, Slice, Spec.RecordBytes, EncodeRecord, BlockOf, IsStoreOf;
    StoredRecord(keys, values, tokens, spec, fd.file, entries, l, b);
    EntryInside(keys, values, tokens, spec, fd.file, entries, l, b);
    var entry := Lookup(entries, l, b).value;
    r := B.ReadFallback(fd, entry.offset, entry.length, destination);
  }
}
