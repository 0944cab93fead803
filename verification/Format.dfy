/** The record format of `blocks.kvssd`: a 52-byte header, four payload slices, zeros to a 4096-byte boundary. */
module Format {
  import opened Bytes
  import opened Indexing
  import opened Quant
  import Half
  import Crc32

  const ALIGNMENT: nat := 4096

  /** `align_up` */
  function AlignUp(value: nat): (aligned: nat)
    ensures value <= aligned < value + ALIGNMENT
    ensures aligned % ALIGNMENT == 0
  {
    (value + ALIGNMENT - 1) / ALIGNMENT * ALIGNMENT
  }

  datatype Spec = Spec(layers: nat, kvHeads: nat, headDim: nat, blockTokens: nat, bits: nat, groupSize: nat) {
    /** What `validate` asks; a group size of zero fails its division. */
    predicate Accepted() {
      && 0 < layers && 0 < kvHeads && 0 < headDim && 0 < blockTokens
      && IsBits(bits) && 0 < groupSize && headDim % groupSize == 0
    }

    /** What `validate` and then `quantize_tensor` ask. */
    predicate Valid() {
      Accepted() && groupSize % PerByte(bits) == 0
    }

    function Groups(): nat
      requires 0 < groupSize
    {
      headDim / groupSize
    }

    function PackedDim(): nat { headDim * bits / 8 }

    function ScaleCount(): nat
      requires 0 < groupSize
    {
      blockTokens * kvHeads * Groups()
    }

    function PackedCount(): nat { blockTokens * kvHeads * PackedDim() }

    function PayloadBytes(): nat
      requires 0 < groupSize
    {
      2 * ScaleCount() * 2 + 2 * PackedCount()
    }

    function RecordBytes(): nat
      requires 0 < groupSize
    {
      AlignUp(HEADER_SIZE + PayloadBytes())
    }

    function Shape(): seq<nat> { [blockTokens, kvHeads, headDim] }
  }

  /** A quantized tensor with the shape it was made from. */
  datatype Tensor = Tensor(shape: seq<nat>, data: Quantized)

  datatype PackedBlock = PackedBlock(layer: nat, block: nat, validTokens: nat, key: Tensor, value: Tensor)

  datatype Error =
    | WrongShape        // the block is not shaped like the spec
    | FieldTooWide      // struct.pack: a header field does not fit
    | TooLong           // the payload is longer than the record
    | Truncated         // fewer bytes than the header or the slices need
    | BadHeader         // magic or version
    | LayoutMismatch    // layout fields differ from the spec
    | CrcMismatch

  // ----- integer fields

  function TotalWidth(widths: seq<nat>): nat {
    if widths == [] then 0 else widths[0] + TotalWidth(widths[1..])
  }

  predicate Fit(values: seq<nat>, widths: seq<nat>)
    requires |values| == |widths|
  {
    forall i :: 0 <= i < |values| ==> values[i] < Pow256(widths[i])
  }

  /** The integer part of `struct.pack` in little-endian order without padding. */
  function PackFields(values: seq<nat>, widths: seq<nat>): (bytes: seq<Byte>)
    requires |values| == |widths|
    ensures |bytes| == TotalWidth(widths)
  {
    if values == [] then []
    else LittleEndian(values[0], widths[0]) + PackFields(values[1..], widths[1..])
  }

  function UnpackFields(bytes: seq<Byte>, widths: seq<nat>): (values: seq<nat>)
    requires TotalWidth(widths) <= |bytes|
    ensures |values| == |widths|
  {
    if widths == [] then []
    else [FromLittleEndian(bytes[..widths[0]])] + UnpackFields(bytes[widths[0]..], widths[1..])
  }

  lemma {:induction false} FieldsRoundTrip(values: seq<nat>, widths: seq<nat>, rest: seq<Byte>)
    requires |values| == |widths| && Fit(values, widths)
    ensures UnpackFields(PackFields(values, widths) + rest, widths) == values
  {
    hide LittleEndian, FromLittleEndian;
    if values != [] {
      var head, tail := LittleEndian(values[0], widths[0]), PackFields(values[1..], widths[1..]);
      var bytes := PackFields(values, widths) + rest;
      assert bytes[..widths[0]] == head;
      assert bytes[widths[0]..] == tail + rest;
      LittleEndianRoundTrip(values[0], widths[0]);
      FieldsRoundTrip(values[1..], widths[1..], rest);
      assert values == [values[0]] + values[1..];
    }
  }

  lemma {:induction false} FieldsOfBytes(bytes: seq<Byte>, widths: seq<nat>)
    requires TotalWidth(widths) <= |bytes|
    ensures Fit(UnpackFields(bytes, widths), widths)
    ensures PackFields(UnpackFields(bytes, widths), widths) == bytes[..TotalWidth(widths)]
  {
    hide LittleEndian, FromLittleEndian;
    if widths != [] {
      var w := widths[0];
      FromLittleEndianRoundTrip(bytes[..w]);
      FieldsOfBytes(bytes[w..], widths[1..]);
      assert UnpackFields(bytes, widths)[1..] == UnpackFields(bytes[w..], widths[1..]);
      assert bytes[..TotalWidth(widths)] == bytes[..w] + bytes[w..][..TotalWidth(widths[1..])];
    }
  }

  // ----- half-precision slices

  /** `scales.view(torch.uint8)` */
  function HalfBytes(scales: seq<Half.Pattern>): (bytes: seq<Byte>)
    ensures |bytes| == 2 * |scales|
  {
    if scales == [] then []
    else HalfBytes(scales[..|scales| - 1]) + LittleEndian(scales[|scales| - 1], 2)
  }

  function ToPattern(bytes: seq<Byte>): Half.Pattern
    requires |bytes| == 2
  {
    assert Pow256(2) == 0x1_0000;
    FromLittleEndian(bytes)
  }

  /** `raw.view(torch.float16)` */
  function BytesToHalves(bytes: seq<Byte>): (scales: seq<Half.Pattern>)
    requires |bytes| % 2 == 0
    ensures |scales| == |bytes| / 2
  {
    if bytes == [] then []
    else BytesToHalves(bytes[..|bytes| - 2]) + [ToPattern(bytes[|bytes| - 2..])]
  }

  lemma {:induction false} HalvesRoundTrip(scales: seq<Half.Pattern>)
    ensures BytesToHalves(HalfBytes(scales)) == scales
  {
    if scales != [] {
      var n := |scales| - 1;
      var bytes := HalfBytes(scales);
      HalvesRoundTrip(scales[..n]);
      assert bytes[..|bytes| - 2] == HalfBytes(scales[..n]);
      assert bytes[|bytes| - 2..] == LittleEndian(scales[n], 2);
      assert Pow256(2) == 0x1_0000;
      LittleEndianRoundTrip(scales[n], 2);
      assert scales == scales[..n] + [scales[n]];
    }
  }

  lemma {:induction false} BytesOfHalves(bytes: seq<Byte>)
    requires |bytes| % 2 == 0
    ensures HalfBytes(BytesToHalves(bytes)) == bytes
  {
    if bytes != [] {
      hide LittleEndian, FromLittleEndian, ToPattern;
      var n := |bytes| - 2;
      BytesOfHalves(bytes[..n]);
      BytesOfPattern(bytes[n..]);
      var init, last := BytesToHalves(bytes[..n]), ToPattern(bytes[n..]);
      NextHalf(init, last);
      assert BytesToHalves(bytes) == init + [last];
      assert bytes == bytes[..n] + bytes[n..];
    }
  }

  lemma BytesOfPattern(bytes: seq<Byte>)
    requires |bytes| == 2
    ensures LittleEndian(ToPattern(bytes), 2) == bytes
  {
    hide LittleEndian, FromLittleEndian;
    FromLittleEndianRoundTrip(bytes);
  }

  lemma NextHalf(scales: seq<Half.Pattern>, last: Half.Pattern)
    ensures HalfBytes(scales + [last]) == HalfBytes(scales) + LittleEndian(last, 2)
  {
    hide LittleEndian;
    assert (scales + [last])[..|scales|] == scales;
  }

  // ----- records

  const HEADER_SIZE: nat := 52

  /** "KVSSD001" */
  function Magic(): (m: seq<Byte>)
    ensures |m| == 8
  {
    [0x4B, 0x56, 0x53, 0x53, 0x44, 0x30, 0x30, 0x31]
  }

  function Fours(n: nat): (w: seq<nat>)
    ensures |w| == n && TotalWidth(w) == 4 * n
    ensures forall i :: 0 <= i < n ==> w[i] == 4
  {
    if n == 0 then []
    else
      assert ([4] + Fours(n - 1))[1..] == Fours(n - 1);
      [4] + Fours(n - 1)
  }

  /** Eleven "I" fields. */
  function HeaderWidths(): (w: seq<nat>)
    ensures |w| == 11 && TotalWidth(w) == 44
    ensures forall i :: 0 <= i < 11 ==> w[i] == 4
  {
    Fours(11)
  }

  function HeaderFields(block: PackedBlock, spec: Spec, payloadLength: nat, crc: nat): (fields: seq<nat>)
    ensures |fields| == 11
  {
    [1, block.layer, block.block, block.validTokens, spec.bits, spec.blockTokens, spec.kvHeads, spec.headDim,
     spec.groupSize, payloadLength, crc]
  }

  /** Key scales, value scales, key codes, value codes. */
  function Payload(block: PackedBlock): seq<Byte> {
    HalfBytes(block.key.data.scales) + HalfBytes(block.value.data.scales)
    + block.key.data.packed + block.value.data.packed
  }

  /** `encode_record` */
  function EncodeRecord(block: PackedBlock, spec: Spec): Result<(seq<Byte>, nat), Error>
    requires 0 < spec.groupSize
  {
    if block.key.shape != spec.Shape() || block.value.shape != spec.Shape() then Err(WrongShape)
    else
      var payload := Payload(block);
      var crc := Crc32.Checksum(payload);
      var fields := HeaderFields(block, spec, |payload|, crc);
      if !Fit(fields, HeaderWidths()) then Err(FieldTooWide)
      else
        var record := Magic() + PackFields(fields, HeaderWidths()) + payload;
        if spec.RecordBytes() < |record| then Err(TooLong)
        else Ok((record + Zeros(spec.RecordBytes() - |record|), crc))
  }

  /** The four slices that a cursor cuts from the payload, and their tensors. */
  function Slices(raw: seq<Byte>, spec: Spec, layer: nat, block: nat, validTokens: nat): PackedBlock
    requires 0 < spec.groupSize && HEADER_SIZE + spec.PayloadBytes() <= |raw|
  {
    var scaleBytes, packedBytes := spec.ScaleCount() * 2, spec.PackedCount();
    var c0 := HEADER_SIZE;
    var c1 := c0 + scaleBytes;
    var c2 := c1 + scaleBytes;
    var c3 := c2 + packedBytes;
    var c4 := c3 + packedBytes;
    PackedBlock(layer, block, validTokens,
      Tensor(spec.Shape(), Quantized(raw[c2..c3], BytesToHalves(raw[c0..c1]), spec.bits, spec.groupSize)),
      Tensor(spec.Shape(), Quantized(raw[c3..c4], BytesToHalves(raw[c1..c2]), spec.bits, spec.groupSize)))
  }

  /** `decode_record` */
  function DecodeRecord(raw: seq<Byte>, spec: Spec, verifyCrc: bool): Result<PackedBlock, Error>
    requires 0 < spec.groupSize
  {
    if |raw| < HEADER_SIZE then Err(Truncated)
    else
      var fields := UnpackFields(raw[8..], HeaderWidths());
      if raw[..8] != Magic() || fields[0] != 1 then Err(BadHeader)
      else if fields[4..9] != [spec.bits, spec.blockTokens, spec.kvHeads, spec.headDim, spec.groupSize] then
        Err(LayoutMismatch)
      else
        var payload := raw[HEADER_SIZE..Min(HEADER_SIZE + fields[9], |raw|)];
        if verifyCrc && Crc32.Checksum(payload) != fields[10] then Err(CrcMismatch)
        else if |raw| < HEADER_SIZE + spec.PayloadBytes() then Err(Truncated)
        else Ok(Slices(raw, spec, fields[1], fields[2], fields[3]))
  }

  /** A tensor with the spec's layout. */
  predicate TensorMatches(t: Tensor, spec: Spec)
    requires 0 < spec.groupSize
  {
    && t.shape == spec.Shape()
    && t.data.bits == spec.bits && t.data.groupSize == spec.groupSize
    && |t.data.packed| == spec.PackedCount() && |t.data.scales| == spec.ScaleCount()
  }

  predicate Matches(block: PackedBlock, spec: Spec)
    requires 0 < spec.groupSize
  {
    TensorMatches(block.key, spec) && TensorMatches(block.value, spec)
  }

  /** Every header field is a 32-bit number. */
  predicate HeaderFits(block: PackedBlock, spec: Spec)
    requires 0 < spec.groupSize
  {
    var limit := 0x1_0000_0000;
    && block.layer < limit && block.block < limit && block.validTokens < limit
    && spec.bits < limit && spec.blockTokens < limit && spec.kvHeads < limit && spec.headDim < limit
    && spec.groupSize < limit && spec.PayloadBytes() < limit
  }

  lemma FieldLimit()
    ensures Pow256(4) == 0x1_0000_0000
  {
    assert Pow256(2) == 0x1_0000;
  }

  /** For a block laid out like the spec, encoding fails exactly when a header field does not fit. */
  lemma EncodeSucceedsIff(block: PackedBlock, spec: Spec)
    requires 0 < spec.groupSize && Matches(block, spec)
    ensures EncodeRecord(block, spec).Ok? <==> HeaderFits(block, spec)
    ensures EncodeRecord(block, spec).Err? ==> EncodeRecord(block, spec) == Err(FieldTooWide)
    ensures EncodeRecord(block, spec).Ok? ==>
              && |EncodeRecord(block, spec).value.0| == spec.RecordBytes()
              && spec.RecordBytes() % ALIGNMENT == 0
              && EncodeRecord(block, spec).value.1 == Crc32.Checksum(Payload(block))
  {
    hide Crc32.Checksum, PackFields, UnpackFields, Pow256, Payload, HeaderWidths;
    FieldLimit();
    var payload := Payload(block);
    Crc32.ChecksumFits(payload);
    PayloadLength(block, spec);
    var fields := HeaderFields(block, spec, |payload|, Crc32.Checksum(payload));
    if Fit(fields, HeaderWidths()) {
      assert fields[1] < Pow256(HeaderWidths()[1]) && fields[2] < Pow256(HeaderWidths()[2]) && fields[3] < Pow256(HeaderWidths()[3]);
      assert fields[4] < Pow256(HeaderWidths()[4]) && fields[5] < Pow256(HeaderWidths()[5]) && fields[6] < Pow256(HeaderWidths()[6]);
      assert fields[7] < Pow256(HeaderWidths()[7]) && fields[8] < Pow256(HeaderWidths()[8]) && fields[9] < Pow256(HeaderWidths()[9]);
    }
  }

  /** The header bytes of an encoded block. */
  function Header(block: PackedBlock, spec: Spec): (header: seq<Byte>)
    ensures |header| == HEADER_SIZE
  {
    Magic() + PackFields(HeaderFields(block, spec, |Payload(block)|, Crc32.Checksum(Payload(block))), HeaderWidths())
  }

  lemma EncodedParts(block: PackedBlock, spec: Spec)
    requires 0 < spec.groupSize && Matches(block, spec) && HeaderFits(block, spec)
    ensures EncodeRecord(block, spec).Ok?
    ensures |Payload(block)| == spec.PayloadBytes()
    ensures var record := EncodeRecord(block, spec).value.0;
            && |record| == spec.RecordBytes() && HEADER_SIZE + spec.PayloadBytes() <= |record|
            && record[..HEADER_SIZE] == Header(block, spec)
            && record[HEADER_SIZE..HEADER_SIZE + spec.PayloadBytes()] == Payload(block)
  {
    hide Crc32.Checksum, PackFields, UnpackFields, Pow256, Payload;
    EncodeSucceedsIff(block, spec);
    PayloadLength(block, spec);
    var header, payload := Header(block, spec), Payload(block);
    var padding := Zeros(spec.RecordBytes() - |header + payload|);
    assert EncodeRecord(block, spec).value.0 == header + payload + padding;
  }

  lemma PayloadLength(block: PackedBlock, spec: Spec)
    requires 0 < spec.groupSize && Matches(block, spec)
    ensures |Payload(block)| == spec.PayloadBytes()
  {
  }

  lemma HeaderReads(block: PackedBlock, spec: Spec, raw: seq<Byte>)
    requires 0 < spec.groupSize && Matches(block, spec) && HeaderFits(block, spec)
    requires HEADER_SIZE <= |raw| && raw[..HEADER_SIZE] == Header(block, spec)
    ensures raw[..8] == Magic()
    ensures UnpackFields(raw[8..], HeaderWidths())
         == HeaderFields(block, spec, spec.PayloadBytes(), Crc32.Checksum(Payload(block)))
  {
    hide Crc32.Checksum, PackFields, UnpackFields, Pow256, Payload, HeaderWidths, Magic;
    PayloadLength(block, spec);
    var fields := HeaderFields(block, spec, spec.PayloadBytes(), Crc32.Checksum(Payload(block)));
    FieldLimit();
    Crc32.ChecksumFits(Payload(block));
    assert Fit(fields, HeaderWidths());
    assert raw == Header(block, spec) + raw[HEADER_SIZE..];
    assert raw[8..] == PackFields(fields, HeaderWidths()) + raw[HEADER_SIZE..];
    FieldsRoundTrip(fields, HeaderWidths(), raw[HEADER_SIZE..]);
  }

  /** The four slices of a payload are the tensors that were concatenated. */
  lemma SlicesOfPayload(block: PackedBlock, spec: Spec, raw: seq<Byte>)
    requires 0 < spec.groupSize && Matches(block, spec)
    requires HEADER_SIZE + spec.PayloadBytes() <= |raw|
    requires raw[HEADER_SIZE..HEADER_SIZE + spec.PayloadBytes()] == Payload(block)
    ensures Slices(raw, spec, block.layer, block.block, block.validTokens) == block
  {
    hide HalfBytes, BytesToHalves;
    var payload := Payload(block);
    var s, p := spec.ScaleCount() * 2, spec.PackedCount();
    PayloadLength(block, spec);
    assert payload[..s] == HalfBytes(block.key.data.scales);
    assert payload[s..2 * s] == HalfBytes(block.value.data.scales);
    assert payload[2 * s..2 * s + p] == block.key.data.packed;
    assert payload[2 * s + p..] == block.value.data.packed;
    var c := HEADER_SIZE;
    SliceOfSlice(raw, c, spec.PayloadBytes(), 0, s);
    SliceOfSlice(raw, c, spec.PayloadBytes(), s, 2 * s);
    SliceOfSlice(raw, c, spec.PayloadBytes(), 2 * s, 2 * s + p);
    SliceOfSlice(raw, c, spec.PayloadBytes(), 2 * s + p, 2 * s + p + p);
    HalvesRoundTrip(block.key.data.scales);
    HalvesRoundTrip(block.value.data.scales);
  }

  lemma SliceOfSlice(raw: seq<Byte>, start: nat, length: nat, low: nat, high: nat)
    requires low <= high <= length && start + length <= |raw|
    ensures raw[start..start + length][low..high] == raw[start + low..start + high]
  {
    var part := raw[start..start + length];
    assert forall i :: 0 <= i < length ==> part[i] == raw[start + i];
    assert part[low..high] == raw[start + low..start + high];
  }

  /** Decoding undoes encoding, with or without the checksum. */
  lemma RecordRoundTrip(block: PackedBlock, spec: Spec, verifyCrc: bool)
    requires 0 < spec.groupSize && Matches(block, spec) && HeaderFits(block, spec)
    ensures EncodeRecord(block, spec).Ok?
    ensures DecodeRecord(EncodeRecord(block, spec).value.0, spec, verifyCrc) == Ok(block)
  {
    hide Crc32.Checksum, PackFields, UnpackFields, Pow256, Payload, HeaderWidths, Magic, Slices, EncodeRecord, Header;
    EncodedParts(block, spec);
    var record := EncodeRecord(block, spec).value.0;
    HeaderReads(block, spec, record);
    SlicesOfPayload(block, spec, record);
  }

  /** The slices of a record are a block laid out like the spec, whose payload is that of the record. */
  lemma PayloadOfSlices(raw: seq<Byte>, spec: Spec, layer: nat, block: nat, validTokens: nat)
    requires 0 < spec.groupSize && HEADER_SIZE + spec.PayloadBytes() <= |raw|
    ensures Matches(Slices(raw, spec, layer, block, validTokens), spec)
    ensures Payload(Slices(raw, spec, layer, block, validTokens)) == raw[HEADER_SIZE..HEADER_SIZE + spec.PayloadBytes()]
  {
    hide HalfBytes, BytesToHalves;
    var s, p, c := spec.ScaleCount() * 2, spec.PackedCount(), HEADER_SIZE;
    BytesOfHalves(raw[c..c + s]);
    BytesOfHalves(raw[c + s..c + s + s]);
    assert raw[c..c + s] + raw[c + s..c + s + s] + raw[c + s + s..c + s + s + p] + raw[c + s + s + p..c + s + s + p + p]
        == raw[c..c + s + s + p + p];
  }

  /** A record as the encoder lays it out: the declared payload length is the spec's, and zeros fill it up. */
  predicate Canonical(raw: seq<Byte>, spec: Spec)
    requires 0 < spec.groupSize
  {
    && |raw| == spec.RecordBytes() && HEADER_SIZE + spec.PayloadBytes() <= |raw|
    && UnpackFields(raw[8..], HeaderWidths())[9] == spec.PayloadBytes()
    && raw[HEADER_SIZE + spec.PayloadBytes()..] == Zeros(|raw| - HEADER_SIZE - spec.PayloadBytes())
  }

  lemma DecodedIsEncoded(raw: seq<Byte>, spec: Spec)
    requires 0 < spec.groupSize && DecodeRecord(raw, spec, true).Ok? && Canonical(raw, spec)
    ensures var block := DecodeRecord(raw, spec, true).value;
            EncodeRecord(block, spec).Ok? && EncodeRecord(block, spec).value.0 == raw
  {
    hide Crc32.Checksum, PackFields, UnpackFields, Pow256, Payload, HeaderWidths, Magic, Slices;
    var fields := UnpackFields(raw[8..], HeaderWidths());
    var block := DecodeRecord(raw, spec, true).value;
    FieldsOfBytes(raw[8..], HeaderWidths());
    PayloadOfSlices(raw, spec, fields[1], fields[2], fields[3]);
    DecodedFields(raw, spec);
    var payload := Payload(block);
    assert raw == raw[..8] + raw[8..][..44] + raw[HEADER_SIZE..HEADER_SIZE + |payload|] + raw[HEADER_SIZE + |payload|..];
    assert raw == Magic() + PackFields(fields, HeaderWidths()) + payload + Zeros(spec.RecordBytes() - HEADER_SIZE - |payload|);
  }

  /** The header that the decoder accepted is the one the encoder would write for the decoded block. */
  lemma DecodedFields(raw: seq<Byte>, spec: Spec)
    requires 0 < spec.groupSize && DecodeRecord(raw, spec, true).Ok?
    requires UnpackFields(raw[8..], HeaderWidths())[9] == spec.PayloadBytes()
    ensures var block := DecodeRecord(raw, spec, true).value;
            UnpackFields(raw[8..], HeaderWidths()) == HeaderFields(block, spec, |Payload(block)|, Crc32.Checksum(Payload(block)))
  {
    hide Crc32.Checksum, UnpackFields, Payload, HeaderWidths, Magic;
    var fields := UnpackFields(raw[8..], HeaderWidths());
    PayloadOfSlices(raw, spec, fields[1], fields[2], fields[3]);
    var layout := fields[4..9];
    assert fields[4] == layout[0] && fields[5] == layout[1] && fields[6] == layout[2] && fields[7] == layout[3] && fields[8] == layout[4];
  }

  /**
   A record that passes its checksum decodes to a block that encodes to the very same bytes exactly when it is laid out
   as the encoder does; the decoder itself looks neither at the padding nor at the declared payload length.
  */
  lemma ReencodesIff(raw: seq<Byte>, spec: Spec)
    requires 0 < spec.groupSize && DecodeRecord(raw, spec, true).Ok?
    ensures var block := DecodeRecord(raw, spec, true).value;
            (EncodeRecord(block, spec).Ok? && EncodeRecord(block, spec).value.0 == raw) <==> Canonical(raw, spec)
  {
    hide Crc32.Checksum, PackFields, UnpackFields, Pow256, Payload, HeaderWidths, Magic, Slices, Header;
    var fields := UnpackFields(raw[8..], HeaderWidths());
    var block := DecodeRecord(raw, spec, true).value;
    if Canonical(raw, spec) {
      DecodedIsEncoded(raw, spec);
    }
    if EncodeRecord(block, spec).Ok? && EncodeRecord(block, spec).value.0 == raw {
      PayloadOfSlices(raw, spec, fields[1], fields[2], fields[3]);
      EncodeSucceedsIff(block, spec);
      EncodedParts(block, spec);
      HeaderReads(block, spec, raw);
      EncodedPadding(block, spec);
    }
  }

  lemma EncodedPadding(block: PackedBlock, spec: Spec)
    requires 0 < spec.groupSize && Matches(block, spec) && EncodeRecord(block, spec).Ok?
    ensures var record := EncodeRecord(block, spec).value.0;
            && HEADER_SIZE + spec.PayloadBytes() <= |record|
            && record[HEADER_SIZE + spec.PayloadBytes()..] == Zeros(|record| - HEADER_SIZE - spec.PayloadBytes())
  {
    hide Crc32.Checksum, PackFields, Payload, HeaderWidths, Magic;
    PayloadLength(block, spec);
  }

  // ----- where everything lies

  /** With fields of four bytes each, field `i` starts at byte 4 i. */
  lemma {:induction false} FieldPlace(values: seq<nat>, widths: seq<nat>, i: nat)
    requires |values| == |widths| && (forall j :: 0 <= j < |widths| ==> widths[j] == 4) && i < |values|
    ensures |PackFields(values, widths)| == 4 * |values|
    ensures PackFields(values, widths)[4 * i..4 * i + 4] == LittleEndian(values[i], 4)
  {
    hide LittleEndian;
    var head, tail := LittleEndian(values[0], 4), PackFields(values[1..], widths[1..]);
    assert PackFields(values, widths) == head + tail;
    if 0 < i {
      FieldPlace(values[1..], widths[1..], i - 1);
      assert (head + tail)[4 * i..4 * i + 4] == tail[4 * (i - 1)..4 * (i - 1) + 4];
    } else if |values| == 1 {
      assert tail == [];
    } else {
      FieldPlace(values[1..], widths[1..], 0);
    }
  }

  /** Scale `i` is the two bytes from 2 i on. */
  lemma {:induction false} HalfPlace(scales: seq<Half.Pattern>, i: nat)
    requires i < |scales|
    ensures HalfBytes(scales)[2 * i..2 * i + 2] == LittleEndian(scales[i], 2)
  {
    var n := |scales| - 1;
    if i < n {
      HalfPlace(scales[..n], i);
      assert HalfBytes(scales)[2 * i..2 * i + 2] == HalfBytes(scales[..n])[2 * i..2 * i + 2];
    }
  }

  /**
   The bytes of a record around the payload: the magic "KVSSD001", eleven little-endian fields of four bytes, and zeros up
   to the next multiple of 4096.
  */
  lemma RecordLayout(block: PackedBlock, spec: Spec)
    requires 0 < spec.groupSize && Matches(block, spec) && HeaderFits(block, spec)
    ensures EncodeRecord(block, spec).Ok?
    ensures var record, n := EncodeRecord(block, spec).value.0, spec.PayloadBytes();
            && 52 + n <= |record| < 52 + n + 4096 && |record| % 4096 == 0
            && record[..8] == [0x4B, 0x56, 0x53, 0x53, 0x44, 0x30, 0x30, 0x31]
            && (forall i :: 52 + n <= i < |record| ==> record[i] == 0)
            && var fields := [1, block.layer, block.block, block.validTokens, spec.bits, spec.blockTokens, spec.kvHeads,
                              spec.headDim, spec.groupSize, n, Crc32.Checksum(record[52..52 + n])];
               forall i :: 0 <= i < 11 ==> record[8 + 4 * i..12 + 4 * i] == LittleEndian(fields[i], 4)
  {
    hide Crc32.Checksum, PackFields, Payload, HeaderWidths, HalfBytes, LittleEndian, EncodeRecord, Header, Matches, HeaderFits,
         Spec.PayloadBytes;
    EncodedParts(block, spec);
    EncodedPadding(block, spec);
    RecordSize(spec);
    HeaderPlaces(block, spec);
    var record := EncodeRecord(block, spec).value.0;
    forall i | 0 <= i < 11
      ensures record[8 + 4 * i..12 + 4 * i] == Header(block, spec)[8 + 4 * i..12 + 4 * i]
    {
      SliceOfSlice(record, 0, HEADER_SIZE, 8 + 4 * i, 12 + 4 * i);
    }
    assert record[..8] == Header(block, spec)[..8];
    PaddingIsZero(record, 52 + spec.PayloadBytes());
  }

  /** The payload: key scales, value scales, two bytes each, and then key codes and value codes. */
  lemma PayloadLayout(block: PackedBlock, spec: Spec)
    requires 0 < spec.groupSize && Matches(block, spec) && HeaderFits(block, spec)
    ensures EncodeRecord(block, spec).Ok? && 52 + spec.PayloadBytes() <= |EncodeRecord(block, spec).value.0|
    ensures var payload := EncodeRecord(block, spec).value.0[52..52 + spec.PayloadBytes()];
            var s, p := |block.key.data.scales|, |block.key.data.packed|;
            && |block.value.data.scales| == s && |block.value.data.packed| == p && |payload| == 4 * s + 2 * p
            && (forall i :: 0 <= i < s ==> payload[2 * i..2 * i + 2] == LittleEndian(block.key.data.scales[i], 2))
            && (forall i :: 0 <= i < s ==> payload[2 * s + 2 * i..2 * s + 2 * i + 2] == LittleEndian(block.value.data.scales[i], 2))
            && payload[4 * s..4 * s + p] == block.key.data.packed && payload[4 * s + p..4 * s + 2 * p] == block.value.data.packed
  {
    hide Payload, LittleEndian, EncodeRecord, HeaderFits, Spec.PayloadBytes;
    EncodedParts(block, spec);
    PayloadPlaces(block, spec);
  }

  lemma PaddingIsZero(record: seq<Byte>, start: nat)
    requires start <= |record| && record[start..] == Zeros(|record| - start)
    ensures forall i :: start <= i < |record| ==> record[i] == 0
  {
    forall i | start <= i < |record|
      ensures record[i] == 0
    {
      assert record[i] == record[start..][i - start];
    }
  }

  lemma RecordSize(spec: Spec)
    requires 0 < spec.groupSize
    ensures spec.RecordBytes() % 4096 == 0 && 52 + spec.PayloadBytes() <= spec.RecordBytes() < 52 + spec.PayloadBytes() + 4096
  {
    hide Spec.PayloadBytes;
  }

  lemma HeaderPlaces(block: PackedBlock, spec: Spec)
    requires 0 < spec.groupSize && Matches(block, spec)
    ensures var header, payload := Header(block, spec), Payload(block);
            var fields := [1, block.layer, block.block, block.validTokens, spec.bits, spec.blockTokens, spec.kvHeads, spec.headDim,
                           spec.groupSize, |payload|, Crc32.Checksum(payload)];
            && header[..8] == [0x4B, 0x56, 0x53, 0x53, 0x44, 0x30, 0x30, 0x31]
            && forall i :: 0 <= i < 11 ==> header[8 + 4 * i..12 + 4 * i] == LittleEndian(fields[i], 4)
  {
    hide Crc32.Checksum, PackFields, Payload, HeaderWidths, LittleEndian;
    var fields := HeaderFields(block, spec, |Payload(block)|, Crc32.Checksum(Payload(block)));
    var packed := PackFields(fields, HeaderWidths());
    forall i | 0 <= i < 11
      ensures Header(block, spec)[8 + 4 * i..12 + 4 * i] == LittleEndian(fields[i], 4)
    {
      FieldPlace(fields, HeaderWidths(), i);
      assert Header(block, spec)[8 + 4 * i..12 + 4 * i] == packed[4 * i..4 * i + 4];
    }
  }

  lemma PayloadPlaces(block: PackedBlock, spec: Spec)
    requires 0 < spec.groupSize && Matches(block, spec)
    ensures var payload, s, p := Payload(block), |block.key.data.scales|, |block.key.data.packed|;
            && |block.value.data.scales| == s && |block.value.data.packed| == p
            && |payload| == 4 * s + 2 * p == spec.PayloadBytes()
            && (forall i :: 0 <= i < s ==> payload[2 * i..2 * i + 2] == LittleEndian(block.key.data.scales[i], 2))
            && (forall i :: 0 <= i < s ==> payload[2 * s + 2 * i..2 * s + 2 * i + 2] == LittleEndian(block.value.data.scales[i], 2))
            && payload[4 * s..4 * s + p] == block.key.data.packed && payload[4 * s + p..4 * s + 2 * p] == block.value.data.packed
  {
    hide HalfBytes, LittleEndian;
    PayloadLength(block, spec);
    var payload, s, p := Payload(block), |block.key.data.scales|, |block.key.data.packed|;
    var keys, values := HalfBytes(block.key.data.scales), HalfBytes(block.value.data.scales);
    forall i | 0 <= i < s
      ensures payload[2 * i..2 * i + 2] == LittleEndian(block.key.data.scales[i], 2)
      ensures payload[2 * s + 2 * i..2 * s + 2 * i + 2] == LittleEndian(block.value.data.scales[i], 2)
    {
      HalfPlace(block.key.data.scales, i);
      HalfPlace(block.value.data.scales, i);
      assert payload[2 * i..2 * i + 2] == keys[2 * i..2 * i + 2];
      assert payload[2 * s + 2 * i..2 * s + 2 * i + 2] == values[2 * i..2 * i + 2];
    }
  }

  /** A record whose payload differs from what was encoded inside four consecutive bytes is rejected. */
  lemma CorruptionCaught(block: PackedBlock, spec: Spec, raw: seq<Byte>, start: nat, w: nat)
    requires 0 < spec.groupSize && Matches(block, spec) && HeaderFits(block, spec)
    requires EncodeRecord(block, spec).Ok? && |raw| == |EncodeRecord(block, spec).value.0|
    requires HEADER_SIZE + spec.PayloadBytes() <= |raw|
    requires raw[..HEADER_SIZE] == EncodeRecord(block, spec).value.0[..HEADER_SIZE]
    requires raw[HEADER_SIZE..HEADER_SIZE + spec.PayloadBytes()] != Payload(block)
    requires Crc32.IsBurst(Payload(block), raw[HEADER_SIZE..HEADER_SIZE + spec.PayloadBytes()], start, w)
    ensures DecodeRecord(raw, spec, true) == Err(CrcMismatch)
  {
    hide Crc32.Checksum, PackFields, UnpackFields, Pow256, Payload, HeaderWidths, Magic, Slices, EncodeRecord, Header;
    EncodedParts(block, spec);
    HeaderReads(block, spec, raw);
    Crc32.BurstChangesChecksum(Payload(block), raw[HEADER_SIZE..HEADER_SIZE + spec.PayloadBytes()], start, w);
  }
}
