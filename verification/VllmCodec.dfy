/** The vLLM record: one CPU-tier block, quantized over its flat values, behind a 32-byte header. */
module VllmCodec {
  import opened Bytes
  import opened Indexing
  import opened Quant
  import opened QuantBounds
  import Half
  import Crc32
  import Format

  datatype Dtype = Float16 | BFloat16 | Float32 {
    function Code(): nat {
      match this
      case Float16 => 1
      case BFloat16 => 2
      case Float32 => 3
    }

    function ItemSize(): (n: nat)
      ensures n > 0
    {
      if Float32? then 4 else 2
    }
  }

  function DtypeOf(code: nat): Option<Dtype> {
    if code == 1 then Some(Float16) else if code == 2 then Some(BFloat16) else if code == 3 then Some(Float32) else None
  }

  /** A dequantized value; one whose scale is an infinity or a NaN is no real number. */
  datatype Element = Number(value: real) | NonFinite

  /** How the dtypes read values from bytes and round values to bytes. */
  datatype Floats = Floats(read: (Dtype, seq<Byte>) -> real, write: (Dtype, Element) -> seq<Byte>) {
    ghost predicate Valid() {
      forall dtype, x :: |write(dtype, x)| == dtype.ItemSize()
    }
  }

  datatype Error =
    | NotDivisible      // the view is no whole number of items
    | EmptyBuffer       // torch.frombuffer of no bytes
    | NotGrouped        // values not divisible by the group size
    | FieldTooWide      // struct.pack
    | Truncated
    | BadHeader
    | BadDtype
    | TruncatedPayload
    | CrcMismatch
    | ZeroGroup         // division by a zero group size
    | BadLayout
    | WrongElements
    | BadBits
    | BadReshape

  /** "KVVLLM02" */
  function Magic(): (m: seq<Byte>)
    ensures |m| == 8
  {
    [0x4B, 0x56, 0x56, 0x4C, 0x4C, 0x4D, 0x30, 0x32]
  }

  const HEADER_SIZE: nat := 32

  /** "BBBBIIQI" */
  function Widths(): (w: seq<nat>)
    ensures |w| == 8 && Format.TotalWidth(w) == 24
    ensures w == [1, 1, 1, 1, 4, 4, 8, 4]
  {
    var w := [1, 1, 1, 1, 4, 4, 8, 4];
    assert w[1..] == [1, 1, 1, 4, 4, 8, 4] && w[1..][1..] == [1, 1, 4, 4, 8, 4] && w[1..][1..][1..] == [1, 4, 4, 8, 4];
    assert Format.TotalWidth([4, 8, 4][1..][1..][1..]) == 0;
    assert Format.TotalWidth([4, 8, 4]) == 16;
    assert [4, 4, 8, 4][1..] == [4, 8, 4];
    assert [1, 4, 4, 8, 4][1..] == [4, 4, 8, 4];
    w
  }

  /** `_flat_tensor`: item `i` from its bytes. */
  function FlatTensor(floats: Floats, view: seq<Byte>, dtype: Dtype): (r: Result<seq<real>, Error>)
    ensures r.Ok? ==> |r.value| * dtype.ItemSize() == |view| && r.value != []
  {
    var size := dtype.ItemSize();
    if |view| % size != 0 then Err(NotDivisible)
    else if view == [] then Err(EmptyBuffer)
    else
      WholeRows(|view|, size);
      Ok(seq(|view| / size, i requires 0 <= i < |view| / size =>
        RowInside(i, |view|, size);
        floats.read(dtype, view[i * size..i * size + size])))
  }

  /** What the manager's constructor checks of its configuration. */
  predicate Configured(bits: nat, groupSize: nat) {
    IsBits(bits) && 0 < groupSize && groupSize % PerByte(bits) == 0
  }

  function PayloadOf(q: Quantized): seq<Byte> {
    Format.HalfBytes(q.scales) + q.packed
  }

  function Fields(bits: nat, dtype: Dtype, groupSize: nat, elements: nat, payload: seq<Byte>): (f: seq<nat>)
    ensures |f| == 8
  {
    [1, bits, dtype.Code(), 0, groupSize, elements, |payload|, Crc32.Checksum(payload)]
  }

  /** `encode_vllm_block` */
  function Encode(floats: Floats, view: seq<Byte>, bits: nat, groupSize: nat, dtype: Dtype): Result<seq<Byte>, Error>
    requires Configured(bits, groupSize)
  {
    var flat := FlatTensor(floats, view, dtype);
    if flat.Err? then Err(flat.error)
    else if |flat.value| % groupSize != 0 then Err(NotGrouped)
    else
      var payload := PayloadOf(Quantize(flat.value, bits, groupSize));
      var fields := Fields(bits, dtype, groupSize, |flat.value|, payload);
      if !Format.Fit(fields, Widths()) then Err(FieldTooWide)
      else
        var record := Magic() + Format.PackFields(fields, Widths()) + payload;
        Ok(record + Zeros(Format.AlignUp(|record|) - |record|))
  }

  datatype Parsed = Parsed(dtype: Dtype, elements: nat, tensor: Quantized)

  /** The part of `decode_vllm_block` before it looks at the destination. */
  function Parse(raw: seq<Byte>): Result<Parsed, Error> {
    if |raw| < HEADER_SIZE then Err(Truncated)
    else
      var f := Format.UnpackFields(raw[8..], Widths());
      var bits, groupSize, elements, length := f[1], f[4], f[5], f[6];
      if raw[..8] != Magic() || f[0] != 1 then Err(BadHeader)
      else if DtypeOf(f[2]).None? then Err(BadDtype)
      else if |raw| < HEADER_SIZE + length then Err(TruncatedPayload)
      else
        var payload := raw[HEADER_SIZE..HEADER_SIZE + length];
        if Crc32.Checksum(payload) != f[7] then Err(CrcMismatch)
        else if groupSize == 0 then Err(ZeroGroup)
        else
          var scaleBytes, packedBytes := elements / groupSize * 2, elements * bits / 8;
          if scaleBytes + packedBytes != length then Err(BadLayout)
          else if scaleBytes == 0 || packedBytes == 0 then Err(EmptyBuffer)
          else
            Ok(Parsed(DtypeOf(f[2]).value, elements,
                      Quantized(payload[scaleBytes..], Format.BytesToHalves(payload[..scaleBytes]), bits, groupSize)))
  }

  /** Element `i` of the dequantized record. */
  function ElementAt(q: Quantized, i: nat): Element
    requires q.Valid() && i < |q.packed| * PerByte(q.bits)
  {
    RowBelow(i, |q.scales|, q.groupSize);
    var scale := q.scales[i / q.groupSize];
    if Half.Finite(scale) then Number((Unpack(q.packed, q.bits)[i] - Midpoint(q.bits)) as real * Half.Value(scale)) else NonFinite
  }

  /** `dequantize_tensor`, with its own argument errors. */
  function Elements(p: Parsed): (r: Result<seq<Element>, Error>)
    ensures r.Ok? ==> |r.value| == p.elements
  {
    if !IsBits(p.tensor.bits) then Err(BadBits)
    else if |p.tensor.packed| * PerByte(p.tensor.bits) != p.elements || !p.tensor.Valid() then Err(BadReshape)
    else Ok(seq(p.elements, i requires 0 <= i < p.elements => ElementAt(p.tensor, i)))
  }

  function WriteAll(floats: Floats, dtype: Dtype, elements: seq<Element>): (bytes: seq<Byte>)
    requires floats.Valid()
    ensures |bytes| == |elements| * dtype.ItemSize()
  {
    if elements == [] then []
    else WriteAll(floats, dtype, elements[..|elements| - 1]) + floats.write(dtype, elements[|elements| - 1])
  }

  /** What `decode_vllm_block` leaves in a destination of `length` bytes, or the error it raises. */
  function Decoded(floats: Floats, raw: seq<Byte>, length: nat): (r: Result<seq<Byte>, Error>)
    requires floats.Valid()
    ensures r.Ok? ==> |r.value| == length
  {
    var parsed := Parse(raw);
    if parsed.Err? then Err(parsed.error)
    else
      var size := parsed.value.dtype.ItemSize();
      if length % size != 0 then Err(NotDivisible)
      else if length == 0 then Err(EmptyBuffer)
      else if length / size != parsed.value.elements then Err(WrongElements)
      else
        var elements := Elements(parsed.value);
        if elements.Err? then Err(elements.error)
        else
          WholeRows(length, size);
          Ok(WriteAll(floats, parsed.value.dtype, elements.value))
  }

  /** `decode_vllm_block`: every check comes before the first byte is written. */
  method Decode(floats: Floats, raw: seq<Byte>, destination: array<Byte>) returns (r: Result<Parsed, Error>)
    requires floats.Valid()
    modifies destination
    ensures r.Ok? <==> Decoded(floats, raw, destination.Length).Ok?
    ensures r.Err? ==> Decoded(floats, raw, destination.Length) == Err(r.error)
    ensures r.Err? ==> destination[..] == old(destination[..])
    ensures r.Ok? ==> Ok(destination[..]) == Decoded(floats, raw, destination.Length)
  {
    var parsed := Parse(raw);
    if parsed.Err? {
      return parsed;
    }
    var dtype := parsed.value.dtype;
    var size := dtype.ItemSize();
    if destination.Length % size != 0 {
      return Err(NotDivisible);
    }
    if destination.Length == 0 {
      return Err(EmptyBuffer);
    }
    if destination.Length / size != parsed.value.elements {
      return Err(WrongElements);
    }
    var elements := Elements(parsed.value);
    if elements.Err? {
      return Err(elements.error);
    }
    CopyAll(floats, dtype, elements.value, destination);
    r := parsed;
  }

  method CopyItem(item: seq<Byte>, start: nat, destination: array<Byte>)
    requires start + |item| <= destination.Length
    modifies destination
    ensures destination[..start] == old(destination[..start])
    ensures destination[start..start + |item|] == item
  {
    for j := 0 to |item|
      invariant destination[..start] == old(destination[..start])
      invariant destination[start..start + j] == item[..j]
    {
      destination[start + j] := item[j];
    }
  }

  /** `target.copy_`: item by item. */
  method CopyAll(floats: Floats, dtype: Dtype, elements: seq<Element>, destination: array<Byte>)
    requires floats.Valid() && destination.Length == |elements| * dtype.ItemSize()
    modifies destination
    ensures destination[..] == WriteAll(floats, dtype, elements)
  {
    var size := dtype.ItemSize();
    for i := 0 to |elements|
      invariant i * size <= destination.Length
      invariant destination[..i * size] == WriteAll(floats, dtype, elements[..i])
    {
      TimesMonotone(i + 1, |elements|, size);
      var start := i * size;
      assert (i + 1) * size == start + size;
      var item := floats.write(dtype, elements[i]);
      CopyItem(item, start, destination);
      assert elements[..i + 1][..i] == elements[..i];
      assert destination[..start + size] == destination[..start] + destination[start..start + size];
    }
    assert elements[..|elements|] == elements;
    assert destination[..destination.Length] == destination[..];
  }

  // ----- round trip and corruption

  lemma FieldLimits()
    ensures Pow256(1) == 0x100 && Pow256(4) == 0x1_0000_0000 && Pow256(8) == 0x1_0000_0000_0000_0000
  {
    assert Pow256(2) == 0x1_0000;
    assert Pow256(6) == 0x1_0000_0000_0000;
  }

  lemma PayloadLength(x: seq<real>, bits: nat, groupSize: nat)
    requires Quantizable(x, bits, groupSize)
    ensures |PayloadOf(Quantize(x, bits, groupSize))| == |x| / groupSize * 2 + |x| * bits / 8
    ensures |x| <= |x| / groupSize * groupSize && |PayloadOf(Quantize(x, bits, groupSize))| <= 3 * |x|
  {
    hide Pack, Codes, Scales, Format.HalfBytes;
    var q := Quantize(x, bits, groupSize);
    WholeRows(|x|, groupSize);
    BytesOfElements(|q.packed|, |x|, bits);
    TimesMonotone(1, groupSize, |x| / groupSize);
  }

  lemma BytesOfElements(bytes: nat, elements: nat, bits: nat)
    requires IsBits(bits) && bytes * PerByte(bits) == elements
    ensures elements * bits / 8 == bytes
  {
  }

  /** Encoding succeeds for a whole number of groups whose counts fit 32 bits, and for nothing else. */
  lemma EncodeSucceedsIff(floats: Floats, view: seq<Byte>, bits: nat, groupSize: nat, dtype: Dtype)
    requires Configured(bits, groupSize)
    ensures var size := if dtype.Float32? then 4 else 2;
            Encode(floats, view, bits, groupSize, dtype).Ok? <==>
              && |view| % size == 0 && view != [] && (|view| / size) % groupSize == 0
              && groupSize < 0x1_0000_0000 && |view| / size < 0x1_0000_0000
    ensures Encode(floats, view, bits, groupSize, dtype).Ok? ==>
              |Encode(floats, view, bits, groupSize, dtype).value| % Format.ALIGNMENT == 0
  {
    hide Crc32.Checksum, Format.PackFields, Pow256, Quantize, PayloadOf;
    var flat := FlatTensor(floats, view, dtype);
    if flat.Ok? && |flat.value| % groupSize == 0 {
      FieldLimits();
      PayloadLength(flat.value, bits, groupSize);
      var payload := PayloadOf(Quantize(flat.value, bits, groupSize));
      Crc32.ChecksumFits(payload);
      var f := Fields(bits, dtype, groupSize, |flat.value|, payload);
      if Format.Fit(f, Widths()) {
        assert f[4] < Pow256(Widths()[4]) && f[5] < Pow256(Widths()[5]);
      }
    }
  }

  function Header(bits: nat, dtype: Dtype, groupSize: nat, elements: nat, payload: seq<Byte>): (h: seq<Byte>)
    ensures |h| == HEADER_SIZE
  {
    Magic() + Format.PackFields(Fields(bits, dtype, groupSize, elements, payload), Widths())
  }

  lemma EncodedParts(floats: Floats, view: seq<Byte>, bits: nat, groupSize: nat, dtype: Dtype)
    requires Configured(bits, groupSize)
    requires Encode(floats, view, bits, groupSize, dtype).Ok?
    ensures FlatTensor(floats, view, dtype).Ok?
    ensures var x, record := FlatTensor(floats, view, dtype).value, Encode(floats, view, bits, groupSize, dtype).value;
            && Quantizable(x, bits, groupSize)
            && var payload := PayloadOf(Quantize(x, bits, groupSize));
            && Format.Fit(Fields(bits, dtype, groupSize, |x|, payload), Widths())
            && HEADER_SIZE + |payload| <= |record|
            && record[..HEADER_SIZE] == Header(bits, dtype, groupSize, |x|, payload)
            && record[HEADER_SIZE..HEADER_SIZE + |payload|] == payload
  {
    hide Crc32.Checksum, Format.PackFields, Pow256, Quantize, PayloadOf, Format.Fit;
    var x := FlatTensor(floats, view, dtype).value;
    var payload := PayloadOf(Quantize(x, bits, groupSize));
    var header := Header(bits, dtype, groupSize, |x|, payload);
    var padding := Zeros(Format.AlignUp(|header + payload|) - |header + payload|);
    assert Encode(floats, view, bits, groupSize, dtype).value == header + payload + padding;
  }

  lemma HeaderReads(raw: seq<Byte>, bits: nat, dtype: Dtype, groupSize: nat, elements: nat, payload: seq<Byte>)
    requires Format.Fit(Fields(bits, dtype, groupSize, elements, payload), Widths())
    requires HEADER_SIZE <= |raw| && raw[..HEADER_SIZE] == Header(bits, dtype, groupSize, elements, payload)
    ensures raw[..8] == Magic()
    ensures Format.UnpackFields(raw[8..], Widths()) == Fields(bits, dtype, groupSize, elements, payload)
  {
    hide Crc32.Checksum, Format.PackFields, Format.UnpackFields, Magic, Fields, Widths;
    var fields := Fields(bits, dtype, groupSize, elements, payload);
    var rest := raw[HEADER_SIZE..];
    assert raw == Header(bits, dtype, groupSize, elements, payload) + rest;
    assert raw[8..] == Format.PackFields(fields, Widths()) + rest;
    Format.FieldsRoundTrip(fields, Widths(), rest);
  }

  /** The encoded tensor is what a reader parses. */
  lemma ParseUndoesEncode(floats: Floats, view: seq<Byte>, bits: nat, groupSize: nat, dtype: Dtype)
    requires Configured(bits, groupSize)
    requires Encode(floats, view, bits, groupSize, dtype).Ok?
    ensures FlatTensor(floats, view, dtype).Ok?
    ensures var x := FlatTensor(floats, view, dtype).value;
            && Quantizable(x, bits, groupSize)
            && Parse(Encode(floats, view, bits, groupSize, dtype).value) == Ok(Parsed(dtype, |x|, Quantize(x, bits, groupSize)))
  {
    hide Crc32.Checksum, Format.PackFields, Format.UnpackFields, Magic, Quantize, Format.HalfBytes, Format.BytesToHalves, Encode,
         Format.Fit;
    EncodedParts(floats, view, bits, groupSize, dtype);
    var x, record := FlatTensor(floats, view, dtype).value, Encode(floats, view, bits, groupSize, dtype).value;
    var q := Quantize(x, bits, groupSize);
    var payload := PayloadOf(q);
    HeaderReads(record, bits, dtype, groupSize, |x|, payload);
    QuantizedCounts(x, bits, groupSize);
    var scaleBytes := |x| / groupSize * 2;
    assert payload[..scaleBytes] == Format.HalfBytes(q.scales) && payload[scaleBytes..] == q.packed;
    Format.HalvesRoundTrip(q.scales);
  }

  lemma QuantizedCounts(x: seq<real>, bits: nat, groupSize: nat)
    requires Configured(bits, groupSize) && Quantizable(x, bits, groupSize) && x != []
    ensures var q := Quantize(x, bits, groupSize);
            && |q.scales| == |x| / groupSize > 0 && |q.packed| == |x| * bits / 8 > 0
            && q.bits == bits && q.groupSize == groupSize
  {
    hide Pack, Codes, Scales;
    var q := Quantize(x, bits, groupSize);
    WholeRows(|x|, groupSize);
    BytesOfElements(|q.packed|, |x|, bits);
  }

  // ----- where everything lies

  lemma FourFields(values: seq<nat>, widths: seq<nat>)
    requires |values| == |widths| && 4 <= |values|
    ensures Format.PackFields(values, widths)
         == LittleEndian(values[0], widths[0]) + (LittleEndian(values[1], widths[1]) + (LittleEndian(values[2], widths[2])
            + (LittleEndian(values[3], widths[3]) + Format.PackFields(values[4..], widths[4..]))))
  {
    hide LittleEndian, Format.PackFields;
    NextField(values, widths);
    NextField(values[1..], widths[1..]);
    NextField(values[2..], widths[2..]);
    NextField(values[3..], widths[3..]);
    assert values[1..][1..] == values[2..] && values[2..][1..] == values[3..] && values[3..][1..] == values[4..];
    assert widths[1..][1..] == widths[2..] && widths[2..][1..] == widths[3..] && widths[3..][1..] == widths[4..];
  }

  lemma NextField(values: seq<nat>, widths: seq<nat>)
    requires |values| == |widths| && values != []
    ensures Format.PackFields(values, widths) == LittleEndian(values[0], widths[0]) + Format.PackFields(values[1..], widths[1..])
  {
  }

  lemma FourPieces(a: seq<Byte>, b: seq<Byte>, c: seq<Byte>, d: seq<Byte>, rest: seq<Byte>)
    ensures var all, i, j, k := a + (b + (c + (d + rest))), |a|, |a| + |b|, |a| + |b| + |c|;
            && all[..i] == a && all[i..j] == b && all[j..k] == c && all[k..k + |d|] == d
            && all[..k + |d|] == a + b + c + d && all[k + |d|..] == rest
  {
  }

  /** The header fields one after the other. */
  lemma PackedEight(f: seq<nat>)
    requires |f| == 8
    ensures var packed := Format.PackFields(f, Widths());
            && packed[..4] == LittleEndian(f[0], 1) + LittleEndian(f[1], 1) + LittleEndian(f[2], 1) + LittleEndian(f[3], 1)
            && packed[4..][..4] == LittleEndian(f[4], 4) && packed[4..][4..8] == LittleEndian(f[5], 4)
            && packed[4..][8..16] == LittleEndian(f[6], 8) && packed[4..][16..20] == LittleEndian(f[7], 4)
  {
    hide Format.PackFields, LittleEndian, Widths;
    var w := Widths();
    FourFields(f, w);
    FourFields(f[4..], w[4..]);
    FourPieces(LittleEndian(f[0], 1), LittleEndian(f[1], 1), LittleEndian(f[2], 1), LittleEndian(f[3], 1),
               Format.PackFields(f[4..], w[4..]));
    FourPieces(LittleEndian(f[4], 4), LittleEndian(f[5], 4), LittleEndian(f[6], 8), LittleEndian(f[7], 4),
               Format.PackFields(f[4..][4..], w[4..][4..]));
  }

  lemma OneByte(n: nat)
    requires n < 256
    ensures LittleEndian(n, 1) == [n as Byte]
  {
    assert LittleEndian(n / 256, 0) == [];
  }

  /** A header for these fields: "KVVLLM02", version, bits, dtype code, a spare byte, and four counts. */
  ghost predicate IsHeader(h: seq<Byte>, bits: nat, dtype: Dtype, spare: Byte, groupSize: nat, elements: nat, payload: seq<Byte>) {
    && |h| == 32
    && h[..8] == [0x4B, 0x56, 0x56, 0x4C, 0x4C, 0x4D, 0x30, 0x32]
    && h[8] == 1 && h[9] as nat == bits && h[11] == spare
    && (h[10] == match dtype case Float16 => 1 case BFloat16 => 2 case Float32 => 3)
    && h[12..16] == LittleEndian(groupSize, 4) && h[16..20] == LittleEndian(elements, 4)
    && h[20..28] == LittleEndian(|payload|, 8) && h[28..32] == LittleEndian(Crc32.Checksum(payload), 4)
  }

  lemma CountPlaces(h: seq<Byte>)
    requires |h| == 32
    ensures var counts := h[8..][4..];
            h[12..16] == counts[..4] && h[16..20] == counts[4..8] && h[20..28] == counts[8..16] && h[28..32] == counts[16..20]
  {
    assert h[8..][4..] == h[12..];
  }

  lemma HeaderPlaces(h: seq<Byte>, f: seq<nat>)
    requires |h| == 32 && |f| == 8 && h[8..] == Format.PackFields(f, Widths())
    requires f[0] < 256 && f[1] < 256 && f[2] < 256 && f[3] < 256
    ensures h[8] as nat == f[0] && h[9] as nat == f[1] && h[10] as nat == f[2] && h[11] as nat == f[3]
    ensures h[12..16] == LittleEndian(f[4], 4) && h[16..20] == LittleEndian(f[5], 4)
    ensures h[20..28] == LittleEndian(f[6], 8) && h[28..32] == LittleEndian(f[7], 4)
  {
    hide Format.PackFields, LittleEndian, Widths;
    PackedEight(f);
    OneByte(f[0]);
    OneByte(f[1]);
    OneByte(f[2]);
    OneByte(f[3]);
    var packed := h[8..];
    assert packed[..4] == [f[0] as Byte, f[1] as Byte, f[2] as Byte, f[3] as Byte];
    assert h[8] == packed[..4][0] && h[9] == packed[..4][1] && h[10] == packed[..4][2] && h[11] == packed[..4][3];
    CountPlaces(h);
  }

  /** The bytes of a record: header, scales of two bytes each, codes, and zeros up to the next multiple of 4096. */
  ghost predicate IsRecord(record: seq<Byte>, dtype: Dtype, elements: nat, q: Quantized) {
    var s, n := |q.scales|, 2 * |q.scales| + |q.packed|;
    && 32 + n <= |record| < 32 + n + 4096 && |record| % 4096 == 0
    && (forall i :: 32 + n <= i < |record| ==> record[i] == 0)
    && var header, payload := record[..32], record[32..32 + n];
       && IsHeader(header, q.bits, dtype, 0, q.groupSize, elements, payload)
       && (forall i :: 0 <= i < s ==> payload[2 * i..2 * i + 2] == LittleEndian(q.scales[i], 2))
       && payload[2 * s..] == q.packed
  }

  /** Encoding lays the quantized items of the view out like that. */
  lemma RecordLayout(floats: Floats, view: seq<Byte>, bits: nat, groupSize: nat, dtype: Dtype, x: seq<real>)
    requires Configured(bits, groupSize) && Encode(floats, view, bits, groupSize, dtype).Ok? && AreItems(floats, view, dtype, x)
    ensures Quantizable(x, bits, groupSize)
    ensures IsRecord(Encode(floats, view, bits, groupSize, dtype).value, dtype, |x|, Quantize(x, bits, groupSize))
  {
    hide Crc32.Checksum, Format.PackFields, Pow256, Quantize, Format.HalfBytes, LittleEndian, Widths, Encode, FlatTensor,
         Quantizable, IsHeader, AreItems;
    FlatItemsIff(floats, view, dtype, x);
    EncodedParts(floats, view, bits, groupSize, dtype);
    EncodedEnd(floats, view, bits, groupSize, dtype);
    var record, q := Encode(floats, view, bits, groupSize, dtype).value, Quantize(x, bits, groupSize);
    var payload := PayloadOf(q);
    HeaderMade(bits, dtype, groupSize, |x|, payload);
    forall i | 0 <= i < |q.scales|
      ensures payload[2 * i..2 * i + 2] == LittleEndian(q.scales[i], 2)
    {
      Format.HalfPlace(q.scales, i);
      assert payload[2 * i..2 * i + 2] == Format.HalfBytes(q.scales)[2 * i..2 * i + 2];
    }
  }

  lemma HeaderMade(bits: nat, dtype: Dtype, groupSize: nat, elements: nat, payload: seq<Byte>)
    requires IsBits(bits)
    ensures IsHeader(Header(bits, dtype, groupSize, elements, payload), bits, dtype, 0, groupSize, elements, payload)
  {
    hide Crc32.Checksum, Format.PackFields, LittleEndian, Widths;
    var h := Header(bits, dtype, groupSize, elements, payload);
    HeaderPlaces(h, Fields(bits, dtype, groupSize, elements, payload));
    assert h[..8] == Magic();
  }

  lemma EncodedEnd(floats: Floats, view: seq<Byte>, bits: nat, groupSize: nat, dtype: Dtype)
    requires Configured(bits, groupSize) && Encode(floats, view, bits, groupSize, dtype).Ok?
    ensures FlatTensor(floats, view, dtype).Ok? && Quantizable(FlatTensor(floats, view, dtype).value, bits, groupSize)
    ensures var record, n := Encode(floats, view, bits, groupSize, dtype).value,
                             32 + |PayloadOf(Quantize(FlatTensor(floats, view, dtype).value, bits, groupSize))|;
            && n <= |record| < n + 4096 && |record| % 4096 == 0
            && forall i :: n <= i < |record| ==> record[i] == 0
  {
    hide Crc32.Checksum, Format.PackFields, Pow256, Quantize, PayloadOf, Format.Fit, Magic, FlatTensor;
  }

  /** What a reader accepts is laid out like that, whoever wrote it, except for the spare byte and what follows the payload. */
  lemma ParsedLayout(raw: seq<Byte>)
    requires Parse(raw).Ok?
    ensures var p := Parse(raw).value;
            var n := 2 * |p.tensor.scales| + |p.tensor.packed|;
            && 32 + n <= |raw|
            && IsHeader(raw[..32], p.tensor.bits, p.dtype, raw[11], p.tensor.groupSize, p.elements, raw[32..32 + n])
            && raw[32..32 + n] == PayloadOf(p.tensor)
  {
    hide Crc32.Checksum, Format.PackFields, Format.UnpackFields, LittleEndian, Widths, Format.BytesToHalves, Format.HalfBytes, Pow256,
         Parse, DtypeOf;
    ParsedParts(raw);
    var f := Format.UnpackFields(raw[8..], Widths());
    Format.FieldsOfBytes(raw[8..], Widths());
    FieldLimits();
    assert f[0] < Pow256(Widths()[0]) && f[1] < Pow256(Widths()[1]) && f[2] < Pow256(Widths()[2]) && f[3] < Pow256(Widths()[3]);
    assert raw[..32][8..] == raw[8..][..24];
    HeaderPlaces(raw[..32], f);
    assert raw[..32][..8] == raw[..8];
  }

  lemma ParsedParts(raw: seq<Byte>)
    requires Parse(raw).Ok?
    ensures 32 <= |raw| && raw[..8] == Magic()
    ensures var f, p := Format.UnpackFields(raw[8..], Widths()), Parse(raw).value;
            && f[0] == 1 && f[1] == p.tensor.bits && f[2] == p.dtype.Code() && f[4] == p.tensor.groupSize && f[5] == p.elements
            && f[6] == 2 * |p.tensor.scales| + |p.tensor.packed| && 32 + f[6] <= |raw|
            && f[7] == Crc32.Checksum(raw[32..32 + f[6]]) && raw[32..32 + f[6]] == PayloadOf(p.tensor)
  {
    hide Crc32.Checksum, Format.UnpackFields, Widths, Format.BytesToHalves, Format.HalfBytes, Magic;
    var f, p := Format.UnpackFields(raw[8..], Widths()), Parse(raw).value;
    var payload := raw[32..32 + f[6]];
    var scaleBytes := p.elements / p.tensor.groupSize * 2;
    Format.BytesOfHalves(payload[..scaleBytes]);
    assert payload == payload[..scaleBytes] + payload[scaleBytes..];
  }

  // ----- a block item by item

  /** Bytes [i * size .. i * size + size]. */
  function ItemAt(bytes: seq<Byte>, size: nat, i: nat): seq<Byte> {
    if Offset(i, size) + size <= |bytes| then bytes[Offset(i, size)..Offset(i, size) + size] else []
  }

  /** `x` are the numbers that the items of the view stand for, first to last. */
  ghost predicate AreItems(floats: Floats, view: seq<Byte>, dtype: Dtype, x: seq<real>) {
    && x != [] && |view| == Offset(|x|, dtype.ItemSize())
    && forall i :: 0 <= i < |x| ==> x[i] == floats.read(dtype, ItemAt(view, dtype.ItemSize(), i))
  }

  lemma FlatItemsIff(floats: Floats, view: seq<Byte>, dtype: Dtype, x: seq<real>)
    ensures FlatTensor(floats, view, dtype) == Ok(x) <==> AreItems(floats, view, dtype, x)
  {
    var size := dtype.ItemSize();
    MultipleRemainder(|x|, size);
    forall i | 0 <= i < |view| / size && |view| % size == 0
      ensures i * size + size <= |view| && ItemAt(view, size, i) == view[i * size..i * size + size]
    {
      RowInside(i, |view|, size);
    }
    var flat := FlatTensor(floats, view, dtype);
    if AreItems(floats, view, dtype, x) {
      assert |view| / size == |x| && flat.Ok?;
      assert flat.value == x;
    }
    if flat == Ok(x) {
      WholeRows(|view|, size);
    }
  }

  lemma {:induction false} WriteAllAt(floats: Floats, dtype: Dtype, elements: seq<Element>, i: nat)
    requires floats.Valid() && i < |elements|
    ensures |WriteAll(floats, dtype, elements)| == Offset(|elements|, dtype.ItemSize())
    ensures ItemAt(WriteAll(floats, dtype, elements), dtype.ItemSize(), i) == floats.write(dtype, elements[i])
  {
    var n, size := |elements| - 1, dtype.ItemSize();
    var before, last := WriteAll(floats, dtype, elements[..n]), floats.write(dtype, elements[n]);
    NextOffset(n, size);
    if i < n {
      WriteAllAt(floats, dtype, elements[..n], i);
      OffsetInside(i, n, size);
      assert |before| == Offset(n, size);
    } else {
      assert |before| == Offset(n, size);
    }
  }

  /** Byte strings of as many items that agree in every item are the same. */
  lemma {:induction false} SameItems(a: seq<Byte>, b: seq<Byte>, size: nat, n: nat)
    requires 0 < size && |a| == |b| == Offset(n, size)
    requires forall i :: 0 <= i < n ==> ItemAt(a, size, i) == ItemAt(b, size, i)
    ensures a == b
  {
    forall p | 0 <= p < |a|
      ensures a[p] == b[p]
    {
      RowBelow(p, n, size);
      var i := p / size;
      OffsetInside(i, n, size);
      assert a[p] == ItemAt(a, size, i)[p % size] && b[p] == ItemAt(b, size, i)[p % size];
    }
  }

  /** What comes back for element `i`: a number, or none if the scale of its group is too large for FP16. */
  function Stored(x: seq<real>, bits: nat, groupSize: nat, i: nat): Element
    requires Quantizable(x, bits, groupSize) && i < |x|
  {
    if Half.Finite(StoredScale(x, bits, groupSize, i)) then Number(RestoredElement(x, bits, groupSize, i)) else NonFinite
  }

  /** The number is within the quantizer's error of the element; it is missing only for a group that reaches 65520 * P. */
  lemma StoredBound(x: seq<real>, bits: nat, groupSize: nat, i: nat)
    requires Quantizable(x, bits, groupSize) && i < |x|
    ensures Stored(x, bits, groupSize, i).NonFinite? <==>
              MaxAbs(GroupAt(x, groupSize, GroupNumber(i, |x|, groupSize))) >= 65520.0 * if bits == 2 then 1.0 else 7.0
    ensures Stored(x, bits, groupSize, i).Number? ==>
              && Half.Finite(StoredScale(x, bits, groupSize, i))
              && var s, h := ScaleAt(x, bits, groupSize, i), Half.Value(StoredScale(x, bits, groupSize, i));
                 Abs(Stored(x, bits, groupSize, i).value - x[i]) <= ErrorLimit(s, h, bits)
  {
    hide Half.Round, MaxAbs, GroupAt, Half.Finite, Half.Value, RestoredElement, Scale, GroupNumber;
    GroupScaleFiniteIff(GroupAt(x, groupSize, GroupNumber(i, |x|, groupSize)), bits);
    if Half.Finite(StoredScale(x, bits, groupSize, i)) {
      ElementError(x, bits, groupSize, i);
    }
  }

  lemma ElementOfQuantized(x: seq<real>, bits: nat, groupSize: nat, i: nat)
    requires Quantizable(x, bits, groupSize) && i < |x|
    ensures ElementAt(Quantize(x, bits, groupSize), i) == Stored(x, bits, groupSize, i)
  {
    hide Half.Round, Scale, MaxAbs, Codes, Pack, Unpack, RoundHalfEven, GroupAt, Half.Value, Half.Finite;
    CodesSurvive(x, bits, groupSize);
    CodesInRange(x, bits, groupSize, i);
    var k := GroupNumber(i, |x|, groupSize);
    assert Quantize(x, bits, groupSize).scales[k] == StoredScale(x, bits, groupSize, i);
  }

  /** The elements that decoding the quantized values gives. */
  function AllStored(x: seq<real>, bits: nat, groupSize: nat): (elements: seq<Element>)
    requires Quantizable(x, bits, groupSize)
    ensures |elements| == |x|
  {
    seq(|x|, i requires 0 <= i < |x| => Stored(x, bits, groupSize, i))
  }

  lemma ElementsOfQuantized(x: seq<real>, bits: nat, groupSize: nat, dtype: Dtype)
    requires Quantizable(x, bits, groupSize)
    ensures Elements(Parsed(dtype, |x|, Quantize(x, bits, groupSize))) == Ok(AllStored(x, bits, groupSize))
  {
    hide Quantize, ElementAt, Stored;
    var q := Quantize(x, bits, groupSize);
    forall i | 0 <= i < |x|
      ensures ElementAt(q, i) == Stored(x, bits, groupSize, i)
    {
      ElementOfQuantized(x, bits, groupSize, i);
    }
    assert Elements(Parsed(dtype, |x|, q)).value == AllStored(x, bits, groupSize);
  }

  /** Decoding an encoded block writes its items, quantized and restored, in their order and in the declared dtype. */
  lemma BlockRoundTrip(floats: Floats, view: seq<Byte>, bits: nat, groupSize: nat, dtype: Dtype, x: seq<real>)
    requires floats.Valid() && Configured(bits, groupSize)
    requires Encode(floats, view, bits, groupSize, dtype).Ok? && AreItems(floats, view, dtype, x)
    ensures Quantizable(x, bits, groupSize)
    ensures Decoded(floats, Encode(floats, view, bits, groupSize, dtype).value, |view|)
         == Ok(WriteAll(floats, dtype, AllStored(x, bits, groupSize)))
  {
    hide Encode, Parse, Quantize, WriteAll, Elements, AllStored, FlatTensor;
    FlatItemsIff(floats, view, dtype, x);
    ParseUndoesEncode(floats, view, bits, groupSize, dtype);
    MultipleRemainder(|x|, dtype.ItemSize());
    ElementsOfQuantized(x, bits, groupSize, dtype);
  }

  /** `bytes` hold the restored items of `x`, item after item. */
  ghost predicate HoldsStored(floats: Floats, dtype: Dtype, x: seq<real>, bits: nat, groupSize: nat, bytes: seq<Byte>)
    requires Quantizable(x, bits, groupSize)
  {
    && |bytes| == Offset(|x|, dtype.ItemSize())
    && forall i :: 0 <= i < |x| ==>
         ItemAt(bytes, dtype.ItemSize(), i) == floats.write(dtype, Stored(x, bits, groupSize, i))
  }

  /** Item by item: whatever was read at item `i` of the view comes back at item `i`, restored. */
  lemma DecodedItems(floats: Floats, view: seq<Byte>, bits: nat, groupSize: nat, dtype: Dtype, x: seq<real>)
    requires floats.Valid() && Configured(bits, groupSize)
    requires Encode(floats, view, bits, groupSize, dtype).Ok? && AreItems(floats, view, dtype, x)
    ensures Quantizable(x, bits, groupSize)
    ensures var decoded := Decoded(floats, Encode(floats, view, bits, groupSize, dtype).value, |view|);
            decoded.Ok? && HoldsStored(floats, dtype, x, bits, groupSize, decoded.value)
  {
    hide Encode, WriteAll, Decoded, Stored, ItemAt, Quantizable;
    BlockRoundTrip(floats, view, bits, groupSize, dtype, x);
    forall i | 0 <= i < |x|
      ensures |WriteAll(floats, dtype, AllStored(x, bits, groupSize))| == Offset(|x|, dtype.ItemSize())
      ensures ItemAt(WriteAll(floats, dtype, AllStored(x, bits, groupSize)), dtype.ItemSize(), i)
           == floats.write(dtype, Stored(x, bits, groupSize, i))
    {
      WriteAllAt(floats, dtype, AllStored(x, bits, groupSize), i);
    }
    assert |WriteAll(floats, dtype, AllStored(x, bits, groupSize))| == Offset(|x|, dtype.ItemSize()) by {
      assert 0 < |x|;
    }
  }

  /** A block whose values quantization preserves, in a dtype that writes what it reads, comes back byte for byte. */
  lemma PreservedBlock(floats: Floats, view: seq<Byte>, bits: nat, groupSize: nat, dtype: Dtype, x: seq<real>)
    requires floats.Valid() && Configured(bits, groupSize)
    requires Encode(floats, view, bits, groupSize, dtype).Ok? && AreItems(floats, view, dtype, x) && Quantizable(x, bits, groupSize)
    requires forall i :: 0 <= i < |x| ==>
               && Stored(x, bits, groupSize, i) == Number(x[i])
               && floats.write(dtype, Number(x[i])) == ItemAt(view, dtype.ItemSize(), i)
    ensures Decoded(floats, Encode(floats, view, bits, groupSize, dtype).value, |view|) == Ok(view)
  {
    hide Encode, Decoded, Stored, ItemAt, Quantizable;
    DecodedItems(floats, view, bits, groupSize, dtype, x);
    SameItems(Decoded(floats, Encode(floats, view, bits, groupSize, dtype).value, |view|).value, view, dtype.ItemSize(), |x|);
  }

  /** A payload that differs from the encoded one inside four consecutive bytes is rejected, whatever the destination. */
  lemma CorruptionCaught(
    floats: Floats, view: seq<Byte>, bits: nat, groupSize: nat, dtype: Dtype, raw: seq<Byte>, start: nat, w: nat, length: nat)
    requires floats.Valid() && Configured(bits, groupSize)
    requires Encode(floats, view, bits, groupSize, dtype).Ok? && FlatTensor(floats, view, dtype).Ok?
    requires var x, record := FlatTensor(floats, view, dtype).value, Encode(floats, view, bits, groupSize, dtype).value;
             && Quantizable(x, bits, groupSize)
             && var payload := PayloadOf(Quantize(x, bits, groupSize));
             && HEADER_SIZE + |payload| <= |raw| == |record|
             && raw[..HEADER_SIZE] == record[..HEADER_SIZE]
             && raw[HEADER_SIZE..HEADER_SIZE + |payload|] != payload
             && Crc32.IsBurst(payload, raw[HEADER_SIZE..HEADER_SIZE + |payload|], start, w)
    ensures Decoded(floats, raw, length) == Err(CrcMismatch)
  {
    hide Crc32.Checksum, Format.PackFields, Format.UnpackFields, Magic, Quantize, PayloadOf, Encode, Format.Fit;
    EncodedParts(floats, view, bits, groupSize, dtype);
    var x := FlatTensor(floats, view, dtype).value;
    var payload := PayloadOf(Quantize(x, bits, groupSize));
    HeaderReads(raw, bits, dtype, groupSize, |x|, payload);
    Crc32.BurstChangesChecksum(payload, raw[HEADER_SIZE..HEADER_SIZE + |payload|], start, w);
  }
}
