/**
 Groupwise symmetric INT2/INT4 quantization. A tensor is its elements in row-major order; a group is
 `groupSize` consecutive elements, which the divisibility checks keep inside one row.
*/
module Quant {
  import opened Bytes
  import opened Half
  import opened Indexing

  predicate IsBits(bits: nat) {
    bits == 2 || bits == 4
  }

  function PerByte(bits: nat): (n: nat)
    requires IsBits(bits)
    ensures n == if bits == 2 then 4 else 2
  {
    8 / bits
  }

  /** 1 << (bits - 1) */
  function Midpoint(bits: nat): (m: nat)
    requires IsBits(bits)
    ensures m == if bits == 2 then 2 else 8
  {
    assert Pow2(1) == 2 && Pow2(3) == 8;
    Pow2(bits - 1)
  }

  /** The greatest code: 1 for two bits, 7 for four. */
  function PositiveMax(bits: nat): (p: nat)
    requires IsBits(bits)
    ensures p == if bits == 2 then 1 else 7
  {
    Midpoint(bits) - 1
  }

  // ----- packing

  /** (b >> shift) & ((1 << bits) - 1) */
  function Extract(b: Byte, shift: nat, bits: nat): (code: nat)
    ensures code < Pow2(bits)
  {
    (b as nat / Pow2(shift)) % Pow2(bits)
  }

  /** The sum of `codes[start + t] << (t * bits)` for t below `count`. */
  function ShiftedSum(codes: seq<nat>, bits: nat, start: nat, count: nat): nat
    requires start + count <= |codes|
  {
    if count == 0 then 0
    else ShiftedSum(codes, bits, start, count - 1) + codes[start + count - 1] * Pow2((count - 1) * bits)
  }

  /** `pack_codes`: low bits first, the sum truncated to a byte. */
  function Pack(codes: seq<nat>, bits: nat): (packed: seq<Byte>)
    requires IsBits(bits) && |codes| % PerByte(bits) == 0
    ensures |packed| == |codes| / PerByte(bits)
  {
    var per := PerByte(bits);
    seq(|codes| / per, j requires 0 <= j < |codes| / per =>
      RowInside(j, |codes|, per);
      (ShiftedSum(codes, bits, j * per, per) % 256) as Byte)
  }

  /** `unpack_codes` of all the elements. */
  function Unpack(packed: seq<Byte>, bits: nat): (codes: seq<nat>)
    requires IsBits(bits)
    ensures |codes| == |packed| * PerByte(bits)
  {
    var per := PerByte(bits);
    seq(|packed| * per, i requires 0 <= i < |packed| * per =>
      RowBelow(i, |packed|, per);
      Extract(packed[i / per], (i % per) * bits, bits))
  }

  // ----- quantizing

  /** `torch.round`: to the nearest integer, halves to even. */
  function RoundHalfEven(x: real): int {
    var floor := x.Floor;
    var rest := x - floor as real;
    if rest < 0.5 || (rest == 0.5 && floor % 2 == 0) then floor else floor + 1
  }

  function Abs(x: real): real {
    if x < 0.0 then -x else x
  }

  function MaxAbs(group: seq<real>): (m: real)
    ensures m >= 0.0
    ensures forall i :: 0 <= i < |group| ==> Abs(group[i]) <= m
    ensures group != [] ==> exists i :: 0 <= i < |group| && Abs(group[i]) == m
  {
    if group == [] then 0.0
    else
      var last := |group| - 1;
      var before := MaxAbs(group[..last]);
      if before <= Abs(group[last]) then Abs(group[last])
      else
        assert exists i :: 0 <= i < |group[..last]| && Abs(group[..last][i]) == before;
        before
  }

  const LEAST_MAX: real := 0.00000001

  function Scale(group: seq<real>, bits: nat): (s: real)
    requires IsBits(bits)
    ensures s > 0.0
  {
    (if MaxAbs(group) < LEAST_MAX then LEAST_MAX else MaxAbs(group)) / PositiveMax(bits) as real
  }

  function Clamp(n: int, low: int, high: int): (c: int)
    ensures low <= high ==> low <= c <= high
  {
    if n < low then low else if high < n then high else n
  }

  /** The unsigned code of `x`: its multiple of the scale, rounded, clamped and centered at the midpoint. */
  function Code(x: real, scale: real, bits: nat): (code: nat)
    requires IsBits(bits) && scale > 0.0
  {
    Clamp(RoundHalfEven(x / scale), 0 - Midpoint(bits), PositiveMax(bits)) + Midpoint(bits)
  }

  datatype Quantized = Quantized(packed: seq<Byte>, scales: seq<Pattern>, bits: nat, groupSize: nat) {
    predicate Valid() {
      && IsBits(bits)
      && groupSize > 0
      && |packed| * PerByte(bits) == |scales| * groupSize
    }

    /** No scale overflowed to an infinity. */
    predicate FiniteScales() {
      forall k :: 0 <= k < |scales| ==> Finite(scales[k])
    }
  }

  /** What `_validate` asks of a tensor, with whole rows of `groupSize` multiples. */
  predicate Quantizable(x: seq<real>, bits: nat, groupSize: nat) {
    IsBits(bits) && groupSize > 0 && groupSize % PerByte(bits) == 0 && |x| % groupSize == 0
  }

  function GroupAt(x: seq<real>, groupSize: nat, k: nat): (group: seq<real>)
    requires groupSize > 0 && k < |x| / groupSize
    ensures |group| == groupSize
  {
    RowInside(k, |x|, groupSize);
    x[k * groupSize..k * groupSize + groupSize]
  }

  function ScaleAt(x: seq<real>, bits: nat, groupSize: nat, i: nat): (s: real)
    requires Quantizable(x, bits, groupSize) && i < |x|
    ensures s > 0.0
  {
    Scale(GroupAt(x, groupSize, GroupNumber(i, |x|, groupSize)), bits)
  }

  function Codes(x: seq<real>, bits: nat, groupSize: nat): (codes: seq<nat>)
    requires Quantizable(x, bits, groupSize)
    ensures |codes| == |x|
  {
    seq(|x|, i requires 0 <= i < |x| => Code(x[i], ScaleAt(x, bits, groupSize, i), bits))
  }

  function Scales(x: seq<real>, bits: nat, groupSize: nat): (scales: seq<Pattern>)
    requires Quantizable(x, bits, groupSize)
    ensures |scales| == |x| / groupSize
  {
    seq(|x| / groupSize, k requires 0 <= k < |x| / groupSize => Round(Scale(GroupAt(x, groupSize, k), bits)))
  }

  /** `quantize_tensor` */
  function Quantize(x: seq<real>, bits: nat, groupSize: nat): (q: Quantized)
    requires Quantizable(x, bits, groupSize)
    ensures q.Valid() && q.bits == bits && q.groupSize == groupSize
    ensures |q.packed| * PerByte(bits) == |x|
  {
    PiecesOfRows(|x|, groupSize, PerByte(bits));
    WholeRows(|x|, groupSize);
    Quantized(Pack(Codes(x, bits, groupSize), bits), Scales(x, bits, groupSize), bits, groupSize)
  }

  /** The scale of the group that element `i` lies in. */
  function ScaleOf(q: Quantized, i: nat): (h: Pattern)
    requires q.Valid() && i < |q.packed| * PerByte(q.bits)
    ensures h in q.scales
  {
    RowBelow(i, |q.scales|, q.groupSize);
    q.scales[i / q.groupSize]
  }

  function DequantizeAt(q: Quantized, i: nat): real
    requires q.Valid() && i < |q.packed| * PerByte(q.bits) && Finite(ScaleOf(q, i))
  {
    (Unpack(q.packed, q.bits)[i] - Midpoint(q.bits)) as real * Value(ScaleOf(q, i))
  }

  /** `dequantize_tensor` */
  function Dequantize(q: Quantized): (x: seq<real>)
    requires q.Valid() && q.FiniteScales()
    ensures |x| == |q.packed| * PerByte(q.bits)
  {
    seq(|q.packed| * PerByte(q.bits), i requires 0 <= i < |q.packed| * PerByte(q.bits) => DequantizeAt(q, i))
  }

  lemma DequantizedElement(q: Quantized, i: nat)
    requires q.Valid() && q.FiniteScales() && i < |q.packed| * PerByte(q.bits)
    ensures Finite(ScaleOf(q, i)) && Dequantize(q)[i] == DequantizeAt(q, i)
  {
    hide Finite, DequantizeAt, ScaleOf, PerByte;
  }

  // ----- packing and unpacking are inverse

  lemma UnpackAt(codes: seq<nat>, bits: nat, i: nat)
    requires IsBits(bits) && |codes| % PerByte(bits) == 0 && i < |codes|
    requires forall k :: 0 <= k < |codes| ==> codes[k] < Pow2(bits)
    ensures i < |Unpack(Pack(codes, bits), bits)| && Unpack(Pack(codes, bits), bits)[i] == codes[i]
  {
    var per := PerByte(bits);
    WholeRows(|codes|, per);
    GroupIndex(i, |codes|, per);
    RowInside(i / per, |codes|, per);
    UnpackByte(codes, bits, (i / per) * per, i % per);
  }

  lemma ShiftValues()
    ensures Pow2(0) == 1 && Pow2(2) == 4 && Pow2(4) == 16 && Pow2(6) == 64
  {
  }

  lemma TwoBitFields(a: nat, b: nat, c: nat, d: nat)
    requires a < 4 && b < 4 && c < 4 && d < 4
    ensures var n := a + 4 * b + 16 * c + 64 * d;
            n < 256 && n % 4 == a && (n / 4) % 4 == b && (n / 16) % 4 == c && (n / 64) % 4 == d
  {
    var n := a + 4 * b + 16 * c + 64 * d;
    assert n / 4 == b + 4 * c + 16 * d;
    assert n / 16 == c + 4 * d;
  }

  lemma FourBitFields(a: nat, b: nat)
    requires a < 16 && b < 16
    ensures var n := a + 16 * b; n < 256 && n % 16 == a && (n / 16) % 16 == b
  {
  }

  lemma SumOfFour(codes: seq<nat>, start: nat)
    requires start + 4 <= |codes|
    ensures ShiftedSum(codes, 2, start, 4)
         == codes[start] + 4 * codes[start + 1] + 16 * codes[start + 2] + 64 * codes[start + 3]
  {
    ShiftValues();
    assert ShiftedSum(codes, 2, start, 1) == codes[start] * Pow2(0);
    assert ShiftedSum(codes, 2, start, 2) == ShiftedSum(codes, 2, start, 1) + codes[start + 1] * Pow2(2);
    assert ShiftedSum(codes, 2, start, 3) == ShiftedSum(codes, 2, start, 2) + codes[start + 2] * Pow2(4);
  }

  lemma SumOfTwo(codes: seq<nat>, start: nat)
    requires start + 2 <= |codes|
    ensures ShiftedSum(codes, 4, start, 2) == codes[start] + 16 * codes[start + 1]
  {
    ShiftValues();
    assert ShiftedSum(codes, 4, start, 1) == codes[start] * Pow2(0);
  }

  /** The first code of a byte takes its lowest bits. */
  lemma LowBitsFirst(codes: seq<nat>, bits: nat, j: nat)
    requires IsBits(bits) && |codes| % PerByte(bits) == 0 && j < |Pack(codes, bits)|
    requires forall k :: 0 <= k < |codes| ==> codes[k] < Pow2(bits)
    ensures j * PerByte(bits) + PerByte(bits) <= |codes|
    ensures Pack(codes, bits)[j] as int ==
            if bits == 2 then codes[4 * j] + 4 * codes[4 * j + 1] + 16 * codes[4 * j + 2] + 64 * codes[4 * j + 3]
            else codes[2 * j] + 16 * codes[2 * j + 1]
  {
    ShiftValues();
    hide ShiftedSum, Pow2;
    RowInside(j, |codes|, PerByte(bits));
    if bits == 2 {
      SumOfFour(codes, 4 * j);
      TwoBitFields(codes[4 * j], codes[4 * j + 1], codes[4 * j + 2], codes[4 * j + 3]);
    } else {
      SumOfTwo(codes, 2 * j);
      FourBitFields(codes[2 * j], codes[2 * j + 1]);
    }
  }

  lemma UnpackByte(codes: seq<nat>, bits: nat, start: nat, t: nat)
    requires IsBits(bits) && t < PerByte(bits) && start + PerByte(bits) <= |codes|
    requires forall k :: 0 <= k < |codes| ==> codes[k] < Pow2(bits)
    ensures Extract((ShiftedSum(codes, bits, start, PerByte(bits)) % 256) as Byte, t * bits, bits) == codes[start + t]
  {
    ShiftValues();
    if bits == 4 {
      UnpackTwo(codes, start, t);
    } else {
      UnpackFour(codes, start, t);
    }
  }

  lemma UnpackTwo(codes: seq<nat>, start: nat, t: nat)
    requires t < 2 && start + 2 <= |codes|
    requires forall k :: 0 <= k < |codes| ==> codes[k] < 16
    ensures Extract((ShiftedSum(codes, 4, start, 2) % 256) as Byte, t * 4, 4) == codes[start + t]
  {
    hide ShiftedSum, Pow2;
    ShiftValues();
    SumOfTwo(codes, start);
    FourBitFields(codes[start], codes[start + 1]);
    assert t == 0 || t == 1;
  }

  lemma UnpackFour(codes: seq<nat>, start: nat, t: nat)
    requires t < 4 && start + 4 <= |codes|
    requires forall k :: 0 <= k < |codes| ==> codes[k] < 4
    ensures Extract((ShiftedSum(codes, 2, start, 4) % 256) as Byte, t * 2, 2) == codes[start + t]
  {
    hide ShiftedSum, Pow2;
    ShiftValues();
    SumOfFour(codes, start);
    TwoBitFields(codes[start], codes[start + 1], codes[start + 2], codes[start + 3]);
    assert t == 0 || t == 1 || t == 2 || t == 3;
  }

  /** Packing loses nothing exactly when every code fits its field. */
  lemma UnpackPackIff(codes: seq<nat>, bits: nat)
    requires IsBits(bits) && |codes| % PerByte(bits) == 0
    ensures Unpack(Pack(codes, bits), bits) == codes <==> forall k :: 0 <= k < |codes| ==> codes[k] < Pow2(bits)
  {
    var back := Unpack(Pack(codes, bits), bits);
    WholeRows(|codes|, PerByte(bits));
    if forall k :: 0 <= k < |codes| ==> codes[k] < Pow2(bits) {
      forall i | 0 <= i < |codes|
        ensures back[i] == codes[i]
      {
        UnpackAt(codes, bits, i);
      }
    }
    if back == codes {
      forall k | 0 <= k < |codes|
        ensures codes[k] < Pow2(bits)
      {
        assert back[k] < Pow2(bits);
      }
    }
  }

  lemma FieldsOfByte(n: nat)
    requires n < 256
    ensures n == n % 4 + 4 * ((n / 4) % 4) + 16 * ((n / 16) % 4) + 64 * ((n / 64) % 4)
    ensures n == n % 16 + 16 * ((n / 16) % 16)
  {
    assert n / 16 == (n / 4) / 4 && n / 64 == (n / 16) / 4;
  }

  lemma UnpackedField(packed: seq<Byte>, bits: nat, j: nat, t: nat)
    requires IsBits(bits) && j < |packed| && t < PerByte(bits)
    ensures j * PerByte(bits) + t < |Unpack(packed, bits)|
    ensures Unpack(packed, bits)[j * PerByte(bits) + t] == Extract(packed[j], t * bits, bits)
  {
    hide Extract;
    Flat(j, |packed|, t, PerByte(bits));
  }

  lemma PackByte(packed: seq<Byte>, bits: nat, j: nat)
    requires IsBits(bits) && j < |packed|
    ensures j * PerByte(bits) + PerByte(bits) <= |Unpack(packed, bits)|
    ensures ShiftedSum(Unpack(packed, bits), bits, j * PerByte(bits), PerByte(bits)) == packed[j] as nat
  {
    hide ShiftedSum, Unpack;
    ShiftValues();
    FieldsOfByte(packed[j] as nat);
    UnpackedField(packed, bits, j, 0);
    UnpackedField(packed, bits, j, 1);
    if bits == 4 {
      SumOfTwo(Unpack(packed, 4), 2 * j);
    } else {
      UnpackedField(packed, bits, j, 2);
      UnpackedField(packed, bits, j, 3);
      SumOfFour(Unpack(packed, 2), 4 * j);
    }
  }

  /** Every byte string is the packing of its own codes. */
  lemma PackUnpack(packed: seq<Byte>, bits: nat)
    requires IsBits(bits)
    ensures |Unpack(packed, bits)| % PerByte(bits) == 0
    ensures Pack(Unpack(packed, bits), bits) == packed
  {
    MultipleRemainder(|packed|, PerByte(bits));
    forall j | 0 <= j < |packed|
      ensures Pack(Unpack(packed, bits), bits)[j] == packed[j]
    {
      hide ShiftedSum, Unpack;
      PackByte(packed, bits, j);
    }
  }
}
