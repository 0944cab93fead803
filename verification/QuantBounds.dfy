/** How far a quantized tensor is from its input, and when quantizing it again changes nothing. */
module QuantBounds {
  import opened Half
  import opened Indexing
  import opened Quant

  // ----- rounding

  lemma RoundsToNearest(x: real)
    ensures Abs(RoundHalfEven(x) as real - x) <= 0.5
  {
  }

  /** An integer nearest to `y`, and of two that are equally near the even one. */
  predicate IsNearestEven(c: int, y: real) {
    Abs(c as real - y) < 0.5 || (Abs(c as real - y) == 0.5 && c % 2 == 0)
  }

  /** There is one such integer, and rounding gives it. */
  lemma RoundsToEvenIff(y: real, c: int)
    ensures RoundHalfEven(y) == c <==> IsNearestEven(c, y)
  {
  }

  lemma RoundStaysWithin(x: real, p: nat)
    requires Abs(x) <= p as real
    ensures -(p as int) <= RoundHalfEven(x) <= p
  {
  }

  lemma RoundOfInteger(n: int)
    ensures RoundHalfEven(n as real) == n
  {
  }

  lemma RoundsToZeroIff(x: real)
    ensures RoundHalfEven(x) == 0 <==> Abs(x) <= 0.5
  {
  }

  lemma QuotientWithin(x: real, s: real, m: real)
    requires s > 0.0 && Abs(x) <= m * s
    ensures Abs(x / s) <= m
  {
    var y := x / s;
    assert x == y * s;
    if m < y {
      LargerProduct(m, y, s);
      assert false;
    }
    if y < -m {
      LargerProduct(m, -y, s);
      assert false;
    }
  }

  lemma LargerProduct(a: real, b: real, s: real)
    requires a < b && s > 0.0
    ensures a * s < b * s
  {
  }

  lemma ScaleCovers(group: seq<real>, bits: nat)
    requires IsBits(bits)
    ensures MaxAbs(group) <= PositiveMax(bits) as real * Scale(group, bits)
    ensures LEAST_MAX <= PositiveMax(bits) as real * Scale(group, bits)
    ensures LEAST_MAX <= MaxAbs(group) ==> MaxAbs(group) == PositiveMax(bits) as real * Scale(group, bits)
  {
    hide MaxAbs;
  }

  /** The scaled element rounds inside the symmetric range, so the lower clamp never applies. */
  lemma CodeIsRounding(x: real, s: real, bits: nat)
    requires IsBits(bits) && s > 0.0
    requires Abs(x) <= PositiveMax(bits) as real * s
    ensures Code(x, s, bits) - Midpoint(bits) == RoundHalfEven(x / s)
    ensures -(PositiveMax(bits) as int) <= Code(x, s, bits) - Midpoint(bits) <= PositiveMax(bits)
  {
    hide RoundHalfEven;
    QuotientWithin(x, s, PositiveMax(bits) as real);
    RoundStaysWithin(x / s, PositiveMax(bits));
  }

  lemma ElementCovered(x: seq<real>, bits: nat, groupSize: nat, i: nat)
    requires Quantizable(x, bits, groupSize) && i < |x|
    ensures Abs(x[i]) <= PositiveMax(bits) as real * ScaleAt(x, bits, groupSize, i)
  {
    hide Scale, MaxAbs;
    var k := GroupNumber(i, |x|, groupSize);
    var group := GroupAt(x, groupSize, k);
    GroupIndex(i, |x|, groupSize);
    RowInside(k, |x|, groupSize);
    assert x[i] == group[i % groupSize];
    ScaleCovers(group, bits);
  }

  /** Every stored code is a rounding in [-P, P]; the unsigned code 0 is never stored. */
  lemma CodesInRange(x: seq<real>, bits: nat, groupSize: nat, i: nat)
    requires Quantizable(x, bits, groupSize) && i < |x|
    ensures 1 <= Codes(x, bits, groupSize)[i] < Pow2(bits)
    ensures Codes(x, bits, groupSize)[i] - Midpoint(bits) == RoundHalfEven(x[i] / ScaleAt(x, bits, groupSize, i))
  {
    hide Code, ScaleAt, RoundHalfEven;
    ShiftValues();
    ElementCovered(x, bits, groupSize, i);
    CodeIsRounding(x[i], ScaleAt(x, bits, groupSize, i), bits);
  }

  /** The scale is the least number, P of which cover the group, but P of it are never less than 1e-8. */
  lemma ScaleIsLeast(group: seq<real>, bits: nat)
    requires IsBits(bits)
    ensures var top := Scale(group, bits) * if bits == 2 then 1.0 else 7.0;
            && (forall i :: 0 <= i < |group| ==> Abs(group[i]) <= top)
            && top >= 0.00000001
            && (top == 0.00000001 || exists i :: 0 <= i < |group| && Abs(group[i]) == top)
  {
    ScaleCovers(group, bits);
    hide MaxAbs;
    var top := Scale(group, bits) * if bits == 2 then 1.0 else 7.0;
    if LEAST_MAX <= MaxAbs(group) {
      var i :| 0 <= i < |group| && Abs(group[i]) == MaxAbs(group);
      assert Abs(group[i]) == top;
    }
  }

  /**
   The stored code of an element is `c` plus the midpoint, 2 or 8, for the integer `c` nearest to the element over its
   group's scale, and of two that are equally near the even one. No other code meets that.
  */
  lemma CodeIsNearestEven(x: seq<real>, bits: nat, groupSize: nat, i: nat, c: int)
    requires Quantizable(x, bits, groupSize) && i < |x|
    ensures Codes(x, bits, groupSize)[i] == c + (if bits == 2 then 2 else 8) <==>
              IsNearestEven(c, x[i] / ScaleAt(x, bits, groupSize, i))
  {
    hide Codes, RoundHalfEven, ScaleAt, IsNearestEven;
    CodesInRange(x, bits, groupSize, i);
    RoundsToEvenIff(x[i] / ScaleAt(x, bits, groupSize, i), c);
  }

  /** Two and a half steps are coded as two, three and a half as four. */
  lemma TiesAreEven()
    ensures Quantizable([7.0, 2.5, 3.5, -2.5], 4, 4)
    ensures Codes([7.0, 2.5, 3.5, -2.5], 4, 4) == [15, 10, 12, 6]
  {
    TieCodes([7.0, 2.5, 3.5, -2.5]);
  }

  lemma TieCodes(x: seq<real>)
    requires x == [7.0, 2.5, 3.5, -2.5]
    ensures Quantizable(x, 4, 4) && Codes(x, 4, 4) == [15, 10, 12, 6]
  {
    TieScale(x);
    hide Codes, ScaleAt, Quantizable;
    CodeOfTie(x, 0, 7);
    CodeOfTie(x, 1, 2);
    CodeOfTie(x, 2, 4);
    CodeOfTie(x, 3, -2);
  }

  lemma CodeOfTie(x: seq<real>, i: nat, c: int)
    requires Quantizable(x, 4, 4) && i < |x| && ScaleAt(x, 4, 4, i) == 1.0 && IsNearestEven(c, x[i])
    ensures Codes(x, 4, 4)[i] == c + 8
  {
    hide Codes, ScaleAt, Quantizable, IsNearestEven;
    OverOne(x[i], ScaleAt(x, 4, 4, i));
    CodeIsNearestEven(x, 4, 4, i, c);
  }

  lemma OverOne(x: real, one: real)
    requires one == 1.0
    ensures x / one == x
  {
  }

  lemma TieScale(x: seq<real>)
    requires x == [7.0, 2.5, 3.5, -2.5]
    ensures Quantizable(x, 4, 4) && forall i :: 0 <= i < 4 ==> ScaleAt(x, 4, 4, i) == 1.0
  {
    hide MaxAbs;
    assert GroupAt(x, 4, 0) == x;
    ScaleIsLeast(x, 4);
    assert Abs(x[0]) == 7.0;
    assert Scale(x, 4) == 1.0;
  }

  // ----- what comes back

  /** Every group is small enough that its scale does not round to an infinity. */
  ghost predicate InRange(x: seq<real>, bits: nat, groupSize: nat)
    requires Quantizable(x, bits, groupSize)
  {
    forall k :: 0 <= k < |x| / groupSize ==> MaxAbs(GroupAt(x, groupSize, k)) < 65520.0 * PositiveMax(bits) as real
  }

  lemma GroupScaleFiniteIff(group: seq<real>, bits: nat)
    requires IsBits(bits)
    ensures Finite(Round(Scale(group, bits))) <==> MaxAbs(group) < 65520.0 * PositiveMax(bits) as real
  {
    hide MaxAbs, Round;
    RoundFiniteIff(Scale(group, bits));
  }

  lemma FiniteScalesIff(x: seq<real>, bits: nat, groupSize: nat)
    requires Quantizable(x, bits, groupSize)
    ensures Quantize(x, bits, groupSize).FiniteScales() <==> InRange(x, bits, groupSize)
  {
    hide MaxAbs, Round, Scale, GroupAt, Finite;
    var scales := Quantize(x, bits, groupSize).scales;
    forall k | 0 <= k < |scales|
      ensures Finite(scales[k]) <==> MaxAbs(GroupAt(x, groupSize, k)) < 65520.0 * PositiveMax(bits) as real
    {
      GroupScaleFiniteIff(GroupAt(x, groupSize, k), bits);
    }
  }

  /** What a reader gets back for the tensor: `dequantize_tensor(quantize_tensor(x))`. */
  function Restored(x: seq<real>, bits: nat, groupSize: nat): (y: seq<real>)
    requires Quantizable(x, bits, groupSize) && InRange(x, bits, groupSize)
    ensures |y| == |x|
  {
    FiniteScalesIff(x, bits, groupSize);
    Dequantize(Quantize(x, bits, groupSize))
  }

  /** The rounded scale of element `i`. */
  function StoredScale(x: seq<real>, bits: nat, groupSize: nat, i: nat): (h: Pattern)
    requires Quantizable(x, bits, groupSize) && i < |x|
  {
    Round(ScaleAt(x, bits, groupSize, i))
  }

  lemma CodesSurvive(x: seq<real>, bits: nat, groupSize: nat)
    requires Quantizable(x, bits, groupSize)
    ensures Unpack(Quantize(x, bits, groupSize).packed, bits) == Codes(x, bits, groupSize)
  {
    hide Codes, Pack, Unpack;
    PiecesOfRows(|x|, groupSize, PerByte(bits));
    forall i | 0 <= i < |x|
      ensures Codes(x, bits, groupSize)[i] < Pow2(bits)
    {
      CodesInRange(x, bits, groupSize, i);
    }
    UnpackPackIff(Codes(x, bits, groupSize), bits);
  }

  function Times(a: real, b: real): real {
    a * b
  }

  /** Half a step of the scale, and P times the distance that FP16 rounding moved it. */
  function ErrorLimit(s: real, h: real, bits: nat): real
    requires IsBits(bits)
  {
    s / 2.0 + Times(PositiveMax(bits) as real, Abs(h - s))
  }

  /** What a reader makes of element `i` alone, if the scale of its group is stored as a finite number. */
  function RestoredElement(x: seq<real>, bits: nat, groupSize: nat, i: nat): real
    requires Quantizable(x, bits, groupSize) && i < |x| && Finite(StoredScale(x, bits, groupSize, i))
  {
    Times(RoundHalfEven(x[i] / ScaleAt(x, bits, groupSize, i)) as real, Value(StoredScale(x, bits, groupSize, i)))
  }

  /** For the integer nearest to the element over its scale, in a tie the even one: that many stored scales come back. */
  lemma RestoredMultiple(x: seq<real>, bits: nat, groupSize: nat, i: nat, c: int)
    requires Quantizable(x, bits, groupSize) && InRange(x, bits, groupSize) && i < |x|
    requires IsNearestEven(c, x[i] / ScaleAt(x, bits, groupSize, i))
    ensures StoredScale(x, bits, groupSize, i) < INFINITY
    ensures Restored(x, bits, groupSize)[i] == c as real * Value(StoredScale(x, bits, groupSize, i))
  {
    hide ScaleAt, IsNearestEven, RoundHalfEven, Restored, InRange, Quantizable, Value, StoredScale;
    RestoredAt(x, bits, groupSize, i);
    RoundsToEvenIff(x[i] / ScaleAt(x, bits, groupSize, i), c);
  }

  /** The code of element `i` times its stored scale. */
  lemma RestoredAt(x: seq<real>, bits: nat, groupSize: nat, i: nat)
    requires Quantizable(x, bits, groupSize) && InRange(x, bits, groupSize) && i < |x|
    ensures StoredScale(x, bits, groupSize, i) < INFINITY
    ensures Restored(x, bits, groupSize)[i] == RestoredElement(x, bits, groupSize, i)
  {
    hide Round, Scale, MaxAbs, Codes, Pack, Unpack, RoundHalfEven, GroupAt, Value;
    FiniteScalesIff(x, bits, groupSize);
    CodesSurvive(x, bits, groupSize);
    CodesInRange(x, bits, groupSize, i);
    var k := GroupNumber(i, |x|, groupSize);
    assert Quantize(x, bits, groupSize).scales[k] == StoredScale(x, bits, groupSize, i);
  }

  // ----- the error bound

  lemma ProductOfAbs(a: real, b: real)
    ensures Abs(a * b) == Abs(a) * Abs(b)
  {
  }

  lemma SmallerProduct(a: real, b: real, s: real)
    requires a <= b && s >= 0.0
    ensures a * s <= b * s
  {
  }

  lemma BoundedProduct(e: real, bound: real, s: real)
    requires s >= 0.0 && Abs(e) <= bound
    ensures Abs(e * s) <= bound * s
  {
    ProductOfAbs(e, s);
    SmallerProduct(Abs(e), bound, s);
  }

  lemma StepError(n: real, x: real, s: real)
    requires s > 0.0 && Abs(n - x / s) <= 0.5
    ensures Abs(n * s - x) <= 0.5 * s
  {
    var y := x / s;
    assert x == y * s;
    assert (n - y) * s == n * s - y * s;
    BoundedProduct(n - y, 0.5, s);
  }

  lemma ScaleError(n: real, p: real, h: real, s: real)
    requires Abs(n) <= p
    ensures Abs(n * h - n * s) <= p * Abs(h - s)
  {
    assert n * h - n * s == n * (h - s);
    ProductOfAbs(n, h - s);
    SmallerProduct(Abs(n), p, Abs(h - s));
  }

  lemma ErrorOfMultiple(x: real, s: real, h: real, n: real, p: real)
    requires s > 0.0
    requires Abs(n - x / s) <= 0.5 && Abs(n) <= p
    ensures Abs(Times(n, h) - x) <= s / 2.0 + Times(p, Abs(h - s))
  {
    StepError(n, x, s);
    ScaleError(n, p, h, s);
    SumOfErrors(n * h, n * s, x);
  }

  lemma SumOfErrors(a: real, b: real, x: real)
    ensures Abs(a - x) <= Abs(a - b) + Abs(b - x)
  {
  }

  lemma IntegerWithin(c: int, p: nat)
    requires -(p as int) <= c <= p
    ensures Abs(c as real) <= p as real
  {
  }

  lemma ElementError(x: seq<real>, bits: nat, groupSize: nat, i: nat)
    requires Quantizable(x, bits, groupSize) && i < |x| && Finite(StoredScale(x, bits, groupSize, i))
    ensures var s, h := ScaleAt(x, bits, groupSize, i), Value(StoredScale(x, bits, groupSize, i));
            Abs(RestoredElement(x, bits, groupSize, i) - x[i]) <= ErrorLimit(s, h, bits)
  {
    hide Round, ScaleAt, MaxAbs, RoundHalfEven, Value, Abs, Scale, Times, ErrorLimit, PositiveMax;
    ElementCovered(x, bits, groupSize, i);
    CodeError(x[i], ScaleAt(x, bits, groupSize, i), Value(StoredScale(x, bits, groupSize, i)), bits);
  }

  lemma CodeError(x: real, s: real, h: real, bits: nat)
    requires IsBits(bits) && s > 0.0 && Abs(x) <= PositiveMax(bits) as real * s
    ensures Abs(Times(RoundHalfEven(x / s) as real, h) - x) <= ErrorLimit(s, h, bits)
  {
    hide Code, RoundHalfEven, Abs, Times, ErrorLimit;
    CodeIsRounding(x, s, bits);
    RoundsToNearest(x / s);
    MultipleError(x, s, h, RoundHalfEven(x / s), bits);
  }

  lemma MultipleError(x: real, s: real, h: real, c: int, bits: nat)
    requires IsBits(bits) && s > 0.0 && Abs(c as real - x / s) <= 0.5 && -(PositiveMax(bits) as int) <= c <= PositiveMax(bits)
    ensures Abs(Times(c as real, h) - x) <= ErrorLimit(s, h, bits)
  {
    hide Abs, Times;
    IntegerWithin(c, PositiveMax(bits));
    ErrorOfMultiple(x, s, h, c as real, PositiveMax(bits) as real);
  }

  /** Half a scale step for the code, and P times whatever FP16 rounding did to the scale. */
  lemma ErrorBound(x: seq<real>, bits: nat, groupSize: nat, i: nat)
    requires Quantizable(x, bits, groupSize) && InRange(x, bits, groupSize) && i < |x|
    ensures StoredScale(x, bits, groupSize, i) < INFINITY
    ensures var s, h := ScaleAt(x, bits, groupSize, i), Value(StoredScale(x, bits, groupSize, i));
            Abs(Restored(x, bits, groupSize)[i] - x[i]) <= ErrorLimit(s, h, bits)
  {
    hide Round, ScaleAt, MaxAbs, RoundHalfEven, Restored, Value, Abs, Scale;
    RestoredAt(x, bits, groupSize, i);
    ElementError(x, bits, groupSize, i);
  }

  lemma AddScaleError(s: real, h: real, p: real, e: real)
    requires s >= 0.0 && p >= 0.0 && Abs(h - s) <= s / 2048.0
    requires e <= s / 2.0 + p * Abs(h - s)
    ensures e <= s * (0.5 + p / 2048.0)
  {
    assert Abs(h - s) * p <= (s / 2048.0) * p by { SmallerProduct(Abs(h - s), s / 2048.0, p); }
  }

  /** With a scale in the normal FP16 range, the error is a fixed multiple of the unrounded scale. */
  lemma NormalErrorBound(x: seq<real>, bits: nat, groupSize: nat, i: nat)
    requires Quantizable(x, bits, groupSize) && InRange(x, bits, groupSize) && i < |x|
    requires 1.0 <= ScaleAt(x, bits, groupSize, i) * 16384.0
    ensures Abs(Restored(x, bits, groupSize)[i] - x[i])
         <= ScaleAt(x, bits, groupSize, i) * (0.5 + PositiveMax(bits) as real / 2048.0)
  {
    hide Round, ScaleAt, MaxAbs, Restored, Value;
    var s := ScaleAt(x, bits, groupSize, i);
    ErrorBound(x, bits, groupSize, i);
    if 65520.0 <= s {
      RoundFiniteIff(s);
      assert false;
    }
    RoundRelativeError(s);
    AddScaleError(s, Value(Round(s)), PositiveMax(bits) as real, Abs(Restored(x, bits, groupSize)[i] - x[i]));
  }

  /** Zeros come back as exact zeros. */
  lemma ZeroIsExact(x: seq<real>, bits: nat, groupSize: nat, i: nat)
    requires Quantizable(x, bits, groupSize) && InRange(x, bits, groupSize) && i < |x|
    requires x[i] == 0.0
    ensures Restored(x, bits, groupSize)[i] == 0.0
  {
    hide Round, ScaleAt, MaxAbs, Restored, Value;
    RestoredAt(x, bits, groupSize, i);
    assert 0.0 / ScaleAt(x, bits, groupSize, i) == 0.0;
    RoundOfInteger(0);
  }
}
