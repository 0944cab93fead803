/** When a restored tensor quantizes to the codes and scales it came from. */
module QuantStability {
  import opened Half
  import opened Indexing
  import opened Quant
  import opened QuantBounds

  /**
   The caller's check on the largest magnitude `m` of a group: its scale does not round to zero
   (m > P / 2^25), or no element reaches half a step of the least scale.
  */
  predicate Stays(group: seq<real>, bits: nat)
    requires IsBits(bits)
  {
    || PositiveMax(bits) as real < 33554432.0 * MaxAbs(group)
    || 2.0 * PositiveMax(bits) as real * MaxAbs(group) <= LEAST_MAX
  }

  function Steps(group: seq<real>, bits: nat, j: nat): int
    requires IsBits(bits) && j < |group|
  {
    RoundHalfEven(group[j] / Scale(group, bits))
  }

  /** `restored` holds the steps of `group` times its rounded scale. */
  ghost predicate IsRestored(group: seq<real>, restored: seq<real>, bits: nat) {
    && IsBits(bits)
    && group != [] && |restored| == |group|
    && Round(Scale(group, bits)) < INFINITY
    && forall j :: 0 <= j < |group| ==> restored[j] == Steps(group, bits, j) as real * Value(Round(Scale(group, bits)))
  }

  lemma ScaleRoundsToZeroIff(group: seq<real>, bits: nat)
    requires IsBits(bits)
    ensures Round(Scale(group, bits)) == 0 <==> 33554432.0 * MaxAbs(group) <= PositiveMax(bits) as real
  {
    hide Round, MaxAbs;
    RoundZeroIff(Scale(group, bits));
  }

  lemma StepsBounded(group: seq<real>, bits: nat, j: nat)
    requires IsBits(bits) && j < |group|
    ensures -(PositiveMax(bits) as int) <= Steps(group, bits, j) <= PositiveMax(bits)
  {
    hide Scale, RoundHalfEven, MaxAbs;
    ScaleCovers(group, bits);
    CodeIsRounding(group[j], Scale(group, bits), bits);
  }

  lemma QuotientOfMultiple(x: real, p: real, s: real)
    requires s > 0.0 && Abs(x) == p * s
    ensures x / s == p || x / s == -p
  {
    var y := x / s;
    assert x == y * s;
  }

  /** The element of largest magnitude takes the whole range of steps. */
  lemma LargestTakesAll(group: seq<real>, bits: nat) returns (j: nat)
    requires IsBits(bits) && group != [] && LEAST_MAX <= MaxAbs(group)
    ensures j < |group| && Abs(Steps(group, bits, j) as real) == PositiveMax(bits) as real
  {
    hide MaxAbs, Scale, RoundHalfEven;
    var i :| 0 <= i < |group| && Abs(group[i]) == MaxAbs(group);
    j := i;
    ScaleCovers(group, bits);
    QuotientOfMultiple(group[j], PositiveMax(bits) as real, Scale(group, bits));
    RoundOfInteger(PositiveMax(bits));
    RoundOfInteger(-(PositiveMax(bits) as int));
  }

  lemma LeastValue(h: Pattern)
    requires 0 < h < INFINITY
    ensures Value(h) * UNIT >= 1.0
  {
    if 1 < h { UnitsOrdered(1, h); }
  }

  lemma MultipleOver(n: real, v: real)
    requires v != 0.0
    ensures (n * v) / v == n
  {
  }

  lemma TopProduct(n: real, p: real, v: real)
    requires Abs(n) == p && v >= 0.0
    ensures Abs(n * v) == p * v
  {
    ProductOfAbs(n, v);
  }

  lemma MaxOfMultiples(group: seq<real>, restored: seq<real>, bits: nat)
    requires IsRestored(group, restored, bits)
    requires LEAST_MAX <= MaxAbs(group) && Value(Round(Scale(group, bits))) >= 0.0
    ensures MaxAbs(restored) == PositiveMax(bits) as real * Value(Round(Scale(group, bits)))
  {
    hide MaxAbs, Scale, Steps, Round, Value;
    var top := LargestTakesAll(group, bits);
    forall j | 0 <= j < |group|
      ensures Abs(restored[j]) <= PositiveMax(bits) as real * Value(Round(Scale(group, bits)))
    {
      RestoredBounded(group, restored, bits, j);
    }
    RestoredBounded(group, restored, bits, top);
    LargestIs(restored, top);
  }

  lemma RestoredBounded(group: seq<real>, restored: seq<real>, bits: nat, j: nat)
    requires IsRestored(group, restored, bits) && j < |group|
    requires Value(Round(Scale(group, bits))) >= 0.0
    ensures Abs(restored[j]) <= PositiveMax(bits) as real * Value(Round(Scale(group, bits)))
    ensures Abs(Steps(group, bits, j) as real) == PositiveMax(bits) as real ==>
              Abs(restored[j]) == PositiveMax(bits) as real * Value(Round(Scale(group, bits)))
  {
    hide Scale, Steps, Round, Value;
    var n, p, v := Steps(group, bits, j) as real, PositiveMax(bits) as real, Value(Round(Scale(group, bits)));
    StepsBounded(group, bits, j);
    IntegerWithin(Steps(group, bits, j), PositiveMax(bits));
    BoundedProduct(n, p, v);
    if Abs(n) == p {
      TopProduct(n, p, v);
    }
  }

  lemma LargestIs(group: seq<real>, top: nat)
    requires top < |group|
    requires forall j :: 0 <= j < |group| ==> Abs(group[j]) <= Abs(group[top])
    ensures MaxAbs(group) == Abs(group[top])
  {
    hide MaxAbs;
    var m := MaxAbs(group);
  }

  lemma RestoredScale(group: seq<real>, restored: seq<real>, bits: nat)
    requires IsRestored(group, restored, bits)
    requires PositiveMax(bits) as real < 33554432.0 * MaxAbs(group)
    ensures Value(Round(Scale(group, bits))) > 0.0
    ensures Scale(restored, bits) == Value(Round(Scale(group, bits)))
  {
    hide MaxAbs, Steps, Round, Value;
    var h := Round(Scale(group, bits));
    ScaleRoundsToZeroIff(group, bits);
    LeastValue(h);
    MaxOfMultiples(group, restored, bits);
    MultipleOver(Value(h), PositiveMax(bits) as real);
  }

  /** A scale that survives rounding comes back as it was stored, and so do all steps. */
  lemma NonzeroScaleStays(group: seq<real>, restored: seq<real>, bits: nat)
    requires IsRestored(group, restored, bits)
    requires PositiveMax(bits) as real < 33554432.0 * MaxAbs(group)
    ensures Round(Scale(restored, bits)) == Round(Scale(group, bits))
    ensures forall j :: 0 <= j < |group| ==> Steps(restored, bits, j) == Steps(group, bits, j)
  {
    hide MaxAbs, Steps, Round, Value, Scale;
    var h := Round(Scale(group, bits));
    RestoredScale(group, restored, bits);
    RoundOfValue(h);
    forall j | 0 <= j < |group|
      ensures Steps(restored, bits, j) == Steps(group, bits, j)
    {
      StepsOfMultiple(restored, bits, j, Steps(group, bits, j), Value(h));
    }
  }

  lemma StepsOfMultiple(group: seq<real>, bits: nat, j: nat, n: int, v: real)
    requires IsBits(bits) && j < |group| && v > 0.0
    requires group[j] == n as real * v && Scale(group, bits) == v
    ensures Steps(group, bits, j) == n
  {
    hide Scale, RoundHalfEven;
    MultipleOver(n as real, v);
    RoundOfInteger(n);
  }

  lemma HalfStep(x: real, s: real, half: bool)
    requires s > 0.0
    requires half <==> 2.0 * Abs(x) <= s
    ensures RoundHalfEven(x / s) == 0 <==> half
  {
    hide RoundHalfEven;
    RoundsToZeroIff(x / s);
    var y := x / s;
    assert x == y * s;
    if half {
      QuotientWithin(x, s, 0.5);
    } else if Abs(y) <= 0.5 {
      BoundedProduct(y, 0.5, s);
      assert false;
    }
  }

  lemma AllZero(restored: seq<real>)
    requires forall j :: 0 <= j < |restored| ==> restored[j] == 0.0
    ensures MaxAbs(restored) == 0.0
  {
  }

  lemma ZeroSteps(restored: seq<real>, bits: nat, j: nat)
    requires IsBits(bits) && j < |restored| && restored[j] == 0.0
    ensures Steps(restored, bits, j) == 0
  {
    hide Scale, RoundHalfEven;
    assert 0.0 / Scale(restored, bits) == 0.0;
    RoundOfInteger(0);
  }

  /** With a scale flushed to zero, everything comes back as zero. */
  lemma ZeroScaleFlushes(group: seq<real>, restored: seq<real>, bits: nat)
    requires IsRestored(group, restored, bits)
    requires Round(Scale(group, bits)) == 0
    ensures forall j :: 0 <= j < |group| ==> restored[j] == 0.0 && Steps(restored, bits, j) == 0
  {
    hide Scale, Steps, Round;
    assert Value(0) == 0.0;
    forall j | 0 <= j < |group|
      ensures restored[j] == 0.0 && Steps(restored, bits, j) == 0
    {
      ZeroSteps(restored, bits, j);
    }
  }

  /** A group of near zeros has only zero steps and the least scale, and zeros have the same. */
  lemma NearZerosStay(group: seq<real>, restored: seq<real>, bits: nat)
    requires IsRestored(group, restored, bits)
    requires 2.0 * PositiveMax(bits) as real * MaxAbs(group) <= LEAST_MAX
    ensures Round(Scale(restored, bits)) == Round(Scale(group, bits))
    ensures forall j :: 0 <= j < |group| ==> Steps(restored, bits, j) == Steps(group, bits, j)
  {
    hide MaxAbs, Round, RoundHalfEven;
    assert 33554432.0 * MaxAbs(group) <= PositiveMax(bits) as real;
    ScaleRoundsToZeroIff(group, bits);
    ZeroScaleFlushes(group, restored, bits);
    AllZero(restored);
    assert MaxAbs(group) < LEAST_MAX;
    assert Scale(group, bits) == Scale(restored, bits) == LEAST_MAX / PositiveMax(bits) as real;
    forall j | 0 <= j < |group|
      ensures Steps(group, bits, j) == 0
    {
      HalfStep(group[j], Scale(group, bits), true);
    }
  }

  /** Otherwise the largest element has a step that is lost. */
  lemma FlushLosesStep(group: seq<real>, restored: seq<real>, bits: nat) returns (j: nat)
    requires IsRestored(group, restored, bits) && !Stays(group, bits)
    ensures j < |group| && Steps(restored, bits, j) != Steps(group, bits, j)
  {
    hide MaxAbs, Round, RoundHalfEven;
    ScaleRoundsToZeroIff(group, bits);
    ZeroScaleFlushes(group, restored, bits);
    var i :| 0 <= i < |group| && Abs(group[i]) == MaxAbs(group);
    j := i;
    HalfStep(group[j], Scale(group, bits), false);
  }

  // ----- whole tensors

  lemma GroupIsRestored(x: seq<real>, bits: nat, groupSize: nat, k: nat)
    requires Quantizable(x, bits, groupSize) && InRange(x, bits, groupSize) && k < |x| / groupSize
    ensures |Restored(x, bits, groupSize)| == |x|
    ensures IsRestored(GroupAt(x, groupSize, k), GroupAt(Restored(x, bits, groupSize), groupSize, k), bits)
  {
    hide Scale, Round, MaxAbs, RoundHalfEven, Restored, Value;
    var group := GroupAt(x, groupSize, k);
    GroupScaleFiniteIff(group, bits);
    RowInside(k, |x|, groupSize);
    forall j | 0 <= j < groupSize
      ensures GroupAt(Restored(x, bits, groupSize), groupSize, k)[j]
           == Steps(group, bits, j) as real * Value(Round(Scale(group, bits)))
    {
      RestoredInGroup(x, bits, groupSize, k, j);
    }
  }

  lemma RestoredInGroup(x: seq<real>, bits: nat, groupSize: nat, k: nat, j: nat)
    requires Quantizable(x, bits, groupSize) && InRange(x, bits, groupSize)
    requires k < |x| / groupSize && j < groupSize
    ensures Round(Scale(GroupAt(x, groupSize, k), bits)) < INFINITY
    ensures GroupAt(Restored(x, bits, groupSize), groupSize, k)[j]
         == Steps(GroupAt(x, groupSize, k), bits, j) as real * Value(Round(Scale(GroupAt(x, groupSize, k), bits)))
  {
    hide Scale, Round, MaxAbs, RoundHalfEven, Restored, Value, InRange;
    RowInside(k, |x|, groupSize);
    DivideUnique(k * groupSize + j, groupSize, k, j);
    RestoredAt(x, bits, groupSize, k * groupSize + j);
  }

  lemma CodeOfStep(x: seq<real>, bits: nat, groupSize: nat, i: nat)
    requires Quantizable(x, bits, groupSize) && i < |x|
    ensures i % groupSize < |GroupAt(x, groupSize, GroupNumber(i, |x|, groupSize))|
    ensures Codes(x, bits, groupSize)[i] - Midpoint(bits)
         == Steps(GroupAt(x, groupSize, GroupNumber(i, |x|, groupSize)), bits, i % groupSize)
  {
    hide Scale, RoundHalfEven, Codes;
    var k := GroupNumber(i, |x|, groupSize);
    GroupIndex(i, |x|, groupSize);
    RowInside(k, |x|, groupSize);
    CodesInRange(x, bits, groupSize, i);
  }

  /**
   Quantizing a restored tensor again gives the same codes and scales exactly when every group passes
   the check. Whatever fails it has lost all its steps to a scale that FP16 flushed to zero.
  */
  lemma RequantizeIff(x: seq<real>, bits: nat, groupSize: nat)
    requires Quantizable(x, bits, groupSize) && InRange(x, bits, groupSize)
    ensures Quantizable(Restored(x, bits, groupSize), bits, groupSize)
    ensures Quantize(Restored(x, bits, groupSize), bits, groupSize) == Quantize(x, bits, groupSize)
       <==> forall k :: 0 <= k < |x| / groupSize ==> Stays(GroupAt(x, groupSize, k), bits)
  {
    hide Stays, GroupAt, Restored, Quantize, Codes, Scales;
    var y := Restored(x, bits, groupSize);
    if forall k :: 0 <= k < |x| / groupSize ==> Stays(GroupAt(x, groupSize, k), bits) {
      StayingGroups(x, bits, groupSize);
    }
    if Quantize(y, bits, groupSize) == Quantize(x, bits, groupSize) {
      forall k | 0 <= k < |x| / groupSize
        ensures Stays(GroupAt(x, groupSize, k), bits)
      {
        if !Stays(GroupAt(x, groupSize, k), bits) {
          LosingGroup(x, bits, groupSize, k);
          CodesSurvive(x, bits, groupSize);
          CodesSurvive(y, bits, groupSize);
          assert false;
        }
      }
    }
  }

  lemma StayingGroups(x: seq<real>, bits: nat, groupSize: nat)
    requires Quantizable(x, bits, groupSize) && InRange(x, bits, groupSize)
    requires forall k :: 0 <= k < |x| / groupSize ==> Stays(GroupAt(x, groupSize, k), bits)
    ensures Quantize(Restored(x, bits, groupSize), bits, groupSize) == Quantize(x, bits, groupSize)
  {
    hide Scale, Round, Restored, GroupAt, Steps, MaxAbs, IsRestored;
    var y := Restored(x, bits, groupSize);
    forall k | 0 <= k < |x| / groupSize
      ensures Round(Scale(GroupAt(y, groupSize, k), bits)) == Round(Scale(GroupAt(x, groupSize, k), bits))
      ensures forall j :: 0 <= j < groupSize ==>
                Steps(GroupAt(y, groupSize, k), bits, j) == Steps(GroupAt(x, groupSize, k), bits, j)
    {
      StayingGroup(x, bits, groupSize, k);
    }
    assert Scales(y, bits, groupSize) == Scales(x, bits, groupSize);
    forall i | 0 <= i < |x|
      ensures Codes(y, bits, groupSize)[i] == Codes(x, bits, groupSize)[i]
    {
      CodeOfStep(x, bits, groupSize, i);
      CodeOfStep(y, bits, groupSize, i);
    }
    assert Codes(y, bits, groupSize) == Codes(x, bits, groupSize);
  }

  lemma StayingGroup(x: seq<real>, bits: nat, groupSize: nat, k: nat)
    requires Quantizable(x, bits, groupSize) && InRange(x, bits, groupSize) && k < |x| / groupSize
    requires Stays(GroupAt(x, groupSize, k), bits)
    ensures var y := Restored(x, bits, groupSize);
            && Round(Scale(GroupAt(y, groupSize, k), bits)) == Round(Scale(GroupAt(x, groupSize, k), bits))
            && forall j :: 0 <= j < groupSize ==>
                 Steps(GroupAt(y, groupSize, k), bits, j) == Steps(GroupAt(x, groupSize, k), bits, j)
  {
    hide Scale, Round, Restored, GroupAt, Steps, MaxAbs, IsRestored;
    var group, restored := GroupAt(x, groupSize, k), GroupAt(Restored(x, bits, groupSize), groupSize, k);
    GroupIsRestored(x, bits, groupSize, k);
    if PositiveMax(bits) as real < 33554432.0 * MaxAbs(group) {
      NonzeroScaleStays(group, restored, bits);
    } else {
      NearZerosStay(group, restored, bits);
    }
  }

  lemma LosingGroup(x: seq<real>, bits: nat, groupSize: nat, k: nat)
    requires Quantizable(x, bits, groupSize) && InRange(x, bits, groupSize) && k < |x| / groupSize
    requires !Stays(GroupAt(x, groupSize, k), bits)
    ensures Codes(Restored(x, bits, groupSize), bits, groupSize) != Codes(x, bits, groupSize)
  {
    hide Scale, Round, Restored, GroupAt, Steps, MaxAbs, IsRestored, Codes, Stays;
    GroupIsRestored(x, bits, groupSize, k);
    var j := FlushLosesStep(GroupAt(x, groupSize, k), GroupAt(Restored(x, bits, groupSize), groupSize, k), bits);
    RowInside(k, |x|, groupSize);
    DivideUnique(k * groupSize + j, groupSize, k, j);
    CodeOfStep(x, bits, groupSize, k * groupSize + j);
    CodeOfStep(Restored(x, bits, groupSize), bits, groupSize, k * groupSize + j);
  }

  /** A concrete group that does not survive: its elements are 1e-7 and FP16 flushes the scale. */
  lemma SmallGroupIsLost()
    ensures var x := [0.0000001, 0.0000001];
            && Quantizable(x, 4, 2) && InRange(x, 4, 2)
            && Quantize(Restored(x, 4, 2), 4, 2) != Quantize(x, 4, 2)
  {
    var x := [0.0000001, 0.0000001];
    assert Quantizable(x, 4, 2);
    assert |x| / 2 == 1 && GroupAt(x, 2, 0) == x;
    assert MaxAbs(x[..1]) == 0.0000001;
    assert MaxAbs(x) == 0.0000001;
    assert InRange(x, 4, 2);
    RequantizeIff(x, 4, 2);
    assert !Stays(GroupAt(x, 2, 0), 4);
  }
}
