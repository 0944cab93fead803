/**
 The Triton kernel: the same online softmax over padded blocks, where padding scores -inf but its value is still loaded
 and multiplied by the weight 0.
*/
module TritonDecode {
  import opened Bytes
  import opened Half
  import opened Indexing
  import opened Exponential
  import opened Attention
  import opened Online
  import opened Batches
  import FusedDecode

  /**
   A register, which may have stopped being a number. Infinities arise in running maxima and scores, which are apart, and
   in loads with an infinite or NaN scale. Those loads are of padding: its scores are masked and its values multiplied by
   0, which makes NaN of an infinity too, so that NaN stands for both.
  */
  datatype Float = NaN | Float(value: real)

  function Add(a: Float, b: Float): Float {
    if a.NaN? || b.NaN? then NaN else Float(a.value + b.value)
  }

  function Multiply(a: Float, b: Float): Float {
    if a.NaN? || b.NaN? then NaN else Float(a.value * b.value)
  }

  function Divide(a: Float, b: Float): Float {
    if a.NaN? || b.NaN? || b.value == 0.0 then NaN else Float(a.value / b.value)
  }

  /** tl.maximum(running, score) */
  function Maximum(running: Extended, score: Extended): Extended {
    if score.Real? then Real(NextMax(running, score.value)) else running
  }

  /** tl.exp(a - b) for b at least a: 0 below -inf, and NaN for -inf minus -inf. */
  function ExpDifference(E: ExpLog, a: Extended, b: Extended): Float {
    if a.Real? && b.Real? then Float(E.exp(a.value - b.value))
    else if b.Real? then Float(0.0)
    else NaN
  }

  /** running_max + tl.log(running_sum) */
  function LogSum(E: ExpLog, runningMax: Extended, runningSum: Float): Float {
    if runningMax.Real? && runningSum.Float? then Float(runningMax.value + E.log(runningSum.value)) else NaN
  }

  /** triton.next_power_of_2 */
  method NextPowerOf2(n: nat) returns (p: nat)
    requires n > 0
    ensures n <= p && exists k: nat :: p == Pow2(k)
    ensures p == 1 || p / 2 < n
  {
    p := 1;
    ghost var k: nat := 0;
    while p < n
      invariant p == Pow2(k) && 0 < p
      invariant p == 1 || p / 2 < n
    {
      p := 2 * p;
      k := k + 1;
    }
  }

  /** (codes - midpoint) * scales in one lane, with scales that may be no numbers. */
  function LoadFloat(g: Geometry, batch: Batch, packed: seq<Byte>, scales: seq<Pattern>, row: nat, d: nat): (v: Float)
    requires batch.Valid(g) && row < batch.Rows(g) && d < g.headDim
    requires |packed| == batch.Rows(g) * batch.packedDim && |scales| == batch.Rows(g) * batch.groups
    ensures v.Float? <==> Finite(scales[ScaleAddress(g, batch, row, d)])
  {
    if Finite(scales[ScaleAddress(g, batch, row, d)]) then Float(Load(g, batch, packed, scales, row, d)) else NaN
  }

  /** Lane products of query and dequantized key; lanes past the head dimension load zeros. */
  function Lanes(g: Geometry, row: seq<real>, batch: Batch, b: nat, t: nat, k: nat, lanes: nat): (products: seq<Float>)
    requires batch.Valid(g) && b < batch.blocks && t < batch.tokens && k < g.kvHeads
    requires |row| == g.headDim <= lanes
    ensures |products| == lanes
  {
    RowBound(g, batch, b, t, k);
    seq(lanes, d requires 0 <= d < lanes =>
      if d < g.headDim then Multiply(Float(row[d]), LoadFloat(g, batch, batch.packedK, batch.scalesK, Row(g, batch, b, t, k), d))
      else Float(0.0))
  }

  /** tl.sum over the lanes. */
  function Total(lanes: seq<Float>): Float {
    if forall d :: 0 <= d < |lanes| ==> lanes[d].Float? then Float(Sum(Reals(lanes, |lanes|))) else NaN
  }

  function Reals(a: seq<Float>, n: nat): (r: seq<real>)
    requires n <= |a| && forall d :: 0 <= d < n ==> a[d].Float?
    ensures |r| == n
  {
    seq(n, d requires 0 <= d < n => a[d].value)
  }

  lemma LaneAt(g: Geometry, row: seq<real>, batch: Batch, b: nat, t: nat, k: nat, lanes: nat, d: nat)
    requires Readable(g, batch) && b < batch.blocks && t < batch.validTokens[b] && k < g.kvHeads
    requires |row| == g.headDim <= lanes && d < lanes
    ensures Lanes(g, row, batch, b, t, k, lanes)[d] == Float(if d < g.headDim then row[d] * KeyToken(g, batch, b, t)[k][d] else 0.0)
  {
    hide Load, KeyToken, ValueToken, Row;
    if d < g.headDim {
      FusedDecode.LoadsToken(g, batch, b, t, k, d);
    }
  }

  /** For a valid token the lanes add up to the dot product. */
  lemma LanesScore(g: Geometry, row: seq<real>, batch: Batch, b: nat, t: nat, k: nat, lanes: nat)
    requires Readable(g, batch) && b < batch.blocks && t < batch.validTokens[b] && k < g.kvHeads
    requires |row| == g.headDim <= lanes
    ensures Total(Lanes(g, row, batch, b, t, k, lanes)) == Float(Dot(row, KeyToken(g, batch, b, t)[k]))
  {
    hide Lanes, KeyToken, Sum, Dot;
    forall d | 0 <= d < lanes
      ensures Lanes(g, row, batch, b, t, k, lanes)[d] == Float(if d < g.headDim then row[d] * KeyToken(g, batch, b, t)[k][d] else 0.0)
    {
      LaneAt(g, row, batch, b, t, k, lanes, d);
    }
    FusedDecode.SumIsDot(row, KeyToken(g, batch, b, t)[k], Reals(Lanes(g, row, batch, b, t, k, lanes), lanes));
  }

  /** The value lanes of a token, which are numbers where its scales are. */
  function ValueLanes(g: Geometry, batch: Batch, b: nat, t: nat, k: nat): (value: seq<Float>)
    requires batch.Valid(g) && b < batch.blocks && t < batch.tokens && k < g.kvHeads
    ensures |value| == g.headDim
    ensures forall d :: 0 <= d < g.headDim ==> (value[d].Float? <==> FiniteAt(g, batch, batch.scalesV, b, t, k, d))
  {
    RowBound(g, batch, b, t, k);
    seq(g.headDim, d requires 0 <= d < g.headDim => LoadFloat(g, batch, batch.packedV, batch.scalesV, Row(g, batch, b, t, k), d))
  }

  lemma ValidLanes(g: Geometry, batch: Batch, b: nat, t: nat, k: nat)
    requires Readable(g, batch) && b < batch.blocks && t < batch.validTokens[b] && k < g.kvHeads
    ensures forall d :: 0 <= d < g.headDim ==> ValueLanes(g, batch, b, t, k)[d] == Float(ValueToken(g, batch, b, t)[k][d])
  {
    hide Load, KeyToken, ValueToken, Row;
    forall d | 0 <= d < g.headDim
      ensures ValueLanes(g, batch, b, t, k)[d] == Float(ValueToken(g, batch, b, t)[k][d])
    {
      FusedDecode.LoadsToken(g, batch, b, t, k, d);
    }
  }

  /** An accumulator lane, or what is left of it. */
  function Lane(lost: bool, x: real): Float {
    if lost then NaN else Float(x)
  }

  /** Running quantities that track the valid tokens so far, in all lanes but the lost ones, which are NaN. */
  ghost predicate Alive(
    E: ExpLog, g: Geometry, row: seq<real>, keys: seq<Token>, values: seq<Token>, k: nat, scale: real, lost: set<nat>,
    runningMax: Extended, runningSum: Float, accumulator: seq<Float>)
  {
    exists tracked: seq<real> :: Carries(E, g, row, keys, values, k, scale, lost, runningMax, runningSum, accumulator, tracked)
  }

  ghost predicate Carries(
    E: ExpLog, g: Geometry, row: seq<real>, keys: seq<Token>, values: seq<Token>, k: nat, scale: real, lost: set<nat>,
    runningMax: Extended, runningSum: Float, accumulator: seq<Float>, tracked: seq<real>)
  {
    && |tracked| == g.headDim <= |accumulator|
    && runningSum.Float?
    && Tracks(E, g, row, keys, values, k, scale, runningMax, runningSum.value, tracked)
    && forall d :: 0 <= d < g.headDim ==> accumulator[d] == Lane(d in lost, tracked[d])
  }

  /** Once -inf has met -inf, the normalizer and every accumulator lane stay NaN. */
  ghost predicate Dead(g: Geometry, runningSum: Float, accumulator: seq<Float>) {
    && g.headDim <= |accumulator|
    && runningSum.NaN?
    && forall d :: 0 <= d < g.headDim ==> accumulator[d].NaN?
  }

  /** The number of valid tokens among the first `token` of block `b`. */
  function Seen(batch: Batch, b: nat, token: nat): (n: nat)
    requires batch.CountsInside() && b < |batch.validTokens|
    ensures n <= batch.validTokens[b] && n <= token
  {
    if token <= batch.validTokens[b] then token else batch.validTokens[b]
  }

  /** The masked score of a token. */
  function MaskedScore(g: Geometry, row: seq<real>, batch: Batch, b: nat, token: nat, k: nat, scale: real): Extended
    requires Readable(g, batch) && b < batch.blocks && token < batch.tokens && k < g.kvHeads && |row| == g.headDim
  {
    if token < batch.validTokens[b] then Real(Score(row, KeyToken(g, batch, b, token)[k], scale)) else NegativeInfinity
  }

  /** The online update with `score` and the value lanes of a token. */
  ghost predicate Updated(
    E: ExpLog, n: nat, score: Extended, value: seq<Float>, runningMax: Extended, runningSum: Float, before: seq<Float>,
    nextMax: Extended, nextSum: Float, after: seq<Float>)
    requires n <= |value| && n <= |before| && n <= |after|
  {
    var oldWeight, newWeight := ExpDifference(E, runningMax, nextMax), ExpDifference(E, score, nextMax);
    && nextMax == Maximum(runningMax, score)
    && nextSum == Add(Multiply(runningSum, oldWeight), newWeight)
    && forall d :: 0 <= d < n ==> after[d] == Add(Multiply(before[d], oldWeight), Multiply(value[d], newWeight))
  }

  /** One loop body: masked score, online update, and the accumulator lanes in place. */
  method TokenStep(
    E: ExpLog, g: Geometry, row: seq<real>, batch: Batch, b: nat, token: nat, k: nat, scale: real,
    accumulator: array<Float>, runningMax: Extended, runningSum: Float)
    returns (nextMax: Extended, nextSum: Float)
    requires E.Valid() && Readable(g, batch) && b < batch.blocks && token < batch.tokens
    requires |row| == g.headDim <= accumulator.Length && k < g.kvHeads
    modifies accumulator
    ensures Updated(E, g.headDim, MaskedScore(g, row, batch, b, token, k, scale), ValueLanes(g, batch, b, token, k),
                    runningMax, runningSum, old(accumulator[..]), nextMax, nextSum, accumulator[..])
  {
    hide Sum, Load, Row, KeyToken, ValueLanes, Lanes, Total, Add, Maximum, ExpDifference;
    var active := token < batch.validTokens[b];
    var sum := Multiply(Total(Lanes(g, row, batch, b, token, k, accumulator.Length)), Float(scale));
    if active {
      LanesScore(g, row, batch, b, token, k, accumulator.Length);
      assert sum == Float(Score(row, KeyToken(g, batch, b, token)[k], scale));
    }
    var score := if active then Real(sum.value) else NegativeInfinity;
    nextMax := Maximum(runningMax, score);
    var oldWeight := ExpDifference(E, runningMax, nextMax);
    var newWeight := ExpDifference(E, score, nextMax);
    nextSum := Add(Multiply(runningSum, oldWeight), newWeight);
    UpdateLanes(g, batch, b, token, k, accumulator, oldWeight, newWeight);
  }

  /** accumulator = accumulator * old_weight + value * new_weight, lane by lane. */
  method UpdateLanes(
    g: Geometry, batch: Batch, b: nat, token: nat, k: nat, accumulator: array<Float>, oldWeight: Float, newWeight: Float)
    requires batch.Valid(g) && b < batch.blocks && token < batch.tokens && k < g.kvHeads
    requires g.headDim <= accumulator.Length
    modifies accumulator
    ensures forall d :: 0 <= d < g.headDim ==>
              accumulator[d] == Add(Multiply(old(accumulator[d]), oldWeight), Multiply(ValueLanes(g, batch, b, token, k)[d], newWeight))
  {
    hide LoadFloat, Row, Add, Multiply;
    RowBound(g, batch, b, token, k);
    ghost var value := ValueLanes(g, batch, b, token, k);
    for d := 0 to accumulator.Length
      invariant forall i :: 0 <= i < d && i < g.headDim ==>
                  accumulator[i] == Add(Multiply(old(accumulator[i]), oldWeight), Multiply(value[i], newWeight))
      invariant forall i :: d <= i < accumulator.Length ==> accumulator[i] == old(accumulator[i])
    {
      var v := if d < g.headDim then LoadFloat(g, batch, batch.packedV, batch.scalesV, Row(g, batch, b, token, k), d) else Float(0.0);
      accumulator[d] := Add(Multiply(accumulator[d], oldWeight), Multiply(v, newWeight));
    }
  }

  /** A valid token: the CUDA loop's update, in the lanes that are not lost. */
  lemma ActiveStep(
    E: ExpLog, g: Geometry, row: seq<real>, keys: seq<Token>, values: seq<Token>, k: nat, scale: real, lost: set<nat>,
    key: Token, value: Token, lanes: seq<Float>,
    runningMax: Extended, runningSum: Float, before: seq<Float>, nextMax: Extended, nextSum: Float, after: seq<Float>)
    requires E.Valid() && Alive(E, g, row, keys, values, k, scale, lost, runningMax, runningSum, before)
    requires k < g.kvHeads && |row| == g.headDim && g.IsToken(key) && g.IsToken(value) && g.headDim <= |after|
    requires |lanes| == g.headDim && forall d :: 0 <= d < g.headDim ==> lanes[d] == Float(value[k][d])
    requires Updated(E, g.headDim, Real(Score(row, key[k], scale)), lanes, runningMax, runningSum, before, nextMax, nextSum, after)
    ensures Alive(E, g, row, keys + [key], values + [value], k, scale, lost, nextMax, nextSum, after)
  {
    hide Score, Tracks, NextMax;
    var was :| Carries(E, g, row, keys, values, k, scale, lost, runningMax, runningSum, before, was);
    TracksLengths(E, g, row, keys, values, k, scale, runningMax, runningSum.value, was);
    var score := Score(row, key[k], scale);
    var next := NextMax(runningMax, score);
    var factor, weight := Rescale(E, runningMax, next), E.exp(score - next);
    var now := seq(g.headDim, d requires 0 <= d < g.headDim => was[d] * factor + value[k][d] * weight);
    Commute(runningSum.value, factor);
    TracksStep(E, g, row, keys, values, k, scale, runningMax, runningSum.value, was, key, value, nextSum.value, now);
    assert Carries(E, g, row, keys + [key], values + [value], k, scale, lost, nextMax, nextSum, after, now);
  }

  lemma Commute(a: real, b: real)
    ensures a * b == b * a
  {
  }

  lemma TracksLengths(
    E: ExpLog, g: Geometry, row: seq<real>, keys: seq<Token>, values: seq<Token>, k: nat, scale: real,
    runningMax: Extended, runningSum: real, accumulator: seq<real>)
    requires Tracks(E, g, row, keys, values, k, scale, runningMax, runningSum, accumulator)
    ensures (keys != [] <==> runningMax.Real?) && g.headDim <= |accumulator|
  {
    hide Mass, Moment, Largest, Scores, Column;
  }

  /** The lanes that a padded token makes NaN: value * new_weight is 0 * NaN there. */
  function LostWith(value: seq<Float>): set<nat> {
    set d: nat | d < |value| && value[d].NaN?
  }

  lemma PaddedLane(before: Float, v: Float)
    ensures Add(Multiply(before, Float(1.0)), Multiply(v, Float(0.0))) == if v.NaN? then NaN else before
  {
  }

  /**
   A padded token after a valid one keeps maximum, normalizer, and every lane in which its value is a number. The other
   lanes become NaN, and stay that.
  */
  lemma PaddingStep(
    E: ExpLog, g: Geometry, row: seq<real>, keys: seq<Token>, values: seq<Token>, k: nat, scale: real, lost: set<nat>,
    value: seq<Float>,
    runningMax: Extended, runningSum: Float, before: seq<Float>, nextMax: Extended, nextSum: Float, after: seq<Float>)
    requires E.Valid() && Alive(E, g, row, keys, values, k, scale, lost, runningMax, runningSum, before) && keys != []
    requires g.headDim == |value| && g.headDim <= |after|
    requires Updated(E, g.headDim, NegativeInfinity, value, runningMax, runningSum, before, nextMax, nextSum, after)
    ensures nextMax == runningMax && nextSum == runningSum
    ensures forall d :: 0 <= d < g.headDim ==> after[d] == if value[d].NaN? then NaN else before[d]
    ensures Alive(E, g, row, keys, values, k, scale, lost + LostWith(value), nextMax, nextSum, after)
  {
    hide Tracks, Add, Multiply;
    var was :| Carries(E, g, row, keys, values, k, scale, lost, runningMax, runningSum, before, was);
    TracksLengths(E, g, row, keys, values, k, scale, runningMax, runningSum.value, was);
    assert runningMax.value - runningMax.value == 0.0;
    forall d | 0 <= d < g.headDim
      ensures after[d] == if value[d].NaN? then NaN else before[d]
    {
      PaddedLane(before[d], value[d]);
    }
    UnchangedSum(runningSum);
    assert Carries(E, g, row, keys, values, k, scale, lost + LostWith(value), nextMax, nextSum, after, was);
  }

  lemma UnchangedSum(sum: Float)
    requires sum.Float?
    ensures Add(Multiply(sum, Float(1.0)), Float(0.0)) == sum
  {
  }

  /** Padding first: -inf minus -inf, and no later token repairs it. */
  lemma DeadStep(
    E: ExpLog, g: Geometry, score: Extended, value: seq<Float>,
    runningMax: Extended, runningSum: Float, before: seq<Float>, nextMax: Extended, nextSum: Float, after: seq<Float>)
    requires g.headDim <= |value| && g.headDim <= |before| && g.headDim <= |after|
    requires Updated(E, g.headDim, score, value, runningMax, runningSum, before, nextMax, nextSum, after)
    requires Dead(g, runningSum, before) || (runningMax == NegativeInfinity && score == NegativeInfinity)
    ensures Dead(g, nextSum, after)
  {
  }

  /** A padded token before token `token` of block `b` has an infinite or NaN value scale in lane `d`. */
  ghost predicate SpoiledBefore(g: Geometry, batch: Batch, k: nat, d: nat, b: nat, token: nat)
    requires batch.Valid(g) && k < g.kvHeads && d < g.headDim
  {
    exists i: nat, t: nat :: i < batch.blocks && t < batch.tokens && (i < b || (i == b && t < token))
                             && batch.validTokens[i] <= t && !FiniteAt(g, batch, batch.scalesV, i, t, k, d)
  }

  ghost function Lost(g: Geometry, batch: Batch, k: nat, b: nat, token: nat): (lanes: set<nat>)
    requires batch.Valid(g) && k < g.kvHeads
  {
    set d: nat | d < g.headDim && SpoiledBefore(g, batch, k, d, b, token)
  }

  /** A padded token has an infinite or NaN value scale in lane `d` of KV head `k`. */
  ghost predicate Spoiled(g: Geometry, batch: Batch, k: nat, d: nat)
    requires batch.Valid(g) && k < g.kvHeads && d < g.headDim
  {
    exists b: nat, t: nat :: b < batch.blocks && t < batch.tokens && batch.validTokens[b] <= t
                             && !FiniteAt(g, batch, batch.scalesV, b, t, k, d)
  }

  lemma LostStep(g: Geometry, batch: Batch, k: nat, b: nat, token: nat)
    requires batch.Valid(g) && k < g.kvHeads && b < batch.blocks && token < batch.tokens
    ensures Lost(g, batch, k, b, token + 1)
         == Lost(g, batch, k, b, token) + if token < batch.validTokens[b] then {} else LostWith(ValueLanes(g, batch, b, token, k))
  {
    hide FiniteAt, ValueLanes;
  }

  lemma LostNext(g: Geometry, batch: Batch, k: nat, b: nat)
    requires batch.Valid(g) && k < g.kvHeads && b < batch.blocks
    ensures Lost(g, batch, k, b + 1, 0) == Lost(g, batch, k, b, batch.tokens)
    ensures Lost(g, batch, k, 0, 0) == {}
  {
    hide FiniteAt;
  }

  /** After the last block all padding has been seen; where counts are clipped plays no part. */
  lemma LostInAll(g: Geometry, batch: Batch, k: nat)
    requires batch.Valid(g) && k < g.kvHeads
    ensures Clip(batch).Valid(g)
    ensures Lost(g, Clip(batch), k, batch.blocks, 0) == set d: nat | d < g.headDim && Spoiled(g, batch, k, d)
  {
    hide Finite, ScaleAddress;
    forall b: nat, t: nat, d: nat | b < batch.blocks && t < batch.tokens && d < g.headDim
      ensures FiniteAt(g, Clip(batch), batch.scalesV, b, t, k, d) == FiniteAt(g, batch, batch.scalesV, b, t, k, d)
      ensures Clip(batch).validTokens[b] <= t <==> batch.validTokens[b] <= t
    {
      SameScale(g, batch, b, t, k, d);
    }
    hide FiniteAt, Clip;
    forall d: nat | d < g.headDim
      ensures SpoiledBefore(g, Clip(batch), k, d, batch.blocks, 0) <==> Spoiled(g, batch, k, d)
    {
    }
  }

  lemma SameScale(g: Geometry, batch: Batch, b: nat, t: nat, k: nat, d: nat)
    requires batch.Valid(g) && b < batch.blocks && t < batch.tokens && k < g.kvHeads && d < g.headDim
    ensures Clip(batch).Valid(g)
    ensures FiniteAt(g, Clip(batch), batch.scalesV, b, t, k, d) == FiniteAt(g, batch, batch.scalesV, b, t, k, d)
    ensures Clip(batch).validTokens[b] <= t <==> batch.validTokens[b] <= t
  {
    hide Finite, ScaleAddress;
    RowBound(g, batch, b, t, k);
    SameAddress(g, batch, Row(g, batch, b, t, k), d);
  }

  lemma SameAddress(g: Geometry, batch: Batch, row: nat, d: nat)
    requires batch.Valid(g) && row < batch.Rows(g) && d < g.headDim
    ensures Clip(batch).Valid(g) && Clip(batch).Rows(g) == batch.Rows(g)
    ensures ScaleAddress(g, Clip(batch), row, d) == ScaleAddress(g, batch, row, d)
  {
  }

  /** What a program instance holds before token `token` of block `b`. */
  ghost predicate Progress(
    E: ExpLog, g: Geometry, row: seq<real>, batch: Batch, b: nat, token: nat, k: nat, scale: real,
    runningMax: Extended, runningSum: Float, accumulator: seq<Float>)
    requires Readable(g, batch) && 0 < batch.blocks && b <= batch.blocks && k < g.kvHeads
    requires b == batch.blocks ==> token == 0
  {
    var n := if b < batch.blocks then Seen(batch, b, token) else 0;
    if 0 < batch.validTokens[0] then
      Alive(E, g, row, KeysUpTo(g, batch, b, n), ValuesUpTo(g, batch, b, n), k, scale,
            Lost(g, batch, k, b, token), runningMax, runningSum, accumulator)
    else if b == 0 && token == 0 then g.headDim <= |accumulator| && runningMax == NegativeInfinity
    else Dead(g, runningSum, accumulator)
  }

  lemma {:induction false} SomeKeys(g: Geometry, batch: Batch, b: nat, t: nat)
    requires Readable(g, batch) && 0 < batch.blocks && b <= batch.blocks && 0 < batch.validTokens[0]
    requires if b < batch.blocks then t <= batch.validTokens[b] else t == 0
    requires 0 < b || 0 < t
    ensures KeysUpTo(g, batch, b, t) != []
    decreases b
  {
    hide KeyToken;
    if t == 0 && 1 < b {
      if batch.validTokens[b - 1] == 0 {
        SomeKeys(g, batch, b - 1, 0);
      }
    }
  }

  lemma NextToken(g: Geometry, batch: Batch, b: nat, t: nat)
    requires Readable(g, batch) && b < batch.blocks && t < batch.validTokens[b]
    ensures KeysUpTo(g, batch, b, t + 1) == KeysUpTo(g, batch, b, t) + [KeyToken(g, batch, b, t)]
    ensures ValuesUpTo(g, batch, b, t + 1) == ValuesUpTo(g, batch, b, t) + [ValueToken(g, batch, b, t)]
  {
    hide KeyToken, ValueToken, FiniteAt;
  }

  lemma ProgressStep(
    E: ExpLog, g: Geometry, row: seq<real>, batch: Batch, b: nat, token: nat, k: nat, scale: real,
    runningMax: Extended, runningSum: Float, before: seq<Float>, nextMax: Extended, nextSum: Float, after: seq<Float>)
    requires E.Valid() && Readable(g, batch) && b < batch.blocks && token < batch.tokens
    requires |row| == g.headDim && k < g.kvHeads && |before| == |after|
    requires Progress(E, g, row, batch, b, token, k, scale, runningMax, runningSum, before)
    requires g.headDim <= |before|
    requires Updated(E, g.headDim, MaskedScore(g, row, batch, b, token, k, scale), ValueLanes(g, batch, b, token, k),
                     runningMax, runningSum, before, nextMax, nextSum, after)
    ensures Progress(E, g, row, batch, b, token + 1, k, scale, nextMax, nextSum, after)
  {
    hide KeyToken, ValueToken, ValueLanes, KeysUpTo, ValuesUpTo, Score, Updated, Alive, Dead, Lost, FiniteAt;
    var score, value := MaskedScore(g, row, batch, b, token, k, scale), ValueLanes(g, batch, b, token, k);
    var n, lost := Seen(batch, b, token), Lost(g, batch, k, b, token);
    LostStep(g, batch, k, b, token);
    if batch.validTokens[0] <= 0 {
      DeadStep(E, g, score, value, runningMax, runningSum, before, nextMax, nextSum, after);
    } else if token < batch.validTokens[b] {
      assert Lost(g, batch, k, b, token + 1) == lost && Seen(batch, b, token + 1) == n + 1;
      ValidLanes(g, batch, b, token, k);
      NextToken(g, batch, b, token);
      ActiveStep(E, g, row, KeysUpTo(g, batch, b, n), ValuesUpTo(g, batch, b, n), k, scale, lost,
                 KeyToken(g, batch, b, token), ValueToken(g, batch, b, token), value,
                 runningMax, runningSum, before, nextMax, nextSum, after);
    } else {
      SomeKeys(g, batch, b, n);
      PaddingStep(E, g, row, KeysUpTo(g, batch, b, n), ValuesUpTo(g, batch, b, n), k, scale, lost, value,
                  runningMax, runningSum, before, nextMax, nextSum, after);
    }
  }

  /** The loop over the tokens of one block. */
  method SweepBlock(
    E: ExpLog, g: Geometry, row: seq<real>, batch: Batch, b: nat, k: nat, scale: real, accumulator: array<Float>,
    maxBefore: Extended, sumBefore: Float)
    returns (runningMax: Extended, runningSum: Float)
    requires E.Valid() && Readable(g, batch) && b < batch.blocks
    requires |row| == g.headDim <= accumulator.Length && k < g.kvHeads
    requires Progress(E, g, row, batch, b, 0, k, scale, maxBefore, sumBefore, accumulator[..])
    modifies accumulator
    ensures Progress(E, g, row, batch, b, batch.tokens, k, scale, runningMax, runningSum, accumulator[..])
  {
    assert batch.Valid(g);
    hide *;
    runningMax, runningSum := maxBefore, sumBefore;
    for token := 0 to batch.tokens
      invariant Progress(E, g, row, batch, b, token, k, scale, runningMax, runningSum, accumulator[..])
    {
      ghost var before, wasMax, wasSum := accumulator[..], runningMax, runningSum;
      runningMax, runningSum := TokenStep(E, g, row, batch, b, token, k, scale, accumulator, runningMax, runningSum);
      ProgressStep(E, g, row, batch, b, token, k, scale, wasMax, wasSum, before, runningMax, runningSum, accumulator[..]);
    }
  }

  /** The loop over the blocks. */
  method Sweep(
    E: ExpLog, g: Geometry, row: seq<real>, batch: Batch, k: nat, scale: real, accumulator: array<Float>)
    returns (runningMax: Extended, runningSum: Float)
    requires E.Valid() && Readable(g, batch) && 0 < batch.blocks && 0 < batch.tokens
    requires |row| == g.headDim <= accumulator.Length && k < g.kvHeads
    requires forall d :: 0 <= d < accumulator.Length ==> accumulator[d] == Float(0.0)
    modifies accumulator
    ensures Progress(E, g, row, batch, batch.blocks, 0, k, scale, runningMax, runningSum, accumulator[..])
  {
    hide Progress, Readable;
    runningMax, runningSum := NegativeInfinity, Float(0.0);
    Begin(E, g, row, batch, k, scale, accumulator[..]);
    for b := 0 to batch.blocks
      invariant Progress(E, g, row, batch, b, 0, k, scale, runningMax, runningSum, accumulator[..])
    {
      runningMax, runningSum := SweepBlock(E, g, row, batch, b, k, scale, accumulator, runningMax, runningSum);
      NextBlock(E, g, row, batch, b, k, scale, runningMax, runningSum, accumulator[..]);
    }
  }

  lemma Begin(E: ExpLog, g: Geometry, row: seq<real>, batch: Batch, k: nat, scale: real, accumulator: seq<Float>)
    requires Readable(g, batch) && 0 < batch.blocks && |row| == g.headDim <= |accumulator| && k < g.kvHeads
    requires forall d :: 0 <= d < |accumulator| ==> accumulator[d] == Float(0.0)
    ensures Progress(E, g, row, batch, 0, 0, k, scale, NegativeInfinity, Float(0.0), accumulator)
  {
    hide KeyToken, ValueToken, FiniteTokens, Lost;
    LostNext(g, batch, k, 0);
    var zeros := seq(g.headDim, _ => 0.0);
    assert Carries(E, g, row, [], [], k, scale, {}, NegativeInfinity, Float(0.0), accumulator, zeros);
  }

  lemma FinalProgress(
    E: ExpLog, g: Geometry, row: seq<real>, batch: Batch, k: nat, scale: real, runningMax: Extended, runningSum: Float, accumulator: seq<Float>)
    requires Readable(g, batch) && 0 < batch.blocks && k < g.kvHeads
    requires Progress(E, g, row, batch, batch.blocks, 0, k, scale, runningMax, runningSum, accumulator)
    ensures 0 < batch.validTokens[0] ==>
              && BatchKeys(g, batch) != []
              && Alive(E, g, row, BatchKeys(g, batch), BatchValues(g, batch), k, scale, Lost(g, batch, k, batch.blocks, 0),
                       runningMax, runningSum, accumulator)
    ensures batch.validTokens[0] <= 0 ==> Dead(g, runningSum, accumulator)
  {
    hide Alive, Dead, KeyToken, ValueToken, Lost;
    if 0 < batch.validTokens[0] {
      SomeKeys(g, batch, batch.blocks, 0);
    }
  }

  /** What a program instance stores for head `h`: the reference, but NaN in the lanes that padding has spoiled. */
  ghost predicate IsHeadOf(g: Geometry, batch: Batch, output: seq<Float>, lse: Float, p: Partial, h: nat)
    requires g.Valid() && batch.Valid(g) && IsPartial(p, g) && h < g.queryHeads
  {
    && |output| == g.headDim
    && lse == Float(p.lse[h])
    && forall d :: 0 <= d < g.headDim ==> output[d] == Lane(Spoiled(g, batch, g.KvHead(h), d), p.output[h][d])
  }

  /**
   One program instance, query head `h`: the reference in every unspoiled lane exactly when the first block has a valid
   token. The mask compares a token of the block with the count, so a count beyond the block means the whole block.
  */
  method Program(E: ExpLog, g: Geometry, query: seq<seq<real>>, counts: Batch, scale: real, h: nat, lanes: nat)
    returns (output: seq<Float>, lse: Float)
    requires E.Valid() && g.Valid() && g.IsQuery(query) && counts.Valid(g) && Readable(g, Clip(counts))
    requires 0 < counts.blocks && 0 < counts.tokens && h < g.queryHeads && g.headDim <= lanes
    ensures |output| == g.headDim
    ensures 0 < counts.validTokens[0] ==>
              && Runnable(E, g, query, Clip(counts))
              && IsHeadOf(g, counts, output, lse, BatchReference(E, g, query, Clip(counts), scale), h)
    ensures counts.validTokens[0] <= 0 ==> lse.NaN? && forall d :: 0 <= d < g.headDim ==> output[d].NaN?
  {
    var batch := Clip(counts);
    hide Reference, KeyToken, ValueToken, BatchKeys, BatchValues, Alive, Dead, Spoiled, Readable, Lost;
    var row, k := query[h], g.KvHead(h);
    var accumulator := new Float[lanes](i => Float(0.0));
    var runningMax, runningSum := NegativeInfinity, Float(0.0);
    runningMax, runningSum := Sweep(E, g, row, batch, k, scale, accumulator);
    output := seq(g.headDim, d requires 0 <= d < g.headDim reads accumulator => Divide(accumulator[d], runningSum));
    lse := LogSum(E, runningMax, runningSum);
    FinalProgress(E, g, row, batch, k, scale, runningMax, runningSum, accumulator[..]);
    if 0 < batch.validTokens[0] {
      LostInAll(g, counts, k);
      StoredLanes(E, g, query, counts, scale, h, runningMax, runningSum, accumulator[..], output, lse);
    } else {
      DeadLanes(g, runningSum, accumulator[..], output);
    }
  }

  /** output = accumulator / running_sum, and the log-sum-exp. */
  lemma StoredLanes(
    E: ExpLog, g: Geometry, query: seq<seq<real>>, counts: Batch, scale: real, h: nat,
    runningMax: Extended, runningSum: Float, accumulator: seq<Float>, output: seq<Float>, lse: Float)
    requires counts.Valid(g) && Runnable(E, g, query, Clip(counts)) && h < g.queryHeads
    requires Alive(E, g, query[h], BatchKeys(g, Clip(counts)), BatchValues(g, Clip(counts)), g.KvHead(h), scale,
                   Lost(g, Clip(counts), g.KvHead(h), counts.blocks, 0), runningMax, runningSum, accumulator)
    requires |output| == g.headDim && forall d :: 0 <= d < g.headDim ==> output[d] == Divide(accumulator[d], runningSum)
    requires lse == LogSum(E, runningMax, runningSum)
    ensures IsHeadOf(g, counts, output, lse, BatchReference(E, g, query, Clip(counts), scale), h)
  {
    hide Reference, KeyToken, ValueToken, BatchKeys, BatchValues, Tracks, Lost, Spoiled, Readable;
    var batch, k := Clip(counts), g.KvHead(h);
    var lost := Lost(g, batch, k, counts.blocks, 0);
    var keys, values := BatchKeys(g, batch), BatchValues(g, batch);
    var tracked :| Carries(E, g, query[h], keys, values, k, scale, lost, runningMax, runningSum, accumulator, tracked);
    TracksLengths(E, g, query[h], keys, values, k, scale, runningMax, runningSum.value, tracked);
    TracksFinal(E, g, query, keys, values, scale, h, runningMax, runningSum.value, tracked);
    LostInAll(g, counts, k);
    assert forall d: nat :: d < g.headDim ==> (d in lost <==> Spoiled(g, counts, k, d));
  }

  lemma DeadLanes(g: Geometry, runningSum: Float, accumulator: seq<Float>, output: seq<Float>)
    requires Dead(g, runningSum, accumulator)
    requires |output| == g.headDim && forall d :: 0 <= d < g.headDim ==> output[d] == Divide(accumulator[d], runningSum)
    ensures runningSum.NaN? && forall d :: 0 <= d < g.headDim ==> output[d].NaN?
  {
  }

  lemma NextBlock(
    E: ExpLog, g: Geometry, row: seq<real>, batch: Batch, b: nat, k: nat, scale: real,
    runningMax: Extended, runningSum: Float, accumulator: seq<Float>)
    requires Readable(g, batch) && b < batch.blocks && 0 < batch.tokens && k < g.kvHeads
    requires Progress(E, g, row, batch, b, batch.tokens, k, scale, runningMax, runningSum, accumulator)
    ensures Progress(E, g, row, batch, b + 1, 0, k, scale, runningMax, runningSum, accumulator)
  {
    hide Alive, Dead, KeyToken, ValueToken, Lost, FiniteTokens;
    LostNext(g, batch, k, b);
  }

  datatype RunError = HeadDimTooLarge | EmptyBlock

  /**
   `TritonAttentionBackend.run`. Its check on the valid counts keeps every log-sum-exp finite, but not the lanes whose
   value scale is infinite or NaN in a padded token.
  */
  method Run(E: ExpLog, g: Geometry, query: seq<seq<real>>, batch: Batch, scale: real)
    returns (r: Result<(seq<seq<Float>>, seq<Float>), RunError>)
    requires E.Valid() && g.Valid() && g.IsQuery(query) && batch.Valid(g) && Readable(g, Clip(batch))
    requires 0 < batch.blocks && 0 < batch.tokens
    ensures r.Ok? <==> g.headDim <= 256 && forall b :: 0 <= b < batch.blocks ==> 0 < batch.validTokens[b]
    ensures r.Ok? ==>
              && Runnable(E, g, query, Clip(batch))
              && |r.value.0| == g.queryHeads == |r.value.1|
              && forall h :: 0 <= h < g.queryHeads ==>
                   IsHeadOf(g, batch, r.value.0[h], r.value.1[h], BatchReference(E, g, query, Clip(batch), scale), h)
  {
    hide Reference, BatchKeys, BatchReference, BatchValues;
    if 256 < g.headDim {
      return Err(HeadDimTooLarge);
    }
    for b := 0 to batch.blocks
      invariant forall i :: 0 <= i < b ==> 0 < batch.validTokens[i]
    {
      if batch.validTokens[b] <= 0 {
        return Err(EmptyBlock);
      }
    }
    var lanes := NextPowerOf2(g.headDim);
    var output, lse := [], [];
    for h := 0 to g.queryHeads
      invariant |output| == h == |lse|
      invariant 0 < h ==> Runnable(E, g, query, Clip(batch))
      invariant forall i :: 0 <= i < h ==> IsHeadOf(g, batch, output[i], lse[i], BatchReference(E, g, query, Clip(batch), scale), i)
    {
      var headOutput, headLse := Program(E, g, query, batch, scale, h, lanes);
      output, lse := output + [headOutput], lse + [headLse];
    }
    r := Ok((output, lse));
  }
}
