/** One streaming softmax step: what both kernels do per token, and the invariant it keeps. */
module Online {
  import opened Exponential
  import opened Attention

  /** A float that may still be -INFINITY. */
  datatype Extended = NegativeInfinity | Real(value: real)

  /** fmaxf(running, score) */
  function NextMax(running: Extended, score: real): real {
    if running.Real? && score <= running.value then running.value else score
  }

  /** expf(running - next), which is 0 for a running maximum of -INFINITY. */
  function Rescale(E: ExpLog, running: Extended, next: real): real {
    if running.Real? then E.exp(running.value - next) else 0.0
  }

  function Largest(s: seq<real>): (m: real)
    requires s != []
    ensures m in s && forall i :: 0 <= i < |s| ==> s[i] <= m
  {
    var last := s[|s| - 1];
    if |s| == 1 then last
    else
      var before := Largest(s[..|s| - 1]);
      if last <= before then before else last
  }

  /**
   Running maximum, normalizer and accumulator of one head after the tokens in `keys` and `values`:
   the largest score m, the sum of exp(s - m), and for every dimension the sum of exp(s - m) * v.
  */
  ghost predicate Tracks(
    E: ExpLog, g: Geometry, row: seq<real>, keys: seq<Token>, values: seq<Token>, k: nat, scale: real,
    runningMax: Extended, runningSum: real, accumulator: seq<real>)
  {
    && g.AreTokens(keys) && g.AreTokens(values) && |keys| == |values|
    && |row| == g.headDim && k < g.kvHeads && g.headDim <= |accumulator|
    && var s := Scores(g, row, keys, k, scale);
       if keys == [] then
         && runningMax == NegativeInfinity
         && runningSum == 0.0
         && forall d :: 0 <= d < g.headDim ==> accumulator[d] == 0.0
       else
         && runningMax == Real(Largest(s))
         && runningSum == Mass(E, s, Largest(s))
         && forall d :: 0 <= d < g.headDim ==> accumulator[d] == Moment(E, s, Column(g, values, k, d), Largest(s))
  }

  lemma LargestOfAppend(s: seq<real>, x: real)
    ensures Largest(s + [x]) == if s == [] then x else NextMax(Real(Largest(s)), x)
  {
    var t := s + [x];
    assert t[..|t| - 1] == s;
  }

  lemma AppendedMass(E: ExpLog, s: seq<real>, x: real, n: real)
    ensures Mass(E, s + [x], n) == Mass(E, s, n) + E.exp(x - n)
  {
    var t := s + [x];
    assert t[..|t| - 1] == s;
  }

  lemma AppendedMoment(E: ExpLog, s: seq<real>, v: seq<real>, x: real, w: real, n: real)
    requires |s| == |v|
    ensures Moment(E, s + [x], v + [w], n) == Moment(E, s, v, n) + E.exp(x - n) * w
  {
    var t, u := s + [x], v + [w];
    assert t[..|t| - 1] == s && u[..|u| - 1] == v;
  }

  /** The sums after one more token, from the sums at the old maximum `m`. */
  lemma SumsOfAppend(E: ExpLog, s: seq<real>, v: seq<real>, x: real, w: real, m: real, n: real)
    requires E.Valid() && |s| == |v|
    ensures Mass(E, s + [x], n) == Mass(E, s, m) * E.exp(m - n) + E.exp(x - n)
    ensures Moment(E, s + [x], v + [w], n) == Moment(E, s, v, m) * E.exp(m - n) + E.exp(x - n) * w
  {
    hide Mass, Moment;
    MassRescales(E, s, m, n);
    MomentRescales(E, s, v, m, n);
    AppendedMass(E, s, x, n);
    AppendedMoment(E, s, v, x, w, n);
  }

  lemma ScoresOfAppend(g: Geometry, row: seq<real>, keys: seq<Token>, key: Token, k: nat, scale: real)
    requires g.AreTokens(keys) && g.IsToken(key) && |row| == g.headDim && k < g.kvHeads
    ensures g.AreTokens(keys + [key])
    ensures Scores(g, row, keys + [key], k, scale) == Scores(g, row, keys, k, scale) + [Score(row, key[k], scale)]
  {
    hide Score;
    var all := keys + [key];
    assert forall t :: 0 <= t < |all| ==> all[t] == if t < |keys| then keys[t] else key;
    assert Scores(g, row, all, k, scale) == Scores(g, row, keys, k, scale) + [Score(row, key[k], scale)];
  }

  lemma ColumnOfAppend(g: Geometry, values: seq<Token>, value: Token, k: nat, d: nat)
    requires g.AreTokens(values) && g.IsToken(value) && k < g.kvHeads && d < g.headDim
    ensures g.AreTokens(values + [value])
    ensures Column(g, values + [value], k, d) == Column(g, values, k, d) + [value[k][d]]
  {
    var all := values + [value];
    forall t | 0 <= t < |all|
      ensures g.IsToken(all[t])
      ensures Column(g, all, k, d)[t] == (Column(g, values, k, d) + [value[k][d]])[t]
    {
      assert all[t] == if t < |values| then values[t] else value;
    }
  }

  /** The update keeps the invariant, from the first token, whose running maximum is -INFINITY, on. */
  lemma TracksStep(
    E: ExpLog, g: Geometry, row: seq<real>, keys: seq<Token>, values: seq<Token>, k: nat, scale: real,
    runningMax: Extended, runningSum: real, accumulator: seq<real>,
    key: Token, value: Token, nextSum: real, nextAccumulator: seq<real>)
    requires E.Valid() && Tracks(E, g, row, keys, values, k, scale, runningMax, runningSum, accumulator)
    requires g.IsToken(key) && g.IsToken(value)
    requires |nextAccumulator| == |accumulator|
    requires var score := Score(row, key[k], scale);
             var next := NextMax(runningMax, score);
             && nextSum == Rescale(E, runningMax, next) * runningSum + E.exp(score - next)
             && forall d :: 0 <= d < g.headDim ==>
                  nextAccumulator[d] == accumulator[d] * Rescale(E, runningMax, next) + value[k][d] * E.exp(score - next)
    ensures Tracks(E, g, row, keys + [key], values + [value], k, scale,
                   Real(NextMax(runningMax, Score(row, key[k], scale))), nextSum, nextAccumulator)
  {
    hide Mass, Moment, Score, Largest, Scores, Column;
    var s, score := Scores(g, row, keys, k, scale), Score(row, key[k], scale);
    ScoresOfAppend(g, row, keys, key, k, scale);
    LargestOfAppend(s, score);
    var m, n := if keys == [] then 0.0 else Largest(s), NextMax(runningMax, score);
    EmptySums(E, m);
    SumsOfAppend(E, s, s, score, score, m, n);
    assert nextSum == Mass(E, s + [score], n) by {
      StepProduct(runningSum, Mass(E, s, m), E.exp(m - n), Rescale(E, runningMax, n), E.exp(score - n), 1.0, keys == []);
    }
    ColumnOfAppends(g, values, value);
    forall d | 0 <= d < g.headDim
      ensures nextAccumulator[d] == Moment(E, s + [score], Column(g, values + [value], k, d), n)
    {
      var v, w := Column(g, values, k, d), value[k][d];
      ColumnOfAppend(g, values, value, k, d);
      SumsOfAppend(E, s, v, score, w, m, n);
      StepProduct(accumulator[d], Moment(E, s, v, m), E.exp(m - n), Rescale(E, runningMax, n), E.exp(score - n), w, keys == []);
    }
  }

  lemma EmptySums(E: ExpLog, m: real)
    ensures Mass(E, [], m) == 0.0 && Moment(E, [], [], m) == 0.0
  {
  }

  lemma ColumnOfAppends(g: Geometry, values: seq<Token>, value: Token)
    requires g.AreTokens(values) && g.IsToken(value)
    ensures g.AreTokens(values + [value])
  {
  }

  lemma StepProduct(before: real, moment: real, factor: real, rescale: real, weight: real, w: real, first: bool)
    requires if first then before == 0.0 && moment == 0.0 else before == moment && rescale == factor
    ensures before * rescale + w * weight == moment * factor + weight * w
  {
  }

  /** What the kernels store at the end is the reference output and log-sum-exp. */
  lemma TracksFinal(
    E: ExpLog, g: Geometry, query: seq<seq<real>>, keys: seq<Token>, values: seq<Token>, scale: real, h: nat,
    runningMax: Extended, runningSum: real, accumulator: seq<real>)
    requires WellShaped(E, g, query, keys, values) && keys != [] && h < g.queryHeads
    requires Tracks(E, g, query[h], keys, values, g.KvHead(h), scale, runningMax, runningSum, accumulator)
    ensures runningMax.Real? && runningSum > 0.0
    ensures runningMax.value + E.log(runningSum) == Reference(E, g, query, keys, values, scale).lse[h]
    ensures forall d :: 0 <= d < g.headDim ==>
              accumulator[d] / runningSum == Reference(E, g, query, keys, values, scale).output[h][d]
  {
    hide Mass, Moment, Dot, Softmax, LogSumExp, Score;
    var k := g.KvHead(h);
    var s := Scores(g, query[h], keys, k, scale);
    ShiftInvariance(E, s, s, Largest(s));
    forall d | 0 <= d < g.headDim
      ensures accumulator[d] / runningSum == Reference(E, g, query, keys, values, scale).output[h][d]
    {
      ShiftInvariance(E, s, Column(g, values, k, d), Largest(s));
    }
  }
}
