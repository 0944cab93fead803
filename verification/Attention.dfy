/**
 Softmax attention over exact reals: what `reference_attention` and `ReferenceAttentionBackend.run`
 compute, and the merge of separately normalized chunks.
*/
module Attention {
  import opened Exponential
  import opened Indexing

  /** One vector per KV head. */
  type Token = seq<seq<real>>

  function Dot(a: seq<real>, b: seq<real>): real
    requires |a| == |b|
  {
    if a == [] then 0.0 else Dot(a[..|a| - 1], b[..|b| - 1]) + a[|a| - 1] * b[|b| - 1]
  }

  function Sum(a: seq<real>): real {
    if a == [] then 0.0 else Sum(a[..|a| - 1]) + a[|a| - 1]
  }

  function Exps(E: ExpLog, scores: seq<real>): seq<real> {
    seq(|scores|, i requires 0 <= i < |scores| => E.exp(scores[i]))
  }

  function LogSumExp(E: ExpLog, scores: seq<real>): real {
    E.log(Sum(Exps(E, scores)))
  }

  lemma {:induction false} SumOfExpsPositive(E: ExpLog, scores: seq<real>)
    requires E.Valid()
    ensures Sum(Exps(E, scores)) >= 0.0
    ensures scores != [] ==> Sum(Exps(E, scores)) > 0.0
  {
    if scores != [] {
      var n := |scores| - 1;
      SumOfExpsPositive(E, scores[..n]);
      assert Exps(E, scores)[..n] == Exps(E, scores[..n]);
      ExpPositive(E, scores[n]);
    }
  }

  /** `torch.softmax(scores)` */
  function Softmax(E: ExpLog, scores: seq<real>): (weights: seq<real>)
    requires E.Valid() && scores != []
    ensures |weights| == |scores|
  {
    SumOfExpsPositive(E, scores);
    seq(|scores|, i requires 0 <= i < |scores| => E.exp(scores[i]) / Sum(Exps(E, scores)))
  }

  // ----- sums of exp(score - m), the running quantities of a streaming softmax

  /** The sum of exp(s - m) over the scores. */
  function Mass(E: ExpLog, scores: seq<real>, m: real): real {
    if scores == [] then 0.0
    else Mass(E, scores[..|scores| - 1], m) + E.exp(scores[|scores| - 1] - m)
  }

  /** The sum of exp(s - m) * v over scores and values. */
  function Moment(E: ExpLog, scores: seq<real>, values: seq<real>, m: real): real
    requires |scores| == |values|
  {
    if scores == [] then 0.0
    else Moment(E, scores[..|scores| - 1], values[..|values| - 1], m)
         + E.exp(scores[|scores| - 1] - m) * values[|values| - 1]
  }

  lemma {:induction false} MassPositive(E: ExpLog, scores: seq<real>, m: real)
    requires E.Valid()
    ensures Mass(E, scores, m) >= 0.0
    ensures scores != [] ==> Mass(E, scores, m) > 0.0
  {
    if scores != [] {
      MassPositive(E, scores[..|scores| - 1], m);
      ExpPositive(E, scores[|scores| - 1] - m);
    }
  }

  lemma {:induction false} MassRescales(E: ExpLog, scores: seq<real>, m: real, n: real)
    requires E.Valid()
    ensures Mass(E, scores, n) == Mass(E, scores, m) * E.exp(m - n)
  {
    if scores != [] {
      var k := |scores| - 1;
      MassRescales(E, scores[..k], m, n);
      ExpRescales(E, scores[k], m, n);
    }
  }

  lemma {:induction false} MomentRescales(E: ExpLog, scores: seq<real>, values: seq<real>, m: real, n: real)
    requires E.Valid() && |scores| == |values|
    ensures Moment(E, scores, values, n) == Moment(E, scores, values, m) * E.exp(m - n)
  {
    if scores != [] {
      var k := |scores| - 1;
      MomentRescales(E, scores[..k], values[..k], m, n);
      ExpRescales(E, scores[k], m, n);
      Distribute(Moment(E, scores[..k], values[..k], m), E.exp(scores[k] - m), values[k], E.exp(m - n));
    }
  }

  lemma Distribute(a: real, x: real, v: real, f: real)
    ensures (a + x * v) * f == a * f + (x * f) * v
  {
  }

  lemma {:induction false} MassIsSum(E: ExpLog, scores: seq<real>)
    ensures Mass(E, scores, 0.0) == Sum(Exps(E, scores))
  {
    if scores != [] {
      var n := |scores| - 1;
      MassIsSum(E, scores[..n]);
      assert Exps(E, scores)[..n] == Exps(E, scores[..n]);
      assert scores[n] - 0.0 == scores[n];
    }
  }

  lemma {:induction false} WeightedIsMoment(E: ExpLog, scores: seq<real>, values: seq<real>, weights: seq<real>, total: real)
    requires |scores| == |values| == |weights| && total != 0.0
    requires forall i :: 0 <= i < |scores| ==> weights[i] == E.exp(scores[i]) / total
    ensures Dot(weights, values) == Moment(E, scores, values, 0.0) / total
  {
    if scores != [] {
      var n := |scores| - 1;
      WeightedIsMoment(E, scores[..n], values[..n], weights[..n], total);
      assert scores[n] - 0.0 == scores[n];
      OverTotal(Moment(E, scores[..n], values[..n], 0.0), E.exp(scores[n]), values[n], total);
    }
  }

  lemma OverTotal(a: real, x: real, v: real, total: real)
    requires total != 0.0
    ensures a / total + (x / total) * v == (a + x * v) / total
  {
  }

  /** Shifting every exponent by `m` changes neither the softmax average nor the log-sum-exp. */
  lemma ShiftInvariance(E: ExpLog, scores: seq<real>, values: seq<real>, m: real)
    requires E.Valid() && |scores| == |values| && scores != []
    ensures Mass(E, scores, m) > 0.0
    ensures Moment(E, scores, values, m) / Mass(E, scores, m) == Dot(Softmax(E, scores), values)
    ensures m + E.log(Mass(E, scores, m)) == LogSumExp(E, scores)
  {
    hide Dot, Moment, Mass, Sum, Softmax, Exps;
    var total, factor, moment := Sum(Exps(E, scores)), E.exp(0.0 - m), Moment(E, scores, values, 0.0);
    var mass := Mass(E, scores, m);
    SumOfExpsPositive(E, scores);
    MassIsSum(E, scores);
    MassPositive(E, scores, m);
    ExpPositive(E, 0.0 - m);
    assert mass == total * factor by {
      MassRescales(E, scores, 0.0, m);
    }
    assert Moment(E, scores, values, m) / mass == moment / total by {
      MomentRescales(E, scores, values, 0.0, m);
      CancelFactor(moment, total, factor);
    }
    SoftmaxIsMoment(E, scores, values);
    assert E.log(mass) == E.log(total) + (0.0 - m) by {
      LogOfProduct(E, total, factor);
      LogOfExp(E, 0.0 - m);
    }
  }

  lemma CancelFactor(a: real, b: real, f: real)
    requires b != 0.0 && f != 0.0
    ensures (a * f) / (b * f) == a / b
  {
    assert (a * f) / (b * f) == ((a / b) * (b * f)) / (b * f) by {
      assert (a / b) * (b * f) == a * f;
    }
  }

  // ----- tensors

  /** Head counts and head dimension of a decode step, with grouped KV heads. */
  datatype Geometry = Geometry(queryHeads: nat, kvHeads: nat, headDim: nat) {
    predicate Valid() {
      queryHeads > 0 && kvHeads > 0 && headDim > 0 && queryHeads % kvHeads == 0
    }

    /** The KV head that query head `h` reads. */
    function KvHead(h: nat): (k: nat)
      requires Valid() && h < queryHeads
      ensures k < kvHeads
    {
      var group := queryHeads / kvHeads;
      assert queryHeads == kvHeads * group;
      RowBelow(h, kvHeads, group);
      h / group
    }

    predicate IsQuery(query: seq<seq<real>>) {
      |query| == queryHeads && forall h :: 0 <= h < queryHeads ==> |query[h]| == headDim
    }

    predicate IsToken(token: Token) {
      |token| == kvHeads && forall k :: 0 <= k < kvHeads ==> |token[k]| == headDim
    }

    predicate AreTokens(tokens: seq<Token>) {
      forall t :: 0 <= t < |tokens| ==> IsToken(tokens[t])
    }
  }

  /** A normalized output per query head and the log of its normalizer. */
  datatype Partial = Partial(output: seq<seq<real>>, lse: seq<real>)

  predicate IsPartial(p: Partial, g: Geometry) {
    |p.output| == g.queryHeads == |p.lse| && forall h :: 0 <= h < g.queryHeads ==> |p.output[h]| == g.headDim
  }

  function Score(row: seq<real>, key: seq<real>, scale: real): real
    requires |row| == |key|
  {
    Dot(row, key) * scale
  }

  function Scores(g: Geometry, row: seq<real>, keys: seq<Token>, k: nat, scale: real): (s: seq<real>)
    requires g.AreTokens(keys) && |row| == g.headDim && k < g.kvHeads
    ensures |s| == |keys|
  {
    seq(|keys|, t requires 0 <= t < |keys| => Score(row, keys[t][k], scale))
  }

  function Column(g: Geometry, values: seq<Token>, k: nat, d: nat): (c: seq<real>)
    requires g.AreTokens(values) && k < g.kvHeads && d < g.headDim
    ensures |c| == |values|
  {
    seq(|values|, t requires 0 <= t < |values| => values[t][k][d])
  }

  ghost predicate WellShaped(E: ExpLog, g: Geometry, query: seq<seq<real>>, keys: seq<Token>, values: seq<Token>) {
    && E.Valid() && g.Valid() && g.IsQuery(query)
    && g.AreTokens(keys) && g.AreTokens(values) && |keys| == |values|
  }

  /** Output and log-sum-exp of plain softmax attention over all the tokens. */
  function Reference(E: ExpLog, g: Geometry, query: seq<seq<real>>, keys: seq<Token>, values: seq<Token>, scale: real): (p: Partial)
    requires WellShaped(E, g, query, keys, values) && keys != []
    ensures IsPartial(p, g)
  {
    Partial(
      seq(g.queryHeads, h requires 0 <= h < g.queryHeads =>
        seq(g.headDim, d requires 0 <= d < g.headDim =>
          ReferenceAt(E, g, query, keys, values, scale, h, d))),
      seq(g.queryHeads, h requires 0 <= h < g.queryHeads =>
        LogSumExp(E, Scores(g, query[h], keys, g.KvHead(h), scale))))
  }

  function ReferenceAt(E: ExpLog, g: Geometry, query: seq<seq<real>>, keys: seq<Token>, values: seq<Token>, scale: real, h: nat, d: nat): real
    requires WellShaped(E, g, query, keys, values) && keys != []
    requires h < g.queryHeads && d < g.headDim
  {
    Dot(Softmax(E, Scores(g, query[h], keys, g.KvHead(h), scale)), Column(g, values, g.KvHead(h), d))
  }

  /** Softmax weights are positive, add up to 1, and are exp(score) in units of exp(log-sum-exp). */
  lemma SoftmaxWeights(E: ExpLog, scores: seq<real>)
    requires E.Valid() && scores != []
    ensures Sum(Softmax(E, scores)) == 1.0
    ensures forall i :: 0 <= i < |scores| ==>
              Softmax(E, scores)[i] > 0.0 && Softmax(E, scores)[i] * E.exp(LogSumExp(E, scores)) == E.exp(scores[i])
  {
    hide Sum;
    var total := Sum(Exps(E, scores));
    SumOfExpsPositive(E, scores);
    ExpOfLog(E, total);
    SumOfQuotients(Exps(E, scores), total);
    var weights := Softmax(E, scores);
    assert weights == Quotients(Exps(E, scores), total);
    DividedByItself(total);
    assert Sum(weights) == 1.0;
    forall i | 0 <= i < |scores|
      ensures Softmax(E, scores)[i] > 0.0 && Softmax(E, scores)[i] * E.exp(LogSumExp(E, scores)) == E.exp(scores[i])
    {
      ExpPositive(E, scores[i]);
    }
  }

  lemma DividedByItself(x: real)
    requires x != 0.0
    ensures x / x == 1.0
  {
  }

  function Quotients(s: seq<real>, total: real): (q: seq<real>)
    requires total != 0.0
  {
    seq(|s|, i requires 0 <= i < |s| => s[i] / total)
  }

  lemma {:induction false} SumOfQuotients(s: seq<real>, total: real)
    requires total != 0.0
    ensures Sum(Quotients(s, total)) == Sum(s) / total
  {
    if s != [] {
      var n := |s| - 1;
      assert Quotients(s, total)[..n] == Quotients(s[..n], total);
      SumOfQuotients(s[..n], total);
    }
  }

  /**
   Grouped heads: of `queryHeads`, every run of `queryHeads / kvHeads` consecutive ones shares a KV head. Head `r` of the
   group of KV head `k` is softmax attention over that KV head's keys and values.
  */
  lemma GroupedHeads(
    E: ExpLog, g: Geometry, query: seq<seq<real>>, keys: seq<Token>, values: seq<Token>, scale: real, k: nat, r: nat)
    requires WellShaped(E, g, query, keys, values) && keys != []
    requires k < g.kvHeads && r < g.queryHeads / g.kvHeads
    ensures var h := k * (g.queryHeads / g.kvHeads) + r;
            && h < g.queryHeads
            && var s := Scores(g, query[h], keys, k, scale);
               && Reference(E, g, query, keys, values, scale).lse[h] == LogSumExp(E, s)
               && forall d :: 0 <= d < g.headDim ==>
                    Reference(E, g, query, keys, values, scale).output[h][d] == Dot(Softmax(E, s), Column(g, values, k, d))
  {
    hide Softmax, LogSumExp, Dot, Scores, Column;
    var group := g.queryHeads / g.kvHeads;
    assert g.queryHeads == g.kvHeads * group;
    Flat(k, g.kvHeads, r, group);
    assert g.KvHead(k * group + r) == k;
  }

  /** The same, given the scores and the values of the head as plain numbers. */
  lemma HeadElement(
    E: ExpLog, g: Geometry, query: seq<seq<real>>, keys: seq<Token>, values: seq<Token>, scale: real, k: nat, r: nat, d: nat,
    s: seq<real>, c: seq<real>)
    requires WellShaped(E, g, query, keys, values) && keys != []
    requires k < g.kvHeads && r < g.queryHeads / g.kvHeads && d < g.headDim && k * (g.queryHeads / g.kvHeads) + r < |query|
    requires |s| == |keys| && forall t :: 0 <= t < |s| ==> s[t] == Dot(query[k * (g.queryHeads / g.kvHeads) + r], keys[t][k]) * scale
    requires |c| == |values| && forall t :: 0 <= t < |c| ==> c[t] == values[t][k][d]
    ensures var h, p := k * (g.queryHeads / g.kvHeads) + r, Reference(E, g, query, keys, values, scale);
            h < g.queryHeads && p.output[h][d] == Dot(Softmax(E, s), c) && p.lse[h] == LogSumExp(E, s)
  {
    hide Softmax, LogSumExp, Dot, Reference;
    GroupedHeads(E, g, query, keys, values, scale, k, r);
    assert s == Scores(g, query[k * (g.queryHeads / g.kvHeads) + r], keys, k, scale);
    assert c == Column(g, values, k, d);
  }

  // ----- merging chunks

  /** `torch.logaddexp` */
  function LogAddExp(E: ExpLog, a: real, b: real): real {
    E.log(E.exp(a) + E.exp(b))
  }

  function MergeAt(E: ExpLog, leftOutput: real, leftLse: real, rightOutput: real, rightLse: real): real {
    var merged := LogAddExp(E, leftLse, rightLse);
    leftOutput * E.exp(leftLse - merged) + rightOutput * E.exp(rightLse - merged)
  }

  /** `merge_attention_chunks` */
  function Merge(E: ExpLog, g: Geometry, left: Partial, right: Partial): (p: Partial)
    requires IsPartial(left, g) && IsPartial(right, g)
    ensures IsPartial(p, g)
  {
    Partial(
      seq(g.queryHeads, h requires 0 <= h < g.queryHeads =>
        seq(g.headDim, d requires 0 <= d < g.headDim =>
          MergeAt(E, left.output[h][d], left.lse[h], right.output[h][d], right.lse[h]))),
      seq(g.queryHeads, h requires 0 <= h < g.queryHeads => LogAddExp(E, left.lse[h], right.lse[h])))
  }

  /** Merging adds the normalizers and the unnormalized outputs; nothing else determines the result. */
  lemma MergeAdds(E: ExpLog, o1: real, l1: real, o2: real, l2: real)
    requires E.Valid()
    ensures E.exp(LogAddExp(E, l1, l2)) == E.exp(l1) + E.exp(l2)
    ensures MergeAt(E, o1, l1, o2, l2) * E.exp(LogAddExp(E, l1, l2)) == o1 * E.exp(l1) + o2 * E.exp(l2)
  {
    var m := LogAddExp(E, l1, l2);
    ExpPositive(E, l1);
    ExpPositive(E, l2);
    ExpOfLog(E, E.exp(l1) + E.exp(l2));
    assert E.exp(l1 - m) * E.exp(m) == E.exp(l1) by {
      ExpAdds(E, l1 - m, m);
      assert (l1 - m) + m == l1;
    }
    assert E.exp(l2 - m) * E.exp(m) == E.exp(l2) by {
      ExpAdds(E, l2 - m, m);
      assert (l2 - m) + m == l2;
    }
    DistributeTwo(o1, E.exp(l1 - m), o2, E.exp(l2 - m), E.exp(m));
  }

  lemma DistributeTwo(o1: real, a: real, o2: real, b: real, f: real)
    ensures (o1 * a + o2 * b) * f == o1 * (a * f) + o2 * (b * f)
  {
  }

  lemma SameQuotient(x: real, y: real, f: real)
    requires f != 0.0 && x * f == y * f
    ensures x == y
  {
  }

  lemma MergeAtCommutes(E: ExpLog, o1: real, l1: real, o2: real, l2: real)
    requires E.Valid()
    ensures LogAddExp(E, l1, l2) == LogAddExp(E, l2, l1)
    ensures MergeAt(E, o1, l1, o2, l2) == MergeAt(E, o2, l2, o1, l1)
  {
    assert E.exp(l1) + E.exp(l2) == E.exp(l2) + E.exp(l1);
  }

  lemma MergeAtAssociates(E: ExpLog, o1: real, l1: real, o2: real, l2: real, o3: real, l3: real)
    requires E.Valid()
    ensures LogAddExp(E, LogAddExp(E, l1, l2), l3) == LogAddExp(E, l1, LogAddExp(E, l2, l3))
    ensures MergeAt(E, MergeAt(E, o1, l1, o2, l2), LogAddExp(E, l1, l2), o3, l3)
         == MergeAt(E, o1, l1, MergeAt(E, o2, l2, o3, l3), LogAddExp(E, l2, l3))
  {
    var l12, l23 := LogAddExp(E, l1, l2), LogAddExp(E, l2, l3);
    var o12, o23 := MergeAt(E, o1, l1, o2, l2), MergeAt(E, o2, l2, o3, l3);
    MergeAdds(E, o1, l1, o2, l2);
    MergeAdds(E, o2, l2, o3, l3);
    MergeAdds(E, o12, l12, o3, l3);
    MergeAdds(E, o1, l1, o23, l23);
    var l := LogAddExp(E, l12, l3);
    assert E.exp(l) == E.exp(LogAddExp(E, l1, l23));
    ExpInjective(E, l, LogAddExp(E, l1, l23));
    ExpPositive(E, l);
    SameQuotient(MergeAt(E, o12, l12, o3, l3), MergeAt(E, o1, l1, o23, l23), E.exp(l));
  }

  /** The order of two chunks does not matter. */
  lemma MergeCommutes(E: ExpLog, g: Geometry, p: Partial, q: Partial)
    requires E.Valid() && IsPartial(p, g) && IsPartial(q, g)
    ensures Merge(E, g, p, q) == Merge(E, g, q, p)
  {
    forall h, d | 0 <= h < g.queryHeads && 0 <= d < g.headDim
      ensures Merge(E, g, p, q).output[h][d] == Merge(E, g, q, p).output[h][d]
    {
      MergeAtCommutes(E, p.output[h][d], p.lse[h], q.output[h][d], q.lse[h]);
    }
    forall h | 0 <= h < g.queryHeads
      ensures Merge(E, g, p, q).lse[h] == Merge(E, g, q, p).lse[h]
    {
      MergeAtCommutes(E, 0.0, p.lse[h], 0.0, q.lse[h]);
    }
    SamePartial(g, Merge(E, g, p, q), Merge(E, g, q, p));
  }

  lemma SamePartial(g: Geometry, p: Partial, q: Partial)
    requires IsPartial(p, g) && IsPartial(q, g)
    requires forall h, d :: 0 <= h < g.queryHeads && 0 <= d < g.headDim ==> p.output[h][d] == q.output[h][d]
    requires forall h :: 0 <= h < g.queryHeads ==> p.lse[h] == q.lse[h]
    ensures p == q
  {
    forall h | 0 <= h < g.queryHeads
      ensures p.output[h] == q.output[h]
    {
      assert forall d :: 0 <= d < g.headDim ==> p.output[h][d] == q.output[h][d];
    }
    assert p.output == q.output;
    assert p.lse == q.lse;
  }

  /** How chunks are bracketed does not matter. */
  lemma MergeAssociates(E: ExpLog, g: Geometry, p: Partial, q: Partial, r: Partial)
    requires E.Valid() && IsPartial(p, g) && IsPartial(q, g) && IsPartial(r, g)
    ensures Merge(E, g, Merge(E, g, p, q), r) == Merge(E, g, p, Merge(E, g, q, r))
  {
    var left, right := Merge(E, g, Merge(E, g, p, q), r), Merge(E, g, p, Merge(E, g, q, r));
    forall h, d | 0 <= h < g.queryHeads && 0 <= d < g.headDim
      ensures left.output[h][d] == right.output[h][d]
    {
      MergeAtAssociates(E, p.output[h][d], p.lse[h], q.output[h][d], q.lse[h], r.output[h][d], r.lse[h]);
    }
    forall h | 0 <= h < g.queryHeads
      ensures left.lse[h] == right.lse[h]
    {
      MergeAtAssociates(E, 0.0, p.lse[h], 0.0, q.lse[h], 0.0, r.lse[h]);
    }
    SamePartial(g, left, right);
  }

  // ----- merging the attention of two token runs is the attention of their concatenation

  lemma {:induction false} MassOfConcat(E: ExpLog, s: seq<real>, t: seq<real>, m: real)
    ensures Mass(E, s + t, m) == Mass(E, s, m) + Mass(E, t, m)
  {
    if t == [] {
      assert s + t == s;
    } else {
      var n := |t| - 1;
      assert (s + t)[..|s + t| - 1] == s + t[..n];
      MassOfConcat(E, s, t[..n], m);
    }
  }

  lemma {:induction false} MomentOfConcat(E: ExpLog, s: seq<real>, v: seq<real>, t: seq<real>, w: seq<real>, m: real)
    requires |s| == |v| && |t| == |w|
    ensures Moment(E, s + t, v + w, m) == Moment(E, s, v, m) + Moment(E, t, w, m)
  {
    if t == [] {
      assert s + t == s && v + w == v;
    } else {
      var n := |t| - 1;
      assert (s + t)[..|s + t| - 1] == s + t[..n] && (v + w)[..|v + w| - 1] == v + w[..n];
      MomentOfConcat(E, s, v, t[..n], w[..n], m);
    }
  }

  lemma TimesTotal(E: ExpLog, o: real, l: real, moment: real, total: real)
    requires total != 0.0
    requires o == moment / total && E.exp(l) == total
    ensures o * E.exp(l) == moment
  {
  }

  lemma SoftmaxIsMoment(E: ExpLog, s: seq<real>, v: seq<real>)
    requires E.Valid() && s != [] && |s| == |v|
    ensures Sum(Exps(E, s)) > 0.0
    ensures Dot(Softmax(E, s), v) == Moment(E, s, v, 0.0) / Sum(Exps(E, s))
  {
    hide Dot, Moment, Sum;
    SumOfExpsPositive(E, s);
    WeightedIsMoment(E, s, v, Softmax(E, s), Sum(Exps(E, s)));
  }

  /** A log-sum-exp carries the normalizer, and with it the unnormalized output. */
  lemma Unnormalized(E: ExpLog, s: seq<real>, v: seq<real>)
    requires E.Valid() && s != [] && |s| == |v|
    ensures E.exp(LogSumExp(E, s)) == Mass(E, s, 0.0) > 0.0
    ensures Dot(Softmax(E, s), v) * E.exp(LogSumExp(E, s)) == Moment(E, s, v, 0.0)
  {
    hide Dot, Moment, Softmax, Mass, Sum, Exps;
    var total := Sum(Exps(E, s));
    SumOfExpsPositive(E, s);
    MassIsSum(E, s);
    ExpOfLog(E, total);
    SoftmaxIsMoment(E, s, v);
    TimesTotal(E, Dot(Softmax(E, s), v), LogSumExp(E, s), Moment(E, s, v, 0.0), total);
  }

  /** Partials whose normalizers and unnormalized outputs add up merge to the partial of the sums. */
  lemma MergeDetermined(
    E: ExpLog, os: real, ls: real, ms: real, ws: real, ot: real, lt: real, mt: real, wt: real, o: real, l: real)
    requires E.Valid()
    requires E.exp(ls) == ms && os * E.exp(ls) == ws
    requires E.exp(lt) == mt && ot * E.exp(lt) == wt
    requires E.exp(l) == ms + mt && o * E.exp(l) == ws + wt
    ensures LogAddExp(E, ls, lt) == l
    ensures MergeAt(E, os, ls, ot, lt) == o
  {
    MergeAdds(E, os, ls, ot, lt);
    ExpInjective(E, LogAddExp(E, ls, lt), l);
    ExpPositive(E, l);
    SameQuotient(MergeAt(E, os, ls, ot, lt), o, E.exp(l));
  }

  lemma MergeAtConcat(E: ExpLog, s: seq<real>, v: seq<real>, t: seq<real>, w: seq<real>)
    requires E.Valid() && s != [] && t != [] && |s| == |v| && |t| == |w|
    ensures LogAddExp(E, LogSumExp(E, s), LogSumExp(E, t)) == LogSumExp(E, s + t)
    ensures MergeAt(E, Dot(Softmax(E, s), v), LogSumExp(E, s), Dot(Softmax(E, t), w), LogSumExp(E, t))
         == Dot(Softmax(E, s + t), v + w)
  {
    hide Dot, Moment, Mass, Softmax, LogSumExp, MergeAt, LogAddExp, ExpLog.Valid;
    Unnormalized(E, s, v);
    Unnormalized(E, t, w);
    Unnormalized(E, s + t, v + w);
    MassOfConcat(E, s, t, 0.0);
    MomentOfConcat(E, s, v, t, w, 0.0);
    MergeDetermined(E,
      Dot(Softmax(E, s), v), LogSumExp(E, s), Mass(E, s, 0.0), Moment(E, s, v, 0.0),
      Dot(Softmax(E, t), w), LogSumExp(E, t), Mass(E, t, 0.0), Moment(E, t, w, 0.0),
      Dot(Softmax(E, s + t), v + w), LogSumExp(E, s + t));
  }

  lemma ColumnsOfConcat(
    g: Geometry, row: seq<real>, k1: seq<Token>, k2: seq<Token>, v1: seq<Token>, v2: seq<Token>, k: nat, d: nat, scale: real)
    requires g.AreTokens(k1) && g.AreTokens(k2) && g.AreTokens(v1) && g.AreTokens(v2)
    requires |row| == g.headDim && k < g.kvHeads && d < g.headDim
    ensures Scores(g, row, k1 + k2, k, scale) == Scores(g, row, k1, k, scale) + Scores(g, row, k2, k, scale)
    ensures Column(g, v1 + v2, k, d) == Column(g, v1, k, d) + Column(g, v2, k, d)
  {
    forall t | 0 <= t < |k1 + k2|
      ensures Scores(g, row, k1 + k2, k, scale)[t] == (Scores(g, row, k1, k, scale) + Scores(g, row, k2, k, scale))[t]
    {
      assert (k1 + k2)[t] == if t < |k1| then k1[t] else k2[t - |k1|];
    }
  }

  /** Merging the attention over two token runs gives the attention over their concatenation. */
  lemma MergeOfReferences(
    E: ExpLog, g: Geometry, query: seq<seq<real>>, k1: seq<Token>, v1: seq<Token>, k2: seq<Token>, v2: seq<Token>, scale: real)
    requires WellShaped(E, g, query, k1, v1) && WellShaped(E, g, query, k2, v2) && k1 != [] && k2 != []
    ensures WellShaped(E, g, query, k1 + k2, v1 + v2)
    ensures Merge(E, g, Reference(E, g, query, k1, v1, scale), Reference(E, g, query, k2, v2, scale))
         == Reference(E, g, query, k1 + k2, v1 + v2, scale)
  {
    var p, q := Reference(E, g, query, k1, v1, scale), Reference(E, g, query, k2, v2, scale);
    var left, right := Merge(E, g, p, q), Reference(E, g, query, k1 + k2, v1 + v2, scale);
    forall h, d | 0 <= h < g.queryHeads && 0 <= d < g.headDim
      ensures left.output[h][d] == right.output[h][d] && left.lse[h] == right.lse[h]
    {
      MergeOfReferencesAt(E, g, query, k1, v1, k2, v2, scale, h, d);
      assert left.output[h][d] == MergeAt(E, p.output[h][d], p.lse[h], q.output[h][d], q.lse[h]);
    }
    forall h | 0 <= h < g.queryHeads
      ensures left.lse[h] == right.lse[h]
    {
      assert left.output[h][0] == right.output[h][0] && left.lse[h] == right.lse[h];
    }
    SamePartial(g, left, right);
  }

  lemma MergeOfReferencesAt(
    E: ExpLog, g: Geometry, query: seq<seq<real>>, k1: seq<Token>, v1: seq<Token>, k2: seq<Token>, v2: seq<Token>, scale: real,
    h: nat, d: nat)
    requires WellShaped(E, g, query, k1, v1) && WellShaped(E, g, query, k2, v2) && k1 != [] && k2 != []
    requires h < g.queryHeads && d < g.headDim
    ensures MergeAt(E,
              ReferenceAt(E, g, query, k1, v1, scale, h, d), LogSumExp(E, Scores(g, query[h], k1, g.KvHead(h), scale)),
              ReferenceAt(E, g, query, k2, v2, scale, h, d), LogSumExp(E, Scores(g, query[h], k2, g.KvHead(h), scale)))
         == ReferenceAt(E, g, query, k1 + k2, v1 + v2, scale, h, d)
    ensures LogAddExp(E,
              LogSumExp(E, Scores(g, query[h], k1, g.KvHead(h), scale)),
              LogSumExp(E, Scores(g, query[h], k2, g.KvHead(h), scale)))
         == LogSumExp(E, Scores(g, query[h], k1 + k2, g.KvHead(h), scale))
  {
    var k := g.KvHead(h);
    ColumnsOfConcat(g, query[h], k1, k2, v1, v2, k, d, scale);
    MergeAtConcat(E, Scores(g, query[h], k1, k, scale), Column(g, v1, k, d), Scores(g, query[h], k2, k, scale), Column(g, v2, k, d));
  }

  // ----- folding chunks

  /** One chunk of tokens: its keys and its values. */
  datatype Chunk = Chunk(keys: seq<Token>, values: seq<Token>)

  ghost predicate AreChunks(E: ExpLog, g: Geometry, query: seq<seq<real>>, chunks: seq<Chunk>) {
    forall i :: 0 <= i < |chunks| ==> chunks[i].keys != [] && WellShaped(E, g, query, chunks[i].keys, chunks[i].values)
  }

  function AllKeys(chunks: seq<Chunk>): seq<Token> {
    if chunks == [] then [] else AllKeys(chunks[..|chunks| - 1]) + chunks[|chunks| - 1].keys
  }

  function AllValues(chunks: seq<Chunk>): seq<Token> {
    if chunks == [] then [] else AllValues(chunks[..|chunks| - 1]) + chunks[|chunks| - 1].values
  }

  /** The left fold of the streamed decode: the first partial as it is, every later one merged in. */
  function MergeAll(E: ExpLog, g: Geometry, parts: seq<Partial>): (p: Partial)
    requires parts != []
    requires forall i :: 0 <= i < |parts| ==> IsPartial(parts[i], g)
    ensures IsPartial(p, g)
  {
    if |parts| == 1 then parts[0]
    else Merge(E, g, MergeAll(E, g, parts[..|parts| - 1]), parts[|parts| - 1])
  }

  function References(E: ExpLog, g: Geometry, query: seq<seq<real>>, chunks: seq<Chunk>, scale: real): (parts: seq<Partial>)
    requires AreChunks(E, g, query, chunks)
    ensures |parts| == |chunks|
    ensures forall i :: 0 <= i < |parts| ==> IsPartial(parts[i], g)
  {
    seq(|chunks|, i requires 0 <= i < |chunks| => Reference(E, g, query, chunks[i].keys, chunks[i].values, scale))
  }

  /** Folding the chunks one at a time gives the attention over all their tokens, however they were cut. */
  lemma {:induction false} MergeAllReferences(E: ExpLog, g: Geometry, query: seq<seq<real>>, chunks: seq<Chunk>, scale: real)
    requires chunks != [] && AreChunks(E, g, query, chunks)
    ensures AllKeys(chunks) != [] && WellShaped(E, g, query, AllKeys(chunks), AllValues(chunks))
    ensures MergeAll(E, g, References(E, g, query, chunks, scale))
         == Reference(E, g, query, AllKeys(chunks), AllValues(chunks), scale)
  {
    hide Reference, Merge;
    var n := |chunks| - 1;
    var init, last := chunks[..n], chunks[n];
    var parts := References(E, g, query, chunks, scale);
    if n == 0 {
      assert init == [];
      assert AllKeys(chunks) == last.keys;
      assert AllValues(chunks) == last.values;
      assert MergeAll(E, g, parts) == parts[0];
    } else {
      MergeAllReferences(E, g, query, init, scale);
      assert forall i :: 0 <= i < n ==> init[i] == chunks[i];
      assert parts[..n] == References(E, g, query, init, scale);
      MergeOfReferences(E, g, query, AllKeys(init), AllValues(init), last.keys, last.values, scale);
    }
  }
}
