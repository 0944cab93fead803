/** The three attention backends behind one call. */
module Backends {
  import opened Bytes
  import opened Half
  import opened Indexing
  import opened Quant
  import opened Exponential
  import opened Attention
  import opened Batches
  import opened Online
  import FusedDecode
  import TritonDecode

  datatype Backend = Cuda | Triton | Portable

  datatype BackendError = HeadDimTooLarge | EmptyBlock

  lemma {:induction false} PrefixOfKeys(g: Geometry, batch: Batch, b: nat, t: nat)
    requires Readable(g, batch) && b < batch.blocks && t <= batch.validTokens[b]
    ensures forall i :: 0 <= i < t ==> FiniteToken(g, batch, batch.scalesK, b, i) && FiniteToken(g, batch, batch.scalesV, b, i)
    ensures KeysUpTo(g, batch, b, t) == KeysUpTo(g, batch, b, 0) + seq(t, i requires 0 <= i < t => KeyToken(g, batch, b, i))
    ensures ValuesUpTo(g, batch, b, t) == ValuesUpTo(g, batch, b, 0) + seq(t, i requires 0 <= i < t => ValueToken(g, batch, b, i))
  {
    hide KeyToken, ValueToken;
    if 0 < t {
      PrefixOfKeys(g, batch, b, t - 1);
      assert seq(t, i requires 0 <= i < t => KeyToken(g, batch, b, i))
          == seq(t - 1, i requires 0 <= i < t - 1 => KeyToken(g, batch, b, i)) + [KeyToken(g, batch, b, t - 1)];
      assert seq(t, i requires 0 <= i < t => ValueToken(g, batch, b, i))
          == seq(t - 1, i requires 0 <= i < t - 1 => ValueToken(g, batch, b, i)) + [ValueToken(g, batch, b, t - 1)];
    }
  }

  /** The batch with its counts as a backend reads them. */
  function Shown(backend: Backend, batch: Batch): Batch {
    if backend.Portable? then Slice(batch) else Clip(batch)
  }

  /** `ReferenceAttentionBackend.run`: gather the valid prefixes, then plain attention. */
  method RunReference(E: ExpLog, g: Geometry, query: seq<seq<real>>, batch: Batch, scale: real) returns (p: Partial)
    requires batch.Valid(g) && Runnable(E, g, query, Slice(batch))
    ensures p == BatchReference(E, g, query, Slice(batch), scale)
  {
    ghost var shown := Slice(batch);
    hide KeyToken, ValueToken, Reference;
    var keys: seq<Token>, values: seq<Token> := [], [];
    for index := 0 to batch.blocks
      invariant keys == KeysUpTo(g, shown, index, 0) && values == ValuesUpTo(g, shown, index, 0)
    {
      var valid := Sliced(batch.validTokens[index], batch.tokens);
      PrefixOfKeys(g, shown, index, valid);
      keys := keys + seq(valid, i requires 0 <= i < valid => KeyToken(g, Slice(batch), index, i));
      values := values + seq(valid, i requires 0 <= i < valid => ValueToken(g, Slice(batch), index, i));
    }
    p := Reference(E, g, query, keys, values, scale);
  }

  /** Flat arrays back to rows. */
  function ToPartial(g: Geometry, output: seq<real>, lse: seq<Extended>): (p: Partial)
    requires |output| == g.queryHeads * g.headDim && |lse| == g.queryHeads && forall h :: 0 <= h < |lse| ==> lse[h].Real?
    ensures IsPartial(p, g)
  {
    Partial(
      seq(g.queryHeads, h requires 0 <= h < g.queryHeads =>
        seq(g.headDim, d requires 0 <= d < g.headDim => output[FusedDecode.Cell(g, h, d)])),
      seq(g.queryHeads, h requires 0 <= h < g.queryHeads => lse[h].value))
  }

  /** The rows of the output are its consecutive stretches of `headDim` elements. */
  lemma RowsInOrder(g: Geometry, output: seq<real>, lse: seq<Extended>, h: nat)
    requires |output| == g.queryHeads * g.headDim && |lse| == g.queryHeads && forall i :: 0 <= i < |lse| ==> lse[i].Real?
    requires h < g.queryHeads
    ensures h * g.headDim + g.headDim <= |output|
    ensures ToPartial(g, output, lse).output[h] == output[h * g.headDim..h * g.headDim + g.headDim]
  {
    TimesMonotone(h + 1, g.queryHeads, g.headDim);
  }

  lemma StoredHeads(g: Geometry, output: seq<real>, lse: seq<Extended>, p: Partial)
    requires IsPartial(p, g) && |output| == g.queryHeads * g.headDim && |lse| == g.queryHeads
    requires forall h :: 0 <= h < g.queryHeads ==> FusedDecode.HeadStored(g, output, lse, p, h)
    ensures (forall h :: 0 <= h < |lse| ==> lse[h].Real?) && ToPartial(g, output, lse) == p
  {
    hide FusedDecode.Cell;
    forall h | 0 <= h < g.queryHeads
      ensures lse[h] == Real(p.lse[h])
    {
      assert FusedDecode.HeadStored(g, output, lse, p, h);
    }
    forall h | 0 <= h < g.queryHeads
      ensures forall d :: 0 <= d < g.headDim ==> ToPartial(g, output, lse).output[h][d] == p.output[h][d]
    {
      assert FusedDecode.HeadStored(g, output, lse, p, h);
    }
    SamePartial(g, ToPartial(g, output, lse), p);
  }

  lemma ResultHeads(
    E: ExpLog, g: Geometry, query: seq<seq<real>>, batch: Batch, scale: real, output: seq<real>, lse: seq<Extended>)
    requires Runnable(E, g, query, batch) && |output| == g.queryHeads * g.headDim && |lse| == g.queryHeads
    requires forall h :: 0 <= h < g.queryHeads ==> FusedDecode.HeadResult(E, g, query, batch, scale, output, lse, h)
    ensures forall h :: 0 <= h < g.queryHeads ==>
              FusedDecode.HeadStored(g, output, lse, BatchReference(E, g, query, batch, scale), h)
  {
    hide FusedDecode.HeadStored, BatchKeys, BatchReference;
    forall h | 0 <= h < g.queryHeads
      ensures FusedDecode.HeadStored(g, output, lse, BatchReference(E, g, query, batch, scale), h)
    {
      assert FusedDecode.HeadResult(E, g, query, batch, scale, output, lse, h);
    }
  }

  /** The result tensors. Their elements may be no numbers. */
  datatype Outcome = Outcome(output: seq<seq<TritonDecode.Float>>, lse: seq<TritonDecode.Float>)

  /** Results that are numbers throughout. */
  function Exact(g: Geometry, p: Partial): Outcome
    requires IsPartial(p, g)
  {
    Outcome(
      seq(g.queryHeads, h requires 0 <= h < g.queryHeads =>
        seq(g.headDim, d requires 0 <= d < g.headDim => TritonDecode.Float(p.output[h][d]))),
      seq(g.queryHeads, h requires 0 <= h < g.queryHeads => TritonDecode.Float(p.lse[h])))
  }

  /** What a backend answers: plain attention, except in the lanes of the Triton kernel that padding spoils. */
  ghost function Answer(E: ExpLog, g: Geometry, query: seq<seq<real>>, batch: Batch, scale: real, backend: Backend): Outcome
    requires batch.Valid(g) && Runnable(E, g, query, Shown(backend, batch))
  {
    var p := BatchReference(E, g, query, Shown(backend, batch), scale);
    if !backend.Triton? then Exact(g, p)
    else
      Outcome(
        seq(g.queryHeads, h requires 0 <= h < g.queryHeads =>
          seq(g.headDim, d requires 0 <= d < g.headDim =>
            TritonDecode.Lane(TritonDecode.Spoiled(g, batch, g.KvHead(h), d), p.output[h][d]))),
        seq(g.queryHeads, h requires 0 <= h < g.queryHeads => TritonDecode.Float(p.lse[h])))
  }

  lemma HeadsOf(
    E: ExpLog, g: Geometry, query: seq<seq<real>>, batch: Batch, scale: real, out: Outcome)
    requires batch.Valid(g) && Runnable(E, g, query, Clip(batch)) && |out.output| == g.queryHeads == |out.lse|
    requires forall h :: 0 <= h < g.queryHeads ==>
               TritonDecode.IsHeadOf(g, batch, out.output[h], out.lse[h], BatchReference(E, g, query, Clip(batch), scale), h)
    ensures out == Answer(E, g, query, batch, scale, Triton)
  {
    hide BatchReference, TritonDecode.Spoiled, Readable, BatchKeys;
    var answer := Answer(E, g, query, batch, scale, Triton);
    forall h | 0 <= h < g.queryHeads
      ensures out.output[h] == answer.output[h] && out.lse[h] == answer.lse[h]
    {
      assert TritonDecode.IsHeadOf(g, batch, out.output[h], out.lse[h], BatchReference(E, g, query, Clip(batch), scale), h);
    }
  }

  /** Results that are numbers, as the partial result they stand for. */
  function Numbers(g: Geometry, out: Outcome): (p: Partial)
    requires |out.output| == g.queryHeads == |out.lse|
    requires forall h :: 0 <= h < g.queryHeads ==> |out.output[h]| == g.headDim && out.lse[h].Float?
    requires forall h, d :: 0 <= h < g.queryHeads && 0 <= d < g.headDim ==> out.output[h][d].Float?
    ensures IsPartial(p, g)
  {
    Partial(
      seq(g.queryHeads, h requires 0 <= h < g.queryHeads =>
        seq(g.headDim, d requires 0 <= d < g.headDim => out.output[h][d].value)),
      seq(g.queryHeads, h requires 0 <= h < g.queryHeads => out.lse[h].value))
  }

  lemma ExactNumbers(g: Geometry, p: Partial)
    requires IsPartial(p, g)
    ensures var out := Exact(g, p);
            && |out.output| == g.queryHeads == |out.lse|
            && (forall h :: 0 <= h < g.queryHeads ==> |out.output[h]| == g.headDim && out.lse[h].Float?)
            && (forall h, d :: 0 <= h < g.queryHeads && 0 <= d < g.headDim ==> out.output[h][d].Float?)
            && Numbers(g, out) == p
  {
    SamePartial(g, Numbers(g, Exact(g, p)), p);
  }

  /**
   All backends compute plain attention over the tokens that they read the counts to mean; for counts inside the block
   these are the same. The accelerated ones stop at 256 dimensions, and Triton refuses a block without valid tokens. The
   scales of padded tokens may be anything; Triton alone lets them into its answer.
  */
  method Run(
    E: ExpLog, g: Geometry, query: seq<seq<real>>, batch: Batch, scale: real, backend: Backend,
    schedule: nat -> FusedDecode.Turn -> seq<nat>)
    returns (r: Result<Outcome, BackendError>)
    requires batch.Valid(g) && Runnable(E, g, query, Shown(backend, batch))
    requires 0 < batch.blocks && 0 < batch.tokens && (backend.Cuda? ==> FusedDecode.Launchable(g, batch))
    requires forall threads :: FusedDecode.AreOrders(schedule(threads), threads)
    ensures r.Ok? <==>
              || backend.Portable?
              || (g.headDim <= 256 && (backend.Triton? ==> forall b :: 0 <= b < batch.blocks ==> 0 < batch.validTokens[b]))
    ensures r.Ok? ==> r.value == Answer(E, g, query, batch, scale, backend)
    ensures batch.CountsInside() ==> Shown(backend, batch) == batch
  {
    hide FusedDecode.AreOrders, FusedDecode.HeadStored, FusedDecode.HeadResult, BatchReference, BatchKeys, Readable,
         TritonDecode.IsHeadOf;
    CountsMadeInside(g, batch);
    match backend
    case Portable =>
      var p := RunReference(E, g, query, batch, scale);
      r := Ok(Exact(g, p));
    case Cuda =>
      if 256 < g.headDim {
        return Err(HeadDimTooLarge);
      }
      var output, lse := FusedDecode.Run(E, g, query, batch, scale, schedule);
      ResultHeads(E, g, query, Clip(batch), scale, output[..], lse[..]);
      StoredHeads(g, output[..], lse[..], BatchReference(E, g, query, Clip(batch), scale));
      r := Ok(Exact(g, ToPartial(g, output[..], lse[..])));
    case Triton =>
      var t := TritonDecode.Run(E, g, query, batch, scale);
      if t.Err? {
        return Err(if t.error.HeadDimTooLarge? then HeadDimTooLarge else EmptyBlock);
      }
      HeadsOf(E, g, query, batch, scale, Outcome(t.value.0, t.value.1));
      r := Ok(Outcome(t.value.0, t.value.1));
  }

  // ----- when the backends agree

  /** No padded token has an infinite or NaN value scale. */
  ghost predicate FinitePadding(g: Geometry, batch: Batch)
    requires batch.Valid(g)
  {
    forall b, t :: 0 <= b < batch.blocks && 0 <= t < batch.tokens && batch.validTokens[b] <= t ==>
      FiniteToken(g, batch, batch.scalesV, b, t)
  }

  /** Some query head reads KV head `k`. */
  lemma HeadOfKv(g: Geometry, k: nat) returns (h: nat)
    requires g.Valid() && k < g.kvHeads
    ensures h < g.queryHeads && g.KvHead(h) == k
  {
    var group := g.queryHeads / g.kvHeads;
    assert g.queryHeads == g.kvHeads * group;
    h := k * group;
    Flat(k, g.kvHeads, 0, group);
  }

  /** The Triton kernel answers with numbers throughout exactly when no padded value scale is infinite or NaN. */
  lemma TritonExactIff(E: ExpLog, g: Geometry, query: seq<seq<real>>, batch: Batch, scale: real)
    requires batch.Valid(g) && Runnable(E, g, query, Clip(batch))
    ensures Answer(E, g, query, batch, scale, Triton) == Answer(E, g, query, batch, scale, Cuda) <==> FinitePadding(g, batch)
  {
    hide BatchReference, Readable, BatchKeys, FiniteAt;
    var spoiled, exact := Answer(E, g, query, batch, scale, Triton), Answer(E, g, query, batch, scale, Cuda);
    if FinitePadding(g, batch) {
      forall h, d | 0 <= h < g.queryHeads && 0 <= d < g.headDim
        ensures !TritonDecode.Spoiled(g, batch, g.KvHead(h), d)
      {
        forall b: nat, t: nat | b < batch.blocks && t < batch.tokens && batch.validTokens[b] <= t
          ensures FiniteAt(g, batch, batch.scalesV, b, t, g.KvHead(h), d)
        {
          assert FiniteToken(g, batch, batch.scalesV, b, t);
        }
      }
      forall h | 0 <= h < g.queryHeads
        ensures spoiled.output[h] == exact.output[h] && spoiled.lse[h] == exact.lse[h]
      {
      }
    } else {
      var b, t :| 0 <= b < batch.blocks && 0 <= t < batch.tokens && batch.validTokens[b] <= t
                  && !FiniteToken(g, batch, batch.scalesV, b, t);
      var k, d :| 0 <= k < g.kvHeads && 0 <= d < g.headDim && !FiniteAt(g, batch, batch.scalesV, b, t, k, d);
      var h := HeadOfKv(g, k);
      assert TritonDecode.Spoiled(g, batch, k, d);
      assert spoiled.output[h][d].NaN? && exact.output[h][d].Float?;
    }
  }

  /** With finite scales throughout, every backend answers with numbers. */
  lemma FiniteAnswer(E: ExpLog, g: Geometry, query: seq<seq<real>>, batch: Batch, scale: real, backend: Backend)
    requires batch.Valid(g) && Runnable(E, g, query, Shown(backend, batch)) && batch.FiniteScales()
    ensures Answer(E, g, query, batch, scale, backend) == Exact(g, BatchReference(E, g, query, Shown(backend, batch), scale))
  {
    hide BatchReference, Readable, BatchKeys, Finite, ScaleAddress;
    if backend.Triton? {
      TritonExactIff(E, g, query, batch, scale);
    }
  }

  /**
   For counts that the Triton backend accepts, the reference and CUDA backends answer the same, and Triton answers that
   too exactly when no padded value scale is infinite or NaN.
  */
  lemma BackendsAgreeIff(E: ExpLog, g: Geometry, query: seq<seq<real>>, batch: Batch, scale: real)
    requires E.Valid() && g.Valid() && g.IsQuery(query) && batch.Valid(g) && Readable(g, Clip(batch))
    requires 0 < batch.blocks && 0 < batch.tokens && forall b :: 0 <= b < batch.blocks ==> 0 < batch.validTokens[b]
    ensures forall backend :: Runnable(E, g, query, Shown(backend, batch))
    ensures Answer(E, g, query, batch, scale, Portable) == Answer(E, g, query, batch, scale, Cuda)
    ensures Answer(E, g, query, batch, scale, Triton) == Answer(E, g, query, batch, scale, Cuda) <==> FinitePadding(g, batch)
  {
    hide Readable, BatchReference, FinitePadding, Exact;
    CountsAgreeIff(batch);
    TritonDecode.SomeKeys(g, Clip(batch), batch.blocks, 0);
    TritonExactIff(E, g, query, batch, scale);
  }

  // ----- a batch on which they differ

  const WIDE: seq<real> := [1.0, 0.0, 458640.0, 0.0]

  /** One valid token, and a padded row whose magnitude, 65520 * 7, is too large for an FP16 scale. */
  lemma WideRow()
    ensures Quantizable(WIDE, 4, 2)
    ensures var q := Quantize(WIDE, 4, 2); |q.packed| == 2 == |q.scales| && Finite(q.scales[0]) && !Finite(q.scales[1])
  {
    hide MaxAbs, Round, Scale, Pack, Codes;
    assert GroupAt(WIDE, 2, 0) == [1.0, 0.0] && GroupAt(WIDE, 2, 1) == [458640.0, 0.0];
    ScaleOfPair(1.0);
    ScaleOfPair(458640.0);
  }

  lemma ScaleOfPair(x: real)
    requires x >= 1.0
    ensures Finite(Round(Scale([x, 0.0], 4))) <==> x < 458640.0
  {
    MaxOfPair(x);
    hide MaxAbs, Round;
    RoundFiniteIff(Scale([x, 0.0], 4));
  }

  lemma MaxOfPair(x: real)
    requires x >= 0.0
    ensures MaxAbs([x, 0.0]) == x
  {
    assert [x, 0.0][..1] == [x] && [x][..0] == [];
  }

  function OneHead(): Geometry {
    Geometry(1, 1, 2)
  }

  function WideBatch(): (batch: Batch)
    ensures batch.Valid(OneHead())
  {
    WideRow();
    var q := Quantize(WIDE, 4, 2);
    Batch(q.packed, q.packed, q.scales, q.scales, [1], 1, 2, 1, 1, 4, 2)
  }

  /** The padded row makes both dimensions of the Triton answer NaN; the other backends never see it. */
  lemma WidePadding(E: ExpLog, query: seq<real>, scale: real)
    requires E.Valid() && |query| == 2
    ensures forall backend :: Runnable(E, OneHead(), [query], Shown(backend, WideBatch()))
    ensures Answer(E, OneHead(), [query], WideBatch(), scale, Triton).output == [[TritonDecode.NaN, TritonDecode.NaN]]
    ensures forall d :: 0 <= d < 2 ==>
              && Answer(E, OneHead(), [query], WideBatch(), scale, Cuda).output[0][d].Float?
              && Answer(E, OneHead(), [query], WideBatch(), scale, Portable).output[0][d].Float?
  {
    var g, batch := OneHead(), WideBatch();
    WideRow();
    WideScales();
    hide Quantize, BatchReference, Readable, FiniteAt;
    BackendsAgreeIff(E, g, [query], batch, scale);
    forall d | 0 <= d < 2
      ensures TritonDecode.Spoiled(g, batch, 0, d)
    {
      var b, t := 0, 1;
      assert !FiniteAt(g, batch, batch.scalesV, b, t, 0, d);
    }
    var output := Answer(E, g, [query], batch, scale, Triton).output;
    assert output[0] == [TritonDecode.NaN, TritonDecode.NaN];
  }

  lemma WideScales()
    ensures Readable(OneHead(), Clip(WideBatch()))
    ensures forall d :: 0 <= d < 2 ==> !FiniteAt(OneHead(), WideBatch(), WideBatch().scalesV, 0, 1, 0, d)
  {
    hide Quantize, Finite;
    WideRow();
  }
}
