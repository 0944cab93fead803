/** The CUDA kernel: strided partial products, a shared-memory tree reduction and an online softmax. */
module FusedDecode {
  import opened Half
  import opened Indexing
  import opened Exponential
  import opened Attention
  import opened Online
  import opened Batches

  ghost predicate IsPow2(n: nat) {
    exists k: nat :: n == Pow2(k)
  }

  /** The smallest power of two from 32 on that covers the head dimension. */
  method ThreadCount(headDim: nat) returns (threads: nat)
    ensures IsPow2(threads)
    ensures 32 <= threads && headDim <= threads
    ensures threads == 32 || threads / 2 < headDim
    ensures headDim <= 256 ==> threads <= 256
  {
    threads := 32;
    ghost var k: nat := 5;
    assert Pow2(5) == 32;
    while threads < headDim
      invariant threads == Pow2(k) && 5 <= k
      invariant threads == 32 || threads / 2 < headDim
      invariant 32 <= threads && (headDim <= 256 ==> threads <= 256)
    {
      assert headDim <= 256 ==> k <= 7 by {
        if headDim <= 256 && 8 <= k {
          Pow2From8(k);
          assert false;
        }
      }
      threads := 2 * threads;
      k := k + 1;
      assert Pow2(5) == 32 && Pow2(8) == 256;
      assert headDim <= 256 ==> k <= 8;
      if headDim <= 256 { Pow2UpTo(k, 8); }
    }
  }

  lemma {:induction false} Pow2From8(k: nat)
    requires 8 <= k
    ensures Pow2(k) >= 256
  {
    if k == 8 {
      assert Pow2(4) == 16;
    } else {
      Pow2From8(k - 1);
    }
  }

  lemma {:induction false} Pow2UpTo(j: nat, k: nat)
    requires j <= k
    ensures Pow2(j) <= Pow2(k)
  {
    if j < k {
      Pow2UpTo(j, k - 1);
    }
  }

  // ----- the shared-memory tree

  /** Some order in which the threads of a block pass between two barriers: each exactly once. */
  ghost predicate IsOrder(order: seq<nat>, threads: nat) {
    && (forall i :: 0 <= i < |order| ==> order[i] < threads)
    && (forall i, j :: 0 <= i < j < |order| ==> order[i] != order[j])
    && (forall tid :: 0 <= tid < threads ==> tid in order)
  }

  /** A point at which the threads of a block meet: the head, the block of tokens, the token, and the stride of the round. */
  datatype Turn = Turn(head: nat, block: nat, token: nat, stride: nat)

  /** An order of the threads for every round of every token of every head. */
  ghost predicate AreOrders(schedule: Turn -> seq<nat>, threads: nat) {
    forall turn :: IsOrder(schedule(turn), threads)
  }

  /** One round between barriers. Its result does not depend on the order of the threads. */
  method Round(reduce: array<real>, stride: nat, order: seq<nat>)
    requires 2 * stride <= reduce.Length && IsOrder(order, reduce.Length)
    modifies reduce
    ensures forall tid :: 0 <= tid < stride ==> reduce[tid] == old(reduce[tid]) + old(reduce[tid + stride])
    ensures forall tid :: stride <= tid < reduce.Length ==> reduce[tid] == old(reduce[tid])
  {
    for i := 0 to |order|
      invariant forall tid :: 0 <= tid < stride ==>
                  reduce[tid] == if tid in order[..i] then old(reduce[tid]) + old(reduce[tid + stride]) else old(reduce[tid])
      invariant forall tid :: stride <= tid < reduce.Length ==> reduce[tid] == old(reduce[tid])
    {
      var tid := order[i];
      assert order[..i + 1] == order[..i] + [tid];
      if tid < stride {
        reduce[tid] := reduce[tid] + reduce[tid + stride];
      }
    }
    assert order[..|order|] == order;
  }

  lemma {:induction false} SumOfConcat(a: seq<real>, b: seq<real>)
    ensures Sum(a + b) == Sum(a) + Sum(b)
  {
    if b == [] {
      assert a + b == a;
    } else {
      assert (a + b)[..|a + b| - 1] == a + b[..|b| - 1];
      SumOfConcat(a, b[..|b| - 1]);
    }
  }

  lemma {:induction false} SumOfSums(a: seq<real>, b: seq<real>, c: seq<real>)
    requires |a| == |b| == |c|
    requires forall i :: 0 <= i < |a| ==> c[i] == a[i] + b[i]
    ensures Sum(c) == Sum(a) + Sum(b)
  {
    if a != [] {
      var n := |a| - 1;
      SumOfSums(a[..n], b[..n], c[..n]);
    }
  }

  lemma HalvedSum(before: seq<real>, after: seq<real>, stride: nat)
    requires |before| == 2 * stride && |after| == stride
    requires forall i :: 0 <= i < stride ==> after[i] == before[i] + before[i + stride]
    ensures Sum(after) == Sum(before)
  {
    assert before == before[..stride] + before[stride..];
    SumOfConcat(before[..stride], before[stride..]);
    SumOfSums(before[..stride], before[stride..], after);
  }

  /** Halving the stride each round leaves the sum of all the partials in cell 0. */
  method TreeReduce(reduce: array<real>, schedule: Turn -> seq<nat>, turn: Turn)
    requires IsPow2(reduce.Length)
    requires AreOrders(schedule, reduce.Length)
    modifies reduce
    ensures reduce[0] == Sum(old(reduce[..]))
  {
    hide IsOrder, Sum;
    ghost var k: nat :| reduce.Length == Pow2(k);
    ghost var width := reduce.Length;
    var stride := reduce.Length / 2;
    assert reduce[..width] == reduce[..];
    while stride > 0
      invariant width == Pow2(k) && stride == width / 2
      invariant width <= reduce.Length
      invariant Sum(reduce[..width]) == Sum(old(reduce[..]))
    {
      ghost var before := reduce[..width];
      assert width == 2 * stride && stride == Pow2(k - 1);
      Round(reduce, stride, schedule(turn.(stride := stride)));
      HalvedSum(before, reduce[..stride], stride);
      width, k := stride, k - 1;
      stride := stride / 2;
    }
    SumOfOne(reduce[..1]);
  }

  lemma SumOfOne(a: seq<real>)
    requires |a| == 1
    ensures Sum(a) == a[0]
  {
    assert a[..0] == [];
  }

  // ----- one thread block

  /** The partials of a key row, zero beyond the head dimension, sum to the dot product. */
  lemma {:induction false} SumIsDot(row: seq<real>, key: seq<real>, cells: seq<real>)
    requires |row| == |key| <= |cells|
    requires forall i :: 0 <= i < |cells| ==> cells[i] == if i < |row| then row[i] * key[i] else 0.0
    ensures Sum(cells) == Dot(row, key)
    decreases |cells|
  {
    if cells != [] {
      var n := |cells| - 1;
      if |row| == |cells| {
        SumIsDot(row[..n], key[..n], cells[..n]);
      } else {
        SumIsDot(row, key, cells[..n]);
      }
    }
  }

  lemma LoadsToken(g: Geometry, batch: Batch, b: nat, t: nat, k: nat, d: nat)
    requires Readable(g, batch) && b < batch.blocks && t < batch.validTokens[b] && k < g.kvHeads && d < g.headDim
    ensures Row(g, batch, b, t, k) < batch.Rows(g)
    ensures Finite(batch.scalesK[ScaleAddress(g, batch, Row(g, batch, b, t, k), d)])
    ensures Finite(batch.scalesV[ScaleAddress(g, batch, Row(g, batch, b, t, k), d)])
    ensures Load(g, batch, batch.packedK, batch.scalesK, Row(g, batch, b, t, k), d) == KeyToken(g, batch, b, t)[k][d]
    ensures Load(g, batch, batch.packedV, batch.scalesV, Row(g, batch, b, t, k), d) == ValueToken(g, batch, b, t)[k][d]
  {
    hide Load, Element, Row;
    RowBound(g, batch, b, t, k);
    assert FiniteToken(g, batch, batch.scalesK, b, t) && FiniteToken(g, batch, batch.scalesV, b, t);
    assert FiniteAt(g, batch, batch.scalesK, b, t, k, d);
    assert FiniteAt(g, batch, batch.scalesV, b, t, k, d);
    LoadIsElement(g, batch, batch.packedK, batch.scalesK, Row(g, batch, b, t, k), d);
    LoadIsElement(g, batch, batch.packedV, batch.scalesV, Row(g, batch, b, t, k), d);
  }

  /** A thread's strided partial product; with at least `head_dim` threads, at most one term. */
  method ThreadPartial(g: Geometry, row: seq<real>, batch: Batch, b: nat, t: nat, k: nat, tid: nat, threads: nat)
    returns (partial: real)
    requires Readable(g, batch) && b < batch.blocks && t < batch.validTokens[b] && k < g.kvHeads
    requires |row| == g.headDim <= threads && tid < threads
    ensures partial == if tid < g.headDim then row[tid] * KeyToken(g, batch, b, t)[k][tid] else 0.0
  {
    hide Load, KeyToken, ValueToken, Row;
    partial := 0.0;
    var d := tid;
    while d < g.headDim
      invariant d == tid || (g.headDim <= d && tid < g.headDim)
      invariant partial == if d == tid then 0.0 else row[tid] * KeyToken(g, batch, b, t)[k][tid]
    {
      LoadsToken(g, batch, b, t, k, d);
      partial := partial + row[d] * Load(g, batch, batch.packedK, batch.scalesK, Row(g, batch, b, t, k), d);
      d := d + threads;
    }
  }

  method Partials(g: Geometry, row: seq<real>, batch: Batch, b: nat, t: nat, k: nat, reduce: array<real>)
    requires Readable(g, batch) && b < batch.blocks && t < batch.validTokens[b] && k < g.kvHeads
    requires |row| == g.headDim <= reduce.Length
    modifies reduce
    ensures Sum(reduce[..]) == Dot(row, KeyToken(g, batch, b, t)[k])
  {
    hide Dot, KeyToken, Sum;
    ghost var key := KeyToken(g, batch, b, t)[k];
    for tid := 0 to reduce.Length
      invariant forall i :: 0 <= i < tid ==> reduce[i] == if i < g.headDim then row[i] * key[i] else 0.0
    {
      var partial := ThreadPartial(g, row, batch, b, t, k, tid, reduce.Length);
      reduce[tid] := partial;
    }
    SumIsDot(row, key, reduce[..]);
  }

  /** Thread `tid` rescales its accumulator by state[0] and adds its value element times state[1]. */
  method Accumulate(g: Geometry, batch: Batch, b: nat, t: nat, k: nat, state: array<real>, accumulator: array<real>)
    requires Readable(g, batch) && b < batch.blocks && t < batch.validTokens[b] && k < g.kvHeads
    requires state.Length == 3 && state != accumulator && g.headDim <= accumulator.Length
    modifies accumulator
    ensures forall d :: 0 <= d < g.headDim ==>
              accumulator[d] == old(accumulator[d]) * state[0] + ValueToken(g, batch, b, t)[k][d] * state[1]
  {
    hide Load, KeyToken, ValueToken, Row, FiniteToken, FiniteAt, ScaleAddress;
    ghost var value := ValueToken(g, batch, b, t)[k];
    for tid := 0 to accumulator.Length
      invariant forall d :: 0 <= d < tid && d < g.headDim ==>
                  accumulator[d] == old(accumulator[d]) * state[0] + value[d] * state[1]
      invariant forall d :: tid <= d < accumulator.Length ==> accumulator[d] == old(accumulator[d])
    {
      if tid < g.headDim {
        LoadsToken(g, batch, b, t, k, tid);
        var v := Load(g, batch, batch.packedV, batch.scalesV, Row(g, batch, b, t, k), tid);
        accumulator[tid] := accumulator[tid] * state[0] + v * state[1];
      }
    }
  }

  /** One token: score by tree reduction, the update by thread 0, the accumulators by all threads. */
  method TokenStep(
    E: ExpLog, g: Geometry, row: seq<real>, batch: Batch, b: nat, t: nat, k: nat, scale: real, schedule: Turn -> seq<nat>, h: nat,
    reduce: array<real>, state: array<real>, accumulator: array<real>, runningMax: Extended, runningSum: real)
    returns (nextMax: Extended, nextSum: real)
    requires E.Valid() && Readable(g, batch) && b < batch.blocks && t < batch.validTokens[b]
    requires IsPow2(reduce.Length) && AreOrders(schedule, reduce.Length)
    requires state.Length == 3 && reduce != state && state != accumulator && reduce != accumulator
    requires g.headDim <= reduce.Length
    requires Tracks(E, g, row, KeysUpTo(g, batch, b, t), ValuesUpTo(g, batch, b, t), k, scale,
                    runningMax, runningSum, accumulator[..])
    modifies reduce, state, accumulator
    ensures Tracks(E, g, row, KeysUpTo(g, batch, b, t + 1), ValuesUpTo(g, batch, b, t + 1), k, scale,
                   nextMax, nextSum, accumulator[..])
    ensures state[2] == nextSum
  {
    hide Dot, KeyToken, ValueToken, Sum, IsOrder, IsPow2, Mass, Moment, Scores, Column, Largest, NextMax, Rescale;
    ghost var keys, values, before := KeysUpTo(g, batch, b, t), ValuesUpTo(g, batch, b, t), accumulator[..];
    ghost var key, value := KeyToken(g, batch, b, t), ValueToken(g, batch, b, t);
    Partials(g, row, batch, b, t, k, reduce);
    TreeReduce(reduce, schedule, Turn(h, b, t, 0));
    var score := reduce[0] * scale;
    assert score == Score(row, key[k], scale);
    var next := NextMax(runningMax, score);
    state[0] := Rescale(E, runningMax, next);
    state[1] := E.exp(score - next);
    nextSum := state[0] * runningSum + state[1];
    nextMax := Real(next);
    state[2] := nextSum;
    assert accumulator[..] == before;
    Accumulate(g, batch, b, t, k, state, accumulator);
    TracksStep(E, g, row, keys, values, k, scale, runningMax, runningSum, before, key, value, nextSum, accumulator[..]);
  }

  /** The threads of one block over the valid tokens of block `b`, as many as the clipped count says. */
  method BlockLoop(
    E: ExpLog, g: Geometry, row: seq<real>, batch: Batch, b: nat, k: nat, scale: real, schedule: Turn -> seq<nat>, h: nat,
    reduce: array<real>, state: array<real>, accumulator: array<real>, maxBefore: Extended, sumBefore: real)
    returns (runningMax: Extended, runningSum: real)
    requires E.Valid() && Launchable(g, batch) && b < batch.blocks
    requires IsPow2(reduce.Length) && AreOrders(schedule, reduce.Length)
    requires state.Length == 3 && reduce != state && state != accumulator && reduce != accumulator
    requires g.headDim <= reduce.Length
    requires Tracks(E, g, row, KeysUpTo(g, Clip(batch), b, 0), ValuesUpTo(g, Clip(batch), b, 0), k, scale,
                    maxBefore, sumBefore, accumulator[..])
    requires KeysUpTo(g, Clip(batch), b, 0) != [] ==> state[2] == sumBefore
    modifies reduce, state, accumulator
    ensures var t := Clip(batch).validTokens[b];
            && Tracks(E, g, row, KeysUpTo(g, Clip(batch), b, t), ValuesUpTo(g, Clip(batch), b, t), k, scale,
                      runningMax, runningSum, accumulator[..])
            && (KeysUpTo(g, Clip(batch), b, t) != [] ==> state[2] == runningSum)
  {
    hide AreOrders, IsPow2, Tracks, KeyToken, ValueToken, FiniteToken, KeysUpTo, ValuesUpTo;
    runningMax, runningSum := maxBefore, sumBefore;
    var t := 0;
    while t < batch.validTokens[b]
      invariant t <= Clip(batch).validTokens[b]
      invariant Tracks(E, g, row, KeysUpTo(g, Clip(batch), b, t), ValuesUpTo(g, Clip(batch), b, t), k, scale,
                       runningMax, runningSum, accumulator[..])
      invariant KeysUpTo(g, Clip(batch), b, t) != [] ==> state[2] == runningSum
    {
      runningMax, runningSum :=
        TokenStep(E, g, row, Clip(batch), b, t, k, scale, schedule, h, reduce, state, accumulator, runningMax, runningSum);
      t := t + 1;
    }
  }

  /** The threads of one block over every valid token of the batch: query head `h`. */
  method KernelLoop(
    E: ExpLog, g: Geometry, row: seq<real>, batch: Batch, k: nat, scale: real, schedule: Turn -> seq<nat>, h: nat,
    reduce: array<real>, state: array<real>, accumulator: array<real>)
    returns (runningMax: Extended, runningSum: real)
    requires E.Valid() && Launchable(g, batch)
    requires |row| == g.headDim && k < g.kvHeads
    requires IsPow2(reduce.Length) && AreOrders(schedule, reduce.Length)
    requires state.Length == 3 && reduce != state && state != accumulator && reduce != accumulator
    requires g.headDim <= reduce.Length && g.headDim <= accumulator.Length
    requires forall d :: 0 <= d < g.headDim ==> accumulator[d] == 0.0
    modifies reduce, state, accumulator
    ensures Tracks(E, g, row, BatchKeys(g, Clip(batch)), BatchValues(g, Clip(batch)), k, scale, runningMax, runningSum, accumulator[..])
    ensures BatchKeys(g, Clip(batch)) != [] ==> state[2] == runningSum
  {
    hide AreOrders, IsPow2, Mass, Moment, Largest, KeyToken, ValueToken, FiniteToken, Scores, Column;
    ghost var turns := Clip(batch);
    runningMax, runningSum := NegativeInfinity, 0.0;
    for b := 0 to batch.blocks
      invariant Tracks(E, g, row, KeysUpTo(g, turns, b, 0), ValuesUpTo(g, turns, b, 0), k, scale,
                       runningMax, runningSum, accumulator[..])
      invariant KeysUpTo(g, turns, b, 0) != [] ==> state[2] == runningSum
    {
      runningMax, runningSum :=
        BlockLoop(E, g, row, batch, b, k, scale, schedule, h, reduce, state, accumulator, runningMax, runningSum);
    }
  }

  // ----- the launch

  /** The flat address of output element [h, d]. */
  function Cell(g: Geometry, h: nat, d: nat): (i: nat)
    requires h < g.queryHeads && d < g.headDim
    ensures i < g.queryHeads * g.headDim
  {
    Flat(h, g.queryHeads, d, g.headDim);
    h * g.headDim + d
  }

  lemma CellsApart(g: Geometry, h: nat, d: nat, i: nat, e: nat)
    requires h < g.queryHeads && d < g.headDim && i < g.queryHeads && e < g.headDim
    requires Cell(g, h, d) == Cell(g, i, e)
    ensures h == i && d == e
  {
    Flat(h, g.queryHeads, d, g.headDim);
    Flat(i, g.queryHeads, e, g.headDim);
  }

  /** output[qh * head_dim + tid] = out_acc / state[2] */
  method StoreHead(g: Geometry, h: nat, total: real, accumulator: array<real>, output: array<real>)
    requires g.Valid() && h < g.queryHeads && total != 0.0
    requires g.headDim <= accumulator.Length && output.Length == g.queryHeads * g.headDim && output != accumulator
    modifies output
    ensures forall d :: 0 <= d < g.headDim ==> output[Cell(g, h, d)] == accumulator[d] / total
    ensures forall i, d :: 0 <= i < g.queryHeads && 0 <= d < g.headDim && i != h ==>
              output[Cell(g, i, d)] == old(output[Cell(g, i, d)])
  {
    hide Cell;
    for tid := 0 to g.headDim
      invariant forall d :: 0 <= d < tid ==> output[Cell(g, h, d)] == accumulator[d] / total
      invariant forall i, d :: 0 <= i < g.queryHeads && 0 <= d < g.headDim && i != h ==>
                  output[Cell(g, i, d)] == old(output[Cell(g, i, d)])
    {
      forall i, d | 0 <= i < g.queryHeads && 0 <= d < g.headDim && Cell(g, i, d) == Cell(g, h, tid)
        ensures i == h && d == tid
      {
        CellsApart(g, i, d, h, tid);
      }
      output[Cell(g, h, tid)] := accumulator[tid] / total;
    }
  }

  /** Row `h` of the output and the log-sum-exp of head `h` are those of `p`. */
  ghost predicate HeadStored(g: Geometry, output: seq<real>, lse: seq<Extended>, p: Partial, h: nat)
    requires IsPartial(p, g) && h < g.queryHeads && |output| == g.queryHeads * g.headDim && |lse| == g.queryHeads
  {
    lse[h] == Real(p.lse[h]) && forall d :: 0 <= d < g.headDim ==> output[Cell(g, h, d)] == p.output[h][d]
  }

  /** Shapes that pass the launch checks, finite scales of the valid tokens, and no count beyond the memory of its block. */
  ghost predicate Launchable(g: Geometry, batch: Batch) {
    batch.Valid(g) && Readable(g, Clip(batch)) && forall b :: 0 <= b < |batch.validTokens| ==> batch.validTokens[b] <= batch.tokens
  }

  /** Row `h` gets values that are not known: the quotient of zero and a cell that was never written. */
  method StoreUnknown(g: Geometry, h: nat, output: array<real>)
    requires g.Valid() && h < g.queryHeads && output.Length == g.queryHeads * g.headDim
    modifies output
    ensures forall i, d :: 0 <= i < g.queryHeads && 0 <= d < g.headDim && i != h ==>
              output[Cell(g, i, d)] == old(output[Cell(g, i, d)])
  {
    hide Cell;
    for tid := 0 to g.headDim
      invariant forall i, d :: 0 <= i < g.queryHeads && 0 <= d < g.headDim && i != h ==>
                  output[Cell(g, i, d)] == old(output[Cell(g, i, d)])
    {
      forall i, d | 0 <= i < g.queryHeads && 0 <= d < g.headDim && Cell(g, i, d) == Cell(g, h, tid)
        ensures i == h
      {
        CellsApart(g, i, d, h, tid);
      }
      var unknown: real := *;
      output[Cell(g, h, tid)] := unknown;
    }
  }

  /** What head `h` holds after the launch: the reference over the valid tokens, or -INFINITY when there are none. */
  ghost predicate HeadResult(
    E: ExpLog, g: Geometry, query: seq<seq<real>>, batch: Batch, scale: real, output: seq<real>, lse: seq<Extended>, h: nat)
    requires E.Valid() && g.Valid() && g.IsQuery(query) && Readable(g, batch)
    requires h < g.queryHeads && |output| == g.queryHeads * g.headDim && |lse| == g.queryHeads
  {
    if BatchKeys(g, batch) == [] then lse[h] == NegativeInfinity
    else HeadStored(g, output, lse, BatchReference(E, g, query, batch, scale), h)
  }

  /** The block of query head `h`: it stores that head's row and log-sum-exp, and nothing else. */
  method KernelBlock(
    E: ExpLog, g: Geometry, query: seq<seq<real>>, batch: Batch, scale: real, h: nat,
    threads: nat, schedule: Turn -> seq<nat>, output: array<real>, lse: array<Extended>)
    requires E.Valid() && g.Valid() && g.IsQuery(query) && Launchable(g, batch) && h < g.queryHeads
    requires g.headDim <= threads && IsPow2(threads) && AreOrders(schedule, threads)
    requires output.Length == g.queryHeads * g.headDim && lse.Length == g.queryHeads
    modifies output, lse
    ensures HeadResult(E, g, query, Clip(batch), scale, output[..], lse[..], h)
    ensures forall i :: 0 <= i < g.queryHeads && i != h ==> lse[i] == old(lse[i])
    ensures forall i, d :: 0 <= i < g.queryHeads && 0 <= d < g.headDim && i != h ==>
              output[Cell(g, i, d)] == old(output[Cell(g, i, d)])
  {
    hide Cell, AreOrders, IsPow2, Mass, Moment, Largest, KeysUpTo, ValuesUpTo, Scores, Column, Reference, BatchKeys, BatchValues;
    var reduce := new real[threads];
    var state := new real[3];
    var accumulator := new real[threads](i => 0.0);
    var runningMax, runningSum :=
      KernelLoop(E, g, query[h], batch, g.KvHead(h), scale, schedule, h, reduce, state, accumulator);
    if runningMax.Real? {
      TracksFinal(E, g, query, BatchKeys(g, Clip(batch)), BatchValues(g, Clip(batch)), scale, h, runningMax, runningSum, accumulator[..]);
      StoreHead(g, h, state[2], accumulator, output);
      lse[h] := Real(runningMax.value + E.log(runningSum));
    } else {
      StoreUnknown(g, h, output);
      lse[h] := NegativeInfinity;
    }
  }

  lemma OtherHead(
    E: ExpLog, g: Geometry, query: seq<seq<real>>, batch: Batch, scale: real,
    before: seq<real>, lseBefore: seq<Extended>, after: seq<real>, lseAfter: seq<Extended>, i: nat)
    requires E.Valid() && g.Valid() && g.IsQuery(query) && Readable(g, batch) && i < g.queryHeads
    requires |before| == |after| == g.queryHeads * g.headDim && |lseBefore| == |lseAfter| == g.queryHeads
    requires HeadResult(E, g, query, batch, scale, before, lseBefore, i) && lseAfter[i] == lseBefore[i]
    requires forall d :: 0 <= d < g.headDim ==> after[Cell(g, i, d)] == before[Cell(g, i, d)]
    ensures HeadResult(E, g, query, batch, scale, after, lseAfter, i)
  {
    hide Cell, Reference, BatchKeys, BatchValues;
  }

  /**
   `fused_decode_cuda`: one thread block per query head. A count below zero gives no tokens; without any valid token the
   log-sum-exp is -INFINITY and the output is not determined.
  */
  method Run(E: ExpLog, g: Geometry, query: seq<seq<real>>, batch: Batch, scale: real, schedule: nat -> Turn -> seq<nat>)
    returns (output: array<real>, lse: array<Extended>)
    requires E.Valid() && g.Valid() && g.IsQuery(query) && Launchable(g, batch) && g.headDim <= 256
    requires forall threads :: AreOrders(schedule(threads), threads)
    ensures output.Length == g.queryHeads * g.headDim && lse.Length == g.queryHeads
    ensures forall h :: 0 <= h < g.queryHeads ==> HeadResult(E, g, query, Clip(batch), scale, output[..], lse[..], h)
  {
    hide HeadResult, AreOrders, IsPow2, Cell, Readable;
    var threads := ThreadCount(g.headDim);
    output := new real[g.queryHeads * g.headDim];
    lse := new Extended[g.queryHeads](_ => NegativeInfinity);
    for h := 0 to g.queryHeads
      invariant forall i :: 0 <= i < h ==> HeadResult(E, g, query, Clip(batch), scale, output[..], lse[..], i)
    {
      ghost var before, lseBefore := output[..], lse[..];
      KernelBlock(E, g, query, batch, scale, h, threads, schedule(threads), output, lse);
      forall i | 0 <= i < h
        ensures HeadResult(E, g, query, Clip(batch), scale, output[..], lse[..], i)
      {
        OtherHead(E, g, query, Clip(batch), scale, before, lseBefore, output[..], lse[..], i);
      }
    }
  }
}
