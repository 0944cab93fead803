/** `KVSSDPipeline`: chunks of loaded blocks are staged, attended over one by one, and merged. */
module Pipeline {
  import opened Bytes
  import opened Indexing
  import opened Quant
  import opened Format
  import opened Exponential
  import opened Attention
  import opened Batches
  import opened Staging
  import opened Backends
  import FusedDecode

  // ----- chunking

  /** `_chunks`: runs of `size` blocks, the last one possibly shorter, that concatenate to the source. */
  method Chunks<T>(source: seq<T>, size: nat) returns (chunks: seq<seq<T>>)
    requires 0 < size
    ensures Joined(chunks) == source
    ensures forall i :: 0 <= i < |chunks| ==> 0 < |chunks[i]| <= size && (i + 1 < |chunks| ==> |chunks[i]| == size)
  {
    chunks := [];
    var chunk: seq<T> := [];
    for k := 0 to |source|
      invariant Joined(chunks) + chunk == source[..k]
      invariant |chunk| < size
      invariant forall i :: 0 <= i < |chunks| ==> |chunks[i]| == size
    {
      chunk := chunk + [source[k]];
      assert Joined(chunks) + chunk == source[..k + 1];
      if |chunk| == size {
        JoinedOf(chunks, chunk);
        chunks := chunks + [chunk];
        chunk := [];
      }
    }
    assert source[..|source|] == source;
    if chunk != [] {
      JoinedOf(chunks, chunk);
      chunks := chunks + [chunk];
    }
  }

  // ----- staging on the host

  /** host[index].copy_(part) */
  method CopyInto<T>(part: seq<T>, host: array<T>, at: nat)
    requires at + |part| <= host.Length
    modifies host
    ensures host[..at] == old(host[..at]) && host[at..at + |part|] == part
  {
    for j := 0 to |part|
      invariant host[..at] == old(host[..at]) && host[at..at + j] == part[..j]
    {
      host[at + j] := part[j];
    }
  }

  /** One pinned buffer: the parts of all blocks, one after the other. */
  method Coalesce<T(0)>(parts: seq<seq<T>>, size: nat) returns (host: array<T>)
    requires forall i :: 0 <= i < |parts| ==> |parts[i]| == size
    ensures fresh(host) && host[..] == Joined(parts)
  {
    hide Offset, Joined;
    host := new T[Offset(|parts|, size)];
    NoOffset(size);
    JoinedEmpty<T>();
    for index := 0 to |parts|
      invariant Offset(index, size) <= host.Length
      invariant host[..Offset(index, size)] == Joined(parts[..index])
    {
      var at := Offset(index, size);
      OffsetInside(index, |parts|, size);
      NextOffset(index, size);
      CopyInto(parts[index], host, at);
      assert parts[..index + 1] == parts[..index] + [parts[index]];
      JoinedOf(parts[..index], parts[index]);
      assert host[..at + size] == host[..at] + host[at..at + size];
    }
    assert parts[..|parts|] == parts;
    assert host[..host.Length] == host[..];
  }

  lemma JoinedEmpty<T>()
    ensures Joined<T>([]) == []
  {
  }

  /** `_stage`: fill the four host buffers block by block; the batch is what the transfer brings to the device. */
  method Stage(blocks: seq<PackedBlock>, spec: Spec) returns (batch: Batch)
    requires Stackable(blocks, spec)
    ensures batch == Stack(blocks, spec)
  {
    hide Spec.PackedDim, Spec.Groups, Joined, Quantized.Valid, Quantized.FiniteScales;
    var keyData, valueData := KeyData(blocks), ValueData(blocks);
    var count := |blocks|;
    var packedK := Coalesce(seq(count, i requires 0 <= i < count => keyData[i].packed), spec.PackedCount());
    var packedV := Coalesce(seq(count, i requires 0 <= i < count => valueData[i].packed), spec.PackedCount());
    var scalesK := Coalesce(seq(count, i requires 0 <= i < count => keyData[i].scales), spec.ScaleCount());
    var scalesV := Coalesce(seq(count, i requires 0 <= i < count => valueData[i].scales), spec.ScaleCount());
    var validTokens := seq(count, i requires 0 <= i < count => blocks[i].validTokens);
    batch := Batch(packedK[..], packedV[..], scalesK[..], scalesV[..], validTokens, count, spec.blockTokens,
                   spec.PackedDim(), spec.Groups(), spec.bits, spec.groupSize);
  }

  // ----- tokens of chunks

  lemma {:induction false} TokensOfConcat(a: seq<PackedBlock>, b: seq<PackedBlock>, spec: Spec)
    requires Stackable(a, spec) && Stackable(b, spec)
    ensures Stackable(a + b, spec)
    ensures KeysOf(a + b, spec) == KeysOf(a, spec) + KeysOf(b, spec)
    ensures ValuesOf(a + b, spec) == ValuesOf(a, spec) + ValuesOf(b, spec)
  {
    hide StackableBlock, RestorableTensor, ValidPrefix;
    assert forall i :: 0 <= i < |a + b| ==> (a + b)[i] == if i < |a| then a[i] else b[i - |a|];
    if b == [] {
      assert a + b == a;
    } else {
      var n := |b| - 1;
      assert (a + b)[..|a + b| - 1] == a + b[..n];
      TokensOfConcat(a, b[..n], spec);
      BlockRestorable(b[n], spec);
    }
  }

  lemma TokensShaped(g: Geometry, blocks: seq<PackedBlock>, spec: Spec)
    requires Stackable(blocks, spec) && Fits(g, spec)
    ensures g.AreTokens(KeysOf(blocks, spec)) && g.AreTokens(ValuesOf(blocks, spec))
    ensures |KeysOf(blocks, spec)| == |ValuesOf(blocks, spec)|
  {
    hide Readable, Stackable, KeysOf, ValuesOf, BatchKeys, BatchValues;
    BatchTokens(g, blocks, spec);
  }

  /** Every block has a valid token. */
  ghost predicate Occupied(blocks: seq<PackedBlock>) {
    forall i :: 0 <= i < |blocks| ==> 1 <= blocks[i].validTokens
  }

  lemma SomeTokens(blocks: seq<PackedBlock>, spec: Spec)
    requires Stackable(blocks, spec) && Occupied(blocks) && blocks != []
    ensures KeysOf(blocks, spec) != []
  {
    hide RestorableTensor, StackableBlock;
    BlockRestorable(blocks[|blocks| - 1], spec);
  }

  /** The backends agree with plain attention over the blocks' valid tokens. */
  lemma BackendReference(E: ExpLog, g: Geometry, query: seq<seq<real>>, blocks: seq<PackedBlock>, spec: Spec, scale: real)
    requires E.Valid() && g.IsQuery(query) && Fits(g, spec) && Stackable(blocks, spec) && Occupied(blocks) && blocks != []
    ensures Runnable(E, g, query, Stack(blocks, spec))
    ensures WellShaped(E, g, query, KeysOf(blocks, spec), ValuesOf(blocks, spec)) && KeysOf(blocks, spec) != []
    ensures BatchReference(E, g, query, Stack(blocks, spec), scale)
         == Reference(E, g, query, KeysOf(blocks, spec), ValuesOf(blocks, spec), scale)
  {
    hide Readable, Stackable, KeysOf, ValuesOf, BatchKeys, BatchValues, Reference;
    BatchTokens(g, blocks, spec);
    TokensShaped(g, blocks, spec);
    SomeTokens(blocks, spec);
  }

  // ----- the streamed decode

  datatype DecodeError = NoBlocks | Unsupported(error: BackendError)

  lemma PartsOfJoined<T>(chunks: seq<seq<T>>, n: nat)
    requires n < |chunks|
    ensures Joined(chunks[..n + 1]) == Joined(chunks[..n]) + chunks[n]
  {
    assert chunks[..n + 1] == chunks[..n] + [chunks[n]];
    JoinedOf(chunks[..n], chunks[n]);
  }

  lemma {:induction false} ElementsOfJoined(chunks: seq<seq<PackedBlock>>, n: nat, spec: Spec)
    requires n <= |chunks| && Stackable(Joined(chunks), spec) && Occupied(Joined(chunks))
    ensures Stackable(Joined(chunks[..n]), spec) && Occupied(Joined(chunks[..n]))
    ensures n < |chunks| ==> Stackable(chunks[n], spec) && Occupied(chunks[n])
    decreases |chunks| - n
  {
    hide Joined, StackableBlock;
    if n == |chunks| {
      assert chunks[..n] == chunks;
    } else {
      ElementsOfJoined(chunks, n + 1, spec);
      PartsOfJoined(chunks, n);
      var all, m := Joined(chunks[..n + 1]), |Joined(chunks[..n])|;
      assert forall i :: 0 <= i < m ==> Joined(chunks[..n])[i] == all[i];
      assert forall i :: 0 <= i < |chunks[n]| ==> chunks[n][i] == all[m + i];
    }
  }

  /** The merged partial after chunk `n`, from the one before it. */
  lemma MergeNext(E: ExpLog, g: Geometry, query: seq<seq<real>>, chunks: seq<seq<PackedBlock>>, n: nat, spec: Spec, scale: real)
    requires E.Valid() && g.IsQuery(query) && Fits(g, spec)
    requires Stackable(Joined(chunks), spec) && Occupied(Joined(chunks))
    requires 0 < n < |chunks| && chunks[n] != [] && Joined(chunks[..n]) != []
    ensures Stackable(Joined(chunks[..n]), spec) && Stackable(Joined(chunks[..n + 1]), spec) && Stackable(chunks[n], spec)
    ensures Joined(chunks[..n + 1]) != []
    ensures Attends(E, g, query, Joined(chunks[..n]), spec) && Attends(E, g, query, chunks[n], spec)
    ensures Attends(E, g, query, Joined(chunks[..n + 1]), spec)
    ensures Merge(E, g, AttentionOver(E, g, query, Joined(chunks[..n]), spec, scale), AttentionOver(E, g, query, chunks[n], spec, scale))
         == AttentionOver(E, g, query, Joined(chunks[..n + 1]), spec, scale)
  {
    hide Reference, Merge, KeysOf, ValuesOf, Stackable, Occupied, BatchReference, Joined, Runnable;
    ElementsOfJoined(chunks, n, spec);
    ElementsOfJoined(chunks, n + 1, spec);
    PartsOfJoined(chunks, n);
    var before, last := Joined(chunks[..n]), chunks[n];
    TokensOfConcat(before, last, spec);
    BackendReference(E, g, query, before, spec, scale);
    BackendReference(E, g, query, last, spec, scale);
    BackendReference(E, g, query, before + last, spec, scale);
    MergeOfReferences(E, g, query, KeysOf(before, spec), ValuesOf(before, spec), KeysOf(last, spec), ValuesOf(last, spec), scale);
  }

  ghost predicate Attends(E: ExpLog, g: Geometry, query: seq<seq<real>>, blocks: seq<PackedBlock>, spec: Spec) {
    && Stackable(blocks, spec) && KeysOf(blocks, spec) != []
    && WellShaped(E, g, query, KeysOf(blocks, spec), ValuesOf(blocks, spec))
  }

  /** Plain softmax attention over the valid tokens of the blocks. */
  function AttentionOver(E: ExpLog, g: Geometry, query: seq<seq<real>>, blocks: seq<PackedBlock>, spec: Spec, scale: real): (p: Partial)
    requires Attends(E, g, query, blocks, spec)
    ensures IsPartial(p, g)
  {
    Reference(E, g, query, KeysOf(blocks, spec), ValuesOf(blocks, spec), scale)
  }

  /** A stacked chunk meets what every backend asks, and all read its counts alike. */
  lemma StackLaunches(g: Geometry, blocks: seq<PackedBlock>, spec: Spec, backend: Backend)
    requires Stackable(blocks, spec) && Fits(g, spec) && Occupied(blocks) && blocks != []
    ensures var batch := Stack(blocks, spec);
            && batch.Valid(g) && batch.FiniteScales() && batch.CountsInside() && FusedDecode.Launchable(g, batch)
            && Shown(backend, batch) == batch && 0 < batch.blocks && 0 < batch.tokens
            && forall b :: 0 <= b < batch.blocks ==> 0 < batch.validTokens[b]
  {
    hide StackableBlock, Batch.Valid, Batch.FiniteScales, JoinData, Clip, Slice;
    StackReadable(g, blocks, spec);
    CountsMadeInside(g, Stack(blocks, spec));
  }

  /** One chunk: stage it and run the backend. */
  method RunChunk(
    E: ExpLog, g: Geometry, query: seq<seq<real>>, blocks: seq<PackedBlock>, spec: Spec, scale: real, backend: Backend,
    schedule: nat -> FusedDecode.Turn -> seq<nat>)
    returns (r: Result<Partial, BackendError>)
    requires E.Valid() && g.IsQuery(query) && Fits(g, spec) && Stackable(blocks, spec) && Occupied(blocks) && blocks != []
    requires forall threads :: FusedDecode.AreOrders(schedule(threads), threads)
    ensures Attends(E, g, query, blocks, spec)
    ensures r.Ok? <==> backend.Portable? || g.headDim <= 256
    ensures r.Ok? ==> r.value == AttentionOver(E, g, query, blocks, spec, scale)
  {
    hide Reference, KeysOf, ValuesOf, BatchReference, FusedDecode.AreOrders, Readable, Stackable, FusedDecode.Launchable, Stack,
         Batch.Valid, Batch.FiniteScales, Batch.CountsInside, Shown, Runnable, Occupied;
    var batch := Stage(blocks, spec);
    StackLaunches(g, blocks, spec, backend);
    BackendReference(E, g, query, blocks, spec, scale);
    var out := Backends.Run(E, g, query, batch, scale, backend, schedule);
    if out.Err? {
      return Err(out.error);
    }
    FiniteAnswer(E, g, query, batch, scale, backend);
    ExactNumbers(g, BatchReference(E, g, query, batch, scale));
    r := Ok(Numbers(g, out.value));
  }

  /**
   `_decode_cuda_streamed`: whatever the stage size, the chunks' results merge to plain attention over the valid
   tokens of all the loaded blocks.
  */
  method DecodeStreamed(
    E: ExpLog, g: Geometry, query: seq<seq<real>>, source: seq<PackedBlock>, spec: Spec, stageBlocks: nat, scale: real,
    backend: Backend, schedules: nat -> nat -> FusedDecode.Turn -> seq<nat>)
    returns (r: Result<Partial, DecodeError>)
    requires E.Valid() && g.IsQuery(query) && Fits(g, spec) && Stackable(source, spec) && Occupied(source)
    requires 0 < stageBlocks
    requires forall n, threads :: FusedDecode.AreOrders(schedules(n)(threads), threads)
    ensures source == [] <==> r == Err(NoBlocks)
    ensures r.Ok? <==> source != [] && (backend.Portable? || g.headDim <= 256)
    ensures r.Ok? ==> Attends(E, g, query, source, spec) && r.value == AttentionOver(E, g, query, source, spec, scale)
  {
    hide Reference, Merge, KeysOf, ValuesOf, Stackable, Occupied, FusedDecode.AreOrders, Joined, AttentionOver, Attends;
    var chunks := Chunks(source, stageBlocks);
    JoinedEmpty<PackedBlock>();
    if chunks == [] {
      return Err(NoBlocks);
    }
    NonEmptyJoined(chunks);
    var merged: Option<Partial>, n := None, 0;
    while n < |chunks|
      invariant n <= |chunks| && (merged.Some? <==> 0 < n)
      invariant 0 < n ==> Joined(chunks[..n]) != [] && Attends(E, g, query, Joined(chunks[..n]), spec)
      invariant 0 < n ==> merged.value == AttentionOver(E, g, query, Joined(chunks[..n]), spec, scale)
      invariant 0 < n ==> backend.Portable? || g.headDim <= 256
    {
      ElementsOfJoined(chunks, n, spec);
      var out := RunChunk(E, g, query, chunks[n], spec, scale, backend, schedules(n));
      if out.Err? {
        return Err(Unsupported(out.error));
      }
      if merged.None? {
        FirstJoined(chunks);
        merged := Some(out.value);
      } else {
        MergeNext(E, g, query, chunks, n, spec, scale);
        merged := Some(Merge(E, g, merged.value, out.value));
      }
      n := n + 1;
    }
    assert chunks[..|chunks|] == chunks;
    r := Ok(merged.value);
  }

  lemma ChunksAttend(E: ExpLog, g: Geometry, query: seq<seq<real>>, chunks: seq<seq<PackedBlock>>, spec: Spec)
    requires AreBlockChunks(E, g, query, chunks, spec)
    ensures forall i :: 0 <= i < |chunks| ==> Attends(E, g, query, chunks[i], spec)
  {
    hide Reference, KeysOf, ValuesOf, Stackable, Occupied, BatchReference, Joined, Runnable;
    forall i | 0 <= i < |chunks|
      ensures Attends(E, g, query, chunks[i], spec)
    {
      ElementsOfJoined(chunks, i, spec);
      BackendReference(E, g, query, chunks[i], spec, 1.0);
    }
  }

  /** Non-empty chunks of blocks with valid tokens, and a query for them. */
  ghost predicate AreBlockChunks(E: ExpLog, g: Geometry, query: seq<seq<real>>, chunks: seq<seq<PackedBlock>>, spec: Spec) {
    && E.Valid() && g.IsQuery(query) && Fits(g, spec)
    && Stackable(Joined(chunks), spec) && Occupied(Joined(chunks))
    && forall i :: 0 <= i < |chunks| ==> chunks[i] != []
  }

  /** The chunks' own results, as the backends give them. */
  function Parts(E: ExpLog, g: Geometry, query: seq<seq<real>>, chunks: seq<seq<PackedBlock>>, spec: Spec, scale: real)
    : (parts: seq<Partial>)
    requires AreBlockChunks(E, g, query, chunks, spec)
    ensures |parts| == |chunks| && forall i :: 0 <= i < |parts| ==> IsPartial(parts[i], g)
  {
    ChunksAttend(E, g, query, chunks, spec);
    seq(|chunks|, i requires 0 <= i < |chunks| => AttentionOver(E, g, query, chunks[i], spec, scale))
  }

  lemma FirstChunks(E: ExpLog, g: Geometry, query: seq<seq<real>>, chunks: seq<seq<PackedBlock>>, spec: Spec, n: nat)
    requires AreBlockChunks(E, g, query, chunks, spec) && n <= |chunks|
    ensures AreBlockChunks(E, g, query, chunks[..n], spec)
  {
    hide Stackable, Occupied, Joined;
    ElementsOfJoined(chunks, n, spec);
  }

  /** However the blocks are cut, the left fold of the chunks' results is attention over all of them. */
  lemma {:induction false} FoldOfFirst(
    E: ExpLog, g: Geometry, query: seq<seq<real>>, chunks: seq<seq<PackedBlock>>, spec: Spec, scale: real, n: nat)
    requires AreBlockChunks(E, g, query, chunks, spec) && 0 < n <= |chunks|
    ensures AreBlockChunks(E, g, query, chunks[..n], spec)
    ensures Joined(chunks[..n]) != [] && Attends(E, g, query, Joined(chunks[..n]), spec)
    ensures MergeAll(E, g, Parts(E, g, query, chunks[..n], spec, scale)) == AttentionOver(E, g, query, Joined(chunks[..n]), spec, scale)
  {
    hide Merge, Stackable, Occupied, Joined, AttentionOver, Attends;
    FirstChunks(E, g, query, chunks, spec, n);
    var parts := Parts(E, g, query, chunks[..n], spec, scale);
    ChunksAttend(E, g, query, chunks, spec);
    if n == 1 {
      FirstJoined(chunks);
      assert parts[0] == AttentionOver(E, g, query, chunks[0], spec, scale);
    } else {
      FoldOfFirst(E, g, query, chunks, spec, scale, n - 1);
      MergeNext(E, g, query, chunks, n - 1, spec, scale);
      assert chunks[..n][..n - 1] == chunks[..n - 1];
      assert parts[..n - 1] == Parts(E, g, query, chunks[..n - 1], spec, scale);
    }
  }

  /** Over all the chunks. */
  lemma FoldOfChunks(E: ExpLog, g: Geometry, query: seq<seq<real>>, chunks: seq<seq<PackedBlock>>, spec: Spec, scale: real)
    requires AreBlockChunks(E, g, query, chunks, spec) && chunks != []
    ensures Attends(E, g, query, Joined(chunks), spec)
    ensures MergeAll(E, g, Parts(E, g, query, chunks, spec, scale)) == AttentionOver(E, g, query, Joined(chunks), spec, scale)
  {
    hide AreBlockChunks, Attends, AttentionOver, Joined, Parts, MergeAll;
    FoldOfFirst(E, g, query, chunks, spec, scale, |chunks|);
    assert chunks[..|chunks|] == chunks;
  }

  lemma FirstJoined<T>(chunks: seq<seq<T>>)
    requires chunks != [] && chunks[0] != []
    ensures Joined(chunks[..1]) == chunks[0]
  {
    assert chunks[..1][..0] == [];
  }

  lemma NonEmptyJoined<T>(chunks: seq<seq<T>>)
    requires chunks != [] && forall i :: 0 <= i < |chunks| ==> chunks[i] != []
    ensures Joined(chunks) != []
  {
  }
}
