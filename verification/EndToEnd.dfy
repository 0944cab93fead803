/**
 `KVSSDPipeline.decode` over a store that `create` wrote: selection, prefetch, staging, attention and merging together
 compute plain attention over the quantized-then-restored tokens of the selected blocks.
*/
module EndToEnd {
  import opened Bytes
  import opened Format
  import opened Exponential
  import opened Attention
  import opened Staging
  import opened Store
  import opened StoreReading
  import opened StoreTokens
  import opened StoreLoading
  import opened Selectors
  import opened Backends
  import Pipeline
  import FusedDecode
  import L = Loader
  import O = LoaderObject
  import S = Streams

  datatype DecodeError = BadSelector | NoBlocks | Unsupported(error: BackendError)

  /** A cache of tensors, the store `create` made of them, and a decode step over them. */
  datatype Setting = Setting(
    E: ExpLog, g: Geometry, keys: Cache, values: Cache, tokens: nat, spec: Spec, file: seq<Byte>, entries: seq<Entry>)
  {
    ghost predicate Valid() {
      && IsStoreOf(keys, values, tokens, spec, file, entries)
      && InRangeCache(keys, spec) && InRangeCache(values, spec)
      && E.Valid() && Fits(g, spec)
    }
  }

  /** The next requests of the loader are these blocks of the layer. */
  ghost predicate Serves(c: L.Config, first: nat, x: Setting, layer: nat, ids: seq<nat>)
    requires x.spec.Valid()
  {
    first + |ids| <= |c.records| && forall i :: 0 <= i < |ids| ==> Requests(c, first + i, x.spec, x.file, x.entries, layer, ids[i])
  }

  /** Blocks of the store hold tokens, and restore to tokens of the cache. */
  lemma StoredBlocks(x: Setting, layer: nat, ids: seq<nat>)
    requires x.Valid() && layer < x.spec.layers && IsSelection(ids, x.tokens, x.spec)
    ensures var blocks := BlocksOf(x.keys, x.values, x.tokens, x.spec, layer, ids);
            && Stackable(blocks, x.spec) && Pipeline.Occupied(blocks)
            && KeysOf(blocks, x.spec) == Selected(RestoredTokens(x.keys[layer], x.spec), x.spec, ids)
            && ValuesOf(blocks, x.spec) == Selected(RestoredTokens(x.values[layer], x.spec), x.spec, ids)
  {
    hide Stackable, KeysOf, ValuesOf, Selected, RestoredTokens, BlockTensor, Holds, ValidTokens, BlockCount;
    TokensOfBlocks(x.keys, x.values, x.tokens, x.spec, layer, ids);
  }

  lemma LoadedNext(x: Setting, layer: nat, ids: seq<nat>, n: nat)
    requires x.Valid() && layer < x.spec.layers && IsSelection(ids, x.tokens, x.spec) && n < |ids|
    ensures IsSelection(ids[..n], x.tokens, x.spec) && IsSelection(ids[..n + 1], x.tokens, x.spec)
    ensures BlocksOf(x.keys, x.values, x.tokens, x.spec, layer, ids[..n + 1])
         == BlocksOf(x.keys, x.values, x.tokens, x.spec, layer, ids[..n]) + [BlockOf(x.keys, x.values, x.tokens, x.spec, layer, ids[n])]
  {
    hide BlockOf, Holds, BlockCount;
    assert ids[..n + 1] == ids[..n] + [ids[n]];
  }

  /** One yielded block, from its slices and its manifest entry. */
  method AssembleOne(x: Setting, layer: nat, b: nat, c: L.Config, i: nat, parts: seq<Option<seq<Byte>>>) returns (block: PackedBlock)
    requires x.Valid() && layer < x.spec.layers && b < BlockCount(x.tokens, x.spec)
    requires Requests(c, i, x.spec, x.file, x.entries, layer, b)
    requires |c.records[i]| == c.size && parts == L.Detach(c, c.records[i])
    ensures block == BlockOf(x.keys, x.values, x.tokens, x.spec, layer, b)
  {
    hide L.Detach, IsStoreOf, InRangeCache, Requests, Assembled, Lookup, BlockCount, BlockOf, DecodeRecord, L.Config.Valid;
    LoadedBlock(x.keys, x.values, x.tokens, x.spec, x.file, x.entries, layer, b, c, i);
    var entry := Lookup(x.entries, layer, b).value;
    block := Assembled(x.spec, layer, b, entry.validTokens, parts);
  }

  lemma Drained(c: L.Config, s: L.State, slots: seq<nat>)
    requires L.Inv(c, s, slots) && s.control.Idle? && slots != [] && |s.stream| <= s.executed
    ensures |s.out| == s.end <= |c.records|
    ensures forall i :: 0 <= i < |s.out| ==> |c.records[i]| == c.size && s.out[i] == L.Detach(c, c.records[i])
  {
    hide L.Detach, L.Yields, L.Owned;
    L.Exhausted(c, s, slots);
  }

  lemma NoBlocksOf(x: Setting, layer: nat)
    requires x.Valid() && layer < x.spec.layers
    ensures IsSelection([], x.tokens, x.spec) && BlocksOf(x.keys, x.values, x.tokens, x.spec, layer, []) == []
  {
  }

  /** The tensors over what the loader has yielded for these requests. */
  method Assemble(x: Setting, layer: nat, ids: seq<nat>, c: L.Config, first: nat, out: seq<seq<Option<seq<Byte>>>>)
    returns (blocks: seq<PackedBlock>)
    requires x.Valid() && layer < x.spec.layers && IsSelection(ids, x.tokens, x.spec) && Serves(c, first, x, layer, ids)
    requires first + |ids| <= |out| <= |c.records|
    requires forall i :: 0 <= i < |out| ==> |c.records[i]| == c.size && c.Valid() && out[i] == L.Detach(c, c.records[i])
    ensures blocks == BlocksOf(x.keys, x.values, x.tokens, x.spec, layer, ids)
  {
    hide L.Detach, Holds, BlocksOf, BlockCount, InRangeCache, Requests, BlockOf, L.Config.Valid, ExpLog.Valid, Fits;
    blocks := [];
    NoBlocksOf(x, layer);
    for n := 0 to |ids|
      invariant IsSelection(ids[..n], x.tokens, x.spec)
      invariant blocks == BlocksOf(x.keys, x.values, x.tokens, x.spec, layer, ids[..n])
    {
      LoadedNext(x, layer, ids, n);
      var block := AssembleOne(x, layer, ids[n], c, first + n, out[first + n]);
      blocks := blocks + [block];
    }
    assert ids[..|ids|] == ids;
  }

  /** Prefetch the selected blocks, let the stream run, and take what the loader has yielded. */
  method Load(x: Setting, layer: nat, ids: seq<nat>, loader: O.AsyncBlockLoader) returns (blocks: seq<PackedBlock>)
    requires x.Valid() && layer < x.spec.layers && IsSelection(ids, x.tokens, x.spec)
    requires loader.Valid() && loader.control.Idle? && loader.slots != [] && Serves(loader.config, loader.end, x, layer, ids)
    modifies loader
    ensures loader.Valid() && loader.control.Idle? && loader.end == old(loader.end) + |ids|
    ensures blocks == BlocksOf(x.keys, x.values, x.tokens, x.spec, layer, ids)
  {
    hide L.Inv, L.Detach, IsStoreOf, InRangeCache, BlocksOf, Requests, IsSelection;
    var first := loader.end;
    loader.IterBlocks(|ids|);
    loader.Synchronize(|loader.stream|);
    Drained(loader.config, loader.View(), loader.slots);
    blocks := Assemble(x, layer, ids, loader.config, first, loader.out);
  }

  /** Plain attention over what the selected blocks of the cached layer restore to. */
  ghost predicate IsAttentionOf(x: Setting, query: seq<seq<real>>, layer: nat, ids: seq<nat>, scale: real, p: Partial)
    requires x.Valid() && layer < x.spec.layers && IsSelection(ids, x.tokens, x.spec)
  {
    var keys := Selected(RestoredTokens(x.keys[layer], x.spec), x.spec, ids);
    var values := Selected(RestoredTokens(x.values[layer], x.spec), x.spec, ids);
    && keys != [] && WellShaped(x.E, x.g, query, keys, values)
    && p == Reference(x.E, x.g, query, keys, values, scale)
  }

  /**
   What a decode step's answer is, element by element: query head r of the group of KV head k weighs the values of that
   KV head by the softmax of its scaled dot products with the keys of that KV head.
  */
  lemma AttentionElement(
    x: Setting, query: seq<seq<real>>, layer: nat, ids: seq<nat>, scale: real, p: Partial, k: nat, r: nat, d: nat,
    keys: seq<Token>, values: seq<Token>, s: seq<real>, c: seq<real>)
    requires x.Valid() && layer < x.spec.layers && IsSelection(ids, x.tokens, x.spec)
    requires IsAttentionOf(x, query, layer, ids, scale, p)
    requires keys == Selected(RestoredTokens(x.keys[layer], x.spec), x.spec, ids)
    requires values == Selected(RestoredTokens(x.values[layer], x.spec), x.spec, ids)
    requires x.g.AreTokens(keys) && x.g.AreTokens(values) && x.g.IsQuery(query) && x.g.Valid()
    requires k < x.g.kvHeads && r < x.g.queryHeads / x.g.kvHeads && d < x.g.headDim && k * (x.g.queryHeads / x.g.kvHeads) + r < |query|
    requires |s| == |keys| && forall t :: 0 <= t < |s| ==> s[t] == Dot(query[k * (x.g.queryHeads / x.g.kvHeads) + r], keys[t][k]) * scale
    requires |c| == |values| && forall t :: 0 <= t < |c| ==> c[t] == values[t][k][d]
    ensures var h := k * (x.g.queryHeads / x.g.kvHeads) + r;
            && s != [] && h < |p.output| && d < |p.output[h]| && h < |p.lse|
            && p.output[h][d] == Dot(Softmax(x.E, s), c) && p.lse[h] == LogSumExp(x.E, s)
  {
    hide *;
    AttentionIs(x, query, layer, ids, scale, p);
    HeadElement(x.E, x.g, query, keys, values, scale, k, r, d, s, c);
    PartialSizes(x.g, p, k * (x.g.queryHeads / x.g.kvHeads) + r, d);
  }

  lemma AttentionIs(x: Setting, query: seq<seq<real>>, layer: nat, ids: seq<nat>, scale: real, p: Partial)
    requires x.Valid() && layer < x.spec.layers && IsSelection(ids, x.tokens, x.spec)
    requires IsAttentionOf(x, query, layer, ids, scale, p)
    ensures var keys := Selected(RestoredTokens(x.keys[layer], x.spec), x.spec, ids);
            var values := Selected(RestoredTokens(x.values[layer], x.spec), x.spec, ids);
            && keys != [] && WellShaped(x.E, x.g, query, keys, values)
            && p == Reference(x.E, x.g, query, keys, values, scale) && IsPartial(p, x.g)
  {
    hide Selected, RestoredTokens, IsSelection, Reference, WellShaped;
  }

  lemma PartialSizes(g: Geometry, p: Partial, h: nat, d: nat)
    requires IsPartial(p, g) && h < g.queryHeads && d < g.headDim
    ensures h < |p.output| && d < |p.output[h]| && h < |p.lse|
  {
  }

  lemma AttentionOfBlocks(x: Setting, query: seq<seq<real>>, layer: nat, ids: seq<nat>, scale: real)
    requires x.Valid() && layer < x.spec.layers && IsSelection(ids, x.tokens, x.spec) && x.g.IsQuery(query) && ids != []
    ensures var blocks := BlocksOf(x.keys, x.values, x.tokens, x.spec, layer, ids);
            && Pipeline.Attends(x.E, x.g, query, blocks, x.spec)
            && IsAttentionOf(x, query, layer, ids, scale, Pipeline.AttentionOver(x.E, x.g, query, blocks, x.spec, scale))
  {
    hide Stackable, KeysOf, ValuesOf, Selected, RestoredTokens, BlockOf, Holds, Reference, IsSelection, Pipeline.Occupied;
    StoredBlocks(x, layer, ids);
    Pipeline.BackendReference(x.E, x.g, query, BlocksOf(x.keys, x.values, x.tokens, x.spec, layer, ids), x.spec, scale);
  }

  /**
   Decoding any non-empty choice of blocks, in any order and with repetitions: for every number of slots, stage size,
   backend, worker schedule and thread order the result is plain attention over the restored tokens they stand for.
  */
  method DecodeBlocks(
    x: Setting, query: seq<seq<real>>, layer: nat, ids: seq<nat>, loader: O.AsyncBlockLoader, stageBlocks: nat, scale: real,
    backend: Backend, streamed: bool, schedules: nat -> nat -> FusedDecode.Turn -> seq<nat>)
    returns (r: Result<Partial, DecodeError>)
    requires x.Valid() && x.g.IsQuery(query) && layer < x.spec.layers && IsSelection(ids, x.tokens, x.spec)
    requires loader.Valid() && loader.control.Idle? && loader.slots != [] && Serves(loader.config, loader.end, x, layer, ids)
    requires 0 < stageBlocks
    requires forall n, threads :: FusedDecode.AreOrders(schedules(n)(threads), threads)
    modifies loader
    ensures loader.Valid() && loader.control.Idle?
    ensures r.Ok? <==> ids != [] && (backend.Portable? || x.g.headDim <= 256)
    ensures r == Err(NoBlocks) <==> ids == []
    ensures r != Err(BadSelector)
    ensures r.Ok? ==> IsAttentionOf(x, query, layer, ids, scale, r.value)
  {
    hide L.Inv, Stackable, IsStoreOf, InRangeCache, Selected, RestoredTokens, IsSelection, BlocksOf, Reference, FusedDecode.AreOrders,
         Serves, Pipeline.Attends, Pipeline.AttentionOver, Pipeline.Occupied, Fits, IsAttentionOf;
    if ids == [] {
      return Err(NoBlocks);
    }
    StoredBlocks(x, layer, ids);
    AttentionOfBlocks(x, query, layer, ids, scale);
    var blocks := Load(x, layer, ids, loader);
    if streamed {
      var d := Pipeline.DecodeStreamed(x.E, x.g, query, blocks, x.spec, stageBlocks, scale, backend, schedules);
      r := match d
           case Ok(p) => Ok(p)
           case Err(Unsupported(error)) => Err(Unsupported(error))
           case Err(NoBlocks) => Err(NoBlocks);
    } else {
      var p := Pipeline.RunChunk(x.E, x.g, query, blocks, x.spec, scale, backend, schedules(0));
      r := match p
           case Ok(p) => Ok(p)
           case Err(error) => Err(Unsupported(error));
    }
  }

  lemma SelectionOf(x: Setting, layer: nat, selector: Selector)
    requires x.Valid()
    ensures var available, n := BlocksForLayer(x.entries, layer), BlockCount(x.tokens, x.spec);
            && available == (if layer < x.spec.layers then Range(n) else [])
            && (Select(selector, available).Ok? ==>
                  && IsSelection(Select(selector, available).value, x.tokens, x.spec)
                  && (Select(selector, available).value != [] ==> layer < x.spec.layers))
  {
    hide Holds, BlockCount, BlocksForLayer, Select;
    BlocksAreRange(x.keys, x.values, x.tokens, x.spec, x.file, x.entries, layer);
    var available := BlocksForLayer(x.entries, layer);
    if Select(selector, available).Ok? {
      SelectsAvailable(selector, available);
      var ids := Select(selector, available).value;
      forall i | 0 <= i < |ids|
        ensures ids[i] < BlockCount(x.tokens, x.spec) && layer < x.spec.layers
      {
        assert ids[i] in available;
      }
      assert ids != [] ==> ids[0] < BlockCount(x.tokens, x.spec);
    }
  }

  /** `decode` with one of the built-in selectors. */
  method Decode(
    x: Setting, query: seq<seq<real>>, layer: nat, selector: Selector, loader: O.AsyncBlockLoader, stageBlocks: nat, scale: real,
    backend: Backend, streamed: bool, schedules: nat -> nat -> FusedDecode.Turn -> seq<nat>)
    returns (r: Result<Partial, DecodeError>)
    requires x.Valid() && x.g.IsQuery(query)
    requires loader.Valid() && loader.control.Idle? && loader.slots != []
    requires var ids := Select(selector, BlocksForLayer(x.entries, layer));
             ids.Ok? ==> Serves(loader.config, loader.end, x, layer, ids.value)
    requires 0 < stageBlocks
    requires forall n, threads :: FusedDecode.AreOrders(schedules(n)(threads), threads)
    modifies loader
    ensures loader.Valid() && loader.control.Idle?
    ensures var ids := Select(selector, BlocksForLayer(x.entries, layer));
            && (r == Err(BadSelector) <==> ids.Err?)
            && (r == Err(NoBlocks) <==> ids == Ok([]))
            && (r.Ok? <==> ids.Ok? && ids.value != [] && (backend.Portable? || x.g.headDim <= 256))
            && (r.Ok? ==>
                  && layer < x.spec.layers && IsSelection(ids.value, x.tokens, x.spec)
                  && IsAttentionOf(x, query, layer, ids.value, scale, r.value))
  {
    hide L.Inv, IsStoreOf, InRangeCache, IsSelection, FusedDecode.AreOrders, Serves, Fits, IsAttentionOf, Select, BlocksForLayer;
    var available := BlocksForLayer(x.entries, layer);
    var selected := Select(selector, available);
    SelectionOf(x, layer, selector);
    if selected.Err? {
      return Err(BadSelector);
    }
    if selected.value == [] {
      return Err(NoBlocks);
    }
    r := DecodeBlocks(x, query, layer, selected.value, loader, stageBlocks, scale, backend, streamed, schedules);
  }

  /** With all blocks selected, attention runs over every restored token of the layer, in order. */
  lemma AllBlocksIsWholeLayer(x: Setting, query: seq<seq<real>>, layer: nat, scale: real, p: Partial)
    requires x.Valid() && layer < x.spec.layers
    ensures Select(AllBlocks, BlocksForLayer(x.entries, layer)) == Ok(Range(BlockCount(x.tokens, x.spec)))
    ensures IsSelection(Range(BlockCount(x.tokens, x.spec)), x.tokens, x.spec)
    ensures IsAttentionOf(x, query, layer, Range(BlockCount(x.tokens, x.spec)), scale, p) <==>
              var keys, values := RestoredTokens(x.keys[layer], x.spec), RestoredTokens(x.values[layer], x.spec);
              && keys != [] && WellShaped(x.E, x.g, query, keys, values)
              && p == Reference(x.E, x.g, query, keys, values, scale)
  {
    hide Holds, BlockCount, BlocksForLayer, Reference, Selected, RestoredTokens, IsSelection, Range;
    BlocksAreRange(x.keys, x.values, x.tokens, x.spec, x.file, x.entries, layer);
    EveryBlock(RestoredTokens(x.keys[layer], x.spec), x.spec);
    EveryBlock(RestoredTokens(x.values[layer], x.spec), x.spec);
  }

  /** The chunks that a cut of the loaded blocks gives the streams. */
  function StreamConfig(
    x: Setting, query: seq<seq<real>>, layer: nat, ids: seq<nat>, chunks: seq<seq<PackedBlock>>, scale: real, device: bool)
    : (c: S.Config)
    requires x.Valid() && x.g.IsQuery(query) && layer < x.spec.layers && IsSelection(ids, x.tokens, x.spec)
    requires Joined(chunks) == BlocksOf(x.keys, x.values, x.tokens, x.spec, layer, ids)
    requires chunks != [] && forall i :: 0 <= i < |chunks| ==> chunks[i] != []
    ensures c.Valid() && Pipeline.AreBlockChunks(x.E, x.g, query, chunks, x.spec)
    ensures c.parts == Pipeline.Parts(x.E, x.g, query, chunks, x.spec, scale) && c.E == x.E && c.g == x.g
  {
    StoredBlocks(x, layer, ids);
    S.Config(x.E, x.g, Pipeline.Parts(x.E, x.g, query, chunks, x.spec, scale), device)
  }

  /**
   The three streams of the accelerated path: for any cut of the loaded blocks into non-empty chunks and any schedule,
   when everything has run, what the caller's stream reads is plain attention over the restored tokens.
  */
  lemma EveryStreamSchedule(
    x: Setting, query: seq<seq<real>>, layer: nat, ids: seq<nat>, chunks: seq<seq<PackedBlock>>, scale: real, device: bool,
    actions: seq<S.Action>)
    requires x.Valid() && x.g.IsQuery(query) && layer < x.spec.layers && IsSelection(ids, x.tokens, x.spec)
    requires Joined(chunks) == BlocksOf(x.keys, x.values, x.tokens, x.spec, layer, ids)
    requires chunks != [] && forall i :: 0 <= i < |chunks| ==> chunks[i] != []
    requires var c := StreamConfig(x, query, layer, ids, chunks, scale, device);
             && S.Run(c, actions).Some?
             && var s := S.Run(c, actions).value; s.host.Returned? && s.ranCaller == |s.caller|
    ensures var result := S.Run(StreamConfig(x, query, layer, ids, chunks, scale, device), actions).value.result;
            result.Some? && IsAttentionOf(x, query, layer, ids, scale, result.value)
  {
    hide Stackable, Holds, Reference, IsSelection, BlocksOf, Pipeline.Occupied, Pipeline.Attends, Pipeline.AttentionOver, Fits,
         IsStoreOf, InRangeCache, MergeAll, S.Run, Joined, IsAttentionOf, Pipeline.AreBlockChunks, Pipeline.Parts, StreamConfig;
    var c := StreamConfig(x, query, layer, ids, chunks, scale, device);
    Pipeline.NonEmptyJoined(chunks);
    NoIds(x, layer, ids);
    AttentionOfBlocks(x, query, layer, ids, scale);
    S.ResultOfEverySchedule(c, actions);
    Pipeline.FoldOfChunks(x.E, x.g, query, chunks, x.spec, scale);
  }

  lemma NoIds(x: Setting, layer: nat, ids: seq<nat>)
    requires x.Valid() && layer < x.spec.layers && IsSelection(ids, x.tokens, x.spec)
    ensures ids == [] ==> BlocksOf(x.keys, x.values, x.tokens, x.spec, layer, ids) == []
  {
  }
}
