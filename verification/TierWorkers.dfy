/** What the tier manager's worker threads run: `_store_job` and `_load_job`, item by item over the shared disk. */
module TierWorkers {
  import opened Bytes
  import opened RecordPaths
  import opened AtomicWriter
  import A = AtomicStore
  import T = TierJobs
  import M = TierManager
  import Quant
  import V = VllmCodec

  /** How the manager was configured, and where its records go. */
  datatype Settings = Settings(tier: T.Config, floats: V.Floats, bits: nat, groupSize: nat, dtype: V.Dtype) {
    ghost predicate Valid() {
      floats.Valid() && V.Configured(bits, groupSize)
    }
  }

  function PathOf(c: T.Config, key: T.Key): Result<Path, PathError> {
    RecordPath(c.root, key, c.namespace)
  }

  lemma PathIsFinal(c: T.Config, key: T.Key)
    requires key in c.keys && PathOf(c, key).Ok?
    ensures PathOf(c, key).value in c.Finals()
  {
    hide RecordPath;
  }

  function Count(keys: seq<T.Key>, blocks: seq<nat>): (n: nat)
    ensures n <= |keys| && n <= |blocks|
  {
    if |keys| <= |blocks| then |keys| else |blocks|
  }

  /** No temporary of this thread is left over at any record path. */
  ghost predicate NothingLeftOver(disk: Disk, w: nat, files: map<Path, A.File>)
    reads disk
    requires w < |disk.writers|
  {
    forall p :: p in disk.finals && p != [] ==> Temporary(p, disk.writers[w].pid, disk.writers[w].thread) !in files
  }

  /**
   `_store_job`: encode each block and store it. `faults` are the exceptions that strike the stores. When it returns,
   every key that was paired with a block has a record; and it does return unless a key is short, a block cannot be
   encoded, an exception strikes, or a dead process of the same name has left a temporary behind.
  */
  method StoreJob(
    x: Settings, disk: Disk, w: nat, keys: seq<T.Key>, blocks: seq<nat>, views: nat -> seq<Byte>, faults: nat -> Fault)
    returns (ok: bool)
    requires x.Valid() && disk.Valid() && disk.finals == x.tier.Finals()
    requires w < |disk.writers| && disk.writers[w].phase.Idle?
    requires forall key :: key in keys ==> key in x.tier.keys
    modifies disk
    ensures disk.Valid() && |disk.writers| == |old(disk.writers)| && disk.writers[w].phase.Idle?
    ensures ok ==> T.CanEnd(x.tier, disk.View(), T.Store(keys, blocks), T.Returned)
    ensures ok ==> forall i :: 0 <= i < Count(keys, blocks) ==>
              var encoded := V.Encode(x.floats, views(blocks[i]), x.bits, x.groupSize, x.dtype);
              && PathOf(x.tier, keys[i]).Ok? && encoded.Ok? && (PathOf(x.tier, keys[i]).value, encoded.value) in disk.offered
              && !faults(i).EarlyFault?
    ensures (&& NothingLeftOver(disk, w, old(disk.files))
             && forall i :: 0 <= i < Count(keys, blocks) ==>
                  && PathOf(x.tier, keys[i]).Ok? && faults(i).NoFault?
                  && V.Encode(x.floats, views(blocks[i]), x.bits, x.groupSize, x.dtype).Ok?) ==> ok
    ensures NothingLeftOver(disk, w, old(disk.files)) ==> NothingLeftOver(disk, w, disk.files)
  {
    hide V.Encode, RecordPath, Temporary, A.Inv, A.AreFinals, A.Apply;
    for i := 0 to Count(keys, blocks)
      invariant disk.Valid() && |disk.writers| == |old(disk.writers)| && disk.writers[w].phase.Idle?
      invariant disk.writers[w].pid == old(disk.writers[w].pid) && disk.writers[w].thread == old(disk.writers[w].thread)
      invariant NothingLeftOver(disk, w, old(disk.files)) ==> NothingLeftOver(disk, w, disk.files)
      invariant forall j :: 0 <= j < i ==> PathOf(x.tier, keys[j]).Ok? && PathOf(x.tier, keys[j]).value in disk.finals
      invariant forall j :: 0 <= j < i ==> PathOf(x.tier, keys[j]).value in disk.files
      invariant forall j :: 0 <= j < i ==>
                  var encoded := V.Encode(x.floats, views(blocks[j]), x.bits, x.groupSize, x.dtype);
                  encoded.Ok? && (PathOf(x.tier, keys[j]).value, encoded.value) in disk.offered && !faults(j).EarlyFault?
    {
      var path := PathOf(x.tier, keys[i]);
      if path.Err? {
        return false;
      }
      var record := V.Encode(x.floats, views(blocks[i]), x.bits, x.groupSize, x.dtype);
      if record.Err? {
        return false;
      }
      PathIsFinal(x.tier, keys[i]);
      var stored, reached := disk.StoreRecordAtomic(w, path.value, record.value, faults(i));
      if !stored {
        return false;
      }
    }
    ok := true;
  }

  /** The bytes are the decoding of one whole record that was offered for the key. */
  ghost predicate Decodes(x: Settings, offered: set<(Path, seq<Byte>)>, key: T.Key, bytes: seq<Byte>)
    requires x.Valid()
  {
    PathOf(x.tier, key).Ok? &&
    exists record :: (PathOf(x.tier, key).value, record) in offered && V.Decoded(x.floats, record, |bytes|) == Ok(bytes)
  }

  /** Every record offered for the key decodes into a destination of this length. */
  ghost predicate OffersDecode(x: Settings, offered: set<(Path, seq<Byte>)>, key: T.Key, length: nat)
    requires x.Valid()
  {
    && PathOf(x.tier, key).Ok?
    && forall record :: (PathOf(x.tier, key).value, record) in offered ==> V.Decoded(x.floats, record, length).Ok?
  }

  /**
   read_bytes() and `decode_vllm_block` of one item; `unreadable` says that reading an existing file raises. The item
   loads whenever the record was there at the start, can be read, and whatever was offered for the key decodes.
  */
  method LoadOne(x: Settings, disk: Disk, w: nat, key: T.Key, destination: array<Byte>, unreadable: bool) returns (ok: bool)
    requires x.Valid() && disk.Valid() && disk.finals == x.tier.Finals() && w < |disk.writers| && key in x.tier.keys
    modifies disk, destination
    ensures disk.Valid() && |disk.writers| == |old(disk.writers)| && old(disk.offered) <= disk.offered
    ensures !ok ==> destination[..] == old(destination[..])
    ensures ok ==> !unreadable && T.CanEnd(x.tier, disk.View(), T.Load([key], [0]), T.Returned)
    ensures ok ==> Decodes(x, disk.offered, key, destination[..])
    ensures (&& !unreadable && OffersDecode(x, disk.offered, key, destination.Length)
             && PathOf(x.tier, key).Ok? && PathOf(x.tier, key).value in old(disk.files)) ==> ok
    ensures forall p :: p in disk.finals && p in old(disk.files) ==> p in disk.files
  {
    hide V.Decoded, RecordPath, A.Inv, A.AreFinals;
    disk.Others(w);
    var path := PathOf(x.tier, key);
    if path.Ok? {
      PathIsFinal(x.tier, key);
    }
    if path.Err? || path.value !in disk.files || unreadable {
      return false;
    }
    FilledIsWhole(disk.finals, disk.View(), path.value);
    var raw := disk.files[path.value].content;
    var parsed := V.Decode(x.floats, raw, destination);
    ok := parsed.Ok?;
    if ok {
      assert (path.value, raw) in disk.offered && V.Decoded(x.floats, raw, |destination[..]|) == Ok(destination[..]);
    }
  }

  ghost function Contents(memory: seq<array<Byte>>): (contents: seq<seq<Byte>>)
    reads memory
    ensures |contents| == |memory| && forall b :: 0 <= b < |memory| ==> contents[b] == memory[b][..]
  {
    seq(|memory|, b requires 0 <= b < |memory| reads memory => memory[b][..])
  }

  /** Each of the first `count` destinations that is not named again holds the decoding of a record of its key. */
  ghost predicate Settled(
    x: Settings, offered: set<(Path, seq<Byte>)>, keys: seq<T.Key>, blocks: seq<nat>, count: nat, contents: seq<seq<Byte>>)
    requires x.Valid() && count <= |keys| && count <= |blocks|
    requires forall i :: 0 <= i < |blocks| ==> blocks[i] < |contents|
  {
    forall i :: 0 <= i < count && blocks[i] !in blocks[i + 1..count] ==> Decodes(x, offered, keys[i], contents[blocks[i]])
  }

  /**
   `_load_job`: when it returns, every paired key was present, and every destination whose block number does not come
   again holds the decoding of a whole record of its key; destinations that are not named are not written. It does
   return when every record was there at the start and can be read, and all that was offered for the keys decodes.
  */
  method LoadJob(
    x: Settings, disk: Disk, w: nat, keys: seq<T.Key>, blocks: seq<nat>, memory: seq<array<Byte>>, unreadable: nat -> bool)
    returns (ok: bool)
    requires x.Valid() && disk.Valid() && disk.finals == x.tier.Finals() && w < |disk.writers|
    requires forall key :: key in keys ==> key in x.tier.keys
    requires forall i :: 0 <= i < |blocks| ==> blocks[i] < |memory|
    requires forall i, j :: 0 <= i < j < |memory| ==> memory[i] != memory[j]
    modifies disk, memory
    ensures disk.Valid() && old(disk.offered) <= disk.offered
    ensures ok ==> forall i :: 0 <= i < |keys| && i < |blocks| ==>
              PathOf(x.tier, keys[i]).Ok? && PathOf(x.tier, keys[i]).value in disk.files
    ensures ok ==> Settled(x, disk.offered, keys, blocks, Count(keys, blocks), Contents(memory))
    ensures (forall i :: 0 <= i < Count(keys, blocks) ==>
               && !unreadable(i) && OffersDecode(x, disk.offered, keys[i], memory[blocks[i]].Length)
               && PathOf(x.tier, keys[i]).Ok? && PathOf(x.tier, keys[i]).value in old(disk.files)) ==> ok
    ensures forall b :: 0 <= b < |memory| && b !in blocks ==> memory[b][..] == old(memory[b][..])
  {
    hide V.Decoded, RecordPath, A.Inv, A.AreFinals, Settled, OffersDecode, Decodes;
    NothingSettled(x, disk.offered, keys, blocks, Contents(memory));
    for i := 0 to Count(keys, blocks)
      invariant disk.Valid() && |disk.writers| == |old(disk.writers)| && old(disk.offered) <= disk.offered
      invariant forall j :: 0 <= j < i ==> PathOf(x.tier, keys[j]).Ok? && PathOf(x.tier, keys[j]).value in disk.finals
      invariant forall j :: 0 <= j < i ==> PathOf(x.tier, keys[j]).value in disk.files
      invariant forall p :: p in disk.finals && p in old(disk.files) ==> p in disk.files
      invariant Settled(x, disk.offered, keys, blocks, i, Contents(memory))
      invariant forall b :: 0 <= b < |memory| && b !in blocks ==> memory[b][..] == old(memory[b][..])
    {
      ghost var offered, before := disk.offered, Contents(memory);
      if PathOf(x.tier, keys[i]).Ok? {
        PathIsFinal(x.tier, keys[i]);
      }
      var loaded := LoadOne(x, disk, w, keys[i], memory[blocks[i]], unreadable(i));
      if !loaded {
        return false;
      }
      PresentPath(x.tier, disk.View(), keys[i]);
      assert Contents(memory) == before[blocks[i] := memory[blocks[i]][..]];
      SettledNext(x, offered, disk.offered, keys, blocks, i, before, memory[blocks[i]][..]);
    }
    ok := true;
  }

  /** What the only destination of a one-item job holds. */
  lemma OneSettled(
    x: Settings, offered: set<(Path, seq<Byte>)>, key: T.Key, b: nat, contents: seq<seq<Byte>>, view: seq<Byte>)
    requires x.Valid() && b < |contents| && Settled(x, offered, [key], [b], 1, contents) && |contents[b]| == |view|
    requires PathOf(x.tier, key).Ok? && M.OffersEncode(x.tier, offered, key, x.floats, view, x.bits, x.groupSize, x.dtype)
    requires V.Encode(x.floats, view, x.bits, x.groupSize, x.dtype).Ok?
    ensures V.Decoded(x.floats, V.Encode(x.floats, view, x.bits, x.groupSize, x.dtype).value, |view|) == Ok(contents[b])
  {
    hide V.Decoded, V.Encode, RecordPath;
    assert [b][0] !in [b][1..1];
    assert Decodes(x, offered, [key][0], contents[[b][0]]);
  }

  lemma OfferedDecodes(
    x: Settings, offered: set<(Path, seq<Byte>)>, key: T.Key, view: seq<Byte>, items: seq<real>, record: seq<Byte>)
    requires x.Valid() && PathOf(x.tier, key).Ok? && (PathOf(x.tier, key).value, record) in offered
    requires M.OffersEncode(x.tier, offered, key, x.floats, view, x.bits, x.groupSize, x.dtype)
    requires V.AreItems(x.floats, view, x.dtype, items)
    ensures V.Encode(x.floats, view, x.bits, x.groupSize, x.dtype) == Ok(record)
    ensures OffersDecode(x, offered, key, |view|)
    ensures Quant.Quantizable(items, x.bits, x.groupSize) && V.Decoded(x.floats, record, |view|).Ok?
    ensures V.HoldsStored(x.floats, x.dtype, items, x.bits, x.groupSize, V.Decoded(x.floats, record, |view|).value)
  {
    hide V.Decoded, V.Encode, RecordPath, V.HoldsStored, V.AreItems, Quant.Quantizable;
    V.DecodedItems(x.floats, view, x.bits, x.groupSize, x.dtype, items);
  }

  /**
   A hit, any run of the manager, its workers and other writers, and then a load of the key: if equal keys mean equal
   blocks, and the file can be read, the load returns and leaves the stored block's items, restored and in order, in the
   destination.
  */
  method LoadAfterHit(
    x: Settings, disk: Disk, w: nat, key: T.Key, b: nat, memory: seq<array<Byte>>, ghost view: seq<Byte>, ghost items: seq<real>,
    ghost s: T.State, ghost request: nat, ghost actions: seq<T.Action>)
    returns (ok: bool)
    requires x.Valid() && disk.Valid() && disk.finals == x.tier.Finals() && w < |disk.writers|
    requires T.Inv(x.tier, s) && key in x.tier.keys && T.Answer(s, request, key).Hit?
    requires T.Run(x.tier, s, actions).Some? && disk.View() == T.Run(x.tier, s, actions).value.disk
    requires b < |memory| && memory[b].Length == |view| && forall i, j :: 0 <= i < j < |memory| ==> memory[i] != memory[j]
    requires V.AreItems(x.floats, view, x.dtype, items)
    modifies disk, memory
    ensures disk.Valid() && PathOf(x.tier, key).Ok?
    ensures M.OffersEncode(x.tier, disk.offered, key, x.floats, view, x.bits, x.groupSize, x.dtype) ==>
              && ok && Quant.Quantizable(items, x.bits, x.groupSize)
              && V.HoldsStored(x.floats, x.dtype, items, x.bits, x.groupSize, memory[b][..])
  {
    hide V.Decoded, V.Encode, RecordPath, A.Inv, A.AreFinals, Settled, OffersDecode, V.HoldsStored,
         V.AreItems, Quant.Quantizable, T.Inv, T.Run, T.Answer, Decodes, M.OffersEncode;
    T.HitStaysSound(x.tier, s, request, key, actions);
    ghost var record := disk.files[PathOf(x.tier, key).value].content;
    ok := LoadJob(x, disk, w, [key], [b], memory, _ => false);
    if M.OffersEncode(x.tier, disk.offered, key, x.floats, view, x.bits, x.groupSize, x.dtype) {
      OfferedDecodes(x, disk.offered, key, view, items, record);
      assert ok;
      OneSettled(x, disk.offered, key, b, Contents(memory), view);
    }
  }

  lemma NothingSettled(x: Settings, offered: set<(Path, seq<Byte>)>, keys: seq<T.Key>, blocks: seq<nat>, contents: seq<seq<Byte>>)
    requires x.Valid() && forall i :: 0 <= i < |blocks| ==> blocks[i] < |contents|
    ensures Settled(x, offered, keys, blocks, 0, contents)
  {
  }

  lemma SettledNext(
    x: Settings, before: set<(Path, seq<Byte>)>, after: set<(Path, seq<Byte>)>, keys: seq<T.Key>, blocks: seq<nat>, i: nat,
    contents: seq<seq<Byte>>, bytes: seq<Byte>)
    requires x.Valid() && i < |keys| && i < |blocks| && forall j :: 0 <= j < |blocks| ==> blocks[j] < |contents|
    requires Settled(x, before, keys, blocks, i, contents) && before <= after && Decodes(x, after, keys[i], bytes)
    ensures Settled(x, after, keys, blocks, i + 1, contents[blocks[i] := bytes])
  {
    hide Decodes;
    forall j | 0 <= j < i + 1 && blocks[j] !in blocks[j + 1..i + 1]
      ensures Decodes(x, after, keys[j], contents[blocks[i] := bytes][blocks[j]])
    {
      if j < i {
        assert blocks[j + 1..i + 1] == blocks[j + 1..i] + [blocks[i]];
        DecodesLater(x, before, after, keys[j], contents[blocks[j]]);
      }
    }
  }

  lemma DecodesLater(x: Settings, before: set<(Path, seq<Byte>)>, after: set<(Path, seq<Byte>)>, key: T.Key, bytes: seq<Byte>)
    requires x.Valid() && Decodes(x, before, key, bytes) && before <= after
    ensures Decodes(x, after, key, bytes)
  {
    hide V.Decoded, RecordPath;
  }

  lemma PresentPath(c: T.Config, s: A.State, key: T.Key)
    requires key in c.keys && T.CanEnd(c, s, T.Load([key], [0]), T.Returned)
    ensures PathOf(c, key).Ok? && PathOf(c, key).value in s.files && PathOf(c, key).value in c.Finals()
  {
    hide RecordPath;
    assert key in T.Zipped(T.Load([key], [0]));
  }
}
