/**
 `AsyncBlockLoader`: bounded slots, a FIFO of pending reads, workers that finish in any order, detaching copies and
 reuse events, as a transition system in which the consumer, the workers and the stream interleave.
*/
module Loader {
  import opened Bytes
  import opened Indexing

  /** Payload slices that are detached from each record. */
  const PARTS: nat := 4

  /**
   What a loader works on: the records of every request it will be asked for, in order over all calls, the slices
   a block is made of, and whether the slots are device memory.
  */
  datatype Config = Config(records: seq<seq<Byte>>, size: nat, cuts: seq<(nat, nat)>, device: bool, slots: nat) {
    predicate Valid() {
      && (forall i :: 0 <= i < |records| ==> |records[i]| == size)
      && |cuts| == PARTS
      && forall p :: 0 <= p < PARTS ==> cuts[p].0 <= cuts[p].1 <= size
    }

    function Cut(raw: seq<Byte>, p: nat): seq<Byte>
      requires Valid() && |raw| == size && p < PARTS
    {
      raw[cuts[p].0..cuts[p].1]
    }
  }

  /** A submitted read: its slot and which request it is for. */
  datatype Read = Read(slot: nat, request: nat)

  /** A queued copy of slice `part` out of the slot of read `read`. */
  datatype Clone = Clone(read: nat, part: nat)

  /** Where the generator stands. */
  datatype Control =
    | Idle                                       // no call is active
    | Priming(left: nat)                         // submits of the first loop still to come
    | Looping                                    // at `while pending`
    | Yielded(slot: nat, next: Option<nat>)      // suspended, holding its slot
    | Refilling(request: nat)                    // before the submit after the yield

  datatype State = State(
    free: seq<nat>,                              // the queue of slots
    pending: seq<nat>,                           // reads, oldest first
    taken: nat,                                  // requests taken from the source
    end: nat,                                    // where the requests of this call end
    submitted: seq<Read>,                        // every read ever submitted
    finished: set<nat>,                          // reads whose future is done
    raw: seq<seq<Byte>>,                         // one buffer a slot
    reuse: seq<Option<nat>>,                     // the event of a slot: how much of the stream it waits for
    stream: seq<Clone>, executed: nat,           // the current stream, a FIFO
    out: seq<seq<Option<seq<Byte>>>>,            // the slices of the yielded blocks
    control: Control)

  datatype Action =
    | Start(count: nat)                          // iter_blocks(layer, block_ids), up to its first loop
    | Prime                                      // one submit of the first loop
    | Begin                                      // enter the while loop
    | Take                                       // pop, wait for the future, detach, advance the source, yield
    | Resume                                     // put the slot back
    | Refill                                     // submit the next request
    | Finish                                     // leave the while loop
    | Scribble(read: nat, bytes: seq<Byte>)      // a worker has written part of its record
    | Complete(read: nat)                        // a worker has written all of it
    | Execute                                    // the stream runs its next copy

  function Slots(submitted: seq<Read>, pending: seq<nat>): seq<nat>
    requires forall i :: 0 <= i < |pending| ==> pending[i] < |submitted|
  {
    seq(|pending|, i requires 0 <= i < |pending| => submitted[pending[i]].slot)
  }

  /** `free.get()` returns and `reuse_event.synchronize()` is over. */
  predicate CanSubmit(s: State) {
    && s.free != [] && s.free[0] < |s.reuse|
    && (s.reuse[s.free[0]].Some? ==> s.reuse[s.free[0]].value <= s.executed)
  }

  function Submit(s: State, request: nat): State
    requires CanSubmit(s)
  {
    var slot := s.free[0];
    s.(free := s.free[1..], reuse := s.reuse[slot := None], submitted := s.submitted + [Read(slot, request)],
       pending := s.pending + [|s.submitted|])
  }

  /** The four slices of a slot, copied at once. */
  function Detach(c: Config, raw: seq<Byte>): (parts: seq<Option<seq<Byte>>>)
    requires c.Valid() && |raw| == c.size
    ensures |parts| == PARTS
  {
    seq(PARTS, p requires 0 <= p < PARTS => Some(c.Cut(raw, p)))
  }

  function CloneAll(read: nat): (ops: seq<Clone>)
    ensures |ops| == PARTS
  {
    seq(PARTS, p requires 0 <= p < PARTS => Clone(read, p))
  }

  predicate Enabled(c: Config, s: State, a: Action)
    requires c.Valid()
  {
    match a
    case Start(count) => s.control.Idle? && s.end + count <= |c.records|
    case Prime => s.control.Priming? && 0 < s.control.left && CanSubmit(s)
    case Begin => s.control == Priming(0)
    case Take =>
      && s.control.Looping? && s.pending != [] && s.pending[0] in s.finished && s.pending[0] < |s.submitted|
      && var slot := s.submitted[s.pending[0]].slot; slot < |s.raw| && slot < |s.reuse| && |s.raw[slot]| == c.size
    case Resume => s.control.Yielded?
    case Refill => s.control.Refilling? && CanSubmit(s)
    case Finish => s.control.Looping? && s.pending == []
    case Scribble(j, bytes) => j < |s.submitted| && j !in s.finished && s.submitted[j].slot < |s.raw| && |bytes| == c.size
    case Complete(j) => j < |s.submitted| && j !in s.finished && s.submitted[j].slot < |s.raw| && s.submitted[j].request < |c.records|
    case Execute =>
      && s.executed < |s.stream|
      && var op := s.stream[s.executed];
         && op.read < |s.out| && op.read < |s.submitted| && s.submitted[op.read].slot < |s.raw| && op.part < PARTS
         && |s.raw[s.submitted[op.read].slot]| == c.size && |s.out[op.read]| == PARTS
  }

  function Apply(c: Config, s: State, a: Action): State
    requires c.Valid() && Enabled(c, s, a)
  {
    match a
    case Start(count) =>
      s.(taken := s.end, end := s.end + count, control := Priming(Min(|s.free|, count)))
    case Prime => Submit(s, s.taken).(taken := s.taken + 1, control := Priming(s.control.left - 1))
    case Begin => s.(control := Looping)
    case Take =>
      var j := s.pending[0];
      var slot := s.submitted[j].slot;
      var next := if s.taken < s.end then Some(s.taken) else None;
      var popped := s.(pending := s.pending[1..], taken := if next.Some? then s.taken + 1 else s.taken, control := Yielded(slot, next));
      if c.device then
        popped.(stream := s.stream + CloneAll(j), reuse := s.reuse[slot := Some(|s.stream| + PARTS)],
                out := s.out + [seq(PARTS, _ => None)])
      else
        popped.(out := s.out + [Detach(c, s.raw[slot])])
    case Resume =>
      s.(free := s.free + [s.control.slot], control := if s.control.next.Some? then Refilling(s.control.next.value) else Looping)
    case Refill => Submit(s, s.control.request).(control := Looping)
    case Finish => s.(control := Idle)
    case Scribble(j, bytes) => s.(raw := s.raw[s.submitted[j].slot := bytes])
    case Complete(j) => s.(raw := s.raw[s.submitted[j].slot := c.records[s.submitted[j].request]], finished := s.finished + {j})
    case Execute =>
      var op := s.stream[s.executed];
      s.(executed := s.executed + 1, out := s.out[op.read := s.out[op.read][op.part := Some(c.Cut(s.raw[s.submitted[op.read].slot], op.part))]])
  }

  /** A loader between calls: nothing pending, no copies queued, these slots free. */
  function Fresh(free: seq<nat>, raw: seq<seq<Byte>>): State {
    State(free, [], 0, 0, [], {}, raw, seq(|raw|, _ => None), [], 0, [], Idle)
  }

  ghost predicate IsFresh(c: Config, s: State) {
    && s == Fresh(s.free, s.raw)
    && Distinct(s.free) && |s.raw| == c.slots
    && (forall i :: 0 <= i < |s.free| ==> s.free[i] < c.slots)
    && (forall i :: 0 <= i < |s.raw| ==> |s.raw[i]| == c.size)
  }

  /** The state after a run of actions, if each was enabled in its turn. */
  function Run(c: Config, s: State, actions: seq<Action>): Option<State>
    requires c.Valid()
  {
    if actions == [] then Some(s)
    else
      var before := Run(c, s, actions[..|actions| - 1]);
      var a := actions[|actions| - 1];
      if before.Some? && Enabled(c, before.value, a) then Some(Apply(c, before.value, a)) else None
  }

  // ----- what every reachable state satisfies

  function Held(s: State): seq<nat> {
    if s.control.Yielded? then [s.control.slot] else []
  }

  /** Buffers, events and outputs have their sizes; every slot and read number is one. */
  ghost predicate Shape(c: Config, s: State) {
    && |s.raw| == |s.reuse| == c.slots
    && (forall i :: 0 <= i < |s.raw| ==> |s.raw[i]| == c.size)
    && (forall i :: 0 <= i < |s.submitted| ==> s.submitted[i].slot < c.slots)
    && (forall i :: 0 <= i < |s.free| ==> s.free[i] < c.slots)
    && (forall j :: j in s.finished ==> j < |s.submitted|)
    && (forall i :: 0 <= i < |s.out| ==> |s.out[i]| == PARTS)
    && s.end <= |c.records|
  }

  /** Pending is the next window of the requests, as long as the slots allow. */
  ghost predicate Window(c: Config, s: State, depth: nat) {
    && |s.out| <= |s.submitted| <= s.end
    && (forall i :: 0 <= i < |s.submitted| ==> s.submitted[i].request == i)
    && |s.pending| == |s.submitted| - |s.out|
    && (forall i :: 0 <= i < |s.pending| ==> s.pending[i] == |s.out| + i)
    && (forall j :: 0 <= j < |s.out| ==> j in s.finished)
    && (depth == 0 ==> s.submitted == [])
    && match s.control
       case Idle => s.pending == [] && |s.out| == if depth == 0 then 0 else s.end
       case Priming(left) => (0 < depth ==> s.taken == |s.submitted|) && |s.submitted| + left == Min(s.end, |s.out| + depth)
       case Looping => (0 < depth ==> s.taken == |s.submitted|) && |s.submitted| == Min(s.end, |s.out| + depth)
       case Yielded(slot, next) =>
         && 0 < |s.out| && 0 < depth && slot == s.submitted[|s.out| - 1].slot
         && |s.submitted| == Min(s.end, |s.out| - 1 + depth)
         && next == (if |s.submitted| < s.end then Some(|s.submitted|) else None)
         && s.taken == (if |s.submitted| < s.end then |s.submitted| + 1 else |s.submitted|)
       case Refilling(request) =>
         && 0 < |s.out| && 0 < depth && request == |s.submitted| < s.end && |s.submitted| == |s.out| - 1 + depth
         && s.taken == |s.submitted| + 1 && s.free != []
  }

  /** Every slot the loader started with is in exactly one place. */
  ghost predicate Owned(s: State, slots: seq<nat>)
    requires forall i :: 0 <= i < |s.pending| ==> s.pending[i] < |s.submitted|
  {
    multiset(s.free) + multiset(Slots(s.submitted, s.pending)) + multiset(Held(s)) == multiset(slots)
  }

  /** A pending read's slot waits for no event, and holds its record once the read is finished. */
  ghost predicate Pending(c: Config, s: State)
    requires c.Valid() && Shape(c, s) && |s.submitted| <= |c.records|
  {
    forall j :: |s.out| <= j < |s.submitted| ==>
      && s.reuse[s.submitted[j].slot] == None
      && (j in s.finished ==> s.raw[s.submitted[j].slot] == c.records[j])
  }

  /** Copies run in order; those still to run read buffers that hold the right record and that an event protects. */
  ghost predicate Copies(c: Config, s: State)
    requires c.Valid() && Shape(c, s) && |s.out| <= |s.submitted| <= |c.records|
  {
    && s.executed <= |s.stream|
    && |s.stream| == (if c.device then PARTS * |s.out| else 0)
    && (forall q :: 0 <= q < |s.stream| ==> s.stream[q] == Clone(q / PARTS, q % PARTS))
    && (forall q :: s.executed <= q < |s.stream| ==>
          var slot := s.submitted[q / PARTS].slot;
          s.raw[slot] == c.records[q / PARTS] && s.reuse[slot].Some? && q < s.reuse[slot].value <= |s.stream|)
    && (forall slot :: 0 <= slot < |s.reuse| && s.reuse[slot].Some? ==> s.reuse[slot].value <= |s.stream|)
  }

  /** A slice that has been copied is the record's slice; on the host every slice has been. */
  ghost predicate Yields(c: Config, s: State)
    requires c.Valid() && Shape(c, s) && |s.out| <= |c.records|
  {
    forall i, p :: 0 <= i < |s.out| && 0 <= p < PARTS ==>
      s.out[i][p] == if !c.device || PARTS * i + p < s.executed then Some(c.Cut(c.records[i], p)) else None
  }

  ghost predicate Inv(c: Config, s: State, slots: seq<nat>) {
    && c.Valid() && Shape(c, s) && Window(c, s, |slots|) && Owned(s, slots)
    && Pending(c, s) && Copies(c, s) && Yields(c, s)
  }

  lemma FreshInv(c: Config, s: State)
    requires c.Valid() && IsFresh(c, s)
    ensures Inv(c, s, s.free)
  {
  }

  /** Workers are free: one that has not finished may write anything at any time, and may finish at any time. */
  lemma WorkersAreFree(c: Config, s: State, slots: seq<nat>, j: nat, bytes: seq<Byte>)
    requires Inv(c, s, slots) && |s.out| <= j < |s.submitted| && j !in s.finished && |bytes| == c.size
    ensures Enabled(c, s, Scribble(j, bytes)) && Enabled(c, s, Complete(j))
    ensures var slot := s.submitted[j].slot;
            && slot < |s.raw|
            && Apply(c, s, Scribble(j, bytes)).raw[slot] == bytes
            && j in Apply(c, s, Complete(j)).finished && Apply(c, s, Complete(j)).raw[slot] == c.records[j]
  {
    hide Owned, Copies, Yields;
  }

  // ----- slots are in one place only

  lemma {:induction false} DistinctOnce(s: seq<nat>, x: nat)
    requires Distinct(s)
    ensures multiset(s)[x] <= 1
  {
    if s != [] {
      var n := |s| - 1;
      assert s == s[..n] + [s[n]];
      DistinctOnce(s[..n], x);
    }
  }

  lemma TwicePlaced(s: seq<nat>, i: nat, j: nat)
    requires i < j < |s| && s[i] == s[j]
    ensures multiset(s)[s[i]] >= 2
  {
    assert s == s[..j] + s[j..];
    assert s[..j][i] == s[i] && s[j..][0] == s[j];
  }

  /** No two pending reads share a slot, and none of their slots is free or held by the consumer. */
  ghost predicate Apart(s: State) {
    && (forall i, j :: |s.out| <= i < j < |s.submitted| ==> s.submitted[i].slot != s.submitted[j].slot)
    && (forall j :: |s.out| <= j < |s.submitted| ==> s.submitted[j].slot !in s.free && s.submitted[j].slot !in Held(s))
  }

  lemma SlotsApart(c: Config, s: State, slots: seq<nat>)
    requires c.Valid() && Window(c, s, |slots|) && Owned(s, slots) && Distinct(slots)
    ensures Apart(s)
  {
    var pending, k := Slots(s.submitted, s.pending), |s.out|;
    forall i, j | k <= i < j < |s.submitted|
      ensures s.submitted[i].slot != s.submitted[j].slot
    {
      if s.submitted[i].slot == s.submitted[j].slot {
        assert s.pending[i - k] == i && s.pending[j - k] == j;
        TwicePlaced(pending, i - k, j - k);
        DistinctOnce(slots, pending[i - k]);
        assert false;
      }
    }
    forall j | k <= j < |s.submitted|
      ensures s.submitted[j].slot !in s.free && s.submitted[j].slot !in Held(s)
    {
      assert s.pending[j - k] == j;
      assert pending[j - k] in multiset(pending);
      DistinctOnce(slots, pending[j - k]);
    }
  }

  // ----- every action keeps the invariant

  lemma SlotsOfSubmit(s: State, request: nat)
    requires CanSubmit(s) && forall i :: 0 <= i < |s.pending| ==> s.pending[i] < |s.submitted|
    ensures var t := Submit(s, request);
            && (forall i :: 0 <= i < |t.pending| ==> t.pending[i] < |t.submitted|)
            && Slots(t.submitted, t.pending) == Slots(s.submitted, s.pending) + [s.free[0]]
            && multiset(s.free) == multiset(t.free) + multiset{s.free[0]}
  {
    assert s.free == [s.free[0]] + s.free[1..];
  }

  /** What a submit keeps, whoever calls it. */
  lemma SubmitKeeps(c: Config, s: State, slots: seq<nat>, request: nat)
    requires Inv(c, s, slots) && Distinct(slots) && CanSubmit(s) && |s.submitted| < s.end
    requires !s.control.Yielded?
    ensures var t := Submit(s, request);
            && Shape(c, t) && Pending(c, t) && Copies(c, t) && Yields(c, t)
            && (forall i :: 0 <= i < |t.pending| ==> t.pending[i] < |t.submitted|)
            && multiset(t.free) + multiset(Slots(t.submitted, t.pending)) == multiset(slots)
  {
    hide Config.Cut, Copies, Owned, Pending, Yields;
    SlotsApart(c, s, slots);
    SubmitOwned(c, s, slots, request);
    SubmitPending(c, s, request);
    SubmitCopies(c, s, request);
  }

  lemma SubmitOwned(c: Config, s: State, slots: seq<nat>, request: nat)
    requires Window(c, s, |slots|) && Owned(s, slots) && CanSubmit(s) && !s.control.Yielded?
    ensures var t := Submit(s, request);
            && (forall i :: 0 <= i < |t.pending| ==> t.pending[i] < |t.submitted|)
            && multiset(t.free) + multiset(Slots(t.submitted, t.pending)) == multiset(slots)
  {
    hide Slots;
    SlotsOfSubmit(s, request);
  }

  lemma SubmitPending(c: Config, s: State, request: nat)
    requires c.Valid() && Shape(c, s) && |s.out| <= |s.submitted| < s.end && Pending(c, s) && Yields(c, s)
    requires CanSubmit(s) && Apart(s)
    ensures var t := Submit(s, request); Shape(c, t) && Pending(c, t) && Yields(c, t)
  {
    hide Config.Cut;
  }

  /** The event of the slot has happened, so no copy out of it is still to run. */
  lemma SubmitCopies(c: Config, s: State, request: nat)
    requires c.Valid() && Shape(c, s) && |s.out| <= |s.submitted| < s.end && Copies(c, s) && CanSubmit(s)
    ensures Shape(c, Submit(s, request)) && Copies(c, Submit(s, request))
  {
  }

  lemma PrimeKeeps(c: Config, s: State, slots: seq<nat>)
    requires Inv(c, s, slots) && Distinct(slots) && Enabled(c, s, Prime)
    ensures Inv(c, Apply(c, s, Prime), slots)
  {
    hide Copies, Yields, Pending, Slots;
    SubmitKeeps(c, s, slots, s.taken);
    NoSlots(s, slots);
    QueueMoves(c, Submit(s, s.taken), Apply(c, s, Prime));
  }

  lemma RefillKeeps(c: Config, s: State, slots: seq<nat>)
    requires Inv(c, s, slots) && Distinct(slots) && Enabled(c, s, Refill)
    ensures Inv(c, Apply(c, s, Refill), slots)
  {
    hide Copies, Yields, Pending, Slots;
    SubmitKeeps(c, s, slots, s.control.request);
    QueueMoves(c, Submit(s, s.control.request), Apply(c, s, Refill));
  }

  /** With no slots nothing is free. */
  lemma NoSlots(s: State, slots: seq<nat>)
    requires (forall i :: 0 <= i < |s.pending| ==> s.pending[i] < |s.submitted|) && Owned(s, slots)
    ensures slots == [] ==> s.free == []
    ensures |s.free| + |s.pending| + |Held(s)| == |slots|
  {
    assert |multiset(s.free)| == |s.free|;
    assert |multiset(slots)| == |slots|;
    assert |multiset(s.free) + multiset(Slots(s.submitted, s.pending)) + multiset(Held(s))| == |multiset(slots)|;
  }

  /** The queue, the source and the control do not matter to buffers, events and outputs. */
  lemma QueueMoves(c: Config, s: State, t: State)
    requires c.Valid() && Shape(c, s) && |s.out| <= |s.submitted| <= |c.records|
    requires t == s.(free := t.free, taken := t.taken, end := t.end, control := t.control)
    requires t.end <= |c.records| && forall i :: 0 <= i < |t.free| ==> t.free[i] < c.slots
    ensures Shape(c, t)
    ensures Pending(c, s) ==> Pending(c, t)
    ensures Copies(c, s) ==> Copies(c, t)
    ensures Yields(c, s) ==> Yields(c, t)
  {
    hide Config.Cut;
  }

  lemma TakeWindow(c: Config, s: State, depth: nat)
    requires c.Valid() && Shape(c, s) && Window(c, s, depth) && Enabled(c, s, Take)
    ensures Window(c, Apply(c, s, Take), depth)
  {
    hide Config.Cut, Detach;
  }

  lemma TakeOwned(c: Config, s: State, slots: seq<nat>)
    requires c.Valid() && Shape(c, s) && Window(c, s, |slots|) && Owned(s, slots) && Enabled(c, s, Take)
    ensures var t := Apply(c, s, Take);
            (forall i :: 0 <= i < |t.pending| ==> t.pending[i] < |t.submitted|) && Owned(t, slots)
  {
    hide Config.Cut, Detach;
    var t := Apply(c, s, Take);
    assert Slots(s.submitted, s.pending) == [s.submitted[s.pending[0]].slot] + Slots(t.submitted, t.pending);
  }

  lemma TakeCopies(c: Config, s: State)
    requires c.Valid() && Shape(c, s) && |s.out| < |s.submitted| <= |c.records| && Pending(c, s) && Copies(c, s) && Apart(s)
    requires Enabled(c, s, Take) && s.pending[0] == |s.out|
    ensures Shape(c, Apply(c, s, Take)) && Copies(c, Apply(c, s, Take))
  {
    hide Config.Cut, Detach;
    var t := Apply(c, s, Take);
    forall q | 0 <= q < |t.stream|
      ensures t.stream[q] == Clone(q / PARTS, q % PARTS)
    {
      if |s.stream| <= q {
        assert t.stream[q] == Clone(|s.out|, q - |s.stream|);
      }
    }
  }

  lemma TakeYields(c: Config, s: State)
    requires c.Valid() && Shape(c, s) && |s.out| < |s.submitted| <= |c.records| && Pending(c, s) && Copies(c, s) && Yields(c, s)
    requires Enabled(c, s, Take) && s.pending[0] == |s.out|
    ensures Shape(c, Apply(c, s, Take)) && Yields(c, Apply(c, s, Take))
  {
    hide Config.Cut;
  }

  lemma TakeKeeps(c: Config, s: State, slots: seq<nat>)
    requires Inv(c, s, slots) && Distinct(slots) && Enabled(c, s, Take)
    ensures Inv(c, Apply(c, s, Take), slots)
  {
    hide Config.Cut, Owned, Copies, Yields;
    SlotsApart(c, s, slots);
    TakeWindow(c, s, |slots|);
    TakeOwned(c, s, slots);
    TakeCopies(c, s);
    TakeYields(c, s);
  }

  lemma ResumeKeeps(c: Config, s: State, slots: seq<nat>)
    requires Inv(c, s, slots) && Distinct(slots) && Enabled(c, s, Resume)
    ensures Inv(c, Apply(c, s, Resume), slots)
  {
    hide Config.Cut, Slots, Pending, Copies, Yields;
    assert s.submitted[|s.out| - 1].slot < c.slots;
    QueueMoves(c, s, Apply(c, s, Resume));
  }

  lemma ControlKeeps(c: Config, s: State, slots: seq<nat>, a: Action)
    requires Inv(c, s, slots) && Enabled(c, s, a)
    requires a.Start? || a.Begin? || a.Finish?
    ensures Inv(c, Apply(c, s, a), slots)
  {
    hide Config.Cut, Slots, Pending, Copies, Yields;
    NoSlots(s, slots);
    QueueMoves(c, s, Apply(c, s, a));
  }

  /** A worker touches only the slot of its own unfinished read. */
  lemma WorkerKeeps(c: Config, s: State, slots: seq<nat>, a: Action)
    requires Inv(c, s, slots) && Distinct(slots) && Enabled(c, s, a)
    requires a.Scribble? || a.Complete?
    ensures Inv(c, Apply(c, s, a), slots)
  {
    hide Config.Cut, Slots, Copies, Pending, Apply, Yields, Owned;
    SlotsApart(c, s, slots);
    WorkerPending(c, s, a);
    WorkerCopies(c, s, a);
    WorkerChanges(c, s, a);
    BuffersMove(c, s, Apply(c, s, a), slots);
  }

  /** Buffers and futures do not matter to the window, the slots and the outputs. */
  lemma BuffersMove(c: Config, s: State, t: State, slots: seq<nat>)
    requires c.Valid() && Shape(c, s) && Window(c, s, |slots|) && Owned(s, slots) && Yields(c, s) && Shape(c, t)
    requires s.finished <= t.finished && t == s.(raw := t.raw, finished := t.finished)
    ensures Window(c, t, |slots|) && Owned(t, slots) && Yields(c, t)
  {
    hide Config.Cut, Slots;
  }

  lemma WorkerChanges(c: Config, s: State, a: Action)
    requires c.Valid() && Enabled(c, s, a) && (a.Scribble? || a.Complete?)
    ensures var t := Apply(c, s, a); s.finished <= t.finished <= s.finished + {a.read} && t == s.(raw := t.raw, finished := t.finished)
  {
  }

  lemma WorkerPending(c: Config, s: State, a: Action)
    requires c.Valid() && Shape(c, s) && |s.out| <= |s.submitted| <= |c.records| && Pending(c, s) && Apart(s)
    requires Enabled(c, s, a) && (a.Scribble? || a.Complete?)
    requires forall i :: 0 <= i < |s.submitted| ==> s.submitted[i].request == i
    requires forall j :: 0 <= j < |s.out| ==> j in s.finished
    ensures Shape(c, Apply(c, s, a)) && Pending(c, Apply(c, s, a))
  {
    assert |s.out| <= a.read;
  }

  lemma WorkerCopies(c: Config, s: State, a: Action)
    requires c.Valid() && Shape(c, s) && |s.out| <= |s.submitted| <= |c.records| && Pending(c, s) && Copies(c, s)
    requires Enabled(c, s, a) && (a.Scribble? || a.Complete?)
    requires forall i :: 0 <= i < |s.submitted| ==> s.submitted[i].request == i
    requires forall j :: 0 <= j < |s.out| ==> j in s.finished
    ensures Shape(c, Apply(c, s, a)) && Copies(c, Apply(c, s, a))
  {
    assert |s.out| <= a.read;
  }

  lemma ExecuteYields(c: Config, s: State)
    requires c.Valid() && Shape(c, s) && |s.out| <= |s.submitted| <= |c.records| && Copies(c, s) && Yields(c, s)
    requires Enabled(c, s, Execute)
    ensures Shape(c, Apply(c, s, Execute)) && Yields(c, Apply(c, s, Execute)) && Copies(c, Apply(c, s, Execute))
  {
    hide Config.Cut;
    var t, q := Apply(c, s, Execute), s.executed;
    assert s.stream[q] == Clone(q / PARTS, q % PARTS);
    forall i, p | 0 <= i < |t.out| && 0 <= p < PARTS
      ensures t.out[i][p] == if !c.device || PARTS * i + p < t.executed then Some(c.Cut(c.records[i], p)) else None
    {
      if PARTS * i + p == q {
        assert i == q / PARTS && p == q % PARTS;
      }
    }
  }

  lemma ExecuteKeeps(c: Config, s: State, slots: seq<nat>)
    requires Inv(c, s, slots) && Enabled(c, s, Execute)
    ensures Inv(c, Apply(c, s, Execute), slots)
  {
    hide Config.Cut, Slots, Copies, Yields;
    ExecuteYields(c, s);
  }

  lemma ActionKeeps(c: Config, s: State, slots: seq<nat>, a: Action)
    requires Inv(c, s, slots) && Distinct(slots) && Enabled(c, s, a)
    ensures Inv(c, Apply(c, s, a), slots)
  {
    hide Inv, Enabled, Apply;
    match a
    case Start(_) => ControlKeeps(c, s, slots, a);
    case Prime => PrimeKeeps(c, s, slots);
    case Begin => ControlKeeps(c, s, slots, a);
    case Take => TakeKeeps(c, s, slots);
    case Resume => ResumeKeeps(c, s, slots);
    case Refill => RefillKeeps(c, s, slots);
    case Finish => ControlKeeps(c, s, slots, a);
    case Scribble(_, _) => WorkerKeeps(c, s, slots, a);
    case Complete(_) => WorkerKeeps(c, s, slots, a);
    case Execute => ExecuteKeeps(c, s, slots);
  }

  /** Every state that any interleaving reaches satisfies the invariant. */
  lemma {:induction false} Reachable(c: Config, s: State, actions: seq<Action>)
    requires c.Valid() && IsFresh(c, s) && Run(c, s, actions).Some?
    ensures Inv(c, Run(c, s, actions).value, s.free)
  {
    hide Inv, Enabled, Apply;
    if actions == [] {
      FreshInv(c, s);
    } else {
      Reachable(c, s, actions[..|actions| - 1]);
      ActionKeeps(c, Run(c, s, actions[..|actions| - 1]).value, s.free, actions[|actions| - 1]);
    }
  }

  // ----- what the invariant means for callers

  /** `free.get()` never blocks: when a submit is due, a slot is free. */
  lemma QueueNeverBlocks(c: Config, s: State, slots: seq<nat>)
    requires Inv(c, s, slots)
    requires s.control.Refilling? || (s.control.Priming? && 0 < s.control.left)
    ensures s.free != []
  {
    hide Config.Cut, Slots, Pending, Copies, Yields;
    NoSlots(s, slots);
  }

  /** No two unfinished reads share a buffer, and no queued copy reads a buffer that a pending read may write. */
  lemma NoAliasing(c: Config, s: State, slots: seq<nat>)
    requires Inv(c, s, slots) && Distinct(slots)
    ensures forall i, j :: 0 <= i < j < |s.submitted| && i !in s.finished && j !in s.finished ==>
              s.submitted[i].slot != s.submitted[j].slot
    ensures forall q, j :: s.executed <= q < |s.stream| && |s.out| <= j < |s.submitted| ==>
              s.submitted[s.stream[q].read].slot != s.submitted[j].slot
  {
    hide Config.Cut, Slots, Owned;
    SlotsApart(c, s, slots);
  }

  /**
   Between calls: with at least one slot every request so far has been yielded, with none only the empty request has.
   All slots are back in the queue, and once the stream has run, block `i` is made of record `i`.
  */
  lemma Exhausted(c: Config, s: State, slots: seq<nat>)
    requires Inv(c, s, slots) && s.control.Idle?
    ensures |s.out| == s.end <==> slots != [] || s.end == 0
    ensures slots == [] ==> s.out == []
    ensures multiset(s.free) == multiset(slots)
    ensures s.executed == |s.stream| ==> forall i :: 0 <= i < |s.out| ==> s.out[i] == Detach(c, c.records[i])
  {
    hide Config.Cut;
    if s.executed == |s.stream| {
      forall i | 0 <= i < |s.out|
        ensures s.out[i] == Detach(c, c.records[i])
      {
      }
    }
  }

  /** Without a free slot a call for `count` blocks ends at once, having yielded nothing and raised nothing. */
  lemma NoSlotYieldsNothing(c: Config, raw: seq<seq<Byte>>, count: nat)
    requires c.Valid() && count <= |c.records|
    ensures var s := Fresh([], raw);
            && Run(c, s, [Start(count), Begin, Finish]) == Some(s.(end := count))
            && (0 < count ==> |s.out| != count)
  {
    var s := Fresh([], raw);
    var all := [Start(count), Begin, Finish];
    assert all[..2] == [Start(count), Begin] && [Start(count), Begin][..1] == [Start(count)] && [Start(count)][..0] == [];
    assert Run(c, s, []) == Some(s);
    assert Run(c, s, [Start(count)]) == Some(s.(end := count, control := Priming(0)));
    assert Run(c, s, [Start(count), Begin]) == Some(s.(end := count, control := Looping));
  }

  lemma ActionOnlyAdds(c: Config, s: State, slots: seq<nat>, a: Action)
    requires Inv(c, s, slots) && Enabled(c, s, a)
    ensures |s.out| <= |Apply(c, s, a).out| && s.executed <= Apply(c, s, a).executed
  {
    hide Config.Cut, Detach;
  }

  /** What has been copied into a yielded block never changes, whatever is read into its slot afterwards. */
  lemma {:induction false} YieldedBlocksStay(c: Config, s: State, slots: seq<nat>, actions: seq<Action>, i: nat, p: nat)
    requires Inv(c, s, slots) && Distinct(slots) && Run(c, s, actions).Some?
    ensures Inv(c, Run(c, s, actions).value, slots)
    ensures var t := Run(c, s, actions).value;
            && |s.out| <= |t.out| && s.executed <= t.executed
            && (i < |s.out| && p < PARTS && s.out[i][p].Some? ==> t.out[i][p] == s.out[i][p])
  {
    hide Config.Cut, Enabled, Apply, Owned, Window, Copies, Pending;
    if actions != [] {
      var before, a := actions[..|actions| - 1], actions[|actions| - 1];
      YieldedBlocksStay(c, s, slots, before, i, p);
      ActionKeeps(c, Run(c, s, before).value, slots, a);
      ActionOnlyAdds(c, Run(c, s, before).value, slots, a);
    }
  }

  // ----- progress

  /** What a worker writes part way, or another call, is no progress of this one. */
  predicate Productive(a: Action) {
    !a.Start? && !a.Scribble?
  }

  function Rank(control: Control): int {
    match control
    case Priming(_) => 0
    case Looping => 1
    case Refilling(_) => 1
    case Yielded(_, _) => 0
    case Idle => 2
  }

  /** How many productive actions are left at most. */
  function Remaining(s: State): int {
    8 * s.end + 2 - (|s.submitted| + |s.finished| + 2 * |s.out| + s.executed + Rank(s.control))
  }

  lemma {:induction false} FinishedBound(finished: set<nat>, n: nat)
    requires forall j :: j in finished ==> j < n
    ensures |finished| <= n
  {
    if n == 0 {
      assert finished == {};
    } else {
      FinishedBound(finished - {n - 1}, n - 1);
    }
  }

  lemma EveryActionCounts(c: Config, s: State, slots: seq<nat>, a: Action)
    requires Inv(c, s, slots) && Enabled(c, s, a) && !a.Start?
    ensures 0 <= Remaining(s)
    ensures Remaining(Apply(c, s, a)) == if Productive(a) then Remaining(s) - 1 else Remaining(s)
  {
    hide Config.Cut, Detach, Owned, Pending, Yields;
    FinishedBound(s.finished, |s.submitted|);
  }

  function CountProductive(actions: seq<Action>): nat {
    if actions == [] then 0
    else CountProductive(actions[..|actions| - 1]) + if Productive(actions[|actions| - 1]) then 1 else 0
  }

  /** A call cannot go on forever: its productive actions are bounded. */
  lemma {:induction false} CallsEnd(c: Config, s: State, slots: seq<nat>, actions: seq<Action>)
    requires c.Valid() && Inv(c, s, slots) && Distinct(slots) && Run(c, s, actions).Some?
    requires forall i :: 0 <= i < |actions| ==> !actions[i].Start?
    ensures Inv(c, Run(c, s, actions).value, slots)
    ensures CountProductive(actions) == Remaining(s) - Remaining(Run(c, s, actions).value) <= Remaining(s)
  {
    hide Config.Cut, Enabled, Apply, Inv, Remaining;
    if actions == [] {
      NothingLeft(c, s, slots);
    } else {
      var before, a := actions[..|actions| - 1], actions[|actions| - 1];
      CallsEnd(c, s, slots, before);
      var u := Run(c, s, before).value;
      ActionKeeps(c, u, slots, a);
      EveryActionCounts(c, u, slots, a);
      NothingLeft(c, Apply(c, u, a), slots);
    }
  }

  lemma NothingLeft(c: Config, s: State, slots: seq<nat>)
    requires Inv(c, s, slots)
    ensures 0 <= Remaining(s)
  {
    hide Config.Cut, Owned, Pending, Yields;
    FinishedBound(s.finished, |s.submitted|);
  }

  /** Nor can it get stuck: until it is over, the consumer, a worker or the stream can move. */
  lemma NeverStuck(c: Config, s: State, slots: seq<nat>) returns (a: Action)
    requires Inv(c, s, slots) && !s.control.Idle?
    ensures Productive(a) && Enabled(c, s, a)
  {
    hide Config.Cut, Slots, Yields, Owned;
    if s.executed < |s.stream| {
      a := Execute;
    } else if s.control.Looping? && s.pending != [] {
      var j := s.pending[0];
      a := if j in s.finished then Take else Complete(j);
    } else if s.control.Looping? {
      a := Finish;
    } else if s.control.Yielded? {
      a := Resume;
    } else if s.control == Priming(0) {
      a := Begin;
    } else {
      QueueNeverBlocks(c, s, slots);
      a := if s.control.Priming? then Prime else Refill;
    }
  }
}
