/** The loader as an object: what `iter_blocks` does to its queue, its slots and its futures, step by step. */
module LoaderObject {
  import opened Bytes
  import opened Indexing
  import opened Loader

  /** A block is popped together with its copies; no other thread looks at `pending`. */
  class AsyncBlockLoader {
    const config: Config
    var free: seq<nat>
    var pending: seq<nat>
    var taken: nat
    var end: nat
    var submitted: seq<Read>
    var finished: set<nat>
    var raw: seq<seq<Byte>>
    var reuse: seq<Option<nat>>
    var stream: seq<Clone>
    var executed: nat
    var out: seq<seq<Option<seq<Byte>>>>
    ghost var control: Control
    ghost const slots: seq<nat>

    ghost function View(): State
      reads this
    {
      State(free, pending, taken, end, submitted, finished, raw, reuse, stream, executed, out, control)
    }

    ghost predicate Valid()
      reads this
    {
      config.Valid() && Distinct(slots) && Inv(config, View(), slots)
    }

    constructor (config: Config, depth: nat, buffers: seq<seq<Byte>>)
      requires config.Valid() && 1 <= depth == config.slots == |buffers|
      requires forall i :: 0 <= i < depth ==> |buffers[i]| == config.size
      ensures Valid() && this.config == config && slots == seq(depth, i => i)
      ensures View() == Fresh(slots, buffers)
    {
      this.config := config;
      free, pending, taken, end, submitted, finished := seq(depth, i => i), [], 0, 0, [], {};
      raw, reuse, stream, executed, out := buffers, seq(depth, _ => None), [], 0, [];
      control := Idle;
      slots := seq(depth, i => i);
      new;
      assert View() == Fresh(free, raw);
      FreshInv(config, View());
    }

    /** Workers and the stream move on their own, as much as they like. */
    method Others()
      requires Valid()
      modifies `raw, `finished, `executed, `out
      ensures Valid() && |out| == |old(out)| && old(finished) <= finished && old(executed) <= executed
    {
      hide Inv, Apply, Enabled;
      var turns: nat :| true;
      for turn := 0 to turns
        invariant Valid() && |out| == |old(out)| && old(finished) <= finished && old(executed) <= executed
      {
        var a: Action := *;
        OneOther(a);
      }
    }

    method OneOther(a: Action)
      requires Valid()
      modifies `raw, `finished, `executed, `out
      ensures Valid() && |out| == |old(out)| && old(finished) <= finished && old(executed) <= executed
      ensures View() == if (a.Scribble? || a.Complete? || a.Execute?) && Enabled(config, old(View()), a)
                        then Apply(config, old(View()), a) else old(View())
    {
      hide Owned, Window, Copies, Yields, Pending;
      ghost var before := View();
      match a
      case Scribble(j, bytes) =>
        if j < |submitted| && j !in finished && submitted[j].slot < |raw| && |bytes| == config.size {
          ActionKeeps(config, before, slots, a);
          raw := raw[submitted[j].slot := bytes];
        }
      case Complete(j) =>
        if j < |submitted| && j !in finished && submitted[j].slot < |raw| && submitted[j].request < |config.records| {
          ActionKeeps(config, before, slots, a);
          raw, finished := raw[submitted[j].slot := config.records[submitted[j].request]], finished + {j};
        }
      case Execute =>
        if executed < |stream| && Runs(stream[executed]) {
          ActionKeeps(config, before, slots, a);
          var op := stream[executed];
          out := out[op.read := out[op.read][op.part := Some(config.Cut(raw[submitted[op.read].slot], op.part))]];
          executed := executed + 1;
        }
      case _ =>
    }

    predicate Runs(op: Clone)
      reads this
    {
      && op.read < |out| && op.read < |submitted| && submitted[op.read].slot < |raw| && op.part < PARTS
      && |raw[submitted[op.read].slot]| == config.size && |out[op.read]| == PARTS
    }

    /** `future.result()` */
    method Wait(j: nat)
      requires Valid() && j < |submitted|
      modifies `raw, `finished, `executed, `out
      ensures Valid() && |out| == |old(out)| && j in finished
    {
      hide Inv, Enabled;
      Others();
      if j !in finished {
        WorkerCanFinish(config, View(), slots, j);
        OneOther(Complete(j));
      }
    }

    /** `reuse_event.synchronize()` */
    method Synchronize(event: nat)
      requires Valid() && event <= |stream|
      modifies `raw, `finished, `executed, `out
      ensures Valid() && |out| == |old(out)| && event <= executed
    {
      hide Inv, Enabled;
      while executed < event
        invariant Valid() && |out| == |old(out)|
      {
        Others();
        if executed < event {
          StreamCanRun(config, View(), slots);
          OneOther(Execute);
        }
      }
    }

    /** The local function `submit`: take a slot, wait for its event, submit the read. */
    method Submit(request: nat)
      requires Valid()
      requires (control.Priming? && 0 < control.left && request == taken) || control == Refilling(request)
      modifies `free, `pending, `taken, `submitted, `reuse, `raw, `finished, `executed, `out, `control
      ensures Valid() && |out| == |old(out)|
      ensures control == if old(control).Priming? then Priming(old(control).left - 1) else Looping
    {
      hide Inv, Enabled, Apply;
      QueueNeverBlocks(config, View(), slots);
      FreeSlot(config, View(), slots);
      var slot := free[0];
      if reuse[slot].Some? {
        Synchronize(reuse[slot].value);
      }
      SubmitStep(config, View(), slots, request);
      free := free[1..];
      reuse := reuse[slot := None];
      submitted, pending := submitted + [Read(slot, request)], pending + [|submitted|];
      taken := request + 1;
      control := if control.Priming? then Priming(control.left - 1) else Looping;
    }

    /** The clones of one block: queued behind an event on the device, made at once on the host. */
    method Detach(j: nat)
      requires Valid() && control.Looping? && pending != [] && pending[0] == j && j in finished
      modifies `pending, `taken, `stream, `reuse, `out, `control
      ensures Valid() && |out| == |old(out)| + 1 && control.Yielded? && control.slot == submitted[j].slot
      ensures control.next == if old(taken) < end then Some(old(taken)) else None
    {
      hide Inv;
      ghost var before := View();
      TakeEnabled(config, before, slots);
      ActionKeeps(config, before, slots, Take);
      var slot := submitted[j].slot;
      pending := pending[1..];
      if config.device {
        reuse := reuse[slot := Some(|stream| + PARTS)];
        stream := stream + CloneAll(j);
        out := out + [seq(PARTS, _ => None)];
      } else {
        out := out + [Loader.Detach(config, raw[slot])];
      }
      var next := if taken < end then Some(taken) else None;
      taken := if next.Some? then taken + 1 else taken;
      control := Yielded(slot, next);
      assert View() == Apply(config, before, Take);
    }

    /**
     `iter_blocks`, driven to exhaustion, with workers, stream and consumer running in between: it yields one block
     for every request of the call, and all slots return to the queue.
    */
    method IterBlocks(count: nat)
      requires Valid() && control.Idle? && slots != [] && end + count <= |config.records|
      modifies this
      ensures Valid() && control.Idle? && end == old(end) + count
      ensures old(|out| == end) && |out| == end
      ensures multiset(free) == multiset(slots)
      ensures |config.records| >= |out| && forall i :: 0 <= i < |out| ==> |config.records[i]| == config.size
      ensures executed == |stream| ==> forall i :: 0 <= i < |out| ==> out[i] == Loader.Detach(config, config.records[i])
    {
      hide Inv, Enabled, Apply, Loader.Detach;
      Exhausted(config, View(), slots);
      ControlStep(config, View(), slots, Start(count));
      taken, end := end, end + count;
      var primed := if |free| < count then |free| else count;
      control := Priming(primed);
      for i := 0 to primed
        invariant Valid() && control == Priming(primed - i) && end == old(end) + count && |out| == old(|out|)
      {
        Others();
        Submit(taken);
      }
      ControlStep(config, View(), slots, Begin);
      control := Looping;
      OutBounded(config, View(), slots);
      while pending != []
        invariant Valid() && control.Looping? && end == old(end) + count && |out| <= end
        decreases end - |out|
      {
        YieldNext();
      }
      ControlStep(config, View(), slots, Finish);
      control := Idle;
      Exhausted(config, View(), slots);
      OutRecords(config, View(), slots);
    }

    /** One turn of the loop: wait for the oldest read, detach it, yield, put its slot back, submit the next request. */
    method YieldNext()
      requires Valid() && control.Looping? && pending != []
      modifies `free, `pending, `taken, `submitted, `reuse, `raw, `finished, `stream, `executed, `out, `control
      ensures Valid() && control.Looping? && |out| == old(|out|) + 1 && |out| <= end
    {
      hide Inv, Enabled, Apply;
      var j := pending[0];
      var next := if taken < end then Some(taken) else None;
      ReadsExist(config, View(), slots);
      var slot := submitted[j].slot;
      Wait(j);
      Detach(j);
      Others();
      ResumeStep(config, View(), slots);
      free := free + [slot];
      control := if next.Some? then Refilling(next.value) else Looping;
      if next.Some? {
        Submit(next.value);
      }
      OutBounded(config, View(), slots);
    }
  }

  lemma FreeSlot(c: Config, s: State, slots: seq<nat>)
    requires Inv(c, s, slots) && s.free != []
    ensures s.free[0] < |s.reuse|
    ensures s.reuse[s.free[0]].Some? ==> s.reuse[s.free[0]].value <= |s.stream|
  {
    hide Owned, Yields, Pending, Window;
  }

  lemma SubmitStep(c: Config, s: State, slots: seq<nat>, request: nat)
    requires Inv(c, s, slots) && Distinct(slots) && CanSubmit(s)
    requires (s.control.Priming? && 0 < s.control.left && request == s.taken) || s.control == Refilling(request)
    ensures Inv(c, s.(free := s.free[1..], reuse := s.reuse[s.free[0] := None],
                      submitted := s.submitted + [Read(s.free[0], request)], pending := s.pending + [|s.submitted|],
                      taken := request + 1,
                      control := if s.control.Priming? then Priming(s.control.left - 1) else Looping), slots)
  {
    hide Owned, Copies, Yields, Pending;
    ActionKeeps(c, s, slots, if s.control.Priming? then Prime else Refill);
  }

  lemma TakeEnabled(c: Config, s: State, slots: seq<nat>)
    requires Inv(c, s, slots) && s.control.Looping? && s.pending != [] && s.pending[0] in s.finished
    ensures Enabled(c, s, Take)
  {
    hide Owned, Copies, Yields, Pending;
  }

  lemma ControlStep(c: Config, s: State, slots: seq<nat>, a: Action)
    requires Inv(c, s, slots) && Distinct(slots)
    requires match a
             case Start(count) => s.control.Idle? && s.end + count <= |c.records|
             case Begin => s.control == Priming(0)
             case Finish => s.control.Looping? && s.pending == []
             case _ => false
    ensures Inv(c, match a
                   case Start(count) => s.(taken := s.end, end := s.end + count, control := Priming(Min(|s.free|, count)))
                   case Begin => s.(control := Looping)
                   case _ => s.(control := Idle), slots)
  {
    hide Inv;
    ActionKeeps(c, s, slots, a);
  }

  lemma ResumeStep(c: Config, s: State, slots: seq<nat>)
    requires Inv(c, s, slots) && s.control.Yielded? && Distinct(slots)
    ensures Inv(c, s.(free := s.free + [s.control.slot],
                      control := if s.control.next.Some? then Refilling(s.control.next.value) else Looping), slots)
  {
    hide Inv;
    ActionKeeps(c, s, slots, Resume);
  }

  lemma OutBounded(c: Config, s: State, slots: seq<nat>)
    requires Inv(c, s, slots)
    ensures |s.out| <= s.end
  {
    hide Owned, Copies, Yields, Pending;
  }

  lemma OutRecords(c: Config, s: State, slots: seq<nat>)
    requires Inv(c, s, slots)
    ensures |s.out| <= |c.records| && forall i :: 0 <= i < |c.records| ==> |c.records[i]| == c.size
  {
    hide Owned, Copies, Yields, Pending;
  }

  lemma ReadsExist(c: Config, s: State, slots: seq<nat>)
    requires Inv(c, s, slots)
    ensures forall i :: 0 <= i < |s.pending| ==> s.pending[i] < |s.submitted|
  {
    hide Owned, Copies, Yields, Pending;
  }

  lemma WorkerCanFinish(c: Config, s: State, slots: seq<nat>, j: nat)
    requires Inv(c, s, slots) && j < |s.submitted| && j !in s.finished
    ensures Enabled(c, s, Complete(j))
  {
    hide Owned, Copies, Yields, Pending;
  }

  lemma StreamCanRun(c: Config, s: State, slots: seq<nat>)
    requires Inv(c, s, slots) && s.executed < |s.stream|
    ensures Enabled(c, s, Execute)
  {
    hide Owned, Yields, Pending;
  }
}
