/**
 Stream ordering of the streamed decode: the host issues work to three FIFO streams that run on their own, and events
 are all that orders one stream after another.
*/
module Streams {
  import opened Bytes
  import opened Exponential
  import opened Attention

  datatype Stream = Caller | Transfer | Compute

  datatype Op =
    | Produce                              // whatever the caller's stream computes the query with
    | Clone(chunk: nat)                    // the loader's copies of a chunk's records, for device slots
    | Copy(chunk: nat)                     // coalesce a chunk on the device
    | Kernel(chunk: nat)                   // the backend on a staged chunk
    | Fold(chunk: nat)                     // merge its result; the first result is taken as it is
    | Wait(on: Stream, position: nat)      // wait_event: the other stream has run this far
    | Use                                  // the caller's stream reads the merged result

  /** Where the host program stands. */
  datatype Host = Staging(chunk: nat) | Announcing | Launching(chunk: nat) | Finishing | Returned

  /** What the backend gives for each chunk, and whether chunks come from device slots. */
  datatype Config = Config(E: ExpLog, g: Geometry, parts: seq<Partial>, device: bool) {
    predicate Valid() {
      parts != [] && forall i :: 0 <= i < |parts| ==> IsPartial(parts[i], g)
    }

    /** The position in the transfer stream that chunk `i`'s ready event records. */
    function Ready(i: nat): nat {
      if device then 2 * i + 2 else i + 1
    }
  }

  datatype State = State(
    caller: seq<Op>, transfer: seq<Op>, compute: seq<Op>,      // everything issued, in order
    ranCaller: nat, ranTransfer: nat, ranCompute: nat,         // how much of it has run
    ready: seq<nat>,                                           // the ready event of each staged chunk
    query: bool, payload: set<nat>, staged: set<nat>,          // device memory that holds what it should
    outs: seq<Option<Partial>>, merged: Option<Partial>, result: Option<Partial>,
    host: Host)

  function Queue(s: State, stream: Stream): seq<Op> {
    match stream
    case Caller => s.caller
    case Transfer => s.transfer
    case Compute => s.compute
  }

  function Ran(s: State, stream: Stream): nat {
    match stream
    case Caller => s.ranCaller
    case Transfer => s.ranTransfer
    case Compute => s.ranCompute
  }

  function Initial(c: Config): State {
    State([Produce], [], [], 0, 0, 0, [], false, {}, {}, seq(|c.parts|, _ => None), None, None, Staging(0))
  }

  // ----- the host program

  /** `_stage`: on the device path the transfer stream first waits for the caller's stream. */
  function Stage(c: Config, s: State, chunk: nat): State {
    if c.device then
      s.(caller := s.caller + [Clone(chunk)],
         transfer := s.transfer + [Wait(Caller, |s.caller| + 1), Copy(chunk)],
         ready := s.ready + [|s.transfer| + 2])
    else
      s.(transfer := s.transfer + [Copy(chunk)], ready := s.ready + [|s.transfer| + 1])
  }

  /** One statement group of `_decode_cuda_streamed`. */
  function HostStep(c: Config, s: State): State
    requires !s.host.Returned?
    requires s.host.Launching? ==> s.host.chunk < |s.ready|
  {
    match s.host
    case Staging(chunk) => Stage(c, s, chunk).(host := if chunk == 0 then Announcing else Launching(chunk))
    case Announcing => s.(compute := s.compute + [Wait(Caller, |s.caller|)], host := Launching(0))
    case Launching(chunk) =>
      s.(compute := s.compute + [Wait(Transfer, s.ready[chunk]), Kernel(chunk), Fold(chunk)],
         host := if chunk + 1 < |c.parts| then Staging(chunk + 1) else Finishing)
    case Finishing => s.(caller := s.caller + [Wait(Compute, |s.compute|), Use], host := Returned)
  }

  // ----- the streams

  /** The next operation of a stream can run: every operation but a wait on an event that has not happened. */
  predicate CanRun(c: Config, s: State, stream: Stream) {
    && Ran(s, stream) < |Queue(s, stream)|
    && match Queue(s, stream)[Ran(s, stream)]
       case Wait(on, position) => position <= Ran(s, on)
       case Kernel(chunk) => chunk < |s.outs| == |c.parts|
       case Fold(chunk) => chunk < |s.outs|
       case _ => true
  }

  function Advance(s: State, stream: Stream): State {
    match stream
    case Caller => s.(ranCaller := s.ranCaller + 1)
    case Transfer => s.(ranTransfer := s.ranTransfer + 1)
    case Compute => s.(ranCompute := s.ranCompute + 1)
  }

  function MergeNext(c: Config, merged: Option<Partial>, out: Option<Partial>): (r: Option<Partial>) {
    if merged.Some? && out.Some? && IsPartial(merged.value, c.g) && IsPartial(out.value, c.g)
    then Some(Merge(c.E, c.g, merged.value, out.value)) else None
  }

  /** An operation whose inputs are not there yet leaves garbage, None, behind. */
  function Effect(c: Config, s: State, op: Op): State
    requires op.Kernel? ==> op.chunk < |s.outs| == |c.parts|
    requires op.Fold? ==> op.chunk < |s.outs|
  {
    match op
    case Produce => s.(query := true)
    case Clone(chunk) => s.(payload := s.payload + {chunk})
    case Copy(chunk) => if !c.device || chunk in s.payload then s.(staged := s.staged + {chunk}) else s
    case Kernel(chunk) =>
      s.(outs := s.outs[chunk := if s.query && chunk in s.staged then Some(c.parts[chunk]) else None])
    case Fold(chunk) => s.(merged := if chunk == 0 then s.outs[0] else MergeNext(c, s.merged, s.outs[chunk]))
    case Wait(_, _) => s
    case Use => s.(result := s.merged)
  }

  function RunOp(c: Config, s: State, stream: Stream): State
    requires CanRun(c, s, stream)
  {
    Advance(Effect(c, s, Queue(s, stream)[Ran(s, stream)]), stream)
  }

  datatype Action = Issue | Execute(stream: Stream)

  predicate Enabled(c: Config, s: State, a: Action) {
    match a
    case Issue => !s.host.Returned? && (s.host.Launching? ==> s.host.chunk < |s.ready|)
    case Execute(stream) => CanRun(c, s, stream)
  }

  function Apply(c: Config, s: State, a: Action): State
    requires Enabled(c, s, a)
  {
    match a
    case Issue => HostStep(c, s)
    case Execute(stream) => RunOp(c, s, stream)
  }

  /** The state after a schedule, if each action was enabled in its turn. */
  function Run(c: Config, actions: seq<Action>): Option<State> {
    if actions == [] then Some(Initial(c))
    else
      var before, a := Run(c, actions[..|actions| - 1]), actions[|actions| - 1];
      if before.Some? && Enabled(c, before.value, a) then Some(Apply(c, before.value, a)) else None
  }

  // ----- what every reachable state satisfies

  function Launched(c: Config, host: Host): nat {
    match host
    case Staging(chunk) => chunk
    case Announcing => 0
    case Launching(chunk) => chunk
    case Finishing => |c.parts|
    case Returned => |c.parts|
  }

  predicate Announced(host: Host) {
    !host.Announcing? && !(host.Staging? && host.chunk == 0)
  }

  function TransferOp(c: Config, q: nat): Op {
    if !c.device then Copy(q) else if q % 2 == 0 then Wait(Caller, q / 2 + 2) else Copy(q / 2)
  }

  function ComputeOp(c: Config, q: nat): Op {
    if q == 0 then Wait(Caller, if c.device then 2 else 1)
    else
      var i := (q - 1) / 3;
      if (q - 1) % 3 == 0 then Wait(Transfer, c.Ready(i)) else if (q - 1) % 3 == 1 then Kernel(i) else Fold(i)
  }

  /** What the host has issued so far. */
  ghost predicate Issued(c: Config, s: State) {
    var a, b, n := |s.ready|, Launched(c, s.host), |c.parts|;
    && a == (match s.host
             case Staging(chunk) => chunk
             case Announcing => 1
             case Launching(chunk) => chunk + 1
             case Finishing => n
             case Returned => n)
    && a <= n && b <= n && (s.host.Staging? ==> s.host.chunk < n) && (s.host.Launching? ==> s.host.chunk < n)
    && (forall i :: 0 <= i < a ==> s.ready[i] == c.Ready(i))
    && |s.caller| == 1 + (if c.device then a else 0) + (if s.host.Returned? then 2 else 0)
    && s.caller[0] == Produce
    && (c.device ==> forall q :: 1 <= q <= a ==> s.caller[q] == Clone(q - 1))
    && (s.host.Returned? ==> s.caller[|s.caller| - 2] == Wait(Compute, 1 + 3 * n) && s.caller[|s.caller| - 1] == Use)
    && |s.transfer| == (if c.device then 2 * a else a)
    && (forall q :: 0 <= q < |s.transfer| ==> s.transfer[q] == TransferOp(c, q))
    && |s.compute| == (if Announced(s.host) then 1 + 3 * b else 0)
    && (forall q :: 0 <= q < |s.compute| ==> s.compute[q] == ComputeOp(c, q))
  }

  /** No stream has run past an event that has not happened. */
  ghost predicate Ordered(s: State) {
    && s.ranCaller <= |s.caller| && s.ranTransfer <= |s.transfer| && s.ranCompute <= |s.compute|
    && (forall q :: 0 <= q < s.ranCaller && s.caller[q].Wait? ==> s.caller[q].position <= Ran(s, s.caller[q].on))
    && (forall q :: 0 <= q < s.ranTransfer && s.transfer[q].Wait? ==> s.transfer[q].position <= Ran(s, s.transfer[q].on))
    && (forall q :: 0 <= q < s.ranCompute && s.compute[q].Wait? ==> s.compute[q].position <= Ran(s, s.compute[q].on))
  }

  function Folded(ran: nat): nat {
    if ran == 0 then 0 else (ran - 1) / 3
  }

  ghost predicate Inputs(c: Config, s: State) {
    && (s.query <==> 1 <= s.ranCaller)
    && (forall i :: i in s.payload <==> c.device && 0 <= i < |s.ready| && i + 2 <= s.ranCaller)
    && (forall i :: i in s.staged <==> 0 <= i < |s.ready| && c.Ready(i) <= s.ranTransfer)
  }

  ghost predicate Outputs(c: Config, s: State) {
    && |s.outs| == |c.parts|
    && forall i :: 0 <= i < |s.outs| ==> s.outs[i] == if 3 * i + 3 <= s.ranCompute then Some(c.parts[i]) else None
  }

  ghost predicate Merged(c: Config, s: State)
    requires c.Valid()
  {
    var k := Folded(s.ranCompute);
    && k <= |c.parts|
    && s.merged == (if k == 0 then None else Some(MergeAll(c.E, c.g, c.parts[..k])))
  }

  ghost predicate Results(c: Config, s: State)
    requires c.Valid()
  {
    s.result == if s.host.Returned? && s.ranCaller == |s.caller| then Some(MergeAll(c.E, c.g, c.parts)) else None
  }

  /** Device memory holds exactly what has been computed, never garbage. */
  ghost predicate Computed(c: Config, s: State)
    requires c.Valid()
  {
    Inputs(c, s) && Outputs(c, s) && Merged(c, s) && Results(c, s)
  }

  ghost predicate Inv(c: Config, s: State) {
    c.Valid() && Issued(c, s) && Ordered(s) && Computed(c, s)
  }

  lemma InitialInv(c: Config)
    requires c.Valid()
    ensures Inv(c, Initial(c))
  {
    hide MergeAll;
  }

  lemma StageIssued(c: Config, s: State)
    requires c.Valid() && Issued(c, s) && s.host.Staging?
    ensures Issued(c, HostStep(c, s))
  {
  }

  lemma AnnounceIssued(c: Config, s: State)
    requires c.Valid() && Issued(c, s) && s.host.Announcing?
    ensures Issued(c, HostStep(c, s))
  {
  }

  lemma LaunchIssued(c: Config, s: State)
    requires c.Valid() && Issued(c, s) && s.host.Launching?
    ensures Issued(c, HostStep(c, s))
  {
    var t, n := HostStep(c, s), |s.compute|;
    forall q | 0 <= q < |t.compute|
      ensures t.compute[q] == ComputeOp(c, q)
    {
      assert q < n || q == n || q == n + 1 || q == n + 2;
    }
  }

  lemma FinishIssued(c: Config, s: State)
    requires c.Valid() && Issued(c, s) && s.host.Finishing?
    ensures Issued(c, HostStep(c, s))
  {
  }

  /** Issuing only appends to the queues and touches no device memory. */
  lemma IssueAppends(c: Config, s: State)
    requires Enabled(c, s, Issue)
    ensures var t := HostStep(c, s);
            && s.caller <= t.caller && s.transfer <= t.transfer && s.compute <= t.compute && s.ready <= t.ready
            && t == s.(caller := t.caller, transfer := t.transfer, compute := t.compute, ready := t.ready, host := t.host)
            && (t.host.Returned? ==> |s.caller| < |t.caller|)
  {
  }

  lemma AppendsKeep(c: Config, s: State, t: State)
    requires c.Valid() && Ordered(s) && Issued(c, s) && Computed(c, s) && Issued(c, t) && !s.host.Returned?
    requires s.caller <= t.caller && s.transfer <= t.transfer && s.compute <= t.compute && s.ready <= t.ready
    requires t == s.(caller := t.caller, transfer := t.transfer, compute := t.compute, ready := t.ready, host := t.host)
    requires t.host.Returned? ==> |s.caller| < |t.caller|
    ensures Ordered(t) && Computed(c, t)
  {
    hide MergeAll;
  }

  lemma IssueKeeps(c: Config, s: State)
    requires Inv(c, s) && Enabled(c, s, Issue)
    ensures Inv(c, Apply(c, s, Issue))
  {
    hide MergeAll, HostStep, Issued, Ordered, Computed;
    match s.host {
      case Staging(_) => StageIssued(c, s);
      case Announcing => AnnounceIssued(c, s);
      case Launching(_) => LaunchIssued(c, s);
      case Finishing => FinishIssued(c, s);
    }
    IssueAppends(c, s);
    AppendsKeep(c, s, HostStep(c, s));
  }

  lemma RunFrame(c: Config, s: State, stream: Stream)
    requires CanRun(c, s, stream)
    ensures var t := RunOp(c, s, stream);
            && t.caller == s.caller && t.transfer == s.transfer && t.compute == s.compute && t.ready == s.ready && t.host == s.host
            && t.ranCaller == (if stream.Caller? then s.ranCaller + 1 else s.ranCaller)
            && t.ranTransfer == (if stream.Transfer? then s.ranTransfer + 1 else s.ranTransfer)
            && t.ranCompute == (if stream.Compute? then s.ranCompute + 1 else s.ranCompute)
  {
    hide MergeNext, CanRun, Queue, Ran;
  }

  lemma IssuedOfQueues(c: Config, s: State, t: State)
    requires Issued(c, s)
    requires t.caller == s.caller && t.transfer == s.transfer && t.compute == s.compute && t.ready == s.ready && t.host == s.host
    ensures Issued(c, t)
  {
    hide TransferOp, ComputeOp;
  }

  lemma OrderedNext(c: Config, s: State, t: State, stream: Stream)
    requires Ordered(s) && CanRun(c, s, stream)
    requires t.caller == s.caller && t.transfer == s.transfer && t.compute == s.compute
    requires t.ranCaller == if stream.Caller? then s.ranCaller + 1 else s.ranCaller
    requires t.ranTransfer == if stream.Transfer? then s.ranTransfer + 1 else s.ranTransfer
    requires t.ranCompute == if stream.Compute? then s.ranCompute + 1 else s.ranCompute
    ensures Ordered(t)
  {
    assert forall on :: Ran(s, on) <= Ran(t, on);
  }

  /** Running an operation leaves the queues alone and keeps every passed wait passed. */
  lemma RunsInOrder(c: Config, s: State, stream: Stream)
    requires Issued(c, s) && Ordered(s) && CanRun(c, s, stream)
    ensures Issued(c, RunOp(c, s, stream)) && Ordered(RunOp(c, s, stream))
  {
    hide RunOp, Issued, Ordered, CanRun;
    RunFrame(c, s, stream);
    IssuedOfQueues(c, s, RunOp(c, s, stream));
    OrderedNext(c, s, RunOp(c, s, stream), stream);
  }

  /** A chunk is staged only from records that have been copied out of their slots. */
  lemma CopyReady(c: Config, s: State)
    requires Issued(c, s) && Ordered(s) && Inputs(c, s) && CanRun(c, s, Transfer) && s.transfer[s.ranTransfer].Copy?
    ensures var i := s.transfer[s.ranTransfer].chunk; i < |s.ready| && (c.device ==> i in s.payload)
  {
    var q := s.ranTransfer;
    assert s.transfer[q] == TransferOp(c, q);
    if c.device {
      assert s.transfer[q - 1] == TransferOp(c, q - 1);
    }
  }

  lemma TransferInputs(c: Config, s: State)
    requires Issued(c, s) && Ordered(s) && Inputs(c, s) && CanRun(c, s, Transfer)
    ensures Inputs(c, RunOp(c, s, Transfer))
  {
    var q := s.ranTransfer;
    assert s.transfer[q] == TransferOp(c, q);
    if s.transfer[q].Copy? {
      CopyReady(c, s);
    }
  }

  lemma TransferKeeps(c: Config, s: State)
    requires Inv(c, s) && CanRun(c, s, Transfer)
    ensures Inv(c, RunOp(c, s, Transfer))
  {
    hide Inputs, Issued, Ordered, MergeAll, ComputeOp;
    RunsInOrder(c, s, Transfer);
    TransferInputs(c, s);
    TransferTouches(c, s);
  }

  lemma TransferTouches(c: Config, s: State)
    requires Issued(c, s) && CanRun(c, s, Transfer)
    ensures var t := RunOp(c, s, Transfer); t == s.(ranTransfer := t.ranTransfer, staged := t.staged)
  {
    assert s.transfer[s.ranTransfer] == TransferOp(c, s.ranTransfer);
  }

  /** What the caller's stream runs: its own work, the loader's copies, and at the end the use of the result. */
  lemma CallerOps(c: Config, s: State)
    requires Issued(c, s) && CanRun(c, s, Caller)
    ensures var q, op := s.ranCaller, s.caller[s.ranCaller];
            || (q == 0 && op == Produce)
            || (c.device && 1 <= q <= |s.ready| && op == Clone(q - 1))
            || (s.host.Returned? && q == |s.caller| - 2 && op.Wait?)
            || (s.host.Returned? && q == |s.caller| - 1 && op == Use && 0 < q && s.caller[q - 1] == Wait(Compute, 1 + 3 * |c.parts|))
  {
  }

  lemma CallerInputs(c: Config, s: State)
    requires Issued(c, s) && Inputs(c, s) && CanRun(c, s, Caller)
    ensures Inputs(c, RunOp(c, s, Caller))
  {
    CallerOps(c, s);
  }

  lemma CallerReturns(c: Config, s: State)
    requires c.Valid() && Issued(c, s) && Ordered(s) && Merged(c, s) && Results(c, s) && CanRun(c, s, Caller)
    ensures var t := RunOp(c, s, Caller); Results(c, t) && t.merged == s.merged && t.outs == s.outs
  {
    hide MergeAll;
    CallerOps(c, s);
    assert c.parts[..|c.parts|] == c.parts;
    if s.caller[s.ranCaller].Use? {
      assert 1 + 3 * |c.parts| <= s.ranCompute;
      AllFolded(c, s);
    }
  }

  lemma AllFolded(c: Config, s: State)
    requires c.Valid() && Merged(c, s) && 1 + 3 * |c.parts| <= s.ranCompute
    ensures s.merged == Some(MergeAll(c.E, c.g, c.parts))
  {
    hide MergeAll;
    assert c.parts[..|c.parts|] == c.parts;
  }

  lemma CallerKeeps(c: Config, s: State)
    requires Inv(c, s) && CanRun(c, s, Caller)
    ensures Inv(c, RunOp(c, s, Caller))
  {
    hide Inputs, Issued, Ordered, MergeAll, ComputeOp, TransferOp, Results;
    RunsInOrder(c, s, Caller);
    CallerInputs(c, s);
    CallerReturns(c, s);
  }

  /** The kernel of a chunk runs only when the query and the staged chunk are there. */
  lemma KernelReady(c: Config, s: State)
    requires Issued(c, s) && Ordered(s) && Inputs(c, s) && CanRun(c, s, Compute) && s.compute[s.ranCompute].Kernel?
    ensures s.query && s.compute[s.ranCompute].chunk in s.staged
  {
    var q := s.ranCompute;
    assert s.compute[q] == ComputeOp(c, q) && s.compute[q - 1] == ComputeOp(c, q - 1) && s.compute[0] == ComputeOp(c, 0);
  }

  lemma ComputeOutputs(c: Config, s: State)
    requires Issued(c, s) && Ordered(s) && Inputs(c, s) && Outputs(c, s) && CanRun(c, s, Compute)
    ensures Outputs(c, RunOp(c, s, Compute))
  {
    hide MergeNext, TransferOp;
    var q := s.ranCompute;
    assert s.compute[q] == ComputeOp(c, q);
    if s.compute[q].Kernel? {
      KernelReady(c, s);
    }
  }

  lemma FoldNext(c: Config, s: State, i: nat)
    requires c.Valid() && Outputs(c, s) && Merged(c, s) && i < |c.parts| && s.ranCompute == 3 * i + 3
    ensures var t := Effect(c, s, Fold(i)); t.merged == Some(MergeAll(c.E, c.g, c.parts[..i + 1]))
  {
    hide Merge;
    assert Folded(s.ranCompute) == i;
    assert s.outs[i] == Some(c.parts[i]);
    if i == 0 {
      assert c.parts[..1][0] == c.parts[0];
    } else {
      assert c.parts[..i + 1][..i] == c.parts[..i];
    }
  }

  lemma ComputeMerges(c: Config, s: State)
    requires c.Valid() && Issued(c, s) && Outputs(c, s) && Merged(c, s) && CanRun(c, s, Compute)
    ensures Merged(c, RunOp(c, s, Compute))
  {
    hide MergeNext, MergeAll, TransferOp, Outputs;
    var q := s.ranCompute;
    assert s.compute[q] == ComputeOp(c, q);
    if s.compute[q].Fold? {
      FoldPosition(c, q);
      FoldNext(c, s, s.compute[q].chunk);
      FoldOfRun(c, s);
    } else {
      FoldedSame(c, q);
    }
  }

  lemma FoldPosition(c: Config, q: nat)
    requires ComputeOp(c, q).Fold?
    ensures q == 3 * ComputeOp(c, q).chunk + 3
    ensures Folded(q + 1) == ComputeOp(c, q).chunk + 1
  {
  }

  lemma FoldedSame(c: Config, q: nat)
    requires !ComputeOp(c, q).Fold?
    ensures Folded(q + 1) == Folded(q)
  {
  }

  lemma FoldOfRun(c: Config, s: State)
    requires CanRun(c, s, Compute) && s.compute[s.ranCompute].Fold?
    ensures RunOp(c, s, Compute) == Effect(c, s, s.compute[s.ranCompute]).(ranCompute := s.ranCompute + 1)
  {
    hide MergeNext;
  }

  lemma ComputeTouches(c: Config, s: State)
    requires Issued(c, s) && CanRun(c, s, Compute)
    ensures var t := RunOp(c, s, Compute); t == s.(ranCompute := t.ranCompute, outs := t.outs, merged := t.merged)
  {
    hide MergeNext, TransferOp;
    assert s.compute[s.ranCompute] == ComputeOp(c, s.ranCompute);
  }

  lemma ComputeKeeps(c: Config, s: State)
    requires Inv(c, s) && CanRun(c, s, Compute)
    ensures Inv(c, RunOp(c, s, Compute))
  {
    hide Issued, Ordered, Outputs, Merged, MergeAll, TransferOp, ComputeOp;
    RunsInOrder(c, s, Compute);
    ComputeOutputs(c, s);
    ComputeMerges(c, s);
    ComputeTouches(c, s);
  }

  /** Every schedule of the host and the three streams keeps the invariant. */
  lemma {:induction false} Reachable(c: Config, actions: seq<Action>)
    requires c.Valid() && Run(c, actions).Some?
    ensures Inv(c, Run(c, actions).value)
  {
    hide Inv, Enabled, HostStep, RunOp, CanRun;
    if actions == [] {
      InitialInv(c);
    } else {
      var before, a := actions[..|actions| - 1], actions[|actions| - 1];
      Reachable(c, before);
      OneStep(c, Run(c, before).value, a);
    }
  }

  lemma OneStep(c: Config, s: State, a: Action)
    requires Inv(c, s) && Enabled(c, s, a)
    ensures Inv(c, Apply(c, s, a))
  {
    hide Inv, HostStep, RunOp, CanRun;
    match a
    case Issue => IssueKeeps(c, s);
    case Execute(Caller) => CallerKeeps(c, s);
    case Execute(Transfer) => TransferKeeps(c, s);
    case Execute(Compute) => ComputeKeeps(c, s);
  }

  // ----- what it means

  /** No operation runs before the memory it reads is there, and the caller reads the merge of all the chunks. */
  lemma NothingReadEarly(c: Config, s: State)
    requires Inv(c, s)
    ensures CanRun(c, s, Transfer) && s.transfer[s.ranTransfer].Copy? && c.device ==> s.transfer[s.ranTransfer].chunk in s.payload
    ensures CanRun(c, s, Compute) && s.compute[s.ranCompute].Kernel? ==> s.query && s.compute[s.ranCompute].chunk in s.staged
    ensures CanRun(c, s, Compute) && s.compute[s.ranCompute].Fold? ==>
              s.outs[s.compute[s.ranCompute].chunk].Some? && (0 < s.compute[s.ranCompute].chunk ==> s.merged.Some?)
    ensures CanRun(c, s, Caller) && s.caller[s.ranCaller].Use? ==> s.merged == Some(MergeAll(c.E, c.g, c.parts))
  {
    hide MergeAll, ComputeOp, TransferOp;
    if CanRun(c, s, Transfer) && s.transfer[s.ranTransfer].Copy? {
      CopyReady(c, s);
    }
    if CanRun(c, s, Compute) && s.compute[s.ranCompute].Kernel? {
      KernelReady(c, s);
    }
    if CanRun(c, s, Compute) && s.compute[s.ranCompute].Fold? {
      assert s.compute[s.ranCompute] == ComputeOp(c, s.ranCompute);
      FoldPosition(c, s.ranCompute);
    }
    if CanRun(c, s, Caller) && s.caller[s.ranCaller].Use? {
      CallerOps(c, s);
      AllFolded(c, s);
    }
  }

  /** When everything has run, the caller holds the left fold of the chunks' results, under every schedule. */
  lemma ResultOfEverySchedule(c: Config, actions: seq<Action>)
    requires c.Valid() && Run(c, actions).Some?
    requires var s := Run(c, actions).value; s.host.Returned? && s.ranCaller == |s.caller|
    ensures Run(c, actions).value.result == Some(MergeAll(c.E, c.g, c.parts))
  {
    hide MergeAll, Run;
    Reachable(c, actions);
  }

  lemma EarlyCaller(c: Config, s: State)
    requires Inv(c, s) && s.ranCaller <= if c.device then |s.ready| else 0
    ensures CanRun(c, s, Caller)
  {
    hide ComputeOp, TransferOp, MergeAll;
  }

  /** The streams cannot wait for each other in a circle. */
  lemma NeverStuck(c: Config, s: State) returns (a: Action)
    requires Inv(c, s)
    requires !(s.host.Returned? && s.ranCaller == |s.caller| && s.ranTransfer == |s.transfer| && s.ranCompute == |s.compute|)
    ensures Enabled(c, s, a)
  {
    hide MergeAll, Computed;
    if !s.host.Returned? {
      a := Issue;
    } else if s.ranTransfer < |s.transfer| {
      assert s.transfer[s.ranTransfer] == TransferOp(c, s.ranTransfer);
      if CanRun(c, s, Transfer) {
        a := Execute(Transfer);
      } else {
        EarlyCaller(c, s);
        a := Execute(Caller);
      }
    } else if s.ranCompute < |s.compute| {
      assert s.compute[s.ranCompute] == ComputeOp(c, s.ranCompute);
      a := ComputeOrCaller(c, s);
    } else {
      a := Execute(Caller);
    }
  }

  lemma ComputeOrCaller(c: Config, s: State) returns (a: Action)
    requires Inv(c, s) && s.host.Returned? && s.ranTransfer == |s.transfer| && s.ranCompute < |s.compute|
    ensures Enabled(c, s, a)
  {
    hide MergeAll;
    var q := s.ranCompute;
    assert s.compute[q] == ComputeOp(c, q);
    if q == 0 && s.ranCaller < (if c.device then 2 else 1) {
      EarlyCaller(c, s);
      a := Execute(Caller);
    } else {
      a := Execute(Compute);
    }
  }

  function Issues(c: Config, host: Host): nat {
    match host
    case Staging(chunk) => if chunk == 0 then 0 else 2 * chunk + 1
    case Announcing => 1
    case Launching(chunk) => 2 * chunk + 2
    case Finishing => 2 * |c.parts| + 1
    case Returned => 2 * |c.parts| + 2
  }

  /** Statements issued and operations run so far. */
  function Work(c: Config, s: State): nat {
    Issues(c, s.host) + s.ranCaller + s.ranTransfer + s.ranCompute
  }

  lemma IssueCounts(c: Config, s: State)
    requires Issued(c, s) && Enabled(c, s, Issue)
    ensures Work(c, HostStep(c, s)) == Work(c, s) + 1
  {
    hide TransferOp, ComputeOp;
  }

  lemma RunCounts(c: Config, s: State, stream: Stream)
    requires CanRun(c, s, stream)
    ensures Work(c, RunOp(c, s, stream)) == Work(c, s) + 1
  {
    hide RunOp, CanRun;
    RunFrame(c, s, stream);
  }

  lemma StepCounts(c: Config, s: State, a: Action)
    requires Inv(c, s) && Enabled(c, s, a)
    ensures Work(c, Apply(c, s, a)) == Work(c, s) + 1
  {
    hide RunOp, HostStep, CanRun, Issued, Computed, Ordered, Work;
    if a.Execute? {
      RunCounts(c, s, a.stream);
    } else {
      IssueCounts(c, s);
    }
  }

  /** Every schedule is finite: the work is linear in the chunks. */
  lemma {:induction false} SchedulesEnd(c: Config, actions: seq<Action>)
    requires c.Valid() && Run(c, actions).Some?
    ensures |actions| == Work(c, Run(c, actions).value) <= 8 * |c.parts| + 6
  {
    hide Inv, Enabled, HostStep, RunOp, CanRun, Work;
    Reachable(c, actions);
    if actions == [] {
      NoWork(c);
    } else {
      var before, a := actions[..|actions| - 1], actions[|actions| - 1];
      SchedulesEnd(c, before);
      Reachable(c, before);
      StepCounts(c, Run(c, before).value, a);
    }
    WorkBound(c, Run(c, actions).value);
  }

  lemma NoWork(c: Config)
    ensures Work(c, Initial(c)) == 0
  {
  }

  lemma WorkBound(c: Config, s: State)
    requires Inv(c, s)
    ensures Work(c, s) <= 8 * |c.parts| + 6
  {
    hide MergeAll, Computed, TransferOp, ComputeOp;
  }
}
