/**
 The secondary tier manager as a transition system: lookups, jobs and in-flight counts on one side, workers and the
 record store on the other, interleaved in any order.
*/
module TierJobs {
  import opened Bytes
  import opened RecordPaths
  import A = AtomicStore

  type Key = seq<Byte>

  /** What a worker is given to do; its future is its place in the order of submission. */
  datatype Task =
    | Store(keys: seq<Key>, blocks: seq<nat>)
    | Load(keys: seq<Key>, blocks: seq<nat>)
    | IsFile(key: Key)

  datatype Outcome = Returned | Found(present: bool) | Raised

  /** An entry of `_futures`. */
  datatype Job = Job(future: nat, id: nat, keys: seq<Key>)

  datatype JobResult = JobResult(id: nat, success: bool)

  datatype Config = Config(root: Path, namespace: string, keys: set<Key>) {
    function Finals(): set<Path> {
      set key | key in keys && RecordPath(root, key, namespace).Ok? :: RecordPath(root, key, namespace).value
    }

    /** `_path(key).is_file()` */
    predicate Present(disk: A.State, key: Key) {
      RecordPath(root, key, namespace).Ok? && RecordPath(root, key, namespace).value in disk.files
    }
  }

  datatype State = State(
    jobs: seq<Job>,                                  // _futures, in insertion order
    lookups: map<(nat, Key), nat>,                   // _lookup_futures: the future of a request and key
    inflight: multiset<Key>,                         // _inflight_keys
    leaked: multiset<Key>,                           // keys counted for jobs that the pool then refused
    open: bool,                                      // whether the pool still takes work
    tasks: seq<Task>, done: map<nat, Outcome>,       // the pool
    disk: A.State,
    reported: seq<(nat, JobResult)>,                 // what polls have returned, with its future
    drained: seq<nat>)                               // futures whose results drain_jobs has dropped

  datatype Action =
    | Lookup(request: nat, key: Key)
    | Submit(id: nat, task: Task)
    | Refuse(task: Task)                             // a submit that the closed pool refuses, after counting its keys
    | Shutdown
    | Poll(seen: set<nat>)                           // get_finished_jobs, finding these futures done
    | DrainPoll(seen: set<nat>)                      // the same inside drain_jobs
    | ClearLookups
    | FinishRequest(request: nat)
    | Complete(future: nat, outcome: Outcome)        // a worker ends
    | Disk(step: A.Action)                           // a writer moves

  datatype LookupResult = Hit | Miss | Retry | Error

  // ----- operations

  function SumKeys(jobs: seq<Job>): multiset<Key> {
    if jobs == [] then multiset{} else SumKeys(jobs[..|jobs| - 1]) + multiset(jobs[|jobs| - 1].keys)
  }

  function Keep(jobs: seq<Job>, seen: set<nat>): seq<Job> {
    if jobs == [] then []
    else
      var last := jobs[|jobs| - 1];
      Keep(jobs[..|jobs| - 1], seen) + if last.future in seen then [] else [last]
  }

  function Reap(jobs: seq<Job>, seen: set<nat>): seq<Job> {
    if jobs == [] then []
    else
      var last := jobs[|jobs| - 1];
      Reap(jobs[..|jobs| - 1], seen) + if last.future in seen then [last] else []
  }

  function Success(done: map<nat, Outcome>, future: nat): bool {
    future in done && !done[future].Raised?
  }

  function Report(done: map<nat, Outcome>, reaped: seq<Job>): seq<(nat, JobResult)> {
    seq(|reaped|, i requires 0 <= i < |reaped| =>
      (reaped[i].future, JobResult(reaped[i].id, Success(done, reaped[i].future))))
  }

  function FutureList(reaped: seq<Job>): seq<nat> {
    seq(|reaped|, i requires 0 <= i < |reaped| => reaped[i].future)
  }

  /** What `lookup` answers. */
  function Answer(s: State, request: nat, key: Key): LookupResult {
    if s.inflight[key] > 0 then Retry
    else if (request, key) !in s.lookups then (if |key| < 5 || !s.open then Error else Retry)
    else
      var future := s.lookups[(request, key)];
      if future !in s.done then Retry
      else if s.done[future] == Found(true) then Hit
      else if s.done[future] == Found(false) then Miss
      else Error
  }

  /** What `lookup` leaves behind. */
  function AfterLookup(s: State, request: nat, key: Key): State {
    if s.inflight[key] > 0 then s
    else if (request, key) !in s.lookups then
      if |key| < 5 || !s.open then s
      else s.(lookups := s.lookups[(request, key) := |s.tasks|], tasks := s.tasks + [IsFile(key)])
    else if s.lookups[(request, key)] !in s.done then s
    else s.(lookups := s.lookups - {(request, key)})
  }

  /** The keys that `zip(keys, block_ids)` pairs with a block. */
  function Zipped(task: Task): seq<Key>
    requires !task.IsFile?
  {
    if |task.keys| <= |task.blocks| then task.keys else task.keys[..|task.blocks|]
  }

  /**
   How a worker can end. A store returns only when every call of `store_record_atomic` has, and so with every record
   in place; a load returns only when it found every record; either can raise at any time.
  */
  predicate CanEnd(c: Config, disk: A.State, task: Task, outcome: Outcome) {
    match task
    case IsFile(key) => outcome == Found(c.Present(disk, key)) || outcome.Raised?
    case _ => outcome.Raised? || (outcome.Returned? && forall key :: key in Zipped(task) ==> c.Present(disk, key))
  }

  function TaskKeys(task: Task): seq<Key> {
    if task.IsFile? then [task.key] else task.keys
  }

  ghost predicate Enabled(c: Config, s: State, a: Action) {
    match a
    case Lookup(_, key) => key in c.keys
    case Submit(_, task) => s.open && !task.IsFile? && forall key :: key in task.keys ==> key in c.keys
    case Refuse(task) => !s.open && !task.IsFile?
    case Shutdown => true
    case Poll(seen) => seen <= s.done.Keys
    case DrainPoll(seen) => seen <= s.done.Keys
    case ClearLookups => true
    case FinishRequest(_) => true
    case Complete(f, outcome) => f < |s.tasks| && f !in s.done && CanEnd(c, s.disk, s.tasks[f], outcome)
    case Disk(step) => A.Enabled(c.Finals(), s.disk, step) && !step.PowerLoss?
  }

  ghost function Apply(c: Config, s: State, a: Action): State
    requires Enabled(c, s, a)
  {
    match a
    case Lookup(request, key) => AfterLookup(s, request, key)
    case Submit(id, task) =>
      s.(inflight := s.inflight + multiset(task.keys), jobs := s.jobs + [Job(|s.tasks|, id, task.keys)], tasks := s.tasks + [task])
    case Refuse(task) => s.(inflight := s.inflight + multiset(task.keys), leaked := s.leaked + multiset(task.keys))
    case Shutdown => s.(open := false)
    case Poll(seen) =>
      var reaped := Reap(s.jobs, seen);
      s.(jobs := Keep(s.jobs, seen), inflight := s.inflight - SumKeys(reaped), reported := s.reported + Report(s.done, reaped))
    case DrainPoll(seen) =>
      var reaped := Reap(s.jobs, seen);
      s.(jobs := Keep(s.jobs, seen), inflight := s.inflight - SumKeys(reaped),
         drained := s.drained + FutureList(reaped))
    case ClearLookups => s.(lookups := map[])
    case FinishRequest(request) => s.(lookups := map k | k in s.lookups && k.0 != request :: s.lookups[k])
    case Complete(f, outcome) => s.(done := s.done[f := outcome])
    case Disk(step) => s.(disk := A.Apply(c.Finals(), s.disk, step))
  }

  ghost function Run(c: Config, s: State, actions: seq<Action>): Option<State> {
    if actions == [] then Some(s)
    else
      var before, a := Run(c, s, actions[..|actions| - 1]), actions[|actions| - 1];
      if before.Some? && Enabled(c, before.value, a) then Some(Apply(c, before.value, a)) else None
  }

  // ----- the invariant

  function Futures(jobs: seq<Job>): multiset<nat> {
    if jobs == [] then multiset{} else Futures(jobs[..|jobs| - 1]) + multiset{jobs[|jobs| - 1].future}
  }

  function ReportedFutures(reported: seq<(nat, JobResult)>): multiset<nat> {
    if reported == [] then multiset{} else ReportedFutures(reported[..|reported| - 1]) + multiset{reported[|reported| - 1].0}
  }

  /** The futures of all jobs ever submitted, each once. */
  function Submitted(tasks: seq<Task>): multiset<nat> {
    if tasks == [] then multiset{}
    else Submitted(tasks[..|tasks| - 1]) + if tasks[|tasks| - 1].IsFile? then multiset{} else multiset{|tasks| - 1}
  }

  /** Every submitted job is in exactly one place: still tracked, returned once by a poll, or dropped by a drain. */
  ghost predicate Accounted(s: State) {
    Futures(s.jobs) + ReportedFutures(s.reported) + multiset(s.drained) == Submitted(s.tasks)
  }

  ghost predicate JobsKnown(s: State) {
    forall i :: 0 <= i < |s.jobs| ==>
      && s.jobs[i].future < |s.tasks|
      && !s.tasks[s.jobs[i].future].IsFile? && s.tasks[s.jobs[i].future].keys == s.jobs[i].keys
  }

  ghost predicate LookupsKnown(c: Config, s: State) {
    forall k :: k in s.lookups ==> s.lookups[k] < |s.tasks| && s.tasks[s.lookups[k]] == IsFile(k.1) && k.1 in c.keys
  }

  /** What a finished worker has seen on the disk is still there. */
  ghost predicate DoneHolds(c: Config, s: State) {
    forall f :: f in s.done ==>
      && f < |s.tasks|
      && (s.done[f].Found? ==> s.tasks[f].IsFile?)
      && (s.done[f] == Found(true) ==> s.tasks[f].key in c.keys && c.Present(s.disk, s.tasks[f].key))
      && (s.done[f].Returned? ==>
            !s.tasks[f].IsFile? && forall key :: key in Zipped(s.tasks[f]) ==> key in c.keys && c.Present(s.disk, key))
  }

  ghost predicate TasksKnown(c: Config, s: State) {
    forall f, key :: 0 <= f < |s.tasks| && key in TaskKeys(s.tasks[f]) ==> key in c.keys
  }

  /** Polls report success exactly for the jobs whose function did not raise. */
  ghost predicate ReportsTrue(s: State) {
    forall i :: 0 <= i < |s.reported| ==>
      s.reported[i].0 in s.done && s.reported[i].1.success == !s.done[s.reported[i].0].Raised?
  }

  ghost predicate Inv(c: Config, s: State) {
    && A.AreFinals(c.Finals()) && A.Inv(c.Finals(), s.disk)
    && s.inflight == SumKeys(s.jobs) + s.leaked
    && JobsKnown(s) && LookupsKnown(c, s) && TasksKnown(c, s) && DoneHolds(c, s)
    && Accounted(s) && ReportsTrue(s)
  }

  // ----- counting

  lemma NextReap(init: seq<Job>, last: Job, seen: set<nat>)
    ensures Keep(init + [last], seen) == if last.future in seen then Keep(init, seen) else Keep(init, seen) + [last]
    ensures Reap(init + [last], seen) == if last.future in seen then Reap(init, seen) + [last] else Reap(init, seen)
  {
    Appended(init, last);
  }

  lemma NoJobs(seen: set<nat>)
    ensures SumKeys([]) == multiset{} && Futures([]) == multiset{}
    ensures Keep([], seen) == [] == Reap([], seen)
  {
  }

  lemma {:induction false} ReapSplits(jobs: seq<Job>, seen: set<nat>)
    ensures SumKeys(jobs) == SumKeys(Keep(jobs, seen)) + SumKeys(Reap(jobs, seen))
    ensures Futures(jobs) == Futures(Keep(jobs, seen)) + Futures(Reap(jobs, seen))
  {
    hide SumKeys, Futures, Keep, Reap;
    if jobs == [] {
      NoJobs(seen);
    } else {
      var init, last := jobs[..|jobs| - 1], jobs[|jobs| - 1];
      ReapSplits(init, seen);
      assert jobs == init + [last];
      NextReap(init, last, seen);
      AppendedJob(init, last);
      AppendedJob(Reap(init, seen), last);
      AppendedJob(Keep(init, seen), last);
    }
  }

  lemma AppendedJob(jobs: seq<Job>, job: Job)
    ensures SumKeys(jobs + [job]) == SumKeys(jobs) + multiset(job.keys)
    ensures Futures(jobs + [job]) == Futures(jobs) + multiset{job.future}
  {
    Appended(jobs, job);
  }

  lemma {:induction false} ReapedFrom(jobs: seq<Job>, seen: set<nat>)
    ensures forall i :: 0 <= i < |Keep(jobs, seen)| ==> Keep(jobs, seen)[i] in jobs && Keep(jobs, seen)[i].future !in seen
    ensures forall i :: 0 <= i < |Reap(jobs, seen)| ==> Reap(jobs, seen)[i] in jobs && Reap(jobs, seen)[i].future in seen
  {
    if jobs != [] {
      ReapedFrom(jobs[..|jobs| - 1], seen);
    }
  }

  lemma {:induction false} ReportedConcat(a: seq<(nat, JobResult)>, b: seq<(nat, JobResult)>)
    ensures ReportedFutures(a + b) == ReportedFutures(a) + ReportedFutures(b)
  {
    if b == [] {
      assert a + b == a;
    } else {
      assert (a + b)[..|a + b| - 1] == a + b[..|b| - 1];
      ReportedConcat(a, b[..|b| - 1]);
    }
  }

  lemma {:induction false} ReportFutures(done: map<nat, Outcome>, reaped: seq<Job>)
    ensures ReportedFutures(Report(done, reaped)) == Futures(reaped)
  {
    if reaped != [] {
      assert Report(done, reaped)[..|reaped| - 1] == Report(done, reaped[..|reaped| - 1]);
      ReportFutures(done, reaped[..|reaped| - 1]);
    }
  }

  lemma {:induction false} FutureListCounts(reaped: seq<Job>)
    ensures multiset(FutureList(reaped)) == Futures(reaped)
  {
    if reaped != [] {
      var init := reaped[..|reaped| - 1];
      FutureListCounts(init);
      assert FutureList(reaped) == FutureList(init) + [reaped[|reaped| - 1].future];
    }
  }

  lemma Appended<T>(s: seq<T>, x: T)
    ensures (s + [x])[..|s + [x]| - 1] == s
  {
  }

  lemma {:induction false} SubmittedBelow(tasks: seq<Task>, f: nat)
    ensures Submitted(tasks)[f] == if f < |tasks| && !tasks[f].IsFile? then 1 else 0
  {
    if tasks != [] {
      SubmittedBelow(tasks[..|tasks| - 1], f);
    }
  }

  // ----- every action keeps the invariant

  lemma SubmitCounts(s: State, id: nat, task: Task)
    requires s.inflight == SumKeys(s.jobs) + s.leaked && Accounted(s) && !task.IsFile?
    ensures s.inflight + multiset(task.keys) == SumKeys(s.jobs + [Job(|s.tasks|, id, task.keys)]) + s.leaked
    ensures Futures(s.jobs + [Job(|s.tasks|, id, task.keys)]) + ReportedFutures(s.reported) + multiset(s.drained)
         == Submitted(s.tasks + [task])
  {
    hide SumKeys, Futures, ReportedFutures;
    AppendedJob(s.jobs, Job(|s.tasks|, id, task.keys));
    Appended(s.tasks, task);
  }

  lemma SubmitKeeps(c: Config, s: State, id: nat, task: Task)
    requires Inv(c, s) && Enabled(c, s, Submit(id, task))
    ensures Inv(c, Apply(c, s, Submit(id, task)))
  {
    hide SumKeys, Futures, Submitted, A.Inv, A.AreFinals, Config.Finals, Config.Present, ReportedFutures, Zipped;
    SubmitCounts(s, id, task);
  }

  lemma PollCounts(s: State, seen: set<nat>)
    requires s.inflight == SumKeys(s.jobs) + s.leaked && Accounted(s)
    ensures var reaped := Reap(s.jobs, seen);
            && s.inflight - SumKeys(reaped) == SumKeys(Keep(s.jobs, seen)) + s.leaked
            && Futures(Keep(s.jobs, seen)) + ReportedFutures(s.reported + Report(s.done, reaped)) + multiset(s.drained)
            == Submitted(s.tasks)
            && Futures(Keep(s.jobs, seen)) + ReportedFutures(s.reported) + multiset(s.drained + FutureList(reaped))
            == Submitted(s.tasks)
  {
    hide SumKeys, Futures, Submitted, Keep, Reap, ReportedFutures, Report, FutureList;
    var reaped := Reap(s.jobs, seen);
    ReapSplits(s.jobs, seen);
    ReportedConcat(s.reported, Report(s.done, reaped));
    ReportFutures(s.done, reaped);
    FutureListCounts(reaped);
  }

  lemma PollKnown(s: State, seen: set<nat>)
    requires JobsKnown(s) && ReportsTrue(s) && seen <= s.done.Keys
    ensures JobsKnown(s.(jobs := Keep(s.jobs, seen)))
    ensures ReportsTrue(s.(reported := s.reported + Report(s.done, Reap(s.jobs, seen))))
  {
    hide Keep, Reap;
    ReapedFrom(s.jobs, seen);
  }

  lemma PollKeeps(c: Config, s: State, a: Action)
    requires Inv(c, s) && Enabled(c, s, a) && (a.Poll? || a.DrainPoll?)
    ensures Inv(c, Apply(c, s, a))
  {
    hide SumKeys, Futures, Submitted, A.Inv, A.AreFinals, Config.Finals, Config.Present, Keep, Reap, ReportedFutures, Report, Zipped;
    PollCounts(s, a.seen);
    PollKnown(s, a.seen);
  }

  lemma MoreLookups(s: State, key: Key)
    ensures Submitted(s.tasks + [IsFile(key)]) == Submitted(s.tasks)
  {
    Appended(s.tasks, IsFile(key));
  }

  lemma LookupKeeps(c: Config, s: State, request: nat, key: Key)
    requires Inv(c, s) && Enabled(c, s, Lookup(request, key))
    ensures Inv(c, Apply(c, s, Lookup(request, key)))
  {
    hide SumKeys, Futures, A.Inv, A.AreFinals, Config.Finals, Config.Present, ReportedFutures, Submitted, Zipped;
    MoreLookups(s, key);
  }

  lemma CompleteKeeps(c: Config, s: State, f: nat, outcome: Outcome)
    requires Inv(c, s) && Enabled(c, s, Complete(f, outcome))
    ensures Inv(c, Apply(c, s, Complete(f, outcome)))
  {
    hide SumKeys, Futures, Submitted, A.Inv, A.AreFinals, Config.Finals, Config.Present, ReportedFutures;
    if outcome.Returned? {
      ZippedKeys(s.tasks[f]);
    }
  }

  lemma ZippedKeys(task: Task)
    requires !task.IsFile?
    ensures forall key :: key in Zipped(task) ==> key in task.keys
  {
  }

  lemma DiskKeeps(c: Config, s: State, step: A.Action)
    requires Inv(c, s) && Enabled(c, s, Disk(step))
    ensures Inv(c, Apply(c, s, Disk(step)))
  {
    hide SumKeys, Futures, Submitted, A.Inv, A.AreFinals, A.Enabled, A.Apply, ReportedFutures, RecordPath;
    A.ActionKeeps(c.Finals(), s.disk, step);
    forall key | key in c.keys && c.Present(s.disk, key)
      ensures c.Present(A.Apply(c.Finals(), s.disk, step), key)
    {
      A.PresentStays(c.Finals(), s.disk, step, RecordPath(c.root, key, c.namespace).value);
    }
  }

  lemma MapsKeep(c: Config, s: State, a: Action)
    requires Inv(c, s) && Enabled(c, s, a) && (a.ClearLookups? || a.FinishRequest? || a.Refuse? || a.Shutdown?)
    ensures Inv(c, Apply(c, s, a))
  {
    hide SumKeys, Futures, Submitted, A.Inv, A.AreFinals, Config.Finals, Config.Present, ReportedFutures;
  }

  lemma ActionKeeps(c: Config, s: State, a: Action)
    requires Inv(c, s) && Enabled(c, s, a)
    ensures Inv(c, Apply(c, s, a))
  {
    hide Inv, Enabled, Apply;
    match a
    case Lookup(request, key) => LookupKeeps(c, s, request, key);
    case Submit(id, task) => SubmitKeeps(c, s, id, task);
    case Refuse(_) => MapsKeep(c, s, a);
    case Shutdown => MapsKeep(c, s, a);
    case Poll(_) => PollKeeps(c, s, a);
    case DrainPoll(_) => PollKeeps(c, s, a);
    case ClearLookups => MapsKeep(c, s, a);
    case FinishRequest(_) => MapsKeep(c, s, a);
    case Complete(f, outcome) => CompleteKeeps(c, s, f, outcome);
    case Disk(step) => DiskKeeps(c, s, step);
  }

  /** A manager just made, over whatever records the directory holds. */
  ghost predicate IsInitial(c: Config, s: State) {
    && s.jobs == [] && s.lookups == map[] && s.inflight == multiset{} && s.leaked == multiset{} && s.open && s.tasks == [] && s.done == map[]
    && s.reported == [] && s.drained == []
    && A.AreFinals(c.Finals()) && A.Inv(c.Finals(), s.disk)
  }

  /** Every interleaving of calls, workers and writers keeps the invariant. */
  lemma {:induction false} Reachable(c: Config, s: State, actions: seq<Action>)
    requires IsInitial(c, s) && Run(c, s, actions).Some?
    ensures Inv(c, Run(c, s, actions).value)
  {
    hide Enabled, Apply;
    if actions != [] {
      Reachable(c, s, actions[..|actions| - 1]);
      hide Inv;
      ActionKeeps(c, Run(c, s, actions[..|actions| - 1]).value, actions[|actions| - 1]);
    }
  }

  // ----- what callers rely on

  lemma {:induction false} KeyInSum(jobs: seq<Job>, i: nat, key: Key)
    requires i < |jobs| && key in jobs[i].keys
    ensures SumKeys(jobs)[key] > 0
  {
    if i < |jobs| - 1 {
      KeyInSum(jobs[..|jobs| - 1], i, key);
    } else {
      assert multiset(jobs[i].keys)[key] > 0;
    }
  }

  lemma {:induction false} SumHasKey(jobs: seq<Job>, key: Key) returns (i: nat)
    requires SumKeys(jobs)[key] > 0
    ensures i < |jobs| && key in jobs[i].keys
  {
    var n := |jobs| - 1;
    if multiset(jobs[n].keys)[key] > 0 {
      i := n;
    } else {
      i := SumHasKey(jobs[..n], key);
    }
  }

  /** The count of a key is positive exactly while an unreaped job names it, or once a refused job has. */
  lemma InflightIff(c: Config, s: State, key: Key)
    requires Inv(c, s)
    ensures s.inflight[key] > 0 <==> key in s.leaked || exists i :: 0 <= i < |s.jobs| && key in s.jobs[i].keys
  {
    if SumKeys(s.jobs)[key] > 0 {
      var i := SumHasKey(s.jobs, key);
    }
    if i :| 0 <= i < |s.jobs| && key in s.jobs[i].keys {
      KeyInSum(s.jobs, i, key);
    }
  }

  /** A hit or a miss is only ever answered for a key that no unreaped job names. */
  lemma AnswersOnlyWhenIdle(c: Config, s: State, request: nat, key: Key)
    requires Inv(c, s) && (Answer(s, request, key).Hit? || Answer(s, request, key).Miss?)
    ensures key !in s.leaked && forall i :: 0 <= i < |s.jobs| ==> key !in s.jobs[i].keys
  {
    hide SumKeys, Inv;
    InflightIff(c, s, key);
  }

  /** A hit means that the key's path holds one whole record that a writer passed in. */
  lemma HitIsWhole(c: Config, s: State, request: nat, key: Key)
    requires Inv(c, s) && Answer(s, request, key).Hit?
    ensures c.Present(s.disk, key)
    ensures var path := RecordPath(c.root, key, c.namespace).value;
            path in s.disk.files && (path, s.disk.files[path].content) in s.disk.offered
  {
    hide SumKeys, Futures, Submitted, RecordPath;
    assert s.tasks[s.lookups[(request, key)]] == IsFile(key);
    assert c.Present(s.disk, key);
    assert RecordPath(c.root, key, c.namespace).value in c.Finals();
  }

  lemma {:induction false} PresentLater(c: Config, s: State, actions: seq<Action>, key: Key)
    requires Inv(c, s) && Run(c, s, actions).Some? && key in c.keys && c.Present(s.disk, key)
    ensures Inv(c, Run(c, s, actions).value) && c.Present(Run(c, s, actions).value.disk, key)
  {
    hide Inv, Enabled, Apply, Config.Present;
    if actions != [] {
      var before := Run(c, s, actions[..|actions| - 1]).value;
      PresentLater(c, s, actions[..|actions| - 1], key);
      ActionKeeps(c, before, actions[|actions| - 1]);
      PresentNext(c, before, actions[|actions| - 1], key);
    }
  }

  lemma PresentNext(c: Config, s: State, a: Action, key: Key)
    requires Inv(c, s) && Enabled(c, s, a) && key in c.keys && c.Present(s.disk, key)
    ensures c.Present(Apply(c, s, a).disk, key)
  {
    hide SumKeys, Futures, Submitted, RecordPath, A.Inv, A.Apply, A.Enabled, A.AreFinals, Keep, Reap;
    if a.Disk? {
      A.PresentStays(c.Finals(), s.disk, a.step, RecordPath(c.root, key, c.namespace).value);
    }
  }

  /** After a hit, every later read of the key's path, whatever happens in between, finds a whole offered record. */
  lemma HitStaysSound(c: Config, s: State, request: nat, key: Key, actions: seq<Action>)
    requires Inv(c, s) && key in c.keys && Answer(s, request, key).Hit? && Run(c, s, actions).Some?
    ensures var t, path := Run(c, s, actions).value, RecordPath(c.root, key, c.namespace);
            path.Ok? && path.value in t.disk.files && (path.value, t.disk.files[path.value].content) in t.disk.offered
  {
    hide SumKeys, Futures, Submitted, RecordPath, Run, Answer;
    HitIsWhole(c, s, request, key);
    PresentLater(c, s, actions, key);
    assert RecordPath(c.root, key, c.namespace).value in c.Finals();
  }

  /** The three places a job can be in, and that it is in one of them once. */
  lemma JobsAccounted(c: Config, s: State, f: nat)
    requires Inv(c, s) && f < |s.tasks| && !s.tasks[f].IsFile?
    ensures Futures(s.jobs)[f] + ReportedFutures(s.reported)[f] + multiset(s.drained)[f] == 1
  {
    hide SumKeys, Futures, ReportedFutures;
    SubmittedBelow(s.tasks, f);
  }

  /** A store job that a poll reports as successful has left a record at every path it was given a block for. */
  lemma SuccessMeansStored(c: Config, s: State, i: nat, n: nat)
    requires Inv(c, s) && i < |s.reported| && s.reported[i].1.success
    requires s.reported[i].0 < |s.tasks| && s.tasks[s.reported[i].0].Store?
    requires var task := s.tasks[s.reported[i].0]; n < |task.keys| && n < |task.blocks|
    ensures var path := RecordPath(c.root, s.tasks[s.reported[i].0].keys[n], c.namespace);
            path.Ok? && path.value in s.disk.files
  {
    hide SumKeys, Futures, Submitted, RecordPath, Zipped, A.Inv, A.AreFinals;
    ZippedAt(s.tasks[s.reported[i].0], n);
  }

  lemma ZippedAt(task: Task, n: nat)
    requires !task.IsFile? && n < |task.keys| && n < |task.blocks|
    ensures task.keys[n] in Zipped(task)
  {
    assert Zipped(task)[n] == task.keys[n];
  }

  // ----- submits after shutdown

  /** The keys of the jobs that a run had refused. */
  function RefusedKeys(actions: seq<Action>): multiset<Key> {
    if actions == [] then multiset{}
    else
      var last := actions[|actions| - 1];
      RefusedKeys(actions[..|actions| - 1]) + if last.Refuse? then multiset(TaskKeys(last.task)) else multiset{}
  }

  lemma LeakedNext(c: Config, s: State, a: Action)
    requires Enabled(c, s, a)
    ensures Apply(c, s, a).leaked == s.leaked + if a.Refuse? then multiset(TaskKeys(a.task)) else multiset{}
  {
    hide Keep, Reap, SumKeys, A.Apply, A.Enabled, Report, CanEnd;
  }

  lemma {:induction false} LeakedIsRefused(c: Config, s: State, actions: seq<Action>)
    requires Run(c, s, actions).Some?
    ensures Run(c, s, actions).value.leaked == s.leaked + RefusedKeys(actions)
  {
    hide Enabled, Apply;
    if actions != [] {
      LeakedIsRefused(c, s, actions[..|actions| - 1]);
      LeakedNext(c, Run(c, s, actions[..|actions| - 1]).value, actions[|actions| - 1]);
    }
  }

  lemma {:induction false} NoKeysRefusedIff(actions: seq<Action>)
    ensures RefusedKeys(actions) == multiset{} <==>
              forall i :: 0 <= i < |actions| && actions[i].Refuse? ==> TaskKeys(actions[i].task) == []
  {
    if actions != [] {
      var init, last := actions[..|actions| - 1], actions[|actions| - 1];
      NoKeysRefusedIff(init);
      assert forall i :: 0 <= i < |init| ==> init[i] == actions[i];
      if last.Refuse? && TaskKeys(last.task) != [] {
        assert TaskKeys(last.task)[0] in multiset(TaskKeys(last.task));
        assert RefusedKeys(actions)[TaskKeys(last.task)[0]] > 0;
      } else {
        assert RefusedKeys(actions) == RefusedKeys(init);
      }
    }
  }

  /**
   Over any run, the counts are the sum over the tracked jobs exactly if no job that names a key was refused. The
   program counts a job's keys before it hands the job to the pool, and nothing takes them back.
  */
  lemma CountsExactIff(c: Config, s: State, actions: seq<Action>)
    requires IsInitial(c, s) && Run(c, s, actions).Some?
    ensures var t := Run(c, s, actions).value;
            t.inflight == SumKeys(t.jobs) <==>
              forall i :: 0 <= i < |actions| && actions[i].Refuse? ==> TaskKeys(actions[i].task) == []
  {
    hide SumKeys, Run, RefusedKeys;
    Reachable(c, s, actions);
    LeakedIsRefused(c, s, actions);
    NoKeysRefusedIff(actions);
    SameSum(Run(c, s, actions).value);
  }

  lemma SameSum(t: State)
    requires t.inflight == SumKeys(t.jobs) + t.leaked
    ensures t.inflight == SumKeys(t.jobs) <==> t.leaked == multiset{}
  {
    hide SumKeys;
    if t.leaked != multiset{} {
      var key :| key in t.leaked;
      assert t.inflight[key] == SumKeys(t.jobs)[key] + t.leaked[key];
    }
  }

  /** A key of a refused job is answered Retry for ever after, whatever else happens: its lookups never end. */
  lemma RefusedSubmitLeaks(c: Config, s: State, task: Task, actions: seq<Action>, request: nat, key: Key)
    requires Inv(c, s) && Enabled(c, s, Refuse(task)) && key in task.keys
    requires Run(c, Apply(c, s, Refuse(task)), actions).Some?
    ensures Answer(Run(c, Apply(c, s, Refuse(task)), actions).value, request, key) == Retry
  {
    hide SumKeys, Run, Inv;
    var after := Apply(c, s, Refuse(task));
    ActionKeeps(c, s, Refuse(task));
    assert key in multiset(task.keys);
    LeakedIsRefused(c, after, actions);
    RunKeeps(c, after, actions);
    InflightIff(c, Run(c, after, actions).value, key);
  }

  lemma {:induction false} RunKeeps(c: Config, s: State, actions: seq<Action>)
    requires Inv(c, s) && Run(c, s, actions).Some?
    ensures Inv(c, Run(c, s, actions).value)
  {
    hide Enabled, Apply, Inv;
    if actions != [] {
      RunKeeps(c, s, actions[..|actions| - 1]);
      ActionKeeps(c, Run(c, s, actions[..|actions| - 1]).value, actions[|actions| - 1]);
    }
  }

  /** Such a run: a new manager is shut down, and a store job of one key is submitted. */
  lemma RefusedStore(c: Config, s: State, key: Key, request: nat)
    requires IsInitial(c, s) && key in c.keys
    ensures var r := Run(c, s, [Shutdown, Refuse(Store([key], [0]))]);
            && r.Some? && r.value.jobs == [] && r.value.inflight == multiset{key}
            && r.value.inflight != SumKeys(r.value.jobs) && Answer(r.value, request, key) == Retry
  {
    var actions := [Shutdown, Refuse(Store([key], [0]))];
    assert actions[..1] == [Shutdown] && [Shutdown][..0] == [];
    assert Run(c, s, []) == Some(s);
    assert Run(c, s, [Shutdown]) == Some(s.(open := false));
    assert multiset([key]) == multiset{key};
  }
}
