/** `KVSSDSecondaryTierManager` as an object: each method against the transition system, with workers running in between. */
module TierManager {
  import opened Bytes
  import opened RecordPaths
  import opened TierJobs
  import TierAnswers
  import A = AtomicStore
  import V = VllmCodec
  import Quant

  class KVSSDSecondaryTierManager {
    const config: Config
    var futures: seq<Job>
    var lookupFutures: map<(nat, Key), nat>
    var inflightKeys: multiset<Key>
    ghost var leaked: multiset<Key>
    var open: bool
    var tasks: seq<Task>
    var done: map<nat, Outcome>
    var disk: A.State
    ghost var reported: seq<(nat, JobResult)>
    ghost var drained: seq<nat>

    ghost function View(): State
      reads this
    {
      State(futures, lookupFutures, inflightKeys, leaked, open, tasks, done, disk, reported, drained)
    }

    ghost predicate Valid()
      reads this
    {
      Inv(config, View())
    }

    constructor (config: Config, disk: A.State)
      requires A.AreFinals(config.Finals()) && A.Inv(config.Finals(), disk)
      ensures Valid() && this.config == config && IsInitial(config, View()) && this.disk == disk
    {
      this.config, this.disk := config, disk;
      futures, lookupFutures, inflightKeys, leaked, open := [], map[], multiset{}, multiset{}, true;
      tasks, done, reported, drained := [], map[], [], [];
    }

    /** Workers end and writers move, as much as they like. */
    method Workers()
      requires Valid()
      modifies `done, `disk
      ensures Valid() && old(done).Keys <= done.Keys && forall f :: f in old(done) ==> done[f] == old(done)[f]
    {
      hide Inv, A.Enabled, A.Apply, CanEnd;
      var turns: nat :| true;
      for turn := 0 to turns
        invariant Valid() && old(done).Keys <= done.Keys && forall f :: f in old(done) ==> done[f] == old(done)[f]
      {
        var ends: bool := *;
        var f: nat :| true;
        var outcome: Outcome := *;
        var step: A.Action := *;
        if ends && f < |tasks| && f !in done && CanEnd(config, disk, tasks[f], outcome) {
          End(f, outcome);
        } else if A.Enabled(config.Finals(), disk, step) && !step.PowerLoss? {
          ActionKeeps(config, View(), Disk(step));
          disk := A.Apply(config.Finals(), disk, step);
        }
      }
    }

    method End(f: nat, outcome: Outcome)
      requires Valid() && f < |tasks| && f !in done && CanEnd(config, disk, tasks[f], outcome)
      modifies `done
      ensures Valid() && done == old(done)[f := outcome]
    {
      hide Inv, CanEnd;
      ActionKeeps(config, View(), Complete(f, outcome));
      done := done[f := outcome];
    }

    /** `lookup` */
    method Lookup(request: nat, key: Key) returns (r: LookupResult)
      requires Valid() && key in config.keys
      modifies `lookupFutures, `tasks
      ensures Valid() && r == Answer(old(View()), request, key) && View() == AfterLookup(old(View()), request, key)
      ensures r.Hit? ==> config.Present(disk, key)
      ensures r.Hit? || r.Miss? ==> key !in leaked && forall i :: 0 <= i < |futures| ==> key !in futures[i].keys
      ensures ((request, key) in old(lookupFutures) && old(lookupFutures[(request, key)]) in done
               && key !in leaked && forall i :: 0 <= i < |futures| ==> key !in futures[i].keys)
              ==>
                && (request, key) !in lookupFutures
                && match done[old(lookupFutures[(request, key)])]
                   case Found(present) => r == if present then Hit else Miss
                   case _ => r == Error
      ensures forall k :: k != (request, key) ==>
                && (k in lookupFutures <==> k in old(lookupFutures))
                && (k in lookupFutures ==> lookupFutures[k] == old(lookupFutures)[k])
    {
      hide Inv;
      ghost var before := View();
      TierAnswers.IdleIff(config, before, key);
      ActionKeeps(config, before, TierJobs.Lookup(request, key));
      if Answer(before, request, key).Hit? {
        HitIsWhole(config, before, request, key);
      }
      if Answer(before, request, key).Hit? || Answer(before, request, key).Miss? {
        AnswersOnlyWhenIdle(config, before, request, key);
      }
      if inflightKeys[key] > 0 {
        return Retry;
      }
      if (request, key) !in lookupFutures {
        if |key| < 5 || !open {
          return Error;
        }
        lookupFutures := lookupFutures[(request, key) := |tasks|];
        tasks := tasks + [IsFile(key)];
        return Retry;
      }
      var future := lookupFutures[(request, key)];
      if future !in done {
        return Retry;
      }
      lookupFutures := lookupFutures - {(request, key)};
      r := if done[future] == Found(true) then Hit else if done[future] == Found(false) then Miss else Error;
    }

    /** `_submit`: the keys are counted first; a pool that has been shut down then refuses the job. */
    method Submit(id: nat, task: Task) returns (accepted: bool)
      requires Valid() && !task.IsFile? && forall key :: key in task.keys ==> key in config.keys
      modifies `inflightKeys, `leaked, `tasks, `futures
      ensures Valid() && accepted == open
      ensures View() == Apply(config, old(View()), if open then TierJobs.Submit(id, task) else Refuse(task))
      ensures inflightKeys == old(inflightKeys) + multiset(task.keys)
      ensures futures == if accepted then old(futures) + [Job(|old(tasks)|, id, task.keys)] else old(futures)
    {
      hide Inv;
      ActionKeeps(config, View(), if open then TierJobs.Submit(id, task) else Refuse(task));
      inflightKeys := inflightKeys + multiset(task.keys);
      if !open {
        leaked := leaked + multiset(task.keys);
        return false;
      }
      futures := futures + [Job(|tasks|, id, task.keys)];
      tasks := tasks + [task];
      accepted := true;
    }

    /** `shutdown`: refuse further work and wait for what was submitted. */
    method Shutdown()
      requires Valid()
      modifies `open, `done, `disk
      ensures Valid() && !open && forall f :: 0 <= f < |tasks| ==> f in done
    {
      hide Inv;
      ActionKeeps(config, View(), TierJobs.Shutdown);
      open := false;
      for f := 0 to |tasks|
        invariant Valid() && !open && forall i :: 0 <= i < f ==> i in done
      {
        WaitFor(f);
      }
    }

    /** One finished job leaves `_futures` and gives its keys back. */
    method ReapJob(job: Job, ghost dropping: bool) returns (result: JobResult)
      requires Valid() && job in futures && job.future in done
      modifies `futures, `inflightKeys, `reported, `drained
      ensures Valid() && result == JobResult(job.id, !done[job.future].Raised?)
      ensures |futures| == |old(futures)| - 1
      ensures futures == Keep(old(futures), {job.future})
      ensures reported == if dropping then old(reported) else old(reported) + [(job.future, result)]
      ensures drained == if dropping then old(drained) + [job.future] else old(drained)
    {
      hide Inv, SumKeys, Keep, Reap;
      result := JobResult(job.id, !done[job.future].Raised?);
      ReapStep(config, View(), job, dropping, result);
      futures := Keep(futures, {job.future});
      inflightKeys := inflightKeys - multiset(job.keys);
      if dropping {
        drained := drained + [job.future];
      } else {
        reported := reported + [(job.future, result)];
      }
    }

    /** One turn of the loop below: workers move, then job `i` of the snapshot is looked at. */
    method LookAt(snapshot: seq<Job>, i: nat, ghost before: set<nat>, finished: seq<JobResult>, ghost dropping: bool)
      returns (after: seq<JobResult>, ghost seen: set<nat>)
      requires Valid() && i < |snapshot| && Reaped(snapshot, i, before, futures, finished, done)
      modifies `futures, `inflightKeys, `done, `disk, `reported, `drained
      ensures Valid() && old(done).Keys <= done.Keys && Reaped(snapshot, i + 1, seen, futures, after, done)
      ensures before <= seen && (snapshot[i].future in old(done) ==> snapshot[i].future in seen)
      ensures reported == old(reported) || (!dropping && |reported| == |old(reported)| + 1)
      ensures drained == old(drained) || (dropping && |drained| == |old(drained)| + 1)
      ensures |reported| + |drained| - |after| == |old(reported)| + |old(drained)| - |finished|
    {
      hide Inv, SumKeys, Keep, Reap, Results;
      ghost var earlier := done;
      Workers();
      LaterResults(snapshot, i, before, futures, finished, earlier, done);
      var job := snapshot[i];
      NextSeen(snapshot, i, before);
      NextResult(done, Reap(snapshot[..i], before), job);
      after, seen := finished, before;
      if job.future in done {
        var result := ReapJob(job, dropping);
        after, seen := finished + [result], before + {job.future};
      }
    }

    /**
     `get_finished_jobs`: workers keep finishing while the loop runs. It reaps the jobs whose futures are in `seen`, in
     the order of submission: all that were done at the start, and some that ended meanwhile. `dropping` says that the
     caller throws the results away.
    */
    method GetFinishedJobs(ghost dropping: bool) returns (finished: seq<JobResult>, ghost seen: set<nat>)
      requires Valid()
      modifies `futures, `inflightKeys, `done, `disk, `reported, `drained
      ensures Valid() && old(done).Keys <= done.Keys && seen <= done.Keys
      ensures forall job :: job in old(futures) && job.future in old(done) ==> job.future in seen
      ensures futures == Keep(old(futures), seen)
      ensures finished == Results(done, Reap(old(futures), seen))
      ensures if dropping then reported == old(reported) && |drained| == |old(drained)| + |finished|
              else drained == old(drained) && |reported| == |old(reported)| + |finished|
    {
      hide Inv, SumKeys, Keep, Reap, Results;
      finished, seen := [], {};
      var snapshot := futures;
      NothingSeen(config, View());
      for i := 0 to |snapshot|
        invariant Valid() && old(done).Keys <= done.Keys
        invariant Reaped(snapshot, i, seen, futures, finished, done)
        invariant forall k :: 0 <= k < i && snapshot[k].future in old(done) ==> snapshot[k].future in seen
        invariant if dropping then reported == old(reported) && |drained| == |old(drained)| + |finished|
                  else drained == old(drained) && |reported| == |old(reported)| + |finished|
      {
        hide Reaped;
        finished, seen := LookAt(snapshot, i, seen, finished, dropping);
      }
      assert snapshot[..|snapshot|] == snapshot;
    }

    /**
     `has_pending_work`: some job has neither been returned by a poll nor dropped by a drain, or some lookup is not done.
     Without pending work every job ever submitted has been handed over once, and only refused jobs are still counted.
    */
    method HasPendingWork() returns (pending: bool)
      requires Valid()
      ensures pending <==>
                || (exists f: nat :: f < |tasks| && !tasks[f].IsFile? && HandedOver(f) == 0)
                || (exists k :: k in lookupFutures && lookupFutures[k] !in done)
      ensures !pending ==> inflightKeys == leaked && forall f: nat :: f < |tasks| && !tasks[f].IsFile? ==> HandedOver(f) == 1
    {
      hide Inv, Futures, ReportedFutures;
      pending := futures != [] || exists k :: k in lookupFutures && lookupFutures[k] !in done;
      HandedOverIff(config, View());
    }

    /** How often polls have returned, or drains dropped, the job with future `f`. */
    ghost function HandedOver(f: nat): nat
      reads `reported, `drained
    {
      ReportedFutures(reported)[f] + multiset(drained)[f]
    }

    /** `on_request_finished` */
    method OnRequestFinished(request: nat)
      requires Valid()
      modifies `lookupFutures
      ensures Valid() && View() == Apply(config, old(View()), FinishRequest(request))
      ensures forall k :: k in lookupFutures <==> k in old(lookupFutures) && k.0 != request
      ensures forall k :: k in lookupFutures ==> lookupFutures[k] == old(lookupFutures)[k]
    {
      hide Inv;
      ActionKeeps(config, View(), FinishRequest(request));
      lookupFutures := map k | k in lookupFutures && k.0 != request :: lookupFutures[k];
    }

    /** Wait for one future: a worker ends it if none has yet. */
    method WaitFor(f: nat)
      requires Valid() && f < |tasks|
      modifies `done, `disk
      ensures Valid() && f in done && old(done).Keys <= done.Keys
    {
      hide Inv;
      Workers();
      if f !in done {
        match tasks[f]
        case IsFile(key) => End(f, Found(config.Present(disk, key)));
        case _ =>
          if CanEnd(config, disk, tasks[f], Returned) {
            End(f, Returned);
          } else {
            End(f, Raised);
          }
      }
    }

    /** wait((*futures, *lookups)) */
    method WaitAll(waited: set<nat>)
      requires Valid() && forall f :: f in waited ==> f < |tasks|
      modifies `done, `disk
      ensures Valid() && waited <= done.Keys
    {
      hide Inv;
      var left := waited;
      while left != {}
        invariant Valid() && left <= waited && waited - left <= done.Keys
        decreases |left|
      {
        var f :| f in left;
        WaitFor(f);
        left := left - {f};
      }
    }

    /** One round of `drain_jobs`: wait for everything tracked, reap it, drop the lookups. */
    method DrainRound()
      requires Valid()
      modifies `futures, `lookupFutures, `inflightKeys, `done, `disk, `reported, `drained
      ensures Valid() && futures == [] && lookupFutures == map[]
      ensures reported == old(reported) && |drained| == |old(drained)| + |old(futures)|
    {
      hide Inv, Keep, Reap, Results;
      var waited := (set job | job in futures :: job.future) + lookupFutures.Values;
      KnownFutures(config, View());
      WaitAll(waited);
      assert forall job :: job in futures ==> job.future in waited;
      ghost var before := futures;
      var dropped, seen := GetFinishedJobs(true);
      AllReaped(before, seen);
      KeepSize(before, seen);
      assert |dropped| == |Reap(before, seen)| by { ResultsSize(done, Reap(before, seen)); }
      ActionKeeps(config, View(), ClearLookups);
      lookupFutures := map[];
    }

    /** `drain_jobs`, with nobody submitting meanwhile: it ends, and nothing is left. */
    method DrainJobs()
      requires Valid()
      modifies `futures, `lookupFutures, `inflightKeys, `done, `disk, `reported, `drained
      ensures Valid() && futures == [] && lookupFutures == map[] && inflightKeys == leaked
      ensures reported == old(reported) && |drained| == |old(drained)| + |old(futures)|
    {
      hide Inv;
      while futures != [] || lookupFutures != map[]
        invariant Valid() && reported == old(reported) && |drained| + |futures| == |old(drained)| + |old(futures)|
        decreases futures != [] || lookupFutures != map[]
      {
        DrainRound();
      }
      NothingInflight(config, View());
    }
  }

  lemma ResultsSize(done: map<nat, Outcome>, reaped: seq<Job>)
    ensures |Results(done, reaped)| == |reaped|
  {
  }

  ghost predicate DistinctFutures(jobs: seq<Job>) {
    forall i, j :: 0 <= i < j < |jobs| ==> jobs[i].future != jobs[j].future
  }

  lemma {:induction false} FutureTwice(jobs: seq<Job>, i: nat, j: nat)
    requires i < j < |jobs| && jobs[i].future == jobs[j].future
    ensures Futures(jobs)[jobs[i].future] >= 2
  {
    var init, last := jobs[..|jobs| - 1], jobs[|jobs| - 1];
    if j < |jobs| - 1 {
      FutureTwice(init, i, j);
    } else {
      assert init[i] in init;
      FutureCounts(init, jobs[i]);
    }
  }

  /** The first `i` jobs of the snapshot have been looked at, those in `seen` have been reaped. */
  ghost predicate Reaped(
    snapshot: seq<Job>, i: nat, seen: set<nat>, left: seq<Job>, finished: seq<JobResult>, done: map<nat, Outcome>)
  {
    && i <= |snapshot| && DistinctFutures(snapshot) && seen <= done.Keys
    && (forall f :: f in seen ==> exists k :: 0 <= k < i && snapshot[k].future == f)
    && left == Keep(snapshot[..i], seen) + snapshot[i..]
    && finished == Results(done, Reap(snapshot[..i], seen))
  }

  lemma LaterResults(
    snapshot: seq<Job>, i: nat, seen: set<nat>, left: seq<Job>, finished: seq<JobResult>, before: map<nat, Outcome>, after: map<nat, Outcome>)
    requires Reaped(snapshot, i, seen, left, finished, before)
    requires before.Keys <= after.Keys && forall f :: f in before ==> after[f] == before[f]
    ensures Reaped(snapshot, i, seen, left, finished, after)
  {
    hide Keep, Reap;
    ReapedFrom(snapshot[..i], seen);
    SameResults(before, after, Reap(snapshot[..i], seen));
  }

  lemma NextResult(done: map<nat, Outcome>, reaped: seq<Job>, job: Job)
    ensures Results(done, reaped + [job]) == Results(done, reaped) + [JobResult(job.id, Success(done, job.future))]
  {
  }

  lemma {:induction false} KeepSize(jobs: seq<Job>, seen: set<nat>)
    ensures |Keep(jobs, seen)| + |Reap(jobs, seen)| == |jobs|
  {
    if jobs != [] {
      KeepSize(jobs[..|jobs| - 1], seen);
    }
  }

  lemma NothingSeen(c: Config, s: State)
    requires Inv(c, s)
    ensures Reaped(s.jobs, 0, {}, s.jobs, [], s.done)
  {
    hide SumKeys, Futures, ReportedFutures, Submitted;
    forall i, j | 0 <= i < j < |s.jobs|
      ensures s.jobs[i].future != s.jobs[j].future
    {
      if s.jobs[i].future == s.jobs[j].future {
        FutureTwice(s.jobs, i, j);
        SubmittedBelow(s.tasks, s.jobs[i].future);
        assert false;
      }
    }
  }

  lemma {:induction false} KeepConcat(a: seq<Job>, b: seq<Job>, seen: set<nat>)
    ensures Keep(a + b, seen) == Keep(a, seen) + Keep(b, seen)
  {
    hide Keep, Reap;
    NoJobs(seen);
    if b == [] {
      assert a + b == a;
    } else {
      var init, last := b[..|b| - 1], b[|b| - 1];
      assert a + b == (a + init) + [last] && b == init + [last];
      KeepConcat(a, init, seen);
      NextReap(a + init, last, seen);
      NextReap(init, last, seen);
    }
  }

  /** A future that no job of the list has does not matter. */
  lemma {:induction false} KeepOthers(jobs: seq<Job>, seen: set<nat>, f: nat)
    requires forall k :: 0 <= k < |jobs| ==> jobs[k].future != f
    ensures Keep(jobs, seen + {f}) == Keep(jobs, seen) && Reap(jobs, seen + {f}) == Reap(jobs, seen)
  {
    if jobs != [] {
      KeepOthers(jobs[..|jobs| - 1], seen, f);
    }
  }

  lemma {:induction false} KeepAll(jobs: seq<Job>, seen: set<nat>)
    requires forall k :: 0 <= k < |jobs| ==> jobs[k].future !in seen
    ensures Keep(jobs, seen) == jobs
  {
    if jobs != [] {
      KeepAll(jobs[..|jobs| - 1], seen);
    }
  }

  lemma {:induction false} AllReaped(jobs: seq<Job>, seen: set<nat>)
    requires forall job :: job in jobs ==> job.future in seen
    ensures Keep(jobs, seen) == []
  {
    if jobs != [] {
      assert jobs[|jobs| - 1] in jobs;
      AllReaped(jobs[..|jobs| - 1], seen);
    }
  }

  lemma {:induction false} KeepFrom(jobs: seq<Job>, seen: set<nat>, f: nat)
    requires forall k :: 0 <= k < |jobs| ==> jobs[k].future != f
    ensures forall k :: 0 <= k < |Keep(jobs, seen)| ==> Keep(jobs, seen)[k].future != f
  {
    if jobs != [] {
      KeepFrom(jobs[..|jobs| - 1], seen, f);
    }
  }

  lemma KeepTail(job: Job, rest: seq<Job>)
    requires forall k :: 0 <= k < |rest| ==> rest[k].future != job.future
    ensures Keep([job] + rest, {job.future}) == rest
  {
    hide Keep, Reap;
    KeepConcat([job], rest, {job.future});
    KeepAll(rest, {job.future});
    KeepNothing(job);
  }

  lemma KeepNothing(job: Job)
    ensures Keep([job], {job.future}) == []
  {
    assert [job][..0] == [];
  }

  /** Deleting the next job from what is left. */
  lemma WithoutNext(kept: seq<Job>, job: Job, rest: seq<Job>)
    requires forall k :: 0 <= k < |kept| ==> kept[k].future != job.future
    requires forall k :: 0 <= k < |rest| ==> rest[k].future != job.future
    ensures Keep(kept + ([job] + rest), {job.future}) == kept + rest
  {
    hide Keep, Reap;
    KeepConcat(kept, [job] + rest, {job.future});
    KeepAll(kept, {job.future});
    KeepTail(job, rest);
  }

  /** What looking at the next job of the snapshot changes, whether it is reaped or not. */
  lemma NextSeen(snapshot: seq<Job>, i: nat, seen: set<nat>)
    requires i < |snapshot| && DistinctFutures(snapshot)
    requires forall f :: f in seen ==> exists k :: 0 <= k < i && snapshot[k].future == f
    ensures var job, left := snapshot[i], Keep(snapshot[..i], seen) + snapshot[i..];
            && job.future !in seen && job in left
            && Keep(left, {job.future}) == Keep(snapshot[..i + 1], seen + {job.future}) + snapshot[i + 1..]
            && Reap(snapshot[..i + 1], seen + {job.future}) == Reap(snapshot[..i], seen) + [job]
            && left == Keep(snapshot[..i + 1], seen) + snapshot[i + 1..]
            && Reap(snapshot[..i + 1], seen) == Reap(snapshot[..i], seen)
  {
    hide Keep, Reap;
    var job, prefix, rest := snapshot[i], snapshot[..i], snapshot[i + 1..];
    var f, kept := job.future, Keep(prefix, seen);
    assert snapshot[..i + 1] == prefix + [job] && snapshot[i..] == [job] + rest;
    NextReap(prefix, job, seen);
    NextReap(prefix, job, seen + {f});
    KeepOthers(prefix, seen, f);
    KeepFrom(prefix, seen, f);
    WithoutNext(kept, job, rest);
    assert kept + ([job] + rest) == (kept + [job]) + rest;
  }

  /** Results do not change once a future is done. */
  lemma SameResults(before: map<nat, Outcome>, after: map<nat, Outcome>, reaped: seq<Job>)
    requires before.Keys <= after.Keys && forall f :: f in before ==> after[f] == before[f]
    requires forall i :: 0 <= i < |reaped| ==> reaped[i].future in before
    ensures Results(after, reaped) == Results(before, reaped)
  {
  }

  function Results(done: map<nat, Outcome>, reaped: seq<Job>): seq<JobResult> {
    seq(|reaped|, i requires 0 <= i < |reaped| => JobResult(reaped[i].id, Success(done, reaped[i].future)))
  }

  /** Jobs are tracked exactly while one has not been handed over. */
  lemma HandedOverIff(c: Config, s: State)
    requires Inv(c, s)
    ensures forall f: nat :: f < |s.tasks| && !s.tasks[f].IsFile? ==>
              Futures(s.jobs)[f] + (ReportedFutures(s.reported)[f] + multiset(s.drained)[f]) == 1
    ensures s.jobs != [] <==>
              exists f: nat :: f < |s.tasks| && !s.tasks[f].IsFile? && ReportedFutures(s.reported)[f] + multiset(s.drained)[f] == 0
    ensures s.jobs == [] ==> s.inflight == s.leaked && Futures(s.jobs) == multiset{}
  {
    hide SumKeys, Futures, ReportedFutures, Submitted, RecordPath;
    forall f: nat | f < |s.tasks| && !s.tasks[f].IsFile?
      ensures Futures(s.jobs)[f] + (ReportedFutures(s.reported)[f] + multiset(s.drained)[f]) == 1
    {
      JobsAccounted(c, s, f);
    }
    if s.jobs != [] {
      assert s.jobs[0] in s.jobs;
      FutureCounts(s.jobs, s.jobs[0]);
      var f := s.jobs[0].future;
      assert f < |s.tasks| && !s.tasks[f].IsFile? && ReportedFutures(s.reported)[f] + multiset(s.drained)[f] == 0;
    } else {
      NoJobs({});
    }
  }

  lemma KnownFutures(c: Config, s: State)
    requires Inv(c, s)
    ensures forall job :: job in s.jobs ==> job.future < |s.tasks|
    ensures forall f :: f in s.lookups.Values ==> f < |s.tasks|
  {
    hide SumKeys, Futures, Submitted;
  }

  lemma NothingInflight(c: Config, s: State)
    requires Inv(c, s) && s.jobs == []
    ensures s.inflight == s.leaked
  {
  }

  lemma {:induction false} ReapNone(jobs: seq<Job>, f: nat)
    requires Futures(jobs)[f] == 0
    ensures Reap(jobs, {f}) == [] && Keep(jobs, {f}) == jobs
  {
    hide SumKeys, Futures, Keep, Reap;
    if jobs == [] {
      NoJobs({f});
    } else {
      var init, last := jobs[..|jobs| - 1], jobs[|jobs| - 1];
      assert jobs == init + [last];
      AppendedJob(init, last);
      NextReap(init, last, {f});
      ReapNone(init, f);
    }
  }

  lemma {:induction false} FutureCounts(jobs: seq<Job>, job: Job)
    requires job in jobs
    ensures Futures(jobs)[job.future] > 0
  {
    if jobs[|jobs| - 1] != job {
      FutureCounts(jobs[..|jobs| - 1], job);
    }
  }

  lemma {:induction false} ReapSingle(jobs: seq<Job>, job: Job)
    requires job in jobs && Futures(jobs)[job.future] == 1
    ensures Reap(jobs, {job.future}) == [job] && |Keep(jobs, {job.future})| == |jobs| - 1
  {
    hide SumKeys, Futures, Keep, Reap;
    var init, last := jobs[..|jobs| - 1], jobs[|jobs| - 1];
    assert jobs == init + [last];
    AppendedJob(init, last);
    NextReap(init, last, {job.future});
    if last == job {
      ReapNone(init, job.future);
    } else {
      FutureCounts(init, job);
      ReapSingle(init, job);
    }
  }

  /** A future identifies its job. */
  lemma ReapOne(c: Config, s: State, job: Job)
    requires Inv(c, s) && job in s.jobs
    ensures Reap(s.jobs, {job.future}) == [job] && SumKeys([job]) == multiset(job.keys)
    ensures |Keep(s.jobs, {job.future})| == |s.jobs| - 1
    ensures forall other :: other in Keep(s.jobs, {job.future}) ==> other in s.jobs && other.future != job.future
  {
    hide SumKeys, Futures, ReportedFutures, Submitted, Keep, Reap;
    FutureCounts(s.jobs, job);
    SubmittedBelow(s.tasks, job.future);
    ReapSingle(s.jobs, job);
    ReapedFrom(s.jobs, {job.future});
    SumOfOne(job);
  }

  /** Reaping one job is a poll, or a drain's poll, that sees just its future. */
  lemma ReapStep(c: Config, s: State, job: Job, dropping: bool, result: JobResult)
    requires Inv(c, s) && job in s.jobs && job.future in s.done && result == JobResult(job.id, !s.done[job.future].Raised?)
    ensures |Keep(s.jobs, {job.future})| == |s.jobs| - 1
    ensures Inv(c, s.(jobs := Keep(s.jobs, {job.future}), inflight := s.inflight - multiset(job.keys),
                      reported := if dropping then s.reported else s.reported + [(job.future, result)],
                      drained := if dropping then s.drained + [job.future] else s.drained))
  {
    hide Inv, SumKeys, Keep, Reap;
    ReapOne(c, s, job);
    ActionKeeps(c, s, if dropping then DrainPoll({job.future}) else Poll({job.future}));
    assert Report(s.done, [job]) == [(job.future, result)] && FutureList([job]) == [job.future];
  }

  lemma SumOfOne(job: Job)
    ensures SumKeys([job]) == multiset(job.keys)
  {
    assert [job][..0] == [];
  }

  /** Every record offered at the key's path encodes the same block, under this configuration. */
  ghost predicate OffersEncode(
    c: Config, offered: set<(Path, seq<Byte>)>, key: Key, floats: V.Floats, view: seq<Byte>, bits: nat, groupSize: nat, dtype: V.Dtype)
    requires RecordPath(c.root, key, c.namespace).Ok? && V.Configured(bits, groupSize)
  {
    forall record :: (RecordPath(c.root, key, c.namespace).value, record) in offered ==>
      V.Encode(floats, view, bits, groupSize, dtype) == Ok(record)
  }

  /**
   From a hit on, a load of the key decodes: whatever ran in between, the bytes at its path make
   `decode_vllm_block` write the stored block's items, quantized and restored, in order into the whole destination.
  */
  lemma HitThenLoad(
    c: Config, s: State, request: nat, key: Key, actions: seq<Action>,
    floats: V.Floats, view: seq<Byte>, bits: nat, groupSize: nat, dtype: V.Dtype, items: seq<real>)
    requires Inv(c, s) && key in c.keys && Answer(s, request, key).Hit? && Run(c, s, actions).Some?
    requires floats.Valid() && V.Configured(bits, groupSize)
    requires RecordPath(c.root, key, c.namespace).Ok?
    requires OffersEncode(c, Run(c, s, actions).value.disk.offered, key, floats, view, bits, groupSize, dtype)
    requires V.AreItems(floats, view, dtype, items)
    ensures Quant.Quantizable(items, bits, groupSize)
    ensures var t, path := Run(c, s, actions).value, RecordPath(c.root, key, c.namespace).value;
            && path in t.disk.files
            && var decoded := V.Decoded(floats, t.disk.files[path].content, |view|);
               decoded.Ok? && V.HoldsStored(floats, dtype, items, bits, groupSize, decoded.value)
  {
    hide Inv, Run, RecordPath, V.Encode, V.Decoded, V.HoldsStored, V.AreItems, Answer, Quant.Quantizable;
    HitStaysSound(c, s, request, key, actions);
    V.DecodedItems(floats, view, bits, groupSize, dtype, items);
  }
}
