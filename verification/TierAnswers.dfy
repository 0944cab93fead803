/** What the tier manager owes its callers over a run: lookups are answered, and results carry the identifier of their job. */
module TierAnswers {
  import opened Bytes
  import opened RecordPaths
  import opened TierJobs
  import A = AtomicStore

  /** No tracked and no refused job names the key. */
  ghost predicate IsIdle(s: State, key: Key) {
    key !in s.leaked && forall i :: 0 <= i < |s.jobs| ==> key !in s.jobs[i].keys
  }

  lemma IdleIff(c: Config, s: State, key: Key)
    requires Inv(c, s)
    ensures IsIdle(s, key) <==> s.inflight[key] == 0
  {
    hide Inv;
    InflightIff(c, s, key);
  }

  // ----- lookups

  /** The lookups of the request survive the action, unless it is a lookup itself. */
  predicate Spares(a: Action, request: nat) {
    !a.ClearLookups? && a != FinishRequest(request)
  }

  /** The lookup is under way, with this future. */
  predicate IsTracked(s: State, request: nat, key: Key, f: nat) {
    (request, key) in s.lookups && s.lookups[(request, key)] == f
  }

  lemma TrackedStays(c: Config, s: State, a: Action, request: nat, key: Key, f: nat)
    requires Enabled(c, s, a) && IsTracked(s, request, key, f) && Spares(a, request)
    requires a == Lookup(request, key) ==> f !in s.done
    ensures IsTracked(Apply(c, s, a), request, key, f)
  {
    hide SumKeys, Keep, Reap, Report, FutureList, CanEnd, A.Enabled, A.Apply, Config.Finals;
  }

  lemma DoneStays(c: Config, s: State, a: Action)
    requires Enabled(c, s, a)
    ensures forall f :: f in s.done ==> f in Apply(c, s, a).done && Apply(c, s, a).done[f] == s.done[f]
    ensures forall f :: f in Apply(c, s, a).done && f !in s.done ==> a.Complete? && a.future == f
    ensures |s.tasks| <= |Apply(c, s, a).tasks|
  {
    hide SumKeys, Keep, Reap, Report, FutureList, CanEnd, A.Enabled, A.Apply, Config.Finals;
  }

  /** Until its worker ends, the lookup stays under way. */
  lemma {:induction false} Waits(c: Config, s: State, actions: seq<Action>, request: nat, key: Key, f: nat)
    requires Run(c, s, actions).Some? && IsTracked(s, request, key, f) && f !in s.done
    requires forall i :: 0 <= i < |actions| ==> Spares(actions[i], request) && !(actions[i].Complete? && actions[i].future == f)
    ensures IsTracked(Run(c, s, actions).value, request, key, f) && f !in Run(c, s, actions).value.done
  {
    hide Enabled, Apply, IsTracked;
    if actions != [] {
      var init, last := actions[..|actions| - 1], actions[|actions| - 1];
      assert forall i :: 0 <= i < |init| ==> init[i] == actions[i];
      Waits(c, s, init, request, key, f);
      TrackedStays(c, Run(c, s, init).value, last, request, key, f);
      DoneStays(c, Run(c, s, init).value, last);
    }
  }

  /** From then on, until it is asked again, it keeps its outcome. */
  lemma {:induction false} Settles(c: Config, s: State, actions: seq<Action>, request: nat, key: Key, f: nat)
    requires Run(c, s, actions).Some? && IsTracked(s, request, key, f) && f in s.done
    requires forall i :: 0 <= i < |actions| ==> Spares(actions[i], request) && actions[i] != Lookup(request, key)
    ensures var t := Run(c, s, actions).value;
            IsTracked(t, request, key, f) && f in t.done && t.done[f] == s.done[f]
  {
    hide Enabled, Apply, IsTracked;
    if actions != [] {
      var init, last := actions[..|actions| - 1], actions[|actions| - 1];
      assert forall i :: 0 <= i < |init| ==> init[i] == actions[i];
      Settles(c, s, init, request, key, f);
      TrackedStays(c, Run(c, s, init).value, last, request, key, f);
      DoneStays(c, Run(c, s, init).value, last);
    }
  }

  lemma Begins(c: Config, s: State, request: nat, key: Key)
    requires Inv(c, s) && key in c.keys && 5 <= |key| && s.open && (request, key) !in s.lookups && IsIdle(s, key)
    ensures Answer(s, request, key) == Retry
    ensures var t := Apply(c, s, Lookup(request, key));
            && IsTracked(t, request, key, |s.tasks|) && |s.tasks| !in t.done
            && |t.tasks| == |s.tasks| + 1 && t.tasks[|s.tasks|] == IsFile(key)
  {
    hide SumKeys, Futures, ReportedFutures, Submitted, A.Inv, A.AreFinals, Config.Finals, Config.Present;
    IdleIff(c, s, key);
  }

  /** Answering a lookup whose worker has ended, and what that leaves behind. */
  lemma AnswersDone(c: Config, s: State, request: nat, key: Key, f: nat)
    requires Inv(c, s) && IsTracked(s, request, key, f) && f in s.done && IsIdle(s, key)
    ensures s.done[f] == Found(true) ==> Answer(s, request, key) == Hit
    ensures s.done[f] == Found(false) ==> Answer(s, request, key) == Miss
    ensures s.done[f].Raised? ==> Answer(s, request, key) == Error
    ensures var t := AfterLookup(s, request, key);
            && t == s.(lookups := t.lookups) && (request, key) !in t.lookups
            && forall k :: k != (request, key) ==> (k in t.lookups <==> k in s.lookups) && (k in s.lookups ==> t.lookups[k] == s.lookups[k])
  {
    hide Inv;
    IdleIff(c, s, key);
  }

  /**
   What a lookup answers and changes, in full. With a tracked or refused job on the key: RETRY, and nothing. Otherwise a
   first lookup starts a worker and answers RETRY, or raises for a short key or a closed pool; a lookup under way answers
   RETRY; and one whose worker has ended answers its outcome and is forgotten.
  */
  lemma LookupCases(c: Config, s: State, request: nat, key: Key)
    requires Inv(c, s)
    ensures var r, t := Answer(s, request, key), AfterLookup(s, request, key);
            if !IsIdle(s, key) then r == Retry && t == s
            else if (request, key) !in s.lookups then
              if |key| < 5 || !s.open then r == Error && t == s
              else r == Retry && t == s.(lookups := s.lookups[(request, key) := |s.tasks|], tasks := s.tasks + [IsFile(key)])
            else if s.lookups[(request, key)] !in s.done then r == Retry && t == s
            else
              && t == s.(lookups := map k | k in s.lookups && k != (request, key) :: s.lookups[k])
              && match s.done[s.lookups[(request, key)]]
                 case Found(present) => r == if present then Hit else Miss
                 case _ => r == Error
  {
    hide Inv;
    IdleIff(c, s, key);
  }

  lemma {:induction false} TaskStays(c: Config, s: State, actions: seq<Action>, f: nat)
    requires Run(c, s, actions).Some? && f < |s.tasks|
    ensures f < |Run(c, s, actions).value.tasks| && Run(c, s, actions).value.tasks[f] == s.tasks[f]
  {
    hide Enabled, Apply;
    if actions != [] {
      TaskStays(c, s, actions[..|actions| - 1], f);
      TasksGrow(c, Run(c, s, actions[..|actions| - 1]).value, actions[|actions| - 1], f);
    }
  }

  lemma TasksGrow(c: Config, s: State, a: Action, f: nat)
    requires Enabled(c, s, a) && f < |s.tasks|
    ensures f < |Apply(c, s, a).tasks| && Apply(c, s, a).tasks[f] == s.tasks[f]
  {
    hide SumKeys, Keep, Reap, Report, FutureList, CanEnd, A.Enabled, A.Apply, Config.Finals;
  }

  /**
   A lookup ends. Asked first for a key that no tracked and no refused job names, it answers RETRY and starts a worker.
   Whatever runs until the worker ends without raising, and whatever runs after that, the next time the same request asks
   while no job names the key it answers HIT if the record was present when the worker ended, and MISS if it was absent.
   The lookup is then no longer tracked; every other one is as before.
  */
  lemma {:induction false} LookupAnswered(
    c: Config, s: State, request: nat, key: Key, waiting: seq<Action>, outcome: Outcome, settled: seq<Action>)
    requires Inv(c, s) && key in c.keys && 5 <= |key| && s.open && (request, key) !in s.lookups && IsIdle(s, key)
    requires forall i :: 0 <= i < |waiting| ==>
               Spares(waiting[i], request) && !(waiting[i].Complete? && waiting[i].future == |s.tasks|)
    requires forall i :: 0 <= i < |settled| ==> Spares(settled[i], request) && settled[i] != Lookup(request, key)
    requires Run(c, Apply(c, s, Lookup(request, key)), waiting).Some?
    requires var ended := Run(c, Apply(c, s, Lookup(request, key)), waiting).value;
             && Enabled(c, ended, Complete(|s.tasks|, outcome)) && !outcome.Raised?
             && var after := Run(c, Apply(c, ended, Complete(|s.tasks|, outcome)), settled);
                after.Some? && IsIdle(after.value, key)
    ensures Answer(s, request, key) == Retry
    ensures var ended := Run(c, Apply(c, s, Lookup(request, key)), waiting).value;
            var t := Run(c, Apply(c, ended, Complete(|s.tasks|, outcome)), settled).value;
            var u := AfterLookup(t, request, key);
            && Answer(t, request, key) == (if c.Present(ended.disk, key) then Hit else Miss)
            && u == t.(lookups := u.lookups) && (request, key) !in u.lookups
            && forall k :: k != (request, key) ==> (k in u.lookups <==> k in t.lookups) && (k in t.lookups ==> u.lookups[k] == t.lookups[k])
  {
    hide Inv, Run, Config.Present, Answer, AfterLookup, IsTracked, IsIdle;
    var f := |s.tasks|;
    Begins(c, s, request, key);
    var first := Apply(c, s, Lookup(request, key));
    ActionKeeps(c, s, Lookup(request, key));
    Waits(c, first, waiting, request, key, f);
    RunKeeps(c, first, waiting);
    TaskStays(c, first, waiting, f);
    var ended := Run(c, first, waiting).value;
    ActionKeeps(c, ended, Complete(f, outcome));
    TrackedStays(c, ended, Complete(f, outcome), request, key, f);
    var done := Apply(c, ended, Complete(f, outcome));
    Settles(c, done, settled, request, key, f);
    RunKeeps(c, done, settled);
    AnswersDone(c, Run(c, done, settled).value, request, key, f);
  }

  /** Callers are never held up, and any worker that has not ended may raise. */
  lemma NothingBlocks(c: Config, s: State, request: nat, key: Key, id: nat, task: Task, f: nat)
    requires key in c.keys && !task.IsFile? && forall k :: k in task.keys ==> k in c.keys
    ensures Enabled(c, s, Lookup(request, key)) && Enabled(c, s, FinishRequest(request))
    ensures Enabled(c, s, if s.open then Submit(id, task) else Refuse(task))
    ensures Enabled(c, s, Poll(s.done.Keys))
    ensures f < |s.tasks| && f !in s.done ==> Enabled(c, s, Complete(f, Raised))
    ensures f < |s.tasks| && f !in s.done && s.tasks[f].IsFile? ==>
              exists present :: Enabled(c, s, Complete(f, Found(present)))
  {
    hide Config.Present, A.Enabled;
    if f < |s.tasks| && f !in s.done && s.tasks[f].IsFile? {
      assert Enabled(c, s, Complete(f, Found(c.Present(s.disk, s.tasks[f].key))));
    }
  }

  // ----- the identifiers of jobs

  /** Wherever the job with future `f` is, it carries this identifier and these keys. */
  ghost predicate Carries(s: State, f: nat, id: nat, keys: seq<Key>) {
    && f < |s.tasks|
    && (forall i :: 0 <= i < |s.jobs| && s.jobs[i].future == f ==> s.jobs[i].id == id && s.jobs[i].keys == keys)
    && (forall i :: 0 <= i < |s.reported| && s.reported[i].0 == f ==> s.reported[i].1.id == id)
  }

  lemma CarriesNext(c: Config, s: State, a: Action, f: nat, id: nat, keys: seq<Key>)
    requires Enabled(c, s, a) && Carries(s, f, id, keys)
    ensures Carries(Apply(c, s, a), f, id, keys)
  {
    hide SumKeys, Keep, Reap, FutureList, CanEnd, A.Enabled, A.Apply, Config.Finals;
    if a.Poll? || a.DrainPoll? {
      ReapedFrom(s.jobs, a.seen);
    }
  }

  lemma {:induction false} CarriesOn(c: Config, s: State, actions: seq<Action>, f: nat, id: nat, keys: seq<Key>)
    requires Run(c, s, actions).Some? && Carries(s, f, id, keys)
    ensures Carries(Run(c, s, actions).value, f, id, keys)
  {
    hide Enabled, Apply, Carries;
    if actions != [] {
      CarriesOn(c, s, actions[..|actions| - 1], f, id, keys);
      CarriesNext(c, Run(c, s, actions[..|actions| - 1]).value, actions[|actions| - 1], f, id, keys);
    }
  }

  lemma NotYet(c: Config, s: State)
    requires Inv(c, s)
    ensures forall i :: 0 <= i < |s.reported| ==> s.reported[i].0 < |s.tasks|
    ensures forall i :: 0 <= i < |s.jobs| ==> s.jobs[i].future < |s.tasks|
  {
    hide SumKeys, Futures, ReportedFutures, Submitted, A.Inv, A.AreFinals, Config.Finals, Config.Present;
  }

  /** Whatever a poll ever reports for a submitted job, it reports under the identifier it was submitted with. */
  lemma ReportedId(c: Config, s: State, id: nat, task: Task, actions: seq<Action>, i: nat)
    requires Inv(c, s) && Enabled(c, s, Submit(id, task)) && Run(c, Apply(c, s, Submit(id, task)), actions).Some?
    requires var t := Run(c, Apply(c, s, Submit(id, task)), actions).value;
             i < |t.reported| && t.reported[i].0 == |s.tasks|
    ensures Run(c, Apply(c, s, Submit(id, task)), actions).value.reported[i].1.id == id
  {
    hide Inv, Run;
    NotYet(c, s);
    CarriesOn(c, Apply(c, s, Submit(id, task)), actions, |s.tasks|, id, task.keys);
  }
}
