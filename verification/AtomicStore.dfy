/**
 `store_record_atomic`: any number of writers, in any number of processes, over one file system, with exceptions at any
 step, processes that die at any step, and power losses.
*/
module AtomicStore {
  import opened Bytes
  import opened RecordPaths

  /** Contents, and whether fsync has made them durable. */
  datatype File = File(content: seq<Byte>, synced: bool)

  datatype Phase =
    | Idle
    | Checking                       // before path.exists()
    | Opening                        // before temporary.open("xb")
    | Writing(written: nat)          // the temporary holds this much of the record
    | Replacing                      // flushed and synced, before os.replace
    | Cleaning(replaced: bool)       // in the finally clause

  /** A thread of a process, and the call it is in. */
  datatype Writer = Writer(pid: nat, thread: nat, path: Path, record: seq<Byte>, phase: Phase) {
    function Temp(): Path
      requires path != []
    {
      Temporary(path, pid, thread)
    }
  }

  /** `offered` remembers every record that was ever passed in for a path. */
  datatype State = State(files: map<Path, File>, writers: seq<Writer>, offered: set<(Path, seq<Byte>)>)

  datatype Action =
    | Call(w: nat, path: Path, record: seq<Byte>)
    | Exists(w: nat)                 // return: the record is there
    | Absent(w: nat)
    | Open(w: nat)                   // create, or FileExistsError
    | Write(w: nat, upTo: nat)
    | Sync(w: nat)
    | Replace(w: nat)
    | Fail(w: nat)                   // any other exception
    | Unlink(w: nat)                 // the finally clause ends the call
    | Crash(pid: nat)                // a process dies; its files stay
    | PowerLoss(kept: set<Path>, torn: map<Path, seq<Byte>>, undone: seq<Entry>)

  /**
   A directory entry that a power loss brings back, because the rename or unlink that took it away had not reached the
   disk: a record that had been at the path before, or a temporary of it with anything in it.
  */
  datatype Entry = Earlier(path: Path, content: seq<Byte>) | Leftover(path: Path, pid: nat, thread: nat, file: File)

  /** Record paths: never a temporary of one another, and no two share a temporary. */
  ghost predicate AreFinals(finals: set<Path>) {
    && (forall p :: p in finals ==> p != [])
    && (forall p, q, pid, thread :: p in finals && q in finals ==> NotTemporary(p, q, pid, thread))
    && (forall p, q, pid, thread, otherPid, otherThread :: p in finals && q in finals ==>
          Separate(p, q, pid, thread, otherPid, otherThread))
  }

  predicate NotTemporary(p: Path, q: Path, pid: nat, thread: nat) {
    q != [] ==> p != Temporary(q, pid, thread)
  }

  predicate Separate(p: Path, q: Path, pid: nat, thread: nat, otherPid: nat, otherThread: nat) {
    p != [] && q != [] && Temporary(p, pid, thread) == Temporary(q, otherPid, otherThread) ==>
      p == q && pid == otherPid && thread == otherThread
  }

  /** The paths of all keys of a store are such paths. */
  lemma RecordPathsAreFinals(root: Path, namespace: string, finals: set<Path>)
    requires forall p :: p in finals ==> exists key :: RecordPath(root, key, namespace) == Ok(p)
    ensures AreFinals(finals)
  {
    hide Temporary, RecordPath;
    forall p | p in finals
      ensures p != []
    {
      var key :| RecordPath(root, key, namespace) == Ok(p);
      PathNotEmpty(root, key, namespace);
    }
    forall p, q, pid, thread | p in finals && q in finals
      ensures NotTemporary(p, q, pid, thread)
    {
      var key :| RecordPath(root, key, namespace) == Ok(p);
      if q != [] {
        TemporaryIsNoRecord(q, pid, thread, root, key, namespace);
      }
    }
    forall p, q, pid, thread, otherPid, otherThread | p in finals && q in finals
      ensures Separate(p, q, pid, thread, otherPid, otherThread)
    {
      var a :| RecordPath(root, a, namespace) == Ok(p);
      var b :| RecordPath(root, b, namespace) == Ok(q);
      if p != [] && q != [] && Temporary(p, pid, thread) == Temporary(q, otherPid, otherThread) {
        TemporariesApart(root, namespace, a, pid, thread, b, otherPid, otherThread);
      }
    }
  }

  lemma PathNotEmpty(root: Path, key: seq<Byte>, namespace: string)
    requires RecordPath(root, key, namespace).Ok?
    ensures RecordPath(root, key, namespace).value != []
  {
  }

  predicate Enabled(finals: set<Path>, s: State, a: Action) {
    match a
    case Call(w, path, _) => w < |s.writers| && s.writers[w].phase.Idle? && path in finals && path != []
    case Exists(w) => w < |s.writers| && s.writers[w].phase.Checking? && s.writers[w].path in s.files
    case Absent(w) => w < |s.writers| && s.writers[w].phase.Checking? && s.writers[w].path !in s.files
    case Open(w) => w < |s.writers| && s.writers[w].phase.Opening? && s.writers[w].path != []
    case Write(w, n) =>
      && w < |s.writers| && s.writers[w].phase.Writing? && s.writers[w].path != []
      && s.writers[w].phase.written < n <= |s.writers[w].record|
    case Sync(w) =>
      && w < |s.writers| && s.writers[w].phase.Writing? && s.writers[w].path != []
      && s.writers[w].phase.written == |s.writers[w].record|
    case Replace(w) =>
      w < |s.writers| && s.writers[w].phase.Replacing? && s.writers[w].path != [] && s.writers[w].Temp() in s.files
    case Fail(w) => w < |s.writers| && !s.writers[w].phase.Idle? && !s.writers[w].phase.Cleaning?
    case Unlink(w) => w < |s.writers| && s.writers[w].phase.Cleaning? && s.writers[w].path != []
    case Crash(_) => true
    case PowerLoss(_, _, undone) => forall i :: 0 <= i < |undone| ==> CanReturn(finals, s, undone[i])
  }

  predicate CanReturn(finals: set<Path>, s: State, e: Entry) {
    e.path in finals && e.path != [] && (e.Earlier? ==> (e.path, e.content) in s.offered)
  }

  /** The files with the returned entries. */
  function Returned(files: map<Path, File>, undone: seq<Entry>): map<Path, File>
    requires forall i :: 0 <= i < |undone| ==> undone[i].path != []
  {
    if undone == [] then files
    else
      var before, e := Returned(files, undone[..|undone| - 1]), undone[|undone| - 1];
      if e.Earlier? then before[e.path := File(e.content, true)]
      else before[Temporary(e.path, e.pid, e.thread) := e.file]
  }

  /** What is left of the files that were there: some, and of those that were not synced anything. */
  function Surviving(files: map<Path, File>, kept: set<Path>, torn: map<Path, seq<Byte>>): map<Path, File> {
    map p | p in files && p in kept :: if files[p].synced then files[p] else File(if p in torn then torn[p] else [], false)
  }

  function Enter(s: State, w: nat, phase: Phase): State
    requires w < |s.writers|
  {
    s.(writers := s.writers[w := s.writers[w].(phase := phase)])
  }

  function Stop(writers: seq<Writer>, pid: Option<nat>): seq<Writer> {
    seq(|writers|, i requires 0 <= i < |writers| =>
      if pid.None? || writers[i].pid == pid.value then writers[i].(phase := Idle) else writers[i])
  }

  function Apply(finals: set<Path>, s: State, a: Action): State
    requires Enabled(finals, s, a)
  {
    match a
    case Call(w, path, record) =>
      s.(writers := s.writers[w := s.writers[w].(path := path, record := record, phase := Checking)],
         offered := s.offered + {(path, record)})
    case Exists(w) => Enter(s, w, Idle)
    case Absent(w) => Enter(s, w, Opening)
    case Open(w) =>
      var temp := s.writers[w].Temp();
      if temp in s.files then Enter(s, w, Cleaning(false))
      else Enter(s, w, Writing(0)).(files := s.files[temp := File([], false)])
    case Write(w, n) => Enter(s, w, Writing(n)).(files := s.files[s.writers[w].Temp() := File(s.writers[w].record[..n], false)])
    case Sync(w) => Enter(s, w, Replacing).(files := s.files[s.writers[w].Temp() := File(s.writers[w].record, true)])
    case Replace(w) =>
      var temp := s.writers[w].Temp();
      Enter(s, w, Cleaning(true)).(files := (s.files - {temp})[s.writers[w].path := s.files[temp]])
    case Fail(w) => Enter(s, w, if s.writers[w].phase.Checking? then Idle else Cleaning(false))
    case Unlink(w) => Enter(s, w, Idle).(files := s.files - {s.writers[w].Temp()})
    case Crash(pid) => s.(writers := Stop(s.writers, Some(pid)))
    case PowerLoss(kept, torn, undone) =>
      State(Returned(Surviving(s.files, kept, torn), undone), Stop(s.writers, None), s.offered)
  }

  function Run(finals: set<Path>, s: State, actions: seq<Action>): Option<State> {
    if actions == [] then Some(s)
    else
      var before, a := Run(finals, s, actions[..|actions| - 1]), actions[|actions| - 1];
      if before.Some? && Enabled(finals, before.value, a) then Some(Apply(finals, before.value, a)) else None
  }

  // ----- the invariant

  /** A record path holds one whole record that a writer passed in for it, and holds it durably. */
  ghost predicate WholeRecords(finals: set<Path>, s: State) {
    forall p :: p in finals && p in s.files ==> s.files[p].synced && (p, s.files[p].content) in s.offered
  }

  /** What a writer inside a call knows of its own temporary. */
  ghost predicate WriterOk(finals: set<Path>, s: State, w: Writer) {
    !w.phase.Idle? ==>
      && w.path in finals && w.path != [] && (w.path, w.record) in s.offered
      && match w.phase
         case Writing(n) => n <= |w.record| && w.Temp() in s.files && s.files[w.Temp()] == File(w.record[..n], false)
         case Replacing => w.Temp() in s.files && s.files[w.Temp()] == File(w.record, true)
         case _ => true
  }

  ghost predicate ThreadsDiffer(writers: seq<Writer>) {
    forall i, j :: 0 <= i < j < |writers| ==> writers[i].pid != writers[j].pid || writers[i].thread != writers[j].thread
  }

  ghost predicate Inv(finals: set<Path>, s: State) {
    && ThreadsDiffer(s.writers) && WholeRecords(finals, s)
    && forall i :: 0 <= i < |s.writers| ==> WriterOk(finals, s, s.writers[i])
  }

  /** A writer's temporary is no record path and nobody else's temporary. */
  lemma OwnTemporary(finals: set<Path>, s: State, w: nat)
    requires AreFinals(finals) && Inv(finals, s) && w < |s.writers| && !s.writers[w].phase.Idle?
    ensures s.writers[w].path != [] && s.writers[w].path in finals && s.writers[w].Temp() !in finals
    ensures forall i :: 0 <= i < |s.writers| && i != w && !s.writers[i].phase.Idle? ==>
              s.writers[i].path != [] && s.writers[i].Temp() != s.writers[w].Temp()
    ensures forall i :: 0 <= i < |s.writers| && !s.writers[i].phase.Idle? ==>
              s.writers[i].path != [] && s.writers[i].Temp() != s.writers[w].path
  {
    hide Temporary;
    var x := s.writers[w];
    assert WriterOk(finals, s, x);
    forall p | p in finals
      ensures p != x.Temp()
    {
      assert NotTemporary(p, x.path, x.pid, x.thread);
    }
    forall i | 0 <= i < |s.writers| && !s.writers[i].phase.Idle?
      ensures s.writers[i].path != [] && s.writers[i].Temp() != x.path
      ensures i != w ==> s.writers[i].Temp() != x.Temp()
    {
      var y := s.writers[i];
      assert WriterOk(finals, s, y);
      assert NotTemporary(x.path, y.path, y.pid, y.thread);
      assert Separate(y.path, x.path, y.pid, y.thread, x.pid, x.thread);
    }
  }

  /** Entering another phase and rewriting one's own temporary disturbs nobody else. */
  lemma OwnStep(finals: set<Path>, s: State, t: State, w: nat)
    requires AreFinals(finals) && Inv(finals, s) && w < |s.writers| && !s.writers[w].phase.Idle? && |t.writers| == |s.writers|
    requires t.offered == s.offered && t.writers == s.writers[w := s.writers[w].(phase := t.writers[w].phase)]
    requires s.writers[w].path != [] ==>
               forall p :: p != s.writers[w].Temp() ==> (p in t.files <==> p in s.files) && (p in s.files ==> t.files[p] == s.files[p])
    requires WriterOk(finals, t, t.writers[w])
    ensures Inv(finals, t)
  {
    hide Temporary, AreFinals;
    OwnTemporary(finals, s, w);
    forall i | 0 <= i < |t.writers|
      ensures WriterOk(finals, t, t.writers[i])
    {
      if i != w {
        assert WriterOk(finals, s, s.writers[i]);
      }
    }
  }

  lemma CallKeeps(finals: set<Path>, s: State, w: nat, path: Path, record: seq<Byte>)
    requires Inv(finals, s) && Enabled(finals, s, Call(w, path, record))
    ensures Inv(finals, Apply(finals, s, Call(w, path, record)))
  {
    hide Temporary;
    var t := Apply(finals, s, Call(w, path, record));
    forall i | 0 <= i < |t.writers|
      ensures WriterOk(finals, t, t.writers[i])
    {
      assert WriterOk(finals, s, s.writers[i]);
    }
  }

  lemma ReplaceKeeps(finals: set<Path>, s: State, w: nat)
    requires AreFinals(finals) && Inv(finals, s) && Enabled(finals, s, Replace(w))
    ensures Inv(finals, Apply(finals, s, Replace(w)))
  {
    hide Temporary, AreFinals;
    OwnTemporary(finals, s, w);
    assert WriterOk(finals, s, s.writers[w]);
    var t := Apply(finals, s, Replace(w));
    forall i | 0 <= i < |t.writers|
      ensures WriterOk(finals, t, t.writers[i])
    {
      assert WriterOk(finals, s, s.writers[i]);
    }
  }

  /** Entries that return leave only whole records at record paths. */
  lemma {:induction false} ReturnedWhole(finals: set<Path>, s: State, files: map<Path, File>, undone: seq<Entry>)
    requires AreFinals(finals)
    requires forall i :: 0 <= i < |undone| ==> undone[i].path != [] && CanReturn(finals, s, undone[i])
    requires forall p :: p in finals && p in files ==> files[p].synced && (p, files[p].content) in s.offered
    ensures var after := Returned(files, undone);
            forall p :: p in finals && p in after ==> after[p].synced && (p, after[p].content) in s.offered
  {
    hide Temporary;
    if undone != [] {
      var e := undone[|undone| - 1];
      ReturnedWhole(finals, s, files, undone[..|undone| - 1]);
      assert CanReturn(finals, s, e);
      forall p | p in finals && e.Leftover?
        ensures p != Temporary(e.path, e.pid, e.thread)
      {
        assert NotTemporary(p, e.path, e.pid, e.thread);
      }
    }
  }

  lemma StopKeeps(finals: set<Path>, s: State, a: Action)
    requires AreFinals(finals) && Inv(finals, s) && Enabled(finals, s, a) && (a.Crash? || a.PowerLoss?)
    ensures Inv(finals, Apply(finals, s, a))
  {
    hide Temporary, AreFinals;
    if a.PowerLoss? {
      ReturnedWhole(finals, s, Surviving(s.files, a.kept, a.torn), a.undone);
    }
    var t := Apply(finals, s, a);
    forall i | 0 <= i < |t.writers|
      ensures WriterOk(finals, t, t.writers[i])
    {
      assert WriterOk(finals, s, s.writers[i]);
    }
  }

  lemma ActionKeeps(finals: set<Path>, s: State, a: Action)
    requires AreFinals(finals) && Inv(finals, s) && Enabled(finals, s, a)
    ensures Inv(finals, Apply(finals, s, a))
  {
    hide Temporary, AreFinals;
    match a {
      case Call(w, path, record) => CallKeeps(finals, s, w, path, record);
      case Replace(w) => ReplaceKeeps(finals, s, w);
      case Crash(_) => StopKeeps(finals, s, a);
      case PowerLoss(_, _, _) => StopKeeps(finals, s, a);
      case _ =>
        assert WriterOk(finals, s, s.writers[a.w]);
        OwnStep(finals, s, Apply(finals, s, a), a.w);
    }
  }

  // ----- what callers rely on

  /**
   No call is under way. The directory may hold whole records of earlier processes, and temporaries that were left over
   with anything in them.
  */
  ghost predicate Quiet(finals: set<Path>, s: State) {
    && ThreadsDiffer(s.writers) && WholeRecords(finals, s)
    && forall i :: 0 <= i < |s.writers| ==> s.writers[i].phase.Idle?
  }

  /** Runs may start from any quiet directory, an empty one for instance; a power loss leads to one. */
  lemma QuietStarts(finals: set<Path>, s: State)
    ensures Quiet(finals, s) ==> Inv(finals, s) && Stored(s)
    ensures ThreadsDiffer(s.writers) && s.files == map[] && (forall i :: 0 <= i < |s.writers| ==> s.writers[i].phase.Idle?) ==>
              Quiet(finals, s)
  {
  }

  lemma PowerLossIsQuiet(finals: set<Path>, s: State, a: Action)
    requires AreFinals(finals) && Inv(finals, s) && Enabled(finals, s, a) && a.PowerLoss?
    ensures Quiet(finals, Apply(finals, s, a))
  {
    hide AreFinals, Returned, WriterOk, WholeRecords;
    StopKeeps(finals, s, a);
  }

  /**
   Nothing rules a fault out: a process may die at any time, a call may raise before its finally clause, and a power loss
   may leave any part of the files, with anything in those that were not synced.
  */
  lemma FaultsHappen(finals: set<Path>, s: State, pid: nat, w: nat, kept: set<Path>, torn: map<Path, seq<Byte>>)
    ensures Enabled(finals, s, Crash(pid)) && Enabled(finals, s, PowerLoss(kept, torn, []))
    ensures w < |s.writers| && !s.writers[w].phase.Idle? && !s.writers[w].phase.Cleaning? ==> Enabled(finals, s, Fail(w))
    ensures forall i :: 0 <= i < |s.writers| && s.writers[i].pid == pid ==> Apply(finals, s, Crash(pid)).writers[i].phase.Idle?
    ensures Apply(finals, s, Crash(pid)).files == s.files
    ensures var t := Apply(finals, s, PowerLoss(kept, torn, []));
            && t.files.Keys == s.files.Keys * kept
            && forall p :: p in t.files ==>
                 && (s.files[p].synced ==> t.files[p] == s.files[p])
                 && (!s.files[p].synced && p in torn ==> t.files[p].content == torn[p])
  {
    hide Temporary;
  }

  /** After any run, a record path is absent or holds exactly one whole record that some writer passed in for it. */
  lemma {:induction false} AbsentOrWhole(finals: set<Path>, s: State, actions: seq<Action>)
    requires AreFinals(finals) && Inv(finals, s) && Run(finals, s, actions).Some?
    ensures Inv(finals, Run(finals, s, actions).value)
    ensures var t := Run(finals, s, actions).value;
            forall p :: p in finals && p in t.files ==> (p, t.files[p].content) in t.offered
  {
    hide AreFinals, Enabled, Apply, WriterOk;
    if actions != [] {
      var before := Run(finals, s, actions[..|actions| - 1]).value;
      AbsentOrWhole(finals, s, actions[..|actions| - 1]);
      ActionKeeps(finals, before, actions[|actions| - 1]);
    }
  }

  lemma PresentStays(finals: set<Path>, s: State, a: Action, p: Path)
    requires AreFinals(finals) && Inv(finals, s) && Enabled(finals, s, a) && !a.PowerLoss?
    requires p in finals && p in s.files
    ensures p in Apply(finals, s, a).files
  {
    hide Temporary, AreFinals;
    match a
    case Open(w) => OwnTemporary(finals, s, w);
    case Write(w, _) => OwnTemporary(finals, s, w);
    case Sync(w) => OwnTemporary(finals, s, w);
    case Replace(w) => OwnTemporary(finals, s, w);
    case Unlink(w) => OwnTemporary(finals, s, w);
    case _ =>
  }

  /** Once a record is there it stays, whatever writers and dying processes do; only a power loss can take it back. */
  lemma {:induction false} NeverAbsentAgain(finals: set<Path>, s: State, actions: seq<Action>, p: Path)
    requires AreFinals(finals) && Inv(finals, s) && Run(finals, s, actions).Some?
    requires forall i :: 0 <= i < |actions| ==> !actions[i].PowerLoss?
    requires p in finals && p in s.files
    ensures Inv(finals, Run(finals, s, actions).value) && p in Run(finals, s, actions).value.files
  {
    hide AreFinals, Enabled, Apply, Inv;
    if actions != [] {
      var before := Run(finals, s, actions[..|actions| - 1]).value;
      NeverAbsentAgain(finals, s, actions[..|actions| - 1], p);
      ActionKeeps(finals, before, actions[|actions| - 1]);
      PresentStays(finals, before, actions[|actions| - 1], p);
    }
  }

  /** The temporaries of a thread are there, or not, as before; `path` may be an exception. */
  ghost predicate SameTemporaries(
    finals: set<Path>, pid: nat, thread: nat, path: Path, before: map<Path, File>, after: map<Path, File>)
    requires forall p :: p in finals ==> p != []
  {
    forall p :: p in finals && p != path ==> (Temporary(p, pid, thread) in after <==> Temporary(p, pid, thread) in before)
  }

  /** The thread that an action belongs to, if any. */
  function Actor(a: Action): Option<nat> {
    if a.Crash? || a.PowerLoss? then None else Some(a.w)
  }

  lemma TemporaryUntouched(finals: set<Path>, s: State, a: Action, i: nat, p: Path)
    requires AreFinals(finals) && Inv(finals, s) && Enabled(finals, s, a) && !a.PowerLoss? && i < |s.writers| && p in finals
    requires Actor(a) != Some(i) || s.writers[i].path != p || a.Call?
    ensures p != []
    ensures var temp := Temporary(p, s.writers[i].pid, s.writers[i].thread);
            temp in Apply(finals, s, a).files <==> temp in s.files
  {
    hide Temporary;
    if Actor(a).Some? && !a.Call? {
      var x, y := s.writers[a.w], s.writers[i];
      assert WriterOk(finals, s, x);
      assert NotTemporary(x.path, p, y.pid, y.thread);
      assert Separate(p, x.path, y.pid, y.thread, x.pid, x.thread);
    }
  }

  /** Whoever acts, a thread's temporaries change only by its own call, and then only that of its own path. */
  lemma TemporariesStay(finals: set<Path>, s: State, a: Action, i: nat)
    requires AreFinals(finals) && Inv(finals, s) && Enabled(finals, s, a) && !a.PowerLoss? && i < |s.writers|
    ensures forall p :: p in finals ==> p != []
    ensures var x := s.writers[i];
            && SameTemporaries(finals, x.pid, x.thread, x.path, s.files, Apply(finals, s, a).files)
            && (Actor(a) != Some(i) || a.Call? ==> SameTemporaries(finals, x.pid, x.thread, [], s.files, Apply(finals, s, a).files))
  {
    hide Temporary, AreFinals, Enabled, Apply, Inv;
    forall p | p in finals && (Actor(a) != Some(i) || s.writers[i].path != p || a.Call?)
      ensures p != []
      ensures var temp := Temporary(p, s.writers[i].pid, s.writers[i].thread);
              temp in Apply(finals, s, a).files <==> temp in s.files
    {
      TemporaryUntouched(finals, s, a, i, p);
    }
    NamesNotEmpty(finals);
  }

  lemma NamesNotEmpty(finals: set<Path>)
    requires AreFinals(finals)
    ensures forall p :: p in finals ==> p != []
  {
  }

  /**
   How a call ends. Leaving the finally clause, its temporary is gone; returning early or failing before the open, it
   has touched no file.
  */
  lemma CallsCleanUp(finals: set<Path>, s: State, a: Action)
    requires AreFinals(finals) && Inv(finals, s) && Enabled(finals, s, a) && (a.Exists? || a.Fail? || a.Unlink?)
    requires Apply(finals, s, a).writers[a.w].phase.Idle?
    ensures s.writers[a.w].path != []
    ensures a.Unlink? ==> s.writers[a.w].Temp() !in Apply(finals, s, a).files
    ensures !a.Unlink? ==> Apply(finals, s, a).files == s.files && s.writers[a.w].phase.Checking?
  {
    hide Temporary;
    OwnTemporary(finals, s, a.w);
  }

  /** A call that ends without an exception leaves its record path filled. */
  ghost predicate Stored(s: State) {
    forall i :: 0 <= i < |s.writers| && s.writers[i].phase == Cleaning(true) ==> s.writers[i].path in s.files
  }

  lemma StoredKeeps(finals: set<Path>, s: State, a: Action)
    requires AreFinals(finals) && Inv(finals, s) && Stored(s) && Enabled(finals, s, a)
    ensures Stored(Apply(finals, s, a))
  {
    hide Temporary, AreFinals;
    var t := Apply(finals, s, a);
    forall i | 0 <= i < |t.writers| && t.writers[i].phase == Cleaning(true)
      ensures t.writers[i].path in t.files
    {
      assert WriterOk(finals, s, s.writers[i]);
      if s.writers[i].phase == Cleaning(true) {
        PresentStays(finals, s, a, s.writers[i].path);
      }
    }
  }

  /** Over all runs: between its replace and its end, a call's record path is filled. */
  lemma {:induction false} StoredInRuns(finals: set<Path>, s: State, actions: seq<Action>)
    requires AreFinals(finals) && Inv(finals, s) && Stored(s) && Run(finals, s, actions).Some?
    ensures Stored(Run(finals, s, actions).value)
  {
    hide AreFinals, Enabled, Apply, WriterOk, WholeRecords;
    if actions != [] {
      var init := actions[..|actions| - 1];
      AbsentOrWhole(finals, s, init);
      StoredInRuns(finals, s, init);
      hide Stored;
      StoredKeeps(finals, Run(finals, s, init).value, actions[|actions| - 1]);
    }
  }

  /** The steps of a call that finds a temporary of its name left over. */
  function BlockedCall(w: nat, path: Path, record: seq<Byte>): seq<Action> {
    [Call(w, path, record), Absent(w), Open(w), Unlink(w)]
  }

  /**
   A temporary that was left over, as a dying process or a power loss may leave one, fails the next call of the same
   process and thread numbers at its open. That call removes it, so that it fails no other.
  */
  lemma LeftoverFailsOneCall(finals: set<Path>, s: State, w: nat, path: Path, record: seq<Byte>)
    requires AreFinals(finals) && w < |s.writers| && s.writers[w].phase.Idle? && path in finals && path != [] && path !in s.files
    requires Temporary(path, s.writers[w].pid, s.writers[w].thread) in s.files
    ensures Run(finals, s, BlockedCall(w, path, record)).Some?
    ensures var t := Run(finals, s, BlockedCall(w, path, record)).value;
            && t.writers[w].phase.Idle? && path !in t.files
            && t.files == s.files - {Temporary(path, s.writers[w].pid, s.writers[w].thread)}
  {
    hide Temporary;
    var a := BlockedCall(w, path, record);
    assert a[..3][..2] == a[..2] && a[..2][..1] == a[..1] && a[..1][..0] == [];
    var s1 := Apply(finals, s, a[0]);
    assert Run(finals, s, a[..1]) == Some(s1);
    var s2 := Apply(finals, s1, a[1]);
    assert Run(finals, s, a[..2]) == Some(s2);
    var s3 := Apply(finals, s2, a[2]);
    assert s3 == Enter(s2, w, Cleaning(false));
    assert Run(finals, s, a[..3]) == Some(s3);
    assert Run(finals, s, a) == Some(Apply(finals, s3, a[3]));
  }
}
