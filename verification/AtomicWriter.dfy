/** `store_record_atomic`, statement by statement, while other writers and dying processes interfere in between. */
module AtomicWriter {
  import opened Bytes
  import opened RecordPaths
  import opened AtomicStore

  /** The exception that strikes a call: before or at the existence check, at the open, or in one of the later statements. */
  datatype Fault = NoFault | EarlyFault | OpenFault | WriteFault | SyncFault | ReplaceFault

  datatype Arrival = Raised | Present | Missing

  /** A file system with its writers; `Step` is one operation of one thread on it. */
  class Disk {
    const finals: set<Path>
    var files: map<Path, File>
    var writers: seq<Writer>
    var offered: set<(Path, seq<Byte>)>

    ghost function View(): State
      reads this
    {
      State(files, writers, offered)
    }

    ghost predicate Valid()
      reads this
    {
      AreFinals(finals) && Inv(finals, View())
    }

    method Step(a: Action)
      requires Valid() && Enabled(finals, View(), a) && !a.PowerLoss?
      modifies this
      ensures Valid() && View() == Apply(finals, old(View()), a)
      ensures forall p :: p in finals && p in old(files) ==> p in files
      ensures old(offered) <= offered
    {
      hide Inv, AreFinals, Enabled, Apply;
      ghost var before := View();
      ActionKeeps(finals, before, a);
      OfferedGrows(finals, before, a);
      forall p | p in finals && p in files
        ensures p in Apply(finals, before, a).files
      {
        PresentStays(finals, before, a, p);
      }
      var next := Apply(finals, State(files, writers, offered), a);
      files, writers, offered := next.files, next.writers, next.offered;
    }

    /** An action that neither this thread takes nor that stops it. */
    predicate IsOther(a: Action, w: nat)
      requires w < |writers|
      reads this
    {
      match a
      case Crash(pid) => pid != writers[w].pid
      case PowerLoss(_, _, _) => false
      case _ => a.w != w
    }

    /** Other threads and other processes do what they like; this thread stays where it is. */
    method Others(w: nat)
      requires Valid() && w < |writers|
      modifies this
      ensures Valid() && |writers| == |old(writers)| && writers[w] == old(writers)[w]
      ensures forall p :: p in finals && p in old(files) ==> p in files
      ensures old(offered) <= offered
      ensures NamesKnown() && SameTemporaries(finals, writers[w].pid, writers[w].thread, [], old(files), files)
    {
      hide Inv, AreFinals, Enabled, Apply, Temporary;
      NamesNotEmpty(finals);
      var turns: nat :| true;
      for turn := 0 to turns
        invariant Valid() && |writers| == |old(writers)| && writers[w] == old(writers)[w]
        invariant forall p :: p in finals && p in old(files) ==> p in files
        invariant old(offered) <= offered
        invariant SameTemporaries(finals, writers[w].pid, writers[w].thread, [], old(files), files)
      {
        var a: Action := *;
        if IsOther(a, w) && Enabled(finals, State(files, writers, offered), a) {
          OtherKeepsWriter(finals, View(), a, w);
          TemporariesStay(finals, View(), a, w);
          Step(a);
        }
      }
    }

    ghost predicate NamesKnown()
    {
      forall p :: p in finals ==> p != []
    }

    /** A step of this thread inside its call. */
    method Own(a: Action, w: nat)
      requires Valid() && Enabled(finals, View(), a) && Actor(a) == Some(w) && w < |writers|
      modifies this
      ensures Valid() && View() == Apply(finals, old(View()), a)
      ensures forall p :: p in finals && p in old(files) ==> p in files
      ensures old(offered) <= offered && NamesKnown()
      ensures SameTemporaries(finals, old(writers[w].pid), old(writers[w].thread), if a.Call? then [] else old(writers[w].path),
                              old(files), files)
    {
      hide Inv, AreFinals, Enabled, Apply, SameTemporaries;
      TemporariesStay(finals, View(), a, w);
      Step(a);
    }

    /** output.write(record), in pieces; a fault may stop it anywhere. */
    method WritePieces(w: nat, fault: Fault) returns (written: nat)
      requires Valid() && w < |writers| && writers[w].phase == Writing(0)
      modifies this
      ensures Valid() && |writers| == |old(writers)| && NamesKnown()
      ensures writers[w] == old(writers)[w].(phase := Writing(written)) && written <= |writers[w].record|
      ensures !fault.WriteFault? ==> written == |writers[w].record|
      ensures forall p :: p in finals && p in old(files) ==> p in files
      ensures old(offered) <= offered
      ensures SameTemporaries(finals, writers[w].pid, writers[w].thread, writers[w].path, old(files), files)
    {
      hide Inv, AreFinals, Temporary;
      NamesNotEmpty(finals);
      written := 0;
      while written < |writers[w].record|
        invariant Valid() && |writers| == |old(writers)| && writers[w] == old(writers)[w].(phase := Writing(written))
        invariant written <= |writers[w].record|
        invariant forall p :: p in finals && p in old(files) ==> p in files
        invariant old(offered) <= offered
        invariant SameTemporaries(finals, writers[w].pid, writers[w].thread, writers[w].path, old(files), files)
        decreases |writers[w].record| - written
      {
        Others(w);
        var struck: bool := *;
        if fault.WriteFault? && struck {
          return;
        }
        KnowsPath(finals, View(), w);
        var upTo: nat :| written < upTo <= |writers[w].record|;
        Own(Write(w, upTo), w);
        written := upTo;
      }
    }

    /** os.replace(temporary, path), once the with statement has been left. */
    method ReplaceRecord(w: nat, fault: Fault)
      requires Valid() && w < |writers| && writers[w].phase == Replacing
      modifies this
      ensures Valid() && |writers| == |old(writers)|
      ensures writers[w] == old(writers)[w].(phase := Cleaning(!fault.ReplaceFault?))
      ensures !fault.ReplaceFault? ==> writers[w].path in files
      ensures forall p :: p in finals && p in old(files) ==> p in files
      ensures old(offered) <= offered && NamesKnown()
      ensures SameTemporaries(finals, writers[w].pid, writers[w].thread, writers[w].path, old(files), files)
    {
      hide Inv, AreFinals, Temporary;
      Others(w);
      KnowsPath(finals, View(), w);
      if fault.ReplaceFault? {
        Own(Fail(w), w);
        return;
      }
      Own(Replace(w), w);
    }

    /**
     The body of the with statement and `os.replace`: afterwards this thread is in the finally clause, having replaced
     exactly when nothing went wrong.
    */
    method WriteAndReplace(w: nat, fault: Fault)
      requires Valid() && w < |writers| && writers[w].phase == Writing(0) && !fault.EarlyFault? && !fault.OpenFault?
      modifies this
      ensures Valid() && |writers| == |old(writers)|
      ensures writers[w] == old(writers)[w].(phase := Cleaning(fault.NoFault?))
      ensures fault.NoFault? ==> writers[w].path in files
      ensures forall p :: p in finals && p in old(files) ==> p in files
      ensures old(offered) <= offered && NamesKnown()
      ensures SameTemporaries(finals, writers[w].pid, writers[w].thread, writers[w].path, old(files), files)
    {
      hide Inv, AreFinals, Temporary;
      NamesNotEmpty(finals);
      var written := WritePieces(w, fault);
      Others(w);
      KnowsPath(finals, View(), w);
      if fault.WriteFault? || fault.SyncFault? {
        Own(Fail(w), w);
        return;
      }
      Own(Sync(w), w);
      ReplaceRecord(w, fault);
    }

    /** Up to the existence check. */
    method Arrive(w: nat, path: Path, record: seq<Byte>, fault: Fault) returns (arrival: Arrival)
      requires Valid() && w < |writers| && writers[w].phase.Idle? && path in finals
      modifies this
      ensures Valid() && |writers| == |old(writers)| && NamesKnown()
      ensures writers[w] == old(writers)[w].(path := path, record := record, phase := if arrival.Missing? then Opening else Idle)
      ensures arrival.Raised? <==> fault.EarlyFault?
      ensures arrival.Present? ==> path in files
      ensures arrival.Missing? ==> path !in old(files)
      ensures SameTemporaries(finals, writers[w].pid, writers[w].thread, [], old(files), files)
      ensures forall p :: p in finals && p in old(files) ==> p in files
      ensures old(offered) <= offered && (path, record) in offered
    {
      hide Inv, AreFinals, Temporary;
      NamesNotEmpty(finals);
      Own(Call(w, path, record), w);
      Others(w);
      if fault.EarlyFault? {
        Own(Fail(w), w);
        return Raised;
      }
      if path in files {
        Own(Exists(w), w);
        return Present;
      }
      Own(Absent(w), w);
      arrival := Missing;
    }

    /** The try clause, from the open on. */
    method Attempt(w: nat, fault: Fault)
      requires Valid() && w < |writers| && writers[w].phase.Opening? && !fault.EarlyFault? && writers[w].path in finals
      modifies this
      ensures Valid() && |writers| == |old(writers)| && NamesKnown() && writers[w].path != []
      ensures writers[w].phase.Cleaning? && writers[w] == old(writers)[w].(phase := writers[w].phase)
      ensures writers[w].phase.replaced <==>
                fault.NoFault? && Temporary(writers[w].path, writers[w].pid, writers[w].thread) !in old(files)
      ensures writers[w].phase.replaced ==> writers[w].path in files
      ensures SameTemporaries(finals, writers[w].pid, writers[w].thread, writers[w].path, old(files), files)
      ensures forall p :: p in finals && p in old(files) ==> p in files
      ensures old(offered) <= offered
    {
      hide Inv, AreFinals, Temporary;
      NamesNotEmpty(finals);
      Others(w);
      if fault.OpenFault? {
        Own(Fail(w), w);
      } else {
        Own(Open(w), w);
        if writers[w].phase.Writing? {
          WriteAndReplace(w, fault);
        }
      }
    }

    /**
     `store_record_atomic`. `fault` is the exception that strikes this call, if one does, and `reached` says that it
     went on to the open because the record was not there. Whatever happens around it:
     a call returns exactly when the record was there, or nothing went wrong and no temporary of its own name was left
     over from a dead process; then its record path is filled. It leaves no temporary that was not there before, and
     after the open none at all, whether it returns or raises.
    */
    method StoreRecordAtomic(w: nat, path: Path, record: seq<Byte>, fault: Fault) returns (ok: bool, reached: bool)
      requires Valid() && w < |writers| && writers[w].phase.Idle? && path in finals
      modifies this
      ensures Valid() && |writers| == |old(writers)| && path != [] && NamesKnown()
      ensures writers[w] == old(writers)[w].(path := path, record := record)
      ensures reached ==> !fault.EarlyFault? && path !in old(files)
      ensures ok <==> !fault.EarlyFault?
                      && (reached ==> fault.NoFault? && Temporary(path, writers[w].pid, writers[w].thread) !in old(files))
      ensures ok ==> path in files && files[path].synced && (path, files[path].content) in offered
      ensures reached ==> Temporary(path, writers[w].pid, writers[w].thread) !in files
      ensures SameTemporaries(finals, writers[w].pid, writers[w].thread, if reached then path else [], old(files), files)
      ensures forall p :: p in finals && p in old(files) ==> p in files
      ensures old(offered) <= offered && (path, record) in offered
    {
      hide Inv, AreFinals, Temporary, Enabled, Apply;
      NamesNotEmpty(finals);
      var arrival := Arrive(w, path, record, fault);
      if !arrival.Missing? {
        FilledIsWhole(finals, View(), path);
        return arrival.Present?, false;
      }
      Attempt(w, fault);
      ok := Leave(w);
      reached := true;
      FilledIsWhole(finals, View(), path);
    }

    /** The finally clause. */
    method Leave(w: nat) returns (ok: bool)
      requires Valid() && w < |writers| && writers[w].phase.Cleaning? && writers[w].path in finals && writers[w].path != []
      modifies this
      ensures Valid() && |writers| == |old(writers)| && NamesKnown()
      ensures ok == old(writers[w].phase.replaced) && writers[w] == old(writers)[w].(phase := Idle)
      ensures Temporary(writers[w].path, writers[w].pid, writers[w].thread) !in files
      ensures SameTemporaries(finals, writers[w].pid, writers[w].thread, writers[w].path, old(files), files)
      ensures forall p :: p in finals && p in old(files) ==> p in files
      ensures old(offered) <= offered
    {
      hide Inv, AreFinals, Temporary;
      NamesNotEmpty(finals);
      Others(w);
      ok := writers[w].phase.replaced;
      Own(Unlink(w), w);
    }
  }

  lemma KnowsPath(finals: set<Path>, s: State, w: nat)
    requires Inv(finals, s) && w < |s.writers| && !s.writers[w].phase.Idle?
    ensures s.writers[w].path in finals && s.writers[w].path != []
    ensures s.writers[w].phase.Replacing? ==> s.writers[w].Temp() in s.files
  {
    hide Temporary;
    assert WriterOk(finals, s, s.writers[w]);
  }

  lemma FilledIsWhole(finals: set<Path>, s: State, p: Path)
    requires Inv(finals, s) && p in finals
    ensures p in s.files ==> s.files[p].synced && (p, s.files[p].content) in s.offered
  {
  }

  lemma OfferedGrows(finals: set<Path>, s: State, a: Action)
    requires Enabled(finals, s, a)
    ensures s.offered <= Apply(finals, s, a).offered
  {
    hide Temporary;
  }

  lemma OtherKeepsWriter(finals: set<Path>, s: State, a: Action, w: nat)
    requires w < |s.writers| && Enabled(finals, s, a) && !a.PowerLoss?
    requires if a.Crash? then a.pid != s.writers[w].pid else a.w != w
    ensures |Apply(finals, s, a).writers| == |s.writers| && Apply(finals, s, a).writers[w] == s.writers[w]
  {
    hide Temporary;
  }
}
