/**
 `BufferedStorageBackend.read_into`: one positioned read where `preadv` exists, otherwise a loop over a file offset
 that all readers share, under a lock.
*/
module Buffered {
  import opened Bytes

  datatype ReadError = TooSmall | EndOfFile(expected: nat, got: nat)

  /** The bytes of a file from an offset on, as far as they go. */
  function Available(file: seq<Byte>, offset: nat, length: nat): (n: nat)
    ensures n <= length && (0 < n ==> offset + n <= |file|)
    ensures n == length <==> length == 0 || offset + length <= |file|
  {
    if |file| <= offset then 0 else if length <= |file| - offset then length else |file| - offset
  }

  /** A read of regular data: at least one byte unless none is left, and possibly fewer than asked for. */
  ghost predicate CanReturn(file: seq<Byte>, offset: nat, length: nat, n: nat) {
    n <= Available(file, offset, length) && (Available(file, offset, length) > 0 ==> 0 < n)
  }

  method CopyBytes(file: seq<Byte>, offset: nat, n: nat, target: array<Byte>, at: nat)
    requires offset + n <= |file| && at + n <= target.Length
    modifies target
    ensures target[..at] == old(target[..at]) && target[at..at + n] == file[offset..offset + n]
    ensures target[at + n..] == old(target[at + n..])
  {
    for k := 0 to n
      invariant target[..at] == old(target[..at]) && target[at..at + k] == file[offset..offset + k]
      invariant target[at + n..] == old(target[at + n..])
    {
      target[at + k] := file[offset + k];
    }
  }

  /**
   The `preadv` path: a single call. It succeeds exactly when that call returned the whole record, and a success means
   that the destination holds it; `short` says how many bytes the system chose to return.
  */
  method ReadPositioned(file: seq<Byte>, offset: nat, length: nat, destination: array<Byte>, short: nat)
    returns (r: Result<(), ReadError>)
    requires destination.Length < length || CanReturn(file, offset, length, short)
    modifies destination
    ensures r.Ok? <==> length <= destination.Length && short == length
    ensures r.Ok? ==>
              && (length == 0 || offset + length <= |file|)
              && (0 < length ==> destination[..length] == file[offset..offset + length])
    ensures length <= destination.Length ==> destination[length..] == old(destination[length..])
    ensures destination.Length < length ==> destination[..] == old(destination[..])
  {
    if destination.Length < length {
      return Err(TooSmall);
    }
    var total := short;
    if 0 < total {
      CopyBytes(file, offset, total, destination, 0);
      assert destination[length..] == destination[total..][length - total..];
    }
    if total != length {
      return Err(EndOfFile(length, total));
    }
    r := Ok(());
  }

  /** The descriptor that all fallback reads share. */
  class Descriptor {
    const file: seq<Byte>
    var position: nat

    constructor (file: seq<Byte>)
      ensures this.file == file && position == 0
    {
      this.file, position := file, 0;
    }

    /** os.lseek(fd, offset, SEEK_SET) */
    method Seek(offset: nat)
      modifies this
      ensures position == offset
    {
      position := offset;
    }

    /** os.read(fd, length), which advances the shared offset. */
    method Read(length: nat) returns (chunk: seq<Byte>)
      modifies this
      ensures CanReturn(file, old(position), length, |chunk|)
      ensures 0 < |chunk| ==> chunk == file[old(position)..old(position) + |chunk|]
      ensures position == old(position) + |chunk|
    {
      var available := Available(file, position, length);
      if available == 0 {
        return [];
      }
      var n: nat :| 0 < n <= available;
      chunk := file[position..position + n];
      position := position + n;
    }
  }

  /** The fallback path, with the lock held: short reads are continued, so only a real end of file fails it. */
  method ReadFallback(fd: Descriptor, offset: nat, length: nat, destination: array<Byte>) returns (r: Result<(), ReadError>)
    modifies fd, destination
    ensures r.Ok? <==> length <= destination.Length && (length == 0 || offset + length <= |fd.file|)
    ensures r.Ok? && 0 < length ==> destination[..length] == fd.file[offset..offset + length]
    ensures length <= destination.Length ==> destination[length..] == old(destination[length..])
    ensures destination.Length < length ==> destination[..] == old(destination[..])
  {
    if destination.Length < length {
      return Err(TooSmall);
    }
    fd.Seek(offset);
    var total := 0;
    while total < length
      invariant total <= length && fd.position == offset + total
      invariant 0 < total ==> offset + total <= |fd.file| && destination[..total] == fd.file[offset..offset + total]
      invariant destination[length..] == old(destination[length..])
    {
      var chunk := fd.Read(length - total);
      if chunk == [] {
        break;
      }
      CopyBytes(fd.file, offset + total, |chunk|, destination, total);
      var next := total + |chunk|;
      assert destination[..next] == destination[..total] + destination[total..next];
      assert destination[length..] == destination[next..][length - next..];
      total := next;
    }
    if total != length {
      return Err(EndOfFile(length, total));
    }
    r := Ok(());
  }

  // ----- why the lock: many readers, one offset

  datatype Phase = Outside | Locked | Reading | Finished

  datatype Reader = Reader(offset: nat, length: nat, phase: Phase, read: seq<Byte>)

  datatype State = State(position: nat, lock: Option<nat>, readers: seq<Reader>)

  datatype Action =
    | Acquire
    | Seek
    | ReadSome(n: nat)       // one os.read and the copy of its chunk
    | Release                // after a full record, or an empty chunk

  predicate Enabled(file: seq<Byte>, s: State, i: nat, a: Action)
    requires i < |s.readers|
  {
    var r := s.readers[i];
    match a
    case Acquire => r.phase.Outside? && s.lock.None?
    case Seek => r.phase.Locked?
    case ReadSome(n) => r.phase.Reading? && |r.read| < r.length && 0 < n <= Available(file, s.position, r.length - |r.read|)
    case Release =>
      r.phase.Reading? && (r.length <= |r.read| || Available(file, s.position, r.length - |r.read|) == 0)
  }

  function Apply(file: seq<Byte>, s: State, i: nat, a: Action): State
    requires i < |s.readers| && Enabled(file, s, i, a)
  {
    var r := s.readers[i];
    match a
    case Acquire => s.(lock := Some(i), readers := s.readers[i := r.(phase := Locked)])
    case Seek => s.(position := r.offset, readers := s.readers[i := r.(phase := Reading)])
    case ReadSome(n) =>
      s.(position := s.position + n, readers := s.readers[i := r.(read := r.read + file[s.position..s.position + n])])
    case Release => s.(lock := None, readers := s.readers[i := r.(phase := Finished)])
  }

  ghost predicate ReaderOk(file: seq<Byte>, s: State, i: nat)
    requires i < |s.readers|
  {
    var r := s.readers[i];
    && (r.phase.Locked? || r.phase.Reading? ==> s.lock == Some(i))
    && |r.read| <= r.length
    && (0 < |r.read| ==> r.offset + |r.read| <= |file| && r.read == file[r.offset..r.offset + |r.read|])
    && (r.phase.Reading? ==> s.position == r.offset + |r.read|)
    && (r.phase.Outside? || r.phase.Locked? ==> r.read == [])
    && (r.phase.Finished? ==> |r.read| == Available(file, r.offset, r.length))
  }

  /** Only the holder of the lock is past it, and every reader has read a piece of its own record. */
  ghost predicate Inv(file: seq<Byte>, s: State) {
    forall i :: 0 <= i < |s.readers| ==> ReaderOk(file, s, i)
  }

  lemma ActionKeeps(file: seq<Byte>, s: State, i: nat, a: Action)
    requires Inv(file, s) && i < |s.readers| && Enabled(file, s, i, a)
    ensures Inv(file, Apply(file, s, i, a))
  {
    var t := Apply(file, s, i, a);
    forall j | 0 <= j < |t.readers|
      ensures ReaderOk(file, t, j)
    {
      assert ReaderOk(file, s, j) && ReaderOk(file, s, i);
    }
  }

  function Run(file: seq<Byte>, s: State, steps: seq<(nat, Action)>): Option<State> {
    if steps == [] then Some(s)
    else
      var before, (i, a) := Run(file, s, steps[..|steps| - 1]), steps[|steps| - 1];
      if before.Some? && i < |before.value.readers| && Enabled(file, before.value, i, a)
      then Some(Apply(file, before.value, i, a)) else None
  }

  /** However the readers interleave, a finished one holds exactly the bytes that the file has of its record. */
  lemma {:induction false} SharedOffsetIsSafe(file: seq<Byte>, s: State, steps: seq<(nat, Action)>)
    requires forall i :: 0 <= i < |s.readers| ==> s.readers[i].phase.Outside? && s.readers[i].read == []
    requires Run(file, s, steps).Some?
    ensures var t := Run(file, s, steps).value;
            && Inv(file, t)
            && forall i :: 0 <= i < |t.readers| && t.readers[i].phase.Finished? ==>
                 var r, n := t.readers[i], Available(file, t.readers[i].offset, t.readers[i].length);
                 |r.read| == n && (0 < n ==> r.read == file[r.offset..r.offset + n])
  {
    hide Enabled, Apply;
    if steps != [] {
      SharedOffsetIsSafe(file, s, steps[..|steps| - 1]);
      var (i, a) := steps[|steps| - 1];
      ActionKeeps(file, Run(file, s, steps[..|steps| - 1]).value, i, a);
    }
    var t := Run(file, s, steps).value;
    assert Inv(file, t);
    forall i | 0 <= i < |t.readers| && t.readers[i].phase.Finished?
      ensures var r, n := t.readers[i], Available(file, t.readers[i].offset, t.readers[i].length);
              |r.read| == n && (0 < n ==> r.read == file[r.offset..r.offset + n])
    {
      assert ReaderOk(file, t, i);
    }
  }
}
