/** The Xray writer guard of `xray_common.py`: a re-entrant lock per process, a depth and a
    descriptor per thread, and a file lock that belongs to an open file. Threads of any
    number of processes interleave, one atomic step at a time. */
module WriterGuard {
  // ----- the machine --------------------------------------------------------------------------------

  datatype Mode = Unlocked | Shared | Exclusive

  /** An open file description on the lock file. */
  datatype OpenFile = OpenFile(owner: nat, mode: Mode)

  /** Where a thread is in the innermost guard call it has not yet entered or left. Every
      other guard call of the thread is at its `yield`. */
  datatype Place =
    | Steady
    | Acquiring(timed: bool)
    | Opening(timed: bool)
    | Polling(fd: nat, timed: bool)
    | Abandoning(fd: nat)
    | Unlocking
    | Closing
    | Releasing

  datatype Lease = Trying(fd: nat) | Held(fd: nat) | Done(fd: nat)

  /** `depth` and `fd` are the thread-local attributes of the source. */
  datatype Thread = Thread(process: nat, place: Place, depth: nat, fd: Option, leases: seq<Lease>)
  datatype Option = None | Some(value: nat)

  /** A held re-entrant lock. */
  datatype Hold = Hold(owner: nat, count: nat)

  datatype World = World(threads: map<nat, Thread>, locks: map<nat, Hold>, files: map<nat, OpenFile>, exists_: bool)

  const Empty := World(map[], map[], map[], false)

  datatype Act =
    | Spawn(process: nat) | Exit
    | Enter(timed: bool) | TakeThread | ThreadTimeout
    | OpenFile_(fd: nat) | OpenFails | TakeFile | FileTimeout | CloseAbandoned
    | Leave | Unlock | CloseFile | Release
    | ReadOpen(fd: nat) | ReadLock | ReadRefused | ReadEnd | ReadClose

  predicate CanLock(w: World, fd: nat, mode: Mode) {
    forall f :: f in w.files && f != fd ==> w.files[f].mode.Unlocked? || (mode.Shared? && w.files[f].mode.Shared?)
  }

  function Set(w: World, t: nat, th: Thread): World {
    w.(threads := w.threads[t := th])
  }

  function Chmod(w: World, fd: nat, mode: Mode): World
    requires fd in w.files
  {
    w.(files := w.files[fd := w.files[fd].(mode := mode)])
  }

  function Close(w: World, fd: nat): World {
    w.(files := w.files - {fd})
  }

  function Last(leases: seq<Lease>): Lease
    requires leases != []
  {
    leases[|leases| - 1]
  }

  function Front(leases: seq<Lease>): seq<Lease>
    requires leases != []
  {
    leases[..|leases| - 1]
  }

  /** The re-entrant lock of the thread's process is free or its own. */
  predicate MayTakeThread(w: World, t: nat)
    requires t in w.threads
  {
    w.threads[t].process !in w.locks || w.locks[w.threads[t].process].owner == t
  }

  function Deeper(w: World, t: nat): map<nat, Hold>
    requires t in w.threads
  {
    var p := w.threads[t].process;
    w.locks[p := Hold(t, if p in w.locks then w.locks[p].count + 1 else 1)]
  }

  function Shallower(w: World, t: nat): map<nat, Hold>
    requires t in w.threads && w.threads[t].process in w.locks && w.locks[w.threads[t].process].count > 0
  {
    var p := w.threads[t].process;
    if w.locks[p].count == 1 then w.locks - {p} else w.locks[p := Hold(w.locks[p].owner, w.locks[p].count - 1)]
  }

  // ----- one step of one thread --------------------------------------------------------------------

  predicate IsReader(a: Act) {
    a.ReadOpen? || a.ReadLock? || a.ReadRefused? || a.ReadEnd? || a.ReadClose?
  }

  // The writer steps that change a file.
  predicate TouchesFile(a: Act) {
    a.OpenFile_? || a.TakeFile? || a.CloseAbandoned? || a.Unlock? || a.CloseFile?
  }

  ghost predicate Step(w: World, t: nat, a: Act, v: World) {
    if a.Spawn? then t !in w.threads && v == Set(w, t, Thread(a.process, Steady, 0, None, []))
    else
      && t in w.threads
      && if a.Exit? then Dies(w, w.threads[t].process, v)
         else if IsReader(a) then Reads(w, t, w.threads[t], a, v)
         else if TouchesFile(a) then Locks(w, t, w.threads[t], a, v)
         else Moves(w, t, w.threads[t], a, v)
  }

  /** A process dies; the kernel closes its files and with them their locks. */
  ghost predicate Dies(w: World, process: nat, v: World) {
    && (forall u :: u in v.threads <==> u in w.threads && w.threads[u].process != process)
    && (forall u :: u in v.threads ==> v.threads[u] == w.threads[u])
    && (forall f :: f in v.files <==> f in w.files && w.files[f].owner in v.threads)
    && (forall f :: f in v.files ==> v.files[f] == w.files[f])
    && v.locks == w.locks - {process} && v.exists_ == w.exists_
  }

  /** The writer steps that change no file. */
  predicate Moves(w: World, t: nat, th: Thread, a: Act, v: World)
    requires t in w.threads && w.threads[t] == th
  {
    match a
    case Enter(timed) => th.place.Steady? && v == Set(w, t, th.(place := Acquiring(timed)))
    case TakeThread =>
      && th.place.Acquiring? && MayTakeThread(w, t)
      && v == Set(w, t, if th.depth == 0 then th.(place := Opening(th.place.timed))
                        else th.(place := Steady, depth := th.depth + 1)).(locks := Deeper(w, t))
    case ThreadTimeout => th.place.Acquiring? && th.place.timed && v == Set(w, t, th.(place := Steady))
    case OpenFails => th.place.Opening? && v == Set(w, t, th.(place := Releasing))
    case FileTimeout => th.place.Polling? && th.place.timed && v == Set(w, t, th.(place := Abandoning(th.place.fd)))
    case Leave =>
      && th.place.Steady? && th.depth > 0
      && v == Set(w, t, th.(depth := th.depth - 1, place := if th.depth == 1 then Unlocking else Releasing))
    case Release =>
      && th.place.Releasing? && th.process in w.locks && w.locks[th.process].count > 0
      && v == Set(w, t, th.(place := Steady)).(locks := Shallower(w, t))
    case _ => false
  }

  /** The writer steps that open, lock, unlock or close the lock file. */
  predicate Locks(w: World, t: nat, th: Thread, a: Act, v: World)
    requires t in w.threads && w.threads[t] == th
  {
    match a
    case OpenFile_(fd) =>
      && th.place.Opening? && fd !in w.files
      && v == Set(w, t, th.(place := Polling(fd, th.place.timed))).(files := w.files[fd := OpenFile(t, Unlocked)],
        exists_ := true)
    case TakeFile =>
      && th.place.Polling? && th.place.fd in w.files && CanLock(w, th.place.fd, Exclusive)
      && v == Chmod(Set(w, t, th.(place := Steady, fd := Some(th.place.fd), depth := th.depth + 1)), th.place.fd,
        Exclusive)
    case CloseAbandoned => th.place.Abandoning? && v == Close(Set(w, t, th.(place := Releasing)), th.place.fd)
    case Unlock =>
      && th.place.Unlocking? && th.fd.Some? && th.fd.value in w.files
      && v == Chmod(Set(w, t, th.(place := Closing)), th.fd.value, Unlocked)
    case CloseFile =>
      && th.place.Closing? && th.fd.Some?
      && v == Close(Set(w, t, th.(place := Releasing, fd := None)), th.fd.value)
    case _ => false
  }

  /** The read guard, refused inside a writer and where there is no lock file. */
  predicate Reads(w: World, t: nat, th: Thread, a: Act, v: World)
    requires t in w.threads && w.threads[t] == th
  {
    match a
    case ReadOpen(fd) =>
      && th.place.Steady? && th.depth == 0 && w.exists_ && fd !in w.files
      && v == Set(w, t, th.(leases := th.leases + [Trying(fd)])).(files := w.files[fd := OpenFile(t, Unlocked)])
    case ReadLock =>
      && Reading(th) && Last(th.leases).Trying? && Last(th.leases).fd in w.files
      && CanLock(w, Last(th.leases).fd, Shared)
      && v == Chmod(Set(w, t, th.(leases := Front(th.leases) + [Held(Last(th.leases).fd)])), Last(th.leases).fd, Shared)
    case ReadRefused =>
      && Reading(th) && Last(th.leases).Trying?
      && v == Set(w, t, th.(leases := Front(th.leases) + [Done(Last(th.leases).fd)]))
    case ReadEnd =>
      && Reading(th) && Last(th.leases).Held? && Last(th.leases).fd in w.files
      && v == Chmod(Set(w, t, th.(leases := Front(th.leases) + [Done(Last(th.leases).fd)])), Last(th.leases).fd,
        Unlocked)
    case ReadClose =>
      && Reading(th) && Last(th.leases).Done?
      && v == Close(Set(w, t, th.(leases := Front(th.leases))), Last(th.leases).fd)
    case _ => false
  }

  /** The thread's innermost call is a read guard. */
  predicate Reading(th: Thread) {
    th.place.Steady? && th.depth == 0 && th.leases != []
  }

  // ----- what every run keeps --------------------------------------------------------------------------

  /** Guard calls of the thread that hold the re-entrant lock. */
  function Count(th: Thread): nat {
    th.depth + if th.place.Steady? || th.place.Acquiring? then 0 else 1
  }

  predicate Owns(w: World, t: nat, fd: nat, mode: Mode) {
    fd in w.files && w.files[fd] == OpenFile(t, mode)
  }

  function LeaseMode(l: Lease): Mode {
    if l.Held? then Shared else Unlocked
  }

  /** The descriptor the thread uses as a writer, and the lock it must hold. */
  function WriterFile(th: Thread): Option {
    if th.place.Polling? || th.place.Abandoning? then Some(th.place.fd) else th.fd
  }

  function WriterMode(th: Thread): Mode {
    if th.depth > 0 || th.place.Unlocking? then Exclusive else Unlocked
  }

  predicate ThreadShape(th: Thread) {
    && (th.fd.Some? <==> th.depth > 0 || th.place.Unlocking? || th.place.Closing?)
    && (th.place.Opening? || th.place.Polling? || th.place.Abandoning? || th.place.Unlocking? || th.place.Closing? ==>
          th.depth == 0)
  }

  /** The files of a thread are all different. */
  predicate Apart(th: Thread) {
    && (forall i, j :: 0 <= i < j < |th.leases| ==> th.leases[i].fd != th.leases[j].fd)
    && (WriterFile(th).Some? ==> forall i :: 0 <= i < |th.leases| ==> th.leases[i].fd != WriterFile(th).value)
  }

  predicate ThreadFiles(w: World, t: nat, th: Thread) {
    && (WriterFile(th).Some? ==> Owns(w, t, WriterFile(th).value, WriterMode(th)))
    && (forall i :: 0 <= i < |th.leases| ==> Owns(w, t, th.leases[i].fd, LeaseMode(th.leases[i])))
  }

  predicate Uses(th: Thread, fd: nat) {
    WriterFile(th) == Some(fd) || exists i :: 0 <= i < |th.leases| && th.leases[i].fd == fd
  }

  ghost predicate LocksMatch(w: World) {
    && (forall t :: t in w.threads && Count(w.threads[t]) > 0 ==>
          w.threads[t].process in w.locks && w.locks[w.threads[t].process] == Hold(t, Count(w.threads[t])))
    && (forall p :: p in w.locks ==>
          var h := w.locks[p];
          h.owner in w.threads && w.threads[h.owner].process == p && h.count == Count(w.threads[h.owner]) > 0)
  }

  ghost predicate FilesMatch(w: World) {
    && (forall t :: t in w.threads ==>
          ThreadShape(w.threads[t]) && Apart(w.threads[t]) && ThreadFiles(w, t, w.threads[t]))
    && (forall f :: f in w.files ==> w.files[f].owner in w.threads && Uses(w.threads[w.files[f].owner], f))
  }

  ghost predicate Compatible(w: World) {
    forall f, g :: f in w.files && g in w.files && f != g && w.files[f].mode.Exclusive? ==> w.files[g].mode.Unlocked?
  }

  ghost predicate Inv(w: World) {
    LocksMatch(w) && FilesMatch(w) && Compatible(w)
  }

  lemma SameCountKeepsLocks(w: World, t: nat, v: World)
    requires LocksMatch(w) && t in w.threads && t in v.threads && v.locks == w.locks
    requires v.threads.Keys == w.threads.Keys && forall u :: u in w.threads && u != t ==> v.threads[u] == w.threads[u]
    requires v.threads[t].process == w.threads[t].process && Count(v.threads[t]) == Count(w.threads[t])
    ensures LocksMatch(v)
  {
    assert forall u :: u in v.threads ==>
      Count(v.threads[u]) == Count(w.threads[u]) && v.threads[u].process == w.threads[u].process;
  }

  /** No other thread of the process counts as a holder. */
  lemma OnlyHolder(w: World, t: nat)
    requires LocksMatch(w) && t in w.threads
    requires w.threads[t].process in w.locks ==> w.locks[w.threads[t].process].owner == t
    ensures forall u :: u in w.threads && u != t && w.threads[u].process == w.threads[t].process ==>
      Count(w.threads[u]) == 0
  {
  }

  lemma TakeThreadKeepsLocks(w: World, t: nat, v: World)
    requires t in w.threads && Moves(w, t, w.threads[t], TakeThread, v) && LocksMatch(w)
    ensures LocksMatch(v)
  {
    OnlyHolder(w, t);
  }

  lemma ReleaseKeepsLocks(w: World, t: nat, v: World)
    requires t in w.threads && Moves(w, t, w.threads[t], Release, v) && LocksMatch(w)
    ensures LocksMatch(v)
  {
    assert Count(w.threads[t]) > 0;
    OnlyHolder(w, t);
  }

  /** A step of one thread that keeps its count, and touches no other thread. */
  ghost predicate KeepsCount(w: World, t: nat, v: World) {
    && t in w.threads && t in v.threads && v.locks == w.locks && v.threads.Keys == w.threads.Keys
    && (forall u :: u in w.threads && u != t ==> v.threads[u] == w.threads[u])
    && v.threads[t].process == w.threads[t].process && Count(v.threads[t]) == Count(w.threads[t])
  }

  lemma MovesKeepCount(w: World, t: nat, a: Act, v: World)
    requires t in w.threads && Moves(w, t, w.threads[t], a, v) && !a.TakeThread? && !a.Release?
    ensures KeepsCount(w, t, v)
  {
  }

  lemma LocksKeepCount(w: World, t: nat, a: Act, v: World)
    requires t in w.threads && Locks(w, t, w.threads[t], a, v) && ThreadShape(w.threads[t])
    ensures KeepsCount(w, t, v)
  {
  }

  lemma ReadsKeepCount(w: World, t: nat, a: Act, v: World)
    requires t in w.threads && Reads(w, t, w.threads[t], a, v)
    ensures KeepsCount(w, t, v)
  {
  }

  lemma ExitKeepsLocks(w: World, process: nat, v: World)
    requires Dies(w, process, v) && LocksMatch(w)
    ensures LocksMatch(v)
  {
  }

  lemma SpawnKeepsLocks(w: World, t: nat, process: nat)
    requires t !in w.threads && LocksMatch(w)
    ensures LocksMatch(Set(w, t, Thread(process, Steady, 0, None, [])))
  {
  }

  lemma StepKeepsLocks(w: World, t: nat, a: Act, v: World)
    requires Step(w, t, a, v) && LocksMatch(w) && (t in w.threads ==> ThreadShape(w.threads[t]))
    ensures LocksMatch(v)
  {
    hide Moves, Locks, Reads, Dies, LocksMatch, ThreadShape;
    if a.Spawn? {
      SpawnKeepsLocks(w, t, a.process);
    } else if a.Exit? {
      ExitKeepsLocks(w, w.threads[t].process, v);
    } else if a.TakeThread? {
      TakeThreadKeepsLocks(w, t, v);
    } else if a.Release? {
      ReleaseKeepsLocks(w, t, v);
    } else {
      if IsReader(a) {
        ReadsKeepCount(w, t, a, v);
      } else if TouchesFile(a) {
        LocksKeepCount(w, t, a, v);
      } else {
        MovesKeepCount(w, t, a, v);
      }
      SameCountKeepsLocks(w, t, v);
    }
  }

  /** What a thread's own files must be, seen from the world they are in. */
  ghost predicate OwnFilesMatch(v: World, t: nat) {
    && t in v.threads && ThreadShape(v.threads[t]) && Apart(v.threads[t]) && ThreadFiles(v, t, v.threads[t])
    && forall f :: f in v.files && v.files[f].owner == t ==> Uses(v.threads[t], f)
  }

  /** A step that touches no other thread, and no file but one the thread owns or opens. */
  ghost predicate Local(w: World, t: nat, v: World) {
    && (forall u :: u != t ==> (u in v.threads <==> u in w.threads))
    && (forall u :: u != t && u in w.threads ==> v.threads[u] == w.threads[u])
    && (forall f :: f in w.files && w.files[f].owner != t ==> f in v.files && v.files[f] == w.files[f])
    && (forall f :: f in v.files && v.files[f].owner != t ==> f in w.files && v.files[f] == w.files[f])
  }

  lemma LocalStepKeepsFiles(w: World, t: nat, v: World)
    requires FilesMatch(w) && Local(w, t, v) && OwnFilesMatch(v, t)
    ensures FilesMatch(v)
  {
  }

  lemma MovesChangeLittle(w: World, t: nat, a: Act, v: World)
    requires t in w.threads && Moves(w, t, w.threads[t], a, v) && ThreadShape(w.threads[t])
    ensures v.files == w.files && v.threads.Keys == w.threads.Keys && ThreadShape(v.threads[t])
    ensures forall u :: u in w.threads && u != t ==> v.threads[u] == w.threads[u]
    ensures v.threads[t].leases == w.threads[t].leases
    ensures WriterFile(v.threads[t]) == WriterFile(w.threads[t]) && WriterMode(v.threads[t]) == WriterMode(w.threads[t])
  {
  }

  lemma MovesKeepOwnFiles(w: World, t: nat, a: Act, v: World)
    requires t in w.threads && Moves(w, t, w.threads[t], a, v) && OwnFilesMatch(w, t)
    ensures OwnFilesMatch(v, t) && Local(w, t, v)
  {
    MovesChangeLittle(w, t, a, v);
    hide Moves, ThreadShape, WriterFile, WriterMode;
    assert forall f :: Uses(w.threads[t], f) ==> Uses(v.threads[t], f);
  }

  /** The thread's leases survive a step of its own writer file. */
  lemma WriterFileStep(w: World, t: nat, fd: nat, v: World)
    requires OwnFilesMatch(w, t) && t in v.threads && v.threads[t].leases == w.threads[t].leases
    requires WriterFile(w.threads[t]) == Some(fd) || (WriterFile(w.threads[t]) == None && fd !in w.files)
    requires forall f :: f != fd ==> (f in v.files <==> f in w.files) && (f in w.files ==> v.files[f] == w.files[f])
    requires ThreadShape(v.threads[t])
    requires if WriterFile(v.threads[t]) == Some(fd) then Owns(v, t, fd, WriterMode(v.threads[t]))
             else WriterFile(v.threads[t]) == None && fd !in v.files
    ensures OwnFilesMatch(v, t)
  {
  }

  /** The file a writer step is about. */
  function StepFile(a: Act, th: Thread): nat
    requires a.OpenFile_? || th.place.Polling? || th.place.Abandoning? || th.fd.Some?
  {
    if a.OpenFile_? then a.fd else if th.place.Polling? || th.place.Abandoning? then th.place.fd else th.fd.value
  }

  lemma LocksKeepOwnFiles(w: World, t: nat, a: Act, v: World)
    requires t in w.threads && Locks(w, t, w.threads[t], a, v) && OwnFilesMatch(w, t)
    ensures OwnFilesMatch(v, t)
  {
    hide Uses, Apart;
    var th := w.threads[t];
    WriterFileStep(w, t, StepFile(a, th), v);
  }

  lemma LocksAreLocal(w: World, t: nat, a: Act, v: World)
    requires t in w.threads && Locks(w, t, w.threads[t], a, v) && OwnFilesMatch(w, t)
    ensures Local(w, t, v)
  {
  }

  lemma ReadsAreLocal(w: World, t: nat, a: Act, v: World)
    requires t in w.threads && Reads(w, t, w.threads[t], a, v) && OwnFilesMatch(w, t)
    ensures Local(w, t, v)
  {
  }

  /** `leases` is `before` without its last lease, or with another stage of it. */
  predicate LastChanged(before: seq<Lease>, leases: seq<Lease>) {
    && before != []
    && (leases == Front(before)
        || (leases != [] && Front(leases) == Front(before) && Last(leases).fd == Last(before).fd))
  }

  lemma LastChangedKeepsUse(th: Thread, leases: seq<Lease>, f: nat)
    requires LastChanged(th.leases, leases) && Uses(th, f) && f != Last(th.leases).fd
    ensures Uses(th.(leases := leases), f)
  {
  }

  lemma LastChangedKeepsApart(th: Thread, leases: seq<Lease>)
    requires LastChanged(th.leases, leases) && Apart(th)
    ensures Apart(th.(leases := leases))
    ensures forall i :: 0 <= i < |th.leases| - 1 ==> leases[i] == th.leases[i] && th.leases[i].fd != Last(th.leases).fd
  {
  }

  /** The thread's other files survive a step of its last lease. */
  lemma LeaseStepKeepsOwnFiles(w: World, t: nat, fd: nat, leases: seq<Lease>, v: World)
    requires OwnFilesMatch(w, t) && t in v.threads && v.threads[t] == w.threads[t].(leases := leases)
    requires Reading(w.threads[t]) && fd == Last(w.threads[t].leases).fd && LastChanged(w.threads[t].leases, leases)
    requires forall f :: f != fd ==> (f in v.files <==> f in w.files) && (f in w.files ==> v.files[f] == w.files[f])
    requires if |leases| == |w.threads[t].leases| then Owns(v, t, fd, LeaseMode(Last(leases))) else fd !in v.files
    ensures OwnFilesMatch(v, t)
  {
    hide Uses, Apart;
    var th, after := w.threads[t], v.threads[t];
    LastChangedKeepsApart(th, leases);
    forall f | f in v.files && v.files[f].owner == t ensures Uses(after, f) {
      if f != fd {
        LastChangedKeepsUse(th, leases, f);
      } else {
        LastIsUsed(after);
      }
    }
    if WriterFile(th).Some? {
      WriterFileIsNoLease(th);
    }
  }

  lemma LastIsUsed(th: Thread)
    requires th.leases != []
    ensures Uses(th, Last(th.leases).fd)
  {
  }

  lemma WriterFileIsNoLease(th: Thread)
    requires Apart(th) && th.leases != [] && WriterFile(th).Some?
    ensures WriterFile(th).value != Last(th.leases).fd
  {
  }

  lemma ReadOpenKeepsOwnFiles(w: World, t: nat, fd: nat, v: World)
    requires t in w.threads && Reads(w, t, w.threads[t], ReadOpen(fd), v) && OwnFilesMatch(w, t)
    ensures OwnFilesMatch(v, t)
  {
    var th, after := w.threads[t], v.threads[t];
    var n := |th.leases|;
    assert after.leases[n] == Trying(fd) && forall i :: 0 <= i < n ==> after.leases[i] == th.leases[i];
    forall f | f in v.files && v.files[f].owner == t ensures Uses(after, f) {
      if f != fd {
        assert Uses(th, f);
        if WriterFile(th) != Some(f) {
          var i :| 0 <= i < n && th.leases[i].fd == f;
          assert after.leases[i].fd == f;
        }
      } else {
        assert after.leases[n].fd == f;
      }
    }
  }

  lemma ReadsKeepOwnFiles(w: World, t: nat, a: Act, v: World)
    requires t in w.threads && Reads(w, t, w.threads[t], a, v) && OwnFilesMatch(w, t)
    ensures OwnFilesMatch(v, t)
  {
    if a.ReadOpen? {
      ReadOpenKeepsOwnFiles(w, t, a.fd, v);
    } else {
      var th := w.threads[t];
      LeaseStepKeepsOwnFiles(w, t, Last(th.leases).fd, v.threads[t].leases, v);
    }
  }

  lemma OwnPart(w: World, t: nat)
    requires FilesMatch(w) && t in w.threads
    ensures OwnFilesMatch(w, t)
  {
  }

  lemma ExitKeepsFiles(w: World, process: nat, v: World)
    requires Dies(w, process, v) && FilesMatch(w)
    ensures FilesMatch(v)
  {
  }

  lemma SpawnKeepsFiles(w: World, t: nat, process: nat)
    requires t !in w.threads && FilesMatch(w)
    ensures FilesMatch(Set(w, t, Thread(process, Steady, 0, None, [])))
  {
  }

  lemma StepKeepsFiles(w: World, t: nat, a: Act, v: World)
    requires Step(w, t, a, v) && FilesMatch(w)
    ensures FilesMatch(v)
  {
    hide Moves, Locks, Reads, Dies, FilesMatch, OwnFilesMatch, Local;
    if a.Exit? {
      ExitKeepsFiles(w, w.threads[t].process, v);
    } else if a.Spawn? {
      SpawnKeepsFiles(w, t, a.process);
    } else {
      OwnPart(w, t);
      if IsReader(a) {
        ReadsKeepOwnFiles(w, t, a, v);
        ReadsAreLocal(w, t, a, v);
      } else if TouchesFile(a) {
        LocksKeepOwnFiles(w, t, a, v);
        LocksAreLocal(w, t, a, v);
      } else {
        MovesKeepOwnFiles(w, t, a, v);
      }
      LocalStepKeepsFiles(w, t, v);
    }
  }

  /** One file changed, and to a mode the others allow. */
  lemma OneFileKeepsCompatible(w: World, v: World, fd: nat)
    requires Compatible(w)
    requires forall f :: f != fd && f in v.files ==> f in w.files && v.files[f] == w.files[f]
    requires fd in v.files && !v.files[fd].mode.Unlocked? ==> CanLock(w, fd, v.files[fd].mode)
    ensures Compatible(v)
  {
  }

  lemma LocksKeepCompatible(w: World, t: nat, a: Act, v: World)
    requires t in w.threads && Locks(w, t, w.threads[t], a, v) && Compatible(w)
    ensures Compatible(v)
  {
    hide Compatible;
    var th := w.threads[t];
    OneFileKeepsCompatible(w, v, StepFile(a, th));
  }

  lemma ReadsKeepCompatible(w: World, t: nat, a: Act, v: World)
    requires t in w.threads && Reads(w, t, w.threads[t], a, v) && Compatible(w)
    ensures Compatible(v)
  {
    hide Compatible;
    if a.ReadRefused? {
      SameFilesKeepCompatible(w, v);
    } else {
      OneFileKeepsCompatible(w, v, if a.ReadOpen? then a.fd else Last(w.threads[t].leases).fd);
    }
  }

  lemma SameFilesKeepCompatible(w: World, v: World)
    requires Compatible(w) && v.files == w.files
    ensures Compatible(v)
  {
  }

  lemma MovesKeepCompatible(w: World, t: nat, a: Act, v: World)
    requires t in w.threads && Moves(w, t, w.threads[t], a, v) && Compatible(w)
    ensures Compatible(v)
  {
    hide Compatible;
    SameFilesKeepCompatible(w, v);
  }

  lemma StepKeepsCompatible(w: World, t: nat, a: Act, v: World)
    requires Step(w, t, a, v) && Compatible(w)
    ensures Compatible(v)
  {
    hide Moves, Locks, Reads;
    if !a.Spawn? && !a.Exit? {
      if IsReader(a) {
        ReadsKeepCompatible(w, t, a, v);
      } else if TouchesFile(a) {
        LocksKeepCompatible(w, t, a, v);
      } else {
        MovesKeepCompatible(w, t, a, v);
      }
    }
  }

  /** Every step of every thread keeps the invariant. */
  lemma StepKeepsInv(w: World, t: nat, a: Act, v: World)
    requires Step(w, t, a, v) && Inv(w)
    ensures Inv(v)
  {
    hide Moves, Locks, Reads, Dies, LocksMatch, Compatible;
    StepKeepsLocks(w, t, a, v);
    StepKeepsFiles(w, t, a, v);
    StepKeepsCompatible(w, t, a, v);
  }

  // ----- whole runs ----------------------------------------------------------------------------------------

  datatype Move = Move(thread: nat, act: Act)

  /** Any interleaving from no threads at all. */
  ghost predicate Run(worlds: seq<World>, moves: seq<Move>) {
    && |worlds| == |moves| + 1 && worlds[0] == Empty
    && forall k {:trigger moves[k]} :: 0 <= k < |moves| ==>
      Step(worlds[k], moves[k].thread, moves[k].act, worlds[k + 1])
  }

  lemma {:induction false} RunKeepsInv(worlds: seq<World>, moves: seq<Move>, k: nat)
    requires Run(worlds, moves) && k < |worlds|
    ensures Inv(worlds[k])
  {
    hide Step, Inv;
    if k == 0 {
      EmptyIsFine();
    } else {
      RunKeepsInv(worlds, moves, k - 1);
      assert Step(worlds[k - 1], moves[k - 1].thread, moves[k - 1].act, worlds[k]);
      StepKeepsInv(worlds[k - 1], moves[k - 1].thread, moves[k - 1].act, worlds[k]);
    }
  }

  lemma EmptyIsFine()
    ensures Inv(Empty)
  {
  }

  predicate Inside(w: World, t: nat) {
    t in w.threads && w.threads[t].depth > 0
  }

  predicate Leased(w: World, t: nat) {
    t in w.threads && exists i :: 0 <= i < |w.threads[t].leases| && w.threads[t].leases[i].Held?
  }

  lemma SpawnStep(w: World, t: nat, process: nat)
    requires t !in w.threads
    ensures Step(w, t, Spawn(process), Set(w, t, Thread(process, Steady, 0, None, [])))
  {
  }

  /** Into the guard up to the poll for the file, nobody else being in the way. */
  lemma PollSteps(w: World, t: nat, timed: bool, fd: nat, v: World)
    requires t in w.threads && w.threads[t] == Thread(w.threads[t].process, Steady, 0, None, [])
    requires w.threads[t].process !in w.locks && fd !in w.files
    requires v == Set(w, t, w.threads[t].(place := Acquiring(timed)))
    ensures Step(w, t, Enter(timed), v)
    ensures var u := Set(v, t, w.threads[t].(place := Opening(timed))).(locks := Deeper(v, t));
      && Step(v, t, TakeThread, u)
      && Step(u, t, OpenFile_(fd), Polling_(u, t, timed, fd))
  {
    var u := Set(v, t, w.threads[t].(place := Opening(timed))).(locks := Deeper(v, t));
    assert v.threads[t].place == Acquiring(timed) && u.threads[t].place == Opening(timed);
  }

  function Polling_(u: World, t: nat, timed: bool, fd: nat): World
    requires t in u.threads
  {
    Set(u, t, u.threads[t].(place := Polling(fd, timed))).(files := u.files[fd := OpenFile(t, Unlocked)],
      exists_ := true)
  }

  /** A run after which thread 1 polls for the file. */
  lemma WriterPolls() returns (worlds: seq<World>, moves: seq<Move>)
    ensures Run(worlds, moves) && worlds != []
    ensures 1 in Now(worlds).threads && Now(worlds).threads.Keys == {1}
    ensures Now(worlds).threads[1] == Thread(1, Polling(7, false), 0, None, [])
    ensures Now(worlds).files == map[7 := OpenFile(1, Unlocked)] && Now(worlds).exists_
  {
    hide Run, Step;
    worlds, moves := Nothing();
    SpawnStep(Empty, 1, 1);
    var w := Set(Empty, 1, Thread(1, Steady, 0, None, []));
    worlds, moves := Then(worlds, moves, 1, Spawn(1), w);
    var v := Set(w, 1, w.threads[1].(place := Acquiring(false)));
    PollSteps(w, 1, false, 7, v);
    worlds, moves := Then(worlds, moves, 1, Enter(false), v);
    var u := Set(v, 1, w.threads[1].(place := Opening(false))).(locks := Deeper(v, 1));
    worlds, moves := Then(worlds, moves, 1, TakeThread, u);
    worlds, moves := Then(worlds, moves, 1, OpenFile_(7), Polling_(u, 1, false, 7));
  }

  /** There are runs in which a writer gets in. */
  lemma WriterGetsIn() returns (worlds: seq<World>, moves: seq<Move>)
    ensures Run(worlds, moves) && worlds != [] && Inside(Now(worlds), 1)
  {
    hide Run;
    worlds, moves := WriterPolls();
    var w := Now(worlds);
    var v := Chmod(Set(w, 1, Thread(1, Steady, 1, Some(7), [])), 7, Exclusive);
    worlds, moves := Then(worlds, moves, 1, TakeFile, v);
  }

  /** And there are runs in which a reader of another process gets its lease while the
      writer still polls. */
  lemma ReaderGetsIn() returns (worlds: seq<World>, moves: seq<Move>)
    ensures Run(worlds, moves) && worlds != [] && Leased(Now(worlds), 2)
    ensures 1 in Now(worlds).threads && Now(worlds).threads[1].place.Polling?
  {
    hide Run, Step;
    worlds, moves := WriterPolls();
    var w := Now(worlds);
    SpawnStep(w, 2, 2);
    var v := Set(w, 2, Thread(2, Steady, 0, None, []));
    worlds, moves := Then(worlds, moves, 2, Spawn(2), v);
    var o := Set(v, 2, Thread(2, Steady, 0, None, [Trying(8)])).(files := v.files[8 := OpenFile(2, Unlocked)]);
    var l := Chmod(Set(o, 2, Thread(2, Steady, 0, None, [Held(8)])), 8, Shared);
    ReadSteps(v, o, l);
    worlds, moves := Then(worlds, moves, 2, ReadOpen(8), o);
    worlds, moves := Then(worlds, moves, 2, ReadLock, l);
    assert l.threads[2].leases[0] == Held(8);
  }

  lemma ReadSteps(v: World, o: World, l: World)
    requires 2 in v.threads && v.threads[2] == Thread(2, Steady, 0, None, []) && v.exists_ && 8 !in v.files
    requires forall f :: f in v.files ==> v.files[f].mode.Unlocked?
    requires o == Set(v, 2, Thread(2, Steady, 0, None, [Trying(8)])).(files := v.files[8 := OpenFile(2, Unlocked)])
    requires l == Chmod(Set(o, 2, Thread(2, Steady, 0, None, [Held(8)])), 8, Shared)
    ensures Step(v, 2, ReadOpen(8), o) && Step(o, 2, ReadLock, l)
  {
    assert v.threads[2].leases + [Trying(8)] == [Trying(8)];
    assert Front([Trying(8)]) + [Held(8)] == [Held(8)];
  }

  lemma Nothing() returns (worlds: seq<World>, moves: seq<Move>)
    ensures Run(worlds, moves) && worlds == [Empty]
  {
    worlds, moves := [Empty], [];
  }

  function Now(worlds: seq<World>): World
    requires worlds != []
  {
    worlds[|worlds| - 1]
  }

  /** A run with one more step. */
  lemma Then(worlds: seq<World>, moves: seq<Move>, t: nat, a: Act, v: World) returns (ws: seq<World>, ms: seq<Move>)
    requires Run(worlds, moves) && worlds != [] && Step(Now(worlds), t, a, v)
    ensures Run(ws, ms) && ws == worlds + [v] && ms == moves + [Move(t, a)]
  {
    hide Step;
    ws, ms := worlds + [v], moves + [Move(t, a)];
    forall k | 0 <= k < |ms| ensures Step(ws[k], ms[k].thread, ms[k].act, ws[k + 1]) {
      if k < |moves| {
        assert ms[k] == moves[k] && ws[k] == worlds[k] && ws[k + 1] == worlds[k + 1];
      }
    }
  }

  /** MAIN: in every interleaving at most one thread, of any process, is inside the guard. */
  lemma MutualExclusion(worlds: seq<World>, moves: seq<Move>, k: nat, t: nat, u: nat)
    requires Run(worlds, moves) && k < |worlds| && Inside(worlds[k], t) && Inside(worlds[k], u)
    ensures t == u
  {
    RunKeepsInv(worlds, moves, k);
    var w := worlds[k];
    assert Owns(w, t, w.threads[t].fd.value, Exclusive) && Owns(w, u, w.threads[u].fd.value, Exclusive);
  }

  /** MAIN: no read lease is held while a writer is inside. */
  lemma ReadersExcludeWriters(worlds: seq<World>, moves: seq<Move>, k: nat, t: nat, u: nat)
    requires Run(worlds, moves) && k < |worlds| && Inside(worlds[k], t)
    ensures !Leased(worlds[k], u)
  {
    RunKeepsInv(worlds, moves, k);
    var w := worlds[k];
    assert Owns(w, t, w.threads[t].fd.value, Exclusive);
    if u in w.threads {
      var leases := w.threads[u].leases;
      forall i | 0 <= i < |leases| ensures !leases[i].Held? {
        assert Owns(w, u, leases[i].fd, LeaseMode(leases[i]));
      }
    }
  }

  /** MAIN: a thread that is in no guard call, however its calls ended, holds neither the
      re-entrant lock nor any open file. */
  lemma NothingLeaks(worlds: seq<World>, moves: seq<Move>, k: nat, t: nat)
    requires Run(worlds, moves) && k < |worlds| && t in worlds[k].threads
    requires var th := worlds[k].threads[t]; th.place.Steady? && th.depth == 0 && th.leases == []
    ensures forall p :: p in worlds[k].locks ==> worlds[k].locks[p].owner != t
    ensures forall f :: f in worlds[k].files ==> worlds[k].files[f].owner != t
    ensures worlds[k].threads[t].fd == None
  {
    RunKeepsInv(worlds, moves, k);
  }

  /** MAIN: an exclusive lock ends only at its thread's outermost exit, or with its process. */
  lemma ReleasedOnlyAtOutermostExit(worlds: seq<World>, moves: seq<Move>, k: nat, f: nat)
    requires Run(worlds, moves) && k < |moves|
    requires f in worlds[k].files && worlds[k].files[f].mode.Exclusive?
    requires f !in worlds[k + 1].files || !worlds[k + 1].files[f].mode.Exclusive?
    ensures moves[k].act == Exit || moves[k].act == Unlock
    ensures moves[k].act == Unlock ==>
      && moves[k].thread == worlds[k].files[f].owner && worlds[k].threads[moves[k].thread].depth == 0
    ensures moves[k].act == Exit ==> worlds[k].files[f].owner !in worlds[k + 1].threads
  {
    hide Moves, Locks, Reads, LocksMatch, Compatible;
    RunKeepsInv(worlds, moves, k);
    var w, t, a, v := worlds[k], moves[k].thread, moves[k].act, worlds[k + 1];
    assert Step(w, t, a, v);
    var o := w.files[f].owner;
    ExclusiveIsTheWriters(w, o, f);
    if !a.Spawn? && !a.Exit? {
      OwnPart(w, t);
      if IsReader(a) {
        ReadsKeepExclusive(w, t, a, v, f);
      } else if TouchesFile(a) {
        OnlyUnlockReleases(w, t, a, v, f);
      } else {
        MovesKeepAllFiles(w, t, a, v);
      }
    }
  }

  lemma MovesKeepAllFiles(w: World, t: nat, a: Act, v: World)
    requires t in w.threads && Moves(w, t, w.threads[t], a, v)
    ensures v.files == w.files
  {
  }

  lemma ReadsKeepExclusive(w: World, t: nat, a: Act, v: World, f: nat)
    requires t in w.threads && Reads(w, t, w.threads[t], a, v) && OwnFilesMatch(w, t)
    requires f in w.files && w.files[f].mode.Exclusive?
    ensures f in v.files && v.files[f] == w.files[f]
  {
    var th := w.threads[t];
    if th.leases != [] {
      assert Owns(w, t, th.leases[|th.leases| - 1].fd, LeaseMode(th.leases[|th.leases| - 1]));
    }
  }

  lemma OnlyUnlockReleases(w: World, t: nat, a: Act, v: World, f: nat)
    requires t in w.threads && Locks(w, t, w.threads[t], a, v) && OwnFilesMatch(w, t)
    requires f in w.files && w.files[f].mode.Exclusive? && (f !in v.files || !v.files[f].mode.Exclusive?)
    ensures a == Unlock && w.files[f].owner == t && w.threads[t].depth == 0
  {
  }

  lemma ExclusiveIsTheWriters(w: World, o: nat, f: nat)
    requires FilesMatch(w) && f in w.files && w.files[f] == OpenFile(o, Exclusive)
    ensures o in w.threads && w.threads[o].fd == Some(f) && (w.threads[o].depth > 0 || w.threads[o].place.Unlocking?)
    ensures forall i :: 0 <= i < |w.threads[o].leases| ==> w.threads[o].leases[i].fd != f
  {
    var th := w.threads[o];
    assert Uses(th, f);
    forall i | 0 <= i < |th.leases| ensures th.leases[i].fd != f {
      assert Owns(w, o, th.leases[i].fd, LeaseMode(th.leases[i]));
    }
  }

  /** While nobody is inside or reading, whoever polls for the file may take it at once. */
  lemma FreeLockCanBeTaken(worlds: seq<World>, moves: seq<Move>, k: nat, t: nat)
    requires Run(worlds, moves) && k < |worlds| && t in worlds[k].threads && worlds[k].threads[t].place.Polling?
    requires forall u :: u in worlds[k].threads ==>
      !Inside(worlds[k], u) && !worlds[k].threads[u].place.Unlocking? && !Leased(worlds[k], u)
    ensures exists v :: Step(worlds[k], t, TakeFile, v) && Inside(v, t)
  {
    RunKeepsInv(worlds, moves, k);
    var w := worlds[k];
    var th := w.threads[t];
    assert Owns(w, t, th.place.fd, Unlocked);
    forall f | f in w.files ensures w.files[f].mode.Unlocked? {
      var o := w.files[f].owner;
      var oth := w.threads[o];
      assert Uses(oth, f);
      if WriterFile(oth) != Some(f) {
        var i :| 0 <= i < |oth.leases| && oth.leases[i].fd == f;
        assert !oth.leases[i].Held?;
      }
    }
    var v := Chmod(Set(w, t, th.(place := Steady, fd := Some(th.place.fd), depth := th.depth + 1)), th.place.fd,
      Exclusive);
    assert Locks(w, t, th, TakeFile, v);
    assert Step(w, t, TakeFile, v) && Inside(v, t);
  }
}
