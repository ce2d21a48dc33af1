/** What the threads of `WriterGuard` can do: the guard is re-entrant, it lets threads in exactly
    when its locks are free, and nothing but waiting for a lock keeps a thread inside a call. */
module GuardProgress {
  import opened WriterGuard

  // ----- getting in -------------------------------------------------------------------------------

  /** MAIN: the guard is re-entrant. A guarded call of a thread that is already inside gets in at
      once, one deeper, with the same lock file and descriptor and nobody else touched. */
  lemma NestedCallGetsIn(worlds: seq<World>, moves: seq<Move>, k: nat, t: nat)
    requires Run(worlds, moves) && k < |worlds| && t in worlds[k].threads
    requires worlds[k].threads[t].place.Acquiring? && worlds[k].threads[t].depth > 0
    ensures exists v :: Step(worlds[k], t, TakeThread, v)
    ensures forall v :: Step(worlds[k], t, TakeThread, v) ==>
      && v.threads[t] == worlds[k].threads[t].(place := Steady, depth := worlds[k].threads[t].depth + 1)
      && v.files == worlds[k].files && v.exists_ == worlds[k].exists_
      && v.threads - {t} == worlds[k].threads - {t}
  {
    RunKeepsInv(worlds, moves, k);
    hide Run, FilesMatch, Compatible;
    var w := worlds[k];
    var th := w.threads[t];
    var v := Set(w, t, th.(place := Steady, depth := th.depth + 1)).(locks := Deeper(w, t));
    assert Moves(w, t, th, TakeThread, v);
    assert Step(w, t, TakeThread, v);
  }

  /** MAIN: an outermost call gets past the thread lock exactly while no other thread of the
      process is inside the guard or on its way in or out behind that lock. */
  lemma OutermostCallGetsIn(worlds: seq<World>, moves: seq<Move>, k: nat, t: nat)
    requires Run(worlds, moves) && k < |worlds| && t in worlds[k].threads
    requires worlds[k].threads[t].place.Acquiring? && worlds[k].threads[t].depth == 0
    ensures (exists v :: Step(worlds[k], t, TakeThread, v)) <==>
      forall u :: u in worlds[k].threads && worlds[k].threads[u].process == worlds[k].threads[t].process ==>
        worlds[k].threads[u].depth == 0 && (worlds[k].threads[u].place.Steady? || worlds[k].threads[u].place.Acquiring?)
    ensures forall v :: Step(worlds[k], t, TakeThread, v) ==>
      && v.threads[t] == worlds[k].threads[t].(place := Opening(worlds[k].threads[t].place.timed))
      && v.files == worlds[k].files && v.threads - {t} == worlds[k].threads - {t}
  {
    RunKeepsInv(worlds, moves, k);
    hide Run, FilesMatch, Compatible;
    var w := worlds[k];
    var th := w.threads[t];
    var v := Set(w, t, th.(place := Opening(th.place.timed))).(locks := Deeper(w, t));
    if MayTakeThread(w, t) {
      assert Moves(w, t, th, TakeThread, v);
      assert Step(w, t, TakeThread, v);
      OnlyHolder(w, t);
    } else {
      var o := w.locks[th.process].owner;
      assert Count(w.threads[o]) > 0;
    }
  }

  /** A lease is granted exactly while no open file is locked exclusively. */
  lemma LeaseGrantedExactly(worlds: seq<World>, moves: seq<Move>, k: nat, t: nat)
    requires Run(worlds, moves) && k < |worlds| && t in worlds[k].threads
    requires var th := worlds[k].threads[t];
      th.place.Steady? && th.depth == 0 && th.leases != [] && th.leases[|th.leases| - 1].Trying?
    ensures (exists v :: Step(worlds[k], t, ReadLock, v)) <==>
      forall f :: f in worlds[k].files ==> worlds[k].files[f].mode != Exclusive
  {
    RunKeepsInv(worlds, moves, k);
    hide Run, LocksMatch, Compatible, Apart, Uses, Step;
    var th := worlds[k].threads[t];
    assert Owns(worlds[k], t, th.leases[|th.leases| - 1].fd, Unlocked);
    LeaseGranted(worlds[k], t);
  }

  lemma LeaseGranted(w: World, t: nat)
    requires t in w.threads && Reading(w.threads[t]) && Last(w.threads[t].leases).Trying?
    requires Owns(w, t, Last(w.threads[t].leases).fd, Unlocked)
    ensures (exists v :: Step(w, t, ReadLock, v)) <==> forall f :: f in w.files ==> w.files[f].mode != Exclusive
  {
    var th := w.threads[t];
    var fd := Last(th.leases).fd;
    var v := Chmod(Set(w, t, th.(leases := Front(th.leases) + [Held(fd)])), fd, Shared);
    if forall f :: f in w.files ==> w.files[f].mode != Exclusive {
      assert CanLock(w, fd, Shared);
      assert Reads(w, t, th, ReadLock, v);
      assert Step(w, t, ReadLock, v);
    }
  }

  /** Nobody inside a guard call gets a lease, and nobody at all where there is no lock file. */
  lemma LeaseAskedExactly(w: World, t: nat, fd: nat)
    requires t in w.threads && fd !in w.files
    ensures (exists v :: Step(w, t, ReadOpen(fd), v)) <==>
      w.threads[t].place == Steady && w.threads[t].depth == 0 && w.exists_
  {
    var th := w.threads[t];
    var v := Set(w, t, th.(leases := th.leases + [Trying(fd)])).(files := w.files[fd := OpenFile(t, Unlocked)]);
    if th.place == Steady && th.depth == 0 && w.exists_ {
      assert Step(w, t, ReadOpen(fd), v);
    }
  }

  // ----- getting on -------------------------------------------------------------------------------

  /** A wait is given up exactly if it has a timeout. */
  lemma WaitsEndExactlyIfTimed(w: World, t: nat)
    requires t in w.threads && (w.threads[t].place.Acquiring? || w.threads[t].place.Polling?)
    ensures (exists v :: Step(w, t, ThreadTimeout, v) || Step(w, t, FileTimeout, v)) <==> w.threads[t].place.timed
  {
    var th := w.threads[t];
    if th.place == Acquiring(true) {
      var v := Set(w, t, th.(place := Steady));
      assert Step(w, t, ThreadTimeout, v);
    }
    if th.place.Polling? && th.place.timed {
      var v := Set(w, t, th.(place := Abandoning(th.place.fd)));
      assert Step(w, t, FileTimeout, v);
    }
  }

  /** What a thread does next when it does not get in, or leaves: the place it then is at. */
  function Onward(th: Thread): Place {
    match th.place
    case Steady => if th.depth == 1 then Unlocking else Releasing
    case Acquiring(_) => Steady
    case Opening(_) => Releasing
    case Polling(fd, _) => Abandoning(fd)
    case Abandoning(_) => Releasing
    case Unlocking => Closing
    case Closing => Releasing
    case Releasing => Steady
  }

  /** `t` is one step further out, and nobody else is touched. */
  predicate StepsOut(w: World, t: nat, v: World) {
    && t in w.threads && t in v.threads && v.threads - {t} == w.threads - {t}
    && v.threads[t].place == Onward(w.threads[t])
    && v.threads[t].depth == (if w.threads[t].place.Steady? then w.threads[t].depth - 1 else w.threads[t].depth)
    && v.threads[t].process == w.threads[t].process && v.threads[t].leases == w.threads[t].leases
  }

  lemma MoveOut(w: World, t: nat) returns (a: Act, v: World)
    requires t in w.threads
    requires var th := w.threads[t];
      (th.place.Steady? && th.depth > 0) || th.place.Acquiring? || th.place.Opening? || th.place.Polling?
    requires w.threads[t].place.Acquiring? || w.threads[t].place.Polling? ==> w.threads[t].place.timed
    ensures Step(w, t, a, v) && StepsOut(w, t, v)
  {
    var th := w.threads[t];
    var on := th.(place := Onward(th));
    match th.place {
      case Steady => a, v := Leave, Set(w, t, on.(depth := th.depth - 1));
      case Acquiring(_) => a, v := ThreadTimeout, Set(w, t, on);
      case Opening(_) => a, v := OpenFails, Set(w, t, on);
      case Polling(_, _) => a, v := FileTimeout, Set(w, t, on);
    }
    assert Moves(w, t, th, a, v);
  }

  lemma ReleaseOut(w: World, t: nat) returns (v: World)
    requires t in w.threads && LocksMatch(w) && w.threads[t].place.Releasing?
    ensures Step(w, t, Release, v) && StepsOut(w, t, v)
  {
    var th := w.threads[t];
    assert Count(th) > 0;
    v := Set(w, t, th.(place := Steady)).(locks := Shallower(w, t));
    hide LocksMatch;
    assert Moves(w, t, th, Release, v);
  }

  lemma LockOut(w: World, t: nat) returns (a: Act, v: World)
    requires t in w.threads && ThreadShape(w.threads[t]) && ThreadFiles(w, t, w.threads[t])
    requires w.threads[t].place.Abandoning? || w.threads[t].place.Unlocking? || w.threads[t].place.Closing?
    ensures Step(w, t, a, v) && StepsOut(w, t, v)
  {
    var th := w.threads[t];
    var on := th.(place := Onward(th));
    match th.place {
      case Abandoning(fd) => a, v := CloseAbandoned, Close(Set(w, t, on), fd);
      case Unlocking => a, v := Unlock, Chmod(Set(w, t, on), th.fd.value, Unlocked);
      case Closing => a, v := CloseFile, Close(Set(w, t, on.(fd := None)), th.fd.value);
    }
    assert Locks(w, t, th, a, v);
  }

  /** MAIN: in every run a thread that is inside, leaving or waiting with a timeout can take its
      next step out whatever all the others do, keeping its process and its leases and, but for
      the one level it leaves, its depth. So only an untimed wait can last. */
  lemma OnlyUntimedWaitsLast(worlds: seq<World>, moves: seq<Move>, k: nat, t: nat) returns (a: Act, v: World)
    requires Run(worlds, moves) && k < |worlds| && t in worlds[k].threads
    requires worlds[k].threads[t].place.Steady? ==> worlds[k].threads[t].depth > 0
    requires worlds[k].threads[t].place.Acquiring? || worlds[k].threads[t].place.Polling? ==>
      worlds[k].threads[t].place.timed
    ensures Step(worlds[k], t, a, v) && StepsOut(worlds[k], t, v)
  {
    RunKeepsInv(worlds, moves, k);
    var w := worlds[k];
    hide Run, Compatible, LocksMatch, Step, StepsOut, ThreadShape, ThreadFiles, Apart, Uses;
    if w.threads[t].place.Abandoning? || w.threads[t].place.Unlocking? || w.threads[t].place.Closing? {
      a, v := LockOut(w, t);
    } else if w.threads[t].place.Releasing? {
      a := Release;
      v := ReleaseOut(w, t);
    } else {
      a, v := MoveOut(w, t);
    }
  }

  // ----- a nested run -------------------------------------------------------------------------------

  /** Thread 1 of process 1 alone, and what is open and held. */
  function Alone(place: Place, depth: nat, fd: Option, count: nat, files: map<nat, OpenFile>, there: bool): World {
    World(map[1 := Thread(1, place, depth, fd, [])], if count == 0 then map[] else map[1 := Hold(1, count)], files,
      there)
  }

  const Open := map[7 := OpenFile(1, Unlocked)]
  const Locked := map[7 := OpenFile(1, Exclusive)]

  const Nested := [
    Empty,
    Alone(Steady, 0, None, 0, map[], false),
    Alone(Acquiring(false), 0, None, 0, map[], false),
    Alone(Opening(false), 0, None, 1, map[], false),
    Alone(Polling(7, false), 0, None, 1, Open, true),
    Alone(Steady, 1, Some(7), 1, Locked, true),
    Alone(Acquiring(false), 1, Some(7), 1, Locked, true),
    Alone(Steady, 2, Some(7), 2, Locked, true),
    Alone(Releasing, 1, Some(7), 2, Locked, true),
    Alone(Steady, 1, Some(7), 1, Locked, true),
    Alone(Unlocking, 0, Some(7), 1, Locked, true),
    Alone(Closing, 0, Some(7), 1, Open, true),
    Alone(Releasing, 0, None, 1, map[], true),
    Alone(Steady, 0, None, 0, map[], true)]

  const NestedMoves := [
    Move(1, Spawn(1)), Move(1, Enter(false)), Move(1, TakeThread), Move(1, OpenFile_(7)), Move(1, TakeFile),
    Move(1, Enter(false)), Move(1, TakeThread), Move(1, Leave), Move(1, Release),
    Move(1, Leave), Move(1, Unlock), Move(1, CloseFile), Move(1, Release)]

  lemma EnterAlone(depth: nat, fd: Option, count: nat, files: map<nat, OpenFile>, there: bool)
    ensures Step(Alone(Steady, depth, fd, count, files, there), 1, Enter(false),
              Alone(Acquiring(false), depth, fd, count, files, there))
  {
    var w := Alone(Steady, depth, fd, count, files, there);
    assert Set(w, 1, Thread(1, Acquiring(false), depth, fd, [])) ==
      Alone(Acquiring(false), depth, fd, count, files, there);
  }

  lemma TakeAlone(depth: nat, fd: Option, files: map<nat, OpenFile>, there: bool)
    ensures Step(Alone(Acquiring(false), depth, fd, depth, files, there), 1, TakeThread,
              if depth == 0 then Alone(Opening(false), 0, fd, 1, files, there)
              else Alone(Steady, depth + 1, fd, depth + 1, files, there))
  {
    var w := Alone(Acquiring(false), depth, fd, depth, files, there);
    assert Deeper(w, 1) == map[1 := Hold(1, depth + 1)];
  }

  lemma LeaveAlone(depth: nat, fd: Option, count: nat, files: map<nat, OpenFile>, there: bool)
    requires depth > 0
    ensures Step(Alone(Steady, depth, fd, count, files, there), 1, Leave,
              Alone(if depth == 1 then Unlocking else Releasing, depth - 1, fd, count, files, there))
  {
    var w := Alone(Steady, depth, fd, count, files, there);
    var place := if depth == 1 then Unlocking else Releasing;
    assert Set(w, 1, Thread(1, place, depth - 1, fd, [])) == Alone(place, depth - 1, fd, count, files, there);
  }

  lemma ReleaseAlone(depth: nat, fd: Option, count: nat, files: map<nat, OpenFile>, there: bool)
    requires count > 0
    ensures Step(Alone(Releasing, depth, fd, count, files, there), 1, Release,
              Alone(Steady, depth, fd, count - 1, files, there))
  {
    var w := Alone(Releasing, depth, fd, count, files, there);
    assert Shallower(w, 1) == if count == 1 then map[] else map[1 := Hold(1, count - 1)];
  }

  lemma SpawnedAlone()
    ensures Set(Empty, 1, Thread(1, Steady, 0, None, [])) == Nested[1]
  {
  }

  lemma OpenAlone()
    ensures Step(Nested[3], 1, OpenFile_(7), Nested[4])
  {
    assert Polling_(Nested[3], 1, false, 7) == Nested[4];
  }

  lemma LockAlone()
    ensures Step(Nested[4], 1, TakeFile, Nested[5])
  {
    assert Chmod(Set(Nested[4], 1, Thread(1, Steady, 1, Some(7), [])), 7, Exclusive) == Nested[5];
  }

  lemma UnlockAlone()
    ensures Step(Nested[10], 1, Unlock, Nested[11])
    ensures Step(Nested[11], 1, CloseFile, Nested[12])
  {
    assert Chmod(Set(Nested[10], 1, Thread(1, Closing, 0, Some(7), [])), 7, Unlocked) == Nested[11];
    assert Close(Set(Nested[11], 1, Thread(1, Releasing, 0, None, [])), 7) == Nested[12];
  }

  lemma NestedIsRun()
    ensures Run(Nested, NestedMoves)
  {
    hide Step, Alone;
    SpawnStep(Empty, 1, 1);
    SpawnedAlone();
    OpenAlone();
    LockAlone();
    UnlockAlone();
    EnterAlone(0, None, 0, map[], false);
    TakeAlone(0, None, map[], false);
    EnterAlone(1, Some(7), 1, Locked, true);
    TakeAlone(1, Some(7), Locked, true);
    LeaveAlone(2, Some(7), 2, Locked, true);
    ReleaseAlone(1, Some(7), 2, Locked, true);
    LeaveAlone(1, Some(7), 1, Locked, true);
    ReleaseAlone(0, None, 1, map[], true);
  }

  /** The run that enters the guard twice and leaves it twice is one: inside once at 5, twice at 7,
      once again at 9, with the file locked from the first entry to the outermost exit and nothing
      left at the end. */
  lemma NestedRun()
    ensures Run(Nested, NestedMoves)
    ensures Nested[5].threads == Nested[9].threads == map[1 := Thread(1, Steady, 1, Some(7), [])]
    ensures Nested[7].threads == map[1 := Thread(1, Steady, 2, Some(7), [])]
    ensures forall k :: k in {5, 6, 7, 8, 9, 10} ==> Nested[k].files == map[7 := OpenFile(1, Exclusive)]
    ensures Nested[13].threads == map[1 := Thread(1, Steady, 0, None, [])]
    ensures Nested[13].files == map[] && Nested[13].locks == map[]
  {
    hide Run;
    NestedIsRun();
  }
}
