/** What holds in every legal rollout history, wherever a crash cuts it. */
module RolloutSafety {
  import opened Outcomes
  import opened Manifests
  import opened Checkpoints
  import opened RolloutLog

  // ----- one write --------------------------------------------------------------------

  /** The invariant of the checkpoint file. */
  ghost predicate Sound(c: Checkpoint) {
    && Readable(c) && c.schema == SCHEMA && c.operationId.spelling == 0
    && (c.maintenance.Some? ==> c.transitions == [] && c.quiescence.None?)
    && c.active[Api] && (forall u :: IsJob(u) ==> !c.active[u])
    && (forall u :: u in c.pending ==> IsTimer(u) && c.active[u])
    && (c.status.Complete? ==> c.pending == [] && RebuildDone(c) && RuntimeFree(c))
    && (c.quiescence.Some? ==> SoundQuiescence(c, c.quiescence.value))
  }

  predicate SoundQuiescence(c: Checkpoint, q: Quiescence) {
    && q.source == c.initial
    && (q.phase.StopPending? ==> c.transitions == [] && q.cacheAfter.None?)
    && (q.phase.ReleasePending? || q.phase.Released? ==> |c.transitions| <= 1)
  }

  /** How a checkpoint relates to a later one of the same operation. */
  predicate Later(b: Checkpoint, c: Checkpoint) {
    && b.operationId == c.operationId && b.initial == c.initial && b.active == c.active
    && b.transitions <= c.transitions
    && (b.maintenance.Some? <==> c.maintenance.Some?)
    && (b.maintenance.Some? ==>
          && StepRank(b.maintenance.value.step) <= StepRank(c.maintenance.value.step)
          && (b.maintenance.value.backup.Some? ==> c.maintenance.value.backup == b.maintenance.value.backup))
    && (b.quiescence.Some? ==> c.quiescence.Some? && LaterPhase(b.quiescence.value, c.quiescence.value))
    && (b.status.Complete? ==> c == b)
  }

  /** The phase moves forward and every pinned identity stays. */
  predicate LaterPhase(p: Quiescence, q: Quiescence) {
    && PhaseRank(p.phase) <= PhaseRank(q.phase)
    && q == p.(phase := q.phase, cacheAfter := q.cacheAfter)
    && (p.cacheAfter.Some? ==> q.cacheAfter == p.cacheAfter)
  }

  lemma LaterTransitive(a: Checkpoint, b: Checkpoint, c: Checkpoint)
    requires Later(a, b) && Later(b, c)
    ensures Later(a, c)
  {
  }

  lemma SoundStart(w: Watch, c: Checkpoint)
    requires Begins(w, c)
    ensures Sound(c)
  {
    assert c.transitions == [];
  }

  /** Every write continues the checkpoint it replaces, soundly. */
  lemma SoundStep(w: Watch, b: Checkpoint, c: Checkpoint)
    requires Sound(b) && Continues(w, b, c)
    ensures Sound(c) && Later(b, c)
  {
    if Transfers(w, b, c) {
      LinkedSnoc(b.initial, b.transitions, b.operationId, c.transitions[|b.transitions|]);
    } else if Resumes(w, b, c) {
    } else if IntendsRelease(w, b, c) {
    }
  }

  // ----- whole histories -----------------------------------------------------------------

  lemma {:induction false} LegalPrefix(log: seq<Event>, k: nat)
    requires Legal(log) && k <= |log|
    ensures Legal(log[..k])
    decreases |log| - k
  {
    if k < |log| {
      LegalPrefix(log, k + 1);
      assert log[..k + 1][..k] == log[..k];
    } else {
      assert log[..k] == log;
    }
  }

  lemma {:induction false} DiskIsSound(log: seq<Event>)
    requires Legal(log)
    ensures Watched(log).disk.Some? ==>
      Sound(Watched(log).disk.value) && Watched(log).disk.value.operationId.uuid in Watched(log).begun
  {
    if log != [] {
      var before, e := log[..|log| - 1], log[|log| - 1];
      DiskIsSound(before);
      if e.Wrote? {
        var w := Watched(before);
        if Begins(w, e.checkpoint) {
          SoundStart(w, e.checkpoint);
        } else {
          SoundStep(w, w.disk.value, e.checkpoint);
        }
      }
    }
  }

  /** MAIN: in every legal history from an empty state directory, cut anywhere, the
      checkpoint on disk passes its reader and all the invariants of `Sound`. */
  lemma CheckpointIsAlwaysSound(log: seq<Event>, k: nat)
    requires Legal(log) && k <= |log|
    ensures Watched(log[..k]).disk.Some? ==> Sound(Watched(log[..k]).disk.value)
  {
    LegalPrefix(log, k);
    DiskIsSound(log[..k]);
  }

  /** `Watched(..).disk` is the last write, told by positions in the log. */
  lemma {:induction false} DiskIsLastWrite(log: seq<Event>) returns (j: nat)
    requires Watched(log).disk.Some?
    ensures j < |log| && log[j] == Wrote(Watched(log).disk.value)
    ensures forall i :: j < i < |log| ==> !log[i].Wrote?
  {
    var n := |log| - 1;
    if log[n].Wrote? {
      j := n;
    } else {
      j := DiskIsLastWrite(log[..n]);
      assert log[..n][j] == log[j];
      forall i | j < i < |log| ensures !log[i].Wrote? {
        if i < n {
          assert log[..n][i] == log[i];
        }
      }
    }
  }

  /** The disk relates to every earlier write of the same operation. */
  lemma {:induction false} DiskIsLaterThanItsOperation(log: seq<Event>, i: nat)
    requires Legal(log) && i < |log| && log[i].Wrote?
    ensures log[i].checkpoint.operationId.uuid in Watched(log).begun
    ensures Watched(log).disk.Some?
    ensures Watched(log).disk.value.operationId.uuid == log[i].checkpoint.operationId.uuid
        ==> Later(log[i].checkpoint, Watched(log).disk.value)
  {
    var n := |log| - 1;
    var before := log[..n];
    DiskIsSound(log);
    if i < n {
      assert before[i] == log[i];
      DiskIsLaterThanItsOperation(before, i);
      if log[n].Wrote? {
        var w, c := Watched(before), log[n].checkpoint;
        DiskIsSound(before);
        if !Begins(w, c) {
          SoundStep(w, w.disk.value, c);
          if c.operationId.uuid == log[i].checkpoint.operationId.uuid {
            LaterTransitive(log[i].checkpoint, w.disk.value, c);
          }
        }
      }
    }
  }

  /** MAIN: two writes of one operation, in order, differ only by progress: same
      recorded units, same origin, a growing source history, forward phases with
      every pinned identity fixed, and nothing after completion. */
  lemma OperationOnlyAdvances(log: seq<Event>, i: nat, j: nat)
    requires Legal(log) && i <= j < |log| && log[i].Wrote? && log[j].Wrote?
    requires log[i].checkpoint.operationId.uuid == log[j].checkpoint.operationId.uuid
    ensures Later(log[i].checkpoint, log[j].checkpoint)
  {
    var cut := log[..j + 1];
    LegalPrefix(log, j + 1);
    assert cut[i] == log[i] && cut[|cut| - 1] == log[j];
    DiskIsLaterThanItsOperation(cut, i);
  }

  /** MAIN: a completed operation that quiesced Mihomo has released it, and moved its
      source at most once. */
  lemma CompletedQuiescenceIsReleased(log: seq<Event>, i: nat)
    requires Legal(log) && i < |log| && log[i].Wrote?
    requires log[i].checkpoint.status.Complete? && log[i].checkpoint.quiescence.Some?
    ensures log[i].checkpoint.quiescence.value.phase.Released?
    ensures |log[i].checkpoint.transitions| <= 1
  {
    WriteIsSound(log, i);
  }

  lemma WriteIsSound(log: seq<Event>, i: nat)
    requires Legal(log) && i < |log| && log[i].Wrote?
    ensures Sound(log[i].checkpoint)
  {
    hide Legal, Sound;
    var cut := log[..i + 1];
    LegalPrefix(log, i + 1);
    assert cut[|cut| - 1] == log[i];
    DiskIsSound(cut);
  }

  /** The pending checkpoint an action at `k` was covered by. */
  ghost predicate CoveredBy(log: seq<Event>, j: nat, k: nat, u: Unit) {
    && j < k < |log| && log[j].Wrote? && log[j].checkpoint.status.Pending?
    && Recorded(log[j].checkpoint, u)
    && forall i :: j < i < k ==> !log[i].Wrote?
  }

  lemma AllowedAt(log: seq<Event>, k: nat)
    requires Legal(log) && k < |log|
    ensures Legal(log[..k]) && Allowed(Watched(log[..k]), log[k])
  {
    LegalPrefix(log, k + 1);
    assert log[..k + 1][..k] == log[..k];
  }

  /** MAIN: a unit is stopped or started only after a durable pending checkpoint
      recorded it active, and that checkpoint is still the one on disk. */
  lemma ActionsAreRecordedFirst(log: seq<Event>, k: nat) returns (j: nat)
    requires Legal(log) && k < |log| && (log[k].StoppedUnit? || log[k].StartedUnit?)
    ensures CoveredBy(log, j, k, log[k].unit)
    ensures log[k].StartedUnit? ==> IsDependent(log[k].unit)
    ensures log[k].StoppedUnit? ==> IsDependent(log[k].unit) || log[k].unit == Api
  {
    AllowedAt(log, k);
    var cut := log[..k];
    j := DiskIsLastWrite(cut);
    assert forall i :: 0 <= i < k ==> cut[i] == log[i];
  }

  /** `Watched(..).up` told by positions: seen active since the command began. */
  lemma {:induction false} UpWasSeen(log: seq<Event>, u: Unit) returns (j: nat)
    requires u in Watched(log).up
    ensures j < |log| && log[j] == SawUnit(u, true)
    ensures forall i :: j < i < |log| ==> !log[i].Began?
  {
    var n := |log| - 1;
    if log[n] == SawUnit(u, true) {
      j := n;
    } else {
      j := UpWasSeen(log[..n], u);
      assert log[..n][j] == log[j];
      forall i | j < i < |log| ensures !log[i].Began? {
        if i < n {
          assert log[..n][i] == log[i];
        }
      }
    }
  }

  /** MAIN: completion means every recorded dependent was seen active by the very
      command that wrote it. */
  lemma CompletionSawEveryUnit(log: seq<Event>, k: nat, u: Unit) returns (j: nat)
    requires Legal(log) && k < |log| && log[k].Wrote? && log[k].checkpoint.status.Complete?
    requires IsDependent(u) && Recorded(log[k].checkpoint, u)
    ensures j < k && log[j] == SawUnit(u, true)
    ensures forall i :: j < i < k ==> !log[i].Began?
  {
    AllowedAt(log, k);
    var cut, c := log[..k], log[k].checkpoint;
    DiskIsSound(cut);
    var w := Watched(cut);
    var b := w.disk.value;
    SoundStep(w, b, c);
    assert b.status.Pending?;
    assert Resumes(w, b, c);
    j := UpWasSeen(cut, u);
    assert forall i :: 0 <= i < k ==> cut[i] == log[i];
  }

  // ----- transfers and the Mihomo container ---------------------------------------------------

  /** `Watched(..).down` told by positions: seen inactive, not started and not seen
      active since, and later than the last reading of the installed tree. */
  lemma {:induction false} DownWasSeen(log: seq<Event>, u: Unit) returns (j: nat)
    requires u in Watched(log).down
    ensures j < |log| && log[j] == SawUnit(u, false)
    ensures forall i :: j < i < |log| ==> !log[i].Began? && !log[i].SawExport?
    ensures forall i :: j < i < |log| ==> log[i] != SawUnit(u, true) && log[i] != StartedUnit(u)
    ensures forall i :: j < i < |log| ==> log[i] != Deployed(Locked) && log[i] != Deployed(FoundOld)
  {
    var n := |log| - 1;
    if log[n] == SawUnit(u, false) {
      j := n;
    } else {
      j := DownWasSeen(log[..n], u);
      assert forall i :: 0 <= i < n ==> log[..n][i] == log[i];
    }
  }

  lemma {:induction false} ExportWasSeen(log: seq<Event>, m: Manifest) returns (j: nat)
    requires Watched(log).export_ == Some(m)
    ensures j < |log| && log[j] == SawExport(m)
    ensures forall i :: j < i < |log| ==> !log[i].Began? && !log[i].SawExport? && log[i] != Deployed(Locked)
  {
    var n := |log| - 1;
    if log[n] == SawExport(m) {
      j := n;
    } else {
      j := ExportWasSeen(log[..n], m);
      assert forall i :: 0 <= i < n ==> log[..n][i] == log[i];
    }
  }

  predicate ContainerAction(e: Event) {
    e.StoppedContainer? || e.StartedContainer?
  }

  lemma {:induction false} RuntimeWasSeen(log: seq<Event>, r: Runtime) returns (j: nat)
    requires Watched(log).runtime == Some(r)
    ensures j < |log| && log[j] == SawRuntime(r)
    ensures forall i :: j < i < |log| ==> !log[i].Began? && !log[i].SawRuntime? && !ContainerAction(log[i])
  {
    var n := |log| - 1;
    if log[n] == SawRuntime(r) {
      j := n;
    } else {
      j := RuntimeWasSeen(log[..n], r);
      assert forall i :: 0 <= i < n ==> log[..n][i] == log[i];
    }
  }

  /** MAIN: a write that moves the source does so after reading the installed tree as
      exactly the old source, and after that seeing every unit inactive. */
  lemma TransferFollowsStoppedOldTree(log: seq<Event>, k: nat, u: Unit) returns (e: nat, j: nat)
    requires Legal(log) && k < |log| && log[k].Wrote?
    requires Watched(log[..k]).disk.Some? && Watched(log[..k]).disk.value.status.Pending?
    requires Watched(log[..k]).disk.value.digest != log[k].checkpoint.digest
    ensures e < j < k
    ensures log[e] == SawExport(Watched(log[..k]).disk.value.manifest)
    ensures log[j] == SawUnit(u, false)
    ensures forall i :: j < i < k ==> log[i] != SawUnit(u, true) && log[i] != StartedUnit(u)
    ensures forall i :: e < i < k ==> !log[i].Began?
  {
    AllowedAt(log, k);
    var cut := log[..k];
    assert Transfers(Watched(cut), Watched(cut).disk.value, log[k].checkpoint);
    e := ExportWasSeen(cut, Watched(cut).disk.value.manifest);
    j := DownWasSeen(cut, u);
    assert forall i :: 0 <= i < k ==> cut[i] == log[i];
    assert e != j;
  }

  /** MAIN: the container is touched only by its pinned identity, under a pending
      checkpoint in the matching phase, and stopped only with every unit inactive. */
  lemma ContainerActionsArePinned(log: seq<Event>, k: nat) returns (j: nat)
    requires Legal(log) && k < |log| && ContainerAction(log[k])
    ensures j < k && log[j].Wrote? && log[j].checkpoint.status.Pending? && log[j].checkpoint.quiescence.Some?
    ensures log[k].container == log[j].checkpoint.quiescence.value.runtime.container
    ensures log[k].StoppedContainer? ==> log[j].checkpoint.quiescence.value.phase.StopPending?
    ensures log[k].StartedContainer? ==> log[j].checkpoint.quiescence.value.phase.ReleasePending?
    ensures forall i :: j < i < k ==> !log[i].Wrote?
  {
    AllowedAt(log, k);
    j := DiskIsLastWrite(log[..k]);
    assert forall i :: 0 <= i < k ==> log[..k][i] == log[i];
  }

  /** MAIN: the runtime is recorded as released only after it was read, since the last
      container action, as the pinned container in its pinned unit state, running
      exactly if it ran when the operation first recorded it. */
  lemma ReleaseRestoresBaseline(log: seq<Event>, i: nat, k: nat) returns (b: nat, j: nat)
    requires Legal(log) && i <= k < |log| && log[i].Wrote? && log[k].Wrote?
    requires log[i].checkpoint.operationId.uuid == log[k].checkpoint.operationId.uuid
    requires log[i].checkpoint.quiescence.Some? && Unrecorded(log, i)
    requires log[k].checkpoint.quiescence.Some? && log[k].checkpoint.quiescence.value.phase.Released?
    requires Watched(log[..k]).disk.Some? && Watched(log[..k]).disk.value.quiescence.Some?
    requires Watched(log[..k]).disk.value.quiescence.value.phase.ReleasePending?
    ensures b < i && log[b].SawRuntime? && j < k && log[j].SawRuntime?
    ensures log[j].runtime == log[b].runtime
    ensures forall n :: j < n < k ==> !ContainerAction(log[n]) && !log[n].SawRuntime?
  {
    OperationOnlyAdvances(log, i, k);
    AllowedAt(log, i);
    AllowedAt(log, k);
    var before, after := Watched(log[..i]), Watched(log[..k]);
    assert Releases(after, after.disk.value, log[k].checkpoint);
    assert !Begins(before, log[i].checkpoint);
    assert IntendsStop(before, before.disk.value, log[i].checkpoint);
    b := RuntimeWasSeen(log[..i], before.runtime.value);
    j := RuntimeWasSeen(log[..k], after.runtime.value);
    assert forall n :: 0 <= n < k ==> log[..k][n] == log[n];
    assert log[..i][b] == log[b];
  }

  /** The operation had no runtime record before the write at `i`. */
  predicate Unrecorded(log: seq<Event>, i: nat)
    requires i <= |log|
  {
    Watched(log[..i]).disk.Some? ==> Watched(log[..i]).disk.value.quiescence.None?
  }

  /** MAIN: a database rebuild can only be the first operation of a state directory:
      any later operation finds a checkpoint file and refuses. */
  lemma RebuildIsTheFirstOperation(log: seq<Event>, i: nat, k: nat)
    requires Legal(log) && i <= k < |log| && log[i].Wrote? && log[k].Wrote?
    requires log[k].checkpoint.maintenance.Some?
    ensures log[i].checkpoint.operationId == log[k].checkpoint.operationId
    ensures log[i].checkpoint.maintenance.Some?
  {
    var cut := log[..k + 1];
    LegalPrefix(log, k + 1);
    assert cut[i] == log[i] && cut[|cut| - 1] == log[k];
    MaintenanceIsAlone(cut, i);
  }

  lemma {:induction false} MaintenanceIsAlone(log: seq<Event>, i: nat)
    requires Legal(log) && i < |log| && log[i].Wrote?
    ensures Watched(log).disk.Some?
    ensures Watched(log).disk.value.maintenance.Some? ==>
      && log[i].checkpoint.operationId == Watched(log).disk.value.operationId
      && log[i].checkpoint.maintenance.Some?
  {
    var n := |log| - 1;
    var before := log[..n];
    DiskIsLaterThanItsOperation(log, i);
    if i < n {
      assert before[i] == log[i];
      MaintenanceIsAlone(before, i);
      DiskIsSound(before);
      if log[n].Wrote? && !Begins(Watched(before), log[n].checkpoint) {
        SoundStep(Watched(before), Watched(before).disk.value, log[n].checkpoint);
      }
    }
  }
}
