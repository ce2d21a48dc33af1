/** The commands of `controlled_backend_lifecycle.py`, as methods on the host they act
    on. Every call to the outside may fail or be where the process dies, and in hostile
    weather anything but the checkpoint file may change around it. */
module Lifecycle {
  import opened Outcomes
  import opened Manifests
  import opened BackendTrees
  import opened Checkpoints
  import opened RolloutLog
  import opened RolloutSafety

  type Tree = n: Node | n.Dir? ==> WellFormed(n.listing) witness Special

  /** The outside world as the commands can see it. The user interface and the host file
      pair are known by their contents; `runtimeUp` is the Mihomo and Xray units together. */
  datatype View = View(
    active: set<Unit>, source: Tree, installed: Tree,
    runtime: Runtime, cache: nat, healthy: bool, listener: bool,
    launcherCompatible: bool, backups: set<Pin>,
    ui: nat, pair: nat, runtimeUp: bool)

  /** Calm: calls succeed and nothing else acts. Faulty: any call may fail or be the
      last. Hostile: moreover the world changes arbitrarily around every call. */
  datatype Weather = Calm | Faulty | Hostile

  datatype Outcome =
    | Stopped | Transferred | AlreadyTransferred | Held | Freed | Rebuilt
    | Resumed(status: Status, pending: seq<Unit>)
  datatype Report = Report(outcome: Outcome, operationId: OperationId)

  predicate IsPending(d: Option<Checkpoint>) {
    d.Some? && d.value.status.Pending?
  }

  predicate NoJobs(v: View) {
    forall j :: IsJob(j) ==> j !in v.active
  }

  // ----- when each command succeeds in calm weather -----------------------------------------

  predicate PreflightAdmits(source: Manifest, installed: Tree) {
    PathsOf(installed).Ok? && PathsOf(installed).value <= Paths(source)
  }

  predicate SourceFits(v: View) {
    ManifestOf(v.source).Ok? && PreflightAdmits(ManifestOf(v.source).value, v.installed)
  }

  predicate StopAdmits(v: View, d: Option<Checkpoint>, maintenance: Option<Maintenance>) {
    && SourceFits(v) && NoJobs(v)
    && if IsPending(d) then Of(ManifestOf(v.source).value) == d.value.digest && d.value.maintenance == maintenance
       else Api in v.active
  }

  /** The units that stay active when a stop under checkpoint `c` takes `units` down. */
  function Without(active: set<Unit>, units: seq<Unit>, c: Checkpoint): set<Unit> {
    set u | u in active && !(u in units && Recorded(c, u))
  }

  /** What a finished stop under `c` leaves active. */
  function AfterStop(active: set<Unit>, c: Checkpoint): set<Unit> {
    Without(active, STOP_ORDER, c) - {Api}
  }

  function BeginOperation(source: Manifest, active: map<Unit, bool>, maintenance: Option<Maintenance>,
                          uuid: nat): Checkpoint {
    Checkpoint(SCHEMA, OperationId(uuid, 0), Pending, source, Of(source), Of(source), [], maintenance, None, active, [])
  }

  /** A fresh operation on `source`, recording exactly the units in `active`. */
  ghost predicate Begun(d: Option<Checkpoint>, source: Manifest, active: set<Unit>, maintenance: Option<Maintenance>,
                        uuid: nat) {
    && d.Some? && d.value == BeginOperation(source, d.value.active, maintenance, uuid)
    && forall u :: Recorded(d.value, u) <==> u in active
  }

  /** What is active after the first `i` places of STOP_ORDER. */
  function Stage(active: set<Unit>, i: nat, c: Checkpoint): set<Unit>
    requires i <= |STOP_ORDER|
  {
    Without(active, STOP_ORDER[..i], c)
  }

  /** The states a stop under `c` passes through: units go down in STOP_ORDER, and the API
      last of all, once no job is running. */
  ghost predicate StopPasses(v: View, w: View, c: Checkpoint) {
    || (exists i :: 0 <= i <= |STOP_ORDER| && w == v.(active := Stage(v.active, i, c)))
    || (NoJobs(v) && w == v.(active := AfterStop(v.active, c)))
  }

  /** Where a stop can be cut: before it did anything, or at any stage under the pending
      checkpoint, which is the one it found or a fresh one of what was active. */
  ghost predicate StopReaches(v: View, d: Option<Checkpoint>, w: View, e: Option<Checkpoint>,
                              maintenance: Option<Maintenance>, uuid: nat) {
    || (w == v && e == d)
    || (IsPending(d) && e == d && StopPasses(v, w, d.value))
    || (!IsPending(d) && SourceFits(v) && NoJobs(v) && Api in v.active
        && Begun(e, ManifestOf(v.source).value, v.active, maintenance, uuid) && StopPasses(v, w, e.value))
  }

  /** Nothing happens at a stage but the stopping of recorded units, and while the API is
      up that is all it was. */
  lemma StagesOnlyStop(v: View, w: View, c: Checkpoint)
    requires StopPasses(v, w, c) && Recorded(c, Api)
    ensures w == v.(active := w.active) && w.active <= v.active
    ensures forall u :: u in v.active && u !in w.active ==> Recorded(c, u) && (u == Api || IsDependent(u))
    ensures Api in v.active && Api !in w.active ==> w.active == AfterStop(v.active, c)
  {
    forall u: Unit ensures u in STOP_ORDER ==> IsDependent(u) {
      EveryUnitHasOneRole(u);
    }
    assert forall i, u :: 0 <= i <= |STOP_ORDER| && u in STOP_ORDER[..i] ==> u in STOP_ORDER;
  }

  /** The container is stopped, with its pinned identity and cache. */
  predicate HoldsQuiescent(v: View, q: Quiescence) {
    && (q.phase.Quiesced? ==> Some(v.cache) == q.cacheAfter)
    && Matches(v.runtime, q) && !v.runtime.running
  }

  /** Every rollout unit is inactive and the container is where the checkpoint says. */
  predicate IsHeld(v: View, c: Checkpoint) {
    && v.active == {}
    && (c.quiescence.Some? ==>
      && !c.quiescence.value.phase.ReleasePending?
      && (!c.quiescence.value.phase.Released? ==> HoldsQuiescent(v, c.quiescence.value)))
  }

  predicate TransferIsOpen(c: Checkpoint) {
    c.status.Pending? && c.maintenance.None? && (c.quiescence.Some? ==> c.quiescence.value.phase.Quiesced?)
  }

  /** `c` bound to `source` by one more transition. */
  function Advanced(c: Checkpoint, source: Manifest): Checkpoint {
    Upgrade(c).(manifest := source, digest := Of(source),
      transitions := c.transitions + [Transition(c.operationId, c.digest, Of(source))])
  }

  predicate AdvanceAdmits(v: View, c: Checkpoint) {
    |c.transitions| < MAX_SOURCE_TRANSITIONS && IsHeld(v, c) && ManifestOf(v.installed) == Ok(c.manifest)
  }

  predicate IsLastTransition(c: Checkpoint, from: Digest, to: Digest)
    requires c.transitions != []
  {
    c.transitions[|c.transitions| - 1] == Transition(c.operationId, from, to)
  }

  predicate ReplayAdmits(v: View, c: Checkpoint, from: Digest, to: Digest) {
    && c.transitions != [] && IsLastTransition(c, from, to) && IsHeld(v, c)
    && ManifestOf(v.installed).Ok? && Of(ManifestOf(v.installed).value) in {from, to}
  }

  predicate TransferAdmits(v: View, d: Option<Checkpoint>, expected: OperationId, from: Digest, to: Digest) {
    && d.Some? && TransferIsOpen(d.value) && d.value.operationId == Canonical(expected)
    && ManifestOf(v.source).Ok? && Of(ManifestOf(v.source).value) == to
    && if d.value.digest == to then ReplayAdmits(v, d.value, from, to)
       else d.value.digest == from && AdvanceAdmits(v, d.value)
  }

  // Mihomo commands name the operation, its current source and the runtime they expect.
  datatype Approval = Approval(operation: OperationId, current: Digest, runtime: RuntimeId)

  /** `_check_expected_lifecycle_identity`. */
  predicate IsOldOperation(c: Checkpoint, a: Approval) {
    OldOperation(c) && c.operationId == Canonical(a.operation) && c.digest == a.current
  }

  predicate IsApproved(q: Quiescence, a: Approval) {
    q.operationId == Canonical(a.operation) && q.runtime == a.runtime
  }

  /** The readback of a finished quiescence looks at everything but the Compose file. */
  predicate ReadsBack(v: View, q: Quiescence) {
    && v.runtime.id.(composeFile := q.runtime.composeFile) == q.runtime && v.runtime.unit == q.unit
    && !v.runtime.running && Some(v.cache) == q.cacheAfter
  }

  predicate StopIsSafe(v: View, q: Quiescence) {
    Matches(v.runtime, q) && v.cache == q.cacheBefore
  }

  predicate QuiesceContinues(v: View, c: Checkpoint, a: Approval) {
    match c.quiescence
    case None => v.runtime.id == a.runtime && v.runtime.running == v.runtime.unit.active
    case Some(q) =>
      && IsApproved(q, a) && q.source == a.current
      && match q.phase
         case StopPending => StopIsSafe(v, q)
         case Quiesced => ReadsBack(v, q)
         case _ => false
  }

  predicate OldIsDown(v: View, d: Option<Checkpoint>, a: Approval) {
    && d.Some? && IsOldOperation(d.value, a)
    && ManifestOf(v.installed).Ok? && Of(ManifestOf(v.installed).value) == a.current && v.active == {}
  }

  predicate QuiesceAdmits(v: View, d: Option<Checkpoint>, a: Approval) {
    OldIsDown(v, d, a) && QuiesceContinues(v, d.value, a)
  }

  /** `c` with its runtime record replaced. */
  function WithRuntime(c: Checkpoint, q: Quiescence): Checkpoint {
    Upgrade(c).(quiescence := Some(q))
  }

  function StopIntent(c: Checkpoint, runtime: Runtime, cache: nat): Quiescence {
    Quiescence(StopPending, c.operationId, c.digest, runtime.unit, runtime.id, cache, None)
  }

  function Quiet(q: Quiescence, cache: nat): Quiescence {
    q.(phase := Quiesced, cacheAfter := Some(cache))
  }

  /** Only the container and its cache differ. */
  predicate SameButRuntime(v: View, w: View) {
    w == v.(runtime := v.runtime.(running := w.runtime.running), cache := w.cache)
  }

  /** `_runtime_checkpoint`. */
  predicate IsReleasable(c: Checkpoint, a: Approval) {
    && c.status.Pending? && c.quiescence.Some? && IsApproved(c.quiescence.value, a) && c.digest == a.current
    && OwnedForwardCas(c, c.quiescence.value)
  }

  predicate RestoresBaseline(v: View, q: Quiescence) {
    Matches(v.runtime, q) && v.runtime.running == q.unit.active
  }

  /** The extra conditions of a release while the API is still down. */
  predicate JitHolds(v: View, c: Checkpoint, q: Quiescence) {
    && v.active == {}
    && (if q.phase.Quiesced? then HoldsQuiescent(v, q)
        else SameContainer(v.runtime, q) && (v.runtime.running || Some(v.cache) == q.cacheAfter))
    && ManifestOf(v.installed).Ok? && Of(ManifestOf(v.installed).value) == c.digest
  }

  predicate SameContainer(r: Runtime, q: Quiescence) {
    r.id.(composeFile := q.runtime.composeFile) == q.runtime
  }

  predicate ApiAnswers(v: View) {
    v.healthy && Api in v.active
  }

  predicate ReleaseIsOpen(v: View, c: Checkpoint, q: Quiescence, jit: bool) {
    && (if jit then JitHolds(v, c, q) else ApiAnswers(v))
    && Matches(v.runtime, q) && (q.phase.Quiesced? ==> !v.runtime.running)
  }

  predicate ReleaseAdmits(v: View, d: Option<Checkpoint>, a: Approval, jit: bool) {
    && d.Some? && IsReleasable(d.value, a)
    && var q := d.value.quiescence.value;
       match q.phase
       case StopPending => false
       case Released => RestoresBaseline(v, q)
       case _ => ReleaseIsOpen(v, d.value, q, jit) && (v.runtime.running ==> q.unit.active)
  }

  predicate ResumeIsOpen(v: View, c: Checkpoint) {
    && RebuildDone(c) && RuntimeFree(c) && ApiAnswers(v)
    && ManifestOf(v.source).Ok? && Of(ManifestOf(v.source).value) == c.digest
    && ManifestOf(v.installed) == Ok(c.manifest)
  }

  /** A resume starts `u`, rather than leaving it as a waiting timer. */
  predicate Restores(c: Checkpoint, u: Unit, catchup: bool) {
    Recorded(c, u) && (!IsTimer(u) || catchup)
  }

  function AfterResume(active: set<Unit>, units: seq<Unit>, c: Checkpoint, catchup: bool): set<Unit> {
    active + (set u | u in units && Restores(c, u, catchup))
  }

  predicate ResumeAdmits(v: View, d: Option<Checkpoint>) {
    && d.Some?
    && (d.value.status.Pending? ==> ResumeIsOpen(v, d.value) && (Recorded(d.value, Gateway) ==> v.listener))
  }

  function Remove(pending: seq<Unit>, u: Unit): seq<Unit> {
    if pending == [] then [] else if pending[0] == u then pending[1..] else [pending[0]] + Remove(pending[1..], u)
  }

  lemma {:induction false} RemoveDropsTheUnit(pending: seq<Unit>, u: Unit)
    requires NoDuplicates(pending)
    ensures NoDuplicates(Remove(pending, u))
    ensures forall x :: x in Remove(pending, u) <==> x in pending && x != u
  {
    if pending != [] {
      var head, tail := pending[0], pending[1..];
      assert head !in tail;
      assert forall x :: x in pending <==> x == head || x in tail;
      RemoveDropsTheUnit(tail, u);
      if head != u {
        var rest := Remove(tail, u);
        assert head !in rest;
        assert forall x :: x in [head] + rest <==> x == head || x in rest;
      }
    }
  }

  /** The timers still waiting after the units in `units` were visited. */
  ghost predicate Waiting(c: Checkpoint, pending: seq<Unit>, units: seq<Unit>, catchup: bool) {
    && NoDuplicates(pending)
    && (forall u :: u in pending ==> IsTimer(u) && Recorded(c, u))
    && (catchup ==> forall u :: u in pending ==> u !in units)
  }

  /** Every recorded unit in `units` was seen active or waits. */
  predicate Covered(c: Checkpoint, up: set<Unit>, pending: seq<Unit>, units: seq<Unit>) {
    forall u :: u in units && Recorded(c, u) ==> u in up || u in pending
  }

  /** What visiting `u` may do to the waiting timers. */
  ghost predicate PendingStep(c: Checkpoint, u: Unit, before: seq<Unit>, after: seq<Unit>, up: set<Unit>,
                              catchup: bool) {
    && NoDuplicates(after)
    && (forall x :: x != u ==> (x in after <==> x in before))
    && (u in after ==> u in before || (IsTimer(u) && Recorded(c, u)))
    && (Restores(c, u, catchup) ==> u !in after)
    && (Recorded(c, u) ==> u in up || u in after)
  }

  lemma WaitingOneMore(c: Checkpoint, i: nat, before: seq<Unit>, after: seq<Unit>, was: set<Unit>, up: set<Unit>,
                       catchup: bool)
    requires i < |RESTORE_ORDER| && was <= up
    requires Waiting(c, before, RESTORE_ORDER[..i], catchup) && Covered(c, was, before, RESTORE_ORDER[..i])
    requires NoDuplicates(before) ==> PendingStep(c, RESTORE_ORDER[i], before, after, up, catchup)
    ensures Waiting(c, after, RESTORE_ORDER[..i + 1], catchup) && Covered(c, up, after, RESTORE_ORDER[..i + 1])
  {
  }

  lemma WaitingStart(c: Checkpoint, up: set<Unit>, catchup: bool)
    requires Sound(c)
    ensures Waiting(c, c.pending, RESTORE_ORDER[..0], catchup) && Covered(c, up, c.pending, RESTORE_ORDER[..0])
  {
  }

  /** What a resume under `c`, finished or not, may have done to the world. */
  predicate Restoring(before: View, now: View, c: Checkpoint, catchup: bool) {
    && now == before.(active := now.active) && before.active <= now.active
    && forall u :: u in now.active ==> u in before.active || (Restores(c, u, catchup) && IsDependent(u))
  }

  ghost predicate HasSettled(c: Checkpoint, d: Checkpoint, catchup: bool) {
    d == Settled(c, d.pending) && Waiting(c, d.pending, RESTORE_ORDER, catchup)
  }

  function Settled(c: Checkpoint, pending: seq<Unit>): Checkpoint {
    c.(pending := pending, status := if pending == [] then Complete else Pending)
  }

  predicate PinIsPresent(v: View, c: Checkpoint) {
    c.maintenance.Some? && c.maintenance.value.backup.Some? ==> c.maintenance.value.backup.value in v.backups
  }

  /** A rebuild that was interrupted before it was verified. */
  predicate IsOpenRebuild(c: Checkpoint) {
    c.status.Pending? && c.maintenance.Some? && !c.maintenance.value.step.Verified?
  }

  const NewRebuild := Maintenance(RebuildPending, None)

  /** When `_run_database_rebuild` gets as far as starting its child in calm weather. */
  predicate RebuildAdmits(v: View, d: Option<Checkpoint>) {
    && ManifestOf(v.source).Ok? && ManifestOf(v.installed) == ManifestOf(v.source) && v.launcherCompatible
    && match d
       case None => StopAdmits(v, None, Some(NewRebuild))
       case Some(c) =>
         IsOpenRebuild(c) && c.digest == Of(ManifestOf(v.source).value) && PinIsPresent(v, c) && v.active == {}
  }

  /** When what the child left is recorded as verified in calm weather. */
  predicate VerifyAdmits(v: View, d: Option<Checkpoint>, op: OperationId) {
    && IsPending(d) && d.value.operationId == op
    && d.value.maintenance.Some? && d.value.maintenance.value.step.Published? && PinIsPresent(v, d.value)
  }

  /** What became of the rebuild child: how it ended, and what it left outside and on disk. */
  datatype ChildRun = NotStarted | Exited(success: bool, view: View, disk: Option<Checkpoint>)

  datatype Command =
    | DoStop | DoTransfer(expected: OperationId, from: Digest, to: Digest)
    | DoQuiesce(approval: Approval) | DoRelease(approval: Approval, jit: bool)
    | DoRebuild | DoResume(catchup: bool)

  // ----- what the conditions say together ------------------------------------------------------

  /** A fresh stop that finished has left no rollout unit active. */
  lemma FreshStopLeavesNothing(d: Option<Checkpoint>, source: Manifest, active: set<Unit>, m: Option<Maintenance>,
                               uuid: nat)
    requires Begun(d, source, active, m, uuid) && forall j :: IsJob(j) ==> j !in active
    ensures AfterStop(active, d.value) == {}
  {
    forall u | u in AfterStop(active, d.value) ensures false {
      EveryUnitHasOneRole(u);
    }
  }

  /** After a fresh stop from the installed source, the forward compare-and-swap to any
      other source is admitted, and then the same request again as a replay. */
  lemma FreshStopAdmitsOneTransfer(v: View, d: Option<Checkpoint>, old_: Manifest, active: set<Unit>, uuid: nat,
                                   next: Manifest)
    requires Begun(d, old_, active, None, uuid) && v.active == {}
    requires ManifestOf(v.installed) == Ok(old_) && ManifestOf(v.source) == Ok(next) && next != old_
    ensures TransferAdmits(v, d, d.value.operationId, Of(old_), Of(next))
    ensures TransferAdmits(v, Some(Advanced(d.value, next)), d.value.operationId, Of(old_), Of(next))
    ensures Advanced(d.value, next).initial == Of(old_) && |Advanced(d.value, next).transitions| == 1
  {
    assert IsHeld(v, d.value);
    var c := Advanced(d.value, next);
    assert c.transitions == [Transition(d.value.operationId, Of(old_), Of(next))];
    assert IsHeld(v, c);
  }

  /** A request whose expected digest is neither the bound one nor where the last transition
      started is refused, whatever else it says and whatever the world looks like. */
  lemma StaleTransferIsRefused(v: View, c: Checkpoint, op: OperationId, from: Digest, to: Digest)
    requires from != c.digest
    requires c.transitions != [] ==> from != c.transitions[|c.transitions| - 1].from
    ensures !TransferAdmits(v, Some(c), op, from, to)
  {
    assert c.transitions != [] ==> !IsLastTransition(c, from, to);
  }

  lemma HeldExactly(v: View, c: Checkpoint)
    requires TransferIsOpen(c)
    ensures IsHeld(v, c) <==> v.active == {} && (c.quiescence.Some? ==>
      && c.quiescence.value.cacheAfter == Some(v.cache)
      && v.runtime == Runtime(c.quiescence.value.runtime, false, c.quiescence.value.unit))
  {
  }

  /** Admission of a transfer by the recorded and the visible fields alone. */
  lemma TransferExactly(v: View, c: Checkpoint, op: OperationId, from: Digest, to: Digest)
    ensures TransferAdmits(v, Some(c), op, from, to) <==>
      && c.status == Pending && c.maintenance == None && c.operationId == OperationId(op.uuid, 0)
      && ManifestOf(v.source) == Ok(to.manifest) && v.active == {}
      && (c.quiescence.Some? ==>
        && c.quiescence.value.phase == Quiesced && c.quiescence.value.cacheAfter == Some(v.cache)
        && v.runtime == Runtime(c.quiescence.value.runtime, false, c.quiescence.value.unit))
      && if to == c.digest then
           && |c.transitions| > 0 && c.transitions[|c.transitions| - 1] == Transition(c.operationId, from, to)
           && (ManifestOf(v.installed) == Ok(from.manifest) || ManifestOf(v.installed) == Ok(to.manifest))
         else from == c.digest && |c.transitions| < 16 && ManifestOf(v.installed) == Ok(c.manifest)
  {
    hide ManifestOf;
    if TransferIsOpen(c) {
      HeldExactly(v, c);
    }
  }

  /** Admission of a quiescence: the approved operation, source and container, everything
      down, and the container as the phase leaves it. */
  lemma QuiesceExactly(v: View, c: Checkpoint, a: Approval)
    requires Sound(c)
    ensures QuiesceAdmits(v, Some(c), a) <==>
      && c.status == Pending && c.maintenance == None && c.transitions == []
      && c.operationId == OperationId(a.operation.uuid, 0) && c.digest == a.current
      && ManifestOf(v.installed) == Ok(c.manifest) && v.active == {}
      && match c.quiescence
         case None => v.runtime.id == a.runtime && v.runtime.running == v.runtime.unit.active
         case Some(q) =>
           && q.runtime == a.runtime && q.source == c.digest && q.unit == v.runtime.unit
           && if q.phase == StopPending then v.runtime.id == q.runtime && v.cache == q.cacheBefore
              else
                && q.phase == Quiesced && !v.runtime.running && q.cacheAfter == Some(v.cache)
                && v.runtime.id.container == q.runtime.container && v.runtime.id.image == q.runtime.image
                && v.runtime.id.configHash == q.runtime.configHash
  {
  }

  /** Admission of a release: the approved operation and container on the source it held or one
      transition further, and either a healthy API or, just in time, everything down, the bound
      source installed, and the cache as recorded unless the container already runs. */
  lemma ReleaseExactly(v: View, c: Checkpoint, a: Approval, jit: bool)
    requires Sound(c) && c.quiescence.Some?
    ensures var q := c.quiescence.value;
      ReleaseAdmits(v, Some(c), a, jit) <==>
        && c.status == Pending && c.operationId == OperationId(a.operation.uuid, 0) && c.digest == a.current
        && (if q.source == c.digest then c.transitions == []
            else c.transitions == [Transition(c.operationId, q.source, c.digest)])
        && q.runtime == a.runtime == v.runtime.id && q.unit == v.runtime.unit
        && if q.phase == Released then v.runtime.running == q.unit.active
           else
             && q.phase != StopPending && (v.runtime.running ==> q.unit.active && q.phase == ReleasePending)
             && if !jit then v.healthy && Api in v.active
                else
                  && v.active == {} && ManifestOf(v.installed) == Ok(c.manifest)
                  && (v.runtime.running || q.cacheAfter == Some(v.cache))
  {
    var q := c.quiescence.value;
    if |c.transitions| == 1 {
      assert c.transitions == [c.transitions[0]];
    }
  }

  /** Admission of a resume: nothing to do, or rebuild and runtime finished, the API healthy,
      the bound source selected and installed, and the listener up if a gateway is recorded. */
  lemma ResumeExactly(v: View, c: Checkpoint)
    requires Sound(c)
    ensures ResumeAdmits(v, Some(c)) <==> (c.status == Pending ==>
      && (c.maintenance.Some? ==> c.maintenance.value.step == Verified)
      && (c.quiescence.Some? ==> c.quiescence.value.phase == Released)
      && v.healthy && Api in v.active && (c.active[Gateway] ==> v.listener)
      && ManifestOf(v.source) == Ok(c.manifest) && ManifestOf(v.installed) == Ok(c.manifest))
  {
  }

  /** Admission of a stop: a source whose paths cover the installed ones, no job running, and
      either the pending operation repeated on its source or an active API to begin from. */
  lemma StopExactly(v: View, d: Option<Checkpoint>, maintenance: Option<Maintenance>)
    requires d.Some? ==> Sound(d.value)
    ensures StopAdmits(v, d, maintenance) <==>
      && ManifestOf(v.source).Ok? && PathsOf(v.installed).Ok?
      && (forall path :: path in PathsOf(v.installed).value ==>
            exists e :: e in ManifestOf(v.source).value && e.path == path)
      && {RetentionJob, MaintenanceJob, RefreshJob, TrafficJob} !! v.active
      && if d.Some? && d.value.status == Pending
         then ManifestOf(v.source) == Ok(d.value.manifest) && d.value.maintenance == maintenance
         else Api in v.active
  {
    var jobs := {RetentionJob, MaintenanceJob, RefreshJob, TrafficJob};
    assert forall u :: IsJob(u) <==> u in jobs;
    assert NoJobs(v) <==> jobs !! v.active;
  }

  /** An unfinished rebuild blocks every other command, whatever the world looks like, and
      is itself continued exactly on the source it is bound to, with its backup in place and
      nothing active. Cut in the middle of its own stop it is therefore stuck while units
      stay active: only an operator stopping them frees it. */
  lemma InterruptedRebuildStopIsStuck(v: View, c: Checkpoint, op: OperationId, from: Digest, to: Digest, a: Approval,
                                      jit: bool)
    requires Sound(c) && IsOpenRebuild(c)
    ensures !StopAdmits(v, Some(c), None)
    ensures !TransferAdmits(v, Some(c), op, from, to)
    ensures !QuiesceAdmits(v, Some(c), a)
    ensures !ReleaseAdmits(v, Some(c), a, jit)
    ensures !ResumeAdmits(v, Some(c))
    ensures RebuildAdmits(v, Some(c)) <==>
      && ManifestOf(v.source) == Ok(c.manifest) && ManifestOf(v.installed) == Ok(c.manifest) && v.launcherCompatible
      && (c.maintenance.value.backup.Some? ==> c.maintenance.value.backup.value in v.backups) && v.active == {}
    ensures v.active != {} ==> !RebuildAdmits(v, Some(c))
  {
    assert c.quiescence.None? && c.digest == Of(c.manifest);
  }

  /** If stopping the container changed its cache before the quiescence was recorded,
      the retry is refused, and so is every other way on except an unchanged stop. */
  lemma ChangedCacheBlocksQuiesce(v: View, c: Checkpoint, op: OperationId, from: Digest, to: Digest, a: Approval,
                                  jit: bool)
    requires c.quiescence.Some? && c.quiescence.value.phase.StopPending?
    ensures QuiesceAdmits(v, Some(c), a) ==> v.cache == c.quiescence.value.cacheBefore
    ensures !TransferAdmits(v, Some(c), op, from, to) && !ReleaseAdmits(v, Some(c), a, jit)
    ensures c.status.Pending? ==> !ResumeAdmits(v, Some(c))
  {
    assert v.cache != c.quiescence.value.cacheBefore ==> !StopIsSafe(v, c.quiescence.value);
  }

  /** And stopping the container can do just that: the stop is safe, the cut after it is not. */
  lemma StoppingCanChangeTheCache(v: View, c: Checkpoint, a: Approval) returns (w: View)
    requires QuiesceAdmits(v, Some(c), a) && c.quiescence.Some? && c.quiescence.value.phase.StopPending?
    ensures SameButRuntime(v, w) && !w.runtime.running && StopIsSafe(v, c.quiescence.value)
    ensures !QuiesceAdmits(w, Some(c), a)
  {
    w := v.(runtime := v.runtime.(running := false), cache := v.cache + 1);
  }

  /** Nothing keeps a second transfer out while the container is held. */
  lemma SecondTransferIsAdmitted(v: View, c: Checkpoint, next: Manifest)
    requires Sound(c) && TransferIsOpen(c) && c.quiescence.Some? && |c.transitions| == 1 && IsHeld(v, c)
    requires ManifestOf(v.installed) == Ok(c.manifest) && ManifestOf(v.source) == Ok(next) && next != c.manifest
    ensures TransferAdmits(v, Some(c), c.operationId, c.digest, Of(next))
    ensures |Advanced(c, next).transitions| == 2 && Advanced(c, next).quiescence == c.quiescence
  {
  }

  /** Two transfers while the container is held make its release impossible, whatever
      the world looks like, and nothing but more transfers or stops stays admitted. */
  lemma SecondTransferBlocksRelease(v: View, c: Checkpoint, a: Approval, jit: bool)
    requires Sound(c) && c.status.Pending? && c.quiescence.Some? && |c.transitions| >= 2
    ensures c.quiescence.value.phase.Quiesced?
    ensures !ReleaseAdmits(v, Some(c), a, jit) && !QuiesceAdmits(v, Some(c), a) && !ResumeAdmits(v, Some(c))
  {
    assert c.transitions != [];
  }

  /** With catch-up a successful resume completes; without it only recorded timers wait. */
  lemma ResumeLeavesOnlyTimers(c: Checkpoint, d: Checkpoint, catchup: bool)
    requires HasSettled(c, d, catchup)
    ensures d.status.Complete? || forall u :: u in d.pending ==> IsTimer(u) && Recorded(c, u)
    ensures catchup ==> d.status.Complete?
    ensures (forall t :: IsTimer(t) ==> !Recorded(c, t)) ==> d.status.Complete?
  {
    if d.pending != [] {
      var t := d.pending[0];
      assert t in d.pending;
      EveryUnitHasOneRole(t);
    }
  }

  class Host {
    const weather: Weather
    var disk: Option<Checkpoint>
    var view: View
    var nextUuid: nat
    ghost var log: seq<Event>
    ghost var start: seq<Event>
    ghost var watches: seq<Watch>
    ghost var watch: Watch
    ghost var claim: Claim

    /** The log is a legal history ending in `watch`, and extends what it was when the
        running command started. */
    ghost predicate Valid()
      reads this
    {
      && Follows(log, watches) && watches[|log|] == watch && start <= log
      && watch.claim == claim && watch.disk == disk && (disk.Some? ==> disk.value.operationId.uuid < nextUuid)
      && forall id :: id in watch.begun ==> id < nextUuid
    }

    /** Every history a host can have is legal. */
    lemma HistoryIsLegal()
      requires Valid()
      ensures Legal(log) && Watched(log) == watch
    {
      FollowedLogIsLegal(log, watches);
    }

    lemma SoundDisk()
      requires Valid()
      ensures disk.Some? ==> Sound(disk.value)
    {
      HistoryIsLegal();
      DiskIsSound(log);
    }

    /** A host whose state directory is empty. */
    constructor (view: View, weather: Weather)
      ensures Valid() && disk.None? && log == []
      ensures this.view == view && this.weather == weather
    {
      this.disk, this.view, this.weather, this.nextUuid := None, view, weather, 0;
      this.log, this.start, this.watches, this.watch, this.claim := [], [], [Fresh], Fresh, NoClaim;
    }

    /** The same host later on, in other weather. */
    constructor Later(h: Host, weather: Weather)
      requires h.Valid()
      ensures Valid() && this.weather == weather
      ensures disk == h.disk && view == h.view && nextUuid == h.nextUuid && log == h.log && claim == h.claim
    {
      this.disk, this.view, this.weather, this.nextUuid := h.disk, h.view, weather, h.nextUuid;
      this.log, this.start, this.watches, this.watch, this.claim := h.log, h.start, h.watches, h.watch, h.claim;
    }

    // ----- one contact with the outside --------------------------------------------------

    ghost method Note(e: Event)
      requires Valid() && Allowed(watch, e) && !e.Wrote? && !e.Deployed?
      modifies `log, `watches, `watch
      ensures Valid() && log == old(log) + [e] && watch == Observe(old(watch), e)
    {
      assert Allowed(watch, e);
      log, watch := log + [e], Observe(watch, e);
      watches := watches + [watch];
    }

    /** A step of a deployment. */
    ghost method Declare(s: Step)
      requires Valid() && AllowedStep(watch, s)
      modifies `log, `watches, `watch, `claim
      ensures Valid() && log == old(log) + [Deployed(s)]
      ensures watch == Observe(old(watch), Deployed(s)) && claim == Stake(old(claim), s)
    {
      assert Allowed(watch, Deployed(s));
      log, watch := log + [Deployed(s)], Observe(watch, Deployed(s));
      watches, claim := watches + [watch], watch.claim;
    }

    /** One call that reads or acts on the world. */
    method Contact() returns (r: Result<()>)
      modifies `view
      ensures !weather.Hostile? ==> view == old(view)
      ensures weather.Calm? ==> r.Ok?
    {
      if weather.Hostile? {
        view := *;
      }
      if !weather.Calm? {
        var fails: bool := *;
        if fails {
          return Failed;
        }
      }
      return Ok(());
    }

    /** Where a command starts. */
    method Begin()
      requires Valid()
      modifies `log, `start, `watches, `watch
      ensures Valid() && start == old(log) && log == old(log) + [Began]
      ensures watch == Observe(old(watch), Began)
    {
      Note(Began);
      start := log[..|log| - 1];
    }

    // ----- readings and actions ----------------------------------------------------------

    method IsActive(u: Unit) returns (r: Result<bool>)
      requires Valid()
      modifies `view, `log, `watches, `watch
      ensures Valid()
      ensures r.Ok? ==> log == old(log) + [SawUnit(u, r.value)] && watch == Observe(old(watch), SawUnit(u, r.value))
      ensures r.Failed? ==> log == old(log) && watch == old(watch)
      ensures !weather.Hostile? ==> view == old(view) && (r.Ok? ==> r.value == (u in view.active))
      ensures weather.Calm? ==> r.Ok?
    {
      var _ :- Contact();
      var active := u in view.active;
      Note(SawUnit(u, active));
      return Ok(active);
    }

    method ReadSource() returns (r: Result<Manifest>)
      requires Valid()
      modifies `view, `log, `watches, `watch
      ensures Valid()
      ensures r.Ok? ==>
        ValidManifest(r.value) && log == old(log) + [SawSource(r.value)]
          && watch == Observe(old(watch), SawSource(r.value))
      ensures r.Failed? ==> log == old(log) && watch == old(watch)
      ensures !weather.Hostile? ==> view == old(view) && (r.Ok? ==> r == ManifestOf(view.source))
      ensures weather.Calm? ==> r == ManifestOf(view.source)
    {
      var _ :- Contact();
      var m :- BackendManifest(view.source);
      Note(SawSource(m));
      return Ok(m);
    }

    method ReadExport() returns (r: Result<Manifest>)
      requires Valid()
      modifies `view, `log, `watches, `watch
      ensures Valid()
      ensures r.Ok? ==>
        ValidManifest(r.value) && log == old(log) + [SawExport(r.value)]
          && watch == Observe(old(watch), SawExport(r.value))
      ensures r.Failed? ==> log == old(log) && watch == old(watch)
      ensures !weather.Hostile? ==> view == old(view) && (r.Ok? ==> r == ManifestOf(view.installed))
      ensures weather.Calm? ==> r == ManifestOf(view.installed)
    {
      var _ :- Contact();
      var m :- BackendManifest(view.installed);
      Note(SawExport(m));
      return Ok(m);
    }

    /** `_verify_export`. */
    method CheckExport(expected: Manifest) returns (r: Result<()>)
      requires Valid()
      modifies `view, `log, `watches, `watch
      ensures Valid()
      ensures r.Ok? ==> watch == Observe(old(watch), SawExport(expected))
      ensures r.Failed? ==> watch == old(watch) || exists m :: watch == Observe(old(watch), SawExport(m))
      ensures !weather.Hostile? ==> view == old(view) && (r.Ok? ==> ManifestOf(view.installed) == Ok(expected))
      ensures weather.Calm? ==> (r.Ok? <==> ManifestOf(view.installed) == Ok(expected))
    {
      var m :- ReadExport();
      if m != expected {
        return Failed;
      }
      return Ok(());
    }

    method Preflight(source: Manifest) returns (r: Result<()>)
      requires Valid()
      modifies `view, `log, `watches, `watch
      ensures Valid()
      ensures r.Ok? ==> log == old(log) + [Preflighted(source)] && watch == Observe(old(watch), Preflighted(source))
      ensures r.Failed? ==> log == old(log) && watch == old(watch)
      ensures !weather.Hostile? ==> view == old(view) && (r.Ok? ==> PreflightAdmits(source, view.installed))
      ensures weather.Calm? ==> (r.Ok? <==> PreflightAdmits(source, view.installed))
    {
      var _ :- Contact();
      var ok := PreflightExport(source, view.installed);
      if !ok {
        return Failed;
      }
      Note(Preflighted(source));
      return Ok(());
    }

    method ApiHealth() returns (r: Result<()>)
      requires Valid()
      modifies `view, `log, `watches, `watch
      ensures Valid()
      ensures r.Ok? ==> log == old(log) + [SawHealthy] && watch == Observe(old(watch), SawHealthy)
      ensures r.Failed? ==> log == old(log) && watch == old(watch)
      ensures !weather.Hostile? ==> view == old(view) && (r.Ok? ==> ApiAnswers(view))
      ensures weather.Calm? ==> (r.Ok? <==> ApiAnswers(view))
    {
      var _ :- Contact();
      if !ApiAnswers(view) {
        return Failed;
      }
      Note(SawHealthy);
      return Ok(());
    }

    /** The container, its unit and the Compose file, read together. */
    method ReadRuntime() returns (r: Result<Runtime>)
      requires Valid()
      modifies `view, `log, `watches, `watch
      ensures Valid()
      ensures r.Ok? ==> log == old(log) + [SawRuntime(r.value)] && watch == Observe(old(watch), SawRuntime(r.value))
      ensures r.Failed? ==> log == old(log) && watch == old(watch)
      ensures !weather.Hostile? ==> view == old(view) && (r.Ok? ==> r.value == view.runtime)
      ensures weather.Calm? ==> r.Ok?
    {
      var _ :- Contact();
      var seen := view.runtime;
      Note(SawRuntime(seen));
      return Ok(seen);
    }

    method ReadCache() returns (r: Result<nat>)
      requires Valid()
      modifies `view, `log, `watches, `watch
      ensures Valid()
      ensures r.Ok? ==> log == old(log) + [SawCache(r.value)] && watch == Observe(old(watch), SawCache(r.value))
      ensures r.Failed? ==> log == old(log) && watch == old(watch)
      ensures !weather.Hostile? ==> view == old(view) && (r.Ok? ==> r.value == view.cache)
      ensures weather.Calm? ==> r.Ok?
    {
      var _ :- Contact();
      var seen := view.cache;
      Note(SawCache(seen));
      return Ok(seen);
    }

    method StopUnit(u: Unit) returns (r: Result<()>)
      requires Valid() && Allowed(watch, StoppedUnit(u))
      modifies `view, `log, `watches, `watch
      ensures Valid() && log == old(log) + [StoppedUnit(u)] && watch == old(watch)
      ensures !weather.Hostile? ==>
        view == old(view).(active := old(view).active - {u}) || (r.Failed? && view == old(view))
      ensures weather.Calm? ==> r.Ok?
    {
      Note(StoppedUnit(u));
      var _ :- Contact();
      view := view.(active := view.active - {u});
      var _ :- Contact();
      return Ok(());
    }

    method StartUnit(u: Unit) returns (r: Result<()>)
      requires Valid() && Allowed(watch, StartedUnit(u))
      modifies `view, `log, `watches, `watch
      ensures Valid() && log == old(log) + [StartedUnit(u)] && watch == Observe(old(watch), StartedUnit(u))
      ensures !weather.Hostile? ==>
        view == old(view).(active := old(view).active + {u}) || (r.Failed? && view == old(view))
      ensures weather.Calm? ==> r.Ok?
    {
      Note(StartedUnit(u));
      var _ :- Contact();
      view := view.(active := view.active + {u});
      var _ :- Contact();
      return Ok(());
    }

    /** `_atomic_write`: on failure the old or the new checkpoint is on disk, never a mixture. */
    method Write(c: Checkpoint) returns (r: Result<()>)
      requires Valid() && AllowedWrite(watch, c) && c.operationId.uuid < nextUuid
      modifies `disk, `view, `log, `watches, `watch
      ensures Valid()
      ensures
        || (disk == Some(c) && log == old(log) + [Wrote(c)] && watch == Observe(old(watch), Wrote(c)))
        || (r.Failed? && disk == old(disk) && log == old(log) && watch == old(watch))
      ensures !weather.Hostile? ==> view == old(view)
      ensures weather.Calm? ==> r.Ok?
    {
      var _ :- Contact();
      assert Allowed(watch, Wrote(c));
      log, watch := log + [Wrote(c)], Observe(watch, Wrote(c));
      watches := watches + [watch];
      disk := Some(c);
      var _ :- Contact();
      return Ok(());
    }

    /** `_read_checkpoint`: what a legal history leaves on disk always passes. */
    method ReadCheckpoint() returns (r: Result<Checkpoint>)
      requires Valid()
      modifies `view
      ensures Valid()
      ensures r.Ok? ==> disk == Some(r.value) && Sound(r.value)
      ensures !weather.Hostile? ==> view == old(view)
      ensures weather.Calm? ==> (r.Ok? <==> disk.Some?)
    {
      var _ :- Contact();
      SoundDisk();
      if disk.None? {
        return Failed;
      }
      return Ok(disk.value);
    }

    // ----- stop ------------------------------------------------------------------------------

    /** The checkout that `_stop` starts from: a manifest whose installed counterpart has
        nothing the checkout lacks. */
    method FitSource() returns (r: Result<Manifest>)
      requires Valid()
      modifies `view, `log, `watches, `watch
      ensures Valid()
      ensures r.Ok? ==> ValidManifest(r.value) && watch.source == watch.preflight == Some(r.value)
      ensures watch.begun == old(watch).begun
      ensures !weather.Hostile? ==> view == old(view) && (r.Ok? ==> SourceFits(view) && r == ManifestOf(view.source))
      ensures weather.Calm? ==> (r.Ok? <==> SourceFits(view))
    {
      var source :- ReadSource();
      var _ :- Preflight(source);
      return Ok(source);
    }

    /** The activity of every rollout unit, one reading each. */
    method ReadUnits() returns (r: Result<map<Unit, bool>>)
      requires Valid()
      modifies `view, `log, `watches, `watch
      ensures Valid()
      ensures watch == old(watch).(up := watch.up, down := watch.down)
      ensures r.Ok? ==> forall u: Unit :: u in r.value && (if r.value[u] then u in watch.up else u in watch.down)
      ensures !weather.Hostile? ==> view == old(view)
      ensures !weather.Hostile? && r.Ok? ==> forall u: Unit :: u in r.value && (r.value[u] <==> u in view.active)
      ensures weather.Calm? ==> r.Ok?
    {
      var active: map<Unit, bool> := map[];
      for i := 0 to |ROLLOUT_ORDER|
        invariant Valid()
        invariant watch == old(watch).(up := watch.up, down := watch.down)
        invariant forall k :: 0 <= k < i ==> ROLLOUT_ORDER[k] in active
        invariant forall u :: u in active ==> if active[u] then u in watch.up else u in watch.down
        invariant !weather.Hostile? ==> view == old(view)
        invariant !weather.Hostile? ==> forall u :: u in active ==> (active[u] <==> u in view.active)
      {
        var up :- IsActive(ROLLOUT_ORDER[i]);
        active := active[ROLLOUT_ORDER[i] := up];
      }
      forall u: Unit ensures u in active {
        EveryUnitHasOneRole(u);
      }
      return Ok(active);
    }

    /** The durable checkpoint of a fresh operation. */
    method Create(source: Manifest, maintenance: Option<Maintenance>) returns (r: Result<Checkpoint>)
      requires Valid() && !IsPending(disk)
      requires maintenance.Some? ==> disk.None? && maintenance.value == Maintenance(RebuildPending, None)
      requires ValidManifest(source) && watch.source == watch.preflight == Some(source)
      modifies `disk, `view, `log, `watches, `watch, `nextUuid
      ensures Valid()
      ensures r.Ok? ==>
        && disk == Some(r.value) && r.value == BeginOperation(source, r.value.active, maintenance, old(nextUuid))
        && Recorded(r.value, Api)
      ensures !weather.Hostile? ==> view == old(view)
      ensures !weather.Hostile? && (r.Ok? || disk != old(disk)) ==>
        Api in view.active && NoJobs(view) && Begun(disk, source, view.active, maintenance, old(nextUuid))
      ensures weather.Calm? ==> (r.Ok? <==> Api in view.active && NoJobs(view))
    {
      var active :- ReadUnits();
      if !active[Api] || exists j :: j in TRANSIENT_JOBS && active[j] {
        return Failed;
      }
      var c := BeginOperation(source, active, maintenance, nextUuid);
      nextUuid := nextUuid + 1;
      assert Begins(watch, c);
      var _ :- Write(c);
      return Ok(c);
    }

    /** The pending checkpoint to continue, or a fresh one. */
    method Claim(source: Manifest, maintenance: Option<Maintenance>) returns (r: Result<Checkpoint>)
      requires Valid()
      requires maintenance.Some? ==> disk.None? && maintenance.value == Maintenance(RebuildPending, None)
      requires ValidManifest(source) && watch.source == watch.preflight == Some(source)
      modifies `disk, `view, `log, `watches, `watch, `nextUuid
      ensures Valid()
      ensures IsPending(old(disk)) ==> disk == old(disk)
      ensures r.Ok? ==>
        IsPending(disk) && r.value == disk.value && Recorded(r.value, Api) && r.value.maintenance == maintenance
      ensures r.Ok? && !IsPending(old(disk)) ==>
        r.value == BeginOperation(source, r.value.active, maintenance, old(nextUuid))
      ensures !weather.Hostile? ==> view == old(view)
      ensures !weather.Hostile? && (r.Ok? || disk != old(disk)) && !IsPending(old(disk)) ==>
        Api in view.active && NoJobs(view) && Begun(disk, source, view.active, maintenance, old(nextUuid))
      ensures weather.Calm? ==> (r.Ok? <==>
        if IsPending(old(disk)) then Of(source) == disk.value.digest && disk.value.maintenance == maintenance
        else Api in view.active && NoJobs(view))
    {
      if disk.Some? {
        var c :- ReadCheckpoint();
        if c.status.Pending? {
          if Of(source) != c.digest || c.maintenance != maintenance {
            return Failed;
          }
          return Ok(Upgrade(c));
        }
      }
      r := Create(source, maintenance);
    }

    lemma OneStopped(v: View, u: Unit, c: Checkpoint)
      ensures Without(v.active, [u], c) == if Recorded(c, u) then v.active - {u} else v.active
    {
    }

    method StopIfRecorded(c: Checkpoint, u: Unit) returns (r: Result<()>)
      requires Valid() && disk == Some(c) && c.status.Pending? && (u == Api || IsDependent(u))
      requires u == Api ==> forall j :: IsJob(j) ==> j in watch.down
      requires u == Api ==> Recorded(c, u)
      modifies `view, `log, `watches, `watch
      ensures Valid()
      ensures watch == old(watch).(up := watch.up, down := watch.down)
      ensures !weather.Hostile? ==>
        view == old(view) || view == old(view).(active := Without(old(view).active, [u], c))
      ensures !weather.Hostile? && r.Ok? ==> view == old(view).(active := Without(old(view).active, [u], c))
      ensures weather.Calm? ==> r.Ok?
    {
      hide Follows, ManifestOf, Without;
      OneStopped(view, u, c);
      if Recorded(c, u) {
        var up :- IsActive(u);
        if up {
          var _ :- StopUnit(u);
        }
      }
      return Ok(());
    }

    lemma NextStage(active: set<Unit>, i: nat, c: Checkpoint)
      requires i < |STOP_ORDER|
      ensures Without(Stage(active, i, c), [STOP_ORDER[i]], c) == Stage(active, i + 1, c)
    {
      assert STOP_ORDER[..i + 1] == STOP_ORDER[..i] + [STOP_ORDER[i]];
    }

    lemma Stages(active: set<Unit>, c: Checkpoint)
      ensures Stage(active, 0, c) == active && Stage(active, |STOP_ORDER|, c) == Without(active, STOP_ORDER, c)
    {
      assert STOP_ORDER[..|STOP_ORDER|] == STOP_ORDER;
    }

    lemma ApiStandsTillTheEnd(v: View, c: Checkpoint)
      ensures StopPasses(v, v, c)
      ensures forall i :: 0 <= i <= |STOP_ORDER| && Api in v.active ==> Api in Stage(v.active, i, c)
      ensures Recorded(c, Api) ==> Without(Without(v.active, STOP_ORDER, c), [Api], c) == AfterStop(v.active, c)
    {
      hide NoJobs, AfterStop;
      Stages(v.active, c);
      assert forall u :: u in STOP_ORDER ==> u != Api;
      assert forall i, u :: 0 <= i <= |STOP_ORDER| && u in STOP_ORDER[..i] ==> u in STOP_ORDER;
      AfterStopIsLast(v.active, c);
    }

    lemma AfterStopIsLast(active: set<Unit>, c: Checkpoint)
      ensures Recorded(c, Api) ==> Without(Without(active, STOP_ORDER, c), [Api], c) == AfterStop(active, c)
    {
    }

    /** The loop over STOP_ORDER, one stage a unit. */
    method StopDependents(c: Checkpoint) returns (r: Result<()>)
      requires Valid() && disk == Some(c) && c.status.Pending?
      modifies `view, `log, `watches, `watch
      ensures Valid()
      ensures watch == old(watch).(up := watch.up, down := watch.down)
      ensures !weather.Hostile? ==>
        exists i :: 0 <= i <= |STOP_ORDER| && view == old(view).(active := Stage(old(view).active, i, c))
      ensures !weather.Hostile? && r.Ok? ==> view == old(view).(active := Without(old(view).active, STOP_ORDER, c))
      ensures weather.Calm? ==> r.Ok?
    {
      hide Follows, ManifestOf, Without, Stage;
      Stages(view.active, c);
      for i := 0 to |STOP_ORDER|
        invariant Valid()
        invariant watch == old(watch).(up := watch.up, down := watch.down)
        invariant !weather.Hostile? ==> view == old(view).(active := Stage(old(view).active, i, c))
      {
        EveryUnitHasOneRole(STOP_ORDER[i]);
        NextStage(old(view).active, i, c);
        var _ :- StopIfRecorded(c, STOP_ORDER[i]);
      }
      return Ok(());
    }

    /** The second look at the one-shot jobs. */
    method JobsAreDown() returns (r: Result<()>)
      requires Valid()
      modifies `view, `log, `watches, `watch
      ensures Valid()
      ensures watch == old(watch).(up := watch.up, down := watch.down)
      ensures r.Ok? ==> forall j :: IsJob(j) ==> j in watch.down
      ensures !weather.Hostile? ==> view == old(view) && (r.Ok? ==> NoJobs(view))
      ensures weather.Calm? ==> (r.Ok? <==> NoJobs(view))
    {
      var running := false;
      for i := 0 to |TRANSIENT_JOBS|
        invariant Valid()
        invariant watch == old(watch).(up := watch.up, down := watch.down)
        invariant !running ==> forall k :: 0 <= k < i ==> TRANSIENT_JOBS[k] in watch.down
        invariant !weather.Hostile? ==> view == old(view)
        invariant !weather.Hostile? ==> (running <==> exists k :: 0 <= k < i && TRANSIENT_JOBS[k] in view.active)
      {
        var up :- IsActive(TRANSIENT_JOBS[i]);
        running := running || up;
      }
      if running {
        assert !weather.Hostile? ==>
          exists k :: 0 <= k < |TRANSIENT_JOBS| && IsJob(TRANSIENT_JOBS[k]) && TRANSIENT_JOBS[k] in view.active;
        return Failed;
      }
      return Ok(());
    }

    lemma JobsAreNotStopped(active: set<Unit>, c: Checkpoint)
      ensures forall j :: IsJob(j) ==> (j in Without(active, STOP_ORDER, c) <==> j in active)
      ensures forall j :: IsJob(j) ==> (j in AfterStop(active, c) <==> j in active)
    {
      assert forall j :: IsJob(j) ==> j !in STOP_ORDER;
    }

    /** Takes the recorded units down, the API last. */
    method TakeDown(c: Checkpoint) returns (r: Result<()>)
      requires Valid() && disk == Some(c) && c.status.Pending? && Recorded(c, Api)
      modifies `view, `log, `watches, `watch
      ensures Valid()
      ensures !weather.Hostile? ==> StopPasses(old(view), view, c)
      ensures !weather.Hostile? && Api in old(view).active && Api !in view.active ==>
        NoJobs(view) && view == old(view).(active := AfterStop(old(view).active, c))
      ensures !weather.Hostile? && r.Ok? ==>
        NoJobs(view) && view == old(view).(active := AfterStop(old(view).active, c))
      ensures weather.Calm? ==> (r.Ok? <==> NoJobs(old(view)))
    {
      hide Follows, ManifestOf, Without, Stage, AfterStop;
      ApiStandsTillTheEnd(view, c);
      JobsAreNotStopped(view.active, c);
      var _ :- StopDependents(c);
      var _ :- JobsAreDown();
      r := StopIfRecorded(c, Api);
    }

    lemma AtFirstStage(v: View)
      ensures forall c :: StopPasses(v, v, c)
    {
      forall c ensures StopPasses(v, v, c) {
        ApiStandsTillTheEnd(v, c);
      }
    }

    /** `_stop`. */
    method StopUnder(maintenance: Option<Maintenance>) returns (r: Result<Report>)
      requires Valid()
      requires maintenance.Some? ==> disk.None? && maintenance.value == Maintenance(RebuildPending, None)
      modifies `disk, `view, `log, `watches, `watch, `nextUuid
      ensures Valid()
      ensures IsPending(old(disk)) ==> disk == old(disk)
      ensures r.Ok? ==>
        IsPending(disk) && r.value == Report(Stopped, disk.value.operationId) && disk.value.maintenance == maintenance
      ensures !weather.Hostile? && r.Ok? ==>
        && NoJobs(view) && SourceFits(view) && view == old(view).(active := AfterStop(old(view).active, disk.value))
        && (!IsPending(old(disk)) ==>
            Begun(disk, ManifestOf(view.source).value, old(view).active, maintenance, old(nextUuid)))
      ensures !weather.Hostile? ==> StopReaches(old(view), old(disk), view, disk, maintenance, old(nextUuid))
      ensures weather.Calm? ==> (r.Ok? <==> StopAdmits(old(view), old(disk), maintenance))
    {
      hide Follows, ManifestOf, PathsOf, StopPasses, Begun;
      AtFirstStage(view);
      var source :- FitSource();
      var c :- Claim(source, maintenance);
      var _ :- TakeDown(c);
      return Ok(Report(Stopped, c.operationId));
    }

    method Stop() returns (r: Result<Report>)
      requires Valid()
      modifies `disk, `view, `log, `start, `watches, `watch, `nextUuid
      ensures Valid() && start == old(log)
      ensures IsPending(old(disk)) ==> disk == old(disk)
      ensures r.Ok? ==>
        IsPending(disk) && r.value == Report(Stopped, disk.value.operationId) && disk.value.maintenance.None?
      ensures !weather.Hostile? && r.Ok? ==>
        && NoJobs(view) && SourceFits(view) && view == old(view).(active := AfterStop(old(view).active, disk.value))
        && (!IsPending(old(disk)) ==> Begun(disk, ManifestOf(view.source).value, old(view).active, None, old(nextUuid)))
      ensures !weather.Hostile? ==> StopReaches(old(view), old(disk), view, disk, None, old(nextUuid))
      ensures weather.Calm? ==> (r.Ok? <==> StopAdmits(old(view), old(disk), None))
    {
      Begin();
      r := StopUnder(None);
    }

    // ----- transfer --------------------------------------------------------------------------

    /** `_require_units_stopped` without a checkpoint. */
    method RequireDown() returns (r: Result<()>)
      requires Valid()
      modifies `view, `log, `watches, `watch
      ensures Valid()
      ensures watch == old(watch).(up := watch.up, down := watch.down)
      ensures r.Ok? ==> AllDown(watch)
      ensures !weather.Hostile? ==> view == old(view) && (r.Ok? ==> view.active == {})
      ensures weather.Calm? ==> (r.Ok? <==> view.active == {})
    {
      var active :- ReadUnits();
      if exists u: Unit :: active[u] {
        return Failed;
      }
      assert !weather.Hostile? ==> forall u: Unit :: u !in view.active by {
        if !weather.Hostile? {
          forall u: Unit ensures u !in view.active {
            assert !active[u];
          }
        }
      }
      return Ok(());
    }

    /** The container is stopped with its pinned identity and cache. */
    method RequireQuiescent(q: Quiescence) returns (r: Result<()>)
      requires Valid()
      modifies `view, `log, `watches, `watch
      ensures Valid()
      ensures watch == old(watch).(runtime := watch.runtime, cache := watch.cache)
      ensures !weather.Hostile? ==> view == old(view) && (r.Ok? ==> HoldsQuiescent(view, q))
      ensures weather.Calm? ==> (r.Ok? <==> HoldsQuiescent(view, q))
    {
      if q.phase.Quiesced? {
        var cache :- ReadCache();
        if Some(cache) != q.cacheAfter {
          return Failed;
        }
      }
      var runtime :- ReadRuntime();
      if !Matches(runtime, q) || runtime.running {
        return Failed;
      }
      return Ok(());
    }

    /** `_require_units_stopped` with the checkpoint. */
    method RequireHeld(c: Checkpoint) returns (r: Result<()>)
      requires Valid()
      modifies `view, `log, `watches, `watch
      ensures Valid()
      ensures watch == old(watch).(up := watch.up, down := watch.down, runtime := watch.runtime, cache := watch.cache)
      ensures r.Ok? ==> AllDown(watch)
      ensures !weather.Hostile? ==> view == old(view) && (r.Ok? ==> IsHeld(view, c))
      ensures weather.Calm? ==> (r.Ok? <==> IsHeld(view, c))
    {
      var _ :- RequireDown();
      if c.quiescence.Some? {
        match c.quiescence.value.phase {
          case StopPending => r := RequireQuiescent(c.quiescence.value); return;
          case Quiesced => r := RequireQuiescent(c.quiescence.value); return;
          case ReleasePending => return Failed;
          case Released =>
        }
      }
      return Ok(());
    }

    /** The old source installed, and everything held, before and after hashing it. */
    method RequireOldInstalled(c: Checkpoint) returns (r: Result<()>)
      requires Valid()
      modifies `view, `log, `watches, `watch
      ensures Valid()
      ensures watch.source == old(watch).source && watch.begun == old(watch).begun && watch.disk == old(watch).disk
      ensures r.Ok? ==> AllDown(watch) && watch.export_ == Some(c.manifest)
      ensures !weather.Hostile? ==>
        view == old(view) && (r.Ok? ==> IsHeld(view, c) && ManifestOf(view.installed) == Ok(c.manifest))
      ensures weather.Calm? ==> (r.Ok? <==> IsHeld(view, c) && ManifestOf(view.installed) == Ok(c.manifest))
    {
      var _ :- RequireHeld(c);
      var _ :- CheckExport(c.manifest);
      r := RequireHeld(c);
    }

    /** The forward compare-and-swap of the bound source. */
    method Advance(c: Checkpoint, source: Manifest) returns (r: Result<Report>)
      requires Valid() && disk == Some(c) && TransferIsOpen(c) && c.operationId.spelling == 0
      requires ValidManifest(source) && watch.source == Some(source) && Of(source) != c.digest
      modifies `disk, `view, `log, `watches, `watch
      ensures Valid()
      ensures disk == old(disk) || disk == Some(Advanced(c, source))
      ensures r.Ok? ==> disk == Some(Advanced(c, source)) && r.value == Report(Transferred, c.operationId)
      ensures !weather.Hostile? ==> view == old(view) && (r.Ok? || disk != old(disk) ==> AdvanceAdmits(view, c))
      ensures weather.Calm? ==> (r.Ok? <==> AdvanceAdmits(view, c))
    {
      if |c.transitions| >= MAX_SOURCE_TRANSITIONS {
        return Failed;
      }
      var _ :- RequireOldInstalled(c);
      assert Transfers(watch, c, Advanced(c, source));
      var _ :- Write(Advanced(c, source));
      return Ok(Report(Transferred, c.operationId));
    }

    /** A replay of the last compare-and-swap, which changes nothing. */
    method Replay(c: Checkpoint, from: Digest, to: Digest) returns (r: Result<Report>)
      requires Valid()
      modifies `view, `log, `watches, `watch
      ensures Valid()
      ensures r.Ok? ==> r.value == Report(AlreadyTransferred, c.operationId)
      ensures r.Ok? ==> c.transitions != [] && IsLastTransition(c, from, to)
      ensures !weather.Hostile? ==> view == old(view) && (r.Ok? ==> ReplayAdmits(view, c, from, to))
      ensures weather.Calm? ==> (r.Ok? <==> ReplayAdmits(view, c, from, to))
    {
      if c.transitions == [] || !IsLastTransition(c, from, to) {
        return Failed;
      }
      var _ :- RequireHeld(c);
      var installed :- ReadExport();
      if Of(installed) != from && Of(installed) != to {
        return Failed;
      }
      return Ok(Report(AlreadyTransferred, c.operationId));
    }

    /** `_transfer`. */
    method Transfer(expected: OperationId, from: Digest, to: Digest) returns (r: Result<Report>)
      requires Valid()
      modifies `disk, `view, `log, `start, `watches, `watch
      ensures Valid() && start == old(log)
      ensures disk == old(disk) || (IsPending(old(disk)) && disk == Some(Advanced(old(disk).value, to.manifest)))
      ensures r.Ok? ==>
        && IsPending(old(disk)) && r.value.operationId == old(disk).value.operationId == Canonical(expected)
        && disk.value.digest == to
        && if old(disk).value.digest == to then disk == old(disk) && r.value.outcome == AlreadyTransferred
           else disk == Some(Advanced(old(disk).value, to.manifest)) && r.value.outcome == Transferred
      ensures disk != old(disk) ==> old(disk).value.digest == from && disk.value.digest == to
      ensures r.Ok? && old(disk).value.digest != to ==> old(disk).value.digest == from
      ensures r.Ok? && old(disk).value.digest == to ==>
        && |old(disk).value.transitions| > 0
        && old(disk).value.transitions[|old(disk).value.transitions| - 1] == Transition(Canonical(expected), from, to)
      ensures !weather.Hostile? ==>
        view == old(view) && (r.Ok? || disk != old(disk) ==> TransferAdmits(view, old(disk), expected, from, to))
      ensures weather.Calm? ==> (r.Ok? <==> TransferAdmits(view, old(disk), expected, from, to))
    {
      hide Follows, ManifestOf;
      Begin();
      var c :- ReadCheckpoint();
      if c.status.Complete? || c.maintenance.Some? || c.operationId != Canonical(expected) {
        return Failed;
      }
      var source :- ReadSource();
      if Of(source) != to || (c.quiescence.Some? && !c.quiescence.value.phase.Quiesced?) {
        return Failed;
      }
      if c.digest == to {
        r := Replay(Upgrade(c), from, to);
      } else if c.digest != from {
        return Failed;
      } else {
        r := Advance(Upgrade(c), source);
      }
    }

    // ----- quiesce ---------------------------------------------------------------------------

    /** `docker stop` by the pinned id; stopping may itself change the cache file. */
    method StopContainer(id: nat) returns (r: Result<()>)
      requires Valid() && Allowed(watch, StoppedContainer(id))
      modifies `view, `log, `watches, `watch
      ensures Valid() && log == old(log) + [StoppedContainer(id)] && watch == Observe(old(watch), StoppedContainer(id))
      ensures !weather.Hostile? ==> SameButRuntime(old(view), view)
      ensures !weather.Hostile? && r.Ok? ==> !view.runtime.running
      ensures weather.Calm? ==> (r.Ok? <==> old(view).runtime.id.container == id)
    {
      Note(StoppedContainer(id));
      var _ :- Contact();
      if view.runtime.id.container != id {
        return Failed;
      }
      var cache: nat := *;
      view := view.(runtime := view.runtime.(running := false), cache := cache);
      var _ :- Contact();
      return Ok(());
    }

    method StartContainer(id: nat) returns (r: Result<()>)
      requires Valid() && Allowed(watch, StartedContainer(id))
      modifies `view, `log, `watches, `watch
      ensures Valid() && log == old(log) + [StartedContainer(id)] && watch == Observe(old(watch), StartedContainer(id))
      ensures !weather.Hostile? ==> SameButRuntime(old(view), view)
      ensures !weather.Hostile? && r.Ok? ==> view.runtime.running
      ensures weather.Calm? ==> (r.Ok? <==> old(view).runtime.id.container == id)
    {
      Note(StartedContainer(id));
      var _ :- Contact();
      if view.runtime.id.container != id {
        return Failed;
      }
      var cache: nat := *;
      view := view.(runtime := view.runtime.(running := true), cache := cache);
      var _ :- Contact();
      return Ok(());
    }

    /** Records the approved baseline before anything is stopped. */
    method IntendStop(c: Checkpoint, a: Approval) returns (r: Result<Checkpoint>)
      requires Valid() && disk == Some(c) && IsOldOperation(c, a) && c.quiescence.None?
      requires AllDown(watch) && watch.export_.Some? && Of(watch.export_.value) == c.digest
      modifies `disk, `view, `log, `watches, `watch
      ensures Valid()
      ensures disk == old(disk)
           || (disk.Some? && disk.value.quiescence.Some? && disk == Some(WithRuntime(c, disk.value.quiescence.value))
               && disk.value.quiescence.value.phase.StopPending?)
      ensures r.Ok? ==>
        && disk == Some(r.value) && AllDown(watch) && r.value.quiescence.Some?
        && r.value == WithRuntime(c, r.value.quiescence.value) && r.value.quiescence.value.phase.StopPending?
        && IsApproved(r.value.quiescence.value, a)
      ensures !weather.Hostile? ==> view == old(view)
      ensures !weather.Hostile? && r.Ok? ==>
        && QuiesceContinues(view, c, a) && r.value == WithRuntime(c, StopIntent(c, view.runtime, view.cache))
      ensures weather.Calm? ==> (r.Ok? <==> QuiesceContinues(view, c, a))
    {
      hide Follows, ManifestOf;
      var runtime :- ReadRuntime();
      if runtime.id != a.runtime || runtime.running != runtime.unit.active {
        return Failed;
      }
      var cache :- ReadCache();
      var next := WithRuntime(c, StopIntent(c, runtime, cache));
      assert IntendsStop(watch, c, next);
      var _ :- Write(next);
      return Ok(next);
    }

    /** The pinned container, checked once more and stopped if it runs. */
    method StopPinned(c: Checkpoint) returns (r: Result<()>)
      requires Valid() && disk == Some(c) && OldOperation(c) && AllDown(watch)
      requires c.quiescence.Some? && c.quiescence.value.phase.StopPending?
      modifies `view, `log, `watches, `watch
      ensures Valid()
      ensures !weather.Hostile? ==> SameButRuntime(old(view), view)
      ensures !weather.Hostile? && r.Ok? ==> !view.runtime.running && StopIsSafe(old(view), c.quiescence.value)
      ensures weather.Calm? ==> (r.Ok? <==> StopIsSafe(old(view), c.quiescence.value))
    {
      var q := c.quiescence.value;
      var runtime :- ReadRuntime();
      if !Matches(runtime, q) {
        return Failed;
      }
      var cache :- ReadCache();
      if cache != q.cacheBefore {
        return Failed;
      }
      if runtime.running {
        r := StopContainer(q.runtime.container);
      } else {
        r := Ok(());
      }
    }

    /** From the recorded intent to the recorded stopped container. */
    method FinishQuiesce(c: Checkpoint) returns (r: Result<Report>)
      requires Valid() && disk == Some(c) && OldOperation(c) && AllDown(watch)
      requires c.quiescence.Some? && c.quiescence.value.phase.StopPending?
      modifies `disk, `view, `log, `watches, `watch
      ensures Valid()
      ensures disk == old(disk) || exists cache :: disk == Some(WithRuntime(c, Quiet(c.quiescence.value, cache)))
      ensures r.Ok? ==>
        && r.value == Report(Held, c.operationId) && disk.Some? && disk.value.quiescence.Some?
        && disk.value.quiescence.value.phase.Quiesced?
      ensures !weather.Hostile? ==> SameButRuntime(old(view), view)
      ensures !weather.Hostile? && r.Ok? ==>
        StopIsSafe(old(view), c.quiescence.value) && HoldsQuiescent(view, disk.value.quiescence.value)
      ensures weather.Calm? ==> (r.Ok? <==> StopIsSafe(old(view), c.quiescence.value))
    {
      var _ :- StopPinned(c);
      var q := c.quiescence.value;
      var stopped :- ReadRuntime();
      var cache :- ReadCache();
      if !Matches(stopped, q) || stopped.running {
        return Failed;
      }
      assert Quiesces(watch, c, WithRuntime(c, Quiet(q, cache)));
      var _ :- Write(WithRuntime(c, Quiet(q, cache)));
      return Ok(Report(Held, c.operationId));
    }

    /** A repeated request for a quiescence that is already recorded. */
    method ReadBack(c: Checkpoint) returns (r: Result<Report>)
      requires Valid() && c.quiescence.Some?
      modifies `view, `log, `watches, `watch
      ensures Valid()
      ensures r.Ok? ==> r.value == Report(Held, c.operationId)
      ensures !weather.Hostile? ==> view == old(view) && (r.Ok? ==> ReadsBack(view, c.quiescence.value))
      ensures weather.Calm? ==> (r.Ok? <==> ReadsBack(view, c.quiescence.value))
    {
      var q := c.quiescence.value;
      var runtime :- ReadRuntime();
      if runtime.id.(composeFile := q.runtime.composeFile) != q.runtime || runtime.running || runtime.unit != q.unit {
        return Failed;
      }
      var cache :- ReadCache();
      if Some(cache) != q.cacheAfter {
        return Failed;
      }
      return Ok(Report(Held, c.operationId));
    }

    /** The checkpoint of the approved old operation, with its source installed and
        every unit inactive. */
    method OldAndDown(a: Approval) returns (r: Result<Checkpoint>)
      requires Valid()
      modifies `view, `log, `watches, `watch
      ensures Valid()
      ensures r.Ok? ==>
        && disk == Some(r.value) && IsOldOperation(r.value, a) && AllDown(watch)
        && watch.export_.Some? && Of(watch.export_.value) == r.value.digest
      ensures !weather.Hostile? ==> view == old(view) && (r.Ok? ==> OldIsDown(view, disk, a))
      ensures weather.Calm? ==> (r.Ok? <==> OldIsDown(view, disk, a))
    {
      var c :- ReadCheckpoint();
      if !IsOldOperation(c, a) {
        return Failed;
      }
      var installed :- ReadExport();
      if Of(installed) != a.current {
        return Failed;
      }
      var _ :- RequireDown();
      return Ok(Upgrade(c));
    }

    /** `_quiesce_mihomo`. */
    method Quiesce(a: Approval) returns (r: Result<Report>)
      requires Valid()
      modifies `disk, `view, `log, `start, `watches, `watch
      ensures Valid() && start == old(log)
      ensures disk == old(disk)
           || (old(disk).Some? && disk.Some? && disk.value.quiescence.Some?
               && disk == Some(WithRuntime(old(disk).value, disk.value.quiescence.value)))
      ensures r.Ok? ==>
        && disk.Some? && disk.value.quiescence.Some? && r.value == Report(Held, disk.value.operationId)
        && disk.value.quiescence.value.phase.Quiesced? && disk.value.quiescence.value.runtime == a.runtime
        && disk.value.quiescence.value.operationId == Canonical(a.operation)
      ensures r.Ok? || disk != old(disk) ==>
        && IsPending(old(disk)) && old(disk).value.transitions == [] && old(disk).value.digest == a.current
        && old(disk).value.operationId == Canonical(a.operation)
      ensures !weather.Hostile? ==> SameButRuntime(old(view), view)
      ensures !weather.Hostile? && r.Ok? ==>
        QuiesceAdmits(old(view), old(disk), a) && ReadsBack(view, disk.value.quiescence.value)
      ensures weather.Calm? ==> (r.Ok? <==> QuiesceAdmits(old(view), old(disk), a))
    {
      hide Follows, ManifestOf;
      Begin();
      var c :- OldAndDown(a);
      match c.quiescence {
        case None =>
          var next :- IntendStop(c, a);
          r := FinishQuiesce(next);
        case Some(q) =>
          if !IsApproved(q, a) || q.source != a.current {
            return Failed;
          }
          match q.phase {
            case StopPending => r := FinishQuiesce(c);
            case Quiesced => r := ReadBack(c);
            case _ => return Failed;
          }
      }
    }

    // ----- release ---------------------------------------------------------------------------

    /** What a release with every writer still stopped checks instead of the API. */
    method RequireJit(c: Checkpoint, q: Quiescence) returns (r: Result<()>)
      requires Valid() && c.quiescence == Some(q) && (q.phase.Quiesced? || q.phase.ReleasePending?)
      modifies `view, `log, `watches, `watch
      ensures Valid()
      ensures !weather.Hostile? ==> view == old(view) && (r.Ok? ==> JitHolds(view, c, q))
      ensures weather.Calm? ==> (r.Ok? <==> JitHolds(view, c, q))
    {
      var _ :- RequireDown();
      if q.phase.Quiesced? {
        var _ :- RequireHeld(c);
        var cache :- ReadCache();
        if Some(cache) != q.cacheAfter {
          return Failed;
        }
      } else {
        var runtime :- ReadRuntime();
        if !SameContainer(runtime, q) {
          return Failed;
        }
        if !runtime.running {
          var cache :- ReadCache();
          if Some(cache) != q.cacheAfter {
            return Failed;
          }
        }
      }
      var installed :- ReadExport();
      if Of(installed) != c.digest {
        return Failed;
      }
      return Ok(());
    }

    /** The container as it must be before it is released. */
    method RequirePinned(q: Quiescence) returns (r: Result<Runtime>)
      requires Valid()
      modifies `view, `log, `watches, `watch
      ensures Valid()
      ensures r.Ok? ==>
        watch.runtime == Some(r.value) && Matches(r.value, q) && (q.phase.Quiesced? ==> !r.value.running)
      ensures !weather.Hostile? ==> view == old(view) && (r.Ok? ==> r.value == view.runtime)
      ensures weather.Calm? ==> (r.Ok? <==> Matches(view.runtime, q) && (q.phase.Quiesced? ==> !view.runtime.running))
    {
      var runtime :- ReadRuntime();
      if !Matches(runtime, q) || (q.phase.Quiesced? && runtime.running) {
        return Failed;
      }
      return Ok(runtime);
    }

    /** Starts the pinned container if its unit was active, and reads it back. */
    method Restore(c: Checkpoint, before: Runtime) returns (r: Result<()>)
      requires Valid() && disk == Some(c) && c.status.Pending? && c.quiescence.Some?
      requires c.quiescence.value.phase.ReleasePending?
      requires watch.runtime == Some(before) && Matches(before, c.quiescence.value)
      modifies `view, `log, `watches, `watch
      ensures Valid()
      ensures r.Ok? ==>
        watch.runtime.Some? && Matches(watch.runtime.value, c.quiescence.value)
        && watch.runtime.value.running == c.quiescence.value.unit.active
      ensures !weather.Hostile? ==> SameButRuntime(old(view), view)
      ensures !weather.Hostile? && before == old(view).runtime ==>
        && (r.Ok? ==> RestoresBaseline(view, c.quiescence.value) && (before.running ==> c.quiescence.value.unit.active))
        && (weather.Calm? ==> (r.Ok? <==> (before.running ==> c.quiescence.value.unit.active)))
    {
      hide Follows, ManifestOf;
      var q := c.quiescence.value;
      if !q.unit.active {
        return if before.running then Failed else Ok(());
      }
      if !before.running {
        var _ :- StartContainer(q.runtime.container);
      }
      var started :- ReadRuntime();
      if !Matches(started, q) || !started.running {
        return Failed;
      }
      return Ok(());
    }

    /** From the recorded release intent to the recorded released container. */
    method FinishRelease(c: Checkpoint, before: Runtime) returns (r: Result<Report>)
      requires Valid() && disk == Some(c) && c.status.Pending? && c.quiescence.Some?
      requires c.quiescence.value.phase.ReleasePending? && OwnedForwardCas(c, c.quiescence.value)
      requires watch.runtime == Some(before) && Matches(before, c.quiescence.value)
      modifies `disk, `view, `log, `watches, `watch
      ensures Valid()
      ensures disk == old(disk) || disk == Some(WithRuntime(c, c.quiescence.value.(phase := Released)))
      ensures r.Ok? ==>
        r.value == Report(Freed, c.operationId) && disk == Some(WithRuntime(c, c.quiescence.value.(phase := Released)))
      ensures !weather.Hostile? ==> SameButRuntime(old(view), view)
      ensures !weather.Hostile? && before == old(view).runtime ==>
        && (r.Ok? ==> RestoresBaseline(view, c.quiescence.value) && (before.running ==> c.quiescence.value.unit.active))
        && (weather.Calm? ==> (r.Ok? <==> (before.running ==> c.quiescence.value.unit.active)))
    {
      var _ :- Restore(c, before);
      var next := WithRuntime(c, c.quiescence.value.(phase := Released));
      assert Releases(watch, c, next);
      var _ :- Write(next);
      return Ok(Report(Freed, c.operationId));
    }

    /** Records the release intent, once. */
    method IntendRelease(c: Checkpoint) returns (r: Result<Checkpoint>)
      requires Valid() && disk == Some(c) && c.schema == SCHEMA && c.status.Pending? && c.quiescence.Some?
      requires c.quiescence.value.phase.Quiesced? || c.quiescence.value.phase.ReleasePending?
      requires OwnedForwardCas(c, c.quiescence.value)
      requires watch.runtime.Some? && Matches(watch.runtime.value, c.quiescence.value)
      requires c.quiescence.value.phase.Quiesced? ==> !watch.runtime.value.running
      modifies `disk, `view, `log, `watches, `watch
      ensures Valid() && watch.runtime == old(watch).runtime
      ensures disk == old(disk) || disk == Some(WithRuntime(c, c.quiescence.value.(phase := ReleasePending)))
      ensures r.Ok? ==> disk == Some(r.value) && r.value == WithRuntime(c, c.quiescence.value.(phase := ReleasePending))
      ensures !weather.Hostile? ==> view == old(view)
      ensures weather.Calm? ==> r.Ok?
    {
      var next := WithRuntime(c, c.quiescence.value.(phase := ReleasePending));
      if c.quiescence.value.phase.Quiesced? {
        assert IntendsRelease(watch, c, next);
        var _ :- Write(next);
      }
      return Ok(next);
    }

    /** Everything a release checks before it records its intent. */
    method OpenRelease(c: Checkpoint, q: Quiescence, jit: bool) returns (r: Result<Runtime>)
      requires Valid() && c.quiescence == Some(q) && (q.phase.Quiesced? || q.phase.ReleasePending?)
      modifies `view, `log, `watches, `watch
      ensures Valid()
      ensures r.Ok? ==>
        watch.runtime == Some(r.value) && Matches(r.value, q) && (q.phase.Quiesced? ==> !r.value.running)
      ensures !weather.Hostile? ==>
        view == old(view) && (r.Ok? ==> r.value == view.runtime && ReleaseIsOpen(view, c, q, jit))
      ensures weather.Calm? ==> (r.Ok? <==> ReleaseIsOpen(view, c, q, jit))
    {
      if jit {
        var _ :- RequireJit(c, q);
      } else {
        var _ :- ApiHealth();
      }
      r := RequirePinned(q);
    }

    /** The release proper, from `quiesced` or an interrupted `release_pending`. */
    method ReleaseHeld(c: Checkpoint, a: Approval, jit: bool) returns (r: Result<Report>)
      requires Valid() && disk == Some(c) && c.schema == SCHEMA && IsReleasable(c, a)
      requires c.quiescence.value.phase.Quiesced? || c.quiescence.value.phase.ReleasePending?
      modifies `disk, `view, `log, `watches, `watch
      ensures Valid()
      ensures disk == old(disk) || exists phase :: disk == Some(WithRuntime(c, c.quiescence.value.(phase := phase)))
      ensures r.Ok? ==>
        r.value == Report(Freed, c.operationId) && disk == Some(WithRuntime(c, c.quiescence.value.(phase := Released)))
      ensures !weather.Hostile? ==> SameButRuntime(old(view), view)
      ensures !weather.Hostile? && r.Ok? ==>
        ReleaseAdmits(old(view), old(disk), a, jit) && RestoresBaseline(view, disk.value.quiescence.value)
      ensures weather.Calm? ==> (r.Ok? <==> ReleaseAdmits(old(view), old(disk), a, jit))
    {
      hide Follows, ManifestOf;
      var q := c.quiescence.value;
      var before :- OpenRelease(c, q, jit);
      var next :- IntendRelease(c);
      r := FinishRelease(next, before);
    }

    /** `_release_mihomo`. */
    method Release(a: Approval, jit: bool) returns (r: Result<Report>)
      requires Valid()
      modifies `disk, `view, `log, `start, `watches, `watch
      ensures Valid() && start == old(log)
      ensures disk == old(disk)
           || (old(disk).Some? && old(disk).value.quiescence.Some?
               && exists phase :: disk == Some(WithRuntime(old(disk).value,
                 old(disk).value.quiescence.value.(phase := phase))))
      ensures r.Ok? ==>
        && disk.Some? && disk.value.quiescence.Some? && r.value == Report(Freed, disk.value.operationId)
        && disk.value.quiescence.value.phase.Released?
      ensures r.Ok? || disk != old(disk) ==>
        && IsPending(old(disk)) && old(disk).value.digest == a.current
        && old(disk).value.quiescence.value.operationId == Canonical(a.operation)
        && old(disk).value.quiescence.value.runtime == a.runtime
      ensures !weather.Hostile? ==> SameButRuntime(old(view), view)
      ensures !weather.Hostile? && r.Ok? ==>
        ReleaseAdmits(old(view), old(disk), a, jit) && RestoresBaseline(view, disk.value.quiescence.value)
      ensures weather.Calm? ==> (r.Ok? <==> ReleaseAdmits(old(view), old(disk), a, jit))
    {
      hide Follows, ManifestOf;
      Begin();
      var c :- ReadCheckpoint();
      c := Upgrade(c);
      if !IsReleasable(c, a) {
        return Failed;
      }
      var q := c.quiescence.value;
      match q.phase {
        case StopPending => return Failed;
        case Released =>
          var runtime :- ReadRuntime();
          if !Matches(runtime, q) || runtime.running != q.unit.active {
            return Failed;
          }
          return Ok(Report(Freed, c.operationId));
        case _ => r := ReleaseHeld(c, a, jit);
      }
    }

    // ----- resume ----------------------------------------------------------------------------

    /** The API healthy and the bound source selected and installed. */
    method OpenResume(c: Checkpoint) returns (r: Result<()>)
      requires Valid() && disk == Some(c) && c.status.Pending?
      modifies `view, `log, `watches, `watch
      ensures Valid()
      ensures r.Ok? ==>
        && RebuildDone(c) && RuntimeFree(c) && watch.healthy && watch.export_ == Some(c.manifest)
        && watch.source.Some? && Of(watch.source.value) == c.digest
      ensures !weather.Hostile? ==> view == old(view) && (r.Ok? ==> ResumeIsOpen(view, c))
      ensures weather.Calm? ==> (r.Ok? <==> ResumeIsOpen(view, c))
    {
      if !RebuildDone(c) || !RuntimeFree(c) {
        return Failed;
      }
      var _ :- ApiHealth();
      var current :- ReadSource();
      if Of(current) != c.digest {
        return Failed;
      }
      r := CheckExport(c.manifest);
    }

    method WaitListener() returns (r: Result<()>)
      modifies `view
      ensures !weather.Hostile? ==> view == old(view) && (r.Ok? ==> view.listener)
      ensures weather.Calm? ==> (r.Ok? <==> view.listener)
    {
      var _ :- Contact();
      return if view.listener then Ok(()) else Failed;
    }

    /** A recorded unit, started if it is inactive and then seen active. */
    method EnsureActive(c: Checkpoint, u: Unit) returns (r: Result<()>)
      requires Valid() && disk == Some(c) && c.status.Pending? && RebuildDone(c) && RuntimeFree(c)
      requires watch.healthy && watch.export_ == Some(c.manifest) && Recorded(c, u) && IsDependent(u)
      modifies `view, `log, `watches, `watch
      ensures Valid()
      ensures watch == old(watch).(up := watch.up, down := watch.down) && old(watch).up <= watch.up
      ensures r.Ok? ==> u in watch.up
      ensures !weather.Hostile? ==> view == old(view) || view == old(view).(active := old(view).active + {u})
      ensures !weather.Hostile? && r.Ok? ==> u in view.active
      ensures weather.Calm? ==> r.Ok?
    {
      var up :- IsActive(u);
      if !up {
        var _ :- StartUnit(u);
        var now :- IsActive(u);
        if !now {
          return Failed;
        }
      }
      return Ok(());
    }

    lemma UnrecordedStep(c: Checkpoint, u: Unit, pending: seq<Unit>, up: set<Unit>, catchup: bool)
      requires NoDuplicates(pending) && !Recorded(c, u)
      ensures PendingStep(c, u, pending, pending, up, catchup)
    {
    }

    lemma TimerStep(c: Checkpoint, u: Unit, pending: seq<Unit>, up: set<Unit>, catchup: bool)
      requires NoDuplicates(pending) && Recorded(c, u) && IsTimer(u) && !catchup
      ensures u in up || u in pending ==> PendingStep(c, u, pending, pending, up, catchup)
      ensures u !in pending ==> PendingStep(c, u, pending, pending + [u], up, catchup)
    {
    }

    lemma RestoredStep(c: Checkpoint, u: Unit, pending: seq<Unit>, up: set<Unit>, catchup: bool)
      requires NoDuplicates(pending) && Recorded(c, u) && u in up
      ensures PendingStep(c, u, pending, Remove(pending, u), up, catchup)
    {
      RemoveDropsTheUnit(pending, u);
    }

    /** One round of the restore loop. */
    method ResumeUnit(c: Checkpoint, u: Unit, pending: seq<Unit>, catchup: bool) returns (r: Result<seq<Unit>>)
      requires Valid() && disk == Some(c) && c.status.Pending? && RebuildDone(c) && RuntimeFree(c)
      requires watch.healthy && watch.export_ == Some(c.manifest) && IsDependent(u)
      modifies `view, `log, `watches, `watch
      ensures Valid()
      ensures watch == old(watch).(up := watch.up, down := watch.down) && old(watch).up <= watch.up
      ensures r.Ok? && NoDuplicates(pending) ==> PendingStep(c, u, pending, r.value, watch.up, catchup)
      ensures !weather.Hostile? ==>
        || view == old(view)
        || (Restores(c, u, catchup) && view == old(view).(active := old(view).active + {u}))
      ensures !weather.Hostile? && r.Ok? ==>
        && (Restores(c, u, catchup) ==> u in view.active)
        && (Recorded(c, u) && u == Gateway ==> view.listener)
      ensures weather.Calm? ==> (r.Ok? <==> (Recorded(c, u) && u == Gateway ==> view.listener))
    {
      hide Follows, ManifestOf, Allowed, RebuildDone, RuntimeFree, Remove, PendingStep, NoDuplicates;
      if !Recorded(c, u) {
        if NoDuplicates(pending) {
          UnrecordedStep(c, u, pending, watch.up, catchup);
        }
        return Ok(pending);
      }
      if IsTimer(u) && !catchup {
        var up :- IsActive(u);
        if NoDuplicates(pending) {
          TimerStep(c, u, pending, watch.up, catchup);
        }
        return Ok(if !up && u !in pending then pending + [u] else pending);
      }
      var _ :- EnsureActive(c, u);
      if u == Gateway {
        var _ :- WaitListener();
      }
      if NoDuplicates(pending) {
        RestoredStep(c, u, pending, watch.up, catchup);
      }
      return Ok(Remove(pending, u));
    }

    lemma ResumeOneMore(active: set<Unit>, i: nat, c: Checkpoint, catchup: bool)
      requires i < |RESTORE_ORDER|
      ensures AfterResume(active, RESTORE_ORDER[..i + 1], c, catchup)
           == AfterResume(active, RESTORE_ORDER[..i], c, catchup)
              + (if Restores(c, RESTORE_ORDER[i], catchup) then {RESTORE_ORDER[i]} else {})
    {
      assert RESTORE_ORDER[..i + 1] == RESTORE_ORDER[..i] + [RESTORE_ORDER[i]];
    }

    /** Wherever the loop stops, only units it may restore were started. */
    lemma RestoringSoFar(before: View, reached: View, now: View, i: nat, c: Checkpoint, catchup: bool)
      requires i < |RESTORE_ORDER|
      requires reached == before.(active := AfterResume(before.active, RESTORE_ORDER[..i], c, catchup))
      requires now == reached ||
        (Restores(c, RESTORE_ORDER[i], catchup) && now == reached.(active := reached.active + {RESTORE_ORDER[i]}))
      ensures Restoring(before, now, c, catchup)
    {
    }

    lemma RestoredAll(before: View, now: View, c: Checkpoint, catchup: bool)
      requires now == before.(active := AfterResume(before.active, RESTORE_ORDER, c, catchup))
      ensures Restoring(before, now, c, catchup)
    {
    }

    lemma NothingRestored(active: set<Unit>, c: Checkpoint, catchup: bool)
      ensures AfterResume(active, RESTORE_ORDER[..0], c, catchup) == active
    {
    }

    /** The loop over RESTORE_ORDER. */
    method RestoreUnits(c: Checkpoint, catchup: bool) returns (r: Result<seq<Unit>>)
      requires Valid() && disk == Some(c) && Sound(c) && c.status.Pending? && RebuildDone(c) && RuntimeFree(c)
      requires watch.healthy && watch.export_ == Some(c.manifest)
      modifies `view, `log, `watches, `watch
      ensures Valid()
      ensures watch == old(watch).(up := watch.up, down := watch.down)
      ensures r.Ok? ==> Waiting(c, r.value, RESTORE_ORDER, catchup) && Covered(c, watch.up, r.value, RESTORE_ORDER)
      ensures !weather.Hostile? ==> Restoring(old(view), view, c, catchup)
      ensures !weather.Hostile? && r.Ok? ==>
        view.active == AfterResume(old(view).active, RESTORE_ORDER, c, catchup)
          && (Recorded(c, Gateway) ==> view.listener)
      ensures weather.Calm? ==> (r.Ok? <==> (Recorded(c, Gateway) ==> view.listener))
    {
      hide Follows, ManifestOf, Waiting, Covered, PendingStep, Sound, RebuildDone, RuntimeFree, AfterResume, Restoring,
        Restores;
      NothingRestored(view.active, c, catchup);
      WaitingStart(c, watch.up, catchup);
      var pending := c.pending;
      for i := 0 to |RESTORE_ORDER|
        invariant Valid()
        invariant watch == old(watch).(up := watch.up, down := watch.down)
        invariant Waiting(c, pending, RESTORE_ORDER[..i], catchup) && Covered(c, watch.up, pending, RESTORE_ORDER[..i])
        invariant !weather.Hostile? ==>
          view == old(view).(active := AfterResume(old(view).active, RESTORE_ORDER[..i], c, catchup))
        invariant !weather.Hostile? && i > 0 ==> (Recorded(c, Gateway) ==> view.listener)
      {
        ResumeOneMore(old(view).active, i, c, catchup);
        ghost var before, was := pending, watch.up;
        assert RESTORE_ORDER[i] in RESTORE_ORDER;
        ghost var reached := view;
        var next := ResumeUnit(c, RESTORE_ORDER[i], pending, catchup);
        if !weather.Hostile? {
          RestoringSoFar(old(view), reached, view, i, c, catchup);
        }
        pending :- next;
        WaitingOneMore(c, i, before, pending, was, watch.up, catchup);
      }
      assert RESTORE_ORDER[..|RESTORE_ORDER|] == RESTORE_ORDER;
      if !weather.Hostile? {
        RestoredAll(old(view), view, c, catchup);
      }
      return Ok(pending);
    }

    /** From the restored units to the recorded outcome. */
    method Settle(c: Checkpoint, catchup: bool) returns (r: Result<seq<Unit>>)
      requires Valid() && disk == Some(c) && Sound(c) && c.status.Pending? && RebuildDone(c) && RuntimeFree(c)
      requires watch.healthy && watch.export_ == Some(c.manifest) && watch.source.Some?
        && Of(watch.source.value) == c.digest
      modifies `disk, `view, `log, `watches, `watch
      ensures Valid()
      ensures disk == old(disk) || (disk.Some? && HasSettled(c, disk.value, catchup))
      ensures r.Ok? ==> disk == Some(Settled(c, r.value))
      ensures !weather.Hostile? ==> Restoring(old(view), view, c, catchup)
      ensures !weather.Hostile? && (r.Ok? || disk != old(disk)) ==>
        view.active == AfterResume(old(view).active, RESTORE_ORDER, c, catchup)
          && (Recorded(c, Gateway) ==> view.listener)
      ensures weather.Calm? ==> (r.Ok? <==> (Recorded(c, Gateway) ==> old(view).listener))
    {
      var pending :- RestoreUnits(c, catchup);
      assert Resumes(watch, c, Settled(c, pending));
      var _ :- Write(Settled(c, pending));
      return Ok(pending);
    }

    /** `_resume`. */
    method Resume(catchup: bool) returns (r: Result<Report>)
      requires Valid()
      modifies `disk, `view, `log, `start, `watches, `watch
      ensures Valid() && start == old(log)
      ensures disk == old(disk)
        || (IsPending(old(disk)) && disk.Some? && HasSettled(old(disk).value, disk.value, catchup))
      ensures r.Ok? ==>
        && disk.Some? && r.value == Report(Resumed(disk.value.status, disk.value.pending), disk.value.operationId)
        && (IsPending(old(disk)) ==> disk.value == Settled(old(disk).value, disk.value.pending))
      ensures !weather.Hostile? ==>
        view == old(view) || (IsPending(old(disk)) && Restoring(old(view), view, old(disk).value, catchup))
      ensures !weather.Hostile? && r.Ok? ==>
        ResumeAdmits(old(view), old(disk))
      ensures !weather.Hostile? && IsPending(old(disk)) && (r.Ok? || disk != old(disk)) ==>
        view.active == AfterResume(old(view).active, RESTORE_ORDER, old(disk).value, catchup)
      ensures weather.Calm? ==> (r.Ok? <==> ResumeAdmits(old(view), old(disk)))
    {
      Begin();
      var c :- ReadCheckpoint();
      if c.status.Complete? {
        return Ok(Report(Resumed(Complete, []), c.operationId));
      }
      var _ :- OpenResume(c);
      var pending :- Settle(c, catchup);
      return Ok(Report(Resumed(Settled(c, pending).status, pending), c.operationId));
    }

    // ----- database rebuild ----------------------------------------------------------------------

    /** The checks that precede any stop: the selected source installed, and an API unit
        that takes part in the maintenance lease. */
    method OpenRebuild() returns (r: Result<Manifest>)
      requires Valid()
      modifies `view, `log, `watches, `watch
      ensures Valid()
      ensures r.Ok? ==> ValidManifest(r.value)
      ensures !weather.Hostile? ==>
        view == old(view)
          && (r.Ok? ==> r == ManifestOf(view.source) == ManifestOf(view.installed) && view.launcherCompatible)
      ensures weather.Calm? ==> (r.Ok? <==>
        ManifestOf(view.source).Ok? && ManifestOf(view.installed) == ManifestOf(view.source) && view.launcherCompatible)
    {
      var source :- ReadSource();
      var _ :- CheckExport(source);
      var _ :- Contact();
      return if view.launcherCompatible then Ok(source) else Failed;
    }

    /** `_verify_operation_backup_pin`. */
    method VerifyPin(c: Checkpoint) returns (r: Result<()>)
      modifies `view
      ensures !weather.Hostile? ==> view == old(view) && (r.Ok? ==> PinIsPresent(view, c))
      ensures weather.Calm? ==> (r.Ok? <==> PinIsPresent(view, c))
    {
      var _ :- Contact();
      return if PinIsPresent(view, c) then Ok(()) else Failed;
    }

    /** The interrupted rebuild to continue, or a fresh stop. */
    method ClaimRebuild(source: Manifest) returns (r: Result<OperationId>)
      requires Valid()
      modifies `disk, `view, `log, `watches, `watch, `nextUuid
      ensures Valid()
      ensures old(disk).Some? ==> disk == old(disk)
      ensures r.Ok? ==> disk.Some? && IsOpenRebuild(disk.value) && disk.value.operationId == r.value
      ensures r.Ok? && old(disk).Some? ==> disk.value.digest == Of(source)
      ensures !weather.Hostile? ==>
        StopReaches(old(view), old(disk), view, disk, Some(NewRebuild), old(nextUuid))
          && (old(disk).Some? ==> view == old(view))
      ensures !weather.Hostile? && r.Ok? ==>
        if old(disk).Some? then PinIsPresent(view, disk.value) else view.active == {}
      ensures weather.Calm? ==> (r.Ok? <==>
        match old(disk)
        case None => StopAdmits(old(view), None, Some(NewRebuild))
        case Some(c) => IsOpenRebuild(c) && c.digest == Of(source) && PinIsPresent(old(view), c))
    {
      if disk.Some? {
        var c :- ReadCheckpoint();
        if !IsOpenRebuild(c) || c.digest != Of(source) {
          return Failed;
        }
        var _ :- VerifyPin(c);
        return Ok(c.operationId);
      }
      ghost var v, uuid := view, nextUuid;
      var stopped :- StopUnder(Some(NewRebuild));
      if !weather.Hostile? {
        FreshStopLeavesNothing(disk, ManifestOf(v.source).value, v.active, Some(NewRebuild), uuid);
      }
      return Ok(stopped.operationId);
    }

    /** Everything `_run_database_rebuild` does before its child: it gets that far exactly
        under `RebuildAdmits`, and cut anywhere it has stopped recorded units and no more. */
    method ReachChild() returns (r: Result<OperationId>)
      requires Valid()
      modifies `disk, `view, `log, `watches, `watch, `nextUuid
      ensures Valid()
      ensures old(disk).Some? ==> disk == old(disk)
      ensures r.Ok? ==> disk.Some? && IsOpenRebuild(disk.value) && disk.value.operationId == r.value
      ensures !weather.Hostile? ==>
        StopReaches(old(view), old(disk), view, disk, Some(NewRebuild), old(nextUuid))
          && (old(disk).Some? ==> view == old(view))
      ensures !weather.Hostile? && r.Ok? ==> view.active == {} && (old(disk).Some? ==> RebuildAdmits(view, disk))
      ensures weather.Calm? ==> (r.Ok? <==> RebuildAdmits(old(view), old(disk)))
    {
      hide Follows, ManifestOf, StopAdmits, Begun;
      var source :- OpenRebuild();
      var op :- ClaimRebuild(source);
      var _ :- RequireDown();
      var _ :- CheckExport(source);
      return Ok(op);
    }

    /** The rebuild child: any number of the checkpoint updates it is admitted to make,
        cut anywhere, and any backups it leaves. */
    method RunChild() returns (success: bool)
      requires Valid()
      modifies `disk, `view, `log, `watches, `watch
      ensures Valid()
      ensures old(disk).Some? <==> disk.Some?
      ensures disk.Some? ==> disk.value == old(disk).value.(maintenance := disk.value.maintenance)
      ensures !weather.Hostile? ==> view == old(view).(backups := view.backups)
    {
      var updates :| updates >= 0;
      for i := 0 to updates
        invariant Valid()
        invariant old(disk).Some? <==> disk.Some?
        invariant disk.Some? ==> disk.value == old(disk).value.(maintenance := disk.value.maintenance)
        invariant !weather.Hostile? ==> view == old(view).(backups := view.backups)
      {
        var next: Checkpoint := *;
        var backups: set<Pin> := *;
        view := view.(backups := backups);
        if disk.Some? && (PinsBackup(disk.value, next) || AdvancesRebuild(disk.value, next)) {
          var written := Write(next);
          if written.Failed? {
            return false;
          }
        }
      }
      success := *;
    }

    /** The owner recording that the published database was verified. */
    method RecordVerified(op: OperationId) returns (r: Result<Report>)
      requires Valid()
      modifies `disk, `view, `log, `watches, `watch
      ensures Valid()
      ensures r.Ok? ==>
        && disk.Some? && disk.value.operationId == op && disk.value.status.Pending?
        && RebuildDone(disk.value) && r.value == Report(Rebuilt, op)
      ensures disk == old(disk)
           || (IsPending(old(disk)) && disk.Some?
               && disk.value == old(disk).value.(maintenance := disk.value.maintenance))
      ensures !weather.Hostile? ==> view == old(view) && (r.Ok? ==> VerifyAdmits(view, old(disk), op))
      ensures !weather.Hostile? && r.Ok? ==>
        && disk.value.maintenance.Some? && old(disk).value.maintenance.value.step.Published?
        && (disk.value.maintenance.value.backup.Some? ==> disk.value.maintenance.value.backup.value in view.backups)
      ensures weather.Calm? ==> (r.Ok? <==> VerifyAdmits(view, old(disk), op))
    {
      var c :- ReadCheckpoint();
      if c.status.Complete? || c.operationId != op || c.maintenance.None? || !c.maintenance.value.step.Published? {
        return Failed;
      }
      var _ :- VerifyPin(c);
      var next := c.(maintenance := Some(c.maintenance.value.(step := Verified)));
      assert AdvancesRebuild(c, next);
      var _ :- Write(next);
      return Ok(Report(Rebuilt, op));
    }

    /** `_run_database_rebuild`. `child` says whether its child was started, and what it left. */
    method Rebuild() returns (r: Result<Report>, ghost child: ChildRun)
      requires Valid()
      modifies `disk, `view, `log, `start, `watches, `watch, `nextUuid
      ensures Valid() && start == old(log)
      ensures old(disk).Some? && !IsOpenRebuild(old(disk).value) ==> r.Failed? && disk == old(disk)
      ensures r.Ok? ==>
        && child.Exited? && disk.Some? && disk.value.status.Pending? && RebuildDone(disk.value)
        && r.value == Report(Rebuilt, disk.value.operationId)
      ensures !weather.Hostile? && old(disk).Some? && old(view).active != {} ==>
        r.Failed? && view == old(view) && disk == old(disk)
      ensures !weather.Hostile? && child.NotStarted? ==>
        StopReaches(old(view), old(disk), view, disk, Some(NewRebuild), old(nextUuid))
      ensures !weather.Hostile? && child.Exited? ==>
        && view == old(view).(active := {}, backups := view.backups) && disk.Some?
        && (old(disk).Some? ==> disk.value == old(disk).value.(maintenance := disk.value.maintenance))
      ensures !weather.Hostile? && r.Ok? ==>
        && disk.value.maintenance.Some?
        && (disk.value.maintenance.value.backup.Some? ==> disk.value.maintenance.value.backup.value in view.backups)
      ensures weather.Calm? ==> (child.Exited? <==> RebuildAdmits(old(view), old(disk)))
      ensures weather.Calm? ==> (r.Ok? <==>
        child.Exited? && child.success && child.disk.Some?
          && VerifyAdmits(child.view, child.disk, child.disk.value.operationId))
    {
      hide Follows, ManifestOf, StopAdmits, Begun;
      Begin();
      child := NotStarted;
      var op := ReachChild();
      if op.Failed? {
        r := Failed;
        return;
      }
      var success := RunChild();
      child := Exited(success, view, disk);
      if !success {
        r := Failed;
        return;
      }
      r := RecordVerified(op.value);
    }

    // ----- whole runs ----------------------------------------------------------------------------

    /** One process of the command line tool, run from some checkout. */
    method RunCommand(command: Command, checkout: Tree) returns (r: Result<Report>)
      requires Valid()
      modifies `disk, `view, `log, `start, `watches, `watch, `nextUuid
      ensures Valid() && start == old(log)
    {
      view := view.(source := checkout);
      match command {
        case DoStop => r := Stop();
        case DoTransfer(expected, from, to) => r := Transfer(expected, from, to);
        case DoQuiesce(a) => r := Quiesce(a);
        case DoRelease(a, jit) => r := Release(a, jit);
        case DoRebuild =>
          ghost var child;
          r, child := Rebuild();
        case DoResume(catchup) => r := Resume(catchup);
      }
    }

    /** Any commands, one after another, each cut wherever it fails: what they leave on
        disk is sound, and the history they leave is legal and extends the earlier one. */
    method RunCommands(commands: seq<(Command, Tree)>)
      requires Valid()
      modifies `disk, `view, `log, `start, `watches, `watch, `nextUuid
      ensures Valid() && old(log) <= log && Legal(log) && Watched(log).disk == disk
      ensures disk.Some? ==> Sound(disk.value)
    {
      for i := 0 to |commands|
        invariant Valid() && old(log) <= log
      {
        var _ := RunCommand(commands[i].0, commands[i].1);
      }
      HistoryIsLegal();
      SoundDisk();
    }
  }
}
