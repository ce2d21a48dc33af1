/** Everything the rollout commands do to the outside, in order: durable checkpoint
    writes, unit and container actions, and the observations they acted on. A crash
    ends the log anywhere; the next command continues it. `Legal` says which event
    may follow which history, and the lemmas say what holds in every legal history. */
module RolloutLog {
  import opened Outcomes
  import opened Manifests
  import opened Checkpoints

  /** One reading of the Mihomo container, its unit and its Compose file. */
  datatype Runtime = Runtime(id: RuntimeId, running: bool, unit: MihomoUnit)

  /** What a deployment adds: the installed tree it found and the source it selected, the
      checkpoint it owns after its stop or compare-and-swap, the component lock, what it finds
      under the lock (the checkpoint again, the old tree still installed, every unit down, the
      selected tree installed), and its own writes. Commands of other processes may come
      between any two of these. */
  datatype Step =
    | Chose(installed: Manifest, selected: Manifest)
    | Owned(checkpoint: Checkpoint)
    | Locked | Unlocked
    | Reread(checkpoint: Checkpoint) | FoundOld | FoundDown | FoundSelected
    | Publishing | Installing | StartingApi

  datatype Event =
    | Began
    | Deployed(step: Step)
    | SawUnit(unit: Unit, active: bool)
    | SawSource(manifest: Manifest)
    | SawExport(manifest: Manifest)
    | Preflighted(manifest: Manifest)
    | SawHealthy
    | SawRuntime(runtime: Runtime)
    | SawCache(cache: nat)
    | Wrote(checkpoint: Checkpoint)
    | StoppedUnit(unit: Unit)
    | StartedUnit(unit: Unit)
    | StoppedContainer(container: nat)
    | StartedContainer(container: nat)

  /** What a deployment has established; the last four under the lock it holds. */
  datatype Claim = Claim(
    installed: Option<Manifest>, selected: Option<Manifest>, owned: Option<Checkpoint>,
    locked: bool, seen: Option<Checkpoint>, asBefore: bool, down: bool, placed: bool)

  const NoClaim := Claim(None, None, None, false, None, false, false, false)

  function Stake(d: Claim, s: Step): Claim {
    match s
    case Chose(m, selected) => NoClaim.(installed := Some(m), selected := Some(selected))
    case Owned(c) => d.(owned := Some(c))
    case Locked => d.(locked := true, seen := None, asBefore := false, down := false, placed := false)
    case Unlocked => d.(locked := false, seen := None, asBefore := false, down := false, placed := false)
    case Reread(c) => d.(seen := Some(c), asBefore := false, down := false)
    case FoundOld => d.(asBefore := true, down := false)
    case FoundDown => d.(down := true)
    case FoundSelected => d.(placed := true)
    case Installing => d.(placed := false)
    case _ => d
  }

  /** What a history amounts to: the checkpoint on disk, the operations ever begun,
      and what the running command has observed so far. `down` lists the units seen
      inactive since the installed tree was last read. */
  datatype Watch = Watch(
    disk: Option<Checkpoint>, begun: set<nat>,
    down: set<Unit>, up: set<Unit>,
    source: Option<Manifest>, export_: Option<Manifest>, preflight: Option<Manifest>,
    healthy: bool, runtime: Option<Runtime>, cache: Option<nat>, claim: Claim)

  const Fresh := Watch(None, {}, {}, {}, None, None, None, false, None, None, NoClaim)

  /** What is known of the tree and the units is forgotten when the lock is taken. */
  function ObserveStep(w: Watch, s: Step): Watch {
    match s
    case Locked => w.(export_ := None, down := {})
    case FoundOld => w.(down := {})
    case Installing => w.(export_ := None)
    case StartingApi => w.(down := w.down - {Api})
    case _ => w
  }

  function Observe(w: Watch, e: Event): Watch {
    match e
    case Began => Fresh.(disk := w.disk, begun := w.begun, claim := w.claim)
    case Deployed(s) => ObserveStep(w.(claim := Stake(w.claim, s)), s)
    case SawUnit(u, active) =>
      if active then w.(up := w.up + {u}, down := w.down - {u}) else w.(down := w.down + {u})
    case SawSource(m) => w.(source := Some(m))
    case SawExport(m) => w.(export_ := Some(m), down := {})
    case Preflighted(m) => w.(preflight := Some(m))
    case SawHealthy => w.(healthy := true)
    case SawRuntime(r) => w.(runtime := Some(r))
    case SawCache(c) => w.(cache := Some(c))
    case Wrote(c) => w.(disk := Some(c), begun := w.begun + {c.operationId.uuid})
    case StoppedUnit(u) => w
    case StartedUnit(u) => w.(down := w.down - {u})
    case StoppedContainer(_) => w.(runtime := None, cache := None)
    case StartedContainer(_) => w.(runtime := None)
  }

  function Watched(log: seq<Event>): Watch {
    if log == [] then Fresh else Observe(Watched(log[..|log| - 1]), log[|log| - 1])
  }

  // ----- the writes each command may make ----------------------------------------------

  predicate AllDown(w: Watch) {
    forall u: Unit :: u in w.down
  }

  /** `_stop` creating a checkpoint. A rebuild can only create the first one. */
  ghost predicate Begins(w: Watch, c: Checkpoint) {
    && (w.disk.Some? ==> w.disk.value.status.Complete?)
    && c.schema == SCHEMA && c.status.Pending? && c.transitions == [] && c.quiescence.None? && c.pending == []
    && c.operationId.spelling == 0 && c.operationId.uuid !in w.begun
    && ValidManifest(c.manifest) && c.digest == c.initial == Of(c.manifest)
    && w.source == w.preflight == Some(c.manifest)
    && (c.maintenance.Some? ==> w.disk.None? && c.maintenance.value == Maintenance(RebuildPending, None))
    && (forall u: Unit :: u in c.active && (if c.active[u] then u in w.up else u in w.down))
    && c.active[Api] && (forall u :: IsJob(u) ==> !c.active[u])
  }

  /** `_transfer` binding the operation to a new source. */
  ghost predicate Transfers(w: Watch, b: Checkpoint, c: Checkpoint) {
    && b.status.Pending? && b.maintenance.None?
    && (b.quiescence.Some? ==> b.quiescence.value.phase.Quiesced?)
    && b.operationId.spelling == 0
    && |b.transitions| < MAX_SOURCE_TRANSITIONS
    && w.source == Some(c.manifest) && ValidManifest(c.manifest) && Of(c.manifest) != b.digest
    && w.export_ == Some(b.manifest) && AllDown(w)
    && c == Upgrade(b).(manifest := c.manifest, digest := Of(c.manifest),
         transitions := b.transitions + [Transition(b.operationId, b.digest, Of(c.manifest))])
  }

  predicate OldOperation(b: Checkpoint) {
    b.status.Pending? && b.transitions == [] && b.initial == b.digest && b.maintenance.None?
  }

  predicate Matches(r: Runtime, q: Quiescence) {
    r.id == q.runtime && r.unit == q.unit
  }

  /** `_quiesce_mihomo` recording its stop intent. */
  predicate IntendsStop(w: Watch, b: Checkpoint, c: Checkpoint) {
    && OldOperation(b) && b.quiescence.None?
    && w.export_.Some? && Of(w.export_.value) == b.digest && AllDown(w)
    && w.runtime.Some? && w.cache.Some? && w.runtime.value.running == w.runtime.value.unit.active
    && c == Upgrade(b).(quiescence := Some(Quiescence(StopPending, b.operationId, b.digest,
         w.runtime.value.unit, w.runtime.value.id, w.cache.value, None)))
  }

  /** `_quiesce_mihomo` recording the stopped container. */
  predicate Quiesces(w: Watch, b: Checkpoint, c: Checkpoint) {
    && OldOperation(b) && b.quiescence.Some? && b.quiescence.value.phase.StopPending?
    && w.runtime.Some? && w.cache.Some?
    && Matches(w.runtime.value, b.quiescence.value) && !w.runtime.value.running
    && c == Upgrade(b).(quiescence := Some(b.quiescence.value.(phase := Quiesced, cacheAfter := Some(w.cache.value))))
  }

  /** The part of `_runtime_checkpoint` that looks at the source history. */
  predicate OwnedForwardCas(b: Checkpoint, q: Quiescence) {
    if b.digest == q.source then b.transitions == []
    else |b.transitions| == 1 && b.transitions[0].from == q.source && b.transitions[0].to == b.digest
         && b.transitions[0].operationId == q.operationId
  }

  /** `_release_mihomo` recording its release intent. */
  predicate IntendsRelease(w: Watch, b: Checkpoint, c: Checkpoint) {
    && b.status.Pending? && b.quiescence.Some? && b.quiescence.value.phase.Quiesced?
    && OwnedForwardCas(b, b.quiescence.value)
    && w.runtime.Some? && Matches(w.runtime.value, b.quiescence.value) && !w.runtime.value.running
    && c == Upgrade(b).(quiescence := Some(b.quiescence.value.(phase := ReleasePending)))
  }

  /** `_release_mihomo` recording the restored container. */
  predicate Releases(w: Watch, b: Checkpoint, c: Checkpoint) {
    && b.status.Pending? && b.quiescence.Some? && b.quiescence.value.phase.ReleasePending?
    && OwnedForwardCas(b, b.quiescence.value)
    && w.runtime.Some? && Matches(w.runtime.value, b.quiescence.value)
    && w.runtime.value.running == b.quiescence.value.unit.active
    && c == Upgrade(b).(quiescence := Some(b.quiescence.value.(phase := Released)))
  }

  /** The rebuild child pinning its backup, once and before any progress. */
  predicate PinsBackup(b: Checkpoint, c: Checkpoint) {
    && b.status.Pending? && b.maintenance.Some?
    && b.maintenance.value.step.RebuildPending? && b.maintenance.value.backup.None?
    && c.maintenance.Some? && c.maintenance.value.backup.Some?
    && c.maintenance.value.backup.value.owner == b.operationId.uuid
    && c == b.(maintenance := Some(Maintenance(RebuildPending, c.maintenance.value.backup)))
  }

  /** The rebuild child recording progress, and the owner recording verification. */
  predicate AdvancesRebuild(b: Checkpoint, c: Checkpoint) {
    && b.status.Pending? && b.maintenance.Some? && b.maintenance.value.backup.Some?
    && c.maintenance.Some?
    && StepRank(b.maintenance.value.step) <= StepRank(c.maintenance.value.step)
    && (c.maintenance.value.step.Verified? ==> b.maintenance.value.step.Published?)
    && c == b.(maintenance := Some(b.maintenance.value.(step := c.maintenance.value.step)))
  }

  predicate RebuildDone(b: Checkpoint) {
    b.maintenance.Some? ==> b.maintenance.value.step.Verified?
  }

  predicate RuntimeFree(b: Checkpoint) {
    b.quiescence.Some? ==> b.quiescence.value.phase.Released?
  }

  /** `_resume` recording which timers still wait. */
  predicate Resumes(w: Watch, b: Checkpoint, c: Checkpoint) {
    && b.status.Pending? && RebuildDone(b) && RuntimeFree(b)
    && w.healthy && w.export_ == Some(b.manifest) && w.source.Some? && Of(w.source.value) == b.digest
    && (forall u :: u in c.pending ==> u in b.pending || (IsTimer(u) && Recorded(b, u)))
    && (NoDuplicates(b.pending) ==> NoDuplicates(c.pending))
    && (forall u :: IsDependent(u) && Recorded(b, u) ==> u in w.up || u in c.pending)
    && c == b.(pending := c.pending, status := if c.pending == [] then Complete else Pending)
  }

  ghost predicate AllowedWrite(w: Watch, c: Checkpoint) {
    || Begins(w, c)
    || (w.disk.Some? && Continues(w, w.disk.value, c))
  }

  ghost predicate Continues(w: Watch, b: Checkpoint, c: Checkpoint) {
    || Transfers(w, b, c)
    || IntendsStop(w, b, c) || Quiesces(w, b, c) || IntendsRelease(w, b, c) || Releases(w, b, c)
    || PinsBackup(b, c) || AdvancesRebuild(b, c)
    || Resumes(w, b, c)
  }

  /** A deployment writes only under the lock, having reread there the pending checkpoint it
      owns, bound to the selected source, then found the installed tree as it was before the
      stop, and then every unit down. */
  predicate Licensed(d: Claim) {
    && d.locked && d.owned.Some? && d.seen == d.owned && d.owned.value.status.Pending?
    && Some(d.owned.value.manifest) == d.selected && d.asBefore && d.down
  }

  /** The API is started only on the selected source, found installed under the same lock. */
  predicate LicensedStart(d: Claim) {
    && d.locked && d.owned.Some? && d.seen == d.owned && d.owned.value.status.Pending?
    && Some(d.owned.value.manifest) == d.selected && d.placed
  }

  predicate AllowedStep(w: Watch, s: Step) {
    match s
    case Chose(m, _) => w.export_ == Some(m)
    case Owned(c) => !w.claim.locked && w.disk == Some(c)
    case Reread(c) => w.claim.locked && w.disk == Some(c)
    case FoundOld => w.claim.seen.Some? && w.export_.Some? && w.export_ == w.claim.installed
    case FoundDown => w.claim.asBefore && AllDown(w)
    case FoundSelected => w.claim.locked && w.export_.Some? && w.export_ == w.claim.selected
    case Publishing => Licensed(w.claim)
    case Installing => Licensed(w.claim)
    case StartingApi => LicensedStart(w.claim)
    case _ => true
  }

  ghost predicate Allowed(w: Watch, e: Event) {
    match e
    case Wrote(c) => AllowedWrite(w, c)
    case Deployed(s) => AllowedStep(w, s)
    case StoppedUnit(u) =>
      // only what a pending checkpoint records as active, and the API last of all
      && w.disk.Some? && w.disk.value.status.Pending? && Recorded(w.disk.value, u)
      && (IsDependent(u) || u == Api) && u in w.up
      && (u == Api ==> forall j :: IsJob(j) ==> j in w.down)
    case StartedUnit(u) =>
      && w.disk.Some? && w.disk.value.status.Pending? && Recorded(w.disk.value, u) && IsDependent(u)
      && RebuildDone(w.disk.value) && RuntimeFree(w.disk.value)
      && w.healthy && w.export_ == Some(w.disk.value.manifest) && u in w.down
    case StoppedContainer(id) =>
      && w.disk.Some? && w.disk.value.status.Pending? && w.disk.value.quiescence.Some?
      && var q := w.disk.value.quiescence.value;
         q.phase.StopPending? && id == q.runtime.container && AllDown(w)
         && w.runtime.Some? && Matches(w.runtime.value, q) && w.cache == Some(q.cacheBefore)
    case StartedContainer(id) =>
      && w.disk.Some? && w.disk.value.status.Pending? && w.disk.value.quiescence.Some?
      && var q := w.disk.value.quiescence.value;
         q.phase.ReleasePending? && id == q.runtime.container && q.unit.active
         && w.runtime.Some? && Matches(w.runtime.value, q)
    case _ => true
  }

  ghost predicate Legal(log: seq<Event>) {
    log == [] || (Legal(log[..|log| - 1]) && Allowed(Watched(log[..|log| - 1]), log[|log| - 1]))
  }

  /** The monitor's states before, between and after the events of a legal log. */
  ghost predicate Follows(log: seq<Event>, watches: seq<Watch>) {
    && |watches| == |log| + 1 && watches[0] == Fresh
    && forall k {:trigger log[k]} :: 0 <= k < |log| ==>
         Allowed(watches[k], log[k]) && watches[k + 1] == Observe(watches[k], log[k])
  }

  lemma {:induction false} FollowedLogIsLegal(log: seq<Event>, watches: seq<Watch>)
    requires Follows(log, watches)
    ensures Legal(log) && Watched(log) == watches[|log|]
  {
    if log != [] {
      var n := |log| - 1;
      var before := log[..n];
      assert forall k :: 0 <= k < n ==> before[k] == log[k];
      FollowedLogIsLegal(before, watches[..n + 1]);
      assert Allowed(watches[n], log[n]);
    }
  }
}
