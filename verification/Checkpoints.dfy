/** The durable rollout checkpoint (`pending.json`) and its reader. */
module Checkpoints {
  import opened Outcomes
  import opened Manifests

  const SCHEMA := 4
  const MAX_SOURCE_TRANSITIONS: nat := 16

  // ----- units ------------------------------------------------------------------

  datatype Unit =
    | Api
    | Gateway | DockerEvents
    | RetentionTimer | MaintenanceTimer | RefreshTimer | TrafficTimer
    | RetentionJob | MaintenanceJob | RefreshJob | TrafficJob

  const LONG_RUNNING := [Gateway, DockerEvents]
  const PERSISTENT_TIMERS := [RetentionTimer, MaintenanceTimer, RefreshTimer, TrafficTimer]
  const TRANSIENT_JOBS := [RetentionJob, MaintenanceJob, RefreshJob, TrafficJob]
  const RESTORE_ORDER := LONG_RUNNING + PERSISTENT_TIMERS
  const STOP_ORDER := [TrafficTimer, RefreshTimer, MaintenanceTimer, RetentionTimer, DockerEvents, Gateway]
  const ROLLOUT_ORDER := RESTORE_ORDER + TRANSIENT_JOBS + [Api]

  predicate IsTimer(u: Unit) {
    u in PERSISTENT_TIMERS
  }

  predicate IsJob(u: Unit) {
    u in TRANSIENT_JOBS
  }

  predicate IsDependent(u: Unit) {
    u in RESTORE_ORDER
  }

  lemma EveryUnitHasOneRole(u: Unit)
    ensures u in ROLLOUT_ORDER
    ensures IsDependent(u) <==> u in STOP_ORDER
    ensures u == Api || IsJob(u) || IsDependent(u)
    ensures IsTimer(u) ==> IsDependent(u)
    ensures !(IsJob(u) && IsDependent(u))
  {
  }

  // ----- checkpoint contents -------------------------------------------------------

  /** Digests are injective on manifests, so a digest carries what it digests. */
  datatype Digest = Of(manifest: Manifest)

  /** A UUID together with how it is written; spelling 0 is the canonical text. */
  datatype OperationId = OperationId(uuid: nat, spelling: nat)

  function Canonical(id: OperationId): OperationId {
    id.(spelling := 0)
  }

  datatype Status = Pending | Complete
  datatype Transition = Transition(operationId: OperationId, from: Digest, to: Digest)

  /** A rebuild backup: the operation its file name carries, and its contents. */
  datatype Pin = Pin(owner: nat, name: nat, digest: nat)
  datatype RebuildStep = RebuildPending | CandidateReady | SourceQuiesced | Published | Verified
  datatype Maintenance = Maintenance(step: RebuildStep, backup: Option<Pin>)

  datatype RuntimeId = RuntimeId(container: nat, image: nat, configHash: nat, composeFile: nat)
  datatype MihomoUnit = MihomoUnit(active: bool, enabled: bool)
  datatype Phase = StopPending | Quiesced | ReleasePending | Released
  datatype Quiescence = Quiescence(
    phase: Phase, operationId: OperationId, source: Digest, unit: MihomoUnit,
    runtime: RuntimeId, cacheBefore: nat, cacheAfter: Option<nat>)

  /** Keys that an older schema lacks hold the value they are upgraded to. */
  datatype Checkpoint = Checkpoint(
    schema: nat, operationId: OperationId, status: Status,
    manifest: Manifest, digest: Digest,
    initial: Digest, transitions: seq<Transition>,
    maintenance: Option<Maintenance>, quiescence: Option<Quiescence>,
    active: map<Unit, bool>, pending: seq<Unit>)

  function StepRank(s: RebuildStep): nat {
    match s
    case RebuildPending => 0
    case CandidateReady => 1
    case SourceQuiesced => 2
    case Published => 3
    case Verified => 4
  }

  function PhaseRank(p: Phase): nat {
    match p
    case StopPending => 0
    case Quiesced => 1
    case ReleasePending => 2
    case Released => 3
  }

  predicate NoDuplicates<T(==)>(xs: seq<T>) {
    forall i, j :: 0 <= i < j < |xs| ==> xs[i] != xs[j]
  }

  predicate Recorded(c: Checkpoint, u: Unit) {
    u in c.active && c.active[u]
  }

  // ----- the reader ------------------------------------------------------------------

  /** Each transition starts at the digest the previous one ended at. */
  predicate Linked(start: Digest, transitions: seq<Transition>, op: OperationId)
    decreases |transitions|
  {
    if transitions == [] then true
    else
      var t := transitions[0];
      Canonical(t.operationId) == op && t.from == start && t.to != t.from && Linked(t.to, transitions[1..], op)
  }

  function ChainEnd(start: Digest, transitions: seq<Transition>): Digest {
    if transitions == [] then start else transitions[|transitions| - 1].to
  }

  predicate ReadableMaintenance(m: Maintenance, op: OperationId) {
    match m.backup
    case None => m.step == RebuildPending
    case Some(pin) => pin.owner == op.uuid
  }

  predicate ReadableQuiescence(q: Quiescence, op: OperationId) {
    q.operationId == op && (q.cacheAfter.None? ==> q.phase == StopPending)
  }

  /** The keys an older schema does not have. */
  predicate SchemaKeys(c: Checkpoint) {
    && 1 <= c.schema <= SCHEMA
    && (c.schema < 4 ==> c.quiescence.None?)
    && (c.schema < 3 ==> c.maintenance.None?)
    && (c.schema < 2 ==> c.transitions == [] && c.initial == c.digest)
  }

  /** What `_read_checkpoint` accepts. */
  ghost predicate Readable(c: Checkpoint) {
    && SchemaKeys(c)
    && ValidManifest(c.manifest) && c.digest == Of(c.manifest)
    && |c.transitions| <= MAX_SOURCE_TRANSITIONS
    && Linked(c.initial, c.transitions, c.operationId)
    && ChainEnd(c.initial, c.transitions) == c.digest
    && (c.maintenance.Some? ==> ReadableMaintenance(c.maintenance.value, c.operationId))
    && (c.quiescence.Some? ==> ReadableQuiescence(c.quiescence.value, c.operationId))
    && (forall u: Unit :: u in c.active)
    && NoDuplicates(c.pending)
  }

  /** `_checkpoint_as_current_schema`. */
  function Upgrade(c: Checkpoint): Checkpoint {
    c.(schema := SCHEMA)
  }

  lemma {:induction false} LinkedSnoc(start: Digest, transitions: seq<Transition>, op: OperationId, t: Transition)
    requires Linked(start, transitions, op)
    requires Canonical(t.operationId) == op && t.from == ChainEnd(start, transitions) && t.to != t.from
    ensures Linked(start, transitions + [t], op)
    ensures ChainEnd(start, transitions + [t]) == t.to
    decreases |transitions|
  {
    if transitions != [] {
      LinkedSnoc(transitions[0].to, transitions[1..], op, t);
      assert (transitions + [t])[1..] == transitions[1..] + [t];
    } else {
      assert transitions + [t] == [t];
    }
  }

  /** The source digests an accepted history went through, oldest first. */
  function Visited(c: Checkpoint): seq<Digest> {
    [c.initial] + seq(|c.transitions|, i requires 0 <= i < |c.transitions| => c.transitions[i].to)
  }

  lemma {:induction false} LinkedAt(start: Digest, transitions: seq<Transition>, op: OperationId, k: nat)
    requires Linked(start, transitions, op) && k < |transitions|
    ensures transitions[k].from == (if k == 0 then start else transitions[k - 1].to)
    ensures transitions[k].to != transitions[k].from
    ensures transitions[k].operationId.uuid == op.uuid
    decreases |transitions|
  {
    if k > 0 {
      LinkedAt(transitions[0].to, transitions[1..], op, k - 1);
    }
  }

  /** A readable history is a walk from the first source to the bound one that
      never repeats a digest in consecutive places and is at most 17 long. */
  lemma ReadableHistoryIsAWalk(c: Checkpoint)
    requires Readable(c)
    ensures |Visited(c)| == |c.transitions| + 1 <= MAX_SOURCE_TRANSITIONS + 1
    ensures Visited(c)[0] == c.initial && Visited(c)[|c.transitions|] == c.digest == Of(c.manifest)
    ensures forall k :: 0 <= k < |c.transitions| ==>
      Visited(c)[k] != Visited(c)[k + 1]
      && c.transitions[k].from == Visited(c)[k] && c.transitions[k].to == Visited(c)[k + 1]
  {
    forall k | 0 <= k < |c.transitions|
      ensures Visited(c)[k] != Visited(c)[k + 1]
           && c.transitions[k].from == Visited(c)[k] && c.transitions[k].to == Visited(c)[k + 1]
    {
      LinkedAt(c.initial, c.transitions, c.operationId, k);
    }
  }
}
