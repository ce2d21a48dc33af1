/** `local_deploy.py`: `apply` and `check` as clients of the rollout commands. */
module Deploy {
  import opened Outcomes
  import opened Manifests
  import opened BackendTrees
  import opened Installer
  import opened Checkpoints
  import opened RolloutLog
  import opened RolloutSafety
  import opened Lifecycle

  const MAX_OLD_SOURCE_COMMITS: nat := 1000

  /** A path below the installed backend. */
  type RelativePath = path: string | ValidNames(Split(path)) witness (SplitName("x"); "x")

  /** A selected checkout: its backend, the paths it lists as obsolete, the contents of its UI
      and host file pair, and the backends of its local commits, newest first. */
  datatype Checkout = Checkout(backend: Tree, obsolete: seq<RelativePath>, ui: nat, pair: nat, history: seq<Tree>)
  datatype Applied = Applied(status: Status, pending: seq<Unit>)

  predicate Listed(t: Tree, m: Manifest) {
    ManifestOf(t) == Ok(m)
  }

  /** The host carries exactly the selected checkout. */
  predicate Carries(v: View, s: Checkout) {
    ManifestOf(s.backend).Ok? && ManifestOf(v.installed) == ManifestOf(s.backend) && v.ui == s.ui && v.pair == s.pair
  }

  /** A cooperative environment: services come up when started and the checkout fits. */
  ghost predicate Ready(v: View, s: Checkout) {
    && v.healthy && v.listener && v.runtimeUp
    && ManifestOf(s.backend).Ok? && Installable(v.installed, ManifestOf(s.backend).value, s.obsolete)
  }

  /** A pending plain rollout that recorded the Gateway. */
  predicate Simple(d: Option<Checkpoint>) {
    IsPending(d) && d.value.maintenance.None? && d.value.quiescence.None? && Recorded(d.value, Gateway)
  }

  predicate Bound(d: Option<Checkpoint>, s: Checkout) {
    Simple(d) && ManifestOf(s.backend) == Ok(d.value.manifest) && d.value.digest == Of(d.value.manifest)
  }

  /** Stopped, and still bound to the source that is installed. */
  ghost predicate AtOldSource(v: View, d: Option<Checkpoint>, s: Checkout) {
    && Ready(v, s) && Simple(d) && v.active == {} && Listed(v.installed, d.value.manifest)
    && Known(s.history, v.installed)
    && d.value.digest == Of(d.value.manifest) && !Bound(d, s) && |d.value.transitions| < MAX_SOURCE_TRANSITIONS
  }

  /** Stopped and bound to the selected source, with any part of it installed. */
  ghost predicate AtNewSource(v: View, d: Option<Checkpoint>, s: Checkout) {
    Ready(v, s) && Bound(d, s) && v.active == {}
  }

  /** Installed, with the API started again. */
  ghost predicate AtNewApi(v: View, d: Option<Checkpoint>, s: Checkout) {
    Ready(v, s) && Bound(d, s) && Carries(v, s) && Api in v.active && NoJobs(v)
  }

  /** Where an apply that finished its stop can be cut. */
  ghost predicate Recoverable(v: View, d: Option<Checkpoint>, s: Checkout) {
    AtOldSource(v, d, s) || AtNewSource(v, d, s) || AtNewApi(v, d, s)
  }

  /** Selected source installed, operation complete, API and Gateway up. */
  predicate InPlace(v: View, d: Option<Checkpoint>, s: Checkout) {
    && Carries(v, s) && d.Some? && d.value.status.Complete? && d.value.digest == Of(d.value.manifest)
    && ManifestOf(s.backend) == Ok(d.value.manifest) && Api in v.active && Gateway in v.active
  }

  ghost predicate Finished(v: View, d: Option<Checkpoint>, s: Checkout) {
    Ready(v, s) && InPlace(v, d, s) && NoJobs(v)
  }

  /** What an apply promises when it reports success. */
  predicate Reached(v: View, d: Option<Checkpoint>, s: Checkout, a: Applied) {
    && Carries(v, s) && d.Some? && d.value.digest == Of(d.value.manifest)
    && ManifestOf(s.backend) == Ok(d.value.manifest)
    && a == Applied(d.value.status, d.value.pending)
    && (d.value.status.Complete? || forall u :: u in d.value.pending ==> IsTimer(u) && Recorded(d.value, u))
  }

  /** Where an apply may start: no operation pending, the API and the Gateway up, no job
      running, and the installed backend is the selected one or known to local history. */
  ghost predicate Deployable(v: View, d: Option<Checkpoint>, s: Checkout) {
    && Ready(v, s) && !IsPending(d) && NoJobs(v) && Api in v.active && Gateway in v.active
    && (ManifestOf(v.installed) == ManifestOf(s.backend) || Known(s.history, v.installed))
  }

  /** An interrupted apply that only has to resume: everything is in place and the API runs. */
  predicate OnlyResumes(v: View, d: Option<Checkpoint>, s: Checkout) {
    && IsPending(d) && ManifestOf(s.backend).Ok? && d.value.digest == Of(ManifestOf(s.backend).value)
    && Carries(v, s) && Api in v.active
  }

  /** A pending operation with units still active and more to do than to resume them. */
  predicate Stuck(v: View, d: Option<Checkpoint>, s: Checkout) {
    IsPending(d) && v.active != {} && !OnlyResumes(v, d, s)
  }

  /** Cut in the middle of its own stop, with some of the recorded units still active. */
  ghost predicate CutInStop(v: View, d: Option<Checkpoint>, s: Checkout) {
    && Stuck(v, d, s) && Ready(v, s) && Simple(d) && NoJobs(v) && (forall u :: u in v.active ==> Recorded(d.value, u))
    && Listed(v.installed, d.value.manifest) && d.value.digest == Of(d.value.manifest) && d.value.transitions == []
    && (Bound(d, s) || Known(s.history, v.installed))
  }

  /** Where a calm apply succeeds. */
  ghost predicate Restartable(v: View, d: Option<Checkpoint>, s: Checkout) {
    Recoverable(v, d, s) || Deployable(v, d, s)
  }

  /** Everywhere an apply begun on a deployable host can be cut. */
  ghost predicate Underway(v: View, d: Option<Checkpoint>, s: Checkout) {
    Restartable(v, d, s) || Finished(v, d, s) || CutInStop(v, d, s)
  }

  predicate Known(history: seq<Tree>, installed: Tree) {
    exists i :: 0 <= i < |history| && i < MAX_OLD_SOURCE_COMMITS && ManifestOf(history[i]) == ManifestOf(installed)
  }

  /** What the opening of an apply reads. */
  datatype Situation = Situation(selected: Manifest, installed: Manifest, pending: Option<Checkpoint>)

  predicate Consistent(sit: Situation) {
    IsPending(sit.pending) ==>
      && sit.pending.value.maintenance.None? && sit.pending.value.quiescence.None?
      && (sit.pending.value.digest == Of(sit.selected) || sit.pending.value.digest == Of(sit.installed))
  }

  // ----- readings ------------------------------------------------------------------------------

  /** Other processes: in hostile weather any lifecycle commands run here. */
  method Gap(host: Host)
    requires host.Valid()
    modifies host`disk, host`view, host`log, host`start, host`watches, host`watch, host`nextUuid
    ensures host.Valid()
    ensures !host.weather.Hostile? ==> host.view == old(host.view) && host.disk == old(host.disk)
  {
    if host.weather.Hostile? {
      var commands: seq<(Command, Tree)> :| true;
      host.RunCommands(commands);
    }
  }

  predicate Healthy(v: View) {
    ApiAnswers(v) && Gateway in v.active && v.listener && v.runtimeUp
  }

  /** The health half of `_facts`; any failing call counts as unhealthy. */
  method CheckHealth(host: Host) returns (healthy: bool)
    requires host.Valid()
    modifies host`view, host`log, host`watches, host`watch
    ensures host.Valid() && host.watch.export_ == old(host.watch).export_
    ensures !host.weather.Hostile? ==> host.view == old(host.view) && (healthy ==> Healthy(host.view))
    ensures host.weather.Calm? ==> (healthy <==> Healthy(host.view))
  {
    var api := host.ApiHealth();
    if api.Failed? { return false; }
    var gateway := host.IsActive(Gateway);
    if gateway != Ok(true) { return false; }
    var listener := host.WaitListener();
    if listener.Failed? { return false; }
    var runtime := host.Contact();
    healthy := runtime.Ok? && host.view.runtimeUp;
  }

  /** The comparison half of `_facts`; an unreadable installed tree counts as different. */
  method CheckSame(host: Host, s: Checkout) returns (r: Result<bool>)
    requires host.Valid()
    modifies host`view, host`log, host`watches, host`watch
    ensures host.Valid()
    ensures r == Ok(true) ==> ManifestOf(s.backend).Ok? && host.watch.export_ == Some(ManifestOf(s.backend).value)
    ensures !host.weather.Hostile? ==> host.view == old(host.view) && (r == Ok(true) ==> Carries(host.view, s))
    ensures host.weather.Calm? ==> r == if ManifestOf(s.backend).Ok? then Ok(Carries(host.view, s)) else Failed
  {
    hide ManifestOf, Follows;
    var _ :- host.Contact();
    var selected :- BackendManifest(s.backend);
    var installed := host.ReadExport();
    if installed != Ok(selected) {
      return Ok(false);
    }
    var contents := host.Contact();
    return Ok(contents.Ok? && host.view.ui == s.ui && host.view.pair == s.pair);
  }

  // ----- resuming ------------------------------------------------------------------------------

  lemma TimersAreNotGateway()
    ensures !IsTimer(Gateway) && IsDependent(Gateway) && !IsDependent(Api)
  {
  }

  /** Resuming the installed selected source keeps it recoverable or finishes it. */
  lemma ResumeKeepsApi(v: View, d: Option<Checkpoint>, w: View, e: Option<Checkpoint>, s: Checkout, catchup: bool)
    requires AtNewApi(v, d, s)
    requires w == v || Restoring(v, w, d.value, catchup)
    requires e == d || (e.Some? && HasSettled(d.value, e.value, catchup) && Gateway in w.active)
    ensures AtNewApi(w, e, s) || Finished(w, e, s)
  {
    hide ManifestOf, Installable;
  }

  /** The owner's resume, between two looks at the checkpoint. */
  method OwnerResume(host: Host, s: Checkout, op: OperationId, catchup: bool) returns (r: Result<Applied>)
    requires host.Valid()
    modifies host`disk, host`view, host`log, host`start, host`watches, host`watch, host`nextUuid
    ensures host.Valid()
    ensures r.Ok? ==> host.disk.Some? && host.disk.value.operationId == op && host.disk.value.status == r.value.status
    ensures !host.weather.Hostile? && r.Ok? ==> r.value.pending == host.disk.value.pending
    ensures !host.weather.Hostile? && AtNewApi(old(host.view), old(host.disk), s) ==>
      AtNewApi(host.view, host.disk, s) || Finished(host.view, host.disk, s)
    ensures !host.weather.Hostile? && AtNewApi(old(host.view), old(host.disk), s) && r.Ok? ==>
      Healthy(host.view) && Reached(host.view, host.disk, s, r.value)
    ensures host.weather.Calm? && AtNewApi(old(host.view), old(host.disk), s) ==>
      (op == old(host.disk).value.operationId ==> r.Ok?)
  {
    hide ManifestOf, Follows, Installable, Allowed;
    var before :- host.ReadCheckpoint();
    if before.operationId != op {
      return Failed;
    }
    host.view := host.view.(source := s.backend);
    ghost var v, d := host.view, host.disk;
    TimersAreNotGateway();
    assert AtNewApi(v, d, s) ==> ResumeAdmits(v, d);
    var attempt := host.Resume(catchup);
    if !host.weather.Hostile? && AtNewApi(v, d, s) {
      ResumeKeepsApi(v, d, host.view, host.disk, s, catchup);
    }
    var report :- attempt;
    var outcome := report.outcome;
    Gap(host);
    var after :- host.ReadCheckpoint();
    if after.operationId != op || after.status != outcome.status {
      return Failed;
    }
    return Ok(Applied(outcome.status, outcome.pending));
  }

  /** `resume_result`: resume, then compare and probe everything once more. */
  method ResumeResult(host: Host, s: Checkout, op: OperationId, catchup: bool) returns (r: Result<Applied>)
    requires host.Valid()
    modifies host`disk, host`view, host`log, host`start, host`watches, host`watch, host`nextUuid
    ensures host.Valid()
    ensures r.Ok? ==> host.disk.Some? && host.disk.value.operationId == op && host.disk.value.status == r.value.status
    ensures !host.weather.Hostile? && r.Ok? ==> Carries(host.view, s) && Healthy(host.view)
    ensures !host.weather.Hostile? && AtNewApi(old(host.view), old(host.disk), s) ==>
      && (AtNewApi(host.view, host.disk, s) || Finished(host.view, host.disk, s))
      && (r.Ok? ==> Reached(host.view, host.disk, s, r.value))
    ensures host.weather.Calm? && AtNewApi(old(host.view), old(host.disk), s) ==>
      (op == old(host.disk).value.operationId ==> r.Ok?)
  {
    hide ManifestOf, Follows, Installable;
    var applied :- OwnerResume(host, s, op, catchup);
    var same :- CheckSame(host, s);
    if !same {
      return Failed;
    }
    var healthy := CheckHealth(host);
    if !healthy {
      return Failed;
    }
    return Ok(applied);
  }

  // ----- writing under the component lock --------------------------------------------------------

  /** What the deployment owns and found, as it stands when it takes the lock. */
  ghost predicate Owns(host: Host, s: Checkout, c: Checkpoint, installed: Manifest)
    reads host
  {
    && host.Valid() && c.status.Pending? && ManifestOf(s.backend) == Ok(c.manifest)
    && host.claim.owned == Some(c) && host.claim.installed == Some(installed) && host.claim.selected == Some(c.manifest)
  }

  /** The installed tree, read again, is still the one found before the stop. */
  method FindOldTree(host: Host, installed: Manifest) returns (r: Result<()>)
    requires host.Valid() && host.claim.seen.Some? && host.claim.installed == Some(installed)
    modifies host`disk, host`view, host`log, host`start, host`watches, host`watch, host`nextUuid, host`claim
    ensures host.Valid() && host.claim == if r.Ok? then Stake(old(host.claim), FoundOld) else old(host.claim)
    ensures !host.weather.Hostile? ==>
      host.view == old(host.view) && host.disk == old(host.disk) && (r.Ok? ==> Listed(host.view.installed, installed))
    ensures host.weather.Calm? ==> (r.Ok? <==> Listed(host.view.installed, installed))
  {
    hide ManifestOf, Follows, AllDown, ObserveStep;
    Gap(host);
    var _ :- host.CheckExport(installed);
    host.Declare(FoundOld);
    return Ok(());
  }

  /** Every rollout unit, read again, is down. */
  method FindUnitsDown(host: Host) returns (r: Result<()>)
    requires host.Valid() && host.claim.asBefore
    modifies host`disk, host`view, host`log, host`start, host`watches, host`watch, host`nextUuid, host`claim
    ensures host.Valid() && host.claim == if r.Ok? then Stake(old(host.claim), FoundDown) else old(host.claim)
    ensures !host.weather.Hostile? ==>
      host.view == old(host.view) && host.disk == old(host.disk) && (r.Ok? ==> host.view.active == {})
    ensures host.weather.Calm? ==> (r.Ok? <==> host.view.active == {})
  {
    hide ManifestOf, Follows, AllDown, ObserveStep;
    Gap(host);
    var _ :- host.RequireDown();
    host.Declare(FoundDown);
    return Ok(());
  }

  /** The second look, under the lock: same checkpoint, same installed tree, all units down.
      Other processes may run commands between any two of these readings. */
  method Reinspect(host: Host, s: Checkout, c: Checkpoint, installed: Manifest) returns (r: Result<()>)
    requires Owns(host, s, c, installed) && host.claim.locked
    modifies host`disk, host`view, host`log, host`start, host`watches, host`watch, host`nextUuid, host`claim
    ensures Owns(host, s, c, installed) && host.claim.locked
    ensures r.Ok? ==> Licensed(host.claim)
    ensures !host.weather.Hostile? ==>
      && host.view == old(host.view) && host.disk == old(host.disk)
      && (r.Ok? ==> host.disk == Some(c) && Listed(host.view.installed, installed) && host.view.active == {})
    ensures host.weather.Calm? ==>
      (r.Ok? <==> host.disk == Some(c) && Listed(host.view.installed, installed) && host.view.active == {})
  {
    hide ManifestOf, Follows, AllDown, ObserveStep;
    var _ :- host.Contact();
    var now :- host.ReadCheckpoint();
    if now != c {
      return Failed;
    }
    host.Declare(Reread(c));
    var _ :- FindOldTree(host, installed);
    r := FindUnitsDown(host);
  }

  /** `_publish_host_pair`, where the installed pair differs. */
  method PublishPair(host: Host, s: Checkout) returns (r: Result<()>)
    requires host.Valid() && Licensed(host.claim)
    modifies host`disk, host`view, host`log, host`start, host`watches, host`watch, host`nextUuid, host`claim
    ensures host.Valid() && host.claim == old(host.claim)
    ensures !host.weather.Hostile? ==>
      && host.disk == old(host.disk)
      && host.view == old(host.view).(pair := host.view.pair) && (r.Ok? ==> host.view.pair == s.pair)
    ensures host.weather.Calm? ==> r.Ok?
  {
    hide Follows;
    Gap(host);
    var _ :- host.Contact();
    if host.view.pair == s.pair {
      return Ok(());
    }
    host.Declare(Publishing);
    var mixture: nat := *;
    host.view := host.view.(pair := mixture);
    var _ :- host.Contact();
    host.view := host.view.(pair := s.pair);
    r := host.Contact();
  }

  /** One file copied or one obsolete path removed. */
  method DoStep(host: Host, a: Act) returns (r: Result<()>)
    requires ValidNames(Parts(a))
    modifies host`view
    ensures !host.weather.Hostile? && old(host.view).installed.Dir? ==>
      var done := Do(old(host.view).installed.listing, a);
      && host.view == old(host.view).(installed := host.view.installed) && host.view.installed.Dir?
      && (host.view == old(host.view) || done == Ok(host.view.installed.listing))
      && (r.Ok? ==> done == Ok(host.view.installed.listing))
      && (host.weather.Calm? && done.Ok? ==> r.Ok?)
  {
    hide WellFormed, Do;
    var _ :- host.Contact();
    if !host.view.installed.Dir? {
      return Failed;
    }
    var next :- Do(host.view.installed.listing, a);
    DoKeepsShape(host.view.installed.listing, a);
    host.view := host.view.(installed := Dir(next));
    r := host.Contact();
  }

  /** One more step of the installation of `m` over `tree`, of which `i` are done. */
  method NextStep(host: Host, a: Act, ghost tree: Tree, ghost m: Manifest, ghost obsolete: seq<string>, ghost i: nat)
    returns (r: Result<()>)
    requires ValidNames(Parts(a)) && i < |Acts(m, obsolete)| && Acts(m, obsolete)[i] == a
    modifies host`view
    ensures !host.weather.Hostile? && Installable(tree, m, obsolete) ==>
      (HalfInstalled(tree, m, obsolete, i, old(host.view).installed) ==>
        && host.view == old(host.view).(installed := host.view.installed)
        && Installable(host.view.installed, m, obsolete)
        && (r.Ok? ==> HalfInstalled(tree, m, obsolete, i + 1, host.view.installed))
        && (host.weather.Calm? ==> r.Ok?))
  {
    hide ManifestOf, Installable, Do, DoAll, Acts, Orderly, WellFormed;
    if Installable(tree, m, obsolete) {
      OneMoreStep(tree, m, obsolete, i);
    }
    r := DoStep(host, a);
  }

  /** `install_backend`: the files one by one, then the obsolete paths one by one. */
  method InstallBackend(host: Host, m: Manifest, obsolete: seq<string>) returns (r: Result<()>)
    requires host.Valid() && Licensed(host.claim) && forall a :: a in Acts(m, obsolete) ==> ValidNames(Parts(a))
    modifies host`disk, host`view, host`log, host`start, host`watches, host`watch, host`nextUuid, host`claim
    ensures host.Valid() && host.claim == old(host.claim).(placed := false)
    ensures !host.weather.Hostile? ==> host.disk == old(host.disk)
    ensures !host.weather.Hostile? && Installable(old(host.view).installed, m, obsolete) ==>
      && host.view == old(host.view).(installed := host.view.installed) && Installable(host.view.installed, m, obsolete)
      && (r.Ok? ==> Listed(host.view.installed, m))
    ensures host.weather.Calm? && Installable(old(host.view).installed, m, obsolete) ==> r.Ok?
  {
    hide ManifestOf, Follows, Installable, DoAll, Acts, HalfInstalled, Parts;
    Gap(host);
    host.Declare(Installing);
    ghost var tree := host.view.installed;
    ghost var fits := !host.weather.Hostile? && Installable(tree, m, obsolete);
    ghost var acts := Acts(m, obsolete);
    ActsInOrder(m, obsolete);
    if fits {
      InstallableBounds(tree, m, obsolete);
    }
    for i := 0 to |m|
      modifies host`view
      invariant fits ==> HalfInstalled(tree, m, obsolete, i, host.view.installed)
      invariant fits ==>
        host.view == old(host.view).(installed := host.view.installed) && Installable(host.view.installed, m, obsolete)
    {
      assert acts[i] in acts;
      var _ :- NextStep(host, Put(m[i]), tree, m, obsolete, i);
    }
    for i := 0 to |obsolete|
      modifies host`view
      invariant fits ==> HalfInstalled(tree, m, obsolete, |m| + i, host.view.installed)
      invariant fits ==>
        host.view == old(host.view).(installed := host.view.installed) && Installable(host.view.installed, m, obsolete)
    {
      assert acts[|m| + i] in acts;
      var _ :- NextStep(host, Remove(obsolete[i]), tree, m, obsolete, |m| + i);
    }
    assert fits ==> HalfInstalled(tree, m, obsolete, |acts|, host.view.installed);
    return Ok(());
  }

  /** The tree after the first `i` steps. */
  ghost predicate HalfInstalled(tree: Tree, m: Manifest, obsolete: seq<string>, i: nat, now: Tree) {
    && tree.Dir? && i <= |Acts(m, obsolete)| && DoAll(tree.listing, Acts(m, obsolete)[..i]).Ok?
    && now == Dir(DoAll(tree.listing, Acts(m, obsolete)[..i]).value) && Installable(now, m, obsolete)
  }

  lemma ActsInOrder(m: Manifest, obsolete: seq<string>)
    ensures |Acts(m, obsolete)| == |m| + |obsolete|
    ensures forall i :: 0 <= i < |m| ==> Acts(m, obsolete)[i] == Put(m[i])
    ensures forall i :: 0 <= i < |obsolete| ==> Acts(m, obsolete)[|m| + i] == Remove(obsolete[i])
  {
  }

  lemma InstallableBounds(tree: Tree, m: Manifest, obsolete: seq<string>)
    requires Installable(tree, m, obsolete)
    ensures HalfInstalled(tree, m, obsolete, 0, tree)
    ensures forall now :: HalfInstalled(tree, m, obsolete, |Acts(m, obsolete)|, now) ==> Listed(now, m)
  {
    hide ManifestOf, DoAll, Acts;
    FitsWhole(tree, Acts(m, obsolete));
  }

  lemma StepNames(s: Checkout)
    requires ManifestOf(s.backend).Ok?
    ensures forall a :: a in Acts(ManifestOf(s.backend).value, s.obsolete) ==> ValidNames(Parts(a))
  {
    hide ManifestOf;
    var m := ManifestOf(s.backend).value;
    DirSource(s.backend);
    ManifestDescribes(s.backend);
    forall a | a in Acts(m, s.obsolete) ensures ValidNames(Parts(a)) {
      assert a.Put? ==> a.entry in m;
      assert a.Remove? ==> a.path in s.obsolete;
    }
  }

  /** The installer's UI step: the target switches from the old to the selected release. */
  method SwitchUi(host: Host, s: Checkout) returns (r: Result<()>)
    modifies host`view
    ensures !host.weather.Hostile? ==>
      && (host.view == old(host.view) || host.view == old(host.view).(ui := s.ui))
      && (r.Ok? ==> host.view.ui == s.ui)
    ensures host.weather.Calm? ==> r.Ok?
  {
    var _ :- host.Contact();
    host.view := host.view.(ui := s.ui);
    r := host.Contact();
  }

  /** Host pair, backend and UI, in that order. */
  method InstallAll(host: Host, s: Checkout) returns (r: Result<()>)
    requires host.Valid() && Licensed(host.claim) && ManifestOf(s.backend).Ok?
    modifies host`disk, host`view, host`log, host`start, host`watches, host`watch, host`nextUuid, host`claim
    ensures host.Valid() && host.claim == old(host.claim).(placed := host.claim.placed)
    ensures !host.weather.Hostile? ==> host.disk == old(host.disk)
    ensures !host.weather.Hostile? && Ready(old(host.view), s) ==>
      && Ready(host.view, s) && host.view.active == old(host.view).active && (r.Ok? ==> Carries(host.view, s))
    ensures host.weather.Calm? && Ready(old(host.view), s) ==> r.Ok?
  {
    hide ManifestOf, Follows, Installable;
    var m := ManifestOf(s.backend).value;
    StepNames(s);
    var _ :- PublishPair(host, s);
    var _ :- InstallBackend(host, m, s.obsolete);
    r := SwitchUi(host, s);
  }

  lemma DirSource(t: Tree)
    requires ManifestOf(t).Ok?
    ensures t.Dir? && WellFormed(t.listing)
  {
  }

  method StartApi(host: Host) returns (r: Result<()>)
    requires host.Valid() && LicensedStart(host.claim)
    modifies host`disk, host`view, host`log, host`start, host`watches, host`watch, host`nextUuid, host`claim
    ensures host.Valid() && host.claim == old(host.claim)
    ensures !host.weather.Hostile? ==>
      && host.disk == old(host.disk)
      && (host.view == old(host.view) || host.view == old(host.view).(active := old(host.view).active + {Api}))
      && (r.Ok? ==> Api in host.view.active)
    ensures host.weather.Calm? ==> r.Ok?
  {
    hide Follows;
    Gap(host);
    host.Declare(StartingApi);
    var _ :- host.Contact();
    host.view := host.view.(active := host.view.active + {Api});
    r := host.Contact();
  }

  /** From the second look to the started API. */
  method InstallAndStart(host: Host, s: Checkout, c: Checkpoint, installed: Manifest, resumeOnly: bool)
    returns (r: Result<()>)
    requires Owns(host, s, c, installed) && host.claim.locked
    modifies host`disk, host`view, host`log, host`start, host`watches, host`watch, host`nextUuid, host`claim
    ensures host.Valid() && host.claim.locked
    ensures !host.weather.Hostile? ==> host.disk == old(host.disk)
    ensures !host.weather.Hostile? && (old(host.view).active != {} || old(host.disk) != Some(c)) ==>
      r.Failed? && host.view == old(host.view)
    ensures !host.weather.Hostile? && AtNewSource(old(host.view), old(host.disk), s) ==>
      && (AtNewSource(host.view, host.disk, s) || AtNewApi(host.view, host.disk, s))
      && (r.Ok? ==> AtNewApi(host.view, host.disk, s))
    ensures host.weather.Calm? && AtNewSource(old(host.view), old(host.disk), s) && old(host.disk) == Some(c) ==>
      (Listed(old(host.view).installed, installed) && (resumeOnly ==> Carries(old(host.view), s)) ==> r.Ok?)
  {
    hide ManifestOf, Follows, Installable;
    var _ :- Reinspect(host, s, c, installed);
    if !resumeOnly {
      var _ :- InstallAll(host, s);
    }
    var same :- CheckSame(host, s);
    if !same {
      return Failed;
    }
    host.Declare(FoundSelected);
    var _ :- StartApi(host);
    r := host.ApiHealth();
  }

  /** The component lock, everything done under it, and its release on every way out. */
  method UnderLock(host: Host, s: Checkout, c: Checkpoint, installed: Manifest, resumeOnly: bool, catchup: bool)
    returns (r: Result<Applied>)
    requires Owns(host, s, c, installed)
    modifies host`disk, host`view, host`log, host`start, host`watches, host`watch, host`nextUuid, host`claim
    ensures host.Valid() && (old(host.claim.locked) || !host.claim.locked)
    ensures r.Ok? ==>
      host.disk.Some? && host.disk.value.operationId == c.operationId && host.disk.value.status == r.value.status
    ensures !host.weather.Hostile? && (old(host.view).active != {} || old(host.disk) != Some(c)) ==>
      r.Failed? && host.view == old(host.view) && host.disk == old(host.disk)
    ensures !host.weather.Hostile? && AtNewSource(old(host.view), old(host.disk), s) ==>
      && (Recoverable(host.view, host.disk, s) || Finished(host.view, host.disk, s))
      && (r.Ok? ==> Reached(host.view, host.disk, s, r.value))
    ensures host.weather.Calm? && AtNewSource(old(host.view), old(host.disk), s) && old(host.disk) == Some(c) ==>
      (Listed(old(host.view).installed, installed) && (resumeOnly ==> Carries(old(host.view), s)) ==> r.Ok?)
  {
    hide ManifestOf, Follows, Installable;
    var _ :- host.Contact();
    host.Declare(Locked);
    var started := InstallAndStart(host, s, c, installed, resumeOnly);
    if started.Failed? {
      host.Declare(Unlocked);
      return Failed;
    }
    r := ResumeResult(host, s, c.operationId, catchup);
    host.Declare(Unlocked);
  }

  // ----- taking ownership ----------------------------------------------------------------------

  /** Wherever an apply may start or be cut, its opening reads succeed. */
  lemma SurveySucceeds(v: View, d: Option<Checkpoint>, s: Checkout)
    requires Recoverable(v, d, s) || Deployable(v, d, s)
    ensures ManifestOf(s.backend).Ok? && ManifestOf(v.installed).Ok?
    ensures Consistent(Situation(ManifestOf(s.backend).value, ManifestOf(v.installed).value, d))
  {
    hide ManifestOf, DoAll, Acts;
    FitsWhole(v.installed, Acts(ManifestOf(s.backend).value, s.obsolete));
  }

  /** The opening of `apply`. */
  method Survey(host: Host, s: Checkout) returns (r: Result<Situation>)
    requires host.Valid()
    modifies host`view, host`log, host`start, host`watches, host`watch, host`claim
    ensures host.Valid()
    ensures r.Ok? ==>
      && r.value.pending == host.disk && Consistent(r.value) && ManifestOf(s.backend) == Ok(r.value.selected)
      && host.claim == NoClaim.(installed := Some(r.value.installed), selected := Some(r.value.selected))
    ensures host.claim.locked ==> old(host.claim.locked)
    ensures !host.weather.Hostile? ==>
      host.view == old(host.view) && (r.Ok? ==> Listed(host.view.installed, r.value.installed))
    ensures host.weather.Calm? && ManifestOf(s.backend).Ok? && ManifestOf(old(host.view).installed).Ok? ==>
      (r.Ok? <==>
          Consistent(Situation(ManifestOf(s.backend).value, ManifestOf(old(host.view).installed).value, host.disk)))
  {
    hide ManifestOf, Follows;
    host.Begin();
    var _ :- host.Contact();
    var selected :- BackendManifest(s.backend);
    var installed :- host.ReadExport();
    host.Declare(Chose(installed, selected));
    var pending := None;
    if host.disk.Some? {
      var c :- host.ReadCheckpoint();
      pending := Some(c);
    }
    var sit := Situation(selected, installed, pending);
    return if Consistent(sit) then Ok(sit) else Failed;
  }

  /** `_find_source_commit`: the newest local commit whose backend is what is installed. */
  method FindOldSource(history: seq<Tree>, installed: Manifest) returns (r: Result<Tree>)
    ensures r.Ok? ==> r.value in history && Listed(r.value, installed)
    ensures r.Ok? <==> exists i :: 0 <= i < |history| && i < MAX_OLD_SOURCE_COMMITS && Listed(history[i], installed)
  {
    hide ManifestOf;
    for i := 0 to if |history| < MAX_OLD_SOURCE_COMMITS then |history| else MAX_OLD_SOURCE_COMMITS
      invariant forall k :: 0 <= k < i ==> !Listed(history[k], installed)
    {
      var m := BackendManifest(history[i]);
      if m == Ok(installed) {
        return Ok(history[i]);
      }
    }
    return Failed;
  }

  /** The owner's stop, run from a checkout equal to the installed backend. */
  method StopFrom(host: Host, root: Tree, installed: Manifest) returns (r: Result<Report>)
    requires host.Valid() && Listed(root, installed)
    modifies host`disk, host`view, host`log, host`start, host`watches, host`watch, host`nextUuid
    ensures host.Valid()
    ensures r.Ok? ==> IsPending(host.disk) && r.value.operationId == host.disk.value.operationId
    ensures !host.weather.Hostile? && r.Ok? && !IsPending(old(host.disk)) ==>
      && host.view == old(host.view).(source := root, active := {})
      && Begun(host.disk, installed, old(host.view).active, None, old(host.nextUuid))
    ensures !host.weather.Hostile? ==>
      StopReaches(old(host.view).(source := root), old(host.disk), host.view, host.disk, None, old(host.nextUuid))
    ensures host.weather.Calm? && !IsPending(old(host.disk)) && Listed(old(host.view).installed, installed) ==>
      (r.Ok? <==> NoJobs(old(host.view)) && Api in old(host.view).active)
  {
    hide ManifestOf, PathsOf, Follows, Sound, StopReaches;
    host.view := host.view.(source := root);
    ghost var v, d, uuid := host.view, host.disk, host.nextUuid;
    if Listed(v.installed, installed) {
      SameTreesFit(v, installed);
    }
    r := host.Stop();
    if r.Ok? && !host.weather.Hostile? && !IsPending(d) {
      FreshStopLeavesNothing(host.disk, installed, v.active, None, uuid);
    }
  }

  /** `owner_call("stop")` and the checkpoint it left. `stopped` says the stop itself finished. */
  method OwnerStop(host: Host, root: Tree, installed: Manifest) returns (r: Result<Checkpoint>, ghost stopped: bool)
    requires host.Valid() && Listed(root, installed)
    modifies host`disk, host`view, host`log, host`start, host`watches, host`watch, host`nextUuid
    ensures host.Valid()
    ensures r.Ok? ==>
      stopped && host.disk == Some(r.value) && r.value.status.Pending? && r.value.digest == Of(installed)
    ensures !host.weather.Hostile? && stopped && !IsPending(old(host.disk)) ==>
      && host.view == old(host.view).(source := root, active := {})
      && Begun(host.disk, installed, old(host.view).active, None, old(host.nextUuid))
    ensures !host.weather.Hostile? ==>
      StopReaches(old(host.view).(source := root), old(host.disk), host.view, host.disk, None, old(host.nextUuid))
    ensures host.weather.Calm? && !IsPending(old(host.disk)) && Listed(old(host.view).installed, installed) ==>
      (r.Ok? <==> NoJobs(old(host.view)) && Api in old(host.view).active)
  {
    hide ManifestOf, PathsOf, Follows, Sound, StopReaches;
    var report := StopFrom(host, root, installed);
    stopped := report.Ok?;
    if report.Failed? {
      r := Failed;
      return;
    }
    Gap(host);
    r := host.ReadCheckpoint();
    if r.Ok?
      && (report.value.operationId != r.value.operationId || r.value.status.Complete?
          || r.value.digest != Of(installed)) {
      r := Failed;
    }
  }

  lemma SameTreesFit(v: View, m: Manifest)
    requires Listed(v.source, m) && Listed(v.installed, m)
    ensures SourceFits(v)
  {
    hide ManifestOf, PathsOf;
    WalkersAgree(v.installed);
  }

  /** `checkpoint_after_transfer`. */
  predicate TransferredExactly(before: Checkpoint, after: Checkpoint, selected: Manifest, report: Report) {
    && after.operationId == before.operationId == report.operationId
    && after.status.Pending? && after.digest == Of(selected)
    && match report.outcome
       case Transferred =>
         && after.transitions == before.transitions + [Transition(before.operationId, before.digest, Of(selected))]
         && after == Upgrade(before).(manifest := after.manifest, digest := after.digest,
           transitions := after.transitions)
       case AlreadyTransferred => after == Upgrade(before)
       case _ => false
  }

  /** The owner's compare-and-swap, and a check that nothing else in the checkpoint moved. */
  method OwnerTransfer(host: Host, s: Checkout, before: Checkpoint, installed: Manifest, selected: Manifest)
    returns (r: Result<Checkpoint>)
    requires host.Valid() && Listed(s.backend, selected)
    modifies host`disk, host`view, host`log, host`start, host`watches, host`watch, host`nextUuid
    ensures host.Valid()
    ensures r.Ok? ==> host.disk == Some(r.value) && r.value.status.Pending? && r.value.digest == Of(selected)
    ensures !host.weather.Hostile? ==> host.view == old(host.view).(source := s.backend)
    ensures !host.weather.Hostile? && (old(host.disk).None? || old(host.view).active != {}) ==>
      r.Failed? && host.disk == old(host.disk)
    ensures !host.weather.Hostile? && AtOldSource(old(host.view), old(host.disk), s) ==>
      && (AtOldSource(host.view, host.disk, s) || AtNewSource(host.view, host.disk, s))
      && (r.Ok? ==> AtNewSource(host.view, host.disk, s))
    ensures host.weather.Calm? && AtOldSource(old(host.view), old(host.disk), s) && old(host.disk) == Some(before) ==>
      (before.manifest == installed ==> r.Ok?)
  {
    hide ManifestOf, Follows, Installable;
    host.view := host.view.(source := s.backend);
    ghost var v, d := host.view, host.disk;
    host.SoundDisk();
    assert AtOldSource(v, d, s) && d == Some(before) && before.manifest == installed ==>
      TransferAdmits(v, d, before.operationId, Of(installed), Of(selected));
    var report :- host.Transfer(before.operationId, Of(installed), Of(selected));
    Gap(host);
    var after :- host.ReadCheckpoint();
    if !TransferredExactly(before, after, selected, report) {
      return Failed;
    }
    return Ok(after);
  }

  /** Stopped under a plain checkpoint of the installed or the selected source. */
  ghost predicate IsStopped(v: View, d: Option<Checkpoint>, s: Checkout) {
    AtOldSource(v, d, s) || AtNewSource(v, d, s)
  }

  /** A fresh stop of a deployable host leaves it held. */
  lemma FreshStopIsHeld(v: View, d: Option<Checkpoint>, w: View, e: Option<Checkpoint>, root: Tree, s: Checkout,
                        m: Manifest, uuid: nat)
    requires Deployable(v, d, s) && Listed(v.installed, m)
    requires w == v.(source := root, active := {}) && Begun(e, m, v.active, None, uuid)
    ensures ManifestOf(s.backend) == Ok(m) ==> AtNewSource(w, e, s)
    ensures ManifestOf(s.backend) != Ok(m) ==> AtOldSource(w, e, s)
  {
  }

  /** A stop of a deployable host, cut anywhere, leaves it deployable, held, only to be
      resumed, or cut in its stop. */
  lemma CutStop(v: View, d: Option<Checkpoint>, w: View, e: Option<Checkpoint>, root: Tree, s: Checkout, m: Manifest,
                uuid: nat)
    requires Deployable(v, d, s) && Listed(v.installed, m) && Listed(root, m)
    requires StopReaches(v.(source := root), d, w, e, None, uuid)
    ensures Deployable(w, e, s) || Recoverable(w, e, s) || CutInStop(w, e, s)
  {
    hide ManifestOf, Installable, SourceFits, StopPasses;
    if e != d || w != v.(source := root) {
      StagesOnlyStop(v.(source := root), w, e.value);
      if w.active == {} {
        FreshStopIsHeld(v, d, w, e, root, s, m, uuid);
      }
    }
  }

  /** Being cut in the stop is always possible: where the selected source is not installed
      yet, a cut at any stage before the API went down leaves the deployment stuck, the first
      of them being the fresh checkpoint with every unit still up. */
  lemma EveryUpgradeCanGetStuck(v: View, d: Option<Checkpoint>, root: Tree, s: Checkout, m: Manifest, uuid: nat, i: nat)
    returns (w: View, e: Option<Checkpoint>)
    requires Deployable(v, d, s) && Listed(v.installed, m) && Listed(root, m) && ManifestOf(s.backend) != Ok(m)
    requires i <= |STOP_ORDER|
    ensures Begun(e, m, v.active, None, uuid) && w == v.(source := root, active := Stage(v.active, i, e.value))
    ensures StopReaches(v.(source := root), d, w, e, None, uuid) && CutInStop(w, e, s)
  {
    hide ManifestOf, PathsOf, Installable;
    var active := map u: Unit | u in ROLLOUT_ORDER :: u in v.active;
    e := Some(BeginOperation(m, active, None, uuid));
    w := v.(source := root, active := Stage(v.active, i, e.value));
    SameTreesFit(v.(source := root), m);
    forall u: Unit ensures Recorded(e.value, u) <==> u in v.active {
      EveryUnitHasOneRole(u);
    }
    assert Api in w.active by {
      assert forall u :: u in STOP_ORDER[..i] ==> u in STOP_ORDER && u != Api;
    }
    assert StopPasses(v.(source := root), w, e.value);
  }

  /** The owner's stop, repeated from the old source, frees a deployment cut in its stop. */
  lemma StopAgainRecovers(v: View, d: Option<Checkpoint>, s: Checkout, root: Tree)
    requires CutInStop(v, d, s) && Listed(root, d.value.manifest)
    ensures StopAdmits(v.(source := root), d, None)
    ensures Recoverable(v.(source := root, active := AfterStop(v.active, d.value)), d, s)
  {
    hide ManifestOf, PathsOf, Installable;
    SameTreesFit(v.(source := root), d.value.manifest);
    forall u | u in AfterStop(v.active, d.value) ensures false {
      EveryUnitHasOneRole(u);
    }
  }

  /** A fresh operation: stop under the installed source, then move to the selected one. */
  method StartOperation(host: Host, s: Checkout, installed: Manifest, selected: Manifest)
    returns (r: Result<Checkpoint>, ghost stopped: bool)
    requires host.Valid() && Listed(s.backend, selected)
    modifies host`disk, host`view, host`log, host`start, host`watches, host`watch, host`nextUuid
    ensures host.Valid()
    ensures r.Ok? ==> stopped && host.disk == Some(r.value) && r.value.status.Pending? && r.value.digest == Of(selected)
    ensures !host.weather.Hostile? && Listed(old(host.view).installed, installed) ==>
      (Deployable(old(host.view), old(host.disk), s) ==>
        && (stopped ==> IsStopped(host.view, host.disk, s))
        && (Restartable(host.view, host.disk, s) || CutInStop(host.view, host.disk, s))
        && (r.Ok? ==> AtNewSource(host.view, host.disk, s) && host.view.installed == old(host.view).installed))
    ensures host.weather.Calm? && Listed(old(host.view).installed, installed) ==>
      (Deployable(old(host.view), old(host.disk), s) ==> r.Ok?)
  {
    hide ManifestOf, Follows, Installable, Sound, StopReaches, CutInStop;
    ghost var v, d, uuid := host.view, host.disk, host.nextUuid;
    stopped := false;
    var root := s.backend;
    if installed != selected {
      var found := FindOldSource(s.history, installed);
      if found.Failed? {
        r := Failed;
        return;
      }
      root := found.value;
    }
    r, stopped := OwnerStop(host, root, installed);
    if !host.weather.Hostile? && stopped && Listed(v.installed, installed) && Deployable(v, d, s) {
      FreshStopIsHeld(v, d, host.view, host.disk, root, s, installed, uuid);
    }
    if !host.weather.Hostile? && Listed(v.installed, installed) && Deployable(v, d, s) {
      CutStop(v, d, host.view, host.disk, root, s, installed, uuid);
    }
    if r.Ok? && installed != selected {
      r := OwnerTransfer(host, s, r.value, installed, selected);
    }
  }

  /** The checkpoint to deploy under: the interrupted operation's, or a fresh one's. */
  method TakeOwnership(host: Host, s: Checkout, sit: Situation) returns (r: Result<Checkpoint>, ghost stopped: bool)
    requires host.Valid() && Listed(s.backend, sit.selected) && Consistent(sit) && sit.pending == host.disk
    modifies host`disk, host`view, host`log, host`start, host`watches, host`watch, host`nextUuid
    ensures host.Valid()
    ensures r.Ok? ==>
      stopped && host.disk == Some(r.value) && r.value.status.Pending? && r.value.digest == Of(sit.selected)
    ensures !host.weather.Hostile? && IsPending(old(host.disk)) && old(host.view).active != {} ==>
      host.view == old(host.view).(source := host.view.source) && host.disk == old(host.disk)
    ensures !host.weather.Hostile? && IsPending(old(host.disk)) && old(host.disk).value.digest == Of(sit.selected) ==>
      host.view == old(host.view) && host.disk == old(host.disk)
    ensures !host.weather.Hostile? && Listed(old(host.view).installed, sit.installed) ==>
      && (IsStopped(old(host.view), old(host.disk), s) ==> IsStopped(host.view, host.disk, s))
      && (Deployable(old(host.view), old(host.disk), s) && stopped ==> IsStopped(host.view, host.disk, s))
      && (Deployable(old(host.view), old(host.disk), s) ==>
            Deployable(host.view, host.disk, s) || Recoverable(host.view, host.disk, s)
              || CutInStop(host.view, host.disk, s))
      && (r.Ok? && (IsStopped(old(host.view), old(host.disk), s) || Deployable(old(host.view), old(host.disk), s)) ==>
            AtNewSource(host.view, host.disk, s) && host.view.installed == old(host.view).installed)
    ensures host.weather.Calm? && Listed(old(host.view).installed, sit.installed) ==>
      (IsStopped(old(host.view), old(host.disk), s) || Deployable(old(host.view), old(host.disk), s) ==> r.Ok?)
  {
    hide ManifestOf, Follows, Installable, Sound, CutInStop;
    if IsPending(sit.pending) {
      stopped := true;
      var c := sit.pending.value;
      if c.digest != Of(sit.selected) {
        r := OwnerTransfer(host, s, c, sit.installed, sit.selected);
      } else {
        r := Ok(c);
      }
    } else {
      r, stopped := StartOperation(host, s, sit.installed, sit.selected);
    }
  }

  // ----- apply -----------------------------------------------------------------------------------

  /** Whether everything selected is already in place under a bound pending checkpoint,
      and then whether the API runs. */
  method LooksDone(host: Host, s: Checkout, sit: Situation) returns (same: Result<bool>, api: bool)
    requires host.Valid() && sit.pending == host.disk && Listed(s.backend, sit.selected)
    modifies host`view, host`log, host`watches, host`watch
    ensures host.Valid()
    ensures same.Failed? ==> !api
    ensures api ==> IsPending(sit.pending)
    ensures !host.weather.Hostile? ==>
      && host.view == old(host.view)
      && (same == Ok(true) ==>
            IsPending(host.disk) && host.disk.value.digest == Of(sit.selected) && Carries(host.view, s))
      && (api ==> OnlyResumes(host.view, host.disk, s))
    ensures host.weather.Calm? && Listed(old(host.view).installed, sit.installed) ==>
      same.Ok? && (api <==> OnlyResumes(host.view, host.disk, s))
  {
    hide ManifestOf, Follows;
    same, api := Ok(false), false;
    if IsPending(sit.pending) && sit.pending.value.digest == Of(sit.selected) && sit.installed == sit.selected {
      same := CheckSame(host, s);
      if same == Ok(true) {
        var active := host.IsActive(Api);
        if active.Failed? {
          same := Failed;
        } else {
          api := active.value;
        }
      }
    }
  }

  /** `apply` after its opening reads. */
  method ApplyFrom(host: Host, s: Checkout, sit: Situation, catchup: bool)
    returns (r: Result<Applied>, ghost stopped: bool)
    requires host.Valid() && Listed(s.backend, sit.selected) && Consistent(sit) && sit.pending == host.disk
    requires host.claim == NoClaim.(installed := Some(sit.installed), selected := Some(sit.selected))
    modifies host`disk, host`view, host`log, host`start, host`watches, host`watch, host`nextUuid, host`claim
    ensures host.Valid() && !host.claim.locked
    ensures r.Ok? ==> stopped && host.disk.Some? && host.disk.value.status == r.value.status
    ensures !host.weather.Hostile? && Stuck(old(host.view), old(host.disk), s) ==>
      r.Failed? && host.view == old(host.view).(source := host.view.source) && host.disk == old(host.disk)
    ensures !host.weather.Hostile? && Listed(old(host.view).installed, sit.installed) ==>
      (Deployable(old(host.view), old(host.disk), s) ==> Underway(host.view, host.disk, s))
    ensures !host.weather.Hostile? && Listed(old(host.view).installed, sit.installed) ==>
      (Recoverable(old(host.view), old(host.disk), s) || (Deployable(old(host.view), old(host.disk), s) && stopped) ==>
        && (Recoverable(host.view, host.disk, s) || Finished(host.view, host.disk, s))
        && (r.Ok? ==> Reached(host.view, host.disk, s, r.value)))
    ensures host.weather.Calm? && Listed(old(host.view).installed, sit.installed) ==>
      (Recoverable(old(host.view), old(host.disk), s) || Deployable(old(host.view), old(host.disk), s) ==> r.Ok?)
  {
    hide ManifestOf, Follows, Installable, Sound, CutInStop;
    stopped := true;
    var same, api := LooksDone(host, s, sit);
    if same.Failed? {
      stopped := IsPending(host.disk);
      r := Failed;
      return;
    }
    if api {
      r := ResumeResult(host, s, sit.pending.value.operationId, catchup);
      return;
    }
    var owned;
    owned, stopped := TakeOwnership(host, s, sit);
    if owned.Failed? {
      r := Failed;
      return;
    }
    OwnedManifest(host, owned.value, sit.selected);
    host.Declare(Owned(owned.value));
    Gap(host);
    r := UnderLock(host, s, owned.value, sit.installed, same.value, catchup);
  }

  lemma OwnedManifest(host: Host, c: Checkpoint, selected: Manifest)
    requires host.Valid() && host.disk == Some(c) && c.digest == Of(selected)
    ensures c.manifest == selected
  {
    host.SoundDisk();
  }

  /** `apply`. Whatever happens around it, it writes only as `Licensed` allows. In faulty
      weather an apply begun on a deployable host and cut anywhere leaves it where an apply can
      be cut, and after its stop, or begun on a recoverable host, recoverable or finished; in
      calm weather both succeed. Stuck, it refuses and changes nothing. */
  method Apply(host: Host, s: Checkout, catchup: bool) returns (r: Result<Applied>, ghost stopped: bool)
    requires host.Valid() && !host.claim.locked
    modifies host`disk, host`view, host`log, host`start, host`watches, host`watch, host`nextUuid, host`claim
    ensures host.Valid() && !host.claim.locked
    ensures r.Ok? ==> stopped && host.disk.Some? && host.disk.value.status == r.value.status
    ensures !host.weather.Hostile? && Stuck(old(host.view), old(host.disk), s) ==>
      r.Failed? && host.view == old(host.view).(source := host.view.source) && host.disk == old(host.disk)
    ensures !host.weather.Hostile? && Deployable(old(host.view), old(host.disk), s) ==>
      Underway(host.view, host.disk, s)
    ensures !host.weather.Hostile? && Restartable(old(host.view), old(host.disk), s) ==>
      (stopped || Recoverable(old(host.view), old(host.disk), s) ==>
        && (Recoverable(host.view, host.disk, s) || Finished(host.view, host.disk, s))
        && (r.Ok? ==> Reached(host.view, host.disk, s, r.value)))
    ensures host.weather.Calm? && Restartable(old(host.view), old(host.disk), s) ==> r.Ok?
  {
    hide ManifestOf, Follows, Sound;
    if Recoverable(host.view, host.disk, s) || Deployable(host.view, host.disk, s) {
      SurveySucceeds(host.view, host.disk, s);
    }
    var sit := Survey(host, s);
    if sit.Failed? {
      r, stopped := Failed, false;
      return;
    }
    r, stopped := ApplyFrom(host, s, sit.value, catchup);
  }

  // ----- check and the command ---------------------------------------------------------------------

  datatype Diagnosis =
    | NothingToDo | UnhealthyCurrentSource | ResumePendingUnits | TransferPendingOperation | ReadyToApply

  /** What `check` reports of a pending checkpoint. */
  function DiagnosePending(v: View, c: Checkpoint, s: Checkout): Result<Diagnosis> {
    var selected :- ManifestOf(s.backend);
    if c.maintenance.Some? || c.quiescence.Some? then Failed
    else if c.digest == Of(selected) then Ok(ResumePendingUnits)
    else
      var installed :- ManifestOf(v.installed);
      if c.digest == Of(installed) && Known(s.history, v.installed) then Ok(TransferPendingOperation) else Failed
  }

  /** What `check` reports. */
  function Diagnose(v: View, d: Option<Checkpoint>, s: Checkout): Result<Diagnosis> {
    var _ :- ManifestOf(s.backend);
    if IsPending(d) then DiagnosePending(v, d.value, s)
    else if !Carries(v, s) then Ok(ReadyToApply)
    else if Healthy(v) then Ok(NothingToDo)
    else Ok(UnhealthyCurrentSource)
  }

  method CheckPending(host: Host, s: Checkout, c: Checkpoint) returns (r: Result<Diagnosis>)
    requires host.Valid()
    modifies host`view, host`log, host`watches, host`watch
    ensures host.Valid()
    ensures !host.weather.Hostile? ==> host.view == old(host.view) && (r.Ok? ==> r == DiagnosePending(host.view, c, s))
    ensures host.weather.Calm? ==> r == DiagnosePending(host.view, c, s)
  {
    hide ManifestOf, Follows;
    var _ :- host.Contact();
    var selected :- BackendManifest(s.backend);
    if c.maintenance.Some? || c.quiescence.Some? {
      return Failed;
    }
    if c.digest == Of(selected) {
      return Ok(ResumePendingUnits);
    }
    var installed :- host.ReadExport();
    if c.digest != Of(installed) {
      return Failed;
    }
    var _ :- FindOldSource(s.history, installed);
    return Ok(TransferPendingOperation);
  }

  /** `check`, which changes nothing. */
  method Check(host: Host, s: Checkout) returns (r: Result<Diagnosis>)
    requires host.Valid()
    modifies host`view, host`log, host`watches, host`watch
    ensures host.Valid()
    ensures !host.weather.Hostile? ==> host.view == old(host.view)
    ensures !host.weather.Hostile? && IsPending(host.disk) && r.Ok? ==>
      r == DiagnosePending(host.view, host.disk.value, s)
    ensures !host.weather.Hostile? && r == Ok(NothingToDo) ==> Carries(host.view, s) && Healthy(host.view)
    ensures host.weather.Calm? ==> r == Diagnose(host.view, host.disk, s)
  {
    hide ManifestOf, Follows, Sound;
    var same :- CheckSame(host, s);
    var healthy := CheckHealth(host);
    if host.disk.Some? {
      var c :- host.ReadCheckpoint();
      if c.status.Pending? {
        r := CheckPending(host, s, c);
        return;
      }
    }
    return Ok(if !same then ReadyToApply else if healthy then NothingToDo else UnhealthyCurrentSource);
  }

  datatype Ending = AlreadyThere | Did(applied: Applied)

  /** The answers of `check`, by what is selected, installed, recorded and running. */
  lemma DiagnoseExactly(v: View, d: Option<Checkpoint>, s: Checkout)
    requires ManifestOf(s.backend).Ok?
    ensures var selected, r := ManifestOf(s.backend).value, Diagnose(v, d, s);
      var same := ManifestOf(v.installed) == Ok(selected) && v.ui == s.ui && v.pair == s.pair;
      var healthy :=
        v.healthy && Api in v.active && Gateway in v.active && v.listener && v.runtimeUp;
      if d.None? || d.value.status == Complete then
        r == Ok(if !same then ReadyToApply else if healthy then NothingToDo else UnhealthyCurrentSource)
      else
        && (r == Ok(ResumePendingUnits) <==>
              d.value.maintenance == None && d.value.quiescence == None && d.value.digest == Of(selected))
        && (r == Ok(TransferPendingOperation) <==>
              && d.value.maintenance == None && d.value.quiescence == None && d.value.digest != Of(selected)
              && ManifestOf(v.installed) == Ok(d.value.digest.manifest)
              && exists i :: 0 <= i < |s.history| && i < 1000 && ManifestOf(s.history[i]) == ManifestOf(v.installed))
        && (r.Failed? || r == Ok(ResumePendingUnits) || r == Ok(TransferPendingOperation))
  {
    hide ManifestOf;
  }

  /** Where an apply may start, by what is running, recorded, installed and known. */
  lemma DeployableExactly(v: View, d: Option<Checkpoint>, s: Checkout)
    ensures Deployable(v, d, s) <==>
      && (d.Some? ==> d.value.status == Complete) && v.healthy && v.listener && v.runtimeUp
      && Api in v.active && Gateway in v.active && {RetentionJob, MaintenanceJob, RefreshJob, TrafficJob} !! v.active
      && ManifestOf(s.backend).Ok? && Installable(v.installed, ManifestOf(s.backend).value, s.obsolete)
      && (ManifestOf(v.installed) == ManifestOf(s.backend)
          || exists i :: 0 <= i < |s.history| && i < 1000 && ManifestOf(s.history[i]) == ManifestOf(v.installed))
  {
    hide ManifestOf, Installable;
    var jobs := {RetentionJob, MaintenanceJob, RefreshJob, TrafficJob};
    assert forall u :: IsJob(u) <==> u in jobs;
    assert NoJobs(v) <==> jobs !! v.active;
  }

  /** The deployment command: diagnose, then apply if there is something to do. */
  method Run(host: Host, s: Checkout, catchup: bool) returns (r: Result<Ending>, ghost stopped: bool)
    requires host.Valid() && !host.claim.locked
    modifies host`disk, host`view, host`log, host`start, host`watches, host`watch, host`nextUuid, host`claim
    ensures host.Valid() && !host.claim.locked
    ensures !host.weather.Hostile? && Stuck(old(host.view), old(host.disk), s) ==>
      r.Failed? && host.view == old(host.view).(source := host.view.source) && host.disk == old(host.disk)
    ensures !host.weather.Hostile? && Underway(old(host.view), old(host.disk), s) ==> Underway(host.view, host.disk, s)
    ensures host.weather.Calm? && Underway(old(host.view), old(host.disk), s) ==>
      (r.Ok? <==> !Stuck(old(host.view), old(host.disk), s))
    ensures !host.weather.Hostile? && Restartable(old(host.view), old(host.disk), s) ==>
      && (stopped || Recoverable(old(host.view), old(host.disk), s) ==>
            Recoverable(host.view, host.disk, s) || Finished(host.view, host.disk, s))
      && (r.Ok? && r.value.Did? ==> Reached(host.view, host.disk, s, r.value.applied))
    ensures !host.weather.Hostile? && r == Ok(AlreadyThere) ==>
      host.disk == old(host.disk) && Carries(host.view, s) && Healthy(host.view)
    ensures host.weather.Calm? && Recoverable(old(host.view), old(host.disk), s) ==> r.Ok? && r.value.Did?
    ensures host.weather.Calm? && Finished(old(host.view), old(host.disk), s) ==> r == Ok(AlreadyThere)
    ensures host.weather.Calm? && Deployable(old(host.view), old(host.disk), s) && !Carries(old(host.view), s) ==>
      r.Ok? && r.value.Did?
  {
    hide ManifestOf, Follows, Sound, Installable;
    var diagnosis := Check(host, s);
    if diagnosis.Failed? || diagnosis.value.UnhealthyCurrentSource? {
      r, stopped := Failed, false;
      return;
    }
    if diagnosis.value.NothingToDo? {
      r, stopped := Ok(AlreadyThere), false;
      return;
    }
    var applied;
    applied, stopped := Apply(host, s, catchup);
    r := if applied.Ok? then Ok(Did(applied.value)) else Failed;
  }

  /** MAIN: interrupt the command as often as you like, anywhere after its stop finished;
      one more run in calm weather installs the selected source and leaves the operation
      complete or with nothing but recorded timers waiting. */
  method InterruptedThenCalm(host: Host, s: Checkout, attempts: nat, catchup: bool)
    returns (later: Host, r: Result<Ending>)
    requires host.Valid() && host.weather.Faulty? && !host.claim.locked && Recoverable(host.view, host.disk, s)
    modifies host
    ensures fresh(later) && later.Valid() && later.weather.Calm?
    ensures r.Ok? && Carries(later.view, s)
    ensures later.disk.Some? && ManifestOf(s.backend) == Ok(later.disk.value.manifest)
    ensures later.disk.value.status.Complete?
         || forall u :: u in later.disk.value.pending ==> IsTimer(u) && Recorded(later.disk.value, u)
  {
    hide ManifestOf, Follows, Sound, Installable;
    for i := 0 to attempts
      modifies host`disk, host`view, host`log, host`start, host`watches, host`watch, host`nextUuid, host`claim
      invariant host.Valid() && !host.claim.locked
      invariant Recoverable(host.view, host.disk, s) || Finished(host.view, host.disk, s)
    {
      if InPlace(host.view, host.disk, s) {
        break;
      }
      ghost var stopped;
      var ending;
      ending, stopped := Run(host, s, catchup);
    }
    later := new Host.Later(host, Calm);
    ghost var stopped;
    r, stopped := Run(later, s, catchup);
  }

  /** MAIN: begin on a deployable host and interrupt the command as often as you like, anywhere
      at all. One more run in calm weather succeeds, with the selected source installed, if and
      only if no unit is active under a pending operation that still has more to do than to
      resume; that can only be the operation's own stop, cut before it was through. */
  method CutAnywhereThenCalm(host: Host, s: Checkout, attempts: nat, catchup: bool)
    returns (later: Host, r: Result<Ending>)
    requires host.Valid() && host.weather.Faulty? && !host.claim.locked && Underway(host.view, host.disk, s)
    modifies host
    ensures fresh(later) && later.Valid() && later.weather.Calm?
    ensures Underway(host.view, host.disk, s)
    ensures r.Ok? <==> !Stuck(host.view, host.disk, s)
    ensures r.Failed? <==>
      && host.disk.Some? && host.disk.value.status == Pending && host.view.active != {}
      && !(ManifestOf(s.backend).Ok? && host.disk.value.digest == Of(ManifestOf(s.backend).value)
             && ManifestOf(host.view.installed) == ManifestOf(s.backend) && host.view.ui == s.ui
             && host.view.pair == s.pair && Api in host.view.active)
    ensures r.Ok? ==>
      && ManifestOf(s.backend).Ok? && ManifestOf(later.view.installed) == ManifestOf(s.backend)
      && later.view.ui == s.ui && later.view.pair == s.pair
    ensures r.Ok? && r.value.Did? ==> later.disk.Some?
    ensures r.Ok? && r.value.Did? && later.disk.value.status.Pending? ==>
      forall u :: u in later.disk.value.pending ==> IsTimer(u) && Recorded(later.disk.value, u)
    ensures r.Failed? ==>
      && CutInStop(host.view, host.disk, s)
      && later.view == host.view.(source := later.view.source) && later.disk == host.disk
  {
    hide ManifestOf, Follows, Sound, Installable, Deployable, Recoverable, Finished, CutInStop;
    for i := 0 to attempts
      modifies host`disk, host`view, host`log, host`start, host`watches, host`watch, host`nextUuid, host`claim
      invariant host.Valid() && !host.claim.locked && Underway(host.view, host.disk, s)
    {
      ghost var stopped;
      var ending;
      ending, stopped := Run(host, s, catchup);
    }
    OnlyCutInStopIsStuck(host.view, host.disk, s);
    later := new Host.Later(host, Calm);
    ghost var stopped;
    r, stopped := Run(later, s, catchup);
  }

  /** Of the places an apply can be cut in, only its own stop leaves it stuck. */
  lemma OnlyCutInStopIsStuck(v: View, d: Option<Checkpoint>, s: Checkout)
    requires Underway(v, d, s)
    ensures Stuck(v, d, s) <==> CutInStop(v, d, s)
    ensures Finished(v, d, s) ==> Deployable(v, d, s)
  {
    hide ManifestOf, Installable;
  }
}
