/** What every legal history says about a deployment's own writes. */
module DeploySafety {
  import opened Outcomes
  import opened Manifests
  import opened Checkpoints
  import opened RolloutLog
  import opened RolloutSafety

  predicate Writing(e: Event) {
    e == Deployed(Publishing) || e == Deployed(Installing)
  }

  predicate Resets(e: Event) {
    e.Deployed? && e.step.Chose?
  }

  predicate Rereads(e: Event) {
    e.Deployed? && e.step.Reread?
  }

  predicate Latches(e: Event) {
    e == Deployed(Locked) || e == Deployed(Unlocked) || Resets(e)
  }

  /** Only the steps of a deployment change its claim. */
  lemma ClaimOfLast(log: seq<Event>)
    ensures log == [] ==> Watched(log).claim == NoClaim
    ensures log != [] ==>
      var e, before := log[|log| - 1], Watched(log[..|log| - 1]).claim;
      Watched(log).claim == if e.Deployed? then Stake(before, e.step) else before
  {
    hide Stake, Observe;
    if log != [] {
      ClaimObserved(Watched(log[..|log| - 1]), log[|log| - 1]);
    }
  }

  lemma ClaimObserved(w: Watch, e: Event)
    ensures Observe(w, e).claim == if e.Deployed? then Stake(w.claim, e.step) else w.claim
  {
    hide Stake, Watched;
    if e.Deployed? {
      StepKeepsClaim(w.(claim := Stake(w.claim, e.step)), e.step);
      hide ObserveStep;
    }
  }

  lemma StepKeepsClaim(w: Watch, s: Step)
    ensures ObserveStep(w, s).claim == w.claim
  {
  }

  /** Where the held lock was taken, and that it was held ever since. */
  lemma {:induction false} LockWasTaken(log: seq<Event>) returns (l: nat)
    requires Watched(log).claim.locked
    ensures l < |log| && log[l] == Deployed(Locked)
    ensures forall i :: l < i < |log| ==> !Latches(log[i])
    ensures forall i :: l < i <= |log| ==> Watched(log[..i]).claim.locked
  {
    hide Watched;
    ClaimOfLast(log);
    var n := |log| - 1;
    if log[n] == Deployed(Locked) {
      l := n;
      assert log[..|log|] == log;
    } else {
      l := LockWasTaken(log[..n]);
      assert forall i :: 0 <= i < n ==> log[..n][i] == log[i];
      forall i | l < i <= |log| ensures Watched(log[..i]).claim.locked {
        if i <= n {
          assert log[..n][..i] == log[..i];
        } else {
          assert log[..i] == log;
        }
      }
    }
  }

  lemma {:induction false} CheckpointWasReread(log: seq<Event>, c: Checkpoint) returns (d: nat)
    requires Watched(log).claim.seen == Some(c)
    ensures d < |log| && log[d] == Deployed(Reread(c))
    ensures forall i :: d < i < |log| ==> !Latches(log[i])
  {
    hide Watched;
    ClaimOfLast(log);
    var n := |log| - 1;
    if log[n] == Deployed(Reread(c)) {
      d := n;
    } else {
      d := CheckpointWasReread(log[..n], c);
      assert forall i :: 0 <= i < n ==> log[..n][i] == log[i];
    }
  }

  lemma {:induction false} CheckpointWasOwned(log: seq<Event>, c: Checkpoint) returns (o: nat)
    requires Watched(log).claim.owned == Some(c)
    ensures o < |log| && log[o] == Deployed(Owned(c))
    ensures forall i :: o < i < |log| ==> !Resets(log[i])
  {
    hide Watched;
    ClaimOfLast(log);
    var n := |log| - 1;
    if log[n] == Deployed(Owned(c)) {
      o := n;
    } else {
      o := CheckpointWasOwned(log[..n], c);
      assert forall i :: 0 <= i < n ==> log[..n][i] == log[i];
    }
  }

  lemma {:induction false} ChoiceWasMade(log: seq<Event>, m: Manifest, selected: Manifest) returns (s: nat)
    requires Watched(log).claim.installed == Some(m) && Watched(log).claim.selected == Some(selected)
    ensures s < |log| && log[s] == Deployed(Chose(m, selected))
    ensures forall i :: s < i < |log| ==> !Resets(log[i])
  {
    hide Watched;
    ClaimOfLast(log);
    var n := |log| - 1;
    if log[n] == Deployed(Chose(m, selected)) {
      s := n;
    } else {
      s := ChoiceWasMade(log[..n], m, selected);
      assert forall i :: 0 <= i < n ==> log[..n][i] == log[i];
    }
  }

  /** Where the tree was found as it was before the stop; nothing was reread since. */
  lemma {:induction false} OldWasFound(log: seq<Event>) returns (f: nat)
    requires Watched(log).claim.asBefore
    ensures f < |log| && log[f] == Deployed(FoundOld)
    ensures forall i :: f < i < |log| ==> !Latches(log[i]) && !Rereads(log[i])
  {
    hide Watched;
    ClaimOfLast(log);
    var n := |log| - 1;
    if log[n] == Deployed(FoundOld) {
      f := n;
    } else {
      f := OldWasFound(log[..n]);
      assert forall i :: 0 <= i < n ==> log[..n][i] == log[i];
    }
  }

  /** Where every unit was found down. */
  lemma {:induction false} DownWasFound(log: seq<Event>) returns (g: nat)
    requires Watched(log).claim.down
    ensures g < |log| && log[g] == Deployed(FoundDown)
    ensures forall i :: g < i < |log| ==> !Latches(log[i]) && !Rereads(log[i]) && log[i] != Deployed(FoundOld)
  {
    hide Watched;
    ClaimOfLast(log);
    var n := |log| - 1;
    if log[n] == Deployed(FoundDown) {
      g := n;
    } else {
      g := DownWasFound(log[..n]);
      assert forall i :: 0 <= i < n ==> log[..n][i] == log[i];
    }
  }

  /** Where the selected tree was found installed. */
  lemma {:induction false} SelectedWasFound(log: seq<Event>) returns (q: nat)
    requires Watched(log).claim.placed
    ensures q < |log| && log[q] == Deployed(FoundSelected)
    ensures forall i :: q < i < |log| ==> !Latches(log[i]) && log[i] != Deployed(Installing)
  {
    hide Watched;
    ClaimOfLast(log);
    var n := |log| - 1;
    if log[n] == Deployed(FoundSelected) {
      q := n;
    } else {
      q := SelectedWasFound(log[..n]);
      assert forall i :: 0 <= i < n ==> log[..n][i] == log[i];
    }
  }

  /** The choice stands until the next one. */
  lemma {:induction false} ChoiceStands(log: seq<Event>, s: nat, m: Manifest, selected: Manifest, i: nat)
    requires s < i <= |log| && log[s] == Deployed(Chose(m, selected))
    requires forall n :: s < n < i ==> !Resets(log[n])
    ensures Watched(log[..i]).claim.installed == Some(m) && Watched(log[..i]).claim.selected == Some(selected)
    decreases i
  {
    assert log[..i][..i - 1] == log[..i - 1] && log[..i][i - 1] == log[i - 1];
    if s < i - 1 {
      ChoiceStands(log, s, m, selected, i - 1);
    }
  }

  /** MAIN: a deployment publishes or installs only after these, in this order: it chose the
      selected source, having found `m` installed; it owned the pending checkpoint `c`, bound
      to the selected source; it took the component lock and kept it; under the lock it read
      `c` again; and then it found, by a reading under the lock, `m` still installed. */
  lemma WritesFollowOwnershipAndLock(log: seq<Event>, k: nat)
    returns (s: nat, o: nat, l: nat, d: nat, e: nat, f: nat, m: Manifest, c: Checkpoint)
    requires Legal(log) && k < |log| && Writing(log[k])
    ensures s < o < l < d < f < k && l < e < f
    ensures log[s] == Deployed(Chose(m, c.manifest)) && log[o] == Deployed(Owned(c)) && c.status.Pending?
    ensures log[l] == Deployed(Locked) && forall i :: l < i < k ==> log[i] != Deployed(Unlocked)
    ensures log[d] == Deployed(Reread(c)) && log[f] == Deployed(FoundOld) && log[e] == SawExport(m)
    ensures forall i :: e < i < f ==> !log[i].Began? && !log[i].SawExport?
  {
    hide Legal, Allowed, Watched;
    var cut := log[..k];
    s, o, l, d, f, m, c := WritesAreLicensed(log, k);
    assert forall i :: 0 <= i < k ==> cut[i] == log[i];
    ChoiceStands(log, s, m, c.manifest, f);
    e := FoundByReading(log, f, m);
    assert forall i :: 0 <= i < f ==> log[..f][i] == log[i];
    assert forall i :: e < i < f ==> log[i] != Deployed(Locked);
    assert log[e] != log[l];
  }

  lemma FoundByReading(log: seq<Event>, f: nat, m: Manifest) returns (e: nat)
    requires Legal(log) && f < |log| && log[f] == Deployed(FoundOld)
    requires Watched(log[..f]).claim.installed == Some(m)
    ensures e < f && log[..f][e] == SawExport(m)
    ensures forall i :: e < i < f ==>
      !log[..f][i].Began? && !log[..f][i].SawExport? && log[..f][i] != Deployed(Locked)
  {
    AllowedAt(log, f);
    e := ExportWasSeen(log[..f], m);
  }

  lemma WritesAreLicensed(log: seq<Event>, k: nat)
    returns (s: nat, o: nat, l: nat, d: nat, f: nat, m: Manifest, c: Checkpoint)
    requires Legal(log) && k < |log| && Writing(log[k])
    ensures s < o < l < d < f < k
    ensures log[s] == Deployed(Chose(m, c.manifest)) && log[o] == Deployed(Owned(c)) && c.status.Pending?
    ensures forall i :: s < i < k ==> !Resets(log[i])
    ensures log[l] == Deployed(Locked) && forall i :: l < i < k ==> !Latches(log[i])
    ensures log[d] == Deployed(Reread(c)) && log[f] == Deployed(FoundOld)
  {
    AllowedAt(log, k);
    var cut := log[..k];
    var w := Watched(cut);
    c := w.claim.owned.value;
    m := ChosenInstalled(cut);
    l := LockWasTaken(cut);
    d := CheckpointWasReread(cut, c);
    f := OldWasFound(cut);
    o := CheckpointWasOwned(cut, c);
    s := ChoiceWasMade(cut, m, c.manifest);
    assert forall i :: 0 <= i < k ==> cut[i] == log[i];
    OwnedBeforeLock(cut, o, l);
    ChosenBeforeOwned(cut, s, o);
  }

  /** Source and installed tree are chosen together. */
  lemma {:induction false} ChosenInstalled(log: seq<Event>) returns (m: Manifest)
    requires Watched(log).claim.selected.Some?
    ensures Watched(log).claim.installed == Some(m)
  {
    hide Watched;
    ClaimOfLast(log);
    var n := |log| - 1;
    if Resets(log[n]) {
      m := log[n].step.installed;
    } else {
      m := ChosenInstalled(log[..n]);
    }
  }

  lemma OwnedBeforeLock(log: seq<Event>, o: nat, l: nat)
    requires Legal(log) && o < |log| && log[o].Deployed? && log[o].step.Owned?
    requires l < |log| && log[l] == Deployed(Locked)
    requires forall i :: l < i <= |log| ==> Watched(log[..i]).claim.locked
    ensures o < l
  {
    AllowedAt(log, o);
  }

  /** A choice forgets whatever was owned before it. */
  lemma ChosenBeforeOwned(log: seq<Event>, s: nat, o: nat)
    requires s < |log| && o < |log| && Resets(log[s]) && log[o].Deployed? && log[o].step.Owned?
    requires forall i :: o < i < |log| ==> !Resets(log[i])
    ensures s < o
  {
  }

  lemma OldFoundBefore(log: seq<Event>, k: nat) returns (f: nat)
    requires k <= |log| && Watched(log[..k]).claim.asBefore
    ensures f < k && log[f] == Deployed(FoundOld)
    ensures forall i :: f < i < k ==> !Latches(log[i]) && !Rereads(log[i])
  {
    hide Watched;
    f := OldWasFound(log[..k]);
    assert forall i :: 0 <= i < k ==> log[..k][i] == log[i];
  }

  lemma DownFoundBefore(log: seq<Event>, k: nat) returns (g: nat)
    requires k <= |log| && Watched(log[..k]).claim.down
    ensures g < k && log[g] == Deployed(FoundDown)
    ensures forall i :: g < i < k ==> !Latches(log[i]) && !Rereads(log[i]) && log[i] != Deployed(FoundOld)
  {
    hide Watched;
    g := DownWasFound(log[..k]);
    assert forall i :: 0 <= i < k ==> log[..k][i] == log[i];
  }

  lemma UnitSeenBefore(log: seq<Event>, g: nat, u: Unit) returns (j: nat)
    requires g <= |log| && u in Watched(log[..g]).down
    ensures j < g && log[j] == SawUnit(u, false)
    ensures forall i :: j < i < g ==>
      log[i] != SawUnit(u, true) && log[i] != StartedUnit(u) && !log[i].Began? && log[i] != Deployed(FoundOld)
  {
    hide Watched;
    j := DownWasSeen(log[..g], u);
    assert forall i :: 0 <= i < g ==> log[..g][i] == log[i];
  }

  lemma FoundDownMeans(log: seq<Event>, g: nat, u: Unit)
    requires Legal(log) && g < |log| && log[g] == Deployed(FoundDown)
    ensures Watched(log[..g]).claim.asBefore && u in Watched(log[..g]).down
  {
    AllowedAt(log, g);
  }

  lemma LicensedAt(log: seq<Event>, k: nat)
    requires Legal(log) && k < |log| && Writing(log[k])
    ensures Licensed(Watched(log[..k]).claim)
  {
    AllowedAt(log, k);
  }

  /** MAIN: before a deployment's write, and after it found the old tree under the lock, it
      found every rollout unit down: each was seen inactive, and not started or seen active
      since, with no other command begun in between. */
  lemma WritesFollowStoppedUnits(log: seq<Event>, k: nat, u: Unit) returns (f: nat, j: nat, g: nat)
    requires Legal(log) && k < |log| && Writing(log[k])
    ensures f < j < g < k && log[f] == Deployed(FoundOld) && log[g] == Deployed(FoundDown)
    ensures log[j] == SawUnit(u, false)
    ensures forall i :: j < i < g ==> log[i] != SawUnit(u, true) && log[i] != StartedUnit(u) && !log[i].Began?
    ensures forall i :: f < i < k ==> !Latches(log[i]) && !Rereads(log[i])
  {
    hide Legal, Watched;
    LicensedAt(log, k);
    g := DownFoundBefore(log, k);
    FoundDownMeans(log, g, u);
    f := OldFoundBefore(log, g);
    j := UnitSeenBefore(log, g, u);
    assert log[f] != log[j];
  }

  /** MAIN: the checkpoint a deployment writes or starts the API under was read again under the
      lock when it was the last one written, and it still is exactly if no other process wrote
      one since: the component lock does not keep them out. */
  lemma WritesKeepTheCheckpoint(log: seq<Event>, k: nat) returns (j: nat, d: nat)
    requires Legal(log) && k < |log| && (Writing(log[k]) || log[k] == Deployed(StartingApi))
    ensures j < d < k && log[j].Wrote? && log[j].checkpoint.status.Pending?
    ensures log[d] == Deployed(Reread(log[j].checkpoint))
    ensures forall i :: d < i < k ==> !Latches(log[i])
    ensures forall i :: j < i < d ==> !log[i].Wrote?
    ensures (forall i :: j < i < k ==> !log[i].Wrote?) <==> (forall i :: d < i < k ==> !log[i].Wrote?)
  {
    hide Legal, Allowed, Watched;
    var cut := log[..k];
    var c := LicensedSeen(log, k);
    d := CheckpointWasReread(cut, c);
    assert forall i :: 0 <= i < k ==> cut[i] == log[i];
    RereadIsOnDisk(log, d, c);
    var before := log[..d];
    j := DiskIsLastWrite(before);
    assert forall i :: 0 <= i < d ==> before[i] == log[i];
  }

  lemma LicensedSeen(log: seq<Event>, k: nat) returns (c: Checkpoint)
    requires Legal(log) && k < |log| && (Writing(log[k]) || log[k] == Deployed(StartingApi))
    ensures Watched(log[..k]).claim.seen == Some(c) && c.status.Pending?
  {
    hide Legal, Watched;
    AllowedAt(log, k);
    c := Watched(log[..k]).claim.owned.value;
  }

  lemma RereadIsOnDisk(log: seq<Event>, d: nat, c: Checkpoint)
    requires Legal(log) && d < |log| && log[d] == Deployed(Reread(c))
    ensures Watched(log[..d]).disk == Some(c)
  {
    hide Legal, Watched;
    AllowedAt(log, d);
  }

  /** MAIN: the API is started only after a reading, under the same lock and with nothing
      installed since, found exactly the source installed that the reread checkpoint is
      bound to. */
  lemma ApiStartsOnSelectedSource(log: seq<Event>, k: nat) returns (l: nat, d: nat, e: nat, q: nat, c: Checkpoint)
    requires Legal(log) && k < |log| && log[k] == Deployed(StartingApi)
    ensures l < d < k && l < e < q < k && log[l] == Deployed(Locked) && log[d] == Deployed(Reread(c))
    ensures log[e] == SawExport(c.manifest) && log[q] == Deployed(FoundSelected)
    ensures forall i :: l < i < k ==> !Latches(log[i])
    ensures forall i :: e < i < k ==> log[i] != Deployed(Installing)
  {
    hide Legal, Allowed, Watched;
    var s, m;
    s, l, d, q, m, c := StartsAreLicensed(log, k);
    ChoiceStands(log, s, m, c.manifest, q);
    e := SelectedByReading(log, q, c.manifest);
    assert log[e] != log[l];
  }

  lemma SelectedByReading(log: seq<Event>, q: nat, selected: Manifest) returns (e: nat)
    requires Legal(log) && q < |log| && log[q] == Deployed(FoundSelected)
    requires Watched(log[..q]).claim.selected == Some(selected)
    ensures e < q && log[e] == SawExport(selected)
    ensures forall i :: e < i < q ==> log[i] != Deployed(Locked) && log[i] != Deployed(Installing)
  {
    AllowedAt(log, q);
    e := ExportStillStands(log[..q], selected);
    assert forall i :: 0 <= i < q ==> log[..q][i] == log[i];
  }

  lemma StartsAreLicensed(log: seq<Event>, k: nat)
    returns (s: nat, l: nat, d: nat, q: nat, m: Manifest, c: Checkpoint)
    requires Legal(log) && k < |log| && log[k] == Deployed(StartingApi)
    ensures s < l < d < k && l < q < k
    ensures log[s] == Deployed(Chose(m, c.manifest)) && forall i :: s < i < k ==> !Resets(log[i])
    ensures log[l] == Deployed(Locked) && forall i :: l < i < k ==> !Latches(log[i])
    ensures log[d] == Deployed(Reread(c)) && log[q] == Deployed(FoundSelected)
    ensures forall i :: q < i < k ==> log[i] != Deployed(Installing)
  {
    AllowedAt(log, k);
    var cut := log[..k];
    c := Watched(cut).claim.owned.value;
    m := ChosenInstalled(cut);
    hide Watched, Legal, Allowed;
    l := LockWasTaken(cut);
    d := CheckpointWasReread(cut, c);
    q := SelectedWasFound(cut);
    s := ChoiceWasMade(cut, m, c.manifest);
    assert forall i :: 0 <= i < k ==> cut[i] == log[i];
    assert log[s] != log[l] && log[d] != log[l] && log[q] != log[l];
    assert Resets(log[s]) ==> Latches(log[s]);
  }

  lemma {:induction false} ExportStillStands(log: seq<Event>, m: Manifest) returns (e: nat)
    requires Watched(log).export_ == Some(m)
    ensures e < |log| && log[e] == SawExport(m)
    ensures forall i :: e < i < |log| ==> log[i] != Deployed(Locked) && log[i] != Deployed(Installing)
  {
    var n := |log| - 1;
    if log[n] == SawExport(m) {
      e := n;
    } else {
      e := ExportStillStands(log[..n], m);
      assert forall i :: 0 <= i < n ==> log[..n][i] == log[i];
    }
  }
}
