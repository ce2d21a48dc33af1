/** The descriptor table of an installing process. A flock belongs to the open file, and
    lasts as long as any descriptor refers to it; the installer's children expect the
    component lock at 9 and the maintenance lease at 8. */
module Descriptors {
  import opened Outcomes

  const LOCK_FD: nat := 9
  const LEASE_FD: nat := 8
  const PARKED: nat := 20

  datatype Slot = Slot(file: nat, inheritable: bool)
  type Table = map<nat, Slot>

  datatype Lock = Unlocked | Shared | Exclusive

  /** Some descriptor refers to the open file. */
  predicate Refers(fds: Table, file: nat) {
    exists fd :: fd in fds && fds[fd].file == file
  }

  // ----- free descriptors ---------------------------------------------------------------------------

  function Above(fds: Table, from: nat): set<nat> {
    set fd | fd in fds && fd >= from
  }

  /** The lowest free descriptor not below `from`, which is what open and F_DUPFD return. */
  function LowestFree(fds: Table, from: nat): (fd: nat)
    ensures fd >= from && fd !in fds
    ensures forall k :: from <= k < fd ==> k in fds
    decreases |Above(fds, from)|
  {
    if from !in fds then from
    else
      assert Above(fds, from) == Above(fds, from + 1) + {from};
      LowestFree(fds, from + 1)
  }

  // ----- the calls ------------------------------------------------------------------------------------

  function Opened(fds: Table, file: nat): Table {
    fds[LowestFree(fds, 0) := Slot(file, false)]
  }

  /** F_DUPFD, which leaves the copy inheritable. */
  function Duplicated(fds: Table, fd: nat, from: nat): Table
    requires fd in fds
  {
    fds[LowestFree(fds, from) := Slot(fds[fd].file, true)]
  }

  /** dup2 with `inheritable=True`; onto itself it changes nothing. */
  function Dup2(fds: Table, fd: nat, target: nat): Table
    requires fd in fds
  {
    if fd == target then fds else fds[target := Slot(fds[fd].file, true)]
  }

  /** Same descriptors for the same files; only how 8 and 9 are inherited may differ. */
  predicate Restored(before: Table, after: Table) {
    && before.Keys == after.Keys
    && (forall fd :: fd in before ==> after[fd].file == before[fd].file)
    && (forall fd :: fd in before && fd != LOCK_FD && fd != LEASE_FD ==> after[fd] == before[fd])
  }

  lemma RestoredOneByOne(before: Table, after: Table)
    requires Restored(before, after)
    ensures after.Keys == before.Keys
    ensures forall fd :: fd in after ==>
      after[fd].file == before[fd].file && (fd == 8 || fd == 9 || after[fd] == before[fd])
  {
  }

  /** Which call fails, if any. */
  datatype Fault =
    | NoFault | AtAcquire | AtMoveLock | AtMoveLease
    | AtDupInstaller | AtDupLease

  /** What `_component_lock` returns. */
  datatype Locks = Locks(lock: nat, lease: Option<nat>, savedLease: Option<nat>, savedInstaller: Option<nat>)

  class Process {
    var fds: Table
    var locks: map<nat, Lock>
    var owned: map<nat, nat>

    ghost predicate Valid()
      reads this
    {
      forall fd :: fd in fds ==> fds[fd].file in locks
    }

    /** The open file holds its lock: some descriptor still refers to it. */
    predicate Holds(file: nat, mode: Lock)
      reads this
    {
      file in locks && locks[file] == mode && Refers(fds, file)
    }

    constructor (fds: Table, locks: map<nat, Lock>)
      requires forall fd :: fd in fds ==> fds[fd].file in locks
      ensures Valid() && this.fds == fds && this.locks == locks && this.owned == map[]
    {
      this.fds, this.locks, this.owned := fds, locks, map[];
    }

    /** `acquire` in exclusive mode: the component lock and, on the real host, the lease,
        each a new open file. On failure nothing stays open. */
    method Acquire(host: bool, lockFile: nat, leaseFile: nat, fails: bool) returns (r: Result<nat>)
      requires Valid() && lockFile !in locks && leaseFile !in locks && lockFile != leaseFile && owned == map[]
      modifies this
      ensures Valid()
      ensures fails <==> r.Failed?
      ensures r.Failed? ==> fds == old(fds) && owned == old(owned)
      ensures r.Ok? ==>
        r.value == LowestFree(old(fds), 0)
          && locks == old(locks)[lockFile := Exclusive][leaseFile := if host then Exclusive else Unlocked]
      ensures r.Ok? && host ==>
        && fds == Opened(Opened(old(fds), lockFile), leaseFile)
        && owned == map[r.value := LowestFree(Opened(old(fds), lockFile), 0)]
      ensures r.Ok? && !host ==> fds == Opened(old(fds), lockFile) && owned == map[]
    {
      hide Above;
      var fd := LowestFree(fds, 0);
      fds, locks := Opened(fds, lockFile), locks[lockFile := Exclusive][leaseFile := Unlocked];
      if fails {
        fds := fds - {fd};
        assert fds == old(fds);
        return Failed;
      }
      if host {
        var lease := LowestFree(fds, 0);
        fds, locks, owned := Opened(fds, leaseFile), locks[leaseFile := Exclusive], owned[fd := lease];
      }
      return Ok(fd);
    }

    /** `release`: the registered lease, then the lock. */
    method Release(fd: nat)
      requires Valid() && fd in fds && (fd in owned ==> owned[fd] in fds && owned[fd] != fd)
      modifies `fds, `owned
      ensures Valid() && owned == old(owned) - {fd}
      ensures fds == old(fds) - (if fd in old(owned) then {fd, old(owned)[fd]} else {fd})
    {
      if fd in owned {
        fds := fds - {owned[fd]};
        owned := owned - {fd};
      }
      fds := fds - {fd};
    }

    /** `_restore_child_fd`. */
    method RestoreChild(target: nat, saved: Option<nat>)
      requires Valid() && (saved.Some? ==> saved.value in fds && saved.value != target)
      modifies `fds
      ensures Valid() && fds == PutBack(old(fds), target, saved)
    {
      fds := fds - {target};
      if saved.Some? {
        fds := Dup2(fds, saved.value, target);
        fds := fds - {saved.value};
      }
    }

    /** The first move of `_component_lock`: away from 8 and 9, so that giving these to
        children cannot close the originals. */
    method Park(fd: nat) returns (moved: nat)
      requires Valid() && fd in fds
      modifies `fds
      ensures Valid() && moved == LowestFree(old(fds), PARKED)
      ensures fds == old(fds)[moved := Slot(old(fds)[fd].file, true)] - {fd}
    {
      moved := LowestFree(fds, PARKED);
      fds := Duplicated(fds, fd, PARKED);
      fds := fds - {fd};
    }

    /** One of the two descriptors given to children: what was there is kept aside. */
    method GiveChild(original: nat, target: nat) returns (saved: Option<nat>)
      requires Valid() && original in fds && original >= PARKED && target < PARKED
      modifies `fds
      ensures Valid()
      ensures saved == if target in old(fds) then Some(LowestFree(old(fds), PARKED)) else None
      ensures fds ==
        (if target in old(fds) then old(fds)[LowestFree(old(fds), PARKED) := Slot(old(fds)[target].file, false)]
         else old(fds))
        [target := Slot(old(fds)[original].file, true)]
    {
      saved := None;
      if target in fds {
        saved := Some(LowestFree(fds, PARKED));
        fds := fds[saved.value := Slot(fds[target].file, false)];
      }
      fds := Dup2(fds, original, target);
    }

    /** `acquire`, then both originals moved out of the way. */
    method AcquireParked(host: bool, lockFile: nat, leaseFile: nat, fault: Fault)
      returns (r: Result<(nat, Option<nat>)>)
      requires Valid() && lockFile !in locks && leaseFile !in locks && lockFile != leaseFile && owned == map[]
      modifies this
      ensures Valid()
      ensures r.Failed? <==> fault.AtAcquire? || fault.AtMoveLock? || (host && fault.AtMoveLease?)
      ensures fault.AtAcquire? ==> fds == old(fds)
      ensures r.Failed? && !fault.AtAcquire? ==> Refers(fds, lockFile) && !Refers(old(fds), lockFile)
      ensures r.Ok? ==> ParkedAt(old(fds), fds, r.value.0, r.value.1, lockFile, leaseFile)
      ensures r.Ok? ==> (r.value.1.Some? <==> host)
      ensures r.Ok? ==> owned == if host then map[r.value.0 := r.value.1.value] else map[]
      ensures r.Ok? ==> locks == old(locks)[lockFile := Exclusive][leaseFile := if host then Exclusive else Unlocked]
    {
      hide LowestFree, Above, Refers, ParkedAt;
      var first := Acquire(host, lockFile, leaseFile, fault.AtAcquire?);
      if first.Failed? {
        return Failed;
      }
      var original := first.value;
      if fault.AtMoveLock? {
        StillReferred(old(fds), fds, original, lockFile);
        return Failed;
      }
      ghost var both := fds;
      var lock := Park(original);
      if original !in owned {
        ParkedOne(old(fds), both, fds, original, lock, lockFile);
        return Ok((lock, None));
      }
      var originalLease := owned[original];
      ghost var one := fds;
      if fault.AtMoveLease? {
        StillReferred(old(fds), fds, lock, lockFile);
        return Failed;
      }
      var lease := Park(originalLease);
      ParkedTwo(old(fds), both, one, fds, original, originalLease, lock, lease, lockFile, leaseFile);
      owned := map[lock := lease];
      return Ok((lock, Some(lease)));
    }

    lemma StillReferred(before: Table, after: Table, fd: nat, file: nat)
      requires Valid() && after == fds && fd in after && after[fd].file == file
      requires forall k :: k in before ==> before[k].file != file
      ensures Refers(after, file) && !Refers(before, file)
    {
    }

    /** The second half of `_component_lock`: the lock at 9 and the lease at 8. */
    method GiveBoth(lock: nat, lease: Option<nat>, fault: Fault) returns (r: Result<(Option<nat>, Option<nat>)>)
      requires Valid() && lock in fds && lock >= PARKED
      requires lease.Some? ==> lease.value in fds && lease.value >= PARKED
      modifies `fds
      ensures Valid()
      ensures r.Failed? <==> fault.AtDupInstaller? || (lease.Some? && fault.AtDupLease?)
      ensures r.Ok? ==> GivenTo(old(fds), fds, lock, lease, r.value.0, r.value.1)
      // on failure nothing is lost, but the saved copy of what stood at the target stays open
      ensures r.Failed? ==> old(fds).Keys <= fds.Keys && forall fd :: fd in old(fds) ==>
        fds[fd].file == old(fds)[fd].file
      ensures r.Failed? ==> forall fd :: fd in old(fds) && fd != LOCK_FD ==> fds[fd] == old(fds)[fd]
      ensures r.Failed? ==>
        (fds.Keys == old(fds).Keys <==> (if fault.AtDupInstaller? then LOCK_FD else LEASE_FD) !in old(fds))
    {
      hide LowestFree, Above;
      if fault.AtDupInstaller? {
        if LOCK_FD in fds {
          fds := Duplicated(fds, LOCK_FD, PARKED);
        }
        return Failed;
      }
      var savedInstaller := GiveChild(lock, LOCK_FD);
      ghost var middle := fds;
      assert Given(old(fds), middle, lock, LOCK_FD, savedInstaller);
      if lease.None? {
        return Ok((savedInstaller, None));
      }
      if fault.AtDupLease? {
        if LEASE_FD in fds {
          fds := Duplicated(fds, LEASE_FD, PARKED);
        }
        RestoreChild(LOCK_FD, savedInstaller);
        return Failed;
      }
      var savedLease := GiveChild(lease.value, LEASE_FD);
      assert Given(middle, fds, lease.value, LEASE_FD, savedLease);
      return Ok((savedInstaller, savedLease));
    }

    /** `_component_lock`. */
    method ComponentLock(host: bool, lockFile: nat, leaseFile: nat, fault: Fault) returns (r: Result<Locks>)
      requires Valid() && lockFile !in locks && leaseFile !in locks && lockFile != leaseFile && owned == map[]
      modifies this
      ensures Valid()
      ensures fault.NoFault? ==> r.Ok?
      ensures r.Failed? ==>
        (Restored(old(fds), fds) <==>
          fault == AtAcquire || (fault == AtDupInstaller && 9 !in old(fds)) || (fault == AtDupLease && 8 !in old(fds)))
      ensures r.Ok? ==>
        && Taken(old(fds), fds, r.value, host, lockFile, leaseFile) && r.value.lock in fds
        && owned == if host then map[r.value.lock := r.value.lease.value] else map[]
      ensures r.Ok? ==> locks == old(locks)[lockFile := Exclusive][leaseFile := if host then Exclusive else Unlocked]
    {
      hide LowestFree, Above, GivenTo, Refers, ParkedAt, Restored, LeaksNothing, Taken;
      LeaksExactly(fds, fault);
      var parked := AcquireParked(host, lockFile, leaseFile, fault);
      if parked.Failed? {
        FailedAcquire(old(fds), fds, fault, lockFile);
        return Failed;
      }
      var lock, lease := parked.value.0, parked.value.1;
      ghost var middle := fds;
      ParkedIsOutside(old(fds), fds, lock, lease, lockFile, leaseFile);
      var given := GiveBoth(lock, lease, fault);
      if given.Failed? {
        FailedGive(old(fds), middle, fds, lock, lease, fault, lockFile, leaseFile);
        Release(lock);
        return Failed;
      }
      TakenInTwo(old(fds), middle, fds, host, lock, lease, given.value.0, given.value.1, lockFile, leaseFile);
      return Ok(Locks(lock, lease, given.value.1, given.value.0));
    }

    /** What `apply` does with the descriptors between taking the lock and its `finally`.
        `atInstall` is the table its children inherit, `atStart` the one at the API start. */
    method UnderComponentLock(host: bool, lockFile: nat, leaseFile: nat, startsApi: bool)
      returns (ghost atInstall: Table, ghost atStart: Table, taken: Locks)
      requires Valid() && lockFile !in locks && leaseFile !in locks && lockFile != leaseFile && owned == map[]
      modifies this
      ensures Valid() && owned == map[]
      ensures Restored(old(fds), fds) && !Refers(fds, lockFile) && !Refers(fds, leaseFile)
      ensures fds.Keys == old(fds).Keys
      ensures forall fd :: fd in fds ==>
        fds[fd].file == old(fds)[fd].file && (fd == 8 || fd == 9 || fds[fd] == old(fds)[fd])
      ensures locks == old(locks)[lockFile := Exclusive][leaseFile := if host then Exclusive else Unlocked]
      ensures LOCK_FD in atInstall && atInstall[LOCK_FD] == Slot(lockFile, true)
      ensures host ==> LEASE_FD in atInstall && atInstall[LEASE_FD] == Slot(leaseFile, true)
      ensures Refers(atStart, lockFile) && (startsApi ==> !Refers(atStart, leaseFile))
    {
      hide LowestFree, Above, Refers, Restored, Taken, PutBack, TakenMap;
      ghost var before := fds;
      var got := ComponentLock(host, lockFile, leaseFile, NoFault);
      taken := got.value;
      TakenPointwise(before, fds, taken, host, lockFile, leaseFile);
      atInstall := fds;
      ChildrenSee(before, atInstall, taken, lockFile, leaseFile);
      var lease := taken.lease;
      if startsApi && lease.Some? {
        owned := owned - {taken.lock};
        fds := fds - {lease.value};
        RestoreChild(LEASE_FD, taken.savedLease);
        lease := None;
      }
      atStart := fds;
      AtStart(before, atInstall, atStart, taken, lease, lockFile, leaseFile);
      Finally(before, taken, lease, lockFile, leaseFile);
      RestoredOneByOne(before, fds);
    }

    /** The `finally` of `apply`. */
    method Finally(ghost before: Table, l: Locks, lease: Option<nat>, ghost lockFile: nat, ghost leaseFile: nat)
      requires Valid() && TakenMap(before, fds, l, lease, lockFile, leaseFile) && NewFiles(before, lockFile, leaseFile)
      requires owned == if lease.Some? then map[l.lock := lease.value] else map[]
      modifies `fds, `owned
      ensures Valid() && owned == map[]
      ensures Restored(before, fds) && !Refers(fds, lockFile) && !Refers(fds, leaseFile)
    {
      hide LowestFree, Above, Refers, Restored, PutBack, TakenMap;
      ghost var start := fds;
      StillThere(before, start, l, lease, lockFile, leaseFile);
      PutBackKeeps(fds, LOCK_FD, l.savedInstaller);
      RestoreChild(LOCK_FD, l.savedInstaller);
      if lease.Some? {
        PutBackKeeps(fds, LEASE_FD, l.savedLease);
        RestoreChild(LEASE_FD, l.savedLease);
      }
      Release(l.lock);
      AtEnd(before, start, fds, l, lease, lockFile, leaseFile);
    }
  }

  /** `_restore_child_fd` on a table. */
  function PutBack(fds: Table, target: nat, saved: Option<nat>): Table
    requires saved.Some? ==> saved.value in fds && saved.value != target
  {
    if saved.Some? then fds[target := Slot(fds[saved.value].file, true)] - {saved.value} else fds - {target}
  }

  predicate IsOne(o: Option<nat>, fd: nat) {
    o == Some(fd)
  }

  /** The descriptors of a held lock are new, parked, and different from each other. */
  predicate Fresh(before: Table, l: Locks) {
    && l.lock !in before && l.lock >= PARKED
    && (l.lease.Some? ==> l.lease.value !in before && l.lease.value >= PARKED && l.lease.value != l.lock)
    && (l.savedInstaller.Some? ==>
          && l.savedInstaller.value !in before && l.savedInstaller.value >= PARKED
          && l.savedInstaller.value != l.lock && l.savedInstaller != l.lease)
    && (l.savedLease.Some? ==>
          && l.savedLease.value !in before && l.savedLease.value >= PARKED
          && l.savedLease.value != l.lock && l.savedLease != l.lease && l.savedLease != l.savedInstaller)
    && (l.savedInstaller.Some? <==> LOCK_FD in before) && (l.savedLease.Some? <==> l.lease.Some? && LEASE_FD in before)
  }

  /** The table while the lock is held, descriptor by descriptor; `lease` is what is still
      held of the lease. */
  ghost predicate TakenMap(before: Table, after: Table, l: Locks, lease: Option<nat>, lockFile: nat, leaseFile: nat) {
    && Fresh(before, l) && (lease == l.lease || lease.None?)
    && (forall fd :: fd in after <==>
          || (fd in before && fd != LOCK_FD && fd != LEASE_FD)
          || fd == l.lock || fd == LOCK_FD || IsOne(l.savedInstaller, fd) || IsOne(lease, fd)
          || (fd == LEASE_FD && (lease.Some? || LEASE_FD in before))
          || (lease.Some? && IsOne(l.savedLease, fd)))
    && after[l.lock].file == lockFile && after[LOCK_FD] == Slot(lockFile, true)
    && (l.savedInstaller.Some? ==> after[l.savedInstaller.value].file == before[LOCK_FD].file)
    && (lease.Some? ==> after[lease.value].file == leaseFile && after[LEASE_FD] == Slot(leaseFile, true))
    && (lease.Some? && l.savedLease.Some? ==> after[l.savedLease.value].file == before[LEASE_FD].file)
    && (lease.None? && LEASE_FD in before ==> after[LEASE_FD].file == before[LEASE_FD].file)
    && (forall fd :: fd in before && fd != LOCK_FD && fd != LEASE_FD ==> after[fd] == before[fd])
  }

  lemma TakenPointwise(before: Table, after: Table, l: Locks, host: bool, lockFile: nat, leaseFile: nat)
    requires Taken(before, after, l, host, lockFile, leaseFile)
    ensures TakenMap(before, after, l, l.lease, lockFile, leaseFile) && (l.lease.Some? <==> host)
  {
    var parked :| ParkedAt(before, parked, l.lock, l.lease, lockFile, leaseFile)
               && GivenTo(parked, after, l.lock, l.lease, l.savedInstaller, l.savedLease);
    if l.lease.Some? {
      var middle :| Given(parked, middle, l.lock, LOCK_FD, l.savedInstaller)
        && Given(middle, after, l.lease.value, LEASE_FD, l.savedLease);
    }
  }

  lemma ChildrenSee(before: Table, at: Table, l: Locks, lockFile: nat, leaseFile: nat)
    requires TakenMap(before, at, l, l.lease, lockFile, leaseFile)
    ensures LOCK_FD in at && at[LOCK_FD] == Slot(lockFile, true)
    ensures l.lease.Some? ==> LEASE_FD in at && at[LEASE_FD] == Slot(leaseFile, true) && l.lease.value in at
    ensures l.savedLease.Some? ==> l.savedLease.value in at && l.savedLease.value != LEASE_FD && l.savedLease != l.lease
    ensures l.lock in at && l.lock != LEASE_FD && l.lock != LOCK_FD && Some(l.lock) != l.lease
      && Some(l.lock) != l.savedLease
  {
  }

  /** Nothing of the old table is one of the two new files. */
  predicate NewFiles(before: Table, lockFile: nat, leaseFile: nat) {
    forall fd :: fd in before ==> before[fd].file != lockFile && before[fd].file != leaseFile
  }

  lemma AtStart(before: Table, at: Table, start: Table, l: Locks, lease: Option<nat>, lockFile: nat, leaseFile: nat)
    requires TakenMap(before, at, l, l.lease, lockFile, leaseFile) && NewFiles(before, lockFile, leaseFile)
      && lockFile != leaseFile
    requires l.lease.Some? ==>
      l.lease.value in at
        && (l.savedLease.Some? ==> l.savedLease.value in at - {l.lease.value} && l.savedLease.value != LEASE_FD)
    requires if lease == l.lease then start == at
             else lease.None? && l.lease.Some? && start == PutBack(at - {l.lease.value}, LEASE_FD, l.savedLease)
    ensures TakenMap(before, start, l, lease, lockFile, leaseFile)
    ensures Refers(start, lockFile) && (lease.None? ==> !Refers(start, leaseFile))
  {
    assert start[LOCK_FD].file == lockFile;
  }

  lemma StillThere(before: Table, start: Table, l: Locks, lease: Option<nat>, lockFile: nat, leaseFile: nat)
    requires TakenMap(before, start, l, lease, lockFile, leaseFile)
    ensures l.lock in start && l.lock >= PARKED && Some(l.lock) != l.savedLease && Some(l.lock) != l.savedInstaller
    ensures l.savedInstaller.Some? ==> l.savedInstaller.value in start && l.savedInstaller.value >= PARKED
    ensures lease.Some? && l.savedLease.Some? ==>
      l.savedLease.value >= PARKED && l.savedLease.value in start && l.savedLease != l.savedInstaller
    ensures lease.Some? ==> lease.value in start && lease.value >= PARKED && lease.value != l.lock
    ensures lease.Some? ==> lease != l.savedLease && lease != l.savedInstaller
  {
  }

  lemma PutBackKeeps(fds: Table, target: nat, saved: Option<nat>)
    requires saved.Some? ==> saved.value in fds && saved.value != target
    ensures forall fd :: fd in fds && fd != target && Some(fd) != saved ==> fd in PutBack(fds, target, saved)
  {
  }

  lemma AtEnd(before: Table, start: Table, end: Table, l: Locks, lease: Option<nat>, lockFile: nat, leaseFile: nat)
    requires TakenMap(before, start, l, lease, lockFile, leaseFile) && NewFiles(before, lockFile, leaseFile)
    requires l.savedInstaller.Some? ==> l.savedInstaller.value in start && l.savedInstaller.value >= PARKED
    requires lease.Some? && l.savedLease.Some? ==>
      l.savedLease.value in start && l.savedLease.value >= PARKED && l.savedLease != l.savedInstaller
    requires lease.Some? ==>
      end == PutBack(PutBack(start, LOCK_FD, l.savedInstaller), LEASE_FD, l.savedLease) - {l.lock, lease.value}
    requires lease.None? ==> end == PutBack(start, LOCK_FD, l.savedInstaller) - {l.lock}
    ensures Restored(before, end) && !Refers(end, lockFile) && !Refers(end, leaseFile)
  {
  }

  lemma ParkedOne(before: Table, both: Table, after: Table, a: nat, lock: nat, lockFile: nat)
    requires a !in before && both == before[a := Slot(lockFile, false)]
    requires lock !in both && lock >= PARKED && after == both[lock := Slot(lockFile, true)] - {a}
    ensures ParkedAt(before, after, lock, None, lockFile, 0)
    ensures forall leaseFile :: ParkedAt(before, after, lock, None, lockFile, leaseFile)
  {
  }

  lemma ParkedTwo(before: Table, both: Table, one: Table, after: Table, a: nat, b: nat, lock: nat, lease: nat,
                  lockFile: nat, leaseFile: nat)
    requires a !in before && b !in before && a != b
      && both == before[a := Slot(lockFile, false)][b := Slot(leaseFile, false)]
    requires lock !in both && lock >= PARKED && one == both[lock := Slot(lockFile, true)] - {a}
    requires lease !in one && lease >= PARKED && after == one[lease := Slot(leaseFile, true)] - {b}
    ensures ParkedAt(before, after, lock, Some(lease), lockFile, leaseFile)
  {
    assert before[lock := Slot(lockFile, true)][lease := Slot(leaseFile, true)] == after;
  }

  lemma ParkedIsOutside(before: Table, after: Table, lock: nat, lease: Option<nat>, lockFile: nat, leaseFile: nat)
    requires ParkedAt(before, after, lock, lease, lockFile, leaseFile)
    ensures lock in after && lock >= PARKED
    ensures lease.Some? ==> lease.value in after && lease.value >= PARKED && lease.value != lock
  {
  }

  lemma FailedAcquire(before: Table, after: Table, fault: Fault, file: nat)
    requires fault.AtAcquire? || fault.AtMoveLock? || fault.AtMoveLease?
    requires if fault.AtAcquire? then after == before else Refers(after, file) && !Refers(before, file)
    ensures Restored(before, after) <==> LeaksNothing(before, fault)
  {
  }

  /** Closing the originals after a failed dup2 leaves at most a saved copy open. */
  lemma FailedGive(before: Table, parked: Table, after: Table, lock: nat, lease: Option<nat>, fault: Fault,
                   lockFile: nat, leaseFile: nat)
    requires ParkedAt(before, parked, lock, lease, lockFile, leaseFile)
    requires fault.AtDupInstaller? || (lease.Some? && fault.AtDupLease?)
    requires parked.Keys <= after.Keys && forall fd :: fd in parked ==> after[fd].file == parked[fd].file
    requires forall fd :: fd in parked && fd != LOCK_FD ==> after[fd] == parked[fd]
    requires after.Keys == parked.Keys <==> (if fault.AtDupInstaller? then LOCK_FD else LEASE_FD) !in parked
    ensures lock in after && (lease.Some? ==> lease.value in after)
    ensures Restored(before, after - (if lease.Some? then {lock, lease.value} else {lock})) <==>
      LeaksNothing(before, fault)
  {
  }

  /** Whether a failing `_component_lock` gives everything back. */
  predicate LeaksNothing(before: Table, fault: Fault) {
    match fault
    case AtAcquire => true
    case AtDupInstaller => LOCK_FD !in before
    case AtDupLease => LEASE_FD !in before
    case _ => false
  }

  lemma LeaksExactly(before: Table, fault: Fault)
    ensures LeaksNothing(before, fault) <==>
      fault == AtAcquire || (fault == AtDupInstaller && 9 !in before) || (fault == AtDupLease && 8 !in before)
  {
  }

  /** The table while the component lock is held. */
  ghost predicate Taken(before: Table, after: Table, l: Locks, host: bool, lockFile: nat, leaseFile: nat) {
    && (l.lease.Some? <==> host)
    && exists parked :: ParkedAt(before, parked, l.lock, l.lease, lockFile, leaseFile)
                     && GivenTo(parked, after, l.lock, l.lease, l.savedInstaller, l.savedLease)
  }

  lemma TakenInTwo(before: Table, parked: Table, after: Table, host: bool, lock: nat, lease: Option<nat>,
                   savedInstaller: Option<nat>, savedLease: Option<nat>, lockFile: nat, leaseFile: nat)
    requires (lease.Some? <==> host) && ParkedAt(before, parked, lock, lease, lockFile, leaseFile)
    requires GivenTo(parked, after, lock, lease, savedInstaller, savedLease)
    ensures Taken(before, after, Locks(lock, lease, savedLease, savedInstaller), host, lockFile, leaseFile)
    ensures lock in after && after[lock].file == lockFile
  {
  }

  /** What stood at `target` kept at `saved`, and `original`'s file there instead. */
  predicate Given(before: Table, after: Table, original: nat, target: nat, saved: Option<nat>) {
    && original in before && (saved.Some? <==> target in before)
    && (saved.Some? ==> saved.value !in before && saved.value >= PARKED)
    && after == (if saved.Some? then before[saved.value := Slot(before[target].file, false)] else before)
                [target := Slot(before[original].file, true)]
  }

  ghost predicate GivenTo(before: Table, after: Table, lock: nat, lease: Option<nat>, savedInstaller: Option<nat>,
                          savedLease: Option<nat>) {
    if lease.None? then savedLease.None? && Given(before, after, lock, LOCK_FD, savedInstaller)
    else
      exists middle ::
        Given(before, middle, lock, LOCK_FD, savedInstaller) && Given(middle, after, lease.value, LEASE_FD, savedLease)
  }

  /** The table with the lock, and perhaps the lease, parked outside it. */
  predicate ParkedAt(before: Table, after: Table, lock: nat, lease: Option<nat>, lockFile: nat, leaseFile: nat) {
    && lock !in before && lock >= PARKED
    && (lease.Some? ==> lease.value !in before && lease.value >= PARKED && lease.value != lock)
    && after == (if lease.Some? then before[lock := Slot(lockFile, true)][lease.value := Slot(leaseFile, true)]
                 else before[lock := Slot(lockFile, true)])
  }

  // ----- the lock runner ------------------------------------------------------------------------------------

  /** The table `_run` reaches exec with, when every call succeeds: the component lock opened
      first, the lease after it, then both moved to the numbers the installer expects. */
  function RunTable(fds: Table, host: bool, lockFile: nat, leaseFile: nat): Table {
    var lock := LowestFree(fds, 0);
    var first := Opened(fds, lockFile);
    var leased := if host then MoveTo(Opened(first, leaseFile), LowestFree(first, 0), LEASE_FD) else first;
    if lock in leased then MoveTo(leased, lock, LOCK_FD) else leased
  }

  /** dup2 to the target and close of the original, or only `set_inheritable` in place. */
  function MoveTo(fds: Table, fd: nat, target: nat): Table
    requires fd in fds
  {
    if fd == target then fds[fd := Slot(fds[fd].file, true)] else Dup2(fds, fd, target) - {fd}
  }

  class Runner {
    var fds: Table

    /** `_run` up to exec. */
    method Run(host: bool, lockFile: nat, leaseFile: nat)
      modifies this
      ensures fds == RunTable(old(fds), host, lockFile, leaseFile)
    {
      var fd := LowestFree(fds, 0);
      fds := Opened(fds, lockFile);
      if host {
        var lease := LowestFree(fds, 0);
        fds := Opened(fds, leaseFile);
        if lease != LEASE_FD {
          fds := Dup2(fds, lease, LEASE_FD);
          fds := fds - {lease};
        } else {
          fds := fds[lease := fds[lease].(inheritable := true)];
        }
      }
      assert fd in fds;
      if fd != LOCK_FD {
        fds := Dup2(fds, fd, LOCK_FD);
        fds := fds - {fd};
      } else {
        fds := fds[fd := fds[fd].(inheritable := true)];
      }
    }
  }

  /** MAIN: the installer starts with the component lock at 9 exactly if the lock did not
      open as descriptor 8 on a host with a lease; otherwise 9 holds the lease and nothing
      refers to the component lock any more. */
  lemma RunHandsOverTheLock(fds: Table, host: bool, lockFile: nat, leaseFile: nat)
    requires lockFile != leaseFile && forall fd :: fd in fds ==> fds[fd].file != lockFile && fds[fd].file != leaseFile
    ensures var at := RunTable(fds, host, lockFile, leaseFile);
      LOCK_FD in at && (at[LOCK_FD] == Slot(lockFile, true) <==> !(host && LowestFree(fds, 0) == LEASE_FD))
    ensures host && LowestFree(fds, 0) == LEASE_FD ==>
      var at := RunTable(fds, host, lockFile, leaseFile);
      at[LOCK_FD] == Slot(leaseFile, true) && !Refers(at, lockFile) && LEASE_FD !in at
    ensures host && LowestFree(fds, 0) != LEASE_FD ==>
      var at := RunTable(fds, host, lockFile, leaseFile);
      LEASE_FD in at && at[LEASE_FD] == Slot(leaseFile, true)
  {
  }
}
