/** The sliding-window rate gate of `stealthsurf.py`: what it admits over any run of calls. */
module RateGate {
  datatype Option<T> = None | Some(value: T)

  const CAP: real := 3600.0

  /** What the gate remembers of one account and bucket. */
  datatype Slot = Slot(events: seq<real>, blocked: Option<real>, quota: Option<(int, real)>)

  const Idle := Slot([], None, None)

  datatype Reason = Quota | Blocked | Window
  datatype Verdict = Admitted | Limited(reason: Reason, hint: real)

  function Min(a: real, b: real): real {
    if a <= b then a else b
  }

  function Max(a: real, b: real): real {
    if a >= b then a else b
  }

  // ----- one call ------------------------------------------------------------------------------------

  /** The events a call at `now` no longer counts are dropped from the front. */
  function Recent(events: seq<real>, window: real, now: real): seq<real> {
    if events != [] && now - events[0] >= window then Recent(events[1..], window, now) else events
  }

  /** What is left is a suffix that starts inside the window; what is gone is outside it. */
  lemma {:induction false} RecentIsASuffix(events: seq<real>, window: real, now: real)
    ensures var r := Recent(events, window, now);
      && |r| <= |events| && r == events[|events| - |r|..]
      && (r != [] ==> now - r[0] < window)
      && forall i :: 0 <= i < |events| - |r| ==> now - events[i] >= window
  {
    if events != [] && now - events[0] >= window {
      RecentIsASuffix(events[1..], window, now);
      var r := Recent(events, window, now);
      forall i | 0 <= i < |events| - |r| ensures now - events[i] >= window {
        if i > 0 {
          assert events[1..][i - 1] == events[i];
        }
      }
    }
  }

  predicate QuotaRefuses(s: Slot, now: real) {
    s.quota.Some? && now < s.quota.value.1 && s.quota.value.0 <= 0
  }

  /** The quota after a call that it does not refuse. */
  function SpendQuota(q: Option<(int, real)>, now: real): Option<(int, real)> {
    if q.Some? && now < q.value.1 then Some((q.value.0 - 1, q.value.1)) else None
  }

  function BlockedUntil(s: Slot): real {
    if s.blocked.Some? then s.blocked.value else 0.0
  }

  function Admit(s: Slot, limit: nat, window: real, now: real): (Slot, Verdict)
    requires limit > 0
  {
    if QuotaRefuses(s, now) then (s, Limited(Quota, Min(CAP, s.quota.value.1 - now)))
    else
      var spent := s.(quota := SpendQuota(s.quota, now));
      if now < BlockedUntil(s) then (spent, Limited(Blocked, Min(CAP, BlockedUntil(s) - now)))
      else
        var recent := Recent(s.events, window, now);
        if |recent| >= limit then
          (spent.(blocked := None, events := recent), Limited(Window, Max(0.0, window - (now - recent[0]))))
        else (spent.(blocked := None, events := recent + [now]), Admitted)
  }

  function Block(s: Slot, now: real, seconds: real): Slot {
    s.(blocked := Some(Max(BlockedUntil(s), now + Min(CAP, Max(0.0, seconds)))))
  }

  function ObserveQuota(s: Slot, remaining: int, resetAt: real): Slot {
    s.(quota := Some((if remaining > 0 then remaining else 0, resetAt)))
  }

  // ----- the gate --------------------------------------------------------------------------------------

  datatype Key = Key(account: string, bucket: string)

  /** The loop that pops old events. */
  method DropOld(events: seq<real>, window: real, now: real) returns (recent: seq<real>)
    ensures recent == Recent(events, window, now)
  {
    recent := events;
    while recent != [] && now - recent[0] >= window
      invariant Recent(recent, window, now) == Recent(events, window, now)
      decreases |recent|
    {
      recent := recent[1..];
    }
  }

  /** The three dictionaries of the gate, keyed alike, as one map of slots. */
  class Gate {
    var slots: map<Key, Slot>

    constructor ()
      ensures slots == map[]
    {
      slots := map[];
    }

    function At(key: Key): Slot
      reads this
    {
      if key in slots then slots[key] else Idle
    }

    method BlockKey(key: Key, now: real, seconds: real)
      modifies this
      ensures slots == old(slots)[key := Block(old(At(key)), now, seconds)]
    {
      var until := now + Min(CAP, Max(0.0, seconds));
      var slot := At(key);
      slots := slots[key := slot.(blocked := Some(Max(if slot.blocked.Some? then slot.blocked.value else 0.0, until)))];
    }

    method ObserveKey(key: Key, remaining: int, resetAt: real)
      modifies this
      ensures slots == old(slots)[key := ObserveQuota(old(At(key)), remaining, resetAt)]
    {
      slots := slots[key := At(key).(quota := Some((if remaining > 0 then remaining else 0, resetAt)))];
    }

    method AdmitKey(key: Key, limit: nat, window: real, now: real) returns (v: Verdict)
      requires limit > 0
      modifies this
      ensures v == Admit(old(At(key)), limit, window, now).1
      ensures slots == old(slots)[key := Admit(old(At(key)), limit, window, now).0]
      ensures old(At(key)).quota.Some? && now >= old(At(key)).quota.value.1 ==>
        At(key).quota == None && (v.Admitted? || v.reason != Quota)
    {
      hide Recent, Min, Max;
      var slot := At(key);
      var quota := slot.quota;
      if quota.Some? {
        var (remaining, resetAt) := quota.value;
        if now >= resetAt {
          quota := None;
        } else if remaining <= 0 {
          slots := slots[key := slot];
          return Limited(Quota, Min(CAP, resetAt - now));
        } else {
          quota := Some((remaining - 1, resetAt));
        }
      }
      if now < BlockedUntil(slot) {
        slots := slots[key := slot.(quota := quota)];
        return Limited(Blocked, Min(CAP, BlockedUntil(slot) - now));
      }
      var recent := DropOld(slot.events, window, now);
      if |recent| >= limit {
        slots := slots[key := Slot(recent, None, quota)];
        return Limited(Window, Max(0.0, window - (now - recent[0])));
      }
      slots := slots[key := Slot(recent + [now], None, quota)];
      return Admitted;
    }
  }

  // ----- any run of calls on one key ------------------------------------------------------------------------

  datatype Call = Admission(now: real) | Blocking(now: real, seconds: real) | Observing(remaining: int, resetAt: real)

  function Apply(s: Slot, c: Call, limit: nat, window: real): Slot
    requires limit > 0
  {
    match c
    case Admission(now) => Admit(s, limit, window, now).0
    case Blocking(now, seconds) => Block(s, now, seconds)
    case Observing(remaining, resetAt) => ObserveQuota(s, remaining, resetAt)
  }

  predicate IsAdmitted(s: Slot, c: Call, limit: nat, window: real)
    requires limit > 0
  {
    c.Admission? && Admit(s, limit, window, c.now).1.Admitted?
  }

  /** The state after a run, and the times it admitted. */
  function After(s: Slot, calls: seq<Call>, limit: nat, window: real): Slot
    requires limit > 0
  {
    if calls == [] then s else Apply(After(s, calls[..|calls| - 1], limit, window), calls[|calls| - 1], limit, window)
  }

  function AdmittedTimes(s: Slot, calls: seq<Call>, limit: nat, window: real): seq<real>
    requires limit > 0
  {
    if calls == [] then []
    else
      var n := |calls| - 1;
      AdmittedTimes(s, calls[..n], limit, window)
      + if IsAdmitted(After(s, calls[..n], limit, window), calls[n], limit, window) then [calls[n].now] else []
  }

  /** Admissions are asked for at nondecreasing times, none after `end`. */
  predicate Ordered(calls: seq<Call>, end: real) {
    if calls == [] then true
    else
      var c := calls[|calls| - 1];
      Ordered(calls[..|calls| - 1], if c.Admission? then c.now else end) && (c.Admission? ==> c.now <= end)
  }

  /** The remembered events are the last admissions, older ones being out of the window,
      and no admission comes within a window of the one `limit` places before. */
  ghost predicate Spaced(s: Slot, times: seq<real>, limit: nat, window: real, end: real) {
    && |s.events| <= |times| && s.events == times[|times| - |s.events|..] && |s.events| <= limit
    && (forall i :: 0 <= i < |times| - |s.events| ==> end - times[i] >= window)
    && (forall i, j :: 0 <= i < j < |times| ==> times[i] <= times[j])
    && (forall i :: 0 <= i < |times| ==> times[i] <= end)
    && (forall i {:trigger times[i]} :: 0 <= i && i + limit < |times| ==> times[i + limit] - times[i] >= window)
  }

  /** What a call at `now` drops is out of the window, and so is all that was dropped before. */
  lemma DroppedIsOld(s: Slot, times: seq<real>, limit: nat, window: real, end: real, now: real)
    requires Spaced(s, times, limit, window, end) && end <= now
    ensures var recent := Recent(s.events, window, now);
      && |recent| <= |s.events| && |recent| <= |times| && recent == times[|times| - |recent|..]
      && forall i :: 0 <= i < |times| - |recent| ==> now - times[i] >= window
  {
    hide Recent;
    RecentIsASuffix(s.events, window, now);
    var recent := Recent(s.events, window, now);
    var n, e := |times|, |s.events|;
    assert forall i :: n - e <= i < n ==> s.events[i - (n - e)] == times[i];
    forall i | 0 <= i < n - |recent| ensures now - times[i] >= window {
      if i >= n - e {
        assert now - s.events[i - (n - e)] >= window;
      }
    }
  }

  lemma AppendKeepsSpacing(recent: seq<real>, times: seq<real>, limit: nat, window: real, now: real, s: Slot)
    requires limit > |recent| && |recent| <= |times| && recent == times[|times| - |recent|..]
      && s.events == recent + [now]
    requires forall i :: 0 <= i < |times| - |recent| ==> now - times[i] >= window
    requires forall i, j :: 0 <= i < j < |times| ==> times[i] <= times[j]
    requires forall i :: 0 <= i < |times| ==> times[i] <= now
    requires forall i {:trigger times[i]} :: 0 <= i && i + limit < |times| ==> times[i + limit] - times[i] >= window
    ensures Spaced(s, times + [now], limit, window, now)
  {
  }

  lemma AdmissionKeepsSpacing(s: Slot, times: seq<real>, limit: nat, window: real, end: real, now: real)
    requires limit > 0 && Spaced(s, times, limit, window, end) && end <= now
    ensures Spaced(Admit(s, limit, window, now).0,
      times + (if Admit(s, limit, window, now).1.Admitted? then [now] else []), limit, window, now)
  {
    hide Recent;
    var after, v := Admit(s, limit, window, now).0, Admit(s, limit, window, now).1;
    DroppedIsOld(s, times, limit, window, end, now);
    if v.Admitted? {
      AppendKeepsSpacing(Recent(s.events, window, now), times, limit, window, now, after);
    } else {
      assert times + [] == times;
    }
  }

  lemma {:induction false} RunKeepsSpacing(calls: seq<Call>, limit: nat, window: real, end: real)
    requires limit > 0 && Ordered(calls, end)
    ensures Spaced(After(Idle, calls, limit, window), AdmittedTimes(Idle, calls, limit, window), limit, window, end)
  {
    hide Recent, Spaced;
    if calls == [] {
      NothingIsSpaced(limit, window, end);
    } else {
      var n := |calls| - 1;
      var c := calls[n];
      var before, times := After(Idle, calls[..n], limit, window), AdmittedTimes(Idle, calls[..n], limit, window);
      if c.Admission? {
        RunKeepsSpacing(calls[..n], limit, window, c.now);
        AdmissionKeepsSpacing(before, times, limit, window, c.now, c.now);
        SpacedLater(After(Idle, calls, limit, window), AdmittedTimes(Idle, calls, limit, window), limit, window, c.now,
          end);
      } else {
        RunKeepsSpacing(calls[..n], limit, window, end);
        assert times + [] == times;
        SameEventsSpaced(before, Apply(before, c, limit, window), times, limit, window, end);
      }
    }
  }

  lemma NothingIsSpaced(limit: nat, window: real, end: real)
    ensures Spaced(Idle, [], limit, window, end)
  {
  }

  lemma SameEventsSpaced(s: Slot, t: Slot, times: seq<real>, limit: nat, window: real, end: real)
    requires Spaced(s, times, limit, window, end) && t.events == s.events
    ensures Spaced(t, times, limit, window, end)
  {
  }

  lemma SpacedLater(s: Slot, times: seq<real>, limit: nat, window: real, end: real, later: real)
    requires Spaced(s, times, limit, window, end) && end <= later
    ensures Spaced(s, times, limit, window, later)
  {
  }

  /** Admissions in [from, from + length). */
  function Within(times: seq<real>, from: real, length: real): nat {
    if times == [] then 0
    else Within(times[..|times| - 1], from, length) + if from <= times[|times| - 1] < from + length then 1 else 0
  }

  lemma {:induction false} WithinIsBounded(times: seq<real>, limit: nat, window: real, from: real)
    requires limit > 0 && forall i, j :: 0 <= i < j < |times| ==> times[i] <= times[j]
    requires forall i {:trigger times[i]} :: 0 <= i && i + limit < |times| ==> times[i + limit] - times[i] >= window
    ensures Within(times, from, window) <= limit && Within(times, from, window) <= |times|
    ensures times != [] && times[|times| - 1] < from + window ==>
      forall i :: 0 <= i < |times| ==> (times[i] < from <==> i < |times| - Within(times, from, window))
  {
    if times != [] {
      var n := |times| - 1;
      WithinIsBounded(times[..n], limit, window, from);
      var before := Within(times[..n], from, window);
      if from <= times[n] < from + window {
        assert n > 0 ==> times[n - 1] < from + window;
        assert before == limit ==> times[n - limit + limit] - times[n - limit] >= window;
      }
    }
  }

  /** MAIN: over any calls with nondecreasing times, at most `limit` requests of a key are
      admitted in any half-open interval as long as the window. */
  lemma AtMostLimitPerWindow(calls: seq<Call>, limit: nat, window: real, end: real, from: real)
    requires limit > 0 && Ordered(calls, end)
    ensures Within(AdmittedTimes(Idle, calls, limit, window), from, window) <= limit
  {
    RunKeepsSpacing(calls, limit, window, end);
    WithinIsBounded(AdmittedTimes(Idle, calls, limit, window), limit, window, from);
  }

  // ----- hints, blocks and quotas --------------------------------------------------------------------------------

  /** The check of the window alone. */
  predicate PassesWindow(s: Slot, limit: nat, window: real, now: real) {
    |Recent(s.events, window, now)| < limit
  }

  lemma {:induction false} RecentLater(events: seq<real>, window: real, now: real, later: real)
    requires now <= later
    ensures Recent(Recent(events, window, now), window, later) == Recent(events, window, later)
  {
    if events != [] && now - events[0] >= window {
      RecentLater(events[1..], window, now, later);
    }
  }

  /** MAIN: the hint of a window rejection is tight: any earlier retry fails the window
      check, and a retry at that very instant passes it. */
  lemma WindowHintIsTight(s: Slot, limit: nat, window: real, now: real, later: real)
    requires 0 < limit && |s.events| <= limit && window > 0.0
    requires Admit(s, limit, window, now).1.Limited? && Admit(s, limit, window, now).1.reason.Window?
    ensures var after, hint := Admit(s, limit, window, now).0, Admit(s, limit, window, now).1.hint;
      && hint > 0.0
      && (now <= later < now + hint ==> !PassesWindow(after, limit, window, later))
      && PassesWindow(after, limit, window, now + hint)
  {
    RecentIsASuffix(s.events, window, now);
    var after, hint := Admit(s, limit, window, now).0, Admit(s, limit, window, now).1.hint;
    RecentIsASuffix(after.events[1..], window, now + hint);
  }

  /** MAIN: while a block holds nothing is admitted, whatever other calls come between, and
      for seconds up to the cap it holds exactly that long past its own time: the delay
      that Retry-After names in delay-seconds form (section 10.2.3 of RFC 9110). */
  lemma {:induction false} NothingDuringABlock(s: Slot, now: real, seconds: real, calls: seq<Call>, limit: nat,
                                               window: real)
    requires limit > 0
    requires forall c :: c in calls && c.Admission? ==> now <= c.now < now + Min(CAP, Max(0.0, seconds))
    ensures AdmittedTimes(Block(s, now, seconds), calls, limit, window) == []
    ensures BlockedUntil(After(Block(s, now, seconds), calls, limit, window)) >= now + Min(CAP, Max(0.0, seconds))
  {
    if calls != [] {
      var n := |calls| - 1;
      assert forall c :: c in calls[..n] ==> c in calls;
      NothingDuringABlock(s, now, seconds, calls[..n], limit, window);
      assert calls[n] in calls;
    }
  }

  function Admissions(calls: seq<Call>): nat {
    if calls == [] then 0 else Admissions(calls[..|calls| - 1]) + if calls[|calls| - 1].Admission? then 1 else 0
  }

  /** MAIN: until its reset an observed quota bounds what is admitted; every admission that
      is asked for spends one unit while there is one, refused or not. */
  lemma {:induction false} QuotaBoundsAdmissions(s: Slot, remaining: int, resetAt: real, calls: seq<Call>, limit: nat,
                                                 window: real)
    requires limit > 0 && remaining >= 0
    requires forall c :: c in calls ==> !c.Observing? && (c.Admission? ==> c.now < resetAt)
    ensures After(ObserveQuota(s, remaining, resetAt), calls, limit, window).quota
         == Some((if Admissions(calls) < remaining then remaining - Admissions(calls) else 0, resetAt))
    ensures |AdmittedTimes(ObserveQuota(s, remaining, resetAt), calls, limit, window)| <= remaining
    ensures |AdmittedTimes(ObserveQuota(s, remaining, resetAt), calls, limit, window)| <= Admissions(calls)
  {
    if calls != [] {
      var n := |calls| - 1;
      assert forall c :: c in calls[..n] ==> c in calls;
      QuotaBoundsAdmissions(s, remaining, resetAt, calls[..n], limit, window);
      assert calls[n] in calls;
    }
  }

  /** A refused admission spends a quota unit exactly when a quota is in force and has one:
      the quota is charged before the block and the window are looked at. */
  lemma RefusalSpendsQuotaExactly(s: Slot, limit: nat, window: real, now: real)
    requires limit > 0 && Admit(s, limit, window, now).1.Limited?
    ensures var after := Admit(s, limit, window, now).0.quota;
      (s.quota.Some? && after.Some? && after.value.0 < s.quota.value.0)
      <==> s.quota.Some? && now < s.quota.value.1 && s.quota.value.0 > 0
    ensures s.quota.Some? && now < s.quota.value.1 && s.quota.value.0 > 0 ==>
      Admit(s, limit, window, now).0.quota == Some((s.quota.value.0 - 1, s.quota.value.1))
  {
    hide Recent;
  }

  /** For instance the only one. */
  lemma RejectionCanSpendQuota()
    ensures var s := ObserveQuota(Block(Idle, 0.0, 5.0), 1, 10.0);
      && Admit(s, 1, 1.0, 1.0).1 == Limited(Blocked, 4.0)
      && Admit(Admit(s, 1, 1.0, 1.0).0, 1, 1.0, 6.0).1 == Limited(Quota, 4.0)
      && Admit(s, 1, 1.0, 6.0).1 == Admitted
  {
  }

  // ----- when a call is admitted ---------------------------------------------------------------------------------

  /** The last observation of the quota. */
  predicate LastObserved(calls: seq<Call>, m: int) {
    0 <= m < |calls| && calls[m].Observing? && forall k :: m < k < |calls| ==> !calls[k].Observing?
  }

  /** No observed quota that is still in force is used up by the calls that came after it. */
  ghost predicate QuotaLasts(calls: seq<Call>, now: real) {
    forall m :: LastObserved(calls, m) && now < calls[m].resetAt ==> Admissions(calls[m + 1..]) < calls[m].remaining
  }

  /** No block reaches past `now`; without one the gate compares with 0.0. */
  ghost predicate Unblocked(calls: seq<Call>, now: real) {
    && now >= 0.0
    && forall c :: c in calls && c.Blocking? ==> c.now + Min(3600.0, Max(0.0, c.seconds)) <= now
  }

  /** How many of the times are in (now - window, now]. */
  function InWindow(times: seq<real>, window: real, now: real): nat {
    if times == [] then 0
    else
      var t := times[|times| - 1];
      InWindow(times[..|times| - 1], window, now) + if now - window < t <= now then 1 else 0
  }

  /** What a slot remembers of the blocks, as far as a call at `now` or later can tell. */
  lemma {:induction false} BlocksAreKept(calls: seq<Call>, limit: nat, window: real, now: real)
    requires limit > 0 && Ordered(calls, now)
    ensures now >= BlockedUntil(After(Idle, calls, limit, window)) <==> Unblocked(calls, now)
  {
    hide Recent;
    if calls != [] {
      var n := |calls| - 1;
      var c := calls[n];
      assert forall x :: x in calls <==> x in calls[..n] || x == c;
      if c.Admission? {
        LaterIsOrdered(calls[..n], c.now, now);
        BlocksAreKept(calls[..n], limit, window, c.now);
      }
      BlocksAreKept(calls[..n], limit, window, now);
    }
  }

  lemma LaterIsOrdered(calls: seq<Call>, end: real, later: real)
    requires Ordered(calls, end) && end <= later
    ensures Ordered(calls, later)
    decreases |calls|
  {
    if calls != [] && !calls[|calls| - 1].Admission? {
      LaterIsOrdered(calls[..|calls| - 1], end, later);
    }
  }

  /** What a slot remembers of the quota. */
  ghost predicate QuotaKept(s: Slot, calls: seq<Call>, now: real) {
    && (forall m :: LastObserved(calls, m) && now < calls[m].resetAt ==>
          var left := calls[m].remaining - Admissions(calls[m + 1..]);
          s.quota == Some((if left > 0 then left else 0, calls[m].resetAt)))
    && (s.quota.Some? && now < s.quota.value.1 ==>
          exists m :: LastObserved(calls, m) && calls[m].resetAt == s.quota.value.1)
  }

  lemma AdmissionsSnoc(calls: seq<Call>, m: nat)
    requires m < |calls|
    ensures Admissions(calls[m..]) ==
      Admissions(calls[..|calls| - 1][m..]) + if calls[|calls| - 1].Admission? then 1 else 0
  {
    assert calls[m..][..|calls[m..]| - 1] == calls[..|calls| - 1][m..];
  }

  lemma ObservationIsKept(s: Slot, calls: seq<Call>, now: real)
    requires calls != [] && calls[|calls| - 1].Observing?
    ensures QuotaKept(ObserveQuota(s, calls[|calls| - 1].remaining, calls[|calls| - 1].resetAt), calls, now)
  {
    assert LastObserved(calls, |calls| - 1) && calls[|calls|..] == [];
  }

  /** A call that observes nothing, and what it does to the quota. */
  lemma QuotaIsKeptBy(s: Slot, t: Slot, calls: seq<Call>, now: real)
    requires calls != [] && !calls[|calls| - 1].Observing? && QuotaKept(s, calls[..|calls| - 1], now)
    requires !calls[|calls| - 1].Admission? ==> t.quota == s.quota
    requires calls[|calls| - 1].Admission? ==>
      && calls[|calls| - 1].now <= now
      && (s.quota.Some? && calls[|calls| - 1].now < s.quota.value.1 ==>
            t.quota == Some((if s.quota.value.0 <= 0 then s.quota.value.0 else s.quota.value.0 - 1, s.quota.value.1)))
      && (t.quota.Some? ==> s.quota.Some? && t.quota.value.1 == s.quota.value.1)
    ensures QuotaKept(t, calls, now)
  {
    hide Admissions;
    var before := calls[..|calls| - 1];
    assert forall m :: LastObserved(calls, m) <==> LastObserved(before, m);
    forall m | LastObserved(calls, m) && now < calls[m].resetAt
      ensures var left := calls[m].remaining - Admissions(calls[m + 1..]);
        t.quota == Some((if left > 0 then left else 0, calls[m].resetAt))
    {
      assert LastObserved(before, m);
      AdmissionsSnoc(calls, m + 1);
    }
  }

  lemma {:induction false} QuotaIsKept(calls: seq<Call>, limit: nat, window: real, now: real)
    requires limit > 0 && Ordered(calls, now)
    ensures QuotaKept(After(Idle, calls, limit, window), calls, now)
  {
    hide Recent, QuotaKept;
    if calls == [] {
      NothingObserved(now);
    } else {
      var n := |calls| - 1;
      var c := calls[n];
      var s := After(Idle, calls[..n], limit, window);
      if c.Observing? {
        ObservationIsKept(s, calls, now);
      } else {
        if c.Admission? {
          LaterIsOrdered(calls[..n], c.now, now);
        }
        QuotaIsKept(calls[..n], limit, window, now);
        QuotaIsKeptBy(s, Apply(s, c, limit, window), calls, now);
      }
    }
  }

  lemma NothingObserved(now: real)
    ensures QuotaKept(Idle, [], now)
  {
  }

  lemma SpacedInOrder(s: Slot, times: seq<real>, limit: nat, window: real, end: real)
    requires Spaced(s, times, limit, window, end)
    ensures forall i, j :: 0 <= i < j < |times| ==> times[i] <= times[j]
    ensures forall i :: 0 <= i < |times| ==> times[i] <= end
  {
  }

  lemma {:induction false} InWindowIsRecent(times: seq<real>, k: nat, window: real, now: real)
    requires k <= |times| && forall i :: 0 <= i < k ==> now - times[i] >= window
    requires forall i :: k <= i < |times| ==> now - times[i] < window && times[i] <= now
    ensures InWindow(times, window, now) == |times| - k
  {
    if times != [] {
      InWindowIsRecent(times[..|times| - 1], if k == |times| then k - 1 else k, window, now);
    }
  }

  lemma WindowIsKept(calls: seq<Call>, limit: nat, window: real, now: real)
    requires limit > 0 && Ordered(calls, now)
    ensures |Recent(After(Idle, calls, limit, window).events, window, now)|
         == InWindow(AdmittedTimes(Idle, calls, limit, window), window, now)
  {
    hide Recent, After, AdmittedTimes, Spaced, InWindow;
    var s, times := After(Idle, calls, limit, window), AdmittedTimes(Idle, calls, limit, window);
    RunKeepsSpacing(calls, limit, window, now);
    SpacedInOrder(s, times, limit, window, now);
    DroppedIsOld(s, times, limit, window, now, now);
    RecentIsASuffix(s.events, window, now);
    var recent := Recent(s.events, window, now);
    var k := |times| - |recent|;
    forall i | k <= i < |times| ensures now - times[i] < window {
      assert times[i] == recent[i - k] && recent[0] == times[k] <= times[i];
    }
    InWindowIsRecent(times, k, window, now);
  }

  /** MAIN: after any calls in order, one at `now` is admitted if and only if no quota in force
      is used up, no block reaches past `now`, and fewer than `limit` of the times admitted so
      far are in (now - window, now]; a refusal names the first of the three that fails. */
  lemma AdmittedExactly(calls: seq<Call>, limit: nat, window: real, now: real)
    requires limit > 0 && Ordered(calls, now)
    ensures var v := Admit(After(Idle, calls, limit, window), limit, window, now).1;
      && (v.Admitted? <==>
            QuotaLasts(calls, now) && Unblocked(calls, now)
              && InWindow(AdmittedTimes(Idle, calls, limit, window), window, now) < limit)
      && (v.Limited? && v.reason == Quota <==> !QuotaLasts(calls, now))
      && (v.Limited? && v.reason == Blocked <==> QuotaLasts(calls, now) && !Unblocked(calls, now))
  {
    hide Recent, After, AdmittedTimes, Unblocked, InWindow;
    BlocksAreKept(calls, limit, window, now);
    QuotaIsKept(calls, limit, window, now);
    WindowIsKept(calls, limit, window, now);
  }
}
