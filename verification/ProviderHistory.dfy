/** What the provider tables keep of everything that was ever committed to them. */
module ProviderHistory {
  import opened Outcomes
  import opened ProviderTables

  // ----- sessions -------------------------------------------------------------------------------------

  lemma {:induction false} AllAppends(t: Tables, a: seq<Op>, b: seq<Op>)
    requires All(t, a).done
    ensures All(t, a + b) == All(All(t, a).tables, b)
    decreases |a|
  {
    hide Perform;
    if a == [] {
      assert a + b == b;
    } else {
      assert (a + b)[1..] == a[1..] + b;
      AllAppends(Perform(t, a[0]).tables, a[1..], b);
    }
  }

  /** MAIN: whatever the sessions, the tables are what the committed calls alone make of them,
      one after the other. */
  lemma {:induction false} SessionsAreSerial(t: Tables, sessions: seq<seq<Op>>)
    ensures All(t, Committed(t, sessions)) == Effect(Sessions(t, sessions), true)
    decreases |sessions|
  {
    hide All;
    if sessions == [] {
      NoCalls(t);
    } else {
      var e := All(t, sessions[0]);
      if e.done {
        SessionsAreSerial(e.tables, sessions[1..]);
        AllAppends(t, sessions[0], Committed(e.tables, sessions[1..]));
      } else {
        SessionsAreSerial(t, sessions[1..]);
      }
    }
  }

  lemma NoCalls(t: Tables)
    ensures All(t, []) == Effect(t, true)
  {
  }

  // ----- members: never lost -----------------------------------------------------------------------------

  /** The rows an item list is about. */
  ghost predicate Names(source: string, items: seq<Item>, key: MemberKey) {
    exists i :: 0 <= i < |items| && Identity(source, items[i]) == Some(key)
  }

  /** What a call may put a row in for. */
  ghost predicate Mentions(op: Op, key: MemberKey) {
    match op
    case SaveMembers(source, items, _, _, _) => Names(source, items, key)
    case Discovery(source, _, location, protocol, items, _, _) => Names(source, Placed(items, location, protocol), key)
    case Config(_, _, _, _, _, _, _, _) => ConfigKey(op) == Some(key)
    case _ => false
  }

  function Clock(op: Op): real {
    match op
    case SaveBinding(_, _, _, now) => now
    case SaveMembers(_, _, _, _, now) => now
    case Discovery(_, _, _, _, _, _, now) => now
    case Config(_, _, _, _, _, _, _, now) => now
    case Observation(_, _, _, _, _, now) => now
    case Preference(_, _, _, _) => 0.0
    case Applied(_, served, _) => served.at
  }

  /** What must outlive every discovery: when the member was first seen, and the preferences. */
  datatype Kept = Kept(firstSeen: real, auto: bool, priority: int)

  function KeptOf(members: Members, key: MemberKey): Option<Kept> {
    if key in members then Some(Kept(members[key].firstSeen, members[key].auto, members[key].priority)) else None
  }

  /** First seen by the first call that mentions it; afterwards only its own preference calls
      change anything. */
  ghost function KeptAfter(kept: Option<Kept>, op: Op, key: MemberKey): Option<Kept> {
    if kept.None? then if Mentions(op, key) then Some(Kept(Clock(op), true, 0)) else None
    else if op.Preference? && op.key == key then
      Some(kept.value.(auto := if op.auto.Some? then op.auto.value else kept.value.auto,
                       priority := if op.priority.Some? then op.priority.value else kept.value.priority))
    else kept
  }

  ghost function KeptThrough(kept: Option<Kept>, ops: seq<Op>, key: MemberKey): Option<Kept>
    decreases |ops|
  {
    if ops == [] then kept else KeptThrough(KeptAfter(kept, ops[0], key), ops[1..], key)
  }

  /** The rows after a list of items went in: exactly the rows named are advertised anew, and
      what must be kept is kept. */
  lemma {:induction false} SavedRows(members: Members, source: string, items: seq<Item>, revision: int, now: real,
                                     key: MemberKey)
    requires AllSaved(members, true, source, items, revision, now).1
    ensures var after := AllSaved(members, true, source, items, revision, now).0;
      && (Names(source, items, key) ==> key in after && after[key].advertised && key.source == source)
      && (!Names(source, items, key) ==> MemberAt(after, key) == MemberAt(members, key))
      && KeptOf(after, key) ==
           (if key !in members && Names(source, items, key) then Some(Kept(now, true, 0)) else KeptOf(members, key))
    decreases |items|
  {
    if items != [] {
      var next := OneSaved(members, source, items[0], revision, now);
      SavedRows(next, source, items[1..], revision, now, key);
      NamesFirst(source, items, key);
    }
  }

  lemma NamesFirst(source: string, items: seq<Item>, key: MemberKey)
    requires items != []
    ensures Names(source, items, key) <==> Identity(source, items[0]) == Some(key) || Names(source, items[1..], key)
  {
    hide Identity;
    if Names(source, items[1..], key) {
      var i :| 0 <= i < |items[1..]| && Identity(source, items[1..][i]) == Some(key);
      assert items[i + 1] == items[1..][i];
    }
    if Names(source, items, key) {
      var i :| 0 <= i < |items| && Identity(source, items[i]) == Some(key);
      assert i > 0 ==> items[1..][i - 1] == items[i];
    }
  }

  lemma UnboundSavesNothing(members: Members, source: string, items: seq<Item>, revision: int, now: real)
    requires AllSaved(members, false, source, items, revision, now).1
    ensures items == []
  {
  }

  lemma KeptByDiscovery(t: Tables, op: Op, key: MemberKey)
    requires (op.SaveMembers? || op.Discovery?) && Perform(t, op).done
    ensures KeptOf(Perform(t, op).tables.members, key) == KeptAfter(KeptOf(t.members, key), op, key)
  {
    var items := if op.Discovery? then Placed(op.items, op.location, op.protocol) else op.items;
    var scope := if op.Discovery? then Scope(op.source, op.location, op.protocol) else Scope("", "", "");
    var members := if op.Discovery? then Unadvertised(t.members, scope) else t.members;
    var bound := op.source in t.bindings;
    hide AllSaved, Placed, Identity;
    if bound {
      SavedRows(members, op.source, items, op.revision, op.now, key);
    } else {
      UnboundSavesNothing(members, op.source, items, op.revision, op.now);
      NothingToSave(members, bound, op.source, op.revision, op.now);
    }
  }

  lemma NothingToSave(members: Members, bound: bool, source: string, revision: int, now: real)
    ensures AllSaved(members, bound, source, [], revision, now) == (members, true)
  {
  }

  lemma KeptByEach(t: Tables, op: Op, key: MemberKey)
    requires Perform(t, op).done
    ensures KeptOf(Perform(t, op).tables.members, key) == KeptAfter(KeptOf(t.members, key), op, key)
  {
    hide Trimmed, AllSaved, Placed;
    if op.SaveMembers? || op.Discovery? {
      KeptByDiscovery(t, op, key);
    }
  }

  /** MAIN: over every run of calls a row stays, with its first_seen, and with the preferences
      last set for it. */
  lemma {:induction false} NoRowIsLost(t: Tables, ops: seq<Op>, key: MemberKey)
    requires All(t, ops).done
    ensures KeptOf(All(t, ops).tables.members, key) == KeptThrough(KeptOf(t.members, key), ops, key)
    decreases |ops|
  {
    hide Perform, KeptOf, KeptAfter;
    if ops != [] {
      KeptByEach(t, ops[0], key);
      NoRowIsLost(Perform(t, ops[0]).tables, ops[1..], key);
    }
  }

  /** In particular, without preference calls for it nothing of that changes. */
  lemma {:induction false} OnlyPreferencesChangeRows(kept: Option<Kept>, ops: seq<Op>, key: MemberKey)
    requires kept.Some? && forall op <- ops :: !(op.Preference? && op.key == key)
    ensures KeptThrough(kept, ops, key) == kept
    decreases |ops|
  {
    if ops != [] {
      assert ops[0] in ops;
      OnlyPreferencesChangeRows(kept, ops[1..], key);
    }
  }

  // ----- members: advertised ------------------------------------------------------------------------------

  /** The advertised rows of a scope. */
  ghost function Window(t: Tables, scope: Scope): set<MemberKey> {
    set key | key in t.members && ScopeOf(key) == scope && t.members[key].advertised
  }

  predicate Discovers(op: Op, scope: Scope) {
    op.Discovery? && Scope(op.source, op.location, op.protocol) == scope
  }

  /** Whether a row is advertised after a call, given whether it was before. */
  ghost predicate ShownAfter(shown: bool, op: Op, key: MemberKey) {
    if Discovers(op, ScopeOf(key)) then Mentions(op, key)
    else shown || (op.SaveMembers? && Mentions(op, key))
  }

  ghost predicate Shown(members: Members, key: MemberKey) {
    key in members && members[key].advertised
  }

  lemma PlacedIn(op: Op, key: MemberKey)
    requires op.Discovery? && Mentions(op, key)
    ensures Discovers(op, ScopeOf(key))
  {
    var items := Placed(op.items, op.location, op.protocol);
    var i :| 0 <= i < |items| && Identity(op.source, items[i]) == Some(key);
    assert items[i].location == Value(op.location) && items[i].protocol == Value(op.protocol);
  }

  lemma ShownByDiscovery(t: Tables, op: Op, key: MemberKey)
    requires (op.SaveMembers? || op.Discovery?) && Perform(t, op).done
    ensures Shown(Perform(t, op).tables.members, key) <==> ShownAfter(Shown(t.members, key), op, key)
  {
    var items := if op.Discovery? then Placed(op.items, op.location, op.protocol) else op.items;
    var scope := if op.Discovery? then Scope(op.source, op.location, op.protocol) else Scope("", "", "");
    var members := if op.Discovery? then Unadvertised(t.members, scope) else t.members;
    var bound := op.source in t.bindings;
    hide AllSaved, Placed, Identity;
    if op.Discovery? && Mentions(op, key) {
      PlacedIn(op, key);
    }
    if bound {
      SavedRows(members, op.source, items, op.revision, op.now, key);
    } else {
      UnboundSavesNothing(members, op.source, items, op.revision, op.now);
      NothingToSave(members, bound, op.source, op.revision, op.now);
    }
  }

  lemma ShownByEach(t: Tables, op: Op, key: MemberKey)
    requires Perform(t, op).done
    ensures Shown(Perform(t, op).tables.members, key) <==> ShownAfter(Shown(t.members, key), op, key)
  {
    hide Trimmed, AllSaved, Placed;
    if op.SaveMembers? || op.Discovery? {
      ShownByDiscovery(t, op, key);
    }
  }

  /** None of these discovers the scope again, or saves members in it outside a discovery. */
  ghost predicate Undisturbed(ops: seq<Op>, scope: Scope) {
    forall op <- ops :: !Discovers(op, scope)
      && (op.SaveMembers? ==> forall key :: Mentions(op, key) ==> ScopeOf(key) != scope)
  }

  lemma {:induction false} WindowStays(t: Tables, ops: seq<Op>, key: MemberKey)
    requires All(t, ops).done && Undisturbed(ops, ScopeOf(key))
    ensures Shown(All(t, ops).tables.members, key) <==> Shown(t.members, key)
    decreases |ops|
  {
    hide Perform, Shown;
    if ops != [] {
      assert ops[0] in ops;
      ShownByEach(t, ops[0], key);
      WindowStays(Perform(t, ops[0]).tables, ops[1..], key);
    }
  }

  /** MAIN: whatever came before and whatever came since, a scope advertises exactly the rows
      of its last discovery. */
  lemma AdvertisedIsTheLastDiscovery(t: Tables, before: seq<Op>, last: Op, since: seq<Op>, scope: Scope)
    requires All(t, before + [last] + since).done
    requires Discovers(last, scope) && Undisturbed(since, scope)
    ensures forall key :: key in Window(All(t, before + [last] + since).tables, scope) <==> Mentions(last, key)
  {
    hide Perform, Shown, Mentions;
    assert before + [last] + since == before + ([last] + since);
    DoneInParts(t, before, [last] + since);
    var t1 := All(t, before).tables;
    assert ([last] + since)[1..] == since;
    var t2 := Perform(t1, last).tables;
    var end := All(t2, since).tables;
    assert All(t, before + [last] + since).tables == end;
    forall key ensures key in Window(end, scope) <==> Mentions(last, key) {
      InWindow(end, scope, key);
      if ScopeOf(key) == scope {
        ShownByEach(t1, last, key);
        WindowStays(t2, since, key);
      } else if Mentions(last, key) {
        PlacedIn(last, key);
        assert false;
      }
    }
  }

  lemma InWindow(t: Tables, scope: Scope, key: MemberKey)
    ensures key in Window(t, scope) <==> ScopeOf(key) == scope && Shown(t.members, key)
  {
  }

  /** A run that is done was done in each part. */
  lemma {:induction false} DoneInParts(t: Tables, a: seq<Op>, b: seq<Op>)
    requires All(t, a + b).done
    ensures All(t, a).done && All(t, a + b) == All(All(t, a).tables, b)
    decreases |a|
  {
    hide Perform;
    if a == [] {
      assert a + b == b;
    } else {
      assert (a + b)[1..] == a[1..] + b;
      DoneInParts(Perform(t, a[0]).tables, a[1..], b);
    }
  }

  // ----- evidence --------------------------------------------------------------------------------------------

  lemma AboveShrinks(times: set<real>, x: real, y: real)
    requires y in times && y > x
    ensures |Above(times, y)| < |Above(times, x)|
  {
    assert Above(times, y) < Above(times, x) by {
      assert y in Above(times, x) && y !in Above(times, y);
    }
    Smaller(Above(times, y), Above(times, x));
  }

  lemma {:induction false} Smaller(a: set<real>, b: set<real>)
    requires a < b
    ensures |a| < |b|
  {
    var rest := b - a;
    assert b == a + rest && |b| == |a| + |rest| && |rest| != 0;
  }

  lemma {:induction false} NoLarger(a: set<real>, b: set<real>)
    requires a <= b
    ensures |a| <= |b|
  {
    assert b == a + (b - a);
    assert |b| == |a| + |b - a|;
  }

  lemma {:induction false} Oldest(times: set<real>) returns (x: real)
    requires times != {}
    ensures x in times && forall y :: y in times ==> x <= y
    decreases |times|
  {
    assert exists x :: x in times by {
      if forall x :: x !in times {
        assert false;
      }
    }
    x :| x in times;
    if times != {x} {
      var rest := times - {x};
      assert times == rest + {x} && |rest| < |times|;
      var y := Oldest(rest);
      if y < x {
        x := y;
      }
    }
  }

  lemma {:induction false} NewestAreMany(times: set<real>, n: nat)
    ensures |Newest(times, n)| == if |times| < n then |times| else n
    decreases |times|
  {
    if |times| <= n {
      forall x | x in times ensures |Above(times, x)| < n {
        assert x !in Above(times, x);
        Smaller(Above(times, x), times);
      }
      assert Newest(times, n) == times;
    } else {
      var x := Oldest(times);
      var rest := times - {x};
      assert times == rest + {x} && |rest| == |times| - 1;
      assert Above(times, x) == rest;
      NewestAreMany(rest, n);
      forall y | y in rest ensures Above(times, y) == Above(rest, y) {
      }
      assert Newest(times, n) == Newest(rest, n);
    }
  }

  /** MAIN: what the trim keeps are the n newest times: so many of them, or all, and none
      kept is older than one dropped. */
  lemma NewestAreNewest(times: set<real>, n: nat)
    ensures Newest(times, n) <= times
    ensures |Newest(times, n)| == if |times| < n then |times| else n
    ensures forall x, y :: x in Newest(times, n) && y in times && y !in Newest(times, n) ==> y < x
  {
    NewestAreMany(times, n);
    forall x, y | x in Newest(times, n) && y in times && y !in Newest(times, n) ensures y < x {
      if x < y {
        AboveShrinks(times, x, y);
      }
    }
  }

  /** As many newer times, up to n, in what is kept as in the whole. */
  lemma NewerAreKept(times: set<real>, n: nat, x: real)
    ensures |Above(times, x)| < n ==> Above(Newest(times, n), x) == Above(times, x)
    ensures |Above(times, x)| >= n ==> |Above(Newest(times, n), x)| >= n
  {
    var newer := Above(times, x);
    forall y | y in newer ensures Above(times, y) == Above(newer, y) {
    }
    assert Above(Newest(times, n), x) == Newest(newer, n);
    NewestAreMany(newer, n);
    if |newer| < n {
      forall y | y in newer ensures y in Newest(newer, n) {
        Smaller(Above(newer, y), newer);
      }
      assert Newest(newer, n) == newer;
    }
  }

  /** Trimming after every insertion keeps what one trim at the end would keep. */
  lemma TrimIsIncremental(times: set<real>, x: real, n: nat)
    ensures Newest(Newest(times, n) + {x}, n) == Newest(times + {x}, n)
  {
    var kept := Newest(times, n);
    forall y ensures y in Newest(kept + {x}, n) <==> y in Newest(times + {x}, n) {
      AboveAdded(times, x, y);
      AboveAdded(kept, x, y);
      NewerAreKept(times, n, y);
      if y in times && y !in kept {
        NoLarger(Above(times, y), Above(times + {x}, y));
      }
      if |Above(times, y)| >= n {
        NoLarger(Above(kept, y), Above(kept + {x}, y));
        NoLarger(Above(times, y), Above(times + {x}, y));
      }
    }
  }

  lemma AboveAdded(times: set<real>, x: real, y: real)
    ensures Above(times + {x}, y) == if x > y then Above(times, y) + {x} else Above(times, y)
  {
  }

  // ----- evidence over a run ---------------------------------------------------------------------------------

  /** The evidence a call records, and where and when. */
  datatype Entry = Entry(channel: Channel, at: real, evidence: Evidence)

  function Entered(op: Op): Option<Entry> {
    match op
    case Config(source, revision, server, place, proto, outcome, _, now) =>
      Some(Entry(Channel(source, CONFIG, CURRENT), now, Evidence(revision, Safe(server, place, proto), outcome)))
    case Observation(channel, data, revision, outcome, _, now) =>
      Some(Entry(channel, now, Evidence(revision, Allowlisted(data), outcome)))
    case _ => None
  }

  /** Everything ever recorded on a channel, by time; a time is recorded once. */
  function Ever(rows: map<real, Evidence>, ops: seq<Op>, channel: Channel): map<real, Evidence>
    decreases |ops|
  {
    if ops == [] then rows else Ever(EverAfter(rows, ops[0], channel), ops[1..], channel)
  }

  function EverAfter(rows: map<real, Evidence>, op: Op, channel: Channel): map<real, Evidence> {
    match Entered(op)
    case None => rows
    case Some(e) => if e.channel == channel && e.at !in rows then rows[e.at := e.evidence] else rows
  }

  lemma TrimmedStep(ever: map<real, Evidence>, at: real, e: Evidence, n: nat)
    requires at !in Trimmed(ever, n)
    ensures Trimmed(Trimmed(ever, n)[at := e], n) == Trimmed(if at in ever then ever else ever[at := e], n)
  {
    var kept := Trimmed(ever, n);
    var all := if at in ever then ever else ever[at := e];
    assert kept.Keys == Newest(ever.Keys, n);
    assert kept[at := e].Keys == Newest(ever.Keys, n) + {at} && all.Keys == ever.Keys + {at};
    TrimIsIncremental(ever.Keys, at, n);
    var l, r := Trimmed(kept[at := e], n), Trimmed(all, n);
    assert l.Keys == r.Keys;
    if at in ever {
      NotAgain(ever.Keys, at, n);
    }
    forall x | x in l ensures l[x] == r[x] {
    }
    assert l == r;
  }

  /** A time that was trimmed away does not come back. */
  lemma NotAgain(times: set<real>, x: real, n: nat)
    requires x in times && x !in Newest(times, n)
    ensures x !in Newest(Newest(times, n) + {x}, n)
  {
    TrimIsIncremental(times, x, n);
    assert times + {x} == times;
  }

  lemma RecordedRows(t: Tables, at: Entry, channel: Channel)
    requires Recorded(t, at.channel, at.at, at.evidence).done
    ensures RowsOf(Recorded(t, at.channel, at.at, at.evidence).tables, channel) ==
      if at.channel == channel then Trimmed(RowsOf(t, channel)[at.at := at.evidence], KEEP) else RowsOf(t, channel)
    ensures at.channel == channel ==> at.at !in RowsOf(t, channel)
  {
    hide Trimmed;
  }

  lemma EvidenceOfEach(t: Tables, op: Op, channel: Channel)
    requires Perform(t, op).done
    ensures RowsOf(Perform(t, op).tables, channel) ==
      match Entered(op)
      case None => RowsOf(t, channel)
      case Some(e) =>
        if e.channel == channel then Trimmed(RowsOf(t, channel)[e.at := e.evidence], KEEP) else RowsOf(t, channel)
    ensures Entered(op).Some? && Entered(op).value.channel == channel ==> Entered(op).value.at !in RowsOf(t, channel)
  {
    hide Trimmed, AllSaved, Unadvertised, Placed, Recorded, RowsOf;
    if Entered(op).Some? {
      RecordedRows(t, Entered(op).value, channel);
      if op.Config? {
        SameEvidence(Recorded(t, Entered(op).value.channel, op.now, Entered(op).value.evidence).tables,
          Perform(t, op).tables, channel);
      }
    } else {
      SameEvidence(t, Perform(t, op).tables, channel);
    }
  }

  lemma SameEvidence(a: Tables, b: Tables, channel: Channel)
    requires a.evidence == b.evidence
    ensures RowsOf(a, channel) == RowsOf(b, channel)
  {
  }

  /** MAIN: every channel holds exactly the 32 newest of all the evidence ever recorded on it,
      each as it was first recorded. */
  lemma {:induction false} EvidenceIsTheNewestEver(t: Tables, ops: seq<Op>, channel: Channel, ever: map<real, Evidence>)
    requires All(t, ops).done && RowsOf(t, channel) == Trimmed(ever, KEEP)
    ensures RowsOf(All(t, ops).tables, channel) == Trimmed(Ever(ever, ops, channel), KEEP)
    decreases |ops|
  {
    hide Perform, RowsOf, Trimmed;
    if ops != [] {
      EvidenceOfEach(t, ops[0], channel);
      var e := Entered(ops[0]);
      if e.Some? && e.value.channel == channel {
        TrimmedStep(ever, e.value.at, e.value.evidence, KEEP);
      }
      EvidenceIsTheNewestEver(Perform(t, ops[0]).tables, ops[1..], channel, EverAfter(ever, ops[0], channel));
    }
  }

  // ----- revisions ----------------------------------------------------------------------------------------------

  function SourceOf(op: Op): string {
    match op
    case Preference(key, _, _, _) => key.source
    case Observation(channel, _, _, _, _, _) => channel.source
    case SaveBinding(source, _, _, _) => source
    case SaveMembers(source, _, _, _, _) => source
    case Discovery(source, _, _, _, _, _, _) => source
    case Config(source, _, _, _, _, _, _, _) => source
    case Applied(source, _, _) => source
  }

  function Saves(ops: seq<Op>, source: string): nat
    decreases |ops|
  {
    if ops == [] then 0
    else (if ops[0].SaveBinding? && ops[0].source == source then 1 else 0) + Saves(ops[1..], source)
  }

  /** A call that names a revision is done only at that revision. */
  lemma RevisionByEach(t: Tables, op: Op, source: string)
    requires Perform(t, op).done
    ensures RevisionNow(Perform(t, op).tables, source) == RevisionNow(t, source) + Saves([op], source)
    ensures source in t.bindings ==> source in Perform(t, op).tables.bindings
    ensures op.expected.Some? && SourceOf(op) == source && (source in t.bindings || !op.SaveBinding?) ==>
      source in t.bindings && RevisionNow(t, source) == op.expected.value
  {
    hide Trimmed, AllSaved, Unadvertised, Placed;
    assert [op][1..] == [];
  }

  lemma {:induction false} RevisionCountsSaves(t: Tables, ops: seq<Op>, source: string)
    requires All(t, ops).done
    ensures RevisionNow(All(t, ops).tables, source) == RevisionNow(t, source) + Saves(ops, source)
    ensures source in t.bindings ==> source in All(t, ops).tables.bindings
    decreases |ops|
  {
    hide Perform, RevisionNow;
    if ops != [] {
      RevisionByEach(t, ops[0], source);
      assert [ops[0]][1..] == [];
      RevisionCountsSaves(Perform(t, ops[0]).tables, ops[1..], source);
    }
  }

  /** MAIN: two calls that expect the same revision of a binding are both done only if nobody
      saved the binding in between. The one exception is a first call that creates the binding,
      where nothing is compared yet: then the saves in between are what the second one's
      revision is ahead of the first, 1. */
  lemma SameRevisionMeansUntouched(t: Tables, first: Op, between: seq<Op>, second: Op)
    requires All(t, [first] + between + [second]).done
    requires SourceOf(first) == SourceOf(second) && first.expected == second.expected && first.expected.Some?
    ensures first.SaveBinding? ==>
      SourceOf(first) !in t.bindings && Saves(between, SourceOf(first)) == first.expected.value - 1
    ensures !first.SaveBinding? ==> Saves(between, SourceOf(first)) == 0
  {
    hide Perform, RevisionNow;
    var source := SourceOf(first);
    var whole := [first] + between + [second];
    assert whole[1..] == between + [second];
    var t1 := Perform(t, first).tables;
    RevisionByEach(t, first, source);
    FirstSaveCreates(t, first);
    assert [first][1..] == [];
    DoneInParts(t1, between, [second]);
    RevisionCountsSaves(t1, between, source);
    RevisionByEach(All(t1, between).tables, second, source);
  }

  lemma FirstSaveCreates(t: Tables, op: Op)
    requires Perform(t, op).done
    ensures op.SaveBinding? ==> op.source in Perform(t, op).tables.bindings
    ensures op.SaveBinding? && op.source !in t.bindings ==> RevisionNow(t, op.source) == 0
  {
    hide Trimmed, AllSaved;
  }
}
