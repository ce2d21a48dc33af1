/** What the provider tables hold of a list of members, said of the single items. */
module ProviderRows {
  import opened Outcomes
  import opened ProviderTables

  // ----- items -----------------------------------------------------------------------------------------

  /** The item names the row: by its own member id or else its server id, with a place and a
      protocol. */
  predicate About(source: string, item: Item, key: MemberKey) {
    && key.source == source && item.location == Value(key.location)
    && item.protocol == Value(key.protocol) && key.protocol != ""
    && (item.memberId == Value(key.member) || (item.memberId == Absent && item.serverId == Value(key.member)))
  }

  /** The item can be saved. */
  ghost predicate Sane(source: string, item: Item) {
    && (exists key :: About(source, item, key))
    && item.slots != NotANumber && (item.slots.Count? ==> item.slots.n >= 0)
    && item.status != Null && item.statusSource != Null
  }

  lemma IdentityExactly(source: string, item: Item)
    ensures forall key :: About(source, item, key) <==> Identity(source, item) == Some(key)
    ensures Sane(source, item) <==> Acceptable(source, item)
  {
    if Identity(source, item).Some? {
      assert About(source, item, Identity(source, item).value);
    }
  }

  /** The text given, or a default where the item says nothing. */
  function TextOr(f: Field, default: string): string {
    if f.Value? then f.text else default
  }

  /** What a row has from the item that was saved into it last. */
  predicate SaysWhat(m: Member, item: Item, revision: int, now: real) {
    && m.ip == (if item.ip.Value? then Some(item.ip.text) else None)
    && m.slots == (if item.slots.Count? then Some(item.slots.n) else None)
    && m.status == TextOr(item.status, "unknown") && m.statusSource == TextOr(item.statusSource, "absent")
    && m.advertised && m.lastSeen == now && m.lastRevision == revision
  }

  /** And what it has kept, or starts with. */
  predicate KeepsWhat(m: Member, was: Option<Member>, now: real) {
    match was
    case None => m.firstSeen == now && m.auto && m.priority == 0
    case Some(w) => m.firstSeen == w.firstSeen && m.auto == w.auto && m.priority == w.priority
  }

  // ----- lists of items ----------------------------------------------------------------------------------

  /** MAIN: a list of members is saved if and only if every item can be, and there is a binding
      or no item. */
  lemma {:induction false} SavedExactly(members: Members, bound: bool, source: string, items: seq<Item>, revision: int,
                                        now: real)
    ensures AllSaved(members, bound, source, items, revision, now).1 <==>
      items == [] || (bound && forall i :: 0 <= i < |items| ==> Sane(source, items[i]))
    decreases |items|
  {
    hide Sane, Acceptable, OneSaved;
    if items != [] {
      IdentityExactly(source, items[0]);
      if bound && Acceptable(source, items[0]) {
        SavedExactly(OneSaved(members, source, items[0], revision, now), bound, source, items[1..], revision, now);
        assert forall i :: 1 <= i < |items| ==> items[i] == items[1..][i - 1];
      }
    }
  }

  predicate LastAbout(source: string, items: seq<Item>, key: MemberKey, i: int) {
    && 0 <= i < |items| && About(source, items[i], key)
    && forall j :: i < j < |items| ==> !About(source, items[j], key)
  }

  predicate Unmentioned(source: string, items: seq<Item>, key: MemberKey) {
    forall i :: 0 <= i < |items| ==> !About(source, items[i], key)
  }

  lemma AboutTail(source: string, items: seq<Item>, key: MemberKey)
    requires items != []
    ensures forall i :: i > 0 && LastAbout(source, items, key, i) ==> LastAbout(source, items[1..], key, i - 1)
    ensures LastAbout(source, items, key, 0) ==>
      About(source, items[0], key) && Unmentioned(source, items[1..], key)
    ensures Unmentioned(source, items, key) ==>
      !About(source, items[0], key) && Unmentioned(source, items[1..], key)
  {
    hide About;
  }

  /** MAIN: of a list that is saved, each row named has what its last item says, and keeps its
      first time and preferences; the rows not named are as they were. */
  lemma {:induction false} RowsSayTheLastItem(members: Members, source: string, items: seq<Item>, revision: int,
                                              now: real, key: MemberKey)
    requires AllSaved(members, true, source, items, revision, now).1
    ensures var after := AllSaved(members, true, source, items, revision, now).0;
      && (forall i :: LastAbout(source, items, key, i) ==>
            && key in after && SaysWhat(after[key], items[i], revision, now)
            && KeepsWhat(after[key], MemberAt(members, key), now))
      && (Unmentioned(source, items, key) ==> MemberAt(after, key) == MemberAt(members, key))
    decreases |items|
  {
    hide About, SaysWhat, KeepsWhat, OneSaved, Acceptable, Unmentioned;
    if items != [] {
      var next := OneSaved(members, source, items[0], revision, now);
      RowsSayTheLastItem(next, source, items[1..], revision, now, key);
      OneRow(members, source, items[0], revision, now, key);
      AboutTail(source, items, key);
      var after := AllSaved(members, true, source, items, revision, now).0;
      forall i | LastAbout(source, items, key, i)
        ensures key in after && SaysWhat(after[key], items[i], revision, now)
          && KeepsWhat(after[key], MemberAt(members, key), now)
      {
        if i > 0 {
          assert items[1..][i - 1] == items[i];
          KeptTwice(after[key], MemberAt(next, key), MemberAt(members, key), now);
        }
      }
    }
  }

  lemma OneRow(members: Members, source: string, item: Item, revision: int, now: real, key: MemberKey)
    requires Acceptable(source, item)
    ensures var next := OneSaved(members, source, item, revision, now);
      && (About(source, item, key) ==>
            key in next && SaysWhat(next[key], item, revision, now)
              && KeepsWhat(next[key], MemberAt(members, key), now))
      && (!About(source, item, key) ==> MemberAt(next, key) == MemberAt(members, key))
  {
    hide About, Identity;
    IdentityExactly(source, item);
  }

  lemma KeptTwice(m: Member, between: Option<Member>, was: Option<Member>, now: real)
    requires KeepsWhat(m, between, now)
    requires between == was || (between.Some? && KeepsWhat(between.value, was, now))
    ensures KeepsWhat(m, was, now)
  {
  }

  // ----- what is never stored ------------------------------------------------------------------------------

  const ALLOWED := {"server_id", "location_id", "status", "member_id", "protocol"}

  /** No evidence holds any other key. */
  ghost predicate OnlyAllowed(t: Tables) {
    forall channel, at :: channel in t.evidence && at in t.evidence[channel] ==>
      t.evidence[channel][at].data.Keys <= ALLOWED
  }

  lemma OnlyAllowedByEach(t: Tables, op: Op)
    requires OnlyAllowed(t)
    ensures OnlyAllowed(Perform(t, op).tables)
  {
    hide AllSaved, Unadvertised, Placed, Newest;
  }

  /** MAIN: whatever the calls are given, connection data never gets into the evidence. */
  lemma {:induction false} OnlyAllowedIsStored(t: Tables, ops: seq<Op>)
    requires OnlyAllowed(t)
    ensures OnlyAllowed(All(t, ops).tables)
    decreases |ops|
  {
    hide Perform, OnlyAllowed;
    if ops != [] {
      OnlyAllowedByEach(t, ops[0]);
      if Perform(t, ops[0]).done {
        OnlyAllowedIsStored(Perform(t, ops[0]).tables, ops[1..]);
      }
    }
  }
}
