/** The provider tables of `provider_managed.py`: bindings, discovered members and trimmed
    evidence, over any sequence of database sessions. */
module ProviderTables {
  import opened Outcomes

  const KEEP: nat := 32

  /** A key of a dictionary: not there, there with None, or there with a text. */
  datatype Field = Absent | Null | Value(text: string)

  /** `.get(key)`. */
  function Get(f: Field): Option<string> {
    if f.Value? then Some(f.text) else None
  }

  /** `.get(key, default)`, where None stays None. */
  function GetOr(f: Field, default: string): Option<string> {
    if f.Absent? then Some(default) else Get(f)
  }

  datatype Slots = NoSlots | Count(n: int) | NotANumber

  /** One member as a provider describes it. */
  datatype Item = Item(memberId: Field, serverId: Field, location: Field, protocol: Field,
                       ip: Field, slots: Slots, status: Field, statusSource: Field)

  datatype MemberKey = MemberKey(source: string, member: string, location: string, protocol: string)

  datatype Member = Member(ip: Option<string>, slots: Option<int>, status: string, statusSource: string,
                           auto: bool, priority: int, advertised: bool,
                           firstSeen: real, lastSeen: real, lastRevision: int)

  datatype Served = Served(member: string, protocol: string, at: real, revision: int)

  datatype Terms = Terms(provider: string, kind: string, resource: string, server: string,
                         protocol: string, enabled: bool)

  datatype Binding = Binding(terms: Terms, revision: int, member: Option<string>, location: Option<string>,
                             observed: Option<string>, observedAt: Option<real>, applied: Option<Served>,
                             lastOutcome: string, updatedAt: real)

  datatype Channel = Channel(source: string, kind: string, scope: string)
  datatype Evidence = Evidence(revision: int, data: map<string, Field>, outcome: string)

  datatype Tables = Tables(bindings: map<string, Binding>, members: map<MemberKey, Member>,
                           evidence: map<Channel, map<real, Evidence>>)

  /** The tables after a call, and whether it returned rather than raised. */
  datatype Effect = Effect(tables: Tables, done: bool)

  datatype Op =
    | SaveBinding(source: string, terms: Terms, expected: Option<int>, now: real)
    | SaveMembers(source: string, items: seq<Item>, revision: int, expected: Option<int>, now: real)
    | Discovery(source: string, revision: int, location: string, protocol: string, items: seq<Item>,
                expected: Option<int>, now: real)
    | Preference(key: MemberKey, auto: Option<bool>, priority: Option<int>, expected: Option<int>)
    | Config(source: string, revision: int, server: Field, place: Field, proto: Field, outcome: string,
             expected: Option<int>, now: real)
    | Observation(channel: Channel, data: map<string, Field>, revision: int, outcome: string,
                  expected: Option<int>, now: real)
    | Applied(source: string, served: Served, expected: Option<int>)

  // ----- bindings -------------------------------------------------------------------------------------

  /** `_check_revision`. */
  predicate RevisionHolds(t: Tables, source: string, expected: Option<int>) {
    expected.Some? ==> source in t.bindings && t.bindings[source].revision == expected.value
  }

  predicate Complete(source: string, terms: Terms) {
    source != "" && terms.provider != "" && terms.server != "" && terms.protocol != ""
  }

  function Bound(was: Option<Binding>, terms: Terms, now: real): Binding {
    var outcome := if terms.enabled then "pending" else "disabled";
    match was
    case None => Binding(terms, 1, None, None, None, None, None, outcome, now)
    case Some(b) => b.(terms := terms, revision := b.revision + 1, lastOutcome := outcome, updatedAt := now)
  }

  function BindingOf(t: Tables, source: string): Option<Binding> {
    if source in t.bindings then Some(t.bindings[source]) else None
  }

  function RevisionNow(t: Tables, source: string): int {
    if source in t.bindings then t.bindings[source].revision else 0
  }

  /** What was observed of the source, and what was applied to it, are the same. */
  predicate SeenAlike(a: Binding, b: Binding) {
    && a.member == b.member && a.location == b.location && a.observed == b.observed
    && a.observedAt == b.observedAt && a.applied == b.applied
  }

  /** `b` differs from `a` by what a configuration says, and in nothing it does not mention. */
  predicate SightedAlike(a: Binding, b: Binding, op: Op)
    requires op.Config?
  {
    && b.terms == a.terms && b.revision == a.revision && b.applied == a.applied
    && b.member == (if op.server.Absent? then a.member else Get(op.server))
    && b.location == (if op.place.Absent? then a.location else Get(op.place))
    && b.observed == (if op.proto.Absent? then a.observed else Get(op.proto))
    && b.observedAt ==
      (if op.server.Absent? && op.place.Absent? && op.proto.Absent? then a.observedAt else Some(op.now))
  }

  function BindingSaved(t: Tables, source: string, terms: Terms, expected: Option<int>, now: real): Effect {
    if !Complete(source, terms) then Effect(t, false)
    else if source in t.bindings && expected.Some? && t.bindings[source].revision != expected.value then
      Effect(t, false)
    else Effect(t.(bindings := t.bindings[source := Bound(BindingOf(t, source), terms, now)]), true)
  }

  // ----- members ----------------------------------------------------------------------------------------

  function MemberId(item: Item): Option<string> {
    Get(if item.memberId.Absent? then item.serverId else item.memberId)
  }

  /** The row an item is about, unless its identity is incomplete. */
  function Identity(source: string, item: Item): Option<MemberKey> {
    match (MemberId(item), Get(item.location), Get(item.protocol))
    case (Some(id), Some(location), Some(protocol)) =>
      if protocol == "" then None else Some(MemberKey(source, id, location, protocol))
    case _ => None
  }

  /** What the checks of `save_members` and the constraints of the table ask of an item. */
  predicate Acceptable(source: string, item: Item) {
    && Identity(source, item).Some?
    && (item.slots.Count? ==> item.slots.n >= 0) && !item.slots.NotANumber?
    && !item.status.Null? && !item.statusSource.Null?
  }

  function RowOf(was: Option<Member>, item: Item, revision: int, now: real): Member
    requires !item.status.Null? && !item.statusSource.Null?
  {
    var slots := if item.slots.Count? then Some(item.slots.n) else None;
    var status := GetOr(item.status, "unknown").value;
    var statusSource := GetOr(item.statusSource, "absent").value;
    match was
    case None => Member(Get(item.ip), slots, status, statusSource, true, 0, true, now, now, revision)
    case Some(m) => m.(ip := Get(item.ip), slots := slots, advertised := true, status := status,
      statusSource := statusSource, lastSeen := now, lastRevision := revision)
  }

  type Members = map<MemberKey, Member>

  function MemberAt(members: Members, key: MemberKey): Option<Member> {
    if key in members then Some(members[key]) else None
  }

  function OneSaved(members: Members, source: string, item: Item, revision: int, now: real): Members
    requires Acceptable(source, item)
  {
    var key := Identity(source, item).value;
    members[key := RowOf(MemberAt(members, key), item, revision, now)]
  }

  /** The rows after the items were saved one by one, up to one that is refused; a source
      without a binding has every row refused. */
  function AllSaved(members: Members, bound: bool, source: string, items: seq<Item>, revision: int,
                    now: real): (Members, bool)
    decreases |items|
  {
    if items == [] then (members, true)
    else if !bound || !Acceptable(source, items[0]) then (members, false)
    else AllSaved(OneSaved(members, source, items[0], revision, now), bound, source, items[1..], revision, now)
  }

  function MembersSaved(t: Tables, source: string, items: seq<Item>, revision: int, expected: Option<int>,
                        now: real): Effect {
    if !RevisionHolds(t, source, expected) then Effect(t, false)
    else
      var r := AllSaved(t.members, source in t.bindings, source, items, revision, now);
      Effect(t.(members := r.0), r.1)
  }

  /** The rows of one source, location and protocol. */
  datatype Scope = Scope(source: string, location: string, protocol: string)

  function ScopeOf(key: MemberKey): Scope {
    Scope(key.source, key.location, key.protocol)
  }

  function Unadvertised(members: Members, scope: Scope): Members {
    map key | key in members ::
      if ScopeOf(key) == scope then members[key].(advertised := false) else members[key]
  }

  /** The items as they are saved for one location and protocol. */
  function Placed(items: seq<Item>, location: string, protocol: string): seq<Item> {
    seq(|items|, i requires 0 <= i < |items| => items[i].(location := Value(location), protocol := Value(protocol)))
  }

  function Discovered(t: Tables, op: Op): Effect
    requires op.Discovery?
  {
    if !RevisionHolds(t, op.source, op.expected) then Effect(t, false)
    else
      var cleared := t.(members := Unadvertised(t.members, Scope(op.source, op.location, op.protocol)));
      MembersSaved(cleared, op.source, Placed(op.items, op.location, op.protocol), op.revision, op.expected, op.now)
  }

  function Preferred(t: Tables, key: MemberKey, auto: Option<bool>, priority: Option<int>,
                     expected: Option<int>): Effect {
    if !RevisionHolds(t, key.source, expected) then Effect(t, false)
    else if auto.None? && priority.None? then Effect(t, true)
    else if priority.Some? && !(-1 <= priority.value <= 5) then Effect(t, false)
    else if key !in t.members then Effect(t, false)
    else
      var m := t.members[key];
      Effect(t.(members := t.members[key := m.(
        auto := if auto.Some? then auto.value else m.auto,
        priority := if priority.Some? then priority.value else m.priority)]), true)
  }

  // ----- evidence -------------------------------------------------------------------------------------------

  function Above(times: set<real>, x: real): set<real> {
    set y | y in times && y > x
  }

  /** The `n` newest of the times: those with fewer than `n` newer ones. */
  function Newest(times: set<real>, n: nat): set<real> {
    set x | x in times && |Above(times, x)| < n
  }

  /** `_trim_evidence`. */
  function Trimmed<T>(rows: map<real, T>, n: nat): map<real, T> {
    map x | x in rows && x in Newest(rows.Keys, n) :: rows[x]
  }

  function RowsOf(t: Tables, channel: Channel): map<real, Evidence> {
    if channel in t.evidence then t.evidence[channel] else map[]
  }

  /** The insertion, refused without a binding or at a time that is there, and the trim. */
  function Recorded(t: Tables, channel: Channel, at: real, e: Evidence): Effect {
    var rows := RowsOf(t, channel);
    if channel.source !in t.bindings || at in rows then Effect(t, false)
    else Effect(t.(evidence := t.evidence[channel := Trimmed(rows[at := e], KEEP)]), true)
  }

  const CONFIG: string := "config"
  const CURRENT: string := "current"

  function Safe(server: Field, place: Field, proto: Field): map<string, Field> {
    map["server_id" := server, "location_id" := place, "protocol" := proto]
  }

  /** What is kept of an observation. */
  function Allowlisted(data: map<string, Field>): map<string, Field> {
    map key | key in data && key in {"status", "member_id", "protocol"} :: data[key]
  }

  function Observed(b: Binding, op: Op): Binding
    requires op.Config?
  {
    if op.server.Absent? && op.place.Absent? && op.proto.Absent? then
      b.(lastOutcome := op.outcome, updatedAt := op.now)
    else b.(
      observedAt := Some(op.now), lastOutcome := op.outcome, updatedAt := op.now,
      member := if op.server.Absent? then b.member else Get(op.server),
      location := if op.place.Absent? then b.location else Get(op.place),
      observed := if op.proto.Absent? then b.observed else Get(op.proto))
  }

  function Configured(t: Tables, op: Op): Effect
    requires op.Config?
  {
    if !RevisionHolds(t, op.source, op.expected) then Effect(t, false)
    else
      var e := Recorded(t, Channel(op.source, CONFIG, CURRENT), op.now,
                        Evidence(op.revision, Safe(op.server, op.place, op.proto), op.outcome));
      if !e.done then e
      else
        var bound := e.tables.(bindings := e.tables.bindings[op.source := Observed(t.bindings[op.source], op)]);
        Effect(match ConfigKey(op)
               case Some(key) => bound.(members := Sighted(bound.members, key, op.revision, op.now))
               case None => bound, true)
  }

  /** The member a configuration names, when it names one completely. */
  function ConfigKey(op: Op): Option<MemberKey>
    requires op.Config?
  {
    if op.server.Value? && op.place.Value? && op.proto.Value?
    then Some(MemberKey(op.source, op.server.text, op.place.text, op.proto.text)) else None
  }

  /** The row of a member seen in use, if it is not there already. */
  function Sighted(members: Members, key: MemberKey, revision: int, now: real): Members {
    if key in members then members
    else members[key := Member(None, None, "unknown", "absent", true, 0, false, now, now, revision)]
  }

  function ServedBy(t: Tables, source: string, served: Served, expected: Option<int>): Effect {
    if !RevisionHolds(t, source, expected) then Effect(t, false)
    else if source !in t.bindings then Effect(t, true)
    else
      var b := t.bindings[source].(applied := Some(served), updatedAt := served.at);
      Effect(t.(bindings := t.bindings[source := b]), true)
  }

  // ----- runs -------------------------------------------------------------------------------------------------

  function Perform(t: Tables, op: Op): Effect {
    match op
    case SaveBinding(source, terms, expected, now) => BindingSaved(t, source, terms, expected, now)
    case SaveMembers(source, items, revision, expected, now) => MembersSaved(t, source, items, revision, expected, now)
    case Discovery(_, _, _, _, _, _, _) => Discovered(t, op)
    case Preference(key, auto, priority, expected) => Preferred(t, key, auto, priority, expected)
    case Config(_, _, _, _, _, _, _, _) => Configured(t, op)
    case Observation(channel, data, revision, outcome, expected, now) =>
      if !RevisionHolds(t, channel.source, expected) then Effect(t, false)
      else Recorded(t, channel, now, Evidence(revision, Allowlisted(data), outcome))
    case Applied(source, served, expected) => ServedBy(t, source, served, expected)
  }

  /** The calls of one session, up to one that raises. */
  function All(t: Tables, ops: seq<Op>): Effect
    decreases |ops|
  {
    if ops == [] then Effect(t, true)
    else
      var e := Perform(t, ops[0]);
      if e.done then All(e.tables, ops[1..]) else e
  }

  /** What the sessions leave, each rolled back when a call in it raises. */
  function Sessions(t: Tables, sessions: seq<seq<Op>>): Tables
    decreases |sessions|
  {
    if sessions == [] then t
    else
      var e := All(t, sessions[0]);
      Sessions(if e.done then e.tables else t, sessions[1..])
  }

  /** The calls of the sessions that were committed. */
  function Committed(t: Tables, sessions: seq<seq<Op>>): seq<Op>
    decreases |sessions|
  {
    if sessions == [] then []
    else
      var e := All(t, sessions[0]);
      if e.done then sessions[0] + Committed(e.tables, sessions[1..]) else Committed(t, sessions[1..])
  }

  // ----- the calls ------------------------------------------------------------------------------------------------

  class Database {
    var bindings: map<string, Binding>
    var members: Members
    var evidence: map<Channel, map<real, Evidence>>

    constructor ()
      ensures State() == Tables(map[], map[], map[])
    {
      bindings, members, evidence := map[], map[], map[];
    }

    function State(): Tables
      reads this
    {
      Tables(bindings, members, evidence)
    }

    method CheckRevision(source: string, expected: Option<int>) returns (ok: bool)
      ensures ok == RevisionHolds(State(), source, expected)
    {
      if expected.None? {
        return true;
      }
      return source in bindings && bindings[source].revision == expected.value;
    }

    method PutBinding(source: string, terms: Terms, expected: Option<int>, now: real) returns (ok: bool)
      modifies this
      ensures Effect(State(), ok) == BindingSaved(old(State()), source, terms, expected, now)
      ensures ok <==>
        Complete(source, terms) && (source in old(bindings) ==> RevisionHolds(old(State()), source, expected))
      ensures !ok ==> State() == old(State())
      ensures ok ==>
        && source in bindings && bindings[source].terms == terms
        && bindings[source].revision == RevisionNow(old(State()), source) + 1
        && (source in old(bindings) ==> SeenAlike(bindings[source], old(bindings)[source]))
      ensures members == old(members) && evidence == old(evidence) && bindings - {source} == old(bindings) - {source}
    {
      if source == "" || terms.provider == "" || terms.server == "" || terms.protocol == "" {
        return false;
      }
      var revision := 1;
      var outcome := if terms.enabled then "pending" else "disabled";
      if source in bindings {
        var existing := bindings[source];
        if expected.Some? && existing.revision != expected.value {
          return false;
        }
        revision := existing.revision + 1;
        bindings := bindings[source := existing.(terms := terms, revision := revision, lastOutcome := outcome,
          updatedAt := now)];
      } else {
        bindings := bindings[source := Binding(terms, revision, None, None, None, None, None, outcome, now)];
      }
      return true;
    }

    method PutMembers(source: string, items: seq<Item>, revision: int, expected: Option<int>, now: real)
      returns (ok: bool)
      modifies this
      ensures Effect(State(), ok) == MembersSaved(old(State()), source, items, revision, expected, now)
    {
      ok := CheckRevision(source, expected);
      if !ok {
        return;
      }
      var i := 0;
      while i < |items|
        invariant i <= |items|
        invariant bindings == old(bindings) && evidence == old(evidence)
        invariant AllSaved(members, source in bindings, source, items[i..], revision, now)
               == AllSaved(old(members), source in bindings, source, items, revision, now)
      {
        var item := items[i];
        var key := Identity(source, item);
        assert items[i..][1..] == items[i + 1..];
        if key.None? || item.slots.NotANumber? || (item.slots.Count? && item.slots.n < 0) {
          return false;
        }
        if source !in bindings || item.status.Null? || item.statusSource.Null? {
          return false;
        }
        members := members[key.value := RowOf(MemberAt(members, key.value), item, revision, now)];
        i := i + 1;
      }
      return true;
    }

    method Discover(op: Op) returns (ok: bool)
      requires op.Discovery?
      modifies this
      ensures Effect(State(), ok) == Discovered(old(State()), op)
    {
      ok := CheckRevision(op.source, op.expected);
      if !ok {
        return;
      }
      members := Unadvertised(members, Scope(op.source, op.location, op.protocol));
      var normalized := [];
      for i := 0 to |op.items|
        invariant normalized == Placed(op.items, op.location, op.protocol)[..i]
      {
        normalized := normalized + [op.items[i].(location := Value(op.location), protocol := Value(op.protocol))];
      }
      assert normalized == Placed(op.items, op.location, op.protocol);
      ok := PutMembers(op.source, normalized, op.revision, op.expected, op.now);
    }

    method Prefer(key: MemberKey, auto: Option<bool>, priority: Option<int>, expected: Option<int>) returns (ok: bool)
      modifies this
      ensures Effect(State(), ok) == Preferred(old(State()), key, auto, priority, expected)
      ensures ok <==>
        && (expected.Some? ==> key.source in bindings && bindings[key.source].revision == expected.value)
        && (auto.Some? || priority.Some? ==> key in old(members) && (priority.Some? ==> -1 <= priority.value <= 5))
      ensures bindings == old(bindings) && evidence == old(evidence) && members.Keys == old(members).Keys
      ensures members - {key} == old(members) - {key} && (!ok ==> members == old(members))
      ensures ok && key in members ==>
        var was := old(members)[key];
        members[key] == was.(auto := if auto.Some? then auto.value else was.auto,
                             priority := if priority.Some? then priority.value else was.priority)
    {
      ok := CheckRevision(key.source, expected);
      if !ok || (auto.None? && priority.None?) {
        return;
      }
      if (priority.Some? && (priority.value < -1 || priority.value > 5)) || key !in members {
        return false;
      }
      var row := members[key];
      if auto.Some? {
        row := row.(auto := auto.value);
      }
      if priority.Some? {
        row := row.(priority := priority.value);
      }
      members := members[key := row];
    }

    method Record(channel: Channel, at: real, e: Evidence) returns (ok: bool)
      modifies this
      ensures Effect(State(), ok) == Recorded(old(State()), channel, at, e)
      ensures ok <==> channel.source in bindings && (channel in old(evidence) ==> at !in old(evidence)[channel])
      ensures bindings == old(bindings) && members == old(members)
    {
      var rows := if channel in evidence then evidence[channel] else map[];
      if channel.source !in bindings || at in rows {
        return false;
      }
      rows := rows[at := e];
      evidence := evidence[channel := Trimmed(rows, KEEP)];
      return true;
    }

    method Configure(op: Op) returns (ok: bool)
      requires op.Config?
      modifies this
      ensures Effect(State(), ok) == Configured(old(State()), op)
      ensures ok <==>
        && RevisionHolds(old(State()), op.source, op.expected) && op.source in old(bindings)
        && op.now !in RowsOf(old(State()), Channel(op.source, CONFIG, CURRENT))
      ensures !ok ==> State() == old(State())
      ensures ok ==>
        && op.source in bindings && bindings[op.source].lastOutcome == op.outcome
        && SightedAlike(old(bindings)[op.source], bindings[op.source], op)
        && bindings - {op.source} == old(bindings) - {op.source}
      ensures forall key :: key in old(members) ==> key in members && members[key] == old(members)[key]
      ensures forall key :: key in members && key !in old(members) ==>
        ok && ConfigKey(op) == Some(key) && !members[key].advertised
      ensures ok && ConfigKey(op).Some? ==> ConfigKey(op).value in members
    {
      hide Trimmed;
      ok := CheckRevision(op.source, op.expected);
      if !ok {
        return;
      }
      ok := Record(Channel(op.source, CONFIG, CURRENT), op.now,
                   Evidence(op.revision, Safe(op.server, op.place, op.proto), op.outcome));
      if !ok {
        return;
      }
      var b := bindings[op.source].(lastOutcome := op.outcome, updatedAt := op.now);
      if !op.server.Absent? || !op.place.Absent? || !op.proto.Absent? {
        b := b.(observedAt := Some(op.now));
        if !op.server.Absent? {
          b := b.(member := Get(op.server));
        }
        if !op.place.Absent? {
          b := b.(location := Get(op.place));
        }
        if !op.proto.Absent? {
          b := b.(observed := Get(op.proto));
        }
      }
      bindings := bindings[op.source := b];
      if op.server.Value? && op.place.Value? && op.proto.Value? {
        members := Sighted(members, MemberKey(op.source, op.server.text, op.place.text, op.proto.text), op.revision,
          op.now);
      }
    }

    method Serve(source: string, served: Served, expected: Option<int>) returns (ok: bool)
      modifies this
      ensures Effect(State(), ok) == ServedBy(old(State()), source, served, expected)
      ensures ok <==>
        expected.Some? ==> source in old(bindings) && old(bindings)[source].revision == expected.value
      ensures members == old(members) && evidence == old(evidence) && bindings.Keys == old(bindings).Keys
      ensures bindings - {source} == old(bindings) - {source} && (!ok ==> bindings == old(bindings))
      ensures ok && source in bindings ==>
        bindings[source] == old(bindings)[source].(applied := Some(served), updatedAt := served.at)
    {
      ok := CheckRevision(source, expected);
      if ok && source in bindings {
        bindings := bindings[source := bindings[source].(applied := Some(served), updatedAt := served.at)];
      }
    }

    method Call(op: Op) returns (ok: bool)
      modifies this
      ensures Effect(State(), ok) == Perform(old(State()), op)
    {
      match op
      case SaveBinding(source, terms, expected, now) =>
        ok := PutBinding(source, terms, expected, now);
      case SaveMembers(source, items, revision, expected, now) =>
        ok := PutMembers(source, items, revision, expected, now);
      case Discovery(_, _, _, _, _, _, _) =>
        ok := Discover(op);
      case Preference(key, auto, priority, expected) =>
        ok := Prefer(key, auto, priority, expected);
      case Config(_, _, _, _, _, _, _, _) =>
        ok := Configure(op);
      case Observation(channel, data, revision, outcome, expected, now) =>
        ok := CheckRevision(channel.source, expected);
        if ok {
          ok := Record(channel, now, Evidence(revision, Allowlisted(data), outcome));
        }
      case Applied(source, served, expected) =>
        ok := Serve(source, served, expected);
    }

    /** `db_session` around a list of calls: committed as a whole or not at all. */
    method Session(ops: seq<Op>) returns (ok: bool)
      modifies this
      ensures ok == All(old(State()), ops).done
      ensures State() == Sessions(old(State()), [ops])
    {
      hide Perform;
      var b, m, e := bindings, members, evidence;
      var i := 0;
      ok := true;
      while i < |ops| && ok
        invariant i <= |ops|
        invariant ok ==> All(State(), ops[i..]) == All(old(State()), ops)
        invariant !ok ==> !All(old(State()), ops).done
      {
        assert ops[i..][1..] == ops[i + 1..];
        ok := Call(ops[i]);
        i := i + 1;
      }
      if !ok {
        bindings, members, evidence := b, m, e;
      }
      assert ok ==> ops[i..] == [];
      assert [ops][1..] == [];
    }
  }
}
