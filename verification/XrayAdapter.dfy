/** `RealXrayAdapter`: the active configuration file, and the operations that replace it. */
module XrayAdapter {
  import opened Outcomes
  import opened Text
  import opened XrayConfig
  import opened XrayClients
  import opened XrayMerges

  // ----- the loops ------------------------------------------------------------------------------------

  /** `_materialize_managed_egress` on a loaded payload. */
  method MaterializeEgress(payload: Config, bindings: seq<Binding>, modes: seq<Directive>, assignments: seq<Assignment>)
    returns (r: Config)
    ensures r == Managed(payload, bindings, modes, assignments)
  {
    hide ModeRule, Steers, BoundTag, ManagedRule, ModeRules, BindingRules, TagsOf, Where;
    WhereEmpty(UnmanagedInbound);
    WhereEmpty(UnmanagedOutbound);
    WhereEmpty(UnmanagedRule);
    var inbounds := [];
    for i := 0 to |payload.inbounds|
      invariant inbounds == Where(payload.inbounds[..i], UnmanagedInbound)
    {
      WhereSnoc(payload.inbounds, i, UnmanagedInbound);
      if UnmanagedInbound(payload.inbounds[i]) {
        inbounds := inbounds + [payload.inbounds[i]];
      }
    }
    var outbounds := [];
    for i := 0 to |payload.outbounds|
      invariant outbounds == Where(payload.outbounds[..i], UnmanagedOutbound)
    {
      WhereSnoc(payload.outbounds, i, UnmanagedOutbound);
      if UnmanagedOutbound(payload.outbounds[i]) {
        outbounds := outbounds + [payload.outbounds[i]];
      }
    }
    var egress, tags := BuildEgress(assignments);
    var managed := BuildRules(bindings, modes, tags, assignments);
    var rules := [];
    for i := 0 to |payload.rules|
      invariant rules == Where(payload.rules[..i], UnmanagedRule)
    {
      WhereSnoc(payload.rules, i, UnmanagedRule);
      if UnmanagedRule(payload.rules[i]) {
        rules := rules + [payload.rules[i]];
      }
    }
    assert payload.inbounds[..|payload.inbounds|] == payload.inbounds;
    assert payload.outbounds[..|payload.outbounds|] == payload.outbounds;
    assert payload.rules[..|payload.rules|] == payload.rules;
    r := payload.(
      inbounds := inbounds + [ApiInbound],
      outbounds := FIXED + egress + outbounds,
      rules := [API_RULE] + managed + rules,
      stats := Section(if payload.stats.Absent? then 0 else payload.stats.rest,
                       payload.stats.Section? && payload.stats.managed),
      api := Manage(payload.api), policy := Manage(payload.policy), dns := Manage(payload.dns),
      strategy := if payload.strategy == "" then "AsIs" else payload.strategy);
    assert r.rules == [API_RULE] + ModeRules(modes) + BindingRules(bindings, assignments) + rules;
  }

  lemma WhereSnoc<T>(xs: seq<T>, i: nat, keep: T -> bool)
    requires i < |xs|
    ensures Where(xs[..i + 1], keep) == Where(xs[..i], keep) + if keep(xs[i]) then [xs[i]] else []
  {
    assert xs[..i + 1] == xs[..i] + [xs[i]];
    WhereAppend(xs[..i], [xs[i]], keep);
    WhereOne(xs[i], keep);
  }

  /** The tag in force for each server, as the dictionary has it. */
  ghost predicate TagsOf(tags: map<string, string>, assignments: seq<Assignment>) {
    forall s ::
      && (s in tags <==> Resolve(assignments, s).Some?)
      && (s in tags ==> tags[s] == Resolve(assignments, s).value.tag)
  }

  /** The same for the handoff outbounds. */
  ghost predicate OutboundsOf(outbounds: map<string, Outbound>, assignments: seq<Assignment>) {
    forall s ::
      && (s in outbounds <==> Resolve(assignments, s).Some?)
      && (s in outbounds ==>
            outbounds[s] == Outbound(Resolve(assignments, s).value.tag, Socks(Resolve(assignments, s).value.port)))
  }

  /** The two dictionaries keyed by server, filled assignment by assignment: a later one for
      the same server replaces the value and keeps the place. */
  method BuildEgress(assignments: seq<Assignment>) returns (egress: seq<Outbound>, tags: map<string, string>)
    ensures egress == EgressOf(assignments) && TagsOf(tags, assignments)
  {
    hide Resolve, Servers, TagsOf, OutboundsOf;
    var outbounds: map<string, Outbound> := map[];
    var order: seq<string> := [];
    tags := map[];
    NoAssignments();
    for i := 0 to |assignments|
      invariant order == Servers(assignments[..i])
      invariant TagsOf(tags, assignments[..i]) && OutboundsOf(outbounds, assignments[..i])
    {
      var a := assignments[i];
      OneMoreAssignment(assignments, i);
      OneMoreEntry(assignments, i, tags, outbounds);
      if a.server !in outbounds {
        order := order + [a.server];
      }
      outbounds := outbounds[a.server := Outbound(a.tag, Socks(a.port))];
      tags := tags[a.server := a.tag];
    }
    assert assignments[..|assignments|] == assignments;
    egress := ListEgress(assignments, outbounds, order);
  }

  /** The values of the dictionary, in the order of its keys. */
  method ListEgress(ghost assignments: seq<Assignment>, outbounds: map<string, Outbound>, order: seq<string>)
    returns (egress: seq<Outbound>)
    requires OutboundsOf(outbounds, assignments) && order == Servers(assignments)
    ensures egress == EgressOf(assignments)
  {
    hide Resolve, Servers;
    ServersResolve(assignments);
    egress := [];
    for k := 0 to |order|
      invariant forall s :: s in order ==> Resolve(assignments, s).Some?
      invariant egress + Egress(assignments, order[k..]) == Egress(assignments, order)
    {
      assert order[k..][1..] == order[k + 1..];
      egress := egress + [outbounds[order[k]]];
    }
    assert egress + [] == egress;
  }

  lemma OneMoreEntry(assignments: seq<Assignment>, i: nat, tags: map<string, string>, outbounds: map<string, Outbound>)
    requires i < |assignments| && TagsOf(tags, assignments[..i]) && OutboundsOf(outbounds, assignments[..i])
    ensures var a := assignments[i];
      && TagsOf(tags[a.server := a.tag], assignments[..i + 1])
      && OutboundsOf(outbounds[a.server := Outbound(a.tag, Socks(a.port))], assignments[..i + 1])
      && (a.server in outbounds <==> Resolve(assignments[..i], a.server).Some?)
  {
    hide Resolve, Servers;
    OneMoreAssignment(assignments, i);
  }

  lemma NoAssignments()
    ensures Servers([]) == [] && TagsOf(map[], []) && OutboundsOf(map[], [])
  {
  }

  lemma OneMoreAssignment(assignments: seq<Assignment>, i: nat)
    requires i < |assignments|
    ensures Servers(assignments[..i + 1]) == Servers(assignments[..i])
      + if Resolve(assignments[..i], assignments[i].server).Some? then [] else [assignments[i].server]
    ensures forall s ::
      Resolve(assignments[..i + 1], s) ==
      if assignments[i].server == s then Some(assignments[i]) else Resolve(assignments[..i], s)
  {
    hide Resolve;
    var before, last := assignments[..i], assignments[i];
    assert assignments[..i + 1] == before + [last];
    assert assignments[..i + 1][..i] == before;
    ServersResolve(before);
    forall s ensures Resolve(before + [last], s) == if last.server == s then Some(last) else Resolve(before, s) {
      ResolveSnoc(before, last, s);
    }
  }

  /** The directives' rules, then the bindings'. */
  method BuildRules(bindings: seq<Binding>, modes: seq<Directive>, tags: map<string, string>,
                    ghost assignments: seq<Assignment>)
    returns (rules: seq<Rule>)
    requires TagsOf(tags, assignments)
    ensures rules == ModeRules(modes) + BindingRules(bindings, assignments)
  {
    hide ModeRule, Steers, BoundTag;
    rules := [];
    for i := 0 to |modes|
      invariant rules == ModeRules(modes[..i])
    {
      ModeRulesSnoc(modes, i);
      if Steers(modes[i]) {
        rules := rules + [ModeRule(modes[i])];
      }
    }
    assert modes[..|modes|] == modes;
    for i := 0 to |bindings|
      invariant rules == ModeRules(modes) + BindingRules(bindings[..i], assignments)
    {
      BindingRulesSnoc(bindings, i, assignments);
      var email, server := Strip(bindings[i].email), Strip(bindings[i].server);
      TagInForce(bindings[i], tags, assignments);
      if email != "" && server in tags && tags[server] != "" {
        rules := rules + [Rule(Some([INBOUND]), Some([email]), tags[server], 0)];
      }
    }
    assert bindings[..|bindings|] == bindings;
  }

  lemma TagInForce(b: Binding, tags: map<string, string>, assignments: seq<Assignment>)
    requires TagsOf(tags, assignments)
    ensures BoundTag(b, assignments) ==
      if Strip(b.email) != "" && Strip(b.server) in tags && tags[Strip(b.server)] != ""
      then Some(tags[Strip(b.server)]) else None
  {
    hide Resolve, Strip;
  }

  lemma NoModes()
    ensures ModeRules([]) == []
  {
  }

  lemma ModesFrom(modes: seq<Directive>)
    requires modes != []
    ensures ModeRules(modes) == (if Steers(modes[0]) then [ModeRule(modes[0])] else []) + ModeRules(modes[1..])
  {
    hide ModeRule, Steers;
  }

  lemma {:induction false} ModeRulesAppend(a: seq<Directive>, b: seq<Directive>)
    ensures ModeRules(a + b) == ModeRules(a) + ModeRules(b)
  {
    hide ModeRules;
    if a == [] {
      assert a + b == b;
      NoModes();
    } else {
      assert (a + b)[1..] == a[1..] + b && (a + b)[0] == a[0];
      ModesFrom(a);
      ModesFrom(a + b);
      ModeRulesAppend(a[1..], b);
    }
  }

  lemma ModeRulesSnoc(modes: seq<Directive>, i: nat)
    requires i < |modes|
    ensures ModeRules(modes[..i + 1]) == ModeRules(modes[..i]) + if Steers(modes[i]) then [ModeRule(modes[i])] else []
  {
    hide ModeRule, Steers;
    assert modes[..i + 1] == modes[..i] + [modes[i]];
    ModeRulesAppend(modes[..i], [modes[i]]);
    assert [modes[i]][1..] == [];
  }

  lemma {:induction false} BindingRulesAppend(a: seq<Binding>, b: seq<Binding>, assignments: seq<Assignment>)
    ensures BindingRules(a + b, assignments) == BindingRules(a, assignments) + BindingRules(b, assignments)
  {
    hide BoundTag;
    if a == [] {
      assert a + b == b;
    } else {
      assert (a + b)[1..] == a[1..] + b;
      BindingRulesAppend(a[1..], b, assignments);
    }
  }

  lemma BindingRulesSnoc(bindings: seq<Binding>, i: nat, assignments: seq<Assignment>)
    requires i < |bindings|
    ensures BindingRules(bindings[..i + 1], assignments) ==
      BindingRules(bindings[..i], assignments) + BindingRules([bindings[i]], assignments)
    ensures BindingRules([bindings[i]], assignments) ==
      if BoundTag(bindings[i], assignments).Some?
      then [Rule(Some([INBOUND]), Some([Strip(bindings[i].email)]), BoundTag(bindings[i], assignments).value, 0)]
      else []
  {
    hide BoundTag;
    assert bindings[..i + 1] == bindings[..i] + [bindings[i]];
    BindingRulesAppend(bindings[..i], [bindings[i]], assignments);
    assert [bindings[i]][1..] == [];
  }

  /** The client loop of `reconcile_clients`. */
  method ReconcileClients(clients: seq<Client>, desired: seq<Desired>, prefixes: seq<string>, mint: string)
    returns (now: seq<Client>)
    ensures now == Reconciled(clients, desired, prefixes, IdOr(mint))
    ensures exists at :: Merged(clients, desired, prefixes, mint, true, now, at)
  {
    hide Fold, Strip, Keeps, Wanted, AliasFor, Keys, IdOr, Merged;
    ghost var at := ReconciledIsMerged(clients, desired, prefixes, mint);
    var kept := [];
    for i := 0 to |clients|
      invariant kept == Kept(clients[..i], desired, prefixes)
    {
      assert clients[..i + 1][..i] == clients[..i];
      if Keeps(clients[i], desired, prefixes) {
        kept := kept + [clients[i]];
      }
    }
    assert clients[..|clients|] == clients;
    now := MergeByEmail(kept, desired, mint);
    KeysAreWanted(desired);
    forall i | 0 <= i < |kept| && Fold(kept[i].email) !in Keys(desired)
      ensures Aliased(kept[i], AliasFor(desired, Fold(kept[i].email))) == kept[i]
    {
      NoAliasUnwanted(desired, Fold(kept[i].email));
    }
  }

  lemma NoAliasUnwanted(desired: seq<Desired>, key: string)
    requires Wanted(desired, key).None?
    ensures AliasFor(desired, key) == ""
  {
  }

  lemma NothingAliased(kept: seq<Client>, desired: seq<Desired>)
    ensures LastAliased(kept, kept, desired, [])
  {
  }

  lemma AliasOneKey(kept: seq<Client>, now: seq<Client>, desired: seq<Desired>, keys: seq<string>, n: nat)
    requires n < |keys| && LastAliased(kept, now, desired, keys[..n])
    requires forall i, j :: 0 <= i < j < |keys| ==> keys[i] != keys[j]
    ensures match LastUnder(kept, keys[n])
      case None => LastAliased(kept, now, desired, keys[..n + 1])
      case Some(i) =>
        i < |kept| && LastAliased(kept, now[i := Aliased(now[i], AliasFor(desired, keys[n]))], desired, keys[..n + 1])
  {
    hide Fold, Strip, Wanted, AliasFor, Aliased, LastUnder;
    LastUnderIsLast(kept, keys[n]);
    assert forall k :: k in keys[..n + 1] <==> k in keys[..n] || k == keys[n];
    assert keys[n] !in keys[..n];
  }

  lemma AliasesStay(kept: seq<Client>, now: seq<Client>, desired: seq<Desired>, done: seq<string>, c: Client)
    requires LastAliased(kept, now, desired, done)
    ensures LastAliased(kept, now + [c], desired, done)
  {
    hide Fold, Aliased, AliasFor;
  }

  /** Aliases for the last kept client under each key, new clients for the other keys. */
  method MergeByEmail(kept: seq<Client>, desired: seq<Desired>, mint: string) returns (now: seq<Client>)
    ensures forall k :: k in Keys(desired) ==> Wanted(desired, k).Some?
    ensures |now| == |kept| + |Created(kept, desired, Keys(desired), IdOr(mint))|
    ensures LastAliased(kept, now, desired, Keys(desired))
    ensures now[|kept|..] == Created(kept, desired, Keys(desired), IdOr(mint))
  {
    hide Fold, Strip, Wanted, AliasFor, Keys, IdOr, NewClient, LastAliased, LastUnder;
    KeysAreWanted(desired);
    NothingAliased(kept, desired);
    now := kept;
    var keys := Keys(desired);
    for n := 0 to |keys|
      invariant forall k :: k in keys[..n] ==> k in keys
      invariant |now| >= |kept| && keys == Keys(desired) && LastAliased(kept, now, desired, keys[..n])
      invariant now[|kept|..] == Created(kept, desired, keys[..n], IdOr(mint))
    {
      assert keys[..n + 1] == keys[..n] + [keys[n]] && keys[..n + 1][..n] == keys[..n];
      LastUnderIsLast(kept, keys[n]);
      AliasOneKey(kept, now, desired, keys, n);
      var found := LastUnder(kept, keys[n]);
      var alias := AliasFor(desired, keys[n]);
      ghost var was := now;
      if found.Some? {
        now := now[found.value := Aliased(now[found.value], alias)];
        assert now[|kept|..] == was[|kept|..];
      } else {
        var d := Wanted(desired, keys[n]).value;
        now := now + [NewClient(d, IdOr(mint)(d))];
        AliasesStay(kept, was, desired, keys[..n + 1], NewClient(d, IdOr(mint)(d)));
        assert now[|kept|..] == was[|kept|..] + [NewClient(d, IdOr(mint)(d))];
      }
    }
    assert keys[..|keys|] == keys;
  }

  lemma StagedMerges(clients: seq<Client>, desired: seq<Desired>, prefixes: seq<string>)
    ensures var r := Staged(clients, desired, prefixes);
      && (r.Ok? ==> exists at :: Merged(clients, desired, prefixes, "", false, r.value, at))
      && (r.Failed? ==> exists at, key, n ::
            Survivors(clients, desired, prefixes, at) && LastEntry(desired, key, n) && Missing(clients, at, key)
              && Strip(desired[n].uuid) == "")
  {
    hide Fold, Strip, Staged, Merged, Survivors, LastEntry, Missing;
    var at := StagedIsMerged(clients, desired, prefixes, "");
  }

  /** The client loop of `stage_subscription_generation`. */
  method StageClients(clients: seq<Client>, desired: seq<Desired>, prefixes: seq<string>)
    returns (r: Result<seq<Client>>)
    ensures r == Staged(clients, desired, prefixes)
    ensures r.Ok? ==> exists at :: Merged(clients, desired, prefixes, "", false, r.value, at)
    ensures r.Failed? ==> exists at, key, n ::
      Survivors(clients, desired, prefixes, at) && LastEntry(desired, key, n) && Missing(clients, at, key)
        && Strip(desired[n].uuid) == ""
  {
    hide Fold, Strip, Keeps, Wanted, AliasFor, Aliased, Keys, NewClient, Has, Merged, Survivors, LastEntry, Missing;
    StagedMerges(clients, desired, prefixes);
    KeysAreWanted(desired);
    var next := [];
    ghost var kept := [];
    for i := 0 to |clients|
      invariant kept == Kept(clients[..i], desired, prefixes) && |next| == |kept|
      invariant forall k :: 0 <= k < |kept| ==> next[k] == Aliased(kept[k], AliasFor(desired, Fold(kept[k].email)))
    {
      assert clients[..i + 1][..i] == clients[..i];
      if Keeps(clients[i], desired, prefixes) {
        kept := kept + [clients[i]];
        next := next + [Aliased(clients[i], AliasFor(desired, Fold(clients[i].email)))];
      }
    }
    assert clients[..|clients|] == clients;
    ghost var merged := next;
    assert merged == seq(|kept|,
      i requires 0 <= i < |kept| => Aliased(kept[i], AliasFor(desired, Fold(kept[i].email))));
    var keys := Keys(desired);
    var have := next;
    for n := 0 to |keys|
      invariant forall k :: k in keys[..n] ==> k in keys
      invariant next == merged + Created(kept, desired, keys[..n], OwnId)
      invariant forall k :: k in keys[..n] ==> Has(kept, k) || Strip(Wanted(desired, k).value.uuid) != ""
    {
      assert keys[..n + 1] == keys[..n] + [keys[n]] && keys[..n + 1][..n] == keys[..n];
      AliasesKeepEmails(kept, have, desired, keys[n]);
      if !Has(have, keys[n]) {
        var d := Wanted(desired, keys[n]).value;
        if Strip(d.uuid) == "" {
          return Failed;
        }
        next := next + [NewClient(d, OwnId(d))];
      }
    }
    assert keys[..|keys|] == keys;
    return Ok(next);
  }

  lemma AliasesKeepEmails(kept: seq<Client>, have: seq<Client>, desired: seq<Desired>, key: string)
    requires |have| == |kept|
    requires forall k :: 0 <= k < |kept| ==> have[k] == Aliased(kept[k], AliasFor(desired, Fold(kept[k].email)))
    ensures Has(have, key) <==> Has(kept, key)
  {
  }

  /** `_materialize_client_binding_metadata`. */
  method BindMetadata(clients: seq<Client>, bindings: seq<Binding>) returns (updated: seq<Client>)
    ensures updated == AllBound(clients, bindings)
    ensures |updated| == |clients|
    ensures forall k :: 0 <= k < |clients| ==> updated[k] == clients[k].(binding := updated[k].binding)
    ensures forall k, n :: 0 <= k < |clients| && LastNaming(bindings, Strip(clients[k].id), n) ==>
      updated[k].binding == Some(bindings[n])
    ensures forall k :: 0 <= k < |clients| && (forall n :: !Naming(bindings, Strip(clients[k].id), n)) ==>
      updated[k].binding == None
  {
    hide BindingOf, Strip;
    forall k | 0 <= k < |clients|
      ensures forall n :: LastNaming(bindings, Strip(clients[k].id), n) ==>
        BindingOf(bindings, Strip(clients[k].id)) == Some(bindings[n])
      ensures (forall n :: !Naming(bindings, Strip(clients[k].id), n)) ==>
        BindingOf(bindings, Strip(clients[k].id)) == None
    {
      BindingOfIsLast(bindings, Strip(clients[k].id));
    }
    updated := [];
    for i := 0 to |clients|
      invariant |updated| == i && forall k :: 0 <= k < i ==> updated[k] == Bound(clients[k], bindings)
    {
      updated := updated + [Bound(clients[i], bindings)];
    }
  }

  // ----- the adapter ------------------------------------------------------------------------------------------

  class Adapter {
    var active: Config
    var lastGood: Option<Config>

    constructor (active: Config)
      ensures this.active == active && lastGood == None
    {
      this.active, this.lastGood := active, None;
    }

    /** Replaces the active configuration by a validated candidate; a failing reload puts
        the remembered one back. */
    method Replace(candidate: Config, valid: bool, reloads: bool) returns (ok: bool)
      requires lastGood == Some(active)
      modifies `active
      ensures ok <==> valid && reloads
      ensures active == if ok then candidate else old(active)
    {
      if !valid {
        return false;
      }
      active := candidate;
      if !reloads {
        active := lastGood.value;
      }
      return reloads;
    }

    /** `reconcile_clients`, where native validation and reload answer as given. */
    method Reconcile(desired: seq<Desired>, prefixes: seq<string>, mint: string, valid: bool, reloads: bool)
      returns (ok: bool)
      modifies this
      ensures ClientInbound(old(active).inbounds).None? ==> !ok && active == old(active)
      ensures ClientInbound(old(active).inbounds).Some? ==>
        var next := ReconciledConfig(old(active), desired, prefixes, mint);
        && (ok <==> next == old(active) || (valid && reloads)) && active == if ok then next else old(active)
    {
      hide Reconciled, Fold, Strip;
      var index := ClientInbound(active.inbounds);
      if index.None? {
        return false;
      }
      ClientInboundIsFirst(active.inbounds);
      lastGood := Some(active);
      var payload := active;
      var clients := ReconcileClients(payload.inbounds[index.value].clients, desired, prefixes, mint);
      var inbound := payload.inbounds[index.value].(clients := clients);
      payload := payload.(inbounds := payload.inbounds[index.value := inbound]);
      if payload == active {
        return true;
      }
      ok := Replace(payload, valid, reloads);
    }

    /** `materialize_client_bindings`. */
    method Materialize(bindings: seq<Binding>, modes: seq<Directive>, assignments: seq<Assignment>, force: bool,
                       valid: bool, reloads: bool)
      returns (ok: bool)
      modifies this
      ensures ClientInbound(old(active).inbounds).None? ==> !ok && active == old(active)
      ensures ClientInbound(old(active).inbounds).Some? ==>
        var next := MaterializedConfig(old(active), bindings, modes, assignments);
        && (ok <==> (!force && next == old(active)) || (valid && reloads)) && active == if ok then next else old(active)
    {
      hide Managed, AllBound;
      var index := ClientInbound(active.inbounds);
      if index.None? {
        return false;
      }
      ClientInboundIsFirst(active.inbounds);
      lastGood := Some(active);
      var payload := active;
      var inbound := payload.inbounds[index.value].(tag := INBOUND);
      var clients := BindMetadata(inbound.clients, bindings);
      payload := payload.(inbounds := payload.inbounds[index.value := inbound.(clients := clients)]);
      payload := MaterializeEgress(payload, bindings, modes, assignments);
      if !force && payload == active {
        return true;
      }
      ok := Replace(payload, valid, reloads);
    }

    /** `stage_subscription_generation`, which leaves the active configuration alone. */
    method Stage(desired: seq<Desired>, prefixes: seq<string>, bindings: seq<Binding>, modes: seq<Directive>,
                 assignments: seq<Assignment>, valid: bool) returns (r: Result<Config>)
      ensures r.Ok? ==> ClientInbound(active.inbounds).Some? && valid
      ensures ClientInbound(active.inbounds).Some? ==>
        r == if valid then StagedConfig(active, desired, prefixes, bindings, modes, assignments) else Failed
    {
      hide Managed, AllBound, Staged;
      var index := ClientInbound(active.inbounds);
      if index.None? {
        return Failed;
      }
      ClientInboundIsFirst(active.inbounds);
      var payload := active;
      var inbound := payload.inbounds[index.value].(tag := INBOUND);
      var staged :- StageClients(inbound.clients, desired, prefixes);
      var clients := BindMetadata(staged, bindings);
      payload := payload.(inbounds := payload.inbounds[index.value := inbound.(clients := clients)]);
      payload := MaterializeEgress(payload, bindings, modes, assignments);
      return if valid then Ok(payload) else Failed;
    }

    /** `apply_staged_subscription_generation`: the staged bytes become active even when the
        reload fails. */
    method ApplyStaged(staged: Config, reloads: bool) returns (ok: bool)
      modifies this
      ensures active == staged && (ok <==> staged == old(active) || reloads)
    {
      if staged == active {
        return true;
      }
      lastGood := Some(active);
      active := staged;
      return reloads;
    }

    /** MAIN: when every call succeeds, staging first and applying the result leaves what
        reconcile and then materialize leave, exactly when no alias is lost to a repeated
        e-mail. `other` starts from the same configuration and takes the second path. */
    method TwoPaths(other: Adapter, desired: seq<Desired>, prefixes: seq<string>, mint: string,
                    bindings: seq<Binding>, modes: seq<Directive>, assignments: seq<Assignment>)
      requires other != this && other.active == active && ClientInbound(active.inbounds).Some? && AllHaveUuids(desired)
      modifies this, other
      ensures active == other.active <==> !LosesAlias(Kept(ClientsOf(old(active)), desired, prefixes), desired)
    {
      hide Managed, AllBound, Staged, Reconciled, LosesAlias, Kept, Finished;
      StagedIsReconciledThenMaterialized(active, desired, prefixes, mint, bindings, modes, assignments);
      ListsAgree(ClientsOf(active), desired, prefixes, mint);
      var staged := Stage(desired, prefixes, bindings, modes, assignments, true);
      var applied := ApplyStaged(staged.value, true);
      var reconciled := other.Reconcile(desired, prefixes, mint, true, true);
      var materialized := other.Materialize(bindings, modes, assignments, false, true, true);
    }
  }
}
