/** Where the managed configuration sends a connection, and what it consists of, said of the
    single directives, bindings, assignments and rules it is made from. */
module XrayRouting {
  import opened Outcomes
  import opened Text
  import opened XrayConfig

  const STEERING := {"direct", "disabled", "unsupported_selective"}

  // ----- the terms ------------------------------------------------------------------------------------

  /** No directive of the user has an effective mode that steers. */
  predicate Undirected(modes: seq<Directive>, user: string) {
    forall j :: 0 <= j < |modes| && Strip(modes[j].email) == user ==> Fold(modes[j].mode) !in STEERING
  }

  /** The last assignment of a server. */
  predicate InForce(assignments: seq<Assignment>, server: string, n: int) {
    && 0 <= n < |assignments| && assignments[n].server == server
    && forall m :: n < m < |assignments| ==> assignments[m].server != server
  }

  /** None of the first `i` bindings of the user leads to a tag. */
  ghost predicate Unbound(bindings: seq<Binding>, i: nat, assignments: seq<Assignment>, user: string)
    requires i <= |bindings|
  {
    forall j, m :: 0 <= j < i && Strip(bindings[j].email) == user && InForce(assignments, Strip(bindings[j].server), m)
      ==> assignments[m].tag == ""
  }

  predicate OwnTag(tag: string) {
    && tag != "fwrouter-api" && tag != "blocked-until-fwrouter-dataplane" && tag != "fwrouter-explicit-direct"
    && tag != "fwrouter-dns-out" && !StartsWith(tag, "fwrouter-egress-")
  }

  /** A rule of the configuration's owner. */
  predicate OwnRule(r: Rule) {
    && OwnTag(r.outbound)
    && (r.inbounds.Some? ==>
      "fwrouter-api" !in r.inbounds.value && ("vless-ws" in r.inbounds.value ==> r.users.None?))
  }

  // ----- routing -------------------------------------------------------------------------------------------

  lemma {:induction false} FirstDirectiveAt(modes: seq<Directive>, user: string, i: nat)
    requires user != "" && i < |modes| && Undirected(modes[..i], user)
    requires Strip(modes[i].email) == user && Fold(modes[i].mode) in STEERING
    ensures FirstDirective(modes, user) == Some(modes[i])
  {
    hide Strip, Fold;
    if i > 0 {
      assert modes[..i][0] == modes[0];
      assert modes[1..][..i - 1] == modes[..i][1..];
      FirstDirectiveAt(modes[1..], user, i - 1);
    }
  }

  lemma {:induction false} NoDirectiveAt(modes: seq<Directive>, user: string)
    requires user == "" || Undirected(modes, user)
    ensures FirstDirective(modes, user) == None
  {
    hide Strip, Fold;
    if modes != [] {
      NoDirectiveAt(modes[1..], user);
    }
  }

  /** MAIN: the first directive of a user whose mode is one of the three steering ones decides
      where the user's connections go: out directly or into the blackhole. */
  lemma DirectedClient(c: Config, bindings: seq<Binding>, modes: seq<Directive>, assignments: seq<Assignment>,
                       k: Connection, i: nat)
    requires k.inbound == "vless-ws" && k.user != "" && i < |modes|
    requires Strip(modes[i].email) == k.user && Fold(modes[i].mode) in STEERING && Undirected(modes[..i], k.user)
    ensures Route(Managed(c, bindings, modes, assignments).rules, k)
         == Some(if Fold(modes[i].mode) == "direct" then "fwrouter-explicit-direct"
                 else "blocked-until-fwrouter-dataplane")
  {
    hide Managed, Route, Strip, Fold;
    FirstDirectiveAt(modes, k.user, i);
    ManagedRouting(c, bindings, modes, assignments, k);
  }

  lemma {:induction false} ResolveInForce(assignments: seq<Assignment>, server: string)
    ensures forall n :: InForce(assignments, server, n) ==> Resolve(assignments, server) == Some(assignments[n])
    ensures Resolve(assignments, server).Some? ==> exists n :: InForce(assignments, server, n)
  {
    if assignments != [] {
      var rest := assignments[1..];
      ResolveInForce(rest, server);
      if Resolve(rest, server).Some? {
        var m :| InForce(rest, server, m);
        assert assignments[m + 1].server == server;
      }
      forall n | InForce(assignments, server, n) ensures Resolve(assignments, server) == Some(assignments[n]) {
        if n > 0 {
          assert InForce(rest, server, n - 1);
        }
      }
      if Resolve(rest, server).Some? {
        var m :| InForce(rest, server, m);
        assert InForce(assignments, server, m + 1);
      } else if assignments[0].server == server {
        forall m | 0 < m < |assignments| ensures assignments[m].server != server {
          if assignments[m].server == server {
            assert rest[m - 1].server == server;
            LastOf(rest, server, m - 1);
          }
        }
        assert InForce(assignments, server, 0);
      }
    }
  }

  /** A server that is assigned has a last assignment. */
  lemma LastOf(assignments: seq<Assignment>, server: string, n: nat)
    requires n < |assignments| && assignments[n].server == server
    ensures exists m :: InForce(assignments, server, m)
    decreases |assignments| - n
  {
    if !InForce(assignments, server, n) {
      var m :| n < m < |assignments| && assignments[m].server == server;
      LastOf(assignments, server, m);
    }
  }

  lemma {:induction false} FirstBoundAt(bindings: seq<Binding>, assignments: seq<Assignment>, user: string, i: nat,
                                        n: nat)
    requires user != "" && i < |bindings| && Unbound(bindings, i, assignments, user)
    requires Strip(bindings[i].email) == user && InForce(assignments, Strip(bindings[i].server), n)
    requires assignments[n].tag != ""
    ensures FirstBound(bindings, assignments, user) == Some(assignments[n].tag)
  {
    hide Strip, Resolve, InForce;
    ResolveInForce(assignments, Strip(bindings[0].server));
    if i > 0 {
      FirstBoundAt(bindings[1..], assignments, user, i - 1, n);
    }
  }

  lemma {:induction false} NoneBoundAt(bindings: seq<Binding>, assignments: seq<Assignment>, user: string)
    requires user == "" || Unbound(bindings, |bindings|, assignments, user)
    ensures FirstBound(bindings, assignments, user) == None
  {
    hide Strip, Resolve, InForce;
    if bindings != [] {
      ResolveInForce(assignments, Strip(bindings[0].server));
      NoneBoundAt(bindings[1..], assignments, user);
    }
  }

  /** MAIN: a user no directive steers goes, by the first binding whose server's last assignment
      has a tag, to that tag, which a handoff to that assignment's port carries. */
  lemma BoundClient(c: Config, bindings: seq<Binding>, modes: seq<Directive>, assignments: seq<Assignment>,
                    k: Connection, i: nat, n: nat)
    requires k.inbound == "vless-ws" && k.user != "" && Undirected(modes, k.user)
    requires i < |bindings| && Strip(bindings[i].email) == k.user && Unbound(bindings, i, assignments, k.user)
    requires InForce(assignments, Strip(bindings[i].server), n) && assignments[n].tag != ""
    ensures Route(Managed(c, bindings, modes, assignments).rules, k) == Some(assignments[n].tag)
    ensures Outbound(assignments[n].tag, Socks(assignments[n].port)) in Managed(c, bindings, modes,
      assignments).outbounds
  {
    hide Route, Strip, Fold, Resolve, InForce;
    NoDirectiveAt(modes, k.user);
    FirstBoundAt(bindings, assignments, k.user, i, n);
    ManagedRouting(c, bindings, modes, assignments, k);
    ResolveInForce(assignments, Strip(bindings[i].server));
    BoundTagNamesItsEgress(bindings[i], assignments);
  }

  // ----- every other connection ----------------------------------------------------------------------------

  lemma OwnRuleExactly(r: Rule)
    ensures UnmanagedRule(r) <==> OwnRule(r)
  {
  }

  /** What is left of the owner's rules sends a connection where the first of them that
      matches does, `i` being its index, or |rules| if there is none. */
  lemma {:induction false} FirstOwnRule(rules: seq<Rule>, k: Connection, i: nat)
    requires i <= |rules| && forall j :: 0 <= j < i ==> !(OwnRule(rules[j]) && Matches(rules[j], k))
    requires i < |rules| ==> OwnRule(rules[i]) && Matches(rules[i], k)
    ensures Route(Where(rules, UnmanagedRule), k) == if i < |rules| then Some(rules[i].outbound) else None
  {
    hide OwnRule, ManagedRule, Matches;
    if rules != [] {
      var rest := Where(rules[1..], UnmanagedRule);
      OwnRuleExactly(rules[0]);
      if i > 0 {
        FirstOwnRule(rules[1..], k, i - 1);
      }
      if OwnRule(rules[0]) {
        assert Where(rules, UnmanagedRule) == [rules[0]] + rest;
        assert ([rules[0]] + rest)[1..] == rest;
      } else {
        assert Where(rules, UnmanagedRule) == rest;
      }
    }
  }

  lemma {:induction false} OtherInboundsSkip(bindings: seq<Binding>, modes: seq<Directive>,
                                             assignments: seq<Assignment>, k: Connection)
    requires k.inbound != INBOUND
    ensures Route(ModeRules(modes), k) == None && Route(BindingRules(bindings, assignments), k) == None
  {
    hide Steers, BoundTag, Strip, Fold;
    if modes != [] {
      OtherInboundsSkip(bindings, modes[1..], assignments, k);
      var rest := ModeRules(modes[1..]);
      assert ([ModeRule(modes[0])] + rest)[1..] == rest && [] + rest == rest;
    } else if bindings != [] {
      OtherInboundsSkip(bindings[1..], modes, assignments, k);
      var rest := BindingRules(bindings[1..], assignments);
      var tag := BoundTag(bindings[0], assignments);
      if tag.Some? {
        var rule := Rule(Some([INBOUND]), Some([Strip(bindings[0].email)]), tag.value, 0);
        assert ([rule] + rest)[1..] == rest;
      }
      assert [] + rest == rest;
    }
  }

  lemma OtherInbounds(c: Config, bindings: seq<Binding>, modes: seq<Directive>, assignments: seq<Assignment>,
                      k: Connection)
    requires k.inbound != INBOUND
    ensures Route(Managed(c, bindings, modes, assignments).rules, k)
         == if k.inbound == API then Some(API) else Route(Where(c.rules, UnmanagedRule), k)
  {
    var kept := Where(c.rules, UnmanagedRule);
    var bound, steered := BindingRules(bindings, assignments), ModeRules(modes);
    OtherInboundsSkip(bindings, modes, assignments, k);
    assert [API_RULE][1..] == [];
    hide Where, BindingRules, ModeRules;
    RouteAppend([API_RULE], steered, k);
    RouteAppend([API_RULE] + steered, bound, k);
    RouteAppend([API_RULE] + steered + bound, kept, k);
  }

  /** The managed API inbound reaches the API, whatever else is configured. */
  lemma ApiConnection(c: Config, bindings: seq<Binding>, modes: seq<Directive>, assignments: seq<Assignment>,
                      k: Connection)
    requires k.inbound == "fwrouter-api"
    ensures Route(Managed(c, bindings, modes, assignments).rules, k) == Some("fwrouter-api")
  {
    OtherInbounds(c, bindings, modes, assignments, k);
  }

  /** MAIN: every other connection goes by the owner's own rules, the first that matches. */
  lemma OtherConnection(c: Config, bindings: seq<Binding>, modes: seq<Directive>, assignments: seq<Assignment>,
                        k: Connection, i: nat)
    requires k.inbound != "fwrouter-api"
    requires k.inbound == "vless-ws" && k.user != "" ==>
      Undirected(modes, k.user) && Unbound(bindings, |bindings|, assignments, k.user)
    requires i <= |c.rules| && forall j :: 0 <= j < i ==> !(OwnRule(c.rules[j]) && Matches(c.rules[j], k))
    requires i < |c.rules| ==> OwnRule(c.rules[i]) && Matches(c.rules[i], k)
    ensures Route(Managed(c, bindings, modes, assignments).rules, k)
         == if i < |c.rules| then Some(c.rules[i].outbound) else None
  {
    hide Managed, Route, Strip, Fold, Where, OwnRule, Matches, InForce;
    FirstOwnRule(c.rules, k, i);
    if k.inbound == INBOUND {
      NoDirectiveAt(modes, k.user);
      NoneBoundAt(bindings, assignments, k.user);
      ManagedRouting(c, bindings, modes, assignments, k);
    } else {
      OtherInbounds(c, bindings, modes, assignments, k);
    }
  }

  // ----- the other sections ------------------------------------------------------------------------------------

  /** The outbounds are the four fixed ones, one handoff per server, by its last assignment, and
      the owner's own. */
  lemma OutboundsExactly(c: Config, bindings: seq<Binding>, modes: seq<Directive>, assignments: seq<Assignment>,
                         o: Outbound)
    ensures o in Managed(c, bindings, modes, assignments).outbounds <==>
      || o in {Outbound("fwrouter-api", ApiFreedom), Outbound("blocked-until-fwrouter-dataplane", Blackhole),
               Outbound("fwrouter-explicit-direct", DirectFreedom), Outbound("fwrouter-dns-out", DnsProxy)}
      || (exists n :: 0 <= n < |assignments| && InForce(assignments, assignments[n].server, n)
            && o == Outbound(assignments[n].tag, Socks(assignments[n].port)))
      || (o in c.outbounds && OwnTag(o.tag))
  {
    var egress, kept := EgressOf(assignments), Where(c.outbounds, UnmanagedOutbound);
    WhereTwice(c.outbounds, UnmanagedOutbound);
    EgressExactly(assignments, o);
    assert OwnTag(o.tag) <==> UnmanagedOutbound(o);
    assert o in FIXED + egress + kept <==> o in FIXED || o in egress || o in kept;
  }

  predicate Completed(before: Section, after: Section) {
    after.Section? && after.managed && after.rest == if before.Section? then before.rest else 0
  }

  /** The inbounds are the owner's, and last the managed API inbound, which they cannot be
      mistaken for; the sections keep what is not managed in them. */
  lemma SectionsExactly(c: Config, bindings: seq<Binding>, modes: seq<Directive>, assignments: seq<Assignment>)
    ensures var m := Managed(c, bindings, modes, assignments);
      && (forall x :: x in m.inbounds <==>
            x == ApiInbound || (x in c.inbounds && x.Inbound? && x.tag != "fwrouter-api"))
      && m.inbounds[|m.inbounds| - 1] == ApiInbound && ApiInbound !in m.inbounds[..|m.inbounds| - 1]
      && Completed(c.api, m.api) && Completed(c.policy, m.policy) && Completed(c.dns, m.dns)
      && m.stats.Section? && (c.stats.Section? ==> m.stats == c.stats)
      && m.strategy != "" && (c.strategy != "" ==> m.strategy == c.strategy) && m.rest == c.rest
  {
    hide Where, ModeRules, BindingRules, EgressOf, StartsWith;
    var m := Managed(c, bindings, modes, assignments);
    var kept := Where(c.inbounds, UnmanagedInbound);
    WhereTwice(c.inbounds, UnmanagedInbound);
    assert m.inbounds[..|m.inbounds| - 1] == kept;
  }

  lemma EgressExactly(assignments: seq<Assignment>, o: Outbound)
    ensures o in EgressOf(assignments) <==>
      exists n :: 0 <= n < |assignments| && InForce(assignments, assignments[n].server, n)
        && o == Outbound(assignments[n].tag, Socks(assignments[n].port))
  {
    hide Resolve, InForce;
    ServersResolve(assignments);
    var servers := Servers(assignments);
    if o in EgressOf(assignments) {
      var s := EgressServer(assignments, servers, o);
      ResolveInForce(assignments, s);
      var n :| InForce(assignments, s, n);
      InForceServer(assignments, s, n);
    }
    if n :| 0 <= n < |assignments| && InForce(assignments, assignments[n].server, n) &&
            o == Outbound(assignments[n].tag, Socks(assignments[n].port)) {
      ResolveInForce(assignments, assignments[n].server);
      EgressHasEveryServer(assignments, servers, assignments[n].server);
    }
  }

  lemma InForceServer(assignments: seq<Assignment>, s: string, n: int)
    requires InForce(assignments, s, n)
    ensures 0 <= n < |assignments| && assignments[n].server == s
  {
  }

  lemma {:induction false} EgressServer(assignments: seq<Assignment>, servers: seq<string>, o: Outbound)
    returns (s: string)
    requires (forall s :: s in servers ==> Resolve(assignments, s).Some?) && o in Egress(assignments, servers)
    ensures s in servers && Resolve(assignments, s).Some?
    ensures o == Outbound(Resolve(assignments, s).value.tag, Socks(Resolve(assignments, s).value.port))
  {
    hide Resolve;
    s := servers[0];
    var a := Resolve(assignments, s).value;
    if o != Outbound(a.tag, Socks(a.port)) {
      assert o in Egress(assignments, servers[1..]);
      s := EgressServer(assignments, servers[1..], o);
    }
  }
}
