/** The Xray configuration that `xray_real.py` maintains: its managed outbounds, rules and
    client metadata, and what the routing they add means. */
module XrayConfig {
  import opened Outcomes
  import opened Text

  const INBOUND := "vless-ws"
  const FALLBACK := "blocked-until-fwrouter-dataplane"
  const DIRECT := "fwrouter-explicit-direct"
  const DNS := "fwrouter-dns-out"
  const API := "fwrouter-api"
  const EGRESS_PREFIX := "fwrouter-egress-"

  // ----- the configuration ------------------------------------------------------------------------------

  datatype Binding = Binding(clientId: string, clientUuid: string, email: string, server: string, meta: nat)
  datatype Directive = Directive(email: string, mode: string)
  datatype Assignment = Assignment(server: string, tag: string, port: nat)

  /** A client of the inbound; `rest` stands for the keys nothing here looks at. */
  datatype Client = Client(id: string, email: string, alias: Option<string>, binding: Option<Binding>, rest: nat)

  datatype Inbound = Inbound(tag: string, vlessWs: bool, clients: seq<Client>, rest: nat) | ApiInbound

  datatype Kind = ApiFreedom | Blackhole | DirectFreedom | DnsProxy | Socks(port: nat) | Custom(rest: nat)
  datatype Outbound = Outbound(tag: string, kind: Kind)

  /** Absent conditions match everything; `extra` 0 means there is no other condition. */
  datatype Rule = Rule(inbounds: Option<seq<string>>, users: Option<seq<string>>, outbound: string, extra: nat)

  /** A section with its managed keys set or not, over the keys of its owner. */
  datatype Section = Absent | Section(rest: nat, managed: bool)

  datatype Config = Config(
    inbounds: seq<Inbound>, outbounds: seq<Outbound>, rules: seq<Rule>,
    stats: Section, api: Section, policy: Section, dns: Section, strategy: string, rest: nat)

  function Manage(s: Section): Section {
    Section(if s.Absent? then 0 else s.rest, true)
  }

  function TagOf(i: Inbound): string {
    if i.ApiInbound? then API else i.tag
  }

  predicate ManagedTag(tag: string) {
    tag == API || tag == FALLBACK || tag == DIRECT || tag == DNS || StartsWith(tag, EGRESS_PREFIX)
  }

  predicate ManagedOutbound(o: Outbound) {
    ManagedTag(o.tag)
  }

  predicate ManagedRule(r: Rule) {
    || ManagedTag(r.outbound)
    || (r.inbounds.Some? && API in r.inbounds.value)
    || (r.inbounds.Some? && INBOUND in r.inbounds.value && r.users.Some?)
  }

  predicate UnmanagedOutbound(o: Outbound) {
    !ManagedOutbound(o)
  }

  predicate UnmanagedRule(r: Rule) {
    !ManagedRule(r)
  }

  function TaggedAs(tag: string): Outbound -> bool {
    (o: Outbound) => o.tag == tag
  }

  predicate UnmanagedInbound(i: Inbound) {
    TagOf(i) != API
  }

  function Where<T>(xs: seq<T>, keep: T -> bool): seq<T> {
    if xs == [] then [] else (if keep(xs[0]) then [xs[0]] else []) + Where(xs[1..], keep)
  }

  // ----- managed parts ------------------------------------------------------------------------------------

  /** The value a Python dict built in this order ends up with: the last one. */
  function Resolve(assignments: seq<Assignment>, server: string): Option<Assignment> {
    if assignments == [] then None
    else
      var later := Resolve(assignments[1..], server);
      if later.Some? then later
      else if assignments[0].server == server then Some(assignments[0]) else None
  }

  /** The order of its keys: first insertions. */
  function Servers(assignments: seq<Assignment>): seq<string> {
    if assignments == [] then []
    else
      var before := assignments[..|assignments| - 1];
      var server := assignments[|assignments| - 1].server;
      Servers(before) + if server in Servers(before) then [] else [server]
  }

  lemma {:induction false} ServersResolve(assignments: seq<Assignment>)
    ensures forall s :: s in Servers(assignments) <==> exists a :: a in assignments && a.server == s
    ensures forall s :: s in Servers(assignments) <==> Resolve(assignments, s).Some?
  {
    if assignments != [] {
      var n := |assignments| - 1;
      var before, last := assignments[..n], assignments[n];
      ServersResolve(before);
      forall s ensures Resolve(assignments, s) == if last.server == s then Some(last) else Resolve(before, s) {
        ResolveSnoc(before, last, s);
        assert before + [last] == assignments;
      }
      assert forall a :: a in assignments <==> a in before || a == last;
    }
  }

  lemma {:induction false} ResolveSnoc(before: seq<Assignment>, last: Assignment, s: string)
    ensures Resolve(before + [last], s) == if last.server == s then Some(last) else Resolve(before, s)
  {
    if before == [] {
      assert before + [last] == [last];
      assert Resolve([last], s) == if last.server == s then Some(last) else None;
    } else {
      assert (before + [last])[1..] == before[1..] + [last];
      ResolveSnoc(before[1..], last, s);
    }
  }

  lemma {:induction false} ResolvedAnswers(assignments: seq<Assignment>, server: string)
    requires Resolve(assignments, server).Some?
    ensures Resolve(assignments, server).value in assignments && Resolve(assignments, server).value.server == server
  {
    if Resolve(assignments[1..], server).Some? {
      ResolvedAnswers(assignments[1..], server);
    }
  }

  function Egress(assignments: seq<Assignment>, servers: seq<string>): seq<Outbound>
    requires forall s :: s in servers ==> Resolve(assignments, s).Some?
  {
    if servers == [] then []
    else
      assert servers[0] in servers && forall s :: s in servers[1..] ==> s in servers;
      var a := Resolve(assignments, servers[0]).value;
      [Outbound(a.tag, Socks(a.port))] + Egress(assignments, servers[1..])
  }

  function EgressOf(assignments: seq<Assignment>): seq<Outbound> {
    ServersResolve(assignments);
    Egress(assignments, Servers(assignments))
  }

  predicate Steers(d: Directive) {
    Strip(d.email) != "" && Fold(d.mode) in {"direct", "disabled", "unsupported_selective"}
  }

  function ModeRule(d: Directive): Rule {
    Rule(Some([INBOUND]), Some([Strip(d.email)]), if Fold(d.mode) == "direct" then DIRECT else FALLBACK, 0)
  }

  function ModeRules(modes: seq<Directive>): seq<Rule> {
    if modes == [] then [] else (if Steers(modes[0]) then [ModeRule(modes[0])] else []) + ModeRules(modes[1..])
  }

  /** The egress tag a binding resolves to, if it has a client and its server a tag. */
  function BoundTag(b: Binding, assignments: seq<Assignment>): Option<string> {
    var a := Resolve(assignments, Strip(b.server));
    if Strip(b.email) != "" && a.Some? && a.value.tag != "" then Some(a.value.tag) else None
  }

  function BindingRules(bindings: seq<Binding>, assignments: seq<Assignment>): seq<Rule> {
    if bindings == [] then []
    else
      var tag := BoundTag(bindings[0], assignments);
      (if tag.Some? then [Rule(Some([INBOUND]), Some([Strip(bindings[0].email)]), tag.value, 0)] else [])
      + BindingRules(bindings[1..], assignments)
  }

  const FIXED: seq<Outbound> := [
    Outbound(API, ApiFreedom), Outbound(FALLBACK, Blackhole), Outbound(DIRECT, DirectFreedom), Outbound(DNS, DnsProxy)]

  const API_RULE := Rule(Some([API]), None, API, 0)

  /** What `_materialize_managed_egress` makes of a configuration. */
  function Managed(c: Config, bindings: seq<Binding>, modes: seq<Directive>, assignments: seq<Assignment>): Config {
    c.(inbounds := Where(c.inbounds, UnmanagedInbound) + [ApiInbound],
       outbounds := FIXED + EgressOf(assignments) + Where(c.outbounds, UnmanagedOutbound),
       rules := [API_RULE] + ModeRules(modes) + BindingRules(bindings, assignments) + Where(c.rules, UnmanagedRule),
       stats := Section(if c.stats.Absent? then 0 else c.stats.rest, c.stats.Section? && c.stats.managed),
       api := Manage(c.api), policy := Manage(c.policy), dns := Manage(c.dns),
       strategy := if c.strategy == "" then "AsIs" else c.strategy)
  }

  // ----- first-match routing ---------------------------------------------------------------------------------

  datatype Connection = Connection(inbound: string, user: string, traits: set<nat>)

  predicate Matches(r: Rule, k: Connection) {
    && (r.inbounds.Some? ==> k.inbound in r.inbounds.value)
    && (r.users.Some? ==> k.user in r.users.value)
    && (r.extra == 0 || r.extra in k.traits)
  }

  /** The outbound tag of the first matching rule. */
  function Route(rules: seq<Rule>, k: Connection): Option<string> {
    if rules == [] then None else if Matches(rules[0], k) then Some(rules[0].outbound) else Route(rules[1..], k)
  }

  lemma {:induction false} RouteAppend(a: seq<Rule>, b: seq<Rule>, k: Connection)
    ensures Route(a + b, k) == if Route(a, k).Some? then Route(a, k) else Route(b, k)
  {
    if a == [] {
      assert a + b == b;
    } else {
      assert (a + b)[1..] == a[1..] + b;
      RouteAppend(a[1..], b, k);
    }
  }

  /** The first directive that steers a client. */
  function FirstDirective(modes: seq<Directive>, email: string): Option<Directive> {
    if modes == [] then None
    else if Steers(modes[0]) && Strip(modes[0].email) == email then Some(modes[0])
    else FirstDirective(modes[1..], email)
  }

  /** The first binding of a client that resolves. */
  function FirstBound(bindings: seq<Binding>, assignments: seq<Assignment>, email: string): Option<string> {
    if bindings == [] then None
    else if Strip(bindings[0].email) == email
      && BoundTag(bindings[0], assignments).Some? then BoundTag(bindings[0], assignments)
    else FirstBound(bindings[1..], assignments, email)
  }

  lemma {:induction false} ModesRouteFirst(modes: seq<Directive>, k: Connection)
    requires k.inbound == INBOUND
    ensures Route(ModeRules(modes), k)
         == match FirstDirective(modes, k.user)
            case None => None
            case Some(d) => Some(if Fold(d.mode) == "direct" then DIRECT else FALLBACK)
  {
    if modes != [] {
      ModesRouteFirst(modes[1..], k);
      if Steers(modes[0]) {
        assert ModeRules(modes)[0] == ModeRule(modes[0]) && ModeRules(modes)[1..] == ModeRules(modes[1..]);
      } else {
        assert ModeRules(modes) == ModeRules(modes[1..]);
      }
    }
  }

  lemma {:induction false} BindingsRouteFirst(bindings: seq<Binding>, assignments: seq<Assignment>, k: Connection)
    requires k.inbound == INBOUND
    ensures Route(BindingRules(bindings, assignments), k) == FirstBound(bindings, assignments, k.user)
  {
    if bindings != [] {
      BindingsRouteFirst(bindings[1..], assignments, k);
      var rules := BindingRules(bindings, assignments);
      if BoundTag(bindings[0], assignments).Some? {
        assert rules[1..] == BindingRules(bindings[1..], assignments);
      } else {
        assert rules == BindingRules(bindings[1..], assignments);
      }
    }
  }

  /** MAIN: where a client of the managed inbound goes, whatever rules were there before:
      its first applicable directive decides, then its first resolvable binding, and only
      then the preserved rules. */
  lemma ManagedRouting(c: Config, bindings: seq<Binding>, modes: seq<Directive>, assignments: seq<Assignment>,
                       k: Connection)
    requires k.inbound == INBOUND
    ensures Route(Managed(c, bindings, modes, assignments).rules, k)
         == match FirstDirective(modes, k.user)
            case Some(d) => Some(if Fold(d.mode) == "direct" then DIRECT else FALLBACK)
            case None =>
              match FirstBound(bindings, assignments, k.user)
              case Some(tag) => Some(tag)
              case None => Route(Where(c.rules, UnmanagedRule), k)
  {
    var kept := Where(c.rules, UnmanagedRule);
    var bound, steered := BindingRules(bindings, assignments), ModeRules(modes);
    ModesRouteFirst(modes, k);
    BindingsRouteFirst(bindings, assignments, k);
    assert INBOUND != API;
    assert [API_RULE][1..] == [];
    RouteAppend([API_RULE], steered, k);
    RouteAppend([API_RULE] + steered, bound, k);
    RouteAppend([API_RULE] + steered + bound, kept, k);
  }

  // ----- what materialization keeps ---------------------------------------------------------------------------

  lemma WhereStep<T>(xs: seq<T>, keep: T -> bool)
    requires xs != []
    ensures Where(xs, keep) == (if keep(xs[0]) then [xs[0]] else []) + Where(xs[1..], keep)
  {
  }

  lemma WhereEmpty<T>(keep: T -> bool)
    ensures Where([], keep) == []
  {
  }

  lemma {:induction false} WhereAppend<T>(a: seq<T>, b: seq<T>, keep: T -> bool)
    ensures Where(a + b, keep) == Where(a, keep) + Where(b, keep)
  {
    hide Where;
    WhereEmpty(keep);
    if a == [] {
      assert a + b == b;
    } else {
      var head := if keep(a[0]) then [a[0]] else [];
      WhereStep(a, keep);
      WhereStep(a + b, keep);
      assert (a + b)[1..] == a[1..] + b;
      WhereAppend(a[1..], b, keep);
      assert head + (Where(a[1..], keep) + Where(b, keep)) == (head + Where(a[1..], keep)) + Where(b, keep);
    }
  }

  lemma {:induction false} WhereTwice<T>(xs: seq<T>, keep: T -> bool)
    ensures Where(Where(xs, keep), keep) == Where(xs, keep)
    ensures forall x :: x in Where(xs, keep) <==> x in xs && keep(x)
  {
    if xs != [] {
      WhereTwice(xs[1..], keep);
      if keep(xs[0]) {
        assert Where(xs, keep) == [xs[0]] + Where(xs[1..], keep);
        assert Where(xs, keep)[1..] == Where(xs[1..], keep);
      } else {
        assert Where(xs, keep) == Where(xs[1..], keep);
      }
    }
  }

  lemma {:induction false} WhereNone<T>(xs: seq<T>, keep: T -> bool)
    ensures Where(xs, keep) == [] <==> forall x :: x in xs ==> !keep(x)
  {
    if xs != [] {
      WhereNone(xs[1..], keep);
    }
  }

  lemma {:induction false} BuiltRulesAreManaged(bindings: seq<Binding>, modes: seq<Directive>,
                                                assignments: seq<Assignment>)
    ensures forall r :: r in ModeRules(modes) ==> ManagedRule(r)
    ensures forall r :: r in BindingRules(bindings, assignments) ==> ManagedRule(r)
  {
    if modes != [] {
      BuiltRulesAreManaged(bindings, modes[1..], assignments);
    } else if bindings != [] {
      BuiltRulesAreManaged(bindings[1..], modes, assignments);
    }
  }

  /** Rules nobody manages keep their order, and no managed rule survives among them. */
  lemma RulesArePreserved(c: Config, bindings: seq<Binding>, modes: seq<Directive>, assignments: seq<Assignment>)
    ensures Where(Managed(c, bindings, modes, assignments).rules, UnmanagedRule) == Where(c.rules, UnmanagedRule)
  {
    var keep := UnmanagedRule;
    var built := [API_RULE] + ModeRules(modes) + BindingRules(bindings, assignments);
    BuiltRulesAreManaged(bindings, modes, assignments);
    assert forall r :: r in built ==> !keep(r);
    WhereNone(built, keep);
    WhereAppend(built, Where(c.rules, keep), keep);
    WhereTwice(c.rules, keep);
  }

  /** So do the inbounds other than the managed API inbound. */
  lemma InboundsArePreserved(c: Config, bindings: seq<Binding>, modes: seq<Directive>, assignments: seq<Assignment>)
    ensures Where(Managed(c, bindings, modes, assignments).inbounds, UnmanagedInbound) == Where(c.inbounds,
      UnmanagedInbound)
  {
    WhereAppend(Where(c.inbounds, UnmanagedInbound), [ApiInbound], UnmanagedInbound);
    WhereTwice(c.inbounds, UnmanagedInbound);
    assert [ApiInbound][1..] == [];
  }

  /** Every egress tag carries the managed prefix, or is one of the managed names. */
  ghost predicate ManagedEgress(assignments: seq<Assignment>) {
    forall o :: o in EgressOf(assignments) ==> ManagedOutbound(o)
  }

  lemma FixedAreManaged()
    ensures forall o :: o in FIXED ==> ManagedOutbound(o)
  {
    assert FIXED == [Outbound(API, ApiFreedom), Outbound(FALLBACK, Blackhole), Outbound(DIRECT, DirectFreedom),
      Outbound(DNS, DnsProxy)];
  }

  lemma OutboundsAfter(c: Config, bindings: seq<Binding>, modes: seq<Directive>, assignments: seq<Assignment>)
    ensures
      Where(Managed(c, bindings, modes, assignments).outbounds, UnmanagedOutbound)
        == Where(EgressOf(assignments), UnmanagedOutbound) + Where(c.outbounds, UnmanagedOutbound)
  {
    hide Where, ManagedOutbound, Egress, BindingRules, ModeRules;
    var keep := UnmanagedOutbound;
    var egress := EgressOf(assignments);
    FixedAreManaged();
    WhereNone(FIXED, keep);
    WhereAppend(FIXED, egress, keep);
    WhereAppend(FIXED + egress, Where(c.outbounds, keep), keep);
    WhereTwice(c.outbounds, keep);
  }

  /** Unmanaged outbounds keep their order exactly when every egress tag is a managed one;
      an egress under a foreign tag would be taken for the owner's own next time. */
  lemma OutboundsArePreserved(c: Config, bindings: seq<Binding>, modes: seq<Directive>, assignments: seq<Assignment>)
    ensures Where(Managed(c, bindings, modes, assignments).outbounds, UnmanagedOutbound) == Where(c.outbounds,
      UnmanagedOutbound)
       <==> ManagedEgress(assignments)
  {
    var keep := UnmanagedOutbound;
    ServersResolve(assignments);
    var egress := EgressOf(assignments);
    OutboundsAfter(c, bindings, modes, assignments);
    WhereNone(egress, keep);
    var foreign, kept := Where(egress, keep), Where(c.outbounds, keep);
    assert foreign + kept == kept ==> foreign == [] by {
      assert |foreign + kept| == |foreign| + |kept|;
    }
    assert foreign == [] ==> foreign + kept == kept;
  }

  /** MAIN: materializing twice is materializing once, exactly when every egress tag is a
      managed one. */
  lemma MaterializationIsIdempotent(c: Config, bindings: seq<Binding>, modes: seq<Directive>,
                                    assignments: seq<Assignment>)
    ensures var once := Managed(c, bindings, modes, assignments);
      Managed(once, bindings, modes, assignments) == once <==> ManagedEgress(assignments)
  {
    var once := Managed(c, bindings, modes, assignments);
    var twice := Managed(once, bindings, modes, assignments);
    RulesArePreserved(c, bindings, modes, assignments);
    InboundsArePreserved(c, bindings, modes, assignments);
    OutboundsArePreserved(c, bindings, modes, assignments);
    ServersResolve(assignments);
    var front := FIXED + EgressOf(assignments);
    var keep := UnmanagedOutbound;
    assert once.outbounds == front + Where(c.outbounds, keep);
    assert twice.outbounds == front + Where(once.outbounds, keep);
    assert once.outbounds[|front|..] == Where(c.outbounds, keep);
    assert twice.outbounds[|front|..] == Where(once.outbounds, keep);
    assert twice.rules == once.rules && twice.inbounds == once.inbounds;
  }

  /** The tag a bound client routes to is carried by the SOCKS handoff to its server's port. */
  lemma BoundTagNamesItsEgress(b: Binding, assignments: seq<Assignment>)
    requires BoundTag(b, assignments).Some?
    ensures
      Outbound(BoundTag(b, assignments).value, Socks(Resolve(assignments, Strip(b.server)).value.port))
        in EgressOf(assignments)
  {
    ServersResolve(assignments);
    EgressHasEveryServer(assignments, Servers(assignments), Strip(b.server));
  }

  lemma {:induction false} EgressHasEveryServer(assignments: seq<Assignment>, servers: seq<string>, server: string)
    requires (forall s :: s in servers ==> Resolve(assignments, s).Some?) && server in servers
    ensures Outbound(Resolve(assignments, server).value.tag,
      Socks(Resolve(assignments, server).value.port)) in Egress(assignments, servers)
  {
    if servers[0] != server {
      EgressHasEveryServer(assignments, servers[1..], server);
    }
  }

  /** Some server's assignment in force carries the tag. */
  ghost predicate Takes(assignments: seq<Assignment>, tag: string) {
    exists s :: Resolve(assignments, s).Some? && Resolve(assignments, s).value.tag == tag
  }

  /** Exactly one outbound carries the explicit-direct tag, and it is the direct one, whatever
      was configured before, if and only if no assignment in force takes that tag; and so for
      the fallback. */
  lemma DirectTagIsDirect(c: Config, bindings: seq<Binding>, modes: seq<Directive>, assignments: seq<Assignment>)
    ensures Where(Managed(c, bindings, modes, assignments).outbounds,
      TaggedAs(DIRECT)) == [Outbound(DIRECT, DirectFreedom)]
      <==> !Takes(assignments, DIRECT)
    ensures Where(Managed(c, bindings, modes, assignments).outbounds,
      TaggedAs(FALLBACK)) == [Outbound(FALLBACK, Blackhole)]
      <==> !Takes(assignments, FALLBACK)
  {
    TaggedOnce(c, bindings, modes, assignments, DIRECT);
    TaggedOnce(c, bindings, modes, assignments, FALLBACK);
    assert DIRECT != FALLBACK && DIRECT != API && DIRECT != DNS && FALLBACK != API && FALLBACK != DNS by {
      assert |DIRECT| != |FALLBACK| && |DIRECT| != |API| && |DIRECT| != |DNS| && |FALLBACK| != |API|
        && |FALLBACK| != |DNS|;
    }
    FixedTagged();
  }

  lemma FixedTagged()
    ensures Where(FIXED, TaggedAs(DIRECT)) == [Outbound(DIRECT, DirectFreedom)]
    ensures Where(FIXED, TaggedAs(FALLBACK)) == [Outbound(FALLBACK, Blackhole)]
  {
    assert |DIRECT| != |FALLBACK| && |DIRECT| != |API| && |DIRECT| != |DNS| && |FALLBACK| != |API|
      && |FALLBACK| != |DNS|;
    WhereOfFour(Outbound(API, ApiFreedom), Outbound(FALLBACK, Blackhole), Outbound(DIRECT, DirectFreedom),
      Outbound(DNS, DnsProxy), TaggedAs(DIRECT));
    WhereOfFour(Outbound(API, ApiFreedom), Outbound(FALLBACK, Blackhole), Outbound(DIRECT, DirectFreedom),
      Outbound(DNS, DnsProxy), TaggedAs(FALLBACK));
  }

  lemma WhereOne<T>(x: T, keep: T -> bool)
    ensures Where([x], keep) == if keep(x) then [x] else []
  {
    assert [x][1..] == [];
  }

  lemma WhereOfFour<T>(a: T, b: T, c: T, d: T, keep: T -> bool)
    ensures Where([a, b, c, d], keep) == Where([a], keep) + Where([b], keep) + Where([c], keep) + Where([d], keep)
    ensures Where([a], keep) == if keep(a) then [a] else []
    ensures Where([b], keep) == if keep(b) then [b] else []
    ensures Where([c], keep) == if keep(c) then [c] else []
    ensures Where([d], keep) == if keep(d) then [d] else []
  {
    hide Where;
    WhereOne(a, keep);
    WhereOne(b, keep);
    WhereOne(c, keep);
    WhereOne(d, keep);
    assert [a, b, c, d] == [a] + [b] + [c] + [d];
    WhereAppend([a], [b], keep);
    WhereAppend([a] + [b], [c], keep);
    WhereAppend([a] + [b] + [c], [d], keep);
  }

  lemma TaggedOnce(c: Config, bindings: seq<Binding>, modes: seq<Directive>, assignments: seq<Assignment>, tag: string)
    requires ManagedTag(tag)
    ensures Where(Managed(c, bindings, modes, assignments).outbounds, TaggedAs(tag)) == Where(FIXED, TaggedAs(tag))
      <==> !Takes(assignments, tag)
  {
    var has := TaggedAs(tag);
    ServersResolve(assignments);
    var egress, kept := EgressOf(assignments), Where(c.outbounds, UnmanagedOutbound);
    WhereTwice(c.outbounds, UnmanagedOutbound);
    WhereNone(kept, has);
    WhereAppend(FIXED, egress, has);
    WhereAppend(FIXED + egress, kept, has);
    var fixed, taken := Where(FIXED, has), Where(egress, has);
    assert fixed + taken == fixed <==> taken == [] by {
      assert |fixed + taken| == |fixed| + |taken|;
    }
    WhereNone(egress, has);
    EgressTagsAreAssigned(assignments, Servers(assignments));
    if Takes(assignments, tag) {
      var s :| Resolve(assignments, s).Some? && Resolve(assignments, s).value.tag == tag;
      EgressHasEveryServer(assignments, Servers(assignments), s);
    }
  }

  lemma {:induction false} EgressTagsAreAssigned(assignments: seq<Assignment>, servers: seq<string>)
    requires forall s :: s in servers ==> Resolve(assignments, s).Some?
    ensures forall o :: o in Egress(assignments, servers) ==> Takes(assignments, o.tag)
  {
    if servers != [] {
      EgressTagsAreAssigned(assignments, servers[1..]);
    }
  }
}
