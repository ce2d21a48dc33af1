/** The two separately written ways in which `xray_real.py` merges the desired clients into
    a configuration: reconcile followed by materialize, and the staged generation. */
module XrayClients {
  import opened Outcomes
  import opened Text
  import opened XrayConfig

  /** A desired client; `uuid` is its client_uuid, or else its client_id. */
  datatype Desired = Desired(email: string, uuid: string, alias: string)

  // ----- desired clients by folded e-mail -----------------------------------------------------------

  predicate Named(d: Desired) {
    Strip(d.email) != ""
  }

  /** The last desired client under a key, which is what a Python dict keeps. */
  function Wanted(desired: seq<Desired>, key: string): Option<Desired> {
    if desired == [] then None
    else
      var n := |desired| - 1;
      if Named(desired[n]) && Fold(desired[n].email) == key then Some(desired[n]) else Wanted(desired[..n], key)
  }

  /** The keys in the order they were first inserted. */
  function Keys(desired: seq<Desired>): seq<string> {
    if desired == [] then []
    else
      var n := |desired| - 1;
      var before := Keys(desired[..n]);
      var key := Fold(desired[n].email);
      before + if Named(desired[n]) && key !in before then [key] else []
  }

  lemma {:induction false} KeysAreWanted(desired: seq<Desired>)
    ensures forall key :: key in Keys(desired) <==> Wanted(desired, key).Some?
    ensures forall i, j :: 0 <= i < j < |Keys(desired)| ==> Keys(desired)[i] != Keys(desired)[j]
  {
    if desired != [] {
      KeysAreWanted(desired[..|desired| - 1]);
    }
  }

  predicate HasPrefix(key: string, prefixes: seq<string>) {
    exists p :: p in prefixes && Fold(p) != "" && StartsWith(key, Fold(p))
  }

  /** What both paths do with a client that is there: keep it, unless it is managed and no
      longer desired, or desired under another UUID. */
  predicate Keeps(c: Client, desired: seq<Desired>, prefixes: seq<string>) {
    var key := Fold(c.email);
    match Wanted(desired, key)
    case None => !(key != "" && HasPrefix(key, prefixes))
    case Some(d) => Strip(d.uuid) == "" || Strip(c.id) == Strip(d.uuid)
  }

  function Kept(clients: seq<Client>, desired: seq<Desired>, prefixes: seq<string>): seq<Client> {
    if clients == [] then []
    else
      var n := |clients| - 1;
      Kept(clients[..n], desired, prefixes) + if Keeps(clients[n], desired, prefixes) then [clients[n]] else []
  }

  function AliasFor(desired: seq<Desired>, key: string): string {
    match Wanted(desired, key)
    case None => ""
    case Some(d) => Strip(d.alias)
  }

  function Aliased(c: Client, alias: string): Client {
    if alias == "" then c else c.(alias := Some(alias))
  }

  predicate Has(clients: seq<Client>, key: string) {
    exists i :: 0 <= i < |clients| && Fold(clients[i].email) == key
  }

  /** The client both paths append for a key nobody kept has. */
  function NewClient(d: Desired, id: string): Client {
    Client(id, d.email, if Strip(d.alias) == "" then None else Some(Strip(d.alias)), None, 0)
  }

  // ----- reconcile -------------------------------------------------------------------------------------

  /** The index of the last kept client under a key. */
  function LastUnder(clients: seq<Client>, key: string): Option<nat> {
    if clients == [] then None
    else if Fold(clients[|clients| - 1].email) == key then Some(|clients| - 1)
    else LastUnder(clients[..|clients| - 1], key)
  }

  lemma {:induction false} LastUnderIsLast(clients: seq<Client>, key: string)
    ensures LastUnder(clients, key).Some? <==> Has(clients, key)
    ensures LastUnder(clients, key).Some? ==>
      var i := LastUnder(clients, key).value;
      i < |clients| && Fold(clients[i].email) == key && forall j :: i < j < |clients| ==> Fold(clients[j].email) != key
  {
    hide Fold;
    if clients != [] {
      var n := |clients| - 1;
      LastUnderIsLast(clients[..n], key);
      if Fold(clients[n].email) != key && Has(clients, key) {
        var i :| 0 <= i < |clients| && Fold(clients[i].email) == key;
        assert clients[..n][i] == clients[i];
      }
      if Has(clients[..n], key) {
        var i :| 0 <= i < n && Fold(clients[..n][i].email) == key;
        assert clients[i] == clients[..n][i];
      }
    }
  }

  /** Only the last client under a key gets the alias. */
  predicate IsLast(clients: seq<Client>, i: nat)
    requires i < |clients|
  {
    forall j :: i < j < |clients| ==> Fold(clients[j].email) != Fold(clients[i].email)
  }

  /** What the loop over the first `n` keys leaves of the kept clients. */
  predicate LastAliased(kept: seq<Client>, now: seq<Client>, desired: seq<Desired>, done: seq<string>) {
    && |now| >= |kept|
    && forall i :: 0 <= i < |kept| ==>
         now[i] ==
           (if Fold(kept[i].email) in done && IsLast(kept, i)
            then Aliased(kept[i], AliasFor(desired, Fold(kept[i].email))) else kept[i])
  }

  /** The clients appended for the keys nobody has, in key order. */
  function Created(kept: seq<Client>, desired: seq<Desired>, keys: seq<string>, id: Desired -> string): seq<Client>
    requires forall k :: k in keys ==> Wanted(desired, k).Some?
  {
    if keys == [] then []
    else
      var n := |keys| - 1;
      assert keys[n] in keys && forall k :: k in keys[..n] ==> k in keys;
      var d := Wanted(desired, keys[n]).value;
      Created(kept, desired, keys[..n], id) + if Has(kept, keys[n]) then [] else [NewClient(d, id(d))]
  }

  /** The clients after `reconcile_clients`. */
  function Reconciled(clients: seq<Client>, desired: seq<Desired>, prefixes: seq<string>,
                      id: Desired -> string): seq<Client> {
    KeysAreWanted(desired);
    var kept := Kept(clients, desired, prefixes);
    seq(|kept|, i requires 0 <= i < |kept| =>
      if IsLast(kept, i) then Aliased(kept[i], AliasFor(desired, Fold(kept[i].email))) else kept[i])
    + Created(kept, desired, Keys(desired), id)
  }

  /** The clients a staged generation builds, when every new one has a UUID. */
  function Staged(clients: seq<Client>, desired: seq<Desired>, prefixes: seq<string>): Result<seq<Client>> {
    KeysAreWanted(desired);
    var kept := Kept(clients, desired, prefixes);
    if exists k :: k in Keys(desired) && !Has(kept, k) && Strip(Wanted(desired, k).value.uuid) == "" then Failed
    else
      Ok(seq(|kept|, i requires 0 <= i < |kept| => Aliased(kept[i], AliasFor(desired, Fold(kept[i].email))))
         + Created(kept, desired, Keys(desired), OwnId))
  }

  function OwnId(d: Desired): string {
    Strip(d.uuid)
  }

  /** A random UUID where the source has none. */
  function IdOr(mint: string): Desired -> string {
    (d: Desired) => if d.uuid == "" then mint else Strip(d.uuid)
  }

  // ----- when the two paths agree -------------------------------------------------------------------------

  /** Some kept client that is not the last under its e-mail lacks the alias wanted for it. */
  predicate LosesAlias(kept: seq<Client>, desired: seq<Desired>) {
    exists i :: 0 <= i < |kept| && !IsLast(kept, i)
      && Aliased(kept[i], AliasFor(desired, Fold(kept[i].email))) != kept[i]
  }

  ghost predicate AllHaveUuids(desired: seq<Desired>) {
    forall d :: d in desired ==> Strip(d.uuid) != ""
  }

  lemma {:induction false} WantedIsDesired(desired: seq<Desired>, key: string)
    requires Wanted(desired, key).Some?
    ensures Wanted(desired, key).value in desired && Named(Wanted(desired, key).value)
      && Fold(Wanted(desired, key).value.email) == key
  {
    var n := |desired| - 1;
    if !(Named(desired[n]) && Fold(desired[n].email) == key) {
      WantedIsDesired(desired[..n], key);
    }
  }

  lemma {:induction false} SameIdsSameCreated(kept: seq<Client>, desired: seq<Desired>, keys: seq<string>,
                                              f: Desired -> string, g: Desired -> string)
    requires forall k :: k in keys ==> Wanted(desired, k).Some?
    requires forall d :: d in desired ==> f(d) == g(d)
    ensures Created(kept, desired, keys, f) == Created(kept, desired, keys, g)
  {
    hide Fold, Strip, Wanted, Has;
    if keys != [] {
      var n := |keys| - 1;
      assert keys[n] in keys && forall k :: k in keys[..n] ==> k in keys;
      WantedIsDesired(desired, keys[n]);
      SameIdsSameCreated(kept, desired, keys[..n], f, g);
    }
  }

  /** MAIN: with a UUID for every desired client the two client lists are equal exactly when
      no alias is lost to a repeated e-mail. */
  lemma ListsAgree(clients: seq<Client>, desired: seq<Desired>, prefixes: seq<string>, mint: string)
    requires AllHaveUuids(desired)
    ensures Staged(clients, desired, prefixes).Ok?
    ensures Staged(clients, desired, prefixes).value == Reconciled(clients, desired, prefixes, IdOr(mint))
       <==> !LosesAlias(Kept(clients, desired, prefixes), desired)
  {
    hide Fold, Strip, Kept, Created, Keys, Wanted, AliasFor, Aliased, Has, IdOr;
    KeysAreWanted(desired);
    var kept := Kept(clients, desired, prefixes);
    forall k | k in Keys(desired) ensures Strip(Wanted(desired, k).value.uuid) != "" {
      WantedIsDesired(desired, k);
    }
    OwnIdsAreUsed(desired, mint);
    SameIdsSameCreated(kept, desired, Keys(desired), IdOr(mint), OwnId);
    PrefixesAgree(kept, desired, Created(kept, desired, Keys(desired), OwnId));
  }

  lemma OwnIdsAreUsed(desired: seq<Desired>, mint: string)
    requires AllHaveUuids(desired)
    ensures forall d :: d in desired ==> IdOr(mint)(d) == OwnId(d)
  {
    assert Strip("") == "";
  }

  lemma PrefixesAgree(kept: seq<Client>, desired: seq<Desired>, created: seq<Client>)
    ensures seq(|kept|, i requires 0 <= i < |kept| =>
              Aliased(kept[i], AliasFor(desired, Fold(kept[i].email)))) + created
         == seq(|kept|, i requires 0 <= i < |kept| =>
              if IsLast(kept, i) then Aliased(kept[i], AliasFor(desired, Fold(kept[i].email))) else kept[i]) + created
       <==> !LosesAlias(kept, desired)
  {
    hide Fold, AliasFor, Aliased, IsLast;
    var x := seq(|kept|, i requires 0 <= i < |kept| => Aliased(kept[i], AliasFor(desired, Fold(kept[i].email))));
    var y := seq(|kept|, i requires 0 <= i < |kept| =>
      if IsLast(kept, i) then Aliased(kept[i], AliasFor(desired, Fold(kept[i].email))) else kept[i]);
    if LosesAlias(kept, desired) {
      var i :| 0 <= i < |kept| && !IsLast(kept, i)
        && Aliased(kept[i], AliasFor(desired, Fold(kept[i].email))) != kept[i];
      assert (x + created)[i] == x[i] && (y + created)[i] == y[i];
    } else {
      assert x == y;
    }
  }

  /** And one can be lost: of two clients under one desired e-mail only the last gets it. */
  lemma RepeatedEmailLosesAlias()
    ensures var desired, clients := [Desired("e", "1", "n")],
      [Client("1", "e", None, None, 0), Client("1", "e", None, None, 1)];
      AllHaveUuids(desired) && Kept(clients, desired, []) == clients && LosesAlias(clients, desired)
  {
    var desired, clients := [Desired("e", "1", "n")],
      [Client("1", "e", None, None, 0), Client("1", "e", None, None, 1)];
    assert Strip("1") == "1" && Strip("e") == "e" && Strip("n") == "n" && Fold("e") == "e";
    assert Wanted(desired, "e") == Some(desired[0]);
    assert Keeps(clients[0], desired, []) && Keeps(clients[1], desired, []);
    assert clients[1..] == [clients[1]] && clients[1..][1..] == [];
    assert !IsLast(clients, 0) by {
      assert Fold(clients[1].email) == Fold(clients[0].email);
    }
  }

  /** In particular when the kept clients have distinct e-mails. */
  lemma DistinctEmailsLoseNothing(kept: seq<Client>, desired: seq<Desired>)
    requires forall i, j :: 0 <= i < j < |kept| ==> Fold(kept[i].email) != Fold(kept[j].email)
    ensures !LosesAlias(kept, desired)
  {
    assert forall i :: 0 <= i < |kept| ==> IsLast(kept, i);
  }

  // ----- binding metadata -------------------------------------------------------------------------------------

  predicate BindsId(b: Binding, id: string) {
    id != "" && (Strip(b.clientUuid) == id || Strip(b.clientId) == id)
  }

  /** The last binding of an id, by UUID or client id. */
  function BindingOf(bindings: seq<Binding>, id: string): Option<Binding> {
    if bindings == [] then None
    else if BindsId(bindings[|bindings| - 1], id) then Some(bindings[|bindings| - 1])
    else BindingOf(bindings[..|bindings| - 1], id)
  }

  function Bound(c: Client, bindings: seq<Binding>): Client {
    c.(binding := BindingOf(bindings, Strip(c.id)))
  }

  function AllBound(clients: seq<Client>, bindings: seq<Binding>): seq<Client> {
    seq(|clients|, i requires 0 <= i < |clients| => Bound(clients[i], bindings))
  }

  // ----- whole configurations -----------------------------------------------------------------------------------

  /** `_find_vless_ws_inbound`. */
  function ClientInbound(inbounds: seq<Inbound>): Option<nat> {
    if inbounds == [] then None
    else if inbounds[0].Inbound? && inbounds[0].vlessWs then Some(0)
    else
      match ClientInbound(inbounds[1..])
      case None => None
      case Some(i) => Some(i + 1)
  }

  predicate TakesClients(i: Inbound) {
    i.Inbound? && i.vlessWs
  }

  /** It is the first VLESS inbound over WebSocket, if there is one. */
  lemma {:induction false} ClientInboundIsFirst(inbounds: seq<Inbound>)
    ensures match ClientInbound(inbounds)
      case Some(i) =>
        i < |inbounds| && TakesClients(inbounds[i]) && forall j :: 0 <= j < i ==> !TakesClients(inbounds[j])
      case None => forall j :: 0 <= j < |inbounds| ==> !TakesClients(inbounds[j])
  {
    if inbounds != [] {
      ClientInboundIsFirst(inbounds[1..]);
    }
  }

  /** Neither the tag nor the clients of an inbound decide which one is found. */
  lemma {:induction false} ClientInboundStays(inbounds: seq<Inbound>, i: nat, tag: string, clients: seq<Client>)
    requires ClientInbound(inbounds) == Some(i) && i < |inbounds| && inbounds[i].Inbound?
    ensures ClientInbound(inbounds[i := inbounds[i].(tag := tag, clients := clients)]) == Some(i)
  {
    var after := inbounds[i := inbounds[i].(tag := tag, clients := clients)];
    if i > 0 {
      ClientInboundStays(inbounds[1..], i - 1, tag, clients);
      assert after[1..] == inbounds[1..][i - 1 := inbounds[i].(tag := tag, clients := clients)];
      assert after[0] == inbounds[0];
    }
  }

  function ClientsOf(c: Config): seq<Client>
    requires ClientInbound(c.inbounds).Some?
  {
    ClientInboundIsFirst(c.inbounds);
    c.inbounds[ClientInbound(c.inbounds).value].clients
  }

  function WithClients(c: Config, clients: seq<Client>): Config
    requires ClientInbound(c.inbounds).Some?
  {
    ClientInboundIsFirst(c.inbounds);
    var i := ClientInbound(c.inbounds).value;
    c.(inbounds := c.inbounds[i := c.inbounds[i].(clients := clients)])
  }

  function ReconciledConfig(c: Config, desired: seq<Desired>, prefixes: seq<string>, mint: string): Config
    requires ClientInbound(c.inbounds).Some?
  {
    WithClients(c, Reconciled(ClientsOf(c), desired, prefixes, IdOr(mint)))
  }

  /** The managed tag, the given clients with their metadata, and the managed egress. */
  function Finished(c: Config, clients: seq<Client>, bindings: seq<Binding>, modes: seq<Directive>,
                    assignments: seq<Assignment>): Config
    requires ClientInbound(c.inbounds).Some?
  {
    ClientInboundIsFirst(c.inbounds);
    var i := ClientInbound(c.inbounds).value;
    var inbound := c.inbounds[i].(tag := INBOUND, clients := AllBound(clients, bindings));
    Managed(c.(inbounds := c.inbounds[i := inbound]), bindings, modes, assignments)
  }

  function MaterializedConfig(c: Config, bindings: seq<Binding>, modes: seq<Directive>,
                              assignments: seq<Assignment>): Config
    requires ClientInbound(c.inbounds).Some?
  {
    Finished(c, ClientsOf(c), bindings, modes, assignments)
  }

  function StagedConfig(c: Config, desired: seq<Desired>, prefixes: seq<string>,
                        bindings: seq<Binding>, modes: seq<Directive>, assignments: seq<Assignment>): Result<Config>
    requires ClientInbound(c.inbounds).Some?
  {
    var clients :- Staged(ClientsOf(c), desired, prefixes);
    Ok(Finished(c, clients, bindings, modes, assignments))
  }

  lemma WithClientsKeepsInbound(c: Config, clients: seq<Client>)
    requires ClientInbound(c.inbounds).Some?
    ensures ClientInbound(WithClients(c, clients).inbounds) == ClientInbound(c.inbounds)
    ensures ClientsOf(WithClients(c, clients)) == clients
  {
    ClientInboundIsFirst(c.inbounds);
    var i := ClientInbound(c.inbounds).value;
    ClientInboundStays(c.inbounds, i, c.inbounds[i].tag, clients);
  }

  lemma FinishedForgetsClients(c: Config, old_: seq<Client>, clients: seq<Client>, bindings: seq<Binding>,
                               modes: seq<Directive>, assignments: seq<Assignment>)
    requires ClientInbound(c.inbounds).Some?
    ensures ClientInbound(WithClients(c, old_).inbounds) == ClientInbound(c.inbounds)
    ensures Finished(WithClients(c, old_), clients, bindings, modes, assignments) == Finished(c, clients, bindings,
      modes, assignments)
  {
    hide Managed, AllBound;
    WithClientsKeepsInbound(c, old_);
    ClientInboundIsFirst(c.inbounds);
    var i := ClientInbound(c.inbounds).value;
    var inbound := c.inbounds[i].(tag := INBOUND, clients := AllBound(clients, bindings));
    assert WithClients(c, old_).inbounds[i := inbound] == c.inbounds[i := inbound];
  }

  /** Filtering the inbounds never drops the one with the clients. */
  lemma {:induction false} ClientsSurvive(inbounds: seq<Inbound>, i: nat)
    requires i < |inbounds| && UnmanagedInbound(inbounds[i])
    ensures |Where(inbounds[..i], UnmanagedInbound)| < |Where(inbounds, UnmanagedInbound)|
    ensures Where(inbounds, UnmanagedInbound)[|Where(inbounds[..i], UnmanagedInbound)|] == inbounds[i]
  {
    assert inbounds == inbounds[..i] + ([inbounds[i]] + inbounds[i + 1..]);
    WhereAppend(inbounds[..i], [inbounds[i]] + inbounds[i + 1..], UnmanagedInbound);
    var rest := [inbounds[i]] + inbounds[i + 1..];
    assert rest[1..] == inbounds[i + 1..];
    assert Where(rest, UnmanagedInbound) == [inbounds[i]] + Where(inbounds[i + 1..], UnmanagedInbound);
  }

  lemma FinishedIsInjective(c: Config, x: seq<Client>, y: seq<Client>, bindings: seq<Binding>, modes: seq<Directive>,
                            assignments: seq<Assignment>)
    requires ClientInbound(c.inbounds).Some?
    ensures Finished(c, x, bindings, modes, assignments) == Finished(c, y, bindings, modes, assignments)
       <==> AllBound(x, bindings) == AllBound(y, bindings)
  {
    hide AllBound;
    ClientInboundIsFirst(c.inbounds);
    var i := ClientInbound(c.inbounds).value;
    var p := c.inbounds[i := c.inbounds[i].(tag := INBOUND, clients := AllBound(x, bindings))];
    var q := c.inbounds[i := c.inbounds[i].(tag := INBOUND, clients := AllBound(y, bindings))];
    assert |INBOUND| != |API|;
    ClientsSurvive(p, i);
    ClientsSurvive(q, i);
    assert p[..i] == q[..i];
    var k := |Where(p[..i], UnmanagedInbound)|;
    assert Finished(c, x, bindings, modes, assignments).inbounds[k] == p[i];
    assert Finished(c, y, bindings, modes, assignments).inbounds[k] == q[i];
  }

  lemma BoundKeepsAliases(x: seq<Client>, y: seq<Client>, bindings: seq<Binding>)
    requires |x| == |y| && forall i :: 0 <= i < |x| ==> x[i].(alias := None) == y[i].(alias := None)
    ensures AllBound(x, bindings) == AllBound(y, bindings) <==> x == y
  {
    if AllBound(x, bindings) == AllBound(y, bindings) {
      forall i | 0 <= i < |x| ensures x[i] == y[i] {
        assert AllBound(x, bindings)[i].alias == x[i].alias && AllBound(y, bindings)[i].alias == y[i].alias;
      }
    }
  }

  lemma PathsDifferInAliasOnly(clients: seq<Client>, desired: seq<Desired>, prefixes: seq<string>, mint: string)
    requires AllHaveUuids(desired)
    ensures Staged(clients, desired, prefixes).Ok?
    ensures var x, y := Staged(clients, desired, prefixes).value, Reconciled(clients, desired, prefixes, IdOr(mint));
      |x| == |y| && forall i :: 0 <= i < |x| ==> x[i].(alias := None) == y[i].(alias := None)
  {
    hide Fold, Strip, Kept, Created, Keys, Wanted, AliasFor, Has, IdOr;
    KeysAreWanted(desired);
    var kept := Kept(clients, desired, prefixes);
    forall k | k in Keys(desired) ensures Strip(Wanted(desired, k).value.uuid) != "" {
      WantedIsDesired(desired, k);
    }
    OwnIdsAreUsed(desired, mint);
    SameIdsSameCreated(kept, desired, Keys(desired), IdOr(mint), OwnId);
  }

  /** MAIN: with a UUID for every desired client and the same assignments, the staged
      configuration is the one that reconcile followed by materialize leaves, exactly when
      no alias is lost to a repeated e-mail. */
  lemma StagedIsReconciledThenMaterialized(c: Config, desired: seq<Desired>, prefixes: seq<string>, mint: string,
                                           bindings: seq<Binding>, modes: seq<Directive>, assignments: seq<Assignment>)
    requires ClientInbound(c.inbounds).Some? && AllHaveUuids(desired)
    ensures ClientInbound(ReconciledConfig(c, desired, prefixes, mint).inbounds).Some?
    ensures StagedConfig(c, desired, prefixes, bindings, modes, assignments)
         == Ok(MaterializedConfig(ReconciledConfig(c, desired, prefixes, mint), bindings, modes, assignments))
       <==> !LosesAlias(Kept(ClientsOf(c), desired, prefixes), desired)
  {
    hide Managed, AllBound, Staged, Reconciled, LosesAlias, Kept, Finished, IdOr;
    var clients := ClientsOf(c);
    var x, y := Staged(clients, desired, prefixes), Reconciled(clients, desired, prefixes, IdOr(mint));
    ListsAgree(clients, desired, prefixes, mint);
    PathsDifferInAliasOnly(clients, desired, prefixes, mint);
    BoundKeepsAliases(x.value, y, bindings);
    FinishedIsInjective(c, x.value, y, bindings, modes, assignments);
    WithClientsKeepsInbound(c, y);
    FinishedForgetsClients(c, y, y, bindings, modes, assignments);
  }
}
