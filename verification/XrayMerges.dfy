/** What both client merges of `xray_real.py` have to leave, said of the clients, the desired
    entries and the prefixes themselves, and that both leave it. */
module XrayMerges {
  import opened Outcomes
  import opened Text
  import opened XrayConfig
  import opened XrayClients

  // ----- the promise ------------------------------------------------------------------------------------

  predicate Entry(desired: seq<Desired>, key: string, n: int) {
    0 <= n < |desired| && Strip(desired[n].email) != "" && Fold(desired[n].email) == key
  }

  /** The last desired entry under a folded e-mail, which is the one that counts. */
  predicate LastEntry(desired: seq<Desired>, key: string, n: int) {
    Entry(desired, key, n) && forall m :: n < m < |desired| ==> !Entry(desired, key, m)
  }

  predicate FirstEntry(desired: seq<Desired>, key: string, n: int) {
    Entry(desired, key, n) && forall m :: 0 <= m < n ==> !Entry(desired, key, m)
  }

  /** A client under a managed prefix that nobody desires. */
  ghost predicate Revoked(c: Client, desired: seq<Desired>, prefixes: seq<string>) {
    && Fold(c.email) != "" && (forall n :: !Entry(desired, Fold(c.email), n))
    && exists p :: p in prefixes && Fold(p) != "" && StartsWith(Fold(c.email), Fold(p))
  }

  /** A client of a desired e-mail with another UUID than the desired one. */
  ghost predicate Renumbered(c: Client, desired: seq<Desired>) {
    exists n :: LastEntry(desired, Fold(c.email), n) && Strip(desired[n].uuid) != ""
      && Strip(c.id) != Strip(desired[n].uuid)
  }

  /** `at` lists the places of the clients that stay. */
  ghost predicate Survivors(clients: seq<Client>, desired: seq<Desired>, prefixes: seq<string>, at: seq<int>) {
    && (forall k :: 0 <= k < |at| ==> 0 <= at[k] < |clients|)
    && (forall k, l :: 0 <= k < l < |at| ==> at[k] < at[l])
    && (forall i :: 0 <= i < |clients| ==>
          (i in at <==> !Revoked(clients[i], desired, prefixes) && !Renumbered(clients[i], desired)))
  }

  /** Nobody who stays has this folded e-mail. */
  predicate Missing(clients: seq<Client>, at: seq<int>, key: string)
    requires forall k :: 0 <= k < |at| ==> 0 <= at[k] < |clients|
  {
    forall k :: 0 <= k < |at| ==> Fold(clients[at[k]].email) != key
  }

  /** The client made from a desired entry. */
  predicate MadeFrom(c: Client, d: Desired, mint: string) {
    && c.email == d.email && c.id == (if d.uuid == "" then mint else Strip(d.uuid))
    && c.alias == (if Strip(d.alias) == "" then None else Some(Strip(d.alias)))
    && c.binding == None && c.rest == 0
  }

  /** The client made from the last entry of its e-mail. */
  ghost predicate IsMade(c: Client, desired: seq<Desired>, mint: string) {
    exists n :: 0 <= n < |desired| && LastEntry(desired, Fold(c.email), n) && MadeFrom(c, desired[n], mint)
  }

  /** Survivor `k` is one to which the desired alias is given. */
  predicate GetsAlias(clients: seq<Client>, at: seq<int>, k: int, lastOnly: bool)
    requires 0 <= k < |at| && forall l :: 0 <= l < |at| ==> 0 <= at[l] < |clients|
  {
    lastOnly ==> forall l :: k < l < |at| ==> Fold(clients[at[l]].email) != Fold(clients[at[k]].email)
  }

  /** The survivors, changed in nothing but the alias: the last desired entry gives its own,
      with `lastOnly` to the last survivor of an e-mail alone. */
  ghost predicate Touched(clients: seq<Client>, desired: seq<Desired>, at: seq<int>, lastOnly: bool,
                          front: seq<Client>)
    requires forall k :: 0 <= k < |at| ==> 0 <= at[k] < |clients|
  {
    && |front| == |at|
    && (forall k :: 0 <= k < |at| ==> front[k] == clients[at[k]].(alias := front[k].alias))
    && (forall k, n :: 0 <= k < |at| && LastEntry(desired, Fold(clients[at[k]].email), n) ==>
          front[k].alias ==
            if Strip(desired[n].alias) != "" && GetsAlias(clients, at, k, lastOnly) then Some(Strip(desired[n].alias))
            else clients[at[k]].alias)
    && (forall k :: 0 <= k < |at| && (forall n :: !Entry(desired, Fold(clients[at[k]].email), n)) ==>
          front[k] == clients[at[k]])
  }

  /** One new client for each desired e-mail that no survivor has, made from its last entry, in
      the order in which the e-mails were first listed. */
  ghost predicate Appended(clients: seq<Client>, desired: seq<Desired>, at: seq<int>, mint: string, back: seq<Client>)
    requires forall k :: 0 <= k < |at| ==> 0 <= at[k] < |clients|
  {
    && (forall r :: 0 <= r < |back| ==>
          && Missing(clients, at, Fold(back[r].email))
          && IsMade(back[r], desired, mint))
    && (forall r, s, i, j :: 0 <= r < s < |back| ==>
          FirstEntry(desired, Fold(back[r].email), i) && FirstEntry(desired, Fold(back[s].email), j) ==> i < j)
    && (forall n, key :: Entry(desired, key, n) && Missing(clients, at, key) ==>
          exists r :: 0 <= r < |back| && Fold(back[r].email) == key)
  }

  /** `now` is a merge: the clients at `at` stay, and then come the new ones. */
  ghost predicate Merged(clients: seq<Client>, desired: seq<Desired>, prefixes: seq<string>, mint: string,
                         lastOnly: bool, now: seq<Client>, at: seq<int>) {
    && Survivors(clients, desired, prefixes, at) && |at| <= |now|
    && Touched(clients, desired, at, lastOnly, now[..|at|])
    && Appended(clients, desired, at, mint, now[|at|..])
  }

  // ----- what it is for ------------------------------------------------------------------------------------

  /** MAIN: no revoked client is left in a merge, nobody of a desired e-mail has another UUID than
      the desired one, and every desired e-mail has a client. */
  lemma MergeAdmitsExactlyTheDesired(clients: seq<Client>, desired: seq<Desired>, prefixes: seq<string>, mint: string,
                                     lastOnly: bool, now: seq<Client>, at: seq<int>)
    requires Merged(clients, desired, prefixes, mint, lastOnly, now, at)
    ensures forall c :: c in now ==> !Revoked(c, desired, prefixes)
    ensures forall c, n :: c in now && LastEntry(desired, Fold(c.email), n) && Strip(desired[n].uuid) != "" ==>
      Strip(c.id) == Strip(desired[n].uuid)
    ensures forall key, n :: Entry(desired, key, n) ==> exists c :: c in now && Fold(c.email) == key
  {
    hide Fold, Strip, StartsWith, Revoked, Renumbered, IsMade;
    var front, back := now[..|at|], now[|at|..];
    forall c | c in now
      ensures !Revoked(c, desired, prefixes)
      ensures forall n :: LastEntry(desired, Fold(c.email), n) && Strip(desired[n].uuid) != "" ==>
        Strip(c.id) == Strip(desired[n].uuid)
    {
      var k :| 0 <= k < |now| && now[k] == c;
      if k < |at| {
        assert front[k] == c && at[k] in at;
        SurvivorIsFine(clients[at[k]], c, desired, prefixes);
      } else {
        assert back[k - |at|] == c;
        MadeIsFine(c, desired, prefixes, mint);
      }
    }
    forall key, n | Entry(desired, key, n) ensures exists c :: c in now && Fold(c.email) == key {
      if Missing(clients, at, key) {
        var r :| 0 <= r < |back| && Fold(back[r].email) == key;
        assert now[|at| + r] == back[r] && back[r] in now;
      } else {
        var k :| 0 <= k < |at| && Fold(clients[at[k]].email) == key;
        assert now[k] == front[k] && front[k] in now && front[k].email == clients[at[k]].email;
      }
    }
  }

  lemma SurvivorIsFine(was: Client, c: Client, desired: seq<Desired>, prefixes: seq<string>)
    requires !Revoked(was, desired, prefixes) && !Renumbered(was, desired) && c.email == was.email && c.id == was.id
    ensures !Revoked(c, desired, prefixes)
    ensures forall n :: LastEntry(desired, Fold(c.email), n) && Strip(desired[n].uuid) != "" ==>
      Strip(c.id) == Strip(desired[n].uuid)
  {
    hide Fold, Strip, StartsWith, Entry;
  }

  lemma MadeIsFine(c: Client, desired: seq<Desired>, prefixes: seq<string>, mint: string)
    requires IsMade(c, desired, mint)
    ensures !Revoked(c, desired, prefixes)
    ensures forall n :: LastEntry(desired, Fold(c.email), n) && Strip(desired[n].uuid) != "" ==>
      Strip(c.id) == Strip(desired[n].uuid)
  {
    hide Fold, Strip, StartsWith;
    var m :| 0 <= m < |desired| && LastEntry(desired, Fold(c.email), m) && MadeFrom(c, desired[m], mint);
    StripTwice(desired[m].uuid);
  }

  lemma StripTwice(s: string)
    ensures Strip(Strip(s)) == Strip(s) && (s == "" ==> Strip(s) == "")
  {
    var i, j := StripExactly(s);
    var t := s[i..j];
    var k, l := StripExactly(t);
    assert i < j ==> t[0] == s[i] && t[|t| - 1] == s[j - 1];
    assert t[0..|t|] == t;
  }

  // ----- binding metadata ----------------------------------------------------------------------------------

  /** A binding that names the id, as its UUID or its client id. */
  predicate Naming(bindings: seq<Binding>, id: string, n: int) {
    && 0 <= n < |bindings| && id != ""
    && (Strip(bindings[n].clientUuid) == id || Strip(bindings[n].clientId) == id)
  }

  predicate LastNaming(bindings: seq<Binding>, id: string, n: int) {
    Naming(bindings, id, n) && forall m :: n < m < |bindings| ==> !Naming(bindings, id, m)
  }

  lemma {:induction false} BindingOfIsLast(bindings: seq<Binding>, id: string)
    ensures forall n :: LastNaming(bindings, id, n) ==> BindingOf(bindings, id) == Some(bindings[n])
    ensures (forall n :: !Naming(bindings, id, n)) ==> BindingOf(bindings, id) == None
  {
    hide Strip;
    if bindings != [] {
      var n := |bindings| - 1;
      var before := bindings[..n];
      BindingOfIsLast(before, id);
      assert forall m :: Naming(bindings, id, m) <==> Naming(before, id, m) || (m == n && Naming(bindings, id, n));
      assert !Naming(bindings, id, n) ==> forall m :: LastNaming(bindings, id, m) <==> LastNaming(before, id, m);
    }
  }

  // ----- the functions keep it ---------------------------------------------------------------------------------

  lemma {:induction false} WantedIsLast(desired: seq<Desired>, key: string)
    ensures forall n :: LastEntry(desired, key, n) ==> Wanted(desired, key) == Some(desired[n])
    ensures Wanted(desired, key).Some? ==> exists n :: LastEntry(desired, key, n)
    ensures forall n :: Entry(desired, key, n) ==> Wanted(desired, key).Some?
  {
    hide Fold, Strip;
    if desired != [] {
      var n := |desired| - 1;
      var before := desired[..n];
      WantedIsLast(before, key);
      assert forall m :: Entry(desired, key, m) <==> Entry(before, key, m) || (m == n && Entry(desired, key, n));
      if Entry(desired, key, n) {
        assert LastEntry(desired, key, n);
      } else {
        assert forall m :: LastEntry(desired, key, m) <==> LastEntry(before, key, m);
      }
    }
  }

  lemma KeepsExactly(c: Client, desired: seq<Desired>, prefixes: seq<string>)
    ensures Keeps(c, desired, prefixes) <==> !Revoked(c, desired, prefixes) && !Renumbered(c, desired)
  {
    hide Fold, Strip, StartsWith, Wanted;
    var key := Fold(c.email);
    WantedIsLast(desired, key);
    assert forall n :: LastEntry(desired, key, n) ==> Entry(desired, key, n);
  }

  lemma OneMoreSurvivor(clients: seq<Client>, desired: seq<Desired>, prefixes: seq<string>, at: seq<int>)
    requires clients != [] && Survivors(clients[..|clients| - 1], desired, prefixes, at)
    ensures var n := |clients| - 1;
      Survivors(clients, desired, prefixes,
        at + if !Revoked(clients[n], desired, prefixes) && !Renumbered(clients[n], desired) then [n] else [])
  {
    hide Revoked, Renumbered;
    var n := |clients| - 1;
    var before := clients[..n];
    assert forall i :: 0 <= i < n ==> before[i] == clients[i];
    assert forall i :: i in at ==> 0 <= i < n;
  }

  lemma {:induction false} KeptAt(clients: seq<Client>, desired: seq<Desired>, prefixes: seq<string>)
    returns (at: seq<int>)
    ensures Survivors(clients, desired, prefixes, at) && |at| == |Kept(clients, desired, prefixes)|
    ensures forall k :: 0 <= k < |at| ==> Kept(clients, desired, prefixes)[k] == clients[at[k]]
  {
    hide Keeps, Revoked, Renumbered;
    at := [];
    if clients != [] {
      var n := |clients| - 1;
      at := KeptAt(clients[..n], desired, prefixes);
      KeepsExactly(clients[n], desired, prefixes);
      OneMoreSurvivor(clients, desired, prefixes, at);
      SurvivorsInRange(clients[..n], desired, prefixes, at);
      hide Survivors;
      at := at + if Keeps(clients[n], desired, prefixes) then [n] else [];
    }
  }

  lemma SurvivorsInRange(clients: seq<Client>, desired: seq<Desired>, prefixes: seq<string>, at: seq<int>)
    requires Survivors(clients, desired, prefixes, at)
    ensures forall k :: 0 <= k < |at| ==> 0 <= at[k] < |clients|
  {
  }

  /** The keys stand in the order of their first entries. */
  lemma {:induction false} KeysInOrder(desired: seq<Desired>)
    ensures forall key :: key in Keys(desired) <==> exists n :: Entry(desired, key, n)
    ensures forall q, p, i, j ::
      0 <= q < p < |Keys(desired)| ==>
        FirstEntry(desired, Keys(desired)[q], i) && FirstEntry(desired, Keys(desired)[p], j) ==> i < j
  {
    hide Fold, Strip;
    if desired != [] {
      var n := |desired| - 1;
      var before := desired[..n];
      KeysInOrder(before);
      assert forall key, m :: Entry(desired, key, m) <==> Entry(before, key, m) || (m == n && Entry(desired, key, n));
      forall key ensures key in Keys(desired) <==> exists m :: Entry(desired, key, m) {
        assert Entry(desired, key, n) <==> Named(desired[n]) && Fold(desired[n].email) == key;
        assert (exists m :: Entry(desired, key, m)) <==> Entry(desired, key, n) || exists m :: Entry(before, key, m);
      }
      assert forall key, m :: key in Keys(before) && FirstEntry(desired, key, m) ==> FirstEntry(before, key, m);
    }
  }

  lemma CreatedStep(kept: seq<Client>, desired: seq<Desired>, keys: seq<string>, id: Desired -> string)
    requires forall k :: k in keys ==> Wanted(desired, k).Some?
    ensures keys == [] ==> Created(kept, desired, keys, id) == []
    ensures keys != [] ==>
      var key := keys[|keys| - 1];
      var d := Wanted(desired, key).value;
      && (forall k :: k in keys[..|keys| - 1] ==> k in keys)
      && Created(kept, desired, keys, id)
           == Created(kept, desired, keys[..|keys| - 1], id) + if Has(kept, key) then [] else [NewClient(d, id(d))]
  {
    hide Has, Wanted, NewClient;
  }

  /** The keys for which clients are created, as places among all keys. */
  lemma {:induction false} CreatedAt(kept: seq<Client>, desired: seq<Desired>, keys: seq<string>,
                                     id: Desired -> string)
    returns (pos: seq<int>)
    requires forall k :: k in keys ==> Wanted(desired, k).Some?
    ensures |pos| == |Created(kept, desired, keys, id)|
    ensures forall r :: 0 <= r < |pos| ==> 0 <= pos[r] < |keys| && !Has(kept, keys[pos[r]])
    ensures forall r :: 0 <= r < |pos| ==>
      var d := Wanted(desired, keys[pos[r]]).value; Created(kept, desired, keys, id)[r] == NewClient(d, id(d))
    ensures forall r, s :: 0 <= r < s < |pos| ==> pos[r] < pos[s]
    ensures forall q :: 0 <= q < |keys| && !Has(kept, keys[q]) ==> q in pos
  {
    hide Has, Wanted, NewClient, Created;
    CreatedStep(kept, desired, keys, id);
    pos := [];
    if keys != [] {
      var n := |keys| - 1;
      pos := CreatedAt(kept, desired, keys[..n], id);
      assert forall r :: 0 <= r < |pos| ==> keys[..n][pos[r]] == keys[pos[r]];
      if !Has(kept, keys[n]) {
        pos := pos + [n];
      }
    }
  }

  /** The survivors as both merges leave them. */
  ghost predicate Front(clients: seq<Client>, desired: seq<Desired>, at: seq<int>, lastOnly: bool, front: seq<Client>)
    requires forall k :: 0 <= k < |at| ==> 0 <= at[k] < |clients|
  {
    && |front| == |at|
    && forall k :: 0 <= k < |at| ==>
         front[k] ==
           if GetsAlias(clients, at, k, lastOnly)
           then Aliased(clients[at[k]], AliasFor(desired, Fold(clients[at[k]].email))) else clients[at[k]]
  }

  lemma FrontAliases(clients: seq<Client>, desired: seq<Desired>, at: seq<int>, lastOnly: bool, front: seq<Client>)
    requires forall k :: 0 <= k < |at| ==> 0 <= at[k] < |clients|
    requires Front(clients, desired, at, lastOnly, front)
    ensures Touched(clients, desired, at, lastOnly, front)
  {
    hide Fold, Strip, Wanted, GetsAlias;
    forall k | 0 <= k < |at|
      ensures front[k] == clients[at[k]].(alias := front[k].alias)
      ensures forall n :: LastEntry(desired, Fold(clients[at[k]].email), n) ==>
        front[k].alias ==
          if Strip(desired[n].alias) != "" && GetsAlias(clients, at, k, lastOnly) then Some(Strip(desired[n].alias))
          else clients[at[k]].alias
      ensures (forall n :: !Entry(desired, Fold(clients[at[k]].email), n)) ==> front[k] == clients[at[k]]
    {
      WantedIsLast(desired, Fold(clients[at[k]].email));
    }
  }

  lemma MissingIsNotHad(clients: seq<Client>, at: seq<int>, kept: seq<Client>, key: string)
    requires forall k :: 0 <= k < |at| ==> 0 <= at[k] < |clients|
    requires |kept| == |at| && forall k :: 0 <= k < |at| ==> kept[k] == clients[at[k]]
    ensures Missing(clients, at, key) <==> !Has(kept, key)
  {
    hide Fold;
    if !Has(kept, key) {
      forall k | 0 <= k < |at| ensures Fold(clients[at[k]].email) != key {
        assert Fold(kept[k].email) != key;
      }
    } else {
      var k :| 0 <= k < |kept| && Fold(kept[k].email) == key;
      assert Fold(clients[at[k]].email) == key;
    }
  }

  lemma CreatedBack(clients: seq<Client>, desired: seq<Desired>, at: seq<int>, kept: seq<Client>, mint: string,
                    id: Desired -> string)
    requires forall k :: 0 <= k < |at| ==> 0 <= at[k] < |clients|
    requires |kept| == |at| && forall k :: 0 <= k < |at| ==> kept[k] == clients[at[k]]
    requires forall k :: k in Keys(desired) ==> Wanted(desired, k).Some?
    requires forall k :: k in Keys(desired) && !Has(kept, k) ==>
      var d := Wanted(desired, k).value; id(d) == if d.uuid == "" then mint else Strip(d.uuid)
    ensures Appended(clients, desired, at, mint, Created(kept, desired, Keys(desired), id))
  {
    hide Fold, Strip, Wanted, Created, Keys, Has, Missing, Entry, FirstEntry, IsMade, NewClient;
    var keys := Keys(desired);
    var back := Created(kept, desired, keys, id);
    var pos := CreatedAt(kept, desired, keys, id);
    KeysInOrder(desired);
    forall r | 0 <= r < |back|
      ensures Fold(back[r].email) == keys[pos[r]] && Missing(clients, at, keys[pos[r]])
      ensures IsMade(back[r], desired, mint)
    {
      MissingIsNotHad(clients, at, kept, keys[pos[r]]);
      MadeForKey(desired, keys[pos[r]], mint, id);
    }
    forall n, key | Entry(desired, key, n) && Missing(clients, at, key)
      ensures exists r :: 0 <= r < |back| && Fold(back[r].email) == key
    {
      MissingIsNotHad(clients, at, kept, key);
      assert key in keys;
      var q :| 0 <= q < |keys| && keys[q] == key;
      var r :| 0 <= r < |pos| && pos[r] == q;
    }
  }

  lemma MadeForKey(desired: seq<Desired>, key: string, mint: string, id: Desired -> string)
    requires Wanted(desired, key).Some?
    requires var d := Wanted(desired, key).value; id(d) == if d.uuid == "" then mint else Strip(d.uuid)
    ensures var d := Wanted(desired, key).value;
      Fold(NewClient(d, id(d)).email) == key && IsMade(NewClient(d, id(d)), desired, mint)
  {
    hide Fold, Strip, Wanted;
    WantedIsLast(desired, key);
    var n :| LastEntry(desired, key, n);
  }

  lemma FrontAndBack(clients: seq<Client>, desired: seq<Desired>, prefixes: seq<string>, mint: string, lastOnly: bool,
                     front: seq<Client>, back: seq<Client>, at: seq<int>)
    requires Survivors(clients, desired, prefixes, at)
    requires Front(clients, desired, at, lastOnly, front) && Appended(clients, desired, at, mint, back)
    ensures Merged(clients, desired, prefixes, mint, lastOnly, front + back, at)
  {
    FrontAliases(clients, desired, at, lastOnly, front);
    hide Survivors, Front, Touched, Appended;
    assert (front + back)[..|at|] == front && (front + back)[|at|..] == back;
  }

  /** MAIN: reconciling is a merge in which only the last survivor of an e-mail gets its alias. */
  lemma ReconciledIsMerged(clients: seq<Client>, desired: seq<Desired>, prefixes: seq<string>, mint: string)
    returns (at: seq<int>)
    ensures Merged(clients, desired, prefixes, mint, true, Reconciled(clients, desired, prefixes, IdOr(mint)), at)
  {
    hide Fold, Strip, Wanted, Keys, Has, Merged, Kept, Created, Appended, Entry, LastEntry, Revoked, Renumbered;
    at := KeptAt(clients, desired, prefixes);
    KeysAreWanted(desired);
    var kept := Kept(clients, desired, prefixes);
    CreatedBack(clients, desired, at, kept, mint, IdOr(mint));
    var front := seq(|kept|, i requires 0 <= i < |kept| =>
      if IsLast(kept, i) then Aliased(kept[i], AliasFor(desired, Fold(kept[i].email))) else kept[i]);
    FrontAndBack(clients, desired, prefixes, mint, true, front, Created(kept, desired, Keys(desired), IdOr(mint)), at);
  }

  /** MAIN: staging is a merge in which every survivor of a desired e-mail gets its alias; it is
      refused exactly when a client would have to be made from an entry without a UUID. */
  lemma StagedIsMerged(clients: seq<Client>, desired: seq<Desired>, prefixes: seq<string>, mint: string)
    returns (at: seq<int>)
    ensures Survivors(clients, desired, prefixes, at)
    ensures Staged(clients, desired, prefixes).Failed? <==>
      exists key, n :: LastEntry(desired, key, n) && Missing(clients, at, key) && Strip(desired[n].uuid) == ""
    ensures Staged(clients, desired, prefixes).Ok? ==>
      Merged(clients, desired, prefixes, mint, false, Staged(clients, desired, prefixes).value, at)
  {
    hide Fold, Strip, Wanted, Keys, Has, Merged, Kept, Created, Appended, Revoked, Renumbered;
    at := KeptAt(clients, desired, prefixes);
    KeysAreWanted(desired);
    var kept := Kept(clients, desired, prefixes);
    forall k ensures Missing(clients, at, k) <==> !Has(kept, k) {
      MissingIsNotHad(clients, at, kept, k);
    }
    forall key
      ensures (exists n :: LastEntry(desired, key, n)) <==> key in Keys(desired)
      ensures forall n :: LastEntry(desired, key, n) ==> Wanted(desired, key) == Some(desired[n])
    {
      WantedIsLast(desired, key);
    }
    StripTwice("");
    if Staged(clients, desired, prefixes).Ok? {
      CreatedBack(clients, desired, at, kept, mint, OwnId);
      var front := seq(|kept|,
        i requires 0 <= i < |kept| => Aliased(kept[i], AliasFor(desired, Fold(kept[i].email))));
      FrontAndBack(clients, desired, prefixes, mint, false, front, Created(kept, desired, Keys(desired), OwnId), at);
    }
  }
}
