/** `ui_publication.py`: releases named by their content, one pointer to the active one,
    and recovery of publications cut at any filesystem step. */
module UiPublication {
  import opened Outcomes

  /** A UI tree; its digest is taken to be injective, so a tree also serves as its own
      release name. Only a tree with a top-level index can be published or archived. */
  datatype Ui = Ui(tree: nat, hasIndex: bool)

  /** What may stand at the target or at an exchange path. */
  datatype Object = Tree(ui: Ui) | Pointer(release: Ui) | Foreign

  /** The publication directory between two filesystem steps. */
  datatype Site = Site(target: Option<Object>, orphans: map<nat, Object>, releases: map<Ui, Ui>)

  /** `_release_digest` accepts the release. */
  predicate Intact(s: Site, name: Ui) {
    name in s.releases && s.releases[name] == name && name.hasIndex
  }

  function Active(s: Site): Option<Ui> {
    match s.target
    case Some(Tree(ui)) => Some(ui)
    case Some(Pointer(name)) => if name in s.releases then Some(s.releases[name]) else None
    case _ => None
  }

  // ----- single filesystem steps ----------------------------------------------------------------

  predicate DropsPointer(a: Site, b: Site, o: nat) {
    && o in a.orphans && a.orphans[o].Pointer? && Intact(a, a.orphans[o].release)
    && b == a.(orphans := a.orphans - {o})
  }

  predicate Archives(a: Site, b: Site, o: nat) {
    && o in a.orphans && a.orphans[o].Tree? && a.orphans[o].ui.hasIndex && a.orphans[o].ui !in a.releases
    && b == a.(orphans := a.orphans - {o}, releases := a.releases[a.orphans[o].ui := a.orphans[o].ui])
  }

  predicate AddsRelease(a: Site, b: Site, ui: Ui) {
    ui.hasIndex && ui !in a.releases && b == a.(releases := a.releases[ui := ui])
  }

  predicate AddsPointer(a: Site, b: Site, o: nat, ui: Ui) {
    o !in a.orphans && Intact(a, ui) && b == a.(orphans := a.orphans[o := Pointer(ui)])
  }

  /** RENAME_EXCHANGE of the target and a prepared pointer. */
  predicate Exchanges(a: Site, b: Site, o: nat) {
    && a.target.Some? && o in a.orphans && a.orphans[o].Pointer? && Intact(a, a.orphans[o].release)
    && Acceptable(a, a.target.value)
    && b == a.(target := Some(a.orphans[o]), orphans := a.orphans[o := a.target.value])
  }

  predicate Places(a: Site, b: Site, o: nat) {
    && a.target.None? && o in a.orphans && a.orphans[o].Pointer? && Intact(a, a.orphans[o].release)
    && b == a.(target := Some(a.orphans[o]), orphans := a.orphans - {o})
  }

  ghost predicate Step(a: Site, b: Site) {
    || (exists o :: DropsPointer(a, b, o)) || (exists o :: Archives(a, b, o))
    || (exists ui :: AddsRelease(a, b, ui)) || (exists o, ui :: AddsPointer(a, b, o, ui))
    || (exists o :: Exchanges(a, b, o)) || (exists o :: Places(a, b, o))
  }

  ghost predicate History(past: seq<Site>) {
    past != [] && forall k {:trigger past[k]} :: 0 <= k < |past| - 1 ==> Step(past[k], past[k + 1])
  }

  // ----- what every history keeps ---------------------------------------------------------------

  /** An object the next publication accepts where it finds it. */
  predicate Acceptable(s: Site, x: Object) {
    match x
    case Tree(ui) => ui.hasIndex
    case Pointer(name) => Intact(s, name)
    case Foreign => false
  }

  /** Every state a publication can be cut in, and every state it may start from. */
  ghost predicate Sound(s: Site) {
    && (forall name :: name in s.releases ==> Intact(s, name))
    && (s.target.Some? ==> Acceptable(s, s.target.value))
    && (forall o :: o in s.orphans ==> Acceptable(s, s.orphans[o]))
  }

  ghost predicate Released(s: Site, ui: Ui) {
    exists name :: name in s.releases && s.releases[name] == ui
  }

  ghost predicate Orphaned(s: Site, ui: Ui) {
    exists o :: o in s.orphans && s.orphans[o] == Tree(ui)
  }

  /** The tree is still somewhere: active, released, or whole at an exchange path. */
  ghost predicate Holds(s: Site, ui: Ui) {
    s.target == Some(Tree(ui)) || Released(s, ui) || Orphaned(s, ui)
  }

  lemma StepKeepsReleases(a: Site, b: Site)
    requires Step(a, b)
    ensures a.target.Some? ==> b.target.Some?
    ensures forall name :: name in a.releases ==> name in b.releases && b.releases[name] == a.releases[name]
  {
  }

  lemma StepKeepsSound(a: Site, b: Site)
    requires Step(a, b) && Sound(a)
    ensures Sound(b)
  {
    StepKeepsReleases(a, b);
    forall x | Acceptable(a, x) ensures Acceptable(b, x) {
    }
  }

  lemma StepHolds(a: Site, b: Site, ui: Ui)
    requires Step(a, b) && Holds(a, ui)
    ensures Holds(b, ui)
  {
    StepKeepsReleases(a, b);
    if Released(a, ui) {
      var name :| name in a.releases && a.releases[name] == ui;
      assert name in b.releases && b.releases[name] == ui;
    } else if Orphaned(a, ui) {
      var o :| o in a.orphans && a.orphans[o] == Tree(ui);
      if o in b.orphans && b.orphans[o] == Tree(ui) {
      } else {
        assert Archives(a, b, o);
        assert ui in b.releases && b.releases[ui] == ui;
      }
    } else if b.target != a.target {
      var o :| Exchanges(a, b, o);
      assert b.orphans[o] == Tree(ui);
    }
  }

  /** MAIN: across any publications cut at any steps, the target never disappears and a
      release, once there, is never removed or overwritten. */
  lemma {:induction false} ReleasesAreImmutable(past: seq<Site>, i: nat, j: nat)
    requires History(past) && i <= j < |past|
    ensures past[i].target.Some? ==> past[j].target.Some?
    ensures forall name :: name in past[i].releases ==>
      name in past[j].releases && past[j].releases[name] == past[i].releases[name]
    decreases j - i
  {
    if i < j {
      ReleasesAreImmutable(past, i, j - 1);
      assert Step(past[j - 1], past[j]);
      StepKeepsReleases(past[j - 1], past[j]);
    }
  }

  lemma {:induction false} HeldStaysHeld(past: seq<Site>, i: nat, j: nat, ui: Ui)
    requires History(past) && i <= j < |past| && Holds(past[i], ui)
    ensures Holds(past[j], ui)
    decreases j - i
  {
    if i < j {
      HeldStaysHeld(past, i, j - 1, ui);
      assert Step(past[j - 1], past[j]);
      StepHolds(past[j - 1], past[j], ui);
    }
  }

  /** MAIN: every tree that was ever active can be found whole at any later time. */
  lemma ActiveTreesAreKept(past: seq<Site>, i: nat, j: nat)
    requires History(past) && i <= j < |past| && Active(past[i]).Some?
    ensures Holds(past[j], Active(past[i]).value)
  {
    HeldStaysHeld(past, i, j, Active(past[i]).value);
  }

  /** MAIN: from a sound directory every later state is one that recovery accepts. */
  lemma {:induction false} EveryCutIsSound(past: seq<Site>, i: nat, j: nat)
    requires History(past) && i <= j < |past| && Sound(past[i])
    ensures Sound(past[j])
    decreases j
  {
    hide Step, Sound;
    if i < j {
      EveryCutIsSound(past, i, j - 1);
      assert Step(past[j - 1], past[j]);
      StepKeepsSound(past[j - 1], past[j]);
    }
  }

  /** Contents of an immutable release are found by its name for ever. */
  lemma ReleasesKeepTheirContent(past: seq<Site>, i: nat, j: nat, name: Ui)
    requires History(past) && i <= j < |past| && Intact(past[i], name)
    ensures Intact(past[j], name)
  {
    ReleasesAreImmutable(past, i, j);
  }

  // ----- the publisher ----------------------------------------------------------------------------

  /** From index `from` on one tree was active up to `cut`, and another from `cut` on. */
  ghost predicate SwitchesAt(past: seq<Site>, from: nat, cut: nat, before: Option<Ui>, after: Option<Ui>) {
    && from < cut <= |past|
    && (forall k :: from <= k < cut ==> Active(past[k]) == before)
    && (forall k :: cut <= k < |past| ==> Active(past[k]) == after)
  }

  /** The target stood untouched from index `from` on. */
  ghost predicate Untouched(past: seq<Site>, from: nat, target: Option<Object>) {
    forall k :: from <= k < |past| ==> past[k].target == target
  }

  lemma UntouchedStaysActive(past: seq<Site>, from: nat, k: nat)
    requires History(past) && from <= k < |past| && Sound(past[from])
    requires past[k].target == past[from].target
    ensures Active(past[k]) == Active(past[from])
  {
    hide Step;
    ReleasesAreImmutable(past, from, k);
  }

  /** Whatever is left at an exchange path is a copy of an intact release. */
  ghost predicate OnlyCopies(s: Site) {
    forall o :: o in s.orphans ==> s.orphans[o].Tree? && Intact(s, s.orphans[o].ui)
  }

  /** Recovery of the exchange paths in `done`, finished or not, changed nothing else. */
  ghost predicate Recovers(a: Site, b: Site, done: set<nat>) {
    && b.target == a.target
    && (forall o :: o in b.orphans ==> o in a.orphans && b.orphans[o] == a.orphans[o])
    && (forall o :: o in a.orphans && o !in done ==> o in b.orphans)
    && (forall name :: name in a.releases ==> name in b.releases && b.releases[name] == a.releases[name])
    && (forall name :: name in b.releases ==>
          name in a.releases || exists o :: o in done && o in a.orphans && a.orphans[o] == Tree(name))
  }

  /** Every exchange path in `done` is cleared, or holds a copy of an intact release. */
  ghost predicate Recovered(a: Site, b: Site, done: set<nat>) {
    && Recovers(a, b, done)
    && (forall o :: o in done && o in b.orphans ==> b.orphans[o].Tree?)
    && (forall o :: o in done && o in a.orphans && a.orphans[o].Tree? ==> Intact(b, a.orphans[o].ui))
  }

  lemma RecoversNothing(a: Site)
    ensures Recovered(a, a, {})
  {
  }

  lemma RecoversTheRest(a: Site, b: Site, done: set<nat>, o: nat)
    requires Recovered(a, b, done) && o in a.orphans && o !in done
    ensures o in b.orphans && b.orphans[o] == a.orphans[o]
  {
  }

  lemma RecoversMore(a: Site, b: Site, done: set<nat>, all: set<nat>)
    requires done <= all
    ensures Recovers(a, b, done) ==> Recovers(a, b, all)
    ensures Recovered(a, b, done) ==> Recovers(a, b, all)
  {
  }

  lemma UntouchedAtFirst(past: seq<Site>)
    requires past != []
    ensures Untouched(past, |past| - 1, past[|past| - 1].target)
  {
  }

  lemma UntouchedTogether(a: seq<Site>, b: seq<Site>, from: nat, target: Option<Object>)
    requires a != [] && a <= b && from < |a| && Untouched(a, from, target) && Untouched(b, |a| - 1, target)
    ensures Untouched(b, from, target)
  {
  }

  lemma RecoversOneMore(a: Site, b: Site, c: Site, done: set<nat>, o: nat, ok: bool)
    requires Recovered(a, b, done) && Recovers(b, c, {o}) && o in b.orphans
    requires ok ==> Recovered(b, c, {o})
    ensures Recovers(a, c, done + {o})
    ensures ok ==> Recovered(a, c, done + {o})
  {
  }

  /** The checks on the current target before anything is built. */
  predicate TargetIsUsable(s: Site) {
    match s.target
    case None => true
    case Some(Tree(ui)) => ui.hasIndex && (ui in s.releases ==> Intact(s, ui))
    case Some(Pointer(name)) => Intact(s, name)
    case Some(Foreign) => false
  }

  /** What the target must have been: missing, a tree with an index that no release contradicts,
      or a pointer to a release with the contents its name says. */
  predicate TargetWasFine(a: Site, b: Site) {
    match a.target
    case None => true
    case Some(Tree(ui)) => ui.hasIndex && (ui in a.releases ==> a.releases[ui] == ui)
    case Some(Pointer(name)) => name.hasIndex && name in b.releases && b.releases[name] == name
    case Some(Foreign) => false
  }

  lemma UsableWasFine(a: Site, m: Site, b: Site)
    requires TargetIsUsable(m) && m.target == a.target
    requires forall name :: name in a.releases ==> name in m.releases && m.releases[name] == a.releases[name]
    requires forall name :: name in m.releases ==> name in b.releases && b.releases[name] == m.releases[name]
    ensures TargetWasFine(a, b)
  {
  }

  /** A directory is sound exactly if every release holds what its name says and has an index, and
      the target and every exchange path hold a tree with an index or a pointer to a release. */
  lemma SoundExactly(s: Site)
    ensures Sound(s) <==>
      && (forall name :: name in s.releases ==> s.releases[name] == name && name.hasIndex)
      && s.target != Some(Foreign) && Foreign !in s.orphans.Values
      && (forall ui :: s.target == Some(Tree(ui)) || Tree(ui) in s.orphans.Values ==> ui.hasIndex)
      && (forall name :: s.target == Some(Pointer(name)) || Pointer(name) in s.orphans.Values ==> name in s.releases)
  {
    assert forall o :: o in s.orphans ==> s.orphans[o] in s.orphans.Values;
  }

  /** When a publication from a sound directory goes through. */
  ghost predicate PublishAdmits(s: Site, source: Ui, compatible: bool, restore: Option<Ui>) {
    && source.hasIndex && compatible
    && (restore.Some? ==> restore.value == source && (source in s.releases || Orphaned(s, source)))
  }

  /** The history never leaves `before` for anything but `after`, and never goes back. */
  ghost predicate Switches(past: seq<Site>, from: nat, before: Option<Ui>, after: Option<Ui>) {
    exists cut :: SwitchesAt(past, from, cut, before, after)
  }

  lemma UntouchedDoesNotSwitch(past: seq<Site>, from: nat, target: Option<Object>, after: Option<Ui>)
    requires History(past) && from < |past| && Sound(past[from])
    requires Untouched(past, from, target)
    ensures SwitchesAt(past, from, |past|, Active(past[from]), after)
  {
    hide Sound, Step;
    forall k | from <= k < |past| ensures Active(past[k]) == Active(past[from]) {
      UntouchedStaysActive(past, from, k);
    }
  }

  /** Still one switch after more steps that leave the new target alone. */
  lemma StaysSwitched(a: seq<Site>, b: seq<Site>, from: nat, cut: nat, before: Option<Ui>, after: Option<Ui>)
    requires History(b) && a != [] && a <= b && SwitchesAt(a, from, cut, before, after) && cut < |a|
    requires Sound(b[|a| - 1]) && Untouched(b, |a| - 1, b[|a| - 1].target)
    ensures SwitchesAt(b, from, cut, before, after)
  {
    hide Sound, Step;
    forall k | from <= k < |b| ensures Active(b[k]) == if k < cut then before else after {
      if k < |a| {
        assert b[k] == a[k];
      } else {
        UntouchedStaysActive(b, |a| - 1, k);
      }
    }
  }

  lemma Prepared(a: Site, b: Site, o: nat, ui: Ui)
    requires o !in a.orphans && Intact(a, ui) && b == a.(orphans := a.orphans[o := Pointer(ui)])
    ensures Step(a, b) && (TargetIsUsable(a) ==> TargetIsUsable(b))
  {
    assert AddsPointer(a, b, o, ui);
  }

  lemma UntouchedSoFar(past: seq<Site>, from: nat, target: Option<Object>)
    requires from < |past| <= from + 2 && past[from].target == past[|past| - 1].target == target
    ensures Untouched(past, from, target)
  {
  }

  /** One step after an untouched stretch, to a target with the new tree active. */
  lemma SwitchedHere(a: seq<Site>, b: seq<Site>, from: nat, after: Option<Ui>)
    requires History(b) && from < |a| <= |b| <= |a| + 1 && a <= b && Sound(b[from])
      && Untouched(a, from, b[from].target)
    requires |b| == |a| + 1 ==> Active(b[|a|]) == after
    ensures SwitchesAt(b, from, |a|, Active(b[from]), after)
  {
    hide Sound, Step;
    forall k | from <= k < |a| ensures Active(b[k]) == Active(b[from]) {
      assert b[k] == a[k];
      UntouchedStaysActive(b, from, k);
    }
  }

  lemma AllIntact(s: Site)
    requires Sound(s)
    ensures TargetIsUsable(s) && forall name :: name in s.releases ==> Intact(s, name)
  {
  }

  /** After recovery the exchange paths hold only copies, and `ui` is released exactly if
      it was released before or lay whole at one of them. */
  lemma RecoveredIsClean(a: Site, b: Site, ui: Ui)
    requires Recovered(a, b, a.orphans.Keys)
    ensures OnlyCopies(b)
    ensures ui in b.releases <==> ui in a.releases || Orphaned(a, ui)
    ensures Orphaned(a, ui) ==> Intact(b, ui)
  {
  }

  lemma UntouchedAtEnd(past: seq<Site>, from: nat, target: Option<Object>)
    requires from < |past| && Untouched(past, from, target)
    ensures past[|past| - 1].target == target
  {
  }

  lemma StaysUsable(a: Site, b: Site)
    requires TargetIsUsable(a) && OnlyCopies(a) && b.target == a.target && b.orphans == a.orphans
    requires forall name :: name in a.releases ==> name in b.releases && b.releases[name] == a.releases[name]
    requires forall name :: name in b.releases && name !in a.releases ==> Intact(b, name)
    ensures TargetIsUsable(b) && OnlyCopies(b)
  {
  }

  lemma SwitchesFromEarlier(a: seq<Site>, b: seq<Site>, from: nat, after: Option<Ui>)
    requires History(b) && from < |a| && a <= b && Sound(b[from]) && Untouched(a, from, b[from].target)
    requires Switches(b, |a| - 1, Active(b[|a| - 1]), after)
    ensures Switches(b, from, Active(b[from]), after)
  {
    hide Sound, Step;
    var cut :| SwitchesAt(b, |a| - 1, cut, Active(b[|a| - 1]), after);
    forall k | from <= k < |a| ensures Active(b[k]) == Active(b[from]) {
      assert b[k] == a[k];
      UntouchedStaysActive(b, from, k);
    }
    assert SwitchesAt(b, from, cut, Active(b[from]), after);
  }

  lemma AdmittedPlainly(s: Site, source: Ui)
    requires source.hasIndex
    ensures PublishAdmits(s, source, true, None)
  {
  }

  class Publisher {
    var site: Site
    var staging: set<nat>
    const calm: bool
    ghost var past: seq<Site>

    ghost predicate Valid()
      reads this
    {
      History(past) && past[|past| - 1] == site
    }

    constructor (site: Site, calm: bool)
      ensures Valid() && this.site == site && this.calm == calm && past == [site]
    {
      this.site, this.calm, this.staging, this.past := site, calm, {}, [site];
    }

    /** One filesystem call: it may fail, or be the last thing this process does. */
    method Call() returns (r: Result<()>)
      ensures calm ==> r.Ok?
    {
      var fails: bool := *;
      return if !calm && fails then Failed else Ok(());
    }

    /** A filesystem step, before or after which the process may be cut. */
    method Do(next: Site) returns (r: Result<()>)
      requires Valid() && Step(site, next)
      modifies `site, `past
      ensures Valid()
      ensures (site == next && past == old(past) + [next]) || (r.Failed? && site == old(site) && past == old(past))
      ensures r.Ok? ==> site == next
      ensures calm ==> r.Ok?
    {
      hide Step;
      var _ :- Call();
      site, past := next, past + [next];
      r := Call();
    }

    /** One interrupted exchange: a pointer is dropped, a tree archived or left as a copy. */
    method RecoverOne(o: nat) returns (r: Result<()>)
      requires Valid() && o in site.orphans
      modifies `site, `past
      ensures Valid() && old(past) <= past && Untouched(past, |old(past)| - 1, old(site).target)
      ensures Recovers(old(site), site, {o})
      ensures r.Ok? ==> Recovered(old(site), site, {o})
      ensures calm && Sound(old(site)) ==> r.Ok?
    {
      match site.orphans[o] {
        case Pointer(name) =>
          if !Intact(site, name) {
            return Failed;
          }
          assert DropsPointer(site, site.(orphans := site.orphans - {o}), o);
          r := Do(site.(orphans := site.orphans - {o}));
        case Tree(ui) =>
          if !ui.hasIndex {
            return Failed;
          }
          if ui !in site.releases {
            var next := site.(orphans := site.orphans - {o}, releases := site.releases[ui := ui]);
            assert Archives(site, next, o);
            r := Do(next);
          } else {
            r := if Intact(site, ui) then Ok(()) else Failed;
          }
        case Foreign => return Failed;
      }
    }

    /** One more of the exchange paths `first` had, `done` of them being recovered. */
    method RecoverNext(ghost first: Site, ghost from: nat, ghost done: set<nat>, o: nat) returns (r: Result<()>)
      requires Valid() && from < |past| && past[from] == first && Untouched(past, from, first.target)
      requires Recovered(first, site, done) && o in first.orphans && o !in done && done <= first.orphans.Keys
      modifies `site, `past
      ensures Valid() && old(past) <= past && Untouched(past, from, first.target)
      ensures Recovers(first, site, first.orphans.Keys)
      ensures r.Ok? ==> Recovered(first, site, done + {o})
      ensures calm && Sound(first) ==> r.Ok?
    {
      hide Sound, Recovers, Recovered, Untouched, Step;
      RecoversTheRest(first, site, done, o);
      if Sound(first) {
        EveryCutIsSound(past, from, |past| - 1);
      }
      ghost var was, before := site, past;
      r := RecoverOne(o);
      RecoversOneMore(first, was, site, done, o, r.Ok?);
      UntouchedTogether(before, past, from, first.target);
      RecoversMore(first, site, done + {o}, first.orphans.Keys);
    }

    /** `_recover_interrupted_exchanges`. */
    method Recover() returns (r: Result<()>)
      requires Valid()
      modifies `site, `past
      ensures Valid() && old(past) <= past && Untouched(past, |old(past)| - 1, old(site).target)
      ensures Recovers(old(site), site, old(site).orphans.Keys)
      ensures r.Ok? ==> Recovered(old(site), site, old(site).orphans.Keys)
      ensures calm && Sound(old(site)) ==> r.Ok?
    {
      hide Sound, Recovers, Recovered, Untouched, Step;
      ghost var first, from := site, |past| - 1;
      var todo := site.orphans.Keys;
      ghost var done: set<nat> := {};
      RecoversNothing(site);
      UntouchedAtFirst(past);
      while todo != {}
        invariant todo + done == first.orphans.Keys && todo !! done
        invariant Valid() && old(past) <= past && Untouched(past, from, first.target)
        invariant Recovered(first, site, done)
        decreases |todo|
      {
        var o :| o in todo;
        var _ :- RecoverNext(first, from, done, o);
        todo, done := todo - {o}, done + {o};
      }
      RecoversMore(first, site, done, first.orphans.Keys);
      assert done == first.orphans.Keys;
      return Ok(());
    }

    /** The release of `ui`, verified if it is there, else built aside and renamed into place. */
    method EnsureRelease(ui: Ui) returns (r: Result<()>)
      requires Valid() && ui.hasIndex
      modifies `site, `past
      ensures Valid() && old(past) <= past && Untouched(past, |old(past)| - 1, old(site).target)
      ensures site.orphans == old(site).orphans
      ensures forall name :: name in site.releases && name !in old(site).releases ==> Intact(site, name)
      ensures r.Ok? ==> Intact(site, ui)
      ensures calm ==> (r.Ok? <==> ui !in old(site).releases || Intact(old(site), ui))
    {
      if ui in site.releases {
        return if Intact(site, ui) then Ok(()) else Failed;
      }
      var _ :- Call();
      assert AddsRelease(site, site.(releases := site.releases[ui := ui]), ui);
      r := Do(site.(releases := site.releases[ui := ui]));
    }

    /** The prepared pointer, exchanged with the target or renamed to it. */
    method SwapIn(ui: Ui, o: nat) returns (r: Result<()>)
      requires Valid() && TargetIsUsable(site) && o in site.orphans && site.orphans[o] == Pointer(ui)
        && Intact(site, ui)
      modifies `site, `past
      ensures Valid() && old(past) <= past && |past| <= |old(past)| + 1
      ensures r.Ok? ==> |past| == |old(past)| + 1
      ensures |past| == |old(past)| + 1 ==>
        && site.target == Some(Pointer(ui)) && site.releases == old(site).releases
        && site.orphans ==
             (if old(site).target.Some? then old(site).orphans[o := old(site).target.value]
              else old(site).orphans - {o})
      ensures calm ==> r.Ok?
    {
      if site.target.Some? {
        var next := site.(target := Some(site.orphans[o]), orphans := site.orphans[o := site.target.value]);
        assert Exchanges(site, next, o);
        r := Do(next);
      } else {
        var next := site.(target := Some(site.orphans[o]), orphans := site.orphans - {o});
        assert Places(site, next, o);
        r := Do(next);
      }
    }

    /** What the exchange brought out: archived, left as a copy, or a pointer to drop. */
    method SettleOld(o: nat) returns (r: Result<()>)
      requires Valid()
      modifies `site, `past
      ensures Valid() && old(past) <= past && Untouched(past, |old(past)| - 1, old(site).target)
      ensures r.Ok? && o in old(site).orphans ==> Recovered(old(site), site, {o})
      ensures r.Ok? && o !in old(site).orphans ==> site == old(site)
      ensures calm && Sound(old(site)) ==> r.Ok?
    {
      if o !in site.orphans {
        return Ok(());
      }
      r := RecoverOne(o);
    }

    /** From a verified release to the settled exchange; `o` is a fresh exchange path. */
    method Activate(ui: Ui, o: nat) returns (r: Result<()>)
      requires Valid() && TargetIsUsable(site) && Intact(site, ui) && o !in site.orphans
      modifies `site, `past
      ensures Valid() && old(past) <= past
      ensures r.Ok? ==> site.target == Some(Pointer(ui)) && Intact(site, ui)
      ensures r.Ok? ==> forall x :: x in site.orphans && x != o ==>
        x in old(site).orphans && site.orphans[x] == old(site).orphans[x]
      ensures r.Ok? && o in site.orphans ==> site.orphans[o].Tree? && Intact(site, site.orphans[o].ui)
      ensures Sound(old(site)) ==> Switches(past, |old(past)| - 1, Active(old(site)), Some(ui))
      ensures calm && Sound(old(site)) ==> r.Ok?
    {
      hide Sound, Step, Untouched, SwitchesAt;
      ghost var first, from, target := site, |past| - 1, site.target;
      var ready := site.(orphans := site.orphans[o := Pointer(ui)]);
      Prepared(site, ready, o, ui);
      r := Do(ready);
      UntouchedSoFar(past, from, target);
      if Sound(first) {
        UntouchedDoesNotSwitch(past, from, target, Some(ui));
      }
      var _ :- r;
      r := Switch(first, from, ui, o);
    }

    /** The exchange and its settlement, `from` the history that was there before. */
    method Switch(ghost first: Site, ghost from: nat, ui: Ui, o: nat) returns (r: Result<()>)
      requires Valid() && from < |past| && past[from] == first && Untouched(past, from, first.target)
        && site.target == first.target
      requires TargetIsUsable(site) && Intact(site, ui) && o in site.orphans && site.orphans[o] == Pointer(ui)
      modifies `site, `past
      ensures Valid() && old(past) <= past
      ensures r.Ok? ==> site.target == Some(Pointer(ui)) && Intact(site, ui)
      ensures r.Ok? ==> forall x :: x in site.orphans && x != o ==>
        x in old(site).orphans && site.orphans[x] == old(site).orphans[x]
      ensures r.Ok? && o in site.orphans ==> site.orphans[o].Tree? && Intact(site, site.orphans[o].ui)
      ensures Sound(first) ==> Switches(past, from, Active(first), Some(ui))
      ensures calm && Sound(first) ==> r.Ok?
    {
      hide Sound, Step, Untouched, SwitchesAt;
      ghost var cut := |past|;
      r := SwapIn(ui, o);
      if Sound(first) {
        EveryCutIsSound(past, from, |past| - 1);
        SwitchedHere(old(past), past, from, Some(ui));
      }
      var _ :- r;
      ghost var swapped := past;
      r := SettleOld(o);
      if Sound(first) {
        StaysSwitched(swapped, past, from, cut, Active(first), Some(ui));
      }
      ReleasesAreImmutable(past, |swapped| - 1, |past| - 1);
    }

    /** Recovery, the checks on the current target, and the release to activate. */
    method Build(source: Ui, restore: bool) returns (r: Result<bool>)
      requires Valid() && source.hasIndex
      modifies `site, `past
      ensures Valid() && old(past) <= past && Untouched(past, |old(past)| - 1, old(site).target)
      ensures forall x :: x in site.orphans ==> x in old(site).orphans
      ensures r.Ok? ==> OnlyCopies(site) && TargetIsUsable(site)
      ensures r.Ok? ==>
        (if r.value then site.target == Some(Pointer(source)) && Intact(site, source) else Intact(site, source))
      ensures r.Ok? && restore ==> source in old(site).releases || Orphaned(old(site), source)
      ensures calm && Sound(old(site)) ==>
        (r.Ok? <==> !restore || source in old(site).releases || Orphaned(old(site), source))
    {
      hide Sound, Step, Untouched;
      ghost var first, from := site, |past| - 1;
      var recovered := Recover();
      if Sound(first) {
        EveryCutIsSound(past, from, |past| - 1);
        AllIntact(site);
      }
      var _ :- recovered;
      RecoveredIsClean(first, site, source);
      if !TargetIsUsable(site) || (restore && !Intact(site, source)) {
        return Failed;
      }
      if site.target == Some(Pointer(source)) {
        return Ok(true);
      }
      ghost var before := past;
      if !restore {
        var _ :- BuildRelease(source, first, from);
      }
      return Ok(false);
    }

    method BuildRelease(source: Ui, ghost first: Site, ghost from: nat) returns (r: Result<()>)
      requires Valid() && source.hasIndex && TargetIsUsable(site) && OnlyCopies(site)
      requires from < |past| && past[from] == first && Untouched(past, from, first.target)
        && site.target == first.target
      modifies `site, `past
      ensures Valid() && old(past) <= past && Untouched(past, from, first.target) && site.target == first.target
      ensures site.orphans == old(site).orphans && OnlyCopies(site) && TargetIsUsable(site)
      ensures r.Ok? ==> Intact(site, source)
      ensures calm && (source in old(site).releases ==> Intact(old(site), source)) ==> r.Ok?
    {
      hide Step, Untouched;
      ghost var before := past;
      r := EnsureRelease(source);
      UntouchedTogether(before, past, from, first.target);
      UntouchedAtEnd(past, from, first.target);
      ReleasesAreImmutable(past, |before| - 1, |past| - 1);
      StaysUsable(old(site), site);
    }

    /** `_publish_under_component_lock`; `o` is the fresh name of its exchange path. */
    method Publish(source: Ui, compatible: bool, restore: Option<Ui>, o: nat) returns (r: Result<()>)
      requires Valid() && o !in site.orphans
      modifies `site, `past
      ensures Valid() && old(past) <= past
      ensures !source.hasIndex || !compatible || (restore.Some? && restore.value != source) ==>
        r.Failed? && past == old(past)
      ensures r.Ok? ==> site.target == Some(Pointer(source)) && Intact(site, source) && OnlyCopies(site)
      ensures r.Ok? ==> source.hasIndex && compatible && source in site.releases && site.releases[source] == source
      ensures r.Ok? && restore.Some? ==>
        source in old(site).releases || exists x :: x in old(site).orphans && old(site).orphans[x] == Tree(source)
      ensures r.Ok? ==> TargetWasFine(old(site), site)
      ensures Sound(old(site)) ==> Switches(past, |old(past)| - 1, Active(old(site)), Some(source))
      ensures Sound(old(site)) ==> Sound(site)
      ensures calm && Sound(old(site)) ==> (r.Ok? <==> PublishAdmits(old(site), source, compatible, restore))
    {
      hide Sound, Step, Untouched, SwitchesAt, OnlyCopies, TargetIsUsable, TargetWasFine, Acceptable, Active;
      ghost var first, from := site, |past| - 1;
      UntouchedAtFirst(past);
      if Sound(first) {
        UntouchedDoesNotSwitch(past, from, first.target, Some(source));
      }
      if !source.hasIndex || !compatible || (restore.Some? && restore.value != source) {
        return Failed;
      }
      var _ :- Call();
      var built := Build(source, restore.Some?);
      UntouchedAtEnd(past, from, first.target);
      if Sound(first) {
        EveryCutIsSound(past, from, |past| - 1);
        UntouchedDoesNotSwitch(past, from, first.target, Some(source));
      }
      var current :- built;
      ReleasesAreImmutable(past, from, |past| - 1);
      if current {
        UsableWasFine(first, site, site);
        return Ok(());
      }
      var _ :- Call();
      ghost var before, mid := past, site;
      r := Finish(first, from, source, o);
      ReleasesAreImmutable(past, |before| - 1, |past| - 1);
      UsableWasFine(first, mid, site);
    }

    /** The activation, seen from the start of the publication. */
    method Finish(ghost first: Site, ghost from: nat, source: Ui, o: nat) returns (r: Result<()>)
      requires Valid() && from < |past| && past[from] == first && Untouched(past, from, first.target)
      requires TargetIsUsable(site) && OnlyCopies(site) && Intact(site, source) && o !in site.orphans
      modifies `site, `past
      ensures Valid() && old(past) <= past
      ensures r.Ok? ==> site.target == Some(Pointer(source)) && Intact(site, source) && OnlyCopies(site)
      ensures Sound(first) ==> Sound(site) && Switches(past, from, Active(first), Some(source))
      ensures calm && Sound(first) ==> r.Ok?
    {
      hide Sound, Step, Untouched, SwitchesAt, TargetIsUsable;
      ghost var before := past;
      if Sound(first) {
        EveryCutIsSound(past, from, |past| - 1);
      }
      r := Activate(source, o);
      ReleasesAreImmutable(past, |before| - 1, |past| - 1);
      if Sound(first) {
        EveryCutIsSound(past, from, |past| - 1);
        SwitchesFromEarlier(before, past, from, Some(source));
      }
    }

    /** MAIN: any publications, of anything, cut anywhere, leave a directory on which a
        publication in calm conditions goes through. */
    method AfterAnyCuts(cuts: seq<(Ui, bool, Option<Ui>, nat)>, source: Ui, o: nat)
      returns (later: Publisher, r: Result<()>)
      requires Valid() && Sound(site) && source.hasIndex
      modifies this
      ensures Valid() && old(past) <= past && Sound(site)
      ensures fresh(later) && later.Valid()
      ensures o !in site.orphans ==> r.Ok? && later.site.target == Some(Pointer(source)) && Intact(later.site, source)
    {
      hide Sound, Step, PublishAdmits, OnlyCopies;
      for i := 0 to |cuts|
        modifies `site, `past
        invariant Valid() && old(past) <= past && Sound(site)
      {
        if cuts[i].3 !in site.orphans {
          var cut := Publish(cuts[i].0, cuts[i].1, cuts[i].2, cuts[i].3);
        }
      }
      later := new Publisher(site, true);
      r := Failed;
      if o !in site.orphans {
        AdmittedPlainly(site, source);
        r := later.Publish(source, true, None, o);
      }
    }
  }
}
