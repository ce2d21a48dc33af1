/** The backend part of `install.sh`: the selected files are copied one by one over the
    installed tree, then the paths listed as obsolete are removed. Interrupting this and
    starting it again from the first file ends where an uninterrupted run would have ended. */
module Installer {
  import opened Outcomes
  import opened Ordering
  import opened Manifests
  import opened BackendTrees

  function Contents(e: Entry): Node {
    File(e.size, e.digest)
  }

  // ----- removing one path ------------------------------------------------------------------------

  /** `rm -f`: the name goes, unless a directory has it; what is not there is no error. */
  function RemoveFile(listing: seq<Named>, parts: seq<string>): Result<seq<Named>>
    requires parts != []
    decreases |parts|, |listing|
  {
    if listing == [] then Ok([])
    else if listing[0].name != parts[0] then
      var rest :- RemoveFile(listing[1..], parts);
      Ok([listing[0]] + rest)
    else if |parts| == 1 then
      if listing[0].node.Dir? then Failed else Ok(listing[1..])
    else if listing[0].node.Dir? then
      var sub :- RemoveFile(listing[0].node.listing, parts[1..]);
      Ok([Named(parts[0], Dir(sub))] + listing[1..])
    else Ok(listing)
  }

  /** Removing a path takes its own file away and no other. */
  lemma {:induction false} RemoveChangesOnePath(listing: seq<Named>, parts: seq<string>, q: seq<string>, g: Node)
    requires parts != [] && q != [] && g.File? && WellFormed(listing) && RemoveFile(listing, parts).Ok?
    ensures Lookup(RemoveFile(listing, parts).value, q) == Some(g) <==> q != parts && Lookup(listing, q) == Some(g)
    decreases |parts|, |listing|
  {
    if listing != [] {
      var after := RemoveFile(listing, parts).value;
      assert q == [q[0]] + q[1..] && parts == [parts[0]] + parts[1..];
      TailWellFormed(listing);
      if listing[0].name != parts[0] {
        assert after[0] == listing[0] && after[1..] == RemoveFile(listing[1..], parts).value;
        RemoveChangesOnePath(listing[1..], parts, q, g);
      } else if |parts| == 1 {
        if q[0] == parts[0] && Lookup(listing[1..], q).Some? {
          LookupNeedsName(listing[1..], q);
        }
      } else if listing[0].node.Dir? {
        assert after[0].name == parts[0] && after[1..] == listing[1..];
        if |q| > 1 {
          RemoveChangesOnePath(listing[0].node.listing, parts[1..], q[1..], g);
        }
      }
    }
  }

  lemma {:induction false} RemoveKeepsShape(listing: seq<Named>, parts: seq<string>)
    requires parts != [] && WellFormed(listing) && RemoveFile(listing, parts).Ok?
    ensures WellFormed(RemoveFile(listing, parts).value)
    ensures Irregular(RemoveFile(listing, parts).value) ==> Irregular(listing)
    ensures forall n :: HasName(RemoveFile(listing, parts).value, n) ==> HasName(listing, n)
    decreases |parts|, |listing|
  {
    if listing != [] {
      var after := RemoveFile(listing, parts).value;
      TailWellFormed(listing);
      HasNameCons(listing);
      if listing[0].name != parts[0] {
        RemoveKeepsShape(listing[1..], parts);
        assert after[0] == listing[0] && after[1..] == RemoveFile(listing[1..], parts).value;
        ConsWellFormed(listing[0], after[1..]);
        HasNameCons(after);
      } else if |parts| > 1 && listing[0].node.Dir? {
        RemoveKeepsShape(listing[0].node.listing, parts[1..]);
        assert after[1..] == listing[1..];
        ConsWellFormed(after[0], listing[1..]);
        HasNameCons(after);
      }
    }
  }

  /** Nothing to remove at a path no name of the listing leads to. */
  lemma {:induction false} RemoveAbsent(listing: seq<Named>, parts: seq<string>)
    requires parts != [] && !HasName(listing, parts[0])
    ensures RemoveFile(listing, parts) == Ok(listing)
    decreases |listing|
  {
    if listing != [] {
      HasNameCons(listing);
      RemoveAbsent(listing[1..], parts);
      assert listing == [listing[0]] + listing[1..];
    }
  }

  lemma {:induction false} RemoveTwice(listing: seq<Named>, parts: seq<string>)
    requires parts != [] && WellFormed(listing) && RemoveFile(listing, parts).Ok?
    ensures RemoveFile(RemoveFile(listing, parts).value, parts) == RemoveFile(listing, parts)
    decreases |parts|, |listing|
  {
    if listing != [] {
      var after := RemoveFile(listing, parts).value;
      TailWellFormed(listing);
      if listing[0].name != parts[0] {
        assert after[0] == listing[0] && after[1..] == RemoveFile(listing[1..], parts).value;
        RemoveTwice(listing[1..], parts);
      } else if |parts| == 1 {
        RemoveAbsent(listing[1..], parts);
      } else if listing[0].node.Dir? {
        assert after[1..] == listing[1..];
        RemoveTwice(listing[0].node.listing, parts[1..]);
      }
    }
  }

  /** What is gone stays gone when another path is removed. */
  lemma {:induction false} GoneStaysGone(listing: seq<Named>, p: seq<string>, q: seq<string>)
    requires p != [] && q != [] && WellFormed(listing)
    requires RemoveFile(listing, p) == Ok(listing) && RemoveFile(listing, q).Ok?
    ensures RemoveFile(RemoveFile(listing, q).value, p) == RemoveFile(listing, q)
    decreases |p|, |listing|
  {
    if listing != [] {
      var after := RemoveFile(listing, q).value;
      TailWellFormed(listing);
      if listing[0].name == p[0] {
        assert |p| > 1 by {
          if |p| == 1 {
            assert |listing[1..]| < |listing|;
          }
        }
        if listing[0].name == q[0] && listing[0].node.Dir? && |q| > 1 {
          assert after[1..] == listing[1..]
            && RemoveFile(listing[0].node.listing, p[1..]) == Ok(listing[0].node.listing);
          GoneStaysGone(listing[0].node.listing, p[1..], q[1..]);
        } else if listing[0].name == q[0] && |q| == 1 {
          RemoveAbsent(listing[1..], p);
        } else if listing[0].name != q[0] {
          assert after[0] == listing[0];
        }
      } else {
        assert RemoveFile(listing[1..], p) == Ok(listing[1..]) by {
          assert ([listing[0]] + RemoveFile(listing[1..], p).value)[1..] == listing[1..];
        }
        if listing[0].name != q[0] {
          assert after[0] == listing[0] && after[1..] == RemoveFile(listing[1..], q).value;
          GoneStaysGone(listing[1..], p, q);
        } else if |q| > 1 {
          assert after[1..] == listing[1..];
        }
      }
    }
  }

  // ----- the steps of an installation -----------------------------------------------------------------

  datatype Act = Put(entry: Entry) | Remove(path: string)

  /** The files of a manifest in order, then the obsolete paths in order. */
  function Acts(m: Manifest, obsolete: seq<string>): seq<Act> {
    seq(|m|, i requires 0 <= i < |m| => Put(m[i]))
    + seq(|obsolete|, i requires 0 <= i < |obsolete| => Remove(obsolete[i]))
  }

  function Parts(a: Act): (parts: seq<string>)
    ensures parts != []
  {
    match a
    case Put(e) => Split(e.path)
    case Remove(path) => Split(path)
  }

  function Do(listing: seq<Named>, a: Act): Result<seq<Named>> {
    match a
    case Put(e) => PutFile(listing, Split(e.path), Contents(e))
    case Remove(path) => RemoveFile(listing, Split(path))
  }

  function DoAll(listing: seq<Named>, acts: seq<Act>): Result<seq<Named>>
    decreases |acts|
  {
    if acts == [] then Ok(listing)
    else
      var next :- Do(listing, acts[0]);
      DoAll(next, acts[1..])
  }

  /** Doing it again changes nothing. */
  predicate Settled(listing: seq<Named>, a: Act) {
    Do(listing, a) == Ok(listing)
  }

  /** What the later act leaves of the earlier one. */
  predicate Compatible(a: Act, b: Act) {
    if a.Put? then a == b || Parts(a) != Parts(b) else b.Remove?
  }

  ghost predicate Orderly(acts: seq<Act>) {
    && (forall a :: a in acts ==> ValidNames(Parts(a)))
    && forall i, j :: 0 <= i < j < |acts| ==> Compatible(acts[i], acts[j])
  }

  lemma DoKeepsShape(listing: seq<Named>, a: Act)
    requires WellFormed(listing) && ValidNames(Parts(a)) && Do(listing, a).Ok?
    ensures WellFormed(Do(listing, a).value)
    ensures Irregular(Do(listing, a).value) ==> Irregular(listing)
  {
    if a.Put? {
      PutKeepsShape(listing, Parts(a), Contents(a.entry));
    } else {
      RemoveKeepsShape(listing, Parts(a));
    }
  }

  lemma {:induction false} PutPresent(listing: seq<Named>, parts: seq<string>, file: Node)
    requires parts != [] && file.File? && Lookup(listing, parts) == Some(file)
    ensures PutFile(listing, parts, file) == Ok(listing)
    decreases |parts|, |listing|
  {
    assert listing == [listing[0]] + listing[1..];
    if listing[0].name != parts[0] {
      PutPresent(listing[1..], parts, file);
    } else if |parts| > 1 {
      PutPresent(listing[0].node.listing, parts[1..], file);
    }
  }

  lemma DoSettles(listing: seq<Named>, a: Act)
    requires WellFormed(listing) && Do(listing, a).Ok?
    ensures Settled(Do(listing, a).value, a)
  {
    if a.Put? {
      PutChangesOnePath(listing, Parts(a), Contents(a.entry), Parts(a), Contents(a.entry));
      PutPresent(Do(listing, a).value, Parts(a), Contents(a.entry));
    } else {
      RemoveTwice(listing, Parts(a));
    }
  }

  lemma SettledStays(listing: seq<Named>, a: Act, b: Act)
    requires WellFormed(listing) && Settled(listing, a) && Compatible(a, b) && Do(listing, b).Ok?
    ensures Settled(Do(listing, b).value, a)
  {
    if a == b {
      DoSettles(listing, a);
    } else if a.Put? {
      var file := Contents(a.entry);
      PutChangesOnePath(listing, Parts(a), file, Parts(a), file);
      if b.Put? {
        PutChangesOnePath(listing, Parts(b), Contents(b.entry), Parts(a), file);
      } else {
        RemoveChangesOnePath(listing, Parts(b), Parts(a), file);
      }
      PutPresent(Do(listing, b).value, Parts(a), file);
    } else {
      GoneStaysGone(listing, Parts(a), Parts(b));
    }
  }

  lemma {:induction false} SettledThrough(listing: seq<Named>, a: Act, acts: seq<Act>)
    requires WellFormed(listing) && Settled(listing, a) && DoAll(listing, acts).Ok?
    requires forall b :: b in acts ==> ValidNames(Parts(b)) && Compatible(a, b)
    ensures Settled(DoAll(listing, acts).value, a)
    decreases |acts|
  {
    hide Do, Compatible, Settled;
    if acts != [] {
      SettledStays(listing, a, acts[0]);
      DoKeepsShape(listing, acts[0]);
      SettledThrough(Do(listing, acts[0]).value, a, acts[1..]);
    }
  }

  /** After an orderly run every one of its acts is settled. */
  lemma {:induction false} AllSettled(listing: seq<Named>, acts: seq<Act>)
    requires WellFormed(listing) && Orderly(acts) && DoAll(listing, acts).Ok?
    ensures WellFormed(DoAll(listing, acts).value)
    ensures Irregular(DoAll(listing, acts).value) ==> Irregular(listing)
    ensures forall a :: a in acts ==> Settled(DoAll(listing, acts).value, a)
    decreases |acts|
  {
    hide Do, Compatible, Settled;
    if acts != [] {
      var next, rest := Do(listing, acts[0]).value, acts[1..];
      DoKeepsShape(listing, acts[0]);
      DoSettles(listing, acts[0]);
      assert forall b :: b in rest ==> b in acts;
      forall b | b in rest ensures Compatible(acts[0], b) {
        var j :| 0 <= j < |rest| && rest[j] == b;
        assert acts[j + 1] == b;
      }
      SettledThrough(next, acts[0], rest);
      AllSettled(next, rest);
      assert forall a :: a in acts ==> a == acts[0] || a in rest;
    }
  }

  lemma {:induction false} SettledIsDone(listing: seq<Named>, acts: seq<Act>)
    requires forall a :: a in acts ==> Settled(listing, a)
    ensures DoAll(listing, acts) == Ok(listing)
    decreases |acts|
  {
    if acts != [] {
      assert Settled(listing, acts[0]);
      SettledIsDone(listing, acts[1..]);
    }
  }

  lemma {:induction false} DoInTwo(listing: seq<Named>, a: seq<Act>, b: seq<Act>)
    ensures DoAll(listing, a + b) == if DoAll(listing, a).Ok? then DoAll(DoAll(listing, a).value, b) else Failed
    decreases |a|
  {
    hide Do;
    if a == [] {
      assert a + b == b;
    } else {
      assert (a + b)[0] == a[0] && (a + b)[1..] == a[1..] + b;
      if Do(listing, a[0]).Ok? {
        DoInTwo(Do(listing, a[0]).value, a[1..], b);
      }
    }
  }

  lemma OrderlyPrefix(acts: seq<Act>, i: nat)
    requires Orderly(acts) && i <= |acts|
    ensures Orderly(acts[..i])
  {
    hide Compatible;
    assert forall a :: a in acts[..i] ==> a in acts;
  }

  /** MAIN: once the first `i` steps are done, doing the first `j` again from the start
      leaves exactly what the longer of the two leaves. */
  lemma RestartedInstallation(listing: seq<Named>, acts: seq<Act>, i: nat, j: nat)
    requires WellFormed(listing) && Orderly(acts) && i <= |acts| && j <= |acts| && DoAll(listing, acts[..i]).Ok?
    ensures DoAll(DoAll(listing, acts[..i]).value, acts[..j]) == DoAll(listing, acts[..if i < j then j else i])
  {
    hide Do, Orderly, Settled;
    var partial := DoAll(listing, acts[..i]).value;
    OrderlyPrefix(acts, i);
    AllSettled(listing, acts[..i]);
    var common := if i < j then i else j;
    assert forall a :: a in acts[..common] ==> a in acts[..i];
    SettledIsDone(partial, acts[..common]);
    if i < j {
      assert acts[..j] == acts[..i] + acts[i..j];
      DoInTwo(partial, acts[..i], acts[i..j]);
      DoInTwo(listing, acts[..i], acts[i..j]);
    }
  }

  // ----- when it ends at the selected manifest ----------------------------------------------------------

  /** Every step fits the tree and leaves a tree the lifecycle can list. */
  ghost predicate Fits(tree: Node, acts: seq<Act>) {
    && tree.Dir? && WellFormed(tree.listing)
    && forall i :: 0 <= i <= |acts| ==>
      DoAll(tree.listing, acts[..i]).Ok? && ManifestOf(Dir(DoAll(tree.listing, acts[..i]).value)).Ok?
  }

  /** And the whole installation leaves exactly the selected manifest. */
  ghost predicate Installable(tree: Node, m: Manifest, obsolete: seq<string>) {
    var acts := Acts(m, obsolete);
    && Orderly(acts) && Fits(tree, acts)
    && DoAll(tree.listing, acts).Ok? && ManifestOf(Dir(DoAll(tree.listing, acts).value)) == Ok(m)
  }

  lemma FitsWhole(tree: Node, acts: seq<Act>)
    requires Fits(tree, acts)
    ensures DoAll(tree.listing, acts[..0]) == Ok(tree.listing) && ManifestOf(tree).Ok?
    ensures acts[..|acts|] == acts && DoAll(tree.listing, acts).Ok?
      && ManifestOf(Dir(DoAll(tree.listing, acts).value)).Ok?
  {
    hide ManifestOf, Do;
    assert acts[..|acts|] == acts;
    assert ManifestOf(Dir(DoAll(tree.listing, acts[..0]).value)).Ok? && Dir(tree.listing) == tree;
  }

  /** MAIN: an interrupted installation leaves the tree installable, so it can start again. */
  lemma PartlyInstalledIsInstallable(tree: Node, m: Manifest, obsolete: seq<string>, i: nat)
    requires Installable(tree, m, obsolete) && i <= |Acts(m, obsolete)|
    ensures DoAll(tree.listing, Acts(m, obsolete)[..i]).Ok?
      && WellFormed(DoAll(tree.listing, Acts(m, obsolete)[..i]).value)
    ensures Installable(Dir(DoAll(tree.listing, Acts(m, obsolete)[..i]).value), m, obsolete)
  {
    hide ManifestOf, DoAll, Orderly, Acts, Settled;
    var acts := Acts(m, obsolete);
    var partial := DoAll(tree.listing, acts[..i]).value;
    OrderlyPrefix(acts, i);
    AllSettled(tree.listing, acts[..i]);
    forall j | 0 <= j <= |acts|
      ensures DoAll(partial, acts[..j]) == DoAll(tree.listing, acts[..if i < j then j else i])
    {
      RestartedInstallation(tree.listing, acts, i, j);
    }
    assert acts[..|acts|] == acts;
    assert DoAll(partial, acts) == DoAll(tree.listing, acts);
  }

  /** No selected file is on the list, and every installed file that is not selected is. */
  ghost predicate Covers(tree: Node, m: Manifest, obsolete: seq<string>)
    requires PathsOf(tree).Ok?
  {
    && (forall path :: path in obsolete ==> path !in Paths(m))
    && (forall path :: path in PathsOf(tree).value && path !in Paths(m) ==> path in obsolete)
  }

  lemma {:induction false} JoinSplit(path: string)
    ensures Join(Split(path)) == path
  {
    if path != "" {
      JoinSplit(path[1..]);
      assert path == [path[0]] + path[1..];
    }
  }

  lemma {:induction false} PutsAreOverlay(listing: seq<Named>, m: Manifest)
    ensures DoAll(listing, Acts(m, [])) == Overlay(listing, m)
    decreases |m|
  {
    var acts := Acts(m, []);
    if m != [] {
      assert acts[0] == Put(m[0]) && acts[1..] == Acts(m[1..], []);
      var next := Do(listing, acts[0]);
      if next.Ok? {
        PutsAreOverlay(next.value, m[1..]);
      }
    }
  }

  lemma {:induction false} RemovesLookup(listing: seq<Named>, obsolete: seq<string>, q: seq<string>, g: Node)
    requires q != [] && g.File? && WellFormed(listing) && DoAll(listing, Acts([], obsolete)).Ok?
    ensures Lookup(DoAll(listing, Acts([], obsolete)).value, q) == Some(g)
       <==> Lookup(listing, q) == Some(g) && forall path :: path in obsolete ==> Split(path) != q
    decreases |obsolete|
  {
    hide Lookup, RemoveFile;
    var acts := Acts([], obsolete);
    assert obsolete == [] ==> acts == [];
    if obsolete != [] {
      assert acts[0] == Remove(obsolete[0]) && acts[1..] == Acts([], obsolete[1..]);
      RemoveChangesOnePath(listing, Split(obsolete[0]), q, g);
      RemoveKeepsShape(listing, Split(obsolete[0]));
      var next := RemoveFile(listing, Split(obsolete[0])).value;
      assert Do(listing, acts[0]) == Ok(next) && DoAll(listing, acts) == DoAll(next, Acts([], obsolete[1..]));
      RemovesLookup(next, obsolete[1..], q, g);
      assert obsolete[0] in obsolete;
      assert forall path :: path in obsolete <==> path == obsolete[0] || path in obsolete[1..];
    }
  }

  /** What a finished installation holds: the selected files, and what was installed
      before, both without the obsolete paths. */
  lemma InstalledLookup(source: Node, tree: Node, obsolete: seq<string>, q: seq<string>, g: Node)
    requires source.Dir? && WellFormed(source.listing) && ManifestOf(source).Ok?
    requires tree.Dir? && WellFormed(tree.listing) && q != [] && g.File?
    requires DoAll(tree.listing, Acts(ManifestOf(source).value, obsolete)).Ok?
    ensures var m := ManifestOf(source).value;
      Lookup(DoAll(tree.listing, Acts(m, obsolete)).value, q) == Some(g)
      <==> && (forall path :: path in obsolete ==> Split(path) != q)
           && ((exists e :: e in m && Split(e.path) == q && g == Contents(e))
               || (!Overlays(m, q) && Lookup(tree.listing, q) == Some(g)))
  {
    hide Lookup, Overlay;
    var m := ManifestOf(source).value;
    ManifestDescribes(source);
    assert Acts(m, obsolete) == Acts(m, []) + Acts([], obsolete);
    DoInTwo(tree.listing, Acts(m, []), Acts([], obsolete));
    PutsAreOverlay(tree.listing, m);
    OverlayLookup(tree.listing, m, q, g);
    RemovesLookup(Overlay(tree.listing, m).value, obsolete, q, g);
  }

  lemma ActsAreOrderly(source: Node, obsolete: seq<string>)
    requires source.Dir? && WellFormed(source.listing) && ManifestOf(source).Ok?
    requires forall path :: path in obsolete ==> ValidNames(Split(path))
    requires forall path :: path in obsolete ==> path !in Paths(ManifestOf(source).value)
    ensures Orderly(Acts(ManifestOf(source).value, obsolete))
  {
    hide ManifestOf;
    var m := ManifestOf(source).value;
    ManifestDescribes(source);
    var acts := Acts(m, obsolete);
    forall i, j | 0 <= i < j < |acts| ensures Compatible(acts[i], acts[j]) {
      if i < |m| {
        assert m[i] in m && PathOf(m[i]) in Paths(m);
        JoinSplit(m[i].path);
        if j < |m| {
          assert m[j] in m;
        } else {
          assert acts[j].path in obsolete;
          JoinSplit(acts[j].path);
        }
      }
    }
    forall a | a in acts ensures ValidNames(Parts(a)) {
      assert a.Put? ==> a.entry in m;
    }
  }

  /** MAIN: where every step fits, the installation can be started, cut and started again
      and ends at exactly the selected manifest, if and only if no selected file is listed
      as obsolete and every installed file that is not selected is. */
  lemma InstallableExactly(source: Node, tree: Node, obsolete: seq<string>)
    requires source.Dir? && WellFormed(source.listing) && ManifestOf(source).Ok?
    requires forall path :: path in obsolete ==> ValidNames(Split(path))
    requires Fits(tree, Acts(ManifestOf(source).value, obsolete))
    ensures PathsOf(tree).Ok?
    ensures Installable(tree, ManifestOf(source).value, obsolete) <==> Covers(tree, ManifestOf(source).value, obsolete)
  {
    hide ManifestOf, PathsOf, DoAll, Acts, Orderly, WellFormed;
    var m := ManifestOf(source).value;
    FitsWhole(tree, Acts(m, obsolete));
    WalkersAgree(tree);
    if Covers(tree, m, obsolete) {
      ActsAreOrderly(source, obsolete);
      CoveredEndsThere(source, tree, obsolete);
    }
    if Installable(tree, m, obsolete) {
      EndingThereIsCovered(source, tree, obsolete);
    }
  }

  /** In particular after a preflight that found no installed file the source lacks, as long
      as no selected file is listed as obsolete. */
  lemma NoExtrasMeansInstallable(source: Node, tree: Node, obsolete: seq<string>)
    requires source.Dir? && WellFormed(source.listing) && ManifestOf(source).Ok?
    requires forall path :: path in obsolete ==> ValidNames(Split(path)) && path !in Paths(ManifestOf(source).value)
    requires Fits(tree, Acts(ManifestOf(source).value, obsolete))
    requires PathsOf(tree).Ok? && PathsOf(tree).value <= Paths(ManifestOf(source).value)
    ensures Installable(tree, ManifestOf(source).value, obsolete)
  {
    hide ManifestOf, PathsOf, Installable, Fits, Acts, Paths;
    InstallableExactly(source, tree, obsolete);
  }

  lemma CoveredEndsThere(source: Node, tree: Node, obsolete: seq<string>)
    requires source.Dir? && WellFormed(source.listing) && ManifestOf(source).Ok?
    requires tree.Dir? && WellFormed(tree.listing) && ManifestOf(tree).Ok? && PathsOf(tree).Ok?
    requires Orderly(Acts(ManifestOf(source).value, obsolete))
      && DoAll(tree.listing, Acts(ManifestOf(source).value, obsolete)).Ok?
    requires Covers(tree, ManifestOf(source).value, obsolete)
    ensures ManifestOf(Dir(DoAll(tree.listing, Acts(ManifestOf(source).value, obsolete)).value)) == ManifestOf(source)
  {
    hide DoAll, Acts, Orderly, Lookup, Inventory, WellFormed;
    var m := ManifestOf(source).value;
    var end := DoAll(tree.listing, Acts(m, obsolete)).value;
    AllSettled(tree.listing, Acts(m, obsolete));
    ManifestDescribes(source);
    forall e ensures e in Inventory(end, []) <==> e in Inventory(source.listing, []) {
      InstalledLookup(source, tree, obsolete, Split(e.path), Contents(e));
      if e in m {
        SelectedIsInstalled(end, m, obsolete, e);
      }
      if e in Inventory(end, []) {
        EntryNames(end, e);
        OnlySelectedIsInstalled(tree, m, obsolete, e);
      }
    }
    SameFilesSameManifest(Dir(end), source);
  }

  lemma SelectedIsInstalled(end: seq<Named>, m: Manifest, obsolete: seq<string>, e: Entry)
    requires WellFormed(end) && e in m && Join(Split(e.path)) == e.path && ValidNames(Split(e.path))
      && !Excluded(Split(e.path))
    requires forall path :: path in obsolete ==> path !in Paths(m)
    requires (forall path :: path in obsolete ==> Split(path) != Split(e.path)) ==>
      Lookup(end, Split(e.path)) == Some(Contents(e))
    ensures e in Inventory(end, [])
  {
    hide Lookup, Inventory, Excluded;
    assert PathOf(e) in Paths(m);
    forall path | path in obsolete ensures Split(path) != Split(e.path) {
      JoinSplit(path);
    }
    assert [] + Split(e.path) == Split(e.path);
    assert Found(end, [], Split(e.path), e);
    FoundIsInInventory(end, [], Split(e.path), e);
  }

  lemma OnlySelectedIsInstalled(tree: Node, m: Manifest, obsolete: seq<string>, e: Entry)
    requires tree.Dir? && WellFormed(tree.listing) && PathsOf(tree).Ok? && Covers(tree, m, obsolete)
    requires Join(Split(e.path)) == e.path && ValidNames(Split(e.path)) && !Excluded(Split(e.path))
    requires forall x :: x in m ==> Join(Split(x.path)) == x.path
    requires forall path :: path in obsolete ==> Split(path) != Split(e.path)
    requires (exists x :: x in m && Split(x.path) == Split(e.path) && Contents(e) == Contents(x))
      || (!Overlays(m, Split(e.path)) && Lookup(tree.listing, Split(e.path)) == Some(Contents(e)))
    ensures e in m
  {
    hide Lookup, Inventory, Excluded;
    if Lookup(tree.listing, Split(e.path)) == Some(Contents(e)) {
      OverlaidIfInstalled(tree, m, obsolete, e);
    }
    var x :| x in m && Split(x.path) == Split(e.path) && Contents(e) == Contents(x);
    assert x.path == e.path;
    assert x == e;
  }

  lemma OverlaidIfInstalled(tree: Node, m: Manifest, obsolete: seq<string>, e: Entry)
    requires tree.Dir? && WellFormed(tree.listing) && PathsOf(tree).Ok? && Covers(tree, m, obsolete)
    requires Join(Split(e.path)) == e.path && ValidNames(Split(e.path)) && !Excluded(Split(e.path))
    requires forall path :: path in obsolete ==> Split(path) != Split(e.path)
    requires Lookup(tree.listing, Split(e.path)) == Some(Contents(e))
    ensures Overlays(m, Split(e.path))
  {
    hide Lookup, Inventory, Excluded;
    assert [] + Split(e.path) == Split(e.path);
    assert Found(tree.listing, [], Split(e.path), e);
    FoundIsInInventory(tree.listing, [], Split(e.path), e);
    assert PathOf(e) in Paths(Inventory(tree.listing, []));
    assert e.path !in obsolete;
    var x :| x in m && PathOf(x) == e.path;
  }

  lemma EndingThereIsCovered(source: Node, tree: Node, obsolete: seq<string>)
    requires source.Dir? && WellFormed(source.listing) && ManifestOf(source).Ok?
    requires tree.Dir? && WellFormed(tree.listing) && PathsOf(tree).Ok?
    requires Orderly(Acts(ManifestOf(source).value, obsolete))
      && DoAll(tree.listing, Acts(ManifestOf(source).value, obsolete)).Ok?
    requires ManifestOf(Dir(DoAll(tree.listing, Acts(ManifestOf(source).value, obsolete)).value)) == ManifestOf(source)
    ensures Covers(tree, ManifestOf(source).value, obsolete)
  {
    hide DoAll, Acts, Orderly, Lookup, Inventory, WellFormed, Excluded;
    var m := ManifestOf(source).value;
    var end := DoAll(tree.listing, Acts(m, obsolete)).value;
    AllSettled(tree.listing, Acts(m, obsolete));
    ManifestDescribes(source);
    ManifestDescribes(Dir(end));
    forall e | e in m ensures e.path !in obsolete {
      InstalledLookup(source, tree, obsolete, Split(e.path), Contents(e));
      assert Leads(end, Split(e.path), e);
    }
    forall path | path in PathsOf(tree).value && path !in obsolete ensures path in Paths(m) {
      var e :| e in Inventory(tree.listing, []) && PathOf(e) == path;
      EntryNames(tree.listing, e);
      forall p | p in obsolete ensures Split(p) != Split(path) {
        JoinSplit(p);
      }
      var g := Contents(e);
      if Overlays(m, Split(path)) {
        var x :| x in m && Split(x.path) == Split(path);
        g := Contents(x);
      }
      InstalledLookup(source, tree, obsolete, Split(path), g);
      var there := Entry(path, g.size, g.digest);
      assert [] + Split(path) == Split(path);
      assert Found(end, [], Split(path), there);
      FoundIsInInventory(end, [], Split(path), there);
      assert PathOf(there) in Paths(m);
    }
  }

  /** The next step fits, and leaves what doing one more leaves. */
  lemma OneMoreStep(tree: Node, m: Manifest, obsolete: seq<string>, i: nat)
    requires Installable(tree, m, obsolete) && i < |Acts(m, obsolete)|
    ensures var acts := Acts(m, obsolete);
      && DoAll(tree.listing, acts[..i]).Ok? && DoAll(tree.listing, acts[..i + 1]).Ok?
      && Do(DoAll(tree.listing, acts[..i]).value, acts[i]) == DoAll(tree.listing, acts[..i + 1])
      && WellFormed(DoAll(tree.listing, acts[..i + 1]).value)
      && Installable(Dir(DoAll(tree.listing, acts[..i + 1]).value), m, obsolete)
  {
    hide ManifestOf, Do, Acts, Orderly;
    var acts := Acts(m, obsolete);
    assert acts[..i + 1] == acts[..i] + [acts[i]];
    DoInTwo(tree.listing, acts[..i], [acts[i]]);
    var next := Do(DoAll(tree.listing, acts[..i]).value, acts[i]);
    assert next.Ok? ==> DoAll(next.value, []) == Ok(next.value);
    PartlyInstalledIsInstallable(tree, m, obsolete, i + 1);
  }
}
