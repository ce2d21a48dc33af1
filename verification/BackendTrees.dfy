/** The two tree walkers of `controlled_backend_lifecycle.py`, the preflight built
    on them, and the overlay the installer performs between stop and resume. */
module BackendTrees {
  import opened Outcomes
  import opened Ordering
  import opened Manifests

  /** A directory waiting to be visited, with the names leading to it. */
  datatype Frame = Frame(prefix: seq<string>, listing: seq<Named>)

  // ----- well-formed listings ----------------------------------------------

  ghost predicate WellFormed(listing: seq<Named>) {
    && (forall i :: 0 <= i < |listing| ==> ValidName(listing[i].name))
    && (forall i, j :: 0 <= i < j < |listing| ==> listing[i].name != listing[j].name)
    && (forall i :: 0 <= i < |listing| && listing[i].node.Dir? ==> WellFormed(listing[i].node.listing))
  }

  // ----- what a walk finds ---------------------------------------------------

  predicate IsDirectory(node: Node) {
    node.Dir? || (node.Link? && node.toDirectory)
  }

  function FilesHere(listing: seq<Named>, prefix: seq<string>): seq<Entry> {
    if listing == [] then []
    else
      var it := listing[0];
      (if ExcludedPart(it.name) || !it.node.File? then []
       else [Entry(Join(prefix + [it.name]), it.node.size, it.node.digest)])
      + FilesHere(listing[1..], prefix)
  }

  function DirsHere(listing: seq<Named>, prefix: seq<string>): seq<Frame> {
    if listing == [] then []
    else
      var it := listing[0];
      (if ExcludedPart(it.name) || !it.node.Dir? then []
       else [Frame(prefix + [it.name], it.node.listing)])
      + DirsHere(listing[1..], prefix)
  }

  predicate IrregularHere(listing: seq<Named>) {
    exists i :: 0 <= i < |listing| && !ExcludedPart(listing[i].name)
      && (listing[i].node.Link? || listing[i].node.Special?)
  }

  /** The included files an entry of a directory contributes. */
  function Contributes(it: Named, prefix: seq<string>): seq<Entry>
    decreases it
  {
    if ExcludedPart(it.name) then []
    else match it.node
      case File(size, digest) => [Entry(Join(prefix + [it.name]), size, digest)]
      case Dir(sub) => Inventory(sub, prefix + [it.name])
      case _ => []
  }

  /** Every included file below a listing. */
  function Inventory(listing: seq<Named>, prefix: seq<string>): seq<Entry>
    decreases listing
  {
    if listing == [] then []
    else Contributes(listing[0], prefix) + Inventory(listing[1..], prefix)
  }

  /** Some included name below a listing is neither a file nor a directory. */
  predicate Irregular(listing: seq<Named>) {
    if listing == [] then false
    else
      || (!ExcludedPart(listing[0].name)
          && match listing[0].node
             case File(_, _) => false
             case Dir(sub) => Irregular(sub)
             case _ => true)
      || Irregular(listing[1..])
  }

  function Weight(listing: seq<Named>): nat {
    if listing == [] then 0
    else (if listing[0].node.Dir? then 1 + Weight(listing[0].node.listing) else 0) + Weight(listing[1..])
  }

  function PendingInventory(frames: seq<Frame>): seq<Entry> {
    if frames == [] then []
    else Inventory(frames[0].listing, frames[0].prefix) + PendingInventory(frames[1..])
  }

  predicate PendingIrregular(frames: seq<Frame>) {
    exists i :: 0 <= i < |frames| && Irregular(frames[i].listing)
  }

  function PendingWeight(frames: seq<Frame>): nat {
    if frames == [] then 0 else 1 + Weight(frames[0].listing) + PendingWeight(frames[1..])
  }

  // ----- pushing and popping frames -------------------------------------------

  lemma {:induction false} PendingConcat(a: seq<Frame>, b: seq<Frame>)
    ensures PendingInventory(a + b) == PendingInventory(a) + PendingInventory(b)
    ensures PendingWeight(a + b) == PendingWeight(a) + PendingWeight(b)
  {
    if a == [] {
      assert a + b == b;
    } else {
      assert (a + b)[1..] == a[1..] + b;
      PendingConcat(a[1..], b);
    }
  }

  lemma IrregularConcat(a: seq<Frame>, b: seq<Frame>)
    ensures PendingIrregular(a + b) <==> PendingIrregular(a) || PendingIrregular(b)
  {
    if PendingIrregular(a) {
      var i :| 0 <= i < |a| && Irregular(a[i].listing);
      assert (a + b)[i] == a[i];
    }
    if PendingIrregular(b) {
      var i :| 0 <= i < |b| && Irregular(b[i].listing);
      assert (a + b)[|a| + i] == b[i];
    }
  }

  lemma Shuffle<T>(h: seq<T>, t: seq<T>, f: seq<T>, ft: seq<T>, d: seq<T>, dt: seq<T>)
    requires multiset(h) == multiset(f) + multiset(d)
    requires multiset(t) == multiset(ft) + multiset(dt)
    ensures multiset(h + t) == multiset(f + ft) + multiset(d + dt)
  {
  }

  /** Visiting one directory accounts for its files and leaves its subdirectories. */
  lemma {:induction false} VisitSplits(listing: seq<Named>, prefix: seq<string>)
    ensures multiset(Inventory(listing, prefix))
         == multiset(FilesHere(listing, prefix)) + multiset(PendingInventory(DirsHere(listing, prefix)))
    ensures PendingWeight(DirsHere(listing, prefix)) <= Weight(listing)
  {
    if listing != [] {
      var it, here := listing[0], prefix + [listing[0].name];
      VisitSplits(listing[1..], prefix);
      var files := if ExcludedPart(it.name) || !it.node.File? then []
                   else [Entry(Join(here), it.node.size, it.node.digest)];
      var dirs := if ExcludedPart(it.name) || !it.node.Dir? then [] else [Frame(here, it.node.listing)];
      var found := Contributes(it, prefix);
      PendingConcat(dirs, DirsHere(listing[1..], prefix));
      assert dirs != [] ==> PendingInventory(dirs) == found + PendingInventory(dirs[1..]);
      assert multiset(found) == multiset(files) + multiset(PendingInventory(dirs));
      Shuffle(found, Inventory(listing[1..], prefix), files, FilesHere(listing[1..], prefix),
              PendingInventory(dirs), PendingInventory(DirsHere(listing[1..], prefix)));
    }
  }

  lemma {:induction false} VisitIrregular(listing: seq<Named>, prefix: seq<string>)
    ensures Irregular(listing) <==> IrregularHere(listing) || PendingIrregular(DirsHere(listing, prefix))
  {
    if listing != [] {
      var it := listing[0];
      VisitIrregular(listing[1..], prefix);
      var one := if ExcludedPart(it.name) || !it.node.Dir? then [] else [Frame(prefix + [it.name], it.node.listing)];
      IrregularConcat(one, DirsHere(listing[1..], prefix));
      assert one != [] ==> (PendingIrregular(one) <==> Irregular(one[0].listing));
      if IrregularHere(listing[1..]) {
        var i :| 0 <= i < |listing[1..]| && !ExcludedPart(listing[1..][i].name)
          && (listing[1..][i].node.Link? || listing[1..][i].node.Special?);
        assert listing[i + 1] == listing[1..][i];
      }
      if IrregularHere(listing) {
        var i :| 0 <= i < |listing| && !ExcludedPart(listing[i].name)
          && (listing[i].node.Link? || listing[i].node.Special?);
        assert i > 0 ==> listing[1..][i - 1] == listing[i];
      }
    }
  }

  // ----- sizes of rearranged lists ---------------------------------------------

  lemma {:induction false} TotalSizeSplit(a: Manifest, b: Manifest)
    ensures TotalSize(a + b) == TotalSize(a) + TotalSize(b)
  {
    if a == [] {
      assert a + b == b;
    } else {
      assert (a + b)[1..] == a[1..] + b;
      TotalSizeSplit(a[1..], b);
    }
  }

  lemma RemoveAt(m: Manifest, i: nat)
    requires i < |m|
    ensures TotalSize(m) == m[i].size + TotalSize(m[..i] + m[i + 1..])
    ensures multiset(m[..i] + m[i + 1..]) == multiset(m) - multiset{m[i]}
  {
    var one := [m[i]];
    TotalSizeSplit(m[..i], one + m[i + 1..]);
    TotalSizeSplit(one, m[i + 1..]);
    TotalSizeSplit(m[..i], m[i + 1..]);
    assert m == m[..i] + (one + m[i + 1..]);
    assert one[1..] == [];
  }

  lemma {:induction false} TotalSizeRearranged(a: Manifest, b: Manifest)
    requires multiset(a) == multiset(b)
    ensures TotalSize(a) == TotalSize(b)
  {
    MemberByMultiset(a, b);
    if a != [] {
      assert a[0] in b;
      var i :| 0 <= i < |b| && b[i] == a[0];
      RemoveAt(b, i);
      TailMultiset(a);
      TotalSizeRearranged(a[1..], b[..i] + b[i + 1..]);
    }
  }

  lemma {:induction false} TotalSizeBoundsMembers(m: Manifest, i: nat)
    requires i < |m|
    ensures m[i].size <= TotalSize(m)
  {
    if i > 0 {
      TotalSizeBoundsMembers(m[1..], i - 1);
    }
  }

  // ----- specification of the walkers ------------------------------------------

  predicate Bounded(entries: Manifest) {
    |entries| <= MAX_FILES && TotalSize(entries) <= MAX_BYTES
  }

  /** The manifest of a tree: every included regular file, sorted by path. */
  function ManifestOf(root: Node): Result<Manifest> {
    if !root.Dir? || Irregular(root.listing) then Failed
    else
      var entries := Inventory(root.listing, []);
      if entries == [] || !Bounded(entries) then Failed
      else Ok(Sorted(PathOf, entries))
  }

  function Paths(entries: Manifest): set<string> {
    set e | e in entries :: PathOf(e)
  }

  function PathsOf(root: Node): Result<set<string>> {
    if !root.Dir? || Irregular(root.listing) || !Bounded(Inventory(root.listing, [])) then Failed
    else Ok(Paths(Inventory(root.listing, [])))
  }

  // ----- which names the manifest lists -------------------------------------------

  function Lookup(listing: seq<Named>, parts: seq<string>): Option<Node>
    requires parts != []
    decreases |parts|, |listing|
  {
    if listing == [] then None
    else if listing[0].name != parts[0] then Lookup(listing[1..], parts)
    else if |parts| == 1 then Some(listing[0].node)
    else if listing[0].node.Dir? then Lookup(listing[0].node.listing, parts[1..])
    else None
  }

  /** `parts` leads to the regular file `e` describes, past no excluded name. */
  ghost predicate Leads(listing: seq<Named>, parts: seq<string>, e: Entry) {
    && parts != [] && ValidNames(parts) && !Excluded(parts)
    && Lookup(listing, parts) == Some(File(e.size, e.digest))
  }

  /** An entry found below `prefix`, seen from the listing it was found in. */
  ghost predicate Found(listing: seq<Named>, prefix: seq<string>, parts: seq<string>, e: Entry) {
    Leads(listing, parts, e) && e.path == Join(prefix + parts)
  }

  ghost predicate HasName(listing: seq<Named>, name: string) {
    exists i :: 0 <= i < |listing| && listing[i].name == name
  }

  lemma {:induction false} LookupNeedsName(listing: seq<Named>, parts: seq<string>)
    requires parts != [] && Lookup(listing, parts).Some?
    ensures HasName(listing, parts[0])
    decreases |listing|
  {
    if listing[0].name != parts[0] {
      LookupNeedsName(listing[1..], parts);
      var i :| 0 <= i < |listing[1..]| && listing[1..][i].name == parts[0];
      assert listing[i + 1].name == parts[0];
    } else {
      assert listing[0].name == parts[0];
    }
  }

  lemma TailWellFormed(listing: seq<Named>)
    requires WellFormed(listing) && listing != []
    ensures WellFormed(listing[1..])
    ensures ValidName(listing[0].name)
    ensures listing[0].node.Dir? ==> WellFormed(listing[0].node.listing)
    ensures !HasName(listing[1..], listing[0].name)
  {
    assert forall i :: 0 <= i < |listing[1..]| ==> listing[1..][i] == listing[i + 1];
  }

  lemma ExcludedCons(name: string, parts: seq<string>)
    ensures Excluded([name] + parts) <==> ExcludedPart(name) || Excluded(parts)
  {
  }

  /** Soundness of the walk: every entry is a regular file found under its own names. */
  lemma {:induction false} InventoryIsFound(listing: seq<Named>, prefix: seq<string>, e: Entry)
    returns (parts: seq<string>)
    requires WellFormed(listing) && e in Inventory(listing, prefix)
    ensures Found(listing, prefix, parts, e)
    decreases listing
  {
    TailWellFormed(listing);
    if e in Contributes(listing[0], prefix) {
      parts := ContributionIsFound(listing, prefix, e);
    } else {
      parts := InventoryIsFound(listing[1..], prefix, e);
      LookupNeedsName(listing[1..], parts);
    }
  }

  lemma {:induction false} ContributionIsFound(listing: seq<Named>, prefix: seq<string>, e: Entry)
    returns (parts: seq<string>)
    requires WellFormed(listing) && listing != [] && e in Contributes(listing[0], prefix)
    ensures Found(listing, prefix, parts, e) && parts[0] == listing[0].name
    decreases listing[0]
  {
    TailWellFormed(listing);
    var it := listing[0];
    if it.node.Dir? {
      var sub := InventoryIsFound(it.node.listing, prefix + [it.name], e);
      parts := [it.name] + sub;
      FoundOneLevelUp(listing, prefix, sub, e);
    } else {
      parts := [it.name];
      ExcludedCons(it.name, []);
      assert [it.name] + [] == parts;
    }
  }

  lemma FoundOneLevelUp(listing: seq<Named>, prefix: seq<string>, sub: seq<string>, e: Entry)
    requires listing != [] && listing[0].node.Dir? && ValidName(listing[0].name)
    requires !ExcludedPart(listing[0].name)
    requires Found(listing[0].node.listing, prefix + [listing[0].name], sub, e)
    ensures Found(listing, prefix, [listing[0].name] + sub, e)
  {
    var it := listing[0];
    ExcludedCons(it.name, sub);
    assert prefix + [it.name] + sub == prefix + ([it.name] + sub);
    assert ([it.name] + sub)[1..] == sub;
  }

  /** Completeness of the walk: every included regular file has its entry. */
  lemma {:induction false} FoundIsInInventory(listing: seq<Named>, prefix: seq<string>, parts: seq<string>, e: Entry)
    requires WellFormed(listing) && Found(listing, prefix, parts, e)
    ensures e in Inventory(listing, prefix)
    decreases listing
  {
    TailWellFormed(listing);
    var it := listing[0];
    if it.name != parts[0] {
      FoundIsInInventory(listing[1..], prefix, parts, e);
    } else {
      assert parts == [it.name] + parts[1..];
      ExcludedCons(it.name, parts[1..]);
      if |parts| == 1 {
        assert prefix + [it.name] == prefix + parts;
      } else {
        assert prefix + parts == prefix + [it.name] + parts[1..];
        FoundIsInInventory(it.node.listing, prefix + [it.name], parts[1..], e);
      }
    }
  }

  lemma JoinInjective(a: seq<string>, b: seq<string>)
    requires a != [] && b != [] && ValidNames(a) && ValidNames(b)
    requires Join(a) == Join(b)
    ensures a == b
  {
    SplitJoin(a);
    SplitJoin(b);
  }

  ghost predicate DistinctPaths(entries: seq<Entry>) {
    forall i, j :: 0 <= i < j < |entries| ==> PathOf(entries[i]) != PathOf(entries[j])
  }

  lemma DistinctConcat(a: seq<Entry>, b: seq<Entry>)
    requires DistinctPaths(a) && DistinctPaths(b)
    requires forall x, y :: x in a && y in b ==> PathOf(x) != PathOf(y)
    ensures DistinctPaths(a + b)
  {
  }

  /** No path is listed twice. */
  lemma {:induction false} InventoryDistinct(listing: seq<Named>, prefix: seq<string>)
    requires WellFormed(listing) && ValidNames(prefix)
    ensures DistinctPaths(Inventory(listing, prefix))
    decreases listing
  {
    if listing != [] {
      TailWellFormed(listing);
      var it := listing[0];
      InventoryDistinct(listing[1..], prefix);
      if !ExcludedPart(it.name) && it.node.Dir? {
        InventoryDistinct(it.node.listing, prefix + [it.name]);
      }
      forall x, y | x in Contributes(it, prefix) && y in Inventory(listing[1..], prefix)
        ensures PathOf(x) != PathOf(y)
      {
        NamesSeparate(listing, prefix, x, y);
      }
      DistinctConcat(Contributes(it, prefix), Inventory(listing[1..], prefix));
    }
  }

  lemma NamesSeparate(listing: seq<Named>, prefix: seq<string>, x: Entry, y: Entry)
    requires WellFormed(listing) && ValidNames(prefix) && listing != []
    requires x in Contributes(listing[0], prefix) && y in Inventory(listing[1..], prefix)
    ensures x.path != y.path
  {
    TailWellFormed(listing);
    var a := ContributionIsFound(listing, prefix, x);
    var b := InventoryIsFound(listing[1..], prefix, y);
    LookupNeedsName(listing[1..], b);
    assert (prefix + a)[|prefix|] == a[0] && (prefix + b)[|prefix|] == b[0];
    if Join(prefix + a) == Join(prefix + b) {
      JoinInjective(prefix + a, prefix + b);
    }
  }

  // ----- main results about manifests ----------------------------------------------

  /** A manifest that is built at all is strictly sorted and passes the validator. */
  lemma BuiltManifestIsValid(root: Node)
    requires root.Dir? ==> WellFormed(root.listing)
    requires ManifestOf(root).Ok?
    ensures ValidManifest(ManifestOf(root).value)
  {
    var entries := Inventory(root.listing, []);
    var m := ManifestOf(root).value;
    InventoryDistinct(root.listing, []);
    DistinctSortIsStrict(PathOf, entries);
    MemberByMultiset(m, entries);
    TotalSizeRearranged(m, entries);
    forall i | 0 <= i < |m| ensures SafePath(m[i].path) && m[i].size <= MAX_BYTES {
      assert m[i] in entries;
      var parts := InventoryIsFound(root.listing, [], m[i]);
      assert [] + parts == parts;
      SplitJoin(parts);
      TotalSizeBoundsMembers(m, i);
    }
  }

  /** The manifest lists exactly the included regular files of the tree. */
  lemma ManifestListsExactlyTheFiles(root: Node, parts: seq<string>, size: nat, digest: nat)
    requires root.Dir? && WellFormed(root.listing)
    requires ManifestOf(root).Ok? && parts != [] && ValidNames(parts)
    ensures Entry(Join(parts), size, digest) in ManifestOf(root).value
       <==> !Excluded(parts) && Lookup(root.listing, parts) == Some(File(size, digest))
  {
    var e := Entry(Join(parts), size, digest);
    var entries := Inventory(root.listing, []);
    MemberByMultiset(ManifestOf(root).value, entries);
    assert [] + parts == parts;
    if e in entries {
      var found := InventoryIsFound(root.listing, [], e);
      assert [] + found == found;
      JoinInjective(found, parts);
    }
    if !Excluded(parts) && Lookup(root.listing, parts) == Some(File(size, digest)) {
      FoundIsInInventory(root.listing, [], parts, e);
    }
  }

  /** The two walkers agree: same failures except for an empty tree, same names. */
  lemma WalkersAgree(root: Node)
    ensures ManifestOf(root).Ok? <==> PathsOf(root).Ok? && PathsOf(root).value != {}
    ensures ManifestOf(root).Ok? ==> PathsOf(root).value == Paths(ManifestOf(root).value)
  {
    if root.Dir? {
      var entries := Inventory(root.listing, []);
      if entries != [] {
        assert entries[0] in entries;
        assert PathOf(entries[0]) in Paths(entries);
      }
      if ManifestOf(root).Ok? {
        MemberByMultiset(ManifestOf(root).value, entries);
      }
    }
  }

  /** `parts` leads past no excluded name to something that is neither file nor directory. */
  predicate IsIrregular(listing: seq<Named>, parts: seq<string>) {
    && parts != [] && !Excluded(parts)
    && (Lookup(listing, parts) == Some(Special)
        || Lookup(listing, parts) == Some(Link(true)) || Lookup(listing, parts) == Some(Link(false)))
  }

  lemma {:induction false} IrregularIsFound(listing: seq<Named>) returns (parts: seq<string>)
    requires WellFormed(listing) && Irregular(listing)
    ensures IsIrregular(listing, parts)
    decreases listing
  {
    TailWellFormed(listing);
    var it := listing[0];
    if Irregular(listing[1..]) {
      parts := IrregularIsFound(listing[1..]);
      LookupNeedsName(listing[1..], parts);
    } else if it.node.Dir? {
      var sub := IrregularIsFound(it.node.listing);
      parts := [it.name] + sub;
      ExcludedCons(it.name, sub);
      assert parts[1..] == sub;
    } else {
      parts := [it.name];
      ExcludedCons(it.name, []);
      assert [it.name] + [] == parts;
      assert it.node == Special || it.node == Link(true) || it.node == Link(false);
    }
  }

  lemma {:induction false} FoundIsIrregular(listing: seq<Named>, parts: seq<string>)
    requires IsIrregular(listing, parts)
    ensures Irregular(listing)
    decreases listing
  {
    hide ExcludedPart;
    assert parts == [parts[0]] + parts[1..];
    ExcludedCons(parts[0], parts[1..]);
    if listing[0].name != parts[0] {
      FoundIsIrregular(listing[1..], parts);
    } else if |parts| > 1 {
      FoundIsIrregular(listing[0].node.listing, parts[1..]);
    }
  }

  /** MAIN: a tree has no manifest exactly if it is no directory, holds a link or special file
      past no excluded name, or its included files are none, or exceed one of the two limits. */
  lemma ManifestFailsExactly(root: Node)
    requires root.Dir? ==> WellFormed(root.listing)
    ensures ManifestOf(root).Failed? <==>
      || !root.Dir? || (exists parts :: IsIrregular(root.listing, parts))
      || Inventory(root.listing, []) == [] || |Inventory(root.listing, [])| > 10000
      || TotalSize(Inventory(root.listing, [])) > 512 * 1024 * 1024
  {
    if root.Dir? && Irregular(root.listing) {
      var parts := IrregularIsFound(root.listing);
    }
    if root.Dir? && exists parts :: IsIrregular(root.listing, parts) {
      var parts :| IsIrregular(root.listing, parts);
      FoundIsIrregular(root.listing, parts);
    }
  }

  // ----- the walkers themselves ------------------------------------------------------

  ghost predicate NoLinkedDirectory(listing: seq<Named>, n: nat)
    requires n <= |listing|
  {
    forall j :: 0 <= j < n ==> ExcludedPart(listing[j].name) || !IsDirectory(listing[j].node) || listing[j].node.Dir?
  }

  /** The directory half of one `os.walk` step: prune, and refuse linked directories. */
  method KeepDirectories(frame: Frame) returns (kept: Result<seq<Frame>>)
    ensures kept.Ok? ==> kept.value == DirsHere(frame.listing, frame.prefix)
    ensures kept.Ok? ==> NoLinkedDirectory(frame.listing, |frame.listing|)
    ensures kept.Failed? ==> IrregularHere(frame.listing)
  {
    hide ExcludedPart, DirsHere;
    var dirs: seq<Frame> := [];
    for i := 0 to |frame.listing|
      invariant dirs + DirsHere(frame.listing[i..], frame.prefix) == DirsHere(frame.listing, frame.prefix)
      invariant NoLinkedDirectory(frame.listing, i)
    {
      var it := frame.listing[i];
      DirsFrom(frame.listing, frame.prefix, i);
      if IsDirectory(it.node) && !ExcludedPart(it.name) {
        if it.node.Link? {
          return Failed;
        }
        dirs := dirs + [Frame(frame.prefix + [it.name], it.node.listing)];
      }
    }
    NoDirsFrom(frame.listing, frame.prefix);
    return Ok(dirs);
  }

  /** The first listed name adds its directory, if it is one to visit. */
  lemma DirsFrom(listing: seq<Named>, prefix: seq<string>, i: nat)
    requires i < |listing|
    ensures DirsHere(listing[i..], prefix) ==
      (if ExcludedPart(listing[i].name) || !listing[i].node.Dir? then []
       else [Frame(prefix + [listing[i].name], listing[i].node.listing)])
      + DirsHere(listing[i + 1..], prefix)
  {
    assert listing[i..][1..] == listing[i + 1..];
  }

  lemma NoDirsFrom(listing: seq<Named>, prefix: seq<string>)
    ensures DirsHere(listing[|listing|..], prefix) == []
  {
  }

  /** The file half of one step of `_backend_manifest`. */
  method AddFiles(frame: Frame, entries: seq<Entry>, total: nat) returns (r: Result<(seq<Entry>, nat)>)
    requires total == TotalSize(entries) && Bounded(entries)
    requires NoLinkedDirectory(frame.listing, |frame.listing|)
    ensures r.Ok? ==>
      && r.value.0 == entries + FilesHere(frame.listing, frame.prefix)
      && r.value.1 == TotalSize(r.value.0) && Bounded(r.value.0)
      && !IrregularHere(frame.listing)
    ensures r.Failed? ==>
      IrregularHere(frame.listing) || !Bounded(entries + FilesHere(frame.listing, frame.prefix))
  {
    hide FilesHere, Join, TotalSize, ExcludedPart;
    var all, bytes := entries, total;
    for i := 0 to |frame.listing|
      invariant all + FilesHere(frame.listing[i..], frame.prefix) == entries + FilesHere(frame.listing, frame.prefix)
      invariant bytes == TotalSize(all) && Bounded(all)
      invariant forall j :: 0 <= j < i ==>
        ExcludedPart(frame.listing[j].name) || frame.listing[j].node.File? || frame.listing[j].node.Dir?
    {
      var it := frame.listing[i];
      FilesFrom(frame.listing, frame.prefix, i);
      if !IsDirectory(it.node) && !ExcludedPart(it.name) {
        if !it.node.File? {
          return Failed;
        }
        var e := Entry(Join(frame.prefix + [it.name]), it.node.size, it.node.digest);
        bytes := bytes + e.size;
        TotalSizeSnoc(all, e);
        assert all + ([e] + FilesHere(frame.listing[i + 1..], frame.prefix))
            == (all + [e]) + FilesHere(frame.listing[i + 1..], frame.prefix);
        if |all| >= MAX_FILES || bytes > MAX_BYTES {
          TotalSizeSplit(all + [e], FilesHere(frame.listing[i + 1..], frame.prefix));
          return Failed;
        }
        all := all + [e];
      }
    }
    NoFilesFrom(frame.listing, frame.prefix);
    assert all + [] == all;
    return Ok((all, bytes));
  }

  /** One iteration of the loop over `os.walk` in `_backend_manifest`. */
  method VisitDirectory(frame: Frame, entries: seq<Entry>, total: nat)
    returns (r: Result<(seq<Frame>, seq<Entry>, nat)>)
    requires total == TotalSize(entries) && Bounded(entries)
    ensures r.Ok? ==>
      && r.value.0 == DirsHere(frame.listing, frame.prefix)
      && r.value.1 == entries + FilesHere(frame.listing, frame.prefix)
      && r.value.2 == TotalSize(r.value.1) && Bounded(r.value.1)
      && !IrregularHere(frame.listing)
    ensures r.Failed? ==>
      IrregularHere(frame.listing) || !Bounded(entries + FilesHere(frame.listing, frame.prefix))
  {
    var kept :- KeepDirectories(frame);
    var added :- AddFiles(frame, entries, total);
    return Ok((kept, added.0, added.1));
  }

  /** Progress of a walk: what was collected and what is still on the stack. */
  ghost predicate Walked(root: Node, entries: seq<Entry>, stack: seq<Frame>)
    requires root.Dir?
  {
    && multiset(entries) + multiset(PendingInventory(stack)) == multiset(Inventory(root.listing, []))
    && (Irregular(root.listing) <==> PendingIrregular(stack))
  }

  lemma WalkStarts(root: Node)
    requires root.Dir?
    ensures Walked(root, [], [Frame([], root.listing)])
  {
  }

  /** What one visit does to the progress of the walk. */
  lemma WalkAdvances(root: Node, entries: seq<Entry>, rest: seq<Frame>, frame: Frame)
    requires root.Dir? && Walked(root, entries, rest + [frame])
    ensures IrregularHere(frame.listing) ==> Irregular(root.listing)
    ensures !IrregularHere(frame.listing) ==>
      Walked(root, entries + FilesHere(frame.listing, frame.prefix), rest + DirsHere(frame.listing, frame.prefix))
    ensures !Bounded(entries + FilesHere(frame.listing, frame.prefix)) ==> !Bounded(Inventory(root.listing, []))
    ensures PendingWeight(rest + DirsHere(frame.listing, frame.prefix)) < PendingWeight(rest + [frame])
  {
    PopAccounts(rest, frame);
    VisitSplits(frame.listing, frame.prefix);
    VisitIrregular(frame.listing, frame.prefix);
    PendingConcat(rest, DirsHere(frame.listing, frame.prefix));
    IrregularConcat(rest, DirsHere(frame.listing, frame.prefix));
    Regroup(entries, PendingInventory(rest), Inventory(frame.listing, frame.prefix),
            FilesHere(frame.listing, frame.prefix), PendingInventory(DirsHere(frame.listing, frame.prefix)));
    PartBounds(entries + FilesHere(frame.listing, frame.prefix),
               PendingInventory(rest + DirsHere(frame.listing, frame.prefix)), Inventory(root.listing, []));
  }

  lemma Regroup<T>(done: seq<T>, rest: seq<T>, here: seq<T>, files: seq<T>, below: seq<T>)
    requires multiset(here) == multiset(files) + multiset(below)
    ensures multiset(done) + multiset(rest + here) == multiset(done + files) + multiset(rest + below)
  {
  }

  /** The loop over `os.walk` in `_backend_manifest`. */
  method WalkFiles(root: Node) returns (r: Result<seq<Entry>>)
    requires root.Dir?
    ensures r.Ok? ==> Walked(root, r.value, []) && Bounded(r.value)
    ensures r.Failed? ==> Irregular(root.listing) || !Bounded(Inventory(root.listing, []))
  {
    var entries: seq<Entry>, total := [], 0;
    var stack := [Frame([], root.listing)];
    WalkStarts(root);
    while stack != []
      invariant Walked(root, entries, stack)
      invariant total == TotalSize(entries) && Bounded(entries)
      decreases PendingWeight(stack)
    {
      var top := |stack| - 1;
      var frame, rest := stack[top], stack[..top];
      assert stack == rest + [frame];
      WalkAdvances(root, entries, rest, frame);
      var visit := VisitDirectory(frame, entries, total);
      if visit.Failed? {
        return Failed;
      }
      entries, total := visit.value.1, visit.value.2;
      stack := rest + visit.value.0;
    }
    return Ok(entries);
  }

  /** `_backend_manifest`: whatever order directories list their names in, the
      result is the sorted list of included files, or a refusal. */
  method BackendManifest(root: Node) returns (r: Result<Manifest>)
    requires root.Dir? ==> WellFormed(root.listing)
    ensures r == ManifestOf(root)
    ensures r.Ok? ==> ValidManifest(r.value)
  {
    if !root.Dir? {
      return Failed;
    }
    var entries :- WalkFiles(root);
    WalkEnds(root, entries);
    if entries == [] {
      return Failed;
    }
    BuiltManifestIsValid(root);
    return Ok(Sorted(PathOf, entries));
  }

  lemma WalkEnds(root: Node, entries: seq<Entry>)
    requires root.Dir? && WellFormed(root.listing) && Walked(root, entries, [])
    ensures !Irregular(root.listing)
    ensures |entries| == |Inventory(root.listing, [])|
    ensures TotalSize(entries) == TotalSize(Inventory(root.listing, []))
    ensures Sorted(PathOf, entries) == Sorted(PathOf, Inventory(root.listing, []))
    ensures Paths(entries) == Paths(Inventory(root.listing, []))
  {
    var found := Inventory(root.listing, []);
    MemberByMultiset(entries, found);
    TotalSizeRearranged(entries, found);
    InventoryDistinct(root.listing, []);
    SortIsOrderIndependent(PathOf, found, entries);
  }

  lemma PopAccounts(rest: seq<Frame>, frame: Frame)
    ensures PendingInventory(rest + [frame]) == PendingInventory(rest) + Inventory(frame.listing, frame.prefix)
    ensures PendingIrregular(rest + [frame]) <==> PendingIrregular(rest) || Irregular(frame.listing)
    ensures PendingWeight(rest + [frame]) == PendingWeight(rest) + 1 + Weight(frame.listing)
  {
    var one := [frame];
    PendingConcat(rest, one);
    IrregularConcat(rest, one);
    assert one[1..] == [];
    assert one[0] == frame;
  }

  /** A part of a bounded whole is bounded. */
  lemma PartBounds(part: seq<Entry>, others: seq<Entry>, whole: seq<Entry>)
    requires multiset(part) + multiset(others) == multiset(whole)
    ensures Bounded(whole) ==> Bounded(part)
  {
    assert multiset(part + others) == multiset(whole);
    MemberByMultiset(part + others, whole);
    TotalSizeRearranged(part + others, whole);
    TotalSizeSplit(part, others);
  }

  lemma PartDistinct(part: seq<Entry>, others: seq<Entry>, whole: seq<Entry>)
    requires multiset(part) + multiset(others) == multiset(whole)
    requires DistinctPaths(whole)
    ensures DistinctPaths(part)
  {
    assert multiset(part + others) == multiset(whole);
    forall i, j | 0 <= i < j < |part| ensures PathOf(part[i]) != PathOf(part[j]) {
      DistinctKeysSurvive(PathOf, whole, part + others, i, j);
      assert (part + others)[i] == part[i] && (part + others)[j] == part[j];
    }
  }

  lemma {:induction false} DistinctCount(entries: seq<Entry>)
    requires DistinctPaths(entries)
    ensures |Paths(entries)| == |entries|
  {
    if entries != [] {
      var n := |entries| - 1;
      var init := entries[..n];
      DistinctCount(init);
      assert entries == init + [entries[n]];
      assert Paths(entries) == Paths(init) + {PathOf(entries[n])};
      assert PathOf(entries[n]) !in Paths(init);
    }
  }

  lemma PathsSnoc(entries: seq<Entry>, e: Entry)
    ensures Paths(entries + [e]) == Paths(entries) + {PathOf(e)}
  {
  }

  lemma PrefixDistinct(a: seq<Entry>, b: seq<Entry>)
    requires DistinctPaths(a + b)
    ensures DistinctPaths(a)
  {
    forall i, j | 0 <= i < j < |a| ensures PathOf(a[i]) != PathOf(a[j]) {
      assert (a + b)[i] == a[i] && (a + b)[j] == a[j];
    }
  }

  lemma CountNames(all: seq<Entry>, e: Entry, later: seq<Entry>)
    requires DistinctPaths((all + [e]) + later)
    ensures |Paths(all + [e])| == |all| + 1
  {
    PrefixDistinct(all + [e], later);
    DistinctCount(all + [e]);
  }

  lemma CountBytes(all: seq<Entry>, e: Entry, later: seq<Entry>)
    ensures TotalSize(all + [e]) == TotalSize(all) + e.size
    ensures !Bounded(all + [e]) ==> !Bounded((all + [e]) + later)
  {
    TotalSizeSnoc(all, e);
    TotalSizeSplit(all + [e], later);
  }

  /** Adding one more distinct entry to a count of names and bytes. */
  lemma CountOne(all: seq<Entry>, e: Entry, later: seq<Entry>, whole: seq<Entry>)
    requires whole == all + ([e] + later) && DistinctPaths(whole)
    ensures Paths(all + [e]) == Paths(all) + {e.path} && |Paths(all + [e])| == |all| + 1
    ensures TotalSize(all + [e]) == TotalSize(all) + e.size
    ensures whole == (all + [e]) + later
    ensures !Bounded(all + [e]) ==> !Bounded(whole)
  {
    assert whole == (all + [e]) + later;
    PathsSnoc(all, e);
    CountNames(all, e, later);
    CountBytes(all, e, later);
  }

  /** The first listed name adds its file, if it is one that counts. */
  lemma FilesFrom(listing: seq<Named>, prefix: seq<string>, i: nat)
    requires i < |listing|
    ensures FilesHere(listing[i..], prefix) ==
      (if ExcludedPart(listing[i].name) || !listing[i].node.File? then []
       else [Entry(Join(prefix + [listing[i].name]), listing[i].node.size, listing[i].node.digest)])
      + FilesHere(listing[i + 1..], prefix)
  {
  }

  lemma NoFilesFrom(listing: seq<Named>, prefix: seq<string>)
    ensures FilesHere(listing[|listing|..], prefix) == []
  {
  }

  /** The file half of one step of `_backend_paths`. */
  method AddPaths(frame: Frame, paths: set<string>, total: nat, ghost entries: seq<Entry>, ghost whole: seq<Entry>)
    returns (r: Result<(set<string>, nat)>)
    requires NoLinkedDirectory(frame.listing, |frame.listing|)
    requires paths == Paths(entries) && total == TotalSize(entries) && Bounded(entries)
    requires whole == entries + FilesHere(frame.listing, frame.prefix) && DistinctPaths(whole)
    ensures r.Ok? ==>
      && r.value.0 == Paths(whole) && r.value.1 == TotalSize(whole)
      && Bounded(whole) && !IrregularHere(frame.listing)
    ensures r.Failed? ==> IrregularHere(frame.listing) || !Bounded(whole)
  {
    hide FilesHere, Join, Paths, TotalSize, DistinctPaths, ExcludedPart;
    var names, bytes := paths, total;
    ghost var all := entries;
    for i := 0 to |frame.listing|
      invariant all + FilesHere(frame.listing[i..], frame.prefix) == whole
      invariant names == Paths(all) && bytes == TotalSize(all) && Bounded(all)
      invariant forall j :: 0 <= j < i ==>
        ExcludedPart(frame.listing[j].name) || frame.listing[j].node.File? || frame.listing[j].node.Dir?
    {
      var it := frame.listing[i];
      FilesFrom(frame.listing, frame.prefix, i);
      if !IsDirectory(it.node) && !ExcludedPart(it.name) {
        if !it.node.File? {
          return Failed;
        }
        ghost var e := Entry(Join(frame.prefix + [it.name]), it.node.size, it.node.digest);
        CountOne(all, e, FilesHere(frame.listing[i + 1..], frame.prefix), whole);
        names := names + {Join(frame.prefix + [it.name])};
        bytes := bytes + it.node.size;
        all := all + [e];
        if |names| > MAX_FILES || bytes > MAX_BYTES {
          return Failed;
        }
      }
    }
    NoFilesFrom(frame.listing, frame.prefix);
    assert all + [] == all;
    return Ok((names, bytes));
  }

  /** One iteration of the loop over `os.walk` in `_backend_paths`. */
  method VisitNames(frame: Frame, paths: set<string>, total: nat, ghost entries: seq<Entry>)
    returns (r: Result<(seq<Frame>, set<string>, nat)>)
    requires paths == Paths(entries) && total == TotalSize(entries) && Bounded(entries)
    requires DistinctPaths(entries + FilesHere(frame.listing, frame.prefix))
    ensures r.Ok? ==>
      && r.value.0 == DirsHere(frame.listing, frame.prefix)
      && r.value.1 == Paths(entries + FilesHere(frame.listing, frame.prefix))
      && r.value.2 == TotalSize(entries + FilesHere(frame.listing, frame.prefix))
      && Bounded(entries + FilesHere(frame.listing, frame.prefix))
      && !IrregularHere(frame.listing)
    ensures r.Failed? ==>
      IrregularHere(frame.listing) || !Bounded(entries + FilesHere(frame.listing, frame.prefix))
  {
    var kept :- KeepDirectories(frame);
    var added :- AddPaths(frame, paths, total, entries, entries + FilesHere(frame.listing, frame.prefix));
    return Ok((kept, added.0, added.1));
  }

  /** The loop over `os.walk` in `_backend_paths`. */
  method WalkNames(root: Node) returns (r: Result<set<string>>, ghost entries: seq<Entry>)
    requires root.Dir? && WellFormed(root.listing)
    ensures r.Ok? ==> Walked(root, entries, []) && Bounded(entries) && r.value == Paths(entries)
    ensures r.Failed? ==> Irregular(root.listing) || !Bounded(Inventory(root.listing, []))
  {
    entries := [];
    var paths: set<string>, total := {}, 0;
    var stack := [Frame([], root.listing)];
    WalkStarts(root);
    InventoryDistinct(root.listing, []);
    while stack != []
      invariant Walked(root, entries, stack)
      invariant paths == Paths(entries) && total == TotalSize(entries) && Bounded(entries)
      decreases PendingWeight(stack)
    {
      var top := |stack| - 1;
      var frame, rest := stack[top], stack[..top];
      assert stack == rest + [frame];
      WalkAdvances(root, entries, rest, frame);
      VisitDistinct(root, entries, rest, frame);
      var visit := VisitNames(frame, paths, total, entries);
      if visit.Failed? {
        return Failed, entries;
      }
      paths, total := visit.value.1, visit.value.2;
      entries := entries + FilesHere(frame.listing, frame.prefix);
      stack := rest + visit.value.0;
    }
    return Ok(paths), entries;
  }

  /** `_backend_paths`: the names only, by a walk of its own. */
  method BackendPaths(root: Node) returns (r: Result<set<string>>)
    requires root.Dir? ==> WellFormed(root.listing)
    ensures r == PathsOf(root)
  {
    if !root.Dir? {
      return Failed;
    }
    ghost var entries;
    r, entries := WalkNames(root);
    if r.Ok? {
      WalkEnds(root, entries);
    }
  }

  lemma VisitDistinct(root: Node, entries: seq<Entry>, rest: seq<Frame>, frame: Frame)
    requires root.Dir? && Walked(root, entries, rest + [frame])
    requires DistinctPaths(Inventory(root.listing, []))
    ensures DistinctPaths(entries + FilesHere(frame.listing, frame.prefix))
  {
    PopAccounts(rest, frame);
    VisitSplits(frame.listing, frame.prefix);
    PendingConcat(rest, DirsHere(frame.listing, frame.prefix));
    Regroup(entries, PendingInventory(rest), Inventory(frame.listing, frame.prefix),
            FilesHere(frame.listing, frame.prefix), PendingInventory(DirsHere(frame.listing, frame.prefix)));
    PartDistinct(entries + FilesHere(frame.listing, frame.prefix),
                 PendingInventory(rest + DirsHere(frame.listing, frame.prefix)), Inventory(root.listing, []));
  }

  /** `_preflight_export`: refuse while the installed tree holds a file the source lacks. */
  method PreflightExport(source: Manifest, installed: Node) returns (ok: bool)
    requires installed.Dir? ==> WellFormed(installed.listing)
    ensures ok <==> PathsOf(installed).Ok? && PathsOf(installed).value <= Paths(source)
  {
    var names := BackendPaths(installed);
    if names.Failed? {
      return false;
    }
    var extras := names.value - Paths(source);
    assert forall p :: p in names.value && p !in extras ==> p in Paths(source);
    return extras == {};
  }

  /** `_verify_export`. */
  method VerifyExport(expected: Manifest, installed: Node) returns (ok: bool)
    requires installed.Dir? ==> WellFormed(installed.listing)
    ensures ok <==> ManifestOf(installed) == Ok(expected)
  {
    var actual := BackendManifest(installed);
    return actual == Ok(expected);
  }

  // ----- overlaying a source on an installed tree ------------------------------------

  /** Put one regular file in place, creating the directories on the way; fails
      where the path is taken by something that is not in its way as expected. */
  function PutFile(listing: seq<Named>, parts: seq<string>, file: Node): Result<seq<Named>>
    requires parts != []
    decreases |parts|, |listing|
  {
    if listing == [] then
      if |parts| == 1 then Ok([Named(parts[0], file)])
      else
        var sub :- PutFile([], parts[1..], file);
        Ok([Named(parts[0], Dir(sub))])
    else if listing[0].name != parts[0] then
      var rest :- PutFile(listing[1..], parts, file);
      Ok([listing[0]] + rest)
    else if |parts| == 1 then
      if listing[0].node.File? then Ok([Named(parts[0], file)] + listing[1..]) else Failed
    else if listing[0].node.Dir? then
      var sub :- PutFile(listing[0].node.listing, parts[1..], file);
      Ok([Named(parts[0], Dir(sub))] + listing[1..])
    else Failed
  }

  /** The installer's overlay: every manifest entry is written over the tree. */
  function Overlay(listing: seq<Named>, entries: Manifest): Result<seq<Named>>
    decreases |entries|
  {
    if entries == [] then Ok(listing)
    else
      var next :- PutFile(listing, Split(entries[0].path), File(entries[0].size, entries[0].digest));
      Overlay(next, entries[1..])
  }

  /** Putting a file changes what is found at its own path and nowhere else. */
  lemma {:induction false} PutChangesOnePath(listing: seq<Named>, parts: seq<string>, file: Node, q: seq<string>,
                                             g: Node)
    requires parts != [] && q != [] && file.File? && g.File?
    requires PutFile(listing, parts, file).Ok?
    ensures Lookup(PutFile(listing, parts, file).value, q) == Some(g)
       <==> if q == parts then g == file else Lookup(listing, q) == Some(g)
    decreases |parts|, |listing|
  {
    var after := PutFile(listing, parts, file).value;
    assert q == [q[0]] + q[1..] && parts == [parts[0]] + parts[1..];
    if listing != [] && listing[0].name != parts[0] {
      assert after[0] == listing[0] && after[1..] == PutFile(listing[1..], parts, file).value;
      PutChangesOnePath(listing[1..], parts, file, q, g);
    } else {
      var others := if listing == [] then [] else listing[1..];
      assert after[0].name == parts[0] && after[1..] == others;
      if |parts| > 1 && |q| > 1 {
        var below := if listing == [] then [] else listing[0].node.listing;
        PutChangesOnePath(below, parts[1..], file, q[1..], g);
      }
    }
  }

  lemma {:induction false} PutKeepsShape(listing: seq<Named>, parts: seq<string>, file: Node)
    requires parts != [] && ValidNames(parts) && file.File?
    requires WellFormed(listing) && PutFile(listing, parts, file).Ok?
    ensures WellFormed(PutFile(listing, parts, file).value)
    ensures Irregular(PutFile(listing, parts, file).value) <==> Irregular(listing)
    ensures forall n :: HasName(PutFile(listing, parts, file).value, n) ==> n == parts[0] || HasName(listing, n)
    decreases |parts|, |listing|
  {
    var after := PutFile(listing, parts, file).value;
    if listing == [] {
      if |parts| > 1 {
        PutKeepsShape([], parts[1..], file);
      }
      assert after[1..] == [];
    } else {
      TailWellFormed(listing);
      if listing[0].name != parts[0] {
        PutKeepsShape(listing[1..], parts, file);
        ConsWellFormed(listing[0], after[1..]);
        HasNameCons(listing);
      } else {
        if |parts| > 1 {
          PutKeepsShape(listing[0].node.listing, parts[1..], file);
        }
        ConsWellFormed(after[0], listing[1..]);
        HasNameCons(listing);
      }
      HasNameCons(after);
    }
  }

  lemma HasNameCons(listing: seq<Named>)
    requires listing != []
    ensures forall n :: HasName(listing, n) <==> listing[0].name == n || HasName(listing[1..], n)
  {
  }

  lemma ConsWellFormed(it: Named, rest: seq<Named>)
    requires WellFormed(rest) && ValidName(it.name) && !HasName(rest, it.name)
    requires it.node.Dir? ==> WellFormed(it.node.listing)
    ensures WellFormed([it] + rest)
  {
  }

  ghost predicate Overlays(entries: Manifest, q: seq<string>) {
    exists e :: e in entries && Split(e.path) == q
  }

  /** After the overlay a path holds its manifest entry, or what it held before. */
  lemma {:induction false} OverlayLookup(listing: seq<Named>, entries: Manifest, q: seq<string>, g: Node)
    requires q != [] && g.File?
    requires forall e :: e in entries ==> ValidNames(Split(e.path))
    requires forall x, y :: x in entries && y in entries && Split(x.path) == Split(y.path) ==> x == y
    requires WellFormed(listing) && Overlay(listing, entries).Ok?
    ensures WellFormed(Overlay(listing, entries).value)
    ensures Irregular(Overlay(listing, entries).value) <==> Irregular(listing)
    ensures Lookup(Overlay(listing, entries).value, q) == Some(g)
       <==> || (exists e :: e in entries && Split(e.path) == q && g == File(e.size, e.digest))
            || (!Overlays(entries, q) && Lookup(listing, q) == Some(g))
    decreases |entries|
  {
    if entries != [] {
      var e := entries[0];
      var next := PutFile(listing, Split(e.path), File(e.size, e.digest)).value;
      PutKeepsShape(listing, Split(e.path), File(e.size, e.digest));
      PutChangesOnePath(listing, Split(e.path), File(e.size, e.digest), q, g);
      assert forall x :: x in entries[1..] ==> x in entries;
      OverlayLookup(next, entries[1..], q, g);
      assert forall x :: x in entries <==> x == e || x in entries[1..];
      if Split(e.path) == q {
        assert forall x :: x in entries[1..] && Split(x.path) == q ==> x == e;
      }
    }
  }

  lemma {:induction false} SameMembersSameMultiset(a: seq<Entry>, b: seq<Entry>)
    requires DistinctPaths(a) && DistinctPaths(b)
    requires forall e :: e in a <==> e in b
    ensures multiset(a) == multiset(b)
  {
    forall e ensures multiset(a)[e] == multiset(b)[e] {
      OnceEach(a, e);
      OnceEach(b, e);
      assert e in multiset(a) <==> e in a;
      assert e in multiset(b) <==> e in b;
    }
  }

  /** What the overlay proof needs to know about a manifest. */
  ghost predicate Describes(source: Node, m: Manifest)
    requires source.Dir?
  {
    && (forall e :: e in m <==> e in Inventory(source.listing, []))
    && (forall e :: e in m ==> Leads(source.listing, Split(e.path), e) && Join(Split(e.path)) == e.path)
    && (forall x, y :: x in m && y in m && Split(x.path) == Split(y.path) ==> x == y)
  }

  lemma ManifestDescribes(source: Node)
    requires source.Dir? && WellFormed(source.listing) && ManifestOf(source).Ok?
    ensures Describes(source, ManifestOf(source).value)
  {
    var m, from := ManifestOf(source).value, Inventory(source.listing, []);
    MemberByMultiset(m, from);
    InventoryDistinct(source.listing, []);
    forall e | e in m ensures Leads(source.listing, Split(e.path), e) && Join(Split(e.path)) == e.path {
      EntryNames(source.listing, e);
    }
    forall x, y | x in m && y in m && Split(x.path) == Split(y.path) ensures x == y {
      assert Join(Split(x.path)) == Join(Split(y.path));
      SamePathSameEntry(from, x, y);
    }
  }

  lemma SamePathSameEntry(entries: seq<Entry>, x: Entry, y: Entry)
    requires DistinctPaths(entries) && x in entries && y in entries && PathOf(x) == PathOf(y)
    ensures x == y
  {
  }

  /** Trees with the same included files have the same manifest. */
  lemma SameFilesSameManifest(a: Node, b: Node)
    requires a.Dir? && WellFormed(a.listing) && b.Dir? && WellFormed(b.listing)
    requires Irregular(a.listing) <==> Irregular(b.listing)
    requires forall e :: e in Inventory(a.listing, []) <==> e in Inventory(b.listing, [])
    ensures ManifestOf(a) == ManifestOf(b)
  {
    var to, from := Inventory(a.listing, []), Inventory(b.listing, []);
    InventoryDistinct(a.listing, []);
    InventoryDistinct(b.listing, []);
    SameMembersSameMultiset(to, from);
    MemberByMultiset(to, from);
    TotalSizeRearranged(to, from);
    SortIsOrderIndependent(PathOf, from, to);
  }

  /** The installer contract behind `_preflight_export`: with no extra file in the
      installed tree, overlaying the whole source makes `_verify_export` succeed. */
  lemma OverlayMakesExportVerify(source: Node, installed: Node)
    requires source.Dir? && WellFormed(source.listing) && ManifestOf(source).Ok?
    requires installed.Dir? && WellFormed(installed.listing)
    requires PathsOf(installed).Ok? && PathsOf(installed).value <= Paths(ManifestOf(source).value)
    requires Overlay(installed.listing, ManifestOf(source).value).Ok?
    ensures ManifestOf(Dir(Overlay(installed.listing, ManifestOf(source).value).value)) == ManifestOf(source)
  {
    var m := ManifestOf(source).value;
    ManifestDescribes(source);
    var listing := Overlay(installed.listing, m).value;
    OverlayLookup(installed.listing, m, ["x"], File(0, 0));
    forall e ensures e in Inventory(listing, []) <==> e in Inventory(source.listing, []) {
      OverlaidEntry(source, installed, m, e);
    }
    SameFilesSameManifest(Dir(listing), source);
  }

  lemma EntryNames(listing: seq<Named>, e: Entry)
    requires WellFormed(listing) && e in Inventory(listing, [])
    ensures Leads(listing, Split(e.path), e) && Join(Split(e.path)) == e.path
  {
    var parts := InventoryIsFound(listing, [], e);
    assert [] + parts == parts;
    SplitJoin(parts);
  }

  lemma OverlaidEntry(source: Node, installed: Node, m: Manifest, e: Entry)
    requires source.Dir? && WellFormed(source.listing)
    requires installed.Dir? && WellFormed(installed.listing) && Overlay(installed.listing, m).Ok?
    requires Describes(source, m)
    requires Paths(Inventory(installed.listing, [])) <= Paths(m)
    ensures e in Inventory(Overlay(installed.listing, m).value, []) <==> e in Inventory(source.listing, [])
  {
    var listing := Overlay(installed.listing, m).value;
    var q, g := Split(e.path), File(e.size, e.digest);
    OverlayLookup(installed.listing, m, q, g);
    if e in m {
      assert Found(listing, [], q, e) by {
        assert [] + q == q;
      }
      FoundIsInInventory(listing, [], q, e);
    }
    if e in Inventory(listing, []) {
      EntryNames(listing, e);
      if !Overlays(m, q) {
        assert Found(installed.listing, [], q, e) by {
          assert [] + q == q;
        }
        FoundIsInInventory(installed.listing, [], q, e);
        PathIsOverlaid(installed, m, e);
      }
      var x :| x in m && Split(x.path) == q;
      assert x.path == Join(q) == e.path;
    }
  }

  lemma PathIsOverlaid(installed: Node, m: Manifest, e: Entry)
    requires installed.Dir? && e in Inventory(installed.listing, [])
    requires Paths(Inventory(installed.listing, [])) <= Paths(m)
    ensures Overlays(m, Split(e.path))
  {
    assert PathOf(e) in Paths(Inventory(installed.listing, []));
    var x :| x in m && PathOf(x) == PathOf(e);
  }
}
