/** What `_walk_tree` of `ui_publication.py` hashes: the sorted entries of a directory
    tree. The text determines every name, size, mode and content digest, and nothing else. */
module UiDigest {
  import opened Outcomes
  import opened Ordering
  import opened Manifests
  import opened UiRecords

  const INDEX := "index.html"
  const MAX_UI_ENTRIES: nat := 10000
  const MAX_UI_FILE_BYTES: nat := 512 * 1024 * 1024
  const MAX_UI_TOTAL_BYTES: nat := 512 * 1024 * 1024

  datatype UiNode =
    | UiFile(size: nat, mode: nat, digest: string)
    | UiDir(mode: nat, listing: seq<Item>)
    | Other
  datatype Item = Item(name: string, node: UiNode)

  /** What the digest says about one path. */
  datatype Fact = FileFact(size: nat, mode: nat, digest: string) | DirFact(mode: nat)
  datatype Seen = Seen(parts: seq<string>, fact: Fact)

  // ----- trees --------------------------------------------------------------------------------------

  predicate UsableName(name: string) {
    ValidName(name) && NUL !in name
  }

  predicate NameIn(listing: seq<Item>, name: string) {
    exists i :: 0 <= i < |listing| && listing[i].name == name
  }

  /** Names are usable and distinct, and no content digest holds a newline. */
  predicate Proper(listing: seq<Item>)
    decreases listing
  {
    if listing == [] then true
    else
      && UsableName(listing[0].name) && !NameIn(listing[1..], listing[0].name)
      && (match listing[0].node
          case UiFile(_, _, digest) => NEWLINE !in digest
          case UiDir(_, sub) => Proper(sub)
          case Other => true)
      && Proper(listing[1..])
  }

  function FactOf(node: UiNode): Option<Fact> {
    match node
    case UiFile(size, mode, digest) => Some(FileFact(size, mode, digest))
    case UiDir(mode, _) => Some(DirFact(mode))
    case Other => None
  }

  /** What stands at a path below a listing. */
  function FactAt(listing: seq<Item>, parts: seq<string>): Option<Fact>
    decreases |parts|, |listing|
  {
    if listing == [] || parts == [] then None
    else if listing[0].name != parts[0] then FactAt(listing[1..], parts)
    else if |parts| == 1 then FactOf(listing[0].node)
    else if listing[0].node.UiDir? then FactAt(listing[0].node.listing, parts[1..])
    else None
  }

  // ----- the walk -------------------------------------------------------------------------------------

  function EntriesOf(it: Item, prefix: seq<string>): seq<Seen>
    decreases it
  {
    match it.node
    case UiFile(size, mode, digest) => [Seen(prefix + [it.name], FileFact(size, mode, digest))]
    case UiDir(mode, sub) => Entries(sub, prefix + [it.name]) + [Seen(prefix + [it.name], DirFact(mode))]
    case Other => []
  }

  /** The entries below a listing, a directory after what it holds. */
  function Entries(listing: seq<Item>, prefix: seq<string>): seq<Seen>
    decreases listing
  {
    if listing == [] then [] else EntriesOf(listing[0], prefix) + Entries(listing[1..], prefix)
  }

  lemma {:induction false} EntriesAppend(a: seq<Item>, b: seq<Item>, prefix: seq<string>)
    ensures Entries(a + b, prefix) == Entries(a, prefix) + Entries(b, prefix)
    decreases |a|
  {
    if a == [] {
      assert a + b == b;
    } else {
      assert (a + b)[1..] == a[1..] + b;
      EntriesAppend(a[1..], b, prefix);
    }
  }

  lemma NameInTail(listing: seq<Item>, name: string)
    requires listing != []
    ensures NameIn(listing, name) <==> listing[0].name == name || NameIn(listing[1..], name)
  {
  }

  lemma {:induction false} FactNeedsName(listing: seq<Item>, parts: seq<string>)
    requires FactAt(listing, parts).Some?
    ensures parts != [] && NameIn(listing, parts[0])
    decreases |listing|
  {
    NameInTail(listing, parts[0]);
    if listing[0].name != parts[0] {
      FactNeedsName(listing[1..], parts);
    }
  }

  /** Every entry of the walk is a fact about the path it names. */
  lemma {:induction false} EntriesAreFacts(listing: seq<Item>, prefix: seq<string>, e: Seen)
    returns (parts: seq<string>)
    requires Proper(listing) && e in Entries(listing, prefix)
    ensures e.parts == prefix + parts && FactAt(listing, parts) == Some(e.fact)
    decreases listing
  {
    var it := listing[0];
    if e in Entries(listing[1..], prefix) {
      parts := EntriesAreFacts(listing[1..], prefix, e);
      FactNeedsName(listing[1..], parts);
    } else if e == Seen(prefix + [it.name], e.fact) && FactOf(it.node) == Some(e.fact) {
      parts := [it.name];
    } else {
      var sub := EntriesAreFacts(it.node.listing, prefix + [it.name], e);
      parts := [it.name] + sub;
      assert parts[1..] == sub;
    }
  }

  /** And every fact is an entry of the walk. */
  lemma {:induction false} FactsAreEntries(listing: seq<Item>, prefix: seq<string>, parts: seq<string>)
    requires FactAt(listing, parts).Some?
    ensures Seen(prefix + parts, FactAt(listing, parts).value) in Entries(listing, prefix)
    decreases |parts|, |listing|
  {
    var it := listing[0];
    if it.name != parts[0] {
      FactsAreEntries(listing[1..], prefix, parts);
    } else if |parts| == 1 {
      assert parts == [it.name];
    } else {
      FactsAreEntries(it.node.listing, prefix + [it.name], parts[1..]);
      assert prefix + parts == prefix + [it.name] + parts[1..];
    }
  }

  lemma {:induction false} FactNamesAreUsable(listing: seq<Item>, parts: seq<string>)
    requires Proper(listing) && FactAt(listing, parts).Some?
    ensures forall i :: 0 <= i < |parts| ==> UsableName(parts[i])
    ensures FactAt(listing, parts).value.FileFact? ==> NEWLINE !in FactAt(listing, parts).value.digest
    decreases |parts|, |listing|
  {
    if listing[0].name != parts[0] {
      FactNamesAreUsable(listing[1..], parts);
    } else if |parts| > 1 {
      FactNamesAreUsable(listing[0].node.listing, parts[1..]);
      assert forall i :: 1 <= i < |parts| ==> parts[i] == parts[1..][i - 1];
    }
  }

  /** No path is listed twice. */
  lemma {:induction false} EntriesAreDistinct(listing: seq<Item>, prefix: seq<string>, i: nat, j: nat)
    requires Proper(listing) && i < j < |Entries(listing, prefix)|
    ensures Entries(listing, prefix)[i].parts != Entries(listing, prefix)[j].parts
    decreases listing
  {
    var it, rest := listing[0], listing[1..];
    var first, others := EntriesOf(it, prefix), Entries(rest, prefix);
    var all := Entries(listing, prefix);
    assert all == first + others;
    if i >= |first| {
      assert all[i] == others[i - |first|] && all[j] == others[j - |first|];
      EntriesAreDistinct(rest, prefix, i - |first|, j - |first|);
    } else if j >= |first| {
      assert all[i] in first && all[j] in others;
      OwnEntries(it, prefix, all[i]);
      var q := EntriesAreFacts(rest, prefix, all[j]);
      FactNeedsName(rest, q);
      assert all[i].parts[|prefix|] == it.name && all[j].parts[|prefix|] == q[0];
    } else {
      assert it.node.UiDir?;
      var sub := Entries(it.node.listing, prefix + [it.name]);
      if j < |sub| {
        EntriesAreDistinct(it.node.listing, prefix + [it.name], i, j);
      } else {
        var q := EntriesAreFacts(it.node.listing, prefix + [it.name], sub[i]);
        assert |sub[i].parts| > |prefix| + 1;
      }
    }
  }

  lemma OwnEntries(it: Item, prefix: seq<string>, e: Seen)
    requires Proper([it]) && e in EntriesOf(it, prefix)
    ensures |e.parts| > |prefix| && e.parts[|prefix|] == it.name
  {
    assert Entries([it], prefix) == EntriesOf(it, prefix) + Entries([], prefix);
    var parts := EntriesAreFacts([it], prefix, e);
    FactNeedsName([it], parts);
    assert [it][0] == it;
  }

  // ----- rows -------------------------------------------------------------------------------------------

  /** A directory's path ends in a slash. */
  function PathText(e: Seen): string
    requires e.parts != []
  {
    Join(e.parts) + if e.fact.DirFact? then "/" else ""
  }

  function Row(e: Seen): Record
    requires e.parts != []
  {
    match e.fact
    case FileFact(size, mode, digest) => Record(PathText(e), size, mode, digest)
    case DirFact(mode) => Record(PathText(e), 0, mode, "directory")
  }

  function RootRow(mode: nat): Record {
    Record("./", 0, mode, "directory")
  }

  function Rows(entries: seq<Seen>): (rows: seq<Record>)
    requires forall e :: e in entries ==> e.parts != []
    ensures |rows| == |entries| && forall i :: 0 <= i < |rows| ==> rows[i] == Row(entries[i])
  {
    if entries == [] then [] else
      assert forall e :: e in entries[1..] ==> e in entries;
      [Row(entries[0])] + Rows(entries[1..])
  }

  function PathOfRow(r: Record): string {
    r.path
  }

  lemma {:induction false} SplitDirectory(parts: seq<string>)
    requires parts != [] && ValidNames(parts)
    ensures Split(Join(parts) + "/") == parts + [""]
  {
    if |parts| == 1 {
      assert Join(parts) + "/" == parts[0] + "/" + "";
      SplitHead(parts[0], "");
      assert Split("") == [""];
    } else {
      var rest := Join(parts[1..]) + "/";
      assert Join(parts) + "/" == parts[0] + "/" + rest;
      SplitHead(parts[0], rest);
      SplitDirectory(parts[1..]);
      assert parts == [parts[0]] + parts[1..];
    }
  }

  predicate Clean(e: Seen) {
    && e.parts != [] && (forall i :: 0 <= i < |e.parts| ==> UsableName(e.parts[i]))
    && (e.fact.FileFact? ==> NEWLINE !in e.fact.digest)
  }

  /** The text of a path tells its components, and whether it is a directory. */
  lemma PathTextSplits(e: Seen)
    requires Clean(e)
    ensures Split(PathText(e)) == e.parts + if e.fact.DirFact? then [""] else []
  {
    assert ValidNames(e.parts);
    if e.fact.DirFact? {
      SplitDirectory(e.parts);
    } else {
      SplitJoin(e.parts);
      assert PathText(e) == Join(e.parts);
    }
  }

  /** Rows tell entries apart, by their paths alone when these are listed once. */
  lemma RowIsInjective(d: Seen, e: Seen)
    requires Clean(d) && Clean(e) && PathText(d) == PathText(e)
    ensures d.parts == e.parts && (d.fact.DirFact? <==> e.fact.DirFact?)
    ensures Row(d) == Row(e) ==> d == e
  {
    PathTextSplits(d);
    PathTextSplits(e);
    var p, q := Split(PathText(d)), Split(PathText(e));
    assert UsableName(d.parts[|d.parts| - 1]) && UsableName(e.parts[|e.parts| - 1]);
    assert p[|p| - 1] == if d.fact.DirFact? then "" else d.parts[|d.parts| - 1];
    assert q[|q| - 1] == if e.fact.DirFact? then "" else e.parts[|e.parts| - 1];
    assert d.parts == if d.fact.DirFact? then p[..|p| - 1] else p;
    assert e.parts == if e.fact.DirFact? then q[..|q| - 1] else q;
  }

  lemma RootIsNoEntry(e: Seen)
    requires Clean(e)
    ensures PathText(e) != "./"
  {
    PathTextSplits(e);
    assert "." + "/" + "" == "./";
    SplitHead(".", "");
    assert UsableName(e.parts[0]) && Split(PathText(e))[0] == e.parts[0];
  }

  lemma {:induction false} JoinHasNoNul(parts: seq<string>)
    requires parts != [] && forall i :: 0 <= i < |parts| ==> UsableName(parts[i])
    ensures NUL !in Join(parts)
  {
    if |parts| > 1 {
      JoinHasNoNul(parts[1..]);
    }
  }

  // ----- the hashed text ----------------------------------------------------------------------------------

  lemma EntriesAreClean(listing: seq<Item>)
    requires Proper(listing)
    ensures forall e :: e in Entries(listing, []) ==> Clean(e)
  {
    forall e | e in Entries(listing, []) ensures Clean(e) {
      var parts := EntriesAreFacts(listing, [], e);
      assert e.parts == parts;
      FactNeedsName(listing, parts);
      FactNamesAreUsable(listing, parts);
    }
  }

  /** All rows of a tree, in the order the walk appends them. */
  function TreeRows(root: UiNode): seq<Record>
    requires root.UiDir? && Proper(root.listing)
  {
    EntriesAreClean(root.listing);
    Rows(Entries(root.listing, [])) + [RootRow(root.mode)]
  }

  /** The text `_walk_tree` hashes. */
  function PreImage(root: UiNode): string
    requires root.UiDir? && Proper(root.listing)
  {
    Encode(Sorted(PathOfRow, TreeRows(root)))
  }

  ghost predicate SameTree(a: UiNode, b: UiNode) {
    && a.UiDir? && b.UiDir? && a.mode == b.mode
    && forall parts :: FactAt(a.listing, parts) == FactAt(b.listing, parts)
  }

  lemma TreeRowsAreDistinct(root: UiNode)
    requires root.UiDir? && Proper(root.listing)
    ensures forall i, j :: 0 <= i < j < |TreeRows(root)| ==> TreeRows(root)[i].path != TreeRows(root)[j].path
    ensures forall r :: r in TreeRows(root) ==> Writable(r)
  {
    EntriesAreClean(root.listing);
    var entries, rows := Entries(root.listing, []), TreeRows(root);
    assert forall i :: 0 <= i < |entries| ==> entries[i] in entries && entries[i].parts != [];
    forall i | 0 <= i < |entries| ensures rows[i] == Row(entries[i]) && Writable(rows[i]) && rows[i].path != "./" {
      assert entries[i] in entries;
      RootIsNoEntry(entries[i]);
      JoinHasNoNul(entries[i].parts);
    }
    forall i, j | 0 <= i < j < |rows| ensures rows[i].path != rows[j].path {
      if j < |entries| {
        assert entries[i] in entries && entries[j] in entries;
        EntriesAreDistinct(root.listing, [], i, j);
        if rows[i].path == rows[j].path {
          RowIsInjective(entries[i], entries[j]);
        }
      }
    }
  }

  /** A row is in the list exactly if it is the root's or states a fact of the tree. */
  ghost predicate States(root: UiNode, r: Record)
    requires root.UiDir?
  {
    r == RootRow(root.mode) || exists parts ::
      FactAt(root.listing, parts).Some? && parts != [] && r == Row(Seen(parts, FactAt(root.listing, parts).value))
  }

  lemma RowsStateFacts(root: UiNode, r: Record)
    requires root.UiDir? && Proper(root.listing)
    ensures r in TreeRows(root) <==> States(root, r)
  {
    EntriesAreClean(root.listing);
    var entries, rows := Entries(root.listing, []), TreeRows(root);
    if r in rows {
      var i :| 0 <= i < |rows| && rows[i] == r;
      if i < |entries| {
        var parts := EntriesAreFacts(root.listing, [], entries[i]);
        assert entries[i].parts == parts;
        FactNeedsName(root.listing, parts);
      }
    }
    if States(root, r) && r != RootRow(root.mode) {
      var parts :| FactAt(root.listing, parts).Some? && parts != []
        && r == Row(Seen(parts, FactAt(root.listing, parts).value));
      FactsAreEntries(root.listing, [], parts);
      assert [] + parts == parts;
      var k :| 0 <= k < |entries| && entries[k] == Seen(parts, FactAt(root.listing, parts).value);
      assert rows[k] == r;
    }
    assert rows[|entries|] == RootRow(root.mode);
  }

  lemma {:induction false} DistinctListsWithSameMembers(a: seq<Record>, b: seq<Record>)
    requires forall i, j :: 0 <= i < j < |a| ==> a[i].path != a[j].path
    requires forall i, j :: 0 <= i < j < |b| ==> b[i].path != b[j].path
    requires forall r :: r in a <==> r in b
    ensures multiset(a) == multiset(b)
  {
    forall r ensures multiset(a)[r] == multiset(b)[r] {
      OccursOnce(a, r);
      OccursOnce(b, r);
    }
  }

  lemma {:induction false} OccursOnce(a: seq<Record>, r: Record)
    requires forall i, j :: 0 <= i < j < |a| ==> a[i].path != a[j].path
    ensures multiset(a)[r] == if r in a then 1 else 0
  {
    if a != [] {
      assert a == [a[0]] + a[1..];
      OccursOnce(a[1..], r);
    }
  }

  /** Equal facts give equal hashed texts, in whatever order directories list. */
  lemma SameTreeSamePreImage(a: UiNode, b: UiNode)
    requires SameTree(a, b) && Proper(a.listing) && Proper(b.listing)
    ensures PreImage(a) == PreImage(b)
  {
    TreeRowsAreDistinct(a);
    TreeRowsAreDistinct(b);
    var x, y := TreeRows(a), TreeRows(b);
    forall r ensures r in x <==> r in y {
      RowsStateFacts(a, r);
      RowsStateFacts(b, r);
    }
    DistinctListsWithSameMembers(x, y);
    SortIsOrderIndependent(PathOfRow, x, y);
  }

  /** Equal hashed texts come from equal facts. */
  lemma SamePreImageSameTree(a: UiNode, b: UiNode)
    requires a.UiDir? && b.UiDir? && Proper(a.listing) && Proper(b.listing)
    requires PreImage(a) == PreImage(b)
    ensures SameTree(a, b)
  {
    var x, y := TreeRows(a), TreeRows(b);
    SameRows(a, b);
    assert x[|x| - 1] == RootRow(a.mode);
    RowsStateFacts(b, RootRow(a.mode));
    RootModeIsStated(b, a.mode);
    forall parts ensures FactAt(a.listing, parts) == FactAt(b.listing, parts) {
      if FactAt(a.listing, parts).Some? {
        FactCarriesOver(a, b, parts);
      } else if FactAt(b.listing, parts).Some? {
        FactCarriesOver(b, a, parts);
      }
    }
  }

  lemma SameRows(a: UiNode, b: UiNode)
    requires a.UiDir? && b.UiDir? && Proper(a.listing) && Proper(b.listing)
    requires PreImage(a) == PreImage(b)
    ensures forall r :: r in TreeRows(a) <==> r in TreeRows(b)
  {
    var x, y := TreeRows(a), TreeRows(b);
    TreeRowsAreDistinct(a);
    TreeRowsAreDistinct(b);
    MemberByMultiset(Sorted(PathOfRow, x), x);
    MemberByMultiset(Sorted(PathOfRow, y), y);
    EncodeIsInjective(Sorted(PathOfRow, x), Sorted(PathOfRow, y));
  }

  lemma RootModeIsStated(b: UiNode, mode: nat)
    requires b.UiDir? && Proper(b.listing) && States(b, RootRow(mode))
    ensures b.mode == mode
  {
    if b.mode != mode {
      var parts :| FactAt(b.listing, parts).Some? && parts != []
        && RootRow(mode) == Row(Seen(parts, FactAt(b.listing, parts).value));
      FactNamesAreUsable(b.listing, parts);
      RootIsNoEntry(Seen(parts, FactAt(b.listing, parts).value));
    }
  }

  lemma FactCarriesOver(a: UiNode, b: UiNode, parts: seq<string>)
    requires a.UiDir? && b.UiDir? && Proper(a.listing) && Proper(b.listing)
    requires forall r :: r in TreeRows(a) <==> r in TreeRows(b)
    requires FactAt(a.listing, parts).Some?
    ensures FactAt(b.listing, parts) == FactAt(a.listing, parts)
  {
    FactNeedsName(a.listing, parts);
    FactNamesAreUsable(a.listing, parts);
    var e := Seen(parts, FactAt(a.listing, parts).value);
    RowsStateFacts(a, Row(e));
    RowsStateFacts(b, Row(e));
    RootIsNoEntry(e);
    var q :| FactAt(b.listing, q).Some? && q != [] && Row(e) == Row(Seen(q, FactAt(b.listing, q).value));
    FactNamesAreUsable(b.listing, q);
    RowIsInjective(e, Seen(q, FactAt(b.listing, q).value));
  }

  /** MAIN: two trees have the same hashed text exactly if they have the same root mode
      and the same kind, size, mode and content at every path. */
  lemma PreImageDeterminesTree(a: UiNode, b: UiNode)
    requires a.UiDir? && b.UiDir? && Proper(a.listing) && Proper(b.listing)
    ensures PreImage(a) == PreImage(b) <==> SameTree(a, b)
  {
    if PreImage(a) == PreImage(b) {
      SamePreImageSameTree(a, b);
    }
    if SameTree(a, b) {
      SameTreeSamePreImage(a, b);
    }
  }

  /** Listing the same directory in another order changes nothing. */
  lemma ListingOrderIsIrrelevant(mode: nat, a: seq<Item>, b: seq<Item>)
    requires Proper(a) && Proper(b) && multiset(a) == multiset(b)
    ensures PreImage(UiDir(mode, a)) == PreImage(UiDir(mode, b))
  {
    MemberByMultiset(a, b);
    forall parts ensures FactAt(a, parts) == FactAt(b, parts) {
      if FactAt(a, parts).Some? {
        FactByMember(a, b, parts);
      } else if FactAt(b, parts).Some? {
        FactByMember(b, a, parts);
      }
    }
    SameTreeSamePreImage(UiDir(mode, a), UiDir(mode, b));
  }

  lemma {:induction false} FactOfMember(listing: seq<Item>, it: Item, parts: seq<string>)
    requires Proper(listing) && it in listing && parts != [] && parts[0] == it.name
    ensures FactAt(listing, parts) == FactAt([it], parts)
  {
    if listing[0] != it {
      var k :| 0 <= k < |listing| && listing[k] == it;
      assert listing[1..][k - 1] == it;
      assert listing[0].name != it.name;
      FactOfMember(listing[1..], it, parts);
    }
  }

  lemma FactByMember(a: seq<Item>, b: seq<Item>, parts: seq<string>)
    requires Proper(a) && Proper(b) && (forall it :: it in a <==> it in b) && FactAt(a, parts).Some?
    ensures FactAt(b, parts) == FactAt(a, parts)
  {
    FactNeedsName(a, parts);
    var i :| 0 <= i < |a| && a[i].name == parts[0];
    assert a[i] in a;
    FactOfMember(a, a[i], parts);
    FactOfMember(b, a[i], parts);
  }

  // ----- the bounded walk -----------------------------------------------------------------------------

  predicate Bit(mode: nat, place: nat)
    requires place > 0
  {
    (mode / place) % 2 == 1
  }

  /** `_check_mode`: not group or world writable, and open to the static-file server. */
  predicate SafeDirectory(mode: nat) {
    !Bit(mode, 0x10) && !Bit(mode, 2) && Bit(mode, 1)
  }

  predicate SafeFile(mode: nat) {
    !Bit(mode, 0x10) && !Bit(mode, 2) && Bit(mode, 4)
  }

  predicate PublishableItem(it: Item)
    decreases it
  {
    match it.node
    case UiFile(size, mode, _) => SafeFile(mode) && size <= MAX_UI_FILE_BYTES
    case UiDir(mode, sub) => SafeDirectory(mode) && Publishable(sub)
    case Other => false
  }

  predicate Publishable(listing: seq<Item>)
    decreases listing
  {
    listing == [] || (PublishableItem(listing[0]) && Publishable(listing[1..]))
  }

  function ItemCount(it: Item): nat
    decreases it
  {
    1 + if it.node.UiDir? then EntryCount(it.node.listing) else 0
  }

  function EntryCount(listing: seq<Item>): nat
    decreases listing
  {
    if listing == [] then 0 else ItemCount(listing[0]) + EntryCount(listing[1..])
  }

  function ItemBytes(it: Item): nat
    decreases it
  {
    match it.node
    case UiFile(size, _, _) => size
    case UiDir(_, sub) => ByteCount(sub)
    case Other => 0
  }

  function ByteCount(listing: seq<Item>): nat
    decreases listing
  {
    if listing == [] then 0 else ItemBytes(listing[0]) + ByteCount(listing[1..])
  }

  datatype Tally = Tally(entries: nat, bytes: nat)

  /** What the walk accepts below a directory, given what it has counted so far. */
  predicate Passes(listing: seq<Item>, t: Tally) {
    && Publishable(listing)
    && t.entries + EntryCount(listing) <= MAX_UI_ENTRIES && t.bytes + ByteCount(listing) <= MAX_UI_TOTAL_BYTES
  }

  function Counted(listing: seq<Item>, t: Tally): Tally {
    Tally(t.entries + EntryCount(listing), t.bytes + ByteCount(listing))
  }

  lemma {:induction false} CountsAppend(a: seq<Item>, b: seq<Item>)
    ensures EntryCount(a + b) == EntryCount(a) + EntryCount(b) && ByteCount(a + b) == ByteCount(a) + ByteCount(b)
    ensures Publishable(a + b) <==> Publishable(a) && Publishable(b)
    decreases |a|
  {
    if a == [] {
      assert a + b == b;
    } else {
      assert (a + b)[1..] == a[1..] + b;
      CountsAppend(a[1..], b);
    }
  }

  /** One item more than a prefix, and what is left of the whole. */
  lemma PassesOneMore(listing: seq<Item>, i: nat, prefix: seq<string>, t: Tally)
    requires i < |listing|
    ensures Entries(listing[..i + 1], prefix) == Entries(listing[..i], prefix) + EntriesOf(listing[i], prefix)
    ensures Counted(listing[..i + 1], t) == Tally(
      Counted(listing[..i], t).entries + ItemCount(listing[i]), Counted(listing[..i], t).bytes + ItemBytes(listing[i]))
    ensures Publishable(listing[..i + 1]) <==> Publishable(listing[..i]) && PublishableItem(listing[i])
    ensures Passes(listing, t) ==> Passes(listing[..i + 1], t)
  {
    assert listing[..i + 1] == listing[..i] + [listing[i]];
    assert listing == listing[..i + 1] + listing[i + 1..];
    EntriesAppend(listing[..i], [listing[i]], prefix);
    CountsAppend(listing[..i], [listing[i]]);
    CountsAppend(listing[..i + 1], listing[i + 1..]);
    assert [listing[i]][1..] == [];
  }

  /** The nested `walk`: everything below one directory, or a refusal. */
  method Walk(listing: seq<Item>, prefix: seq<string>, t: Tally) returns (r: Result<(seq<Seen>, Tally)>)
    requires t.entries <= MAX_UI_ENTRIES && t.bytes <= MAX_UI_TOTAL_BYTES
    ensures r.Ok? <==> Passes(listing, t)
    ensures r.Ok? ==> r.value == (Entries(listing, prefix), Counted(listing, t))
    decreases listing
  {
    var seen: seq<Seen> := [];
    var tally := t;
    for i := 0 to |listing|
      invariant Passes(listing[..i], t) && tally == Counted(listing[..i], t)
      invariant seen == Entries(listing[..i], prefix)
    {
      PassesOneMore(listing, i, prefix, t);
      var one := WalkOne(listing[i], prefix, tally);
      if one.Failed? {
        return Failed;
      }
      seen, tally := seen + one.value.0, one.value.1;
    }
    assert listing[..|listing|] == listing;
    return Ok((seen, tally));
  }

  method WalkOne(it: Item, prefix: seq<string>, t: Tally) returns (r: Result<(seq<Seen>, Tally)>)
    requires t.entries <= MAX_UI_ENTRIES && t.bytes <= MAX_UI_TOTAL_BYTES
    ensures r.Ok? <==>
      && PublishableItem(it)
      && t.entries + ItemCount(it) <= MAX_UI_ENTRIES && t.bytes + ItemBytes(it) <= MAX_UI_TOTAL_BYTES
    ensures r.Ok? ==> r.value == (EntriesOf(it, prefix), Tally(t.entries + ItemCount(it), t.bytes + ItemBytes(it)))
    decreases it
  {
    if t.entries + 1 > MAX_UI_ENTRIES {
      return Failed;
    }
    var counted := t.(entries := t.entries + 1);
    match it.node {
      case UiFile(size, mode, digest) =>
        if !SafeFile(mode) || size > MAX_UI_FILE_BYTES || t.bytes + size > MAX_UI_TOTAL_BYTES {
          return Failed;
        }
        return Ok(([Seen(prefix + [it.name], FileFact(size, mode, digest))], counted.(bytes := t.bytes + size)));
      case UiDir(mode, sub) =>
        if !SafeDirectory(mode) {
          return Failed;
        }
        var below := Walk(sub, prefix + [it.name], counted);
        if below.Failed? {
          return Failed;
        }
        return Ok((below.value.0 + [Seen(prefix + [it.name], DirFact(mode))], below.value.1));
      case Other => return Failed;
    }
  }

  predicate HasIndexFile(listing: seq<Item>) {
    FactAt(listing, [INDEX]).Some? && FactAt(listing, [INDEX]).value.FileFact?
  }

  predicate HasIndexRow(rows: seq<Record>) {
    exists k :: 0 <= k < |rows| && rows[k].path == INDEX
  }

  /** The whole tree passes, and its top directory holds a regular `index.html`. */
  predicate Accepted(root: UiNode, requireIndex: bool) {
    && root.UiDir? && SafeDirectory(root.mode) && Passes(root.listing, Tally(0, 0))
    && (requireIndex ==> HasIndexFile(root.listing))
  }

  /** `_walk_tree`: the text to hash and its rows. */
  method WalkTree(root: UiNode, requireIndex: bool) returns (r: Result<string>)
    requires root.UiDir? ==> Proper(root.listing)
    ensures r.Ok? <==> Accepted(root, requireIndex)
    ensures r.Ok? ==> r.value == PreImage(root)
  {
    hide Sorted, Encode, Entries, Rows, EntryCount, ByteCount, Publishable, Proper, HasIndexFile, HasIndexRow;
    if !root.UiDir? || !SafeDirectory(root.mode) {
      return Failed;
    }
    var walked := Walk(root.listing, [], Tally(0, 0));
    if walked.Failed? {
      return Failed;
    }
    EntriesAreClean(root.listing);
    var rows := Rows(walked.value.0);
    IndexRow(root.listing);
    if requireIndex && !HasIndexRow(rows) {
      return Failed;
    }
    return Ok(Encode(Sorted(PathOfRow, rows + [RootRow(root.mode)])));
  }

  /** The row `index.html` is there exactly if the top directory holds that regular file. */
  lemma IndexRow(listing: seq<Item>)
    requires Proper(listing)
    ensures forall e :: e in Entries(listing, []) ==> e.parts != []
    ensures HasIndexRow(Rows(Entries(listing, []))) <==> HasIndexFile(listing)
  {
    EntriesAreClean(listing);
    var entries := Entries(listing, []);
    var index := FactAt(listing, [INDEX]);
    assert UsableName(INDEX);
    if index.Some? && index.value.FileFact? {
      FactsAreEntries(listing, [], [INDEX]);
      assert [] + [INDEX] == [INDEX];
      var k :| 0 <= k < |entries| && entries[k] == Seen([INDEX], index.value);
      assert PathText(entries[k]) == INDEX;
      assert Rows(entries)[k].path == INDEX;
    }
    forall k | 0 <= k < |entries| && Rows(entries)[k].path == INDEX ensures index.Some? && index.value.FileFact? {
      var e := entries[k];
      var parts := EntriesAreFacts(listing, [], e);
      assert e.parts == parts && e in entries;
      PathTextSplits(e);
      SplitName(INDEX);
      assert UsableName(e.parts[|e.parts| - 1]);
      assert |Split(PathText(e))| == 1;
      assert e.parts == Split(PathText(e));
    }
  }

  // ----- what is accepted ----------------------------------------------------------------------------

  lemma LowBits(mode: nat)
    ensures Bit(mode, 1) <==> mode % 8 in {1, 3, 5, 7}
    ensures Bit(mode, 2) <==> mode % 8 in {2, 3, 6, 7}
    ensures Bit(mode, 4) <==> mode % 8 in {4, 5, 6, 7}
  {
    var q, r := mode / 8, mode % 8;
    assert mode == 8 * q + r;
    assert mode / 2 == 4 * q + r / 2 && mode / 4 == 2 * q + r / 4;
    assert r == 0 || r == 1 || r == 2 || r == 3 || r == 4 || r == 5 || r == 6 || r == 7;
  }

  /** Nobody but the owner may write, and others may read a file, or pass through a directory. */
  lemma SafeModesExactly(mode: nat)
    ensures SafeFile(mode) <==> (mode / 16) % 2 == 0 && mode % 8 in {4, 5}
    ensures SafeDirectory(mode) <==> (mode / 16) % 2 == 0 && mode % 8 in {1, 5}
  {
    LowBits(mode);
  }

  function SizeOf(e: Seen): nat {
    if e.fact.FileFact? then e.fact.size else 0
  }

  function TotalOf(entries: seq<Seen>): nat {
    if entries == [] then 0 else SizeOf(entries[0]) + TotalOf(entries[1..])
  }

  lemma {:induction false} TotalOfAppend(a: seq<Seen>, b: seq<Seen>)
    ensures TotalOf(a + b) == TotalOf(a) + TotalOf(b)
  {
    if a == [] {
      assert a + b == b;
    } else {
      assert (a + b)[1..] == a[1..] + b;
      TotalOfAppend(a[1..], b);
    }
  }

  predicate SafeFact(fact: Fact) {
    match fact
    case FileFact(size, mode, _) => size <= 512 * 1024 * 1024 && (mode / 16) % 2 == 0 && mode % 8 in {4, 5}
    case DirFact(mode) => (mode / 16) % 2 == 0 && mode % 8 in {1, 5}
  }

  predicate SafeEntries(entries: seq<Seen>) {
    forall e :: e in entries ==> SafeFact(e.fact)
  }

  ghost predicate SafePaths(listing: seq<Item>) {
    forall parts :: FactAt(listing, parts).Some? ==> SafeFact(FactAt(listing, parts).value)
  }

  /** Nothing but files and directories, at any depth. */
  predicate Plain(listing: seq<Item>)
    decreases listing
  {
    if listing == [] then true
    else
      && !listing[0].node.Other? && (listing[0].node.UiDir? ==> Plain(listing[0].node.listing))
      && Plain(listing[1..])
  }

  lemma {:induction false} PublishableExactly(listing: seq<Item>, prefix: seq<string>)
    ensures Publishable(listing) <==> Plain(listing) && SafeEntries(Entries(listing, prefix))
    ensures Plain(listing) ==> EntryCount(listing) == |Entries(listing, prefix)|
    ensures ByteCount(listing) == TotalOf(Entries(listing, prefix))
    decreases listing
  {
    if listing != [] {
      var it := listing[0];
      PublishableExactly(listing[1..], prefix);
      TotalOfAppend(EntriesOf(it, prefix), Entries(listing[1..], prefix));
      ItemExactly(it, prefix);
    }
  }

  lemma {:induction false} ItemExactly(it: Item, prefix: seq<string>)
    ensures PublishableItem(it) <==>
      && !it.node.Other? && (it.node.UiDir? ==> Plain(it.node.listing))
      && SafeEntries(EntriesOf(it, prefix))
    ensures !it.node.Other? && (it.node.UiDir? ==> Plain(it.node.listing)) ==>
      ItemCount(it) == |EntriesOf(it, prefix)|
    ensures ItemBytes(it) == TotalOf(EntriesOf(it, prefix))
    decreases it
  {
    match it.node
    case UiFile(size, mode, digest) =>
      SafeModesExactly(mode);
      var e := Seen(prefix + [it.name], FileFact(size, mode, digest));
      assert EntriesOf(it, prefix) == [e] && [e][1..] == [];
    case UiDir(mode, sub) =>
      SafeModesExactly(mode);
      var below, e := Entries(sub, prefix + [it.name]), Seen(prefix + [it.name], DirFact(mode));
      PublishableExactly(sub, prefix + [it.name]);
      TotalOfAppend(below, [e]);
      assert [e][1..] == [];
    case Other =>
  }

  lemma FactsAreSafe(listing: seq<Item>)
    requires Proper(listing)
    ensures SafeEntries(Entries(listing, [])) <==> SafePaths(listing)
  {
    hide SafeFact, Proper;
    var entries := Entries(listing, []);
    if SafePaths(listing) {
      forall e | e in entries ensures SafeFact(e.fact) {
        var parts := EntriesAreFacts(listing, [], e);
      }
    }
    if SafeEntries(entries) {
      forall parts | FactAt(listing, parts).Some? ensures SafeFact(FactAt(listing, parts).value) {
        FactsAreEntries(listing, [], parts);
      }
    }
  }

  lemma IndexExactly(listing: seq<Item>)
    ensures HasIndexFile(listing) <==>
      exists size, mode, digest :: FactAt(listing, ["index.html"]) == Some(FileFact(size, mode, digest))
  {
    hide FactAt;
    var index := FactAt(listing, ["index.html"]);
    if index.Some? && index.value.FileFact? {
      assert index == Some(FileFact(index.value.size, index.value.mode, index.value.digest));
    }
  }

  /** MAIN: a tree is accepted exactly if it holds nothing but files and directories, all with
      safe modes, within the three limits, and an index where one is asked for. */
  lemma AcceptedExactly(root: UiNode, requireIndex: bool)
    requires root.UiDir? && Proper(root.listing)
    ensures Accepted(root, requireIndex) <==>
      && Plain(root.listing) && SafeFact(DirFact(root.mode))
      && SafePaths(root.listing)
      && |Entries(root.listing, [])| <= 10000 && TotalOf(Entries(root.listing, [])) <= 512 * 1024 * 1024
      && (requireIndex ==> exists size, mode, digest ::
            FactAt(root.listing, ["index.html"]) == Some(FileFact(size, mode, digest)))
  {
    hide Publishable, Plain, Entries, TotalOf, FactAt, Proper, HasIndexFile, EntryCount, ByteCount, SafeDirectory,
      SafeEntries, SafePaths;
    SafeModesExactly(root.mode);
    PublishableExactly(root.listing, []);
    FactsAreSafe(root.listing);
    IndexExactly(root.listing);
  }
}
