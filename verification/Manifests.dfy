/** The backend manifest of `controlled_backend_lifecycle.py`: which files of a
    directory tree it names, in which order, and when two trees agree. */
module Manifests {
  import opened Outcomes
  import opened Text
  import opened Ordering

  const MAX_FILES: nat := 10000
  const MAX_BYTES: nat := 512 * 1024 * 1024

  /** One manifest row. Contents are compared through their digest, which is
      taken to be injective; `digest` stands for the contents. */
  datatype Entry = Entry(path: string, size: nat, digest: nat)
  type Manifest = seq<Entry>

  /** A directory tree as `os.walk` sees it; a listing comes in any order. */
  datatype Node =
    | File(size: nat, digest: nat)
    | Link(toDirectory: bool)
    | Special
    | Dir(listing: seq<Named>)
  datatype Named = Named(name: string, node: Node)

  // ----- names and paths ------------------------------------------------

  predicate EndsWith(s: string, suffix: string) {
    |suffix| <= |s| && s[|s| - |suffix|..] == suffix
  }

  predicate Contains(s: string, part: string) {
    exists i :: 0 <= i <= |s| && StartsWith(s[i..], part)
  }

  predicate ExcludedPart(part: string) {
    || part in {".env", ".venv", ".pytest_cache", "__pycache__", ".git"}
    || StartsWith(part, ".env.")
    || EndsWith(part, ".pyc") || EndsWith(part, ".pyo") || EndsWith(part, ".db")
    || EndsWith(part, ".sqlite") || EndsWith(part, ".sqlite3")
    || EndsWith(part, ".bak") || EndsWith(part, ".tar.zst")
    || Contains(part, ".bak-")
  }

  predicate Excluded(parts: seq<string>) {
    exists part :: part in parts && ExcludedPart(part)
  }

  /** Every file with one of these endings is left out, every `.env` variant and every dated
      backup, whatever the rest of the name is. */
  lemma ExcludedWhateverTheStem(stem: string, more: string)
    ensures ExcludedPart(".env") && ExcludedPart(".git") && ExcludedPart(".venv")
    ensures ExcludedPart("__pycache__") && ExcludedPart(".pytest_cache")
    ensures ExcludedPart(".env." + more) && ExcludedPart(stem + ".bak-" + more)
    ensures forall ending ::
      ending in {".pyc", ".pyo", ".db", ".sqlite", ".sqlite3", ".bak", ".tar.zst"} ==> ExcludedPart(stem + ending)
  {
    var dated := stem + ".bak-" + more;
    assert dated[|stem|..] == ".bak-" + more;
    assert StartsWith(dated[|stem|..], ".bak-");
    assert StartsWith(".env." + more, ".env.");
    forall ending | ending in {".pyc", ".pyo", ".db", ".sqlite", ".sqlite3", ".bak", ".tar.zst"}
      ensures ExcludedPart(stem + ending)
    {
      assert (stem + ending)[|stem + ending| - |ending|..] == ending;
    }
  }

  /** And no other name is: the reason is at `i`. */
  lemma ExcludedForAReason(part: string) returns (i: nat)
    requires ExcludedPart(part)
    ensures i <= |part|
    ensures part in {".env", ".venv", ".pytest_cache", "__pycache__", ".git"}
      || StartsWith(part, ".env.") || StartsWith(part[i..], ".bak-")
      || part[i..] in {".pyc", ".pyo", ".db", ".sqlite", ".sqlite3", ".bak", ".tar.zst"}
  {
    if Contains(part, ".bak-") {
      i :| 0 <= i <= |part| && StartsWith(part[i..], ".bak-");
    } else {
      hide StartsWith, Contains;
      i := if EndsWith(part, ".db") then |part| - 3
           else if EndsWith(part, ".pyc") || EndsWith(part, ".pyo") || EndsWith(part, ".bak") then |part| - 4
           else if EndsWith(part, ".sqlite") then |part| - 7
           else if EndsWith(part, ".sqlite3") || EndsWith(part, ".tar.zst") then |part| - 8
           else 0;
    }
  }

  /** What a directory entry may be called. */
  predicate ValidName(name: string) {
    name != "" && name != "." && name != ".." && '/' !in name
  }

  predicate ValidNames(parts: seq<string>) {
    forall i :: 0 <= i < |parts| ==> ValidName(parts[i])
  }

  function Join(parts: seq<string>): string
    requires parts != []
  {
    if |parts| == 1 then parts[0] else parts[0] + "/" + Join(parts[1..])
  }

  function Split(path: string): (parts: seq<string>)
    ensures parts != []
  {
    if path == "" then [""]
    else
      var rest := Split(path[1..]);
      if path[0] == '/' then [""] + rest
      else [[path[0]] + rest[0]] + rest[1..]
  }

  lemma {:induction false} SplitName(name: string)
    requires '/' !in name
    ensures Split(name) == [name]
  {
    if name != "" {
      assert '/' !in name[1..];
      SplitName(name[1..]);
      assert [name[0]] + name[1..] == name;
    }
  }

  lemma {:induction false} SplitHead(name: string, rest: string)
    requires '/' !in name
    ensures Split(name + "/" + rest) == [name] + Split(rest)
  {
    var path := name + "/" + rest;
    if name == "" {
      assert path[1..] == rest;
    } else {
      assert path[1..] == name[1..] + "/" + rest;
      SplitHead(name[1..], rest);
      assert [name[0]] + name[1..] == name;
    }
  }

  /** Splitting a joined path gives its components back, so paths are unambiguous. */
  lemma {:induction false} SplitJoin(parts: seq<string>)
    requires parts != [] && ValidNames(parts)
    ensures Split(Join(parts)) == parts
  {
    if |parts| == 1 {
      SplitName(parts[0]);
    } else {
      SplitHead(parts[0], Join(parts[1..]));
      SplitJoin(parts[1..]);
      assert parts == [parts[0]] + parts[1..];
    }
  }

  // ----- validity of a recorded manifest ---------------------------------

  predicate SafePath(path: string) {
    ValidNames(Split(path)) && !Excluded(Split(path))
  }

  function PathOf(e: Entry): string {
    e.path
  }

  function TotalSize(m: Manifest): nat {
    if m == [] then 0 else m[0].size + TotalSize(m[1..])
  }

  ghost predicate ValidManifest(m: Manifest) {
    && 0 < |m| <= MAX_FILES
    && (forall i :: 0 <= i < |m| ==> SafePath(m[i].path) && m[i].size <= MAX_BYTES)
    && StrictlySortedBy(PathOf, m)
    && TotalSize(m) <= MAX_BYTES
  }

  lemma {:induction false} TotalSizeSnoc(m: Manifest, e: Entry)
    ensures TotalSize(m + [e]) == TotalSize(m) + e.size
  {
    if m == [] {
      assert m + [e] == [e];
    } else {
      assert (m + [e])[1..] == m[1..] + [e];
      TotalSizeSnoc(m[1..], e);
    }
  }

  lemma NotAfter(a: string, b: string)
    requires Leq(b, a)
    ensures !Less(a, b)
  {
  }

  /** An entry that is refused makes the whole manifest invalid. */
  lemma RefusedEntry(m: Manifest, i: nat)
    requires i < |m|
    requires var e, previous := m[i], if i == 0 then "" else m[i - 1].path;
      !SafePath(e.path) || Leq(e.path, previous) || e.size > MAX_BYTES
    ensures !ValidManifest(m)
  {
    var e, previous := m[i], if i == 0 then "" else m[i - 1].path;
    if Leq(e.path, previous) {
      NotAfter(previous, e.path);
      assert i == 0 ==> e.path == "" && !ValidName(Split(e.path)[0]);
      assert i > 0 ==> !Less(PathOf(m[i - 1]), PathOf(m[i]));
    }
  }

  lemma NothingSorted()
    ensures StrictlySortedBy(PathOf, [])
  {
  }

  /** An entry after the last one is after them all. */
  lemma SortedOneMore(m: Manifest, i: nat)
    requires i < |m| && StrictlySortedBy(PathOf, m[..i]) && (i > 0 ==> Less(m[i - 1].path, m[i].path))
    ensures StrictlySortedBy(PathOf, m[..i + 1])
  {
    forall k | 0 <= k < i ensures Less(PathOf(m[k]), PathOf(m[i])) {
      if k < i - 1 {
        assert Less(PathOf(m[..i][k]), PathOf(m[..i][i - 1]));
        LessTransitive(m[k].path, m[i - 1].path, m[i].path);
      }
    }
    assert forall k :: 0 <= k < i ==> m[..i][k] == m[k];
  }

  /** The checkpoint's manifest validator: adjacent comparison is enough to
      establish that the whole list is strictly sorted. */
  method ValidateManifest(m: Manifest) returns (ok: bool)
    ensures ok <==> ValidManifest(m)
  {
    hide SafePath, Less, StrictlySortedBy;
    NothingSorted();
    if m == [] || |m| > MAX_FILES {
      return false;
    }
    var previous := "";
    var total := 0;
    var i := 0;
    while i < |m|
      invariant 0 <= i <= |m|
      invariant previous == if i == 0 then "" else m[i - 1].path
      invariant forall j :: 0 <= j < i ==> SafePath(m[j].path) && m[j].size <= MAX_BYTES
      invariant StrictlySortedBy(PathOf, m[..i])
      invariant total == TotalSize(m[..i])
    {
      var e := m[i];
      if !SafePath(e.path) || Leq(e.path, previous) || e.size > MAX_BYTES {
        RefusedEntry(m, i);
        return false;
      }
      LessTotal(previous, e.path);
      SortedOneMore(m, i);
      assert m[..i + 1] == m[..i] + [e];
      TotalSizeSnoc(m[..i], e);
      total := total + e.size;
      previous := e.path;
      i := i + 1;
    }
    assert m[..i] == m;
    return total <= MAX_BYTES;
  }
}
