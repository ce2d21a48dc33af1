/** The selective host files: the plan `local_deploy.py` builds, and its publication by
    `host_publication.py` as a compare-and-swap per file. */
module HostPublication {
  import opened Outcomes

  /** What stands at a path; contents are known by their digest, which is injective. */
  datatype Place = Missing | Regular(content: nat, mode: nat) | Unsafe

  type Tree = map<string, Place>

  function At(tree: Tree, path: string): Place {
    if path in tree then tree[path] else Missing
  }

  function DigestAt(place: Place): Option<nat> {
    if place.Regular? then Some(place.content) else None
  }

  // ----- the plan as the publisher reads it --------------------------------------------------------

  datatype Allowed = Allowed(source: string, target: string, mode: nat)

  /** FILES of host_publication.py. */
  const FILES: seq<Allowed> := [
    Allowed("host/libexec/fwrouter/fwrouter-boot-preflight.sh",
      "usr/local/libexec/fwrouter/fwrouter-boot-preflight.sh", 0x1ED),
    Allowed("host/systemd/fwrouter-api.service", "etc/systemd/system/fwrouter-api.service", 0x1A4)]

  /** HOST_ROWS of local_deploy.py. */
  const HOST_ROWS: seq<Allowed> := [
    Allowed("host/libexec/fwrouter/fwrouter-boot-preflight.sh",
      "usr/local/libexec/fwrouter/fwrouter-boot-preflight.sh", 0x1ED),
    Allowed("host/systemd/fwrouter-api.service", "etc/systemd/system/fwrouter-api.service", 0x1A4)]

  /** A JSON value where a digest is expected. */
  datatype RawDigest = Null | Sha(content: nat) | Garbage
  datatype RawRow = RawRow(source: string, target: string, old_: RawDigest, new_: RawDigest, mode: int)
  datatype RawPlan = RawPlan(schema: string, exactKeys: bool, files: seq<RawRow>)

  /** A validated row. */
  datatype Row = Row(source: string, target: string, mode: nat, before: Option<nat>, after: nat)

  const SCHEMA := "fwrouter-host-publication-plan/v1"

  /** The allow-listed file a row names. */
  predicate Names(row: RawRow, k: nat) {
    k < |FILES| && row.source == FILES[k].source && row.target == FILES[k].target
  }

  predicate WellFormedRow(row: RawRow, k: nat) {
    Names(row, k) && row.mode == FILES[k].mode && !row.old_.Garbage? && row.new_.Sha?
  }

  /** Rows name allow-listed files, each at most once and in the listed order. */
  ghost predicate OrderedRows(rows: seq<RawRow>, index: seq<nat>) {
    && |index| == |rows| && (forall i :: 0 <= i < |rows| ==> WellFormedRow(rows[i], index[i]))
    && forall i, j :: 0 <= i < j < |rows| ==> index[i] < index[j]
  }

  ghost predicate ValidPlan(plan: RawPlan) {
    && plan.schema == SCHEMA && plan.exactKeys && 1 <= |plan.files| <= |FILES|
    && exists index :: OrderedRows(plan.files, index)
  }

  function Validated(row: RawRow): Row
    requires row.mode >= 0 && row.new_.Sha?
  {
    Row(row.source, row.target, row.mode, if row.old_.Sha? then Some(row.old_.content) else None, row.new_.content)
  }

  /** A row for one file, with its digests written as they have to be. */
  predicate IsRow(row: RawRow, source: string, target: string, mode: int) {
    row.source == source && row.target == target && row.mode == mode && row.old_ != Garbage && row.new_.Sha?
  }

  predicate IsPreflightRow(row: RawRow) {
    IsRow(row, "host/libexec/fwrouter/fwrouter-boot-preflight.sh",
      "usr/local/libexec/fwrouter/fwrouter-boot-preflight.sh", 493)
  }

  predicate IsApiUnitRow(row: RawRow) {
    IsRow(row, "host/systemd/fwrouter-api.service", "etc/systemd/system/fwrouter-api.service", 420)
  }

  /** The valid plans are those of the boot preflight, of the API unit, and of both in this order. */
  lemma ValidPlanExactly(plan: RawPlan)
    ensures ValidPlan(plan) <==>
      && plan.schema == "fwrouter-host-publication-plan/v1" && plan.exactKeys
      && match |plan.files|
         case 1 => IsPreflightRow(plan.files[0]) || IsApiUnitRow(plan.files[0])
         case 2 => IsPreflightRow(plan.files[0]) && IsApiUnitRow(plan.files[1])
         case _ => false
  {
    hide WellFormedRow, IsPreflightRow, IsApiUnitRow;
    var files := plan.files;
    forall i | 0 <= i < |files|
      ensures forall k :: WellFormedRow(files[i], k) ==> k == 0 || k == 1
      ensures WellFormedRow(files[i], 0) <==> IsPreflightRow(files[i])
      ensures WellFormedRow(files[i], 1) <==> IsApiUnitRow(files[i])
    {
      NamesListed(files[i]);
    }
    if |files| == 1 {
      if IsPreflightRow(files[0]) {
        assert OrderedRows(files, [0]);
      } else if IsApiUnitRow(files[0]) {
        assert OrderedRows(files, [1]);
      }
    } else if |files| == 2 && IsPreflightRow(files[0]) && IsApiUnitRow(files[1]) {
      assert OrderedRows(files, [0, 1]);
    }
    if index :| OrderedRows(files, index) {
      assert forall i :: 0 <= i < |files| ==> WellFormedRow(files[i], index[i]);
      assert |files| > 0 ==> index[0] == 0 || index[0] == 1;
      assert |files| > 1 ==> index[1] == 0 || index[1] == 1;
    }
  }

  lemma NamesListed(row: RawRow)
    ensures forall k :: WellFormedRow(row, k) ==> k == 0 || k == 1
    ensures WellFormedRow(row, 0) <==> IsPreflightRow(row)
    ensures WellFormedRow(row, 1) <==> IsApiUnitRow(row)
  {
  }

  /** The row says what was written. */
  predicate SameRow(row: Row, raw: RawRow) {
    && row.source == raw.source && row.target == raw.target && row.mode == raw.mode && Sha(row.after) == raw.new_
    && raw.old_ == if row.before.Some? then Sha(row.before.value) else Null
  }

  lemma ValidatedIsSame(raw: RawRow)
    requires raw.mode >= 0 && raw.new_.Sha? && !raw.old_.Garbage?
    ensures SameRow(Validated(raw), raw)
  {
  }

  method IndexOf(row: RawRow) returns (index: Option<nat>)
    ensures index.Some? ==> Names(row, index.value)
    ensures index.None? ==> forall k :: !Names(row, k)
  {
    for k := 0 to |FILES|
      invariant forall i :: 0 <= i < k ==> !Names(row, i)
    {
      if row.source == FILES[k].source && row.target == FILES[k].target {
        return Some(k);
      }
    }
    return None;
  }

  lemma NamesAreUnique(row: RawRow, j: nat, k: nat)
    requires Names(row, j) && Names(row, k)
    ensures j == k
  {
    assert |FILES[0].source| != |FILES[1].source|;
  }

  /** `validate_plan`. */
  method ValidatePlan(plan: RawPlan) returns (r: Result<seq<Row>>)
    ensures r.Ok? <==> ValidPlan(plan)
    ensures r.Ok? ==> |r.value| == |plan.files|
    ensures r.Ok? ==> forall i :: 0 <= i < |plan.files| ==>
      plan.files[i].mode >= 0 && plan.files[i].new_.Sha? && r.value[i] == Validated(plan.files[i])
    ensures r.Ok? ==> forall i :: 0 <= i < |plan.files| ==> SameRow(r.value[i], plan.files[i])
  {
    hide Validated, SameRow;
    if plan.schema != SCHEMA || !plan.exactKeys || !(1 <= |plan.files| <= |FILES|) {
      return Failed;
    }
    var rows := [];
    var previous: int := -1;
    ghost var index: seq<nat> := [];
    for i := 0 to |plan.files|
      invariant |rows| == i && OrderedRows(plan.files[..i], index)
      invariant previous == if i == 0 then -1 else index[i - 1]
      invariant forall j :: 0 <= j < i ==>
        plan.files[j].mode >= 0 && plan.files[j].new_.Sha? && rows[j] == Validated(plan.files[j])
    {
      var row := plan.files[i];
      var named := IndexOf(row);
      if named.None? || named.value <= previous || !WellFormedRow(row, named.value) {
        RefusedRow(plan, i, index, named);
        return Failed;
      }
      assert plan.files[..i + 1] == plan.files[..i] + [row];
      rows, previous, index := rows + [Validated(row)], named.value, index + [named.value];
    }
    assert plan.files[..|plan.files|] == plan.files;
    forall i | 0 <= i < |plan.files| ensures SameRow(rows[i], plan.files[i]) {
      assert WellFormedRow(plan.files[i], index[i]);
      ValidatedIsSame(plan.files[i]);
    }
    return Ok(rows);
  }

  /** A row that is refused where it stands makes the whole plan invalid. */
  lemma RefusedRow(plan: RawPlan, i: nat, index: seq<nat>, named: Option<nat>)
    requires i < |plan.files| && OrderedRows(plan.files[..i], index)
    requires named.Some? ==> Names(plan.files[i], named.value)
    requires named.None? ==> forall k :: !Names(plan.files[i], k)
    requires named.None? || (i > 0 && named.value <= index[i - 1]) || !WellFormedRow(plan.files[i], named.value)
    ensures !ValidPlan(plan)
  {
    if ValidPlan(plan) {
      var other :| OrderedRows(plan.files, other);
      assert WellFormedRow(plan.files[i], other[i]);
      NamesAreUnique(plan.files[i], named.value, other[i]);
      if i > 0 {
        assert WellFormedRow(plan.files[..i][i - 1], index[i - 1]) && plan.files[..i][i - 1] == plan.files[i - 1];
        NamesAreUnique(plan.files[i - 1], index[i - 1], other[i - 1]);
      }
      assert false;
    }
  }

  // ----- the plan as the deployment builds it -----------------------------------------------------------

  predicate BuildsFrom(sources: Tree, targets: Tree, k: nat)
    requires k < |HOST_ROWS|
  {
    && At(sources, HOST_ROWS[k].source).Regular? && At(sources, HOST_ROWS[k].source).mode == HOST_ROWS[k].mode
    && !At(targets, HOST_ROWS[k].target).Unsafe?
  }

  predicate InPlace(sources: Tree, targets: Tree, k: nat)
    requires k < |HOST_ROWS|
  {
    && At(sources, HOST_ROWS[k].source).Regular?
    && At(targets, HOST_ROWS[k].target) == Regular(At(sources, HOST_ROWS[k].source).content, HOST_ROWS[k].mode)
  }

  function BuiltRow(sources: Tree, targets: Tree, k: nat): RawRow
    requires k < |HOST_ROWS| && BuildsFrom(sources, targets, k)
  {
    var before := At(targets, HOST_ROWS[k].target);
    RawRow(HOST_ROWS[k].source, HOST_ROWS[k].target,
           if before.Regular? then Sha(before.content) else Null,
           Sha(At(sources, HOST_ROWS[k].source).content), HOST_ROWS[k].mode)
  }

  /** The rows of the first `n` files that are not already in place. */
  function BuiltRows(sources: Tree, targets: Tree, n: nat): seq<RawRow>
    requires n <= |HOST_ROWS| && forall k :: 0 <= k < n ==> BuildsFrom(sources, targets, k)
  {
    if n == 0 then []
    else
      BuiltRows(sources, targets, n - 1)
      + if InPlace(sources, targets, n - 1) then [] else [BuiltRow(sources, targets, n - 1)]
  }

  /** `_host_plan`: nothing where every file is in place. */
  method BuildPlan(sources: Tree, targets: Tree) returns (r: Result<Option<RawPlan>>)
    ensures r.Ok? <==> forall k :: 0 <= k < |HOST_ROWS| ==> BuildsFrom(sources, targets, k)
    ensures r.Ok? && r.value.Some? ==>
      ValidPlan(r.value.value) && r.value.value.files == BuiltRows(sources, targets, |HOST_ROWS|)
    ensures r.Ok? && r.value.None? <==>
      forall k :: 0 <= k < |HOST_ROWS| ==> BuildsFrom(sources, targets, k) && InPlace(sources, targets, k)
  {
    var rows := [];
    for k := 0 to |HOST_ROWS|
      invariant forall i :: 0 <= i < k ==> BuildsFrom(sources, targets, i)
      invariant rows == BuiltRows(sources, targets, k)
      invariant rows == [] <==> forall i :: 0 <= i < k ==> InPlace(sources, targets, i)
    {
      if !BuildsFrom(sources, targets, k) {
        return Failed;
      }
      if !InPlace(sources, targets, k) {
        rows := rows + [BuiltRow(sources, targets, k)];
      }
    }
    if rows == [] {
      return Ok(None);
    }
    BuiltPlansAreValid(sources, targets);
    return Ok(Some(RawPlan(SCHEMA, true, rows)));
  }

  lemma {:induction false} BuiltRowsAreOrdered(sources: Tree, targets: Tree, n: nat) returns (index: seq<nat>)
    requires n <= |HOST_ROWS| && forall k :: 0 <= k < n ==> BuildsFrom(sources, targets, k)
    ensures OrderedRows(BuiltRows(sources, targets, n), index) && |index| <= n
    ensures forall i :: 0 <= i < |index| ==> index[i] < n
    ensures forall i :: 0 <= i < |index| ==> !InPlace(sources, targets, index[i])
    ensures forall i :: 0 <= i < |index| ==> BuiltRows(sources, targets, n)[i] == BuiltRow(sources, targets, index[i])
  {
    hide WellFormedRow, BuiltRow, InPlace, OrderedRows, BuildsFrom, BuiltRows;
    BuiltRowsStep(sources, targets, n);
    NoRowsAreOrdered();
    if n == 0 {
      index := [];
    } else {
      index := BuiltRowsAreOrdered(sources, targets, n - 1);
      var before := BuiltRows(sources, targets, n - 1);
      SameLength(before, index);
      if !InPlace(sources, targets, n - 1) {
        BuiltRowIsWellFormed(sources, targets, n - 1);
        OrderedRowsSnoc(before, index, BuiltRow(sources, targets, n - 1), n - 1);
        index := index + [n - 1];
      } else {
        assert before + [] == before;
      }
    }
  }

  lemma BuiltRowsStep(sources: Tree, targets: Tree, n: nat)
    requires n <= |HOST_ROWS| && forall k :: 0 <= k < n ==> BuildsFrom(sources, targets, k)
    ensures n == 0 ==> BuiltRows(sources, targets, n) == []
    ensures n > 0 ==>
      BuiltRows(sources, targets, n) == BuiltRows(sources, targets, n - 1)
        + if InPlace(sources, targets, n - 1) then [] else [BuiltRow(sources, targets, n - 1)]
  {
    hide BuiltRow, InPlace, BuildsFrom;
  }

  lemma NoRowsAreOrdered()
    ensures OrderedRows([], [])
  {
  }

  lemma SameLength(rows: seq<RawRow>, index: seq<nat>)
    requires OrderedRows(rows, index)
    ensures |rows| == |index|
  {
  }

  lemma OrderedRowsSnoc(rows: seq<RawRow>, index: seq<nat>, row: RawRow, k: nat)
    requires OrderedRows(rows, index) && WellFormedRow(row, k) && forall i :: 0 <= i < |index| ==> index[i] < k
    ensures OrderedRows(rows + [row], index + [k])
  {
    hide WellFormedRow;
  }

  lemma BuiltRowIsWellFormed(sources: Tree, targets: Tree, k: nat)
    requires k < |HOST_ROWS| && BuildsFrom(sources, targets, k)
    ensures WellFormedRow(BuiltRow(sources, targets, k), k)
  {
  }

  /** MAIN: the publisher accepts every non-empty plan the deployment builds. */
  lemma BuiltPlansAreValid(sources: Tree, targets: Tree)
    requires forall k :: 0 <= k < |HOST_ROWS| ==> BuildsFrom(sources, targets, k)
    requires BuiltRows(sources, targets, |HOST_ROWS|) != []
    ensures ValidPlan(RawPlan(SCHEMA, true, BuiltRows(sources, targets, |HOST_ROWS|)))
  {
    var index := BuiltRowsAreOrdered(sources, targets, |HOST_ROWS|);
    assert OrderedRows(BuiltRows(sources, targets, |HOST_ROWS|), index);
  }

  // ----- publication ------------------------------------------------------------------------------------

  predicate Settled(place: Place, row: Row) {
    place == Regular(row.after, row.mode)
  }

  /** What a row's compare-and-swap accepts at its target. */
  predicate Swappable(place: Place, row: Row) {
    !place.Unsafe? && (Settled(place, row) || DigestAt(place) == row.before)
  }

  /** The first `n` targets are desired, the others as they were, and nothing else changed. */
  ghost predicate HalfWay(rows: seq<Row>, was: Tree, now: Tree, n: nat) {
    && n <= |rows| && Advanced(rows, was, now)
    && (forall i :: 0 <= i < n ==> Settled(At(now, rows[i].target), rows[i]))
    && (forall i :: n <= i < |rows| ==> At(now, rows[i].target) == At(was, rows[i].target))
  }

  lemma HalfWayOneMore(rows: seq<Row>, first: Tree, was: Tree, now: Tree, n: nat)
    requires n < |rows| && DistinctTargets(rows) && HalfWay(rows, first, was, n)
    requires now == was || now == was[rows[n].target := Regular(rows[n].after, rows[n].mode)]
    ensures Advanced(rows, first, now)
    ensures Settled(At(now, rows[n].target), rows[n]) ==> HalfWay(rows, first, now, n + 1)
  {
  }

  predicate SourceMatches(sources: Tree, row: Row) {
    At(sources, row.source) == Regular(row.after, row.mode)
  }

  /** Every row's source is as planned and its target still old or already desired. */
  predicate Fits(rows: seq<Row>, sources: Tree, targets: Tree) {
    forall i :: 0 <= i < |rows| ==> SourceMatches(sources, rows[i]) && Swappable(At(targets, rows[i].target), rows[i])
  }

  /** Each target is as it was, or as its row wants it; nothing else changed. */
  ghost predicate Advanced(rows: seq<Row>, was: Tree, now: Tree) {
    && (forall i :: 0 <= i < |rows| ==>
          At(now, rows[i].target) == At(was, rows[i].target) || Settled(At(now, rows[i].target), rows[i]))
    && forall path :: (forall i :: 0 <= i < |rows| ==> rows[i].target != path) ==> At(now, path) == At(was, path)
  }

  ghost predicate DistinctTargets(rows: seq<Row>) {
    forall i, j :: 0 <= i < j < |rows| ==> rows[i].target != rows[j].target
  }

  lemma FilesAreApart()
    ensures forall j, k :: 0 <= j < k < |FILES| ==> FILES[j].target != FILES[k].target
  {
    assert |FILES[0].target| != |FILES[1].target|;
  }

  lemma ValidRowsAreApart(plan: RawPlan, rows: seq<Row>)
    requires ValidPlan(plan) && |rows| == |plan.files|
    requires forall i :: 0 <= i < |plan.files| ==>
      plan.files[i].mode >= 0 && plan.files[i].new_.Sha? && rows[i] == Validated(plan.files[i])
    ensures DistinctTargets(rows)
  {
  }

  /** Calm: calls succeed and nobody else writes. Faulty: any call may fail or be the last.
      Hostile: moreover anyone may write to the targets between calls. */
  datatype Weather = Calm | Faulty | Hostile

  /** One atomic replacement: the row, what the second reading of its target found, and what
      stood there when the rename happened. */
  datatype Replacement = Replacement(row: Row, read: Place, stood: Place)

  datatype Published = AlreadyDesired | Replaced

  class HostFiles {
    const sources: Tree
    const weather: Weather
    var targets: Tree
    ghost var replaced: seq<Replacement>

    constructor (sources: Tree, targets: Tree, weather: Weather)
      ensures this.sources == sources && this.targets == targets && this.weather == weather && replaced == []
    {
      this.sources, this.targets, this.weather, this.replaced := sources, targets, weather, [];
    }

    /** No file was ever replaced unless it had just been read at the digest the plan expected;
        while nobody else writes it still stood there. */
    ghost predicate OnlyExpectedReplaced()
      reads this
    {
      forall k :: 0 <= k < |replaced| ==>
        && !replaced[k].read.Unsafe? && DigestAt(replaced[k].read) == replaced[k].row.before
        && (!weather.Hostile? ==> replaced[k].stood == replaced[k].read)
    }

    /** Anyone else, in hostile weather. */
    method Others()
      modifies `targets
      ensures !weather.Hostile? ==> targets == old(targets)
    {
      if weather.Hostile? {
        targets := *;
      }
    }

    method Call() returns (r: Result<()>)
      modifies `targets
      ensures !weather.Hostile? ==> targets == old(targets)
      ensures weather.Calm? ==> r.Ok?
    {
      if weather.Hostile? {
        targets := *;
      }
      if !weather.Calm? {
        var fails: bool := *;
        if fails {
          return Failed;
        }
      }
      return Ok(());
    }

    /** `_read_regular_at`: what is there at the moment it returns. */
    method Read(path: string) returns (r: Result<Place>)
      modifies `targets
      ensures r.Ok? ==> r.value == At(targets, path) && !r.value.Unsafe?
      ensures !weather.Hostile? ==> targets == old(targets)
      ensures weather.Calm? ==> (r.Ok? <==> !At(targets, path).Unsafe?)
    {
      var _ :- Call();
      return if At(targets, path).Unsafe? then Failed else Ok(At(targets, path));
    }

    /** `_publish_one`. */
    method PublishOne(row: Row) returns (r: Result<Published>)
      requires OnlyExpectedReplaced()
      modifies `targets, `replaced
      ensures OnlyExpectedReplaced() && old(replaced) <= replaced && |replaced| <= |old(replaced)| + 1
      ensures forall k :: |old(replaced)| <= k < |replaced| ==> replaced[k].row == row
      ensures !weather.Hostile? ==>
        && (targets == old(targets)
            || (targets == old(targets)[row.target := Regular(row.after, row.mode)]
                && Swappable(At(old(targets), row.target), row)))
        && (r.Ok? ==> Settled(At(targets, row.target), row) && Swappable(At(old(targets), row.target), row))
        && (r.Ok? ==> At(targets, row.target) == Regular(row.after, row.mode))
        && (targets != old(targets) ==>
              At(old(targets), row.target) != Unsafe && DigestAt(At(old(targets), row.target)) == row.before)
      ensures weather.Calm? ==> (r.Ok? <==> Swappable(At(old(targets), row.target), row))
    {
      var current :- Read(row.target);
      if Settled(current, row) {
        var again :- Read(row.target);
        return if Settled(again, row) then Ok(AlreadyDesired) else Failed;
      }
      if DigestAt(current) != row.before {
        return Failed;
      }
      var _ :- Call();
      var now :- Read(row.target);
      if DigestAt(now) != row.before {
        return Failed;
      }
      Others();
      replaced := replaced + [Replacement(row, now, At(targets, row.target))];
      targets := targets[row.target := Regular(row.after, row.mode)];
      var installed :- Read(row.target);
      return if Settled(installed, row) then Ok(Replaced) else Failed;
    }

    /** `_preflight_destinations`, which writes nothing. */
    method Preflight(rows: seq<Row>) returns (r: Result<()>)
      modifies `targets
      ensures !weather.Hostile? ==>
        targets == old(targets)
          && (r.Ok? ==> forall i :: 0 <= i < |rows| ==> Swappable(At(targets, rows[i].target), rows[i]))
      ensures weather.Calm? ==>
        (r.Ok? <==> forall i :: 0 <= i < |rows| ==> Swappable(At(targets, rows[i].target), rows[i]))
    {
      for n := 0 to |rows|
        invariant !weather.Hostile? ==>
          targets == old(targets) && forall i :: 0 <= i < n ==> Swappable(At(targets, rows[i].target), rows[i])
      {
        var current :- Read(rows[n].target);
        if !Swappable(current, rows[n]) {
          return Failed;
        }
      }
      return Ok(());
    }

    /** `_read_source` for every row, before any target is looked at. */
    method ReadSources(rows: seq<Row>) returns (r: Result<()>)
      modifies `targets
      ensures !weather.Hostile? ==> targets == old(targets)
      ensures r.Ok? ==> forall i :: 0 <= i < |rows| ==> SourceMatches(sources, rows[i])
      ensures weather.Calm? ==> (r.Ok? <==> forall i :: 0 <= i < |rows| ==> SourceMatches(sources, rows[i]))
    {
      for n := 0 to |rows|
        invariant !weather.Hostile? ==> targets == old(targets)
        invariant forall i :: 0 <= i < n ==> SourceMatches(sources, rows[i])
      {
        var _ :- Call();
        if !SourceMatches(sources, rows[n]) {
          return Failed;
        }
      }
      return Ok(());
    }

    /** The writing loop of `publish`. */
    method PublishAll(rows: seq<Row>) returns (r: Result<()>)
      requires OnlyExpectedReplaced() && DistinctTargets(rows)
      requires !weather.Hostile? ==> Fits(rows, sources, targets)
      modifies `targets, `replaced
      ensures OnlyExpectedReplaced() && old(replaced) <= replaced
      ensures !weather.Hostile? ==> Advanced(rows, old(targets), targets)
      ensures !weather.Hostile? && r.Ok? ==> forall i :: 0 <= i < |rows| ==>
        Settled(At(targets, rows[i].target), rows[i])
      ensures weather.Calm? ==> r.Ok?
    {
      hide Settled, Swappable;
      for n := 0 to |rows|
        invariant OnlyExpectedReplaced() && old(replaced) <= replaced
        invariant !weather.Hostile? ==> HalfWay(rows, old(targets), targets, n)
      {
        ghost var was := targets;
        var one := PublishOne(rows[n]);
        if !weather.Hostile? {
          HalfWayOneMore(rows, old(targets), was, targets, n);
        }
        var _ :- one;
      }
      return Ok(());
    }

    /** `publish`. A plan that does not fit changes nothing; a cut leaves every target old
        or desired, so that the plan still fits. */
    method Publish(plan: RawPlan) returns (r: Result<seq<Row>>)
      requires OnlyExpectedReplaced()
      modifies `targets, `replaced
      ensures OnlyExpectedReplaced() && old(replaced) <= replaced
      ensures !ValidPlan(plan) ==> r.Failed? && targets == old(targets)
      ensures ValidPlan(plan) ==>
        var rows := Validate(plan);
        && (!weather.Hostile? && !Fits(rows, sources, old(targets)) ==> r.Failed? && targets == old(targets))
        && (!weather.Hostile? ==> Advanced(rows, old(targets), targets))
        && (!weather.Hostile? && Fits(rows, sources, old(targets)) ==> Fits(rows, sources, targets))
        && (!weather.Hostile? && r.Ok? ==>
              forall i :: 0 <= i < |rows| ==> Settled(At(targets, rows[i].target), rows[i]))
        && (weather.Calm? ==> (r.Ok? <==> Fits(rows, sources, old(targets))))
    {
      var rows :- ValidatePlan(plan);
      ValidRowsAreApart(plan, rows);
      ValidatedAll(plan, rows);
      var _ :- ReadSources(rows);
      var _ :- Preflight(rows);
      var _ :- PublishAll(rows);
      return Ok(rows);
    }
  }

  /** The rows of a valid plan. */
  ghost function Validate(plan: RawPlan): (rows: seq<Row>)
    requires ValidPlan(plan)
    ensures |rows| == |plan.files|
  {
    PlanRowsAreWellFormed(plan);
    seq(|plan.files|, i requires 0 <= i < |plan.files| => Validated(plan.files[i]))
  }

  lemma PlanRowsAreWellFormed(plan: RawPlan)
    requires ValidPlan(plan)
    ensures forall i :: 0 <= i < |plan.files| ==> plan.files[i].mode >= 0 && plan.files[i].new_.Sha?
  {
  }

  lemma ValidatedAll(plan: RawPlan, rows: seq<Row>)
    requires ValidPlan(plan) && |rows| == |plan.files|
    requires forall i :: 0 <= i < |plan.files| ==>
      plan.files[i].mode >= 0 && plan.files[i].new_.Sha? && rows[i] == Validated(plan.files[i])
    ensures rows == Validate(plan)
  {
  }

  // ----- the plan and its publication together ---------------------------------------------------------------

  /** A plan just built fits what it was built from. */
  lemma BuiltPlanFits(sources: Tree, targets: Tree)
    requires forall k :: 0 <= k < |HOST_ROWS| ==> BuildsFrom(sources, targets, k)
    requires BuiltRows(sources, targets, |HOST_ROWS|) != []
    ensures ValidPlan(BuiltPlan(sources, targets))
    ensures Fits(Validate(BuiltPlan(sources, targets)), sources, targets)
  {
    BuiltPlansAreValid(sources, targets);
    var index := BuiltRowsAreOrdered(sources, targets, |HOST_ROWS|);
    var rows := Validate(BuiltPlan(sources, targets));
    forall i | 0 <= i < |rows| ensures SourceMatches(sources, rows[i])
      && Swappable(At(targets, rows[i].target), rows[i]) {
      assert BuildsFrom(sources, targets, index[i]);
    }
  }

  function BuiltPlan(sources: Tree, targets: Tree): RawPlan
    requires forall k :: 0 <= k < |HOST_ROWS| ==> BuildsFrom(sources, targets, k)
  {
    RawPlan(SCHEMA, true, BuiltRows(sources, targets, |HOST_ROWS|))
  }

  /** Once every row of a built plan is settled there is nothing left to plan. */
  lemma SettledPlanIsEmpty(sources: Tree, was: Tree, now: Tree)
    requires forall k :: 0 <= k < |HOST_ROWS| ==> BuildsFrom(sources, was, k)
    requires BuiltRows(sources, was, |HOST_ROWS|) != [] && ValidPlan(BuiltPlan(sources, was))
    requires Advanced(Validate(BuiltPlan(sources, was)), was, now)
    requires forall i :: 0 <= i < |Validate(BuiltPlan(sources, was))| ==>
      Settled(At(now, Validate(BuiltPlan(sources, was))[i].target), Validate(BuiltPlan(sources, was))[i])
    ensures forall k :: 0 <= k < |HOST_ROWS| ==> InPlace(sources, now, k)
  {
    var index := BuiltRowsAreOrdered(sources, was, |HOST_ROWS|);
    var rows := Validate(BuiltPlan(sources, was));
    FilesAreApart();
    forall k | 0 <= k < |HOST_ROWS| ensures InPlace(sources, now, k) {
      assert BuildsFrom(sources, was, k);
      if k in index {
        var i :| 0 <= i < |index| && index[i] == k;
        assert rows[i] == Validated(BuiltRow(sources, was, k));
      } else {
        UnlistedIsInPlace(sources, was, |HOST_ROWS|, index, k);
        forall i | 0 <= i < |rows| ensures rows[i].target != HOST_ROWS[k].target {
          assert rows[i] == Validated(BuiltRow(sources, was, index[i])) && index[i] in index;
        }
      }
    }
  }

  lemma {:induction false} UnlistedIsInPlace(sources: Tree, targets: Tree, n: nat, index: seq<nat>, k: nat)
    requires n <= |HOST_ROWS| && forall k :: 0 <= k < n ==> BuildsFrom(sources, targets, k)
    requires |index| == |BuiltRows(sources, targets, n)|
    requires forall i :: 0 <= i < |index| ==> index[i] < |HOST_ROWS| && BuildsFrom(sources, targets, index[i])
    requires forall i :: 0 <= i < |index| ==> BuiltRows(sources, targets, n)[i] == BuiltRow(sources, targets, index[i])
    requires k < n && k !in index
    ensures InPlace(sources, targets, k)
  {
    var rows := BuiltRows(sources, targets, n);
    var before := BuiltRows(sources, targets, n - 1);
    if InPlace(sources, targets, n - 1) {
      if k < n - 1 {
        UnlistedIsInPlace(sources, targets, n - 1, index, k);
      }
    } else {
      assert rows[|rows| - 1] == BuiltRow(sources, targets, n - 1);
      SameFile(sources, targets, index[|rows| - 1], n - 1);
      assert index[|rows| - 1] in index;
      assert forall i :: 0 <= i < |before| ==> rows[i] == before[i];
      UnlistedIsInPlace(sources, targets, n - 1, index[..|rows| - 1], k);
    }
  }

  lemma SameFile(sources: Tree, targets: Tree, j: nat, k: nat)
    requires j < |HOST_ROWS| && k < |HOST_ROWS| && BuildsFrom(sources, targets, j) && BuildsFrom(sources, targets, k)
    requires BuiltRow(sources, targets, j) == BuiltRow(sources, targets, k)
    ensures j == k
  {
    FilesAreApart();
  }

  predicate Listed(path: string) {
    exists k :: 0 <= k < |HOST_ROWS| && HOST_ROWS[k].target == path
  }

  /** A source file of that mode, and a target that can be replaced. */
  predicate CanPlace(sources: Tree, targets: Tree, source: string, target: string, mode: nat) {
    At(sources, source).Regular? && At(sources, source).mode == mode && At(targets, target) != Unsafe
  }

  predicate Placed(sources: Tree, now: Tree, source: string, target: string, mode: nat) {
    At(sources, source).Regular? && At(now, target) == Regular(At(sources, source).content, mode)
  }

  lemma ListedFiles(sources: Tree, targets: Tree)
    ensures (forall k :: 0 <= k < |HOST_ROWS| ==> BuildsFrom(sources, targets, k)) <==>
      && CanPlace(sources, targets, "host/libexec/fwrouter/fwrouter-boot-preflight.sh",
           "usr/local/libexec/fwrouter/fwrouter-boot-preflight.sh", 493)
      && CanPlace(sources, targets, "host/systemd/fwrouter-api.service", "etc/systemd/system/fwrouter-api.service", 420)
    ensures (forall k :: 0 <= k < |HOST_ROWS| ==> InPlace(sources, targets, k)) <==>
      && Placed(sources, targets, "host/libexec/fwrouter/fwrouter-boot-preflight.sh",
           "usr/local/libexec/fwrouter/fwrouter-boot-preflight.sh", 493)
      && Placed(sources, targets, "host/systemd/fwrouter-api.service", "etc/systemd/system/fwrouter-api.service", 420)
    ensures forall path :: Listed(path) ==>
      || path == "usr/local/libexec/fwrouter/fwrouter-boot-preflight.sh"
      || path == "etc/systemd/system/fwrouter-api.service"
  {
    assert HOST_ROWS[0] == Allowed("host/libexec/fwrouter/fwrouter-boot-preflight.sh",
      "usr/local/libexec/fwrouter/fwrouter-boot-preflight.sh", 493);
    assert HOST_ROWS[1] == Allowed("host/systemd/fwrouter-api.service", "etc/systemd/system/fwrouter-api.service", 420);
    assert (forall k :: 0 <= k < |HOST_ROWS| ==> BuildsFrom(sources, targets, k)) <==>
      BuildsFrom(sources, targets, 0) && BuildsFrom(sources, targets, 1);
    assert (forall k :: 0 <= k < |HOST_ROWS| ==> InPlace(sources, targets, k)) <==>
      InPlace(sources, targets, 0) && InPlace(sources, targets, 1);
  }

  /** MAIN: a plan built by the deployment, published any number of times with a cut
      anywhere, and then once more undisturbed, puts every listed file in place. */
  method PlanThenPublish(sources: Tree, targets: Tree, attempts: nat) returns (now: Tree, r: Result<()>)
    ensures r.Ok? <==> forall k :: 0 <= k < |HOST_ROWS| ==> BuildsFrom(sources, targets, k)
    ensures r.Ok? ==> forall k :: 0 <= k < |HOST_ROWS| ==> InPlace(sources, now, k)
    ensures forall path :: !Listed(path) ==> At(now, path) == At(targets, path)
    ensures r.Ok? <==>
      && CanPlace(sources, targets, "host/libexec/fwrouter/fwrouter-boot-preflight.sh",
           "usr/local/libexec/fwrouter/fwrouter-boot-preflight.sh", 493)
      && CanPlace(sources, targets, "host/systemd/fwrouter-api.service", "etc/systemd/system/fwrouter-api.service", 420)
    ensures r.Ok? ==>
      && Placed(sources, now, "host/libexec/fwrouter/fwrouter-boot-preflight.sh",
           "usr/local/libexec/fwrouter/fwrouter-boot-preflight.sh", 493)
      && Placed(sources, now, "host/systemd/fwrouter-api.service", "etc/systemd/system/fwrouter-api.service", 420)
  {
    hide CanPlace, Placed;
    ListedFiles(sources, targets);
    now := targets;
    var built := BuildPlan(sources, targets);
    if built.Failed? {
      return now, Failed;
    }
    if built.value.None? {
      return now, Ok(());
    }
    var plan := built.value.value;
    BuiltPlanFits(sources, targets);
    ghost var rows := Validate(plan);
    var host := new HostFiles(sources, targets, Faulty);
    for i := 0 to attempts
      invariant fresh(host) && host.OnlyExpectedReplaced()
      invariant Fits(rows, sources, host.targets) && Advanced(rows, targets, host.targets)
    {
      ghost var was := host.targets;
      var cut := host.Publish(plan);
      AdvancedTogether(rows, targets, was, host.targets);
    }
    var later := new HostFiles(sources, host.targets, Calm);
    var done := later.Publish(plan);
    AdvancedTogether(rows, targets, host.targets, later.targets);
    SettledPlanIsEmpty(sources, targets, later.targets);
    OnlyListedTargets(plan, rows);
    ListedFiles(sources, later.targets);
    return later.targets, Ok(());
  }

  lemma AdvancedTogether(rows: seq<Row>, a: Tree, b: Tree, c: Tree)
    requires Advanced(rows, a, b) && Advanced(rows, b, c)
    ensures Advanced(rows, a, c)
  {
  }

  lemma OnlyListedTargets(plan: RawPlan, rows: seq<Row>)
    requires ValidPlan(plan) && rows == Validate(plan)
    ensures forall i :: 0 <= i < |rows| ==> Listed(rows[i].target)
  {
  }
}
