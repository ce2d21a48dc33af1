/** What the scanners read: the section of their header, entry by entry. */
module ConfigSections {
  import opened Outcomes
  import opened Text
  import opened ConfigLines
  import opened ConfigScan

  // ----- lines around a section -----------------------------------------------------------------------

  lemma {:induction false} TrimEndKeepsStart(s: string)
    requires s != "" && !Space(s[0])
    ensures TrimEnd(s) != "" && TrimEnd(s)[0] == s[0]
  {
    if Space(s[|s| - 1]) {
      TrimEndKeepsStart(s[..|s| - 1]);
    }
  }

  /** A line that starts with a letter or a dash is not blank. */
  lemma StartIsKept(s: string)
    requires s != "" && !Space(s[0])
    ensures Strip(s) != "" && Strip(s)[0] == s[0]
  {
    TrimEndKeepsStart(s);
  }

  lemma HeaderIsNotBlank(line: string, header: string)
    requires StartsWith(line, header) && header != "" && !Space(header[0])
    ensures Strip(line) != "" && !Indented(line)
  {
    assert line[0] == line[..|header|][0];
    StartIsKept(line);
  }

  /** What ends a section: the end of the text or another header at the left margin. */
  predicate Ends(rest: seq<string>, header: string) {
    rest != [] ==>
      && Strip(rest[0]) != "" && !Indented(rest[0]) && !StartsWith(rest[0], header)
      && !StartsWith(rest[0], DASH) && !StartsWith(Strip(rest[0]), DASH)
  }

  // ----- the TUN switch ----------------------------------------------------------------------------------

  /** The first switch among the lines of the section. */
  function Switch(body: seq<string>): Option<bool> {
    if body == [] then None
    else if StartsWith(Strip(body[0]), ENABLE) then Some(Truthy(Lower(Strip(AfterColon(Strip(body[0]))))))
    else Switch(body[1..])
  }

  lemma {:induction false} TunBody(body: seq<string>, rest: seq<string>)
    requires (forall line <- body :: Indented(line)) && Ends(rest, TUN)
    ensures Tun(body + rest, true) == (Switch(body) == Some(true))
  {
    hide Strip, Lower, AfterColon;
    if body == [] {
      assert body + rest == rest;
    } else {
      assert body[0] in body && (body + rest)[1..] == body[1..] + rest;
      if StartsWith(Strip(body[0]), ENABLE) {
        assert Strip(body[0]) != "";
      }
      TunBody(body[1..], rest);
    }
  }

  lemma {:induction false} TunBefore(before: seq<string>, rest: seq<string>)
    requires Headless(before, TUN)
    ensures Tun(before + rest, false) == Tun(rest, false)
  {
    hide Strip;
    if before == [] {
      assert before + rest == rest;
    } else {
      assert (before + rest)[1..] == before[1..] + rest && (before + rest)[0] == before[0];
      TunBefore(before[1..], rest);
    }
  }

  /** MAIN: the scanner reports the first switch of the section, and no switch as off; the text
      around the section does not matter. */
  lemma TunIsTheSwitch(before: seq<string>, header: string, body: seq<string>, rest: seq<string>)
    requires Headless(before, TUN) && StartsWith(header, TUN)
    requires (forall line <- body :: Indented(line)) && Ends(rest, TUN)
    ensures Tun(before + [header] + body + rest, false) == (Switch(body) == Some(true))
  {
    hide Strip, Switch;
    var section := [header] + body + rest;
    assert before + [header] + body + rest == before + section;
    TunBefore(before, section);
    HeaderIsNotBlank(header, TUN);
    assert section[1..] == body + rest;
    TunBody(body, rest);
  }

  // ----- the ports ------------------------------------------------------------------------------------------

  /** A list item at the left margin and the indented lines under it. */
  predicate Block(b: seq<string>) {
    b != [] && StartsWith(b[0], DASH) && forall i :: 1 <= i < |b| ==> Indented(b[i])
  }

  function Rows(lines: seq<string>, e: Entry): Entry {
    if lines == [] then e else Rows(lines[1..], Reading(e, Strip(lines[0])))
  }

  /** What a block says about its listener. */
  function EntryOf(b: seq<string>): Entry
    requires Block(b)
  {
    Rows(b[1..], Reading(NoEntry, Strip(b[0][2..])))
  }

  function Flat(blocks: seq<seq<string>>): seq<string> {
    if blocks == [] then [] else blocks[0] + Flat(blocks[1..])
  }

  /** The first port given for a kind of listener. */
  function FirstPort(blocks: seq<seq<string>>, kind: string): Option<int>
    requires forall b <- blocks :: Block(b)
  {
    if blocks == [] then None
    else
      var e := EntryOf(blocks[0]);
      if e.kind == Some(kind) && e.port.Some? then e.port else FirstPort(blocks[1..], kind)
  }

  function Or(a: Option<int>, b: Option<int>): Option<int> {
    if a.Some? then a else b
  }

  lemma {:induction false} PortRows(lines: seq<string>, rest: seq<string>, p: Ports, e: Entry)
    requires forall i :: 0 <= i < |lines| ==> Indented(lines[i])
    ensures PortsIn(lines + rest, p, true, e) == PortsIn(rest, p, true, Rows(lines, e))
  {
    hide Strip, Lower, AfterColon;
    if lines == [] {
      assert lines + rest == rest;
    } else {
      assert (lines + rest)[0] == lines[0] && (lines + rest)[1..] == lines[1..] + rest;
      PortRows(lines[1..], rest, p, Reading(e, Strip(lines[0])));
    }
  }

  lemma PortBlock(b: seq<string>, rest: seq<string>, p: Ports, e: Entry)
    requires Block(b)
    ensures PortsIn(b + rest, p, true, e) == PortsIn(rest, Commit(p, e), true, EntryOf(b))
  {
    hide Strip, Commit, Reading;
    var more := b[1..] + rest;
    assert (b + rest)[0] == b[0] && (b + rest)[1..] == more;
    HeaderIsNotBlank(b[0], DASH);
    PortRows(b[1..], rest, Commit(p, e), Reading(NoEntry, Strip(b[0][2..])));
  }

  lemma {:induction false} PortBlocks(blocks: seq<seq<string>>, rest: seq<string>, p: Ports, e: Entry)
    requires (forall b <- blocks :: Block(b)) && Ends(rest, LISTENERS)
    ensures var r, q := PortsIn(Flat(blocks) + rest, p, true, e), Commit(p, e);
      && r.mixed == Or(q.mixed, FirstPort(blocks, "mixed"))
      && r.tproxy == Or(q.tproxy, FirstPort(blocks, "tproxy"))
      && r.redir == Or(q.redir, FirstPort(blocks, "redir"))
  {
    hide Strip, EntryOf, Block;
    if blocks == [] {
      assert Flat(blocks) + rest == rest;
    } else {
      assert blocks[0] in blocks;
      assert Flat(blocks) + rest == blocks[0] + (Flat(blocks[1..]) + rest);
      PortBlock(blocks[0], Flat(blocks[1..]) + rest, p, e);
      PortBlocks(blocks[1..], rest, Commit(p, e), EntryOf(blocks[0]));
    }
  }

  lemma {:induction false} PortsBefore(before: seq<string>, rest: seq<string>, e: Entry)
    requires Headless(before, LISTENERS)
    requires rest != [] && StartsWith(rest[0], LISTENERS) && Strip(rest[0]) != "" && !Indented(rest[0])
    ensures PortsIn(before + rest, NoPorts, false, e) == PortsIn(rest[1..], NoPorts, true, NoEntry)
  {
    hide Strip;
    if before == [] {
      assert before + rest == rest;
    } else {
      assert (before + rest)[1..] == before[1..] + rest && (before + rest)[0] == before[0];
      PortsBefore(before[1..], rest, e);
      PortsBefore(before[1..], rest, NoEntry);
    }
  }

  /** MAIN: of listeners listed at the left margin, each kind gets the first port given for it,
      whatever surrounds the section. */
  lemma PortsAreTheFirstOfEachKind(before: seq<string>, header: string, blocks: seq<seq<string>>, rest: seq<string>)
    requires Headless(before, LISTENERS) && StartsWith(header, LISTENERS)
    requires (forall b <- blocks :: Block(b)) && Ends(rest, LISTENERS)
    ensures PortsIn(before + [header] + Flat(blocks) + rest, NoPorts, false, NoEntry)
         == Ports(FirstPort(blocks, "mixed"), FirstPort(blocks, "tproxy"), FirstPort(blocks, "redir"))
  {
    hide Strip, FirstPort, Block, Flat, Ends;
    var section := [header] + Flat(blocks) + rest;
    assert before + [header] + Flat(blocks) + rest == before + section;
    HeaderIsNotBlank(header, LISTENERS);
    PortsBefore(before, section, NoEntry);
    assert section[1..] == Flat(blocks) + rest;
    PortBlocks(blocks, rest, NoPorts, NoEntry);
  }

  // ----- the transparent listeners ------------------------------------------------------------------------------

  /** A list item, wherever it stands, and the lines of its mapping. */
  predicate Mapping(b: seq<string>) {
    && b != [] && StartsWith(Strip(b[0]), DASH)
    && forall i :: 1 <= i < |b| ==> Indented(b[i]) && !StartsWith(Strip(b[i]), DASH)
  }

  function FieldRows(lines: seq<string>, f: Fields): Fields {
    if lines == [] then f else FieldRows(lines[1..], WithField(f, Strip(lines[0])))
  }

  function FieldsOf(b: seq<string>): Fields
    requires Mapping(b)
  {
    FieldRows(b[1..], WithField(map[], Strip(Strip(b[0])[2..])))
  }

  predicate Named(f: Fields, name: string, kind: string) {
    Strip(FieldOr(f, "name")) == name && Lower(Strip(FieldOr(f, "type"))) == kind
  }

  /** The last listener of that name and type, or else another. */
  function LastNamed(blocks: seq<seq<string>>, name: string, kind: string, otherwise: Option<Fields>): Option<Fields>
    requires forall b <- blocks :: Mapping(b)
  {
    if blocks == [] then otherwise
    else
      var f := FieldsOf(blocks[0]);
      LastNamed(blocks[1..], name, kind, if Named(f, name, kind) then Some(f) else otherwise)
  }

  lemma {:induction false} TransparentRows(lines: seq<string>, rest: seq<string>, r: Transparent, f: Fields)
    requires forall i :: 0 <= i < |lines| ==> Indented(lines[i]) && !StartsWith(Strip(lines[i]), DASH)
    ensures TransparentIn(lines + rest, r, true, Some(f)) == TransparentIn(rest, r, true, Some(FieldRows(lines, f)))
  {
    hide Strip, BeforeColon, AfterColon, Take;
    if lines == [] {
      assert lines + rest == rest;
    } else {
      assert (lines + rest)[0] == lines[0] && (lines + rest)[1..] == lines[1..] + rest;
      TransparentRows(lines[1..], rest, r, WithField(f, Strip(lines[0])));
    }
  }

  lemma TransparentBlock(b: seq<string>, rest: seq<string>, r: Transparent, current: Option<Fields>)
    requires Mapping(b)
    ensures TransparentIn(b + rest, r, true, current) == TransparentIn(rest, Take(r, current), true, Some(FieldsOf(b)))
  {
    hide Strip, WithField, Take;
    assert (b + rest)[0] == b[0] && (b + rest)[1..] == b[1..] + rest;
    TransparentRows(b[1..], rest, Take(r, current), WithField(map[], Strip(Strip(b[0])[2..])));
  }

  lemma TakeNamed(r: Transparent, f: Fields)
    ensures Take(r, Some(f)).redir == if Named(f, REDIR_NAME, "redir") then Some(f) else r.redir
    ensures Take(r, Some(f)).tproxy == if Named(f, TPROXY_NAME, "tproxy") then Some(f) else r.tproxy
  {
    hide Strip, Lower;
  }

  lemma {:induction false} TransparentBlocks(blocks: seq<seq<string>>, rest: seq<string>, r: Transparent,
                                             current: Option<Fields>)
    requires (forall b <- blocks :: Mapping(b)) && Ends(rest, LISTENERS)
    ensures var end, q := TransparentIn(Flat(blocks) + rest, r, true, current), Take(r, current);
      && end.redir == LastNamed(blocks, REDIR_NAME, "redir", q.redir)
      && end.tproxy == LastNamed(blocks, TPROXY_NAME, "tproxy", q.tproxy)
  {
    hide Strip, FieldsOf, Mapping, Named, Take;
    if blocks == [] {
      assert Flat(blocks) + rest == rest;
    } else {
      assert blocks[0] in blocks;
      assert Flat(blocks) + rest == blocks[0] + (Flat(blocks[1..]) + rest);
      TransparentBlock(blocks[0], Flat(blocks[1..]) + rest, r, current);
      TransparentBlocks(blocks[1..], rest, Take(r, current), Some(FieldsOf(blocks[0])));
      TakeNamed(Take(r, current), FieldsOf(blocks[0]));
    }
  }

  lemma {:induction false} TransparentBefore(before: seq<string>, rest: seq<string>)
    requires Headless(before, LISTENERS)
    requires rest != [] && StartsWith(rest[0], LISTENERS) && Strip(rest[0]) != "" && !Indented(rest[0])
    ensures TransparentIn(before + rest, NoListeners, false, None) == TransparentIn(rest[1..], NoListeners, true, None)
  {
    hide Strip;
    if before == [] {
      assert before + rest == rest;
    } else {
      assert (before + rest)[1..] == before[1..] + rest && (before + rest)[0] == before[0];
      TransparentBefore(before[1..], rest);
    }
  }

  /** MAIN: the scanner reports, of the listeners in the section, the last one with the name
      and the type of each transparent listener, with all its fields. */
  lemma TransparentAreTheLastNamed(before: seq<string>, header: string, blocks: seq<seq<string>>, rest: seq<string>)
    requires Headless(before, LISTENERS) && StartsWith(header, LISTENERS)
    requires (forall b <- blocks :: Mapping(b)) && Ends(rest, LISTENERS)
    ensures TransparentIn(before + [header] + Flat(blocks) + rest, NoListeners, false, None)
         == Transparent(LastNamed(blocks, REDIR_NAME, "redir", None), LastNamed(blocks, TPROXY_NAME, "tproxy", None))
  {
    hide Strip, LastNamed, Mapping, Flat, Ends;
    var section := [header] + Flat(blocks) + rest;
    assert before + [header] + Flat(blocks) + rest == before + section;
    HeaderIsNotBlank(header, LISTENERS);
    TransparentBefore(before, section);
    assert section[1..] == Flat(blocks) + rest;
    TransparentBlocks(blocks, rest, NoListeners, None);
    NothingToTake(NoListeners);
  }
}
