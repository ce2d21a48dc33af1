/** The four scanners of `mihomo.py` that read a few settings out of a configuration text
    without parsing it. */
module ConfigScan {
  import opened Outcomes
  import opened Text
  import opened ConfigLines

  predicate Indented(line: string) {
    line != "" && (line[0] == ' ' || line[0] == '\t')
  }

  /** What follows the first colon. */
  function AfterColon(s: string): string {
    if s == "" then "" else if s[0] == ':' then s[1..] else AfterColon(s[1..])
  }

  function BeforeColon(s: string): string {
    if s == "" || s[0] == ':' then "" else [s[0]] + BeforeColon(s[1..])
  }

  predicate Digits(s: string) {
    s != "" && forall i :: 0 <= i < |s| ==> '0' <= s[i] <= '9'
  }

  function Number(s: string): nat
    requires forall i :: 0 <= i < |s| ==> '0' <= s[i] <= '9'
  {
    if s == "" then 0 else 10 * Number(s[..|s| - 1]) + (s[|s| - 1] - '0') as nat
  }

  // ----- top-level scalars -----------------------------------------------------------------------------------

  /** Not a header line of the top level. */
  predicate Nested(line: string) {
    line == "" || Indented(line) || line[0] == '-'
  }

  predicate Heads(line: string, prefix: string) {
    !Nested(line) && StartsWith(line, prefix)
  }

  function Scalar(lines: seq<string>, prefix: string): Option<string> {
    if lines == [] then None
    else if Heads(lines[0], prefix) then Some(Strip(lines[0][|prefix|..]))
    else Scalar(lines[1..], prefix)
  }

  /** `_config_top_level_scalar`. */
  method TopLevelScalar(source: string, key: string) returns (r: Option<string>)
    ensures r == Scalar(SplitLines(source), key + ":")
  {
    var prefix := key + ":";
    var lines := new Lines.Configured(source, prefix);
    ScalarNeedsMarker(source, prefix);
    assert Scalar(lines.Left(), prefix) == Scalar(SplitLines(source), prefix);
    while true
      invariant lines.Valid() && fresh(lines)
      invariant Scalar(lines.Left(), prefix) == Scalar(SplitLines(source), prefix)
      decreases |lines.Left()|
    {
      var line := lines.Next();
      if line.None? {
        return None;
      }
      if line.value == "" || Indented(line.value) || line.value[0] == '-' {
        continue;
      }
      if StartsWith(line.value, prefix) {
        return Some(Strip(line.value[|prefix|..]));
      }
    }
  }

  /** No line starts like that. */
  ghost predicate Headless(lines: seq<string>, prefix: string) {
    forall i :: 0 <= i < |lines| ==> !StartsWith(lines[i], prefix)
  }

  lemma {:induction false} NoHeadNoScalar(lines: seq<string>, prefix: string)
    requires Headless(lines, prefix)
    ensures Scalar(lines, prefix) == None
  {
    if lines != [] {
      NoHeadNoScalar(lines[1..], prefix);
    }
  }

  lemma NoMarkerNoHead(source: string, marker: string)
    ensures Occurs(source, marker) || Headless(SplitLines(source), marker)
  {
    var lines := SplitLines(source);
    forall i | 0 <= i < |lines| && StartsWith(lines[i], marker) ensures Occurs(source, marker) {
      LinesAreInfixes(source, i, marker);
    }
  }

  lemma ScalarNeedsMarker(source: string, prefix: string)
    ensures !Occurs(source, prefix) ==> Scalar(SplitLines(source), prefix) == None
  {
    NoMarkerNoHead(source, prefix);
    if !Occurs(source, prefix) {
      NoHeadNoScalar(SplitLines(source), prefix);
    }
  }

  predicate IsFirstHead(lines: seq<string>, prefix: string, i: int) {
    0 <= i < |lines| && Heads(lines[i], prefix) && forall j :: 0 <= j < i ==> !Heads(lines[j], prefix)
  }

  /** MAIN: the scalar is what its first header line says, and there is none without one. */
  lemma {:induction false} ScalarIsTheFirstHead(lines: seq<string>, prefix: string)
    ensures Scalar(lines, prefix).None? <==> forall line <- lines :: !Heads(line, prefix)
    ensures forall i :: IsFirstHead(lines, prefix, i) ==>
      Scalar(lines, prefix) == Some(Strip(lines[i][|prefix|..]))
  {
    if lines != [] {
      ScalarIsTheFirstHead(lines[1..], prefix);
      assert forall line :: line in lines <==> line == lines[0] || line in lines[1..];
      forall i | IsFirstHead(lines, prefix, i)
        ensures Scalar(lines, prefix) == Some(Strip(lines[i][|prefix|..]))
      {
        if i > 0 {
          assert lines[1..][i - 1] == lines[i];
          assert forall j :: 0 <= j < i - 1 ==> lines[1..][j] == lines[j + 1];
          assert IsFirstHead(lines[1..], prefix, i - 1);
        }
      }
    }
  }

  // ----- the TUN switch ------------------------------------------------------------------------------------------

  const TUN: string := "tun:"
  const ENABLE: string := "enable:"

  predicate Truthy(value: string) {
    value in {"1", "true", "yes", "on"}
  }

  function Tun(lines: seq<string>, inside: bool): bool {
    if lines == [] then false
    else
      var line := lines[0];
      if Strip(line) == "" then Tun(lines[1..], inside)
      else if !Indented(line) then
        if inside && !StartsWith(line, TUN) then false else Tun(lines[1..], StartsWith(line, TUN))
      else if inside && StartsWith(Strip(line), ENABLE) then Truthy(Lower(Strip(AfterColon(Strip(line)))))
      else Tun(lines[1..], inside)
  }

  /** `_scan_tun_enabled`. */
  method ScanTunEnabled(source: string) returns (r: bool)
    ensures r == Tun(SplitLines(source), false)
  {
    hide Strip, Lower, AfterColon;
    var lines := new Lines.Configured(source, TUN);
    NoMarkerNoHead(source, TUN);
    if !Occurs(source, TUN) {
      TunNeedsHeader(SplitLines(source));
    }
    var inside := false;
    while true
      invariant lines.Valid() && fresh(lines)
      invariant Tun(lines.Left(), inside) == Tun(SplitLines(source), false)
      decreases |lines.Left()|
    {
      var next := lines.Next();
      if next.None? {
        return false;
      }
      var line := next.value;
      var stripped := Strip(line);
      if stripped == "" {
        continue;
      }
      if !Indented(line) {
        if inside && !StartsWith(line, TUN) {
          return false;
        }
        inside := StartsWith(line, TUN);
        continue;
      }
      if inside && StartsWith(stripped, ENABLE) {
        var value := Lower(Strip(AfterColon(stripped)));
        return value in {"1", "true", "yes", "on"};
      }
    }
  }

  lemma {:induction false} TunNeedsHeader(lines: seq<string>)
    requires Headless(lines, TUN)
    ensures !Tun(lines, false)
  {
    hide Strip;
    if lines != [] {
      TunNeedsHeader(lines[1..]);
    }
  }

  // ----- the ports of the listeners ---------------------------------------------------------------------------------

  const LISTENERS: string := "listeners:"
  const TYPE: string := "type:"
  const PORT: string := "port:"
  const DASH: string := "- "

  datatype Ports = Ports(mixed: Option<int>, tproxy: Option<int>, redir: Option<int>)
  const NoPorts := Ports(None, None, None)

  /** The listener that is being read. */
  datatype Entry = Entry(kind: Option<string>, port: Option<int>)
  const NoEntry := Entry(None, None)

  function Commit(p: Ports, e: Entry): Ports {
    if e.kind == Some("mixed") && p.mixed.None? then p.(mixed := e.port)
    else if e.kind == Some("tproxy") && p.tproxy.None? then p.(tproxy := e.port)
    else if e.kind == Some("redir") && p.redir.None? then p.(redir := e.port)
    else p
  }

  /** A line of a listener. */
  function Reading(e: Entry, text: string): Entry {
    if StartsWith(text, TYPE) then e.(kind := Some(Lower(Strip(AfterColon(text)))))
    else if StartsWith(text, PORT) then
      var value := Strip(AfterColon(text));
      e.(port := if Digits(value) then Some(Number(value)) else None)
    else e
  }

  function PortsIn(lines: seq<string>, p: Ports, inside: bool, e: Entry): Ports {
    if lines == [] then if inside then Commit(p, e) else p
    else
      var line := lines[0];
      if Strip(line) == "" then PortsIn(lines[1..], p, inside, e)
      else if inside && StartsWith(line, DASH) then
        PortsIn(lines[1..], Commit(p, e), inside, Reading(NoEntry, Strip(line[2..])))
      else if !Indented(line) then
        if inside && !StartsWith(line, LISTENERS) then Commit(p, e)
        else PortsIn(lines[1..], p, StartsWith(line, LISTENERS), NoEntry)
      else if inside then PortsIn(lines[1..], p, inside, Reading(e, Strip(line)))
      else PortsIn(lines[1..], p, inside, e)
  }

  lemma CommitTwice(p: Ports, e: Entry)
    ensures Commit(Commit(p, e), e) == Commit(p, e)
  {
  }

  /** `_scan_listener_ports`. */
  method ScanListenerPorts(source: string) returns (r: Ports)
    ensures r == PortsIn(SplitLines(source), NoPorts, false, NoEntry)
  {
    hide Strip, Lower, AfterColon, Number, Commit, Reading;
    var lines := new Lines.Configured(source, LISTENERS);
    NoMarkerNoHead(source, LISTENERS);
    if !Occurs(source, LISTENERS) {
      PortsNeedHeader(SplitLines(source), NoEntry);
    }
    var ports, inside, entry := NoPorts, false, NoEntry;
    while true
      invariant lines.Valid() && fresh(lines)
      invariant PortsIn(lines.Left(), ports, inside, entry) == PortsIn(SplitLines(source), NoPorts, false, NoEntry)
      decreases |lines.Left()|
    {
      var next := lines.Next();
      if next.None? {
        break;
      }
      var line := next.value;
      var stripped := Strip(line);
      if stripped == "" {
        continue;
      }
      if inside && StartsWith(line, DASH) {
        ports := Commit(ports, entry);
        entry := Reading(NoEntry, Strip(line[2..]));
        continue;
      }
      if !Indented(line) {
        if inside && !StartsWith(line, LISTENERS) {
          CommitTwice(ports, entry);
          ports := Commit(ports, entry);
          break;
        }
        inside, entry := StartsWith(line, LISTENERS), NoEntry;
        continue;
      }
      if inside {
        entry := Reading(entry, stripped);
      }
    }
    if inside {
      ports := Commit(ports, entry);
    }
    return ports;
  }

  lemma {:induction false} PortsNeedHeader(lines: seq<string>, e: Entry)
    requires Headless(lines, LISTENERS)
    ensures PortsIn(lines, NoPorts, false, e) == NoPorts
  {
    hide Strip;
    if lines != [] {
      PortsNeedHeader(lines[1..], e);
      PortsNeedHeader(lines[1..], NoEntry);
    }
  }

  // ----- the transparent listeners --------------------------------------------------------------------------

  const REDIR_NAME: string := "fwrouter-redir"
  const TPROXY_NAME: string := "fwrouter-tproxy"

  type Fields = map<string, string>

  datatype Transparent = Transparent(redir: Option<Fields>, tproxy: Option<Fields>)
  const NoListeners := Transparent(None, None)

  function FieldOr(f: Fields, key: string): string {
    if key in f then f[key] else ""
  }

  function Take(r: Transparent, current: Option<Fields>): Transparent {
    if current.None? then r
    else
      var name := Strip(FieldOr(current.value, "name"));
      var kind := Lower(Strip(FieldOr(current.value, "type")));
      if name == REDIR_NAME && kind == "redir" then r.(redir := current)
      else if name == TPROXY_NAME && kind == "tproxy" then r.(tproxy := current)
      else r
  }

  function WithField(f: Fields, text: string): Fields {
    if ':' in text then f[Strip(BeforeColon(text)) := Strip(AfterColon(text))] else f
  }

  function TransparentIn(lines: seq<string>, r: Transparent, inside: bool, current: Option<Fields>): Transparent {
    if lines == [] then Take(r, current)
    else
      var line := lines[0];
      var stripped := Strip(line);
      if stripped == "" then TransparentIn(lines[1..], r, inside, current)
      else if inside && StartsWith(stripped, DASH) then
        TransparentIn(lines[1..], Take(r, current), inside, Some(WithField(map[], Strip(stripped[2..]))))
      else if !Indented(line) then
        if inside && !StartsWith(line, LISTENERS) then Take(r, current)
        else TransparentIn(lines[1..], r, StartsWith(line, LISTENERS), None)
      else if inside && current.Some? then
        TransparentIn(lines[1..], r, inside, Some(WithField(current.value, stripped)))
      else TransparentIn(lines[1..], r, inside, current)
  }

  lemma TakeTwice(r: Transparent, current: Option<Fields>)
    ensures Take(Take(r, current), current) == Take(r, current)
  {
  }

  /** `_scan_transparent_listeners`. */
  method ScanTransparentListeners(source: string) returns (r: Transparent)
    ensures r == TransparentIn(SplitLines(source), NoListeners, false, None)
  {
    hide Strip, Lower, AfterColon, BeforeColon, Take;
    var lines := new Lines.Configured(source, LISTENERS);
    NoMarkerNoHead(source, LISTENERS);
    if !Occurs(source, LISTENERS) {
      TransparentNeedsHeader(SplitLines(source));
    }
    NothingToTake(NoListeners);
    var inside := false;
    var current: Option<Fields> := None;
    r := NoListeners;
    while true
      invariant lines.Valid() && fresh(lines)
      invariant TransparentIn(lines.Left(), r, inside, current) == TransparentIn(SplitLines(source), NoListeners,
        false, None)
      decreases |lines.Left()|
    {
      var next := lines.Next();
      if next.None? {
        break;
      }
      var line := next.value;
      var stripped := Strip(line);
      if stripped == "" {
        continue;
      }
      if inside && StartsWith(stripped, DASH) {
        r := Take(r, current);
        current := Some(WithField(map[], Strip(stripped[2..])));
        continue;
      }
      if !Indented(line) {
        if inside && !StartsWith(line, LISTENERS) {
          TakeTwice(r, current);
          r := Take(r, current);
          break;
        }
        inside, current := StartsWith(line, LISTENERS), None;
        continue;
      }
      if !inside || current.None? || ':' !in stripped {
        continue;
      }
      current := Some(current.value[Strip(BeforeColon(stripped)) := Strip(AfterColon(stripped))]);
    }
    r := Take(r, current);
  }

  lemma NothingToTake(r: Transparent)
    ensures Take(r, None) == r
  {
  }

  lemma {:induction false} TransparentNeedsHeader(lines: seq<string>)
    requires Headless(lines, LISTENERS)
    ensures TransparentIn(lines, NoListeners, false, None) == NoListeners
  {
    hide Strip;
    if lines != [] {
      TransparentNeedsHeader(lines[1..]);
    }
  }
}
