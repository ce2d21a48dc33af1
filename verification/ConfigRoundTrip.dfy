/** What the scanners read of a configuration text in which the settings are written out:
    the very settings that were written. */
module ConfigRoundTrip {
  import opened Outcomes
  import opened Text
  import opened ConfigLines
  import opened ConfigScan
  import opened ConfigSections
  import UiRecords

  // ----- words and fields ---------------------------------------------------------------------------

  /** A value that needs no quotes. */
  predicate Word(s: string) {
    s != "" && forall i :: 0 <= i < |s| ==> 'a' <= s[i] <= 'z' || '0' <= s[i] <= '9' || s[i] == '-' || s[i] == '.'
  }

  lemma StripAround(a: string, t: string)
    requires forall i :: 0 <= i < |a| ==> Space(a[i])
    requires t != "" && !Space(t[0]) && !Space(t[|t| - 1])
    ensures Strip(a + t) == t
  {
    var s := a + t;
    var i, j := StripExactly(s);
    assert s[|a|] == t[0] && s[|s| - 1] == t[|t| - 1];
    assert forall x :: 0 <= x < |a| ==> Space(s[x]);
    assert i == |a| && j == |s|;
    assert s[|a|..] == t;
  }

  lemma WordStays(w: string)
    requires Word(w)
    ensures Lower(w) == w && Strip(" " + w) == w && Strip(w) == w && ':' !in w
  {
    hide Strip;
    WordHasNoSpace(w);
    StripAround(" ", w);
    StripAround("", w);
    hide Word;
    assert "" + w == w;
  }

  lemma WordHasNoSpace(w: string)
    requires Word(w)
    ensures !Space(w[0]) && !Space(w[|w| - 1]) && ':' !in w && Lower(w) == w
  {
  }

  lemma {:induction false} AtColon(key: string, value: string)
    requires ':' !in key
    ensures BeforeColon(key + ":" + value) == key && AfterColon(key + ":" + value) == value
  {
    var s := key + ":" + value;
    if key == "" {
      assert s == ":" + value;
    } else {
      AtColon(key[1..], value);
      assert s[1..] == key[1..] + ":" + value;
    }
  }

  /** A field as it is written. */
  function Field(key: string, value: string): string {
    key + ":" + (" " + value)
  }

  lemma FieldStrips(key: string, value: string)
    requires Word(key) && Word(value)
    ensures Strip("  " + Field(key, value)) == Strip(Field(key, value)) == Field(key, value)
    ensures Indented("  " + Field(key, value)) && !StartsWith(Field(key, value), DASH)
  {
    hide Strip;
    var text := Field(key, value);
    assert text[0] == key[0] && text[|text| - 1] == value[|value| - 1];
    StripAround("  ", text);
    StripAround("", text);
    assert "" + text == text;
    assert text[1] == if |key| > 1 then key[1] else ':';
    assert DASH[1] == ' ';
  }

  lemma FieldReadsBack(key: string, value: string, f: Fields)
    requires Word(key) && Word(value)
    ensures WithField(f, Field(key, value)) == f[key := value]
    ensures Strip(AfterColon(Field(key, value))) == value && StartsWith(Field(key, value), key + ":")
    ensures Strip("  " + Field(key, value)) == Strip(Field(key, value)) == Field(key, value)
    ensures Indented("  " + Field(key, value)) && !StartsWith(Field(key, value), DASH)
  {
    FieldStrips(key, value);
    hide Strip, Indented;
    var text := Field(key, value);
    WordStays(key);
    WordStays(value);
    AtColon(key, " " + value);
    assert text[|key|] == ':';
    assert text[..|key| + 1] == key + ":";
  }

  // ----- numbers -----------------------------------------------------------------------------------------

  /** The decimal numeral of a port is read as that port. */
  lemma {:induction false} NumberReadsBack(n: nat)
    ensures var s := UiRecords.Numeral(n, 10); Digits(s) && Number(s) == n && Word(s)
  {
    var s := UiRecords.Numeral(n, 10);
    if n >= 10 {
      NumberReadsBack(n / 10);
      assert s[..|s| - 1] == UiRecords.Numeral(n / 10, 10);
    } else {
      assert s[..|s| - 1] == "";
    }
  }

  // ----- listeners ----------------------------------------------------------------------------------------

  datatype Listener = Listener(name: string, kind: string, port: nat, listen: string)

  predicate Plain(l: Listener) {
    Word(l.name) && Word(l.kind) && Word(l.listen)
  }

  function Written(l: Listener): seq<string> {
    [DASH + Field("name", l.name), "  " + Field("type", l.kind), "  " + Field("port", UiRecords.Numeral(l.port, 10)),
     "  " + Field("listen", l.listen)]
  }

  function AllWritten(listeners: seq<Listener>): seq<seq<string>> {
    seq(|listeners|, i requires 0 <= i < |listeners| => Written(listeners[i]))
  }

  function FieldMap(l: Listener): Fields {
    map["name" := l.name, "type" := l.kind, "port" := UiRecords.Numeral(l.port, 10), "listen" := l.listen]
  }

  lemma FirstLine(name: string)
    requires Word(name)
    ensures var b := DASH + Field("name", name);
      && StartsWith(b, DASH) && Strip(b) == b && Strip(b[2..]) == b[2..] == Field("name", name)
  {
    hide Strip;
    FieldStrips("name", name);
    WordHasNoSpace(name);
    hide Word;
    var b := DASH + Field("name", name);
    assert b[2..] == Field("name", name) && b[..2] == DASH;
    assert b[|b| - 1] == name[|name| - 1];
    StripAround("", b);
    assert "" + b == b;
  }

  lemma ReadingField(e: Entry, value: string, port: nat)
    requires Word(value)
    ensures Reading(e, Field("type", value)) == e.(kind := Some(value))
    ensures Reading(e, Field("port", UiRecords.Numeral(port, 10))) == e.(port := Some(port))
    ensures Reading(e, Field("name", value)) == Reading(e, Field("listen", value)) == e
  {
    hide Strip, AfterColon, Number, UiRecords.Numeral;
    NumberReadsBack(port);
    FieldReadsBack("type", value, map[]);
    FieldReadsBack("port", UiRecords.Numeral(port, 10), map[]);
    WordStays(value);
    assert Field("port", UiRecords.Numeral(port, 10))[0] == 'p';
    assert Field("name", value)[0] == 'n' && Field("listen", value)[0] == 'l' && TYPE[0] == 't' && PORT[0] == 'p';
  }

  lemma WrittenFields(l: Listener)
    requires Plain(l)
    ensures var b := Written(l);
      && (forall i :: 1 <= i < 4 ==> Indented(b[i]) && !StartsWith(Strip(b[i]), DASH))
      && Strip(b[1]) == Field("type", l.kind) && Strip(b[2]) == Field("port", UiRecords.Numeral(l.port, 10))
      && Strip(b[3]) == Field("listen", l.listen)
  {
    hide Strip, Field, StartsWith, Indented, UiRecords.Numeral;
    NumberReadsBack(l.port);
    FieldReadsBack("type", l.kind, map[]);
    FieldReadsBack("port", UiRecords.Numeral(l.port, 10), map[]);
    FieldReadsBack("listen", l.listen, map[]);
  }

  lemma WrittenEntry(l: Listener)
    requires Plain(l)
    ensures Block(Written(l)) && EntryOf(Written(l)) == Entry(Some(l.kind), Some(l.port))
  {
    hide Strip, Field, StartsWith, Indented, UiRecords.Numeral, Reading;
    var b := Written(l);
    WrittenFields(l);
    FirstLine(l.name);
    ReadingField(NoEntry, l.name, l.port);
    ReadingField(NoEntry, l.kind, l.port);
    var typed := Entry(Some(l.kind), None);
    ReadingField(typed, l.kind, l.port);
    ReadingField(typed.(port := Some(l.port)), l.listen, l.port);
    assert b[1..][1..] == b[2..] && b[2..][1..] == b[3..] && b[3..][1..] == [];
    assert Rows([], typed.(port := Some(l.port))) == typed.(port := Some(l.port));
    assert Rows(b[3..], typed.(port := Some(l.port))) == typed.(port := Some(l.port));
    assert Rows(b[2..], typed) == typed.(port := Some(l.port));
    assert Rows(b[1..], NoEntry) == typed.(port := Some(l.port));
  }

  lemma WrittenMapping(l: Listener)
    requires Plain(l)
    ensures Mapping(Written(l)) && FieldsOf(Written(l)) == FieldMap(l)
  {
    hide Strip, Field, StartsWith, Indented, UiRecords.Numeral, WithField;
    var b, number := Written(l), UiRecords.Numeral(l.port, 10);
    WrittenFields(l);
    FirstLine(l.name);
    NumberReadsBack(l.port);
    var f1 := map["name" := l.name];
    var f2 := f1["type" := l.kind];
    var f3 := f2["port" := number];
    FieldReadsBack("name", l.name, map[]);
    FieldReadsBack("type", l.kind, f1);
    FieldReadsBack("port", number, f2);
    FieldReadsBack("listen", l.listen, f3);
    assert b[1..][1..] == b[2..] && b[2..][1..] == b[3..] && b[3..][1..] == [];
    assert FieldRows(b[3..], f3) == f3["listen" := l.listen];
    assert FieldRows(b[2..], f2) == f3["listen" := l.listen];
    assert FieldRows(b[1..], f1) == f3["listen" := l.listen];
  }

  // ----- the scanners -----------------------------------------------------------------------------------------

  lemma AllWrittenAre(listeners: seq<Listener>)
    requires forall l :: l in listeners ==> Plain(l)
    ensures forall b <- AllWritten(listeners) :: Block(b) && Mapping(b)
  {
    hide Block, Mapping;
    forall i | 0 <= i < |listeners|
      ensures Block(AllWritten(listeners)[i]) && Mapping(AllWritten(listeners)[i])
    {
      WrittenEntry(listeners[i]);
      WrittenMapping(listeners[i]);
    }
  }

  /** The port of the first listener of the kind. */
  predicate IsFirstPort(listeners: seq<Listener>, kind: string, port: Option<int>) {
    match port
    case None => forall i :: 0 <= i < |listeners| ==> listeners[i].kind != kind
    case Some(n) =>
      exists i :: 0 <= i < |listeners| && listeners[i].kind == kind && listeners[i].port == n
        && forall j :: 0 <= j < i ==> listeners[j].kind != kind
  }

  lemma {:induction false} FirstPortWritten(listeners: seq<Listener>, kind: string)
    requires forall l :: l in listeners ==> Plain(l)
    ensures forall b <- AllWritten(listeners) :: Block(b)
    ensures IsFirstPort(listeners, kind, FirstPort(AllWritten(listeners), kind))
  {
    hide Block, EntryOf, Written;
    AllWrittenAre(listeners);
    if listeners != [] {
      var rest := listeners[1..];
      FirstPortWritten(rest, kind);
      assert AllWritten(listeners)[1..] == AllWritten(rest);
      WrittenEntry(listeners[0]);
      if listeners[0].kind != kind {
        var n := FirstPort(AllWritten(rest), kind);
        if n.Some? {
          var i :| 0 <= i < |rest| && rest[i].kind == kind && rest[i].port == n.value
            && forall j :: 0 <= j < i ==> rest[j].kind != kind;
          assert listeners[i + 1] == rest[i];
          assert forall j :: 0 < j < i + 1 ==> listeners[j] == rest[j - 1];
        } else {
          assert forall i :: 0 < i < |listeners| ==> listeners[i] == rest[i - 1];
        }
      }
    }
  }

  /** MAIN: of listeners written out in a configuration, whatever surrounds them, the scan
      reports for each kind the port of the first one. */
  lemma WrittenPortsAreRead(before: seq<string>, listeners: seq<Listener>, rest: seq<string>)
    requires (forall l :: l in listeners ==> Plain(l)) && Headless(before, "listeners:") && Ends(rest, "listeners:")
    ensures var p := PortsIn(before + ["listeners:"] + Flat(AllWritten(listeners)) + rest, NoPorts, false, NoEntry);
      && IsFirstPort(listeners, "mixed", p.mixed) && IsFirstPort(listeners, "tproxy", p.tproxy)
      && IsFirstPort(listeners, "redir", p.redir)
  {
    hide Flat, PortsIn, FirstPort, AllWritten, Block, IsFirstPort, Ends, Headless;
    FirstPortWritten(listeners, "mixed");
    FirstPortWritten(listeners, "tproxy");
    FirstPortWritten(listeners, "redir");
    PortsAreTheFirstOfEachKind(before, "listeners:", AllWritten(listeners), rest);
  }

  predicate IsNamed(l: Listener, name: string, kind: string) {
    l.name == name && l.kind == kind
  }

  lemma FieldMapNamed(l: Listener, name: string, kind: string)
    requires Plain(l)
    ensures Named(FieldMap(l), name, kind) <==> IsNamed(l, name, kind)
  {
    hide Strip, Lower, UiRecords.Numeral;
    WordStays(l.name);
    WordStays(l.kind);
  }

  lemma {:induction false} LastWritten(listeners: seq<Listener>, name: string, kind: string, otherwise: Option<Fields>)
    requires forall l :: l in listeners ==> Plain(l)
    ensures forall b <- AllWritten(listeners) :: Mapping(b)
    ensures var f := LastNamed(AllWritten(listeners), name, kind, otherwise);
      if forall i :: 0 <= i < |listeners| ==> !IsNamed(listeners[i], name, kind) then f == otherwise
      else
        exists i :: 0 <= i < |listeners| && IsNamed(listeners[i], name, kind) && f == Some(FieldMap(listeners[i]))
          && forall j :: i < j < |listeners| ==> !IsNamed(listeners[j], name, kind)
  {
    hide Mapping, FieldsOf, Written, FieldMap, Named, IsNamed;
    AllWrittenAre(listeners);
    if listeners != [] {
      var rest := listeners[1..];
      WrittenMapping(listeners[0]);
      FieldMapNamed(listeners[0], name, kind);
      var f := FieldMap(listeners[0]);
      var next := if Named(f, name, kind) then Some(f) else otherwise;
      LastWritten(rest, name, kind, next);
      assert AllWritten(listeners)[1..] == AllWritten(rest);
      assert forall i :: 0 < i < |listeners| ==> listeners[i] == rest[i - 1];
      if i :| 0 <= i < |rest| && IsNamed(rest[i], name, kind) &&
              LastNamed(AllWritten(rest), name, kind, next) == Some(FieldMap(rest[i])) &&
              forall j :: i < j < |rest| ==> !IsNamed(rest[j], name, kind) {
        assert listeners[i + 1] == rest[i];
        assert forall j :: i + 1 < j < |listeners| ==> listeners[j] == rest[j - 1];
      }
    }
  }

  /** The fields of the last listener of that name and kind. */
  predicate IsLastNamed(listeners: seq<Listener>, name: string, kind: string, fields: Option<Fields>) {
    if forall i :: 0 <= i < |listeners| ==> !IsNamed(listeners[i], name, kind) then fields == None
    else
      exists i :: 0 <= i < |listeners| && IsNamed(listeners[i], name, kind) && fields == Some(FieldMap(listeners[i]))
        && forall j :: i < j < |listeners| ==> !IsNamed(listeners[j], name, kind)
  }

  /** MAIN: and of the transparent listeners the last of each name and kind, with its four fields. */
  lemma WrittenTransparentAreRead(before: seq<string>, listeners: seq<Listener>, rest: seq<string>)
    requires (forall l :: l in listeners ==> Plain(l)) && Headless(before, "listeners:") && Ends(rest, "listeners:")
    ensures
      var r := TransparentIn(before + ["listeners:"] + Flat(AllWritten(listeners)) + rest, NoListeners, false, None);
      && IsLastNamed(listeners, "fwrouter-redir", "redir", r.redir)
      && IsLastNamed(listeners, "fwrouter-tproxy", "tproxy", r.tproxy)
  {
    hide Flat, TransparentIn, LastNamed, AllWritten, Mapping, Ends, Headless;
    LastWritten(listeners, "fwrouter-redir", "redir", None);
    LastWritten(listeners, "fwrouter-tproxy", "tproxy", None);
    TransparentAreTheLastNamed(before, "listeners:", AllWritten(listeners), rest);
  }

  /** MAIN: a written switch is on exactly if its value is one of four words. */
  lemma WrittenSwitchIsRead(before: seq<string>, value: string, rest: seq<string>)
    requires Word(value) && Headless(before, "tun:") && Ends(rest, "tun:")
    ensures Tun(before + ["tun:"] + ["  " + Field("enable", value)] + rest, false)
       <==> value == "1" || value == "true" || value == "yes" || value == "on"
  {
    hide Strip, AfterColon, Tun, Ends, Field;
    var line := "  " + Field("enable", value);
    FieldReadsBack("enable", value, map[]);
    WordStays(value);
    assert Switch([line]) == Some(Truthy(value));
    TunIsTheSwitch(before, "tun:", [line], rest);
  }

  /** MAIN: a written scalar at the left margin is read back, unless an earlier line there starts
      with the same key. */
  lemma WrittenScalarIsRead(before: seq<string>, key: string, value: string, rest: seq<string>)
    requires Word(key) && key[0] != '-' && Word(value)
    requires forall line <- before :: line != "" && StartsWith(line, key + ":") ==> line[0] in " \t-"
    ensures Scalar(before + [Field(key, value)] + rest, key + ":") == Some(value)
  {
    hide Strip;
    var lines, i := before + [Field(key, value)] + rest, |before|;
    FieldReadsBack(key, value, map[]);
    WordStays(value);
    assert lines[i] == Field(key, value) && lines[i][0] == key[0];
    assert lines[i][|key + ":"|..] == " " + value;
    forall j | 0 <= j < i ensures !Heads(lines[j], key + ":") {
      assert lines[j] == before[j] && before[j] in before;
    }
    assert IsFirstHead(lines, key + ":", i);
    ScalarIsTheFirstHead(lines, key + ":");
  }
}
