/** The lines of a configuration text, as `mihomo.py` walks through them: all at once, or one
    at a time when the text allows it. */
module ConfigLines {
  import opened Outcomes
  import opened Text

  const PREFIX: nat := 32 * 1024

  // ----- lines ------------------------------------------------------------------------------------------

  /** The characters that end a line for str.splitlines. */
  predicate Boundary(c: char) {
    '\n' <= c <= '\r' || '\U{1c}' <= c <= '\U{1e}' || c == '\U{85}' || c == '\U{2028}' || c == '\U{2029}'
  }

  /** How long the first line is. */
  function LineLength(s: string): (n: nat)
    ensures n <= |s|
  {
    if s == "" || Boundary(s[0]) then 0 else 1 + LineLength(s[1..])
  }

  /** How much of the text the first line and what ends it take. */
  function LineSpan(s: string): (n: nat)
    requires s != ""
    ensures 0 < n <= |s|
  {
    var n := LineLength(s);
    if n == |s| then n
    else if s[n] == '\r' && n + 1 < |s| && s[n + 1] == '\n' then n + 2
    else n + 1
  }

  /** `str.splitlines`. */
  function SplitLines(s: string): seq<string>
    decreases |s|
  {
    if s == "" then [] else [s[..LineLength(s)]] + SplitLines(s[LineSpan(s)..])
  }

  const FEEDS := "\n\U{0b}\U{0c}\U{1c}\U{1d}\U{1e}\U{85}\U{2028}\U{2029}"

  /** What may end a line that is written out. */
  predicate LineEnd(end: string) {
    end == "\r\n" || (|end| == 1 && end[0] in FEEDS)
  }

  predicate OneLine(line: string) {
    forall i :: 0 <= i < |line| ==> line[i] != '\r' && line[i] !in FEEDS
  }

  function WrittenLines(lines: seq<string>, ends: seq<string>): string
    requires |ends| == |lines|
  {
    if lines == [] then "" else lines[0] + ends[0] + WrittenLines(lines[1..], ends[1..])
  }

  lemma {:induction false} LineLengthWritten(line: string, rest: string)
    requires OneLine(line) && rest != "" && (rest[0] == '\r' || rest[0] in FEEDS)
    ensures LineLength(line + rest) == |line|
  {
    if line == "" {
      assert line + rest == rest;
    } else {
      assert (line + rest)[0] == line[0] && (line + rest)[1..] == line[1..] + rest;
      LineLengthWritten(line[1..], rest);
    }
  }

  lemma FirstWritten(line: string, end: string, rest: string)
    requires OneLine(line) && LineEnd(end)
    ensures SplitLines(line + end + rest) == [line] + SplitLines(rest)
  {
    var s := line + end + rest;
    assert s == line + (end + rest);
    LineLengthWritten(line, end + rest);
    hide LineLength, OneLine;
    assert s[..|line|] == line && s[|line|] == end[0];
    assert |end| == 2 ==> s[|line| + 1] == end[1];
    assert s[|line| + |end|..] == rest;
  }

  /** Lines written out with any line ends are split into the same lines. */
  lemma {:induction false} SplitReadsBack(lines: seq<string>, ends: seq<string>)
    requires |ends| == |lines| && (forall line <- lines :: OneLine(line)) && forall end <- ends :: LineEnd(end)
    ensures SplitLines(WrittenLines(lines, ends)) == lines
  {
    hide LineLength, OneLine, LineEnd;
    if lines != [] {
      assert lines[0] in lines && ends[0] in ends;
      FirstWritten(lines[0], ends[0], WrittenLines(lines[1..], ends[1..]));
      SplitReadsBack(lines[1..], ends[1..]);
    }
  }

  // ----- finding ------------------------------------------------------------------------------------------

  ghost predicate Occurs(s: string, marker: string) {
    exists i :: 0 <= i <= |s| && StartsWith(s[i..], marker)
  }

  /** `str.find`: where the first occurrence is. */
  function Find(s: string, marker: string): Option<nat> {
    if StartsWith(s, marker) then Some(0)
    else if s == "" then None
    else
      match Find(s[1..], marker)
      case None => None
      case Some(n) => Some(n + 1)
  }

  lemma {:induction false} FindFinds(s: string, marker: string)
    ensures Find(s, marker).Some? <==> Occurs(s, marker)
    ensures Find(s, marker).Some? ==> Find(s, marker).value <= |s|
  {
    if StartsWith(s, marker) {
      assert s[0..] == s;
    } else if s != "" {
      FindFinds(s[1..], marker);
      if Occurs(s, marker) {
        var i :| 0 <= i <= |s| && StartsWith(s[i..], marker);
        assert i > 0 by {
          assert s[0..] == s;
        }
        assert s[1..][i - 1..] == s[i..];
        assert Occurs(s[1..], marker);
      }
      if Occurs(s[1..], marker) {
        var i :| 0 <= i <= |s[1..]| && StartsWith(s[1..][i..], marker);
        assert s[1..][i..] == s[i + 1..];
      }
    } else {
      assert s[0..] == s;
    }
  }

  lemma OccursInRest(s: string, n: nat, marker: string)
    requires n <= |s| && Occurs(s[n..], marker)
    ensures Occurs(s, marker)
  {
  }

  /** A line that starts with the marker shows that the text has it. */
  lemma {:induction false} LinesAreInfixes(s: string, i: nat, marker: string)
    requires i < |SplitLines(s)| && StartsWith(SplitLines(s)[i], marker)
    ensures Occurs(s, marker)
    decreases |s|
  {
    if i == 0 {
      assert s[0..] == s && s[..LineLength(s)][..|marker|] == s[..|marker|];
    } else {
      LinesAreInfixes(s[LineSpan(s)..], i - 1, marker);
      OccursInRest(s, LineSpan(s), marker);
    }
  }

  // ----- the iterator ---------------------------------------------------------------------------------------

  /** Where nothing but a line feed ends a line. */
  predicate Plain(s: string) {
    forall i :: 0 <= i < |s| ==> s[i] < '\U{80}' && s[i] !in "\r\U{0b}\U{0c}\U{1c}\U{1d}\U{1e}"
  }

  /** `text.find("\n", start)`, or the end of the text. */
  method FindLineFeed(text: string, start: nat) returns (n: nat)
    requires start <= |text|
    ensures start <= n <= |text| && (n < |text| ==> text[n] == '\n')
    ensures '\n' !in text[start..n]
  {
    n := start;
    while n < |text| && text[n] != '\n'
      invariant start <= n <= |text| && '\n' !in text[start..n]
    {
      n := n + 1;
    }
  }

  lemma {:induction false} PlainLine(s: string, n: nat)
    requires n <= |s| && Plain(s) && '\n' !in s[..n] && (n < |s| ==> s[n] == '\n')
    ensures LineLength(s) == n
  {
    if n > 0 {
      assert s[0] == s[..n][0] && s[1..][..n - 1] == s[..n][1..];
      PlainLine(s[1..], n - 1);
    }
  }

  lemma NothingToSplit()
    ensures SplitLines("") == []
  {
  }

  /** Up to a line feed is the first line. */
  lemma PlainSplit(s: string, n: nat)
    requires s != "" && n <= |s| && Plain(s) && '\n' !in s[..n] && (n < |s| ==> s[n] == '\n')
    ensures SplitLines(s) == [s[..n]] + SplitLines(s[if n < |s| then n + 1 else n..])
  {
    PlainLine(s, n);
    hide LineLength, Plain;
    SplitStep(s);
    hide SplitLines;
    assert LineSpan(s) == if n < |s| then n + 1 else n;
  }

  lemma SplitStep(s: string)
    requires s != ""
    ensures SplitLines(s) == [s[..LineLength(s)]] + SplitLines(s[LineSpan(s)..])
  {
    hide LineLength, LineSpan;
  }

  /** What a scanner iterates over. */
  class Lines {
    const text: string
    const lazily: bool
    var start: nat
    var pending: seq<string>

    ghost predicate Valid()
      reads this
    {
      lazily ==> start <= |text| && Plain(text)
    }

    /** The lines still to come. */
    ghost function Left(): seq<string>
      reads this
      requires Valid()
    {
      if lazily then SplitLines(text[start..]) else pending
    }

    /** `_iter_config_lines`. */
    constructor Iterate(source: string)
      ensures Valid() && Left() == SplitLines(source)
      ensures text == source && start == 0
    {
      text := source;
      start := 0;
      if source == "" {
        lazily := false;
        pending := [];
      } else if |source| <= PREFIX || !Plain(source) {
        lazily := false;
        pending := SplitLines(source);
      } else {
        lazily := true;
        pending := [];
      }
      new;
      assert source[0..] == source;
    }

    /** `_configured_scan_lines`. */
    constructor Configured(source: string, marker: string)
      ensures Valid() && Left() == if Occurs(source, marker) then SplitLines(source) else []
    {
      text := source;
      start := 0;
      var offset := Find(source, marker);
      FindFinds(source, marker);
      if offset.None? {
        lazily := false;
        pending := [];
      } else if offset.value > PREFIX || (offset.value > 0 && source[offset.value - 1] != '\n') {
        lazily := false;
        pending := SplitLines(source);
      } else {
        var inner := new Lines.Iterate(source);
        lazily := inner.lazily;
        pending := inner.pending;
      }
      new;
      assert source[0..] == source;
    }

    /** The next line, if there is one. */
    method Next() returns (line: Option<string>)
      requires Valid()
      modifies this
      ensures Valid()
      ensures old(Left()) == if line.None? then [] else [line.value] + Left()
      ensures line.Some? ==> |Left()| < |old(Left())|
    {
      hide SplitLines;
      NothingToSplit();
      if !lazily {
        if pending == [] {
          return None;
        }
        line := Some(pending[0]);
        pending := pending[1..];
        return;
      }
      if start == |text| {
        assert text[start..] == "";
        return None;
      }
      var n := FindLineFeed(text, start);
      ghost var rest := text[start..];
      assert rest[..n - start] == text[start..n];
      PlainSplit(rest, n - start);
      line := Some(text[start..n]);
      if n < |text| {
        assert rest[n + 1 - start..] == text[n + 1..];
        start := n + 1;
      } else {
        assert rest[n - start..] == text[n..];
        start := n;
      }
    }
  }

  /** MAIN: walking through any text line by line gives the lines of str.splitlines. */
  method Collect(source: string) returns (lines: seq<string>)
    ensures lines == SplitLines(source)
  {
    hide SplitLines, Plain;
    var it := new Lines.Iterate(source);
    lines := [];
    var line := None;
    while true
      invariant it.Valid() && lines + it.Left() == SplitLines(source)
      invariant fresh(it)
      decreases |it.Left()|
    {
      line := it.Next();
      if line.None? {
        return;
      }
      lines := lines + [line.value];
    }
  }
}
