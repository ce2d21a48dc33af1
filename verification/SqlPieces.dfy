/** The normal form of SQL written down piece by piece: it shows the pieces, and neither the
    white space between them nor the quotes around identifiers. */
module SqlPieces {
  import opened Outcomes
  import opened Text
  import opened SchemaSql

  /** A word, a quoted identifier with the quote it opens with, or a string literal. */
  datatype Piece = Plain(text: string) | Name(text: string, open: char) | Literal(text: string)

  predicate Blank(s: string) {
    forall i :: 0 <= i < |s| ==> Space(s[i])
  }

  predicate Proper(p: Piece) {
    match p
    case Plain(text) => text != "" && forall c <- text :: !Space(c) && c !in "'\"`["
    case Name(text, open) => open in "\"`[" && text != "" && !Space(text[0]) && !Space(text[|text| - 1])
    case Literal(_) => true
  }

  /** The text with its closing quotes doubled. */
  function Escaped(s: string, close: char): string {
    if s == "" then "" else (if s[0] == close then [close, close] else [s[0]]) + Escaped(s[1..], close)
  }

  function Close(open: char): char {
    if open == '[' then ']' else open
  }

  function Written(p: Piece): string {
    match p
    case Plain(text) => text
    case Name(text, open) => [open] + Escaped(text, Close(open)) + [Close(open)]
    case Literal(text) => "'" + Escaped(text, '\'') + "'"
  }

  /** What the normal form has of it. */
  function Shown(p: Piece): string {
    match p
    case Plain(text) => Lower(text)
    case Name(text, _) => Lower(text)
    case Literal(text) => "'" + Escaped(text, '\'') + "'"
  }

  /** The pieces with white space before each. */
  function Laid(pieces: seq<Piece>, gaps: seq<string>): string
    requires |gaps| == |pieces|
  {
    if pieces == [] then "" else gaps[0] + Written(pieces[0]) + Laid(pieces[1..], gaps[1..])
  }

  /** The pieces shown, with a single space before each but perhaps the first. */
  function ShownAll(pieces: seq<Piece>, lead: bool): string {
    if pieces == [] then "" else (if lead then " " else "") + Shown(pieces[0]) + ShownAll(pieces[1..], true)
  }

  predicate Separated(pieces: seq<Piece>, gaps: seq<string>) {
    && |gaps| == |pieces| && (forall p :: p in pieces ==> Proper(p)) && (forall g :: g in gaps ==> Blank(g))
    && forall i :: 1 <= i < |gaps| ==> gaps[i] != ""
  }

  // ----- quoted text -------------------------------------------------------------------------------------

  /** One character of quoted text, as it is written. */
  lemma QuotedStep(c: char, close: char, more: string)
    ensures var s := (if c == close then [close, close] else [c]) + more;
      && QuotedLength(s, close) == QuotedLength(more, close) + (if c == close then 2 else 1)
      && Unquoted(s, close) == [c] + Unquoted(more, close)
  {
    var s := (if c == close then [close, close] else [c]) + more;
    if c == close {
      assert s[2..] == more && s[1] == close;
    } else {
      assert s[1..] == more;
    }
  }

  lemma QuotedEnd(close: char, rest: string)
    requires rest != "" ==> rest[0] != close
    ensures QuotedLength([close] + rest, close) == 1 && Unquoted([close] + rest, close) == ""
  {
    var s := [close] + rest;
    assert |s| > 1 ==> s[1] == rest[0];
  }

  lemma {:induction false} EscapedReadsBack(s: string, close: char, rest: string)
    requires rest != "" ==> rest[0] != close
    ensures QuotedLength(Escaped(s, close) + [close] + rest, close) == |Escaped(s, close)| + 1
    ensures Unquoted(Escaped(s, close) + [close] + rest, close) == s
  {
    hide QuotedLength, Unquoted;
    if s == "" {
      QuotedEnd(close, rest);
      assert Escaped(s, close) + [close] + rest == [close] + rest;
    } else {
      EscapedReadsBack(s[1..], close, rest);
      var more := Escaped(s[1..], close) + [close] + rest;
      QuotedStep(s[0], close, more);
      assert Escaped(s, close) + [close] + rest == (if s[0] == close then [close, close] else [s[0]]) + more;
      assert s == [s[0]] + s[1..];
    }
  }

  lemma TokenOfLiteral(s: string)
    requires s != "" && s[0] == '\''
    ensures var n := 1 + QuotedLength(s[1..], '\''); Token(s) == s[..n] + Rest(s[n..], true, false)
  {
    hide Rest, QuotedLength, Unquoted, Lower;
  }

  lemma TokenOfName(s: string)
    requires s != "" && s[0] in "\"`["
    ensures var n := 1 + QuotedLength(s[1..], Close(s[0]));
      Token(s) == Lower(Unquoted(s[1..], Close(s[0]))) + Rest(s[n..], true, false)
  {
    hide Rest, QuotedLength, Unquoted, Lower;
  }

  lemma WrittenIsQuoted(p: Piece, close: char, rest: string)
    requires !p.Plain? && close == if p.Name? then Close(p.open) else '\''
    ensures |Written(p)| == |Escaped(p.text, close)| + 2
    ensures (Written(p) + rest)[0] == if p.Name? then p.open else '\''
    ensures (Written(p) + rest)[1..] == Escaped(p.text, close) + [close] + rest
  {
    hide Escaped;
    var inner := Escaped(p.text, close) + [close];
    if p.Name? {
      assert Written(p) == [p.open] + inner;
    } else {
      assert Written(p) == "'" + inner;
    }
  }

  lemma QuotedToken(p: Piece, rest: string)
    requires Proper(p) && !p.Plain? && (rest != "" ==> Space(rest[0]))
    ensures Written(p) != "" && Token(Written(p) + rest) == Shown(p) + Rest(rest, true, false)
  {
    hide Rest, QuotedLength, Unquoted, Lower, Token, Escaped;
    var close := if p.Name? then Close(p.open) else '\'';
    EscapedReadsBack(p.text, close, rest);
    var text := Written(p) + rest;
    WrittenIsQuoted(p, close, rest);
    assert text[|Written(p)|..] == rest && text[..|Written(p)|] == Written(p);
    if p.Name? {
      TokenOfName(text);
    } else {
      TokenOfLiteral(text);
    }
  }

  lemma {:induction false} PlainToken(text: string, rest: string)
    requires Proper(Plain(text)) && (rest != "" ==> Space(rest[0]))
    ensures Token(text + rest) == Lower(text) + Rest(rest, true, false)
  {
    var s := text + rest;
    assert s[0] == text[0] && text[0] in text && s[1..] == text[1..] + rest;
    if |text| == 1 {
      assert s[1..] == rest;
      assert Lower(text) == [LowerChar(text[0])];
    } else {
      assert text[1] in text;
      PlainToken(text[1..], rest);
      assert Lower(text) == [LowerChar(text[0])] + Lower(text[1..]);
    }
  }

  // ----- the whole text -----------------------------------------------------------------------------------

  lemma {:induction false} RestGap(gap: string, s: string, started: bool, due: bool)
    requires Blank(gap)
    ensures Rest(gap + s, started, due) == Rest(s, started, due || gap != "")
  {
    if gap == "" {
      assert gap + s == s;
    } else {
      assert (gap + s)[1..] == gap[1..] + s;
      RestGap(gap[1..], s, started, true);
    }
  }

  lemma WrittenStarts(p: Piece)
    requires Proper(p)
    ensures Written(p) != "" && !Space(Written(p)[0])
  {
    if p.Plain? {
      assert p.text[0] in p.text;
    }
  }

  lemma LaidStarts(pieces: seq<Piece>, gaps: seq<string>, tail: string)
    requires Separated(pieces, gaps) && Blank(tail) && (pieces != [] ==> gaps[0] != "")
    ensures var s := Laid(pieces, gaps) + tail; s != "" ==> Space(s[0])
  {
    if pieces != [] {
      assert gaps[0] in gaps;
      assert (Laid(pieces, gaps) + tail)[0] == gaps[0][0];
    }
  }

  lemma {:induction false} RestLaid(pieces: seq<Piece>, gaps: seq<string>, tail: string, started: bool)
    requires Separated(pieces, gaps) && Blank(tail)
    ensures Rest(Laid(pieces, gaps) + tail, started, false) ==
      ShownAll(pieces, started && pieces != [] && gaps[0] != "")
  {
    hide Rest, Token, Written, Shown, Proper, Blank;
    if pieces == [] {
      RestGap(tail, "", started, false);
      NothingRests(started, tail != "");
      assert Laid(pieces, gaps) + tail == tail + "";
    } else {
      var p, gap, more := pieces[0], gaps[0], Laid(pieces[1..], gaps[1..]) + tail;
      assert p in pieces && gap in gaps;
      assert Laid(pieces, gaps) + tail == gap + (Written(p) + more);
      RestGap(gap, Written(p) + more, started, false);
      WrittenStarts(p);
      LaidStarts(pieces[1..], gaps[1..], tail);
      RestOfToken(Written(p) + more, started, gap != "");
      TokenShown(p, more);
      RestLaid(pieces[1..], gaps[1..], tail, true);
      ShownAfter(pieces, gaps);
    }
  }

  lemma ShownAfter(pieces: seq<Piece>, gaps: seq<string>)
    requires pieces != [] && Separated(pieces, gaps)
    ensures pieces[1..] != [] ==> gaps[1..][0] != ""
  {
  }

  lemma NothingRests(started: bool, due: bool)
    ensures Rest("", started, due) == ""
  {
  }

  lemma RestOfToken(s: string, started: bool, due: bool)
    requires s != "" && !Space(s[0])
    ensures Rest(s, started, due) == (if due && started then " " else "") + Token(s)
  {
  }

  lemma TokenShown(p: Piece, rest: string)
    requires Proper(p) && (rest != "" ==> Space(rest[0]))
    ensures Written(p) != "" && Token(Written(p) + rest) == Shown(p) + Rest(rest, true, false)
  {
    if p.Plain? {
      PlainToken(p.text, rest);
    } else {
      QuotedToken(p, rest);
    }
  }

  lemma LowerKeepsSpace(c: char)
    ensures Space(LowerChar(c)) <==> Space(c)
  {
  }

  lemma ShownEnds(p: Piece)
    requires Proper(p)
    ensures Shown(p) != "" && !Space(Shown(p)[0]) && !Space(Shown(p)[|Shown(p)| - 1])
  {
    if !p.Literal? {
      LowerKeepsSpace(p.text[0]);
      LowerKeepsSpace(p.text[|p.text| - 1]);
      assert p.text[0] in p.text && p.text[|p.text| - 1] in p.text;
    }
  }

  lemma {:induction false} AllShownEnds(pieces: seq<Piece>, lead: bool)
    requires pieces != [] && forall p :: p in pieces ==> Proper(p)
    ensures var s := ShownAll(pieces, lead); s != "" && !Space(s[|s| - 1]) && (!lead ==> !Space(s[0]))
  {
    hide Shown, Proper;
    assert pieces[0] in pieces;
    ShownEnds(pieces[0]);
    if |pieces| > 1 {
      AllShownEnds(pieces[1..], true);
    } else {
      assert pieces[1..] == [];
    }
  }

  lemma StripsToItself(s: string)
    requires s != "" ==> !Space(s[0]) && !Space(s[|s| - 1])
    ensures Strip(s) == s
  {
    var i, j := StripExactly(s);
    assert s[0..|s|] == s;
  }

  /** MAIN: the normal form of pieces written with any white space between them, and any quotes
      around the identifiers, is the words and identifiers in lower case and the literals as they
      are written, with single spaces between. */
  lemma NormalShowsThePieces(pieces: seq<Piece>, gaps: seq<string>, tail: string)
    requires Separated(pieces, gaps) && Blank(tail)
    ensures Normal(Laid(pieces, gaps) + tail) == ShownAll(pieces, false)
  {
    hide Rest, Strip, Laid, Shown, Proper, Blank;
    RestLaid(pieces, gaps, tail, false);
    if pieces != [] {
      AllShownEnds(pieces, false);
    }
    StripsToItself(ShownAll(pieces, false));
  }

  // ----- declarations -------------------------------------------------------------------------------------

  /** No quote or parenthesis, and a comma at most inside parentheses. */
  predicate Bare(s: string, depth: nat) {
    forall i :: 0 <= i < |s| ==> s[i] !in "()'\"`[" && (s[i] == ',' ==> depth > 0)
  }

  lemma {:induction false} BareThrough(s: string, rest: string, depth: nat)
    requires Bare(s, depth)
    ensures Declaration(s + rest, depth, None) <==> Declaration(rest, depth, None)
  {
    if s == "" {
      assert s + rest == rest;
    } else {
      assert (s + rest)[1..] == s[1..] + rest;
      BareThrough(s[1..], rest, depth);
    }
  }

  lemma {:induction false} QuotedThrough(s: string, close: char, rest: string, depth: nat)
    requires rest == "" || rest[0] != close
    ensures Declaration(Escaped(s, close) + [close] + rest, depth, Some(close)) <==> Declaration(rest, depth, None)
  {
    var text := Escaped(s, close) + [close] + rest;
    if s == "" {
      assert text == [close] + rest && text[1..] == rest;
      assert |text| > 1 ==> text[1] == rest[0];
    } else {
      QuotedThrough(s[1..], close, rest, depth);
      var more := Escaped(s[1..], close) + [close] + rest;
      if s[0] == close {
        assert text == [close, close] + more && text[2..] == more && text[1] == close;
      } else {
        assert text == [s[0]] + more && text[1..] == more;
      }
    }
  }

  /** Commas and parentheses inside a literal or an identifier do not end a declaration, nor do
      commas inside parentheses. */
  lemma DeclarationsWithQuotesAndCalls(before: string, p: Piece, inner: string, after: string)
    requires Bare(before, 0) && Bare(inner, 1) && Bare(after, 0) && ']' !in after && !p.Plain? && Proper(p)
    ensures WellFormed(before) && WellFormed(before + "(" + inner + ")" + after)
    ensures WellFormed(before + Written(p) + after)
  {
    BareIsWellFormed(before);
    BareIsWellFormed(after);
    CallThrough(before, inner, after);
    PieceThrough(before, p, after);
  }

  lemma BareIsWellFormed(s: string)
    requires Bare(s, 0)
    ensures WellFormed(s)
  {
    BareThrough(s, "", 0);
    assert s + "" == s;
  }

  lemma PieceThrough(before: string, p: Piece, after: string)
    requires Bare(before, 0) && Bare(after, 0) && WellFormed(after) && ']' !in after && !p.Plain? && Proper(p)
    ensures WellFormed(before + Written(p) + after)
  {
    hide Escaped, Declaration;
    var close := if p.Name? then Close(p.open) else '\'';
    var quoted := Written(p) + after;
    BareThrough(before, quoted, 0);
    assert before + Written(p) + after == before + quoted;
    QuotedThrough(p.text, close, after, 0);
    WrittenIsQuoted(p, close, after);
    OpensThrough(quoted, close);
  }

  lemma CallThrough(before: string, inner: string, after: string)
    requires Bare(before, 0) && Bare(inner, 1) && WellFormed(after)
    ensures WellFormed(before + "(" + inner + ")" + after)
  {
    var closed, opening := ")" + after, "(" + (inner + (")" + after));
    BareThrough(before, opening, 0);
    BareThrough(inner, closed, 1);
    assert closed[1..] == after && opening[1..] == inner + closed;
    assert before + "(" + inner + ")" + after == before + opening;
  }

  lemma OpensThrough(s: string, close: char)
    requires s != "" && s[0] in "'\"`[" && close == Close(s[0])
    ensures Declaration(s, 0, None) <==> Declaration(s[1..], 0, Some(close))
  {
  }
}
