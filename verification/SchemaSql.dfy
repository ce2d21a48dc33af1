/** The SQL scanners of `schema_state.py`: the normal form of a piece of SQL, and the
    declarations of a CREATE TABLE statement as an order-independent contract. */
module SchemaSql {
  import opened Outcomes
  import opened Text
  import opened Ordering

  // ----- characters ----------------------------------------------------------------------------------

  predicate OpensIdentifier(c: char) {
    c == '"' || c == '`' || c == '['
  }

  function Closing(c: char): char {
    if c == '[' then ']' else c
  }

  // ----- quoted text -------------------------------------------------------------------------------------

  /** How far quoted text with this closing character goes, its opening being just before:
      doubled closings belong to it, and so does everything if it is never closed. */
  function QuotedLength(s: string, closing: char): (n: nat)
    ensures n <= |s|
  {
    if s == "" then 0
    else if s[0] == closing then
      if |s| > 1 && s[1] == closing then 2 + QuotedLength(s[2..], closing) else 1
    else 1 + QuotedLength(s[1..], closing)
  }

  /** The identifier inside the quotes. */
  function Unquoted(s: string, closing: char): string {
    if s == "" then ""
    else if s[0] == closing then
      if |s| > 1 && s[1] == closing then [closing] + Unquoted(s[2..], closing) else ""
    else [s[0]] + Unquoted(s[1..], closing)
  }

  // ----- the normal form ------------------------------------------------------------------------------------

  /** What the rest of the text adds, when something was or was not put out before and a
      space is or is not due. */
  function Rest(s: string, started: bool, due: bool): string
    decreases |s|
  {
    if s == "" then ""
    else if Space(s[0]) then Rest(s[1..], started, true)
    else (if due && started then " " else "") + Token(s)
  }

  /** The first token of a text that starts with none, and all that follows. */
  function Token(s: string): string
    requires s != ""
    decreases |s|, 0
  {
    if s[0] == '\'' then
      var n := 1 + QuotedLength(s[1..], '\'');
      s[..n] + Rest(s[n..], true, false)
    else if OpensIdentifier(s[0]) then
      var n := 1 + QuotedLength(s[1..], Closing(s[0]));
      Lower(Unquoted(s[1..], Closing(s[0]))) + Rest(s[n..], true, false)
    else [LowerChar(s[0])] + Rest(s[1..], true, false)
  }

  function Normal(s: string): string {
    Strip(Rest(s, false, false))
  }

  /** One round of the scanner: what it puts out and how far it goes. */
  method ScanToken(value: string, index: nat) returns (out: string, next: nat)
    requires index < |value| && !Space(value[index])
    ensures index < next <= |value|
    ensures Token(value[index..]) == out + Rest(value[next..], true, false)
  {
    hide Rest, QuotedLength, Unquoted, Lower;
    var c := value[index];
    ghost var tail := value[index..];
    assert tail[1..] == value[index + 1..];
    if c == '\'' {
      var n := ScanQuoted(value, index + 1, '\'');
      assert tail[..1 + n] == value[index..index + 1 + n] && tail[1 + n..] == value[index + 1 + n..];
      return value[index..index + 1 + n], index + 1 + n;
    }
    if OpensIdentifier(c) {
      var n := ScanQuoted(value, index + 1, Closing(c));
      assert tail[1 + n..] == value[index + 1 + n..];
      return Lower(Unquoted(value[index + 1..], Closing(c))), index + 1 + n;
    }
    return [LowerChar(c)], index + 1;
  }

  /** `_normalize_sql`. */
  method NormalizeSql(value: string) returns (r: string)
    ensures r == Normal(value)
  {
    hide Token, Strip;
    var out := "";
    var started, due := false, false;
    var index := 0;
    while index < |value|
      invariant index <= |value|
      invariant out + Rest(value[index..], started, due) == Rest(value, false, false)
    {
      assert value[index..][1..] == value[index + 1..];
      if Space(value[index]) {
        due, index := true, index + 1;
      } else {
        var token, next := ScanToken(value, index);
        ghost var tail := Rest(value[next..], true, false);
        var gap := if due && started then " " else "";
        assert out + (gap + (token + tail)) == (out + gap + token) + tail;
        out, started, due, index := out + gap + token, true, false, next;
      }
    }
    assert value[index..] == "" && Rest("", started, due) == "" && out + "" == out;
    return Strip(out);
  }

  /** The inner loops of the scanner. */
  method ScanQuoted(value: string, from: nat, closing: char) returns (n: nat)
    requires from <= |value|
    ensures n == QuotedLength(value[from..], closing)
  {
    var index := from;
    while index < |value|
      invariant from <= index <= |value|
      invariant index - from + QuotedLength(value[index..], closing) == QuotedLength(value[from..], closing)
    {
      if value[index] == closing {
        if index + 1 < |value| && value[index + 1] == closing {
          assert value[index..][2..] == value[index + 2..];
          index := index + 2;
        } else {
          return index + 1 - from;
        }
      } else {
        assert value[index..][1..] == value[index + 1..];
        index := index + 1;
      }
    }
    return index - from;
  }

  // ----- idempotence --------------------------------------------------------------------------------------------

  /** No quoted identifier outside string literals. */
  predicate Unquoting(s: string)
    decreases |s|
  {
    if s == "" then true
    else if s[0] == '\'' then Unquoting(s[1 + QuotedLength(s[1..], '\'')..])
    else !OpensIdentifier(s[0]) && Unquoting(s[1..])
  }

  /** A literal reads the same with other text after it, unless that text could continue it. */
  lemma {:induction false} QuotedIsLocal(s: string, more: string, closing: char)
    requires QuotedLength(s, closing) < |s| || more == "" || more[0] != closing
    requires QuotedLength(s, closing) == |s| ==> Closed(s, closing) || more == ""
    ensures QuotedLength(s + more, closing) == QuotedLength(s, closing)
    decreases |s|
  {
    if s == "" {
      assert s + more == more;
    } else if s[0] == closing {
      if |s| > 1 && s[1] == closing {
        assert (s + more)[2..] == s[2..] + more;
        QuotedIsLocal(s[2..], more, closing);
      }
    } else {
      assert (s + more)[1..] == s[1..] + more;
      QuotedIsLocal(s[1..], more, closing);
    }
  }

  /** The quoted text is ended by its closing character. */
  predicate Closed(s: string, closing: char) {
    if s == "" then false
    else if s[0] == closing then
      if |s| > 1 && s[1] == closing then Closed(s[2..], closing) else true
    else Closed(s[1..], closing)
  }

  lemma {:induction false} QuotedPrefix(s: string, closing: char)
    ensures QuotedLength(s[..QuotedLength(s, closing)], closing) == QuotedLength(s, closing)
    ensures Closed(s[..QuotedLength(s, closing)], closing) <==> Closed(s, closing)
    ensures QuotedLength(s, closing) < |s| ==> Closed(s, closing)
    ensures !Closed(s, closing) ==> QuotedLength(s, closing) == |s|
    ensures Closed(s, closing) && QuotedLength(s, closing) < |s| ==> s[QuotedLength(s, closing)] != closing
  {
    var n := QuotedLength(s, closing);
    if s != "" {
      if s[0] == closing {
        if |s| > 1 && s[1] == closing {
          QuotedPrefix(s[2..], closing);
          assert s[..n][2..] == s[2..][..n - 2];
        }
      } else {
        QuotedPrefix(s[1..], closing);
        assert s[..n][1..] == s[1..][..n - 1];
      }
    }
  }

  lemma {:induction false} DueSpace(s: string)
    ensures Rest(s, true, true) == "" || Rest(s, true, true)[0] == ' '
    decreases |s|
  {
    if s != "" && Space(s[0]) {
      DueSpace(s[1..]);
    }
  }

  lemma {:induction false} TrimStartStarts(s: string)
    ensures TrimStart(s) == "" || !Space(TrimStart(s)[0])
    ensures |TrimStart(s)| <= |s|
    ensures Unquoting(s) ==> Unquoting(TrimStart(s))
  {
    if s != "" && Space(s[0]) {
      TrimStartStarts(s[1..]);
    }
  }

  /** Leading space only makes a space due. */
  lemma {:induction false} RestSkips(s: string, started: bool, due: bool)
    ensures Rest(s, started, due) ==
      if TrimStart(s) == "" then ""
      else (if (due || TrimStart(s) != s) && started then " " else "") + Token(TrimStart(s))
  {
    if s != "" && Space(s[0]) {
      RestSkips(s[1..], started, true);
      TrimStartStarts(s[1..]);
    }
  }

  // ----- trailing space inside an unclosed literal ----------------------------------------------------------------

  lemma {:induction false} UnclosedPrefix(s: string, closing: char)
    requires !Closed(s, closing) && s != "" && s[|s| - 1] != closing
    ensures !Closed(s[..|s| - 1], closing) && QuotedLength(s[..|s| - 1], closing) == |s| - 1
    decreases |s|
  {
    var u := s[..|s| - 1];
    if s[0] == closing {
      assert |s| > 2;
      UnclosedPrefix(s[2..], closing);
      assert u[2..] == s[2..][..|s| - 3];
    } else if |s| > 1 {
      UnclosedPrefix(s[1..], closing);
      assert u[1..] == s[1..][..|s| - 2];
    }
  }

  /** Closed text that goes to the end ends in its closing character. */
  lemma {:induction false} ClosedEndsClosed(s: string, closing: char)
    requires QuotedLength(s, closing) == |s|
    ensures Closed(s, closing) ==> s != "" && s[|s| - 1] == closing
  {
    if s != "" {
      if s[0] == closing {
        if |s| > 1 && s[1] == closing {
          ClosedEndsClosed(s[2..], closing);
        }
      } else {
        ClosedEndsClosed(s[1..], closing);
      }
    }
  }

  lemma NothingIsNormal(s: string)
    requires TrimStart(s) == ""
    ensures Normal(s) == "" && Normal("") == ""
  {
    RestSkips(s, false, false);
  }

  // ----- what is normal already ---------------------------------------------------------------------------------

  /** Lower case and single spaces outside literals, and no opening quote of an identifier;
      `gap` says that a space may come next. */
  predicate Tidy(t: string, gap: bool)
    decreases |t|
  {
    if t == "" then true
    else if t[0] == '\'' then Tidy(t[1 + QuotedLength(t[1..], '\'')..], true)
    else if Space(t[0]) then gap && t[0] == ' ' && |t| > 1 && Tidy(t[1..], false)
    else !OpensIdentifier(t[0]) && LowerChar(t[0]) == t[0] && Tidy(t[1..], true)
  }

  predicate InNormalForm(t: string) {
    Tidy(t, false) && (t != "" ==> !Space(t[|t| - 1]))
  }

  lemma {:induction false} UnquotedShort(s: string, closing: char)
    ensures |Unquoted(s, closing)| <= QuotedLength(s, closing)
    decreases |s|
  {
    if s != "" {
      if s[0] != closing {
        UnquotedShort(s[1..], closing);
      } else if |s| > 1 && s[1] == closing {
        UnquotedShort(s[2..], closing);
      }
    }
  }

  /** The scanner never puts out more than it takes in, and less for a quoted identifier. */
  lemma {:induction false} RestShort(s: string, started: bool, due: bool)
    ensures |Rest(s, started, due)| <= |s| + if due && started then 1 else 0
    decreases |s|, 1
  {
    if s != "" {
      if Space(s[0]) {
        RestShort(s[1..], started, true);
      } else {
        TokenShort(s);
      }
    }
  }

  lemma {:induction false} TokenShort(s: string)
    requires s != ""
    ensures |Token(s)| <= |s| && (s[0] != '\'' && OpensIdentifier(s[0]) ==> |Token(s)| < |s|)
    decreases |s|, 0
  {
    if s[0] == '\'' {
      RestShort(s[1 + QuotedLength(s[1..], '\'')..], true, false);
    } else if OpensIdentifier(s[0]) {
      UnquotedShort(s[1..], Closing(s[0]));
      RestShort(s[1 + QuotedLength(s[1..], Closing(s[0]))..], true, false);
    } else {
      RestShort(s[1..], true, false);
    }
  }

  lemma {:induction false} TidyIsFixed(t: string, gap: bool, started: bool)
    requires Tidy(t, gap) && (gap ==> started)
    ensures Rest(t, started, false) == t
    ensures t != "" && !Space(t[0]) ==> Token(t) == t
    decreases |t|
  {
    if t != "" {
      if t[0] == '\'' {
        var n := 1 + QuotedLength(t[1..], '\'');
        TidyIsFixed(t[n..], true, true);
        assert t == t[..n] + t[n..] && "" + Token(t) == Token(t);
      } else if Space(t[0]) {
        TidyIsFixed(t[1..], false, true);
        assert t == " " + t[1..];
      } else {
        TidyIsFixed(t[1..], true, true);
        assert t == [t[0]] + t[1..] && "" + Token(t) == Token(t);
      }
    }
  }

  lemma {:induction false} FixedTokenIsTidy(t: string, gap: bool)
    requires t != "" && !Space(t[0]) && Token(t) == t
    ensures Tidy(t, gap)
    decreases |t|, 0
  {
    TokenShort(t);
    if t[0] == '\'' {
      var n := 1 + QuotedLength(t[1..], '\'');
      assert Token(t)[n..] == Rest(t[n..], true, false);
      FixedIsTidy(t[n..], true);
    } else {
      assert Token(t)[0] == LowerChar(t[0]) && Token(t)[1..] == Rest(t[1..], true, false);
      FixedIsTidy(t[1..], true);
    }
  }

  lemma {:induction false} FixedIsTidy(t: string, started: bool)
    requires Rest(t, started, false) == t
    ensures Tidy(t, started)
    decreases |t|, 1
  {
    if t != "" {
      if Space(t[0]) {
        RestShort(t[1..], started, true);
        RestSkips(t[1..], started, true);
        var s1 := TrimStart(t[1..]);
        TrimStartStarts(t[1..]);
        assert started && s1 != "" && t == " " + Token(s1);
        TokenShort(s1);
        TrimmedWhole(t[1..]);
        assert t[1..] == Token(s1);
        FixedTokenIsTidy(t[1..], false);
      } else {
        assert "" + Token(t) == Token(t);
        FixedTokenIsTidy(t, started);
      }
    }
  }

  lemma {:induction false} TrimmedWhole(s: string)
    ensures |TrimStart(s)| == |s| ==> TrimStart(s) == s
    ensures |TrimStart(s)| <= |s|
  {
    if s != "" && Space(s[0]) {
      TrimmedWhole(s[1..]);
    }
  }

  lemma {:induction false} TrimEndShort(s: string)
    ensures |TrimEnd(s)| <= |s|
    ensures |TrimEnd(s)| == |s| ==> TrimEnd(s) == s && (s != "" ==> !Space(s[|s| - 1]))
  {
    if s != "" && Space(s[|s| - 1]) {
      TrimEndShort(s[..|s| - 1]);
    }
  }

  lemma NothingToStrip(t: string)
    requires InNormalForm(t)
    ensures Strip(t) == t
  {
  }

  /** MAIN: the texts that normalizing leaves alone are exactly those in normal form: trimmed,
      with single spaces and lower case outside literals and no quoted identifier. */
  lemma NormalExactly(t: string)
    ensures Normal(t) == t <==> InNormalForm(t)
  {
    hide Token, Rest, Tidy, TrimStart, TrimEnd;
    var u := Rest(t, false, false);
    RestShort(t, false, false);
    TrimmedWhole(u);
    TrimEndShort(TrimStart(u));
    if Normal(t) == t {
      FixedIsTidy(t, false);
    }
    if InNormalForm(t) {
      TidyIsFixed(t, false, false);
      NothingToStrip(t);
    }
  }

  // ----- idempotence with quoted identifiers ---------------------------------------------------------------------

  /** Every quoted identifier outside literals, in lower case, has the property. */
  predicate Identifiers(s: string, p: string -> bool)
    decreases |s|
  {
    if s == "" then true
    else if s[0] == '\'' then Identifiers(s[1 + QuotedLength(s[1..], '\'')..], p)
    else if OpensIdentifier(s[0]) then
      && p(Lower(Unquoted(s[1..], Closing(s[0]))))
      && Identifiers(s[1 + QuotedLength(s[1..], Closing(s[0]))..], p)
    else Identifiers(s[1..], p)
  }

  /** Neither empty nor with blanks at its ends, and nothing in it opens a quote. */
  predicate Word(q: string) {
    q != "" && !Space(q[0]) && !Space(q[|q| - 1]) && Unopened(q)
  }

  predicate Unopened(q: string) {
    forall i :: 0 <= i < |q| ==> q[i] != '\'' && !OpensIdentifier(q[i])
  }

  /** All white space is single blanks. */
  predicate Spaced(q: string, gap: bool) {
    if q == "" then true
    else if Space(q[0]) then gap && q[0] == ' ' && Spaced(q[1..], false)
    else Spaced(q[1..], true)
  }

  predicate SingleSpaced(q: string) {
    Spaced(q, false)
  }

  lemma {:induction false} UnquotingHasNone(s: string, p: string -> bool)
    requires Unquoting(s)
    ensures Identifiers(s, p)
    decreases |s|
  {
    if s != "" {
      UnquotingHasNone(if s[0] == '\'' then s[1 + QuotedLength(s[1..], '\'')..] else s[1..], p);
    }
  }

  lemma {:induction false} TrimmedIdentifiers(s: string, p: string -> bool)
    ensures Identifiers(s, p) <==> Identifiers(TrimStart(s), p)
    decreases |s|
  {
    if s != "" && Space(s[0]) {
      TrimmedIdentifiers(s[1..], p);
    }
  }

  /** The output after a literal does not start like the literal would go on. */
  lemma OutputStart(s: string)
    requires Identifiers(s, Word) && Rest(s, true, false) != ""
    ensures s[0] == '\'' || Rest(s, true, false)[0] != '\''
  {
    if Space(s[0]) {
      DueSpace(s[1..]);
    } else if OpensIdentifier(s[0]) {
      assert Word(Lower(Unquoted(s[1..], Closing(s[0]))));
    }
  }

  lemma OutputLiteral(s: string)
    requires s != "" && s[0] == '\'' && Identifiers(s, Word)
    ensures var n := 1 + QuotedLength(s[1..], '\''); var t := Token(s);
      1 + QuotedLength(t[1..], '\'') == n && t[n..] == Rest(s[n..], true, false)
  {
    hide Rest, Identifiers, QuotedLength;
    var n := 1 + QuotedLength(s[1..], '\'');
    var more := Rest(s[n..], true, false);
    SameLiteral(s, n, more);
    assert Token(s) == s[..n] + more && (s[..n] + more)[1..] == s[1..n] + more;
  }

  lemma SameLiteral(s: string, n: nat, more: string)
    requires s != "" && s[0] == '\'' && Identifiers(s, Word)
    requires n == 1 + QuotedLength(s[1..], '\'') && more == Rest(s[n..], true, false)
    ensures QuotedLength(s[1..n] + more, '\'') == n - 1
  {
    QuotedPrefix(s[1..], '\'');
    assert s[1..n] == s[1..][..n - 1];
    LiteralEnds(s, n, more);
    hide Rest, Identifiers, QuotedLength, Closed;
    QuotedIsLocal(s[1..n], more, '\'');
  }

  lemma LiteralEnds(s: string, n: nat, more: string)
    requires s != "" && s[0] == '\'' && Identifiers(s, Word)
    requires n == 1 + QuotedLength(s[1..], '\'') && more == Rest(s[n..], true, false)
    ensures n < |s| ==> Closed(s[1..n], '\'') && (more == "" || more[0] != '\'')
    ensures n == |s| ==> more == ""
  {
    QuotedPrefix(s[1..], '\'');
    assert s[1..n] == s[1..][..n - 1];
    if n < |s| {
      assert s[n] == s[1..][n - 1];
      if more != "" {
        OutputStart(s[n..]);
      }
    }
  }

  /** Text that opens nothing is read again as it stands. */
  lemma {:induction false} TidyThrough(q: string, r: string, gap: bool)
    requires q != "" && !Space(q[|q| - 1]) && Unopened(q) && forall i :: 0 <= i < |q| ==> LowerChar(q[i]) == q[i]
    ensures Tidy(q + r, gap) <==> Spaced(q, gap) && Tidy(r, true)
    decreases |q|
  {
    assert (q + r)[0] == q[0] && (q + r)[1..] == q[1..] + r;
    if |q| == 1 {
      assert q[1..] + r == r;
    } else {
      TidyThrough(q[1..], r, !Space(q[0]));
    }
  }

  lemma {:induction false} TokenTidy(s: string, gap: bool)
    requires s != "" && !Space(s[0]) && Identifiers(s, Word)
    ensures Token(s) != "" && !Space(Token(s)[0])
    ensures Tidy(Token(s), gap) <==> Identifiers(s, SingleSpaced)
    decreases |s|, 0
  {
    var t := Token(s);
    if s[0] == '\'' {
      var n := 1 + QuotedLength(s[1..], '\'');
      OutputLiteral(s);
      RestTidy(s[n..], false);
    } else if OpensIdentifier(s[0]) {
      var q, n := Lower(Unquoted(s[1..], Closing(s[0]))), 1 + QuotedLength(s[1..], Closing(s[0]));
      assert Word(q) && t == q + Rest(s[n..], true, false);
      RestTidy(s[n..], false);
      TidyThrough(q, Rest(s[n..], true, false), gap);
      SpacedFromStart(q, gap);
    } else {
      RestTidy(s[1..], false);
      assert t[1..] == Rest(s[1..], true, false);
    }
  }

  lemma SpacedFromStart(q: string, gap: bool)
    requires q != "" && !Space(q[0])
    ensures Spaced(q, gap) <==> SingleSpaced(q)
  {
  }

  lemma {:induction false} RestTidy(s: string, due: bool)
    requires Identifiers(s, Word)
    ensures Tidy(Rest(s, true, due), true) <==> Identifiers(s, SingleSpaced)
    decreases |s|, 1
  {
    var s1 := TrimStart(s);
    RestSkips(s, true, due);
    TrimStartStarts(s);
    TrimmedIdentifiers(s, Word);
    TrimmedIdentifiers(s, SingleSpaced);
    if s1 != "" {
      TokenTidy(s1, true);
      TokenTidy(s1, false);
      var spaced := " " + Token(s1);
      assert spaced[1..] == Token(s1) && "" + Token(s1) == Token(s1);
    }
  }

  /** The text ends inside its last literal, or with it. */
  predicate OpenEnd(t: string)
    decreases |t|
  {
    if t == "" then false
    else if t[0] == '\'' then
      var n := 1 + QuotedLength(t[1..], '\'');
      n == |t| || OpenEnd(t[n..])
    else OpenEnd(t[1..])
  }

  predicate EndsWell(t: string) {
    t != "" && Space(t[|t| - 1]) ==> OpenEnd(t)
  }

  lemma {:induction false} OpenThrough(q: string, r: string)
    requires q != "" && !Space(q[|q| - 1]) && Unopened(q) && EndsWell(r)
    ensures EndsWell(q + r)
    decreases |q|
  {
    assert (q + r)[0] == q[0] && (q + r)[1..] == q[1..] + r;
    if |q| == 1 {
      assert q[1..] + r == r;
    } else {
      OpenThrough(q[1..], r);
      assert (q + r)[|q + r| - 1] == (q[1..] + r)[|q + r| - 2];
    }
  }

  lemma {:induction false} TokenEndsWell(s: string)
    requires s != "" && !Space(s[0]) && Identifiers(s, Word)
    ensures EndsWell(Token(s))
    decreases |s|, 0
  {
    var t := Token(s);
    if s[0] == '\'' {
      var n := 1 + QuotedLength(s[1..], '\'');
      OutputLiteral(s);
      RestEndsWell(s[n..], false);
      assert n < |t| ==> t[|t| - 1] == t[n..][|t| - n - 1];
    } else if OpensIdentifier(s[0]) {
      var q, n := Lower(Unquoted(s[1..], Closing(s[0]))), 1 + QuotedLength(s[1..], Closing(s[0]));
      assert Word(q) && t == q + Rest(s[n..], true, false);
      RestEndsWell(s[n..], false);
      OpenThrough(q, Rest(s[n..], true, false));
    } else {
      RestEndsWell(s[1..], false);
      assert t[1..] == Rest(s[1..], true, false);
      assert |t| > 1 ==> t[|t| - 1] == t[1..][|t| - 2];
    }
  }

  lemma {:induction false} RestEndsWell(s: string, due: bool)
    requires Identifiers(s, Word)
    ensures EndsWell(Rest(s, true, due))
    decreases |s|, 1
  {
    var s1 := TrimStart(s);
    RestSkips(s, true, due);
    TrimStartStarts(s);
    TrimmedIdentifiers(s, Word);
    if s1 != "" {
      TokenEndsWell(s1);
      TokenTidy(s1, true);
      var spaced := " " + Token(s1);
      assert spaced[1..] == Token(s1) && "" + Token(s1) == Token(s1);
      assert spaced[|spaced| - 1] == Token(s1)[|Token(s1)| - 1];
    }
  }

  lemma ShorterLiteral(t: string, n: nat)
    requires t != "" && t[0] == '\'' && n == 1 + QuotedLength(t[1..], '\'') < |t|
    ensures QuotedLength(t[1..|t| - 1], '\'') == n - 1
  {
    QuotedPrefix(t[1..], '\'');
    assert t[1..n] == t[1..][..n - 1] && t[n] == t[1..][n - 1];
    QuotedIsLocal(t[1..n], t[n..|t| - 1], '\'');
    assert t[1..|t| - 1] == t[1..n] + t[n..|t| - 1];
  }

  /** White space at the end of an unclosed literal makes nothing tidy or untidy. */
  lemma {:induction false} TidyShrinks(t: string, gap: bool)
    requires t != "" && Space(t[|t| - 1]) && OpenEnd(t)
    ensures Tidy(t[..|t| - 1], gap) <==> Tidy(t, gap)
    decreases |t|
  {
    hide QuotedLength;
    var u := t[..|t| - 1];
    if t[0] == '\'' {
      var n := 1 + QuotedLength(t[1..], '\'');
      assert u[1..] == t[1..|t| - 1];
      if n == |t| {
        WholeLiteral(t);
        assert u[|u|..] == t[|t|..] == "";
      } else {
        ShorterLiteral(t, n);
        assert t[n..][..|t| - n - 1] == u[n..];
        TidyShrinks(t[n..], true);
      }
    } else {
      NotBlank(t);
      assert t[1..][..|t| - 2] == u[1..];
      TidyShrinks(t[1..], !Space(t[0]));
    }
  }

  lemma NotBlank(t: string)
    requires t != "" && t[0] != '\'' && Space(t[|t| - 1]) && OpenEnd(t)
    ensures |t| > 2 && OpenEnd(t[1..]) && Space(t[1..][|t| - 2])
  {
  }

  lemma {:induction false} TrimmedTidy(t: string, gap: bool)
    requires EndsWell(t)
    ensures Tidy(TrimEnd(t), gap) <==> Tidy(t, gap)
    decreases |t|
  {
    if t != "" && Space(t[|t| - 1]) {
      OpenEndShrinks(t);
      TidyShrinks(t, gap);
      TrimmedTidy(t[..|t| - 1], gap);
    }
  }

  lemma {:induction false} OpenEndShrinks(t: string)
    requires t != "" && Space(t[|t| - 1]) && OpenEnd(t)
    ensures OpenEnd(t[..|t| - 1])
    decreases |t|
  {
    hide QuotedLength;
    var u := t[..|t| - 1];
    if t[0] == '\'' {
      var n := 1 + QuotedLength(t[1..], '\'');
      assert u[1..] == t[1..|t| - 1];
      if n == |t| {
        WholeLiteral(t);
      } else {
        ShorterLiteral(t, n);
        assert t[n..][..|t| - n - 1] == u[n..];
        OpenEndShrinks(t[n..]);
      }
    } else {
      NotBlank(t);
      assert t[1..][..|t| - 2] == u[1..];
      OpenEndShrinks(t[1..]);
    }
  }

  /** An unclosed literal stays whole without the blank it ends in. */
  lemma WholeLiteral(t: string)
    requires t != "" && t[0] == '\'' && Space(t[|t| - 1]) && 1 + QuotedLength(t[1..], '\'') == |t|
    ensures |t| > 1 && 1 + QuotedLength(t[1..|t| - 1], '\'') == |t| - 1
  {
    ClosedEndsClosed(t[1..], '\'');
    UnclosedPrefix(t[1..], '\'');
    assert t[1..|t| - 1] == t[1..][..|t| - 2];
  }

  lemma NormalIsTrimmedToken(s: string)
    requires TrimStart(s) != "" && Token(TrimStart(s)) != "" && !Space(Token(TrimStart(s))[0])
    ensures Normal(s) == TrimEnd(Token(TrimStart(s)))
  {
    hide Token;
    RestSkips(s, false, false);
    var t := Token(TrimStart(s));
    assert Rest(s, false, false) == "" + t == t && TrimStart(t) == t;
  }

  lemma {:induction false} TrimEndKeepsStart(t: string)
    requires t != "" && !Space(t[0])
    ensures TrimEnd(t) != "" && TrimEnd(t)[0] == t[0] && !Space(TrimEnd(t)[|TrimEnd(t)| - 1])
  {
    if Space(t[|t| - 1]) {
      TrimEndKeepsStart(t[..|t| - 1]);
    }
  }

  /** MAIN: where quoted identifiers are words, neither empty nor blank at an end and opening
      no quote of their own, normalizing is idempotent if and only if no white space in them
      is other than single blanks. */
  lemma IdempotentExactly(s: string)
    requires Identifiers(s, Word)
    ensures Normal(Normal(s)) == Normal(s) <==> Identifiers(s, SingleSpaced)
  {
    hide Token, Rest, Tidy, Identifiers, Normal, TrimStart, TrimEnd, Unquoting;
    var s1 := TrimStart(s);
    TrimStartStarts(s);
    TrimmedIdentifiers(s, Word);
    TrimmedIdentifiers(s, SingleSpaced);
    if s1 == "" {
      NothingIsNormal(s);
      NoIdentifiers();
    } else {
      var t := Token(s1);
      TokenTidy(s1, false);
      TokenEndsWell(s1);
      NormalIsTrimmedToken(s);
      TrimEndKeepsStart(t);
      NormalExactly(TrimEnd(t));
      TrimmedTidy(t, false);
    }
  }

  /** In particular on every text without quoted identifiers. */
  lemma NormalIsIdempotent(s: string)
    requires Unquoting(s)
    ensures Normal(Normal(s)) == Normal(s)
  {
    UnquotingHasNone(s, Word);
    UnquotingHasNone(s, SingleSpaced);
    IdempotentExactly(s);
  }

  /** Whatever the text, a second round changes nothing exactly if the first reached normal form. */
  lemma NormalFormReached(s: string)
    ensures Normal(Normal(s)) == Normal(s) <==> InNormalForm(Normal(s))
    ensures Unquoting(s) ==> InNormalForm(Normal(s))
  {
    hide Normal, InNormalForm, Unquoting;
    NormalExactly(Normal(s));
    if Unquoting(s) {
      NormalIsIdempotent(s);
    }
  }

  lemma NoIdentifiers()
    ensures Identifiers("", SingleSpaced)
  {
  }

  /** A quoted identifier may hold spaces, and then it is not. */
  lemma QuotedIdentifiersAreNot()
    ensures Normal("[a  ]b") == "a  b" && Normal("a  b") == "a b"
  {
    TwoSpacesQuoted();
    TwoSpaces();
  }

  lemma TwoSpacesQuoted()
    ensures Normal("[a  ]b") == "a  b"
  {
    var q := "a  ]b";
    assert q[1..] == "  ]b" && q[1..][1..] == " ]b" && q[1..][1..][1..] == "]b";
    assert QuotedLength("]b", ']') == 1 && QuotedLength(" ]b", ']') == 2 && QuotedLength(q, ']') == 4;
    assert Unquoted("]b", ']') == "" && Unquoted(" ]b", ']') == " " && Unquoted(q, ']') == "a  "
      && Lower("a  ") == "a  ";
    assert "[a  ]b"[1..] == q && "[a  ]b"[5..] == "b" && "b"[1..] == "" && Rest("b", true, false) == "b";
    assert Rest("[a  ]b", false, false) == "a  b";
  }

  lemma TwoSpaces()
    ensures Normal("a  b") == "a b"
  {
  }

  // ----- declarations ---------------------------------------------------------------------------------------------

  predicate OpensQuote(c: char) {
    c == '\'' || OpensIdentifier(c)
  }

  /** The declarations from here to the parenthesis that closes the table, `current` being
      what is read of the one at hand; none if the text ends first. */
  function Parts(s: string, current: string, depth: nat, quote: Option<char>): Option<seq<string>>
    requires depth > 0
    decreases |s|
  {
    if s == "" then None
    else
      var c := s[0];
      if quote.Some? then
        if c != quote.value then Parts(s[1..], current + [c], depth, quote)
        else if |s| > 1 && s[1] == c then Parts(s[2..], current + [c, c], depth, quote)
        else Parts(s[1..], current + [c], depth, None)
      else if OpensQuote(c) then Parts(s[1..], current + [c], depth, Some(Closing(c)))
      else if c == '(' then Parts(s[1..], current + [c], depth + 1, None)
      else if c == ')' then
        if depth == 1 then Some([current]) else Parts(s[1..], current + [c], depth - 1, None)
      else if c == ',' && depth == 1 then
        match Parts(s[1..], "", 1, None)
        case None => None
        case Some(rest) => Some([current] + rest)
      else Parts(s[1..], current + [c], depth, None)
  }

  function Id(s: string): string {
    s
  }

  /** The normal forms that are not empty. */
  function Forms(parts: seq<string>): seq<string> {
    if parts == [] then [] else (if Normal(parts[0]) == "" then [] else [Normal(parts[0])]) + Forms(parts[1..])
  }

  const MISSING := ["<missing-table-ddl>"]
  const MALFORMED := ["<malformed-table-ddl>"]

  function FirstOpening(s: string): nat {
    if s == "" || s[0] == '(' then 0 else 1 + FirstOpening(s[1..])
  }

  /** `_table_declaration_contract`, told of the whole text. */
  function Contract(sql: string): seq<string> {
    if sql == "" then MISSING
    else if FirstOpening(sql) >= |sql| then MALFORMED
    else
      match Parts(sql[FirstOpening(sql) + 1..], "", 1, None)
      case None => MALFORMED
      case Some(parts) => Sorted(Id, Forms(parts))
  }

  lemma {:induction false} FirstOpeningBound(s: string)
    ensures FirstOpening(s) <= |s|
    ensures FirstOpening(s) < |s| ==> s[FirstOpening(s)] == '('
  {
    if s != "" && s[0] != '(' {
      FirstOpeningBound(s[1..]);
    }
  }

  method FindOpening(s: string) returns (n: nat)
    ensures n == FirstOpening(s) <= |s|
  {
    FirstOpeningBound(s);
    n := 0;
    while n < |s| && s[n] != '('
      invariant n <= |s| && n + FirstOpening(s[n..]) == FirstOpening(s)
    {
      assert s[n..][1..] == s[n + 1..];
      n := n + 1;
    }
  }

  lemma {:induction false} FormsAppend(a: seq<string>, b: seq<string>)
    ensures Forms(a + b) == Forms(a) + Forms(b)
  {
    hide Normal;
    if a == [] {
      assert a + b == b;
    } else {
      assert (a + b)[1..] == a[1..] + b;
      FormsAppend(a[1..], b);
    }
  }

  lemma FormsSnoc(parts: seq<string>, part: string)
    ensures Forms(parts + [part]) == Forms(parts) + if Normal(part) == "" then [] else [Normal(part)]
  {
    hide Normal;
    FormsAppend(parts, [part]);
    assert [part][1..] == [];
  }

  lemma ContractOf(sql: string, parts: seq<string>)
    requires sql != "" && FirstOpening(sql) < |sql|
    requires Parts(sql[FirstOpening(sql) + 1..], "", 1, None) == Some(parts)
    ensures Contract(sql) == Sorted(Id, Forms(parts))
  {
    hide Parts, Forms, Sorted, FirstOpening;
  }

  lemma EmptyContract()
    ensures Contract("") == MISSING
  {
  }

  lemma UnopenedContract(sql: string)
    requires sql != "" && FirstOpening(sql) >= |sql|
    ensures Contract(sql) == MALFORMED
  {
  }

  lemma ContractOfNone(sql: string)
    requires sql != "" && FirstOpening(sql) < |sql|
    requires Parts(sql[FirstOpening(sql) + 1..], "", 1, None).None?
    ensures Contract(sql) == MALFORMED
  {
    hide Parts, Forms, Sorted, FirstOpening;
  }

  /** What the scanner finds from `index` on, the current part having started at `start`. */
  ghost function Ahead(sql: string, start: nat, index: nat, depth: nat, quote: Option<char>): Option<seq<string>>
    requires start <= index <= |sql| && depth > 0
  {
    Parts(sql[index..], sql[start..index], depth, quote)
  }

  lemma AheadStep(sql: string, start: nat, index: nat, depth: nat, quote: Option<char>)
    requires start <= index < |sql| && depth > 0
    ensures Ahead(sql, start, index, depth, quote) ==
      var c := sql[index];
      if quote.Some? then
        if c != quote.value then Ahead(sql, start, index + 1, depth, quote)
        else if index + 1 < |sql| && sql[index + 1] == c then Ahead(sql, start, index + 2, depth, quote)
        else Ahead(sql, start, index + 1, depth, None)
      else if OpensQuote(c) then Ahead(sql, start, index + 1, depth, Some(Closing(c)))
      else if c == '(' then Ahead(sql, start, index + 1, depth + 1, None)
      else if c == ')' then
        if depth == 1 then Some([sql[start..index]]) else Ahead(sql, start, index + 1, depth - 1, None)
      else if c == ',' && depth == 1 then
        match Ahead(sql, index + 1, index + 1, 1, None)
        case None => None
        case Some(rest) => Some([sql[start..index]] + rest)
      else Ahead(sql, start, index + 1, depth, None)
  {
    var c, tail := sql[index], sql[index..];
    assert tail[0] == c && tail[1..] == sql[index + 1..];
    assert sql[start..index] + [c] == sql[start..index + 1] && sql[index + 1..index + 1] == "";
    if quote.Some? && c == quote.value && index + 1 < |sql| && sql[index + 1] == c {
      assert tail[2..] == sql[index + 2..] && sql[start..index] + [c, c] == sql[start..index + 2];
    }
  }

  lemma AheadAtStart(sql: string, start: nat)
    requires start <= |sql|
    ensures Ahead(sql, start, start, 1, None) == Parts(sql[start..], "", 1, None)
  {
    assert sql[start..start] == "";
  }

  lemma NothingAhead(sql: string, start: nat, depth: nat, quote: Option<char>)
    requires start <= |sql| && depth > 0
    ensures Ahead(sql, start, |sql|, depth, quote).None?
  {
    assert sql[|sql|..] == "";
  }

  /** What is still to come when the scanner stands at `index`. */
  ghost predicate StillToCome(whole: Option<seq<string>>, found: seq<string>, rest: Option<seq<string>>) {
    whole == if rest.None? then None else Some(found + rest.value)
  }

  /** Keeps the normal form of one more declaration, unless it is empty. */
  method TakePart(parts: seq<string>, part: string, ghost found: seq<string>) returns (r: seq<string>)
    requires parts == Forms(found)
    ensures r == Forms(found + [part])
  {
    hide Normal, Forms;
    var form := NormalizeSql(part);
    FormsSnoc(found, part);
    return if form == "" then parts else parts + [form];
  }

  /** `_table_declaration_contract`. */
  method TableDeclarationContract(sql: string) returns (r: seq<string>)
    ensures r == Contract(sql)
  {
    hide Normal, Forms, Sorted, Contract, FirstOpening, Ahead, Parts;
    if sql == "" {
      EmptyContract();
      return MISSING;
    }
    var opening := FindOpening(sql);
    if opening >= |sql| {
      UnopenedContract(sql);
      return MALFORMED;
    }
    var parts: seq<string> := [];
    ghost var found: seq<string> := [];
    var start, depth, quote, index := opening + 1, 1, None, opening + 1;
    ghost var whole := Parts(sql[start..], "", 1, None);
    FormsOfNone();
    AheadAtStart(sql, start);
    assert (whole.Some? ==> found + whole.value == whole.value);
    while index < |sql|
      invariant opening < start <= index <= |sql| && depth > 0
      invariant parts == Forms(found)
      invariant StillToCome(whole, found, Ahead(sql, start, index, depth, quote))
    {
      var c := sql[index];
      AheadStep(sql, start, index, depth, quote);
      if quote.Some? {
        if c == quote.value {
          if index + 1 < |sql| && sql[index + 1] == c {
            index := index + 2;
            continue;
          }
          quote := None;
        }
      } else if OpensQuote(c) {
        quote := Some(Closing(c));
      } else if c == '(' {
        depth := depth + 1;
      } else if c == ')' {
        if depth == 1 {
          parts := TakePart(parts, sql[start..index], found);
          ContractOf(sql, found + [sql[start..index]]);
          return Sorted(Id, parts);
        }
        depth := depth - 1;
      } else if c == ',' && depth == 1 {
        parts := TakePart(parts, sql[start..index], found);
        ghost var rest := Ahead(sql, index + 1, index + 1, 1, None);
        if rest.Some? {
          assert found + ([sql[start..index]] + rest.value) == (found + [sql[start..index]]) + rest.value;
        }
        found := found + [sql[start..index]];
        start := index + 1;
      }
      index := index + 1;
    }
    NothingAhead(sql, start, depth, quote);
    ContractOfNone(sql);
    return MALFORMED;
  }

  lemma FormsOfNone()
    ensures Forms([]) == []
  {
  }

  // ----- the text of a list of declarations --------------------------------------------------------------------------

  /** From inside `depth` parentheses and perhaps a quote, `d` comes back to the top level
      without leaving it and without a comma there. */
  predicate Declaration(d: string, depth: nat, quote: Option<char>)
    decreases |d|
  {
    if d == "" then depth == 0 && quote.None?
    else
      var c := d[0];
      if quote.Some? then
        if c != quote.value then Declaration(d[1..], depth, quote)
        else if |d| > 1 && d[1] == c then Declaration(d[2..], depth, quote)
        else Declaration(d[1..], depth, None)
      else if OpensQuote(c) then Declaration(d[1..], depth, Some(Closing(c)))
      else if c == '(' then Declaration(d[1..], depth + 1, None)
      else if c == ')' then depth > 0 && Declaration(d[1..], depth - 1, None)
      else (c == ',' ==> depth > 0) && Declaration(d[1..], depth, None)
  }

  predicate WellFormed(d: string) {
    Declaration(d, 0, None)
  }

  function Joined(decls: seq<string>): string {
    if decls == [] then "" else if |decls| == 1 then decls[0] else decls[0] + "," + Joined(decls[1..])
  }

  predicate QuoteOf(quote: Option<char>) {
    quote.Some? ==> quote.value in "'\"`]"
  }

  /** The scanner goes through a declaration and comes out at the top level. */
  lemma {:induction false} ScansThrough(d: string, rest: string, current: string, depth: nat, quote: Option<char>)
    requires Declaration(d, depth, quote) && QuoteOf(quote)
    requires rest != "" && (rest[0] == ',' || rest[0] == ')')
    ensures Parts(d + rest, current, depth + 1, quote) == Parts(rest, current + d, 1, None)
    decreases |d|
  {
    var s := d + rest;
    if d == "" {
      assert s == rest && current + d == current;
    } else {
      var c := d[0];
      assert s[0] == c && s[1..] == d[1..] + rest;
      assert current + [c] + d[1..] == current + d;
      if quote.Some? && c == quote.value && |d| > 1 && d[1] == c {
        assert s[2..] == d[2..] + rest && current + [c, c] + d[2..] == current + d;
        ScansThrough(d[2..], rest, current + [c, c], depth, quote);
      } else if quote.Some? {
        assert |d| == 1 ==> s[1] == rest[0];
        ScansThrough(d[1..], rest, current + [c], depth, if c == quote.value then None else quote);
      } else if OpensQuote(c) {
        ScansThrough(d[1..], rest, current + [c], depth, Some(Closing(c)));
      } else if c == '(' {
        ScansThrough(d[1..], rest, current + [c], depth + 1, None);
      } else if c == ')' {
        ScansThrough(d[1..], rest, current + [c], depth - 1, None);
      } else {
        ScansThrough(d[1..], rest, current + [c], depth, None);
      }
    }
  }

  lemma AtTheEnd(tail: string, current: string)
    ensures Parts(")" + tail, current, 1, None) == Some([current])
  {
  }

  lemma AtAComma(more: string, current: string)
    ensures Parts("," + more, current, 1, None) ==
      match Parts(more, "", 1, None)
      case None => None
      case Some(rest) => Some([current] + rest)
  {
    assert ("," + more)[1..] == more;
  }

  lemma {:induction false} JoinedParts(decls: seq<string>, tail: string)
    requires decls != [] && forall i :: 0 <= i < |decls| ==> WellFormed(decls[i])
    ensures Parts(Joined(decls) + ")" + tail, "", 1, None) == Some(decls)
  {
    hide Parts, Declaration;
    var d := decls[0];
    assert "" + d == d;
    if |decls| == 1 {
      var rest := ")" + tail;
      assert Joined(decls) + ")" + tail == d + rest;
      ScansThrough(d, rest, "", 0, None);
      AtTheEnd(tail, d);
      assert decls == [d];
    } else {
      var more := Joined(decls[1..]) + ")" + tail;
      var rest := "," + more;
      assert Joined(decls) + ")" + tail == d + rest;
      ScansThrough(d, rest, "", 0, None);
      AtAComma(more, d);
      JoinedParts(decls[1..], tail);
      assert decls == [d] + decls[1..];
    }
  }

  lemma {:induction false} OpeningAfter(head: string, body: string)
    requires '(' !in head
    ensures FirstOpening(head + "(" + body) == |head|
  {
    var s := head + "(" + body;
    if head != "" {
      assert s[1..] == head[1..] + "(" + body;
      OpeningAfter(head[1..], body);
    }
  }

  /** MAIN: the contract of a statement whose declarations are well formed is exactly the
      sorted list of their normal forms, the empty ones left out. */
  lemma ContractIsSortedForms(head: string, decls: seq<string>, tail: string)
    requires '(' !in head && forall i :: 0 <= i < |decls| ==> WellFormed(decls[i])
    ensures Contract(head + "(" + Joined(decls) + ")" + tail) == Sorted(Id, Forms(decls))
  {
    hide Normal, Parts, Joined, Sorted, Forms, WellFormed, Contract, FirstOpening;
    var body := Joined(decls) + ")" + tail;
    var sql := head + "(" + body;
    assert sql == head + "(" + Joined(decls) + ")" + tail;
    OpeningAfter(head, body);
    assert sql[|head| + 1..] == body;
    if decls == [] {
      NothingJoined(tail);
      AtTheEnd(tail, "");
      EmptyHasNoForm();
      ContractOf(sql, [""]);
    } else {
      JoinedParts(decls, tail);
      ContractOf(sql, decls);
    }
  }

  lemma NothingJoined(tail: string)
    ensures Joined([]) + ")" + tail == ")" + tail
  {
  }

  lemma EmptyHasNoForm()
    ensures Forms([""]) == Forms([]) == []
  {
  }

  lemma FormsInserted(before: seq<string>, part: string, after: seq<string>)
    ensures multiset(Forms(before + [part] + after)) == multiset(Forms([part])) + multiset(Forms(before + after))
  {
    hide Forms;
    FormsAppend(before + [part], after);
    FormsAppend(before, [part]);
    FormsAppend(before, after);
  }

  /** The first element of `a` found in `b`, which has the same elements. */
  lemma FoundIn(a: seq<string>, b: seq<string>) returns (j: nat)
    requires a != [] && multiset(a) == multiset(b)
    ensures j < |b| && b[j] == a[0] && multiset(a[1..]) == multiset(b[..j] + b[j + 1..])
  {
    MemberByMultiset(a, b);
    assert a[0] in a && a[0] in b;
    j :| 0 <= j < |b| && b[j] == a[0];
    assert a == [a[0]] + a[1..] && b == b[..j] + [b[j]] + b[j + 1..];
    assert multiset(a[1..]) == multiset(a) - multiset{a[0]};
  }

  lemma {:induction false} FormsFollowMultiset(a: seq<string>, b: seq<string>)
    requires multiset(a) == multiset(b)
    ensures multiset(Forms(a)) == multiset(Forms(b))
    decreases |a|
  {
    hide Normal, Forms;
    if a == [] {
      assert |multiset(b)| == 0;
    } else {
      var j := FoundIn(a, b);
      FormsFollowMultiset(a[1..], b[..j] + b[j + 1..]);
      FormsAppend([a[0]], a[1..]);
      FormsInserted(b[..j], b[j], b[j + 1..]);
      assert a == [a[0]] + a[1..] && b == b[..j] + [a[0]] + b[j + 1..];
    }
  }

  /** MAIN: so the order of the declarations does not matter. */
  lemma ContractIgnoresOrder(head: string, a: seq<string>, b: seq<string>, tail: string)
    requires '(' !in head && multiset(a) == multiset(b)
    requires forall i :: 0 <= i < |a| ==> WellFormed(a[i])
    ensures Contract(head + "(" + Joined(a) + ")" + tail) == Contract(head + "(" + Joined(b) + ")" + tail)
  {
    hide Normal, Contract, Joined;
    MemberByMultiset(a, b);
    forall i | 0 <= i < |b| ensures WellFormed(b[i]) {
      assert b[i] in a;
    }
    ContractIsSortedForms(head, a, tail);
    ContractIsSortedForms(head, b, tail);
    FormsFollowMultiset(a, b);
    SortIsOrderIndependent(Id, Forms(a), Forms(b));
  }
}
