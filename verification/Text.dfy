/** Strings as Python's str methods see them. Lower case is ASCII. */
module Text {
  predicate StartsWith(s: string, prefix: string) {
    |prefix| <= |s| && s[..|prefix|] == prefix
  }

  /** White space for str.strip and str.isspace. */
  predicate Space(c: char) {
    '\t' <= c <= '\r' || '\U{1c}' <= c <= ' ' || c == '\U{85}' || c == '\U{a0}' || c == '\U{1680}'
    || '\U{2000}' <= c <= '\U{200a}' || c == '\U{2028}' || c == '\U{2029}' || c == '\U{202f}'
    || c == '\U{205f}' || c == '\U{3000}'
  }

  function TrimStart(s: string): string {
    if s != "" && Space(s[0]) then TrimStart(s[1..]) else s
  }

  function TrimEnd(s: string): string {
    if s != "" && Space(s[|s| - 1]) then TrimEnd(s[..|s| - 1]) else s
  }

  function Strip(s: string): string {
    TrimEnd(TrimStart(s))
  }

  function LowerChar(c: char): char {
    if 'A' <= c <= 'Z' then c - 'A' + 'a' else c
  }

  function Lower(s: string): string {
    seq(|s|, i requires 0 <= i < |s| => LowerChar(s[i]))
  }

  function Fold(s: string): string {
    Lower(Strip(s))
  }

  lemma {:induction false} TrimStartExactly(s: string) returns (i: nat)
    ensures i <= |s| && TrimStart(s) == s[i..] && forall x :: 0 <= x < i ==> Space(s[x])
    ensures i < |s| ==> !Space(s[i])
  {
    if s != "" && Space(s[0]) {
      var j := TrimStartExactly(s[1..]);
      i := j + 1;
      assert forall x :: 0 < x < i ==> s[x] == s[1..][x - 1];
      assert s[1..][j..] == s[i..];
    } else {
      i := 0;
      assert s[0..] == s;
    }
  }

  lemma {:induction false} TrimEndExactly(s: string) returns (j: nat)
    ensures j <= |s| && TrimEnd(s) == s[..j] && forall x :: j <= x < |s| ==> Space(s[x])
    ensures j > 0 ==> !Space(s[j - 1])
  {
    if s != "" && Space(s[|s| - 1]) {
      j := TrimEndExactly(s[..|s| - 1]);
      assert s[..|s| - 1][..j] == s[..j];
    } else {
      j := |s|;
      assert s[..|s|] == s;
    }
  }

  /** Stripping cuts the white space off both ends and nothing else. */
  lemma StripExactly(s: string) returns (i: nat, j: nat)
    ensures i <= j <= |s| && Strip(s) == s[i..j]
    ensures forall x :: 0 <= x < i || j <= x < |s| ==> Space(s[x])
    ensures i < j ==> !Space(s[i]) && !Space(s[j - 1])
  {
    i := TrimStartExactly(s);
    var k := TrimEndExactly(s[i..]);
    j := i + k;
    assert s[i..][..k] == s[i..j];
    assert forall x :: j <= x < |s| ==> s[x] == s[i..][x - i];
    if i < j {
      assert s[i..][k - 1] == s[j - 1];
    }
  }

  /** Spellings of one name that differ in case and in white space around it. */
  lemma FoldedAlike()
    ensures Fold(" Bob\n") == Fold("bOb") == "bob" && Fold("\t\U{a0}") == ""
  {
    assert TrimStart(" Bob\n") == "Bob\n" && TrimEnd("Bob\n") == "Bob";
    assert Strip("bOb") == "bOb";
    assert Lower("Bob") == "bob";
    assert Lower("bOb") == "bob";
    assert TrimStart("\t\U{a0}") == TrimStart("\U{a0}") == "";
  }
}
