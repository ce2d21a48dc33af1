/** The digest pre-image of `ui_publication.py`: one line per tree entry, fields separated
    by NUL. Reading the text back gives the very records it was written from. */
module UiRecords {
  import opened Outcomes

  /** One entry: its path, size, permission bits, and content digest or "directory". */
  datatype Record = Record(path: string, size: nat, mode: nat, digest: string)

  const NUL: char := '\0'
  const NEWLINE: char := '\n'

  // ----- numerals --------------------------------------------------------------------------------

  function Digit(d: nat): (c: char)
    requires d < 10
    ensures c != NUL && c != NEWLINE
  {
    '0' + d as char
  }

  function DigitValue(c: char): nat {
    if '0' <= c then c as nat - '0' as nat else 0
  }

  /** `str(n)` for base ten, `f"{n:o}"` for base eight. */
  function Numeral(n: nat, base: nat): string
    requires 2 <= base <= 10
    decreases n
  {
    if n < base then [Digit(n)] else Numeral(n / base, base) + [Digit(n % base)]
  }

  function NumeralValue(s: string, base: nat): nat {
    if s == "" then 0 else NumeralValue(s[..|s| - 1], base) * base + DigitValue(s[|s| - 1])
  }

  lemma {:induction false} NumeralReadsBack(n: nat, base: nat)
    requires 2 <= base <= 10
    ensures NumeralValue(Numeral(n, base), base) == n
    ensures NUL !in Numeral(n, base)
  {
    hide NumeralValue;
    if n >= base {
      var q, d := n / base, n % base;
      Quotient(n, base);
      NumeralReadsBack(q, base);
      ValueOfSnoc(Numeral(q, base), d, base);
    } else {
      ValueOfDigit(n, base);
    }
  }

  lemma ValueOfSnoc(s: string, d: nat, base: nat)
    requires d < 10
    ensures NumeralValue(s + [Digit(d)], base) == NumeralValue(s, base) * base + d
  {
    assert (s + [Digit(d)])[..|s|] == s;
  }

  lemma ValueOfDigit(d: nat, base: nat)
    requires d < 10
    ensures NumeralValue([Digit(d)], base) == d
  {
    assert NumeralValue([], base) == 0;
  }

  lemma Quotient(n: nat, base: nat)
    requires 2 <= base
    ensures (n / base) * base + n % base == n && 0 <= n % base < base
    ensures n >= base ==> n / base < n
  {
  }

  // ----- records ---------------------------------------------------------------------------------

  function Line(r: Record): string {
    r.path + [NUL] + Numeral(r.size, 10) + [NUL] + Numeral(r.mode, 8) + [NUL] + r.digest + [NEWLINE]
  }

  function Encode(records: seq<Record>): string {
    if records == [] then "" else Line(records[0]) + Encode(records[1..])
  }

  /** The text before and after the first `stop`. */
  function Cut(s: string, stop: char): (r: Option<(string, string)>)
    ensures r.Some? ==> |r.value.0| + |r.value.1| + 1 == |s|
  {
    if s == "" then None
    else if s[0] == stop then Some(("", s[1..]))
    else
      match Cut(s[1..], stop)
      case None => None
      case Some(parts) => Some(([s[0]] + parts.0, parts.1))
  }

  function Decode(text: string): Option<seq<Record>>
    decreases |text|
  {
    if text == "" then Some([])
    else
      match Cut(text, NUL)
      case None => None
      case Some(path) =>
        match Cut(path.1, NUL)
        case None => None
        case Some(size) =>
          match Cut(size.1, NUL)
          case None => None
          case Some(mode) =>
            match Cut(mode.1, NEWLINE)
            case None => None
            case Some(digest) =>
              match Decode(digest.1)
              case None => None
              case Some(rest) =>
                Some([Record(path.0, NumeralValue(size.0, 10), NumeralValue(mode.0, 8), digest.0)] + rest)
  }

  /** A path holds no NUL (no file name can), and a digest no newline. */
  predicate Writable(r: Record) {
    NUL !in r.path && NEWLINE !in r.digest
  }

  lemma {:induction false} CutAt(a: string, stop: char, b: string)
    requires stop !in a
    ensures Cut(a + [stop] + b, stop) == Some((a, b))
  {
    var s := a + [stop] + b;
    if a == "" {
      assert s[0] == stop && s[1..] == b;
    } else {
      assert s[1..] == a[1..] + [stop] + b;
      assert s[0] in a;
      CutAt(a[1..], stop, b);
      assert a == [a[0]] + a[1..];
    }
  }

  lemma LineCuts(r: Record, rest: string)
    requires Writable(r)
    ensures Cut(Line(r) + rest, NUL) == Some((r.path, AfterPath(r, rest)))
    ensures Cut(AfterPath(r, rest), NUL) == Some((Numeral(r.size, 10), AfterSize(r, rest)))
    ensures Cut(AfterSize(r, rest), NUL) == Some((Numeral(r.mode, 8), AfterMode(r, rest)))
    ensures Cut(AfterMode(r, rest), NEWLINE) == Some((r.digest, rest))
  {
    hide Cut, Numeral;
    NumeralReadsBack(r.size, 10);
    NumeralReadsBack(r.mode, 8);
    CutAt(r.path, NUL, AfterPath(r, rest));
    CutAt(Numeral(r.size, 10), NUL, AfterSize(r, rest));
    CutAt(Numeral(r.mode, 8), NUL, AfterMode(r, rest));
    CutAt(r.digest, NEWLINE, rest);
    assert Line(r) + rest == r.path + [NUL] + AfterPath(r, rest);
    assert AfterMode(r, rest) == r.digest + [NEWLINE] + rest;
  }

  function AfterMode(r: Record, rest: string): string {
    r.digest + [NEWLINE] + rest
  }

  function AfterSize(r: Record, rest: string): string {
    Numeral(r.mode, 8) + [NUL] + AfterMode(r, rest)
  }

  function AfterPath(r: Record, rest: string): string {
    Numeral(r.size, 10) + [NUL] + AfterSize(r, rest)
  }

  /** MAIN: the pre-image is uniquely decodable. */
  lemma {:induction false} DecodeReadsBack(records: seq<Record>)
    requires forall r :: r in records ==> Writable(r)
    ensures Decode(Encode(records)) == Some(records)
  {
    if records != [] {
      var r, rest := records[0], Encode(records[1..]);
      DecodeReadsBack(records[1..]);
      LineCuts(r, rest);
      NumeralReadsBack(r.size, 10);
      NumeralReadsBack(r.mode, 8);
      assert records == [r] + records[1..];
    }
  }

  /** So two lists of records with the same text are the same list. */
  lemma EncodeIsInjective(a: seq<Record>, b: seq<Record>)
    requires forall r :: r in a ==> Writable(r)
    requires forall r :: r in b ==> Writable(r)
    requires Encode(a) == Encode(b)
    ensures a == b
  {
    DecodeReadsBack(a);
    DecodeReadsBack(b);
  }

  /** Without the condition on paths two different lists can have the same text. */
  lemma NulInPathsIsAmbiguous()
    ensures Encode([Record("a" + [NUL] + "1" + [NUL] + "2" + [NUL] + "x" + [NEWLINE] + "b", 3, 4, "y")])
         == Encode([Record("a", 1, 2, "x"), Record("b", 3, 4, "y")])
  {
  }
}
