/** Code-point order on strings and sorting by a string key, as Python's
    `sorted` and `list.sort` define them. */
module Ordering {
  predicate Less(a: string, b: string) {
    if |b| == 0 then false
    else if |a| == 0 then true
    else if a[0] != b[0] then a[0] < b[0]
    else Less(a[1..], b[1..])
  }

  predicate Leq(a: string, b: string) {
    a == b || Less(a, b)
  }

  /** The two strings first differ at `n`, the one has the smaller code point there. */
  predicate DiffersAt(a: string, b: string, n: int) {
    0 <= n < |a| && n < |b| && a[..n] == b[..n] && a[n] < b[n]
  }

  /** A string comes before another if it is a proper prefix of it, or smaller where they differ. */
  lemma {:induction false} LessExactly(a: string, b: string)
    ensures Less(a, b) <==> (|a| < |b| && b[..|a|] == a) || exists n :: DiffersAt(a, b, n)
  {
    if a != "" && b != "" {
      assert a == [a[0]] + a[1..] && b == [b[0]] + b[1..];
      if a[0] != b[0] {
        assert DiffersAt(a, b, 0) <==> a[0] < b[0];
        assert forall n :: DiffersAt(a, b, n) && n > 0 ==> a[..n][0] == b[..n][0];
      } else {
        LessExactly(a[1..], b[1..]);
        forall n | DiffersAt(a, b, n) ensures DiffersAt(a[1..], b[1..], n - 1) {
          assert a[..n][1..] == a[1..][..n - 1] && b[..n][1..] == b[1..][..n - 1];
        }
        forall n | DiffersAt(a[1..], b[1..], n) ensures DiffersAt(a, b, n + 1) {
          assert a[..n + 1] == [a[0]] + a[1..][..n] && b[..n + 1] == [b[0]] + b[1..][..n];
        }
        assert |a| < |b| ==> (b[..|a|] == a <==> b[1..][..|a| - 1] == a[1..]) by {
          if |a| < |b| {
            assert b[..|a|] == [b[0]] + b[1..][..|a| - 1];
          }
        }
      }
    }
  }

  lemma {:induction false} LessIrreflexive(a: string)
    ensures !Less(a, a)
  {
    if |a| > 0 {
      LessIrreflexive(a[1..]);
    }
  }

  lemma {:induction false} LessTransitive(a: string, b: string, c: string)
    requires Less(a, b) && Less(b, c)
    ensures Less(a, c)
  {
    if |a| > 0 && a[0] == b[0] == c[0] {
      LessTransitive(a[1..], b[1..], c[1..]);
    }
  }

  lemma {:induction false} LessTotal(a: string, b: string)
    ensures a == b || Less(a, b) || Less(b, a)
  {
    if |a| > 0 && |b| > 0 && a[0] == b[0] {
      LessTotal(a[1..], b[1..]);
      if a[1..] == b[1..] {
        assert a == [a[0]] + a[1..] == b;
      }
    }
  }

  lemma LessAsymmetric(a: string, b: string)
    requires Less(a, b)
    ensures !Less(b, a)
  {
  }

  ghost predicate SortedBy<T(!new)>(key: T -> string, xs: seq<T>) {
    forall i, j :: 0 <= i < j < |xs| ==> Leq(key(xs[i]), key(xs[j]))
  }

  ghost predicate StrictlySortedBy<T(!new)>(key: T -> string, xs: seq<T>) {
    forall i, j :: 0 <= i < j < |xs| ==> Less(key(xs[i]), key(xs[j]))
  }

  function Insert<T>(key: T -> string, x: T, xs: seq<T>): (r: seq<T>)
    ensures multiset(r) == multiset{x} + multiset(xs)
  {
    if xs == [] then [x]
    else if Leq(key(x), key(xs[0])) then [x] + xs
    else
      assert xs == [xs[0]] + xs[1..];
      [xs[0]] + Insert(key, x, xs[1..])
  }

  /** The stable result of `sorted(xs, key=key)`. */
  function Sorted<T>(key: T -> string, xs: seq<T>): (r: seq<T>)
    ensures multiset(r) == multiset(xs)
  {
    if xs == [] then []
    else
      assert xs == [xs[0]] + xs[1..];
      Insert(key, xs[0], Sorted(key, xs[1..]))
  }

  lemma MemberByMultiset<T>(a: seq<T>, b: seq<T>)
    requires multiset(a) == multiset(b)
    ensures |a| == |b|
    ensures forall x :: x in a <==> x in b
  {
    assert |multiset(a)| == |multiset(b)|;
    assert forall x :: x in a <==> x in multiset(a);
    assert forall x :: x in b <==> x in multiset(b);
  }

  lemma ConsSorts<T(!new)>(key: T -> string, x: T, ys: seq<T>)
    requires SortedBy(key, ys)
    requires forall i :: 0 <= i < |ys| ==> Leq(key(x), key(ys[i]))
    ensures SortedBy(key, [x] + ys)
  {
  }

  lemma {:induction false} InsertSorts<T(!new)>(key: T -> string, x: T, xs: seq<T>)
    requires SortedBy(key, xs)
    ensures SortedBy(key, Insert(key, x, xs))
  {
    if xs == [] {
    } else if Leq(key(x), key(xs[0])) {
      forall i | 0 <= i < |xs| ensures Leq(key(x), key(xs[i])) {
        if i > 0 && key(x) != key(xs[0]) && key(xs[0]) != key(xs[i]) {
          LessTransitive(key(x), key(xs[0]), key(xs[i]));
        }
      }
      ConsSorts(key, x, xs);
    } else {
      LessTotal(key(x), key(xs[0]));
      var rest := Insert(key, x, xs[1..]);
      InsertSorts(key, x, xs[1..]);
      MemberByMultiset(rest, [x] + xs[1..]);
      forall i | 0 <= i < |rest| ensures Leq(key(xs[0]), key(rest[i])) {
        assert rest[i] in [x] + xs[1..];
      }
      ConsSorts(key, xs[0], rest);
    }
  }

  lemma {:induction false} SortedSorts<T(!new)>(key: T -> string, xs: seq<T>)
    ensures SortedBy(key, Sorted(key, xs))
  {
    if xs != [] {
      SortedSorts(key, xs[1..]);
      InsertSorts(key, xs[0], Sorted(key, xs[1..]));
    }
  }

  lemma TailMultiset<T>(xs: seq<T>)
    requires xs != []
    ensures multiset(xs[1..]) == multiset(xs) - multiset{xs[0]}
  {
    assert xs == [xs[0]] + xs[1..];
  }

  lemma SortedHead<T(!new)>(key: T -> string, a: seq<T>, x: T)
    requires SortedBy(key, a) && x in a
    ensures Leq(key(a[0]), key(x))
  {
  }

  /** A sorted list is determined by its members, when the key is injective on them. */
  lemma {:induction false} SortedUnique<T(!new)>(key: T -> string, a: seq<T>, b: seq<T>)
    requires SortedBy(key, a) && SortedBy(key, b)
    requires multiset(a) == multiset(b)
    requires forall x, y :: x in a && y in a && key(x) == key(y) ==> x == y
    ensures a == b
  {
    MemberByMultiset(a, b);
    if a != [] {
      assert a[0] == b[0] by {
        assert a[0] in b && b[0] in a;
        SortedHead(key, a, b[0]);
        SortedHead(key, b, a[0]);
        if key(a[0]) != key(b[0]) {
          LessAsymmetric(key(a[0]), key(b[0]));
          assert false;
        }
      }
      TailMultiset(a);
      TailMultiset(b);
      forall x, y | x in a[1..] && y in a[1..] && key(x) == key(y) ensures x == y {
        assert x in a && y in a;
      }
      SortedUnique(key, a[1..], b[1..]);
      assert a == [a[0]] + a[1..] && b == [b[0]] + b[1..];
    }
  }

  /** `sorted` does not depend on the order its input is listed in. */
  lemma SortIsOrderIndependent<T(!new)>(key: T -> string, xs: seq<T>, ys: seq<T>)
    requires multiset(xs) == multiset(ys)
    requires forall x, y :: x in xs && y in xs && key(x) == key(y) ==> x == y
    ensures Sorted(key, xs) == Sorted(key, ys)
  {
    SortedSorts(key, xs);
    SortedSorts(key, ys);
    MemberByMultiset(xs, Sorted(key, xs));
    SortedUnique(key, Sorted(key, xs), Sorted(key, ys));
  }

  lemma DistinctSortIsStrict<T(!new)>(key: T -> string, xs: seq<T>)
    requires forall i, j :: 0 <= i < j < |xs| ==> key(xs[i]) != key(xs[j])
    ensures StrictlySortedBy(key, Sorted(key, xs))
  {
    SortedSorts(key, xs);
    var r := Sorted(key, xs);
    forall i, j | 0 <= i < j < |r| ensures Less(key(r[i]), key(r[j])) {
      if key(r[i]) == key(r[j]) {
        DistinctKeysSurvive(key, xs, r, i, j);
      }
    }
  }

  /** Distinct keys stay distinct under reordering. */
  lemma DistinctKeysSurvive<T(!new)>(key: T -> string, xs: seq<T>, r: seq<T>, i: nat, j: nat)
    requires multiset(xs) == multiset(r)
    requires forall i, j :: 0 <= i < j < |xs| ==> key(xs[i]) != key(xs[j])
    requires i < j < |r|
    ensures key(r[i]) != key(r[j])
  {
    MemberByMultiset(xs, r);
    if r[i] == r[j] {
      SplitTwice(r, i, j);
      OnceEach(xs, r[i]);
    } else {
      assert r[i] in xs && r[j] in xs;
    }
  }

  lemma SplitTwice<T>(r: seq<T>, i: nat, j: nat)
    requires i < j < |r| && r[i] == r[j]
    ensures multiset(r)[r[i]] >= 2
  {
    assert r == r[..i] + [r[i]] + r[i + 1..j] + [r[j]] + r[j + 1..];
  }

  lemma {:induction false} OnceEach<T>(xs: seq<T>, x: T)
    requires forall i, j :: 0 <= i < j < |xs| ==> xs[i] != xs[j]
    ensures multiset(xs)[x] <= 1
  {
    if xs != [] {
      OnceEach(xs[1..], x);
      assert xs == [xs[0]] + xs[1..];
      if xs[0] == x {
        assert x !in xs[1..];
        assert multiset(xs[1..])[x] == 0;
      }
    }
  }
}
