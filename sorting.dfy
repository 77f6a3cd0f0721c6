/**
 * The orderings `ORDER BY` produces. A row's sort key is the list of its
 * columns named in the `ORDER BY` clause, compared column by column with
 * the string order of PhpStrings; rows with equal keys (ties) may come in
 * any order.
 */
module Sorting {
  import opened PhpStrings

  /** Column-by-column comparison of two sort keys. */
  predicate KeyLe(a: seq<string>, b: seq<string>)
    decreases |a|
  {
    |a| == 0 || (|b| > 0 && (StrLt(a[0], b[0]) || (a[0] == b[0] && KeyLe(a[1..], b[1..]))))
  }

  lemma {:induction false} KeyLeTotal(a: seq<string>, b: seq<string>)
    ensures KeyLe(a, b) || KeyLe(b, a)
    decreases |a|
  {
    if |a| > 0 && |b| > 0 {
      StrLeTotal(a[0], b[0]);
      if a[0] == b[0] {
        KeyLeTotal(a[1..], b[1..]);
      }
    }
  }

  lemma {:induction false} KeyLeTransitive(a: seq<string>, b: seq<string>, c: seq<string>)
    requires KeyLe(a, b) && KeyLe(b, c)
    ensures KeyLe(a, c)
    decreases |a|
  {
    if |a| > 0 {
      if StrLt(a[0], b[0]) && StrLt(b[0], c[0]) {
        StrLeTransitive(a[0], b[0], c[0]);
        if a[0] == c[0] {
          StrLeAntisymmetric(a[0], b[0]);
        }
      } else if StrLt(a[0], b[0]) {
        assert b[0] == c[0];
      } else if StrLt(b[0], c[0]) {
        assert a[0] == b[0];
      } else {
        KeyLeTransitive(a[1..], b[1..], c[1..]);
      }
    }
  }

  lemma {:induction false} KeyLeReflexive(a: seq<string>)
    ensures KeyLe(a, a)
    decreases |a|
  {
    if |a| > 0 {
      KeyLeReflexive(a[1..]);
    }
  }

  ghost predicate SortedBy<T>(xs: seq<T>, key: T -> seq<string>) {
    forall i, j :: 0 <= i < j < |xs| ==> KeyLe(key(xs[i]), key(xs[j]))
  }

  /** No element occurs twice. */
  ghost predicate NoDuplicates<T>(xs: seq<T>) {
    forall i, j :: 0 <= i < j < |xs| ==> xs[i] != xs[j]
  }

  /** A sorted sequence stays sorted under a new head whose key is below all of its keys. */
  lemma PrependLeast<T>(y: T, rest: seq<T>, key: T -> seq<string>)
    requires SortedBy(rest, key)
    requires forall j :: 0 <= j < |rest| ==> KeyLe(key(y), key(rest[j]))
    ensures SortedBy([y] + rest, key)
  {
    var r := [y] + rest;
    forall i, j | 0 <= i < j < |r| ensures KeyLe(key(r[i]), key(r[j])) {
      if i > 0 {
        assert r[i] == rest[i - 1] && r[j] == rest[j - 1];
      }
    }
  }

  /** The head of a sorted sequence is below every later element. */
  lemma HeadIsLeast<T>(x: T, xs: seq<T>, key: T -> seq<string>)
    requires xs != [] && SortedBy(xs, key) && KeyLe(key(x), key(xs[0]))
    ensures forall j :: 0 <= j < |xs| ==> KeyLe(key(x), key(xs[j]))
  {
    forall j | 0 <= j < |xs| ensures KeyLe(key(x), key(xs[j])) {
      if j > 0 {
        KeyLeTransitive(key(x), key(xs[0]), key(xs[j]));
      }
    }
  }

  /** Inserting an element above the head keeps the head below everything that follows it. */
  lemma HeadStaysLeast<T>(x: T, xs: seq<T>, rest: seq<T>, key: T -> seq<string>)
    requires xs != [] && SortedBy(xs, key) && !KeyLe(key(x), key(xs[0]))
    requires multiset(rest) == multiset(xs[1..]) + multiset{x}
    ensures forall j :: 0 <= j < |rest| ==> KeyLe(key(xs[0]), key(rest[j]))
  {
    KeyLeTotal(key(x), key(xs[0]));
    forall j | 0 <= j < |rest| ensures KeyLe(key(xs[0]), key(rest[j])) {
      var y := rest[j];
      assert y in multiset(rest);
      if y != x {
        assert y in multiset(xs[1..]);
        var k :| 0 <= k < |xs[1..]| && xs[1..][k] == y;
        assert xs[k + 1] == y;
      }
    }
  }

  /** `x` placed before the first element whose key is not below its own. */
  function InsertBy<T>(x: T, xs: seq<T>, key: T -> seq<string>): (r: seq<T>)
    ensures multiset(r) == multiset(xs) + multiset{x}
    ensures SortedBy(xs, key) ==> SortedBy(r, key)
  {
    if xs == [] then [x]
    else if KeyLe(key(x), key(xs[0])) then
      assert SortedBy(xs, key) ==> SortedBy([x] + xs, key) by {
        if SortedBy(xs, key) {
          HeadIsLeast(x, xs, key);
          PrependLeast(x, xs, key);
        }
      }
      [x] + xs
    else
      var rest := InsertBy(x, xs[1..], key);
      assert xs == [xs[0]] + xs[1..];
      assert SortedBy(xs, key) ==> SortedBy([xs[0]] + rest, key) by {
        if SortedBy(xs, key) {
          assert SortedBy(xs[1..], key);
          HeadStaysLeast(x, xs, rest, key);
          PrependLeast(xs[0], rest, key);
        }
      }
      [xs[0]] + rest
  }

  /** An insertion sort: a sorted permutation of `xs`. */
  function SortBy<T>(xs: seq<T>, key: T -> seq<string>): (r: seq<T>)
    ensures SortedBy(r, key)
    ensures multiset(r) == multiset(xs)
  {
    if xs == [] then []
    else
      assert xs == [xs[0]] + xs[1..];
      InsertBy(xs[0], SortBy(xs[1..], key), key)
  }

  /** A permutation of a sequence without duplicates has none either. */
  lemma PermutationKeepsNoDuplicates<T>(xs: seq<T>, ys: seq<T>)
    requires NoDuplicates(xs) && multiset(xs) == multiset(ys)
    ensures NoDuplicates(ys)
  {
    forall i, j | 0 <= i < j < |ys| ensures ys[i] != ys[j] {
      if ys[i] == ys[j] {
        assert ys == ys[..i] + [ys[i]] + ys[i + 1..j] + [ys[j]] + ys[j + 1..];
        assert multiset(ys)[ys[i]] >= 2;
        CountAtMostOne(xs, ys[i]);
      }
    }
  }

  lemma {:induction false} CountAtMostOne<T>(xs: seq<T>, x: T)
    requires NoDuplicates(xs)
    ensures multiset(xs)[x] <= 1
  {
    if xs != [] {
      assert xs == [xs[0]] + xs[1..];
      assert NoDuplicates(xs[1..]);
      CountAtMostOne(xs[1..], x);
      if xs[0] == x {
        assert x !in xs[1..];
      }
    }
  }

  /** The elements of a finite set, each once, in some order. */
  method Enumerate<T(==)>(s: set<T>) returns (xs: seq<T>)
    ensures NoDuplicates(xs)
    ensures forall x :: x in xs <==> x in s
    ensures |xs| == |s|
  {
    xs := [];
    var rest := s;
    while rest != {}
      invariant rest <= s
      invariant |xs| + |rest| == |s|
      invariant NoDuplicates(xs)
      invariant forall x :: x in xs ==> x in s && x !in rest
      invariant forall x :: x in s ==> x in xs || x in rest
      decreases |rest|
    {
      var x :| x in rest;
      xs := xs + [x];
      rest := rest - {x};
    }
  }

  /** Sorting keeps exactly the elements it was given. */
  lemma SortByMembers<T>(xs: seq<T>, key: T -> seq<string>)
    ensures forall x :: x in SortBy(xs, key) <==> x in xs
  {
    var r := SortBy(xs, key);
    forall x ensures x in r <==> x in xs {
      assert x in r <==> x in multiset(r);
      assert x in xs <==> x in multiset(xs);
    }
  }
}
