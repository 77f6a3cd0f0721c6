/**
 * PHP's ordered arrays with string or integer keys, as sequences of key/value
 * pairs: `$a[$k] = $v` keeps the position of an existing key and appends a
 * new one, `unset` drops a key, `array_merge` assigns the right array's
 * entries one by one onto the left (for non-numeric keys).
 */
module PhpArrays {
  import opened Wrappers

  type Assoc<K, V> = seq<(K, V)>

  predicate HasKey<K(==,!new), V>(a: Assoc<K, V>, k: K) {
    exists i :: 0 <= i < |a| && a[i].0 == k
  }

  /** What every PHP array satisfies: no key occurs twice. */
  ghost predicate UniqueKeys<K, V>(a: Assoc<K, V>) {
    forall i, j :: 0 <= i < j < |a| ==> a[i].0 != a[j].0
  }

  lemma HasKeyCons<K(!new), V>(e: (K, V), a: Assoc<K, V>)
    ensures forall x :: HasKey([e] + a, x) <==> x == e.0 || HasKey(a, x)
  {
    var r := [e] + a;
    forall x ensures HasKey(r, x) <==> x == e.0 || HasKey(a, x) {
      if HasKey(a, x) {
        var i :| 0 <= i < |a| && a[i].0 == x;
        assert r[i + 1] == a[i];
      }
      if x == e.0 {
        assert r[0] == e;
      }
      if HasKey(r, x) && x != e.0 {
        var i :| 0 <= i < |r| && r[i].0 == x;
        assert a[i - 1] == r[i];
      }
    }
  }

  lemma UniqueKeysCons<K(!new), V>(e: (K, V), a: Assoc<K, V>)
    ensures UniqueKeys([e] + a) <==> UniqueKeys(a) && !HasKey(a, e.0)
  {
    var r := [e] + a;
    assert forall i :: 1 <= i < |r| ==> r[i] == a[i - 1];
    if UniqueKeys(r) {
      forall i | 0 <= i < |a| ensures a[i].0 != e.0 {
        assert r[0] == e && r[i + 1] == a[i];
      }
    }
    if UniqueKeys(r) {
      forall i, j | 0 <= i < j < |a| ensures a[i].0 != a[j].0 {
        assert r[i + 1] == a[i] && r[j + 1] == a[j];
      }
    }
    if UniqueKeys(a) && !HasKey(a, e.0) {
      forall i, j | 0 <= i < j < |r| ensures r[i].0 != r[j].0 {
        if i == 0 {
          assert r[j] == a[j - 1];
        }
      }
    }
  }

  lemma HasKeySnoc<K(!new), V>(a: Assoc<K, V>, e: (K, V))
    ensures forall x :: HasKey(a + [e], x) <==> x == e.0 || HasKey(a, x)
  {
    var r := a + [e];
    forall x ensures HasKey(r, x) <==> x == e.0 || HasKey(a, x) {
      if HasKey(a, x) {
        var i :| 0 <= i < |a| && a[i].0 == x;
        assert r[i] == a[i];
      }
      if x == e.0 {
        assert r[|a|] == e;
      }
      if HasKey(r, x) && x != e.0 {
        var i :| 0 <= i < |r| && r[i].0 == x;
        assert a[i] == r[i];
      }
    }
  }

  /** `$a[$k] ?? null`. */
  function Get<K(==,!new), V>(a: Assoc<K, V>, k: K): (r: Option<V>)
    ensures r.Some? <==> HasKey(a, k)
    ensures r.Some? ==> exists i :: 0 <= i < |a| && a[i] == (k, r.value)
    ensures UniqueKeys(a) ==> forall i :: 0 <= i < |a| && a[i].0 == k ==> r == Some(a[i].1)
  {
    if a == [] then None
    else if a[0].0 == k then Some(a[0].1)
    else
      var r := Get(a[1..], k);
      assert forall i :: 1 <= i < |a| ==> a[i] == a[1..][i - 1];
      r
  }

  /** `$a[$k] = $v`. */
  function Assign<K(==,!new), V>(a: Assoc<K, V>, k: K, v: V): (r: Assoc<K, V>)
    ensures !HasKey(a, k) ==> r == a + [(k, v)]
    ensures HasKey(a, k) && UniqueKeys(a) ==>
      (|r| == |a| && forall i :: 0 <= i < |a| ==> r[i] == (if a[i].0 == k then (k, v) else a[i]))
    ensures UniqueKeys(a) ==> UniqueKeys(r)
  {
    if a == [] then
      HasKeyCons((k, v), []);
      [(k, v)]
    else
      assert a == [a[0]] + a[1..];
      HasKeyCons(a[0], a[1..]);
      UniqueKeysCons(a[0], a[1..]);
      if a[0].0 == k then
        var r := [(k, v)] + a[1..];
        HasKeyCons((k, v), a[1..]);
        UniqueKeysCons((k, v), a[1..]);
        r
      else
        var rest := Assign(a[1..], k, v);
        var r := [a[0]] + rest;
        HasKeyCons(a[0], rest);
        UniqueKeysCons(a[0], rest);
        r
  }

  /** After `$a[$k] = $v`, reading `k` gives `v` and reading any other key gives what it gave before. */
  lemma {:induction false} GetAssign<K(!new), V>(a: Assoc<K, V>, k: K, v: V, x: K)
    ensures Get(Assign(a, k, v), x) == if x == k then Some(v) else Get(a, x)
    decreases |a|
  {
    if a != [] && a[0].0 != k {
      GetAssign(a[1..], k, v, x);
      assert Assign(a, k, v)[1..] == Assign(a[1..], k, v);
    }
  }

  /** The entries of `a` except the one with key `k`, in order (`unset($a[$k])`). */
  function Unset<K(==,!new), V>(a: Assoc<K, V>, k: K): (r: Assoc<K, V>)
    ensures !HasKey(r, k)
    ensures forall x :: x != k ==> (HasKey(r, x) <==> HasKey(a, x))
    ensures UniqueKeys(a) ==> UniqueKeys(r)
  {
    if a == [] then []
    else
      var rest := Unset(a[1..], k);
      assert a == [a[0]] + a[1..];
      HasKeyCons(a[0], a[1..]);
      UniqueKeysCons(a[0], a[1..]);
      if a[0].0 == k then rest
      else
        var r := [a[0]] + rest;
        HasKeyCons(a[0], rest);
        UniqueKeysCons(a[0], rest);
        r
  }

  /** After `unset($a[$k])`, reading `k` gives nothing and reading any other key gives what it gave before. */
  lemma {:induction false} GetUnset<K(!new), V>(a: Assoc<K, V>, k: K, x: K)
    ensures Get(Unset(a, k), x) == if x == k then None else Get(a, x)
    decreases |a|
  {
    if a != [] {
      GetUnset(a[1..], k, x);
      if a[0].0 != k {
        assert Unset(a, k)[1..] == Unset(a[1..], k);
      }
    }
  }

  /** `array_merge($a, $b)` for arrays whose keys are not numeric strings. */
  function Merge<K(==,!new), V>(a: Assoc<K, V>, b: Assoc<K, V>): Assoc<K, V>
    decreases |b|
  {
    if b == [] then a else Merge(Assign(a, b[0].0, b[0].1), b[1..])
  }

  /** The value `b` leaves for `k` once merged over `w`: its own, if it has one. */
  function MergedValue<K(==,!new), V>(w: V, b: Assoc<K, V>, k: K): V {
    Get(b, k).GetOr(w)
  }

  /**
   * Merging `b` over an array that starts with `(k, w)` and otherwise holds
   * keys `b` does not have keeps `k` first, with `b`'s value for it if any,
   * and appends `b`'s other entries in their order.
   */
  lemma {:induction false} MergeOverFront<K(!new), V>(k: K, w: V, c: Assoc<K, V>, b: Assoc<K, V>)
    requires UniqueKeys(b)
    requires !HasKey(c, k)
    requires forall i :: 0 <= i < |b| ==> !HasKey(c, b[i].0)
    ensures Merge([(k, w)] + c, b) == [(k, MergedValue(w, b, k))] + c + Unset(b, k)
    decreases |b|, 1
  {
    if b != [] {
      if b[0].0 == k {
        MergeOverFrontSame(k, w, c, b);
      } else {
        MergeOverFrontOther(k, w, c, b);
      }
    }
  }

  lemma {:induction false} MergeOverFrontSame<K(!new), V>(k: K, w: V, c: Assoc<K, V>, b: Assoc<K, V>)
    requires UniqueKeys(b) && b != [] && b[0].0 == k
    requires !HasKey(c, k)
    requires forall i :: 0 <= i < |b| ==> !HasKey(c, b[i].0)
    ensures Merge([(k, w)] + c, b) == [(k, MergedValue(w, b, k))] + c + Unset(b, k)
    decreases |b|, 0
  {
    var e, b1 := b[0], b[1..];
    assert b == [e] + b1;
    UniqueKeysCons(e, b1);
    assert forall i :: 0 <= i < |b1| ==> b1[i] == b[i + 1];
    MergeFrontSame(k, w, c, b);
    MergeOverFront(k, e.1, c, b1);
  }

  lemma {:induction false} MergeOverFrontOther<K(!new), V>(k: K, w: V, c: Assoc<K, V>, b: Assoc<K, V>)
    requires UniqueKeys(b) && b != [] && b[0].0 != k
    requires !HasKey(c, k)
    requires forall i :: 0 <= i < |b| ==> !HasKey(c, b[i].0)
    ensures Merge([(k, w)] + c, b) == [(k, MergedValue(w, b, k))] + c + Unset(b, k)
    decreases |b|, 0
  {
    var e, b1 := b[0], b[1..];
    MergeFrontOther(k, w, c, b);
    MergeStepKeepsDisjoint(k, c, b);
    MergeOverFront(k, w, c + [e], b1);
    assert Merge([(k, w)] + c, b) == Merge([(k, w)] + (c + [e]), b1);
    assert Merge([(k, w)] + (c + [e]), b1) == [(k, MergedValue(w, b1, k))] + (c + [e]) + Unset(b1, k);
    assert MergedValue(w, b, k) == MergedValue(w, b1, k);
    assert Unset(b, k) == [e] + Unset(b1, k);
    var m := MergedValue(w, b, k);
    assert [(k, m)] + (c + [e]) + Unset(b1, k) == [(k, m)] + c + ([e] + Unset(b1, k));
  }

  /** After appending `b`'s first entry to `c`, the rest of `b` is still disjoint from it. */
  lemma MergeStepKeepsDisjoint<K(!new), V>(k: K, c: Assoc<K, V>, b: Assoc<K, V>)
    requires UniqueKeys(b) && b != [] && b[0].0 != k
    requires !HasKey(c, k)
    requires forall i :: 0 <= i < |b| ==> !HasKey(c, b[i].0)
    ensures UniqueKeys(b[1..])
    ensures !HasKey(c + [b[0]], k)
    ensures forall i :: 0 <= i < |b[1..]| ==> !HasKey(c + [b[0]], b[1..][i].0)
  {
    var e, b1 := b[0], b[1..];
    assert b == [e] + b1;
    UniqueKeysCons(e, b1);
    HasKeySnoc(c, e);
    forall i | 0 <= i < |b1| ensures !HasKey(c + [e], b1[i].0) {
      assert b1[i] == b[i + 1];
      assert b[i + 1].0 != b[0].0;
    }
  }

  /** One merge step whose key is the front key `k`: it overwrites the front value. */
  lemma MergeFrontSame<K(!new), V>(k: K, w: V, c: Assoc<K, V>, b: Assoc<K, V>)
    requires b != [] && b[0].0 == k && UniqueKeys(b)
    ensures Merge([(k, w)] + c, b) == Merge([(k, b[0].1)] + c, b[1..])
    ensures MergedValue(w, b, k) == MergedValue(b[0].1, b[1..], k)
    ensures Unset(b, k) == Unset(b[1..], k)
  {
    var a := [(k, w)] + c;
    assert a[1..] == c;
    assert Assign(a, k, b[0].1) == [(k, b[0].1)] + c;
    assert b == [b[0]] + b[1..];
    UniqueKeysCons(b[0], b[1..]);
    assert Get(b[1..], k) == None;
  }

  /** One merge step whose key is new: it is appended after `c`. */
  lemma MergeFrontOther<K(!new), V>(k: K, w: V, c: Assoc<K, V>, b: Assoc<K, V>)
    requires b != [] && b[0].0 != k
    requires !HasKey(c, b[0].0)
    ensures Merge([(k, w)] + c, b) == Merge([(k, w)] + (c + [b[0]]), b[1..])
    ensures MergedValue(w, b, k) == MergedValue(w, b[1..], k)
    ensures Unset(b, k) == [b[0]] + Unset(b[1..], k)
  {
    var a := [(k, w)] + c;
    HasKeyCons((k, w), c);
    assert !HasKey(a, b[0].0);
    assert Assign(a, b[0].0, b[0].1) == [(k, w)] + (c + [b[0]]);
  }
}
