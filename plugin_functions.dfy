/**
 * The plugin's general functions: `smarty_get_available_countries`, the
 * distinct countries of the locker table in ascending order.
 */
module PluginFunctions {
  import opened PhpStrings
  import opened Sorting
  import opened Lockers

  /** Each element is below the next, so none repeats. */
  predicate StrictlyAscending(cs: seq<string>) {
    forall i, j :: 0 <= i < j < |cs| ==> StrLt(cs[i], cs[j])
  }

  function CountryKey(c: string): seq<string> {
    [c]
  }

  /**
   * `SELECT DISTINCT country ... ORDER BY country ASC`: every country of
   * the table once, in ascending order. The table is only read.
   */
  method AvailableCountries(t: Table) returns (cs: seq<string>)
    ensures StrictlyAscending(cs)
    ensures forall c :: c in cs <==> exists l :: l in Rows(t) && l.country == c
    ensures cs == [] <==> t == map[]
    ensures cs != [] ==> forall c :: c in cs ==> StrLe(cs[0], c)
  {
    var countries := set l | l in Rows(t) :: l.country;
    var xs := Enumerate(countries);
    cs := SortBy(xs, CountryKey);
    PermutationKeepsNoDuplicates(xs, cs);
    SortByMembers(xs, CountryKey);
    SortedDistinctAscending(cs);
    assert |cs| == |multiset(cs)| == |multiset(xs)| == |xs|;
    EmptyExactlyForEmptyTable(t, countries, cs);
  }

  /** A list holding exactly the countries of the table's rows is empty exactly when the table is. */
  lemma EmptyExactlyForEmptyTable(t: Table, countries: set<string>, cs: seq<string>)
    requires countries == set l | l in Rows(t) :: l.country
    requires |cs| == |countries|
    requires forall c :: c in cs <==> exists l :: l in Rows(t) && l.country == c
    ensures cs == [] <==> t == map[]
  {
    if t == map[] {
      assert Rows(t) == {};
      assert countries == {};
    } else {
      var k := NonEmptyMapHasKey(t);
      assert t[k] in Rows(t);
      assert t[k].country in cs;
    }
  }

  /** Sorted by country without repeats is strictly ascending, and starts with the least country. */
  lemma SortedDistinctAscending(cs: seq<string>)
    requires SortedBy(cs, CountryKey) && NoDuplicates(cs)
    ensures StrictlyAscending(cs)
    ensures cs != [] ==> forall c :: c in cs ==> StrLe(cs[0], c)
  {
    forall i, j | 0 <= i < j < |cs| ensures StrLt(cs[i], cs[j]) {
      assert KeyLe(CountryKey(cs[i]), CountryKey(cs[j]));
    }
    if cs != [] {
      forall c | c in cs ensures StrLe(cs[0], c) {
        if c == cs[0] {
          StrLeReflexive(c);
        } else {
          var j :| 0 <= j < |cs| && cs[j] == c;
          assert StrLt(cs[0], cs[j]);
        }
      }
    }
  }

  lemma NonEmptyMapHasKey<K, V>(m: map<K, V>) returns (k: K)
    requires m != map[]
    ensures k in m
  {
    k :| k in m.Keys;
  }

  /**
   * Two strictly ascending lists with the same elements are the same list:
   * the result of `AvailableCountries` is fully determined by the table.
   */
  lemma {:induction false} StrictlyAscendingUnique(xs: seq<string>, ys: seq<string>)
    requires StrictlyAscending(xs) && StrictlyAscending(ys)
    requires forall c :: c in xs <==> c in ys
    ensures xs == ys
    decreases |xs|
  {
    if xs != [] {
      assert xs[0] in xs;
    }
    if ys != [] {
      assert ys[0] in ys;
    }
    if xs != [] && ys != [] {
      if xs[0] != ys[0] {
        var i :| 0 <= i < |ys| && ys[i] == xs[0];
        var j :| 0 <= j < |xs| && xs[j] == ys[0];
        assert StrLt(ys[0], ys[i]);
        assert StrLt(xs[0], xs[j]);
        StrLeAntisymmetric(xs[0], ys[0]);
      }
      forall c ensures c in xs[1..] <==> c in ys[1..] {
        if c in xs[1..] {
          var i :| 0 <= i < |xs| - 1 && xs[1..][i] == c;
          assert xs[i + 1] == c && StrLt(xs[0], c);
          assert c in ys;
          var k :| 0 <= k < |ys| && ys[k] == c;
          assert k != 0;
          assert ys[1..][k - 1] == c;
        }
        if c in ys[1..] {
          var i :| 0 <= i < |ys| - 1 && ys[1..][i] == c;
          assert ys[i + 1] == c && StrLt(ys[0], c);
          assert c in xs;
          var k :| 0 <= k < |xs| && xs[k] == c;
          assert k != 0;
          assert xs[1..][k - 1] == c;
        }
      }
      StrictlyAscendingUnique(xs[1..], ys[1..]);
      assert xs == [xs[0]] + xs[1..] && ys == [ys[0]] + ys[1..];
    }
  }
}
