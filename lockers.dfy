/**
 * Locker records: the row stored in the `smarty_sameday_lockers` table, the
 * record the Sameday API sends, the normalisation from one to the other, the
 * table itself (keyed by its primary key `locker_id`) and the row filters and
 * orderings the plugin's queries use.
 */
module Lockers {
  import opened Wrappers
  import opened PhpStrings
  import opened Sorting
  import opened WordPress

  /** A row of the locker table. */
  datatype Locker = Locker(
    lockerId: int,
    name: string,
    country: string,
    cityName: string,
    postCode: string,
    address: string,
    fullAddress: string,
    updatedAt: string
  )

  /** A locker object of the API's `data` array; a property it lacks is `None`. */
  datatype RawLocker = RawLocker(
    lockerId: Option<int>,
    name: Option<string>,
    country: Option<string>,
    city: Option<string>,
    postalCode: Option<string>,
    address: Option<string>
  )

  /** `sprintf('%s, %s, %s', city, postalCode, address)` with missing parts as "". */
  function FullAddressText(raw: RawLocker): string {
    raw.city.GetOr("") + ", " + raw.postalCode.GetOr("") + ", " + raw.address.GetOr("")
  }

  /**
   * The row built from an API record, stamped with `now` (`current_time('mysql')`).
   * `sanitize_text_field(null)` is the sanitised empty string, so a missing
   * name or city is taken as "" like the other fields.
   */
  function Normalise(raw: RawLocker, now: string, wp: Wp): Locker {
    Locker(
      raw.lockerId.GetOr(0),
      wp.sanitize(raw.name.GetOr("")),
      wp.sanitize(raw.country.GetOr("")),
      wp.sanitize(raw.city.GetOr("")),
      wp.sanitize(raw.postalCode.GetOr("")),
      wp.sanitize(raw.address.GetOr("")),
      wp.sanitize(FullAddressText(raw)),
      now
    )
  }

  /** The rows built from one page of API records, in the page's order. */
  function NormalisePage(page: seq<RawLocker>, now: string, wp: Wp): (rows: seq<Locker>)
    ensures |rows| == |page|
    ensures forall i :: 0 <= i < |page| ==> rows[i] == Normalise(page[i], now, wp)
  {
    seq(|page|, i requires 0 <= i < |page| => Normalise(page[i], now, wp))
  }

  // ---------------------------------------------------------------------------
  // The table
  // ---------------------------------------------------------------------------

  /** The `foreach` over a page's `data` that appends one normalised record per locker. */
  method AppendNormalised(acc: seq<Locker>, page: seq<RawLocker>, now: string, wp: Wp) returns (r: seq<Locker>)
    ensures r == acc + NormalisePage(page, now, wp)
  {
    r := acc;
    for i := 0 to |page|
      invariant r == acc + NormalisePage(page[..i], now, wp)
    {
      assert page[..i + 1][..i] == page[..i];
      r := r + [Normalise(page[i], now, wp)];
    }
    assert page[..|page|] == page;
  }

  /** The locker table: rows by primary key. */
  type Table = map<int, Locker>

  /** Every row is stored under its own `locker_id`. */
  ghost predicate Keyed(t: Table) {
    forall k :: k in t ==> t[k].lockerId == k
  }

  /** The rows of the table. */
  function Rows(t: Table): set<Locker> {
    set k | k in t :: t[k]
  }

  /** In a keyed table a stored row is found under its own id. */
  lemma KeyedRow(t: Table, l: Locker)
    requires Keyed(t) && l in Rows(t)
    ensures l.lockerId in t && t[l.lockerId] == l
  {
    var k :| k in t && t[k] == l;
  }

  /**
   * The table after `REPLACE`-ing `rows` one by one into an empty table: a
   * row replaces any earlier row with the same primary key.
   */
  function UpsertAll(rows: seq<Locker>): (t: Table)
    ensures Keyed(t)
    decreases |rows|
  {
    if rows == [] then map[]
    else
      var last := rows[|rows| - 1];
      UpsertAll(rows[..|rows| - 1])[last.lockerId := last]
  }

  /** Upserting one more row of `rows` stores it under its id. */
  lemma UpsertStep(rows: seq<Locker>, i: int)
    requires 0 <= i < |rows|
    ensures UpsertAll(rows[..i + 1]) == UpsertAll(rows[..i])[rows[i].lockerId := rows[i]]
  {
    assert rows[..i + 1][..i] == rows[..i];
  }

  /**
   * After the upserts the table holds one row per distinct id among `rows`,
   * and that row is the last of `rows` with that id.
   */
  lemma {:induction false} UpsertAllKeepsLast(rows: seq<Locker>, k: int)
    ensures k in UpsertAll(rows) <==> exists j :: 0 <= j < |rows| && rows[j].lockerId == k
    ensures k in UpsertAll(rows) ==>
      exists j :: 0 <= j < |rows| && UpsertAll(rows)[k] == rows[j]
        && forall j' :: j < j' < |rows| ==> rows[j'].lockerId != k
    decreases |rows|
  {
    if rows != [] {
      var init := rows[..|rows| - 1];
      var last := rows[|rows| - 1];
      UpsertAllKeepsLast(init, k);
      if last.lockerId == k {
        assert rows[|rows| - 1].lockerId == k;
      } else if k in UpsertAll(init) {
        var j :| 0 <= j < |init| && UpsertAll(init)[k] == init[j]
          && forall j' :: j < j' < |init| ==> init[j'].lockerId != k;
        assert rows[j] == init[j];
        assert forall j' :: j < j' < |rows| ==> rows[j'].lockerId != k;
      } else {
        forall j | 0 <= j < |rows| ensures rows[j].lockerId != k {
          if j < |init| {
            assert rows[j] == init[j];
          }
        }
      }
    }
  }

  // ---------------------------------------------------------------------------
  // Filters and orderings of the queries
  // ---------------------------------------------------------------------------

  /**
   * The `WHERE` clause of `query_sameday_lockers`: each filter that is not
   * empty (in PHP's sense) must equal the row's column.
   */
  predicate Matches(l: Locker, country: string, city: string, postCode: string) {
    && (IsEmpty(city) || l.cityName == city)
    && (IsEmpty(country) || l.country == country)
    && (IsEmpty(postCode) || l.postCode == postCode)
  }

  /** The sort key of `ORDER BY address`. */
  function ByAddress(l: Locker): seq<string> {
    [l.address]
  }

  /** The sort key of `ORDER BY city_name ASC, name ASC`. */
  function ByCityThenName(l: Locker): seq<string> {
    [l.cityName, l.name]
  }
}
