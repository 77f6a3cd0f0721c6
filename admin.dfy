/**
 * The admin class `Smarty_Sameday_Admin`: the country default of its locker
 * query, the two locker lookups, the order meta written at checkout, the
 * formatted-address filter and the weekly update schedule.
 */
module Admin {
  import opened Wrappers
  import opened PhpStrings
  import opened PhpArrays
  import opened WordPress
  import opened Sorting
  import opened Lockers
  import opened SamedayApi

  // ---------------------------------------------------------------------------
  // Locker queries and lookups
  // ---------------------------------------------------------------------------

  /** A row of the configured country (every row when that setting is empty). */
  predicate InCountry(l: Locker, settings: Settings) {
    Matches(l, CountryCode(settings), "", "")
  }

  /**
   * `api_query_sameday_lockers`: the rows of the configured country ("RO"
   * when the setting is unset) in address order. A setting that holds ""
   * is passed through, and the query then ignores it.
   */
  method ApiQuerySamedayLockers(api: Api, settings: Settings) returns (rs: seq<Locker>)
    ensures SortedBy(rs, ByAddress) && NoDuplicates(rs)
    ensures forall r :: r in rs <==> r in Rows(api.lockers) && InCountry(r, settings)
    ensures settings.countryCode.None? ==> forall r :: r in rs ==> r.country == DefaultCountryCode
    ensures settings.countryCode == Some("") ==> forall r :: r in rs <==> r in Rows(api.lockers)
  {
    rs := api.QuerySamedayLockers(CountryCode(settings), "", "");
  }

  /** The `foreach` with early return of both lookups: the first element that satisfies `p`. */
  method FirstMatch<T>(xs: seq<T>, p: T -> bool) returns (r: Option<T>)
    ensures r.None? ==> forall i :: 0 <= i < |xs| ==> !p(xs[i])
    ensures r.Some? ==> exists i :: 0 <= i < |xs| && xs[i] == r.value && p(xs[i]) && forall j :: 0 <= j < i ==> !p(xs[j])
  {
    var i := 0;
    while i < |xs|
      invariant 0 <= i <= |xs|
      invariant forall j :: 0 <= j < i ==> !p(xs[j])
    {
      if p(xs[i]) {
        return Some(xs[i]);
      }
      i := i + 1;
    }
    return None;
  }

  /** In a sorted sequence, the first element satisfying `p` has the least key among those that do. */
  lemma FirstMatchIsLeast<T>(xs: seq<T>, p: T -> bool, key: T -> seq<string>, i: int)
    requires SortedBy(xs, key)
    requires 0 <= i < |xs| && p(xs[i]) && forall j :: 0 <= j < i ==> !p(xs[j])
    ensures forall x :: x in xs && p(x) ==> KeyLe(key(xs[i]), key(x))
  {
    forall x | x in xs && p(x) ensures KeyLe(key(xs[i]), key(x)) {
      var j :| 0 <= j < |xs| && xs[j] == x;
      if j == i {
        KeyLeReflexive(key(x));
      }
    }
  }

  /** `l` is a row of the configured country with the least address among them. */
  ghost predicate FirstOfCountry(l: Locker, t: Table, settings: Settings) {
    && l in Rows(t) && InCountry(l, settings)
    && forall m :: m in Rows(t) && InCountry(m, settings) ==> KeyLe(ByAddress(l), ByAddress(m))
  }

  /** A row of the configured country whose name contains `needle`, ignoring ASCII case. */
  predicate NameMatches(l: Locker, settings: Settings, needle: string) {
    InCountry(l, settings) && ContainsIgnoringCase(l.name, needle)
  }

  /** `l` matches `needle` and has the least address among the rows that do. */
  ghost predicate FirstByName(l: Locker, t: Table, settings: Settings, needle: string) {
    && l in Rows(t) && NameMatches(l, settings, needle)
    && forall m :: m in Rows(t) && NameMatches(m, settings, needle) ==> KeyLe(ByAddress(l), ByAddress(m))
  }

  /**
   * The `sameday_id` of a row as `get_locker_details_by_number` reads it. The
   * table has no such column, so the key is missing and `(int) null` is 0.
   */
  function SamedayIdAsRead(l: Locker): int {
    0
  }

  /**
   * `get_locker_details_by_number` as written: it compares the row's
   * `sameday_id`, which reads as 0, with the requested id. So no id other
   * than 0 is ever found, and id 0 finds the first row of the country.
   */
  method GetLockerDetailsByNumberAsWritten(api: Api, settings: Settings, lockerId: int) returns (r: Option<Locker>)
    ensures lockerId != 0 ==> r.None?
    ensures lockerId == 0 ==> (r.None? <==> forall l :: l in Rows(api.lockers) ==> !InCountry(l, settings))
    ensures r.Some? ==> FirstOfCountry(r.value, api.lockers, settings)
  {
    var ls := ApiQuerySamedayLockers(api, settings);
    var p := (l: Locker) => SamedayIdAsRead(l) == lockerId;
    r := FirstMatch(ls, p);
    if r.Some? {
      var i :| 0 <= i < |ls| && ls[i] == r.value && p(ls[i]) && forall j :: 0 <= j < i ==> !p(ls[j]);
      FirstMatchIsLeast(ls, p, ByAddress, i);
      assert ls[i] in ls;
    }
    if lockerId == 0 {
      forall l | l in Rows(api.lockers) && InCountry(l, settings) ensures r.Some? {
        assert l in ls;
      }
    }
  }

  /**
   * `get_locker_details_by_number` as evidently intended: the row of the
   * configured country whose `locker_id` is the requested id.
   */
  method GetLockerDetailsByNumber(api: Api, settings: Settings, lockerId: int) returns (r: Option<Locker>)
    requires api.Valid()
    ensures r.Some? <==> lockerId in api.lockers && InCountry(api.lockers[lockerId], settings)
    ensures r.Some? ==> r.value == api.lockers[lockerId]
  {
    var ls := ApiQuerySamedayLockers(api, settings);
    var p := (l: Locker) => l.lockerId == lockerId;
    r := FirstMatch(ls, p);
    if r.Some? {
      var i :| 0 <= i < |ls| && ls[i] == r.value && p(ls[i]);
      assert ls[i] in ls;
      KeyedRow(api.lockers, r.value);
    }
    if lockerId in api.lockers && InCountry(api.lockers[lockerId], settings) {
      assert api.lockers[lockerId] in ls;
    }
  }

  /**
   * `get_locker_details_by_name`: the first row of the configured country,
   * in address order, whose name contains `needle` ignoring ASCII case.
   */
  method GetLockerDetailsByName(api: Api, settings: Settings, needle: string) returns (r: Option<Locker>)
    ensures r.None? <==> forall l :: l in Rows(api.lockers) ==> !NameMatches(l, settings, needle)
    ensures r.Some? ==> FirstByName(r.value, api.lockers, settings, needle)
  {
    var ls := ApiQuerySamedayLockers(api, settings);
    var p := (l: Locker) => ContainsIgnoringCase(l.name, needle);
    r := FirstMatch(ls, p);
    if r.Some? {
      var i :| 0 <= i < |ls| && ls[i] == r.value && p(ls[i]) && forall j :: 0 <= j < i ==> !p(ls[j]);
      FirstMatchIsLeast(ls, p, ByAddress, i);
      assert ls[i] in ls;
    }
    forall l | l in Rows(api.lockers) && NameMatches(l, settings, needle) ensures r.Some? {
      assert l in ls;
    }
  }

  // ---------------------------------------------------------------------------
  // Order meta
  // ---------------------------------------------------------------------------

  /** A post-meta value: text, or the serialized row of a locker. */
  datatype MetaValue = Text(text: string) | Details(locker: Locker)

  const CarrierKey: string := "carrier"
  const SelectedOptionKey: string := "_sameday_selected_option"
  const DetailsKey: string := "_sameday_locker_details"
  const BillingLockersKey: string := "billing_sameday_lockers"
  const ShippingAddressKey: string := "_shipping_address_1"
  const BillingPostcodeKey: string := "_billing_postcode"
  const ShippingPostcodeKey: string := "_shipping_postcode"

  /** `m` maps `k` to `v`. */
  predicate Holds<V(==)>(m: map<string, V>, k: string, v: V) {
    k in m && m[k] == v
  }

  /** The meta keys the locker part of `save_sameday_selection` may write. */
  const LockerMetaKeys: set<string> :=
    {DetailsKey, BillingLockersKey, ShippingAddressKey, BillingPostcodeKey, ShippingPostcodeKey}

  /** The order properties the locker part of `save_sameday_selection` may set. */
  const LockerPropKeys: set<string> :=
    {"shipping_address_1", "billing_address_1", "billing_city", "shipping_postcode", "billing_postcode"}

  /**
   * The address line `Sameday: [name] full address, city (id)`. Rows have no
   * `sameday_id`, so the last part is always the translated "Unknown ID".
   */
  function LockerAddress(l: Locker, wp: Wp): string {
    "Sameday: [" + wp.escHtml(l.name) + "] " + wp.escHtml(l.fullAddress) + ", "
      + wp.escHtml(l.cityName) + " (" + wp.escHtml(wp.translate("Unknown ID")) + ")"
  }

  /**
   * The locker whose details `save_sameday_selection` would write with the
   * corrected lookup: only for the exact option "Sameday Locker" with a
   * non-empty posted locker id, and only if the table holds a row of the
   * configured country under that id.
   */
  function ChosenLocker(option: string, post: Post, t: Table, settings: Settings): (r: Option<Locker>)
    requires Keyed(t)
    ensures r.Some? ==> option == SamedayLockerOption && PostedNonEmpty(post.samedayLocker)
    ensures r.Some? ==> r.value in Rows(t) && InCountry(r.value, settings)
    ensures r.Some? ==> r.value.lockerId == Absint(post.samedayLocker.value)
  {
    if option == SamedayLockerOption && PostedNonEmpty(post.samedayLocker) then
      var id := Absint(post.samedayLocker.value);
      if id in t && InCountry(t[id], settings) then Some(t[id]) else None
    else
      None
  }

  /** The order meta after the locker writes of `save_sameday_selection`. */
  function WithLockerMeta(m: map<string, MetaValue>, chosen: Option<Locker>, wp: Wp): map<string, MetaValue> {
    if chosen.None? then m
    else
      var l := chosen.value;
      var address := LockerAddress(l, wp);
      var m' := m[DetailsKey := Details(l)][BillingLockersKey := Text(address)][ShippingAddressKey := Text(address)];
      if IsEmpty(l.postCode) then m'
      else m'[BillingPostcodeKey := Text(l.postCode)][ShippingPostcodeKey := Text(l.postCode)]
  }

  /**
   * What `WithLockerMeta` writes: nothing without a row; for a row, its
   * details and its address text, and its postcode only when that is not
   * empty; every other key keeps its value.
   */
  lemma LockerMetaWrites(m: map<string, MetaValue>, chosen: Option<Locker>, wp: Wp)
    ensures var r := WithLockerMeta(m, chosen, wp);
      && (chosen.None? ==> r == m)
      && (forall k :: k !in LockerMetaKeys ==> (k in r <==> k in m) && (k in m ==> r[k] == m[k]))
      && (chosen.Some? ==>
            && Holds(r, DetailsKey, Details(chosen.value))
            && Holds(r, BillingLockersKey, Text(LockerAddress(chosen.value, wp)))
            && Holds(r, ShippingAddressKey, Text(LockerAddress(chosen.value, wp))))
      && (chosen.Some? && !IsEmpty(chosen.value.postCode) ==>
            Holds(r, BillingPostcodeKey, Text(chosen.value.postCode)) && Holds(r, ShippingPostcodeKey, Text(chosen.value.postCode)))
      && (chosen.None? || IsEmpty(chosen.value.postCode) ==>
            forall k :: k in {BillingPostcodeKey, ShippingPostcodeKey} ==> (k in r <==> k in m) && (k in m ==> r[k] == m[k]))
  {
  }

  /** The order's address properties after the locker writes of `save_sameday_selection`. */
  function WithLockerProps(p: map<string, string>, chosen: Option<Locker>, wp: Wp): map<string, string> {
    if chosen.None? then p
    else
      var l := chosen.value;
      var address := LockerAddress(l, wp);
      var p' := p["shipping_address_1" := address]["billing_address_1" := address]["billing_city" := l.cityName];
      if IsEmpty(l.postCode) then p'
      else p'["shipping_postcode" := l.postCode]["billing_postcode" := l.postCode]
  }

  /**
   * What `WithLockerProps` writes: nothing without a row; for a row, the
   * address lines and the billing city, and the postcodes only when the
   * row's is not empty; every other property keeps its value.
   */
  lemma LockerPropsWrites(p: map<string, string>, chosen: Option<Locker>, wp: Wp)
    ensures var r := WithLockerProps(p, chosen, wp);
      && (chosen.None? ==> r == p)
      && (forall k :: k !in LockerPropKeys ==> (k in r <==> k in p) && (k in p ==> r[k] == p[k]))
      && (chosen.Some? ==>
            && Holds(r, "shipping_address_1", LockerAddress(chosen.value, wp))
            && Holds(r, "billing_address_1", LockerAddress(chosen.value, wp))
            && Holds(r, "billing_city", chosen.value.cityName))
      && (chosen.Some? && !IsEmpty(chosen.value.postCode) ==>
            Holds(r, "shipping_postcode", chosen.value.postCode) && Holds(r, "billing_postcode", chosen.value.postCode))
      && (chosen.None? || IsEmpty(chosen.value.postCode) ==>
            forall k :: k in {"shipping_postcode", "billing_postcode"} ==> (k in r <==> k in p) && (k in p ==> r[k] == p[k]))
  {
  }

  /**
   * The locker `save_sameday_selection` writes as the code stands. The
   * lookup compares the posted id with `sameday_id`, which reads as 0, so a
   * locker is found only for a posted value that `absint` reads as 0 (text
   * without leading digits, such as "abc"), and it is then the first row of
   * the configured country in address order.
   */
  ghost predicate ChosenAsWritten(option: string, post: Post, t: Table, settings: Settings, chosen: Option<Locker>) {
    if && option == SamedayLockerOption && PostedNonEmpty(post.samedayLocker)
       && Absint(post.samedayLocker.value) == 0
       && exists l :: l in Rows(t) && InCountry(l, settings)
    then chosen.Some? && FirstOfCountry(chosen.value, t, settings)
    else chosen.None?
  }

  /** The row the as-written `get_locker_details_by_number` finds for the posted id is one `ChosenAsWritten` allows. */
  lemma FoundIsChosenAsWritten(t: Table, settings: Settings, post: Post, found: Option<Locker>)
    requires PostedNonEmpty(post.samedayLocker)
    requires var id := Absint(post.samedayLocker.value);
      && (id != 0 ==> found.None?)
      && (id == 0 ==> (found.None? <==> forall l :: l in Rows(t) ==> !InCountry(l, settings)))
      && (found.Some? ==> FirstOfCountry(found.value, t, settings))
    ensures ChosenAsWritten(SamedayLockerOption, post, t, settings, found)
  {
  }

  /**
   * The locker part of `save_sameday_selection` as written: for the locker
   * option with a non-empty posted locker, the row the as-written
   * `get_locker_details_by_number` finds for the `absint` of the post.
   */
  method SelectedLockerAsWritten(api: Api, settings: Settings, option: string, post: Post) returns (chosen: Option<Locker>)
    ensures ChosenAsWritten(option, post, api.lockers, settings, chosen)
    ensures chosen.Some? ==> option == SamedayLockerOption && PostedNonEmpty(post.samedayLocker) && Absint(post.samedayLocker.value) == 0
  {
    if option == SamedayLockerOption && PostedNonEmpty(post.samedayLocker) {
      chosen := GetLockerDetailsByNumberAsWritten(api, settings, Absint(post.samedayLocker.value));
      FoundIsChosenAsWritten(api.lockers, settings, post, chosen);
    } else {
      chosen := None;
    }
  }

  /** The row the corrected `get_locker_details_by_number` finds for the posted id is the one `ChosenLocker` picks. */
  lemma FoundIsChosen(t: Table, settings: Settings, post: Post, found: Option<Locker>)
    requires Keyed(t) && PostedNonEmpty(post.samedayLocker)
    requires var id := Absint(post.samedayLocker.value);
      && (found.Some? <==> id in t && InCountry(t[id], settings))
      && (found.Some? ==> found.value == t[id])
    ensures found == ChosenLocker(SamedayLockerOption, post, t, settings)
  {
  }

  /** An order: its post meta and the WooCommerce address properties the plugin sets. */
  class Order {
    var meta: map<string, MetaValue>
    var props: map<string, string>

    constructor (meta0: map<string, MetaValue>, props0: map<string, string>)
      ensures meta == meta0 && props == props0
    {
      meta := meta0;
      props := props0;
    }

    /**
     * `save_sameday_selection`: when `carrier_sameday` is posted, store the
     * carrier (the option up to its first space) and the whole option; then,
     * for the locker option with a non-empty posted locker, look the locker
     * up with `get_locker_details_by_number` as written and store the
     * details and address of the row it finds. That lookup finds a row only
     * when the posted value reads as 0, so a posted locker id stores no
     * locker.
     */
    method SaveSamedaySelection(api: Api, settings: Settings, post: Post, wp: Wp)
      modifies this
      ensures post.carrierSameday.None? ==> meta == old(meta) && props == old(props)
      ensures post.carrierSameday.Some? ==>
        var option := wp.sanitize(post.carrierSameday.value);
        exists chosen :: ChosenAsWritten(option, post, api.lockers, settings, chosen)
          && meta == WithLockerMeta(old(meta)[CarrierKey := Text(Strtok(option, ' '))][SelectedOptionKey := Text(option)], chosen, wp)
          && props == WithLockerProps(old(props), chosen, wp)
      ensures post.carrierSameday.Some? && !(PostedNonEmpty(post.samedayLocker) && Absint(post.samedayLocker.value) == 0) ==>
        var option := wp.sanitize(post.carrierSameday.value);
        meta == old(meta)[CarrierKey := Text(Strtok(option, ' '))][SelectedOptionKey := Text(option)] && props == old(props)
    {
      if post.carrierSameday.Some? {
        var option := wp.sanitize(post.carrierSameday.value);
        var m := meta[CarrierKey := Text(Strtok(option, ' '))][SelectedOptionKey := Text(option)];
        var chosen := SelectedLockerAsWritten(api, settings, option, post);
        // The details and address of the row found; nothing is written when none is.
        meta, props := WithLockerMeta(m, chosen, wp), WithLockerProps(props, chosen, wp);
      }
    }

    /**
     * `save_sameday_selection` as evidently intended: the same writes, with
     * the corrected lookup by `locker_id`, so the locker stored is the row
     * under the posted id.
     */
    method SaveSamedaySelectionCorrected(api: Api, settings: Settings, post: Post, wp: Wp)
      requires api.Valid()
      modifies this
      ensures post.carrierSameday.None? ==> meta == old(meta) && props == old(props)
      ensures post.carrierSameday.Some? ==>
        var option := wp.sanitize(post.carrierSameday.value);
        var chosen := ChosenLocker(option, post, api.lockers, settings);
        && meta == WithLockerMeta(old(meta)[CarrierKey := Text(Strtok(option, ' '))][SelectedOptionKey := Text(option)], chosen, wp)
        && props == WithLockerProps(old(props), chosen, wp)
    {
      if post.carrierSameday.Some? {
        var option := wp.sanitize(post.carrierSameday.value);
        var m := meta[CarrierKey := Text(Strtok(option, ' '))][SelectedOptionKey := Text(option)];
        if option == SamedayLockerOption && PostedNonEmpty(post.samedayLocker) {
          var id := Absint(post.samedayLocker.value);
          var found := GetLockerDetailsByNumber(api, settings, id);
          FoundIsChosen(api.lockers, settings, post, found);
          // The details and address of the row found; nothing is written when none is.
          meta, props := WithLockerMeta(m, found, wp), WithLockerProps(props, found, wp);
        } else {
          assert ChosenLocker(option, post, api.lockers, settings).None?;
          meta := m;
        }
      }
    }

    /**
     * `save_sameday_locker`: when a non-empty `sameday_locker` is posted,
     * look it up by name and store the row found, if any.
     */
    method SaveSamedayLocker(api: Api, settings: Settings, post: Post, wp: Wp)
      modifies this
      ensures props == old(props)
      ensures !PostedNonEmpty(post.samedayLocker) ==> meta == old(meta)
      ensures PostedNonEmpty(post.samedayLocker) ==>
        var needle := wp.sanitize(post.samedayLocker.value);
        && ((forall l :: l in Rows(api.lockers) ==> !NameMatches(l, settings, needle)) ==> meta == old(meta))
        && ((exists l :: l in Rows(api.lockers) && NameMatches(l, settings, needle)) ==>
              exists l :: FirstByName(l, api.lockers, settings, needle) && meta == old(meta)[DetailsKey := Details(l)])
    {
      if PostedNonEmpty(post.samedayLocker) {
        var needle := wp.sanitize(post.samedayLocker.value);
        var found := GetLockerDetailsByName(api, settings, needle);
        if found.Some? {
          meta := meta[DetailsKey := Details(found.value)];
          assert FirstByName(found.value, api.lockers, settings, needle);
        }
      }
    }
  }

  /** The order's stored option is exactly "Sameday Locker" (a missing meta reads as ""). */
  predicate LockerSelected(meta: map<string, MetaValue>) {
    SelectedOptionKey in meta && meta[SelectedOptionKey] == Text(SamedayLockerOption)
  }

  /**
   * `filter_formatted_address_output`: blank `address_1` for locker orders;
   * every other key keeps its value.
   */
  function FilterFormattedAddress(address: Assoc<string, string>, meta: map<string, MetaValue>): (r: Assoc<string, string>)
    ensures !LockerSelected(meta) ==> r == address
    ensures LockerSelected(meta) ==> Get(r, "address_1") == Some("")
    ensures forall k :: k != "address_1" ==> Get(r, k) == Get(address, k)
    ensures UniqueKeys(address) ==> UniqueKeys(r)
  {
    if LockerSelected(meta) then
      var r := Assign(address, "address_1", "");
      forall k ensures Get(r, k) == if k == "address_1" then Some("") else Get(address, k) {
        GetAssign(address, "address_1", "", k);
      }
      r
    else
      address
  }

  // ---------------------------------------------------------------------------
  // The weekly update schedule
  // ---------------------------------------------------------------------------

  /** A scheduled cron event of the hook `smarty_sameday_auto_updater`. */
  datatype CronEvent = CronEvent(timestamp: int, recurrence: string)

  const Weekly: string := "weekly"

  /** The time a scheduled event runs next, as `wp_next_scheduled` reports it (`false` is `None`). */
  function NextRun(e: Option<CronEvent>): (r: Option<int>)
    ensures r.Some? <==> e.Some?
    ensures r.Some? ==> r.value == e.value.timestamp
  {
    if e.Some? then Some(e.value.timestamp) else None
  }

  /**
   * `schedule_updates` reads the setting "Day HH:MM": the text it hands to
   * `strtotime` is "next " followed by the whole setting.
   */
  lemma {:induction false} ScheduleText(schedule: string)
    requires Count(schedule, ' ') == 1
    ensures |Split(schedule, ' ')| == 2
    ensures "next " + Split(schedule, ' ')[0] + " " + Split(schedule, ' ')[1] == "next " + schedule
  {
    SplitCount(schedule, ' ');
    SplitJoin(schedule, ' ');
    var parts := Split(schedule, ' ');
    assert Join(parts, ' ') == parts[0] + [' '] + Join(parts[1..], ' ');
  }

  /** WordPress's cron entry for the auto-updater and PHP's default time zone. */
  class CronSchedule {
    var autoUpdater: Option<CronEvent>
    var timezone: string

    /** `wp_schedule_event` registers no event at a time that is not positive. */
    ghost predicate Valid()
      reads this
    {
      autoUpdater.Some? ==> autoUpdater.value.timestamp > 0
    }

    constructor (timezone0: string)
      ensures Valid() && autoUpdater.None? && timezone == timezone0
    {
      autoUpdater := None;
      timezone := timezone0;
    }

    /**
     * `schedule_updates`: only in admin and only for a schedule of exactly two
     * space-separated parts, set the time zone (if the option is non-empty),
     * compute the next run and, when it differs from the scheduled one,
     * replace the event by a weekly one at that time. A time `strtotime`
     * cannot compute, or that is not positive, leaves no event.
     */
    method ScheduleUpdates(isAdmin: bool, settings: Settings, timezoneOption: string, now: int, wp: Wp)
      requires Valid()
      modifies this
      ensures Valid()
      ensures var schedule := settings.autoUpdateSchedule.GetOr("");
        !isAdmin || Count(schedule, ' ') != 1 ==> autoUpdater == old(autoUpdater) && timezone == old(timezone)
      ensures var schedule := settings.autoUpdateSchedule.GetOr("");
        isAdmin && Count(schedule, ' ') == 1 ==>
          && timezone == (if IsEmpty(timezoneOption) then old(timezone) else timezoneOption)
          && var next := wp.strtotime("next " + schedule, timezone, now);
          && (next == NextRun(old(autoUpdater)) ==> autoUpdater == old(autoUpdater))
          && (next != NextRun(old(autoUpdater)) ==>
                autoUpdater == (if next.Some? && next.value > 0 then Some(CronEvent(next.value, Weekly)) else None))
    {
      if !isAdmin {
        return;
      }
      var schedule := settings.autoUpdateSchedule.GetOr("");
      var parts := Split(schedule, ' ');
      SplitCount(schedule, ' ');
      if |parts| == 2 {
        ScheduleText(schedule);
        var day, time := parts[0], parts[1];
        if !IsEmpty(timezoneOption) {
          timezone := timezoneOption;
        }
        var next := wp.strtotime("next " + day + " " + time, timezone, now);
        var current := NextRun(autoUpdater);
        if current != next {
          if current.Some? {
            autoUpdater := None;
          }
          if next.Some? && next.value > 0 {
            autoUpdater := Some(CronEvent(next.value, Weekly));
          }
        }
      }
    }
  }
}
