/**
 * The public class `Smarty_Sameday_Public`: the checkout's session update,
 * the required-field override, the two validation rules, the country choice
 * of the locker list, the locker options and the checkout field that
 * carries them.
 */
module Public {
  import opened Wrappers
  import opened PhpStrings
  import opened PhpArrays
  import opened WordPress
  import opened Sorting
  import opened Lockers
  import opened PluginFunctions
  import opened Admin

  // ---------------------------------------------------------------------------
  // The WooCommerce session
  // ---------------------------------------------------------------------------

  /** `WC()->session->get('chosen_shipping_method')` (`null` is `None`). */
  function ChosenShippingMethod(session: map<string, string>): (r: Option<string>)
    ensures r.Some? <==> "chosen_shipping_method" in session
    ensures r.Some? ==> r.value == session["chosen_shipping_method"]
  {
    if "chosen_shipping_method" in session then Some(session["chosen_shipping_method"]) else None
  }

  /** The customer's WooCommerce session. */
  class Session {
    var data: map<string, string>

    constructor (data0: map<string, string>)
      ensures data == data0
    {
      data := data0;
    }

    /**
     * `update_shipping_method`: store the posted shipping method, sanitized,
     * as both `carrier_sameday` and `chosen_shipping_method`.
     */
    method UpdateShippingMethod(post: Post, wp: Wp)
      modifies this
      ensures post.shippingMethod.None? ==> data == old(data)
      ensures post.shippingMethod.Some? ==>
        var v := wp.sanitize(post.shippingMethod.value);
        data == old(data)["carrier_sameday" := v]["chosen_shipping_method" := v]
      ensures post.shippingMethod.Some? ==>
        ChosenShippingMethod(data) == Some(data["carrier_sameday"])
    {
      if post.shippingMethod.Some? {
        data := data["carrier_sameday" := wp.sanitize(post.shippingMethod.value)];
        data := data["chosen_shipping_method" := wp.sanitize(post.shippingMethod.value)];
      }
    }
  }

  // ---------------------------------------------------------------------------
  // Checkout fields
  // ---------------------------------------------------------------------------

  /** The value of a field attribute (`type`, `class`, `label`, `options`, `required`, ...). */
  datatype Attr = Word(text: string) | Flag(flag: bool) | Classes(names: seq<string>) | Choices(options: Assoc<string, string>)

  type Field = Assoc<string, Attr>
  type Section = Assoc<string, Field>
  /** WooCommerce's checkout fields: sections (`billing`, `shipping`, ...) of fields. */
  type CheckoutFields = Assoc<string, Section>

  /** `$fields[s][f]`, if set. */
  function FieldAt(fields: CheckoutFields, s: string, f: string): Option<Field> {
    match Get(fields, s)
    case None => None
    case Some(section) => Get(section, f)
  }

  /** `$fields[s][f][a]`, if set. */
  function AttrAt(fields: CheckoutFields, s: string, f: string, a: string): Option<Attr> {
    match FieldAt(fields, s, f)
    case None => None
    case Some(field) => Get(field, a)
  }

  /**
   * `r` is `fields` with the `required` attribute of the billing fields `fs`
   * removed: every other attribute reads the same, and the same fields exist.
   */
  ghost predicate RequiredDropped(r: CheckoutFields, fields: CheckoutFields, fs: set<string>) {
    && (forall s, g, a ::
          AttrAt(r, s, g, a) == (if s == "billing" && g in fs && a == "required" then None else AttrAt(fields, s, g, a)))
    && (forall s, g :: FieldAt(r, s, g).Some? <==> FieldAt(fields, s, g).Some?)
  }

  /**
   * `unset($fields['billing'][f]['required'])`: drops that one attribute;
   * without such a field nothing changes.
   */
  function UnsetRequired(fields: CheckoutFields, f: string): (r: CheckoutFields)
    ensures RequiredDropped(r, fields, {f})
  {
    match Get(fields, "billing")
    case None => fields
    case Some(billing) =>
      match Get(billing, f)
      case None => fields
      case Some(field) =>
        var field' := Unset(field, "required");
        var billing' := Assign(billing, f, field');
        var r := Assign(fields, "billing", billing');
        forall s, g, a ensures AttrAt(r, s, g, a) ==
          if s == "billing" && g in {f} && a == "required" then None else AttrAt(fields, s, g, a)
        {
          GetAssign(fields, "billing", billing', s);
          GetAssign(billing, f, field', g);
          GetUnset(field, "required", a);
        }
        forall s, g ensures FieldAt(r, s, g).Some? <==> FieldAt(fields, s, g).Some? {
          GetAssign(fields, "billing", billing', s);
          GetAssign(billing, f, field', g);
        }
        r
  }

  /** Unsetting one more `required` attribute adds its field to those dropped. */
  lemma DropOneMore(r: CheckoutFields, fields: CheckoutFields, fs: set<string>, f: string)
    requires RequiredDropped(r, fields, fs)
    ensures RequiredDropped(UnsetRequired(r, f), fields, fs + {f})
  {
    var r' := UnsetRequired(r, f);
    forall s, g, a ensures AttrAt(r', s, g, a) ==
      if s == "billing" && g in fs + {f} && a == "required" then None else AttrAt(fields, s, g, a)
    {
      assert AttrAt(r', s, g, a) == if s == "billing" && g in {f} && a == "required" then None else AttrAt(r, s, g, a);
    }
  }

  /** The billing fields whose `required` attribute `override_checkout_fields` drops. */
  function StrippedFields(session: map<string, string>): (fs: set<string>)
    ensures "billing_city" in fs && "billing_address_1" in fs
    ensures "billing_country" in fs <==> ChosenShippingMethod(session) == Some(SamedayLockerOption)
  {
    if ChosenShippingMethod(session) == Some(SamedayLockerOption) then
      {"billing_city", "billing_address_1", "billing_country"}
    else
      {"billing_city", "billing_address_1"}
  }

  /**
   * `override_checkout_fields`: billing city and address 1 are no longer
   * required, and neither is billing country when the session's chosen
   * method is the locker option; every other attribute stays.
   */
  method OverrideCheckoutFields(fields: CheckoutFields, session: map<string, string>) returns (r: CheckoutFields)
    ensures RequiredDropped(r, fields, StrippedFields(session))
  {
    r := UnsetRequired(fields, "billing_city");
    ghost var fs := {"billing_city"};
    DropOneMore(r, fields, fs, "billing_address_1");
    r, fs := UnsetRequired(r, "billing_address_1"), fs + {"billing_address_1"};
    if ChosenShippingMethod(session) == Some(SamedayLockerOption) {
      DropOneMore(r, fields, fs, "billing_city");
      r, fs := UnsetRequired(r, "billing_city"), fs + {"billing_city"};
      DropOneMore(r, fields, fs, "billing_address_1");
      r, fs := UnsetRequired(r, "billing_address_1"), fs + {"billing_address_1"};
      DropOneMore(r, fields, fs, "billing_country");
      r, fs := UnsetRequired(r, "billing_country"), fs + {"billing_country"};
    }
    assert fs == StrippedFields(session);
  }

  // ---------------------------------------------------------------------------
  // Validation
  // ---------------------------------------------------------------------------

  const SelectLockerNotice: string := "Please select a Sameday locker."
  const ChooseLockerError: string := "Please, choose the Sameday locker."

  /**
   * `sameday_locker_validation`: the notice raised when the locker option is
   * posted without a locker.
   */
  function SamedayLockerValidation(post: Post, wp: Wp): (notice: Option<string>)
    ensures notice.Some? <==>
      post.carrierSameday.Some? && wp.sanitize(post.carrierSameday.value) == SamedayLockerOption
      && !PostedNonEmpty(post.samedayLocker)
    ensures notice.Some? ==> notice.value == wp.translate(SelectLockerNotice)
  {
    if post.carrierSameday.None? then None
    else if wp.sanitize(post.carrierSameday.value) == SamedayLockerOption && !PostedNonEmpty(post.samedayLocker) then
      Some(wp.translate(SelectLockerNotice))
    else None
  }

  /**
   * A locker selection that passes `sameday_locker_validation` has a
   * non-empty posted locker, so `save_sameday_selection` looks it up. As
   * written, a posted value that `absint` reads as non-zero then stores no
   * locker; with the corrected lookup, the locker stored is the row of the
   * configured country under the posted id, if there is one.
   */
  lemma ValidatedSelectionIsLookedUp(post: Post, wp: Wp, t: Table, settings: Settings)
    requires Keyed(t)
    requires post.carrierSameday.Some? && wp.sanitize(post.carrierSameday.value) == SamedayLockerOption
    requires SamedayLockerValidation(post, wp).None?
    ensures PostedNonEmpty(post.samedayLocker)
    ensures Absint(post.samedayLocker.value) != 0 ==>
      forall chosen :: ChosenAsWritten(SamedayLockerOption, post, t, settings, chosen) ==> chosen.None?
    ensures var id := Absint(post.samedayLocker.value);
      ChosenLocker(SamedayLockerOption, post, t, settings) ==
        if id in t && InCountry(t[id], settings) then Some(t[id]) else None
  {
  }

  /** `$fields[k]`, where a missing key reads as `null`, which both checks treat as "". */
  function FieldText(fields: map<string, string>, k: string): string {
    if k in fields then fields[k] else ""
  }

  /**
   * `validate_sameday_locker`: an error when the carrier contains the
   * upper-case text "LOCKER" and no locker address was given.
   */
  function ValidateSamedayLocker(fields: map<string, string>): (error: Option<string>)
    ensures error.Some? <==> Contains(FieldText(fields, "carrier"), "LOCKER") && IsEmpty(FieldText(fields, "billing_sameday_lockers"))
    ensures error.Some? ==> error.value == ChooseLockerError
  {
    if Contains(FieldText(fields, "carrier"), "LOCKER") && IsEmpty(FieldText(fields, "billing_sameday_lockers")) then
      Some(ChooseLockerError)
    else
      None
  }

  /**
   * The match is case-sensitive, so neither the locker option's label nor
   * the carrier stored for it ever raises the error.
   */
  lemma LockerLabelsPassValidation(fields: map<string, string>)
    requires FieldText(fields, "carrier") in {SamedayLockerOption, "Sameday"}
    ensures ValidateSamedayLocker(fields).None?
  {
    assert 'O' in "LOCKER";
    MissingCharRulesOut(FieldText(fields, "carrier"), "LOCKER", 'O');
  }

  // ---------------------------------------------------------------------------
  // The lockers of a country
  // ---------------------------------------------------------------------------

  /**
   * `$countries[0] ?? ''` over `smarty_get_available_countries()`: "" for an
   * empty table, otherwise the least country of the table.
   */
  ghost predicate FirstCountry(t: Table, c: string) {
    if t == map[] then c == ""
    else (exists l :: l in Rows(t) && l.country == c) && forall l :: l in Rows(t) ==> StrLe(c, l.country)
  }

  /** The rows of `c`, as `WHERE country = c ORDER BY city_name ASC, name ASC` returns them. */
  ghost predicate CountryListing(t: Table, c: string, rows: seq<Locker>) {
    && SortedBy(rows, ByCityThenName)
    && NoDuplicates(rows)
    && forall l :: l in rows <==> l in Rows(t) && l.country == c
  }

  /** The first available country, as the two public callers compute it. */
  method FirstAvailableCountry(t: Table) returns (c: string)
    ensures FirstCountry(t, c)
  {
    var cs := AvailableCountries(t);
    if cs == [] {
      c := "";
    } else {
      c := cs[0];
      assert c in cs;
      forall l | l in Rows(t) ensures StrLe(c, l.country) {
        assert l.country in cs;
      }
    }
  }

  /** The locker query of `get_sameday_lockers` and `get_locker_options`. */
  method LockersOfCountry(t: Table, c: string) returns (rows: seq<Locker>)
    ensures CountryListing(t, c, rows)
  {
    var matching := set l | l in Rows(t) && l.country == c;
    var xs := Enumerate(matching);
    rows := SortBy(xs, ByCityThenName);
    PermutationKeepsNoDuplicates(xs, rows);
    SortByMembers(xs, ByCityThenName);
  }

  /** What `get_sameday_lockers` renders: one of two messages, or a list of lockers. */
  datatype Listing = NoCountryFound | NoLockersFound | LockerList(rows: seq<Locker>)

  /**
   * `get_sameday_lockers`: the country is the `country` attribute when given,
   * else the first available country; an empty country gives "No country
   * found", a country without rows "No lockers found". Without the attribute
   * the second message cannot occur.
   */
  method GetSamedayLockers(t: Table, attsCountry: Option<string>) returns (r: Listing, ghost country: string)
    ensures attsCountry.Some? ==> country == attsCountry.value
    ensures attsCountry.None? ==> FirstCountry(t, country)
    ensures r.NoCountryFound? <==> IsEmpty(country)
    ensures r.NoLockersFound? <==> !IsEmpty(country) && forall l :: l in Rows(t) ==> l.country != country
    ensures r.LockerList? ==> r.rows != [] && CountryListing(t, country, r.rows)
    ensures attsCountry.None? ==> !r.NoLockersFound?
  {
    var c;
    if attsCountry.Some? {
      c := attsCountry.value;
    } else {
      c := FirstAvailableCountry(t);
    }
    country := c;
    if IsEmpty(c) {
      return NoCountryFound, country;
    }
    var rows := LockersOfCountry(t, c);
    if rows == [] {
      r := NoLockersFound;
    } else {
      r := LockerList(rows);
      assert rows[0] in rows;
    }
    if attsCountry.None? && t != map[] {
      var l :| l in Rows(t) && l.country == c;
      assert l in rows;
    }
  }

  // ---------------------------------------------------------------------------
  // Locker options and the checkout field
  // ---------------------------------------------------------------------------

  const NoLockersLabel: string := "No lockers available."
  const ChooseLockerLabel: string := "Choose Sameday Locker"

  /** The option of one locker: its id as the key, "full_address [name]" as the label. */
  function OptionEntry(l: Locker, wp: Wp): (string, string) {
    (wp.escAttr(IntToString(l.lockerId)), wp.escHtml(l.fullAddress + " [" + l.name + "]"))
  }

  function OptionEntries(rows: seq<Locker>, wp: Wp): (es: Assoc<string, string>)
    ensures |es| == |rows|
    ensures forall i :: 0 <= i < |rows| ==> es[i] == OptionEntry(rows[i], wp)
  {
    seq(|rows|, i requires 0 <= i < |rows| => OptionEntry(rows[i], wp))
  }

  /** Distinct rows of a keyed table have distinct ids. */
  lemma DistinctIds(t: Table, rows: seq<Locker>)
    requires Keyed(t) && NoDuplicates(rows)
    requires forall l :: l in rows ==> l in Rows(t)
    ensures forall i, j :: 0 <= i < j < |rows| ==> rows[i].lockerId != rows[j].lockerId
  {
    forall i, j | 0 <= i < j < |rows| ensures rows[i].lockerId != rows[j].lockerId {
      assert rows[i] in rows && rows[j] in rows;
      KeyedRow(t, rows[i]);
      KeyedRow(t, rows[j]);
    }
  }

  /** The key of a locker not listed yet is not among the keys listed so far. */
  lemma NewOptionKey(rows: seq<Locker>, i: int, head: string, wp: Wp)
    requires EscAttrKeepsIntegers(wp)
    requires 0 <= i < |rows|
    requires forall j, k :: 0 <= j < k < |rows| ==> rows[j].lockerId != rows[k].lockerId
    ensures !HasKey([("", head)] + OptionEntries(rows[..i], wp), OptionEntry(rows[i], wp).0)
  {
    var opts := [("", head)] + OptionEntries(rows[..i], wp);
    var key := OptionEntry(rows[i], wp).0;
    assert key == IntToString(rows[i].lockerId);
    forall n | 0 <= n < |opts| ensures opts[n].0 != key {
      if n > 0 {
        assert opts[n] == OptionEntry(rows[n - 1], wp);
        if opts[n].0 == key {
          IntToStringInjective(rows[n - 1].lockerId, rows[i].lockerId);
        }
      }
    }
  }

  /** The options of one more locker are those of the lockers before it, then its own. */
  lemma OptionEntriesSnoc(rows: seq<Locker>, i: int, wp: Wp)
    requires 0 <= i < |rows|
    ensures OptionEntries(rows[..i + 1], wp) == OptionEntries(rows[..i], wp) + [OptionEntry(rows[i], wp)]
  {
    var before := OptionEntries(rows[..i], wp);
    var after := OptionEntries(rows[..i + 1], wp);
    var e := OptionEntry(rows[i], wp);
    forall n | 0 <= n < |after| ensures after[n] == (before + [e])[n] {
      if n < i {
        assert rows[..i + 1][n] == rows[..i][n];
      } else {
        assert rows[..i + 1][n] == rows[i];
      }
    }
  }

  /** Under distinct keys, assigning the next locker's option appends it. */
  lemma OptionStep(rows: seq<Locker>, i: int, head: string, wp: Wp)
    requires EscAttrKeepsIntegers(wp)
    requires 0 <= i < |rows|
    requires forall j, k :: 0 <= j < k < |rows| ==> rows[j].lockerId != rows[k].lockerId
    ensures var e := OptionEntry(rows[i], wp);
      Assign([("", head)] + OptionEntries(rows[..i], wp), e.0, e.1) == [("", head)] + OptionEntries(rows[..i + 1], wp)
  {
    NewOptionKey(rows, i, head, wp);
    OptionEntriesSnoc(rows, i, wp);
    AppendFresh(head, OptionEntries(rows[..i], wp), OptionEntry(rows[i], wp), OptionEntries(rows[..i + 1], wp));
  }

  /** Assigning a key that is not there yet appends the entry. */
  lemma AppendFresh(head: string, before: Assoc<string, string>, e: (string, string), after: Assoc<string, string>)
    requires !HasKey([("", head)] + before, e.0)
    requires after == before + [e]
    ensures Assign([("", head)] + before, e.0, e.1) == [("", head)] + after
  {
    assert ([("", head)] + before) + [(e.0, e.1)] == [("", head)] + after;
  }

  /**
   * `get_locker_options`: "No lockers available." when there is no first
   * country; otherwise "Choose Sameday Locker" under the key "", then one
   * option per locker of the first country, keyed by its id, ordered by
   * city then name. The option keys are distinct whenever `esc_attr` leaves
   * integers alone; in general each assignment may overwrite an earlier key.
   */
  method GetLockerOptions(t: Table, wp: Wp) returns (options: Assoc<string, string>, ghost country: string, ghost rows: seq<Locker>)
    requires Keyed(t)
    ensures FirstCountry(t, country)
    ensures IsEmpty(country) ==> options == [("", wp.translate(NoLockersLabel))]
    ensures !IsEmpty(country) ==> CountryListing(t, country, rows)
    ensures !IsEmpty(country) && EscAttrKeepsIntegers(wp) ==>
      options == [("", wp.translate(ChooseLockerLabel))] + OptionEntries(rows, wp)
    ensures UniqueKeys(options) && options != [] && options[0].0 == ""
  {
    var c := FirstAvailableCountry(t);
    country := c;
    if IsEmpty(c) {
      options := [("", wp.translate(NoLockersLabel))];
      rows := [];
      return;
    }
    var found := LockersOfCountry(t, c);
    rows := found;
    assert forall l :: l in found ==> l in Rows(t);
    DistinctIds(t, found);
    var choose := wp.translate(ChooseLockerLabel);
    options := Assign([], "", choose);
    assert found[..0] == [];
    for i := 0 to |found|
      invariant UniqueKeys(options) && options != [] && options[0].0 == ""
      invariant EscAttrKeepsIntegers(wp) ==> options == [("", choose)] + OptionEntries(found[..i], wp)
    {
      var entry := OptionEntry(found[i], wp);
      if EscAttrKeepsIntegers(wp) {
        OptionStep(found, i, choose, wp);
      }
      options := Assign(options, entry.0, entry.1);
    }
    assert found[..|found|] == found;
  }

  /** The option key of a locker with a positive id is posted as non-empty text that `absint` reads back as the id. */
  lemma OptionKeyReadsBack(l: Locker, wp: Wp)
    requires l.lockerId > 0 && EscAttrKeepsIntegers(wp)
    ensures !IsEmpty(OptionEntry(l, wp).0)
    ensures Absint(OptionEntry(l, wp).0) == l.lockerId
  {
    var key := IntToString(l.lockerId);
    assert OptionEntry(l, wp).0 == key;
    AbsintOfIntToString(l.lockerId);
    assert key != "" && key != "0" by {
      if key == "0" {
        IntToStringInjective(l.lockerId, 0);
      }
    }
  }

  /**
   * With the corrected lookup, posting the key of a listed locker selects
   * that locker in `save_sameday_selection` (ids are positive: "0" would
   * read as empty).
   */
  lemma OptionKeySelectsItsLocker(t: Table, settings: Settings, l: Locker, post: Post, wp: Wp)
    requires Keyed(t) && l in Rows(t) && InCountry(l, settings) && l.lockerId > 0
    requires EscAttrKeepsIntegers(wp)
    requires post.samedayLocker == Some(OptionEntry(l, wp).0)
    ensures ChosenLocker(SamedayLockerOption, post, t, settings) == Some(l)
  {
    OptionKeyReadsBack(l, wp);
    KeyedRow(t, l);
  }

  /**
   * As written, posting the key of any listed locker stores no locker in
   * `save_sameday_selection`: the key reads back as the positive id, and the
   * lookup only ever matches 0.
   */
  lemma OptionKeySelectsNoLockerAsWritten(t: Table, settings: Settings, l: Locker, post: Post, wp: Wp)
    requires l.lockerId > 0 && EscAttrKeepsIntegers(wp)
    requires post.samedayLocker == Some(OptionEntry(l, wp).0)
    ensures PostedNonEmpty(post.samedayLocker) && Absint(post.samedayLocker.value) == l.lockerId
    ensures forall chosen :: ChosenAsWritten(SamedayLockerOption, post, t, settings, chosen) ==> chosen.None?
  {
    OptionKeyReadsBack(l, wp);
  }

  /** The `sameday_locker` field definition. */
  function LockerField(options: Assoc<string, string>, wp: Wp): Field {
    [ ("type", Word("select")),
      ("class", Classes(["form-row-wide"])),
      ("label", Word(wp.translate(SamedayLockerOption))),
      ("options", Choices(options)),
      ("required", Flag(false)),
      ("clear", Flag(true)) ]
  }

  /** `array_merge(['sameday_locker' => w], $billing)` puts that key first and keeps the other keys in order. */
  lemma MergeFieldFirst(w: Field, billing: Section)
    requires UniqueKeys(billing)
    ensures Merge([("sameday_locker", w)], billing) ==
      [("sameday_locker", MergedValue(w, billing, "sameday_locker"))] + Unset(billing, "sameday_locker")
  {
    MergeOverFront("sameday_locker", w, [], billing);
    assert [("sameday_locker", w)] + [] == [("sameday_locker", w)];
  }

  /**
   * `add_sameday_locker_field_to_checkout`: unless the WooCommerce session is
   * unavailable (or in admin), put the `sameday_locker` field first in the
   * billing section, followed by every other billing field in its order. A
   * `sameday_locker` field already there keeps its own definition.
   */
  method AddSamedayLockerFieldToCheckout(fields: CheckoutFields, sessionReady: bool, t: Table, wp: Wp)
    returns (r: CheckoutFields, ghost options: Assoc<string, string>, ghost country: string, ghost rows: seq<Locker>)
    requires Keyed(t)
    requires HasKey(fields, "billing") && UniqueKeys(Get(fields, "billing").value)
    ensures !sessionReady ==> r == fields
    ensures sessionReady ==>
      var billing := Get(fields, "billing").value;
      var w := LockerField(options, wp);
      r == Assign(fields, "billing", [("sameday_locker", MergedValue(w, billing, "sameday_locker"))] + Unset(billing, "sameday_locker"))
    ensures sessionReady ==> forall s :: s != "billing" ==> Get(r, s) == Get(fields, s)
    ensures sessionReady ==> options != [] && options[0].0 == "" && UniqueKeys(options)
    ensures sessionReady ==> FirstCountry(t, country)
    ensures sessionReady && IsEmpty(country) ==> options == [("", wp.translate(NoLockersLabel))]
    ensures sessionReady && !IsEmpty(country) ==> CountryListing(t, country, rows)
    ensures sessionReady && !IsEmpty(country) && EscAttrKeepsIntegers(wp) ==>
      options == [("", wp.translate(ChooseLockerLabel))] + OptionEntries(rows, wp)
  {
    if !sessionReady {
      return fields, [], "", [];
    }
    var billing := Get(fields, "billing").value;
    var opts;
    opts, country, rows := GetLockerOptions(t, wp);
    options := opts;
    var w := LockerField(opts, wp);
    var merged := Merge([("sameday_locker", w)], billing);
    MergeFieldFirst(w, billing);
    r := Assign(fields, "billing", merged);
    forall s | s != "billing" ensures Get(r, s) == Get(fields, s) {
      GetAssign(fields, "billing", merged, s);
    }
  }
}
