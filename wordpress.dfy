/**
 * The WordPress and PHP library calls the plugin makes but does not define.
 * They are uninterpreted: a `Wp` value bundles one function per call, and
 * every operation of the model takes the bundle as a parameter, so whatever
 * is proved holds for every behaviour of those calls.
 */
module WordPress {
  import opened Wrappers
  import opened PhpStrings

  datatype Wp = Wp(
    /** `sanitize_text_field` */
    sanitize: string -> string,
    /** `esc_html` */
    escHtml: string -> string,
    /** `esc_attr` */
    escAttr: string -> string,
    /** `__()` with the plugin's text domain */
    translate: string -> string,
    /** `strtotime(text)` under a time zone, relative to a clock reading; `false` is `None` */
    strtotime: (string, string, int) -> Option<int>,
    /** `urlencode` as `http_build_query` applies it */
    urlencode: string -> string
  )

  /**
   * `esc_attr` leaves the decimal text of an integer as it is (it only
   * rewrites `&`, `<`, `>`, `"` and `'`).
   */
  ghost predicate EscAttrKeepsIntegers(wp: Wp) {
    forall i :: wp.escAttr(IntToString(i)) == IntToString(i)
  }

  /**
   * The plugin's settings option `smarty_sameday_settings`; a key that is not
   * set (or an option that does not exist at all) is `None`.
   */
  datatype Settings = Settings(
    username: Option<string>,
    password: Option<string>,
    countryCode: Option<string>,
    autoUpdateSchedule: Option<string>
  )

  /** The country code the plugin falls back to when the setting is unset. */
  const DefaultCountryCode: string := "RO"

  /** `$options['smarty_sameday_field_country_code'] ?? 'RO'` */
  function CountryCode(settings: Settings): (c: string)
    ensures settings.countryCode.None? ==> c == DefaultCountryCode
    ensures settings.countryCode.Some? ==> c == settings.countryCode.value
  {
    settings.countryCode.GetOr(DefaultCountryCode)
  }

  /** The label of the locker shipping option. */
  const SamedayLockerOption: string := "Sameday Locker"

  /** The `$_POST` fields the plugin reads; a field that is not set is `None`. */
  datatype Post = Post(
    carrierSameday: Option<string>,
    samedayLocker: Option<string>,
    shippingMethod: Option<string>
  )

  /** `isset($_POST[f]) && !empty($_POST[f])`, which is `!empty($_POST[f])`. */
  predicate PostedNonEmpty(f: Option<string>) {
    f.Some? && !IsEmpty(f.value)
  }
}
