# Sameday lockers locator — a Dafny model of the locker-directory pipeline

This project models the WordPress/WooCommerce plugin *Smarty Sameday Lockers
Locator*. The plugin copies the parcel-locker directory of the Sameday courier
API into a local table and lets the checkout offer those lockers.

The model covers the plugin's locker-directory pipeline:

- **Token cache** (`get_auth_token`, module `Auth`). The stored
  `{token, expire_at}` option is reused while it is unexpired. Otherwise one
  authentication exchange is made; it either fails or replaces the option.
- **One API call** (`call_sameday_api`, module `Transport`). It joins the
  request URL and sorts the reply into a failure, a raw body or a payload.
- **Paginated fetch** (`fetch_sameday_lockers`, module `Pagination`). The
  fetch loops over pages 1, 2, … and normalises each locker record
  (module `Lockers`).
- **Sync** (`insert_sameday_lockers`). The capability guard, the truncation
  and the upsert by the primary key `locker_id` are in the class
  `SamedayApi.Api`. That class holds the token option, the number of
  authentication exchanges made, and the locker table.
- **Reads**:
  - the filtered, address-ordered query;
  - the distinct-country listing (`PluginFunctions`);
  - the admin lookups by id and by name;
  - the order-meta writes, the address filter and the weekly update
    schedule (`Admin`);
  - the checkout's option list, field rewrites and validation rules
    (`Public`).

The locker table is a `map` from `locker_id` to its row. The remote server is
given as data: one authentication reply per exchange, and one reply per page
requested. The WordPress library calls the code relies on are uninterpreted
functions, bundled in the datatype `WordPress.Wp`. These are
`sanitize_text_field`, `esc_html`, `esc_attr`, `__()`, `strtotime` and the
query-string encoder. PHP's own semantics are written out in `PhpStrings` and
`PhpArrays`:

- `empty()`, where both "" and "0" count as empty;
- `strtok`, `explode`, `intval`/`absint` and `stripos`;
- ordered arrays with `unset`, assignment and `array_merge`.

SQL `ORDER BY` leaves the order of ties open. Each query is therefore stated
as "sorted by its key, no row twice, and exactly the matching rows". The keys
use a lexicographic string order defined in `PhpStrings`.

## Model

| member | source | states |
|---|---|---|
| Auth.Exchange | includes/classes/class-smarty-sameday-api.php:49-69 | the exchange succeeds iff there was no transport error, the status is 200 and the decoded token is non-empty; on success it yields exactly that token and `expire_at`; a transport error yields "Auth CURL Error: " and the message |
| Auth.GetToken | includes/classes/class-smarty-sameday-api.php:23-70 | a fresh stored token is returned with no exchange and no state change; otherwise exactly one exchange is counted, and a failure keeps the stored option while a success stores the reply and returns its token; a returned token is never empty |
| Auth.RefreshedTokenIsReused | includes/classes/class-smarty-sameday-api.php:26-30 | a token just obtained with a future `expire_at` is reused by the next call, with no further exchange |
| Transport.RequestUrl | includes/classes/class-smarty-sameday-api.php:82-87 | the URL is the host, one "/", the parameter without leading slashes, and "?" with the query only when there are query parameters |
| Transport.EndpointWithoutSlash | includes/classes/class-smarty-sameday-api.php:83 | the endpoint with trailing slashes removed is the host |
| Transport.RequestUrlIgnoresLeadingSlash | includes/classes/class-smarty-sameday-api.php:83 | a leading "/" on the parameter does not change the URL |
| Transport.Classify | includes/classes/class-smarty-sameday-api.php:116-138 | in order: a transport error gives "Curl Error: …"; no parsing gives the raw body; malformed JSON gives "JSON Decode Error: …"; an `error.message` gives "API Error: …"; the result is the payload exactly when none of these applies |
| Transport.ClassifyIgnoresStatus | includes/classes/class-smarty-sameday-api.php:116-138 | the HTTP status of an API reply never changes its classification |
| Transport.Call | includes/classes/class-smarty-sameday-api.php:81-139 | the token cache advances as in `GetToken`; when no token is obtained, no request is sent and the call fails with that error; otherwise one request carrying the URL and the bearer headers is sent and its reply is classified |
| Pagination.PageReply | includes/classes/class-smarty-sameday-api.php:154-166 | a page past the server's last reply answers with no data |
| Pagination.PageStep | includes/classes/class-smarty-sameday-api.php:158-168 | one turn of the loop calls the API for its page at that page's URL; when the request is sent its outcome is the classified server reply to that page, otherwise it failed; only a page the server holds can have data |
| Pagination.FetchRequestsPagesInOrder | includes/classes/class-smarty-sameday-api.php:154-197 | the fetch makes at least one call, and call i asks for page i+1 at that page's own URL, so pages 1, 2, 3, … each once in increasing order; a call that sent its request has the classified server reply to page i+1 as its outcome, and a call that sent none failed |
| Pagination.FetchStopsAtFirstEmptyOrLastPage | includes/classes/class-smarty-sameday-api.php:166-168 | every call but the last had data and a next page within that reply's `pages` (1 when absent), and the last did not |
| Pagination.FetchNeverPartial | includes/classes/class-smarty-sameday-api.php:157-197 | the result is `null` exactly when some call failed; there is never a partial list |
| Pagination.FetchConcatenatesPages | includes/classes/class-smarty-sameday-api.php:158-188 | a successful result is the normalised records of all the pages' data, concatenated in page order, and every call it made has the classified server reply to its page as its outcome |
| Lockers.NormalisePage | includes/classes/class-smarty-sameday-api.php:170-188 | one row per API record, in the record order, each the `Lockers.Normalise` of its record (the field defaults, "" and id 0, the sanitising and the `full_address` text of lines 171-187 are written out in `Normalise` and `FullAddressText`) |
| Lockers.AppendNormalised | includes/classes/class-smarty-sameday-api.php:170-188 | the loop appends exactly the normalised records of a page to the accumulated list |
| Lockers.KeyedRow | includes/classes/class-smarty-sameday-activator.php:57 | in a table keyed by `locker_id`, every row is stored under its own id |
| Lockers.UpsertAll | includes/classes/class-smarty-sameday-api.php:224-245 | the `REPLACE` loop yields a table keyed by `locker_id` |
| Lockers.UpsertStep | includes/classes/class-smarty-sameday-api.php:225-245 | one more `REPLACE` overwrites exactly the row under the record's id |
| Lockers.UpsertAllKeepsLast | includes/classes/class-smarty-sameday-api.php:224-245 | an id is in the table iff some fetched record has it, and the row stored is the last fetched record with that id |
| SamedayApi.Api.GetAuthToken | includes/classes/class-smarty-sameday-api.php:23-70 | the token option and exchange count become what `Auth.GetToken` gives; the table is unchanged |
| SamedayApi.Api.CallSamedayApi | includes/classes/class-smarty-sameday-api.php:81-139 | the request sent, the result and the new token state are those of `Transport.Call`; the table is unchanged |
| SamedayApi.Api.FetchSamedayLockers | includes/classes/class-smarty-sameday-api.php:148-198 | the `while` loop makes exactly the calls, token updates and result of `Pagination.Fetch`; the table is unchanged |
| SamedayApi.Api.InsertSamedayLockers | includes/classes/class-smarty-sameday-api.php:207-248 | without `manage_options` nothing changes; otherwise the table is emptied and then holds exactly the upserted fetch result, so it stays empty for a failed or empty fetch |
| SamedayApi.Api.QuerySamedayLockers | includes/classes/class-smarty-sameday-api.php:260-291 | the result is sorted by address, has no duplicates, and holds exactly the rows that match every non-empty filter |
| Sorting.SortBy | includes/classes/class-smarty-sameday-api.php:283 | the result is sorted by the key and is a permutation of the input |
| Sorting.InsertBy | includes/classes/class-smarty-sameday-api.php:283 | inserting adds exactly one element and keeps a sorted list sorted |
| Sorting.SortByMembers | includes/classes/class-smarty-sameday-api.php:283 | sorting keeps exactly the same members |
| Sorting.PermutationKeepsNoDuplicates | includes/classes/class-smarty-sameday-api.php:283 | a permutation of a list without duplicates has none |
| Sorting.Enumerate | includes/classes/class-smarty-sameday-api.php:283-289 | the rows of a set as a list without duplicates and with the same members |
| Sorting.KeyLeTotal | includes/classes/class-smarty-sameday-api.php:283 | any two sort keys are ordered one way or the other |
| Sorting.KeyLeTransitive | includes/classes/class-smarty-sameday-api.php:283 | the key order is transitive |
| Sorting.KeyLeReflexive | includes/classes/class-smarty-sameday-api.php:283 | the key order is reflexive |
| PluginFunctions.AvailableCountries | includes/functions.php:24-31 | strictly ascending; a country is listed iff some row has it; empty iff the table is empty; the first country is the least |
| PluginFunctions.EmptyExactlyForEmptyTable | includes/functions.php:28 | the distinct countries are empty exactly when the table is |
| PluginFunctions.SortedDistinctAscending | includes/functions.php:28 | a sorted list without duplicates is strictly ascending, and its head is the least |
| PluginFunctions.StrictlyAscendingUnique | includes/functions.php:28 | two strictly ascending lists with the same members are equal, so the listing is determined by the table |
| WordPress.CountryCode | admin/class-smarty-sameday-admin.php:456 | the configured country, or "RO" only when the setting is unset |
| PhpStrings.SplitCount | admin/class-smarty-sameday-admin.php:480-481 | `explode` gives one part more than there are separators |
| PhpStrings.SplitJoin | admin/class-smarty-sameday-admin.php:480 | joining the parts of `explode` with the separator gives the string back |
| PhpStrings.StrtokIsFirstToken | admin/class-smarty-sameday-admin.php:595 | `strtok` skips leading separators and returns the text up to the next separator, which holds no separator |
| PhpStrings.StrtokSkipsSeparators | admin/class-smarty-sameday-admin.php:595 | `strtok` is the first token after the leading separators are trimmed |
| PhpStrings.IntvalOfIntToString | public/class-smarty-sameday-public.php:388 | `intval` reads back every integer's decimal text |
| PhpStrings.AbsintOfIntToString | admin/class-smarty-sameday-admin.php:600 | `absint` of an integer's decimal text is its absolute value |
| PhpStrings.IntToStringInjective | public/class-smarty-sameday-public.php:388 | distinct locker ids give distinct option keys |
| PhpStrings.MissingCharRulesOut | public/class-smarty-sameday-public.php:316 | a text lacking one character of the needle does not contain the needle |
| PhpStrings.StrLeTotal | includes/classes/class-smarty-sameday-api.php:283 | any two strings are ordered one way or the other |
| PhpStrings.StrLeTransitive | includes/classes/class-smarty-sameday-api.php:283 | the string order is transitive |
| PhpStrings.StrLeAntisymmetric | includes/functions.php:28 | strings ordered both ways are equal |
| PhpArrays.Get | admin/class-smarty-sameday-admin.php:729 | reading a key finds it iff it is present, with the value stored under it |
| PhpArrays.GetAssign | admin/class-smarty-sameday-admin.php:729 | after an assignment the key reads the new value and every other key reads as before |
| PhpArrays.GetUnset | public/class-smarty-sameday-public.php:213-222 | after `unset` the key is missing and every other key reads as before |
| PhpArrays.MergeOverFront | public/class-smarty-sameday-public.php:355 | `array_merge` of a front array with one more array keeps the front keys first, then the other array's remaining keys in order |
| Admin.ApiQuerySamedayLockers | admin/class-smarty-sameday-admin.php:454-459 | address-sorted rows without duplicates, exactly those of the configured country; an unset setting selects "RO", and a setting of "" selects every row |
| Admin.FirstMatch | admin/class-smarty-sameday-admin.php:549-557 | the `foreach` with early return yields the first element satisfying the test, or `null` when none does |
| Admin.FirstMatchIsLeast | admin/class-smarty-sameday-admin.php:549-557 | in an address-sorted list, the first match has the least address among all matches |
| Admin.GetLockerDetailsByNumberAsWritten | admin/class-smarty-sameday-admin.php:542-558 | any id but 0 finds nothing; id 0 finds nothing iff the country has no row, and otherwise the country's row with the least address |
| Admin.GetLockerDetailsByNumber | admin/class-smarty-sameday-admin.php:542-558 | a row is found iff the id is in the table and its row is of the configured country, and then it is that row |
| Admin.GetLockerDetailsByName | admin/class-smarty-sameday-admin.php:569-581 | nothing is found iff no row of the country has a name containing the text, ignoring ASCII case; otherwise the matching row with the least address |
| Admin.ChosenLocker | admin/class-smarty-sameday-admin.php:599-603 | corrected lookup (see Findings): a locker is chosen only for the exact option "Sameday Locker" with a non-empty posted id; it is a table row of the configured country whose `locker_id` is the `absint` of that post |
| Admin.FoundIsChosen | admin/class-smarty-sameday-admin.php:599-603 | corrected lookup: the row the lookup by `locker_id` finds for the posted id is exactly `ChosenLocker` |
| Admin.FoundIsChosenAsWritten | admin/class-smarty-sameday-admin.php:549-557 | as written: the row `get_locker_details_by_number` finds for the `absint` of the post (nothing for a non-zero id, the country's first row by address for 0) is one `ChosenAsWritten` allows |
| Admin.SelectedLockerAsWritten | admin/class-smarty-sameday-admin.php:599-603 | as written: a locker is selected only for the exact option "Sameday Locker" with a non-empty posted value that `absint` reads as 0, and then it is the configured country's row with the least address (none when the country has no row) |
| Admin.LockerMetaWrites | admin/class-smarty-sameday-admin.php:603-636 | without a locker no meta changes; with one its details and address text are written, its postcodes only when non-empty, and every other key keeps its value |
| Admin.LockerPropsWrites | admin/class-smarty-sameday-admin.php:620-636 | without a locker the order's address is unchanged; with one, both address lines become the locker address and the billing city its city, postcodes only when non-empty, and nothing else changes |
| Admin.Order.SaveSamedaySelection | admin/class-smarty-sameday-admin.php:590-642 | as written: nothing is written without a posted carrier; otherwise `carrier` is the option up to its first space and the option is stored whole; locker meta and address are written for the locker `ChosenAsWritten` allows, so never for a posted value that `absint` reads as non-zero |
| Admin.Order.SaveSamedaySelectionCorrected | admin/class-smarty-sameday-admin.php:590-642 | corrected lookup: the same carrier and option writes, then the meta and address of the row under the posted `locker_id` (`ChosenLocker`), if it is of the configured country |
| Admin.Order.SaveSamedayLocker | admin/class-smarty-sameday-admin.php:705-717 | the address is never touched; details are written only when a non-empty locker name is posted and the name lookup finds a row, and then they are that row's |
| Admin.FilterFormattedAddress | admin/class-smarty-sameday-admin.php:726-733 | `address_1` reads "" exactly for orders whose stored option is "Sameday Locker"; otherwise the address is returned as it is; every other key keeps its value |
| Admin.NextRun | admin/class-smarty-sameday-admin.php:495 | `wp_next_scheduled` reports a time exactly when an event is scheduled, and it is that event's time |
| Admin.ScheduleText | admin/class-smarty-sameday-admin.php:480-492 | for a schedule with one space, the day and time rejoined with a space is the whole setting |
| Admin.CronSchedule.ScheduleUpdates | admin/class-smarty-sameday-admin.php:471-503 | nothing changes outside admin or for a schedule that does not split into two parts; an unchanged next run leaves the event as it is; otherwise the old event is removed and one weekly event at the new time is registered |
| Public.ChosenShippingMethod | public/class-smarty-sameday-public.php:198 | the session's chosen method is read iff it is set |
| Public.Session.UpdateShippingMethod | public/class-smarty-sameday-public.php:183-189 | without a posted method nothing changes; otherwise `carrier_sameday` and `chosen_shipping_method` both hold the sanitised posted value |
| Public.UnsetRequired | public/class-smarty-sameday-public.php:213 | one `unset` drops exactly that field's `required` attribute |
| Public.DropOneMore | public/class-smarty-sameday-public.php:213-222 | successive `unset`s drop the union of their fields' `required` attributes |
| Public.StrippedFields | public/class-smarty-sameday-public.php:212-226 | city and address are always stripped; the country is stripped iff the chosen method is "Sameday Locker" |
| Public.OverrideCheckoutFields | public/class-smarty-sameday-public.php:212-226 | the fields come back with exactly those `required` attributes removed and everything else untouched |
| Public.SamedayLockerValidation | public/class-smarty-sameday-public.php:238-248 | a notice is raised iff `carrier_sameday` is posted, sanitises to "Sameday Locker", and `sameday_locker` is empty |
| Public.ValidatedSelectionIsLookedUp | admin/class-smarty-sameday-admin.php:599-603 | a locker selection that passed validation has a non-empty posted locker; as written, when `absint` reads it as non-zero no locker is stored; with the corrected lookup the row under that id is stored, if it is of the country |
| Public.ValidateSamedayLocker | public/class-smarty-sameday-public.php:314-319 | an error is raised iff the carrier contains "LOCKER" (case-sensitive) and the locker address is empty |
| Public.LockerLabelsPassValidation | public/class-smarty-sameday-public.php:316 | the carriers "Sameday Locker" and "Sameday" never raise that error |
| Public.FirstAvailableCountry | public/class-smarty-sameday-public.php:372-373 | "" for an empty table, otherwise the least country |
| Public.LockersOfCountry | public/class-smarty-sameday-public.php:379-382 | the country's rows, ordered by city then name, with no duplicates |
| Public.GetSamedayLockers | public/class-smarty-sameday-public.php:267-305 | the `country` attribute is used when given, otherwise the first available country; "No country found" iff that is empty; "No lockers found" iff no row has it; otherwise the non-empty listing |
| Public.OptionEntries | public/class-smarty-sameday-public.php:384-389 | one option per locker, in order, each the `Public.OptionEntry` of its row: the escaped id as key and "full_address [name]" as label |
| Public.DistinctIds | includes/classes/class-smarty-sameday-activator.php:57 | distinct table rows have distinct ids |
| Public.NewOptionKey | public/class-smarty-sameday-public.php:384-389 | each locker's option key is new, so no option overwrites an earlier one |
| Public.OptionStep | public/class-smarty-sameday-public.php:384-389 | assigning the next locker's option appends it |
| Public.GetLockerOptions | public/class-smarty-sameday-public.php:367-392 | with no country, the single "" option "No lockers available."; otherwise "" then "Choose Sameday Locker" first, then one option per locker of the first country in city-then-name order; keys are unique |
| Public.OptionKeySelectsItsLocker | public/class-smarty-sameday-public.php:388 | corrected lookup: posting a listed locker's option key makes `save_sameday_selection` choose exactly that locker |
| Public.OptionKeySelectsNoLockerAsWritten | public/class-smarty-sameday-public.php:388 | as written: posting any listed locker's option key (a positive id) is a non-empty value that `absint` reads back as that id, so `save_sameday_selection` stores no locker |
| Public.OptionKeyReadsBack | public/class-smarty-sameday-public.php:388 | a positive locker id's option key is non-empty and `absint` reads it back as the id |
| Public.MergeFieldFirst | public/class-smarty-sameday-public.php:355 | the merge puts `sameday_locker` first and keeps the other billing fields in their order |
| Public.AddSamedayLockerFieldToCheckout | public/class-smarty-sameday-public.php:328-359 | without the session nothing changes; otherwise `sameday_locker` is the first billing field, the other billing fields follow in order, the other sections are untouched, and the field's options are those of `get_locker_options`: "No lockers available." alone when the least country is empty ("" or "0"), an empty table included, otherwise "Choose Sameday Locker" then that country's lockers in city-then-name order |

## Left out

- HTTP transport: the header lines and the `key=value&…` query string are built by Transport.ApiHeaders and Transport.BuildQuery; `urlencode` is an uninterpreted function, and cURL, the connect timeout and JSON decoding are left out, so replies are given as data.
- Remote server: its replies are a finite sequence, and a page past its end answers with no data, so the pagination loop always ends.
- Clock and time zone: the clock is one `now` for a whole fetch, so every row of a sync carries the same `updated_at`. Invalid time zone names are not modelled.
- Database: collation (case-insensitive comparison and ordering), column widths and the `INT(11)` range are not modelled, and comparisons are exact.
- SamedayApi.Api.InsertSamedayLockers: the result of each `$wpdb->replace` is ignored, as the code ignores it; a failed write is not modelled.
- Transport.Classify: the HTTP status of an API reply is not consulted, as in the code; a `data` that is not a JSON array (for example `{}`, which `empty()` finds non-empty and `(array)` turns into no records) cannot be expressed, since the payload holds `data` as a list of records.
- Logging: `_sll_write_logs` writes a file and is not modelled.
- Presentation is not modelled: settings-page callbacks, HTML output of the shortcode, the admin order display, the thank-you page, the shipping-block hiding, and the JavaScript.
- Hook registration, activation and deactivation are not modelled, except the primary key of the table.
- Concurrency: a single sequential caller is assumed; there is no locking around syncs or token refreshes.
- PhpStrings.Absint: it reads plain signed decimal text only; exponent and hexadecimal forms are not modelled.
- PhpStrings.Intval: PHP's integer conversion saturates a numeric text beyond the 64-bit range at `PHP_INT_MAX` (or `PHP_INT_MIN`); the model's integers are unbounded, so such a posted locker reads as its exact value.
- Admin.CronSchedule.ScheduleUpdates: WordPress can hold several events of one hook, and `wp_next_scheduled` and `wp_unschedule_event` act on the next of them; the model holds at most one event of the auto-updater hook.
- Admin.Order.SaveSamedaySelection: a failed `wc_get_order` and the persistence of `$order->save()` are not modelled; the meta and address maps are the order.
- Locker address label: the table has no `sameday_id` column, so the label always shows the translated "Unknown ID".
- Public.AddSamedayLockerFieldToCheckout: the session prerequisites are one boolean, `sessionReady`. The member requires a `billing` section, without which PHP's `array_merge` would raise an error.
- Public.GetLockerOptions: the list is stated exactly only when `esc_attr` keeps the decimal text of integers (`EscAttrKeepsIntegers`). In general only the first entry and unique keys are stated.
- PhpArrays.Merge: PHP renumbers integer keys in `array_merge`, and PHP stores numeric option keys as integers. Keys are strings throughout the model.

## Findings

| source | as written | input that shows it | evidently intended | confidence | as-written member | corrected member |
|---|---|---|---|---|---|---|
| admin/class-smarty-sameday-admin.php:550 | the lookup compares `(int) $locker['sameday_id']` with the id, but the table has no `sameday_id` column, so that side is always 0 | a table with a Romanian locker of id 5, default settings, and "5" posted as the locker: nothing is found and no locker details are saved | compare the row's `locker_id` | not executed | Admin.GetLockerDetailsByNumberAsWritten | Admin.GetLockerDetailsByNumber |
| admin/class-smarty-sameday-admin.php:599-603 | `save_sameday_selection` stores the locker found by the `sameday_id` lookup, which matches only a posted value that reads as 0 | the option "Sameday Locker" with a listed locker's key "5" posted: only `carrier` and `_sameday_selected_option` are written; with "abc" posted, the first locker of the country by address is stored | store the locker under the posted `locker_id` | not executed | Public.OptionKeySelectsNoLockerAsWritten | Public.OptionKeySelectsItsLocker |
