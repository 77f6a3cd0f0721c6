/**
 * `Smarty_Sameday_API`: the token option and the locker table it reads and
 * writes, with the operations that call the Sameday API, refresh the table
 * and query it.
 */
module SamedayApi {
  import opened Wrappers
  import opened PhpStrings
  import opened PhpArrays
  import opened WordPress
  import opened Sorting
  import opened Lockers
  import opened Auth
  import opened Transport
  import opened Pagination

  class Api {
    /** The option `smarty_sameday_auth_token`, and how many authentication requests were sent. */
    var auth: AuthState
    /** The table `smarty_sameday_lockers`. */
    var lockers: Table

    ghost predicate Valid()
      reads this
    {
      Keyed(lockers)
    }

    constructor (auth0: AuthState, table: Table)
      requires Keyed(table)
      ensures Valid() && auth == auth0 && lockers == table
    {
      auth := auth0;
      lockers := table;
    }

    /**
     * `get_auth_token`: reuse the stored token while it is fresh, otherwise
     * authenticate once and store the new token only on success.
     */
    method GetAuthToken(server: nat -> AuthReply, wp: Wp, tz: string, now: int) returns (token: Result<string>)
      modifies this
      ensures (auth, token) == GetToken(old(auth), server, wp, tz, now)
      ensures lockers == old(lockers)
    {
      if Fresh(auth.stored, wp, tz, now) {
        return Success(auth.stored.value.token);
      }
      var reply := server(auth.requests);
      auth := auth.(requests := auth.requests + 1);
      if reply.curlError.Some? {
        return Failure("Auth CURL Error: " + reply.curlError.value);
      }
      if reply.status != 200 || reply.decoded.token.None? || IsEmpty(reply.decoded.token.value) {
        return Failure("Auth failed: " + reply.body);
      }
      auth := auth.(stored := Some(AuthData(reply.decoded.token.value, reply.decoded.expireAt)));
      token := Success(reply.decoded.token.value);
    }

    /**
     * `call_sameday_api(param, query, parse)`: the request it sends (none when
     * the token cannot be had) and the classified reply.
     */
    method CallSamedayApi(
      server: nat -> AuthReply, settings: Settings, wp: Wp, tz: string, now: int,
      param: string, q: Assoc<string, QueryValue>, parse: bool, reply: HttpReply
    ) returns (request: Option<Request>, result: CallResult)
      modifies this
      ensures (auth, request, result) == Call(old(auth), server, settings, wp, tz, now, param, q, parse, reply)
      ensures lockers == old(lockers)
    {
      var url := RequestUrl(param, q, wp);
      var token := GetAuthToken(server, wp, tz, now);
      if token.Failure? {
        return None, Failed(token.error);
      }
      request := Some(Request(url, ApiHeaders(settings, token.value)));
      result := Classify(reply, parse);
    }

    /**
     * `fetch_sameday_lockers`: the lockers of every page in order, or `None`
     * (PHP `null`) when any call throws; also the calls it made.
     */
    method FetchSamedayLockers(env: Env) returns (result: Option<seq<Locker>>, calls: seq<PageCall>)
      modifies this
      ensures Run(auth, calls, result) == Fetch(env, old(auth))
      ensures lockers == old(lockers)
    {
      PageStepperWithin(env);
      var step := PageStepper(env);
      var last := |env.server.pages|;
      ghost var target := Fetch(env, auth);
      var countryCode := CountryCode(env.settings);
      var acc: seq<Locker> := [];
      calls := [];
      var page := 1;
      var hasMore := true;
      while hasMore
        invariant 1 <= page <= last + 1
        invariant lockers == old(lockers)
        invariant hasMore ==> Loop(step, last, auth, page, acc, calls, env) == target
        invariant !hasMore ==> target == Run(auth, calls, Some(acc))
        decreases if hasMore then last + 2 - page else 0
      {
        ghost var before := auth;
        var request, outcome := CallSamedayApi(
          env.server.auth, env.settings, env.wp, env.tz, env.now,
          LockersPath, PageQuery(countryCode, page), true, PageReply(env.server, page));
        var c := PageCall(page, PageUrl(env, page), request, outcome);
        PageStepIsCall(env, before, page, auth, request, outcome);
        calls := calls + [c];
        if outcome.Failed? {
          return None, calls;
        }
        if !outcome.Parsed? || outcome.payload.data == [] {
          break;
        }
        acc := AppendNormalised(acc, outcome.payload.data, env.stamp, env.wp);
        page := page + 1;
        hasMore := page <= outcome.payload.pages.GetOr(1);
      }
      result := Some(acc);
    }

    /**
     * `insert_sameday_lockers`: without `manage_options` nothing happens;
     * otherwise the table is emptied, the lockers are fetched and each is
     * `REPLACE`d into the table in order.
     */
    method InsertSamedayLockers(canManage: bool, env: Env)
      requires Valid()
      modifies this
      ensures Valid()
      ensures !canManage ==> auth == old(auth) && lockers == old(lockers)
      ensures canManage ==>
        var run := Fetch(env, old(auth));
        auth == run.auth && lockers == UpsertAll(run.result.GetOr([]))
    {
      if !canManage {
        return;
      }
      lockers := map[];
      ghost var run := Fetch(env, auth);
      var all, calls := FetchSamedayLockers(env);
      assert run == Run(auth, calls, all);
      if all.None? || all.value == [] {
        assert UpsertAll(all.GetOr([])) == map[];
        return;
      }
      var rows := all.value;
      for i := 0 to |rows|
        invariant auth == run.auth
        invariant lockers == UpsertAll(rows[..i])
      {
        UpsertStep(rows, i);
        lockers := lockers[rows[i].lockerId := rows[i]];
      }
      assert rows[..|rows|] == rows;
    }

    /**
     * `query_sameday_lockers(country, city, post_code)`: the rows matching
     * every non-empty filter, ordered by address; rows with equal addresses
     * may come in any order.
     */
    method QuerySamedayLockers(country: string, city: string, postCode: string) returns (rs: seq<Locker>)
      ensures SortedBy(rs, ByAddress)
      ensures NoDuplicates(rs)
      ensures forall r :: r in rs <==> r in Rows(lockers) && Matches(r, country, city, postCode)
    {
      var matching := set r | r in Rows(lockers) && Matches(r, country, city, postCode);
      var xs := Enumerate(matching);
      rs := SortBy(xs, ByAddress);
      PermutationKeepsNoDuplicates(xs, rs);
      SortByMembers(xs, ByAddress);
    }
  }
}
