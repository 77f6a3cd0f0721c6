/**
 * The Sameday authentication token: the cached option
 * `smarty_sameday_auth_token`, when it may be reused, and the exchange with
 * `https://api.sameday.bg/api/authenticate` that refreshes it.
 */
module Auth {
  import opened Wrappers
  import opened PhpStrings
  import opened WordPress

  /** The stored option: the token and its `expire_at` text (`null` is `None`). */
  datatype AuthData = AuthData(token: string, expireAt: Option<string>)

  /** The decoded JSON body of an authentication reply; absent keys (or an undecodable body) are `None`. */
  datatype AuthBody = AuthBody(token: Option<string>, expireAt: Option<string>)

  /** One reply of the authentication endpoint: a cURL error, or a status and a body. */
  datatype AuthReply = AuthReply(curlError: Option<string>, status: int, body: string, decoded: AuthBody)

  /**
   * The option as it stands, and how many authentication requests have been
   * sent so far; the authentication server answers the `n`-th request
   * (counting from 0) with `server(n)`.
   */
  datatype AuthState = AuthState(stored: Option<AuthData>, requests: nat)

  /**
   * The stored token may be reused: token and expiry are both non-empty and
   * the expiry parses to a time after `now`. A failed parse is `false`,
   * which is never greater than the clock.
   */
  predicate Fresh(stored: Option<AuthData>, wp: Wp, tz: string, now: int) {
    && stored.Some?
    && !IsEmpty(stored.value.token)
    && stored.value.expireAt.Some?
    && !IsEmpty(stored.value.expireAt.value)
    && var t := wp.strtotime(stored.value.expireAt.value, tz, now);
       t.Some? && t.value > now
  }

  /**
   * The outcome of one authentication exchange: the option to store, or the
   * message of the exception thrown.
   */
  function Exchange(reply: AuthReply): (r: Result<AuthData>)
    ensures r.Success? <==>
      reply.curlError.None? && reply.status == 200
      && reply.decoded.token.Some? && !IsEmpty(reply.decoded.token.value)
    ensures r.Success? ==> r.value.token == reply.decoded.token.value && r.value.expireAt == reply.decoded.expireAt
    ensures reply.curlError.Some? ==> r == Failure("Auth CURL Error: " + reply.curlError.value)
  {
    if reply.curlError.Some? then Failure("Auth CURL Error: " + reply.curlError.value)
    else if reply.status != 200 || reply.decoded.token.None? || IsEmpty(reply.decoded.token.value) then
      Failure("Auth failed: " + reply.body)
    else Success(AuthData(reply.decoded.token.value, reply.decoded.expireAt))
  }

  /**
   * `get_auth_token`: the token to use and the state after the call. A fresh
   * stored token is returned without any request; otherwise exactly one
   * request is sent, and only a successful reply overwrites the option.
   */
  function GetToken(s: AuthState, server: nat -> AuthReply, wp: Wp, tz: string, now: int): (r: (AuthState, Result<string>))
    ensures Fresh(s.stored, wp, tz, now) ==> r.0 == s && r.1 == Success(s.stored.value.token)
    ensures !Fresh(s.stored, wp, tz, now) ==> r.0.requests == s.requests + 1
    ensures !Fresh(s.stored, wp, tz, now) && Exchange(server(s.requests)).Failure? ==>
      r.0.stored == s.stored && r.1 == Failure(Exchange(server(s.requests)).error)
    ensures !Fresh(s.stored, wp, tz, now) && Exchange(server(s.requests)).Success? ==>
      r.0.stored == Some(Exchange(server(s.requests)).value) && r.1 == Success(r.0.stored.value.token)
    ensures r.1.Success? ==> !IsEmpty(r.1.value)
  {
    if Fresh(s.stored, wp, tz, now) then (s, Success(s.stored.value.token))
    else
      match Exchange(server(s.requests))
      case Failure(e) => (AuthState(s.stored, s.requests + 1), Failure(e))
      case Success(d) => (AuthState(Some(d), s.requests + 1), Success(d.token))
  }

  /**
   * A token just obtained whose expiry lies after the clock is reused by the
   * next call at the same time, without a second request.
   */
  lemma RefreshedTokenIsReused(s: AuthState, server: nat -> AuthReply, wp: Wp, tz: string, now: int)
    requires !Fresh(s.stored, wp, tz, now)
    requires Exchange(server(s.requests)).Success?
    requires var e := Exchange(server(s.requests)).value.expireAt;
      e.Some? && !IsEmpty(e.value) && wp.strtotime(e.value, tz, now).Some? && wp.strtotime(e.value, tz, now).value > now
    ensures var (s1, t1) := GetToken(s, server, wp, tz, now);
      var (s2, t2) := GetToken(s1, server, wp, tz, now);
      s2 == s1 && t2 == t1
  {
  }
}
