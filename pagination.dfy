/**
 * The paginated download of `fetch_sameday_lockers`, as a specification:
 * page after page of `api/client/lockers` for the configured country, until
 * a page comes back without data or the reply's page count is reached. Any
 * exception (a failed token, a failed call) makes the whole fetch `null`.
 */
module Pagination {
  import opened Wrappers
  import opened PhpArrays
  import opened WordPress
  import opened Lockers
  import opened Auth
  import opened Transport

  /**
   * The Sameday servers: the authentication endpoint answers the `n`-th
   * authentication request with `auth(n)`; the locker endpoint answers page
   * `p` with `pages[p - 1]`, and every page after the last with `EmptyPage`.
   */
  datatype Server = Server(auth: nat -> AuthReply, pages: seq<HttpReply>)

  /** A page past the catalogue: status 200 and an object without `data`. */
  const EmptyPage: HttpReply := HttpReply(None, 200, "{}", Decoded(Payload(None, [], None)))

  function PageReply(server: Server, page: int): (r: HttpReply)
    ensures page > |server.pages| ==> r == EmptyPage
  {
    if 1 <= page <= |server.pages| then server.pages[page - 1] else EmptyPage
  }

  /** Everything a fetch depends on besides the token state. */
  datatype Env = Env(server: Server, settings: Settings, wp: Wp, tz: string, now: int, stamp: string)

  const LockersPath: string := "api/client/lockers"

  /** The query of one page: `countryCode` then `page`. */
  function PageQuery(countryCode: string, page: int): Assoc<string, QueryValue> {
    [("countryCode", Str(countryCode)), ("page", Int(page))]
  }

  function PageUrl(env: Env, page: int): string {
    RequestUrl(LockersPath, PageQuery(CountryCode(env.settings), page), env.wp)
  }

  /** One call of the loop: the page asked for, its URL, the request sent (if any) and the outcome. */
  datatype PageCall = PageCall(page: int, url: string, request: Option<Request>, outcome: CallResult)

  /** A whole fetch: the token state after it, its calls in order, and its result (`null` is `None`). */
  datatype Run = Run(auth: AuthState, calls: seq<PageCall>, result: Option<seq<Locker>>)

  /** The loop goes on after this call: it had data, and the next page is within `pages ?? 1`. */
  predicate Continued(c: PageCall) {
    c.outcome.Parsed? && c.outcome.payload.data != [] && c.page + 1 <= c.outcome.payload.pages.GetOr(1)
  }

  /** The rows a call contributes: the normalised `data` of a parsed reply. */
  function RowsOf(c: PageCall, env: Env): seq<Locker> {
    if c.outcome.Parsed? then NormalisePage(c.outcome.payload.data, env.stamp, env.wp) else []
  }

  /** The rows of all calls, in call order. */
  function Collected(calls: seq<PageCall>, env: Env): seq<Locker>
    decreases |calls|
  {
    if calls == [] then [] else Collected(calls[..|calls| - 1], env) + RowsOf(calls[|calls| - 1], env)
  }

  /**
   * The call got the server's answer for its page: a request that was sent
   * has the classified reply to that page as its outcome, and a call that
   * sent no request (the token could not be had) failed.
   */
  predicate Answered(c: PageCall, env: Env) {
    if c.request.Some? then c.outcome == Classify(PageReply(env.server, c.page), true) else c.outcome.Failed?
  }

  /** The `i`-th call asks for page `i + 1`, at that page's URL, and got its answer. */
  ghost predicate PagesInOrder(calls: seq<PageCall>, env: Env) {
    forall i :: 0 <= i < |calls| ==> calls[i].page == i + 1 && calls[i].url == PageUrl(env, i + 1) && Answered(calls[i], env)
  }

  /** The call came back as an object with a non-empty `data` array. */
  predicate HasRows(c: PageCall) {
    c.outcome.Parsed? && c.outcome.payload.data != []
  }

  /**
   * One turn of the loop: the call for page `page` and the token state after
   * it. Only a page the server holds can come back with data.
   */
  function PageStep(env: Env, auth: AuthState, page: int): (r: (AuthState, PageCall))
    ensures r.1.page == page && r.1.url == PageUrl(env, page)
    ensures Answered(r.1, env)
    ensures HasRows(r.1) ==> page <= |env.server.pages|
  {
    var call := Call(auth, env.server.auth, env.settings, env.wp, env.tz, env.now,
                     LockersPath, PageQuery(CountryCode(env.settings), page), true, PageReply(env.server, page));
    (call.0, PageCall(page, PageUrl(env, page), call.1, call.2))
  }

  /** A way of making the call for a page from a token state. */
  type Stepper = (AuthState, int) -> (AuthState, PageCall)

  function PageStepper(env: Env): Stepper {
    (auth, page) => PageStep(env, auth, page)
  }

  /** Only pages up to `last` can come back with data. */
  ghost predicate DataWithin(step: Stepper, last: int) {
    forall auth, page :: HasRows(step(auth, page).1) ==> page <= last
  }

  /** Each call is for the page asked for, at that page's URL, and gets that page's answer. */
  ghost predicate StepsAt(step: Stepper, env: Env) {
    forall auth, page ::
      step(auth, page).1.page == page && step(auth, page).1.url == PageUrl(env, page) && Answered(step(auth, page).1, env)
  }

  /** Only the pages the server holds come back with data. */
  lemma PageStepperWithin(env: Env)
    ensures DataWithin(PageStepper(env), |env.server.pages|)
  {
  }

  /** Every call of the fetch is for its page, at its URL, with that page's answer. */
  lemma PageStepperAt(env: Env)
    ensures StepsAt(PageStepper(env), env)
  {
  }

  /** A call made as `PageStep` makes it is that page's step. */
  lemma PageStepIsCall(env: Env, before: AuthState, page: int, after: AuthState, request: Option<Request>, outcome: CallResult)
    requires (after, request, outcome) == Call(before, env.server.auth, env.settings, env.wp, env.tz, env.now,
                     LockersPath, PageQuery(CountryCode(env.settings), page), true, PageReply(env.server, page))
    ensures PageStepper(env)(before, page) == (after, PageCall(page, PageUrl(env, page), request, outcome))
  {
  }

  /**
   * The loop from page `page` on, with `acc` the rows gathered and `calls`
   * the calls made so far: a failure ends it with `null`; a reply that is
   * not an object with data ends it with what was gathered; otherwise the
   * page's rows are appended and the loop goes on while the next page is
   * within `pages ?? 1`.
   */
  function Loop(step: Stepper, last: int, auth: AuthState, page: int, acc: seq<Locker>, calls: seq<PageCall>, env: Env): Run
    requires 1 <= page && DataWithin(step, last)
    decreases last + 1 - page
  {
    var st := step(auth, page);
    var auth', c := st.0, st.1;
    var calls' := calls + [c];
    if c.outcome.Failed? then Run(auth', calls', None)
    else if !HasRows(c) then Run(auth', calls', Some(acc))
    else
      var acc' := acc + RowsOf(c, env);
      if Continued(c) then Loop(step, last, auth', page + 1, acc', calls', env)
      else Run(auth', calls', Some(acc'))
  }

  /** `fetch_sameday_lockers` from a given token state. */
  function Fetch(env: Env, auth: AuthState): Run {
    PageStepperWithin(env);
    Loop(PageStepper(env), |env.server.pages|, auth, 1, [], [], env)
  }

  /** The calls a loop from page `page` on appends ask for the following pages in order. */
  lemma {:induction false} LoopPages(step: Stepper, last: int, auth: AuthState, page: int, acc: seq<Locker>, calls: seq<PageCall>, env: Env)
    requires 1 <= page && DataWithin(step, last) && StepsAt(step, env)
    requires |calls| == page - 1 && PagesInOrder(calls, env)
    ensures var run := Loop(step, last, auth, page, acc, calls, env);
      |calls| < |run.calls| && PagesInOrder(run.calls, env)
    decreases last + 1 - page
  {
    var st := step(auth, page);
    var auth', c := st.0, st.1;
    var calls' := calls + [c];
    assert PagesInOrder(calls', env);
    if !c.outcome.Failed? && HasRows(c) && Continued(c) {
      LoopPages(step, last, auth', page + 1, acc + RowsOf(c, env), calls', env);
    }
  }

  /** A loop from page `page` on goes on exactly while its calls say to go on. */
  lemma {:induction false} LoopStops(step: Stepper, last: int, auth: AuthState, page: int, acc: seq<Locker>, calls: seq<PageCall>, env: Env)
    requires 1 <= page && DataWithin(step, last)
    requires forall i :: 0 <= i < |calls| ==> Continued(calls[i])
    ensures var run := Loop(step, last, auth, page, acc, calls, env);
      && |calls| < |run.calls|
      && (forall i :: 0 <= i < |run.calls| - 1 ==> Continued(run.calls[i]))
      && !Continued(run.calls[|run.calls| - 1])
    decreases last + 1 - page
  {
    var st := step(auth, page);
    var auth', c := st.0, st.1;
    if !c.outcome.Failed? && HasRows(c) && Continued(c) {
      LoopStops(step, last, auth', page + 1, acc + RowsOf(c, env), calls + [c], env);
    }
  }

  /** A loop from page `page` on after calls that did not fail is `null` exactly when one of its calls fails. */
  lemma {:induction false} LoopNeverPartial(step: Stepper, last: int, auth: AuthState, page: int, acc: seq<Locker>, calls: seq<PageCall>, env: Env)
    requires 1 <= page && DataWithin(step, last)
    requires forall i :: 0 <= i < |calls| ==> !calls[i].outcome.Failed?
    ensures var run := Loop(step, last, auth, page, acc, calls, env);
      run.result.None? <==> exists i :: 0 <= i < |run.calls| && run.calls[i].outcome.Failed?
    decreases last + 1 - page
  {
    var st := step(auth, page);
    var auth', c := st.0, st.1;
    var calls' := calls + [c];
    if c.outcome.Failed? {
      assert calls'[|calls|].outcome.Failed?;
    } else if HasRows(c) && Continued(c) {
      LoopNeverPartial(step, last, auth', page + 1, acc + RowsOf(c, env), calls', env);
    } else {
      assert forall i :: 0 <= i < |calls'| ==> !calls'[i].outcome.Failed?;
    }
  }

  /** A successful loop from page `page` on extends the rows gathered so far with those of its calls. */
  lemma {:induction false} LoopRows(step: Stepper, last: int, auth: AuthState, page: int, acc: seq<Locker>, calls: seq<PageCall>, env: Env)
    requires 1 <= page && DataWithin(step, last)
    requires acc == Collected(calls, env)
    ensures var run := Loop(step, last, auth, page, acc, calls, env);
      run.result.Some? ==> run.result.value == Collected(run.calls, env)
    decreases last + 1 - page
  {
    var st := step(auth, page);
    var auth', c := st.0, st.1;
    var calls' := calls + [c];
    assert calls'[..|calls'| - 1] == calls;
    if HasRows(c) && Continued(c) {
      var acc' := acc + RowsOf(c, env);
      assert Collected(calls', env) == acc';
      LoopRows(step, last, auth', page + 1, acc', calls', env);
    } else if HasRows(c) {
      assert Collected(calls', env) == acc + RowsOf(c, env);
    }
  }

  /**
   * The fetch asks for pages 1, 2, 3, … in that order, each once, each at
   * its own URL; a call that sent its request has the classified server
   * reply to that page as its outcome, and one that sent none failed.
   */
  lemma FetchRequestsPagesInOrder(env: Env, auth: AuthState)
    ensures var run := Fetch(env, auth);
      && 1 <= |run.calls|
      && forall i :: 0 <= i < |run.calls| ==>
           && run.calls[i].page == i + 1 && run.calls[i].url == PageUrl(env, i + 1)
           && (run.calls[i].request.Some? ==> run.calls[i].outcome == Classify(PageReply(env.server, i + 1), true))
           && (run.calls[i].request.None? ==> run.calls[i].outcome.Failed?)
  {
    var run := Fetch(env, auth);
    assert 1 <= |run.calls| && PagesInOrder(run.calls, env) by {
      PageStepperWithin(env);
      PageStepperAt(env);
      LoopPages(PageStepper(env), |env.server.pages|, auth, 1, [], [], env);
    }
    forall i | 0 <= i < |run.calls|
      ensures (run.calls[i].request.Some? ==> run.calls[i].outcome == Classify(PageReply(env.server, i + 1), true))
      ensures run.calls[i].request.None? ==> run.calls[i].outcome.Failed?
    {
      assert Answered(run.calls[i], env) && run.calls[i].page == i + 1;
    }
  }

  /**
   * The fetch goes on exactly while a page had data and the next page
   * number is within the reply's `pages` (1 when absent).
   */
  lemma FetchStopsAtFirstEmptyOrLastPage(env: Env, auth: AuthState)
    ensures var run := Fetch(env, auth);
      && 1 <= |run.calls|
      && (forall i :: 0 <= i < |run.calls| - 1 ==> Continued(run.calls[i]))
      && !Continued(run.calls[|run.calls| - 1])
  {
    PageStepperWithin(env);
    LoopStops(PageStepper(env), |env.server.pages|, auth, 1, [], [], env);
  }

  /** A failed call anywhere makes the result `null`; there is never a partial list. */
  lemma FetchNeverPartial(env: Env, auth: AuthState)
    ensures var run := Fetch(env, auth);
      run.result.None? <==> exists i :: 0 <= i < |run.calls| && run.calls[i].outcome.Failed?
  {
    PageStepperWithin(env);
    LoopNeverPartial(PageStepper(env), |env.server.pages|, auth, 1, [], [], env);
  }

  /**
   * A successful fetch is the normalised records of every page, in page
   * order, and every page it read is the server's reply to that page.
   */
  lemma FetchConcatenatesPages(env: Env, auth: AuthState)
    ensures var run := Fetch(env, auth);
      run.result.Some? ==> run.result.value == Collected(run.calls, env)
    ensures var run := Fetch(env, auth);
      run.result.Some? ==> forall i :: 0 <= i < |run.calls| ==> run.calls[i].outcome == Classify(PageReply(env.server, i + 1), true)
  {
    PageStepperWithin(env);
    LoopRows(PageStepper(env), |env.server.pages|, auth, 1, [], [], env);
    FetchRequestsPagesInOrder(env, auth);
    FetchNeverPartial(env, auth);
  }
}
