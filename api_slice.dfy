/** The re-authenticating base query: every API request goes through it. On a
    401 it asks the refresh endpoint once; when the refresh brings data it
    retries the original request once, otherwise it logs the user out, clears
    the credential store and sends the browser to the login page. */
module ApiSlice {
  import opened Json
  import opened Platform
  import AuthSlice

  const RefreshArgs := FetchArgs("/api/v1/auth/refresh", "POST", Include, None)
  const LogoutArgs := FetchArgs("/api/users/logout", "POST", Include, None)
  const LoginHref := "/login"

  /** How the call ends: with a result, or with a rejected promise (the
      logout `fetch` failed on the network and its error propagates). */
  datatype Completion = Returned(result: QueryResult) | Rejects

  /** Everything one call does: its side effects in order, how many scripted
      answers it used, how it ends, and whether it cleared the store. */
  datatype Outcome = Outcome(events: seq<Event>, consumed: nat, completion: Completion, cleared: bool)

  /** `refreshResult.data` is truthy. */
  predicate RefreshSucceeded(r: QueryResult)
  {
    r.QueryData? && Truthy(r.data)
  }

  /** `fetch` rejects only when no answer arrives. */
  predicate FetchRejects(r: QueryResult)
  {
    r == QueryError(FetchFailed)
  }

  /** How many times `req` was sent. */
  function CountSent(events: seq<Event>, req: Request): nat
  {
    multiset(events)[Sent(req)]
  }

  /** The behaviour of one call, given what the network answers. */
  function Reauth(args: FetchArgs, answers: seq<QueryResult>): (o: Outcome)
    requires |answers| >= 3
    // the original request always goes out first
    ensures o.events != [] && o.events[0] == Sent(BaseQuery(args))
    ensures 1 <= o.consumed <= 3
    // not a 401 (success or any other error): one call, result returned as is
    ensures !IsUnauthorized(answers[0]) ==>
      o.events == [Sent(BaseQuery(args))] && o.consumed == 1
      && o.completion == Returned(answers[0]) && !o.cleared
    // a 401 triggers exactly one refresh, a credentialed POST
    ensures IsUnauthorized(answers[0]) ==> |o.events| >= 3 && o.events[1] == Sent(BaseQuery(RefreshArgs))
    // refresh with data: original, refresh, original; the retry's result is final
    ensures IsUnauthorized(answers[0]) && RefreshSucceeded(answers[1]) ==>
      o.events == [Sent(BaseQuery(args)), Sent(BaseQuery(RefreshArgs)), Sent(BaseQuery(args))]
      && o.consumed == 3 && o.completion == Returned(answers[2]) && !o.cleared
    // refresh without data: logout POST, then clear and redirect; the original 401 is returned
    ensures IsUnauthorized(answers[0]) && !RefreshSucceeded(answers[1]) ==>
      o.events[2] == Sent(RawFetch(LogoutArgs)) && o.consumed == 3
      && (o.cleared <==> !FetchRejects(answers[2]))
      && (o.cleared ==> o.events[3..] == [Dispatched(ClearCredentialsAction), Redirected(LoginHref)]
                        && o.completion == Returned(answers[0]))
      && (!o.cleared ==> |o.events| == 3 && o.completion == Rejects)
    // the store is only ever cleared, and only when the refresh failed
    ensures o.cleared ==> IsUnauthorized(answers[0]) && !RefreshSucceeded(answers[1])
  {
    var first := Sent(BaseQuery(args));
    var refresh := Sent(BaseQuery(RefreshArgs));
    var logout := Sent(RawFetch(LogoutArgs));
    if !IsUnauthorized(answers[0]) then
      Outcome([first], 1, Returned(answers[0]), false)
    else if RefreshSucceeded(answers[1]) then
      Outcome([first, refresh, first], 3, Returned(answers[2]), false)
    else if FetchRejects(answers[2]) then
      Outcome([first, refresh, logout], 3, Rejects, false)
    else
      Outcome([first, refresh, logout, Dispatched(ClearCredentialsAction), Redirected(LoginHref)],
              3, Returned(answers[0]), true)
  }

  /** At most one refresh, one logout and one retry per call: there is no
      retry loop. (A request that is itself the refresh request cannot be
      told apart from its refresh, hence the exception.) */
  lemma ReauthBounded(args: FetchArgs, answers: seq<QueryResult>)
    requires |answers| >= 3
    ensures var o := Reauth(args, answers);
      && CountSent(o.events, RawFetch(LogoutArgs)) <= 1
      && (args != RefreshArgs ==>
            CountSent(o.events, BaseQuery(RefreshArgs)) <= 1 && CountSent(o.events, BaseQuery(args)) <= 2)
  {
    var first, refresh, logout := BaseQuery(args), BaseQuery(RefreshArgs), RawFetch(LogoutArgs);
    var e := Reauth(args, answers).events;
    if !IsUnauthorized(answers[0]) {
      assert multiset(e) == multiset{Sent(first)};
    } else if RefreshSucceeded(answers[1]) {
      assert multiset(e) == multiset{Sent(first), Sent(refresh), Sent(first)};
    } else if FetchRejects(answers[2]) {
      assert multiset(e) == multiset{Sent(first), Sent(refresh), Sent(logout)};
    } else {
      assert multiset(e) == multiset{Sent(first), Sent(refresh), Sent(logout),
                                     Dispatched(ClearCredentialsAction), Redirected(LoginHref)};
    }
  }

  /** `baseQueryWithReauth(args)`: the state machine itself, against the
      scripted network, the credential store and the browser. */
  method BaseQueryWithReauth(args: FetchArgs, browser: Browser, store: AuthSlice.Store) returns (c: Completion)
    requires |browser.responses| >= 3
    modifies browser, store
    ensures var o := Reauth(args, old(browser.responses));
      && c == o.completion
      && browser.trace == old(browser.trace) + o.events
      && browser.responses == old(browser.responses)[o.consumed..]
      && (o.cleared ==> store.userInfo == JNull && store.storage == old(store.storage) - {AuthSlice.StorageKey})
      && (!o.cleared ==> store.userInfo == old(store.userInfo) && store.storage == old(store.storage))
  {
    ghost var answers := browser.responses;
    var result := browser.Send(BaseQuery(args));
    if IsUnauthorized(result) {
      var refreshResult := browser.Send(BaseQuery(RefreshArgs));
      if RefreshSucceeded(refreshResult) {
        result := browser.Send(BaseQuery(args));
      } else {
        var logoutResult := browser.Send(RawFetch(LogoutArgs));
        if FetchRejects(logoutResult) {
          return Rejects;
        }
        store.ClearCredentials();
        browser.Emit(Dispatched(ClearCredentialsAction));
        browser.Emit(Redirected(LoginHref));
      }
    }
    assert answers[1..][1..] == answers[2..];
    return Returned(result);
  }
}
