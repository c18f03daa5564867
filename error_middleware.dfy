/** `rtkQueryErrorLogger`: a Redux middleware that watches for rejected
    requests whose payload carries HTTP status 401 and, before passing the
    action on, logs the user out, clears the credential store and sends the
    browser to the login page. */
module ErrorMiddleware {
  import opened Json
  import opened Platform
  import AuthSlice

  const LoginHref := "/login"

  /** `(action.payload as { status?: number })?.status === 401` for a rejected
      action: only the number 401 matches, not the string "401". */
  predicate SessionExpired(a: Action)
  {
    IsRejectedWithValue(a) && a.payload.Some? && a.payload.value != JNull
    && Get(a.payload.value, "status") == Some(JNumber(401))
  }

  /** The side effects of handling `a`, in order. */
  function Effects(a: Action): (es: seq<Event>)
    // the action is forwarded exactly once, and last
    ensures es != [] && es[|es| - 1] == Forwarded(a)
    ensures forall i :: 0 <= i < |es| - 1 ==> !es[i].Forwarded?
    // a 401 rejection: logout, clear, redirect, all before forwarding
    ensures SessionExpired(a) ==>
      es[..|es| - 1] == [Dispatched(InitiateLogout), Dispatched(ClearCredentialsAction), Redirected(LoginHref)]
    // anything else: no dispatch and no redirect
    ensures !SessionExpired(a) ==> es == [Forwarded(a)]
  {
    if SessionExpired(a) then
      [Dispatched(InitiateLogout), Dispatched(ClearCredentialsAction), Redirected(LoginHref), Forwarded(a)]
    else
      [Forwarded(a)]
  }

  /** The middleware applied to one action; `next` stands for the rest of the
      middleware chain and the reducers, and its answer is passed back. */
  method Handle(a: Action, next: Action -> Json, browser: Browser, store: AuthSlice.Store) returns (r: Json)
    modifies browser, store
    ensures r == next(a)
    ensures browser.trace == old(browser.trace) + Effects(a)
    ensures browser.responses == old(browser.responses)
    ensures SessionExpired(a) ==>
      store.userInfo == JNull && store.storage == old(store.storage) - {AuthSlice.StorageKey}
    ensures !SessionExpired(a) ==>
      store.userInfo == old(store.userInfo) && store.storage == old(store.storage)
  {
    if IsRejectedWithValue(a) {
      var status: Option<Json> := if a.payload.Some? && a.payload.value != JNull then Get(a.payload.value, "status") else None;
      if status == Some(JNumber(401)) {
        browser.Emit(Dispatched(InitiateLogout));
        store.ClearCredentials();
        browser.Emit(Dispatched(ClearCredentialsAction));
        browser.Emit(Redirected(LoginHref));
      }
    }
    browser.Emit(Forwarded(a));
    r := next(a);
  }
}
