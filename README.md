# gameplays-web, modelled in Dafny

A model of the client-side core of gameplays-web, a React single-page app for
keeping shelves of video games. The modelled parts are:

- **Session handling.** The `auth` credential slice is mirrored into `localStorage`. The re-authenticating base query refreshes the session once on a 401. On failure it logs out, clears the credentials and redirects to `/login`. The Redux middleware that reacts to 401 rejections is modelled too.
- **Login page.** The e-mail recogniser decides whether the typed login is sent as `email` or as `username`. It is proved to accept exactly the regular language of the page's regular expression. Also modelled: the post-login redirect rule, the error-toast logic (two nested loops over validation messages) and the form's touched/invalid state.
- **Search.** The header combobox builds menu options from search results and navigates on Enter or on selection. The search page builds its query parameters and falls back to `{}`. The paginator computes its window of page buttons, its ellipses and its page changes.
- **Shelves.** ActiveShelf filters plays by status into table rows. ActiveButton computes the shelf button's caption and click arguments. On the result page, adding a play sets the active shelf button.
- **Page tracking.** The page provider keeps two page flags and a two-slot path history.

Each source file is one module. Shared modules cover the rest:

- `Json`: JavaScript values, truthiness and property access that may throw.
- `Text`: decimal conversion, `parseInt`, `trim`, `encodeURIComponent`.
- `Platform`: the outside world. Every side effect (request, dispatch, navigation, redirect, toast) is appended to one ordered trace in a `Browser` object. The network answers from a scripted list of responses.
- `Types`: the `Status` enum and the game/play records.

Stateful code (the credential store, the page provider, the combobox, the login form, the result page) is modelled as classes whose methods are proved against pure functions. Those functions carry the properties.

Behaviour of the code worth noting:

- A successful refresh does not store the refreshed session. The code only retries the original request (src/slices/apiSlice.ts:40-42).
- There is no "bad credentials" short-circuit. Every failed refresh sends the logout request. Unless that plain `fetch` itself rejects (and the whole call with it), the store is then cleared and the user redirected (src/slices/apiSlice.ts:43-54).
- The logout request of the base query goes to `/api/users/logout` with plain `fetch` (src/slices/apiSlice.ts:45-49). The login endpoint lives under `/api/v1/auth`.
- Removing a play by toggling its button off is commented out (src/pages/ResultPage.tsx:6, 38). The model only adds plays.

## Model

| member | source | states |
|---|---|---|
| Text.IntToStringShape | src/components/Paginator.tsx:43 | `n.toString()` is a non-empty run of digits, after a minus sign when negative |
| Text.ParseIntOfIntToString | src/components/Paginator.tsx:13 | parsing the decimal text of any integer with `parseInt(…, 10)` gives the integer back |
| Text.TrimEmpty | src/components/SearchBar.tsx:81 | `s.trim() === ''` exactly when every character of `s` is ECMAScript white space or a line terminator |
| Text.EncodeURIComponent | src/components/SearchBar.tsx:92 | the encoding holds only unreserved characters and `%` escapes, leaves strings of unreserved characters unchanged, never shortens, and is empty only for the empty string |
| Types.StatusValueInjective | src/types/PlayTypes.ts:1-6 | the four statuses have four different numbers |
| Types.GameUrl | src/components/ActiveShelf.tsx:55 | a game link always starts with `/game/` |
| AuthSlice.InitialUserInfo | src/slices/authSlice.ts:3-7 | start-up is signed out without a stored entry; otherwise the state is the value whose JSON text is stored |
| AuthSlice.ReloadAfterSet | src/slices/authSlice.ts:13-16 | after `setCredentials(p)` the next start-up begins with `p` |
| AuthSlice.ReloadAfterClear | src/slices/authSlice.ts:17-20 | after `clearCredentials()` the next start-up is signed out |
| AuthSlice.Store.constructor | src/slices/authSlice.ts:3-7 | the initial state is the one read from storage, and the store starts in sync with storage |
| AuthSlice.Store.SetCredentials | src/slices/authSlice.ts:13-16 | the state becomes the payload, storage gains its JSON text under "userInfo", nothing else in storage changes |
| AuthSlice.Store.ClearCredentials | src/slices/authSlice.ts:17-20 | the state becomes `null` and only the "userInfo" entry is removed |
| AuthSlice.ClearTwice | src/slices/authSlice.ts:17-20 | clearing is idempotent |
| AuthSlice.SetTwice | src/slices/authSlice.ts:13-16 | of two `setCredentials` the last one wins, in the state and in storage |
| AuthSlice.Reload | src/slices/authSlice.ts:3-7 | while the state agrees with storage, a reload starts in exactly the current state |
| AuthSlice.SetClearReload | src/slices/authSlice.ts:3-20 | a reload after setting starts with the payload, and a reload after clearing starts signed out |
| ApiSlice.Reauth | src/slices/apiSlice.ts:26-57 | one call for a non-401 result. On a 401, exactly one credentialed refresh POST. If the refresh has data, one retry whose result is returned. If not, a logout POST, then clear and redirect to `/login` returning the original 401. The call rejects if the logout fetch fails. The store is cleared only after a failed refresh |
| ApiSlice.ReauthBounded | src/slices/apiSlice.ts:26-57 | at most one logout per call. For any request other than the refresh itself: at most one refresh and at most two sends of the request (no retry loop) |
| ApiSlice.BaseQueryWithReauth | src/slices/apiSlice.ts:26-57 | the method's result, trace, consumed responses and store all equal those of `Reauth` |
| ErrorMiddleware.Effects | src/middleware/errorMiddleware.ts:5-18 | the action is forwarded exactly once, and last. A rejection whose payload status is the number 401 is preceded by logout, clear-credentials and redirect to `/login`, in that order. Any other action has no other effect |
| ErrorMiddleware.Handle | src/middleware/errorMiddleware.ts:5-18 | the method returns `next(action)`, appends exactly `Effects(action)`, and clears the store iff the session expired |
| Paginator.CurrentPage | src/components/Paginator.tsx:13 | a missing or empty "page" parameter means page 1 |
| Paginator.TotalPages | src/components/Paginator.tsx:14 | the page count is the ceiling of total / limit: enough pages for every result, and no spare page |
| Paginator.AdjustAdjacentPages | src/components/Paginator.tsx:20-37 | the window always spans `2 * adjacent` neighbours. It starts at page 1 near the start, ends at the last page near the end, and is centred otherwise. Both sides are non-negative for an existing page |
| Paginator.ChangePage | src/components/Paginator.tsx:41-45 | only "page" is set, every other parameter is kept, and the page read back is the new page |
| Paginator.ShiftPagination | src/components/Paginator.tsx:47-56 | left jumps four pages back but not below 1. Right jumps four pages forward but not past the last page. Any other direction goes to page 1 |
| Paginator.PageNumbers | src/components/Paginator.tsx:71-79 | the loop yields, in ascending order, one button for every existing page of the window and no other, active exactly on the current page |
| Paginator.ActiveButton | src/components/Paginator.tsx:71-97 | for an existing current page, exactly one button is active and it shows that page. The first button is active iff Prev is disabled; the last iff Next is disabled |
| Paginator.Pages | src/components/Paginator.tsx:60-89 | left ellipsis iff current > visible − adjacent; right ellipsis iff current < total − adjacent; between them the window's buttons, at most five |
| SearchBar.SearchUrl | src/components/SearchBar.tsx:92 | the search URL starts with `/search?q=` and its query value holds no character that could end it early |
| SearchBar.BuildOptions | src/components/SearchBar.tsx:118-135 | one divider option per result, in order, carrying the result, its name as label and its game link, then exactly one non-divider "Show more results..." option linking to the full search |
| SearchBar.ChangeEffects | src/components/SearchBar.tsx:51-70 | selecting an option with a URL navigates there; anything else (nothing, a list, no URL) shows "Error on navigate." instead |
| SearchBar.KeyDownEffects | src/components/SearchBar.tsx:87-95 | Enter always prevents the default and closes the menu, and navigates to the encoded search iff the text is not blank; other keys do nothing |
| SearchBar.FetchOptions | src/components/SearchBar.tsx:103-144 | Blank text means no request and an empty menu. Otherwise one search goes out for the encoded text. A failure or falsy answer gives an error toast and an empty menu. Any other answer leaves exactly that one search in the trace, with no toast. Results store and deliver the same options. An answer without `results` touches neither the options nor the callback |
| SearchBar.Combobox.constructor | src/components/SearchBar.tsx:29-35 | empty text, no option, no options |
| SearchBar.Combobox.MountEffect | src/components/SearchBar.tsx:45-48 | the effect clears the selected option and nothing else. It is keyed on the global `window.location`, which keeps its identity across client-side navigation, so it runs only at mount |
| SearchBar.Combobox.HandleChange | src/components/SearchBar.tsx:51-70 | appends exactly `ChangeEffects` |
| SearchBar.Combobox.HandleInputChange | src/components/SearchBar.tsx:73-84 | the text follows every input action except blur and menu-close. The options are emptied when the text held before the call is blank |
| SearchBar.Combobox.HandleKeyDown | src/components/SearchBar.tsx:87-95 | appends exactly `KeyDownEffects` for the current text |
| SearchBar.Combobox.FetchGameData | src/components/SearchBar.tsx:103-144 | the callback's value, the trace and the stored options are those of `FetchOptions` |
| LoginPage.IsEmailSound | src/pages/LoginPage.tsx:56-57 | every login the recogniser accepts matches the e-mail pattern |
| LoginPage.IsEmailComplete | src/pages/LoginPage.tsx:56-57 | every login matching the e-mail pattern, at any split into local part, domain and top-level domain, is accepted |
| LoginPage.IsEmailCorrect | src/pages/LoginPage.tsx:56-57 | the recogniser accepts exactly the logins the pattern matches |
| LoginPage.MakePayload | src/pages/LoginPage.tsx:54-66 | the password is carried unchanged, and the login is sent as `email` iff it matches the pattern, else as `username` |
| LoginPage.PostLoginTarget | src/pages/LoginPage.tsx:31-35 | the target is the previous path, unless it is empty, `/` or `/login`, in which case it is `/user/games`. It is never one of those three |
| LoginPage.RedirectAway | src/pages/LoginPage.tsx:29-37 | The redirect moves the user at most once, and exactly when signed in. It never goes to nowhere, `/` or `/login`. Once a sign-in has stored the server's object as the credentials, it goes to the post-login target |
| LoginPage.ReplaceWithoutNames | src/pages/LoginPage.tsx:87 | a message that mentions no field name is shown unchanged |
| LoginPage.ReplaceName | src/pages/LoginPage.tsx:87 | a field name at the head of a message is replaced by the current field, and the rest is processed in turn |
| LoginPage.FormatMessages | src/pages/LoginPage.tsx:85-90 | One toast per message, in order, with field names replaced. It throws exactly when some message is not a string. The toasts shown before the throw are those of the messages before the first non-string one, and without a throw every message gets its toast |
| LoginPage.FieldToasts | src/pages/LoginPage.tsx:80-92 | without a throw, exactly as many toasts as there are messages; never more |
| LoginPage.FieldToastsThrew | src/pages/LoginPage.tsx:80-92 | the field loop throws exactly when some field in the list has a message that is not a string |
| LoginPage.FieldToastsContent | src/pages/LoginPage.tsx:80-92 | Without a throw, the toasts come field by field in the order given (Username, Email, Password for the page). The block of field `k` is exactly that field's messages, each with every field name replaced by `fields[k]` |
| LoginPage.NoMessagesNoToasts | src/pages/LoginPage.tsx:80-92 | fields without messages show no toast and do not throw |
| LoginPage.ShowMessages | src/pages/LoginPage.tsx:85-90 | the inner loop shows exactly `FormatMessages` |
| LoginPage.ShowFields | src/pages/LoginPage.tsx:80-92 | the outer loop over any list of fields shows exactly `FieldToasts` over that list |
| LoginPage.ShowFieldErrors | src/pages/LoginPage.tsx:80-92 | the outer loop shows exactly `FieldToasts` over Username, Email, Password |
| LoginPage.LoginErrorToastsCases | src/pages/LoginPage.tsx:75-97 | Reading `data` off a null error, or `data.message` off a missing or null `data`, throws with no toast. A truthy `data.message` gives exactly that one toast. Otherwise, with no field message at all, the one toast is "An error occurred.". With field messages, the toasts (and any throw) are exactly those of `FieldToasts` over Username, Email, Password |
| LoginPage.CatchToasts | src/pages/LoginPage.tsx:75-97 | the catch block shows exactly `LoginErrorToasts` |
| LoginPage.LoginForm.constructor | src/pages/LoginPage.tsx:39-42 | empty fields, untouched |
| LoginPage.LoginForm.HandleCredInput | src/pages/LoginPage.tsx:44-47 | the login field takes the value and is touched; it is invalid iff the value is empty; the password field is untouched |
| LoginPage.LoginForm.HandlePwdInput | src/pages/LoginPage.tsx:49-52 | the password field takes the value and is touched; it is invalid iff the value is empty; the login field is untouched |
| LoginPage.LoginForm.LoginHandler | src/pages/LoginPage.tsx:68-99 | The default is prevented and the payload sent to the login endpoint. Success stores the response as the credentials and navigates to the previous path. Failure leaves the store alone and shows the toasts of `LoginErrorToasts` |
| LoginPage.EmitToasts | src/pages/LoginPage.tsx:77-95 | one error toast per message, in order |
| LoginPage.Submit | src/pages/LoginPage.tsx:68-99 | For a given payload: the trace grows by exactly `LoginEvents`. The handler throws only when the catch block does. The store is updated only on success |
| LoginPage.Conclude | src/pages/LoginPage.tsx:71-97 | once the request has settled, the trace grows by exactly `OutcomeEvents`: the store update and navigation on success, the catch block's toasts on failure |
| LoginPage.StoreCredentials | src/pages/LoginPage.tsx:72-73 | the response becomes the stored credentials (and their persisted copy). The trace records the dispatch, then the navigation to the previous path |
| LoginPage.ShowLoginError | src/pages/LoginPage.tsx:75-97 | the catch block shows exactly the toasts of `LoginErrorToasts`, in order, and throws exactly when it does |
| LoginPage.LoginEventsOrder | src/pages/LoginPage.tsx:68-99 | A submission first prevents the default and sends the payload. Then it either stores the credentials and navigates back, or shows one error toast per message of `LoginErrorToasts`, in order |
| PageProvider.FlagsFor | src/providers/PageProvider.tsx:16-25 | the login flag is set iff the path is `/login`, the register flag iff it is `/register`; never both |
| PageProvider.Provider.constructor | src/providers/PageProvider.tsx:10-12 | both flags false, both paths empty |
| PageProvider.Provider.Render | src/providers/PageProvider.tsx:15-30 | A render with an unchanged path changes nothing. A new path sets the flags for it and shifts the history (previous := current, current := path). The invariant keeps the flags exclusive, the current path the last visited and the previous path the one visited before it |
| PageProvider.Provider.Context | src/providers/PageProvider.tsx:32-37 | the context exposes the two flags and the two paths unchanged |
| ActiveShelf.AnyOnShelf | src/components/ActiveShelf.tsx:25 | `some` is true iff some play has the shelf's status |
| ActiveShelf.HasStatus | src/components/ActiveShelf.tsx:23-27 | true iff the data is an array containing a play with the shelf's status |
| ActiveShelf.ShelfPlays | src/components/ActiveShelf.tsx:49-52 | the kept plays are exactly the plays with the shelf's status |
| ActiveShelf.ShelfPlaysAppend | src/components/ActiveShelf.tsx:49-52 | filtering keeps the original order: it distributes over concatenation |
| ActiveShelf.ShelfPlaysNonEmpty | src/components/ActiveShelf.tsx:23-52 | the shelf has a play iff it has at least one row |
| ActiveShelf.PresentNames | src/components/ActiveShelf.tsx:58-64 | `null` developers are skipped; every name shown belongs to a present developer and every present developer's name is shown |
| ActiveShelf.Rows | src/components/ActiveShelf.tsx:49-75 | every row's title links to a `/game/` page |
| ActiveShelf.RowsAreShelfPlays | src/components/ActiveShelf.tsx:49-75 | the rows are exactly the shelf's plays, in their original order, each linking to `/game/{api_game_id}` |
| ActiveShelf.View | src/components/ActiveShelf.tsx:35-81 | The table is shown iff `hasStatus`, and it has the shelf's rows and at least one of them. Otherwise the loader shows iff loading, else "Empty shelf." |
| ActiveShelf.ShelfEffect.Render | src/components/ActiveShelf.tsx:29-31 | the plays are refetched on the first render and whenever the status differs from the previous render's |
| ActiveButton.Caption | src/components/ActiveButton.tsx:20-27 | Wishlist reads "Wishlisted" and Backlog "Backlogged" whatever the index. Other shelves read as their name with an index, and as "Add to …" without. The shelf's name is always at the start or the end of the caption |
| ActiveButton.Number | src/components/ActiveButton.tsx:17 | a missing data attribute reads as NaN, a blank one as 0 |
| ActiveButton.ReadBack | src/components/ActiveButton.tsx:16-17 | writing the index into `data-index` and reading it back with `Number` gives the index, and NaN for a `null` index |
| ActiveButton.Press | src/components/ActiveButton.tsx:16-29 | the split toggle only opens the chooser. The main button passes the index as the status and the same index again as the button index |
| ActiveButton.ActiveState | src/components/ActiveButton.tsx:14-25 | The button is active exactly when its data attribute is written. It is then also exactly when a click reports a real (non-NaN) button index. For shelves other than Wishlist and Backlog, it is exactly when the caption is the shelf's own name rather than "Add to …" |
| SearchPage.Param | src/pages/SearchPage.tsx:14-15 | a missing parameter reads as the empty string, a present one as its value |
| SearchPage.BuildQueryParams | src/pages/SearchPage.tsx:19-24 | `q` is always the term; `page` is present iff the page string is not empty, and is then that string |
| SearchPage.PageRequested | src/pages/SearchPage.tsx:14-24 | with no page in the URL no page is requested, and the paginator marks page 1 as current. A given page is requested as written |
| SearchPage.QueryKeyInjective | src/pages/SearchPage.tsx:38-41 | two cache keys are equal iff both the term and the page are equal |
| SearchPage.FetchThenView | src/pages/SearchPage.tsx:17-72 | Before the query settles only the loader is shown: no result links and no paginator. Afterwards the loader is gone and the paginator is always shown, since even the `{}` fallback is truthy. The one request carries the term, the page only when given, and limit "20". A failed or falsy search gives exactly one "Failed to fetch game data." toast and no links. Otherwise there is no toast and one `/game/` link per result, in order |
| ResultPage.PlayPayload | src/pages/ResultPage.tsx:66-70 | the payload holds the user's id (left out when undefined), the route's game id and the status's number, and nothing else |
| ResultPage.Unwrap | src/pages/ResultPage.tsx:74 | `unwrap` yields the data of a successful call and throws on an error result or a rejected call |
| ResultPage.AddPlay | src/pages/ResultPage.tsx:65-84 | No user means no request and no change. Otherwise the request goes through the re-authenticating base query, followed by exactly one toast. A truthy answer gives a success toast with its message and this button becomes active. Anything else gives "Failed to add play." and the active button stays |
| ResultPage.AtMostOneActive | src/pages/ResultPage.tsx:130-168 | no two shelf buttons are active at once |
| ResultPage.AddedShelfActive | src/pages/ResultPage.tsx:74-79 | adding from shelf s either leaves the active button as it was or makes s's button the only active one |
| ResultPage.ShelfButtons | src/pages/ResultPage.tsx:125-181 | no controls without a user; otherwise four buttons, each active iff it is the active shelf, at most one active |
| ResultPage.Heading | src/pages/ResultPage.tsx:113 | the heading gets exactly an "s" appended when its content has more than one entry, and is otherwise unchanged |
| ResultPage.Page.constructor | src/pages/ResultPage.tsx:50-53 | no active button, chooser closed |
| ResultPage.Page.ShowModal | src/pages/ResultPage.tsx:55 | the split toggle opens the chooser and keeps the active button |
| ResultPage.Page.CloseModal | src/pages/ResultPage.tsx:54 | hiding the chooser closes it and keeps the active button |
| ResultPage.Page.HandleAddPlay | src/pages/ResultPage.tsx:65-84 | the rejection, the active button, the trace, the consumed responses and the store all equal those of `AddPlay`; the chooser is untouched |

## Left out

- Rendering (JSX, styles, icons, dates formatted with `Intl.DateTimeFormat`) and `console` logging are not modelled. The model keeps only what is shown: rows, links, captions, flags, toasts.
- The network, RTK Query's caching, tags and hook life cycle are not modelled. Requests are events in one trace, and their answers come from a scripted list (or a response parameter).
- Request and cache internals:
  - The server URL chosen from `NODE_ENV` is not modelled.
  - The 500 ms debounce in front of the combobox search is not modelled.
  - React's batching of state updates is not modelled. Each handler runs to completion.
- ResultPage.ShelfButtons: the buttons sit inside the game card, which is rendered only once the game query has data (src/pages/ResultPage.tsx:98). That guard is not modelled; the buttons depend on `userInfo` alone.
- JSON text is a token that remembers its value (`Json.JsonText`), not a character encoding. The same holds for `URLSearchParams` serialisation: the search events carry the parameter values, not the query string. So the double encoding of the combobox query (it is passed through `encodeURIComponent` and then `URLSearchParams`) is not visible.
- Numbers are integers. Results of `parseInt` and `Number` that are not integers are not modelled, and NaN is `None`.
- ActiveButton.Number: only `undefined`, blank strings and optionally signed decimal literals are read as the JavaScript function does. Hex, exponent and fraction forms become NaN here; `data-index` never holds them.
- Paginator.TotalPages: requires a positive limit. `Math.ceil` of a division by 0, or of missing totals (the `{}` fallback), gives Infinity or NaN in JavaScript, which integers cannot represent.
- Paginator.Pages: the page-button click handlers are modelled as `ChangePage` and `ShiftPagination`, not as closures.
- The logout mutation that the error middleware dispatches is an event (`InitiateLogout`); the request it makes is not part of this model. The rejected actions of failed requests also pass through the middleware; that composition is not modelled.
- LoginPage.LoginForm.LoginHandler: the login mutation's result is a parameter (`LoginResponse`). Its passage through the re-authenticating base query is modelled for adding a play but not for login. The response is assumed to be an object, since spreading a non-object is not modelled.
- LoginPage.LoginForm.LoginHandler: the `isLoading` state of the login button is not modelled.
- ActiveShelf: the plays query hook is called with `userInfo.id` even when `userInfo` is `null`. That would throw before `skip` applies, but the hook is not defined in src/slices/playsApiSlice.ts. The shelf's data is therefore a parameter (`ShelfData`).
- SearchPage: the hooks `useLazySearchQuery` (SearchBar, SearchPage) and `useGetGameQuery` (ResultPage) are not exported by src/slices/gamesApiSlice.ts, which defines mutations. The search answer is a parameter (`SearchResponse`).
- SearchBar.FetchOptions: a `results: null` answer cannot be represented (`results` is present or absent). In the source, `.map` on null throws, which shows the "Failed to display results." toast and calls `callback([])` (src/components/SearchBar.tsx:120-123, 139-143).
- Paginator: `URLSearchParams` is modelled as a map with one value per key. Repeated keys are not modelled.
- SearchPage: the error paragraph of the page is unreachable, because `FetchGameData` never rejects. It is not modelled.
- ResultPage: the game query's loading and error displays, the image and the date are rendering only.
- ResultPage: removing a play is commented out in the source and not modelled.
- SearchBar.Combobox.HandleChange: the selected option is never stored by the source (only cleared by the effect at mount), and the model keeps it that way.
