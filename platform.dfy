/** What the core sees of its surroundings: the network behind
    `fetchBaseQuery` and `fetch`, Redux actions, the router, the toast
    notifier and `window.location`. The network is an oracle: it answers
    each request with the next entry of a scripted list. Everything the core
    does to the outside world is appended to one trace of events, so the order
    of side effects can be stated. */
module Platform {
  import opened Json

  /** The `credentials` mode of a request. */
  datatype Credentials = SameOrigin | Include

  /** Arguments of one HTTP request. */
  datatype FetchArgs = FetchArgs(url: string, httpMethod: string, credentials: Credentials, body: Option<Json>)

  /** The error half of a `fetchBaseQuery` result. */
  datatype FetchError =
    | HttpError(status: int, data: Json)  // the server answered with an error status
    | FetchFailed                         // 'FETCH_ERROR': the request never got an answer
    | ParsingError(originalStatus: int)   // 'PARSING_ERROR': the body was not JSON
    | TimeoutError                        // 'TIMEOUT_ERROR'

  /** A `fetchBaseQuery` result: `{ data }` or `{ error }`. */
  datatype QueryResult = QueryData(data: Json) | QueryError(error: FetchError)

  /** `result.error && result.error.status === 401`. */
  predicate IsUnauthorized(r: QueryResult)
  {
    r.QueryError? && r.error.HttpError? && r.error.status == 401
  }

  /** A request goes through the RTK base query or through plain `fetch`. */
  datatype Request = BaseQuery(args: FetchArgs) | RawFetch(args: FetchArgs)

  /** Where a Redux action stands in its async life cycle (`meta.requestStatus`). */
  datatype RequestStatus = NoRequest | Pending | Fulfilled | Rejected

  /** A Redux action as the middleware sees it. */
  datatype Action = Action(actionType: string, requestStatus: RequestStatus, rejectedWithValue: bool, payload: Option<Json>)

  /** `isRejectedWithValue(action)`. */
  predicate IsRejectedWithValue(a: Action)
  {
    a.requestStatus == Rejected && a.rejectedWithValue
  }

  /** Actions the core dispatches to the store. */
  datatype Dispatch = SetCredentialsAction(payload: Json) | ClearCredentialsAction | InitiateLogout

  datatype Event =
    | Sent(request: Request)
    | Dispatched(dispatched: Dispatch)
    | Redirected(href: string)   // assignment to window.location.href
    | Navigated(to: string)      // react-router navigate(to)
    | ToastError(content: Json)
    | ToastSuccess(message: Option<Json>)  // `None`: toast.success(undefined)
    | Forwarded(action: Action)  // a middleware calls next(action)
    | SearchIssued(q: string, page: Option<string>, limit: Option<string>)  // a game-search request
    | DefaultPrevented           // evt.preventDefault()
    | MenuBlurred                // the search menu is closed through its ref

  /** Two events appended one at a time are the pair appended at once. */
  lemma AppendPair<T>(s: seq<T>, x: T, y: T)
    ensures s + [x] + [y] == s + [x, y]
  {
  }

  lemma AppendAssoc<T>(a: seq<T>, b: seq<T>, c: seq<T>)
    ensures (a + b) + c == a + (b + c)
  {
  }

  class Browser {
    var trace: seq<Event>
    var responses: seq<QueryResult>

    constructor (script: seq<QueryResult>)
      ensures trace == [] && responses == script
    {
      trace := [];
      responses := script;
    }

    /** Sends one request and takes the next scripted answer. */
    method Send(req: Request) returns (r: QueryResult)
      requires responses != []
      modifies this
      ensures r == old(responses)[0] && responses == old(responses)[1..]
      ensures trace == old(trace) + [Sent(req)]
    {
      r := responses[0];
      responses := responses[1..];
      trace := trace + [Sent(req)];
    }

    method Emit(e: Event)
      modifies this
      ensures trace == old(trace) + [e] && responses == old(responses)
    {
      trace := trace + [e];
    }
  }
}
