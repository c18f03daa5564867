/** The records the core components read: play statuses, game search
    results and the plays on a user's shelves. Only the fields the core uses
    are kept; `None` is a missing (`undefined`) field. */
module Types {
  import opened Json
  import opened Text

  /** The `Status` enum; its members are the numbers 0 to 3. */
  datatype Status = Playing | Played | Wishlist | Backlog

  function StatusValue(s: Status): (v: int)
    ensures 0 <= v < 4
  {
    match s
    case Playing => 0
    case Played => 1
    case Wishlist => 2
    case Backlog => 3
  }

  /** Distinct statuses have distinct numbers. */
  lemma StatusValueInjective(s: Status, t: Status)
    ensures StatusValue(s) == StatusValue(t) ==> s == t
  {
  }

  datatype GameSearchResult = GameSearchResult(id: Option<int>, name: Option<string>)

  datatype GameSearchResults = GameSearchResults(
    numberOfTotalResults: Option<int>,
    limit: Option<int>,
    results: Option<seq<GameSearchResult>>)

  /** The network's answer to a game search: it throws, or it resolves to a
      falsy value (`None`) or to the search results. */
  datatype SearchResponse = SearchThrew | Resolved(data: Option<GameSearchResults>)

  datatype Developer = Developer(id: Option<int>, name: Option<string>)

  datatype PlayData = PlayData(
    id: Option<int>,
    name: Option<string>,
    developers: Option<seq<Option<Developer>>>,  // `None` entries are null
    status: Option<int>,
    apiGameId: Option<int>)

  /** A number interpolated into a template literal; a missing one prints
      as "undefined". */
  function Interpolate(v: Option<int>): (s: string)
    ensures s != []
  {
    if v.Some? then IntToString(v.value) else "undefined"
  }

  /** `/game/${id}`: the route of one game. */
  function GameUrl(id: Option<int>): (url: string)
    ensures |url| > 6 && url[..6] == "/game/"
  {
    "/game/" + Interpolate(id)
  }
}
