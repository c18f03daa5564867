/** The search results page: reads the term and page from the URL, asks the
    search endpoint for twenty results, and lists them with a paginator. */
module SearchPage {
  import opened Json
  import opened Platform
  import opened Types
  import Paginator

  /** `searchParams.get(key) || ''`: a missing parameter reads as "". */
  function Param(params: Paginator.SearchParams, key: string): (v: string)
    ensures key !in params ==> v == ""
    ensures key in params ==> v == params[key]
  {
    if key in params then params[key] else ""
  }

  function SearchTerm(params: Paginator.SearchParams): (term: string)
  {
    Param(params, "q")
  }

  function SearchPageParam(params: Paginator.SearchParams): (page: string)
  {
    Param(params, "page")
  }

  /** The query parameters handed to the search endpoint. */
  datatype QueryParams = QueryParams(q: string, page: Option<string>)

  /** `q` always, `page` only when the page string is not empty. */
  function BuildQueryParams(searchString: string, pageString: string): (p: QueryParams)
    ensures p.q == searchString
    ensures p.page.Some? <==> pageString != ""
    ensures p.page.Some? ==> p.page.value == pageString
  {
    QueryParams(searchString, if pageString != "" then Some(pageString) else None)
  }

  /** With no page in the URL no page is requested (the first page, which is
      also the page the paginator marks as current); with a page, that page
      is requested as written. */
  lemma PageRequested(params: Paginator.SearchParams, term: string)
    ensures "page" !in params ==>
      BuildQueryParams(term, SearchPageParam(params)).page == None && Paginator.CurrentPage(params) == Some(1)
    ensures "page" in params && params["page"] != "" ==>
      BuildQueryParams(term, SearchPageParam(params)).page == Some(params["page"])
  {
  }

  const ResultLimit := "20"
  const FetchError := "Failed to fetch game data."

  /** What the query function resolves to: the results, or `{}`. */
  datatype PageData = Results(results: GameSearchResults) | EmptyObject

  datatype SearchFetch = SearchFetch(events: seq<Event>, data: PageData)

  /** `fetchGameData`: one search request with limit "20"; a thrown error or
      a falsy answer gives one error toast and `{}`. It always resolves. */
  function FetchGameData(searchString: string, pageString: string, response: SearchResponse): SearchFetch
  {
    var p := BuildQueryParams(searchString, pageString);
    var search := SearchIssued(p.q, p.page, Some(ResultLimit));
    if response.SearchThrew? || response.data.None? then
      SearchFetch([search, ToastError(JString(FetchError))], EmptyObject)
    else
      SearchFetch([search], Results(response.data.value))
  }

  /** The query's cache key. */
  function QueryKey(searchTerm: string, searchPage: string): (key: seq<string>)
  {
    ["query", searchTerm, searchPage]
  }

  /** Different term or page, different key: a change of either refetches. */
  lemma QueryKeyInjective(t1: string, p1: string, t2: string, p2: string)
    ensures QueryKey(t1, p1) == QueryKey(t2, p2) <==> t1 == t2 && p1 == p2
  {
    if QueryKey(t1, p1) == QueryKey(t2, p2) {
      assert QueryKey(t1, p1)[1] == QueryKey(t2, p2)[1];
      assert QueryKey(t1, p1)[2] == QueryKey(t2, p2)[2];
    }
  }

  /** What the page shows once the query has an answer (`data`), or before:
      the loader, the result links and whether the paginator is there. */
  datatype SearchView = SearchView(loader: bool, links: seq<string>, paginator: bool)

  function View(data: Option<PageData>): SearchView
  {
    var links :=
      if data.Some? && data.value.Results? && data.value.results.results.Some? then
        var results := data.value.results.results.value;
        seq(|results|, i requires 0 <= i < |results| => GameUrl(results[i].id))
      else [];
    SearchView(data.None?, links, data.Some?)
  }

  /** Before the query settles the page shows only the loader: no result
      link and no paginator. Once it has, the loader is gone and the
      paginator is always shown, because even the `{}` fallback is truthy.
      After a failed or falsy search there is exactly one error toast and no
      link; otherwise there is no toast and one `/game/` link per result, in
      order. The one request always carries the term, the page only when one
      was given, and the limit "20". */
  lemma FetchThenView(searchString: string, pageString: string, response: SearchResponse)
    ensures View(None) == SearchView(true, [], false)
    ensures var f := FetchGameData(searchString, pageString, response);
      var v := View(Some(f.data));
      && !v.loader && v.paginator
      && f.events[0] == SearchIssued(searchString, if pageString != "" then Some(pageString) else None, Some(ResultLimit))
      && ((response.SearchThrew? || response.data.None?) ==>
            f.data == EmptyObject && f.events == f.events[..1] + [ToastError(JString(FetchError))] && v.links == [])
      && (response.Resolved? && response.data.Some? ==>
            f.data == Results(response.data.value) && |f.events| == 1
            && (response.data.value.results.None? ==> v.links == [])
            && (response.data.value.results.Some? ==>
                  var results := response.data.value.results.value;
                  |v.links| == |results|
                  && forall i :: 0 <= i < |results| ==>
                       v.links[i] == GameUrl(results[i].id) && v.links[i][..6] == "/game/"))
  {
    var f := FetchGameData(searchString, pageString, response);
    if response.Resolved? && response.data.Some? && response.data.value.results.Some? {
      var results := response.data.value.results.value;
      var v := View(Some(f.data));
      forall i | 0 <= i < |results|
        ensures v.links[i] == GameUrl(results[i].id) && v.links[i][..6] == "/game/"
      {
        assert v.links[i] == GameUrl(results[i].id);
      }
    }
  }
}
