/** A game's page: its details, and for a signed-in user the shelf buttons
    that add the game to a shelf through the plays endpoint. */
module ResultPage {
  import opened Json
  import opened Platform
  import opened Types
  import AuthSlice
  import ApiSlice

  const PlaysUrl := "/api/plays"
  const AddPlayError := "Failed to add play."

  /** The add-play body: the user's id (left out when it is `undefined`),
      the game id from the route and the status's number. */
  function PlayPayload(userId: Option<Json>, gameId: string, status: Status): (j: Json)
    ensures j.JObject?
    ensures ("userId" in j.fields <==> userId.Some?) && (userId.Some? ==> j.fields["userId"] == userId.value)
    ensures "gameId" in j.fields && j.fields["gameId"] == JString(gameId)
    ensures "status" in j.fields && j.fields["status"] == JNumber(StatusValue(status))
    ensures j.fields.Keys <= {"userId", "gameId", "status"}
  {
    var base := map["gameId" := JString(gameId), "status" := JNumber(StatusValue(status))];
    JObject(if userId.Some? then base["userId" := userId.value] else base)
  }

  /** The add-play mutation's request. */
  function AddPlayArgs(payload: Json): (args: FetchArgs)
  {
    FetchArgs(PlaysUrl, "POST", Include, Some(payload))
  }

  /** `.unwrap()`: the data of a successful call; an error result or a
      rejected call throws (`None`). */
  function Unwrap(c: ApiSlice.Completion): (r: Option<Json>)
    ensures r.Some? <==> c.Returned? && c.result.QueryData?
    ensures r.Some? ==> r.value == c.result.data
  {
    if c.Returned? && c.result.QueryData? then Some(c.result.data) else None
  }

  /** Everything one `handleAddPlay` does. `rejected`: the handler's promise
      rejects (reading `userInfo.id` with no user throws before the `try`). */
  datatype AddPlayOutcome = AddPlayOutcome(
    events: seq<Event>, consumed: nat, cleared: bool, rejected: bool, activeIndex: Option<int>)

  /** `handleAddPlay(statusValue, buttonIndex)` with the network answering
      `answers`, the button index `oldActive` before it. */
  function AddPlay(userInfo: Json, gameId: string, status: Status, buttonIndex: int,
                   oldActive: Option<int>, answers: seq<QueryResult>): (o: AddPlayOutcome)
    requires |answers| >= 3
    // without a user nothing is sent and nothing changes
    ensures userInfo == JNull ==> o == AddPlayOutcome([], 0, false, true, oldActive)
    ensures userInfo != JNull ==>
      var call := ApiSlice.Reauth(AddPlayArgs(PlayPayload(Get(userInfo, "id"), gameId, status)), answers);
      var response := Unwrap(call.completion);
      && !o.rejected && o.consumed == call.consumed && o.cleared == call.cleared
      // the request goes through the re-authenticating base query, then one toast
      && |o.events| == |call.events| + 1 && o.events[..|call.events|] == call.events
      // a truthy answer: its message as a success toast, and this button becomes the active one
      && (Present(response) ==>
            o.events[|call.events|] == ToastSuccess(Get(response.value, "message"))
            && o.activeIndex == Some(buttonIndex))
      // anything else: the error toast, and the active button stays
      && (!Present(response) ==>
            o.events[|call.events|] == ToastError(JString(AddPlayError)) && o.activeIndex == oldActive)
  {
    match Member(Some(userInfo), "id")
    case Threw => AddPlayOutcome([], 0, false, true, oldActive)
    case Value(userId) =>
      var call := ApiSlice.Reauth(AddPlayArgs(PlayPayload(userId, gameId, status)), answers);
      var response := Unwrap(call.completion);
      if Present(response) then
        AddPlayOutcome(call.events + [ToastSuccess(Get(response.value, "message"))],
                       call.consumed, call.cleared, false, Some(buttonIndex))
      else
        AddPlayOutcome(call.events + [ToastError(JString(AddPlayError))],
                       call.consumed, call.cleared, false, oldActive)
  }

  /** A shelf button is active iff the active index is its status's number. */
  predicate ButtonActive(activeIndex: Option<int>, s: Status)
  {
    activeIndex == Some(StatusValue(s))
  }

  /** Hence at most one shelf button is active at a time. */
  lemma AtMostOneActive(activeIndex: Option<int>, s: Status, t: Status)
    ensures ButtonActive(activeIndex, s) && ButtonActive(activeIndex, t) ==> s == t
  {
    StatusValueInjective(s, t);
  }

  /** An add from the button of shelf `s` (which passes its own status's
      number as the index) either leaves the active button as it was or
      leaves exactly that button active. */
  lemma AddedShelfActive(userInfo: Json, gameId: string, s: Status, oldActive: Option<int>,
                         answers: seq<QueryResult>)
    requires |answers| >= 3
    ensures var o := AddPlay(userInfo, gameId, s, StatusValue(s), oldActive, answers);
      o.activeIndex == oldActive || forall t :: ButtonActive(o.activeIndex, t) <==> t == s
  {
    forall t | true
      ensures ButtonActive(Some(StatusValue(s)), t) <==> t == s
    {
      StatusValueInjective(s, t);
    }
  }

  /** One of the four shelf buttons as rendered. */
  datatype ShelfButton = ShelfButton(status: Status, caption: string, active: bool)

  /** The shelf controls: none without a user; otherwise Wishlist on the
      card and Playing, Played and Backlog in the chooser, each active iff
      it is the active shelf. */
  function ShelfButtons(userInfo: Json, activeIndex: Option<int>): (bs: seq<ShelfButton>)
    ensures !Truthy(userInfo) ==> bs == []
    ensures Truthy(userInfo) ==> |bs| == 4
    ensures forall i :: 0 <= i < |bs| ==> (bs[i].active <==> ButtonActive(activeIndex, bs[i].status))
    ensures forall i, j :: 0 <= i < |bs| && 0 <= j < |bs| && bs[i].active && bs[j].active ==> i == j
  {
    if !Truthy(userInfo) then []
    else
      [ShelfButton(Wishlist, "Add to Wishlist", ButtonActive(activeIndex, Wishlist)),
       ShelfButton(Playing, "Currently playing", ButtonActive(activeIndex, Playing)),
       ShelfButton(Played, "Already played", ButtonActive(activeIndex, Played)),
       ShelfButton(Backlog, "Backlog", ButtonActive(activeIndex, Backlog))]
  }

  /** A detail heading: plural when there is more than one entry. */
  function Heading(heading: string, content: Option<seq<Json>>): (h: string)
    ensures |h| >= |heading| && h[..|heading|] == heading
    ensures content.Some? && |content.value| > 1 ==> h == heading + "s"
    ensures !(content.Some? && |content.value| > 1) ==> h == heading
  {
    if content.Some? && |content.value| > 1 then heading + "s" else heading
  }

  /** The page's own state: the active shelf button and the chooser. */
  class Page {
    var activeIndex: Option<int>
    var showModal: bool

    constructor ()
      ensures activeIndex == None && !showModal
    {
      activeIndex := None;
      showModal := false;
    }

    /** The split toggle opens the chooser. */
    method ShowModal()
      modifies this
      ensures showModal && activeIndex == old(activeIndex)
    {
      showModal := true;
    }

    /** Hiding the chooser closes it. */
    method CloseModal()
      modifies this
      ensures !showModal && activeIndex == old(activeIndex)
    {
      showModal := false;
    }

    /** `handleAddPlay`, against the scripted network, the browser and the
        credential store. */
    method HandleAddPlay(userInfo: Json, gameId: string, status: Status, buttonIndex: int,
                         browser: Browser, store: AuthSlice.Store) returns (rejected: bool)
      requires |browser.responses| >= 3
      modifies this, browser, store
      ensures var o := AddPlay(userInfo, gameId, status, buttonIndex, old(activeIndex), old(browser.responses));
        && rejected == o.rejected
        && activeIndex == o.activeIndex && showModal == old(showModal)
        && browser.trace == old(browser.trace) + o.events
        && browser.responses == old(browser.responses)[o.consumed..]
        && (o.cleared ==> store.userInfo == JNull && store.storage == old(store.storage) - {AuthSlice.StorageKey})
        && (!o.cleared ==> store.userInfo == old(store.userInfo) && store.storage == old(store.storage))
    {
      ghost var o := AddPlay(userInfo, gameId, status, buttonIndex, activeIndex, browser.responses);
      ghost var before := browser.trace;
      var id := Member(Some(userInfo), "id");
      if id.Threw? {
        assert o == AddPlayOutcome([], 0, false, true, activeIndex);
        return true;
      }
      var payload := PlayPayload(id.v, gameId, status);
      ghost var call := ApiSlice.Reauth(AddPlayArgs(payload), browser.responses);
      var c := ApiSlice.BaseQueryWithReauth(AddPlayArgs(payload), browser, store);
      var response := Unwrap(c);
      var toast := if Present(response) then ToastSuccess(Get(response.value, "message"))
                   else ToastError(JString(AddPlayError));
      assert o.events == call.events + [toast];
      browser.Emit(toast);
      AppendAssoc(before, call.events, [toast]);
      if Present(response) {
        activeIndex := Some(buttonIndex);
      }
      rejected := false;
    }
  }
}
