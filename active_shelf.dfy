/** One shelf of the user's plays: the plays whose status is the shelf's
    status, as a table of rows, or a loader / "Empty shelf." placeholder. */
module ActiveShelf {
  import opened Json
  import opened Types

  /** The play query's data: not there yet, something that is not an array,
      or the list of plays. */
  datatype ShelfData = Absent | NonArray | PlayArray(plays: seq<PlayData>)

  /** `play.status === status`: a missing status matches no shelf. */
  predicate OnShelf(p: PlayData, status: int)
  {
    p.status == Some(status)
  }

  /** `plays.some(play => play.status === status)` */
  function AnyOnShelf(plays: seq<PlayData>, status: int): (b: bool)
    ensures b <==> exists i :: 0 <= i < |plays| && OnShelf(plays[i], status)
  {
    if plays == [] then false
    else if OnShelf(plays[0], status) then true
    else
      var rest := AnyOnShelf(plays[1..], status);
      assert forall i :: 1 <= i < |plays| ==> plays[i] == plays[1..][i - 1];
      rest
  }

  /** `hasStatus`: the data is an array holding a play with this status. */
  function HasStatus(data: ShelfData, status: int): (b: bool)
    ensures b <==> data.PlayArray? && exists i :: 0 <= i < |data.plays| && OnShelf(data.plays[i], status)
  {
    data.PlayArray? && AnyOnShelf(data.plays, status)
  }

  /** The plays on this shelf, in their original order. */
  function ShelfPlays(plays: seq<PlayData>, status: int): (r: seq<PlayData>)
    ensures |r| <= |plays|
    ensures forall p :: p in r <==> p in plays && OnShelf(p, status)
  {
    if plays == [] then []
    else
      var rest := ShelfPlays(plays[1..], status);
      assert forall p :: p in plays <==> p == plays[0] || p in plays[1..];
      if OnShelf(plays[0], status) then [plays[0]] + rest else rest
  }

  /** Filtering a concatenation filters each part and keeps them in order. */
  lemma {:induction false} ShelfPlaysAppend(xs: seq<PlayData>, ys: seq<PlayData>, status: int)
    ensures ShelfPlays(xs + ys, status) == ShelfPlays(xs, status) + ShelfPlays(ys, status)
  {
    if xs == [] {
      assert xs + ys == ys;
    } else {
      assert (xs + ys)[1..] == xs[1..] + ys;
      ShelfPlaysAppend(xs[1..], ys, status);
    }
  }

  /** A shelf has a play iff its filtered list is not empty. */
  lemma ShelfPlaysNonEmpty(plays: seq<PlayData>, status: int)
    ensures AnyOnShelf(plays, status) <==> ShelfPlays(plays, status) != []
  {
    if AnyOnShelf(plays, status) {
      var i :| 0 <= i < |plays| && OnShelf(plays[i], status);
      assert plays[i] in ShelfPlays(plays, status);
    }
  }

  /** The names in a developer list, skipping `null` entries in order. */
  function PresentNames(devs: seq<Option<Developer>>): (names: seq<Option<string>>)
    ensures |names| <= |devs|
    ensures (forall i :: 0 <= i < |devs| ==> devs[i].Some?) ==> |names| == |devs|
    ensures forall n :: n in names <==> exists i :: 0 <= i < |devs| && devs[i].Some? && devs[i].value.name == n
  {
    if devs == [] then []
    else
      var rest := PresentNames(devs[1..]);
      assert forall i :: 1 <= i < |devs| ==> devs[i] == devs[1..][i - 1];
      if devs[0].Some? then [devs[0].value.name] + rest else rest
  }

  /** `play.developers && play.developers.map(...)`: nothing when missing. */
  function DeveloperNames(devs: Option<seq<Option<Developer>>>): seq<Option<string>>
  {
    if devs.Some? then PresentNames(devs.value) else []
  }

  /** One table row: its key, its title, the title's link, the developers. */
  datatype Row = Row(key: Option<int>, title: Option<string>, link: string, developers: seq<Option<string>>)

  function RowOf(p: PlayData): Row
  {
    Row(p.id, p.name, GameUrl(p.apiGameId), DeveloperNames(p.developers))
  }

  /** The body of the table: `map` over every play, `null` for the plays of
      other shelves. */
  function Rows(plays: seq<PlayData>, status: int): (rows: seq<Row>)
    ensures forall i :: 0 <= i < |rows| ==> |rows[i].link| > 6 && rows[i].link[..6] == "/game/"
  {
    if plays == [] then []
    else (if OnShelf(plays[0], status) then [RowOf(plays[0])] else []) + Rows(plays[1..], status)
  }

  /** The rows are exactly the shelf's plays, in their original order, each
      linking to its game. */
  lemma {:induction false} RowsAreShelfPlays(plays: seq<PlayData>, status: int)
    ensures var shelf := ShelfPlays(plays, status);
      && |Rows(plays, status)| == |shelf|
      && forall i :: 0 <= i < |shelf| ==>
           Rows(plays, status)[i] == RowOf(shelf[i]) && Rows(plays, status)[i].link == GameUrl(shelf[i].apiGameId)
  {
    if plays != [] {
      RowsAreShelfPlays(plays[1..], status);
    }
  }

  datatype ShelfView = Table(rows: seq<Row>) | Loading | EmptyShelf

  /** What the shelf renders. */
  function View(data: ShelfData, isLoading: bool, status: int): (v: ShelfView)
    ensures v.Table? <==> HasStatus(data, status)
    ensures v.Table? ==> v.rows != [] && v.rows == Rows(data.plays, status)
    ensures !v.Table? ==> (v.Loading? <==> isLoading)
  {
    if data != Absent && HasStatus(data, status) then
      ShelfPlaysNonEmpty(data.plays, status);
      RowsAreShelfPlays(data.plays, status);
      Table(Rows(data.plays, status))
    else if isLoading then Loading
    else EmptyShelf
  }

  /** The refetch effect, keyed on the shelf's status. */
  class ShelfEffect {
    /** The status the effect last ran for (React's dependency memory). */
    var lastStatus: Option<int>

    constructor ()
      ensures lastStatus == None
    {
      lastStatus := None;
    }

    /** A render with `status`: the plays are refetched on the first render
        and whenever the status changed since the last one. */
    method Render(status: int) returns (refetch: bool)
      modifies this
      ensures refetch <==> old(lastStatus) != Some(status)
      ensures lastStatus == Some(status)
    {
      refetch := lastStatus != Some(status);
      lastStatus := Some(status);
    }
  }
}
