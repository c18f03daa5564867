/** The search-result paginator: which page buttons to show around the
    current page, when to show the ellipses that jump by four pages, and how
    a click rewrites the "page" search parameter. */
module Paginator {
  import opened Json
  import opened Text

  const Adjacent := 2
  const Visible := 5

  /** The URL's search parameters, one value per name. */
  type SearchParams = map<string, string>

  /** `parseInt(searchParams.get("page") || "1", 10)`; `None` is `NaN`. */
  function CurrentPage(params: SearchParams): (p: Option<int>)
    ensures ("page" !in params || params["page"] == "") ==> p == Some(1)
  {
    var raw := if "page" in params && params["page"] != "" then params["page"] else "1";
    assert "1" == IntToString(1);
    ParseIntOfIntToString(1);
    ParseInt(raw)
  }

  /** `Math.ceil(total / limit)` for a positive page size. */
  function TotalPages(total: nat, limit: nat): (pages: nat)
    requires limit > 0
    ensures pages * limit >= total
    ensures pages > 0 ==> (pages - 1) * limit < total
  {
    (total + limit - 1) / limit
  }

  /** How many pages to show left and right of the active one. */
  datatype Window = Window(left: int, right: int)

  /** `adjustAdjacentPages(active, total, adjacent)`: the window always holds
      `2 * adjacent + 1` page numbers; it starts at page 1 near the start,
      ends at the last page near the end, and is centred otherwise. */
  function AdjustAdjacentPages(active: int, total: int, adjacent: int): (w: Window)
    ensures w.left + w.right == 2 * adjacent
    ensures active <= adjacent ==> active - w.left == 1
    ensures adjacent < active && active >= total - adjacent + 1 ==> active + w.right == total
    ensures adjacent < active < total - adjacent + 1 ==> w.left == adjacent && w.right == adjacent
    ensures 0 <= adjacent && 1 <= active <= total ==> w.left >= 0 && w.right >= 0
  {
    if active <= adjacent then
      Window(active - 1, adjacent + (adjacent - active + 1))
    else if active >= total - adjacent + 1 then
      Window(adjacent + (adjacent - (total - active)), total - active)
    else
      Window(adjacent, adjacent)
  }

  /** The first and last page number of the window around `current`. */
  function WindowStart(current: int, total: int): int
  {
    current - AdjustAdjacentPages(current, total, Adjacent).left
  }

  function WindowEnd(current: int, total: int): int
  {
    current + AdjustAdjacentPages(current, total, Adjacent).right
  }

  /** `changePage(newPage)`: only "page" is set, every other parameter is
      kept, and reading the page back gives `newPage`. */
  function ChangePage(params: SearchParams, newPage: int): (r: SearchParams)
    ensures r.Keys == params.Keys + {"page"}
    ensures forall k :: k in params && k != "page" ==> r[k] == params[k]
    ensures CurrentPage(r) == Some(newPage)
  {
    ParseIntOfIntToString(newPage);
    params["page" := IntToString(newPage)]
  }

  /** The page an ellipsis jumps to: four pages back, at least page 1; four
      pages forward, at most the last page; any other direction goes to 1. */
  function ShiftPagination(direction: string, current: int, total: int): (page: int)
    ensures direction == "left" ==> page >= 1 && page >= current - 2 * Adjacent
                                    && (page == 1 || page == current - 2 * Adjacent)
    ensures direction == "right" ==> page <= total && page <= current + 2 * Adjacent
                                     && (page == total || page == current + 2 * Adjacent)
    ensures direction != "left" && direction != "right" ==> page == 1
  {
    var shiftAmount := Adjacent * 2;
    if direction == "left" then
      (if 1 >= current - shiftAmount then 1 else current - shiftAmount)
    else if direction == "right" then
      (if total <= current + shiftAmount then total else current + shiftAmount)
    else 1
  }

  /** What the paginator renders between Prev and Next. */
  datatype PageItem = LeftEllipsis | Item(page: int, active: bool) | RightEllipsis

  predicate HasLeftEllipsis(items: seq<PageItem>)
  {
    |items| > 0 && items[0] == LeftEllipsis
  }

  predicate HasRightEllipsis(items: seq<PageItem>)
  {
    |items| > 0 && items[|items| - 1] == RightEllipsis
  }

  /** The numbered buttons: `items` without its ellipses. */
  function Numbered(items: seq<PageItem>): seq<PageItem>
  {
    var lo := if HasLeftEllipsis(items) then 1 else 0;
    var hi := if HasRightEllipsis(items) && |items| > lo then |items| - 1 else |items|;
    items[lo..hi]
  }

  /** Some numbered button shows page `p`. */
  predicate Shows(nums: seq<PageItem>, p: int)
  {
    exists i :: 0 <= i < |nums| && nums[i].Item? && nums[i].page == p
  }

  /** Whether First/Prev and Next/Last are disabled. */
  datatype Controls = Controls(firstDisabled: bool, prevDisabled: bool, nextDisabled: bool, lastDisabled: bool)

  function NavControls(current: int, total: int): Controls
  {
    Controls(current == 1, current == 1, current == total, current == total)
  }

  /** The numbered buttons for the window `[lo, hi]`: ascending, each an
      existing page of the window, active exactly on the current page, and
      every existing page of the window present. */
  predicate NumbersFor(nums: seq<PageItem>, current: int, total: int, lo: int, hi: int)
  {
    && |nums| <= hi - lo + 1
    && (forall i :: 0 <= i < |nums| ==> nums[i].Item? && 1 <= nums[i].page <= total)
    && (forall i :: 0 <= i < |nums| ==> lo <= nums[i].page <= hi)
    && (forall i :: 0 <= i < |nums| ==> (nums[i].active <==> nums[i].page == current))
    && (forall i, j :: 0 <= i < j < |nums| ==> nums[i].page < nums[j].page)
    && (forall p :: lo <= p <= hi && 1 <= p <= total ==> Shows(nums, p))
  }

  /** The loop of `pages`: one button per page of `[lo, hi]` that exists. */
  method PageNumbers(current: int, total: int, lo: int, hi: int) returns (nums: seq<PageItem>)
    requires lo <= hi + 1
    ensures NumbersFor(nums, current, total, lo, hi)
  {
    nums := [];
    var page := lo;
    while page <= hi
      invariant lo <= page <= hi + 1
      invariant NumbersFor(nums, current, total, lo, page - 1)
    {
      if 1 <= page <= total {
        ghost var before := nums;
        nums := nums + [Item(page, page == current)];
        assert nums[|nums| - 1].page == page;
        forall p | lo <= p < page && 1 <= p <= total
          ensures Shows(nums, p)
        {
          assert Shows(before, p);
          var i :| 0 <= i < |before| && before[i].Item? && before[i].page == p;
          assert nums[i] == before[i];
        }
      }
      page := page + 1;
    }
  }

  /** When the current page exists, exactly one button is active and it shows
      the current page; the first button is active exactly when First/Prev
      are disabled, and the last exactly when Next/Last are. */
  lemma ActiveButton(nums: seq<PageItem>, current: int, total: int)
    requires 1 <= current <= total
    requires NumbersFor(nums, current, total, WindowStart(current, total), WindowEnd(current, total))
    ensures exists i :: 0 <= i < |nums| && nums[i] == Item(current, true)
    ensures forall i, j :: 0 <= i < |nums| && 0 <= j < |nums| && nums[i].active && nums[j].active ==> i == j
    ensures nums[0].active <==> NavControls(current, total).prevDisabled
    ensures nums[|nums| - 1].active <==> NavControls(current, total).nextDisabled
  {
    var lo, hi := WindowStart(current, total), WindowEnd(current, total);
    assert Shows(nums, current);
    if current != 1 {
      assert Shows(nums, current - 1);
    }
    if current != total {
      assert Shows(nums, current + 1);
    }
  }

  /** The `pages` list: a left ellipsis when the current page is past
      `visible - adjacent`, then the buttons of the window, then a right
      ellipsis when more than `adjacent` pages follow. */
  method Pages(current: int, total: int) returns (items: seq<PageItem>)
    ensures HasLeftEllipsis(items) <==> current > Visible - Adjacent
    ensures HasRightEllipsis(items) <==> current < total - Adjacent
    ensures NumbersFor(Numbered(items), current, total, WindowStart(current, total), WindowEnd(current, total))
    ensures |Numbered(items)| <= 2 * Adjacent + 1
  {
    var w := AdjustAdjacentPages(current, total, Adjacent);
    var nums := PageNumbers(current, total, current - w.left, current + w.right);
    items := nums;
    if current > Visible - Adjacent {
      items := [LeftEllipsis] + items;
    }
    if current < total - Adjacent {
      items := items + [RightEllipsis];
    }
    assert Numbered(items) == nums;
  }
}
