/** The player-stats pager of the web client: which page is requested, the
    ranks the rows are shown with, and the pagination bar built under the
    table (a summary, Previous, a window of numbered buttons around the
    current page with the first and last page and ellipses outside it, and
    Next). A button's click target is the zero-based page it requests. */
module Pagination {
  import opened JsValues

  function Min(a: int, b: int): int { if a <= b then a else b }
  function Max(a: int, b: int): int { if a >= b then a else b }

  // ---------------------------------------------------------------------------
  // Page arithmetic

  /** `Math.ceil(total / limit)` (public/app.js:822). */
  function TotalPages(total: nat, limit: nat): nat
    requires limit > 0
  {
    (total + limit - 1) / limit
  }

  /** `Math.floor(offset / limit) + 1` (public/app.js:823). */
  function CurrentPage(offset: nat, limit: nat): (r: nat)
    requires limit > 0
    ensures r >= 1
  {
    offset / limit + 1
  }

  /** `a <= b` scaled by a non-negative factor. */
  lemma MulMono(a: int, b: int, c: nat)
    requires a <= b
    ensures a * c <= b * c
  {
    assert b * c - a * c == (b - a) * c;
  }

  /** The pages needed for `total` rows: enough to hold them all, and one
      fewer would not. */
  lemma TotalPagesBounds(total: nat, limit: nat)
    requires limit > 0
    ensures var r := TotalPages(total, limit);
            total <= r * limit && (r == 0 || (r - 1) * limit < total)
  {
    var r := TotalPages(total, limit);
    var m := (total + limit - 1) % limit;
    assert total + limit - 1 == r * limit + m;
    assert (r - 1) * limit == r * limit - limit;
  }

  /** The current page is the one-based page holding the row at `offset`. */
  lemma CurrentPageBounds(offset: nat, limit: nat)
    requires limit > 0
    ensures var r := CurrentPage(offset, limit);
            (r - 1) * limit <= offset < r * limit
  {
    var r := CurrentPage(offset, limit);
    var m := offset % limit;
    assert offset == (r - 1) * limit + m;
    assert r * limit == (r - 1) * limit + limit;
  }

  /** The one-based page displayed after requesting zero-based page `page`:
      the request's offset is `page * limit` (public/app.js:719). */
  function PageAfterRequest(page: nat, limit: nat): nat
    requires limit > 0
  {
    CurrentPage(page * limit, limit)
  }

  /** Requesting a zero-based page displays the one-based page after it. */
  lemma PageOfOffset(page: nat, limit: nat)
    requires limit > 0
    ensures PageAfterRequest(page, limit) == page + 1
  {
    var q := page * limit / limit;
    var m := page * limit % limit;
    assert page * limit == q * limit + m;
    assert (page - q) * limit == m by {
      assert (page - q) * limit == page * limit - q * limit;
    }
    if page - q >= 1 {
      MulMono(1, page - q, limit);
    } else if page - q <= -1 {
      MulMono(page - q, -1, limit);
    }
  }

  /** Rows on a shown page start inside the table: the current page is not
      past the last one. */
  lemma CurrentWithinTotal(total: nat, limit: nat, offset: nat)
    requires limit > 0 && offset < total
    ensures 1 <= CurrentPage(offset, limit) <= TotalPages(total, limit)
  {
    var r, t := CurrentPage(offset, limit), TotalPages(total, limit);
    TotalPagesBounds(total, limit);
    CurrentPageBounds(offset, limit);
    if r > t {
      MulMono(t, r - 1, limit);
    }
  }

  /** `offset + index + 1`: the rank shown beside a row (public/app.js:767). */
  function Rank(offset: nat, index: nat): (r: nat)
    ensures r > offset
  {
    offset + index + 1
  }

  /** A full page ends just before the next page begins: ranks run on without
      gap or repeat from one page to the next. */
  lemma RanksContinue(page: nat, limit: nat)
    requires limit > 0
    ensures Rank(page * limit, limit - 1) + 1 == Rank((page + 1) * limit, 0)
  {
  }

  // ---------------------------------------------------------------------------
  // The pager's state

  /** `playerStatsCurrentPage` and `playerStatsPageSize` (public/app.js:8-9). */
  class PlayerStatsPager {
    var currentPage: int
    var pageSize: int

    constructor()
      ensures currentPage == 0 && pageSize == 50
    {
      currentPage := 0;
      pageSize := 50;
    }

    /** The `offset` of the next request (public/app.js:718-719). */
    function Offset(): int
      reads this
    {
      currentPage * pageSize
    }

    /** `goToPlayerStatsPage(page)` (public/app.js:879-882). */
    method GoToPage(page: int)
      modifies this
      ensures currentPage == page && pageSize == old(pageSize)
      ensures Offset() == page * pageSize
    {
      currentPage := page;
    }

    /** A new search or a new sort column starts again from the first page
        (public/app.js:889, public/app.js:900). */
    method Restart()
      modifies this
      ensures currentPage == 0 && pageSize == old(pageSize)
      ensures Offset() == 0
    {
      currentPage := 0;
    }
  }

  // ---------------------------------------------------------------------------
  // The pagination bar

  /** One element of the bar. A `None` target is a disabled or current-page
      button. */
  datatype PageItem =
    | ResultCount(total: nat)
    | ShowingRange(first: nat, last: nat, total: nat)
    | Previous(target: Option<nat>)
    | PageButton(number: nat, target: Option<nat>)
    | Ellipsis
    | Next(target: Option<nat>)

  /** The numbered window around the current page (public/app.js:842-843). */
  function StartPage(cur: nat): (r: nat)
    ensures r >= 1 && r <= Max(cur, 1) && cur <= r + 2
    ensures r == 1 || r + 2 == cur
  {
    Max(1, cur - 2)
  }

  function EndPage(cur: nat, totalPages: nat): (r: nat)
    ensures r <= totalPages && r <= cur + 2
    ensures r == totalPages || r == cur + 2
  {
    Min(totalPages, cur + 2)
  }

  /** Button `i` of the window: the current page is not clickable, any other
      requests zero-based page `i - 1`. */
  function Button(i: nat, cur: nat): PageItem
    requires i >= 1
  {
    PageButton(i, if i == cur then None else Some(i - 1))
  }

  /** The buttons `lo`..`hi` of the window, in order. */
  function Numbered(lo: nat, hi: int, cur: nat): seq<PageItem>
    requires lo >= 1
    decreases hi - lo
  {
    if hi < lo then [] else Numbered(lo, hi - 1, cur) + [Button(hi, cur)]
  }

  /** The "1" button and the ellipsis before the window. */
  function Leading(start: nat): seq<PageItem> {
    if start > 1 then [PageButton(1, Some(0))] + (if start > 2 then [Ellipsis] else []) else []
  }

  /** The ellipsis and the last-page button after the window. */
  function Trailing(end: nat, totalPages: nat): seq<PageItem>
    requires totalPages >= 1
  {
    if end < totalPages then (if end < totalPages - 1 then [Ellipsis] else []) + [PageButton(totalPages, Some(totalPages - 1))]
    else []
  }

  /** The summary of the rows shown and the Previous button. */
  function Head(total: nat, limit: nat, offset: nat, cur: nat): seq<PageItem> {
    [ShowingRange(offset + 1, Min(offset + limit, total), total),
     Previous(if cur > 1 then Some(cur - 2) else None)]
  }

  /** The Next button. */
  function Tail(cur: nat, totalPages: nat): seq<PageItem> {
    [Next(if cur < totalPages then Some(cur) else None)]
  }

  /** The bar for `totalPages` pages with page `cur` shown. */
  function Bar(total: nat, limit: nat, offset: nat, totalPages: nat, cur: nat): seq<PageItem> {
    if totalPages <= 1 then [ResultCount(total)]
    else
      var start, end := StartPage(cur), EndPage(cur, totalPages);
      Head(total, limit, offset, cur) + Leading(start) + Numbered(start, end, cur)
      + Trailing(end, totalPages) + Tail(cur, totalPages)
  }

  /** The bar for a page of `limit` rows from `offset` out of `total`. */
  function View(total: nat, limit: nat, offset: nat): seq<PageItem>
    requires limit > 0
  {
    Bar(total, limit, offset, TotalPages(total, limit), CurrentPage(offset, limit))
  }

  lemma SnocAssoc<T>(a: seq<T>, b: seq<T>, x: T)
    ensures (a + b) + [x] == a + (b + [x])
  {
  }

  /** `updatePlayerStatsPagination(total, limit, offset)`
      (public/app.js:820-876): the bar is built piece by piece. */
  method UpdatePagination(total: nat, limit: nat, offset: nat) returns (items: seq<PageItem>)
    requires limit > 0
    ensures items == View(total, limit, offset)
  {
    var totalPages := TotalPages(total, limit);
    var currentPage := CurrentPage(offset, limit);
    if totalPages <= 1 {
      return [ResultCount(total)];
    }
    items := [ShowingRange(offset + 1, Min(offset + limit, total), total)];
    // Previous is disabled on the first page
    items := items + [Previous(if currentPage > 1 then Some(currentPage - 2) else None)];
    ghost var head := items;
    assert head == Head(total, limit, offset, currentPage);
    var startPage := StartPage(currentPage);
    var endPage := EndPage(currentPage, totalPages);
    if startPage > 1 {
      items := items + [PageButton(1, Some(0))];
      if startPage > 2 {
        items := items + [Ellipsis];
      }
    }
    assert items == head + Leading(startPage);
    ghost var before := items;
    var i := startPage;
    while i <= endPage
      invariant startPage <= i && (i <= endPage + 1 || i == startPage)
      invariant items == before + Numbered(startPage, i - 1, currentPage)
    {
      // the current page's button has no target; button i requests page i - 1
      SnocAssoc(before, Numbered(startPage, i - 1, currentPage), Button(i, currentPage));
      items := items + [Button(i, currentPage)];
      i := i + 1;
    }
    if i - 1 != endPage {
      assert Numbered(startPage, i - 1, currentPage) == [] == Numbered(startPage, endPage, currentPage);
    }
    ghost var middle := items;
    if endPage < totalPages {
      if endPage < totalPages - 1 {
        items := items + [Ellipsis];
        SnocAssoc(middle, [Ellipsis], PageButton(totalPages, Some(totalPages - 1)));
      }
      items := items + [PageButton(totalPages, Some(totalPages - 1))];
    }
    assert items == middle + Trailing(endPage, totalPages);
    ghost var body := items;
    // Next is disabled on the last page
    items := items + [Next(if currentPage < totalPages then Some(currentPage) else None)];
    assert items == body + Tail(currentPage, totalPages);
  }

  /** The page numbers the bar has a button for. */
  function Shown(items: seq<PageItem>): set<nat> {
    set it | it in items && it.PageButton? :: it.number
  }

  // ---------------------------------------------------------------------------
  // Properties of the bar

  /** The window holds exactly the buttons `lo`..`hi`. */
  lemma {:induction false} NumberedItems(lo: nat, hi: int, cur: nat)
    requires lo >= 1
    ensures forall it :: it in Numbered(lo, hi, cur) ==>
              it.PageButton? && lo <= it.number <= hi && it == Button(it.number, cur)
    ensures forall p: nat :: lo <= p <= hi ==> Button(p, cur) in Numbered(lo, hi, cur)
    decreases hi - lo
  {
    if hi >= lo {
      NumberedItems(lo, hi - 1, cur);
    }
  }

  /** A button is well aimed: it is a page of the table, it is disabled
      exactly when it is the current page, and otherwise it requests its own
      page. */
  predicate WellAimed(it: PageItem, totalPages: nat, cur: nat) {
    it.PageButton? ==>
      && 1 <= it.number <= totalPages
      && (it.target.None? <==> it.number == cur)
      && (it.target.Some? ==> it.target.value + 1 == it.number)
  }

  /** A button is the first page, the last page or a page of the window. */
  predicate Placed(it: PageItem, totalPages: nat, cur: nat) {
    it.PageButton? ==>
      it.number == 1 || it.number == totalPages || StartPage(cur) <= it.number <= EndPage(cur, totalPages)
  }

  lemma BarButtons(total: nat, limit: nat, offset: nat, totalPages: nat, cur: nat)
    ensures forall it :: it in Bar(total, limit, offset, totalPages, cur) ==>
              WellAimed(it, totalPages, cur) && Placed(it, totalPages, cur)
  {
    if totalPages > 1 {
      NumberedItems(StartPage(cur), EndPage(cur, totalPages), cur);
    }
  }

  /** Every numbered button of the bar is well aimed, and each is the first
      page, the last page or a page of the window. */
  lemma ViewButtons(total: nat, limit: nat, offset: nat)
    requires limit > 0
    ensures var totalPages, cur := TotalPages(total, limit), CurrentPage(offset, limit);
            forall it :: it in View(total, limit, offset) ==>
              WellAimed(it, totalPages, cur) && Placed(it, totalPages, cur)
  {
    BarButtons(total, limit, offset, TotalPages(total, limit), CurrentPage(offset, limit));
  }

  /** The summary, Previous and Next: with a single page only the result count
      is shown; otherwise the bar opens with the range of rows on this page
      and Previous, and closes with Next, each enabled when there is a page on
      that side. */
  lemma ViewEnds(total: nat, limit: nat, offset: nat)
    requires limit > 0
    ensures var v, totalPages, cur := View(total, limit, offset), TotalPages(total, limit), CurrentPage(offset, limit);
            && (totalPages <= 1 ==> v == [ResultCount(total)])
            && (totalPages > 1 ==>
                  && |v| >= 3
                  && v[0] == ShowingRange(offset + 1, Min(offset + limit, total), total)
                  && v[1].Previous? && (v[1].target.Some? <==> cur > 1)
                  && (v[1].target.Some? ==> v[1].target.value + 2 == cur)
                  && v[|v| - 1].Next? && (v[|v| - 1].target.Some? <==> cur < totalPages)
                  && (v[|v| - 1].target.Some? ==> v[|v| - 1].target.value == cur))
  {
  }

  /** Previous and Next appear nowhere else, with the targets the current
      page gives them. */
  lemma BarArrows(total: nat, limit: nat, offset: nat, totalPages: nat, cur: nat)
    ensures forall it :: it in Bar(total, limit, offset, totalPages, cur) ==>
              && (it.Previous? ==> it.target == if cur > 1 then Some(cur - 2) else None)
              && (it.Next? ==> it.target == if cur < totalPages then Some(cur) else None)
  {
    if totalPages > 1 {
      NumberedItems(StartPage(cur), EndPage(cur, totalPages), cur);
    }
  }

  /** Following a target of the bar requests the page it names: the next bar
      shows that page as the current one. */
  lemma TargetsLand(total: nat, limit: nat, offset: nat, it: PageItem)
    requires limit > 0
    requires it in View(total, limit, offset)
    ensures var cur := CurrentPage(offset, limit);
            && (it.PageButton? && it.target.Some? ==> PageAfterRequest(it.target.value, limit) == it.number)
            && (it.Previous? && it.target.Some? ==> PageAfterRequest(it.target.value, limit) == cur - 1)
            && (it.Next? && it.target.Some? ==> PageAfterRequest(it.target.value, limit) == cur + 1)
  {
    var totalPages, cur := TotalPages(total, limit), CurrentPage(offset, limit);
    BarButtons(total, limit, offset, totalPages, cur);
    BarArrows(total, limit, offset, totalPages, cur);
    if (it.Previous? || it.PageButton? || it.Next?) && it.target.Some? {
      PageOfOffset(it.target.value, limit);
    }
  }

  lemma ShownConcat(a: seq<PageItem>, b: seq<PageItem>)
    ensures Shown(a + b) == Shown(a) + Shown(b)
  {
    assert forall it :: it in a + b <==> it in a || it in b;
  }

  lemma ShownParts(head: seq<PageItem>, lead: seq<PageItem>, win: seq<PageItem>,
                   trail: seq<PageItem>, tail: seq<PageItem>)
    requires Shown(head) == {} && Shown(tail) == {}
    ensures Shown(head + lead + win + trail + tail) == Shown(lead) + Shown(win) + Shown(trail)
  {
    ShownConcat(head, lead);
    ShownConcat(head + lead, win);
    ShownConcat(head + lead + win, trail);
    ShownConcat(head + lead + win + trail, tail);
  }

  lemma ShownLeading(start: nat)
    ensures Shown(Leading(start)) == if start > 1 then {1} else {}
  {
    if start > 1 {
      ShownConcat([PageButton(1, Some(0))], if start > 2 then [Ellipsis] else []);
    }
  }

  lemma ShownTrailing(end: nat, totalPages: nat)
    requires totalPages >= 1
    ensures Shown(Trailing(end, totalPages)) == if end < totalPages then {totalPages} else {}
  {
    if end < totalPages {
      ShownConcat(if end < totalPages - 1 then [Ellipsis] else [], [PageButton(totalPages, Some(totalPages - 1))]);
    }
  }

  lemma ShownNumbered(lo: nat, hi: int, cur: nat)
    requires lo >= 1
    ensures forall p: nat :: p in Shown(Numbered(lo, hi, cur)) <==> lo <= p <= hi
  {
    NumberedItems(lo, hi, cur);
    forall p: nat | lo <= p <= hi
      ensures p in Shown(Numbered(lo, hi, cur))
    {
      assert Button(p, cur) in Numbered(lo, hi, cur);
    }
  }

  /** The pages with a button: the first page unless the window starts at
      it, the window itself, and the last page unless the window ends at it. */
  lemma BarShown(total: nat, limit: nat, offset: nat, totalPages: nat, cur: nat)
    requires totalPages > 1
    ensures var start, end := StartPage(cur), EndPage(cur, totalPages);
            forall p: nat :: p in Shown(Bar(total, limit, offset, totalPages, cur)) <==>
              (p == 1 && start > 1) || (start <= p <= end) || (p == totalPages && end < totalPages)
  {
    var start, end := StartPage(cur), EndPage(cur, totalPages);
    var head, tail := Head(total, limit, offset, cur), Tail(cur, totalPages);
    assert Shown(head) == {} && Shown(tail) == {};
    ShownParts(head, Leading(start), Numbered(start, end, cur), Trailing(end, totalPages), tail);
    ShownLeading(start);
    ShownTrailing(end, totalPages);
    ShownNumbered(start, end, cur);
  }

  /** With the current page among the pages, the bar offers the first page,
      the last page and the current one, and shows an ellipsis exactly when
      some page between them has no button. */
  lemma BarGaps(total: nat, limit: nat, offset: nat, totalPages: nat, cur: nat)
    requires 1 <= cur <= totalPages && totalPages > 1
    ensures var v := Bar(total, limit, offset, totalPages, cur);
            && 1 in Shown(v) && totalPages in Shown(v) && cur in Shown(v)
            && (forall p :: p in Shown(v) ==> 1 <= p <= totalPages)
            && (Ellipsis in v <==> exists p: nat :: 1 <= p <= totalPages && p !in Shown(v))
  {
    var v := Bar(total, limit, offset, totalPages, cur);
    var start, end := StartPage(cur), EndPage(cur, totalPages);
    BarShown(total, limit, offset, totalPages, cur);
    NumberedItems(start, end, cur);
    assert Ellipsis !in Numbered(start, end, cur);
    assert Ellipsis in v <==> start > 2 || end < totalPages - 1;
    if start > 2 {
      assert 2 !in Shown(v);
    } else if end < totalPages - 1 {
      assert totalPages - 1 !in Shown(v);
    }
  }

  /** For a page inside the table, the bar always offers the first page, the
      last page and the current one, and it shows an ellipsis exactly when
      some page between them has no button. */
  lemma EllipsisMarksGap(total: nat, limit: nat, offset: nat)
    requires limit > 0 && offset < total
    requires TotalPages(total, limit) > 1
    ensures var v, totalPages, cur := View(total, limit, offset), TotalPages(total, limit), CurrentPage(offset, limit);
            && 1 in Shown(v) && totalPages in Shown(v) && cur in Shown(v)
            && (forall p :: p in Shown(v) ==> 1 <= p <= totalPages)
            && (Ellipsis in v <==> exists p: nat :: 1 <= p <= totalPages && p !in Shown(v))
  {
    CurrentWithinTotal(total, limit, offset);
    BarGaps(total, limit, offset, TotalPages(total, limit), CurrentPage(offset, limit));
  }

  /** Read left to right, `row` names pages in increasing order after page
      `last`: each button is the page after the one before it, or an ellipsis
      stands between two buttons that skip at least one page. */
  predicate Steps(row: seq<PageItem>, last: nat)
    decreases |row|
  {
    || row == []
    || (row[0].PageButton? && row[0].number == last + 1 && Steps(row[1..], row[0].number))
    || (&& |row| >= 2 && row[0].Ellipsis? && row[1].PageButton? && row[1].number > last + 1
        && Steps(row[2..], row[1].number))
  }

  /** The window's first button can be split off the front. */
  lemma {:induction false} NumberedFirst(lo: nat, hi: int, cur: nat)
    requires 1 <= lo <= hi
    ensures Numbered(lo, hi, cur) == [Button(lo, cur)] + Numbered(lo + 1, hi, cur)
    decreases hi - lo
  {
    if hi > lo {
      NumberedFirst(lo, hi - 1, cur);
    }
  }

  /** The window counts up one page at a time into whatever follows it. */
  lemma {:induction false} StepsNumbered(lo: nat, hi: int, cur: nat, rest: seq<PageItem>)
    requires lo >= 1 && hi >= lo - 1
    requires Steps(rest, hi)
    ensures Steps(Numbered(lo, hi, cur) + rest, lo - 1)
    decreases hi - lo
  {
    if hi >= lo {
      var next := [Button(hi, cur)] + rest;
      assert next[1..] == rest;
      assert Steps(next, hi - 1);
      StepsNumbered(lo, hi - 1, cur, next);
      assert Numbered(lo, hi, cur) + rest == Numbered(lo, hi - 1, cur) + next;
    } else {
      assert Numbered(lo, hi, cur) + rest == rest;
    }
  }

  lemma StepsTrailing(end: nat, totalPages: nat)
    requires 1 <= end <= totalPages
    ensures Steps(Trailing(end, totalPages), end)
  {
    var t := Trailing(end, totalPages);
    if end < totalPages - 1 {
      assert t[2..] == [];
    } else if end < totalPages {
      assert t[1..] == [];
    }
  }

  /** The buttons and ellipses between the Previous and Next controls. */
  function Row(start: nat, end: nat, totalPages: nat, cur: nat): seq<PageItem>
    requires start >= 1 && totalPages >= 1
  {
    Leading(start) + Numbered(start, end, cur) + Trailing(end, totalPages)
  }

  lemma Regroup<T>(a: seq<T>, b: seq<T>, c: seq<T>, d: seq<T>, e: seq<T>)
    ensures a + b + c + d + e == a + (b + c + d) + e
  {
  }

  lemma StepsButton(x: PageItem, rest: seq<PageItem>, last: nat)
    requires x.PageButton? && x.number == last + 1 && Steps(rest, x.number)
    ensures Steps([x] + rest, last)
  {
    assert ([x] + rest)[1..] == rest;
  }

  lemma StepsGap(x: PageItem, rest: seq<PageItem>, last: nat)
    requires x.PageButton? && x.number > last + 1 && Steps(rest, x.number)
    ensures Steps([Ellipsis, x] + rest, last)
  {
    assert ([Ellipsis, x] + rest)[2..] == rest;
  }

  /** The window and what follows it, with the window's first button split off. */
  lemma WindowSteps(start: nat, end: nat, totalPages: nat, cur: nat)
    requires 1 <= start <= end <= totalPages
    ensures Numbered(start, end, cur) + Trailing(end, totalPages) ==
              [Button(start, cur)] + (Numbered(start + 1, end, cur) + Trailing(end, totalPages))
    ensures Steps(Numbered(start + 1, end, cur) + Trailing(end, totalPages), start)
  {
    StepsTrailing(end, totalPages);
    NumberedFirst(start, end, cur);
    StepsNumbered(start + 1, end, cur, Trailing(end, totalPages));
  }

  /** The first-page button and ellipsis lead into a window starting at `b`. */
  lemma LeadingSteps(b: PageItem, rest: seq<PageItem>)
    requires b.PageButton? && b.number >= 1 && Steps(rest, b.number)
    ensures Steps(Leading(b.number) + ([b] + rest), 0)
  {
    var start := b.number;
    if start > 2 {
      StepsGap(b, rest, 1);
      StepsButton(PageButton(1, Some(0)), [Ellipsis, b] + rest, 0);
      assert Leading(start) + ([b] + rest) == [PageButton(1, Some(0))] + ([Ellipsis, b] + rest);
    } else if start == 2 {
      StepsButton(b, rest, 1);
      StepsButton(PageButton(1, Some(0)), [b] + rest, 0);
      assert Leading(start) == [PageButton(1, Some(0))];
    } else {
      StepsButton(b, rest, 0);
      assert Leading(start) + ([b] + rest) == [b] + rest;
    }
  }

  lemma RowSteps(start: nat, end: nat, totalPages: nat, cur: nat)
    requires 1 <= start <= end <= totalPages
    ensures Steps(Row(start, end, totalPages, cur), 0)
  {
    var after := Numbered(start + 1, end, cur) + Trailing(end, totalPages);
    WindowSteps(start, end, totalPages, cur);
    var b := Button(start, cur);
    assert Row(start, end, totalPages, cur) == Leading(start) + ([b] + after);
    LeadingSteps(b, after);
  }

  lemma RowEnds(start: nat, end: nat, totalPages: nat, cur: nat)
    requires 1 <= start <= end <= totalPages
    ensures var row := Row(start, end, totalPages, cur);
            && row[0].PageButton? && row[0].number == 1
            && row[|row| - 1].PageButton? && row[|row| - 1].number == totalPages
  {
    var n, t := Numbered(start, end, cur), Trailing(end, totalPages);
    var row := Row(start, end, totalPages, cur);
    NumberedItems(start, end, cur);
    assert Button(start, cur) in n && Button(end, cur) in n;
    if start > 1 {
      assert row[0] == Leading(start)[0];
    } else {
      NumberedFirst(start, end, cur);
      assert row[0] == n[0];
    }
    if end < totalPages {
      assert row[|row| - 1] == t[|t| - 1];
    } else {
      assert row[|row| - 1] == n[|n| - 1] == Button(end, cur);
    }
  }

  /** The buttons and ellipses of the bar, between the Previous and Next
      controls, start at page 1, end at the last page and read as `Steps`
      from page 0: page numbers strictly increase, and an ellipsis stands
      between two neighbouring buttons exactly when they skip a page. The
      first page is followed by an ellipsis exactly when the window starts
      after page 2, the last page is preceded by one exactly when the window
      ends before the page before it. */
  lemma BarLayout(total: nat, limit: nat, offset: nat, totalPages: nat, cur: nat)
    requires 1 <= cur <= totalPages && totalPages > 1
    ensures var start, end := StartPage(cur), EndPage(cur, totalPages);
            var row := Row(start, end, totalPages, cur);
            && Bar(total, limit, offset, totalPages, cur) == Head(total, limit, offset, cur) + row + Tail(cur, totalPages)
            && Steps(row, 0)
            && row[0].PageButton? && row[0].number == 1
            && row[|row| - 1].PageButton? && row[|row| - 1].number == totalPages
            && (Ellipsis in Leading(start) <==> start > 2)
            && (Ellipsis in Trailing(end, totalPages) <==> end < totalPages - 1)
  {
    var start, end := StartPage(cur), EndPage(cur, totalPages);
    Regroup(Head(total, limit, offset, cur), Leading(start), Numbered(start, end, cur),
            Trailing(end, totalPages), Tail(cur, totalPages));
    RowSteps(start, end, totalPages, cur);
    RowEnds(start, end, totalPages, cur);
  }

  /** The range in the summary is the ranks of the page's first and last
      rows, for a page holding `min(limit, total - offset)` rows. */
  lemma RangeMatchesRanks(total: nat, limit: nat, offset: nat, rows: nat)
    requires limit > 0 && offset < total
    requires rows == Min(limit, total - offset)
    ensures rows >= 1
    ensures var r := ShowingRange(offset + 1, Min(offset + limit, total), total);
            r.first == Rank(offset, 0) && r.last == Rank(offset, rows - 1)
  {
  }
}
