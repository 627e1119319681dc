/** The render step of the pagination widget: the page count, the sliding
    window of page numbers around the current page, and the numbered buttons
    emitted for it (pagination.js, `render`). */
module Window {
  import opened PageState

  /** Pages shown on each side of the current one. */
  const Radius := 4
  /** Number of numbered buttons shown once there are enough pages. */
  const Width := 2 * Radius + 1

  /** The first and last page of a window, both inclusive. */
  datatype Span = Span(first: int, last: int)

  /** `r` is the ceiling of `amount / limit`: the fewest pages of `limit`
      items that hold `amount` items. */
  ghost predicate IsCeiling(r: int, amount: nat, limit: int)
    requires limit > 0
  {
    (r - 1) * limit < amount <= r * limit
  }

  /** The number of pages, `Math.ceil(amount / limit)`, in integer arithmetic. */
  function PageCount(amount: nat, limit: int): (r: nat)
    requires limit > 0
    ensures IsCeiling(r, amount, limit)
    ensures r == 0 <==> amount == 0
  {
    var n := amount + limit - 1;
    var q := n / limit;
    assert n == q * limit + n % limit;
    assert (q - 1) * limit == q * limit - limit;
    q
  }

  /** Multiplying by a positive page size keeps the order of page numbers. */
  lemma MulMonotone(a: int, b: int, k: int)
    requires a <= b && k > 0
    ensures a * k <= b * k
  {
  }

  /** The ceiling is unique: any page count that holds the items, and would
      not hold them with one page fewer, is `PageCount`. */
  lemma PageCountIsTheCeiling(amount: nat, limit: int, n: int)
    requires limit > 0
    ensures IsCeiling(n, amount, limit) <==> n == PageCount(amount, limit)
  {
    var r := PageCount(amount, limit);
    if IsCeiling(n, amount, limit) && n != r {
      if n < r {
        MulMonotone(n, r - 1, limit);
      } else {
        MulMonotone(r, n - 1, limit);
      }
    }
  }

  /** The consecutive pages `lo`, `lo + 1`, ..., `hi`; empty when `hi < lo`. */
  function Range(lo: int, hi: int): (r: seq<int>)
    ensures |r| == if hi < lo then 0 else hi - lo + 1
    ensures forall k :: 0 <= k < |r| ==> r[k] == lo + k
    decreases hi - lo
  {
    if hi < lo then [] else [lo] + Range(lo + 1, hi)
  }

  /** The window's bounds, computed as `render` does: the candidate
      `[cur - 4, cur + 4]` is anchored at page 1 when it starts below 1, then
      anchored at the last page when it ends past it, and finally replaced by
      every page when there are fewer than nine. */
  function Bounds(cur: int, pageCount: nat): Span {
    var candidate := Span(cur - Radius, cur + Radius);
    var anchoredLeft :=
      if candidate.first < 1 then Span(1, 1 + (Width - 1)) else candidate;
    var anchoredRight :=
      if anchoredLeft.last > pageCount then Span(pageCount - (Width - 1), pageCount) else anchoredLeft;
    if pageCount < Width then Span(1, pageCount) else anchoredRight
  }

  /** Where a full window starts: the candidate start `cur - 4`, moved right
      to page 1 or left so that the window ends at the last page. */
  function WindowStart(cur: int, pageCount: nat): int {
    Max(1, Min(cur - Radius, pageCount - (Width - 1)))
  }

  /** The page numbers that get a button, in emission order. */
  function PageWindow(cur: int, pageCount: nat): (w: seq<int>)
    // always ascending pages that exist
    ensures forall i, j :: 0 <= i < j < |w| ==> w[i] < w[j]
    ensures forall k :: 0 <= k < |w| ==> 1 <= w[k] <= pageCount
    // with enough pages: exactly nine consecutive pages, holding the current one
    ensures pageCount >= Width ==>
              |w| == Width && forall k :: 0 <= k < |w| ==> w[k] == w[0] + k
    // with enough pages: centred on the current page, shifted only at the edges
    ensures pageCount >= Width ==>
              w == Range(WindowStart(cur, pageCount), WindowStart(cur, pageCount) + Width - 1)
    ensures Radius < cur <= pageCount - Radius ==> w == Range(cur - Radius, cur + Radius)
    // any existing current page is in the window
    ensures 1 <= cur <= pageCount ==> cur in w
    // with fewer pages: all of them, whatever the current page
    ensures pageCount < Width ==>
              |w| == pageCount && forall k :: 0 <= k < |w| ==> w[k] == k + 1
  {
    var b := Bounds(cur, pageCount);
    var w := Range(b.first, b.last);
    assert 1 <= cur <= pageCount ==> w[cur - b.first] == cur;
    w
  }

  /** One button per page of `window`; the one equal to `cur` is highlighted. */
  function Buttons(window: seq<int>, cur: int): seq<Button> {
    seq(|window|, k requires 0 <= k < |window| => Button(window[k], window[k] == cur))
  }

  /** The `for` loop of `render`: walks the pages from `first` to `last`
      inclusive and emits a button for each. */
  method EmitButtons(span: Span, cur: int) returns (buttons: seq<Button>)
    ensures buttons == Buttons(Range(span.first, span.last), cur)
  {
    buttons := [];
    var i := span.first;
    while i <= span.last
      invariant span.first <= i && (i <= span.last + 1 || i == span.first)
      invariant |buttons| == i - span.first
      invariant forall k :: 0 <= k < |buttons| ==> buttons[k] == Button(span.first + k, span.first + k == cur)
    {
      buttons := buttons + [Button(i, i == cur)];
      i := i + 1;
    }
  }

  /** `render`: recomputes and stores the page count, then replaces the
      numbered buttons with those of the current window. */
  function Render(s: State): (r: State)
    requires s.config.limit > 0
    ensures r.config == s.config && r.currentPage == s.currentPage
    ensures r.buttons == Buttons(PageWindow(s.currentPage, r.pageCount), s.currentPage)
    ensures IsCeiling(r.pageCount, s.config.amount, s.config.limit)
    ensures s.config.amount == 0 ==> r.buttons == []
    ensures forall i, j :: 0 <= i < j < |r.buttons| ==> r.buttons[i].page < r.buttons[j].page
    ensures forall k :: 0 <= k < |r.buttons| ==> 1 <= r.buttons[k].page <= r.pageCount
    ensures forall k :: 0 <= k < |r.buttons| ==> (r.buttons[k].active <==> r.buttons[k].page == s.currentPage)
    ensures 1 <= s.currentPage <= r.pageCount ==>
              exists k :: 0 <= k < |r.buttons| && r.buttons[k].active
  {
    var pageCount := PageCount(s.config.amount, s.config.limit);
    var w := PageWindow(s.currentPage, pageCount);
    var buttons := Buttons(w, s.currentPage);
    assert forall k :: 0 <= k < |w| ==> buttons[k].page == w[k];
    assert 1 <= s.currentPage <= pageCount ==>
             exists k :: 0 <= k < |w| && w[k] == s.currentPage && buttons[k].active;
    s.(pageCount := pageCount, buttons := buttons)
  }

  /** At most one button is highlighted after a render. */
  lemma AtMostOneActive(s: State, i: int, j: int)
    requires s.config.limit > 0
    requires 0 <= i < |Render(s).buttons| && 0 <= j < |Render(s).buttons|
    requires Render(s).buttons[i].active && Render(s).buttons[j].active
    ensures i == j
  {
  }

  /** Rendering twice with unchanged inputs shows the same window and the
      same highlighted page. */
  lemma RenderIdempotent(s: State)
    requires s.config.limit > 0
    ensures Render(Render(s)) == Render(s)
  {
  }

  /** Worked windows: ten pages with the current page 5 shows 1..9, with the
      current page 10 shows 2..10; three pages show 1..3; no pages show none. */
  lemma WindowExamples()
    ensures PageWindow(5, 10) == Range(1, 9)
    ensures PageWindow(10, 10) == Range(2, 10)
    ensures PageWindow(1, 3) == [1, 2, 3]
    ensures PageWindow(7, 0) == []
    ensures PageCount(95, 10) == 10 && PageCount(25, 10) == 3 && PageCount(0, 10) == 0
  {
  }
}
