/** Page changes: `setCurrentPage` with its self-correcting clamp and the
    `onChange` notification, and the click dispatcher that maps each control
    to the page it asks for (pagination.js, `bindEvents` and `setCurrentPage`). */
module Navigation {
  import opened PageState

  /** A click inside the widget: on a numbered button carrying `page`, on one
      of the four shortcut buttons, or elsewhere (the surrounding container
      or spans, which carry neither a page nor a shortcut class). */
  datatype Control = Numbered(page: int) | First | Prev | Next | Last | Elsewhere

  /** One activation of `setCurrentPage`: either it calls itself again with a
      corrected target, or it stores the page and notifies. */
  datatype Activation = Store | Recurse(target: int)

  /** A page number that may be missing. */
  datatype Option = None | Some(value: int)

  /** The state after a page change, and the arguments `onChange` was called with. */
  datatype PageChange = PageChange(state: State, fired: seq<int>)

  /** What a click does: nothing, a completed page change, or a
      `setCurrentPage` that keeps calling itself and never returns. */
  datatype Outcome = Ignored | Navigated(nav: PageChange) | Diverges

  /** The reference clamp: `page` forced into `[1, pageCount]`. */
  function Clamp(page: int, pageCount: int): int {
    Max(1, Min(page, pageCount))
  }

  /** The decision one activation of `setCurrentPage` takes for `page`. */
  function Activate(page: int, pageCount: int): Activation {
    if page < 1 then Recurse(1)
    else if page > pageCount then Recurse(pageCount)
    else Store
  }

  /** How many more self-calls `setCurrentPage` makes before it stores, when
      there is at least one page. */
  function Rank(page: int, pageCount: int): nat {
    if page < 1 then 2 else if page > pageCount then 1 else 0
  }

  /** `setCurrentPage`, following the source's recursion: each activation
      either re-targets (below 1 to 1, above the page count to the page count)
      or stores the page and fires `onChange` when one was supplied. With at
      least one page the recursion ends, and the whole call amounts to a clamp
      plus exactly one notification; nothing else in the state changes and
      the buttons are not re-rendered. */
  function SetCurrentPage(s: State, page: int): (r: PageChange)
    requires s.pageCount >= 1
    ensures r.state == s.(currentPage := Clamp(page, s.pageCount))
    ensures 1 <= r.state.currentPage <= s.pageCount
    ensures 1 <= page <= s.pageCount ==> r.state.currentPage == page
    ensures r.fired == if s.config.hasOnChange then [r.state.currentPage] else []
    decreases Rank(page, s.pageCount)
  {
    match Activate(page, s.pageCount)
    case Recurse(target) => SetCurrentPage(s, target)
    case Store => PageChange(s.(currentPage := page), if s.config.hasOnChange then [page] else [])
  }

  /** `setCurrentPage` stores within `n` more self-calls. */
  predicate SettlesWithin(page: int, pageCount: int, n: nat)
    decreases n
  {
    match Activate(page, pageCount)
    case Store => true
    case Recurse(target) => n > 0 && SettlesWithin(target, pageCount, n - 1)
  }

  /** With at least one page, two self-corrections are always enough. */
  lemma CorrectionSettlesWithinTwo(page: int, pageCount: int)
    requires pageCount >= 1
    ensures SettlesWithin(page, pageCount, 2)
  {
  }

  /** With no pages, 1 is corrected to 0 and 0 back to 1. */
  lemma EmptyCorrectionAlternates()
    ensures Activate(1, 0) == Recurse(0) && Activate(0, 0) == Recurse(1)
  {
  }

  /** With no pages, `setCurrentPage` never stores, however many self-calls
      it is allowed. */
  lemma {:induction false} EmptyCorrectionNeverSettles(page: int, n: nat)
    ensures !SettlesWithin(page, 0, n)
    decreases n
  {
    var target := if page < 1 then 1 else 0;
    assert Activate(page, 0) == Recurse(target);
    if n > 0 {
      EmptyCorrectionNeverSettles(target, n - 1);
    }
  }

  /** The clicks that reach `setCurrentPage`. A numbered button's page is
      tested for truthiness first, so page 0 does not. */
  predicate Navigates(c: Control) {
    c != Elsewhere && c != Numbered(0)
  }

  /** The page a click hands to `setCurrentPage`, if any. */
  function Requested(s: State, c: Control): (t: Option)
    ensures t.Some? <==> Navigates(c)
  {
    match c
    case Numbered(p) => if p != 0 then Some(p) else None
    case First => Some(1)
    case Prev => Some(s.currentPage - 1)
    case Next => Some(s.currentPage + 1)
    case Last => Some(s.pageCount)
    case Elsewhere => None
  }

  /** The click handler installed by `bindEvents`. */
  function Dispatch(s: State, c: Control): (r: Outcome)
    ensures !Navigates(c) ==> r == Ignored
    ensures s.pageCount == 0 && Navigates(c) ==> r == Diverges
    ensures s.pageCount >= 1 && Navigates(c) ==> r.Navigated?
    ensures r.Navigated? ==>
              && r.nav.state == s.(currentPage := r.nav.state.currentPage)
              && 1 <= r.nav.state.currentPage <= s.pageCount
              && r.nav.fired == (if s.config.hasOnChange then [r.nav.state.currentPage] else [])
    ensures r.Navigated? && c.Numbered? ==> r.nav.state.currentPage == Clamp(c.page, s.pageCount)
    ensures r.Navigated? && c == First ==> r.nav.state.currentPage == 1
    ensures r.Navigated? && c == Prev ==> r.nav.state.currentPage == Clamp(s.currentPage - 1, s.pageCount)
    ensures r.Navigated? && c == Next ==> r.nav.state.currentPage == Clamp(s.currentPage + 1, s.pageCount)
    ensures r.Navigated? && c == Last ==> r.nav.state.currentPage == s.pageCount
  {
    match Requested(s, c)
    case None => Ignored
    case Some(page) =>
      if s.pageCount == 0 then Diverges else Navigated(SetCurrentPage(s, page))
  }

  /** `Dispatch` reports divergence exactly for the clicks whose
      `setCurrentPage` call never stores. */
  lemma DispatchDivergesExactlyWhenUnsettled(s: State, c: Control)
    requires Navigates(c)
    ensures Dispatch(s, c).Diverges? ==>
              forall n: nat :: !SettlesWithin(Requested(s, c).value, s.pageCount, n)
    ensures (forall n: nat :: !SettlesWithin(Requested(s, c).value, s.pageCount, n)) ==>
              Dispatch(s, c).Diverges?
  {
    var page := Requested(s, c).value;
    if s.pageCount == 0 {
      forall n: nat ensures !SettlesWithin(page, 0, n) {
        EmptyCorrectionNeverSettles(page, n);
      }
    } else {
      CorrectionSettlesWithinTwo(page, s.pageCount);
      assert SettlesWithin(page, s.pageCount, 2);
    }
  }

  /** "Previous" on the first page stays there but still notifies. */
  lemma PrevOnFirstPageStays(s: State)
    requires s.pageCount >= 1 && s.currentPage == 1
    ensures Dispatch(s, Prev) == Navigated(PageChange(s, if s.config.hasOnChange then [1] else []))
  {
  }

  /** "Next" on the last page stays there but still notifies. */
  lemma NextOnLastPageStays(s: State)
    requires s.pageCount >= 1 && s.currentPage == s.pageCount
    ensures Dispatch(s, Next) == Navigated(PageChange(s, if s.config.hasOnChange then [s.pageCount] else []))
  {
  }

  /** Clicking a button the render emitted always hands its page over
      unchanged: rendered pages are never 0 and never out of range. */
  lemma RenderedButtonGoesToItsPage(s: State, k: int)
    requires 0 <= k < |s.buttons|
    requires forall i :: 0 <= i < |s.buttons| ==> 1 <= s.buttons[i].page <= s.pageCount
    ensures Dispatch(s, Numbered(s.buttons[k].page)).Navigated?
    ensures Dispatch(s, Numbered(s.buttons[k].page)).nav.state.currentPage == s.buttons[k].page
  {
  }
}
