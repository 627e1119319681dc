/** The widget as a whole: `boot` (merge, render, bind), the click handler
    with the empty-result guard, and a run of clicks on one widget instance
    (pagination.js, `boot`, `bindEvents`, `setCurrentPage`). */
module Widget {
  import opened PageState
  import opened Window
  import opened Navigation

  /** `boot`: merges the defaults under the settings, starts at the merged
      current page, and renders. */
  function Boot(settings: Settings): (r: State)
    requires ValidSettings(settings)
    ensures r.config == Merge(settings)
    ensures r.currentPage == r.config.currentPage
    ensures IsCeiling(r.pageCount, settings.amount, r.config.limit)
    ensures r.buttons == Buttons(PageWindow(r.currentPage, r.pageCount), r.currentPage)
  {
    var config := Merge(settings);
    Render(State(config, config.currentPage, 0, []))
  }

  /** Booting without a page size or current page gives ten items per page,
      page 1 highlighted, and a window starting at page 1. */
  lemma BootWithDefaults(amount: nat, hasOnChange: bool)
    ensures var s := Boot(Settings(amount, Absent, Absent, hasOnChange));
            && s.config.limit == 10 && s.currentPage == 1
            && s.pageCount == PageCount(amount, 10)
            && (amount > 0 ==> |s.buttons| > 0 && s.buttons[0] == Button(1, true))
  {
  }

  /** The widget invariant: the current page lies in `[1, max(pageCount, 1)]`. */
  predicate InRange(s: State) {
    1 <= s.currentPage <= Max(s.pageCount, 1)
  }

  /** The click handler with the page-count guard: with no pages every click
      is a no-op instead of an endless self-correction. */
  function DispatchGuarded(s: State, c: Control): (r: PageChange)
    ensures r.state == s.(currentPage := r.state.currentPage)
    ensures !Navigates(c) || s.pageCount == 0 ==> r == PageChange(s, [])
    ensures Navigates(c) && s.pageCount >= 1 ==>
              && r.state.currentPage == Clamp(Requested(s, c).value, s.pageCount)
              && r.fired == (if s.config.hasOnChange then [r.state.currentPage] else [])
    ensures InRange(s) ==> InRange(r.state)
  {
    var outcome := Dispatch(s, c);
    if s.pageCount >= 1 && outcome.Navigated? then outcome.nav else PageChange(s, [])
  }

  /** With at least one page, the guard changes nothing: it agrees with the
      unguarded handler on every click that returns. */
  lemma GuardAgreesWhenPagesExist(s: State, c: Control)
    requires s.pageCount >= 1
    ensures Dispatch(s, c).Navigated? ==> DispatchGuarded(s, c) == Dispatch(s, c).nav
    ensures Dispatch(s, c).Ignored? ==> DispatchGuarded(s, c) == PageChange(s, [])
    ensures !Dispatch(s, c).Diverges?
  {
  }

  /** The number of clicks in `clicks` that reach `setCurrentPage`. */
  function NavigationCount(clicks: seq<Control>): nat {
    if clicks == [] then 0
    else (if Navigates(clicks[0]) then 1 else 0) + NavigationCount(clicks[1..])
  }

  /** A sequence of clicks on one widget instance, with the guarded handler:
      the final state and every `onChange` argument in order. Only the
      current page ever changes, one notification is fired per navigating
      click, and every notified page exists. */
  function Run(s: State, clicks: seq<Control>): (r: PageChange)
    ensures r.state == s.(currentPage := r.state.currentPage)
    ensures |r.fired| == if s.config.hasOnChange && s.pageCount >= 1 then NavigationCount(clicks) else 0
    ensures forall k :: 0 <= k < |r.fired| ==> 1 <= r.fired[k] <= s.pageCount
    ensures |r.fired| > 0 ==> r.fired[|r.fired| - 1] == r.state.currentPage
    ensures NavigationCount(clicks) == 0 || s.pageCount == 0 ==> r.state == s
    ensures NavigationCount(clicks) > 0 && s.pageCount >= 1 ==> 1 <= r.state.currentPage <= s.pageCount
    ensures InRange(s) ==> InRange(r.state)
    decreases |clicks|
  {
    if clicks == [] then PageChange(s, [])
    else
      var step := DispatchGuarded(s, clicks[0]);
      var rest := Run(step.state, clicks[1..]);
      PageChange(rest.state, step.fired + rest.fired)
  }

  /** Clicking "last" on page 3 of ten pages notifies exactly once, with 10. */
  lemma LastFromPageThree()
    ensures var s := Boot(Settings(95, Given(10), Given(3), true));
            && s.pageCount == 10
            && DispatchGuarded(s, Last) == PageChange(s.(currentPage := 10), [10])
  {
  }
}
