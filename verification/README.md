# Pagination widget model

A Dafny model of the pagination widget of a GitHub user-search page. The widget
is booted with a total item count (`amount`), a page size (`limit`), a current
page and an optional `onChange` callback. It computes the page count, renders
a sliding window of at most nine numbered page buttons around the current page
(with the current one highlighted), and turns clicks on the numbered buttons
and on the first / previous / next / last shortcuts into `setCurrentPage`
calls. `setCurrentPage` clamps its target by calling itself with a corrected
page, stores the result and notifies `onChange` once; it does not re-render.

The model is functional: the widget's state bag is an immutable `State`
record and every operation returns a new one.

- `PageState` (`state.dfy`): settings, the merge over the defaults
  (`limit` 10, `currentPage` 1), the configuration, the state record and the
  button record.
- `Window` (`window.dfy`): the page count as an integer ceiling, the window
  bounds with the three clamps in the source's order (anchor left, anchor
  right, show every page below nine pages), the button emission loop and
  `render`.
- `Navigation` (`navigation.dfy`): `setCurrentPage` written as the source's
  self-recursion, with a termination measure that only exists when there is
  at least one page; the click datatype; the click handler, whose outcome is
  "ignored", "navigated" or "diverges".
- `Widget` (`widget.dfy`): `boot`, the click handler guarded against an empty
  result set, and runs of several clicks on one widget instance.

One would expect the current page to stay in `[1, max(pageCount, 1)]`. The
code does not establish this: `boot` stores the caller's `currentPage`
unchecked (pagination.js:46). The model follows the code.
`InRange` is proved to be preserved by every click, not to hold after `boot`.

## Model

| member | source | states |
|---|---|---|
| PageState.Merge | pagination.js:11-36 | The caller's `limit` and `currentPage` win where given; otherwise they are 10 and 1. `amount` and the callback pass through. The merged page size is positive. |
| PageState.MergeKeepsCallerValues | pagination.js:33-36 | Merging settings that spell out every field gives back exactly that configuration, so defaults never override a caller value. |
| Window.PageCount | pagination.js:88-91 | The page count is the ceiling of `amount / limit`: `(r-1)*limit < amount <= r*limit`. It is 0 exactly when `amount` is 0. |
| Window.PageCountIsTheCeiling | pagination.js:88-91 | Any `n` with `(n-1)*limit < amount <= n*limit` equals the computed page count, and conversely. |
| Window.Range | pagination.js:136 | The pages from `start` to `end` inclusive: `end - start + 1` consecutive integers starting at `start`, or none when `end < start`. |
| Window.PageWindow | pagination.js:100-136 | The window is strictly ascending and every page lies in `[1, pageCount]`. With at least nine pages it is exactly nine consecutive pages, whatever the current page, starting at `max(1, min(cur - 4, pageCount - 8))`: centred on the current page as `cur-4..cur+4` and shifted only at the edges. An existing current page is always in it. With fewer than nine pages it is exactly `1..pageCount`, and it is empty when there are none. |
| Window.EmitButtons | pagination.js:136-150 | The `for` loop emits one button per page from `start` to `end`, in order, and highlights exactly the one equal to the current page. |
| Window.Render | pagination.js:87-154 | `render` stores the ceiling page count and leaves the configuration and current page alone. It emits one button per page of the window around the current page: nine with at least nine pages, all of `1..pageCount` below that. Its buttons are ascending, in range and none when `amount` is 0. A button is active exactly when its page is the current page, and some button is active whenever the current page exists. |
| Window.AtMostOneActive | pagination.js:143-145 | After a render, two active buttons are the same button. |
| Window.RenderIdempotent | pagination.js:87-154 | Rendering again with unchanged inputs gives the same page count, window and highlight. |
| Window.WindowExamples | pagination.js:100-133 | Ten pages with current page 5 show 1..9. With current page 10 they show 2..10. Three pages show 1..3 and no pages show nothing. 95 items of 10 make 10 pages and 25 make 3. |
| Navigation.SetCurrentPage | pagination.js:189-205 | With at least one page the self-correction terminates. The result equals `max(1, min(page, pageCount))`, and in-range pages are kept as given. Only the current page changes, so nothing is re-rendered. `onChange` fires exactly once, with the stored page, when a callback was supplied. |
| Navigation.CorrectionSettlesWithinTwo | pagination.js:191-196 | With at least one page, `setCurrentPage` stores after at most two self-calls. |
| Navigation.EmptyCorrectionAlternates | pagination.js:191-196 | With no pages, target 1 is corrected to 0 and 0 back to 1. |
| Navigation.EmptyCorrectionNeverSettles | pagination.js:191-196 | With no pages, no number of self-calls ever reaches the storing branch, for any starting target. |
| Navigation.Requested | pagination.js:162-181 | A click reaches `setCurrentPage` exactly when it is a shortcut or a numbered button with a non-zero page. |
| Navigation.Dispatch | pagination.js:162-205 | Clicks elsewhere, or on page 0, are ignored. With no pages, every other click diverges. Otherwise a numbered button goes to its clamped page, first to 1, prev and next to the clamped neighbour, and last to the page count. Each navigation changes only the current page and notifies once. |
| Navigation.DispatchDivergesExactlyWhenUnsettled | pagination.js:167-196 | A navigating click diverges exactly when its `setCurrentPage` chain never stores. |
| Navigation.PrevOnFirstPageStays | pagination.js:173-205 | "Previous" on page 1 leaves the state unchanged but still notifies with 1. |
| Navigation.NextOnLastPageStays | pagination.js:170-205 | "Next" on the last page leaves the state unchanged but still notifies with the page count. |
| Navigation.RenderedButtonGoesToItsPage | pagination.js:148-168 | A click on a button whose page lies in `[1, pageCount]`, as every rendered button's does, navigates to exactly that page. |
| Widget.Boot | pagination.js:31-51 | `boot` uses the merged configuration and starts at its current page. Its page count is the ceiling of `amount / limit`, and its buttons are those of the window around the current page. |
| Widget.BootWithDefaults | pagination.js:11-49 | Without a page size or current page, `boot` uses 10 items per page and page 1. When there is any item, the first button is page 1 and it is highlighted. |
| Widget.DispatchGuarded | pagination.js:189-196 | The corrected handler treats a click as a no-op when there are no pages. Otherwise it clamps and notifies like `setCurrentPage`. It changes only the current page and preserves `1 <= currentPage <= max(pageCount, 1)`. |
| Widget.GuardAgreesWhenPagesExist | pagination.js:162-205 | With at least one page, the guarded handler returns what the source's handler returns, and the source's handler never diverges. |
| Widget.Run | pagination.js:160-205 | A run of clicks changes only the current page and fires one `onChange` per navigating click, each with an existing page. The last notification names the final page. Without navigating clicks, or without pages, the state is untouched. The range invariant is preserved. |
| Widget.LastFromPageThree | pagination.js:179-205 | 95 items of 10 on page 3: "last" moves to page 10 and notifies exactly once, with 10. |

## Findings

| source | as written | input that shows it | evidently intended | confidence | as-written member | corrected member |
|---|---|---|---|---|---|---|
| pagination.js:191-196 | With a page count of 0, `setCurrentPage(1)` calls `setCurrentPage(0)` and `setCurrentPage(0)` calls `setCurrentPage(1)`, so the recursion never ends: a RangeError in engines without proper tail calls, an endless loop (a frozen tab) in those with them | a search with no results (`amount` 0, page count 0), then a click on "next", "prev", "first" or "last" | with no pages, a click changes nothing and fires no callback | high; not executed | Navigation.EmptyCorrectionNeverSettles | Widget.DispatchGuarded |

`Navigation.Dispatch` models the handler as written and returns `Diverges`
for these clicks. `Navigation.DispatchDivergesExactlyWhenUnsettled` ties that
outcome to the never-ending correction chain. `Widget.DispatchGuarded` is the
corrected handler, and `Widget.Run` is built on it.

## Left out

- DOM construction and mutation (`prepare`, `createElement`, `innerHTML`,
  `querySelector`, `classList`, `state.root`, `state.el`, `state.pageList`)
  is not modelled. The rendered numbered buttons are a sequence of
  (page, active) pairs; the shortcut buttons are constant markup.
- Event listening and bubbling are replaced by the explicit `Control`
  datatype. A click on the container or its spans is `Elsewhere`.
- The mount point (`selector`) is not modelled, because it only selects where
  markup goes. Re-booting is a fresh `Boot` that ignores the previous state.
- `main.js` is not part of this model. It holds the network request, JSON
  parsing, result-list rendering and the controller's equality guard around
  `onChange`.
- The `onChange` callback is represented only by whether it was supplied and
  by the list of pages it was called with. Its second argument (the state
  object) and its effects are not modelled.
- `amount` is a non-negative integer and `limit` a positive integer.
  A missing `amount` (NaN pages), a zero `limit` (infinite pages) and a
  negative `limit` are floating-point cases left out.
- Window.PageCount: `Math.ceil(amount / limit)` on doubles is modelled as the
  exact integer ceiling. The two agree while the quotient is exactly
  representable, and the model does not track rounding beyond that.
- Navigation.Dispatch: the endless recursion with no pages diverges: a
  RangeError in engines without proper tail calls, an endless loop in those
  with them (the file is strict mode and the self-calls are `return` tail
  calls). The model reports both as the `Diverges` outcome and does not model
  the exception or the hang.
- A setting given explicitly as `undefined` overrides the default in a
  JavaScript object spread. The model only distinguishes an absent setting
  from a given number.
- JavaScript number width is not modelled: page arithmetic (`currentPage ± 1`,
  `± 4`, `± 8`) is exact in the model, as it is in the source for page numbers
  below 2^53.
