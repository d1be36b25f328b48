# Header synchroniser and tag filter of the site script, in Dafny

This project models the two stateful components of `assets/js/app.js`, the
browser script of a content site:

- **The header state synchroniser.** Four page-wide flags (`headerMode`,
  `dropdownMode`, `isMegaMenuOpen`, `isLanguageDropdownOpen`) and the header's
  `is-open`/`is-hovering` classes. They are driven by hover events, by document
  clicks, by the delayed-click callback and by mutation batches from the
  mega-menu (`style` records) and the language dropdown (`class` records).
  Module `Header` (`header.dfy`) defines each handler as a pure transition on
  `HeaderState` and proves facts about those transitions. The class
  `Header.HeaderSynchronizer` holds the same state in fields, and each of its
  methods is proved to perform its transition. The main result is that from
  page load, whatever events arrive, `headerMode` holds exactly when the
  header has `is-open`, and `is-open` is only present while an overlay is open.
- **The tag filter.** Module `TagFilters` (`tag_filter.dfy`) models each filter
  root as its elements (`data-text`, `tags__btn`, `active`) and its optional
  clear control (`d-none`). The page-wide state is a `Page` object that all
  instances share: the `[data-tags]` blocks (`d-none`), the first
  `.tags__container` (`fade`, `show`), the URL and the entries pushed onto the
  history. The asynchronous `enableLoading` is split in two. The click handlers
  add `fade`. Separate completion methods run the `.then` bodies.
- **The query parameters.** Module `SearchParams` (`search_params.dfy`) holds
  `get`, `getAll`, `set` and `delete` over an ordered list of name/value pairs.
  They follow section 6.2 of the WHATWG URL Standard. `Wrappers` holds
  `Option`, which stands for JavaScript `null` and `undefined`.

The model follows the code in these behaviours:
- `isOverviewPage` is true when the href does NOT contain `tags` anywhere, query
  and fragment included. Client-side filtering and the clear listener therefore
  need `tags` in the href.
- `filterByTag`, `hideAllDataTags`, `showAllDataTags` and `enableLoading` act on
  the whole document, so they change the shared `Page`.
- `resetTags` deactivates only the first `.tags__btn.active`.
- `setActive` clears `active` on every `[data-text]` of the root. A falsy
  argument falls back to the `tag` parameter, and a missing parameter is
  interpolated as `null`.
- A button without `data-text` stores the string `undefined` in the URL.
- A document click counts as outside unless its target is the header element
  itself, so a click on a descendant of the header also counts as outside.

## Model

| member | source | states |
|---|---|---|
| `SearchParams.Get` | assets/js/app.js:250-254 | `get` gives None exactly when no pair has the name; otherwise it gives the value of the first pair with that name |
| `SearchParams.Delete` | assets/js/app.js:234-240 | after `delete(name)` a pair is present iff it was present before and has another name |
| `SearchParams.Set` | assets/js/app.js:242-248 | after `set(name, value)` the pair `(name, value)` is present and every pair with that name holds `value` |
| `SearchParams.DeleteAppend` | assets/js/app.js:234-240 | `delete` over a concatenation is the concatenation of the deletes, so the remaining pairs keep their relative order across names |
| `SearchParams.DeleteAbsent` | assets/js/app.js:234-240 | `delete` of a name no pair has leaves the list unchanged |
| `SearchParams.SetReplacesFirst` | assets/js/app.js:242-248 | when the first pair with the name is at index `k`, `set` puts the new pair at `k`, keeps everything before it, and keeps what follows minus the later pairs with that name |
| `SearchParams.SetAppendsWhenAbsent` | assets/js/app.js:242-248 | when no pair has the name, `set` appends the new pair at the end |
| `SearchParams.GetIsFirstOfGetAll` | assets/js/app.js:250-254 | `get` returns the head of `getAll`, or null when `getAll` is empty |
| `SearchParams.GetAllDeleteSame` | assets/js/app.js:234-240 | no value of the name is left after `delete` |
| `SearchParams.GetAllDeleteOther` | assets/js/app.js:234-240 | `delete` leaves the values of every other name, in order |
| `SearchParams.GetAllSetSame` | assets/js/app.js:242-248 | after `set` exactly one value is stored under the name, and it is the new value |
| `SearchParams.GetAllSetOther` | assets/js/app.js:242-248 | `set` leaves the values of every other name, in order |
| `SearchParams.GetSetSame` | assets/js/app.js:242-254 | `getParam` after `setParam(v)` returns `v` |
| `SearchParams.GetDeleteSame` | assets/js/app.js:234-254 | `getParam` after `removeParam` returns null |
| `SearchParams.SetTouchesOnlyItsName` | assets/js/app.js:242-248 | once pairs with the name are dropped, the list after `set` equals the list before, order included |
| `SearchParams.DeleteTwice` | assets/js/app.js:234-240 | `delete` is idempotent |
| `SearchParams.SetTwice` | assets/js/app.js:242-248 | `set` with the same pair twice gives what it gave once |
| `Header.IsVisible` | assets/js/app.js:42-50 | defined as: an element is visible iff its computed `display` is not `none` (no contract of its own; `IsOpen` states what the scan over it returns) |
| `Header.IsOpen` | assets/js/app.js:42-64 | the scan is true iff at least one element's computed display is not `none`; nothing else is considered |
| `Header.Reset` | assets/js/app.js:95-99 | `headerMode` is cleared; `is-open` and `is-hovering` are removed; all other classes and flags are kept; the result satisfies the invariant |
| `Header.ResetTwice` | assets/js/app.js:95-99 | `resetHeaderState` is idempotent |
| `Header.Click` | assets/js/app.js:86-93 | afterwards `headerMode` and `is-open` both equal "mega-menu or dropdown open"; when neither is open `is-hovering` is gone, otherwise it is kept; other classes and flags are kept |
| `Header.ClickTwice` | assets/js/app.js:86-93 | a second re-evaluation changes nothing |
| `Header.Hover` | assets/js/app.js:66-72 | `mouseover` always adds `is-hovering`; any other event type keeps it only while the mega-menu flag is set; nothing else changes |
| `Header.HoverIgnoresLanguageDropdown` | assets/js/app.js:66-72 | the language-dropdown flag has no effect on hover handling |
| `Header.OutsideClick` | assets/js/app.js:101-105 | nothing changes unless `headerMode` is set; when it is, the result is exactly `Click`: `headerMode` and `is-open` follow the overlay flags, `is-hovering` goes when both are closed, and other classes are kept |
| `Header.DocumentClick` | assets/js/app.js:34-40 | a click on the header element itself, or any click while `headerMode` is false, changes nothing; any other click re-evaluates the open state |
| `Header.DelayedClick` | assets/js/app.js:74-84 | toggles `dropdownMode`; when it was off, the result is exactly `Click` with `dropdownMode` set; when it was on, it is exactly `Reset` with `dropdownMode` cleared, whatever the overlay flags say |
| `Header.MegaMenuBatch` | assets/js/app.js:107-117 | the records of one callback applied in order; the batch never touches `dropdownMode` or the language-dropdown flag (its full effect is `MegaMenuBatchEffect`) |
| `Header.MegaMenuBatchEffect` | assets/js/app.js:107-117 | a batch acts only through `style` records; with one or more, it equals a single re-evaluation after recomputing the mega-menu flag over all mega-menu elements; without any, nothing changes |
| `Header.LanguageBatch` | assets/js/app.js:119-129 | the records of one callback applied in order; the batch never touches `dropdownMode` or the mega-menu flag (its full effect is `LanguageBatchEffect`) |
| `Header.LanguageBatchEffect` | assets/js/app.js:119-129 | after a batch the dropdown flag says whether the last `class` record's target lacks `hs-unfold-hidden`; with a `class` record, the header has been re-evaluated: `headerMode` and `is-open` follow the overlay flags; `is-hovering` survives iff it was present and every `class` record found an overlay open; a batch without `class` records changes nothing; every other class and the other overlay flags are unchanged |
| `Header.MegaMenuBatchConsistent` | assets/js/app.js:107-117 | a mega-menu batch keeps the header invariant |
| `Header.LanguageBatchConsistent` | assets/js/app.js:119-129 | a language-dropdown batch keeps the header invariant |
| `Header.StepConsistent` | assets/js/app.js:66-129 | every handler keeps the invariant: `headerMode` iff `is-open`, and `is-open` only while an overlay is open |
| `Header.RunKeepsConsistent` | assets/js/app.js:66-129 | any sequence of handler calls keeps the invariant |
| `Header.RunConsistent` | assets/js/app.js:28-129 | from the flags' initial values, and a header served without `is-open`, every reachable state satisfies the invariant |
| `Header.HeaderSynchronizer.constructor` | assets/js/app.js:28-32 | all four flags start false |
| `Header.HeaderSynchronizer.ResetHeaderState` | assets/js/app.js:95-99 | the fields undergo `Reset` |
| `Header.HeaderSynchronizer.HandleHeaderClick` | assets/js/app.js:86-93 | the fields undergo `Click` |
| `Header.HeaderSynchronizer.HandleHeaderHover` | assets/js/app.js:66-72 | the fields undergo `Hover`, and the invariant is kept |
| `Header.HeaderSynchronizer.HandleHeaderOutsideClick` | assets/js/app.js:101-105 | the fields undergo `OutsideClick`, and the invariant is kept |
| `Header.HeaderSynchronizer.HandleClickOutside` | assets/js/app.js:34-40 | the fields undergo `DocumentClick`, and the invariant is kept |
| `Header.HeaderSynchronizer.DelayedHeaderClickFired` | assets/js/app.js:74-84 | the fields undergo `DelayedClick` |
| `Header.HeaderSynchronizer.HandleMegaMenuMutation` | assets/js/app.js:107-117 | the loop over the records performs `MegaMenuBatch`, and the invariant is kept |
| `Header.HeaderSynchronizer.HandleLanguageDropdownMutation` | assets/js/app.js:119-129 | the loop over the records performs `LanguageBatch`, and the invariant is kept |
| `TagFilters.TagFilter.GetParam` | assets/js/app.js:250-254 | null iff the URL's query has no `tag` pair; otherwise the value of the first `tag` pair |
| `TagFilters.TagParamSet` | assets/js/app.js:256-258 | `hasParam` holds iff the query has a `tag` pair and the first one's value is not empty (an empty value is falsy) |
| `TagFilters.ResolveTag` | assets/js/app.js:261 | a non-empty argument wins; an absent or empty one falls back to the parameter's value, and a missing parameter gives the string `null` |
| `TagFilters.FirstIndex` | assets/js/app.js:267 | `querySelector` gives the first matching element, or none when nothing matches |
| `TagFilters.Activate` | assets/js/app.js:260-267 | no attribute changes except `active`; elements without `data-text` are untouched; a `[data-text]` element is active iff it is the first whose `data-text` equals the tag; so at most one is active |
| `TagFilters.ActivateTwice` | assets/js/app.js:260-267 | activating the same tag twice gives the same root as once |
| `TagFilters.FilterBlocks` | assets/js/app.js:280-292 | a block is shown iff its `data-tags` equals the tag exactly |
| `TagFilters.FilterBlocksTwice` | assets/js/app.js:280-292 | filtering twice by the same tag gives the same blocks as once |
| `TagFilters.SetActiveTwice` | assets/js/app.js:260-270 | `setActive` twice with the same argument leaves the root, the blocks and the clear control as once |
| `TagFilters.DeactivateFirstActive` | assets/js/app.js:300-302 | only the `active` flag of the first `.tags__btn.active` changes, and it becomes false |
| `TagFilters.ResetTagsClearsSingleActive` | assets/js/app.js:300-302 | if at most one tag button was active, none is active afterwards |
| `TagFilters.ResetTagsLeavesLaterActive` | assets/js/app.js:300-302 | only the first active tag button is reset: every later active tag button stays active |
| `TagFilters.ClickTagIsStoredParam` | assets/js/app.js:207-213 | since `setParam` runs first, `setActive` resolves the very value stored in the URL, even for an empty or missing `data-text` |
| `TagFilters.GoRustScenario` | assets/js/app.js:189-213 | with buttons `go` and `rust` over blocks `go`, `rust`, `go`, a completed click on `rust` shows only the `rust` block, activates only its button and stores `tag=rust`; a completed clear then shows all three blocks, deactivates the button and drops the parameter |
| `TagFilters.IsOverviewPage` | assets/js/app.js:175-177 | defined as: the whole href, query and fragment included, has no substring `tags`; its contract states that an overview page has `tags` neither before the query nor in the fragment |
| `TagFilters.TagsInPartIsInHref` | assets/js/app.js:175-177 | `tags` before the query or in the fragment is `tags` in the href |
| `TagFilters.QueryValueMakesFilterPage` | assets/js/app.js:175-177 | a `tags` query value alone makes any page a filtering page |
| `TagFilters.TagFilter.constructor` | assets/js/app.js:159-173 | with a non-empty `tag` parameter the root, the blocks and the clear control undergo `setActive`; the clear listener is bound iff the page is not an overview page |
| `TagFilters.TagFilter.Init` | assets/js/app.js:304-310 | one fresh instance per root; each root is activated for the URL's tag and its clear control loses `d-none`; each clear listener is bound iff the page is not an overview page; the blocks are filtered once (re-filtering is idempotent) |
| `TagFilters.TagFilter.SetParam` | assets/js/app.js:242-248 | the query undergoes `set` and the new URL is pushed onto the history |
| `TagFilters.TagFilter.RemoveParam` | assets/js/app.js:234-240 | the query undergoes `delete` and the new URL is pushed onto the history |
| `TagFilters.TagFilter.ShowClear` | assets/js/app.js:272-274 | an existing clear control loses `d-none` |
| `TagFilters.TagFilter.HideClear` | assets/js/app.js:276-278 | an existing clear control gets `d-none` |
| `TagFilters.TagFilter.HideAllDataTags` | assets/js/app.js:288-292 | every block of the document gets `d-none` |
| `TagFilters.TagFilter.ShowAllDataTags` | assets/js/app.js:294-298 | every block of the document loses `d-none` |
| `TagFilters.TagFilter.FilterByTag` | assets/js/app.js:280-286 | the blocks become `FilterBlocks` of the old blocks |
| `TagFilters.TagFilter.SetActive` | assets/js/app.js:260-270 | the root becomes `Activate` of the resolved tag, the blocks are filtered by it, the clear control is shown, the URL is untouched |
| `TagFilters.TagFilter.ResetTags` | assets/js/app.js:300-302 | the root becomes `DeactivateFirstActive` of itself |
| `TagFilters.TagFilter.EnableLoading` | assets/js/app.js:223-232 | with a container, it gains `fade` and the wait starts; without one, nothing changes and no completion follows |
| `TagFilters.TagFilter.DisableLoading` | assets/js/app.js:217-221 | the container ends with neither `fade` nor `show` |
| `TagFilters.TagFilter.HandleClick` | assets/js/app.js:201-215 | loading begins only on a page that is not an overview page and has a container |
| `TagFilters.TagFilter.CompleteClick` | assets/js/app.js:207-213 | the URL's `tag` is set to the button's `data-text`, and `getParam` returns it; the root, blocks and clear control undergo `setActive` of that value; the container ends at rest |
| `TagFilters.TagFilter.HandleCloseClick` | assets/js/app.js:189-199 | loading begins when the document has a container |
| `TagFilters.TagFilter.CompleteCloseClick` | assets/js/app.js:192-198 | all blocks are shown and the clear control is hidden; the first active tag button is reset; every `tag` pair is deleted and `getParam` returns null; the container ends at rest |

## Left out

- `Tools.scrollIntoView` (`assets/js/app.js:13-26`) is pixel geometry on layout values.
- The jQuery ready handler, the `HSHeader` and `HSMegaMenu` widgets, and
  `bindListeners` are left out: they are calls into third-party libraries and
  listener registration. The model's
  methods are the handlers those listeners would call.
- `addMutationObserver` is left out: it is an observer registration. The mutation handlers take the batch as
  input. The displays of the mega-menu elements are an input fixed for the
  whole batch, as `getComputedStyle` is read synchronously inside one callback.
  The model assumes no style rule makes a mega-menu element's display depend on
  the header's classes: the handler changes `is-open` and `is-hovering` while it
  loops, and `MegaMenuBatchEffect` relies on the displays staying the same.
- `setTimeout` is left out. `DelayedHeaderClickFired` is the callback body, run after the delay.
  Nothing in the script attaches `handleDelayedHeaderClick` to an event, so the
  callback is modelled as an operation with no caller.
- The Promise and the `transitionend` wait are left out. Each click is split into a handler
  and a completion, and the model does not capture re-entrancy between
  overlapping clicks. It also does not model the container's `ontransitionend`
  handler being replaced on every click.
- `preventDefault` and the browser's default navigation on an overview page are not modelled.
- `window.getComputedStyle`: the computed `display` value is an input string.
- `history.pushState` is modelled by appending the new URL to `Page.history`. Its state object and title are
  not modelled. URL serialisation, parsing and percent-encoding are only
  approximated by `TagFilters.Href`, which joins pairs as `name=value`
  without encoding.
- Selector strings built from tags (`[data-text="…"]`, `[data-tags='…']`) are
  modelled as exact string comparison, so quote injection through a tag value is not modelled.
- The static `TagFilter.instances` array: `Init` returns the instances instead
  of storing them in a class-level field.
- Only one header is modelled. `bindListeners` attaches the hover handlers to
  every `.header`, but the handlers change the classes of the first one only.
- `Header.HeaderSynchronizer.constructor`: the invariant is established only when
  the header is served without `is-open`. The script makes no such check.
- The unused `State.ERROR` and `postTeaserSelector` constants are not modelled.
