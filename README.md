# Mobile navigation overlay, focus trap and active-link highlighting

This project is a Dafny model of the interactive core of a marketing site's client
script (`app.js`). It covers three parts:

- **Focusable-set resolver** (`getFocusableElements`). It takes the panel's
  descendants in document order. It keeps those that match the focusable selector
  and drops those whose computed style is `display:none` or `visibility:hidden`.
  An absent container gives the empty list.
- **Navigation overlay controller.** This is the mobile menu. It is a two-state
  (closed/open) machine over four mirrored flags: the panel's `mobile-active`
  class, the toggle's `active` class, the toggle's `aria-expanded` string and the
  body's `menu-open` class. It also tracks which element has focus. Each event
  listener is one method of the class `MobileMenu.MenuController`:
  - toggle click
  - document click
  - keydown (Escape and the Tab trap)
  - click on a panel link
  - the debounced resize check at widths above 830
- **Active-nav selection** (`updateActiveNav`). It picks the id of the last
  section whose range `[offsetTop, offsetTop + clientHeight)` contains the scroll
  position plus 200. It then marks exactly the `#id` links with the `active`
  class and `aria-current="page"`.

DOM elements are records. Element identity (what `===` and `activeElement`
compare) is a natural-number id. Selector matching and computed style are booleans
stored on each element. The toggle's and the panel's presence on the page are two
constant booleans. The menu listeners exist only when both elements are present.
The resize check is registered regardless, and it does not guard against a
missing panel, so the model keeps that path: at widths above 830 it throws.

Files:
- `wrappers.dfy`: `Option`.
- `focusable.dfy`: module `Focusable`.
- `mobile_menu.dfy`: module `MobileMenu`.
- `active_nav.dfy`: module `ActiveNav`.

Facts about the code that the model keeps:
- The breakpoint is 830 (app.js:273).
- The resize check still runs when the toggle or the panel is missing.
- Tab never closes the menu. It only moves focus at the two ends of the
  focusable list.

## Model

| member | source | states |
|---|---|---|
| `Focusable.Filter` | app.js:45-48 | the result is no longer than the input, and every element it holds comes from the input and passes the test |
| `Focusable.FilterSelects` | app.js:45-48 | the filter result is exactly the input's subsequence at the increasing positions whose element passes the test; nothing is reordered, dropped wrongly or added |
| `Focusable.FilterStagesFuse` | app.js:41-48 | the `querySelectorAll` stage followed by the style filter equals one filter by "matches and is rendered" |
| `Focusable.GetFocusableElements` | app.js:39-49 | an absent container gives `[]`; a present one gives its descendants filtered by "matches the selector, not `display:none`, not `visibility:hidden`" |
| `Focusable.GetFocusableElementsSelects` | app.js:39-49 | for a present container, the result is the order-preserving subsequence at exactly the focusable positions, and it contains no element that fails the selector or is hidden |
| `MobileMenu.MenuController.constructor` | app.js:35-37 | the page starts with the menu closed (all four flags cleared, `aria-expanded` "false") and no resize timer pending |
| `MobileMenu.MenuController.CloseMobileMenu` | app.js:51-61 | with both elements present, all four flags read closed, and focus moves to the toggle exactly when `restoreFocus` is set; otherwise nothing changes |
| `MobileMenu.MenuController.ToggleClick` | app.js:64-83 | an open menu closes with focus on the toggle; a closed one opens (all four flags set, `aria-expanded` "true") with focus on the first focusable panel element, or unchanged if there is none; the default is always prevented; the flags agree afterwards |
| `MobileMenu.MenuController.DocumentClick` | app.js:85-92 | the menu closes with focus on the toggle exactly when it is open and the target is neither in the panel nor in the toggle; otherwise flags and focus are unchanged |
| `MobileMenu.MenuController.KeyDown` | app.js:94-118 | nothing changes while the menu is closed; on an open menu Escape closes it and focuses the toggle; Shift+Tab on the first focusable element focuses the last, Tab on the last focuses the first; every other key leaves flags and focus unchanged and the default not prevented |
| `MobileMenu.MenuController.NavLinkClick` | app.js:120-124 | the menu closes and focus does not move |
| `MobileMenu.MenuController.Resize` | app.js:268-271 | a resize event replaces any pending check with one new pending check and changes nothing else |
| `MobileMenu.MenuController.ResizeTimerFires` | app.js:271-276 | the pending check is consumed; above width 830 an open menu closes without moving focus; at 830 or less, or with the menu closed, flags are unchanged; with the panel missing and width above 830 it throws |
| `MobileMenu.OpenThenEscape` | app.js:64-101 | opening sets all four flags and focuses the first visible focusable link (skipping a hidden one); Escape then clears all four and focuses the toggle |
| `MobileMenu.ResizeBurstClosesOnce` | app.js:268-277 | after opening, three resize events and one firing close the menu with focus left on the element opening chose; a second firing finds no timer |
| `MobileMenu.MissingPanel` | app.js:63-277 | without the panel, clicks, keys and link clicks change nothing; the resize check throws only above width 830 |
| `ActiveNav.LastCoveringIsLast` | app.js:199-209 | the chosen id is "" when no section's `[top, top+height)` contains the position; otherwise it is the id of the covering section that no later section follows in covering it |
| `ActiveNav.ChooseSection` | app.js:199-209 | the loop over sections yields the last covering section's id for `pageYOffset + 200` |
| `ActiveNav.Highlighted` | app.js:212-217 | a processed link keeps its href and its other classes; it has `active` exactly when it has `aria-current="page"`, exactly when the chosen id is non-empty and the href is `#` + id; otherwise `aria-current` is absent |
| `ActiveNav.HighlightLinks` | app.js:211-218 | every link in the array is replaced by its processed form |
| `ActiveNav.UpdateActiveNav` | app.js:198-219 | the chosen id is that of the last section covering scroll + 200, and afterwards every link equals its processed form: it has `active` exactly when it has `aria-current="page"`, exactly when it points at that non-empty id, and an unmarked link has no `aria-current` at all |

## Left out

- Smooth-scroll anchors (app.js:14-32) are left out. They are browser geometry and scrolling with no logic of their own.
- The parallax effect (app.js:167-192) is left out. It is floating-point transforms coalesced by `requestAnimationFrame`.
- The fade-in observer (app.js:143-165) is left out. It is IntersectionObserver callbacks, a 100 ms timer and CSS transition strings.
- Analytics and console logging (app.js:224-265) are left out. They are foreign calls with no control flow that matters.
- The `loaded` class (app.js:2-12) and the header `scrolled` class (app.js:127-141) are left out. Each is a one-line threshold reaction. The scroll handler also dereferences a missing header without a guard, which this model does not cover.
- Real time is not modelled. The 250 ms debounce is one pending flag that each resize event sets and that the timer firing clears.
- Event dispatch is not modelled. Bubbling, `stopPropagation` and listener order are outside the model, so each listener is its own method. The toggle's `stopPropagation` means the document listener never sees a toggle click. A link click reaches the document listener with a target inside the panel, where that listener does nothing.
- Focus moves and browser defaults are simplified. `focus()` is modelled as always succeeding. The browser's default Tab traversal, which runs when the handler does not prevent it, is not modelled, so focus stays as the handler left it.
- The page's initial HTML is not available. The menu is assumed to start closed with `aria-expanded="false"`.
- Positions are integers. `pageYOffset` can be fractional in a browser.
- `Focusable.GetFocusableElements`: the panel's descendant list is read from the `navItems` field every time. Live DOM changes between events can be modelled only by assigning that field, and no handler does.
