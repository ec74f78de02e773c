/**
 * The mobile navigation overlay controller (app.js:34-125 and the resize
 * check at app.js:267-277).
 *
 * The DOM is replaced by one object that holds the four mirrored flags of
 * the menu (the panel's `mobile-active` class, the toggle's `active` class,
 * the toggle's `aria-expanded` attribute, the body's `menu-open` class), the
 * focused element, the panel's descendants and the pending resize timer.
 * Each event listener of the script is one method.
 */
module MobileMenu {

  import opened Wrappers
  import opened Focusable

  /** Viewport width above which the resize check closes the menu. */
  const DesktopBreakpoint := 830

  /** The four observable flags of the menu, in one record. */
  datatype MenuFlags = MenuFlags(
    navMobileActive: bool,  // `mobile-active` in the panel's classList
    toggleActive: bool,     // `active` in the toggle's classList
    ariaExpanded: string,   // the toggle's `aria-expanded` attribute
    bodyMenuOpen: bool)     // `menu-open` in the body's classList

  const OpenFlags := MenuFlags(true, true, "true", true)
  const ClosedFlags := MenuFlags(false, false, "false", false)

  class MenuController {
    /** Whether `#mobileMenuToggle` and `#mainNav` exist on the page. */
    const hasToggle: bool
    const hasNav: bool
    /** The toggle element and the elements inside it. */
    const toggleId: ElementId
    const toggleParts: set<ElementId>
    /** The panel element and its descendants in document order. */
    const navId: ElementId
    var navItems: seq<Element>

    var navMobileActive: bool
    var toggleActive: bool
    var ariaExpanded: string
    var bodyMenuOpen: bool
    /** `document.activeElement`. */
    var focused: ElementId
    /** Whether a resize timer is scheduled and not yet fired. */
    var resizePending: bool

    /** Both elements exist: the menu listeners are attached (app.js:63). */
    predicate ElementsPresent() {
      hasToggle && hasNav
    }

    function Flags(): (r: MenuFlags)
      reads this
    {
      MenuFlags(navMobileActive, toggleActive, ariaExpanded, bodyMenuOpen)
    }

    /** The four flags agree with one open/closed state. */
    predicate Consistent()
      reads this
    {
      Flags() == OpenFlags || Flags() == ClosedFlags
    }

    /** The menu counts as open when the panel has `mobile-active`. */
    predicate IsOpen()
      reads this
    {
      navMobileActive
    }

    /** The panel as `getFocusableElements` receives it. */
    function NavContainer(): (r: Option<seq<Element>>)
      reads this
    {
      if hasNav then Some(navItems) else None
    }

    /** `mainNav.contains(target)`: the panel itself or one of its descendants. */
    predicate NavContains(target: ElementId)
      reads this
    {
      target == navId || exists e :: e in navItems && e.id == target
    }

    /** `mobileMenuToggle.contains(target)`. */
    predicate ToggleContains(target: ElementId) {
      target == toggleId || target in toggleParts
    }

    /** The page as loaded: the menu starts closed, no resize timer is scheduled. */
    constructor (hasToggle: bool, hasNav: bool, toggleId: ElementId, toggleParts: set<ElementId>,
                 navId: ElementId, navItems: seq<Element>, focused: ElementId)
      ensures this.hasToggle == hasToggle && this.hasNav == hasNav
      ensures this.toggleId == toggleId && this.toggleParts == toggleParts
      ensures this.navId == navId && this.navItems == navItems && this.focused == focused
      ensures Flags() == ClosedFlags && !resizePending
    {
      this.hasToggle, this.hasNav := hasToggle, hasNav;
      this.toggleId, this.toggleParts := toggleId, toggleParts;
      this.navId, this.navItems := navId, navItems;
      this.focused := focused;
      navMobileActive, toggleActive, ariaExpanded, bodyMenuOpen := false, false, "false", false;
      resizePending := false;
    }

    /**
     * closeMobileMenu: with both elements present, clear all four flags and,
     * when asked to, move focus to the toggle; otherwise do nothing.
     */
    method CloseMobileMenu(restoreFocus: bool)
      modifies this
      ensures navItems == old(navItems) && resizePending == old(resizePending)
      ensures ElementsPresent() ==> Flags() == ClosedFlags
      ensures ElementsPresent() ==> focused == if restoreFocus then toggleId else old(focused)
      ensures !ElementsPresent() ==> Flags() == old(Flags()) && focused == old(focused)
      ensures old(Consistent()) ==> Consistent()
    {
      if !hasNav || !hasToggle {
        return;
      }
      navMobileActive := false;
      toggleActive := false;
      ariaExpanded := "false";
      bodyMenuOpen := false;
      if restoreFocus {
        focused := toggleId;
      }
    }

    /**
     * Click on the toggle: an open menu closes and focus goes to the toggle;
     * a closed menu opens and focus goes to the first focusable element of
     * the panel, if there is one. The default action is always prevented and
     * propagation stopped, so the document click listener never sees it.
     */
    method ToggleClick() returns (prevented: bool)
      modifies this
      ensures navItems == old(navItems) && resizePending == old(resizePending)
      ensures !ElementsPresent() ==> Flags() == old(Flags()) && focused == old(focused) && !prevented
      ensures ElementsPresent() ==> prevented && Consistent()
      ensures ElementsPresent() && old(IsOpen()) ==> Flags() == ClosedFlags && focused == toggleId
      ensures ElementsPresent() && !old(IsOpen()) ==>
                var f := GetFocusableElements(NavContainer());
                Flags() == OpenFlags && focused == if |f| > 0 then f[0].id else old(focused)
      ensures old(Consistent()) ==> Consistent()
    {
      prevented := false;
      if !ElementsPresent() {
        return;
      }
      prevented := true;
      var isActive := navMobileActive;
      if isActive {
        CloseMobileMenu(true);
      } else {
        navMobileActive := true;
        toggleActive := true;
        ariaExpanded := "true";
        bodyMenuOpen := true;
        var focusables := GetFocusableElements(NavContainer());
        if |focusables| > 0 {
          focused := focusables[0].id;
        }
      }
    }

    /**
     * Click anywhere on the document: closes the menu, with focus to the
     * toggle, exactly when the menu is open and the target lies neither in
     * the panel nor in the toggle; otherwise nothing changes.
     */
    method DocumentClick(target: ElementId)
      modifies this
      ensures navItems == old(navItems) && resizePending == old(resizePending)
      ensures ElementsPresent() && old(IsOpen()) && !NavContains(target) && !ToggleContains(target) ==>
                Flags() == ClosedFlags && focused == toggleId
      ensures !(ElementsPresent() && old(IsOpen()) && !NavContains(target) && !ToggleContains(target)) ==>
                Flags() == old(Flags()) && focused == old(focused)
      ensures old(Consistent()) ==> Consistent()
    {
      if !ElementsPresent() {
        return;
      }
      var isClickInsideNav := NavContains(target);
      var isClickOnToggle := ToggleContains(target);
      if !isClickInsideNav && !isClickOnToggle && navMobileActive {
        CloseMobileMenu(true);
      }
    }

    /**
     * Key press anywhere on the document. Inert while the menu is closed.
     * On an open menu, Escape closes it and focuses the toggle; Tab wraps
     * focus from the last focusable element of the panel to the first, and
     * Shift+Tab from the first to the last. `prevented` tells whether the
     * browser's default action was cancelled.
     */
    method KeyDown(key: string, shiftKey: bool) returns (prevented: bool)
      modifies this
      ensures navItems == old(navItems) && resizePending == old(resizePending)
      ensures !(ElementsPresent() && old(IsOpen())) ==>
                Flags() == old(Flags()) && focused == old(focused) && !prevented
      ensures ElementsPresent() && old(IsOpen()) && key == "Escape" ==>
                Flags() == ClosedFlags && focused == toggleId && prevented
      ensures ElementsPresent() && old(IsOpen()) && key != "Escape" ==>
                var f := GetFocusableElements(NavContainer());
                var wrapBack := key == "Tab" && |f| > 0 && shiftKey && old(focused) == f[0].id;
                var wrapForward := key == "Tab" && |f| > 0 && !shiftKey && old(focused) == f[|f| - 1].id;
                && Flags() == old(Flags())
                && prevented == (wrapBack || wrapForward)
                && focused == (if wrapBack then f[|f| - 1].id
                               else if wrapForward then f[0].id
                               else old(focused))
      ensures old(Consistent()) ==> Consistent()
    {
      prevented := false;
      if !ElementsPresent() || !navMobileActive {
        return;
      }
      if key == "Escape" {
        prevented := true;
        CloseMobileMenu(true);
        return;
      }
      if key == "Tab" {
        var focusables := GetFocusableElements(NavContainer());
        if |focusables| == 0 {
          return;
        }
        var first := focusables[0];
        var last := focusables[|focusables| - 1];
        if shiftKey && focused == first.id {
          prevented := true;
          focused := last.id;
        } else if !shiftKey && focused == last.id {
          prevented := true;
          focused := first.id;
        }
      }
    }

    /** Click on a link of the panel: closes the menu and leaves focus where it is. */
    method NavLinkClick()
      modifies this
      ensures navItems == old(navItems) && resizePending == old(resizePending)
      ensures focused == old(focused)
      ensures ElementsPresent() ==> Flags() == ClosedFlags
      ensures !ElementsPresent() ==> Flags() == old(Flags())
      ensures old(Consistent()) ==> Consistent()
    {
      if !ElementsPresent() {
        return;
      }
      CloseMobileMenu(false);
    }

    /**
     * A window resize event: the pending timer, if any, is cleared and a new
     * one scheduled, so at most one resize check is ever pending.
     */
    method Resize()
      modifies this
      ensures resizePending
      ensures navItems == old(navItems) && Flags() == old(Flags()) && focused == old(focused)
    {
      resizePending := true;
    }

    /**
     * The scheduled resize check runs, reading the viewport width at that
     * moment. Above the breakpoint an open menu closes without moving focus.
     * The check does not guard against a missing panel: above the breakpoint
     * it then dereferences null and throws (`threw`), changing nothing else.
     * Without a pending timer nothing runs.
     */
    method ResizeTimerFires(innerWidth: int) returns (threw: bool)
      modifies this
      ensures navItems == old(navItems) && focused == old(focused)
      ensures !resizePending
      ensures threw <==> old(resizePending) && innerWidth > DesktopBreakpoint && !hasNav
      ensures old(resizePending) && innerWidth > DesktopBreakpoint && hasNav && old(IsOpen()) && hasToggle ==>
                Flags() == ClosedFlags
      ensures !(old(resizePending) && innerWidth > DesktopBreakpoint && hasNav && old(IsOpen()) && hasToggle) ==>
                Flags() == old(Flags())
      ensures old(Consistent()) ==> Consistent()
    {
      threw := false;
      if !resizePending {
        return;
      }
      resizePending := false;
      if innerWidth > DesktopBreakpoint {
        if !hasNav {
          threw := true;
          return;
        }
        if navMobileActive {
          CloseMobileMenu(false);
        }
      }
    }
  }

  /**
   * Opening the menu sets all four flags and focuses the first focusable
   * link; Escape clears all four flags and returns focus to the toggle.
   */
  method OpenThenEscape(start: ElementId) returns (afterOpen: MenuFlags, focusOpen: ElementId,
                                                   afterEscape: MenuFlags, focusClosed: ElementId)
    ensures afterOpen == OpenFlags && focusOpen == 11
    ensures afterEscape == ClosedFlags && focusClosed == 1
  {
    var hidden := Element(10, true, true, false);
    var link := Element(11, true, false, false);
    var text := Element(12, false, false, false);
    var menu := new MenuController(true, true, 1, {2}, 3, [hidden, link, text], start);
    assert menu.NavContainer() == Some([hidden, link, text]);
    assert [hidden][..0] == [];
    assert [hidden, link][..1] == [hidden];
    assert [hidden, link, text][..2] == [hidden, link];
    assert Filter([hidden], IsFocusable) == [];
    assert Filter([hidden, link], IsFocusable) == [link];
    assert GetFocusableElements(menu.NavContainer()) == [link];
    var _ := menu.ToggleClick();
    afterOpen, focusOpen := menu.Flags(), menu.focused;
    var _ := menu.KeyDown("Escape", false);
    afterEscape, focusClosed := menu.Flags(), menu.focused;
  }

  /**
   * With the menu open, a burst of resize events leaves one check pending;
   * when it runs at a desktop width the menu closes and focus stays put.
   * A second firing finds no timer and does nothing.
   */
  method ResizeBurstClosesOnce(start: ElementId, items: seq<Element>)
    returns (closed: MenuFlags, focusAfter: ElementId, pendingAfter: bool)
    ensures closed == ClosedFlags && !pendingAfter
    ensures focusAfter == if GetFocusableElements(Some(items)) == [] then start
                          else GetFocusableElements(Some(items))[0].id
  {
    var menu := new MenuController(true, true, 1, {}, 3, items, start);
    var _ := menu.ToggleClick();
    menu.Resize();
    menu.Resize();
    menu.Resize();
    var threw := menu.ResizeTimerFires(900);
    threw := menu.ResizeTimerFires(900);
    closed, focusAfter, pendingAfter := menu.Flags(), menu.focused, menu.resizePending;
  }

  /**
   * Without the panel no menu listener is attached: clicks and keys change
   * nothing. The resize check is not guarded, so at a desktop width it
   * throws; at a mobile width it does not.
   */
  method MissingPanel(start: ElementId) returns (flags: MenuFlags, focusAfter: ElementId,
                                                 threwNarrow: bool, threwWide: bool)
    ensures flags == ClosedFlags && focusAfter == start
    ensures !threwNarrow && threwWide
  {
    var menu := new MenuController(true, false, 1, {}, 3, [], start);
    var _ := menu.ToggleClick();
    menu.DocumentClick(7);
    var _ := menu.KeyDown("Escape", false);
    menu.NavLinkClick();
    menu.Resize();
    threwNarrow := menu.ResizeTimerFires(700);
    menu.Resize();
    threwWide := menu.ResizeTimerFires(900);
    flags, focusAfter := menu.Flags(), menu.focused;
  }

}
