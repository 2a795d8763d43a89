/** The Hero section's own state (src/sections/Hero.jsx): the light/dark
    theme, mirrored into a "dark" class on the document element, and the
    menu that a mouse-down outside it closes.
 */
module Hero {

  /** The class the theme puts on the document element. */
  const DARK: string := "dark"

  /** A DOM node, by identity. */
  type NodeId = nat

  /** A React ref: unattached, or attached to an element whose subtree
      (the element itself and its descendants) is given. */
  datatype Ref = Null | Element(subtree: set<NodeId>)
  {
    /** `Node.contains`: the node itself or one of its descendants. */
    predicate Contains(target: NodeId)
      requires Element?
    {
      target in subtree
    }
  }

  /** The condition under which `handleClickOutside` closes the menu. */
  predicate ClickClosesMenu(isMenuOpen: bool, menu: Ref, button: Ref, target: NodeId)
  {
    && isMenuOpen
    && menu.Element?
    && button.Element?
    && !menu.Contains(target)
    && !button.Contains(target)
  }

  /** A click on the menu or on its button never closes the menu. */
  lemma ClickInsideKeepsMenu(isMenuOpen: bool, menu: Ref, button: Ref, target: NodeId)
    requires (menu.Element? && menu.Contains(target)) || (button.Element? && button.Contains(target))
    ensures !ClickClosesMenu(isMenuOpen, menu, button, target)
  {
  }

  /** While either ref is unattached no click closes the menu; the markup
      that would attach them is commented out, so with the current markup
      the handler never closes anything. */
  lemma UnattachedRefsNeverClose(isMenuOpen: bool, menu: Ref, button: Ref, target: NodeId)
    requires menu == Null || button == Null
    ensures !ClickClosesMenu(isMenuOpen, menu, button, target)
  {
  }

  /** The Hero component's state, with the document element's class list. */
  class HeroState {
    var isDark: bool
    var isMenuOpen: bool
    var menuRef: Ref
    var buttonRef: Ref
    /** `document.documentElement.classList`, shared with the rest of the page. */
    var classList: set<string>

    /** The theme and the class list agree. */
    predicate ThemeInSync()
      reads this
    {
      isDark <==> DARK in classList
    }

    /** Initial state: dark theme, menu closed, refs unattached; the document
        keeps whatever classes it had. */
    constructor (documentClasses: set<string>)
      ensures isDark && !isMenuOpen
      ensures menuRef == Null && buttonRef == Null
      ensures classList == documentClasses
    {
      isDark := true;
      isMenuOpen := false;
      menuRef := Null;
      buttonRef := Null;
      classList := documentClasses;
    }

    /** The mount effect: add "dark" to the document, which brings the class
        list in line with the initial dark theme. */
    method ApplyInitialTheme()
      modifies this`classList
      ensures classList == old(classList) + {DARK}
      ensures isDark ==> ThemeInSync()
    {
      classList := classList + {DARK};
    }

    /** `toggleTheme`: flip the theme and add or remove "dark" to match it;
        the other classes of the document stay as they were. */
    method ToggleTheme()
      modifies this`isDark, this`classList
      ensures isDark == !old(isDark)
      ensures ThemeInSync()
      ensures classList - {DARK} == old(classList) - {DARK}
    {
      var newTheme := !isDark;
      isDark := newTheme;
      if newTheme {
        classList := classList + {DARK};
      } else {
        classList := classList - {DARK};
      }
    }

    /** `handleClickOutside` for a mouse-down on `target`: close the menu
        when the click falls outside both the menu and its button, otherwise
        leave everything as it is. It never opens the menu. */
    method HandleClickOutside(target: NodeId)
      modifies this`isMenuOpen
      ensures ClickClosesMenu(old(isMenuOpen), menuRef, buttonRef, target) ==> !isMenuOpen
      ensures !ClickClosesMenu(old(isMenuOpen), menuRef, buttonRef, target) ==> isMenuOpen == old(isMenuOpen)
    {
      if ClickClosesMenu(isMenuOpen, menuRef, buttonRef, target) {
        isMenuOpen := false;
      }
    }
  }

  /** Toggling twice gives back the theme, and leaves the class list in
      line with it and otherwise unchanged. */
  method ToggleTwice(h: HeroState)
    modifies h`isDark, h`classList
    ensures h.isDark == old(h.isDark)
    ensures h.ThemeInSync()
    ensures h.classList - {DARK} == old(h.classList) - {DARK}
  {
    h.ToggleTheme();
    h.ToggleTheme();
  }

  /** With the refs as the markup leaves them, a click anywhere keeps an open menu open. */
  method MenuStaysOpen(h: HeroState, target: NodeId)
    requires h.menuRef == Null
    modifies h`isMenuOpen
    ensures h.isMenuOpen == old(h.isMenuOpen)
    ensures h.menuRef == Null
  {
    h.HandleClickOutside(target);
  }
}
