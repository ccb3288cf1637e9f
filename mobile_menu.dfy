/** The mobile menu controller (scripts/script.js, `initMobileMenu`): the
    toggle button, the menu panel and the navbar's `menu-open` class move
    together, and the page body is locked exactly while the menu is open. */
module MobileMenu {
  import Viewport

  /** The four pieces of presentation state the controller writes: the
      toggle's and the panel's `active` classes, the navbar's `menu-open`
      class and `document.body.style.overflow`. */
  datatype Flags = Flags(toggleActive: bool, menuActive: bool, menuOpen: bool, overflow: string)

  const Locked: string := "hidden"
  const Unlocked: string := ""

  /** The three listeners. `DocumentClick` carries whether the click target
      lies inside the menu panel and inside the toggle. */
  datatype Event = Toggle | LinkClick | DocumentClick(insideMenu: bool, insideToggle: bool)

  /** The state with the menu closed. */
  const Closed: Flags := Flags(false, false, false, Unlocked)

  /** All flags agree, and the body is locked exactly when the menu is open. */
  predicate Lockstep(f: Flags) {
    f.toggleActive == f.menuActive && f.menuOpen == f.menuActive &&
    f.overflow == (if f.menuActive then Locked else Unlocked)
  }

  /** The effect of one listener. The toggle flips each class on its own and
      then derives the overflow from the panel's class, so every listener
      keeps the four flags in lockstep; a link click always ends closed, and
      a page click either closes the menu or changes nothing. */
  function Step(f: Flags, e: Event): (r: Flags)
    ensures Lockstep(f) ==> Lockstep(r)
    ensures e.Toggle? ==> r.menuActive == !f.menuActive
    ensures e.LinkClick? ==> r == Closed
    ensures e.DocumentClick? ==> r == Closed || r == f
  {
    match e
    case Toggle =>
      Flags(!f.toggleActive, !f.menuActive, !f.menuOpen, if !f.menuActive then Locked else Unlocked)
    case LinkClick =>
      Closed
    case DocumentClick(insideMenu, insideToggle) =>
      if f.menuActive && !insideMenu && !insideToggle then Closed else f
  }

  function Run(f: Flags, events: seq<Event>): Flags
    decreases |events|
  {
    if events == [] then f else Run(Step(f, events[0]), events[1..])
  }

  /** From any state in lockstep (the closed menu at load among them), every
      sequence of listener runs keeps the four flags in lockstep. */
  lemma {:induction false} RunKeepsLockstep(f: Flags, events: seq<Event>)
    requires Lockstep(f)
    ensures Lockstep(Run(f, events))
    decreases |events|
  {
    if events != [] {
      RunKeepsLockstep(Step(f, events[0]), events[1..]);
    }
  }

  /** The toggle opens a closed menu and closes an open one, and toggling
      twice returns to where it started. */
  lemma ToggleFlips(f: Flags)
    requires Lockstep(f)
    ensures Step(f, Toggle).menuActive == !f.menuActive
    ensures Step(f, Toggle).overflow == (if f.menuActive then Unlocked else Locked)
    ensures Step(Step(f, Toggle), Toggle) == f
  {
  }

  /** Both closing paths close the menu and unlock the body; an outside
      click leaves a closed menu, or a click inside the panel, alone. */
  lemma ClosingPaths(f: Flags, insideMenu: bool)
    ensures Step(f, LinkClick) == Closed
    ensures f.menuActive && !insideMenu ==> Step(f, DocumentClick(insideMenu, false)) == Closed
    ensures !f.menuActive || insideMenu ==> Step(f, DocumentClick(insideMenu, false)) == f
  {
  }

  /** Without lockstep at the start the toggle alone cannot restore it: the
      guarantee rests on every flag starting out cleared. */
  lemma ToggleNeedsLockstep()
    ensures !Lockstep(Step(Flags(true, false, false, Unlocked), Toggle))
  {
  }

  /** The controller: the toggle's and panel's classes, the body overflow,
      and the navbar it shares with the scroll listener. */
  class Controller {
    var toggleActive: bool
    var menuActive: bool
    var bodyOverflow: string
    const navbar: Viewport.Navbar

    ghost function Current(): Flags
      reads this, navbar
    {
      Flags(toggleActive, menuActive, navbar.menuOpen, bodyOverflow)
    }

    ghost predicate Valid()
      reads this, navbar
    {
      Lockstep(Current())
    }

    constructor (navbar: Viewport.Navbar)
      requires !navbar.menuOpen
      ensures this.navbar == navbar && Valid() && Current() == Closed
    {
      this.navbar := navbar;
      toggleActive, menuActive, bodyOverflow := false, false, Unlocked;
    }

    /** The toggle's click listener (its `stopPropagation` is the page's concern). */
    method ClickToggle()
      requires Valid()
      modifies this, navbar
      ensures Valid()
      ensures Current() == Step(old(Current()), Toggle)
      ensures navbar.scrolled == old(navbar.scrolled) && navbar.lastScroll == old(navbar.lastScroll)
    {
      toggleActive := !toggleActive;
      menuActive := !menuActive;
      navbar.menuOpen := !navbar.menuOpen;
      bodyOverflow := if menuActive then Locked else Unlocked;
    }

    method Close()
      modifies this, navbar
      ensures Valid() && Current() == Closed
      ensures navbar.scrolled == old(navbar.scrolled) && navbar.lastScroll == old(navbar.lastScroll)
    {
      toggleActive := false;
      menuActive := false;
      navbar.menuOpen := false;
      bodyOverflow := Unlocked;
    }

    /** The listener on each navigation link and call-to-action button. */
    method ClickLink()
      requires Valid()
      modifies this, navbar
      ensures Valid()
      ensures Current() == Step(old(Current()), LinkClick)
      ensures navbar.scrolled == old(navbar.scrolled) && navbar.lastScroll == old(navbar.lastScroll)
    {
      Close();
    }

    /** The page-level click listener that closes an open menu on a click
        outside both the panel and the toggle. */
    method ClickDocument(insideMenu: bool, insideToggle: bool)
      requires Valid()
      modifies this, navbar
      ensures Valid()
      ensures Current() == Step(old(Current()), DocumentClick(insideMenu, insideToggle))
      ensures navbar.scrolled == old(navbar.scrolled) && navbar.lastScroll == old(navbar.lastScroll)
    {
      if menuActive && !insideMenu && !insideToggle {
        Close();
      }
    }
  }
}
