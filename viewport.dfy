/** The scroll reactions of the page (scripts/script.js, `updateNavbar` and
    the back-to-top listener): each adds or removes one presentation class
    from the current vertical offset alone. */
module Viewport {

  /** Offsets, in CSS pixels, past which the classes are present. */
  const NavbarThreshold: real := 50.0
  const BackToTopThreshold: real := 500.0

  /** The navbar carries `scrolled` at this offset; at the top of the page
      (offset 0, where `lastScroll` starts) it does not. */
  predicate NavbarScrolled(offset: real)
    ensures offset <= 0.0 ==> !NavbarScrolled(offset)
  {
    offset > NavbarThreshold
  }

  /** The back-to-top button carries `visible` at this offset; wherever it
      does, the navbar carries `scrolled` too. */
  predicate BackToTopVisible(offset: real)
    ensures BackToTopVisible(offset) ==> NavbarScrolled(offset)
  {
    offset > BackToTopThreshold
  }

  /** The navbar element: its `scrolled` and `menu-open` classes and the
      `lastScroll` variable of the scroll listener. `menu-open` belongs to
      the mobile menu; the scroll listener never touches it. */
  class Navbar {
    var scrolled: bool
    var menuOpen: bool
    var lastScroll: real

    constructor ()
      ensures !scrolled && !menuOpen && lastScroll == 0.0
    {
      scrolled, menuOpen, lastScroll := false, false, 0.0;
    }

    /** `updateNavbar()` at offset `currentScroll`: the outcome depends on
        the offset only, so repeating it at the same offset changes nothing. */
    method UpdateNavbar(currentScroll: real)
      modifies this
      ensures scrolled == NavbarScrolled(currentScroll)
      ensures lastScroll == currentScroll
      ensures menuOpen == old(menuOpen)
    {
      if currentScroll > NavbarThreshold {
        scrolled := true;
      } else {
        scrolled := false;
      }
      lastScroll := currentScroll;
    }
  }

  /** The back-to-top button's `visible` class. */
  class BackToTop {
    var visible: bool

    constructor ()
      ensures !visible
    {
      visible := false;
    }

    /** The scroll listener at `scrollY`. */
    method OnScroll(scrollY: real)
      modifies this
      ensures visible == BackToTopVisible(scrollY)
    {
      if scrollY > BackToTopThreshold {
        visible := true;
      } else {
        visible := false;
      }
    }
  }
}
