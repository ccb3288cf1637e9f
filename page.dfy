/** The page's click and scroll dispatch (scripts/script.js, lines 112-126,
    222-303 and 307-317): which listeners run for a click on each kind of
    target, given that the card and toggle listeners call
    `stopPropagation`, and what a scroll updates. */
module Page {
  import Viewport
  import MobileMenu
  import Selection

  /** Where a click lands. `LanguageButton` is the language dropdown button
      (a click on a language option reloads the page instead). `NavLink` and `Elsewhere` carry whether the
      target lies inside the menu panel. */
  datatype Target =
    | Card(index: nat)
    | MobileToggle
    | LanguageButton
    | NavLink(insideMenu: bool)
    | Elsewhere(insideMenu: bool)

  class Page {
    const navbar: Viewport.Navbar
    const backToTop: Viewport.BackToTop
    const menu: MobileMenu.Controller
    const highlighter: Selection.Highlighter

    /** Besides the components' own invariants: both scroll listeners read
        the same offset and the button's threshold lies above the navbar's,
        so the button is never shown while the navbar is unscrolled. */
    ghost predicate Valid()
      reads this, navbar, backToTop, menu, highlighter, highlighter.marked
    {
      menu.navbar == navbar && menu.Valid() && highlighter.Valid() &&
      (backToTop.visible ==> navbar.scrolled)
    }

    /** Page load with `cardCount` cards in the rails, scrolled to
        `initialScroll`: the navbar is checked once straight away. */
    constructor (cardCount: nat, initialScroll: real)
      ensures Valid() && fresh(navbar) && fresh(backToTop) && fresh(menu) && fresh(highlighter) && fresh(highlighter.marked)
      ensures navbar.scrolled == Viewport.NavbarScrolled(initialScroll)
      ensures menu.Current() == MobileMenu.Closed && !backToTop.visible
      ensures highlighter.Abstract() == Selection.Initial(cardCount)
    {
      var nb := new Viewport.Navbar();
      nb.UpdateNavbar(initialScroll);
      navbar := nb;
      backToTop := new Viewport.BackToTop();
      menu := new MobileMenu.Controller(nb);
      highlighter := new Selection.Highlighter(cardCount);
    }

    /** A click. Card, toggle and language-button clicks stop propagation,
        so the page-level listeners (the menu's outside-click check and the
        highlighter's clear) run only for the other targets. The navbar's
        `scrolled` class is never touched by a click. */
    method Click(t: Target)
      requires Valid()
      requires t.Card? ==> t.index < highlighter.marked.Length
      modifies navbar, menu, highlighter, highlighter.marked
      ensures Valid()
      ensures navbar.scrolled == old(navbar.scrolled) && navbar.lastScroll == old(navbar.lastScroll)
      ensures t.Card? ==>
        highlighter.Abstract() == Selection.Step(old(highlighter.Abstract()), Selection.CardClick(t.index)) &&
        menu.Current() == old(menu.Current())
      ensures t == MobileToggle ==>
        menu.Current() == MobileMenu.Step(old(menu.Current()), MobileMenu.Toggle) &&
        highlighter.Abstract() == old(highlighter.Abstract())
      ensures t == LanguageButton ==>
        menu.Current() == old(menu.Current()) &&
        highlighter.Abstract() == old(highlighter.Abstract())
      ensures t.NavLink? ==>
        menu.Current() == MobileMenu.Closed &&
        highlighter.Abstract() == Selection.Step(old(highlighter.Abstract()), Selection.OutsideClick)
      ensures t.Elsewhere? ==>
        menu.Current() == MobileMenu.Step(old(menu.Current()), MobileMenu.DocumentClick(t.insideMenu, false)) &&
        highlighter.Abstract() == Selection.Step(old(highlighter.Abstract()), Selection.OutsideClick)
    {
      match t
      case Card(c) =>
        highlighter.ClickCard(c);
      case MobileToggle =>
        menu.ClickToggle();
      case LanguageButton =>
      case NavLink(insideMenu) =>
        menu.ClickLink();
        menu.ClickDocument(insideMenu, false);
        highlighter.ClickOutside();
      case Elsewhere(insideMenu) =>
        menu.ClickDocument(insideMenu, false);
        highlighter.ClickOutside();
    }

    /** A scroll to `offset` (`pageYOffset` and `scrollY` are the same value):
        the navbar and back-to-top classes follow the offset, and the menu's
        lockstep, which shares the navbar, is undisturbed. */
    method Scroll(offset: real)
      requires Valid()
      modifies navbar, backToTop
      ensures Valid()
      ensures navbar.scrolled == Viewport.NavbarScrolled(offset) && navbar.lastScroll == offset
      ensures backToTop.visible == Viewport.BackToTopVisible(offset)
      ensures menu.Current() == old(menu.Current())
    {
      navbar.UpdateNavbar(offset);
      backToTop.OnScroll(offset);
    }

    /** The browser runs the highlighter's timeout with handle `h`, if it is
        still scheduled. */
    method TimeoutFires(h: nat)
      requires Valid()
      modifies highlighter, highlighter.marked
      ensures Valid()
      ensures highlighter.Abstract() == Selection.Step(old(highlighter.Abstract()), Selection.TimerFires(h))
      ensures menu.Current() == old(menu.Current())
    {
      highlighter.TimerFires(h);
    }
  }

  /** Scrolling to 0, then 51, then 49 leaves the navbar unscrolled, scrolled,
      and unscrolled again: the threshold is crossed in both directions. */
  method ScrollScenario()
  {
    var page := new Page(0, 0.0);
    assert !page.navbar.scrolled;
    page.Scroll(51.0);
    assert page.navbar.scrolled && !page.backToTop.visible;
    page.Scroll(49.0);
    assert !page.navbar.scrolled;
    page.Scroll(501.0);
    assert page.navbar.scrolled && page.backToTop.visible;
  }

  /** Open the menu, select a card, then click a navigation link: the menu
      closes, the body unlocks, and the selection is cleared; the card click
      in between left the menu open. */
  method ClickScenario()
  {
    var page := new Page(3, 0.0);
    page.Click(MobileToggle);
    assert page.menu.Current() == MobileMenu.Flags(true, true, true, MobileMenu.Locked);
    page.Click(Card(1));
    assert page.menu.Current().menuActive;
    Selection.ClickSelectsExactly(Selection.Initial(3), 1);
    assert Selection.Highlighted(page.highlighter.Abstract()) == {1};
    page.Click(NavLink(true));
    assert page.menu.Current() == MobileMenu.Closed;
    Selection.OutsideClickClears(Selection.Step(Selection.Initial(3), Selection.CardClick(1)));
    assert Selection.Highlighted(page.highlighter.Abstract()) == {};
  }
}
