# Landing-page interaction logic, modelled in Dafny

This project models the small pieces of state-keeping logic inside the
landing page's script, `scripts/script.js`. The DOM, timers and the random
number generator are replaced by explicit events and inputs:

- **Hero statistics** (`HeroStats`). There is one ticker per configured
  statistic (`channelsCount`, `showsCount`, `moviesCount`). Each starts at
  its minimum. On each interval tick it adds `floor(random * 30) - 10`,
  then clamps the value into `[min, min + range]`.
- **Slider selection** (`Selection`). The highlighter holds the cards'
  `active-selection` classes and the `selectionTimeout` variable. It also
  holds the browser's list of its pending timeouts, each with the card its
  callback clears. Events are card clicks, page-level clicks and timeout
  firings.
- **Mobile menu** (`MobileMenu`). The state is the toggle's and the panel's
  `active` classes, the navbar's `menu-open` class and the body's
  `overflow`. Events are the toggle, the navigation links, and the
  page-level outside-click check.
- **Scroll reactions** (`Viewport`). These are the navbar's `scrolled`
  class (offset > 50) and the back-to-top button's `visible` class
  (offset > 500).
- **Language** (`Language`). It covers the start-up language
  (`localStorage` value, or `'en'`), the text direction (`rtl` exactly for
  `'ar'`), the root element's attributes, and which language option
  starts out `active`.
- **Reveal** (`Reveal`). Every section except `#pricing` gets `fade-in`
  and is observed. The observer callback only ever adds `visible`.
- **Page** (`Page`). This is the click and scroll dispatch. Card clicks,
  toggle clicks and language-button clicks stop propagation, so the
  page-level listeners run only for other targets. The scroll listeners update the navbar, which the
  menu shares.

Each stateful piece is a class. Its methods state the new state as a step
function of the old state (`Selection.Step`, `MobileMenu.Step`,
`Reveal.ApplyEntries`, `HeroStats.Next`), and the source's invariants are
proved as lemmas about those functions. Inputs the browser supplies are
parameters:

- the random draw, a real in `[0, 1)`;
- scroll offsets, as reals;
- the stored language, an `Option<string>`;
- intersection entries;
- the handle of a firing timeout.

Other choices made by the model:

- Timeout handles start at 1, because `setTimeout` never returns 0. So
  `if (selectionTimeout)` is "a handle is stored".
- The stored language is any string, and an empty stored string falls
  back to `'en'` (JavaScript `||`).
- The outside-click listener cancels the timeout but leaves
  `selectionTimeout` holding the dead handle. The model keeps that
  behaviour, and `Selection.StaleTimerHarmless` shows that the dead handle,
  being no longer live, changes nothing if it is ever fired.

## Model

| member | source | states |
|---|---|---|
| HeroStats.Change | scripts/script.js:180 | every value of `Math.random()` in [0, 1) yields a step in [-10, 19] |
| HeroStats.EveryChangeIsDrawn | scripts/script.js:180 | every step in [-10, 19] is produced by some draw in [0, 1), so the range is exact |
| HeroStats.Clamp | scripts/script.js:183-187 | the clamped value lies in `[min, min + range]`, is the point of that band nearest to `value + change`, and is `value + change` itself when that is already in the band |
| HeroStats.Replay | scripts/script.js:179-190 | the value after a sequence of interval firings: after at least one tick, or starting in the band, it is in `[min, min + range]` |
| HeroStats.Next | scripts/script.js:181-187 | one tick always lands in the band; from a value in the band it moves by at most the drawn step, in the step's direction (between `v + change` and `v`), and so by a change in [-10, 19] |
| HeroStats.Present | scripts/script.js:171-173 | the statistics started, those whose element exists; never more than are configured (which ones, and their order, are `PresentInOrder` and `PresentComplete`) |
| HeroStats.PresentIndices | scripts/script.js:171-173 | the indices of the configured statistics whose element exists: strictly increasing, and every such index is listed |
| HeroStats.PresentInOrder | scripts/script.js:171-173 | the statistics started are the configured entries at those indices, each once, in configuration order |
| HeroStats.PresentComplete | scripts/script.js:171-173 | every configured statistic whose element exists is started |
| HeroStats.StatTicker.constructor | scripts/script.js:175-177 | the value and the displayed number both equal `min` before any tick |
| HeroStats.StatTicker.Tick | scripts/script.js:179-190 | one tick sets the value to the clamped `value + change`, keeps it in the band and displayed, moves it by at most [-10, 19], and changes no other ticker |
| HeroStats.StartTickers | scripts/script.js:171-192 | one fresh, distinct ticker per present statistic, with its id and configuration, showing its minimum |
| HeroStats.AnimateHeroStats | scripts/script.js:164-193 | `animateHeroStats` over the three configured statistics |
| Selection.Step | scripts/script.js:279-302 | no event changes the number of cards; a card click takes a strictly larger next handle, and if every live handle is below the next one before an event, it still is after, so no handle is reused; a card click leaves exactly the clicked card highlighted and stores a new timeout for it; an outside click clears every card; a timeout firing only removes the highlight of the card it was scheduled for |
| Selection.Cancel | scripts/script.js:285 | `clearTimeout` of the stored handle: exactly that handle leaves the live timeouts, and every other one keeps its card (line 301 is the same statement) |
| Selection.InitialInv | scripts/script.js:265-268 | with no click yet, nothing is highlighted and the invariant holds |
| Selection.StepPreservesInv | scripts/script.js:279-302 | every card click, outside click and timeout keeps the invariant: the only live timeout is the one the variable holds, and a card is highlighted exactly when that timeout is pending for it |
| Selection.RunPreservesInv | scripts/script.js:270-302 | the invariant holds across any sequence of clicks and timeouts |
| Selection.AtMostOneHighlighted | scripts/script.js:270-293 | under the invariant at most one card carries `active-selection`, and it is the card of the pending timeout |
| Selection.ClickSelectsExactly | scripts/script.js:283-293 | after a card click exactly that card is highlighted and the only live timeout is the new one, for that card |
| Selection.OutsideClickClears | scripts/script.js:299-302 | an outside click leaves no card highlighted and no timeout pending |
| Selection.StaleTimerHarmless | scripts/script.js:285-301 | a timeout other than the one the variable holds, or one no longer live (cancelled at line 285 or 301, or already fired at line 292, even while the variable still holds its handle), changes nothing |
| Selection.TimerClearsSelection | scripts/script.js:291-293 | the pending timeout, when it fires, clears the selection |
| Selection.ReselectSurvivesOldTimer | scripts/script.js:283-293 | after clicking card a and then card b (a again included), the first click's timeout firing leaves exactly b highlighted |
| Selection.Highlighter.constructor | scripts/script.js:265-268 | the highlighter starts with all cards clear and no handle stored |
| Selection.Highlighter.ClearSelection | scripts/script.js:270-273 | afterwards no card carries `active-selection` |
| Selection.Highlighter.CancelPending | scripts/script.js:285 | the stored handle, if any, is removed from the live timeouts |
| Selection.Highlighter.ClickCard | scripts/script.js:279-294 | the new state is `Step(old, CardClick(c))`, and the invariant is kept |
| Selection.Highlighter.ClickOutside | scripts/script.js:299-302 | the new state is `Step(old, OutsideClick)`, and the invariant is kept |
| Selection.Highlighter.TimerFires | scripts/script.js:291-293 | the new state is `Step(old, TimerFires(h))`: a live timeout clears its own card only |
| MobileMenu.Step | scripts/script.js:229-255 | every listener keeps the four flags in lockstep; the toggle flips the menu; a link click always ends closed; a page click either closes the menu or changes nothing |
| MobileMenu.RunKeepsLockstep | scripts/script.js:229-255 | across any sequence of toggles, link clicks and page clicks, the toggle, panel and navbar flags stay equal, and the body is `hidden` exactly when the menu is active |
| MobileMenu.ToggleFlips | scripts/script.js:229-235 | the toggle opens a closed menu (locking the body) and closes an open one (unlocking it), and two toggles cancel out |
| MobileMenu.ClosingPaths | scripts/script.js:238-255 | a link click always closes and unlocks; a page click closes and unlocks an open menu exactly when it lands outside the panel, and otherwise changes nothing |
| MobileMenu.ToggleNeedsLockstep | scripts/script.js:231-234 | the toggle flips each class on its own, so the lockstep rests on all flags starting cleared |
| MobileMenu.Controller.constructor | scripts/script.js:222-227 | the controller starts closed, in lockstep, sharing the page's navbar |
| MobileMenu.Controller.ClickToggle | scripts/script.js:229-235 | the new flags are `Step(old, Toggle)`; lockstep is kept; the navbar's `scrolled` is untouched |
| MobileMenu.Controller.Close | scripts/script.js:250-253 | all four flags are reset and the body unlocked |
| MobileMenu.Controller.ClickLink | scripts/script.js:238-245 | the new flags are `Step(old, LinkClick)`, the closed menu |
| MobileMenu.Controller.ClickDocument | scripts/script.js:248-255 | the new flags are `Step(old, DocumentClick(…))`; lockstep is kept |
| Viewport.NavbarScrolled | scripts/script.js:115 | the navbar is scrolled past 50 pixels, and never at the top of the page |
| Viewport.BackToTopVisible | scripts/script.js:312 | the button is shown past 500 pixels, and wherever it is shown the navbar is scrolled |
| Viewport.Navbar.constructor | scripts/script.js:109-110 | the navbar starts without `scrolled` or `menu-open`, `lastScroll` at 0 |
| Viewport.Navbar.UpdateNavbar | scripts/script.js:112-122 | `scrolled` holds exactly when the offset exceeds 50, whatever it was before (so repeating is idempotent); `lastScroll` records the offset; `menu-open` is untouched |
| Viewport.BackToTop.constructor | scripts/script.js:308 | the button starts without `visible` |
| Viewport.BackToTop.OnScroll | scripts/script.js:311-317 | `visible` holds exactly when `scrollY` exceeds 500, whatever it was before |
| Language.StartupLanguage | scripts/script.js:4 | the language is the stored value when it is a non-empty string, and `'en'` when nothing or `''` is stored; never empty |
| Language.ChooseThenReload | scripts/script.js:57-64 | after storing a code and reloading, the page starts in that code (or `'en'` for `''`) and is right-to-left exactly when the code is `'ar'` |
| Language.DirectionOf | scripts/script.js:8 | the direction is `rtl` exactly when the language is `'ar'`, and `ltr` for every other language |
| Language.FirstOption | scripts/script.js:69 | the option found is the first whose `data-lang` equals the language, and none is found exactly when no option has it |
| Language.DocumentElement.constructor | scripts/script.js:4-8 | `lang` is the start-up language and `dir` is `rtl` exactly for `'ar'` |
| Language.DocumentElement.UpdatePage | scripts/script.js:24-29 | the attributes follow the translation library's language, `dir` still `rtl` exactly for `'ar'`; with the language unchanged, `dir` is unchanged |
| Language.LanguageOptions.constructor | scripts/script.js:54 | the options start with no `active` class, one flag per option |
| Language.LanguageOptions.MarkInitial | scripts/script.js:68-72 | the first option for the current language becomes `active`, and no other option changes |
| Reveal.ApplyEntries | scripts/script.js:84-90 | the callback keeps one flag per section and never clears a `visible` flag |
| Reveal.ApplyEntriesAt | scripts/script.js:84-90 | after a callback, a section is visible exactly when it was before or some entry reported it intersecting |
| Reveal.RevealIsMonotone | scripts/script.js:86-88 | a section no entry reports keeps its state |
| Reveal.Revealer.constructor | scripts/script.js:93 | the sections start with none of the three classes |
| Reveal.Revealer.ObserveSections | scripts/script.js:92-101 | every section whose id is not `pricing` gets `fade-in` and is observed, and the pricing section is never observed |
| Reveal.Revealer.OnIntersections | scripts/script.js:84-90 | the flags become `ApplyEntries(old, entries)`; only observed sections, so never the pricing section, are visible |
| Page.Page.constructor | scripts/script.js:124-126 | at load the navbar is checked once against the initial offset, the button is hidden, the menu is closed and no card is highlighted |
| Page.Page.Click | scripts/script.js:229-302 | a card click runs only the card listener; a toggle click only the toggle listener; a language-button click none of the modelled listeners; a link click closes the menu and clears the selection; any other click runs the menu's outside check and clears the selection; no click touches `scrolled`, `lastScroll` or the button, so the button is still never shown while the navbar is unscrolled |
| Page.Page.Scroll | scripts/script.js:112-124 | a scroll sets `scrolled` and the button's `visible` from the same offset and records it in `lastScroll`, so the button is shown only while the navbar is scrolled, and leaves the menu's flags, and so their lockstep, unchanged |
| Page.Page.TimeoutFires | scripts/script.js:291-293 | a timeout firing changes only the highlighter, as `Step(old, TimerFires(h))` |

`Page.ScrollScenario` and `Page.ClickScenario` are client methods. They
prove two concrete runs: the navbar crossing the threshold at 0, 51 and 49,
and a menu-card-link click sequence.

## Left out

- i18next initialisation and `i18next.t` text replacement (lines 11-21, 32-35): the library and its resources are external. `UpdatePage` takes the library's current language as a parameter.
- `localStorage` and `window.location.reload` (lines 4, 60-64): the stored value is a parameter. The reload is modelled as starting the page again (`ChooseThenReload`).
- The language dropdown's toggle and its page-level close listener (lines 45-52): these are thin class toggling on an element not otherwise modelled. `Page.Page.Click` models only that the button's listener stops propagation.
- A click on a language option (lines 55-64) stores the code and reloads the page, discarding all page state. It is modelled by `ChooseThenReload`, not as a `Page.Page.Click` target.
- Language.LanguageOptions.MarkInitial: line 69 places the code unescaped inside a quoted CSS attribute selector. Only codes without a quote, backslash, line break or NUL are modelled, because for those the selector means plain equality. A backslash escape can make a different option match (`\65 n` matches `en`), and a quote or line break can make `querySelector` throw or match a different selector list.
- Language.FirstOption: it is the plain-equality lookup that the selector performs for such codes only.
- IntersectionObserver threshold and root margin (lines 79-82): this is browser geometry. Entries are inputs. `OnIntersections` takes entries only about observed sections, because the observer reports only its targets.
- Parallax `translateY(scrolled * 0.5)` (lines 148-154): floating-point arithmetic producing a CSS string.
- `toLocaleString` formatting (lines 159-161): locale-dependent. The displayed number is modelled as the integer.
- Timing: the 2000 ms interval, the 3000 ms timeout, and uniform randomness are not modelled. Ticks and timeout firings are events, and timing is their order. The random value is any real in `[0, 1)`.
- HeroStats.Change: the draw is a mathematical real, so double-precision rounding of `random * 30` is not modelled. It cannot reach 30 in practice either.
- Smooth scrolling to anchors (lines 131-143), the back-to-top click (lines 319-324) and the card hover coordinates (lines 203-214): these are DOM and CSS plumbing.
- Swiper initialisation (lines 328-359): the configuration of a third-party widget.
- The `loaded` class on the body (line 197): a single class addition with nothing depending on it.
- The navbar is looked up without a guard (line 110) and used unconditionally (lines 116, 118, 233). Without it the load-time check at line 126 throws and the rest of the script is never wired up. The model assumes the navbar is present.
- Element existence guards for the language dropdown (line 44, which also decides whether lines 68-72 run), the mobile toggle and menu (line 227) and the back-to-top button (line 310): the model assumes these elements are present. The per-statistic guard (line 173) is modelled.
- The order in which the page-level click listeners run: it is not modelled, because they write disjoint state.
- The initial markup is assumed to carry none of the modelled classes. `MobileMenu.Controller.constructor` requires the navbar without `menu-open`.
