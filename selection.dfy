/** The slider selection highlighter (scripts/script.js, `handleSliderSelection`):
    clicking a card clears every highlight, cancels the pending auto-clear
    timeout, highlights the clicked card and schedules a timeout that clears
    that same card; a click anywhere else clears everything and cancels the
    timeout. */
module Selection {
  import opened Wrappers

  /** What the highlighter reacts to. `TimerFires(h)` is the browser running
      the timeout callback whose handle is `h`. */
  datatype Event = CardClick(card: nat) | OutsideClick | TimerFires(handle: nat)

  /** The highlighter's state.
      - `marked[i]`: card `i` carries `active-selection`;
      - `live`: the timeouts scheduled and neither fired nor cancelled, from
        handle to the card their callback clears (the browser's timer list);
      - `selectionTimeout`: the variable holding the last handle, `None` while
        it is still `undefined`; the source never resets it;
      - `nextHandle`: the handle the next `setTimeout` returns (handles are
        positive, so a stored handle is always truthy). */
  datatype State = State(marked: seq<bool>, live: map<nat, nat>, selectionTimeout: Option<nat>, nextHandle: nat)

  /** The state once `cardCount` cards are wired up and nothing was clicked. */
  function Initial(cardCount: nat): State {
    State(AllClear(cardCount), map[], None, 1)
  }

  /** `clearSelection()`: no card highlighted. */
  function AllClear(n: nat): (r: seq<bool>)
    ensures |r| == n && forall i :: 0 <= i < n ==> !r[i]
  {
    seq(n, _ => false)
  }

  /** `if (selectionTimeout) clearTimeout(selectionTimeout)`. */
  function Cancel(s: State): (live: map<nat, nat>)
    ensures forall h :: h in live <==> h in s.live && s.selectionTimeout != Some(h)
    ensures forall h :: h in live ==> live[h] == s.live[h]
  {
    if s.selectionTimeout.Some? then s.live - {s.selectionTimeout.value} else s.live
  }

  /** A card click names an existing card; the other events are always possible. */
  predicate Enabled(s: State, e: Event) {
    e.CardClick? ==> e.card < |s.marked|
  }

  /** The effect of one event. No event changes the number of cards or
      reuses a handle; a card click leaves only the clicked card
      highlighted, with a fresh timeout held in the variable; an outside
      click clears every card; a timeout firing only ever removes a
      highlight, and only from the card it was scheduled for. */
  function Step(s: State, e: Event): (r: State)
    requires Enabled(s, e)
    ensures |r.marked| == |s.marked| && s.nextHandle <= r.nextHandle
    ensures e.CardClick? ==> s.nextHandle < r.nextHandle
    ensures (forall h :: h in s.live ==> h < s.nextHandle) ==> forall h :: h in r.live ==> h < r.nextHandle
    ensures e.CardClick? ==>
      r.selectionTimeout == Some(s.nextHandle) && s.nextHandle in r.live && r.live[s.nextHandle] == e.card &&
      forall i :: 0 <= i < |r.marked| ==> (r.marked[i] <==> i == e.card)
    ensures e.OutsideClick? ==> forall i :: 0 <= i < |r.marked| ==> !r.marked[i]
    ensures e.TimerFires? ==> forall i :: 0 <= i < |r.marked| ==>
      (r.marked[i] <==> s.marked[i] && !(e.handle in s.live && s.live[e.handle] == i))
  {
    match e
    case CardClick(c) =>
      State(AllClear(|s.marked|)[c := true], Cancel(s)[s.nextHandle := c], Some(s.nextHandle), s.nextHandle + 1)
    case OutsideClick =>
      State(AllClear(|s.marked|), Cancel(s), s.selectionTimeout, s.nextHandle)
    case TimerFires(h) =>
      if h in s.live && s.live[h] < |s.marked| then
        State(s.marked[s.live[h] := false], s.live - {h}, s.selectionTimeout, s.nextHandle)
      else s
  }

  predicate AllEnabled(s: State, events: seq<Event>)
    decreases |events|
  {
    events == [] || (Enabled(s, events[0]) && AllEnabled(Step(s, events[0]), events[1..]))
  }

  /** The state after a sequence of events. */
  function Run(s: State, events: seq<Event>): State
    requires AllEnabled(s, events)
    decreases |events|
  {
    if events == [] then s else Run(Step(s, events[0]), events[1..])
  }

  /** The cards carrying `active-selection`. */
  function Highlighted(s: State): set<nat> {
    set i | 0 <= i < |s.marked| && s.marked[i]
  }

  /** The invariant the source keeps: the only live timeout is the one the
      variable holds, and a card is highlighted exactly when that timeout is
      still pending for it. */
  predicate Inv(s: State) {
    (forall h :: h in s.live ==> s.selectionTimeout == Some(h) && s.live[h] < |s.marked|) &&
    0 < s.nextHandle &&
    (s.selectionTimeout.Some? ==> 0 < s.selectionTimeout.value < s.nextHandle) &&
    (forall i :: 0 <= i < |s.marked| ==>
      (s.marked[i] <==> s.selectionTimeout.Some? && s.selectionTimeout.value in s.live && s.live[s.selectionTimeout.value] == i))
  }

  lemma InitialInv(cardCount: nat)
    ensures Inv(Initial(cardCount)) && Highlighted(Initial(cardCount)) == {}
  {
  }

  /** Every event keeps the invariant. */
  lemma StepPreservesInv(s: State, e: Event)
    requires Inv(s) && Enabled(s, e)
    ensures Inv(Step(s, e))
  {
  }

  /** Across any sequence of clicks and timeouts the invariant holds. */
  lemma {:induction false} RunPreservesInv(s: State, events: seq<Event>)
    requires Inv(s) && AllEnabled(s, events)
    ensures Inv(Run(s, events))
    decreases |events|
  {
    if events != [] {
      StepPreservesInv(s, events[0]);
      RunPreservesInv(Step(s, events[0]), events[1..]);
    }
  }

  /** Mutual exclusion: at most one card is highlighted, and a highlighted
      card is the one the pending timeout will clear. */
  lemma AtMostOneHighlighted(s: State)
    requires Inv(s)
    ensures |Highlighted(s)| <= 1
    ensures forall i :: i in Highlighted(s) ==> s.selectionTimeout.Some? && s.selectionTimeout.value in s.live && s.live[s.selectionTimeout.value] == i
  {
    if s.selectionTimeout.Some? && s.selectionTimeout.value in s.live {
      var c := s.live[s.selectionTimeout.value];
      assert Highlighted(s) == {c};
    } else {
      assert Highlighted(s) == {};
    }
  }

  /** After a card click exactly that card is highlighted, and the one live
      timeout is the new one, scheduled for that card. */
  lemma ClickSelectsExactly(s: State, c: nat)
    requires Inv(s) && c < |s.marked|
    ensures Highlighted(Step(s, CardClick(c))) == {c}
    ensures Step(s, CardClick(c)).live == map[s.nextHandle := c]
    ensures Step(s, CardClick(c)).selectionTimeout == Some(s.nextHandle)
  {
  }

  /** An outside click leaves nothing highlighted and no timeout pending. */
  lemma OutsideClickClears(s: State)
    requires Inv(s)
    ensures Highlighted(Step(s, OutsideClick)) == {}
    ensures Step(s, OutsideClick).live == map[]
  {
  }

  /** A timeout that is not the one the variable now holds, or that is no
      longer live (cancelled, or already fired, even when the variable still
      holds its handle), changes nothing: a stale timeout can never clear a
      newer selection. */
  lemma StaleTimerHarmless(s: State, h: nat)
    requires Inv(s)
    requires s.selectionTimeout != Some(h) || h !in s.live
    ensures Step(s, TimerFires(h)) == s
  {
  }

  /** The pending timeout, when it fires, clears the selection. */
  lemma TimerClearsSelection(s: State, h: nat)
    requires Inv(s) && h in s.live
    ensures Highlighted(Step(s, TimerFires(h))) == {}
  {
  }

  /** Clicking card `a`, then card `b` (possibly `a` again), then letting the
      first click's timeout fire: `b` stays highlighted, because its own
      click cancelled that timeout. */
  lemma ReselectSurvivesOldTimer(s: State, a: nat, b: nat)
    requires Inv(s) && a < |s.marked| && b < |s.marked|
    ensures
      var s1 := Step(s, CardClick(a));
      var s2 := Step(s1, CardClick(b));
      Highlighted(Step(s2, TimerFires(s1.selectionTimeout.value))) == {b}
  {
  }

  /** The highlighter as the page holds it: the cards' class lists and the
      `selectionTimeout` variable, with the timeouts it has scheduled. */
  class Highlighter {
    const marked: array<bool>
    var live: map<nat, nat>
    var selectionTimeout: Option<nat>
    var nextHandle: nat

    ghost function Abstract(): State
      reads this, marked
    {
      State(marked[..], live, selectionTimeout, nextHandle)
    }

    ghost predicate Valid()
      reads this, marked
    {
      Inv(Abstract())
    }

    constructor (cardCount: nat)
      ensures Valid() && fresh(marked)
      ensures Abstract() == Initial(cardCount)
    {
      marked := new bool[cardCount](_ => false);
      live, selectionTimeout, nextHandle := map[], None, 1;
      new;
      assert marked[..] == seq(cardCount, _ => false);
    }

    /** `clearSelection()`: remove `active-selection` from every card that has it. */
    method ClearSelection()
      modifies marked
      ensures marked[..] == AllClear(marked.Length)
    {
      var i := 0;
      while i < marked.Length
        invariant 0 <= i <= marked.Length
        invariant forall k :: 0 <= k < i ==> !marked[k]
      {
        if marked[i] {
          marked[i] := false;
        }
        i := i + 1;
      }
    }

    /** `if (selectionTimeout) clearTimeout(selectionTimeout)`. */
    method CancelPending()
      modifies this
      ensures live == Cancel(old(Abstract()))
      ensures selectionTimeout == old(selectionTimeout) && nextHandle == old(nextHandle)
    {
      if selectionTimeout.Some? {
        live := live - {selectionTimeout.value};
      }
    }

    /** The click listener of card `c` (its `stopPropagation` is the page's concern). */
    method ClickCard(c: nat)
      requires Valid() && c < marked.Length
      modifies this, marked
      ensures Valid()
      ensures Abstract() == Step(old(Abstract()), CardClick(c))
    {
      ghost var s := Abstract();
      ClearSelection();
      CancelPending();
      marked[c] := true;
      live := live[nextHandle := c];
      selectionTimeout := Some(nextHandle);
      nextHandle := nextHandle + 1;
      assert marked[..] == AllClear(marked.Length)[c := true];
      StepPreservesInv(s, CardClick(c));
    }

    /** The page-level click listener. */
    method ClickOutside()
      requires Valid()
      modifies this, marked
      ensures Valid()
      ensures Abstract() == Step(old(Abstract()), OutsideClick)
    {
      ghost var s := Abstract();
      ClearSelection();
      CancelPending();
      StepPreservesInv(s, OutsideClick);
    }

    /** The browser runs the timeout with handle `h`, if it is still scheduled;
        its callback removes `active-selection` from the card it captured. */
    method TimerFires(h: nat)
      requires Valid()
      modifies this, marked
      ensures Valid()
      ensures Abstract() == Step(old(Abstract()), Event.TimerFires(h))
    {
      ghost var s := Abstract();
      if h in live && live[h] < marked.Length {
        marked[live[h]] := false;
        live := live - {h};
      }
      StepPreservesInv(s, Event.TimerFires(h));
    }
  }
}
