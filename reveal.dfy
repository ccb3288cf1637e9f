/** The scroll-triggered reveal (scripts/script.js, lines 79-101): every
    section except the pricing section gets `fade-in` and is observed; the
    observer adds `visible` to each observed section it reports as
    intersecting, and nothing ever removes it. */
module Reveal {

  /** The id of the section left out of the fade-in. */
  const ExcludedId: string := "pricing"

  /** One `IntersectionObserverEntry`: the section it is about, by index, and
      whether it now intersects. */
  datatype Entry = Entry(target: nat, isIntersecting: bool)

  predicate Targets(entries: seq<Entry>, n: nat) {
    forall k :: 0 <= k < |entries| ==> entries[k].target < n
  }

  /** Some entry reports section `i` as intersecting. */
  predicate Reported(entries: seq<Entry>, i: nat) {
    exists k :: 0 <= k < |entries| && entries[k] == Entry(i, true)
  }

  /** The observer callback's `forEach`, applied to the sections' `visible`
      flags. */
  function ApplyEntries(visible: seq<bool>, entries: seq<Entry>): (r: seq<bool>)
    requires Targets(entries, |visible|)
    ensures |r| == |visible|
    ensures forall i :: 0 <= i < |visible| && visible[i] ==> r[i]
    decreases |entries|
  {
    if entries == [] then visible
    else
      var e := entries[0];
      ApplyEntries(if e.isIntersecting then visible[e.target := true] else visible, entries[1..])
  }

  /** After a callback, a section is visible exactly when it was before or
      some entry reported it intersecting: the marker is only ever added. */
  lemma {:induction false} ApplyEntriesAt(visible: seq<bool>, entries: seq<Entry>, i: nat)
    requires Targets(entries, |visible|) && i < |visible|
    ensures ApplyEntries(visible, entries)[i] <==> visible[i] || Reported(entries, i)
    decreases |entries|
  {
    if entries != [] {
      var e := entries[0];
      var next := if e.isIntersecting then visible[e.target := true] else visible;
      assert Targets(entries[1..], |next|) by {
        forall k | 0 <= k < |entries[1..]| ensures entries[1..][k].target < |next| {
          assert entries[1..][k] == entries[k + 1];
        }
      }
      ApplyEntriesAt(next, entries[1..], i);
      if Reported(entries[1..], i) {
        var k :| 0 <= k < |entries[1..]| && entries[1..][k] == Entry(i, true);
        assert entries[k + 1] == Entry(i, true);
      }
      if Reported(entries, i) && !(e == Entry(i, true)) {
        var k :| 0 <= k < |entries| && entries[k] == Entry(i, true);
        assert k > 0 && entries[1..][k - 1] == Entry(i, true);
      }
    }
  }

  /** The sections' class lists and the observer's targets. */
  class Revealer {
    const ids: seq<string>
    const fadeIn: array<bool>
    const observed: array<bool>
    const visible: array<bool>

    /** Only observed sections are ever visible, and the pricing section
        is never observed and never fades in. */
    ghost predicate Valid()
      reads this, fadeIn, observed, visible
    {
      fadeIn.Length == |ids| && observed.Length == |ids| && visible.Length == |ids| &&
      fadeIn != observed && observed != visible && fadeIn != visible &&
      (forall i :: 0 <= i < |ids| ==> visible[i] ==> observed[i]) &&
      (forall i :: 0 <= i < |ids| ==> ids[i] == ExcludedId ==> !fadeIn[i] && !observed[i])
    }

    /** The sections as parsed, with none of the three classes yet. */
    constructor (ids: seq<string>)
      ensures Valid() && this.ids == ids
      ensures forall i :: 0 <= i < |ids| ==> !fadeIn[i] && !observed[i] && !visible[i]
    {
      this.ids := ids;
      fadeIn := new bool[|ids|](_ => false);
      observed := new bool[|ids|](_ => false);
      visible := new bool[|ids|](_ => false);
    }

    /** The `DOMContentLoaded` listener: every section but the pricing one
        gets `fade-in` and is handed to the observer. */
    method ObserveSections()
      requires Valid()
      modifies fadeIn, observed
      ensures Valid()
      ensures forall i :: 0 <= i < |ids| ==> fadeIn[i] == (old(fadeIn[i]) || ids[i] != ExcludedId)
      ensures forall i :: 0 <= i < |ids| ==> observed[i] == (old(observed[i]) || ids[i] != ExcludedId)
    {
      var i := 0;
      while i < |ids|
        invariant 0 <= i <= |ids|
        invariant Valid()
        invariant forall k :: 0 <= k < i ==> fadeIn[k] == (old(fadeIn[k]) || ids[k] != ExcludedId)
        invariant forall k :: 0 <= k < i ==> observed[k] == (old(observed[k]) || ids[k] != ExcludedId)
        invariant forall k :: i <= k < |ids| ==> fadeIn[k] == old(fadeIn[k]) && observed[k] == old(observed[k])
      {
        if ids[i] != ExcludedId {
          fadeIn[i] := true;
          observed[i] := true;
        }
        i := i + 1;
      }
    }

    /** The observer callback. The browser reports only sections that were
        handed to the observer. */
    method OnIntersections(entries: seq<Entry>)
      requires Valid()
      requires forall k :: 0 <= k < |entries| ==> entries[k].target < |ids| && observed[entries[k].target]
      modifies visible
      ensures Valid()
      ensures visible[..] == ApplyEntries(old(visible[..]), entries)
      ensures forall i :: 0 <= i < |ids| ==> (visible[i] <==> old(visible[i]) || Reported(entries, i))
    {
      var k := 0;
      while k < |entries|
        invariant 0 <= k <= |entries|
        invariant Valid()
        invariant ApplyEntries(visible[..], entries[k..]) == ApplyEntries(old(visible[..]), entries)
      {
        var e := entries[k];
        assert entries[k..][1..] == entries[k + 1..];
        if e.isIntersecting {
          visible[e.target] := true;
        }
        k := k + 1;
      }
      assert entries[k..] == [];
      forall i | 0 <= i < |ids|
        ensures visible[i] <==> old(visible[i]) || Reported(entries, i)
      {
        ApplyEntriesAt(old(visible[..]), entries, i);
      }
    }
  }

  /** Whatever the observer reports, a section that was never reported
      stays as it was (that a visible one stays visible is `ApplyEntries`'
      own contract). */
  lemma RevealIsMonotone(visible: seq<bool>, entries: seq<Entry>, i: nat)
    requires Targets(entries, |visible|) && i < |visible|
    ensures !Reported(entries, i) ==> ApplyEntries(visible, entries)[i] == visible[i]
  {
    ApplyEntriesAt(visible, entries, i);
  }
}
