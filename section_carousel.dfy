/** The horizontal carousel of one section of the public page: the
    current card, the arrow handlers, the auto-advance step, the card
    picked after a manual scroll, and the counter in the header. */
module SectionCarousel {
  import opened Wrappers
  import opened Strings
  import opened Rotation

  const AutoAdvanceMillis: nat := 5000

  /** The header counter: "0 items" for the empty state, "1 item" for a
      single card, "<i+1> / <n>" otherwise. */
  function CounterLabel(index: nat, n: nat): (r: string)
    ensures n == 0 ==> r == "0 items"
    ensures n == 1 ==> r == "1 item"
    ensures n > 1 ==> r == NatToString(index + 1) + " / " + NatToString(n)
  {
    if n == 0 then "0 items"
    else if n > 1 then NatToString(index + 1) + " / " + NatToString(n)
    else "1 item"
  }

  /** The total beside the title: "(1 item)" or "(<n> items)". */
  function TotalLabel(n: nat): (r: string)
    requires n > 0
    ensures n == 1 ==> r == "(1 item)"
    ensures n > 1 ==> r == "(" + NatToString(n) + " items)"
  {
    "(" + NatToString(n) + " " + (if n == 1 then "item" else "items") + ")"
  }

  lemma SuffixCancels(a: string, b: string, s: string)
    requires a + s == b + s
    ensures a == b
  {
    assert |a| == |b|;
    assert (a + s)[..|a|] == a;
    assert (b + s)[..|b|] == b;
  }

  /** The counter tells the cards apart: two positions of the same
      carousel never show the same counter. */
  lemma CounterLabelsDistinct(i: nat, j: nat, n: nat)
    requires n > 1
    requires CounterLabel(i, n) == CounterLabel(j, n)
    ensures i == j
  {
    var tail := " / " + NatToString(n);
    assert CounterLabel(i, n) == NatToString(i + 1) + tail;
    assert CounterLabel(j, n) == NatToString(j + 1) + tail;
    SuffixCancels(NatToString(i + 1), NatToString(j + 1), tail);
    NatToStringInjective(i + 1, j + 1);
  }

  /** The card `handleScroll`'s search settles on: 0 when no card is
      mounted; otherwise a mounted card at least as near as every other
      mounted card and strictly nearer than every mounted card before it. */
  ghost predicate NearestFirst(distances: seq<Option<real>>, index: nat) {
    && ((forall k :: 0 <= k < |distances| ==> distances[k].None?) ==> index == 0)
    && ((exists k :: 0 <= k < |distances| && distances[k].Some?) ==>
          index < |distances| && distances[index].Some?
          && (forall k :: 0 <= k < |distances| && distances[k].Some? ==>
                distances[index].value <= distances[k].value)
          && (forall k :: 0 <= k < index && distances[k].Some? ==>
                distances[index].value < distances[k].value))
  }

  /** The search has one answer for any distances. */
  lemma NearestFirstUnique(distances: seq<Option<real>>, i: nat, j: nat)
    requires NearestFirst(distances, i) && NearestFirst(distances, j)
    ensures i == j
  {
  }

  /** `handleScroll`'s search: the position of the card nearest the
      centre, scanning in order and moving only on a strictly smaller
      distance, so the first of equally near cards wins; 0 when no card is
      mounted. Unmounted cards (`None`) are skipped. */
  method Closest(distances: seq<Option<real>>) returns (index: nat)
    ensures NearestFirst(distances, index)
  {
    index := 0;
    var closest: Option<real> := None;
    var i := 0;
    while i < |distances|
      invariant 0 <= i <= |distances|
      invariant closest.None? <==> forall k :: 0 <= k < i ==> distances[k].None?
      invariant closest.None? ==> index == 0
      invariant closest.Some? ==>
        index < i && distances[index] == closest
        && (forall k :: 0 <= k < i && distances[k].Some? ==> closest.value <= distances[k].value)
        && (forall k :: 0 <= k < index && distances[k].Some? ==> closest.value < distances[k].value)
    {
      if distances[i].Some? && (closest.None? || distances[i].value < closest.value) {
        index := i;
        closest := distances[i];
      }
      i := i + 1;
    }
  }

  class Carousel {
    const count: nat
    var currentIndex: nat
    var isHovered: bool

    constructor (count: nat)
      ensures this.count == count && currentIndex == 0 && !isHovered
    {
      this.count := count;
      currentIndex := 0;
      isHovered := false;
    }

    /** `scrollNext`: one card on, from the last back to the first. */
    method ScrollNext()
      requires count > 0
      modifies this`currentIndex
      ensures old(currentIndex) < count - 1 ==> currentIndex == old(currentIndex) + 1
      ensures old(currentIndex) >= count - 1 ==> currentIndex == 0
    {
      if currentIndex < count - 1 {
        currentIndex := currentIndex + 1;
      } else {
        currentIndex := 0;
      }
    }

    /** `scrollPrev`: one card back, from the first to the last. */
    method ScrollPrev()
      requires count > 0
      modifies this`currentIndex
      ensures old(currentIndex) > 0 ==> currentIndex == old(currentIndex) - 1
      ensures old(currentIndex) == 0 ==> currentIndex == count - 1
    {
      if currentIndex > 0 {
        currentIndex := currentIndex - 1;
      } else {
        currentIndex := count - 1;
      }
    }

    /** The pointer entering or leaving the carousel. */
    method SetHovered(hovered: bool)
      modifies this`isHovered
      ensures isHovered == hovered
    {
      isHovered := hovered;
    }

    /** One auto-advance interval: it only runs with more than one card and
        the pointer outside. */
    method AutoTick()
      modifies this`currentIndex
      ensures count > 1 && !isHovered ==> currentIndex == NextIndex(old(currentIndex), count)
      ensures !(count > 1 && !isHovered) ==> currentIndex == old(currentIndex)
    {
      if count > 1 && !isHovered {
        currentIndex := NextIndex(currentIndex, count);
      }
    }

    /** `handleScroll`: the nearest card becomes current when it differs and
        is one of this section's cards (stale card slots may lie beyond
        them). The card the search picked is returned. */
    method HandleScroll(distances: seq<Option<real>>) returns (closest: nat)
      modifies this`currentIndex
      ensures NearestFirst(distances, closest)
      ensures currentIndex ==
        if closest != old(currentIndex) && closest < count then closest else old(currentIndex)
    {
      closest := Closest(distances);
      if closest != currentIndex && closest < count {
        currentIndex := closest;
      }
    }
  }

  /** Within the cards, the arrows step exactly as the shared wrap-around
      arithmetic does. */
  lemma ArrowsAreRotation(i: nat, n: nat)
    requires 0 < n && i < n
    ensures (if i < n - 1 then i + 1 else 0) == NextIndex(i, n)
    ensures (if i > 0 then i - 1 else n - 1) == PrevIndex(i, n)
  {
  }
}
