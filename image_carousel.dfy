/** The image carousel of a content card's detail view: which image is
    shown, the arrow and indicator handlers, and the autoplay step. */
module ImageCarousel {
  import opened Wrappers
  import opened Strings
  import opened ContentSchema
  import opened ImageUrl
  import opened Rotation

  /** The grey "No Image" placeholder (an SVG data URL). */
  const DefaultImage: string := "data:image/svg+xml,%3Csvg xmlns='http://www.w3.org/2000/svg' width='400' height='300' viewBox='0 0 400 300'%3E%3Crect fill='%23e0e0e0' width='400' height='300'/%3E%3Ctext fill='%23999' font-family='sans-serif' font-size='20' dy='10.5' font-weight='bold' x='50%25' y='50%25' text-anchor='middle'%3ENo Image%3C/text%3E%3C/svg%3E"

  /** The `alt` text of an empty gallery without a title. */
  const NoImageAlt: string := "No image"

  /** The `alt` text of a shown image: the title when there is one, else
      "Image <n>" with the 1-based position. Never empty. */
  function AltText(title: Option<string>, index: nat): (r: string)
    ensures title.Some? && title.value != "" ==> r == title.value
    ensures title.None? || title.value == "" ==> r == "Image " + NatToString(index + 1)
    ensures r != ""
  {
    if title.Some? && title.value != "" then title.value else "Image " + NatToString(index + 1)
  }

  /** Distinct positions get distinct `alt` texts when there is no title. */
  lemma AltTextsDistinct(i: nat, j: nat)
    requires AltText(None, i) == AltText(None, j)
    ensures i == j
  {
    var a := AltText(None, i);
    assert a[6..] == NatToString(i + 1);
    assert AltText(None, j)[6..] == NatToString(j + 1);
    NatToStringInjective(i + 1, j + 1);
  }

  /** The empty gallery's `alt` text is never that of a shown image, so
      the two states read differently without a title. */
  lemma EmptyAltNotASlide(i: nat)
    ensures NoImageAlt != AltText(None, i)
  {
    assert NoImageAlt[1] != AltText(None, i)[1];
  }

  class Carousel {
    const images: seq<MediaItem>
    var currentIndex: nat
    var autoPlay: bool

    /** The index names an image, or is 0 for an empty list. */
    predicate Valid()
      reads this
    {
      currentIndex < |images| || currentIndex == 0
    }

    /** The `src` of the shown image, or the placeholder. */
    function Src(env: Option<string>): (r: string)
      reads this
      ensures images == [] ==> r == DefaultImage
      ensures r != ""
    {
      ImageOrPlaceholder(images, currentIndex, env, DefaultImage)
    }

    /** The `alt` of the shown image, or of the placeholder when the
        gallery is empty: the title whenever there is one. */
    function Alt(title: Option<string>): (r: string)
      reads this
      ensures r != ""
      ensures title.Some? && title.value != "" ==> r == title.value
      ensures images == [] && (title.None? || title.value == "") ==> r == NoImageAlt
      ensures images != [] && (title.None? || title.value == "") ==> r == AltText(None, currentIndex)
    {
      if images == [] then
        (if title.Some? && title.value != "" then title.value else NoImageAlt)
      else AltText(title, currentIndex)
    }

    /** A fresh carousel shows the first image and plays. */
    constructor (images: seq<MediaItem>)
      ensures this.images == images && currentIndex == 0 && autoPlay
      ensures Valid()
    {
      this.images := images;
      currentIndex := 0;
      autoPlay := true;
    }

    /** `changeSlide`: shows the given image and stops autoplay for good.
        The fade-out delay before the index changes is not modelled. */
    method ChangeSlide(newIndex: nat)
      requires newIndex < |images|
      modifies this
      ensures currentIndex == newIndex && !autoPlay
      ensures Valid()
    {
      currentIndex := newIndex;
      autoPlay := false;
    }

    /** `goToNext` (the right arrow). */
    method GoToNext()
      requires Valid() && |images| > 0
      modifies this
      ensures currentIndex == NextIndex(old(currentIndex), |images|) && !autoPlay
      ensures Valid()
    {
      ChangeSlide(NextIndex(currentIndex, |images|));
    }

    /** `goToPrevious` (the left arrow). */
    method GoToPrevious()
      requires Valid() && |images| > 0
      modifies this
      ensures currentIndex == PrevIndex(old(currentIndex), |images|) && !autoPlay
      ensures Valid()
    {
      ChangeSlide(PrevIndex(currentIndex, |images|));
    }

    /** `goToSlide(index)` from an indicator dot: a click on the current
        dot changes nothing, not even autoplay. */
    method GoToSlide(index: nat)
      requires index < |images|
      modifies this
      ensures index == old(currentIndex) ==> currentIndex == old(currentIndex) && autoPlay == old(autoPlay)
      ensures index != old(currentIndex) ==> currentIndex == index && !autoPlay
      ensures old(Valid()) ==> Valid()
    {
      if index != currentIndex {
        ChangeSlide(index);
      }
    }

    /** One autoplay interval: it only runs while autoplay is on and there
        is more than one image. */
    method Tick()
      requires Valid()
      modifies this`currentIndex
      ensures autoPlay && |images| > 1 ==> currentIndex == NextIndex(old(currentIndex), |images|)
      ensures !(autoPlay && |images| > 1) ==> currentIndex == old(currentIndex)
      ensures Valid()
    {
      if autoPlay && |images| > 1 {
        currentIndex := NextIndex(currentIndex, |images|);
      }
    }
  }

  /** A manual change is final: after one, no number of autoplay
      intervals turns autoplay back on or moves the index. */
  method ManualChangeStopsAutoplay(c: Carousel, ticks: nat)
    requires c.Valid() && |c.images| > 1
    modifies c
    ensures !c.autoPlay && c.Valid()
    ensures c.currentIndex == NextIndex(old(c.currentIndex), |c.images|)
  {
    c.GoToNext();
    var shown := c.currentIndex;
    var t := 0;
    while t < ticks
      invariant c.Valid() && !c.autoPlay && c.currentIndex == shown
    {
      c.Tick();
      t := t + 1;
    }
  }
}
