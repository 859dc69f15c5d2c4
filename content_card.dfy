/** A card of the public page: the description, shortened until the
    reader expands it, the background image rotating through the record's
    media, and the event dates line. */
module ContentCard {
  import opened Wrappers
  import opened Strings
  import opened ContentSchema
  import opened ImageUrl
  import opened Rotation

  const MaxDescriptionLength: nat := 150
  const RotateMillis: nat := 4000

  /** The purple "No Image" placeholder (an SVG data URL). */
  const DefaultImage: string := "data:image/svg+xml,%3Csvg xmlns='http://www.w3.org/2000/svg' width='400' height='300' viewBox='0 0 400 300'%3E%3Cdefs%3E%3ClinearGradient id='grad' x1='0%25' y1='0%25' x2='100%25' y2='100%25'%3E%3Cstop offset='0%25' style='stop-color:%23667eea;stop-opacity:1' /%3E%3Cstop offset='100%25' style='stop-color:%23764ba2;stop-opacity:1' /%3E%3C/linearGradient%3E%3C/defs%3E%3Crect fill='url(%23grad)' width='400' height='300'/%3E%3Ctext fill='white' font-family='sans-serif' font-size='24' dy='10.5' font-weight='bold' x='50%25' y='50%25' text-anchor='middle'%3ENo Image%3C/text%3E%3C/svg%3E"

  /** The description as shown: its first 150 characters and "..." while a
      longer one is collapsed, the whole text otherwise. */
  function DisplayDescription(description: string, expanded: bool): (r: string)
    ensures |description| > MaxDescriptionLength && !expanded ==>
      |r| == MaxDescriptionLength + 3
      && r[..MaxDescriptionLength] == description[..MaxDescriptionLength]
      && r[MaxDescriptionLength..] == "..."
    ensures |description| <= MaxDescriptionLength || expanded ==> r == description
  {
    if |description| > MaxDescriptionLength && !expanded then Truncate(description, MaxDescriptionLength)
    else description
  }

  /** The Read More / Read Less button is there exactly when collapsing
      changes the text. */
  predicate HasToggle(description: string) {
    |description| > MaxDescriptionLength
  }

  /** Without the button the text is the same in both states; with it,
      the collapsed text is the 153-character cut. */
  lemma ToggleOnlyWhenItMatters(description: string)
    ensures !HasToggle(description) ==>
      DisplayDescription(description, false) == DisplayDescription(description, true)
    ensures HasToggle(description) ==>
      |DisplayDescription(description, false)| == MaxDescriptionLength + 3
      && DisplayDescription(description, true) == description
  {
  }

  /** The date range line appears only for an EVENT with both dates. */
  predicate ShowsEventDates(c: Content) {
    c.kind == Event && c.startDate.Some? && c.endDate.Some?
  }

  /** A stored record always shows its dates when it is an EVENT, and never
      otherwise. */
  lemma StoredEventsShowDates(c: Content)
    requires Stored(c)
    ensures ShowsEventDates(c) <==> c.kind == Event
  {
    ValidIff(c);
  }

  class Card {
    const item: Content
    var showFullDescription: bool
    var currentImageIndex: nat

    constructor (item: Content)
      ensures this.item == item && !showFullDescription && currentImageIndex == 0
    {
      this.item := item;
      showFullDescription := false;
      currentImageIndex := 0;
    }

    /** `toggleDescription`: expands or collapses the description. */
    method Toggle()
      modifies this`showFullDescription
      ensures showFullDescription == !old(showFullDescription)
    {
      showFullDescription := !showFullDescription;
    }

    /** One rotation interval: only a record with several images rotates. */
    method RotateTick()
      modifies this`currentImageIndex
      ensures |item.media| > 1 ==> currentImageIndex == NextIndex(old(currentImageIndex), |item.media|)
      ensures |item.media| <= 1 ==> currentImageIndex == old(currentImageIndex)
    {
      if |item.media| > 1 {
        currentImageIndex := NextIndex(currentImageIndex, |item.media|);
      }
    }

    /** The description shown in the card's current state. */
    function Description(): (r: string)
      reads this
      ensures showFullDescription ==> r == item.description
    {
      DisplayDescription(item.description, showFullDescription)
    }

    /** `getBackgroundImage`: the current entry's resolved url, or the
        placeholder. */
    function BackgroundImage(env: Option<string>): (r: string)
      reads this
      ensures item.media == [] ==> r == DefaultImage
      ensures r != ""
    {
      ImageOrPlaceholder(item.media, currentImageIndex, env, DefaultImage)
    }
  }

  /** Toggling twice shows the text as before. */
  method ToggleTwiceRestores(card: Card)
    modifies card
    ensures card.Description() == old(card.Description())
  {
    card.Toggle();
    card.Toggle();
  }
}
