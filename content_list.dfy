/** The admin list of records: one row per record with its badges, a
    shortened description, the event dates and the media count, or a
    single message when there are no records. */
module ContentList {
  import opened Wrappers
  import opened Strings
  import opened ContentSchema
  import opened ContentCard
  import opened ContentRequest

  const PreviewLength: nat := 100
  const EmptyMessage: string := "No items yet. Click \"Create New\" to add your first item."

  datatype Badge = Active | Inactive | Expired

  /** One row of the list. */
  datatype Row = Row(id: Id, title: string, badges: seq<Badge>, preview: string,
                     showsDates: bool, mediaCount: nat)

  /** What the list shows. */
  datatype View = EmptyList(message: string) | Rows(rows: seq<Row>)

  /** `isEventExpired`: only an EVENT with an end date can be expired, and
      it is once that date is past. */
  predicate IsEventExpired(c: Content, now: Time) {
    c.kind == Event && c.endDate.Some? && c.endDate.value < now
  }

  /** The description in a row: its first 100 characters and "..." when
      longer. */
  function Preview(description: string): (r: string)
    ensures |description| > PreviewLength ==>
      |r| == PreviewLength + 3 && r[..PreviewLength] == description[..PreviewLength]
      && r[PreviewLength..] == "..."
    ensures |description| <= PreviewLength ==> r == description
  {
    Truncate(description, PreviewLength)
  }

  /** The badges of a record: Active or Inactive by `isActive`, then
      Expired for a past EVENT. */
  function Badges(c: Content, now: Time): (r: seq<Badge>)
    ensures (Active in r) != (Inactive in r)
    ensures Active in r <==> c.isActive
    ensures Expired in r <==> IsEventExpired(c, now)
    ensures |r| <= 2
  {
    (if c.isActive then [Active] else [Inactive]) + (if IsEventExpired(c, now) then [Expired] else [])
  }

  /** The number of media entries, 0 when the list is missing. */
  function MediaCount(media: Option<seq<MediaItem>>): (r: nat)
    ensures media.None? ==> r == 0
    ensures media.Some? ==> r == |media.value|
  {
    if media.Some? then |media.value| else 0
  }

  function RowOf(c: Content, id: Id, now: Time): Row {
    Row(id, c.title, Badges(c, now), Preview(c.description), ShowsEventDates(c), MediaCount(Some(c.media)))
  }

  /** The whole list: the empty message alone, or one row per record in the
      given order. */
  function Render(records: seq<(Id, Content)>, now: Time): (r: View)
    ensures records == [] <==> r == EmptyList(EmptyMessage)
    ensures records != [] ==> r.Rows? && |r.rows| == |records|
    ensures records != [] ==> forall k :: 0 <= k < |records| ==>
      r.rows[k].id == records[k].0 && r.rows[k].title == records[k].1.title
      && r.rows[k].mediaCount == |records[k].1.media|
      && (Active in r.rows[k].badges <==> records[k].1.isActive)
      && (Expired in r.rows[k].badges <==> IsEventExpired(records[k].1, now))
  {
    if records == [] then EmptyList(EmptyMessage)
    else Rows(seq(|records|, k requires 0 <= k < |records| => RowOf(records[k].1, records[k].0, now)))
  }

  /** A stored EVENT is expired exactly when its window has closed; no
      other record ever is. */
  lemma ExpiredIffWindowClosed(c: Content, now: Time)
    requires Stored(c)
    ensures IsEventExpired(c, now) <==> c.kind == Event && c.endDate.value < now
  {
    ValidIff(c);
  }

  /** The Expired badge marks exactly the active stored EVENTs whose run
      is over for the public listing: an expired EVENT is never listed to
      the public, and an active stored EVENT that is neither expired nor
      yet to start is. */
  lemma ExpiredLeavesPublicListing(c: Content, now: Time, typeQuery: Option<string>)
    requires Stored(c)
    ensures IsEventExpired(c, now) ==> !Listed(typeQuery, None, now, c)
    ensures c.kind == Event && c.isActive && !IsEventExpired(c, now) && c.startDate.value <= now
            && (Given(typeQuery) ==> typeQuery.value == "EVENT") ==>
      Listed(typeQuery, None, now, c)
  {
    ValidIff(c);
  }
}
