/** What the content routes compute before they touch the store: the
    request as the multipart parser delivers it, the listing filter and the
    visibility rule it implements, the checks `POST /` makes, the coercion
    of `isActive`, the reconciliation of an update's media list, and what
    each route answers, stated as functions of the request and the old
    state. */
module ContentRequest {
  import opened Wrappers
  import opened Strings
  import opened ContentSchema
  import opened FileStorage

  /** `isActive` arrives as form text or, from a JSON body, as a boolean. */
  datatype FlagField = FlagText(text: string) | FlagBool(flag: bool)

  /** `existingMedia` after `JSON.parse`: not sent (or sent empty), not
      valid JSON, a JSON array of media entries, or some other JSON value. */
  datatype MediaField = NotSent | NotJson | JsonArray(items: seq<MediaItem>) | JsonOther

  /** The body fields and uploaded files of a create or update request.
      A date is `None` when it is absent or empty; dates arrive already
      parsed. */
  datatype ContentRequest = ContentRequest(
    kind: Option<string>,
    title: Option<string>,
    description: Option<string>,
    startDate: Option<Time>,
    endDate: Option<Time>,
    isActive: Option<FlagField>,
    existingMedia: MediaField,
    files: seq<IncomingFile>)

  /** JavaScript truthiness of an optional string field. */
  predicate Given(s: Option<string>) {
    s.Some? && s.value != ""
  }

  const RequiredMessage: string := "Type, title, and description are required"
  const InvalidTypeMessage: string := "Invalid content type"
  const DatesRequiredMessage: string := "Start date and end date are required for events"

  /** The answer of a route. */
  datatype Reply =
    | Listing(records: seq<Content>)
    | Created(record: Content)
    | Updated(record: Content)
    | Deleted
    | BadRequest(message: string)
    | Rejected(errors: set<SchemaError>)
    | NotFound
    | ServerError(message: string)
  {
    function Status(): nat {
      match this
      case Listing(_) => 200
      case Created(_) => 201
      case Updated(_) => 200
      case Deleted => 200
      case BadRequest(_) => 400
      case Rejected(_) => 400
      case NotFound => 404
      case ServerError(_) => 500
    }
  }

  /** What a route answers and the record it saves, if any. */
  datatype Outcome = Outcome(reply: Reply, saved: Option<Content>)
  {
    /** The store once the outcome took effect: the saved record, if any,
        under `id`, and nothing else changed. */
    function StoreAfter(docs: map<Id, Content>, id: Id): map<Id, Content> {
      if saved.Some? then docs[id := saved.value] else docs
    }
  }

  // ---------------------------------------------------------------------
  // Listing

  /** One alternative of the `$or` list. */
  datatype Clause = Clause(typeIs: Option<string>, typeIsNot: Option<string>,
                           startAtMost: Option<Time>, endAtLeast: Option<Time>)

  /** The query object `GET /` hands to `Content.find`; a `None` field is a
      key the route did not set. */
  datatype Filter = Filter(typeIs: Option<string>, activeIs: Option<bool>,
                           startAtMost: Option<Time>, endAtLeast: Option<Time>,
                           anyOf: Option<seq<Clause>>)

  const NoConditions: Filter := Filter(None, None, None, None, None)

  /** `startDate: {$lte: t}` and `endDate: {$gte: t}`: a missing date
      matches neither. */
  predicate DatesMatch(startAtMost: Option<Time>, endAtLeast: Option<Time>, c: Content) {
    (startAtMost.Some? ==> c.startDate.Some? && c.startDate.value <= startAtMost.value)
    && (endAtLeast.Some? ==> c.endDate.Some? && c.endDate.value >= endAtLeast.value)
  }

  predicate ClauseMatches(cl: Clause, c: Content) {
    (cl.typeIs.Some? ==> TypeName(c.kind) == cl.typeIs.value)
    && (cl.typeIsNot.Some? ==> TypeName(c.kind) != cl.typeIsNot.value)
    && DatesMatch(cl.startAtMost, cl.endAtLeast, c)
  }

  /** How the store evaluates a filter against a record. */
  predicate Matches(f: Filter, c: Content) {
    (f.typeIs.Some? ==> TypeName(c.kind) == f.typeIs.value)
    && (f.activeIs.Some? ==> c.isActive == f.activeIs.value)
    && DatesMatch(f.startAtMost, f.endAtLeast, c)
    && (f.anyOf.Some? ==> exists k :: 0 <= k < |f.anyOf.value| && ClauseMatches(f.anyOf.value[k], c))
  }

  /** Any non-empty `Authorization` header counts as an administrator; the
      token itself is not checked by this route. */
  predicate Admin(auth: Option<string>) {
    Given(auth)
  }

  predicate InWindow(c: Content, now: Time) {
    c.startDate.Some? && c.endDate.Some? && c.startDate.value <= now <= c.endDate.value
  }

  /** The visibility rule of the listing: the requested type, if any, and
      for the public only active records, EVENTs only while they run. */
  predicate Listed(typeQuery: Option<string>, auth: Option<string>, now: Time, c: Content) {
    (Given(typeQuery) ==> TypeName(c.kind) == typeQuery.value)
    && (Admin(auth) || (c.isActive && (c.kind == Event ==> InWindow(c, now))))
  }

  /** No id occurs twice. */
  ghost predicate Distinct(ids: seq<Id>) {
    forall x :: multiset(ids)[x] <= 1
  }

  /** Ordered by `createdAt`, newest first. */
  predicate NewestFirst(docs: map<Id, Content>, ids: seq<Id>) {
    forall i, j :: 0 <= i < j < |ids| && ids[i] in docs && ids[j] in docs ==>
      docs[ids[i]].createdAt >= docs[ids[j]].createdAt
  }

  /** Places `x` before the first id that is not newer than it. */
  function InsertNewest(docs: map<Id, Content>, ids: seq<Id>, x: Id): (r: seq<Id>)
    requires x in docs && forall y :: y in ids ==> y in docs
    ensures multiset(r) == multiset(ids) + multiset{x}
  {
    if ids == [] || docs[ids[0]].createdAt <= docs[x].createdAt then
      [x] + ids
    else
      assert ids == [ids[0]] + ids[1..];
      [ids[0]] + InsertNewest(docs, ids[1..], x)
  }

  /** An id no older than any of an ordered list can go in front of it. */
  lemma PrependNewest(docs: map<Id, Content>, h: Id, t: seq<Id>)
    requires h in docs && forall y :: y in t ==> y in docs
    requires NewestFirst(docs, t)
    requires forall y :: y in t ==> docs[h].createdAt >= docs[y].createdAt
    ensures NewestFirst(docs, [h] + t)
  {
    var r := [h] + t;
    forall i, j | 0 <= i < j < |r|
      ensures docs[r[i]].createdAt >= docs[r[j]].createdAt
    {
      assert r[j] == t[j - 1];
      if i > 0 {
        assert r[i] == t[i - 1];
      }
    }
  }

  /** Inserting into a list ordered newest first keeps it ordered. */
  lemma {:induction false} InsertNewestSorted(docs: map<Id, Content>, ids: seq<Id>, x: Id)
    requires x in docs && forall y :: y in ids ==> y in docs
    requires NewestFirst(docs, ids)
    ensures NewestFirst(docs, InsertNewest(docs, ids, x))
  {
    if ids == [] || docs[ids[0]].createdAt <= docs[x].createdAt {
      forall y | y in ids
        ensures docs[x].createdAt >= docs[y].createdAt
      {
        var j :| 0 <= j < |ids| && ids[j] == y;
        if j > 0 {
          assert docs[ids[0]].createdAt >= docs[ids[j]].createdAt;
        }
      }
      PrependNewest(docs, x, ids);
    } else {
      var t := InsertNewest(docs, ids[1..], x);
      InsertNewestSorted(docs, ids[1..], x);
      forall y | y in t
        ensures y in docs && docs[ids[0]].createdAt >= docs[y].createdAt
      {
        assert y in multiset(t);
        if y != x {
          assert y in multiset(ids[1..]);
          var j :| 0 <= j < |ids[1..]| && ids[1..][j] == y;
          assert ids[j + 1] == y;
        }
      }
      PrependNewest(docs, ids[0], t);
    }
  }

  /** Inserting a new id keeps an ordered list of distinct ids ordered
      and distinct, and adds exactly that id. */
  lemma InsertNewestStep(docs: map<Id, Content>, ids: seq<Id>, x: Id)
    requires x in docs && forall y :: y in ids ==> y in docs
    requires x !in ids && Distinct(ids) && NewestFirst(docs, ids)
    ensures var r := InsertNewest(docs, ids, x);
      && Distinct(r) && NewestFirst(docs, r)
      && forall y :: y in r <==> y in ids || y == x
  {
    var r := InsertNewest(docs, ids, x);
    InsertNewestSorted(docs, ids, x);
    assert forall y :: y in r <==> y in multiset(r);
  }

  // ---------------------------------------------------------------------
  // Create

  /** The sent `isActive` is on only as the text "true" or the boolean
      true. */
  function Coerce(f: FlagField): (r: bool)
    ensures r <==> f == FlagText("true") || f == FlagBool(true)
  {
    match f
    case FlagText(t) => t == "true"
    case FlagBool(b) => b
  }

  /** The `isActive` a created record gets: true when the field is absent. */
  function ActiveOnCreate(f: Option<FlagField>): (r: bool)
    ensures r <==> f.None? || f == Some(FlagText("true")) || f == Some(FlagBool(true))
  {
    if f.Some? then Coerce(f.value) else true
  }

  /** The checks `POST /` makes, in order, before it parses or uploads
      anything; success gives the requested type. */
  function CreateCheck(req: ContentRequest): (r: Result<ContentType, string>)
    ensures r.Ok? <==>
      Given(req.kind) && Given(req.title) && Given(req.description)
      && ParseType(req.kind.value).Some?
      && (req.kind.value == "EVENT" ==>
            req.startDate.Some? && req.endDate.Some? && req.startDate.value <= req.endDate.value)
    ensures r.Ok? ==> TypeName(r.value) == req.kind.value
    ensures r.Err? ==> r.error in {RequiredMessage, InvalidTypeMessage, DatesRequiredMessage, EndDateMessage}
  {
    if !Given(req.kind) || !Given(req.title) || !Given(req.description) then Err(RequiredMessage)
    else match ParseType(req.kind.value)
      case None => Err(InvalidTypeMessage)
      case Some(kind) =>
        if kind == Event && (req.startDate.None? || req.endDate.None?) then Err(DatesRequiredMessage)
        else if kind == Event && req.endDate.value < req.startDate.value then Err(EndDateMessage)
        else Ok(kind)
  }

  /** The media list a create starts from: the parsed `existingMedia` when
      it is a JSON array, otherwise nothing. */
  function CreateMedia(field: MediaField): (r: seq<MediaItem>)
    ensures field.JsonArray? ==> r == field.items
    ensures !field.JsonArray? ==> r == []
  {
    if field.JsonArray? then field.items else []
  }

  /** The `{url, type}` entry of each upload result, in order. */
  function UploadedMedia(names: seq<string>): (r: seq<MediaItem>)
    ensures |r| == |names|
    ensures forall k :: 0 <= k < |names| ==> r[k] == MediaItem(PublicUrl(names[k]), UploadedKind)
  {
    if names == [] then []
    else UploadedMedia(names[..|names| - 1]) + [MediaItem(PublicUrl(names[|names| - 1]), UploadedKind)]
  }

  /** The media entry of each upload result, in order. */
  function ToMedia(results: seq<UploadResult>): (r: seq<MediaItem>)
    ensures |r| == |results|
    ensures forall k :: 0 <= k < |results| ==> r[k] == MediaItem(results[k].url, results[k].kind)
  {
    if results == [] then []
    else ToMedia(results[..|results| - 1]) + [MediaItem(results[|results| - 1].url, results[|results| - 1].kind)]
  }

  /** `new Content({...})` for a create that passed its checks: dates only
      for an EVENT, the default for `isActive`, both timestamps now. */
  function NewRecord(kind: ContentType, req: ContentRequest, uploads: seq<MediaItem>, now: Time): Content
    requires Given(req.title) && Given(req.description)
  {
    Content(kind, Trim(req.title.value), Trim(req.description.value),
            CreateMedia(req.existingMedia) + uploads,
            if kind == Event then req.startDate else None,
            if kind == Event then req.endDate else None,
            ActiveOnCreate(req.isActive), now, now)
  }

  /** `POST /`: checks, then uploads (if files were sent), then the save;
      `names` are the stored names the uploads would get and `writeErrors`
      the failing writes. */
  function CreateSpec(req: ContentRequest, names: seq<string>,
                      writeErrors: map<string, string>, now: Time): Outcome
  {
    match CreateCheck(req)
    case Err(message) => Outcome(BadRequest(message), None)
    case Ok(kind) => CreateCheckedSpec(kind, req, names, writeErrors, now)
  }

  /** `POST /` once its checks passed. */
  function CreateCheckedSpec(kind: ContentType, req: ContentRequest, names: seq<string>,
                             writeErrors: map<string, string>, now: Time): Outcome
    requires Given(req.title) && Given(req.description)
  {
    var failure := BatchError(names, writeErrors);
    if failure.Some? then Outcome(ServerError(UploadFilesPrefix + failure.value), None)
    else SaveSpec(NewRecord(kind, req, UploadedMedia(names), now), true)
  }

  /** The save at the end of create (201) and update (200): a record
      without schema violations is written and sent back, any other is
      rejected with its violations. */
  function SaveSpec(record: Content, created: bool): Outcome {
    var errors := Violations(record);
    if errors != {} then Outcome(Rejected(errors), None)
    else if created then Outcome(Created(record), Some(record))
    else Outcome(Updated(record), Some(record))
  }

  // ---------------------------------------------------------------------
  // Update

  /** Some entry of `media` has this url (`media.some(...)`). */
  predicate HasUrl(media: seq<MediaItem>, url: string) {
    exists k :: 0 <= k < |media| && media[k].url == url
  }

  /** The media list an update keeps: the original when `existingMedia` is
      absent or not JSON, the parsed list when it is an array, and nothing
      when it is some other JSON value. */
  function KeptMedia(original: seq<MediaItem>, field: MediaField): (r: seq<MediaItem>)
    ensures field.NotSent? || field.NotJson? ==> r == original
    ensures field.JsonArray? ==> r == field.items
    ensures field.JsonOther? ==> r == []
  {
    match field
    case NotSent => original
    case NotJson => original
    case JsonArray(items) => items
    case JsonOther => []
  }

  /** The original entries whose url no kept entry has, in their original
      order: each such entry as often as it occurs, no other entry. */
  function RemovedMedia(original: seq<MediaItem>, kept: seq<MediaItem>): (r: seq<MediaItem>)
    ensures forall m :: m in r <==> m in original && !HasUrl(kept, m.url)
    ensures forall m: MediaItem :: !HasUrl(kept, m.url) ==> multiset(r)[m] == multiset(original)[m]
    ensures forall m: MediaItem :: HasUrl(kept, m.url) ==> multiset(r)[m] == 0
  {
    if original == [] then []
    else
      assert original == [original[0]] + original[1..];
      (if HasUrl(kept, original[0].url) then [] else [original[0]]) + RemovedMedia(original[1..], kept)
  }

  /** The url of each entry (`removedItem.url`, `mediaItem.url`). */
  function Urls(media: seq<MediaItem>): (r: seq<string>)
    ensures |r| == |media|
    ensures forall k :: 0 <= k < |media| ==> r[k] == media[k].url
  {
    if media == [] then [] else Urls(media[..|media| - 1]) + [media[|media| - 1].url]
  }

  /** The record after the fields of `PUT /:id` were assigned: title and
      description only when given (through the `trim` setter), `isActive`
      only when present, the new media list, and the dates of an EVENT
      only when given. The type never changes. */
  function UpdatedRecord(c: Content, req: ContentRequest, media: seq<MediaItem>): (r: Content)
    ensures r.kind == c.kind && r.createdAt == c.createdAt && r.updatedAt == c.updatedAt
    ensures r.media == media
    ensures r.title == (if Given(req.title) then Trim(req.title.value) else c.title)
    ensures r.description == (if Given(req.description) then Trim(req.description.value) else c.description)
    ensures r.isActive == (if req.isActive.Some? then Coerce(req.isActive.value) else c.isActive)
    ensures c.kind != Event ==> r.startDate == c.startDate && r.endDate == c.endDate
    ensures c.kind == Event ==>
      r.startDate == (if req.startDate.Some? then req.startDate else c.startDate)
      && r.endDate == (if req.endDate.Some? then req.endDate else c.endDate)
  {
    WithMediaAndDates(WithFields(c, req), req, media)
  }

  /** The assignments of `title`, `description` and `isActive`. */
  function WithFields(c: Content, req: ContentRequest): Content {
    c.(title := if Given(req.title) then Trim(req.title.value) else c.title,
       description := if Given(req.description) then Trim(req.description.value) else c.description,
       isActive := if req.isActive.Some? then Coerce(req.isActive.value) else c.isActive)
  }

  /** The assignments of `media` and, for an EVENT, of the given dates. */
  function WithMediaAndDates(c: Content, req: ContentRequest, media: seq<MediaItem>): Content {
    c.(media := media,
       startDate := if c.kind == Event && req.startDate.Some? then req.startDate else c.startDate,
       endDate := if c.kind == Event && req.endDate.Some? then req.endDate else c.endDate)
  }

  /** `PUT /:id` for a record `c` that exists: the removed files are
      deleted first (not part of the outcome), then the uploads, the
      field assignments, the route's own date check and the save. */
  function UpdateSpec(c: Content, req: ContentRequest, names: seq<string>,
                      writeErrors: map<string, string>, now: Time): Outcome
  {
    var failure := BatchError(names, writeErrors);
    if failure.Some? then Outcome(ServerError(UploadFilesPrefix + failure.value), None)
    else UpdateSaveSpec(UpdatedRecord(c, req, KeptMedia(c.media, req.existingMedia) + UploadedMedia(names)), now)
  }

  /** `UpdateSpec` when an upload failed: 500 and nothing saved. */
  lemma UpdateSpecUploadFailed(c: Content, req: ContentRequest, names: seq<string>,
                               writeErrors: map<string, string>, now: Time)
    requires BatchError(names, writeErrors).Some?
    ensures UpdateSpec(c, req, names, writeErrors, now)
      == Outcome(ServerError(UploadFilesPrefix + BatchError(names, writeErrors).value), None)
  {
  }

  /** `UpdateSpec` once the uploads succeeded, as the assignments of the
      route apply it. */
  lemma UpdateSpecOnceUploaded(c: Content, req: ContentRequest, names: seq<string>,
                               writeErrors: map<string, string>, now: Time)
    requires BatchError(names, writeErrors).None?
    ensures UpdateSpec(c, req, names, writeErrors, now)
      == UpdateSaveSpec(WithMediaAndDates(WithFields(c, req), req,
                                          KeptMedia(c.media, req.existingMedia) + UploadedMedia(names)), now)
  {
  }

  /** The end of `PUT /:id`: the route's own check of the date order of an
      EVENT, then the save. */
  function UpdateSaveSpec(u: Content, now: Time): Outcome {
    if EndDateValidatorFails(u) then Outcome(BadRequest(EndDateMessage), None)
    else SaveSpec(u.(updatedAt := now), false)
  }
}
