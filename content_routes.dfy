/** The four handlers of the content routes over the record store and the
    upload directory: the listing with its visibility filter, create,
    update with media reconciliation, and delete with its file cascade.
    Each handler is proved against the outcome function of the request
    module; the clock and the generated file ids are parameters. */
module ContentRoutes {
  import opened Wrappers
  import opened Strings
  import opened ContentSchema
  import opened FileStorage
  import opened ContentRequest

  /** Builds the query object key by key, as `GET /` does; the store then
      returns exactly the records the visibility rule admits. */
  method BuildFilter(typeQuery: Option<string>, auth: Option<string>, now: Time) returns (filter: Filter)
    ensures forall c :: Matches(filter, c) <==> Listed(typeQuery, auth, now, c)
  {
    filter := NoConditions;
    if Given(typeQuery) {
      filter := filter.(typeIs := typeQuery);
    }
    if !Admin(auth) {
      filter := filter.(activeIs := Some(true));
      if typeQuery == Some("EVENT") {
        filter := filter.(startAtMost := Some(now), endAtLeast := Some(now));
      } else if !Given(typeQuery) {
        var clauses := [Clause(None, Some("EVENT"), None, None),
                        Clause(Some("EVENT"), None, Some(now), Some(now))];
        filter := filter.(anyOf := Some(clauses));
        forall c | Listed(typeQuery, auth, now, c)
          ensures Matches(filter, c)
        {
          if c.kind == Event {
            assert ClauseMatches(clauses[1], c);
          } else {
            assert ClauseMatches(clauses[0], c);
          }
        }
      }
    }
  }

  /** `Content.find(filter).sort({createdAt: -1})`: every matching record
      once, newest first. */
  method FindNewestFirst(docs: map<Id, Content>, filter: Filter) returns (ids: seq<Id>)
    ensures forall x :: x in ids <==> x in docs && Matches(filter, docs[x])
    ensures Distinct(ids)
    ensures NewestFirst(docs, ids)
  {
    var rest := docs.Keys;
    ids := [];
    while rest != {}
      invariant rest <= docs.Keys
      invariant forall x :: x in ids ==> x in docs
      invariant forall x :: x in ids <==> x in docs && x !in rest && Matches(filter, docs[x])
      invariant Distinct(ids)
      invariant NewestFirst(docs, ids)
      decreases |rest|
    {
      var x :| x in rest;
      if Matches(filter, docs[x]) {
        InsertNewestStep(docs, ids, x);
        ids := InsertNewest(docs, ids, x);
      }
      rest := rest - {x};
    }
  }

  /** `GET /`: the records the caller may see, newest first. Without an
      `Authorization` header only active records come back, and an EVENT
      only while `now` lies in its window; with one, every record of the
      requested type comes back. */
  method ListContent(store: ContentCollection, typeQuery: Option<string>, auth: Option<string>, now: Time)
    returns (reply: Reply, ids: seq<Id>)
    ensures forall x :: x in ids <==> x in store.docs && Listed(typeQuery, auth, now, store.docs[x])
    ensures Distinct(ids) && NewestFirst(store.docs, ids)
    ensures reply.Listing? && |reply.records| == |ids|
    ensures forall k :: 0 <= k < |ids| ==> ids[k] in store.docs && reply.records[k] == store.docs[ids[k]]
    ensures !Admin(auth) ==> forall k :: 0 <= k < |ids| ==>
      reply.records[k].isActive && (reply.records[k].kind == Event ==> InWindow(reply.records[k], now))
    ensures Admin(auth) ==> forall x :: x in store.docs && (Given(typeQuery) ==> TypeName(store.docs[x].kind) == typeQuery.value) ==> x in ids
  {
    var filter := BuildFilter(typeQuery, auth, now);
    ids := FindNewestFirst(store.docs, filter);
    var records := [];
    var i := 0;
    while i < |ids|
      invariant 0 <= i <= |ids|
      invariant |records| == i
      invariant forall k :: 0 <= k < i ==> records[k] == store.docs[ids[k]]
    {
      records := records + [store.docs[ids[i]]];
      i := i + 1;
    }
    reply := Listing(records);
    assert forall k :: 0 <= k < |ids| ==> ids[k] in ids;
  }

  /** `uploadMultipleFiles` when files were sent, nothing otherwise, with
      each result turned into a media entry. */
  method UploadAll(dir: UploadDir, files: seq<IncomingFile>, uuids: seq<string>)
    returns (r: Result<seq<MediaItem>, string>)
    requires |uuids| == |files|
    modifies dir`files
    ensures dir.files == old(dir.files) + Written(BatchNames(files, uuids), dir.writeErrors)
    ensures r.Err? ==> BatchError(BatchNames(files, uuids), dir.writeErrors) == Some(r.error)
    ensures r.Ok? ==> BatchError(BatchNames(files, uuids), dir.writeErrors).None?
                      && r.value == UploadedMedia(BatchNames(files, uuids))
  {
    var names := BatchNames(files, uuids);
    if |files| > 0 {
      var up := dir.UploadMultipleFiles(files, uuids);
      if up.Err? {
        return Err(up.error);
      }
      assert ToMedia(up.value) == UploadedMedia(names);
      r := Ok(ToMedia(up.value));
    } else {
      assert names == [];
      r := Ok([]);
    }
  }

  /** `POST /`: the checks, the uploads, `new Content(...)` and the save. */
  method CreateContent(store: ContentCollection, dir: UploadDir, req: ContentRequest,
                       uuids: seq<string>, id: Id, now: Time) returns (reply: Reply)
    requires store.Valid()
    requires |uuids| == |req.files|
    requires id !in store.docs
    modifies store, dir`files
    ensures store.Valid()
    ensures reply == CreateSpec(req, BatchNames(req.files, uuids), dir.writeErrors, now).reply
    ensures var saved := CreateSpec(req, BatchNames(req.files, uuids), dir.writeErrors, now).saved;
      store.docs == if saved.Some? then old(store.docs)[id := saved.value] else old(store.docs)
    ensures dir.files == old(dir.files)
      + (if CreateCheck(req).Ok? then Written(BatchNames(req.files, uuids), dir.writeErrors) else {})
  {
    var check := CreateCheck(req);
    if check.Err? {
      return BadRequest(check.error);
    }
    reply := CreateChecked(store, dir, check.value, req, uuids, id, now);
  }

  /** `POST /` once its checks passed. */
  method CreateChecked(store: ContentCollection, dir: UploadDir, kind: ContentType, req: ContentRequest,
                       uuids: seq<string>, id: Id, now: Time) returns (reply: Reply)
    requires store.Valid()
    requires Given(req.title) && Given(req.description)
    requires |uuids| == |req.files|
    requires id !in store.docs
    modifies store, dir`files
    ensures store.Valid()
    ensures reply == CreateCheckedSpec(kind, req, BatchNames(req.files, uuids), dir.writeErrors, now).reply
    ensures store.docs ==
      CreateCheckedSpec(kind, req, BatchNames(req.files, uuids), dir.writeErrors, now).StoreAfter(old(store.docs), id)
    ensures dir.files == old(dir.files) + Written(BatchNames(req.files, uuids), dir.writeErrors)
  {
    ghost var names := BatchNames(req.files, uuids);
    var uploads := UploadAll(dir, req.files, uuids);
    ghost var spec := CreateCheckedSpec(kind, req, names, dir.writeErrors, now);
    if uploads.Err? {
      assert spec.reply == ServerError(UploadFilesPrefix + uploads.error) && spec.saved.None?;
      return ServerError(UploadFilesPrefix + uploads.error);
    }
    ghost var record := NewRecord(kind, req, UploadedMedia(names), now);
    assert spec == SaveSpec(record, true);
    var media := CreateMedia(req.existingMedia) + uploads.value;
    var isActive := ActiveOnCreate(req.isActive);
    var startDate := if kind == Event then req.startDate else None;
    var endDate := if kind == Event then req.endDate else None;
    var doc := new ContentDoc.Create(kind, req.title.value, req.description.value, Some(media),
                                     startDate, endDate, Some(isActive), now);
    assert doc.Value() == record && record.(updatedAt := now) == record;
    reply := SaveRecord(store, doc, id, now, true);
  }

  /** `await content.save()` and the answer that follows it. */
  method SaveRecord(store: ContentCollection, doc: ContentDoc, id: Id, now: Time, created: bool)
    returns (reply: Reply)
    requires store.Valid()
    requires IsTrimmed(doc.title) && IsTrimmed(doc.description)
    requires doc.kind != Event ==> doc.startDate.None? && doc.endDate.None?
    modifies store, doc
    ensures store.Valid()
    ensures var outcome := SaveSpec(old(doc.Value()).(updatedAt := now), created);
      reply == outcome.reply
      && store.docs == outcome.StoreAfter(old(store.docs), id)
  {
    ghost var before := doc.Value();
    assert Violations(before.(updatedAt := now)) == Violations(before);
    var errors := store.Save(doc, id, now);
    if errors != {} {
      reply := Rejected(errors);
    } else if created {
      reply := Created(doc.Value());
    } else {
      reply := Updated(doc.Value());
    }
  }

  /** The field assignments of `PUT /:id` before the media are handled. */
  method AssignFields(doc: ContentDoc, req: ContentRequest)
    modifies doc
    ensures doc.Value() == WithFields(old(doc.Value()), req)
    ensures IsTrimmed(old(doc.title)) ==> IsTrimmed(doc.title)
    ensures IsTrimmed(old(doc.description)) ==> IsTrimmed(doc.description)
  {
    if Given(req.title) {
      doc.SetTitle(req.title.value);
    }
    if Given(req.description) {
      doc.SetDescription(req.description.value);
    }
    if req.isActive.Some? {
      doc.isActive := Coerce(req.isActive.value);
    }
  }

  /** `content.media = media` and the dates of an EVENT that were given. */
  method AssignMediaAndDates(doc: ContentDoc, media: seq<MediaItem>, req: ContentRequest)
    modifies doc
    ensures doc.Value() == WithMediaAndDates(old(doc.Value()), req, media)
  {
    doc.media := media;
    if doc.kind == Event {
      if req.startDate.Some? {
        doc.startDate := req.startDate;
      }
      if req.endDate.Some? {
        doc.endDate := req.endDate;
      }
    }
  }

  /** `PUT /:id`: assigns the given fields, deletes the files of the media
      entries the request drops, uploads the new files, appends them, sets
      the dates of an EVENT, checks their order and saves. The deletes
      happen before any check that can still reject the request. */
  method UpdateContent(store: ContentCollection, dir: UploadDir, id: Id, req: ContentRequest,
                       uuids: seq<string>, now: Time) returns (reply: Reply)
    requires store.Valid()
    requires |uuids| == |req.files|
    modifies store, dir`files, dir`deleteLog
    ensures store.Valid()
    ensures id !in old(store.docs) ==>
      reply == NotFound && store.docs == old(store.docs)
      && dir.files == old(dir.files) && dir.deleteLog == old(dir.deleteLog)
    ensures id in old(store.docs) ==>
      var c := old(store.docs)[id];
      var outcome := UpdateSpec(c, req, BatchNames(req.files, uuids), dir.writeErrors, now);
      reply == outcome.reply
      && store.docs == outcome.StoreAfter(old(store.docs), id)
    ensures id in old(store.docs) ==>
      var c := old(store.docs)[id];
      var removed := Urls(RemovedMedia(c.media, KeptMedia(c.media, req.existingMedia)));
      dir.deleteLog == old(dir.deleteLog) + removed
      && dir.files == (old(dir.files) - Unlinked(removed, dir.unlinkErrors))
                      + Written(BatchNames(req.files, uuids), dir.writeErrors)
  {
    var doc := store.FindById(id);
    if doc == null {
      return NotFound;
    }
    reply := UpdateExisting(store, dir, doc, id, req, uuids, now);
  }

  /** `PUT /:id` once the record was found. */
  method UpdateExisting(store: ContentCollection, dir: UploadDir, doc: ContentDoc, id: Id,
                        req: ContentRequest, uuids: seq<string>, now: Time) returns (reply: Reply)
    requires store.Valid()
    requires id in store.docs && doc.Value() == store.docs[id]
    requires |uuids| == |req.files|
    modifies store, doc, dir`files, dir`deleteLog
    ensures store.Valid()
    ensures reply == UpdateSpec(old(doc.Value()), req, BatchNames(req.files, uuids), dir.writeErrors, now).reply
    ensures var saved := UpdateSpec(old(doc.Value()), req, BatchNames(req.files, uuids), dir.writeErrors, now).saved;
      saved.None? ==> store.docs == old(store.docs)
    ensures var saved := UpdateSpec(old(doc.Value()), req, BatchNames(req.files, uuids), dir.writeErrors, now).saved;
      saved.Some? ==> store.docs == old(store.docs)[id := saved.value]
    ensures var c := old(doc.Value());
      var removed := Urls(RemovedMedia(c.media, KeptMedia(c.media, req.existingMedia)));
      dir.deleteLog == old(dir.deleteLog) + removed
      && dir.files == (old(dir.files) - Unlinked(removed, dir.unlinkErrors))
                      + Written(BatchNames(req.files, uuids), dir.writeErrors)
  {
    ghost var c := doc.Value();
    ghost var names := BatchNames(req.files, uuids);
    AssignFields(doc, req);
    assert doc.media == c.media;
    var media := ReconcileMedia(dir, doc.media, req, uuids);
    if media.Err? {
      UpdateSpecUploadFailed(c, req, names, dir.writeErrors, now);
      return ServerError(UploadFilesPrefix + media.error);
    }
    reply := FinishUpdate(store, doc, id, media.value, req, now, c, names, dir.writeErrors);
  }

  /** The media half of `PUT /:id`: the kept list, one delete per original
      entry it drops, then the uploads appended to it. */
  method ReconcileMedia(dir: UploadDir, original: seq<MediaItem>, req: ContentRequest, uuids: seq<string>)
    returns (r: Result<seq<MediaItem>, string>)
    requires |uuids| == |req.files|
    modifies dir`files, dir`deleteLog
    ensures var removed := Urls(RemovedMedia(original, KeptMedia(original, req.existingMedia)));
      dir.deleteLog == old(dir.deleteLog) + removed
      && dir.files == (old(dir.files) - Unlinked(removed, dir.unlinkErrors))
                      + Written(BatchNames(req.files, uuids), dir.writeErrors)
    ensures r.Err? ==> BatchError(BatchNames(req.files, uuids), dir.writeErrors) == Some(r.error)
    ensures r.Ok? ==>
      BatchError(BatchNames(req.files, uuids), dir.writeErrors).None?
      && r.value == KeptMedia(original, req.existingMedia) + UploadedMedia(BatchNames(req.files, uuids))
  {
    var media := KeptMedia(original, req.existingMedia);
    var removed := RemovedMedia(original, media);
    dir.DeleteEach(Urls(removed));
    var uploads := UploadAll(dir, req.files, uuids);
    if uploads.Err? {
      return Err(uploads.error);
    }
    r := Ok(media + uploads.value);
  }

  /** The end of `PUT /:id` for a record `c` whose fields were assigned
      and whose uploads `names` succeeded: the new media list and the dates
      of an EVENT are assigned, the date order of an EVENT is checked, then
      the save. */
  method FinishUpdate(store: ContentCollection, doc: ContentDoc, id: Id, media: seq<MediaItem>,
                      req: ContentRequest, now: Time,
                      ghost c: Content, ghost names: seq<string>, ghost writeErrors: map<string, string>)
    returns (reply: Reply)
    requires store.Valid()
    requires IsTrimmed(doc.title) && IsTrimmed(doc.description)
    requires doc.kind != Event ==> doc.startDate.None? && doc.endDate.None?
    requires doc.Value() == WithFields(c, req)
    requires media == KeptMedia(c.media, req.existingMedia) + UploadedMedia(names)
    requires BatchError(names, writeErrors).None?
    modifies store, doc
    ensures store.Valid()
    ensures reply == UpdateSpec(c, req, names, writeErrors, now).reply
    ensures store.docs == UpdateSpec(c, req, names, writeErrors, now).StoreAfter(old(store.docs), id)
  {
    UpdateSpecOnceUploaded(c, req, names, writeErrors, now);
    AssignMediaAndDates(doc, media, req);
    if doc.kind == Event && doc.startDate.Some? && doc.endDate.Some? && doc.endDate.value < doc.startDate.value {
      return BadRequest(EndDateMessage);
    }
    reply := SaveRecord(store, doc, id, now, false);
  }

  /** `DELETE /:id`: one delete attempt per media entry, failures ignored,
      then the record is removed. */
  method DeleteContent(store: ContentCollection, dir: UploadDir, id: Id) returns (reply: Reply)
    requires store.Valid()
    modifies store, dir`files, dir`deleteLog
    ensures store.Valid()
    ensures id !in old(store.docs) ==>
      reply == NotFound && store.docs == old(store.docs)
      && dir.files == old(dir.files) && dir.deleteLog == old(dir.deleteLog)
    ensures id in old(store.docs) ==>
      var urls := Urls(old(store.docs)[id].media);
      reply == Deleted && store.docs == old(store.docs) - {id}
      && dir.deleteLog == old(dir.deleteLog) + urls
      && dir.files == old(dir.files) - Unlinked(urls, dir.unlinkErrors)
  {
    var doc := store.FindById(id);
    if doc == null {
      return NotFound;
    }
    dir.DeleteEach(Urls(doc.media));
    store.Remove(id);
    reply := Deleted;
  }
}
