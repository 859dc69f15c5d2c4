/** What the outcome functions of the content routes promise: the reasons
    a create is refused, the record a create builds, what an update may
    and may not change, the media reconciliation rules, and that the
    delete cascade reaches the files the uploads wrote. */
module RouteProperties {
  import opened Wrappers
  import opened Strings
  import opened ContentSchema
  import opened FileStorage
  import opened ContentRequest

  /** A create is refused with 400 before anything is uploaded exactly
      when a required field is missing, the type is not one of the three,
      or an EVENT lacks a date or ends before it starts; each case has its
      own message. */
  lemma CreateRefusals(req: ContentRequest, names: seq<string>, writeErrors: map<string, string>, now: Time)
    ensures var reply := CreateSpec(req, names, writeErrors, now).reply;
      && (!Given(req.kind) || !Given(req.title) || !Given(req.description) ==>
            reply == BadRequest(RequiredMessage))
      && (Given(req.kind) && Given(req.title) && Given(req.description) && ParseType(req.kind.value).None? ==>
            reply == BadRequest(InvalidTypeMessage))
      && (Given(req.title) && Given(req.description) && req.kind == Some("EVENT")
          && (req.startDate.None? || req.endDate.None?) ==>
            reply == BadRequest(DatesRequiredMessage))
      && (Given(req.title) && Given(req.description) && req.kind == Some("EVENT")
          && req.startDate.Some? && req.endDate.Some? && req.endDate.value < req.startDate.value ==>
            reply == BadRequest(EndDateMessage))
    ensures CreateCheck(req).Err? ==> CreateSpec(req, names, writeErrors, now).saved.None?
  {
  }

  /** The record a successful create saves: the requested type, the
      trimmed text, `isActive` true unless a value other than "true" was
      sent, dates only for an EVENT, the parsed media list followed by one
      image entry per upload in upload order, both timestamps now, and a
      record that satisfies everything the store keeps. */
  lemma {:induction false} CreatedRecord(req: ContentRequest, names: seq<string>,
                                         writeErrors: map<string, string>, now: Time)
    requires CreateSpec(req, names, writeErrors, now).saved.Some?
    ensures var r := CreateSpec(req, names, writeErrors, now).saved.value;
      && CreateSpec(req, names, writeErrors, now).reply == Created(r)
      && req.kind.Some? && TypeName(r.kind) == req.kind.value
      && req.title.Some? && r.title == Trim(req.title.value)
      && req.description.Some? && r.description == Trim(req.description.value)
      && (r.isActive <==> req.isActive.None? || req.isActive == Some(FlagText("true"))
                          || req.isActive == Some(FlagBool(true)))
      && (r.kind == Event ==> r.startDate == req.startDate && r.endDate == req.endDate)
      && (r.kind != Event ==> r.startDate.None? && r.endDate.None?)
      && r.media[..|CreateMedia(req.existingMedia)|] == CreateMedia(req.existingMedia)
      && (req.existingMedia.JsonArray? ==> r.media[..|req.existingMedia.items|] == req.existingMedia.items)
      && (!req.existingMedia.JsonArray? ==> |r.media| == |names|)
      && |r.media| == |CreateMedia(req.existingMedia)| + |names|
      && (forall k :: 0 <= k < |names| ==>
            r.media[|CreateMedia(req.existingMedia)| + k] == MediaItem(PublicUrl(names[k]), UploadedKind))
      && r.createdAt == now && r.updatedAt == now
      && Stored(r)
  {
    var kind := CreateCheck(req).value;
    var r := NewRecord(kind, req, UploadedMedia(names), now);
    TrimIsTrimmed(req.title.value);
    TrimIsTrimmed(req.description.value);
    assert r.media == CreateMedia(req.existingMedia) + UploadedMedia(names);
  }

  /** Once its own checks passed, a create can only be refused by the
      schema for blank text or bad media entries: the date rules of the
      schema never fire, because the route checked them first. */
  lemma {:induction false} CreateRejectionsAreTextOrMedia(req: ContentRequest, names: seq<string>,
                                                          writeErrors: map<string, string>, now: Time)
    requires CreateSpec(req, names, writeErrors, now).reply.Rejected?
    ensures var errors := CreateSpec(req, names, writeErrors, now).reply.errors;
      && errors != {}
      && Required("startDate") !in errors && Required("endDate") !in errors && EndBeforeStart !in errors
      && (Required("title") in errors <==> Trim(req.title.value) == "")
      && (Required("description") in errors <==> Trim(req.description.value) == "")
  {
    var kind := CreateCheck(req).value;
    var r := NewRecord(kind, req, UploadedMedia(names), now);
    assert CreateSpec(req, names, writeErrors, now).reply.errors == Violations(r);
  }

  /** An update keeps the type and the creation time, stamps `updatedAt`,
      changes the title and description only when they are given non-empty,
      `isActive` only when it is sent, the dates only of an EVENT and only
      when given, and stores the kept media followed by the uploads. */
  lemma {:induction false} UpdatedRecordFields(c: Content, req: ContentRequest, names: seq<string>,
                                               writeErrors: map<string, string>, now: Time)
    requires UpdateSpec(c, req, names, writeErrors, now).saved.Some?
    ensures var r := UpdateSpec(c, req, names, writeErrors, now).saved.value;
      && UpdateSpec(c, req, names, writeErrors, now).reply == Updated(r)
      && r.kind == c.kind && r.createdAt == c.createdAt && r.updatedAt == now
      && r.title == (if Given(req.title) then Trim(req.title.value) else c.title)
      && r.description == (if Given(req.description) then Trim(req.description.value) else c.description)
      && r.isActive == (if req.isActive.Some? then Coerce(req.isActive.value) else c.isActive)
      && (c.kind != Event ==> r.startDate == c.startDate && r.endDate == c.endDate)
      && r.media == KeptMedia(c.media, req.existingMedia) + UploadedMedia(names)
  {
  }

  /** A record the store kept stays one after any successful update. */
  lemma {:induction false} UpdateKeepsStored(c: Content, req: ContentRequest, names: seq<string>,
                                             writeErrors: map<string, string>, now: Time)
    requires Stored(c)
    requires UpdateSpec(c, req, names, writeErrors, now).saved.Some?
    ensures Stored(UpdateSpec(c, req, names, writeErrors, now).saved.value)
  {
    if Given(req.title) {
      TrimIsTrimmed(req.title.value);
    }
    if Given(req.description) {
      TrimIsTrimmed(req.description.value);
    }
  }

  /** An EVENT whose resulting end date precedes its start date is refused
      with 400 and not saved, whether the offending date was sent or
      stored. */
  lemma UpdateRefusesReversedDates(c: Content, req: ContentRequest, names: seq<string>,
                                   writeErrors: map<string, string>, now: Time)
    requires c.kind == Event && BatchError(names, writeErrors).None?
    requires var s := if req.startDate.Some? then req.startDate else c.startDate;
      var e := if req.endDate.Some? then req.endDate else c.endDate;
      s.Some? && e.Some? && e.value < s.value
    ensures UpdateSpec(c, req, names, writeErrors, now) == Outcome(BadRequest(EndDateMessage), None)
  {
  }

  /** A failing upload answers 500 with the first failure's message and
      saves nothing. */
  lemma UploadFailureAborts(c: Content, req: ContentRequest, names: seq<string>,
                            writeErrors: map<string, string>, now: Time)
    requires BatchError(names, writeErrors).Some?
    ensures UpdateSpec(c, req, names, writeErrors, now)
      == Outcome(ServerError(UploadFilesPrefix + BatchError(names, writeErrors).value), None)
    ensures CreateCheck(req).Ok? ==>
              CreateSpec(req, names, writeErrors, now)
                == Outcome(ServerError(UploadFilesPrefix + BatchError(names, writeErrors).value), None)
  {
  }

  /** Without `existingMedia`, or with text that is not JSON, the update
      keeps every original entry and deletes nothing. */
  lemma {:induction false} UnsentMediaKeepsOriginals(original: seq<MediaItem>, field: MediaField)
    requires field.NotSent? || field.NotJson?
    ensures KeptMedia(original, field) == original
    ensures RemovedMedia(original, KeptMedia(original, field)) == []
  {
    var r := RemovedMedia(original, original);
    forall m | m in original
      ensures HasUrl(original, m.url)
    {
      var k :| 0 <= k < |original| && original[k] == m;
    }
    assert multiset(r) == multiset{};
  }

  /** A sent JSON array becomes the media list as it is, and an original
      entry's file is deleted exactly when no sent entry has its url. */
  lemma SentArrayDecides(original: seq<MediaItem>, items: seq<MediaItem>)
    ensures KeptMedia(original, JsonArray(items)) == items
    ensures forall m :: m in original ==>
      (m in RemovedMedia(original, KeptMedia(original, JsonArray(items))) <==> !HasUrl(items, m.url))
  {
  }

  /** A valid JSON value that is not an array empties the media list and
      deletes the file of every original entry. */
  lemma {:induction false} NonArrayJsonDropsAll(original: seq<MediaItem>)
    ensures KeptMedia(original, JsonOther) == []
    ensures RemovedMedia(original, KeptMedia(original, JsonOther)) == original
    decreases |original|
  {
    if original != [] {
      NonArrayJsonDropsAll(original[1..]);
      assert !HasUrl([], original[0].url);
      assert original == [original[0]] + original[1..];
    }
  }

  /** Nothing whose file the update deletes stays in the saved list, as
      long as no upload reuses the url of an original entry. */
  lemma RemovedNotInFinal(c: Content, req: ContentRequest, names: seq<string>,
                          writeErrors: map<string, string>, now: Time)
    requires UpdateSpec(c, req, names, writeErrors, now).saved.Some?
    requires forall k :: 0 <= k < |names| ==> !HasUrl(c.media, PublicUrl(names[k]))
    ensures var kept := KeptMedia(c.media, req.existingMedia);
      forall m :: m in RemovedMedia(c.media, kept) ==>
        !HasUrl(UpdateSpec(c, req, names, writeErrors, now).saved.value.media, m.url)
  {
    UpdatedRecordFields(c, req, names, writeErrors, now);
    RemovedNotInKeptOrUploads(c.media, KeptMedia(c.media, req.existingMedia), names);
  }

  /** The sequence half of `RemovedNotInFinal`: a removed entry's url is
      neither kept nor the url of an upload that no original entry has. */
  lemma RemovedNotInKeptOrUploads(original: seq<MediaItem>, kept: seq<MediaItem>, names: seq<string>)
    requires forall k :: 0 <= k < |names| ==> !HasUrl(original, PublicUrl(names[k]))
    ensures forall m :: m in RemovedMedia(original, kept) ==> !HasUrl(kept + UploadedMedia(names), m.url)
  {
    var uploads := UploadedMedia(names);
    var finalMedia := kept + uploads;
    forall m | m in RemovedMedia(original, kept)
      ensures !HasUrl(finalMedia, m.url)
    {
      var j :| 0 <= j < |original| && original[j] == m;
      forall k | 0 <= k < |finalMedia|
        ensures finalMedia[k].url != m.url
      {
        if k < |kept| {
          assert finalMedia[k] == kept[k];
        } else {
          assert finalMedia[k] == uploads[k - |kept|];
          assert !HasUrl(original, PublicUrl(names[k - |kept|]));
        }
      }
    }
  }

  /** The delete cascade reaches every file an upload wrote for the
      record: an entry whose url is the public URL of a stored file makes
      that file go, unless unlinking it fails. */
  lemma DeleteCascadeRemovesUploads(media: seq<MediaItem>, unlinkErrors: map<string, string>,
                                    uuid: string, originalName: string)
    requires '/' !in uuid && '/' !in Extension(originalName)
    requires HasUrl(media, PublicUrl(StoredFileName(uuid, originalName)))
    requires StoredFileName(uuid, originalName) !in unlinkErrors
    ensures StoredFileName(uuid, originalName) in Unlinked(Urls(media), unlinkErrors)
  {
    var fileName := StoredFileName(uuid, originalName);
    var k :| 0 <= k < |media| && media[k].url == PublicUrl(fileName);
    UploadDeleteRoundTrip(uuid, originalName);
    assert DeleteTarget(Urls(media)[k]) == fileName;
    UnlinkedIff(Urls(media), unlinkErrors);
  }
}
