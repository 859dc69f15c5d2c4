# Panchayat content site — a Dafny model

The site publishes three kinds of content — events, achievements and work
done — and gives an administrator a form to create, edit and delete them.
This project models its core in Dafny and proves what that core promises.

- **The content API** (`GET /`, `POST /`, `PUT /:id`, `DELETE /:id` under
  `/api/content`), over an abstract record store and an abstract upload
  directory. It covers:
  - the visibility filter of the public listing and its newest-first order;
  - the checks and the record a create builds;
  - the field and media rules of an update, including which stored files it
    deletes;
  - the file cascade of a delete.
- **The Content schema**: the type enum, required fields, the trimming
  setters, the event-date rules, the defaults and the `pre('save')` stamp.
- **File storage**: the stored file name and public URL of an upload, the
  batch upload with its first-failure error, and `deleteFile`'s basename
  rule with ENOENT ignored.
- **`getImageUrl`**: how a relative image URL becomes an absolute one.
- **The admin form**, as a class:
  - the load and reset effect and the change handlers;
  - the image-only file picker and removal by index;
  - the date check;
  - the multipart body a submit sends, seen as the request the server
    parses.
- **The public and admin components**:
  - the image carousel and the section carousel, as classes;
  - the content card's shortened description, rotating background image
    and event-date line;
  - the admin list's expired flag, badges, preview and media count.

The modules follow the program's files:

| file | module | models |
|---|---|---|
| `wrappers.dfy` | `Wrappers` | `Option` and `Result` |
| `strings.dfy` | `Strings` | JS string operations used throughout: `startsWith`, `replace` of the first match, `trim`, `substring(0, n) + '...'`, decimal rendering |
| `content_schema.dfy` | `ContentSchema` | `backend/models/Content.js`, with the document class and the record store |
| `file_storage.dfy` | `FileStorage` | `backend/utils/fileStorage.js`, with the upload directory class |
| `content_request.dfy` | `ContentRequest` | the request, reply and filter values of `backend/routes/content.js` and the outcome function of each handler |
| `content_routes.dfy` | `ContentRoutes` | the four handlers as methods over the store and the directory, each proved against its outcome function |
| `route_properties.dfy` | `RouteProperties` | what the handlers promise, proved about the outcome functions |
| `image_url.dfy` | `ImageUrl` | `frontend/src/utils/imageUrl.js` |
| `rotation.dfy` | `Rotation` | the wrap-around index step shared by the carousels and the card |
| `content_form.dfy` | `ContentForm` | `frontend/src/components/Admin/ContentForm.js` |
| `image_carousel.dfy` | `ImageCarousel` | `frontend/src/components/Public/ImageCarousel.js` |
| `section_carousel.dfy` | `SectionCarousel` | `frontend/src/components/Public/SectionCarousel.js` |
| `content_card.dfy` | `ContentCard` | `frontend/src/components/Public/ContentCard.js` |
| `content_list.dfy` | `ContentList` | `frontend/src/components/Admin/ContentList.js` |

Conventions:
- Dates are integer timestamps that have already been parsed. A date field
  that is absent or empty in a request is `None`.
- JavaScript truthiness of an optional string is `Given`: present and
  non-empty.
- The `Authorization` header counts as admin whenever it is present and
  non-empty, as the listing checks it.
- The outside world becomes parameters: the current time, the uuid of each
  upload, the id a new record receives, and the per-file write and unlink
  failures (maps from file name to error message).
- Uploads run one after the other, in request order.

## Model

| member | source | states |
|---|---|---|
| Strings.TrimSpec | backend/models/Content.js:21-30 | The `trim` setter is idempotent, leaves an already-trimmed string alone, and yields the empty string exactly when the input is all whitespace. |
| ContentSchema.ParseType | backend/models/Content.js:16-20 | A type name is accepted exactly when it is EVENT, ACHIEVEMENT or WORK, and the accepted type prints back as the same name. |
| ContentSchema.TypeNameRoundTrip | backend/models/Content.js:16-20 | Every type's name parses back to that type, and distinct types have distinct names. |
| ContentSchema.ValidIff | backend/models/Content.js:15-70 | A record passes the schema exactly when its title and description are non-empty and every media entry has a url and a kind of image or video. An EVENT must also have both dates, with the end not before the start. |
| ContentSchema.DatesIgnoredUnlessEvent | backend/models/Content.js:36-56 | For a record that is not an EVENT, changing its dates never changes whether it is valid. |
| ContentSchema.ContentDoc.Create | backend/models/Content.js:15-70 | `new Content({...})` trims the text, defaults `media` to `[]` and `isActive` to true, and sets both timestamps to now. |
| ContentSchema.ContentDoc.SetTitle | backend/models/Content.js:21-25 | Assigning the title stores its trimmed form and changes no other field. |
| ContentSchema.ContentDoc.SetDescription | backend/models/Content.js:26-30 | Assigning the description stores its trimmed form and changes no other field. |
| ContentSchema.ContentDoc.PreSave | backend/models/Content.js:73-76 | The save hook sets `updatedAt` to now and changes nothing else. |
| ContentSchema.ContentCollection.FindById | backend/routes/content.js:181-184 | It finds a document exactly when the id is stored, and the document holds the stored record. |
| ContentSchema.ContentCollection.Save | backend/routes/content.js:253-254 | `save()` reports the schema violations of the record. With none, the record is stored with `updatedAt` stamped. With some, neither the store nor the document changes. |
| ContentSchema.ContentCollection.Remove | backend/routes/content.js:285-286 | `findByIdAndDelete` removes exactly that id from the store. |
| FileStorage.Extension | backend/utils/fileStorage.js:35 | The extension is the text after the last dot, or `jpg` when that text is empty. It is never empty and never contains a dot. |
| FileStorage.DeleteTarget | backend/utils/fileStorage.js:82 | `deleteFile` unlinks a name without a slash as given, and otherwise its basename, which has no slash. |
| FileStorage.UploadDeleteRoundTrip | backend/utils/fileStorage.js:35-43 | Deleting by the public URL of an upload unlinks exactly the file that upload wrote. This holds when neither the uuid nor the extension contains a slash. |
| FileStorage.DeleteTargetOfPublicUrl | backend/utils/fileStorage.js:82 | For a non-empty file name without a slash, the basename of `/uploads/<name>` is that name. |
| FileStorage.NameOf | backend/utils/fileStorage.js:64 | A file without an original name is uploaded under the name `file`. |
| FileStorage.BatchNameAt | backend/utils/fileStorage.js:63-65 | The k-th stored name of a batch is derived from the k-th file and the k-th uuid. |
| FileStorage.WrittenIff | backend/utils/fileStorage.js:40 | A batch adds exactly its names whose write succeeds. |
| FileStorage.BatchError | backend/utils/fileStorage.js:61-72 | A batch fails exactly when some write fails. Its message is "Failed to upload files: Failed to upload file: " followed by the error of the first failing file. |
| FileStorage.UnlinkedIff | backend/utils/fileStorage.js:79-93 | A sequence of deletes removes exactly the targets of the given names whose unlink does not fail. |
| FileStorage.UploadDir.constructor | backend/utils/fileStorage.js:10-20 | The upload directory starts empty. |
| FileStorage.UploadDir.UploadFile | backend/utils/fileStorage.js:29-54 | A file is written under `<uuid>.<ext>` and reported as `/uploads/<uuid>.<ext>` of kind image. A write failure leaves the directory unchanged and yields "Failed to upload file: " + the error. |
| FileStorage.UploadDir.WriteFile | backend/utils/fileStorage.js:39-54 | Writing one named file succeeds and adds it unless its write fails. A failure reports the prefixed error. |
| FileStorage.UploadDir.UploadMultipleFiles | backend/utils/fileStorage.js:61-72 | The directory gains exactly the written names. The call succeeds exactly when every write does, returning one result per file in order. Otherwise it fails with the batch error. |
| FileStorage.UploadDir.WriteAll | backend/utils/fileStorage.js:63-67 | Writing a list of names: the same effect and results, stated on the names. |
| FileStorage.UploadDir.DeleteFile | backend/utils/fileStorage.js:79-93 | The target is removed unless its unlink fails. The call fails exactly when unlinking the target fails with something other than ENOENT. That includes a directory target such as "", "." or "..", whether stored or not. A missing file is not an error. A failure reports "Failed to delete file: " + the error. |
| FileStorage.UploadDir.DeleteEach | backend/routes/content.js:275-282 | Deleting several urls one after the other, ignoring failures, removes exactly the unlinked targets. |
| ContentRequest.Coerce | backend/routes/content.js:188 | A sent `isActive` means true exactly when it is the text "true" or the boolean true. |
| ContentRequest.ActiveOnCreate | backend/routes/content.js:161 | On create, `isActive` is true when absent, and otherwise exactly when it is "true" or true. |
| ContentRequest.CreateCheck | backend/routes/content.js:108-126 | A create passes the route's own checks exactly when the type, title and description are given, the type is one of the three, and an EVENT has both dates in order. A failure carries one of the four messages. |
| ContentRequest.UploadedMedia | backend/routes/content.js:144-148 | Each upload adds an image entry with its public URL, in upload order. |
| ContentRequest.ToMedia | backend/routes/content.js:144-147 | The upload results map one-to-one onto media entries with the same url and kind. |
| ContentRequest.InsertNewest | backend/routes/content.js:66-67 | Inserting an id into the result list keeps every id, adding just the new one. |
| ContentRequest.InsertNewestSorted | backend/routes/content.js:67 | Inserting into a list sorted by `createdAt` descending keeps it sorted. |
| ContentRequest.InsertNewestStep | backend/routes/content.js:66-67 | Inserting a new id into a sorted list of distinct ids keeps it sorted and distinct, and adds exactly that id. |
| ContentRequest.RemovedMedia | backend/routes/content.js:210-212 | The removed entries are exactly the originals whose url no kept entry has, with their multiplicities. |
| ContentRequest.UpdatedRecord | backend/routes/content.js:186-246 | An update changes the title and description only when given non-empty, and `isActive` only when sent. It changes an EVENT's dates only when given, and never changes the type or `createdAt`. |
| ContentRoutes.BuildFilter | backend/routes/content.js:34-64 | The filter built key by key matches a record exactly when the visibility rule admits it. |
| ContentRoutes.FindNewestFirst | backend/routes/content.js:66-68 | The query returns each matching id once, newest first. |
| ContentRoutes.ListContent | backend/routes/content.js:29-82 | Listing returns exactly the admitted records, each once, newest first. For the public they are active, and an EVENT is in its window. For an admin, every record of the requested type is included. |
| ContentRoutes.UploadAll | backend/routes/content.js:141-152 | The request's files are uploaded. A failure reports the batch error. |
| ContentRoutes.CreateContent | backend/routes/content.js:102-173 | `POST /` replies and saves as its outcome function says, and writes files only once its checks pass. |
| ContentRoutes.CreateChecked | backend/routes/content.js:128-165 | After the checks, `POST /` uploads, builds and saves the record as its outcome function says. |
| ContentRoutes.SaveRecord | backend/routes/content.js:164-170 | Saving replies 201 or 200 with the stamped record, or 400 with the schema's violations. |
| ContentRoutes.AssignFields | backend/routes/content.js:186-188 | The title, description and `isActive` are assigned in place, as the update rules say. |
| ContentRoutes.AssignMediaAndDates | backend/routes/content.js:237-246 | The media list is assigned, and an EVENT's dates are assigned when given. |
| ContentRoutes.UpdateContent | backend/routes/content.js:177-262 | `PUT /:id` replies 404 for an unknown id. Otherwise it behaves as its outcome function says. |
| ContentRoutes.UpdateExisting | backend/routes/content.js:186-254 | The removed files are deleted before the upload and before the date check. The store changes only when the outcome saves. |
| ContentRoutes.ReconcileMedia | backend/routes/content.js:190-235 | The file of every original entry missing from the kept list is deleted once, failures ignored. Then the uploads run. The result is the kept list followed by the uploaded entries, or the batch error. |
| ContentRoutes.FinishUpdate | backend/routes/content.js:237-254 | The media and an EVENT's given dates are assigned. An EVENT whose end precedes its start is refused with 400. Otherwise the record is saved, and the reply and store are those of the update's outcome function. |
| ContentRoutes.DeleteContent | backend/routes/content.js:265-293 | `DELETE /:id` replies 404 for an unknown id. Otherwise it deletes the file of every media url, then the record. |
| RouteProperties.CreateRefusals | backend/routes/content.js:108-126 | Each missing field, an unknown type, a missing EVENT date and reversed EVENT dates each give their own 400. Nothing is saved. |
| RouteProperties.CreatedRecord | backend/routes/content.js:128-165 | A created record has the requested type and trimmed text, and the `isActive` rule. It has dates only for an EVENT. Its media are the parsed list followed by one image per upload, in order. The parsed list is the sent JSON array, or nothing when `existingMedia` is anything else. Both timestamps are now, and the record satisfies the store invariant. |
| RouteProperties.CreateRejectionsAreTextOrMedia | backend/routes/content.js:164-170 | Once the route's checks pass, the schema can only refuse blank text or bad media entries, never the dates. |
| RouteProperties.UpdatedRecordFields | backend/routes/content.js:186-246 | A saved update keeps the type and `createdAt` and stamps `updatedAt`. It follows the per-field rules and stores the kept media followed by the uploads. |
| RouteProperties.UpdateKeepsStored | backend/routes/content.js:186-254 | A stored record is still a stored record after any successful update. |
| RouteProperties.UpdateRefusesReversedDates | backend/routes/content.js:240-251 | An EVENT whose resulting dates are reversed is refused with 400 and not saved. This holds whether the offending date was sent or was already stored. |
| RouteProperties.UploadFailureAborts | backend/routes/content.js:224-234 | A failed upload answers 500 with "Failed to upload files: " and the batch error, and nothing is saved, on update and on create. |
| RouteProperties.UnsentMediaKeepsOriginals | backend/routes/content.js:194-207 | With no `existingMedia`, or text that is not JSON, the update keeps every original entry and deletes nothing. |
| RouteProperties.SentArrayDecides | backend/routes/content.js:194-212 | A sent JSON array becomes the media list exactly as sent. An original entry's file is deleted exactly when no sent entry has its url. |
| RouteProperties.NonArrayJsonDropsAll | backend/routes/content.js:194-212 | JSON that is not an array empties the list and deletes every original file. |
| RouteProperties.RemovedNotInFinal | backend/routes/content.js:209-237 | No entry whose file was deleted stays in the saved list. This holds when no upload reuses an original url. |
| RouteProperties.RemovedNotInKeptOrUploads | backend/routes/content.js:209-237 | A removed entry's url is neither in the kept list nor the url of any upload, given that no upload reuses an original url. |
| RouteProperties.DeleteCascadeRemovesUploads | backend/routes/content.js:273-283 | Deleting a record removes every file its uploads wrote, unless unlinking that file fails. |
| ImageUrl.BackendUrl | frontend/src/utils/imageUrl.js:16 | The backend root is the API base with its `/api` suffix removed, and unchanged when there is none. This is the corrected reading. |
| ImageUrl.WithLeadingSlash | frontend/src/utils/imageUrl.js:19 | The path starts with exactly one added slash when it lacked one, and is left alone otherwise. |
| ImageUrl.GetImageUrl | frontend/src/utils/imageUrl.js:6-22 | A missing or empty url gives "", and an absolute url is returned unchanged. Anything else is the backend root, a slash, then the url. |
| ImageUrl.ImageOrPlaceholder | frontend/src/components/Public/ImageCarousel.js:63-64 | A component shows the resolved url of the current entry, or its placeholder when there is no such entry or it has no url. It never shows "". |
| ImageUrl.DefaultBackend | frontend/src/utils/imageUrl.js:15-16 | Without configuration, images come from `http://localhost:5000`. |
| ImageUrl.LeadingSlashIrrelevant | frontend/src/utils/imageUrl.js:19-21 | A relative name gives the same URL with or without its leading slash. |
| ImageUrl.GetImageUrlIdempotent | frontend/src/utils/imageUrl.js:10-12 | With an absolute backend root, resolving an already resolved url changes nothing. |
| ImageUrl.AsWrittenAgreesOnPlainBase | frontend/src/utils/imageUrl.js:16 | Where `/api` occurs only as the suffix, the code as written gives the intended root. |
| ImageUrl.AsWrittenBreaksApiHost | frontend/src/utils/imageUrl.js:16 | The code as written turns `http://api.io/api` into `http:/.io/api`, while the intended root is `http://api.io`. |
| ImageUrl.AsWrittenResolvesPlainBase | frontend/src/utils/imageUrl.js:15-21 | When `/api` occurs in the API base only as its suffix, the code as written resolves every image to the intended URL. |
| ImageUrl.AsWrittenResolvesDefault | frontend/src/utils/imageUrl.js:15-21 | Without configuration, the code as written resolves every image to the intended URL. |
| ImageUrl.AsWrittenBreaksImageUrl | frontend/src/utils/imageUrl.js:15-21 | With API base `http://api.io/api`, the code as written resolves `/uploads/a.jpg` to `http:/.io/api/uploads/a.jpg`. The intended URL is `http://api.io/uploads/a.jpg`. |
| Rotation.NextIndex | frontend/src/components/Public/ImageCarousel.js:52-55 | A step forward stays in range, moves one on, and wraps from the last index to 0. |
| Rotation.PrevIndex | frontend/src/components/Public/ImageCarousel.js:47-50 | A step back stays in range, moves one back, and wraps from 0 to the last index. |
| Rotation.NextPrevInverse | frontend/src/components/Public/ImageCarousel.js:47-55 | A step back undoes a step forward, and the other way round. |
| Rotation.AdvanceWithinCycle | frontend/src/components/Public/ImageCarousel.js:20 | k autoplay steps from i land on i + k, wrapped once. |
| Rotation.FullCycleReturns | frontend/src/components/Public/ImageCarousel.js:14-26 | n autoplay steps visit n different images and return to the start. |
| ImageCarousel.Carousel.Alt | frontend/src/components/Public/ImageCarousel.js:28-73 | The `alt` text is never empty. A title, when given, is the `alt` of every image and of the empty gallery. Without one, the empty gallery reads "No image" and a shown image reads "Image " and its 1-based position. |
| ImageCarousel.EmptyAltNotASlide | frontend/src/components/Public/ImageCarousel.js:28-73 | Without a title, the empty gallery's `alt` text differs from the `alt` of every shown image. |
| ImageCarousel.AltTextsDistinct | frontend/src/components/Public/ImageCarousel.js:72 | Without a title, different positions get different alt texts. |
| ImageCarousel.Carousel.Src | frontend/src/components/Public/ImageCarousel.js:28-36 | An empty image list shows the grey placeholder, and the image source is never empty. |
| ImageCarousel.Carousel.constructor | frontend/src/components/Public/ImageCarousel.js:9-10 | The carousel starts at the first image with autoplay on. |
| ImageCarousel.Carousel.ChangeSlide | frontend/src/components/Public/ImageCarousel.js:38-45 | A manual change shows the chosen image and switches autoplay off. |
| ImageCarousel.Carousel.GoToNext | frontend/src/components/Public/ImageCarousel.js:52-55 | The right arrow moves to `(i+1) mod n`, stays in range, and stops autoplay. |
| ImageCarousel.Carousel.GoToPrevious | frontend/src/components/Public/ImageCarousel.js:47-50 | The left arrow moves to `(i-1+n) mod n`, stays in range, and stops autoplay. |
| ImageCarousel.Carousel.GoToSlide | frontend/src/components/Public/ImageCarousel.js:57-61 | A click on the current dot changes nothing. Another dot shows its image and stops autoplay. |
| ImageCarousel.Carousel.Tick | frontend/src/components/Public/ImageCarousel.js:14-26 | An interval advances the index only with autoplay on and more than one image, and keeps it in range. |
| ImageCarousel.ManualChangeStopsAutoplay | frontend/src/components/Public/ImageCarousel.js:15 | After a manual change, no number of intervals turns autoplay back on or moves the index. |
| SectionCarousel.TotalLabel | frontend/src/components/Public/SectionCarousel.js:152 | The total beside the title is "(1 item)" or "(<n> items)". |
| SectionCarousel.CounterLabelsDistinct | frontend/src/components/Public/SectionCarousel.js:155-157 | With more than one card, the header counter "<i+1> / <n>" is different at every position, so the counter identifies the current card. |
| SectionCarousel.Closest | frontend/src/components/Public/SectionCarousel.js:110-123 | The scroll search picks a mounted card with the least distance. Ties go to the first such card, and the pick is 0 when no card is mounted. |
| SectionCarousel.NearestFirstUnique | frontend/src/components/Public/SectionCarousel.js:110-123 | Those three conditions leave only one possible pick for any distances. |
| SectionCarousel.Carousel.constructor | frontend/src/components/Public/SectionCarousel.js:6-9 | The carousel starts at the first card, not hovered. |
| SectionCarousel.Carousel.ScrollNext | frontend/src/components/Public/SectionCarousel.js:77-87 | The next arrow moves from i < n-1 to i+1, and from the last card to the first. |
| SectionCarousel.Carousel.ScrollPrev | frontend/src/components/Public/SectionCarousel.js:89-100 | The previous arrow moves from i > 0 to i-1, and from the first card to the last. |
| SectionCarousel.Carousel.SetHovered | frontend/src/components/Public/SectionCarousel.js:162-163 | Entering and leaving set the hover flag. |
| SectionCarousel.Carousel.AutoTick | frontend/src/components/Public/SectionCarousel.js:24-42 | Auto-advance steps `(i+1) mod n`, but only with more than one card and no hover. |
| SectionCarousel.Carousel.HandleScroll | frontend/src/components/Public/SectionCarousel.js:102-129 | A scroll returns the card the search picked: the first mounted card of least distance, or 0 when none is mounted. The current card becomes that pick when it differs and lies within the section. Otherwise the current card is unchanged. |
| SectionCarousel.ArrowsAreRotation | frontend/src/components/Public/SectionCarousel.js:77-100 | Within the cards, the arrows step exactly as the shared wrap-around arithmetic does. |
| ContentCard.DisplayDescription | frontend/src/components/Public/ContentCard.js:30-33 | A collapsed description over 150 characters shows its first 150 and "...". Otherwise the whole text is shown. |
| ContentCard.ToggleOnlyWhenItMatters | frontend/src/components/Public/ContentCard.js:82-86 | Without the button both states show the same text. With it, the collapsed text is the 153-character cut and the expanded text is the whole description. |
| ContentCard.StoredEventsShowDates | frontend/src/components/Public/ContentCard.js:68 | For a stored record, the date line shows exactly when it is an EVENT. |
| ContentCard.Card.constructor | frontend/src/components/Public/ContentCard.js:9-10 | A card starts collapsed, on the first image. |
| ContentCard.Card.Toggle | frontend/src/components/Public/ContentCard.js:26-28 | Read More / Read Less flips the expanded flag. |
| ContentCard.Card.RotateTick | frontend/src/components/Public/ContentCard.js:13-24 | Only a record with several images rotates, stepping `(i+1) mod n`. |
| ContentCard.Card.Description | frontend/src/components/Public/ContentCard.js:30-33 | An expanded card shows the whole description. |
| ContentCard.Card.BackgroundImage | frontend/src/components/Public/ContentCard.js:45-51 | A record without media shows the purple placeholder, and the background is never empty. |
| ContentCard.ToggleTwiceRestores | frontend/src/components/Public/ContentCard.js:26-28 | Toggling twice shows the text as before. |
| ContentList.Preview | frontend/src/components/Admin/ContentList.js:47-49 | A description over 100 characters shows its first 100 and "...". Otherwise it is shown whole. |
| ContentList.Badges | frontend/src/components/Admin/ContentList.js:35-43 | Exactly one of Active and Inactive is shown, matching `isActive`. Expired is shown exactly for an expired EVENT. |
| ContentList.Render | frontend/src/components/Admin/ContentList.js:4-77 | An empty list shows only the empty message. Otherwise there is one row per record, in order, with its title, badges and media count. |
| ContentList.ExpiredIffWindowClosed | frontend/src/components/Admin/ContentList.js:22-25 | A stored record is expired exactly when it is an EVENT whose end date is past. |
| ContentList.ExpiredLeavesPublicListing | frontend/src/components/Admin/ContentList.js:22-25 | An expired EVENT is never in the public listing. An active stored EVENT that has started and is not expired is in it. |
| ContentForm.ImagesAreThePickedImages | frontend/src/components/Admin/ContentForm.js:64-78 | The files kept by the picker are exactly the picked images. A selection is kept whole exactly when every file is an image. |
| ContentForm.RemoveAt | frontend/src/components/Admin/ContentForm.js:84-94 | Removing a valid index shortens the list by one. An index out of range removes nothing. |
| ContentForm.RemoveAtKeepsOthers | frontend/src/components/Admin/ContentForm.js:84-94 | Removal drops exactly the element at the index and keeps the others in order. |
| ContentForm.DateCheck | frontend/src/components/Admin/ContentForm.js:102-116 | An EVENT passes the form's check exactly when both dates are set and in order. A failure carries the missing-dates or the end-date message. |
| ContentForm.BuildBody | frontend/src/components/Admin/ContentForm.js:118-139 | The body always has the type, title, description and `isActive` as "true"/"false". It has dates only for an EVENT, `existingMedia` only when some remain, and one part per picked file, in order. |
| ContentForm.Form.constructor | frontend/src/components/Admin/ContentForm.js:7-17 | The form starts blank, active, with no media, no error and not saving. |
| ContentForm.Form.Load | frontend/src/components/Admin/ContentForm.js:19-49 | A record is copied in and a missing record resets the form. Either way the picked files are cleared. |
| ContentForm.LoadShowsStoredValues | frontend/src/components/Admin/ContentForm.js:28-34 | Editing a stored record fills the form with exactly its stored title, description, dates and `isActive`. |
| ContentForm.Form.HandleChange | frontend/src/components/Admin/ContentForm.js:51-57 | An edit changes only its own field and clears the error. |
| ContentForm.Form.SetActive | frontend/src/components/Admin/ContentForm.js:240-242 | The checkbox sets `isActive` only. |
| ContentForm.Form.HandleFileSelect | frontend/src/components/Admin/ContentForm.js:59-82 | Picked images are appended in order. Any non-image sets the image-only error and is not added, and the error is unchanged otherwise. |
| ContentForm.Form.RemoveExistingMedia | frontend/src/components/Admin/ContentForm.js:84-86 | The stored media lose exactly the entry at the index. |
| ContentForm.Form.RemoveNewFile | frontend/src/components/Admin/ContentForm.js:88-94 | The picked files lose exactly the file at the index. |
| ContentForm.Form.Submit | frontend/src/components/Admin/ContentForm.js:96-146 | A failing date check sets its message, clears saving and sends nothing. Otherwise the body is sent to the record being edited, or as a new record. |
| ContentForm.Form.Settle | frontend/src/components/Admin/ContentForm.js:156-162 | A failure shows the server's message, or "Failed to save. Please try again." Saving ends either way. |
| ContentForm.SubmittedBodyPassesCreateChecks | frontend/src/components/Admin/ContentForm.js:102-129 | A body the form sends, with non-empty title and description, passes the server's create checks. |
| ContentForm.EmptiedMediaKeepsOriginals | frontend/src/components/Admin/ContentForm.js:132-134 | Removing every stored image in the form sends no `existingMedia`, so the server keeps all of them and deletes none. |

## Left out

- `GET /:id`: a plain lookup returning the record or 404. Its lookup is `ContentCollection.FindById`.
- Express routing, authentication middleware, response headers and multer's parsing, size limit and MIME filter. The request arrives already parsed as a `ContentRequest`.
- Mongo `CastError` for a malformed id and the generic 500 replies for unexpected exceptions. Ids are natural numbers.
- The id of a new record: it is a parameter that must not already be stored, standing for a fresh ObjectId.
- The uuid of each upload: one per file, passed in as a parameter.
- Parsing and formatting dates (`new Date`, `toISOString`, `toLocaleDateString`) and comparisons with an invalid date. Dates are parsed integers.
- What `JSON.parse` accepts. The `existingMedia` field arrives classified as absent, not JSON, a JSON array of entries, or other JSON. Array elements that are not media objects are not modelled.
- Parallel uploads under `Promise.all`. Uploads are sequential in request order, and the reported failure is that of the first failing file.
- Concurrent edits of one record.
- Timers, rendering and the DOM:
  - interval and timeout delays, including the 150 ms fade before a carousel's index changes, which is modelled as immediate;
  - the `fade` flag;
  - `FileReader` previews and `URL.revokeObjectURL`;
  - the geometry of `scrollToIndex` and `updateScrollButtons`.
- The distances `handleScroll` compares are given as real numbers. Floating-point rounding and `NaN` are not modelled.
- ContentForm.Form.HandleFileSelect: files are appended in selection order. In the source each is appended when its preview finishes loading, so the order may differ.
- ImageUrl.GetImageUrl: resolves images against the corrected backend root `ImageUrl.BackendUrl`. So do ImageUrl.ImageOrPlaceholder, ImageCarousel.Carousel.Src and ContentCard.Card.BackgroundImage, which are built on it. The code as written is `ImageUrl.GetImageUrlAsWritten`. It agrees with the corrected one on the default base and on any base holding `/api` only as its suffix (see Findings).
- String lengths count characters rather than UTF-16 code units, in the 100- and 150-character cuts.

## Findings

| source | as written | input that shows it | evidently intended | confidence | as-written member | corrected member |
|---|---|---|---|---|---|---|
| frontend/src/utils/imageUrl.js:16 | `apiUrl.replace('/api', '')` removes the first occurrence of `/api` anywhere in the URL (modelled by `ImageUrl.BackendUrlAsWritten`) | API base `http://api.io/api` becomes `http:/.io/api`, which is no longer a valid origin | remove the `/api` suffix only, as the comment on line 14 says, giving `http://api.io` | not executed | ImageUrl.AsWrittenBreaksApiHost | ImageUrl.BackendUrl |

`ImageUrl.GetImageUrl` and everything built on it use the corrected `ImageUrl.BackendUrl`. `ImageUrl.GetImageUrlAsWritten` resolves images through the root as written. `ImageUrl.AsWrittenBreaksImageUrl` shows the broken image URL it gives for the base above. `ImageUrl.AsWrittenAgreesOnPlainBase`, `ImageUrl.AsWrittenResolvesPlainBase` and `ImageUrl.AsWrittenResolvesDefault` show that both readings agree whenever `/api` occurs only as the suffix, as in the default base.
