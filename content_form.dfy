/** The admin form for creating and editing a content item: its state
    (the field values, the media already stored, the newly picked files,
    the error line and the saving flag), the handlers that change it, and
    the multipart body a submit sends, seen as the request the server
    parses. */
module ContentForm {
  import opened Wrappers
  import opened Strings
  import opened ContentSchema
  import opened FileStorage
  import opened ContentRequest

  const OnlyImagesMessage: string := "Only image files are allowed. Please select image files only."
  const SaveFailedMessage: string := "Failed to save. Please try again."
  const ImagePrefix: string := "image/"

  /** A record as the form receives it from the API; any field may be
      missing. Dates are already parsed (`None` for a missing date). */
  datatype ContentView = ContentView(
    id: Id,
    title: Option<string>,
    description: Option<string>,
    startDate: Option<Time>,
    endDate: Option<Time>,
    isActive: Option<bool>,
    media: Option<seq<MediaItem>>)

  /** The values of the form's inputs; an empty date input is `None`. */
  datatype Fields = Fields(title: string, description: string,
                           startDate: Option<Time>, endDate: Option<Time>, isActive: bool)

  const BlankFields: Fields := Fields("", "", None, None, true)

  /** A file picked in the file input. */
  datatype PickedFile = PickedFile(name: string, mimetype: string)

  /** One change event of a text or date input. */
  datatype Edit =
    | EditTitle(title: string)
    | EditDescription(description: string)
    | EditStartDate(startDate: Option<Time>)
    | EditEndDate(endDate: Option<Time>)

  /** The request a submit sends: `PUT /content/<id>` when editing,
      `POST /content` otherwise. */
  datatype Submission = Submission(target: Option<Id>, body: ContentRequest)

  /** How the request ended: success, or a failure with the server's
      `error` text when it sent one. */
  datatype SendResult = Sent | Failed(serverError: Option<string>)

  predicate IsImage(f: PickedFile) {
    StartsWith(f.mimetype, ImagePrefix)
  }

  predicate AllImages(files: seq<PickedFile>) {
    forall k :: 0 <= k < |files| ==> IsImage(files[k])
  }

  /** The picked files the file input keeps: the images, in order. */
  function Images(files: seq<PickedFile>): (r: seq<PickedFile>)
    ensures |r| <= |files|
  {
    if files == [] then []
    else Images(files[..|files| - 1]) + (if IsImage(files[|files| - 1]) then [files[|files| - 1]] else [])
  }

  /** One more picked file: it is kept exactly when it is an image. */
  lemma SelectStep(files: seq<PickedFile>, i: nat)
    requires i < |files|
    ensures Images(files[..i + 1]) == Images(files[..i]) + (if IsImage(files[i]) then [files[i]] else [])
    ensures AllImages(files[..i + 1]) <==> AllImages(files[..i]) && IsImage(files[i])
  {
    assert files[..i + 1][..i] == files[..i];
  }

  /** The files kept are exactly the picked images. */
  lemma {:induction false} ImagesAreThePickedImages(files: seq<PickedFile>)
    ensures forall f :: f in Images(files) <==> f in files && IsImage(f)
    ensures AllImages(files) <==> Images(files) == files
  {
    if files != [] {
      var init := files[..|files| - 1];
      ImagesAreThePickedImages(init);
      assert files == init + [files[|files| - 1]];
      if !IsImage(files[|files| - 1]) {
        assert |Images(files)| < |files| by {
          assert |Images(init)| <= |init|;
        }
      }
    }
  }

  /** The list without the entry at `index`; unchanged when `index` is
      out of range. */
  function RemoveAt<T>(s: seq<T>, index: int): (r: seq<T>)
    ensures 0 <= index < |s| ==> |r| == |s| - 1
    ensures !(0 <= index < |s|) ==> r == s
  {
    if 0 <= index < |s| then s[..index] + s[index + 1..] else s
  }

  /** Removing by index drops exactly that element and keeps the others in
      their order. */
  lemma RemoveAtKeepsOthers<T>(s: seq<T>, index: int)
    requires 0 <= index < |s|
    ensures forall k :: 0 <= k < index ==> RemoveAt(s, index)[k] == s[k]
    ensures forall k :: index <= k < |s| - 1 ==> RemoveAt(s, index)[k] == s[k + 1]
    ensures multiset(RemoveAt(s, index)) + multiset{s[index]} == multiset(s)
  {
    assert s == s[..index] + [s[index]] + s[index + 1..];
  }

  /** What the multipart parser makes of a picked file. */
  function Incoming(f: PickedFile): IncomingFile {
    IncomingFile(Some(f.name), f.mimetype)
  }

  /** The form's field values when a record is loaded: missing text as the
      empty string, a missing `isActive` as true. */
  function FieldsOf(content: ContentView): (r: Fields)
    ensures r.title == (if content.title.Some? then content.title.value else "")
    ensures r.description == (if content.description.Some? then content.description.value else "")
    ensures r.startDate == content.startDate && r.endDate == content.endDate
    ensures r.isActive == (content.isActive.None? || content.isActive.value)
  {
    Fields(if content.title.Some? then content.title.value else "",
           if content.description.Some? then content.description.value else "",
           content.startDate, content.endDate,
           if content.isActive.Some? then content.isActive.value else true)
  }

  /** A stored record as the API returns it to the form: every field set. */
  function ViewOf(id: Id, c: Content): ContentView {
    ContentView(id, Some(c.title), Some(c.description), c.startDate, c.endDate,
                Some(c.isActive), Some(c.media))
  }

  /** Editing a stored record shows exactly its stored values. */
  lemma LoadShowsStoredValues(id: Id, c: Content)
    ensures FieldsOf(ViewOf(id, c)) == Fields(c.title, c.description, c.startDate, c.endDate, c.isActive)
  {
  }

  /** The form's own check of an EVENT's dates before anything is sent. */
  function DateCheck(kind: ContentType, fields: Fields): (r: Option<string>)
    ensures r.None? <==>
      kind != Event || (fields.startDate.Some? && fields.endDate.Some?
                        && fields.startDate.value <= fields.endDate.value)
    ensures r.Some? ==> r.value == DatesRequiredMessage || r.value == EndDateMessage
  {
    if kind != Event then None
    else if fields.startDate.None? || fields.endDate.None? then Some(DatesRequiredMessage)
    else if fields.endDate.value < fields.startDate.value then Some(EndDateMessage)
    else None
  }

  /** Builds the multipart body part by part: type, title, description and
      `isActive` always, the dates only for an EVENT, `existingMedia` only
      when some stored media remain, and one part per picked file. */
  method BuildBody(kind: ContentType, fields: Fields, existingMedia: seq<MediaItem>,
                   newFiles: seq<PickedFile>) returns (body: ContentRequest)
    ensures body.kind == Some(TypeName(kind))
    ensures body.title == Some(fields.title) && body.description == Some(fields.description)
    ensures body.isActive == Some(FlagText(if fields.isActive then "true" else "false"))
    ensures kind == Event ==> body.startDate == fields.startDate && body.endDate == fields.endDate
    ensures kind != Event ==> body.startDate.None? && body.endDate.None?
    ensures existingMedia == [] ==> body.existingMedia == NotSent
    ensures existingMedia != [] ==> body.existingMedia == JsonArray(existingMedia)
    ensures |body.files| == |newFiles|
    ensures forall k :: 0 <= k < |newFiles| ==> body.files[k] == Incoming(newFiles[k])
  {
    body := ContentRequest(None, None, None, None, None, None, NotSent, []);
    body := body.(kind := Some(TypeName(kind)));
    body := body.(title := Some(fields.title));
    body := body.(description := Some(fields.description));
    body := body.(isActive := Some(FlagText(if fields.isActive then "true" else "false")));
    if kind == Event {
      body := body.(startDate := fields.startDate, endDate := fields.endDate);
    }
    if |existingMedia| > 0 {
      body := body.(existingMedia := JsonArray(existingMedia));
    }
    var i := 0;
    while i < |newFiles|
      invariant 0 <= i <= |newFiles|
      invariant body.kind == Some(TypeName(kind))
      invariant body.title == Some(fields.title) && body.description == Some(fields.description)
      invariant body.isActive == Some(FlagText(if fields.isActive then "true" else "false"))
      invariant kind == Event ==> body.startDate == fields.startDate && body.endDate == fields.endDate
      invariant kind != Event ==> body.startDate.None? && body.endDate.None?
      invariant existingMedia == [] ==> body.existingMedia == NotSent
      invariant existingMedia != [] ==> body.existingMedia == JsonArray(existingMedia)
      invariant |body.files| == i
      invariant forall k :: 0 <= k < i ==> body.files[k] == Incoming(newFiles[k])
    {
      body := body.(files := body.files + [Incoming(newFiles[i])]);
      i := i + 1;
    }
  }

  /** The form component for one content type. */
  class Form {
    const kind: ContentType
    var editing: Option<Id>
    var fields: Fields
    var existingMedia: seq<MediaItem>
    var newFiles: seq<PickedFile>
    var error: string
    var saving: bool

    /** The state the component starts in. */
    constructor (kind: ContentType)
      ensures this.kind == kind && editing.None? && fields == BlankFields
      ensures existingMedia == [] && newFiles == [] && error == "" && !saving
    {
      this.kind := kind;
      editing := None;
      fields := BlankFields;
      existingMedia := [];
      newFiles := [];
      error := "";
      saving := false;
    }

    /** The effect that runs when the `content` prop changes: a record is
        copied into the form, no record resets it; either way the picked
        files are dropped. The error line and the saving flag stay. */
    method Load(content: Option<ContentView>)
      modifies this
      ensures content.Some? ==>
        editing == Some(content.value.id) && fields == FieldsOf(content.value)
        && existingMedia == (if content.value.media.Some? then content.value.media.value else [])
      ensures content.None? ==> editing.None? && fields == BlankFields && existingMedia == []
      ensures newFiles == [] && error == old(error) && saving == old(saving)
    {
      if content.Some? {
        editing := Some(content.value.id);
        fields := FieldsOf(content.value);
        existingMedia := if content.value.media.Some? then content.value.media.value else [];
      } else {
        editing := None;
        fields := BlankFields;
        existingMedia := [];
      }
      newFiles := [];
    }

    /** `handleChange`: the edited input changes, nothing else in the
        fields does, and the error line is cleared. */
    method HandleChange(edit: Edit)
      modifies this`fields, this`error
      ensures error == ""
      ensures edit.EditTitle? ==> fields == old(fields).(title := edit.title)
      ensures edit.EditDescription? ==> fields == old(fields).(description := edit.description)
      ensures edit.EditStartDate? ==> fields == old(fields).(startDate := edit.startDate)
      ensures edit.EditEndDate? ==> fields == old(fields).(endDate := edit.endDate)
    {
      error := "";
      match edit
      case EditTitle(t) =>
        fields := fields.(title := t);
      case EditDescription(d) =>
        fields := fields.(description := d);
      case EditStartDate(s) =>
        fields := fields.(startDate := s);
      case EditEndDate(e) =>
        fields := fields.(endDate := e);
    }

    /** The `isActive` checkbox. */
    method SetActive(checked: bool)
      modifies this`fields
      ensures fields == old(fields).(isActive := checked)
    {
      fields := fields.(isActive := checked);
    }

    /** `handleFileSelect`: each picked image is added after the files
        already picked; any other file sets the error line and is
        skipped. */
    method HandleFileSelect(files: seq<PickedFile>)
      modifies this`newFiles, this`error
      ensures newFiles == old(newFiles) + Images(files)
      ensures error == (if AllImages(files) then old(error) else OnlyImagesMessage)
    {
      var i := 0;
      while i < |files|
        invariant 0 <= i <= |files|
        invariant newFiles == old(newFiles) + Images(files[..i])
        invariant AllImages(files[..i]) ==> error == old(error)
        invariant !AllImages(files[..i]) ==> error == OnlyImagesMessage
      {
        SelectStep(files, i);
        if !IsImage(files[i]) {
          error := OnlyImagesMessage;
        } else {
          newFiles := newFiles + [files[i]];
        }
        i := i + 1;
      }
      assert files[..i] == files;
    }

    /** `removeExistingMedia`: drops one stored image from the form. */
    method RemoveExistingMedia(index: int)
      modifies this`existingMedia
      ensures existingMedia == RemoveAt(old(existingMedia), index)
    {
      existingMedia := RemoveAt(existingMedia, index);
    }

    /** `removeNewFile`: drops one picked file from the form. */
    method RemoveNewFile(index: int)
      modifies this`newFiles
      ensures newFiles == RemoveAt(old(newFiles), index)
    {
      newFiles := RemoveAt(newFiles, index);
    }

    /** `handleSubmit` up to the request: the error line is cleared and the
        form marked as saving; an EVENT with a missing or reversed date
        sets its message, clears the flag and sends nothing; otherwise the
        body is built and the request goes out. */
    method Submit() returns (submission: Option<Submission>)
      modifies this`error, this`saving
      ensures DateCheck(kind, fields).Some? ==>
        submission.None? && error == DateCheck(kind, fields).value && !saving
      ensures DateCheck(kind, fields).None? ==>
        submission.Some? && error == "" && saving
        && submission.value.target == editing
      ensures submission.Some? ==>
        var body := submission.value.body;
        body.kind == Some(TypeName(kind))
        && body.title == Some(fields.title) && body.description == Some(fields.description)
        && body.isActive == Some(FlagText(if fields.isActive then "true" else "false"))
        && (kind == Event ==> body.startDate == fields.startDate && body.endDate == fields.endDate)
        && (kind != Event ==> body.startDate.None? && body.endDate.None?)
        && body.existingMedia == (if existingMedia == [] then NotSent else JsonArray(existingMedia))
        && |body.files| == |newFiles|
        && forall k :: 0 <= k < |newFiles| ==> body.files[k] == Incoming(newFiles[k])
    {
      error := "";
      saving := true;
      var problem := DateCheck(kind, fields);
      if problem.Some? {
        error := problem.value;
        saving := false;
        return None;
      }
      var body := BuildBody(kind, fields, existingMedia, newFiles);
      submission := Some(Submission(editing, body));
    }

    /** The end of `handleSubmit`: a failure shows the server's message or
        a generic one; either way the saving flag is cleared. */
    method Settle(result: SendResult)
      modifies this`error, this`saving
      ensures !saving
      ensures result.Sent? ==> error == old(error)
      ensures result.Failed? ==>
        error == (if result.serverError.Some? && result.serverError.value != ""
                  then result.serverError.value else SaveFailedMessage)
    {
      if result.Failed? {
        error := if result.serverError.Some? && result.serverError.value != ""
                 then result.serverError.value else SaveFailedMessage;
      }
      saving := false;
    }
  }

  /** A body the form sends with non-empty title and description passes
      the server's own create checks, because the form checked the dates
      the same way. */
  lemma SubmittedBodyPassesCreateChecks(kind: ContentType, fields: Fields, body: ContentRequest)
    requires DateCheck(kind, fields).None?
    requires fields.title != "" && fields.description != ""
    requires body.kind == Some(TypeName(kind))
    requires body.title == Some(fields.title) && body.description == Some(fields.description)
    requires kind == Event ==> body.startDate == fields.startDate && body.endDate == fields.endDate
    ensures CreateCheck(body) == Ok(kind)
  {
    TypeNameRoundTrip(kind, kind);
    if kind != Event {
      assert TypeName(kind) != "EVENT";
    }
  }

  /** Removing every stored image in the form sends no `existingMedia`
      part, so the server keeps all of them and deletes none. */
  lemma EmptiedMediaKeepsOriginals(body: ContentRequest, original: seq<MediaItem>)
    requires body.existingMedia == NotSent
    ensures KeptMedia(original, body.existingMedia) == original
    ensures RemovedMedia(original, KeptMedia(original, body.existingMedia)) == []
  {
    forall m | m in original
      ensures HasUrl(original, m.url)
    {
      var k :| 0 <= k < |original| && original[k] == m;
    }
    assert multiset(RemovedMedia(original, original)) == multiset{};
  }
}
