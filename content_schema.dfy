/** The Content model: the `contentSchema` and `mediaSchema` checks the
    store applies on every save, the document object whose fields the
    routes assign in place (with the `trim` setters and the pre-save
    hook that stamps `updatedAt`), and the collection of saved records,
    which stands for the document store as a map from id to record. */
module ContentSchema {
  import opened Wrappers
  import opened Strings

  /** Record identifiers (MongoDB ObjectIds), kept abstract. */
  type Id = nat

  /** Timestamps in milliseconds. */
  type Time = int

  datatype ContentType = Event | Achievement | Work

  function TypeName(t: ContentType): string {
    match t
    case Event => "EVENT"
    case Achievement => "ACHIEVEMENT"
    case Work => "WORK"
  }

  /** The `enum` of the `type` path: a string is accepted exactly when it
      names one of the three kinds. */
  function ParseType(s: string): (r: Option<ContentType>)
    ensures r.Some? <==> s == "EVENT" || s == "ACHIEVEMENT" || s == "WORK"
    ensures r.Some? ==> TypeName(r.value) == s
  {
    if s == "EVENT" then Some(Event)
    else if s == "ACHIEVEMENT" then Some(Achievement)
    else if s == "WORK" then Some(Work)
    else None
  }

  lemma {:induction false} TypeNameRoundTrip(t: ContentType, u: ContentType)
    ensures ParseType(TypeName(t)) == Some(t)
    ensures TypeName(t) == TypeName(u) ==> t == u
  {
    match t
    case Event =>
    case Achievement =>
    case Work =>
  }

  /** A media entry as the store receives it. The strings come from the
      client unchecked; an absent `url` or `type` is the empty string. */
  datatype MediaItem = MediaItem(url: string, kind: string)

  const ImageKind: string := "image"
  const VideoKind: string := "video"

  /** `mediaSchema`: a required `url` and a required `type` in the enum. */
  predicate MediaItemValid(m: MediaItem) {
    m.url != "" && (m.kind == ImageKind || m.kind == VideoKind)
  }

  datatype Content = Content(
    kind: ContentType,
    title: string,
    description: string,
    media: seq<MediaItem>,
    startDate: Option<Time>,
    endDate: Option<Time>,
    isActive: bool,
    createdAt: Time,
    updatedAt: Time)

  const EndDateMessage: string := "End date must be after or equal to start date"

  /** One failed schema check, by path. */
  datatype SchemaError =
    | Required(path: string)
    | MediaUrlRequired(index: nat)
    | MediaKindRequired(index: nat)
    | MediaKindNotInEnum(index: nat)
    | EndBeforeStart
  {
    /** The messages the schema itself defines. */
    function CustomMessage(): Option<string> {
      if EndBeforeStart? then Some(EndDateMessage) else None
    }
  }

  /** The `endDate` validator: it runs only when `endDate` is set, and for
      an EVENT with a `startDate` it demands `endDate >= startDate`. */
  predicate EndDateValidatorFails(c: Content) {
    c.kind == Event && c.startDate.Some? && c.endDate.Some? && c.endDate.value < c.startDate.value
  }

  /** The `mediaSchema` checks each entry fails, by index. */
  function MediaViolations(media: seq<MediaItem>): (r: set<SchemaError>)
    ensures forall e :: e in r ==> !e.Required? && !e.EndBeforeStart?
  {
    (set i | 0 <= i < |media| && media[i].url == "" :: MediaUrlRequired(i))
    + (set i | 0 <= i < |media| && media[i].kind == "" :: MediaKindRequired(i))
    + (set i | 0 <= i < |media| && media[i].kind != "" && media[i].kind != ImageKind
                 && media[i].kind != VideoKind :: MediaKindNotInEnum(i))
  }

  /** Every check of `contentSchema` that `c` fails. Strings are checked
      after their setters ran, so a title of spaces only is missing. */
  function Violations(c: Content): set<SchemaError> {
    (if c.title == "" then {Required("title")} else {})
    + (if c.description == "" then {Required("description")} else {})
    + MediaViolations(c.media)
    + (if c.kind == Event && c.startDate.None? then {Required("startDate")} else {})
    + (if c.kind == Event && c.endDate.None? then {Required("endDate")} else {})
    + (if EndDateValidatorFails(c) then {EndBeforeStart} else {})
  }

  predicate SchemaValid(c: Content) {
    Violations(c) == {}
  }

  /** Schema validity stated path by path: required text, valid media
      entries, and for an EVENT (and only for an EVENT) both dates present
      and ordered. */
  lemma ValidIff(c: Content)
    ensures SchemaValid(c) <==>
      c.title != "" && c.description != ""
      && (forall i :: 0 <= i < |c.media| ==> MediaItemValid(c.media[i]))
      && (c.kind == Event ==>
            c.startDate.Some? && c.endDate.Some? && c.startDate.value <= c.endDate.value)
  {
    if forall i :: 0 <= i < |c.media| ==> MediaItemValid(c.media[i]) {
      assert MediaViolations(c.media) == {};
    } else {
      var i :| 0 <= i < |c.media| && !MediaItemValid(c.media[i]);
      if c.media[i].url == "" {
        assert MediaUrlRequired(i) in MediaViolations(c.media);
      } else if c.media[i].kind == "" {
        assert MediaKindRequired(i) in MediaViolations(c.media);
      } else {
        assert MediaKindNotInEnum(i) in MediaViolations(c.media);
      }
    }
    if EndDateValidatorFails(c) {
      assert EndBeforeStart in Violations(c);
    }
  }

  /** The dates of a record that is not an EVENT play no part in its
      validity. */
  lemma DatesIgnoredUnlessEvent(c: Content, start: Option<Time>, end: Option<Time>)
    requires c.kind != Event
    ensures SchemaValid(c) <==> SchemaValid(c.(startDate := start, endDate := end))
  {
    ValidIff(c);
    ValidIff(c.(startDate := start, endDate := end));
  }

  /** What every record in the store satisfies: it passed the schema, its
      text fields went through the `trim` setters, and only EVENTs carry
      dates (the routes never set them on anything else). */
  predicate Stored(c: Content) {
    SchemaValid(c) && IsTrimmed(c.title) && IsTrimmed(c.description)
    && (c.kind != Event ==> c.startDate.None? && c.endDate.None?)
  }

  /** A document of the Content model: its fields are assigned in place;
      `title` and `description` go through the `trim` setter. */
  class ContentDoc {
    var kind: ContentType
    var title: string
    var description: string
    var media: seq<MediaItem>
    var startDate: Option<Time>
    var endDate: Option<Time>
    var isActive: bool
    var createdAt: Time
    var updatedAt: Time

    function Value(): Content
      reads this
    {
      Content(kind, title, description, media, startDate, endDate, isActive, createdAt, updatedAt)
    }

    /** `new Content({...})`: setters applied, `media` defaults to the empty
        list, `isActive` to true, both timestamps to the current time. */
    constructor Create(kind: ContentType, title: string, description: string,
                       media: Option<seq<MediaItem>>, startDate: Option<Time>,
                       endDate: Option<Time>, isActive: Option<bool>, now: Time)
      ensures Value() == Content(kind, Trim(title), Trim(description),
                                 if media.Some? then media.value else [],
                                 startDate, endDate,
                                 if isActive.Some? then isActive.value else true,
                                 now, now)
      ensures IsTrimmed(this.title) && IsTrimmed(this.description)
    {
      this.kind := kind;
      this.title := Trim(title);
      this.description := Trim(description);
      this.media := if media.Some? then media.value else [];
      this.startDate := startDate;
      this.endDate := endDate;
      this.isActive := if isActive.Some? then isActive.value else true;
      this.createdAt := now;
      this.updatedAt := now;
      TrimIsTrimmed(title);
      TrimIsTrimmed(description);
    }

    /** A document loaded from the store. */
    constructor Load(c: Content)
      ensures Value() == c
    {
      kind, title, description, media := c.kind, c.title, c.description, c.media;
      startDate, endDate, isActive := c.startDate, c.endDate, c.isActive;
      createdAt, updatedAt := c.createdAt, c.updatedAt;
    }

    method SetTitle(s: string)
      modifies this
      ensures Value() == old(Value()).(title := Trim(s))
      ensures IsTrimmed(title)
    {
      title := Trim(s);
      TrimIsTrimmed(s);
    }

    method SetDescription(s: string)
      modifies this
      ensures Value() == old(Value()).(description := Trim(s))
      ensures IsTrimmed(description)
    {
      description := Trim(s);
      TrimIsTrimmed(s);
    }

    /** The `pre('save')` hook. */
    method PreSave(now: Time)
      modifies this
      ensures Value() == old(Value()).(updatedAt := now)
    {
      updatedAt := now;
    }
  }

  /** The saved Content records, keyed by id. */
  class ContentCollection {
    var docs: map<Id, Content>

    ghost predicate Valid()
      reads this
    {
      forall id :: id in docs ==> Stored(docs[id])
    }

    constructor ()
      ensures Valid() && docs == map[]
    {
      docs := map[];
    }

    /** `Content.findById`: a fresh document holding the stored record. */
    method FindById(id: Id) returns (doc: ContentDoc?)
      ensures (doc != null) == (id in docs)
      ensures doc != null ==> fresh(doc) && doc.Value() == docs[id]
    {
      if id in docs {
        doc := new ContentDoc.Load(docs[id]);
      } else {
        doc := null;
      }
    }

    /** `doc.save()`: validation runs first; a valid document then passes
        through the pre-save hook and is written under `id`, an invalid one
        leaves the store and the document as they were. */
    method Save(doc: ContentDoc, id: Id, now: Time) returns (errors: set<SchemaError>)
      requires Valid()
      requires IsTrimmed(doc.title) && IsTrimmed(doc.description)
      requires doc.kind != Event ==> doc.startDate.None? && doc.endDate.None?
      modifies this, doc
      ensures Valid()
      ensures errors == Violations(old(doc.Value()))
      ensures errors == {} ==>
                doc.Value() == old(doc.Value()).(updatedAt := now) && docs == old(docs)[id := doc.Value()]
      ensures errors != {} ==> doc.Value() == old(doc.Value()) && docs == old(docs)
    {
      errors := Violations(doc.Value());
      if errors == {} {
        doc.PreSave(now);
        docs := docs[id := doc.Value()];
      }
    }

    /** `Content.findByIdAndDelete`. */
    method Remove(id: Id)
      requires Valid()
      modifies this
      ensures Valid()
      ensures docs == old(docs) - {id}
    {
      docs := docs - {id};
    }
  }
}
