/** Local storage of uploaded images: how a stored file name and its public
    URL are derived from a generated id and the client's file name, which
    file a delete targets, and the upload directory as a set of file
    names that uploads add to and deletes remove from. Ids are supplied by
    the caller; I/O failures are part of the directory's state. */
module FileStorage {
  import opened Wrappers
  import opened Strings

  const PublicUrlPath: string := "/uploads"
  const FallbackExtension: string := "jpg"
  const FallbackName: string := "file"
  const UploadedKind: string := "image"

  /** The prefixes `uploadFile`, `uploadMultipleFiles` and `deleteFile` put
      before the message of the error they rethrow. */
  const UploadFilePrefix: string := "Failed to upload file: "
  const UploadFilesPrefix: string := "Failed to upload files: "
  const DeleteFilePrefix: string := "Failed to delete file: "

  /** The extension of a client file name: the text after the last dot
      (the whole name when there is none), or "jpg" when that is empty. */
  function Extension(originalName: string): (r: string)
    ensures r != "" && '.' !in r
    ensures r != FallbackExtension ==>
      EndsWith(originalName, r)
      && (|r| == |originalName| || originalName[|originalName| - |r| - 1] == '.')
    ensures originalName == "" || originalName[|originalName| - 1] == '.' ==> r == FallbackExtension
    ensures '.' !in originalName && originalName != "" ==> r == originalName
  {
    var last := AfterLast(originalName, '.');
    if last == "" then FallbackExtension else last
  }

  /** The stored name: the id, a dot, then the extension. */
  function StoredFileName(uuid: string, originalName: string): string {
    uuid + "." + Extension(originalName)
  }

  /** The public URL of a stored file, under "/uploads". */
  function PublicUrl(fileName: string): string {
    PublicUrlPath + "/" + fileName
  }

  function StripTrailingSlashes(p: string): (r: string)
    ensures r == [] || r[|r| - 1] != '/'
    ensures |r| <= |p| && r == p[..|r|]
  {
    if |p| > 0 && p[|p| - 1] == '/' then StripTrailingSlashes(p[..|p| - 1]) else p
  }

  /** POSIX `path.basename`: trailing slashes are ignored, then the text
      after the last slash. */
  function BaseName(p: string): (r: string)
    ensures '/' !in r
  {
    AfterLast(StripTrailingSlashes(p), '/')
  }

  /** The file `deleteFile` unlinks: the last path component when the
      argument contains a slash, otherwise the argument itself. */
  function DeleteTarget(name: string): (r: string)
    ensures '/' !in r
    ensures '/' !in name ==> r == name
  {
    if '/' in name then BaseName(name) else name
  }

  lemma {:induction false} AfterLastPastSeparator(a: string, c: char, b: string)
    requires c !in b
    ensures AfterLast(a + [c] + b, c) == b
    decreases |b|
  {
    var s := a + [c] + b;
    if b == [] {
    } else {
      assert s[..|s| - 1] == a + [c] + b[..|b| - 1];
      AfterLastPastSeparator(a, c, b[..|b| - 1]);
      assert b[..|b| - 1] + [b[|b| - 1]] == b;
    }
  }

  /** Deleting by a public URL targets the file it names, when that name
      is not empty and has no slash. */
  lemma DeleteTargetOfPublicUrl(fileName: string)
    requires fileName != "" && '/' !in fileName
    ensures DeleteTarget(PublicUrl(fileName)) == fileName
  {
    var url := PublicUrl(fileName);
    assert url == PublicUrlPath + ['/'] + fileName;
    assert url[|url| - 1] == fileName[|fileName| - 1];
    assert StripTrailingSlashes(url) == url;
    AfterLastPastSeparator(PublicUrlPath, '/', fileName);
    assert '/' in url by { assert url[|PublicUrlPath|] == '/'; }
  }

  /** Deleting by the URL an upload returned targets exactly the file that
      upload wrote, provided neither the generated id nor the extension
      contains a slash. */
  lemma UploadDeleteRoundTrip(uuid: string, originalName: string)
    requires '/' !in uuid && '/' !in Extension(originalName)
    ensures DeleteTarget(PublicUrl(StoredFileName(uuid, originalName))) == StoredFileName(uuid, originalName)
  {
    var fileName := StoredFileName(uuid, originalName);
    assert '/' !in fileName by {
      forall k | 0 <= k < |fileName| ensures fileName[k] != '/' {
        if k < |uuid| {
          assert fileName[k] == uuid[k];
        } else if k > |uuid| {
          assert fileName[k] == Extension(originalName)[k - |uuid| - 1];
        }
      }
    }
    DeleteTargetOfPublicUrl(fileName);
  }

  /** What `uploadFile` resolves to. */
  datatype UploadResult = UploadResult(url: string, kind: string, fileName: string)

  /** A file as the multipart parser hands it over; the bytes are not
      modelled. */
  datatype IncomingFile = IncomingFile(originalName: Option<string>, mimetype: string)

  /** The client's file name, or "file" when it sent none. */
  function NameOf(f: IncomingFile): (r: string)
    ensures r != ""
    ensures f.originalName.Some? && f.originalName.value != "" ==> r == f.originalName.value
  {
    if f.originalName.Some? && f.originalName.value != "" then f.originalName.value else FallbackName
  }

  function UploadedFileName(f: IncomingFile, uuid: string): string {
    StoredFileName(uuid, NameOf(f))
  }

  function ResultFor(fileName: string): UploadResult {
    UploadResult(PublicUrl(fileName), UploadedKind, fileName)
  }

  /** The stored file name of each file of a batch, in input order. */
  function BatchNames(fs: seq<IncomingFile>, uuids: seq<string>): (names: seq<string>)
    requires |uuids| == |fs|
    ensures |names| == |fs|
  {
    if fs == [] then []
    else BatchNames(fs[..|fs| - 1], uuids[..|fs| - 1]) + [UploadedFileName(fs[|fs| - 1], uuids[|fs| - 1])]
  }

  lemma {:induction false} BatchNameAt(fs: seq<IncomingFile>, uuids: seq<string>, k: nat)
    requires |uuids| == |fs| && k < |fs|
    ensures BatchNames(fs, uuids)[k] == UploadedFileName(fs[k], uuids[k])
  {
    if k < |fs| - 1 {
      BatchNameAt(fs[..|fs| - 1], uuids[..|fs| - 1], k);
    }
  }

  /** The files a batch writes: each name whose write does not fail. */
  function Written(names: seq<string>, writeErrors: map<string, string>): set<string> {
    if names == [] then {}
    else
      var name := names[|names| - 1];
      Written(names[..|names| - 1], writeErrors) + (if name in writeErrors then {} else {name})
  }

  /** A batch writes exactly the names whose write does not fail. */
  lemma {:induction false} WrittenIff(names: seq<string>, writeErrors: map<string, string>)
    ensures forall x :: x in Written(names, writeErrors) <==> x in names && x !in writeErrors
  {
    if names != [] {
      var init := names[..|names| - 1];
      WrittenIff(init, writeErrors);
      assert names == init + [names[|names| - 1]];
    }
  }

  /** `k` is the first index whose write fails. */
  predicate FirstFailure(names: seq<string>, writeErrors: map<string, string>, k: nat) {
    k < |names| && names[k] in writeErrors && forall j :: 0 <= j < k ==> names[j] !in writeErrors
  }

  /** At most one index is the first failing one. */
  lemma FirstFailureUnique(names: seq<string>, writeErrors: map<string, string>, k: nat, k': nat)
    requires FirstFailure(names, writeErrors, k) && FirstFailure(names, writeErrors, k')
    ensures k == k'
  {
  }

  /** The message a failed batch is rejected with: the first failing
      file's message under both prefixes, or nothing when every write
      succeeds. */
  function BatchError(names: seq<string>, writeErrors: map<string, string>): (r: Option<string>)
    ensures r.None? <==> forall k :: 0 <= k < |names| ==> names[k] !in writeErrors
    ensures r.Some? ==>
              exists k: nat :: (FirstFailure(names, writeErrors, k)
                                && r.value == UploadFilesPrefix + (UploadFilePrefix + writeErrors[names[k]]))
  {
    if names == [] then None
    else if names[0] in writeErrors then
      assert FirstFailure(names, writeErrors, 0);
      Some(UploadFilesPrefix + (UploadFilePrefix + writeErrors[names[0]]))
    else
      var rest := BatchError(names[1..], writeErrors);
      assert forall k :: 1 <= k < |names| ==> names[1..][k - 1] == names[k];
      if rest.Some? then
        var k: nat :| FirstFailure(names[1..], writeErrors, k)
                      && rest.value == UploadFilesPrefix + (UploadFilePrefix + writeErrors[names[1..][k]]);
        assert FirstFailure(names, writeErrors, k + 1);
        rest
      else rest
  }

  /** The files a sequence of deletes removes: each target whose unlink
      does not fail. */
  function Unlinked(names: seq<string>, unlinkErrors: map<string, string>): set<string> {
    if names == [] then {}
    else Unlinked(names[..|names| - 1], unlinkErrors) + UnlinkedBy(names[|names| - 1], unlinkErrors)
  }

  /** The file one delete removes: its target, unless unlinking it fails. */
  function UnlinkedBy(name: string, unlinkErrors: map<string, string>): set<string> {
    var target := DeleteTarget(name);
    if target in unlinkErrors then {} else {target}
  }

  /** One more delete adds its own target, unless unlinking it fails. */
  lemma UnlinkedStep(names: seq<string>, i: nat, unlinkErrors: map<string, string>)
    requires i < |names|
    ensures Unlinked(names[..i + 1], unlinkErrors) ==
      Unlinked(names[..i], unlinkErrors) + UnlinkedBy(names[i], unlinkErrors)
  {
    assert names[..i + 1][..i] == names[..i];
  }

  /** A sequence of deletes removes exactly the targets of its names whose
      unlink does not fail. */
  lemma {:induction false} UnlinkedIff(names: seq<string>, unlinkErrors: map<string, string>)
    ensures forall x :: x in Unlinked(names, unlinkErrors) <==>
      x !in unlinkErrors && exists k :: 0 <= k < |names| && DeleteTarget(names[k]) == x
  {
    if names != [] {
      var init := names[..|names| - 1];
      UnlinkedIff(init, unlinkErrors);
      forall x | x !in unlinkErrors && exists k :: 0 <= k < |names| && DeleteTarget(names[k]) == x
        ensures x in Unlinked(names, unlinkErrors)
      {
        var k :| 0 <= k < |names| && DeleteTarget(names[k]) == x;
        if k < |names| - 1 {
          assert DeleteTarget(init[k]) == x;
        }
      }
      forall x | x in Unlinked(names, unlinkErrors)
        ensures exists k :: 0 <= k < |names| && DeleteTarget(names[k]) == x
      {
        if x in Unlinked(init, unlinkErrors) {
          var k :| 0 <= k < |init| && DeleteTarget(init[k]) == x;
          assert DeleteTarget(names[k]) == x;
        } else {
          assert DeleteTarget(names[|names| - 1]) == x;
        }
      }
    }
  }

  /** The upload directory. `writeErrors` and `unlinkErrors` stand for the
      file system's failures: writing a file name in `writeErrors`, or
      unlinking a name in `unlinkErrors`, fails with that message. A name
      in `unlinkErrors` need not be a stored file: "", "." and ".." name
      directories, whose unlink fails whatever is stored. Unlinking any
      other name that is not stored fails with ENOENT. `deleteLog` records
      every delete request. */
  class UploadDir {
    var files: set<string>
    var writeErrors: map<string, string>
    var unlinkErrors: map<string, string>
    ghost var deleteLog: seq<string>

    constructor (writeErrors: map<string, string>, unlinkErrors: map<string, string>)
      ensures files == {} && deleteLog == []
      ensures this.writeErrors == writeErrors && this.unlinkErrors == unlinkErrors
    {
      files := {};
      this.writeErrors := writeErrors;
      this.unlinkErrors := unlinkErrors;
      deleteLog := [];
    }

    /** `uploadFile`: writes `<uuid>.<ext>` and returns its public URL with
        media type "image". */
    method UploadFile(originalName: string, uuid: string) returns (r: Result<UploadResult, string>)
      modifies this`files
      ensures var fileName := StoredFileName(uuid, originalName);
        if fileName in writeErrors then
          r == Err(UploadFilePrefix + writeErrors[fileName]) && files == old(files)
        else
          r == Ok(ResultFor(fileName)) && files == old(files) + {fileName}
    {
      r := WriteFile(uuid + "." + Extension(originalName));
    }

    /** Writes one file under its stored name. */
    method WriteFile(fileName: string) returns (r: Result<UploadResult, string>)
      modifies this`files
      ensures fileName in writeErrors ==>
        r == Err(UploadFilePrefix + writeErrors[fileName]) && files == old(files)
      ensures fileName !in writeErrors ==>
        r == Ok(ResultFor(fileName)) && files == old(files) + {fileName}
    {
      if fileName in writeErrors {
        return Err(UploadFilePrefix + writeErrors[fileName]);
      }
      files := files + {fileName};
      r := Ok(UploadResult(PublicUrlPath + "/" + fileName, UploadedKind, fileName));
    }

    /** `uploadMultipleFiles`: one upload per file, in input order, a
        missing name counting as "file". Every upload is attempted; if any
        fails, the whole call fails with the message of the first failing
        file, and the files that were written stay written. */
    method UploadMultipleFiles(fs: seq<IncomingFile>, uuids: seq<string>)
      returns (r: Result<seq<UploadResult>, string>)
      requires |uuids| == |fs|
      modifies this`files
      ensures files == old(files) + Written(BatchNames(fs, uuids), writeErrors)
      ensures r.Ok? <==> forall k :: 0 <= k < |fs| ==> BatchNames(fs, uuids)[k] !in writeErrors
      ensures r.Ok? ==> |r.value| == |fs|
      ensures r.Ok? ==> forall k :: 0 <= k < |fs| ==> r.value[k] == ResultFor(BatchNames(fs, uuids)[k])
      ensures r.Err? ==> BatchError(BatchNames(fs, uuids), writeErrors) == Some(r.error)
    {
      var names := BatchNames(fs, uuids);
      r := WriteAll(names);
      if r.Err? {
        var k: nat :| FirstFailure(names, writeErrors, k)
                      && r.error == UploadFilesPrefix + (UploadFilePrefix + writeErrors[names[k]]);
        var e := BatchError(names, writeErrors);
        var k': nat :| FirstFailure(names, writeErrors, k')
                       && e.value == UploadFilesPrefix + (UploadFilePrefix + writeErrors[names[k']]);
        FirstFailureUnique(names, writeErrors, k, k');
      }
    }

    /** The files of a batch are written one after the other. */
    method WriteAll(names: seq<string>) returns (r: Result<seq<UploadResult>, string>)
      modifies this`files
      ensures files == old(files) + Written(names, writeErrors)
      ensures r.Ok? <==> forall k :: 0 <= k < |names| ==> names[k] !in writeErrors
      ensures r.Ok? ==> |r.value| == |names|
      ensures r.Ok? ==> forall k :: 0 <= k < |names| ==> r.value[k] == ResultFor(names[k])
      ensures r.Err? ==>
                exists k: nat :: (FirstFailure(names, writeErrors, k)
                                  && r.error == UploadFilesPrefix + (UploadFilePrefix + writeErrors[names[k]]))
    {
      var results: seq<UploadResult> := [];
      var firstError: Option<string> := None;
      ghost var failedAt: nat := 0;
      var i := 0;
      while i < |names|
        invariant 0 <= i <= |names|
        invariant files == old(files) + Written(names[..i], writeErrors)
        invariant firstError.None? ==> forall k :: 0 <= k < i ==> names[k] !in writeErrors
        invariant firstError.None? ==> |results| == i
        invariant firstError.None? ==> forall k :: 0 <= k < i ==> results[k] == ResultFor(names[k])
        invariant firstError.Some? ==> failedAt < i && FirstFailure(names, writeErrors, failedAt)
        invariant firstError.Some? ==> firstError.value == UploadFilePrefix + writeErrors[names[failedAt]]
      {
        var one := WriteFile(names[i]);
        assert names[..i + 1][..i] == names[..i];
        if one.Ok? {
          results := results + [one.value];
        } else if firstError.None? {
          firstError := Some(one.error);
          failedAt := i;
        }
        i := i + 1;
      }
      assert names[..i] == names;
      if firstError.Some? {
        r := Err(UploadFilesPrefix + firstError.value);
        assert FirstFailure(names, writeErrors, failedAt);
      } else {
        r := Ok(results);
      }
    }

    /** `deleteFile`: unlinks the target. A failure other than ENOENT is
        an error, whether or not the target is a stored file (a directory
        such as the upload directory itself fails this way); a target that
        is neither stored nor failing does not exist (ENOENT), which is a
        silent success. */
    method DeleteFile(name: string) returns (r: Result<(), string>)
      modifies this`files, this`deleteLog
      ensures deleteLog == old(deleteLog) + [name]
      ensures files == old(files) - UnlinkedBy(name, unlinkErrors)
      ensures r.Err? <==> DeleteTarget(name) in unlinkErrors
      ensures r.Err? ==> r.error == DeleteFilePrefix + unlinkErrors[DeleteTarget(name)]
    {
      deleteLog := deleteLog + [name];
      var target := DeleteTarget(name);
      if target in unlinkErrors {
        return Err(DeleteFilePrefix + unlinkErrors[target]);
      }
      files := files - {target};
      r := Ok(());
    }

    /** Deletes each name in turn, ignoring failures: what both the update
        and the delete route do with the media they drop. */
    method DeleteEach(names: seq<string>)
      modifies this`files, this`deleteLog
      ensures deleteLog == old(deleteLog) + names
      ensures files == old(files) - Unlinked(names, unlinkErrors)
    {
      var i := 0;
      while i < |names|
        invariant 0 <= i <= |names|
        invariant deleteLog == old(deleteLog) + names[..i]
        invariant files == old(files) - Unlinked(names[..i], unlinkErrors)
      {
        assert names[..i + 1] == names[..i] + [names[i]];
        ghost var done := Unlinked(names[..i], unlinkErrors);
        UnlinkedStep(names, i, unlinkErrors);
        var _ := DeleteFile(names[i]);
        assert files == old(files) - (done + UnlinkedBy(names[i], unlinkErrors));
        i := i + 1;
      }
      assert names[..i] == names;
    }
  }
}
