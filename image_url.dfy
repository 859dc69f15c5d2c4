/** `getImageUrl`: turns the relative URL of an uploaded image into an
    absolute one on the backend's host. The API base comes from the build
    environment (a parameter here) and defaults to the local server. */
module ImageUrl {
  import opened Wrappers
  import opened Strings
  import opened ContentSchema

  const DefaultApiUrl: string := "http://localhost:5000/api"
  const ApiSuffix: string := "/api"
  const HttpScheme: string := "http://"
  const HttpsScheme: string := "https://"
  /** The relative URL of one uploaded image, for the worked example. */
  const UploadedSample: string := "/uploads/a.jpg"

  /** The API base: the configured value when it is set and non-empty,
      else the local server's. */
  function ApiBase(env: Option<string>): (r: string)
    ensures env.Some? && env.value != "" ==> r == env.value
    ensures env.None? || env.value == "" ==> r == DefaultApiUrl
  {
    if env.Some? && env.value != "" then env.value else DefaultApiUrl
  }

  predicate IsAbsolute(url: string) {
    StartsWith(url, HttpScheme) || StartsWith(url, HttpsScheme)
  }

  /** The backend root as the code derives it: the API base with its
      FIRST occurrence of "/api" removed, wherever that occurrence is. */
  function BackendUrlAsWritten(apiUrl: string): string {
    ReplaceFirst(apiUrl, ApiSuffix, "")
  }

  /** What the comment beside it says is meant: the "/api" suffix removed
      if present. */
  function BackendUrl(apiUrl: string): (r: string)
    ensures EndsWith(apiUrl, ApiSuffix) ==> r + ApiSuffix == apiUrl
    ensures !EndsWith(apiUrl, ApiSuffix) ==> r == apiUrl
  {
    if EndsWith(apiUrl, ApiSuffix) then
      assert apiUrl[..|apiUrl| - 4] + apiUrl[|apiUrl| - 4..] == apiUrl;
      apiUrl[..|apiUrl| - 4]
    else apiUrl
  }

  /** The path with a leading slash added when it lacks one. */
  function WithLeadingSlash(url: string): (r: string)
    ensures |r| > 0 && r[0] == '/'
    ensures EndsWith(r, url) && |r| <= |url| + 1
    ensures |url| > 0 && url[0] == '/' ==> r == url
  {
    if StartsWith(url, "/") then url else "/" + url
  }

  /** The body of `getImageUrl` once the backend's base is known: nothing
      for a missing or empty URL, an absolute URL unchanged, anything else
      appended to the base with one leading slash ensured. */
  function Resolve(imageUrl: Option<string>, base: string): (r: string)
    ensures imageUrl.None? || imageUrl.value == "" ==> r == ""
    ensures imageUrl.Some? && IsAbsolute(imageUrl.value) ==> r == imageUrl.value
    ensures imageUrl.Some? && imageUrl.value != "" && !IsAbsolute(imageUrl.value) ==>
      && |base| + |imageUrl.value| <= |r| <= |base| + |imageUrl.value| + 1
      && StartsWith(r, base) && EndsWith(r, imageUrl.value) && r[|base|] == '/'
  {
    if imageUrl.None? || imageUrl.value == "" then ""
    else if IsAbsolute(imageUrl.value) then imageUrl.value
    else
      var clean := WithLeadingSlash(imageUrl.value);
      assert (base + clean)[..|base|] == base;
      assert (base + clean)[|base + clean| - |imageUrl.value|..] == clean[|clean| - |imageUrl.value|..];
      base + clean
  }

  /** `getImageUrl(imageUrl)` on the intended backend root. */
  function GetImageUrl(imageUrl: Option<string>, env: Option<string>): (r: string)
    ensures imageUrl.None? || imageUrl.value == "" ==> r == ""
    ensures imageUrl.Some? && IsAbsolute(imageUrl.value) ==> r == imageUrl.value
    ensures imageUrl.Some? && imageUrl.value != "" && !IsAbsolute(imageUrl.value) ==>
      var base := BackendUrl(ApiBase(env));
      && |base| + |imageUrl.value| <= |r| <= |base| + |imageUrl.value| + 1
      && StartsWith(r, base) && EndsWith(r, imageUrl.value) && r[|base|] == '/'
  {
    Resolve(imageUrl, BackendUrl(ApiBase(env)))
  }

  /** `getImageUrl(imageUrl)` on the root the code as written derives. */
  function GetImageUrlAsWritten(imageUrl: Option<string>, env: Option<string>): string {
    Resolve(imageUrl, BackendUrlAsWritten(ApiBase(env)))
  }

  /** The image a component shows for entry `index` of a media list: its
      resolved url, or the component's placeholder when the list is empty,
      the index is past it, or the entry has no url. Never empty. */
  function ImageOrPlaceholder(media: seq<MediaItem>, index: nat, env: Option<string>,
                              placeholder: string): (r: string)
    requires placeholder != ""
    ensures media == [] || index >= |media| ==> r == placeholder
    ensures index < |media| && media[index].url == "" ==> r == placeholder
    ensures index < |media| && media[index].url != "" ==> r == GetImageUrl(Some(media[index].url), env)
    ensures r != ""
  {
    if index < |media| && media[index].url != "" then
      assert |GetImageUrl(Some(media[index].url), env)| >= |media[index].url|;
      GetImageUrl(Some(media[index].url), env)
    else placeholder
  }

  /** The default base gives the local server's root. */
  lemma DefaultBackend()
    ensures BackendUrl(ApiBase(None)) == "http://localhost:5000"
  {
    assert DefaultApiUrl[|DefaultApiUrl| - 4..] == ApiSuffix;
  }

  /** A relative name with or without its leading slash gives the same
      URL. */
  lemma {:induction false} LeadingSlashIrrelevant(name: string, env: Option<string>)
    requires name != "" && name[0] != '/' && !IsAbsolute(name)
    ensures GetImageUrl(Some(name), env) == GetImageUrl(Some("/" + name), env)
  {
    var slashed := "/" + name;
    assert !StartsWith(slashed, HttpScheme) by { assert slashed[0] != HttpScheme[0]; }
    assert !StartsWith(slashed, HttpsScheme) by { assert slashed[0] != HttpsScheme[0]; }
    assert StartsWith(slashed, "/");
    assert !StartsWith(name, "/");
  }

  lemma StartsWithAppend(a: string, b: string, p: string)
    requires StartsWith(a, p)
    ensures StartsWith(a + b, p)
  {
    assert (a + b)[..|p|] == a[..|p|];
  }

  /** With an absolute backend base, resolving a resolved URL changes
      nothing. */
  lemma {:induction false} GetImageUrlIdempotent(imageUrl: Option<string>, env: Option<string>)
    requires IsAbsolute(BackendUrl(ApiBase(env)))
    ensures GetImageUrl(Some(GetImageUrl(imageUrl, env)), env) == GetImageUrl(imageUrl, env)
  {
    var r := GetImageUrl(imageUrl, env);
    if imageUrl.Some? && imageUrl.value != "" && !IsAbsolute(imageUrl.value) {
      var base := BackendUrl(ApiBase(env));
      var clean := WithLeadingSlash(imageUrl.value);
      assert r == base + clean;
      if StartsWith(base, HttpScheme) {
        StartsWithAppend(base, clean, HttpScheme);
      } else {
        StartsWithAppend(base, clean, HttpsScheme);
      }
    }
  }

  /** Where "/api" occurs only as the suffix, the code as written and the
      intended reading agree. */
  lemma AsWrittenAgreesOnPlainBase(apiUrl: string)
    requires EndsWith(apiUrl, ApiSuffix)
    requires forall j :: 0 <= j < |apiUrl| - 4 ==> !OccursAt(apiUrl, ApiSuffix, j)
    ensures BackendUrlAsWritten(apiUrl) == BackendUrl(apiUrl)
  {
    assert OccursAt(apiUrl, ApiSuffix, |apiUrl| - 4);
    assert apiUrl[|apiUrl|..] == [];
  }

  /** An API host whose name begins with "api" loses part of its scheme
      under the code as written, while the intended reading only drops the
      path suffix. */
  lemma AsWrittenBreaksApiHost(s: string)
    requires s == "http://api.io/api"
    ensures BackendUrlAsWritten(s) == "http:/.io/api"
    ensures BackendUrl(s) == "http://api.io"
  {
    assert OccursAt(s, ApiSuffix, 6);
    forall j | 0 <= j < 6
      ensures !OccursAt(s, ApiSuffix, j)
    {
      assert s[j..j + 4][0] == s[j] && s[j..j + 4][1] == s[j + 1];
    }
    FirstOccurrence(s, ApiSuffix, 6);
    assert s[..6] == "http:/" && s[10..] == ".io/api";
    assert s[|s| - 4..] == ApiSuffix;
    assert s[..|s| - 4] == "http://api.io";
  }

  /** Where the API base holds "/api" only as its suffix, the code as
      written resolves every image as intended. */
  lemma AsWrittenResolvesPlainBase(imageUrl: Option<string>, env: Option<string>)
    requires EndsWith(ApiBase(env), ApiSuffix)
    requires forall j :: 0 <= j < |ApiBase(env)| - 4 ==> !OccursAt(ApiBase(env), ApiSuffix, j)
    ensures GetImageUrlAsWritten(imageUrl, env) == GetImageUrl(imageUrl, env)
  {
    AsWrittenAgreesOnPlainBase(ApiBase(env));
  }

  /** Without configuration the code as written resolves every image as
      intended. */
  lemma AsWrittenResolvesDefault(imageUrl: Option<string>)
    ensures GetImageUrlAsWritten(imageUrl, None) == GetImageUrl(imageUrl, None)
  {
    var s := DefaultApiUrl;
    assert ApiBase(None) == s;
    assert s[|s| - 4..] == ApiSuffix;
    forall j | 0 <= j < |s| - 4
      ensures !OccursAt(s, ApiSuffix, j)
    {
      assert s[j..j + 4][0] == s[j] && s[j..j + 4][1] == s[j + 1];
    }
    AsWrittenResolvesPlainBase(imageUrl, None);
  }

  /** With an API host whose name begins with "api", an uploaded image
      resolves under the code as written to a URL that has lost part of
      its scheme, while the intended root keeps the host. */
  lemma AsWrittenBreaksImageUrl(env: string)
    requires env == "http://api.io/api"
    ensures GetImageUrlAsWritten(Some(UploadedSample), Some(env)) == "http:/.io/api" + UploadedSample
    ensures GetImageUrl(Some(UploadedSample), Some(env)) == "http://api.io" + UploadedSample
  {
    assert ApiBase(Some(env)) == env;
    AsWrittenBreaksApiHost(env);
    SampleIsRelative();
    ResolveRelative(UploadedSample, "http:/.io/api");
    ResolveRelative(UploadedSample, "http://api.io");
  }

  lemma SampleIsRelative()
    ensures UploadedSample != "" && UploadedSample[0] == '/' && !IsAbsolute(UploadedSample)
  {
    assert UploadedSample[0] != HttpScheme[0] && UploadedSample[0] != HttpsScheme[0];
  }

  lemma ResolveRelative(name: string, base: string)
    requires name != "" && name[0] == '/' && !IsAbsolute(name)
    ensures Resolve(Some(name), base) == base + name
  {
    assert StartsWith(name, "/");
  }
}
