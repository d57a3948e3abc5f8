/** Photo storage (src/lib/server/services/storage.service.ts): the configuration flag
    reader, the content-type rules, the object key and public URL of a stored photo, and the
    checks an upload passes before it is sent to the object store. The store itself is
    outside the model: its answer to the PUT is a parameter. */
module Storage {
  import opened Wrappers
  import opened Text

  /** `MAX_REPORT_PHOTO_SIZE`, 10 MiB. */
  const MaxReportPhotoSize: int := 10 * 1024 * 1024

  /** The environment variables the service reads; a missing variable and an empty one are
      alike to it. */
  datatype StorageEnv = StorageEnv(
    publicBaseUrl: Option<string>,
    endpoint: Option<string>,
    bucket: Option<string>,
    accessKeyId: Option<string>,
    secretAccessKey: Option<string>)

  /** `!value` for an optional string. */
  predicate Unset(value: Option<string>) {
    value.None? || value.value == ""
  }

  /** The error `readRequiredEnv` throws for a missing variable. */
  function NotSet(name: string): Failure {
    Internal(name + " is not set")
  }

  /** `readRequiredEnv(name)`. */
  function ReadRequired(value: Option<string>, name: string): (r: Result<string>)
    ensures Unset(value) <==> r == Err(NotSet(name))
    ensures !Unset(value) ==> r == Ok(value.value)
  {
    if Unset(value) then Err(NotSet(name)) else Ok(value.value)
  }

  /** `asBoolean(value)`. */
  function AsBoolean(value: Option<string>): (b: bool)
    ensures Unset(value) ==> !b
    ensures !Unset(value) ==> (b <==> Lower(value.value) in ["1", "true", "yes", "on"])
  {
    if Unset(value) then false else Lower(value.value) in ["1", "true", "yes", "on"]
  }

  /** The flag ignores the case of its ASCII letters. */
  lemma AsBooleanIgnoresCase(s: string)
    ensures AsBoolean(Some(Lower(s))) == AsBoolean(Some(s))
  {
    LowerIdempotent(s);
  }

  const OctetStream: string := "application/octet-stream"

  /** `normalizeContentType(contentType)`. */
  function NormalizeContentType(contentType: Option<string>): (r: string)
    ensures Unset(contentType) ==> r == OctetStream
    ensures !Unset(contentType) ==> r == Lower(Trim(contentType.value))
  {
    if Unset(contentType) then OctetStream else Lower(Trim(contentType.value))
  }

  lemma LowerCharKeepsWhitespace(c: char)
    ensures IsWhitespace(LowerChar(c)) <==> IsWhitespace(c)
  {
    if 'A' <= c <= 'Z' {
      var d := LowerChar(c);
      assert 'a' <= d <= 'z';
    }
  }

  /** Lower-casing leaves whitespace where it is, so a trimmed string stays trimmed. */
  lemma LowerKeepsTrimmed(t: string)
    requires t == [] || (!IsWhitespace(t[0]) && !IsWhitespace(t[|t| - 1]))
    ensures Trim(Lower(t)) == Lower(t)
  {
    var u := Lower(t);
    if u != [] {
      LowerCharKeepsWhitespace(t[0]);
      LowerCharKeepsWhitespace(t[|t| - 1]);
    }
    TrimStartOfTrimmed(u);
    TrimEndOfTrimmed(u);
  }

  /** A normalised content type is a fixed point of normalisation, unless it came out empty
      (a type of only whitespace), which normalises to the default. */
  lemma NormalizeContentTypeIdempotent(contentType: Option<string>)
    ensures var r := NormalizeContentType(contentType);
      r != [] ==> NormalizeContentType(Some(r)) == r
  {
    var r := NormalizeContentType(contentType);
    if !Unset(contentType) && r != [] {
      var t := Trim(contentType.value);
      assert r == Lower(t);
      LowerKeepsTrimmed(t);
      assert Trim(r) == r;
      LowerIdempotent(t);
      assert Lower(Trim(r)) == r;
      assert !Unset(Some(r));
      assert NormalizeContentType(Some(r)) == Lower(Trim(r));
    } else if Unset(contentType) {
      OctetStreamIsNormal();
    }
  }

  lemma OctetStreamIsNormal()
    ensures NormalizeContentType(Some(OctetStream)) == OctetStream
  {
    assert forall i :: 0 <= i < |OctetStream| ==> !('A' <= OctetStream[i] <= 'Z');
    assert Lower(OctetStream) == OctetStream;
    LowerKeepsTrimmed(OctetStream);
  }

  /** `ensureImageContentType(contentType)`. */
  function EnsureImageContentType(contentType: string): (r: Result<()>)
    ensures r.Ok? <==> StartsWith(contentType, "image/")
    ensures r.Err? ==> r == Err(HttpError(400, "Only image uploads are supported."))
  {
    if StartsWith(contentType, "image/") then Ok(()) else Err(HttpError(400, "Only image uploads are supported."))
  }

  /** A file without a type is never accepted as an image. */
  lemma MissingTypeIsRejected(contentType: Option<string>)
    requires Unset(contentType)
    ensures EnsureImageContentType(NormalizeContentType(contentType)).Err?
  {
    assert NormalizeContentType(contentType)[0] != "image/"[0];
  }

  /** The extension `buildObjectKey` gives a content type. */
  function ExtensionFor(contentType: string): (ext: string)
    ensures ext in ["png", "gif", "webp", "heic", "jpg"]
    ensures ext == "png" <==> contentType == "image/png"
    ensures ext == "gif" <==> contentType == "image/gif"
    ensures ext == "webp" <==> contentType == "image/webp"
    ensures ext == "heic" <==> contentType == "image/heic"
  {
    if contentType == "image/png" then "png"
    else if contentType == "image/gif" then "gif"
    else if contentType == "image/webp" then "webp"
    else if contentType == "image/heic" then "heic"
    else "jpg"
  }

  /** `buildObjectKey(userId, contentType)`, with `Date.now()` as `time` and `randomUUID()`
      as `uuid`. */
  function BuildObjectKey(userId: string, contentType: string, time: nat, uuid: string): (key: string)
    ensures StartsWith(key, "reports/" + userId + "/")
    ensures |key| > |ExtensionFor(contentType)| && key[|key| - |ExtensionFor(contentType)| - 1..] == "." + ExtensionFor(contentType)
  {
    "reports/" + userId + "/" + NatToString(time) + "-" + uuid + "." + ExtensionFor(contentType)
  }

  /** A key starts with the user's folder, continues with the decimal time and a dash, and
      ends with the dot and extension after the uuid: the time reads back from the key. */
  lemma ObjectKeyParts(userId: string, contentType: string, time: nat, uuid: string)
    ensures var key := BuildObjectKey(userId, contentType, time, uuid);
      var folder := "reports/" + userId + "/";
      var digits := NatToString(time);
      var ext := ExtensionFor(contentType);
      && StartsWith(key, folder)
      && key[|folder|..|folder| + |digits|] == digits
      && DigitsValue(key[|folder|..|folder| + |digits|]) == time
      && key[|folder| + |digits|] == '-'
      && key[|folder| + |digits| + 1..|folder| + |digits| + 1 + |uuid|] == uuid
      && key[|key| - |ext| - 1..] == "." + ext
  {
    var key := BuildObjectKey(userId, contentType, time, uuid);
    var folder := "reports/" + userId + "/";
    var digits := NatToString(time);
    var ext := ExtensionFor(contentType);
    assert key == folder + digits + "-" + uuid + "." + ext;
    NatToStringRoundTrip(time);
  }

  /** `buildPublicUrl(objectKey)`: the public base without trailing slashes, or else the
      endpoint without trailing slashes and the bucket. */
  function BuildPublicUrl(env: StorageEnv, objectKey: string): (r: Result<string>)
    ensures !Unset(env.publicBaseUrl) ==> r == Ok(StripTrailingSlashes(env.publicBaseUrl.value) + "/" + objectKey)
    ensures Unset(env.publicBaseUrl) && Unset(env.endpoint) ==> r == Err(NotSet("S3_ENDPOINT"))
    ensures Unset(env.publicBaseUrl) && !Unset(env.endpoint) && Unset(env.bucket) ==> r == Err(NotSet("S3_BUCKET"))
    ensures Unset(env.publicBaseUrl) && !Unset(env.endpoint) && !Unset(env.bucket) ==>
      r == Ok(StripTrailingSlashes(env.endpoint.value) + "/" + env.bucket.value + "/" + objectKey)
  {
    if !Unset(env.publicBaseUrl) then
      Ok(StripTrailingSlashes(env.publicBaseUrl.value) + "/" + objectKey)
    else
      var endpoint :- ReadRequired(env.endpoint, "S3_ENDPOINT");
      var bucket :- ReadRequired(env.bucket, "S3_BUCKET");
      Ok(StripTrailingSlashes(endpoint) + "/" + bucket + "/" + objectKey)
  }

  /** Extra trailing slashes on the base do not change the URL: there is exactly one `/`
      between the base and the key. */
  lemma {:induction false} StripTrailingSlashesAbsorbs(s: string)
    ensures StripTrailingSlashes(s + "/") == StripTrailingSlashes(s)
  {
    assert (s + "/")[..|s|] == s;
  }

  lemma PublicUrlIgnoresTrailingSlash(base: string, env: StorageEnv, objectKey: string)
    requires env.publicBaseUrl == Some(base) && base != ""
    ensures BuildPublicUrl(env.(publicBaseUrl := Some(base + "/")), objectKey) == BuildPublicUrl(env, objectKey)
  {
    StripTrailingSlashesAbsorbs(base);
  }

  /** The size checks of `uploadReportPhoto`. */
  function CheckPhotoSize(size: int): (r: Result<()>)
    ensures r.Ok? <==> 0 < size <= MaxReportPhotoSize
    ensures size <= 0 ==> r == Err(HttpError(400, "A photo is required."))
    ensures size > MaxReportPhotoSize ==> r == Err(HttpError(400, "Photo exceeds 10MB limit."))
  {
    if size <= 0 then Err(HttpError(400, "A photo is required."))
    else if size > MaxReportPhotoSize then Err(HttpError(400, "Photo exceeds 10MB limit."))
    else Ok(())
  }

  /** Exactly 10 MiB is accepted and one byte more is not. */
  lemma PhotoSizeBoundary()
    ensures CheckPhotoSize(10485760).Ok?
    ensures CheckPhotoSize(10485761) == Err(HttpError(400, "Photo exceeds 10MB limit."))
    ensures CheckPhotoSize(0) == Err(HttpError(400, "A photo is required."))
  {
  }

  /** An uploaded file: its size in bytes and its declared type. */
  datatype PhotoFile = PhotoFile(size: int, contentType: Option<string>)

  /** Where a stored photo lives. */
  datatype StoredPhoto = StoredPhoto(objectKey: string, publicUrl: string)

  /** `uploadReportPhoto(file, userId)`. `time` and `uuid` are what `Date.now()` and
      `randomUUID()` give, and `putResult` is the object store's answer to the PUT. The client
      reads the endpoint and the two credentials before the command reads the bucket. */
  function UploadReportPhoto(env: StorageEnv, file: PhotoFile, userId: string, time: nat, uuid: string,
                             putResult: Result<()>): (r: Result<StoredPhoto>)
    ensures CheckPhotoSize(file.size).Err? ==> r == Err(CheckPhotoSize(file.size).failure)
    ensures CheckPhotoSize(file.size).Ok? && EnsureImageContentType(NormalizeContentType(file.contentType)).Err? ==>
      r == Err(HttpError(400, "Only image uploads are supported."))
    ensures r.Ok? ==>
      && 0 < file.size <= MaxReportPhotoSize
      && StartsWith(NormalizeContentType(file.contentType), "image/")
      && r.value.objectKey == BuildObjectKey(userId, NormalizeContentType(file.contentType), time, uuid)
      && BuildPublicUrl(env, r.value.objectKey) == Ok(r.value.publicUrl)
      && putResult.Ok?
  {
    var _ :- CheckPhotoSize(file.size);
    var contentType := NormalizeContentType(file.contentType);
    var _ :- EnsureImageContentType(contentType);
    var objectKey := BuildObjectKey(userId, contentType, time, uuid);
    var _ :- ReadRequired(env.endpoint, "S3_ENDPOINT");
    var _ :- ReadRequired(env.accessKeyId, "S3_ACCESS_KEY_ID");
    var _ :- ReadRequired(env.secretAccessKey, "S3_SECRET_ACCESS_KEY");
    var _ :- ReadRequired(env.bucket, "S3_BUCKET");
    var _ :- putResult;
    var publicUrl :- BuildPublicUrl(env, objectKey);
    Ok(StoredPhoto(objectKey, publicUrl))
  }

  /** With a complete configuration and a successful PUT, an upload fails only on the size
      and type checks, and then it stores the photo under the key built from its type. */
  lemma UploadSucceedsWhenValid(env: StorageEnv, file: PhotoFile, userId: string, time: nat, uuid: string)
    requires !Unset(env.endpoint) && !Unset(env.accessKeyId) && !Unset(env.secretAccessKey) && !Unset(env.bucket)
    requires 0 < file.size <= MaxReportPhotoSize && StartsWith(NormalizeContentType(file.contentType), "image/")
    ensures var r := UploadReportPhoto(env, file, userId, time, uuid, Ok(()));
      && r.Ok?
      && r.value.objectKey == BuildObjectKey(userId, NormalizeContentType(file.contentType), time, uuid)
  {
  }
}
