/**
 * The upload credential: the object path `{user}/{postId}/{uuid}{suffix}`
 * and a presigned `put_object` URL bound to that path.
 */
module SignedUrl {
  import opened Wrappers
  import opened Text
  import opened PathNames

  /** What is handed to `generate_presigned_url`. */
  datatype PresignRequest = PresignRequest(
    clientMethod: string, bucket: Option<string>, key: string, contentType: string, expiresIn: nat)

  datatype PresignError = PresignClientError | PresignOtherError

  /** The storage backend's signer, an oracle. */
  type Presigner = PresignRequest -> Result<string, PresignError>

  datatype SignedUpload = SignedUpload(uploadURL: string, objectName: string)

  datatype SignError =
    | UrlUnbound              // the ClientError was logged and `url` was then read unbound
    | PresignRaised           // any other exception escapes unhandled
    | MissingBucketArgument   // TypeError: the call left out the fifth parameter

  /** Upload credentials are valid for one hour. */
  const UploadExpiry: nat := 3600

  /** f-string formatting of a `str | None`. */
  function Formatted(v: Option<string>): string
  {
    match v
    case None => "None"
    case Some(s) => s
  }

  predicate IsLowerHexDigit(c: char)
  {
    '0' <= c <= '9' || 'a' <= c <= 'f'
  }

  /** The text of `uuid.uuid4()`: 8-4-4-4-12 lower-case hexadecimal digits. */
  predicate CanonicalUuid(u: string)
  {
    && |u| == 36
    && forall i :: 0 <= i < 36 ==>
         if i == 8 || i == 13 || i == 18 || i == 23 then u[i] == '-' else IsLowerHexDigit(u[i])
  }

  lemma UuidHasNoSlash(u: string)
    requires CanonicalUuid(u)
    ensures '/' !in u
  {
    forall i | 0 <= i < |u| ensures u[i] != '/' {
      assert i == 8 || i == 13 || i == 18 || i == 23 || IsLowerHexDigit(u[i]);
    }
  }

  /** `f"{user}/{postId}/{uuid}{Path(filename).suffix}"`. */
  function ObjectName(user: string, postId: string, uuid: string, filename: string): (n: string)
    ensures |n| == |user| + |postId| + |uuid| + |Suffix(filename)| + 2
    ensures StartsWith(n, user + "/")
    ensures EndsWith(n, Suffix(filename))
  {
    user + "/" + postId + "/" + uuid + Suffix(filename)
  }

  /** The object path has exactly three segments: user, post id and the generated file name. */
  lemma ObjectNameSegments(user: string, postId: string, uuid: string, filename: string)
    requires '/' !in user && '/' !in postId && '/' !in uuid
    ensures Split(ObjectName(user, postId, uuid, filename), '/') == [user, postId, uuid + Suffix(filename)]
  {
    var ext := Suffix(filename);
    var file := uuid + ext;
    assert '/' !in ext;
    assert ObjectName(user, postId, uuid, filename) == user + "/" + postId + "/" + uuid + ext;
    assert user + "/" + postId + "/" + uuid + ext == user + ['/'] + postId + ['/'] + file;
    SplitThree(user, postId, file, '/');
  }

  /** With a generated UUID, the same three segments come back. */
  lemma GeneratedNameSegments(user: string, postId: string, uuid: string, filename: string)
    ensures '/' !in user && '/' !in postId && CanonicalUuid(uuid) ==>
            Split(ObjectName(user, postId, uuid, filename), '/') == [user, postId, uuid + Suffix(filename)]
  {
    if '/' !in user && '/' !in postId && CanonicalUuid(uuid) {
      UuidHasNoSlash(uuid);
      ObjectNameSegments(user, postId, uuid, filename);
    }
  }

  /** The presign call for an upload: put_object on exactly this key and content type, for one hour. */
  function UploadRequest(bucket: Option<string>, objectName: string, filetype: string): (req: PresignRequest)
    ensures req.clientMethod == "put_object" && req.key == objectName && req.contentType == filetype
    ensures req.bucket == bucket && req.expiresIn == 3600
  {
    PresignRequest("put_object", bucket, objectName, filetype, UploadExpiry)
  }

  /**
   * `getSignedUrl(filename, filetype, postId, user, bucket)`; `uuid` is the
   * text of the freshly generated UUID.
   */
  function GetSignedUrl(filename: string, filetype: string, postId: string, user: Option<string>,
                        bucket: Option<string>, uuid: string, presign: Presigner): (r: Result<SignedUpload, SignError>)
    ensures var name := ObjectName(Formatted(user), postId, uuid, filename);
            var reply := presign(UploadRequest(bucket, name, filetype));
            && (r.Ok? <==> reply.Ok?)
            && (r.Ok? ==> r.value.objectName == name && r.value.uploadURL == reply.value)
            && (reply == Err(PresignClientError) ==> r == Err(UrlUnbound))
            && (reply == Err(PresignOtherError) ==> r == Err(PresignRaised))
    ensures r.Ok? && '/' !in Formatted(user) && '/' !in postId && CanonicalUuid(uuid) ==>
            Split(r.value.objectName, '/') == [Formatted(user), postId, uuid + Suffix(filename)]
  {
    var name := ObjectName(Formatted(user), postId, uuid, filename);
    match presign(UploadRequest(bucket, name, filetype))
    case Ok(url) =>
      GeneratedNameSegments(Formatted(user), postId, uuid, filename);
      Ok(SignedUpload(url, name))
    case Err(PresignClientError) => Err(UrlUnbound)
    case Err(PresignOtherError) => Err(PresignRaised)
  }

  /**
   * The `/signedUrlPut` endpoint as written: it passes four arguments to a
   * five-parameter function, so every request fails before the body runs.
   */
  function SignedUrlPutEndpoint(filename: string, filetype: string, postId: string, authorization: Option<string>): (r: Result<SignedUpload, SignError>)
    ensures r == Err(MissingBucketArgument)
  {
    Err(MissingBucketArgument)
  }

  /** The endpoint with the configured bucket passed on as the fifth argument. */
  function SignedUrlPutEndpointFixed(filename: string, filetype: string, postId: string, authorization: Option<string>,
                                     bucket: Option<string>, uuid: string, presign: Presigner): (r: Result<SignedUpload, SignError>)
    ensures r.Ok? <==> presign(UploadRequest(bucket, ObjectName(Formatted(authorization), postId, uuid, filename), filetype)).Ok?
    ensures r.Ok? && '/' !in Formatted(authorization) && '/' !in postId && CanonicalUuid(uuid) ==>
            Split(r.value.objectName, '/') == [Formatted(authorization), postId, uuid + Suffix(filename)]
  {
    GetSignedUrl(filename, filetype, postId, authorization, bucket, uuid, presign)
  }

  /** Whenever the signer would succeed, the endpoint as written still fails and the fixed one issues the credential. */
  lemma EndpointArityMismatch(filename: string, filetype: string, postId: string, authorization: Option<string>,
                              bucket: Option<string>, uuid: string, presign: Presigner)
    requires presign(UploadRequest(bucket, ObjectName(Formatted(authorization), postId, uuid, filename), filetype)).Ok?
    ensures SignedUrlPutEndpoint(filename, filetype, postId, authorization).Err?
    ensures SignedUrlPutEndpointFixed(filename, filetype, postId, authorization, bucket, uuid, presign).Ok?
  {
  }
}
