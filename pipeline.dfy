/**
 * Properties of the system as a whole: the object name from the signed-URL
 * service is the join key the image worker parses; the worker's write does
 * not reach the record the web service created; the web client looks for
 * an attribute nobody writes; and the seed data's object keys follow the
 * same layout. Each discrepancy is stated once for the code as written and
 * once for its corrected form.
 */
module Pipeline {
  import opened Wrappers
  import opened Values
  import opened Text
  import opened UrlCoding
  import opened Store
  import opened SignedUrl
  import opened Worker
  import opened PostService
  import opened PostCard
  import opened SeedImport

  // ---------------------------------------------------------------------
  // Upload object name <-> worker key parsing

  /**
   * The worker recovers exactly `(user, postId)` from the event that an
   * upload to a generated object name raises, whatever the file is called.
   */
  lemma UploadKeyRoundTrip(user: string, postId: string, uuid: string, filename: string)
    requires '/' !in user && '/' !in postId && CanonicalUuid(uuid)
    ensures ParseKey(UnquotePlus(EncodeEventKey(ObjectName(user, postId, uuid, filename)))) == Some((user, postId))
  {
    var name := ObjectName(user, postId, uuid, filename);
    DecodeEventKey(name);
    GeneratedNameSegments(user, postId, uuid, filename);
  }

  /** A credential issued by the (fixed) endpoint names an object the worker attributes to the caller and post. */
  lemma SignedUploadAttributedToCaller(filename: string, filetype: string, postId: string, user: string,
                                       bucket: Option<string>, uuid: string, presign: Presigner)
    requires '/' !in user && '/' !in postId && CanonicalUuid(uuid)
    requires SignedUrlPutEndpointFixed(filename, filetype, postId, Some(user), bucket, uuid, presign).Ok?
    ensures var upload := SignedUrlPutEndpointFixed(filename, filetype, postId, Some(user), bucket, uuid, presign).value;
            ParseKey(UnquotePlus(EncodeEventKey(upload.objectName))) == Some((user, postId))
  {
    UploadKeyRoundTrip(user, postId, uuid, filename);
  }

  /** Post ids are generated UUIDs, which hold no `#`, so the client passes them on unchanged. */
  lemma ClientKeepsGeneratedId(id: string)
    requires CanonicalUuid(id)
    ensures StripId(id) == id
  {
    forall i | 0 <= i < |id| ensures id[i] != '#' {
      assert i == 8 || i == 13 || i == 18 || i == 23 || IsLowerHexDigit(id[i]);
    }
  }

  // ---------------------------------------------------------------------
  // The worker's write and the created record

  /** The key the worker writes to never equals the unprefixed key the web service creates. */
  lemma EnrichmentKeyIsNotCreatedKey(user: string, postId: string)
    ensures EnrichmentKey(user, postId) != StoreKey(user, postId)
  {
    assert |EnrichmentKey(user, postId).user| != |user|;
  }

  /**
   * As written, an enrichment for `(user, postId)` leaves the post created
   * under that key as it was, and, when no prefixed record exists, adds an
   * orphan record holding only the prefixed key, `image` and `labels`.
   */
  lemma EnrichmentMissesCreatedPost(items: map<StoreKey, Item>, user: string, postId: string, image: string, names: seq<string>)
    requires StoreKey(user, postId) in items
    ensures var r := Effect(items, Enriched(EnrichmentKey(user, postId), image, names));
            var orphan := EnrichmentKey(user, postId);
            && StoreKey(user, postId) in r && r[StoreKey(user, postId)] == items[StoreKey(user, postId)]
            && (orphan !in items ==> r.Keys == items.Keys + {orphan}
                                     && r[orphan].Keys == {"user", "id", "image", "labels"})
  {
    EnrichmentKeyIsNotCreatedKey(user, postId);
  }

  /**
   * The whole path as written: a post is created, its image is uploaded
   * under the generated name, and the worker handles the event with working
   * recognition and storage; the created record is still the one written at
   * creation, so the listing shows no image and no labels for it.
   */
  lemma UploadNeverReachesCreatedPost(items: map<StoreKey, Item>, user: string, postId: string, post: PostBody,
                                      bucketName: string, uuid: string, filename: string,
                                      detect: Detector, update: Updater, listBucket: string, presign: ReadPresigner)
    requires '/' !in user && '/' !in postId && CanonicalUuid(uuid)
    requires StoreKey(user, postId) in items && items[StoreKey(user, postId)] == NewItem(user, postId, post)
    ensures var rec := Record(Some(bucketName), Some(EncodeEventKey(ObjectName(user, postId, uuid, filename))));
            var r := Process(items, [rec], detect, update);
            && StoreKey(user, postId) in r
            && r[StoreKey(user, postId)] == NewItem(user, postId, post)
            && NormaliseItem(listBucket, r[StoreKey(user, postId)], presign) == Ok(NewItem(user, postId, post))
  {
    var rec := Record(Some(bucketName), Some(EncodeEventKey(ObjectName(user, postId, uuid, filename))));
    assert [rec][..0] == [];
    var o := RecordOutcome(rec, detect, update);
    if o.Enriched? {
      EnrichedRecord(rec, detect, update);
      UploadKeyRoundTrip(user, postId, uuid, filename);
      assert o.key == EnrichmentKey(user, postId);
      EnrichmentMissesCreatedPost(items, user, postId, o.image, o.labels);
    }
    CreatedPostListedAsWritten(listBucket, user, postId, post, presign);
  }

  /**
   * The update the worker evidently intends: on the key the web service
   * creates, guarded by the record's existence, so nothing is added. A
   * failed guard is a client error, which the worker logs and skips.
   */
  function EffectFixed(items: map<StoreKey, Item>, user: string, postId: string, image: string, names: seq<string>)
    : (r: map<StoreKey, Item>)
    ensures r.Keys == items.Keys
    ensures forall k :: k in items && k != StoreKey(user, postId) ==> r[k] == items[k]
    ensures WellKeyed(items) ==> WellKeyed(r)
  {
    var k := StoreKey(user, postId);
    if k in items then SetImageLabels(items, k, Str(image), List(Strs(names))) else items
  }

  /** With the fixed update the created post gains `image` and `labels` and keeps everything else. */
  lemma FixedEnrichmentUpdatesCreatedPost(items: map<StoreKey, Item>, user: string, postId: string, post: PostBody,
                                          image: string, names: seq<string>)
    requires StoreKey(user, postId) in items && items[StoreKey(user, postId)] == NewItem(user, postId, post)
    ensures var r := EffectFixed(items, user, postId, image, names);
            var item := r[StoreKey(user, postId)];
            && item.Keys == NewItem(user, postId, post).Keys
            && item["image"] == Str(image) && item["labels"] == List(Strs(names))
            && item["user"] == Str(user) && item["id"] == Str(postId)
            && item["title"] == Str(post.title) && item["body"] == Str(post.body)
  {
  }

  /** With the fixed update, an event for a post that does not exist changes nothing. */
  lemma FixedEnrichmentAddsNoOrphan(items: map<StoreKey, Item>, user: string, postId: string, image: string, names: seq<string>)
    requires StoreKey(user, postId) !in items
    ensures EffectFixed(items, user, postId, image, names) == items
  {
  }

  // ---------------------------------------------------------------------
  // The client's image test

  /** No record carries either attribute the card reads for its picture. */
  predicate NoCardImageAttributes(items: map<StoreKey, Item>)
  {
    forall k :: k in items ==> "image_s3_key" !in items[k] && "image_url" !in items[k]
  }

  /** No step of the worker ever writes an `image_s3_key` or an `image_url` attribute. */
  lemma {:induction false} ProcessNeverWritesCardImageAttributes(items: map<StoreKey, Item>, records: seq<Record>,
                                                                 detect: Detector, update: Updater)
    requires NoCardImageAttributes(items)
    ensures NoCardImageAttributes(Process(items, records, detect, update))
    decreases |records|
  {
    if records != [] {
      var prev := Process(items, records[..|records| - 1], detect, update);
      ProcessNeverWritesCardImageAttributes(items, records[..|records| - 1], detect, update);
      EffectNeverWritesCardImageAttributes(prev, RecordOutcome(records[|records| - 1], detect, update));
    }
  }

  lemma EffectNeverWritesCardImageAttributes(items: map<StoreKey, Item>, o: Outcome)
    requires NoCardImageAttributes(items)
    ensures NoCardImageAttributes(Effect(items, o))
  {
    if o.Enriched? {
      var r := SetImageLabels(items, o.key, Str(o.image), List(Strs(o.labels)));
      assert "image_s3_key" !in r[o.key] && "image_url" !in r[o.key];
    }
  }

  /**
   * A listing of a record without `image_s3_key` is shown with the upload
   * form, never with labels; without `image_url` it shows no picture.
   */
  lemma ListedPostOffersUploadForm(bucket: string, item: Item, presign: ReadPresigner)
    requires "image_s3_key" !in item && "image_url" !in item
    requires NormaliseItem(bucket, item, presign).Ok?
    ensures var out := NormaliseItem(bucket, item, presign).value;
            ShowUploadForm(out) && !ShowLabels(out) && !ShowDetecting(out) && !ShowImage(out)
  {
    var out := NormaliseItem(bucket, item, presign).value;
    assert "image_s3_key" !in out && "image_url" !in out;
    ImageAttributeIgnored(out);
  }

  /**
   * As written, however many events the worker handles, every post the
   * client lists afterwards still offers the upload form, shows no labels
   * and shows no picture.
   */
  lemma CardAlwaysOffersUpload(items: map<StoreKey, Item>, records: seq<Record>, detect: Detector, update: Updater,
                               k: StoreKey, bucket: string, presign: ReadPresigner)
    requires NoCardImageAttributes(items)
    requires k in Process(items, records, detect, update)
    requires NormaliseItem(bucket, Process(items, records, detect, update)[k], presign).Ok?
    ensures var out := NormaliseItem(bucket, Process(items, records, detect, update)[k], presign).value;
            ShowUploadForm(out) && !ShowLabels(out) && !ShowImage(out)
  {
    ProcessNeverWritesCardImageAttributes(items, records, detect, update);
    ListedPostOffersUploadForm(bucket, Process(items, records, detect, update)[k], presign);
  }

  /**
   * With the fixed update, the fixed listing and the fixed image test, a
   * created post whose upload was recognised shows the label names.
   */
  lemma FixedPipelineShowsLabels(items: map<StoreKey, Item>, user: string, postId: string, post: PostBody,
                                 image: string, names: seq<string>, bucket: string, url: string, presign: ReadPresigner)
    requires StoreKey(user, postId) in items && items[StoreKey(user, postId)] == NewItem(user, postId, post)
    requires image != "" && |names| > 0
    requires presign(bucket, image) == Ok(url) && url != ""
    ensures var stored := EffectFixed(items, user, postId, image, names)[StoreKey(user, postId)];
            var listed := NormaliseItemFixed(bucket, stored, presign);
            && listed["image"] == Str(url)
            && listed["labels"] == List(Strs(names))
            && ShowLabelsFixed(listed)
  {
    FixedEnrichmentUpdatesCreatedPost(items, user, postId, post, image, names);
    var stored := EffectFixed(items, user, postId, image, names)[StoreKey(user, postId)];
    assert Get(stored, "image", Null) == Str(image);
    assert Get(stored, "labels", List([])) == List(Strs(names));
    PlainStringLabelsKept(names);
    var listed := NormaliseItemFixed(bucket, stored, presign);
    LabelsShownWhenImageSet(listed, url, names);
  }

  // ---------------------------------------------------------------------
  // Seed data

  /**
   * A seed file under `s3/<user>/<id>/` is uploaded under `<user>/<id>/<file>`,
   * the layout the worker parses back into `(user, id)`.
   */
  lemma SeedObjectKeyParsed(user: string, id: string, f: string)
    requires '/' !in user && '/' !in id && '/' !in f && user != ""
    ensures S3Key("s3/" + user + "/" + id, f) == user + "/" + id + "/" + f
    ensures !StartsWith(S3Key("s3/" + user + "/" + id, f), "/")
    ensures ParseKey(user + "/" + id + "/" + f) == Some((user, id))
  {
    assert "s3/" + user + "/" + id == "s3" + "/" + (user + "/" + id);
    SubdirectoryKey("s3", user + "/" + id, f);
    SubdirectoryKeyKept("s3", user + "/" + id, f);
    assert user + "/" + id + "/" + f == user + "/" + (id + "/" + f);
    SplitThree(user, id, f, '/');
  }
}
