/**
 * The decision logic of the web client's post card: stripping the key
 * prefix from a post id, the upload and delete handlers with their
 * `uploading` / `labeling` / `showCard` flags, which card section is
 * shown, when the upload button is enabled, and the labeling progress bar.
 * Rendering and transport are not modelled; HTTP replies are parameters.
 */
module PostCard {
  import opened Wrappers
  import opened Values
  import opened Text

  // ---------------------------------------------------------------------
  // JavaScript values as the card reads them

  /** JavaScript truthiness of a JSON value; a missing property is `undefined`, i.e. `Null`. */
  predicate JsTruthy(v: Value)
  {
    match v
    case Null => false
    case Bool(b) => b
    case Num(n) => n != 0
    case Str(s) => s != ""
    case List(_) => true
    case Dict(_) => true
  }

  /** `v.length`: defined on strings and arrays only, `undefined` (None) otherwise. */
  function LengthOf(v: Value): (r: Option<nat>)
    ensures r.Some? <==> v.Str? || v.List?
  {
    match v
    case Str(s) => Some(|s|)
    case List(es) => Some(|es|)
    case _ => None
  }

  // ---------------------------------------------------------------------
  // Post ids

  /** `id.includes("#") ? id.split("#")[1] : id`. */
  function StripId(id: string): (r: string)
    ensures '#' !in r
    ensures '#' !in id ==> r == id
  {
    if '#' in id then Split(id, '#')[1] else id
  }

  /**
   * A key-prefixed id gives back the text between its first and its second
   * `#`: `"POST#x"` and `"POST#x#y"` both strip to `"x"`.
   */
  lemma StripPrefixedId(prefix: string, x: string, rest: string)
    requires '#' !in prefix && '#' !in x
    requires rest == "" || rest[0] == '#'
    ensures StripId(prefix + "#" + x + rest) == x
  {
    var id := prefix + "#" + x + rest;
    assert id == prefix + ['#'] + (x + rest);
    SplitAfterPiece(prefix, '#', x + rest);
    if rest == "" {
      assert x + rest == x;
      SplitWithoutSeparator(x, '#');
    } else {
      assert x + rest == x + ['#'] + rest[1..];
      SplitAfterPiece(x, '#', rest[1..]);
    }
    assert Split(id, '#')[1] == Split(x + rest, '#')[0] == x;
  }

  /** An id that is nothing but a prefix and `#` strips to the empty id. */
  lemma BarePrefixStripsToEmpty(prefix: string)
    requires '#' !in prefix
    ensures StripId(prefix + "#") == ""
  {
    StripPrefixedId(prefix, "", "");
    assert prefix + "#" + "" + "" == prefix + "#";
  }

  // ---------------------------------------------------------------------
  // Card sections

  /** `imageExists`: the card looks for the attribute `image_s3_key`. */
  predicate ImageExists(post: Item): (b: bool)
    ensures b ==> "image_s3_key" in post
  {
    JsTruthy(Get(post, "image_s3_key", Null))
  }

  /** The picture is shown when the post carries an `image_url`. */
  predicate ShowImage(post: Item): (b: bool)
    ensures b ==> "image_url" in post
  {
    JsTruthy(Get(post, "image_url", Null))
  }

  predicate LabelsNonEmpty(labels: Value)
  {
    JsTruthy(labels) && LengthOf(labels).Some? && LengthOf(labels).value > 0
  }

  predicate LabelsMissing(labels: Value)
  {
    !JsTruthy(labels) || LengthOf(labels) == Some(0)
  }

  /** The label badges: an image exists and `labels.length > 0`. */
  predicate ShowLabels(post: Item): (b: bool)
    ensures b ==> "image_s3_key" in post && "labels" in post
  {
    ImageExists(post) && LabelsNonEmpty(Get(post, "labels", Null))
  }

  /** The upload form: no image yet. */
  predicate ShowUploadForm(post: Item): (b: bool)
    ensures "image_s3_key" !in post ==> b
    ensures b ==> !ShowLabels(post) && !ShowDetecting(post)
  {
    !ImageExists(post)
  }

  /** "Detecting labels...": an image exists but `labels` is missing or has length 0. */
  predicate ShowDetecting(post: Item): (b: bool)
    ensures b ==> "image_s3_key" in post && !ShowLabels(post)
  {
    ImageExists(post) && LabelsMissing(Get(post, "labels", Null))
  }

  /** How many of the three sections a card shows. */
  function SectionCount(post: Item): (n: nat)
    ensures n <= 3
  {
    (if ShowLabels(post) then 1 else 0)
    + (if ShowUploadForm(post) then 1 else 0)
    + (if ShowDetecting(post) then 1 else 0)
  }

  /** Labels the section conditions can decide on: falsy, or a string or an array. */
  predicate LabelsOfKnownShape(labels: Value)
  {
    !JsTruthy(labels) || labels.Str? || labels.List?
  }

  /**
   * Exactly one section is shown precisely when there is no image or the
   * labels have a known shape; otherwise (a truthy number, boolean or
   * object under `labels`) the conditions skip every section.
   */
  lemma ExactlyOneSection(post: Item)
    ensures SectionCount(post) <= 1
    ensures SectionCount(post) == 1 <==>
              !ImageExists(post) || LabelsOfKnownShape(Get(post, "labels", Null))
  {
  }

  /**
   * A post with an image whose labels come back as an object shows no section
   * at all: the object is truthy, so the card does not wait for labels, but it
   * has no length, so no badge is drawn either.
   */
  lemma ObjectLabelsShowNothing(post: Item)
    requires ImageExists(post) && Get(post, "labels", Null).Dict?
    ensures !ShowLabels(post) && !ShowUploadForm(post) && !ShowDetecting(post)
    ensures SectionCount(post) == 0
  {
  }

  /** The section test the client evidently means: the API stores the picture under `image`. */
  predicate ImageExistsFixed(post: Item)
  {
    JsTruthy(Get(post, "image", Null))
  }

  predicate ShowLabelsFixed(post: Item)
  {
    ImageExistsFixed(post) && LabelsNonEmpty(Get(post, "labels", Null))
  }

  /** A post that carries only `image` is still offered the upload form by the as-written test. */
  lemma ImageAttributeIgnored(post: Item)
    requires "image_s3_key" !in post
    ensures ShowUploadForm(post) && !ShowLabels(post) && !ShowDetecting(post)
  {
  }

  /** With the corrected test, a post whose `image` is set and whose labels are non-empty shows its labels. */
  lemma LabelsShownWhenImageSet(post: Item, url: string, names: seq<string>)
    requires "image" in post && post["image"] == Str(url) && url != ""
    requires "labels" in post && post["labels"] == List(Strs(names)) && |names| > 0
    ensures ShowLabelsFixed(post)
  {
    assert Get(post, "labels", Null) == List(Strs(names));
  }

  // ---------------------------------------------------------------------
  // Upload button

  /** `disabled={!attachment || uploading || labeling}`, negated. */
  predicate UploadEnabled(attachment: bool, uploading: bool, labeling: bool): (b: bool)
    ensures b ==> attachment
    ensures uploading || labeling ==> !b
    ensures attachment && !uploading && !labeling ==> b
  {
    attachment && !uploading && !labeling
  }

  // ---------------------------------------------------------------------
  // HTTP replies and the requests the card sends

  /** What a call returned: a status and a JSON body, or no response at all. */
  datatype HttpReply = Reply(status: int, data: Value) | NoResponse

  /** The file chosen in the file input. */
  datatype FileInfo = FileInfo(name: string, fileType: string)

  datatype Request =
    | SignedUrlGet(filename: string, filetype: string, postId: string)
    | ObjectPut(url: Value, contentType: string)
    | PostDelete(path: string)

  /** axios resolves on a 2xx status and rejects on anything else. */
  predicate Resolves(reply: HttpReply)
  {
    reply.Reply? && 200 <= reply.status < 300
  }

  /** `getSignedUrlPut`'s answer: the `uploadURL` of a resolved reply whose body carries a truthy one. */
  function SignedUrlOf(reply: HttpReply): (url: Option<Value>)
    ensures url.Some? ==> Resolves(reply) && JsTruthy(url.value)
    ensures url.Some? ==> reply.data.Dict? && "uploadURL" in reply.data.entries
                          && url.value == reply.data.entries["uploadURL"]
  {
    if !Resolves(reply) then None
    else match reply.data
      case Dict(m) =>
        if "uploadURL" in m && JsTruthy(m["uploadURL"]) then Some(m["uploadURL"]) else None
      case _ => None
  }

  /** A signed URL comes back only from a resolved reply with a body object naming it. */
  lemma SignedUrlNeedsResolvedReply(reply: HttpReply)
    ensures SignedUrlOf(reply).Some? <==>
              Resolves(reply) && reply.data.Dict? && "uploadURL" in reply.data.entries
              && JsTruthy(reply.data.entries["uploadURL"])
  {
  }

  /** The PUT counts as an upload only with status exactly 200. */
  predicate UploadAccepted(reply: HttpReply)
  {
    reply.Reply? && reply.status == 200
  }

  /** The flag `labeling` after `submitFile` ran to completion. */
  function LabelingAfterSubmit(labeling: bool, signed: HttpReply, put: HttpReply): (r: bool)
    ensures r ==> labeling || UploadAccepted(put)
    ensures r && !labeling ==> SignedUrlOf(signed).Some?
  {
    if SignedUrlOf(signed).None? then labeling else UploadAccepted(put)
  }

  /** Requests sent by `submitFile` once the id check passed. */
  function SubmitRequests(file: FileInfo, postId: string, signed: HttpReply): seq<Request>
  {
    [SignedUrlGet(file.name, file.fileType, postId)]
    + (match SignedUrlOf(signed) case Some(url) => [ObjectPut(url, file.fileType)] case None => [])
  }

  /**
   * `labeling` is switched on only by an accepted upload: when it ends up
   * true and was false before, a signed URL came back and the PUT returned 200;
   * a PUT with any other status, or none at all, leaves it false.
   */
  lemma LabelingOnlyAfterAcceptedUpload(labeling: bool, signed: HttpReply, put: HttpReply)
    ensures LabelingAfterSubmit(labeling, signed, put) && !labeling ==>
              SignedUrlOf(signed).Some? && put.Reply? && put.status == 200
    ensures SignedUrlOf(signed).Some? && !UploadAccepted(put) ==> !LabelingAfterSubmit(labeling, signed, put)
  {
  }

  /** After an accepted upload the button stays disabled until the refresh timer clears `labeling`. */
  lemma NoSecondUploadWhileLabeling(attachment: bool, labeling: bool, signed: HttpReply, put: HttpReply)
    requires SignedUrlOf(signed).Some? && UploadAccepted(put)
    ensures !UploadEnabled(attachment, false, LabelingAfterSubmit(labeling, signed, put))
  {
  }

  // ---------------------------------------------------------------------
  // The card's state

  class Card {
    var postId: string
    var attachment: Option<FileInfo>
    var uploading: bool
    var labeling: bool
    var showCard: bool
    /** Every request the card has sent, oldest first. */
    var requests: seq<Request>

    /** The initial `useState` values. */
    constructor (id: string)
      ensures postId == id && attachment == None
      ensures !uploading && !labeling && showCard && requests == []
    {
      postId := id;
      attachment := None;
      uploading := false;
      labeling := false;
      showCard := true;
      requests := [];
    }

    /** `fileChanged`: the first selected file becomes the attachment; no file changes nothing. */
    method FileChanged(files: seq<FileInfo>)
      modifies this
      ensures attachment == if |files| == 0 then old(attachment) else Some(files[0])
      ensures postId == old(postId) && uploading == old(uploading) && labeling == old(labeling)
      ensures showCard == old(showCard) && requests == old(requests)
    {
      if |files| == 0 {
        return;
      }
      attachment := Some(files[0]);
    }

    /**
     * `submitFile`, run to completion with the replies of its two calls.
     * Without an attachment, or with an id that strips to "", nothing is sent
     * and no flag moves. Otherwise `uploading` is raised for the duration and
     * lowered on every way out, and `labeling` follows the PUT's status.
     */
    method SubmitFile(signed: HttpReply, put: HttpReply)
      modifies this
      ensures postId == old(postId) && attachment == old(attachment) && showCard == old(showCard)
      ensures old(attachment).None? || StripId(old(postId)) == "" ==>
                uploading == old(uploading) && labeling == old(labeling) && requests == old(requests)
      ensures old(attachment).Some? && StripId(old(postId)) != "" ==>
                !uploading
                && labeling == LabelingAfterSubmit(old(labeling), signed, put)
                && requests == old(requests) + SubmitRequests(old(attachment).value, StripId(old(postId)), signed)
    {
      if attachment.None? {
        return;
      }
      var id := StripId(postId);
      if id == "" {
        return;
      }
      var file := attachment.value;
      uploading := true;
      requests := requests + [SignedUrlGet(file.name, file.fileType, id)];
      var url := SignedUrlOf(signed);
      if url.None? {
        uploading := false;
        return;
      }
      requests := requests + [ObjectPut(url.value, file.fileType)];
      if Resolves(put) {
        if put.status == 200 {
          labeling := true;
        } else {
          labeling := false;
        }
      } else {
        labeling := false;
      }
      uploading := false;
    }

    /** `deletePost`: sends the delete for the stripped id and hides the card if it resolves. */
    method DeletePost(reply: HttpReply)
      modifies this
      ensures postId == old(postId) && attachment == old(attachment)
      ensures uploading == old(uploading) && labeling == old(labeling)
      ensures StripId(old(postId)) == "" ==> requests == old(requests) && showCard == old(showCard)
      ensures StripId(old(postId)) != "" ==>
                requests == old(requests) + [PostDelete("/posts/" + StripId(old(postId)))]
                && showCard == (old(showCard) && !Resolves(reply))
    {
      var id := StripId(postId);
      if id == "" {
        return;
      }
      requests := requests + [PostDelete("/posts/" + id)];
      if Resolves(reply) {
        showCard := false;
      }
    }
  }

  // ---------------------------------------------------------------------
  // The labeling progress bar

  /** One interval tick: `if (progress < 100) setProgress(progress + 1)`. */
  function Tick(p: nat): (q: nat)
    ensures p <= q <= p + 1
    ensures q == p <==> p >= 100
  {
    if p < 100 then p + 1 else p
  }

  /** The progress after `n` ticks from 0. */
  function ProgressAfter(n: nat): nat
  {
    if n == 0 then 0 else Tick(ProgressAfter(n - 1))
  }

  /** The bar climbs by one per tick and stops at 100. */
  lemma {:induction false} ProgressClimbsThenStops(n: nat)
    ensures ProgressAfter(n) == if n < 100 then n else 100
  {
    if n > 0 {
      ProgressClimbsThenStops(n - 1);
    }
  }

  /** The progress never goes down from one tick to the next. */
  lemma {:induction false} ProgressMonotone(m: nat, n: nat)
    requires m <= n
    ensures ProgressAfter(m) <= ProgressAfter(n) <= 100
  {
    ProgressClimbsThenStops(m);
    ProgressClimbsThenStops(n);
  }

  class ProgressBar {
    var progress: nat
    ghost var ticks: nat

    ghost predicate Valid()
      reads this
    {
      progress == ProgressAfter(ticks)
    }

    constructor ()
      ensures Valid() && progress == 0 && ticks == 0
    {
      progress := 0;
      ticks := 0;
    }

    /** The interval callback. */
    method Step()
      requires Valid()
      modifies this
      ensures Valid() && ticks == old(ticks) + 1
      ensures progress == Tick(old(progress)) && progress <= 100
    {
      ProgressClimbsThenStops(ticks);
      if progress < 100 {
        progress := progress + 1;
      }
      ticks := ticks + 1;
      ProgressClimbsThenStops(ticks);
    }
  }
}
