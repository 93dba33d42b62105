/**
 * The post store facade of the web service: creating a post, listing posts
 * (an owner-scoped query or a paginated full scan, then per-item
 * normalisation) and deleting a post together with its image object.
 */
module PostService {
  import opened Wrappers
  import opened Values
  import opened Store

  /** Module-level state: whether the table resource exists, and the `BUCKET` environment value. */
  datatype Config = Config(tableReady: bool, bucketName: Option<string>)

  /** The request body of `POST /posts`. */
  datatype PostBody = PostBody(title: string, body: string)

  datatype ServiceError =
    | TableNotInitialised   // a method called on `table = None`
    | KeyRejected           // DynamoDB refuses a key part that is not a non-empty string
    | ClientErrorUndefined  // `except ClientError` is evaluated, but ClientError was never imported: NameError
    | BlobParamInvalid      // delete_object with a bucket or key that is not a non-empty string
    | BlobDeleteFailed      // delete_object raised
    | StoreCallFailed       // get_item, put_item or delete_item raised

  datatype PresignFault = PresignFault

  /** How one call to the table or the bucket ended: it answered, or it raised. */
  datatype CallReply = Answered | Raised

  /** `generate_presigned_url('get_object', Params={'Bucket': b, 'Key': k})`; an oracle. */
  type ReadPresigner = (string, string) -> Result<string, PresignFault>

  // ----- create_presigned_url -----

  /**
   * `create_presigned_url(bucket, object_name)` as written: no key means no
   * URL and no request; any failure of the signer (and a key that is not a
   * string, which the SDK's parameter check rejects) reaches `except
   * ClientError`, whose name is undefined, so the call raises NameError.
   */
  function CreatePresignedUrl(bucket: string, objectName: Value, presign: ReadPresigner): (r: Result<Option<string>, ServiceError>)
    ensures !Truthy(objectName) ==> r == Ok(None)
    ensures Truthy(objectName) && objectName.Str? ==>
              (r.Ok? <==> presign(bucket, objectName.s).Ok?) &&
              (r.Ok? ==> r.value == Some(presign(bucket, objectName.s).value))
    ensures Truthy(objectName) && !objectName.Str? ==> r.Err?
    ensures r.Err? ==> r.error == ClientErrorUndefined
  {
    if !Truthy(objectName) then Ok(None)
    else if !objectName.Str? then Err(ClientErrorUndefined)
    else
      match presign(bucket, objectName.s)
      case Ok(url) => Ok(Some(url))
      case Err(_) => Err(ClientErrorUndefined)
  }

  /** With ClientError imported, every failure is logged and the result is `None`, as the docstring says. */
  function CreatePresignedUrlFixed(bucket: string, objectName: Value, presign: ReadPresigner): (r: Option<string>)
    ensures !Truthy(objectName) ==> r == None
    ensures r.Some? ==> objectName.Str? && presign(bucket, objectName.s) == Ok(r.value)
    ensures Truthy(objectName) && objectName.Str? && presign(bucket, objectName.s).Ok? ==> r.Some?
  {
    if !Truthy(objectName) || !objectName.Str? then None
    else
      match presign(bucket, objectName.s)
      case Ok(url) => Some(url)
      case Err(_) => None
  }

  /** Asking twice without a key gives the same answer whatever the signer does: the signer is never consulted. */
  lemma NoKeyNoRequest(bucket: string, objectName: Value, p1: ReadPresigner, p2: ReadPresigner)
    requires !Truthy(objectName)
    ensures CreatePresignedUrl(bucket, objectName, p1) == CreatePresignedUrl(bucket, objectName, p2) == Ok(None)
  {
  }

  /** A failing signer makes the function as written raise, where the fixed one answers `None`. */
  lemma PresignFailureRaises(bucket: string, key: string, presign: ReadPresigner)
    requires key != "" && presign(bucket, key).Err?
    ensures CreatePresignedUrl(bucket, Str(key), presign) == Err(ClientErrorUndefined)
    ensures CreatePresignedUrlFixed(bucket, Str(key), presign) == None
  {
  }

  // ----- label normalisation -----

  /** A dictionary holding the key `'S'`. */
  predicate HoldsS(m: Value)
  {
    m.Dict? && "S" in m.entries
  }

  /** `[m['S'] for m in raw if isinstance(m, dict) and 'S' in m]`. */
  function KeepStringValues(raw: seq<Value>): (r: seq<Value>)
    ensures |r| <= |raw|
    ensures forall i :: 0 <= i < |raw| && HoldsS(raw[i]) ==> raw[i].entries["S"] in r
    ensures forall v :: v in r ==> exists i :: 0 <= i < |raw| && HoldsS(raw[i]) && raw[i].entries["S"] == v
  {
    if raw == [] then []
    else (if raw[0].Dict? && "S" in raw[0].entries then [raw[0].entries["S"]] else []) + KeepStringValues(raw[1..])
  }

  /** The `labels` of a listed post: a list is filtered as above, anything else becomes `[]`. */
  function NormaliseLabels(raw: Value): (r: seq<Value>)
    ensures !raw.List? ==> r == []
    ensures raw.List? ==> forall i :: 0 <= i < |raw.elems| && HoldsS(raw.elems[i]) ==> raw.elems[i].entries["S"] in r
    ensures raw.List? ==> forall v :: v in r ==> exists i :: 0 <= i < |raw.elems| && HoldsS(raw.elems[i]) && raw.elems[i].entries["S"] == v
  {
    if raw.List? then KeepStringValues(raw.elems) else []
  }

  lemma {:induction false} KeepStringValuesAppend(a: seq<Value>, b: seq<Value>)
    ensures KeepStringValues(a + b) == KeepStringValues(a) + KeepStringValues(b)
    decreases |a|
  {
    if a == [] {
      assert a + b == b;
    } else {
      assert (a + b)[0] == a[0] && (a + b)[1..] == a[1..] + b;
      KeepStringValuesAppend(a[1..], b);
    }
  }

  /**
   * Together with `KeepStringValuesAppend` this determines the filter: an
   * entry contributes its `'S'` value when it is a dictionary holding `'S'`,
   * and nothing otherwise.
   */
  lemma KeepStringValuesSingle(v: Value)
    ensures KeepStringValues([v]) == if v.Dict? && "S" in v.entries then [v.entries["S"]] else []
  {
    assert [v][1..] == [];
  }

  /** Labels stored as plain strings (what the worker writes) are all dropped. */
  lemma {:induction false} PlainStringLabelsDropped(names: seq<string>)
    ensures NormaliseLabels(List(Strs(names))) == []
    decreases |names|
  {
    if names != [] {
      assert Strs(names)[1..] == Strs(names[1..]);
      PlainStringLabelsDropped(names[1..]);
    }
  }

  /** The normalisation the docstring describes: typed `{'S': x}` entries and plain strings both give their string. */
  function KeepLabelStrings(raw: seq<Value>): (r: seq<Value>)
    ensures |r| <= |raw|
  {
    if raw == [] then []
    else
      (if raw[0].Str? then [raw[0]]
       else if raw[0].Dict? && "S" in raw[0].entries then [raw[0].entries["S"]]
       else [])
      + KeepLabelStrings(raw[1..])
  }

  function NormaliseLabelsFixed(raw: Value): seq<Value>
  {
    if raw.List? then KeepLabelStrings(raw.elems) else []
  }

  /** The fixed normalisation returns plain-string labels unchanged. */
  lemma {:induction false} PlainStringLabelsKept(names: seq<string>)
    ensures NormaliseLabelsFixed(List(Strs(names))) == Strs(names)
    decreases |names|
  {
    if names != [] {
      assert Strs(names)[1..] == Strs(names[1..]);
      PlainStringLabelsKept(names[1..]);
      assert Strs(names) == [Str(names[0])] + Strs(names[1..]);
    }
  }

  /** The fixed normalisation agrees with the one as written on typed entries. */
  lemma {:induction false} FixedAgreesOnTypedLabels(raw: seq<Value>)
    requires forall i :: 0 <= i < |raw| ==> !raw[i].Str?
    ensures KeepLabelStrings(raw) == KeepStringValues(raw)
    decreases |raw|
  {
    if raw != [] {
      FixedAgreesOnTypedLabels(raw[1..]);
    }
  }

  // ----- listing -----

  /** The presigned URL, or `None`, as a value. */
  function UrlValue(url: Option<string>): Value
  {
    if url.Some? then Str(url.value) else Null
  }

  /**
   * One listed item: a copy of the stored record whose `image` is replaced by
   * its presigned URL (or None) and whose `labels` are normalised.
   */
  function NormaliseItem(bucket: string, item: Item, presign: ReadPresigner): (r: Result<Item, ServiceError>)
    ensures var url := CreatePresignedUrl(bucket, Get(item, "image", Null), presign);
            && (r.Ok? <==> url.Ok?)
            && (r.Ok? ==> r.value.Keys == item.Keys + {"image", "labels"})
            && (r.Ok? ==> r.value["image"] == UrlValue(url.value))
            && (r.Ok? ==> r.value["labels"] == List(NormaliseLabels(Get(item, "labels", List([])))))
    ensures r.Ok? ==> forall a :: a in item && a != "image" && a != "labels" ==> r.value[a] == item[a]
    ensures r.Err? ==> r.error == ClientErrorUndefined
  {
    match CreatePresignedUrl(bucket, Get(item, "image", Null), presign)
    case Err(e) => Err(e)
    case Ok(url) => Ok(item["image" := UrlValue(url)]["labels" := List(NormaliseLabels(Get(item, "labels", List([]))))])
  }

  /**
   * One listed item with both corrections applied: a signer failure gives a
   * `None` URL instead of raising, and plain-string labels are kept.
   */
  function NormaliseItemFixed(bucket: string, item: Item, presign: ReadPresigner): (r: Item)
    ensures r.Keys == item.Keys + {"image", "labels"}
    ensures r["image"] == UrlValue(CreatePresignedUrlFixed(bucket, Get(item, "image", Null), presign))
    ensures r["labels"] == List(NormaliseLabelsFixed(Get(item, "labels", List([]))))
    ensures forall a :: a in item && a != "image" && a != "labels" ==> r[a] == item[a]
  {
    var url := CreatePresignedUrlFixed(bucket, Get(item, "image", Null), presign);
    item["image" := UrlValue(url)]["labels" := List(NormaliseLabelsFixed(Get(item, "labels", List([]))))]
  }

  /** Where the listing as written succeeds and the labels are typed, the fixed one lists the same item. */
  lemma NormaliseItemFixedAgrees(bucket: string, item: Item, presign: ReadPresigner)
    requires NormaliseItem(bucket, item, presign).Ok?
    requires Get(item, "labels", List([])).List?
    requires forall i :: 0 <= i < |Get(item, "labels", List([])).elems| ==> !Get(item, "labels", List([])).elems[i].Str?
    ensures NormaliseItemFixed(bucket, item, presign) == NormaliseItem(bucket, item, presign).value
  {
    FixedAgreesOnTypedLabels(Get(item, "labels", List([])).elems);
    var a := NormaliseItemFixed(bucket, item, presign);
    var b := NormaliseItem(bucket, item, presign).value;
    assert a.Keys == b.Keys;
    assert forall k :: k in a ==> a[k] == b[k];
  }

  /** Every item normalised, in order; the first failure fails the whole listing. */
  function NormaliseAll(bucket: string, items: seq<Item>, presign: ReadPresigner): (r: Result<seq<Item>, ServiceError>)
    ensures r.Ok? <==> forall i :: 0 <= i < |items| ==> NormaliseItem(bucket, items[i], presign).Ok?
    ensures r.Ok? ==> |r.value| == |items|
    ensures r.Ok? ==> forall i :: 0 <= i < |items| ==> NormaliseItem(bucket, items[i], presign) == Ok(r.value[i])
    ensures r.Err? ==> r.error == ClientErrorUndefined
  {
    if items == [] then Ok([])
    else
      match NormaliseItem(bucket, items[0], presign)
      case Err(e) => Err(e)
      case Ok(first) =>
        match NormaliseAll(bucket, items[1..], presign)
        case Err(e) => Err(e)
        case Ok(rest) =>
          assert forall i :: 1 <= i < |items| ==> items[i] == items[1..][i - 1];
          Ok([first] + rest)
  }

  /** What the owner-scoped `query` can answer: each record of the partition once, in some order. */
  ghost predicate OwnerQueryAnswer(items: map<StoreKey, Item>, user: string, found: seq<Item>)
  {
    exists keys :: Enumerates(keys, OwnerKeys(items, user)) && found == Lookup(items, keys)
  }

  /** The reply to one `scan` call: a page with its continuation key, or a raised exception. */
  datatype ScanReply = ScanPage(items: seq<Item>, lastKey: Option<StoreKey>) | ScanFailed

  /** The backend answers every continuation key: a page with `LastEvaluatedKey` is followed by another reply. */
  predicate ContinuationsAnswered(pages: seq<ScanReply>)
  {
    && |pages| >= 1
    && forall i :: 0 <= i < |pages| && pages[i].ScanPage? && pages[i].lastKey.Some? ==> i + 1 < |pages|
  }

  function Then(prefix: seq<Item>, rest: Option<seq<Item>>): Option<seq<Item>>
  {
    if rest.Some? then Some(prefix + rest.value) else None
  }

  lemma ThenAppend(a: seq<Item>, b: seq<Item>, rest: Option<seq<Item>>)
    ensures Then(a, Then(b, rest)) == Then(a + b, rest)
    ensures Then([], rest) == rest
  {
    if rest.Some? {
      assert a + (b + rest.value) == a + b + rest.value;
      assert [] + rest.value == rest.value;
    }
  }

  /** The paginated scan: pages are read until one has no continuation key; any failure yields `None`. */
  function ScanAll(pages: seq<ScanReply>): (r: Option<seq<Item>>)
    requires ContinuationsAnswered(pages)
    ensures (forall i :: 0 <= i < |pages| ==> pages[i].ScanPage?) ==> r.Some?
    ensures r.Some? ==> pages[0].ScanPage? && |pages[0].items| <= |r.value| && r.value[..|pages[0].items|] == pages[0].items
    decreases |pages|
  {
    match pages[0]
    case ScanFailed => None
    case ScanPage(items, lastKey) =>
      if lastKey.None? then Some(items)
      else
        assert forall i :: 0 <= i < |pages| - 1 ==> pages[1..][i] == pages[i + 1];
        Then(items, ScanAll(pages[1..]))
  }

  /** A scan that reads every reply without failure: only the last page lacks a continuation key. */
  predicate CompleteScan(pages: seq<ScanReply>)
  {
    && |pages| >= 1
    && (forall i :: 0 <= i < |pages| ==> pages[i].ScanPage?)
    && (forall i :: 0 <= i < |pages| ==> (pages[i].lastKey.Some? <==> i < |pages| - 1))
  }

  /** The items of every page, in order. */
  function Concat(pages: seq<ScanReply>): seq<Item>
  {
    if pages == [] then [] else (if pages[0].ScanPage? then pages[0].items else []) + Concat(pages[1..])
  }

  /** A complete scan returns the concatenation, in order, of the items of all its pages. */
  lemma {:induction false} CompleteScanCollectsAllPages(pages: seq<ScanReply>)
    requires CompleteScan(pages)
    ensures ContinuationsAnswered(pages) && ScanAll(pages) == Some(Concat(pages))
    decreases |pages|
  {
    if |pages| > 1 {
      var rest := pages[1..];
      assert forall i :: 0 <= i < |rest| ==> rest[i] == pages[i + 1];
      assert CompleteScan(rest);
      CompleteScanCollectsAllPages(rest);
      assert pages[0].ScanPage? && pages[0].lastKey.Some?;
      assert ScanAll(pages) == Then(pages[0].items, ScanAll(rest));
      assert Concat(pages) == pages[0].items + Concat(rest);
      assert ScanAll(rest) == Some(Concat(rest));
    } else {
      assert pages[1..] == [];
      assert Concat(pages) == pages[0].items + [] == pages[0].items;
      assert pages[0].ScanPage? && pages[0].lastKey.None?;
    }
  }

  /** A scan call that raises, anywhere before the end, empties the whole listing. */
  lemma {:induction false} FailedScanYieldsNothing(pages: seq<ScanReply>, k: nat)
    requires ContinuationsAnswered(pages)
    requires k < |pages| && pages[k].ScanFailed?
    requires forall i :: 0 <= i < k ==> pages[i].ScanPage? && pages[i].lastKey.Some?
    ensures ScanAll(pages) == None
    decreases k
  {
    if k > 0 {
      var rest := pages[1..];
      assert forall i :: 0 <= i < |rest| ==> rest[i] == pages[i + 1];
      FailedScanYieldsNothing(rest, k - 1);
    }
  }

  /**
   * `GET /posts`. A missing table or bucket and any store failure give `[]`;
   * otherwise the fetched items are normalised one by one, and a NameError
   * from the presigned-URL helper fails the request. With a `user` the
   * owner query is answered from the table; without one, `pages` are the
   * replies to the successive scan calls.
   */
  method GetAllPosts(cfg: Config, table: PostTable, user: Option<string>, query: CallReply,
                     pages: seq<ScanReply>, presign: ReadPresigner)
    returns (r: Result<seq<Item>, ServiceError>)
    requires ContinuationsAnswered(pages)
    ensures !cfg.tableReady || !Present(cfg.bucketName) ==> r == Ok([])
    ensures cfg.tableReady && Present(cfg.bucketName) && Present(user) ==>
              if query == Raised then r == Ok([])
              else exists found :: OwnerQueryAnswer(table.items, user.value, found)
                                   && r == NormaliseAll(cfg.bucketName.value, found, presign)
    ensures cfg.tableReady && Present(cfg.bucketName) && !Present(user) ==>
              match ScanAll(pages)
              case None => r == Ok([])
              case Some(items) => r == NormaliseAll(cfg.bucketName.value, items, presign)
  {
    if !cfg.tableReady {
      return Ok([]);
    }
    if !Present(cfg.bucketName) {
      return Ok([]);
    }
    var bucket := cfg.bucketName.value;
    var fetched: seq<Item>;
    if Present(user) {
      if query == Raised {
        return Ok([]);
      }
      ghost var keys;
      fetched, keys := table.Query(user.value);
      assert OwnerQueryAnswer(table.items, user.value, fetched);
    } else {
      var scanned := ScanTable(pages);
      if scanned.None? {
        return Ok([]);
      }
      fetched := scanned.value;
    }
    r := NormaliseEach(bucket, fetched, presign);
  }

  /** The `while 'LastEvaluatedKey' in response` loop: one scan call per reply, items extended in order. */
  method ScanTable(pages: seq<ScanReply>) returns (found: Option<seq<Item>>)
    requires ContinuationsAnswered(pages)
    ensures found == ScanAll(pages)
  {
    if pages[0].ScanFailed? {
      return None;
    }
    var i := 0;
    var raw := pages[0];
    ghost var before: seq<Item> := [];
    var items := raw.items;
    assert pages[0..] == pages;
    ThenAppend([], [], ScanAll(pages));
    while raw.lastKey.Some?
      invariant 0 <= i < |pages| && raw == pages[i] && raw.ScanPage?
      invariant items == before + raw.items
      invariant ContinuationsAnswered(pages[i..])
      invariant ScanAll(pages) == Then(before, ScanAll(pages[i..]))
      decreases |pages| - i
    {
      assert pages[i..][1..] == pages[i + 1..];
      assert ScanAll(pages[i..]) == Then(raw.items, ScanAll(pages[i + 1..]));
      ThenAppend(before, raw.items, ScanAll(pages[i + 1..]));
      before := items;
      i := i + 1;
      raw := pages[i];
      if raw.ScanFailed? {
        return None;
      }
      items := items + raw.items;
    }
    assert ScanAll(pages[i..]) == Some(raw.items);
    found := Some(items);
  }

  /** The loop that appends each normalised item to `processed_items`. */
  method NormaliseEach(bucket: string, items: seq<Item>, presign: ReadPresigner) returns (r: Result<seq<Item>, ServiceError>)
    ensures r == NormaliseAll(bucket, items, presign)
  {
    var processed: seq<Item> := [];
    for j := 0 to |items|
      invariant |processed| == j
      invariant forall m :: 0 <= m < j ==> NormaliseItem(bucket, items[m], presign) == Ok(processed[m])
    {
      var p := NormaliseItem(bucket, items[j], presign);
      if p.Err? {
        return Err(p.error);
      }
      processed := processed + [p.value];
    }
    r := Ok(processed);
    assert NormaliseAll(bucket, items, presign).value == processed;
  }

  /** A listed item keeps the stored `user` of its record. */
  lemma ListingKeepsUser(bucket: string, item: Item, presign: ReadPresigner, out: Item)
    requires NormaliseItem(bucket, item, presign) == Ok(out)
    ensures "user" in item ==> "user" in out && out["user"] == item["user"]
  {
  }

  /** A record of a well-keyed table carries its key's `user`. */
  lemma StoredRecordUser(items: map<StoreKey, Item>, k: StoreKey)
    requires WellKeyed(items) && k in items
    ensures "user" in items[k] && items[k]["user"] == Str(k.user)
  {
    assert KeyOf(items[k]) == Some(k);
  }

  /** Over a table whose records sit under the key they name, every post the owner query lists belongs to `user`. */
  lemma OwnerScopedListing(bucket: string, items: map<StoreKey, Item>, user: string, found: seq<Item>, presign: ReadPresigner)
    requires WellKeyed(items)
    requires OwnerQueryAnswer(items, user, found)
    requires NormaliseAll(bucket, found, presign).Ok?
    ensures var out := NormaliseAll(bucket, found, presign).value;
            forall i :: 0 <= i < |out| ==> "user" in out[i] && out[i]["user"] == Str(user)
  {
    var out := NormaliseAll(bucket, found, presign).value;
    var keys :| Enumerates(keys, OwnerKeys(items, user)) && found == Lookup(items, keys);
    forall i | 0 <= i < |out| ensures "user" in out[i] && out[i]["user"] == Str(user) {
      var k := keys[i];
      assert k in OwnerKeys(items, user);
      StoredRecordUser(items, k);
      ListingKeepsUser(bucket, found[i], presign, out[i]);
    }
  }

  /** The owner query lists every post of `user`. */
  lemma OwnerListingComplete(bucket: string, items: map<StoreKey, Item>, user: string, found: seq<Item>,
                             presign: ReadPresigner, k: StoreKey)
    requires OwnerQueryAnswer(items, user, found)
    requires NormaliseAll(bucket, found, presign).Ok?
    requires k in items && k.user == user
    ensures NormaliseItem(bucket, items[k], presign).Ok?
    ensures var out := NormaliseAll(bucket, found, presign).value;
            exists i :: 0 <= i < |out| && out[i] == NormaliseItem(bucket, items[k], presign).value
  {
    var out := NormaliseAll(bucket, found, presign).value;
    var keys :| Enumerates(keys, OwnerKeys(items, user)) && found == Lookup(items, keys);
    assert k in OwnerKeys(items, user);
    var i :| 0 <= i < |keys| && keys[i] == k;
    assert found[i] == items[k];
    assert NormaliseItem(bucket, found[i], presign) == Ok(out[i]);
  }

  // ----- create -----

  /** The record `post_a_post` writes. */
  function NewItem(user: string, postId: string, post: PostBody): (item: Item)
    ensures KeyOf(item) == Some(StoreKey(user, postId))
    ensures item.Keys == {"user", "id", "title", "body", "image", "labels"}
  {
    map["user" := Str(user), "id" := Str(postId), "title" := Str(post.title), "body" := Str(post.body),
        "image" := Null, "labels" := List([])]
  }

  /** A freshly created post is listed with no image URL and no labels, and everything else as written. */
  lemma CreatedPostListedAsWritten(bucket: string, user: string, postId: string, post: PostBody, presign: ReadPresigner)
    ensures NormaliseItem(bucket, NewItem(user, postId, post), presign) == Ok(NewItem(user, postId, post))
  {
    var item := NewItem(user, postId, post);
    var out := NormaliseItem(bucket, item, presign).value;
    assert out.Keys == item.Keys;
    assert Get(item, "image", Null) == Null;
    assert Get(item, "labels", List([])) == List([]);
    assert out["image"] == Null && out["labels"] == List([]);
    assert forall a :: a in item ==> out[a] == item[a];
    assert out == item;
    assert NormaliseItem(bucket, item, presign) == Ok(out);
  }

  /**
   * `POST /posts`: the record is put under (authorization, fresh id), with
   * no image and no labels. `uuid` is the text of the freshly generated id.
   */
  method PostAPost(cfg: Config, table: PostTable, post: PostBody, authorization: Option<string>, uuid: string,
                   put: CallReply)
    returns (r: Result<(), ServiceError>)
    requires table.Valid()
    modifies table
    ensures table.Valid()
    ensures !cfg.tableReady ==> r == Err(TableNotInitialised) && table.items == old(table.items)
    ensures cfg.tableReady && KeyFrom(OfOption(authorization), Str(uuid)).None? ==>
              r == Err(KeyRejected) && table.items == old(table.items)
    ensures cfg.tableReady && KeyFrom(OfOption(authorization), Str(uuid)).Some? && put == Raised ==>
              r == Err(StoreCallFailed) && table.items == old(table.items)
    ensures cfg.tableReady && KeyFrom(OfOption(authorization), Str(uuid)).Some? && put == Answered ==>
              r == Ok(()) &&
              table.items == old(table.items)[StoreKey(authorization.value, uuid) := NewItem(authorization.value, uuid, post)]
  {
    if !cfg.tableReady {
      return Err(TableNotInitialised);
    }
    var k := KeyFrom(OfOption(authorization), Str(uuid));
    if k.None? {
      return Err(KeyRejected);
    }
    if put == Raised {
      return Err(StoreCallFailed);
    }
    table.PutItem(k.value, NewItem(authorization.value, uuid, post));
    return Ok(());
  }

  // ----- delete -----

  /** The object `delete_post` removes before the record: none when `image` is falsy. */
  function BlobToDelete(cfg: Config, item: Item): (r: Result<Option<string>, ServiceError>)
    ensures !Truthy(Get(item, "image", Null)) ==> r == Ok(None)
    ensures r.Ok? && r.value.Some? ==> Get(item, "image", Null) == Str(r.value.value) && r.value.value != ""
    ensures Truthy(Get(item, "image", Null)) ==> (r.Err? <==> !Get(item, "image", Null).Str? || !Present(cfg.bucketName))
  {
    var image := Get(item, "image", Null);
    if !Truthy(image) then Ok(None)
    else if !image.Str? || !Present(cfg.bucketName) then Err(BlobParamInvalid)
    else Ok(Some(image.s))
  }

  /**
   * `DELETE /posts/{post_id}`: read the record; if it is missing answer None;
   * otherwise delete its image object when `image` is set, then the record,
   * and answer the record as it was. No call's failure is caught: a failing
   * object deletion aborts before the record is deleted, and a failing record
   * deletion leaves the record after its object is gone. `get`, `blob` and
   * `del` are the outcomes of the `get_item`, `delete_object` and
   * `delete_item` calls.
   */
  method DeletePost(cfg: Config, table: PostTable, bucket: Bucket, postId: string, authorization: Option<string>,
                    get: CallReply, blob: CallReply, del: CallReply)
    returns (r: Result<Option<Item>, ServiceError>)
    requires table.Valid()
    modifies table, bucket
    ensures table.Valid()
    ensures !cfg.tableReady ==>
              r == Err(TableNotInitialised) && table.items == old(table.items) && bucket.objects == old(bucket.objects)
    ensures cfg.tableReady && KeyFrom(OfOption(authorization), Str(postId)).None? ==>
              r == Err(KeyRejected) && table.items == old(table.items) && bucket.objects == old(bucket.objects)
    ensures cfg.tableReady && KeyFrom(OfOption(authorization), Str(postId)).Some? && get == Raised ==>
              r == Err(StoreCallFailed) && table.items == old(table.items) && bucket.objects == old(bucket.objects)
    ensures cfg.tableReady && KeyFrom(OfOption(authorization), Str(postId)).Some? && get == Answered ==>
              var k := KeyFrom(OfOption(authorization), Str(postId)).value;
              if k !in old(table.items) then
                r == Ok(None) && table.items == old(table.items) && bucket.objects == old(bucket.objects)
              else
                var item := old(table.items)[k];
                match BlobToDelete(cfg, item)
                case Err(e) =>
                  r == Err(e) && table.items == old(table.items) && bucket.objects == old(bucket.objects)
                case Ok(target) =>
                  if target.Some? && blob == Raised then
                    r == Err(BlobDeleteFailed) && table.items == old(table.items) && bucket.objects == old(bucket.objects)
                  else
                    && bucket.objects == (if target.Some? then old(bucket.objects) - {target.value} else old(bucket.objects))
                    && (del == Raised ==> r == Err(StoreCallFailed) && table.items == old(table.items))
                    && (del == Answered ==> r == Ok(Some(item)) && table.items == old(table.items) - {k})
  {
    if !cfg.tableReady {
      return Err(TableNotInitialised);
    }
    var k := KeyFrom(OfOption(authorization), Str(postId));
    if k.None? {
      return Err(KeyRejected);
    }
    if get == Raised {
      return Err(StoreCallFailed);
    }
    var found := table.GetItem(k.value);
    if found.None? {
      return Ok(None);
    }
    var item := found.value;
    var target := BlobToDelete(cfg, item);
    if target.Err? {
      return Err(target.error);
    }
    if target.value.Some? {
      if blob == Raised {
        return Err(BlobDeleteFailed);
      }
      bucket.DeleteObject(target.value.value);
    }
    if del == Raised {
      return Err(StoreCallFailed);
    }
    table.DeleteItem(k.value);
    return Ok(Some(item));
  }
}
