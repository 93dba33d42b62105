/**
 * The enrichment function triggered by bucket uploads: for each event
 * record it decodes the object key, recovers (user, post id) from its first
 * two segments, asks the recognition service for labels and writes `image`
 * and `labels` onto the record under the prefixed key
 * ("USER#" + user, "POST#" + post id).
 */
module Worker {
  import opened Wrappers
  import opened Values
  import opened Text
  import opened UrlCoding
  import opened Store

  /** The two fields a record's `s3` part provides; missing at any level is `None`. */
  datatype Record = Record(bucketName: Option<string>, objectKey: Option<string>)

  /** The invocation event; `Records` may be missing. */
  datatype Event = Event(records: Option<seq<Record>>)

  /** A detected label: its `Name` (which could be missing) and fields the worker ignores. */
  datatype Label = Label(name: Option<string>, confidence: int)

  datatype DetectResponse =
    | Detected(labels: Option<seq<Label>>)   // the response, with or without a `Labels` entry
    | DetectClientError
    | DetectOtherError

  datatype UpdateResponse = UpdateOk | UpdateClientError(code: string) | UpdateOtherError

  /** The recognition service, asked with (bucket, decoded key); an oracle. */
  type Detector = (string, string) -> DetectResponse

  /** Whether the table accepts the update for a key; an oracle. */
  type Updater = StoreKey -> UpdateResponse

  datatype Skip =
    | MissingLocation    // no bucket name or no object key
    | MalformedKey       // fewer than three `/`-separated segments
    | RecognitionFailed  // detect_labels raised
    | LabelWithoutName   // `label["Name"]` raised KeyError, caught by the outer handler
    | UpdateRejected     // update_item raised a ClientError
    | UpdateCrashed      // any other error; its handler's log line raises NameError, caught by the outer handler

  datatype Outcome = Skipped(why: Skip) | Enriched(key: StoreKey, image: string, labels: seq<string>)

  datatype Response = Response(statusCode: int, body: string)

  /** `event.get("Records", [])`. */
  function RecordsOf(event: Event): seq<Record>
  {
    if event.records.Some? then event.records.value else []
  }

  /** (user, post id) from a decoded object key with at least three segments. */
  function ParseKey(key: string): (r: Option<(string, string)>)
    ensures r.Some? <==> |Split(key, '/')| >= 3
    ensures r.Some? ==> '/' !in r.value.0 && '/' !in r.value.1
    ensures r.Some? ==> key == r.value.0 + "/" + r.value.1 + "/" + Join(Split(key, '/')[2..], "/")
  {
    var parts := Split(key, '/');
    if |parts| < 3 then None
    else
      JoinSplit(key, '/');
      assert parts[1..][1..] == parts[2..];
      Some((parts[0], parts[1]))
  }

  /** The store key the worker writes to: both parts carry their prefix. */
  function EnrichmentKey(user: string, postId: string): (k: StoreKey)
    ensures |k.user| == 5 + |user| && |k.id| == 5 + |postId|
    ensures k.user[..5] == "USER#" && k.user[5..] == user
    ensures k.id[..5] == "POST#" && k.id[5..] == postId
  {
    StoreKey("USER#" + user, "POST#" + postId)
  }

  /** `[label["Name"] for label in labels]`: fails as a whole on the first label without a name. */
  function LabelNames(labels: seq<Label>): (r: Option<seq<string>>)
    ensures r.Some? <==> forall i :: 0 <= i < |labels| ==> labels[i].name.Some?
    ensures r.Some? ==> |r.value| == |labels| && forall i :: 0 <= i < |labels| ==> r.value[i] == labels[i].name.value
  {
    if labels == [] then Some([])
    else if labels[0].name.None? then None
    else
      match LabelNames(labels[1..])
      case None => None
      case Some(rest) => Some([labels[0].name.value] + rest)
  }

  /** What one record leads to; it depends on nothing but the record and the two services. */
  function RecordOutcome(rec: Record, detect: Detector, update: Updater): (o: Outcome)
    ensures o.Enriched? ==> update(o.key) == UpdateOk
    ensures o.Enriched? ==> |o.key.user| >= 5 && o.key.user[..5] == "USER#" && |o.key.id| >= 5 && o.key.id[..5] == "POST#"
  {
    if !Present(rec.bucketName) || !Present(rec.objectKey) then Skipped(MissingLocation)
    else
      var key := UnquotePlus(rec.objectKey.value);
      match ParseKey(key)
      case None => Skipped(MalformedKey)
      case Some((user, postId)) =>
        match detect(rec.bucketName.value, key)
        case DetectClientError => Skipped(RecognitionFailed)
        case DetectOtherError => Skipped(RecognitionFailed)
        case Detected(found) =>
          match LabelNames(if found.Some? then found.value else [])
          case None => Skipped(LabelWithoutName)
          case Some(names) =>
            var k := EnrichmentKey(user, postId);
            match update(k)
            case UpdateOk => Enriched(k, key, names)
            case UpdateClientError(_) => Skipped(UpdateRejected)
            case UpdateOtherError => Skipped(UpdateCrashed)
  }

  /** The table after one outcome. */
  function Effect(items: map<StoreKey, Item>, o: Outcome): (r: map<StoreKey, Item>)
    ensures o.Skipped? ==> r == items
    ensures o.Enriched? ==> r.Keys == items.Keys + {o.key}
    ensures forall k :: k in items && !(o.Enriched? && k == o.key) ==> r[k] == items[k]
    ensures WellKeyed(items) ==> WellKeyed(r)
  {
    match o
    case Skipped(_) => items
    case Enriched(k, image, names) => SetImageLabels(items, k, Str(image), List(Strs(names)))
  }

  /** The table after the records, taken in order. */
  function Process(items: map<StoreKey, Item>, records: seq<Record>, detect: Detector, update: Updater): (r: map<StoreKey, Item>)
    ensures items.Keys <= r.Keys
    ensures WellKeyed(items) ==> WellKeyed(r)
    decreases |records|
  {
    if records == [] then items
    else Effect(Process(items, records[..|records| - 1], detect, update), RecordOutcome(records[|records| - 1], detect, update))
  }

  function Outcomes(records: seq<Record>, detect: Detector, update: Updater): (os: seq<Outcome>)
    ensures |os| == |records|
    ensures forall i :: 0 <= i < |records| ==> os[i] == RecordOutcome(records[i], detect, update)
  {
    if records == [] then []
    else Outcomes(records[..|records| - 1], detect, update) + [RecordOutcome(records[|records| - 1], detect, update)]
  }

  /** One iteration of the handler's loop: early exits are the `continue`s of the source. */
  method HandleRecord(table: PostTable, rec: Record, detect: Detector, update: Updater) returns (o: Outcome)
    requires table.Valid()
    modifies table
    ensures table.Valid()
    ensures o == RecordOutcome(rec, detect, update)
    ensures table.items == Effect(old(table.items), o)
  {
    if !Present(rec.bucketName) || !Present(rec.objectKey) {
      return Skipped(MissingLocation);
    }
    var bucketName := rec.bucketName.value;
    var key := UnquotePlus(rec.objectKey.value);
    var parts := Split(key, '/');
    if |parts| < 3 {
      return Skipped(MalformedKey);
    }
    var user, postId := parts[0], parts[1];
    var found: Option<seq<Label>>;
    match detect(bucketName, key) {
      case DetectClientError => return Skipped(RecognitionFailed);
      case DetectOtherError => return Skipped(RecognitionFailed);
      case Detected(ls) => found := ls;
    }
    var names := LabelNames(if found.Some? then found.value else []);
    if names.None? {
      return Skipped(LabelWithoutName);
    }
    var k := EnrichmentKey(user, postId);
    match update(k) {
      case UpdateClientError(_) => return Skipped(UpdateRejected);
      case UpdateOtherError => return Skipped(UpdateCrashed);
      case UpdateOk =>
        table.UpdateImageLabels(k, Str(key), List(Strs(names.value)));
        return Enriched(k, key, names.value);
    }
  }

  /**
   * `lambda_handler`. Without a table it answers 500 and touches nothing;
   * otherwise every record is handled on its own and the answer is 200.
   */
  method LambdaHandler(table: PostTable?, event: Event, detect: Detector, update: Updater)
    returns (resp: Response, outcomes: seq<Outcome>)
    requires table != null ==> table.Valid()
    modifies table
    ensures table == null ==> resp.statusCode == 500 && outcomes == []
    ensures table != null ==> resp.statusCode == 200 && table.Valid()
    ensures table != null ==> outcomes == Outcomes(RecordsOf(event), detect, update)
    ensures table != null ==> table.items == Process(old(table.items), RecordsOf(event), detect, update)
  {
    if table == null {
      return Response(500, "Internal server error: Table not configured"), [];
    }
    var records := RecordsOf(event);
    outcomes := [];
    for i := 0 to |records|
      invariant table.Valid()
      invariant table.items == Process(old(table.items), records[..i], detect, update)
      invariant outcomes == Outcomes(records[..i], detect, update)
    {
      ghost var before := table.items;
      var o := HandleRecord(table, records[i], detect, update);
      assert records[..i + 1][..i] == records[..i] && records[..i + 1][i] == records[i];
      assert Process(old(table.items), records[..i + 1], detect, update) == Effect(before, o);
      assert Outcomes(records[..i + 1], detect, update) == outcomes + [o];
      outcomes := outcomes + [o];
    }
    assert records[..|records|] == records;
    resp := Response(200, "Finished processing S3 event.");
  }

  // ----- Properties of the per-record decision -----

  /** A record without bucket or key is skipped before either service is asked. */
  lemma MissingLocationSkipped(rec: Record, d1: Detector, u1: Updater, d2: Detector, u2: Updater)
    requires !Present(rec.bucketName) || !Present(rec.objectKey)
    ensures RecordOutcome(rec, d1, u1) == RecordOutcome(rec, d2, u2) == Skipped(MissingLocation)
  {
  }

  /** A decoded key with fewer than three segments is skipped before either service is asked. */
  lemma MalformedKeySkipped(rec: Record, d1: Detector, u1: Updater, d2: Detector, u2: Updater)
    requires Present(rec.bucketName) && Present(rec.objectKey)
    requires |Split(UnquotePlus(rec.objectKey.value), '/')| < 3
    ensures RecordOutcome(rec, d1, u1) == RecordOutcome(rec, d2, u2) == Skipped(MalformedKey)
  {
  }

  /** When recognition fails, the table is never asked to update. */
  lemma RecognitionFailureSkipped(rec: Record, detect: Detector, u1: Updater, u2: Updater)
    requires Present(rec.bucketName) && Present(rec.objectKey)
    requires !detect(rec.bucketName.value, UnquotePlus(rec.objectKey.value)).Detected?
    ensures RecordOutcome(rec, detect, u1) == RecordOutcome(rec, detect, u2)
    ensures RecordOutcome(rec, detect, u1).Skipped?
  {
  }

  /**
   * An enriched record was written under the prefixed first two segments of
   * its decoded key, with that key as `image` and the label names, in the
   * order returned, as `labels`.
   */
  lemma EnrichedRecord(rec: Record, detect: Detector, update: Updater)
    requires RecordOutcome(rec, detect, update).Enriched?
    ensures Present(rec.bucketName) && Present(rec.objectKey)
    ensures var o := RecordOutcome(rec, detect, update);
            var key := UnquotePlus(rec.objectKey.value);
            var parts := Split(key, '/');
            var reply := detect(rec.bucketName.value, key);
            && |parts| >= 3
            && o.key == StoreKey("USER#" + parts[0], "POST#" + parts[1])
            && o.image == key
            && reply.Detected?
            && var found := if reply.labels.Some? then reply.labels.value else [];
               |o.labels| == |found| && forall i :: 0 <= i < |found| ==> o.labels[i] == found[i].name.value
  {
  }

  /** The record leads to enrichment exactly when every step succeeds. */
  lemma EnrichedWhenAllSucceed(rec: Record, detect: Detector, update: Updater, user: string, postId: string, names: seq<string>)
    requires Present(rec.bucketName) && Present(rec.objectKey)
    requires ParseKey(UnquotePlus(rec.objectKey.value)) == Some((user, postId))
    requires var reply := detect(rec.bucketName.value, UnquotePlus(rec.objectKey.value));
             reply.Detected? && LabelNames(if reply.labels.Some? then reply.labels.value else []) == Some(names)
    requires update(EnrichmentKey(user, postId)) == UpdateOk
    ensures RecordOutcome(rec, detect, update) == Enriched(EnrichmentKey(user, postId), UnquotePlus(rec.objectKey.value), names)
  {
  }

  // ----- Properties of the loop -----

  lemma {:induction false} ProcessAppend(items: map<StoreKey, Item>, a: seq<Record>, b: seq<Record>, detect: Detector, update: Updater)
    ensures Process(items, a + b, detect, update) == Process(Process(items, a, detect, update), b, detect, update)
    decreases |b|
  {
    if b == [] {
      assert a + b == a;
    } else {
      var b' := b[..|b| - 1];
      ProcessAppend(items, a, b', detect, update);
      assert (a + b)[..|a + b| - 1] == a + b';
      assert (a + b)[|a + b| - 1] == b[|b| - 1];
    }
  }

  /**
   * Failure isolation: a record that is skipped, wherever it stands, has no
   * effect on the table, so the records after it are handled exactly as if
   * it were absent.
   */
  lemma SkippedRecordIsInert(items: map<StoreKey, Item>, before: seq<Record>, rec: Record, after: seq<Record>,
                             detect: Detector, update: Updater)
    requires RecordOutcome(rec, detect, update).Skipped?
    ensures Process(items, before + [rec] + after, detect, update) == Process(items, before + after, detect, update)
  {
    ProcessAppend(items, before + [rec], after, detect, update);
    ProcessAppend(items, before, after, detect, update);
    assert (before + [rec])[..|before|] == before;
  }

  /** Only keys of enriched records can change; every other entry is left as it was. */
  lemma {:induction false} ProcessTouchesOnlyEnrichedKeys(items: map<StoreKey, Item>, records: seq<Record>,
                                                          detect: Detector, update: Updater, k: StoreKey)
    requires forall i :: 0 <= i < |records| ==>
               var o := RecordOutcome(records[i], detect, update); o.Enriched? ==> o.key != k
    ensures var r := Process(items, records, detect, update);
            (k in r <==> k in items) && (k in items ==> r[k] == items[k])
    decreases |records|
  {
    if records != [] {
      ProcessTouchesOnlyEnrichedKeys(items, records[..|records| - 1], detect, update, k);
    }
  }
}
