# A photo-sharing backend and client, modelled in Dafny

The system is a small photo-sharing application. Users create text posts through a web
service. For each post they ask for a presigned upload URL, which they use to put a
picture straight into an object bucket. An image worker then receives a storage event
for the upload, asks an image-recognition service for labels, and writes the object
key and the label names into the post table. The web client is meant to list the
posts with their labels; as written it never shows them (see "Findings").

This project models the deterministic logic of those pieces:

- `Worker` (`worker.dfy`): the worker's handler. It covers the per-record decision
  (location check, key decoding, splitting, key prefixing, label names) and the loop
  with its unconditional `SET image, labels` update.
- `PostService` (`postservice.dfy`): the web service's post operations. It covers
  presigned read URLs, the created record, the owner query or paginated full scan,
  per-item normalisation, and deleting a record together with its image.
- `SignedUrl` (`signedurl.dfy`): the upload credential. It covers the object name
  `user/postId/uuid+suffix`, the presign request, the returned
  `{uploadURL, objectName}`, and the endpoint that calls it.
- `PostCard` (`postcard.dfy`): the client's post card. It covers id-prefix stripping,
  the `submitFile` and `deletePost` handlers with their flags, the three card
  sections, upload-button enablement and the progress bar.
- `SeedImport` (`seedimport.dfy`): the seed script. It covers object keys derived from
  the walked directory path, the root-skip and first-file rules, and the batch write
  with its count.
- `Pipeline` (`pipeline.dfy`): properties across the pieces. The upload name is the
  key the worker parses back, and the pieces disagree with each other in the places
  listed under "Findings".
- `Store`, `Values`, `Text`, `UrlCoding`, `PathNames`, `Wrappers`: shared ground.
  - The table is a class holding a map from `(user, id)` to a record; the bucket is a
    class holding a set of keys.
  - Dynamic values carry Python truthiness.
  - `str.split` and `str.join` are modelled on one separator.
  - `unquote_plus` is paired with an event-key encoder, its inverse.
  - pathlib's `name` and `suffix` are modelled.

The following are inputs to the model, and every value of them is allowed:
- the recognition service, the update outcome, and the signers;
- the scan replies, and whether each table or bucket call of the web service
  answers or raises;
- the client's HTTP replies;
- the generated UUID;
- the outcome of each seed upload.

The code's behaviour is modelled as written, including where it is wrong.
Each row under "Findings" has a corrected definition beside it.
In one place the model follows the code without a corrected definition:
- Deleting a post is not best-effort. It deletes the image object first, and
  no failure is caught. A failing object deletion fails the request and the
  record stays. A failing record deletion after it fails the request with the
  object already gone.

The worker's update has no condition, so as written it creates a record when
none exists. That one is a "Findings" row, and `Pipeline.EffectFixed` is its
corrected, conditional update.

Other behaviour of the code as written:
- The owner query is answered from the table: each record of that partition
  once, in an order the store chooses.
- An undefined name in the worker's generic update-error handler
  (`post_id_`) raises inside the handler. The outer handler catches it, so
  the record is skipped as any failed update would be (`UpdateCrashed`).
- If the signer of `getSignedUrl` reports a client error, `url` is never
  bound, so building the reply raises (`UrlUnbound`).

## Model

| member | source | states |
|---|---|---|
| Text.Split | terraform/lambda/lambda_function.py:50 | `str.split` with one separator: at least one piece, no piece holds the separator, and there are two or more pieces exactly when the separator occurs |
| Text.JoinSplit | terraform/import_data.py:22 | joining the pieces of a split with the separator gives back the original string |
| Text.SplitJoin | terraform/lambda/lambda_function.py:50 | splitting a join of separator-free pieces gives back the pieces |
| Text.SplitThree | webservice/getSignedUrl.py:24 | `a/b/c` with separator-free parts splits into exactly `[a, b, c]` |
| UrlCoding.Unquote | terraform/lambda/lambda_function.py:46 | percent-decoding never lengthens a string and leaves a string with no `%` unchanged |
| UrlCoding.UnquotePlus | terraform/lambda/lambda_function.py:46 | `unquote_plus` never lengthens the key; without a `%` it keeps the length and changes only each `+` into a space |
| UrlCoding.EncodeEventKey | terraform/lambda/lambda_function.py:46 | the event form of a key is never shorter than the key and holds no space; a key of letters, digits, `-_.~/` and non-ASCII characters is carried as it is |
| UrlCoding.DecodeEventKey | terraform/lambda/lambda_function.py:46 | `unquote_plus` inverts the storage event's key encoding, for every key |
| UrlCoding.UnquotePlusPlain | terraform/lambda/lambda_function.py:46 | a key with neither `+` nor `%` decodes to itself |
| PathNames.Name | webservice/getSignedUrl.py:23 | the final path component contains no `/` |
| PathNames.Suffix | webservice/getSignedUrl.py:23 | the suffix is empty or a tail of the final component, starts with `.`, has no further dot, is at least two characters long, is shorter than the component, and never holds `/` |
| PathNames.SuffixOfExtension | webservice/getSignedUrl.py:23 | a final component `stem.ext` with a non-empty stem and a dot-free `ext` has the suffix `.ext` |
| Store.KeyFrom | webservice/app.py:227-229 | a store key exists exactly when both key parts are non-empty strings, and it holds those strings |
| Store.SetImageLabels | terraform/lambda/lambda_function.py:95-106 | the unconditional `SET image, labels` update: the key is added if missing, and `image` and `labels` take the given values. Other records are unchanged. An existing record keeps its other attributes and gains no new ones. A created record holds only `user`, `id`, `image` and `labels`. Records stay under the key their attributes name |
| Store.PostTable.PutItem | webservice/app.py:140 | `put_item` replaces the record under its key and changes nothing else |
| Store.PostTable.UpdateImageLabels | terraform/lambda/lambda_function.py:95-106 | the table after the update is `SetImageLabels` of the table before |
| Store.PostTable.GetItem | webservice/app.py:227-230 | answers the stored record or nothing, without changing the table |
| Store.PostTable.DeleteItem | webservice/app.py:242-245 | removes exactly that key, and a missing key changes nothing |
| Store.Bucket.PutObject | terraform/import_data.py:27 | the bucket gains exactly that key |
| Store.Bucket.DeleteObject | webservice/app.py:239 | the bucket loses exactly that key, and a missing key is no error |
| SignedUrl.UuidHasNoSlash | webservice/getSignedUrl.py:23 | a canonical UUID text holds no `/` |
| SignedUrl.ObjectName | webservice/getSignedUrl.py:23-24 | the object name starts with the user and a `/`, ends with the suffix of the uploaded file name, and is two characters longer than its four parts together |
| SignedUrl.ObjectNameSegments | webservice/getSignedUrl.py:23-24 | when user, post id and UUID hold no `/`, the object name splits into exactly user, post id and `uuid+suffix` |
| SignedUrl.GeneratedNameSegments | webservice/getSignedUrl.py:23-24 | the same three segments for any generated UUID |
| SignedUrl.UploadRequest | webservice/getSignedUrl.py:27-35 | the presign request is `put_object` on the given bucket, with key equal to the object name, content type equal to the file type, and 3600 seconds of validity |
| SignedUrl.GetSignedUrl | webservice/getSignedUrl.py:21-43 | succeeds exactly when the signer does. It then returns the signer's URL and exactly the constructed object name, which splits into the three expected segments. A client error from the signer leaves `url` unbound; any other signer error propagates |
| SignedUrl.SignedUrlPutEndpoint | webservice/app.py:257-259 | as written, every request fails because a bucket argument is missing |
| SignedUrl.SignedUrlPutEndpointFixed | webservice/app.py:257-259 | with the bucket passed on, the endpoint succeeds exactly when the signer does, and names an object with the caller's three segments |
| SignedUrl.EndpointArityMismatch | webservice/app.py:259 | whenever the signer would succeed, the endpoint as written fails and the fixed one succeeds |
| Worker.ParseKey | terraform/lambda/lambda_function.py:50-56 | succeeds exactly when the key has at least three segments. The two parts it returns hold no `/`, and joining them with the remaining segments rebuilds the key |
| Worker.EnrichmentKey | terraform/lambda/lambda_function.py:86-87 | the store key is `USER#` followed by the user and `POST#` followed by the post id |
| Worker.LabelNames | terraform/lambda/lambda_function.py:81 | gives the `Name` of every label, in the order returned, and fails as a whole when any label lacks a name |
| Worker.RecordOutcome | terraform/lambda/lambda_function.py:37-125 | a record is enriched only when the update on its key answered, and only under a `USER#`/`POST#`-prefixed key |
| Worker.Effect | terraform/lambda/lambda_function.py:95-106 | a skipped record leaves the table as it is. An enriched one adds at most its own key and keeps every other record; tables whose records sit under their own key stay so |
| Worker.Process | terraform/lambda/lambda_function.py:36 | handling a batch never removes a record, and tables whose records sit under their own key stay so |
| Worker.Outcomes | terraform/lambda/lambda_function.py:36 | one outcome per record, in order, each decided by that record alone |
| Worker.HandleRecord | terraform/lambda/lambda_function.py:37-125 | one loop iteration: its outcome is the per-record decision, and it changes the table only by that outcome's update |
| Worker.LambdaHandler | terraform/lambda/lambda_function.py:29-130 | with no table, answers 500 and handles no record. Otherwise it answers 200 after handling every record in order, and the table is the fold of the per-record updates |
| Worker.MissingLocationSkipped | terraform/lambda/lambda_function.py:38-44 | a record without bucket name or key is skipped, whatever recognition and storage would do |
| Worker.MalformedKeySkipped | terraform/lambda/lambda_function.py:50-53 | a decoded key of fewer than three segments is skipped before either service is used |
| Worker.RecognitionFailureSkipped | terraform/lambda/lambda_function.py:62-79 | a recognition failure skips the record, whatever the update would do |
| Worker.EnrichedRecord | terraform/lambda/lambda_function.py:46-106 | an enriched record was written under the prefixed first two segments of its decoded key, with that key as `image` and the label names in order as `labels` |
| Worker.EnrichedWhenAllSucceed | terraform/lambda/lambda_function.py:46-107 | when every step succeeds, the record is enriched with exactly those values |
| Worker.ProcessAppend | terraform/lambda/lambda_function.py:36 | handling two batches of records one after the other is the same as handling them together |
| Worker.SkippedRecordIsInert | terraform/lambda/lambda_function.py:36-125 | a skipped record, wherever it stands, leaves the table as if it were absent, so it never stops or changes later records |
| Worker.ProcessTouchesOnlyEnrichedKeys | terraform/lambda/lambda_function.py:95-106 | a key that no successful update names is neither added, removed nor changed |
| PostService.CreatePresignedUrl | webservice/app.py:84-108 | no key gives `None` without using the signer. With a string key it succeeds exactly when the signer does, and returns the signer's URL. Any failure raises, because `ClientError` is undefined |
| PostService.CreatePresignedUrlFixed | webservice/app.py:84-108 | with `ClientError` imported: `None` when there is no key or the signer fails, otherwise the signer's URL |
| PostService.NoKeyNoRequest | webservice/app.py:93-94 | without a key the answer is `None` whatever the signer would say |
| PostService.PresignFailureRaises | webservice/app.py:101-103 | a failing signer makes the helper as written raise, where the fixed helper answers `None` |
| PostService.KeepStringValues | webservice/app.py:195 | the label filter never lengthens the list. The `'S'` value of every dictionary entry holding `'S'` is in the result, and every value in the result is the `'S'` value of such an entry |
| PostService.KeepStringValuesSingle | webservice/app.py:195 | a single entry contributes its `'S'` value if it is a dictionary holding `'S'`, and nothing otherwise |
| PostService.KeepStringValuesAppend | webservice/app.py:195 | the filter works entry by entry, in order: filtering a concatenation concatenates the results |
| PostService.NormaliseLabels | webservice/app.py:192-201 | a `labels` value that is not a list becomes `[]`. For a list, the result holds exactly the `'S'` values of its dictionary entries that hold `'S'` |
| PostService.PlainStringLabelsDropped | webservice/app.py:192-201 | labels stored as plain strings, as the worker writes them, all normalise to `[]` |
| PostService.KeepLabelStrings | webservice/app.py:195 | the corrected filter never lengthens the list |
| PostService.PlainStringLabelsKept | webservice/app.py:192-201 | the corrected normalisation returns plain-string labels unchanged |
| PostService.FixedAgreesOnTypedLabels | webservice/app.py:195 | on lists without plain strings, the corrected filter and the filter as written agree |
| PostService.NormaliseItem | webservice/app.py:185-201 | succeeds exactly when the presigned-URL helper does. It then gives the stored record with `image` replaced by the URL or `None` and `labels` normalised, with every other attribute kept |
| PostService.NormaliseItemFixed | webservice/app.py:185-201 | the same copy, built with the corrected helper and the corrected label filter |
| PostService.NormaliseItemFixedAgrees | webservice/app.py:185-201 | where the listing as written succeeds and no label is a plain string, the corrected listing gives the same item |
| PostService.NormaliseAll | webservice/app.py:182-204 | succeeds exactly when every item does. The output then has the same length and order as the input, with each entry the normalisation of its item |
| PostService.CompleteScanCollectsAllPages | webservice/app.py:166-175 | a complete scan returns the items of every page, concatenated in order |
| PostService.ScanAll | webservice/app.py:168-175 | when no reply fails, the paginated scan succeeds; a successful scan starts with the first page's items |
| PostService.FailedScanYieldsNothing | webservice/app.py:177-179 | a scan call that raises before the last page leaves nothing to list |
| PostService.ScanTable | webservice/app.py:168-174 | the pagination loop collects exactly what the paginated scan specifies |
| PostService.NormaliseEach | webservice/app.py:182-204 | the normalisation loop gives exactly the normalised listing, or the first item's failure |
| PostService.GetAllPosts | webservice/app.py:144-207 | a missing table or bucket, or a failed store access, gives `[]`. With a user, the answer is the normalisation of an answer of the owner query on the current table. Without one, it is the normalisation of the full scan |
| Store.PostTable.Query | webservice/app.py:161-164 | the query on a partition key answers every record of that partition exactly once, and nothing else |
| PostService.ListingKeepsUser | webservice/app.py:185-189 | a listed item carries the stored record's `user` |
| PostService.OwnerScopedListing | webservice/app.py:159-165 | on a table whose records sit under the key they name, every post of an owner-scoped listing belongs to that user |
| PostService.OwnerListingComplete | webservice/app.py:159-165 | when the partition fits in one query reply, every post of that user appears in the owner listing, normalised |
| PostService.NewItem | webservice/app.py:131-138 | the created record sits under `(authorization, fresh id)` and has exactly the attributes `user`, `id`, `title`, `body`, `image` and `labels` |
| PostService.CreatedPostListedAsWritten | webservice/app.py:131-138 | a freshly created post is listed exactly as written: no image URL, no labels |
| PostService.PostAPost | webservice/app.py:111-142 | with no table, a key the store refuses, or a `put_item` that raises, the call fails and the table is unchanged. Otherwise the new record is put under its key and nothing else changes |
| PostService.BlobToDelete | webservice/app.py:236-239 | a falsy `image` deletes no object. A truthy one must be a string, and a bucket must be configured, otherwise the call fails |
| PostService.DeletePost | webservice/app.py:209-248 | a missing table, a key the store refuses, or a `get_item` that raises fails with nothing changed. A missing record answers `None` and changes nothing. Otherwise the image object is deleted only when `image` is truthy, then the record is deleted, and the old record is returned. A failing object deletion aborts before the record is deleted. A failing record deletion fails the request with the record kept and the object already deleted |
| PostCard.LengthOf | webapp/src/components/Post.js:165 | a `length` exists exactly for strings and arrays |
| PostCard.ImageExists | webapp/src/components/Post.js:140 | the card sees an image only when the post holds `image_s3_key` |
| PostCard.ShowImage | webapp/src/components/Post.js:153 | the picture is shown only when the post holds `image_url` |
| PostCard.ShowLabels | webapp/src/components/Post.js:165 | the label badges need both `image_s3_key` and `labels` on the post |
| PostCard.ShowUploadForm | webapp/src/components/Post.js:177 | a post without `image_s3_key` gets the upload form, and the form never appears with the badges or the detecting notice |
| PostCard.ShowDetecting | webapp/src/components/Post.js:193 | the detecting notice needs `image_s3_key` and never appears with the badges |
| PostCard.StripId | webapp/src/components/Post.js:63 | the stripped id holds no `#`, and an id without `#` is unchanged |
| PostCard.StripPrefixedId | webapp/src/components/Post.js:63 | `prefix#x` and `prefix#x#rest` strip to `x` |
| PostCard.BarePrefixStripsToEmpty | webapp/src/components/Post.js:63-68 | an id that is only a prefix and `#` strips to the empty id, which the handlers reject |
| PostCard.ExactlyOneSection | webapp/src/components/Post.js:140-197 | at most one section is ever shown. Exactly one is shown precisely when there is no image, or when the labels are falsy, a string or an array |
| PostCard.ObjectLabelsShowNothing | webapp/src/components/Post.js:165-197 | every post with an image whose labels are an object shows neither the badges, nor the upload form, nor the detecting notice |
| PostCard.ImageAttributeIgnored | webapp/src/components/Post.js:140 | a post without `image_s3_key` always gets the upload form, and neither labels nor "detecting" |
| PostCard.LabelsShownWhenImageSet | webapp/src/components/Post.js:165 | with the corrected image test, a post with a non-empty `image` and non-empty labels shows its labels |
| PostCard.SignedUrlOf | webapp/src/components/Post.js:39-53 | a signed URL comes only from a 2xx reply whose body object holds a truthy `uploadURL`, and it is that value |
| PostCard.SignedUrlNeedsResolvedReply | webapp/src/components/Post.js:41-53 | the signed-URL call succeeds exactly for such replies |
| PostCard.LabelingOnlyAfterAcceptedUpload | webapp/src/components/Post.js:90-111 | `labeling` turns on only after a signed URL and a PUT with status exactly 200. A PUT with any other status, or one that fails, leaves it off |
| PostCard.UploadEnabled | webapp/src/components/Post.js:184 | the upload button is enabled exactly when there is an attachment and the card is neither uploading nor labeling |
| PostCard.LabelingAfterSubmit | webapp/src/components/Post.js:74-111 | `labeling` is on after `submitFile` only if it was on already or the PUT was answered 200, and it turns on only when a signed URL came back |
| PostCard.NoSecondUploadWhileLabeling | webapp/src/components/Post.js:184 | after an accepted upload, the upload button stays disabled |
| PostCard.Card.constructor | webapp/src/components/Post.js:10-14 | a card starts shown, with no attachment and both flags off |
| PostCard.Card.FileChanged | webapp/src/components/Post.js:16-21 | the first selected file becomes the attachment; an empty selection changes nothing |
| PostCard.Card.SubmitFile | webapp/src/components/Post.js:56-115 | with no attachment or an empty stripped id, nothing is sent and no flag changes. Otherwise the signed-URL request is sent, then the PUT if a URL came back; `uploading` ends off on every path, and `labeling` follows the PUT's status |
| PostCard.Card.DeletePost | webapp/src/components/Post.js:117-136 | with an empty stripped id, nothing happens. Otherwise the delete for `/posts/<stripped id>` is sent, and the card is hidden exactly when the call resolves |
| PostCard.Tick | webapp/src/components/Post.js:212-216 | a tick raises the progress by one below 100 and leaves it unchanged from 100 on |
| PostCard.ProgressClimbsThenStops | webapp/src/components/Post.js:208-221 | after `n` ticks from 0 the progress is `min(n, 100)` |
| PostCard.ProgressMonotone | webapp/src/components/Post.js:212-215 | the progress never decreases and never exceeds 100 |
| PostCard.ProgressBar.constructor | webapp/src/components/Post.js:209 | the bar starts at 0 |
| PostCard.ProgressBar.Step | webapp/src/components/Post.js:212-216 | one interval callback applies one tick and keeps the progress equal to its value after that many ticks, at most 100 |
| SeedImport.RootKeyStartsWithSlash | terraform/import_data.py:22-31 | a file directly in the top directory gets the key `/` followed by its name, so it is skipped |
| SeedImport.S3Key | terraform/import_data.py:22 | the object key ends with `/` followed by the file name |
| SeedImport.LocalPath | terraform/import_data.py:21 | `os.path.join` ends with the file name; an absolute file name replaces the directory, otherwise the path starts with the directory |
| SeedImport.SubdirectoryKey | terraform/import_data.py:22 | below the top directory, the key is the rest of the directory path, then `/`, then the file name |
| SeedImport.SubdirectoryKeyKept | terraform/import_data.py:23 | when the rest of the path is non-empty and does not start with `/`, the key does not start with `/`, so the file is uploaded |
| SeedImport.EntryLines | terraform/import_data.py:19-31 | a directory without files yields nothing. Otherwise it yields one line about its first file only: skipped at the root, uploaded, or failed |
| SeedImport.SeedLog | terraform/import_data.py:19-31 | the upload log has at most one entry per walked directory |
| SeedImport.UploadedKeys | terraform/import_data.py:27 | every key reported as uploaded is in the uploaded set |
| SeedImport.UploadedKeysReported | terraform/import_data.py:24-29 | every key in the uploaded set was reported as uploaded |
| SeedImport.OneLinePerDirectory | terraform/import_data.py:19-31 | the log has one entry per directory that holds files, so an upload error does not stop the walk |
| SeedImport.SeedLogAppend | terraform/import_data.py:28-29 | the log of a walk is the log of its first part followed by the log of the rest |
| SeedImport.UploadSeedFiles | terraform/import_data.py:19-31 | the loop's log is the specified log, and the bucket gains exactly the keys it reports as uploaded |
| SeedImport.FirstUnkeyed | terraform/import_data.py:47-48 | gives the index of the first row without a non-empty string `user` and `id`; every row before it is keyed |
| SeedImport.PutAll | terraform/import_data.py:47-49 | putting rows never removes a record, and tables whose records sit under their own key stay so |
| SeedImport.PutAllKeys | terraform/import_data.py:47-49 | after the rows are put, the table holds exactly its old keys plus the rows' keys |
| SeedImport.PutAllKeepsOthers | terraform/import_data.py:47-49 | a record that no row names is kept |
| SeedImport.PutAllStoresEveryRow | terraform/import_data.py:47-49 | rows with distinct keys are each stored exactly as given |
| SeedImport.BatchWrite | terraform/import_data.py:43-55 | no data, or data that could not be imported, writes nothing. Otherwise every row is put and counted, and the count is the number of rows; a row the store cannot key ends the batch after the rows before it |
| Pipeline.UploadKeyRoundTrip | webservice/getSignedUrl.py:24 | the worker parses exactly `(user, postId)` back from the storage event of an upload to a generated name |
| Pipeline.SignedUploadAttributedToCaller | webservice/getSignedUrl.py:40-43 | the object named in an issued credential is attributed by the worker to the caller and the post |
| Pipeline.ClientKeepsGeneratedId | webapp/src/components/Post.js:63 | generated post ids hold no `#`, so the client passes them on unchanged |
| Pipeline.EnrichmentKeyIsNotCreatedKey | terraform/lambda/lambda_function.py:86-87 | the key the worker writes never equals the key the web service created |
| Pipeline.EnrichmentMissesCreatedPost | terraform/lambda/lambda_function.py:95-106 | as written, an enrichment leaves the created post unchanged. When no prefixed record exists, it adds an orphan record holding only the key, `image` and `labels` |
| Pipeline.UploadNeverReachesCreatedPost | terraform/lambda/lambda_function.py:86-106 | as written, after a created post's upload is handled, the post is unchanged and is still listed with no image and no labels |
| Pipeline.EffectFixed | terraform/lambda/lambda_function.py:95-106 | the corrected update, conditional on the created key, adds no key and changes no other record |
| Pipeline.FixedEnrichmentUpdatesCreatedPost | terraform/lambda/lambda_function.py:95-106 | with the corrected update, the created post gains the image key and the label names and keeps everything else |
| Pipeline.FixedEnrichmentAddsNoOrphan | terraform/lambda/lambda_function.py:109-111 | with the corrected update, an event for a missing post changes nothing |
| Pipeline.ProcessNeverWritesCardImageAttributes | terraform/lambda/lambda_function.py:100 | no step of the worker writes an `image_s3_key` or an `image_url` attribute |
| Pipeline.ListedPostOffersUploadForm | webapp/src/components/Post.js:140-155 | any listed record that lacks `image_s3_key` and `image_url` is shown with the upload form, no labels and no picture |
| Pipeline.CardAlwaysOffersUpload | webapp/src/components/Post.js:140-190 | as written, however many events the worker handles, every listed post still offers the upload form, never shows labels and never shows a picture |
| Pipeline.FixedPipelineShowsLabels | webapp/src/components/Post.js:165-174 | with the corrected update, listing and image test, a recognised upload shows its label names under the presigned image URL |
| Pipeline.SeedObjectKeyParsed | terraform/import_data.py:22 | a seed file under `s3/<user>/<id>/` is uploaded as `<user>/<id>/<file>`, which the worker parses back into `(user, id)` |

## Left out

- The storage and recognition service internals are not modelled: the table is a map, the bucket a set of keys, and recognition, signing, the scan replies, the worker's update outcome and whether each table or bucket call of the web service answers or raises are parameters. Request signing and URL contents are not modelled.
- UUID generation is not modelled: the id is a parameter, and uniqueness cannot be stated.
- Routing, CORS, the validation-error handler, HTTP status codes of the service and logging are not modelled. The service's answers are `Result` values, where an error stands for a raised exception.
- The service's module-level set-up is two inputs: whether the table exists, and the `BUCKET` value. With no table, `post_a_post` and `delete_post` raise on the missing table; this is `TableNotInitialised`.
- PostService.GetAllPosts: the owner query reads one reply, as the code does. DynamoDB's 1 MB limit on a query page is not modelled, so that reply holds the whole partition. Its order is the store's (the sort-key order is not modelled), and the scan keeps whatever order its replies give.
- PostService.PostAPost: `post_a_post` returns the `put_item` response; the model returns `Ok(())` in its place, since the response's metadata is not modelled.
- Worker.RecordOutcome: the recognition request's `MaxLabels=5` and `MinConfidence=75` (terraform/lambda/lambda_function.py:70-71) are not part of the detector's input. The detector sees only the bucket and the key, and any label list it returns is allowed, including one of more than five labels.
- Worker.RecordOutcome: recognition and the update are functions of their request: the detector answers by bucket and key, the updater by store key. Two records naming the same object in one batch therefore get the same answers, whereas the real services may answer one call and fail the next.
- PostService.CreatePresignedUrl: the read URL's `ExpiresIn=3600` (webservice/app.py:84, :99) is not part of the read presigner's input. Unlike the upload request in `SignedUrl.UploadRequest`, the read request is not recorded.
- UrlCoding.Unquote: `%XX` decodes to the single character with that code. UTF-8 decoding of multi-byte sequences is not modelled.
- PathNames.Suffix: follows pathlib's rule before Python 3.14. A final component ending in `.` has the empty suffix.
- Store.KeyFrom: DynamoDB's key validation is reduced to "both key parts are non-empty strings".
- PostCard.LengthOf: an object with a `length` member of its own is not modelled; objects have no length.
- The card's rendering is not modelled. That covers the `Card.Img`, the badges, alerts, console output, the `removePost`/`updatePost` callbacks and the 5-second refresh timer. A string-valued `labels` passes the section test but `labels.map` would throw while rendering; the model stops at the section test.
- The card's handlers run to completion with the replies as inputs. Interleaving of asynchronous handlers, and the moment in between when `uploading` is set, are not modelled.
- The progress bar's interval timer and its clearing on unmount are not modelled; each callback is one `Step`.
- SeedImport.BatchWrite: the batch writer's buffering of up to 25 rows per request is not modelled, and neither are its rejection of a whole request or its duplicate-key error. A row without a non-empty string `user` and `id` ends the batch after the rows before it.
- SeedImport.EntryLines: for a failed upload the script prints the attempt line and then the error line; the model merges them into one `UploadFailed` entry.
- The directory walk and file reads are inputs. Only `dirpath` and `filenames` are used, with `/` as the path separator.
- Concurrency between a client upload, its storage event and other requests is not modelled.
- terraform/data.py is not part of this model. Its `image` paths follow the layout that `Pipeline.SeedObjectKeyParsed` describes.
- webapp/src/index.js is not part of this model.

## Findings

| source | as written | input that shows it | evidently intended | confidence | as-written member | corrected member |
|---|---|---|---|---|---|---|
| webservice/app.py:259 | `getSignedUrl` takes five parameters but is called with four | any request to `/signedUrlPut` | the configured bucket is passed as the fifth argument | not executed | SignedUrl.SignedUrlPutEndpoint | SignedUrl.SignedUrlPutEndpointFixed |
| webservice/app.py:101 | `except ClientError` runs with `ClientError` never imported, so any signer failure raises NameError | object name `"k"` with a signer that fails | the failure is logged and `None` returned | not executed | PostService.PresignFailureRaises | PostService.CreatePresignedUrlFixed |
| webservice/app.py:195 | only `{'S': x}` entries are kept, but the worker stores plain strings | stored labels `["Dog"]` | plain-string labels are kept | not executed | PostService.PlainStringLabelsDropped | PostService.PlainStringLabelsKept |
| terraform/lambda/lambda_function.py:86-106 | the update uses `USER#`/`POST#` keys with no condition, while posts are created under unprefixed keys | post `(u, p)` created; image uploaded as `u/p/x.jpg` | the created post `(u, p)` is updated if it exists | not executed | Pipeline.EnrichmentMissesCreatedPost | Pipeline.FixedEnrichmentUpdatesCreatedPost |
| webapp/src/components/Post.js:140 | the card tests `image_s3_key`, an attribute nothing writes; the listing returns `image` | any listed post, e.g. one whose `image` is a URL | the card tests `image` | not executed | Pipeline.CardAlwaysOffersUpload | Pipeline.FixedPipelineShowsLabels |
