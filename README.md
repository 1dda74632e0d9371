# HLS request pipeline: a Dafny model

This project models the core of a small HTTP service (`index.ts`). The service
takes a request naming an audio object in a cloud bucket and works on it in a
fresh workspace directory. It downloads the object there, converts it to an
HLS playlist (`<token>.m3u8`) with its segments, and uploads the workspace's
files to the bucket under a folder named after the workspace. It then answers
with the playlist's path `<uuid>/<token>.m3u8` and removes the workspace.

The model has three parts. All I/O, randomness and the external engines are
replaced by inputs.

- `Paths` (`paths.dfy`): `normalizePath`, the rewrite of every `\` into `/`.
  Its contract gives the character-wise mapping and proves there is no
  backslash in the result. Lemmas prove idempotence, that it fixes exactly
  the backslash-free strings, that it distributes over concatenation, and
  that a key built as `folder + "/" + name` lies under `normalizePath(folder) + "/"`.
- `Publisher` (`publisher.dfy`): the per-entry loop of
  `uploadFolderToCloudStorage`, as a method with a `for` loop that grows the
  `uploadedFiles` sequence. The directory listing is a sequence of entries:
  a directory, an entry whose `stat` fails, or a regular file that carries
  how each step of its upload ends. The steps are the resumable session,
  the PUT and the signed URL. The method is proved against the specification
  function `Publish`. Lemmas about `Publish` state four things:
  - directories are skipped before any upload starts;
  - the result is exactly the files whose three steps succeed, in listing order;
  - an upload failure is swallowed;
  - a `stat` failure aborts the call.
- `RequestAudio` (`request_audio.dfy`): the `/api/request-audio` handler as a
  method that returns the response it sends and the effects it performs, in
  order. Its inputs are the `fileName` field of the body (any JSON value, so
  JavaScript truthiness is explicit), the two generated tokens, and how each
  stage ends. The stages are `ensureDir`, signing the source URL, the
  download, the conversion and the directory listing the publish step sees.
  The handler is proved against
  `StopStage` (the first stage that fails), `ResponseAt` and `Trace`. Lemmas
  about `Trace` state the ordering guarantees:
  - validation comes first;
  - exactly one response is sent;
  - the workspace is created before any storage call;
  - the source is removed before any upload;
  - every upload lies in the workspace's folder;
  - the workspace is removed only on success, after the response.

Facts about the code that the model keeps as written:
- The workspace is removed only after a successful response
  (`index.ts:105`). Every failure path leaves it on disk.
  `CleanupOnlyAfterSuccess` states this.
- Objects are keyed `normalizePath(folderId + "/" + file)` (`index.ts:144`),
  and the model uses that key.
- A truthy `fileName` that is not a string (a number, `true`, an object)
  passes validation (`index.ts:24`). The workspace is then created, and
  `path.join` (`index.ts:37`) throws a `TypeError` that the outer `catch`
  turns into 500 "Internal server error" (`index.ts:117-119`).
- Once the conversion succeeds and the listing is readable, a request
  answers 200 with the playlist path (`index.ts:100-102`) whether or not
  the playlist itself was uploaded (`SuccessWithoutPublishedManifest`).

## Model

| member | source | states |
|---|---|---|
| `Paths.NormalizePath` | index.ts:124 | the result has the input's length, a `/` wherever the input has a `\`, every other character unchanged at its position, and no backslash at all |
| `Paths.NormalizeIdempotent` | index.ts:124 | normalising a normalised path changes nothing |
| `Paths.NormalizeFixesSlashFree` | index.ts:124 | a path is returned unchanged exactly when it contains no backslash |
| `Paths.NormalizeConcat` | index.ts:124 | normalising a concatenation is concatenating the normalised parts |
| `Paths.NormalizedKeyInFolder` | index.ts:144 | `normalizePath(folderId + "/" + file)` always starts with `normalizePath(folderId) + "/"` |
| `Publisher.ObjectKey` | index.ts:144 | the bucket key of a listed file: `normalizePath(folderId + "/" + file)` |
| `Publisher.Publish` | index.ts:127-195 | the outcome of a whole call: readdir failure, the first `stat` failure with the keys started before it, or the returned list with every started key |
| `Publisher.StatReach` | index.ts:135-137 | the position of the first entry whose `stat` fails (or the listing's length): no entry before it fails, and the entry there does |
| `Publisher.UploadFolderToCloudStorage` | index.ts:127-195 | the loop returns the readdir failure, or the first stat failure with the keys started before it, or the list `Published(entries)` with the keys of all regular files; the loop invariants carry the list and keys built so far |
| `Publisher.PublishedAppend` | index.ts:135-192 | the returned list of a concatenated listing is the concatenation of the returned lists, so files keep listing order |
| `Publisher.PublishedMembership` | index.ts:150-191 | `{fileName, url}` is returned exactly when a listed regular file of that name got its session, its PUT and its signed URL, and `url` is that signed URL |
| `Publisher.FailedUploadSkipped` | index.ts:139-191 | a directory or a file whose upload fails contributes nothing, and the files around it are returned as if it were absent |
| `Publisher.AttemptedKeysAppend` | index.ts:135-151 | the keys uploads are started under, for a concatenated listing, are the concatenation of the keys |
| `Publisher.AttemptedKeysMembership` | index.ts:139-151 | an upload is started under a key exactly when a listed regular file has that key; directories never reach an upload |
| `Publisher.AttemptedKeysInFolder` | index.ts:144-148 | every key an upload is started under begins with `normalizePath(folderId) + "/"` |
| `Publisher.PublishSucceeds` | index.ts:132-194 | the call returns a list exactly when `readdir` works and no `stat` fails, and the list is `Published(entries)` |
| `Publisher.StatFailureAborts` | index.ts:137-150 | a `stat` failure, whatever follows it, makes the call fail with that entry, having started uploads only for the files before it |
| `Publisher.UploadFailureSwallowed` | index.ts:150-191 | a regular file whose upload fails changes neither the verdict nor the returned list of the call |
| `RequestAudio.Truthy` | index.ts:24 | JavaScript truthiness of the `fileName` field: an absent field, `null`, `false`, `0` and `""` are falsy; every other value (including any object or array) is truthy |
| `RequestAudio.StopStage` | index.ts:22-121 | the first stage at which a request stops: validation, `ensureDir`, `path.join`, sign/GET, the write stream, the conversion, the publish step, or completion |
| `RequestAudio.Trace` | index.ts:22-121 | the effects a request performs, in order, for each stopping stage |
| `RequestAudio.FinishStage` | index.ts:66-110 | where the "finish" callback stops: the conversion, the publish step, or completion |
| `RequestAudio.FinishTrace` | index.ts:66-110 | the effects of the "finish" callback: transcode, then on success remove the source, one upload per started key, and the response (with the workspace removal after a 200) |
| `RequestAudio.ResponseAt` | index.ts:24-119 | the status is 200 exactly on completion, 400 exactly when validation fails, 500 otherwise |
| `RequestAudio.OnSourceWritten` | index.ts:66-110 | the "finish" callback answers 500 "Error during processing" on a conversion or publish failure, and 200 with the playlist path otherwise; its effects are `FinishTrace` |
| `RequestAudio.SourceWrittenTrace` | index.ts:62-78 | once the source file is written, the rest of the request is exactly the "finish" callback: it stops where `FinishStage` says, and its effects follow create, sign and write |
| `RequestAudio.HandleRequestAudio` | index.ts:22-121 | the handler sends `ResponseAt(StopStage(...))` and performs exactly the effects `Trace(...)` |
| `RequestAudio.PublishedTraceAt` | index.ts:78-105 | a request that reaches the publish step performs, in order: create, sign, write, transcode, remove source, one upload per started key, respond, and on success remove the workspace |
| `RequestAudio.ValidationComesFirst` | index.ts:23-26 | a falsy `fileName` is answered 400 `{error: "fileName is required"}` and nothing else happens |
| `RequestAudio.RespondsExactlyOnce` | index.ts:22-121 | every request receives exactly one response, the one `ResponseAt` gives |
| `RequestAudio.WorkspaceComesFirst` | index.ts:29-63 | the workspace is created, as the first effect, exactly when `fileName` is truthy and `ensureDir` succeeds; signing, writing and uploading happen only after it |
| `RequestAudio.SourceRemovedBeforeUpload` | index.ts:78-99 | every upload follows the conversion and the removal of the source file, and lies in the workspace's folder of the bucket |
| `RequestAudio.CleanupOnlyAfterSuccess` | index.ts:95-119 | the workspace is removed only on success, as the last effect, right after the 200 response; every failure leaves it in place |
| `RequestAudio.ConversionFailureStopsEarly` | index.ts:87-109 | a failing conversion answers 500 "Error during processing", with no upload, no removal of the source and no removal of the workspace |
| `RequestAudio.SuccessWithoutPublishedManifest` | index.ts:95-102 | for every request that reaches the publish step with a readable listing, whatever the listing holds: if no listed entry named `<token>.m3u8` uploads, the request still answers 200 with `<dir>/<token>.m3u8`, and no published file has that name |

## Left out

- Express setup, CORS, JSON parsing, `init`, `app.listen` and console logging (index.ts:13-20, 197-199) are framework glue with no behaviour to state.
- Firebase URL signing, `createResumableUpload` and the axios GET and PUT streams are modelled only as a success or failure per stage. A read-stream error during a PUT counts as a failing PUT. The expiry `"03-09-2491"` is a constant. The per-file signing calls of the publish step are not recorded as effects.
- ffmpeg is an external engine: only whether it emits `"end"` or `"error"` is modelled. The options (`-start_number 0`, `-hls_time 10`, `-hls_list_size 0`, `-f hls`), the segment files it writes and their number are not. The listing the publish step sees is an input.
- File-system semantics are inputs: `ensureDir`, `readdir`, `stat`, `path.join` (including the path traversal a caller-supplied `fileName` allows), and the order of the listing.
- `crypto.randomBytes(16).toString("hex")` and `uuidv4()` are parameters, so the token's hex format and the uniqueness of workspace names are not modelled.
- Concurrency and event timing are not modelled. This covers interleaving between requests, the unhandled error of the response stream piped at index.ts:63, and the second response if `fs.remove` at index.ts:105 throws after `res.json`. Each stage is one atomic outcome.
- `fs.remove` at index.ts:82 and index.ts:105 always succeeds in the model. A failure at line 82 would reject inside the `"end"` handler, leave the conversion promise unsettled and the request unanswered.
- A JSON number in `fileName` is a `real`, so its truthiness is `n != 0`. JSON cannot carry `NaN`.
