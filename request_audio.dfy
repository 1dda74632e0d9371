/**
 * The `/api/request-audio` handler of index.ts as a straight-line sequence
 * of effects: validate `fileName`, create the workspace directory, sign and
 * download the source, transcode it to HLS, remove the source, publish the
 * workspace, respond, and remove the workspace.
 *
 * Randomness (the hex token and the uuid directory name) and every I/O call
 * are inputs: `Stages` says how each stage ends, and the directory listing
 * the publish step sees is given as a listing of `Publisher` entries. The
 * handler returns the response it sends and the effects it performs, in
 * order.
 */
module RequestAudio {
  import opened Wrappers
  import opened Paths
  import opened Publisher

  const FileNameRequired: string := "fileName is required"
  const InternalServerError: string := "Internal server error"
  const ErrorDownloading: string := "Error downloading file"
  const ErrorProcessing: string := "Error during processing"
  const ManifestExtension: string := ".m3u8"

  /** The JSON value found under `fileName` in the request body (Absent: the key is missing). */
  datatype Field =
    | Absent
    | Null
    | Bool(b: bool)
    | Number(n: real)
    | JString(s: string)
    | Structured  // an object or an array

  /** JavaScript truthiness of the field, as tested by `!fileName`. */
  predicate Truthy(f: Field) {
    match f
    case Absent => false
    case Null => false
    case Bool(b) => b
    case Number(n) => n != 0.0
    case JString(s) => s != ""
    case Structured => true
  }

  datatype Body =
    | ErrorJson(error: string)   // `res.json({ error })`
    | HlsJson(hlsUrl: string)    // `res.json({ hlsUrl })`
    | PlainText(text: string)    // `res.send(text)`

  datatype Response = Response(status: int, body: Body)

  /** How the download ends: the GET is refused, the write stream errors, or it finishes. */
  datatype Download = RequestFailed | WriteFailed | Written

  /** How each I/O stage of the handler ends. */
  datatype Stages = Stages(
    dirCreated: bool,              // fs.ensureDir of the workspace
    sourceSigned: bool,            // getSignedUrl for the source object
    download: Download,            // axios GET piped into the local file
    converted: bool,               // ffmpeg emits "end" rather than "error"
    listing: Option<seq<Entry>>)   // readdir of the workspace after conversion

  /** The observable effects of the handler, on the workspace, the store and the client. */
  datatype Effect =
    | MakeDir(dir: string)                      // the workspace hls_output/<dir> exists
    | SignSource(fileName: string, expires: string)
    | WriteSource(fileName: string)             // the download stream into the workspace is opened
    | Transcode(manifest: string)
    | RemoveSource(fileName: string)
    | Upload(key: string)                       // a resumable upload is started under key
    | Respond(status: int)
    | RemoveDir(dir: string)

  /** The manifest name `${token}.m3u8`. */
  function ManifestName(token: string): string {
    token + ManifestExtension
  }

  /** The upload effects of the publish step, one per attempted key. */
  function UploadEffects(keys: seq<string>): seq<Effect> {
    seq(|keys|, i requires 0 <= i < |keys| => Upload(keys[i]))
  }

  /** The publish step returns its list: `readdir` works and no `stat` fails. */
  predicate ListingPublishable(listing: Option<seq<Entry>>) {
    listing.Some? && forall i :: 0 <= i < |listing.value| ==> !listing.value[i].kind.StatFails?
  }

  /** Exactly one response is sent, and it carries `status`. */
  predicate RespondsOnce(effects: seq<Effect>, status: int) {
    exists i :: 0 <= i < |effects| && effects[i] == Respond(status) &&
      forall j :: 0 <= j < |effects| && j != i ==> !effects[j].Respond?
  }

  /** The stage at which a request stops: the first one that fails, or Completed. */
  datatype Stage =
    | Validating          // fileName is falsy
    | CreatingWorkspace   // ensureDir fails
    | JoiningPath         // path.join rejects a non-string fileName
    | Fetching            // the source cannot be signed or requested
    | Writing             // the local write stream errors
    | Transcoding         // ffmpeg reports an error
    | Publishing          // readdir or a stat of the publish step fails
    | Completed

  /** Where the request stops, given how each stage ends. */
  function StopStage(fileName: Field, stages: Stages): Stage {
    if !Truthy(fileName) then Validating
    else if !stages.dirCreated then CreatingWorkspace
    else if !fileName.JString? then JoiningPath
    else if !stages.sourceSigned || stages.download == RequestFailed then Fetching
    else if stages.download == WriteFailed then Writing
    else if !stages.converted then Transcoding
    else if !ListingPublishable(stages.listing) then Publishing
    else Completed
  }

  /** The response the handler sends for a request that stops at `stage`. */
  function ResponseAt(stage: Stage, hlsUrl: string): (r: Response)
    ensures r.status == 200 <==> stage == Completed
    ensures r.status == 400 <==> stage == Validating
    ensures r.status == 200 || r.status == 400 || r.status == 500
  {
    match stage
    case Validating => Response(400, ErrorJson(FileNameRequired))
    case CreatingWorkspace => Response(500, PlainText(InternalServerError))
    case JoiningPath => Response(500, PlainText(InternalServerError))
    case Fetching => Response(500, PlainText(InternalServerError))
    case Writing => Response(500, PlainText(ErrorDownloading))
    case Transcoding => Response(500, PlainText(ErrorProcessing))
    case Publishing => Response(500, PlainText(ErrorProcessing))
    case Completed => Response(200, HlsJson(hlsUrl))
  }

  /** The `hlsUrl` a successful request answers with. */
  function HlsUrl(token: string, uniqueDirName: string): string {
    uniqueDirName + "/" + ManifestName(token)
  }

  /** Where a request whose source was written stops. */
  function FinishStage(converted: bool, listing: Option<seq<Entry>>): Stage {
    if !converted then Transcoding
    else if !ListingPublishable(listing) then Publishing
    else Completed
  }

  /** The effects of the "finish" callback of the download stream. */
  function FinishTrace(name: string, token: string, uniqueDirName: string,
                       converted: bool, listing: Option<seq<Entry>>): seq<Effect> {
    if !converted then [Transcode(ManifestName(token)), Respond(500)]
    else [Transcode(ManifestName(token)), RemoveSource(name)]
         + UploadEffects(Publish(uniqueDirName, listing).attempted)
         + (if ListingPublishable(listing) then [Respond(200), RemoveDir(uniqueDirName)] else [Respond(500)])
  }

  /** The effects of a request, in order, by the stage at which it stops. */
  function Trace(fileName: Field, token: string, uniqueDirName: string, stages: Stages): seq<Effect> {
    match StopStage(fileName, stages)
    case Validating => [Respond(400)]
    case CreatingWorkspace => [Respond(500)]
    case JoiningPath => [MakeDir(uniqueDirName), Respond(500)]
    case Fetching => [MakeDir(uniqueDirName), SignSource(fileName.s, SignedUrlExpiry), Respond(500)]
    case Writing =>
      [MakeDir(uniqueDirName), SignSource(fileName.s, SignedUrlExpiry), WriteSource(fileName.s), Respond(500)]
    case _ =>
      [MakeDir(uniqueDirName), SignSource(fileName.s, SignedUrlExpiry), WriteSource(fileName.s)]
      + FinishTrace(fileName.s, token, uniqueDirName, stages.converted, stages.listing)
  }

  /**
   * The "finish" callback of the download stream: convert, remove the
   * source, publish the workspace, respond, then remove the workspace.
   */
  method OnSourceWritten(name: string, token: string, uniqueDirName: string,
                         converted: bool, listing: Option<seq<Entry>>)
    returns (response: Response, effects: seq<Effect>)
    ensures response == ResponseAt(FinishStage(converted, listing), HlsUrl(token, uniqueDirName))
    ensures effects == FinishTrace(name, token, uniqueDirName, converted, listing)
  {
    var hlsFileName := ManifestName(token);
    if !converted {
      // ffmpeg "error": the promise rejects into the catch of the callback.
      return Response(500, PlainText(ErrorProcessing)), [Transcode(hlsFileName), Respond(500)];
    }
    // ffmpeg "end": the source is removed before the promise resolves.
    effects := [Transcode(hlsFileName), RemoveSource(name)];
    var result, attempted := UploadFolderToCloudStorage(uniqueDirName, listing);
    PublishSucceeds(uniqueDirName, listing);
    effects := effects + UploadEffects(attempted);
    if result.Failure? {
      response := Response(500, PlainText(ErrorProcessing));
      effects := effects + [Respond(500)];
    } else {
      response := Response(200, HlsJson(uniqueDirName + "/" + hlsFileName));
      effects := effects + [Respond(200), RemoveDir(uniqueDirName)];
    }
  }

  /** Once the source is written, the request's stage and trace are those of the "finish" callback. */
  lemma SourceWrittenTrace(name: string, token: string, uniqueDirName: string, stages: Stages)
    requires name != "" && stages.dirCreated && stages.sourceSigned && stages.download == Written
    ensures StopStage(JString(name), stages) == FinishStage(stages.converted, stages.listing)
    ensures Trace(JString(name), token, uniqueDirName, stages) ==
      [MakeDir(uniqueDirName), SignSource(name, SignedUrlExpiry), WriteSource(name)]
      + FinishTrace(name, token, uniqueDirName, stages.converted, stages.listing)
  {
  }

  /** The request handler, with the outcome of every stage given. */
  method HandleRequestAudio(fileName: Field, token: string, uniqueDirName: string, stages: Stages)
    returns (response: Response, effects: seq<Effect>)
    ensures response == ResponseAt(StopStage(fileName, stages), HlsUrl(token, uniqueDirName))
    ensures effects == Trace(fileName, token, uniqueDirName, stages)
  {
    if !Truthy(fileName) {
      assert StopStage(fileName, stages) == Validating;
      return Response(400, ErrorJson(FileNameRequired)), [Respond(400)];
    }
    // try {
    if !stages.dirCreated {
      assert StopStage(fileName, stages) == CreatingWorkspace;
      return Response(500, PlainText(InternalServerError)), [Respond(500)];
    }
    var workspace := MakeDir(uniqueDirName);
    if !fileName.JString? {
      // path.join rejects a non-string fileName with a TypeError.
      assert StopStage(fileName, stages) == JoiningPath;
      return Response(500, PlainText(InternalServerError)), [workspace, Respond(500)];
    }
    var name := fileName.s;
    var sign := SignSource(name, SignedUrlExpiry);
    if !stages.sourceSigned || stages.download == RequestFailed {
      assert StopStage(fileName, stages) == Fetching;
      return Response(500, PlainText(InternalServerError)), [workspace, sign, Respond(500)];
    }
    var write := WriteSource(name);
    if stages.download == WriteFailed {
      // fileStream "error"
      assert StopStage(fileName, stages) == Writing;
      return Response(500, PlainText(ErrorDownloading)), [workspace, sign, write, Respond(500)];
    }
    // fileStream "finish"
    var finish;
    response, finish := OnSourceWritten(name, token, uniqueDirName, stages.converted, stages.listing);
    SourceWrittenTrace(name, token, uniqueDirName, stages);
    effects := [workspace, sign, write] + finish;
  }

  // ---------------------------------------------------------------------
  // Properties of the handler's trace
  // ---------------------------------------------------------------------

  /**
   * Shape of the trace of a request that reaches the publish step: the five
   * effects up to the source removal, one upload per attempted key, then the
   * response (and on success the workspace removal).
   */
  lemma PublishedTraceAt(fileName: Field, token: string, uniqueDirName: string, stages: Stages)
    requires StopStage(fileName, stages) in {Publishing, Completed}
    ensures var t := Trace(fileName, token, uniqueDirName, stages);
      var keys := Publish(uniqueDirName, stages.listing).attempted;
      && |t| == 5 + |keys| + (if StopStage(fileName, stages) == Completed then 2 else 1)
      && t[..5] == [MakeDir(uniqueDirName), SignSource(fileName.s, SignedUrlExpiry), WriteSource(fileName.s),
                    Transcode(ManifestName(token)), RemoveSource(fileName.s)]
      && (forall i :: 5 <= i < 5 + |keys| ==> t[i] == Upload(keys[i - 5]))
      && t[5 + |keys|] == Respond(ResponseAt(StopStage(fileName, stages), HlsUrl(token, uniqueDirName)).status)
      && (StopStage(fileName, stages) == Completed ==> t[|t| - 1] == RemoveDir(uniqueDirName))
  {
  }

  /** A falsy fileName is answered with 400 before any other effect: no workspace, no storage call. */
  lemma ValidationComesFirst(fileName: Field, token: string, uniqueDirName: string, stages: Stages)
    requires !Truthy(fileName)
    ensures ResponseAt(StopStage(fileName, stages), HlsUrl(token, uniqueDirName)) ==
      Response(400, ErrorJson("fileName is required"))
    ensures Trace(fileName, token, uniqueDirName, stages) == [Respond(400)]
  {
  }

  /** Whatever happens, exactly one response is sent, and it is the one `ResponseAt` gives. */
  lemma RespondsExactlyOnce(fileName: Field, token: string, uniqueDirName: string, stages: Stages)
    ensures RespondsOnce(Trace(fileName, token, uniqueDirName, stages),
                         ResponseAt(StopStage(fileName, stages), HlsUrl(token, uniqueDirName)).status)
  {
    var t := Trace(fileName, token, uniqueDirName, stages);
    var status := ResponseAt(StopStage(fileName, stages), HlsUrl(token, uniqueDirName)).status;
    var stage := StopStage(fileName, stages);
    if stage in {Publishing, Completed} {
      PublishedTraceAt(fileName, token, uniqueDirName, stages);
      var n := |t| - (if stage == Completed then 2 else 1);
      assert t[n] == Respond(status);
      assert forall j :: 0 <= j < |t| && j != n ==> !t[j].Respond? by {
        forall j | 0 <= j < |t| && j != n ensures !t[j].Respond? {
          if j < 5 { assert t[j] == t[..5][j]; }
        }
      }
    } else {
      assert t[|t| - 1] == Respond(status);
    }
  }

  /**
   * The workspace is created, as the first effect, exactly when fileName is
   * truthy and ensureDir succeeds; storage is signed against and written to
   * only after that.
   */
  lemma WorkspaceComesFirst(fileName: Field, token: string, uniqueDirName: string, stages: Stages)
    ensures var t := Trace(fileName, token, uniqueDirName, stages);
      && ((|t| > 0 && t[0] == MakeDir(uniqueDirName)) <==> Truthy(fileName) && stages.dirCreated)
      && forall i :: 0 <= i < |t| && (t[i].SignSource? || t[i].WriteSource? || t[i].Upload?) ==>
           0 < i && t[0] == MakeDir(uniqueDirName)
  {
  }

  /**
   * The source file is removed, after the conversion, before any upload
   * starts, and every upload lies in the workspace's folder of the store.
   */
  lemma SourceRemovedBeforeUpload(fileName: Field, token: string, uniqueDirName: string, stages: Stages)
    ensures var t := Trace(fileName, token, uniqueDirName, stages);
      forall i :: 0 <= i < |t| && t[i].Upload? ==>
        && fileName.JString? && 4 < i
        && t[3] == Transcode(ManifestName(token)) && t[4] == RemoveSource(fileName.s)
        && NormalizePath(uniqueDirName) + "/" <= t[i].key
  {
    var t := Trace(fileName, token, uniqueDirName, stages);
    if StopStage(fileName, stages) in {Publishing, Completed} {
      PublishedTraceAt(fileName, token, uniqueDirName, stages);
      var keys := Publish(uniqueDirName, stages.listing).attempted;
      if stages.listing.Some? {
        var entries := stages.listing.value;
        AttemptedKeysInFolder(uniqueDirName, entries);
        AttemptedKeysInFolder(uniqueDirName, entries[..StatReach(entries)]);
      }
      assert t[3] == t[..5][3] && t[4] == t[..5][4];
      forall i | 0 <= i < |t| && t[i].Upload?
        ensures NormalizePath(uniqueDirName) + "/" <= t[i].key
      {
        assert 5 <= i < 5 + |keys|;
        assert keys[i - 5] in keys;
      }
    }
  }

  /**
   * The workspace is removed only on success, as the very last effect,
   * right after the response: a failed request leaves its workspace behind.
   */
  lemma CleanupOnlyAfterSuccess(fileName: Field, token: string, uniqueDirName: string, stages: Stages)
    ensures var t := Trace(fileName, token, uniqueDirName, stages);
      && (forall i :: 0 <= i < |t| && t[i].RemoveDir? ==>
            StopStage(fileName, stages) == Completed && i == |t| - 1)
      && (StopStage(fileName, stages) == Completed ==>
            |t| >= 2 && t[|t| - 2] == Respond(200) && t[|t| - 1] == RemoveDir(uniqueDirName))
  {
  }

  /**
   * A failing conversion answers 500 "Error during processing": nothing is
   * uploaded, the source file stays and the workspace is not removed.
   */
  lemma ConversionFailureStopsEarly(fileName: Field, token: string, uniqueDirName: string, stages: Stages)
    requires StopStage(fileName, stages) == Transcoding
    ensures ResponseAt(StopStage(fileName, stages), HlsUrl(token, uniqueDirName)) ==
      Response(500, PlainText("Error during processing"))
    ensures var t := Trace(fileName, token, uniqueDirName, stages);
      forall i :: 0 <= i < |t| ==> !t[i].Upload? && !t[i].RemoveSource? && !t[i].RemoveDir?
  {
  }

  /**
   * The publish step is best effort all the way up: once the conversion
   * succeeds and the listing is readable, a request answers 200 with the
   * manifest's URL even when no upload of the manifest succeeded, and then
   * the manifest is not among the published files.
   */
  lemma SuccessWithoutPublishedManifest(name: string, token: string, uniqueDirName: string, stages: Stages)
    requires name != "" && stages.dirCreated && stages.sourceSigned && stages.download == Written
    requires stages.converted && ListingPublishable(stages.listing)
    requires forall e :: e in stages.listing.value && e.name == ManifestName(token) ==> !Uploads(e.kind)
    ensures ResponseAt(StopStage(JString(name), stages), HlsUrl(token, uniqueDirName)) ==
              Response(200, HlsJson(uniqueDirName + "/" + token + ".m3u8"))
    ensures forall u :: u in Publish(uniqueDirName, stages.listing).result.value ==>
              u.fileName != ManifestName(token)
  {
    assert HlsUrl(token, uniqueDirName) == uniqueDirName + "/" + token + ".m3u8";
    var entries := stages.listing.value;
    forall u | u in Publish(uniqueDirName, stages.listing).result.value
      ensures u.fileName != ManifestName(token)
    {
      PublishedMembership(entries, u);
    }
  }
}
