/**
 * The publish step (`uploadFolderToCloudStorage` in index.ts): list the
 * workspace one level deep, skip directories, and for every regular file
 * open a resumable upload under `normalizePath(folderId + "/" + name)`,
 * stream the bytes with a PUT and request a signed read URL. A failure in
 * any of those three steps is caught and the loop moves on to the next file;
 * a failing `stat` happens outside the `try` and aborts the whole call.
 *
 * The file system and the object store are replaced by the listing they
 * would produce: each entry says what `stat` and the upload steps do for it.
 */
module Publisher {
  import opened Wrappers
  import opened Paths

  /** Expiry date passed with every signed read URL request. */
  const SignedUrlExpiry: string := "03-09-2491"

  /** What the file system and the object store do for one listed entry. */
  datatype EntryKind =
    | Directory
    | StatFails
    | File(sessionCreated: bool, putSucceeded: bool, signedUrl: Option<string>)

  datatype Entry = Entry(name: string, kind: EntryKind)

  /** One element of the returned `uploadedFiles` array. */
  datatype UploadedFile = UploadedFile(fileName: string, url: string)

  datatype PublishError = ReadDirFailed | StatFailed(name: string)

  /** The returned list (or the escaping error) and the keys for which an upload was started. */
  datatype Run = Run(result: Result<seq<UploadedFile>, PublishError>, attempted: seq<string>)

  /** The object key a file is uploaded under. */
  function ObjectKey(folderId: string, name: string): string {
    NormalizePath(folderId + "/" + name)
  }

  /** All three steps of the `try` block succeed for this entry. */
  predicate Uploads(k: EntryKind) {
    k.File? && k.sessionCreated && k.putSucceeded && k.signedUrl.Some?
  }

  /** The contribution of one entry to `uploadedFiles`. */
  function PublishedOne(e: Entry): seq<UploadedFile> {
    if Uploads(e.kind) then [UploadedFile(e.name, e.kind.signedUrl.value)] else []
  }

  /** The files that reach `uploadedFiles.push`, in listing order. */
  function Published(entries: seq<Entry>): seq<UploadedFile> {
    if entries == [] then []
    else Published(entries[..|entries| - 1]) + PublishedOne(entries[|entries| - 1])
  }

  /** The contribution of one entry to the keys an upload is started for. */
  function KeyOf(folderId: string, e: Entry): seq<string> {
    if e.kind.File? then [ObjectKey(folderId, e.name)] else []
  }

  /** The keys of the regular files, in listing order. */
  function AttemptedKeys(folderId: string, entries: seq<Entry>): seq<string> {
    if entries == [] then []
    else AttemptedKeys(folderId, entries[..|entries| - 1]) + KeyOf(folderId, entries[|entries| - 1])
  }

  /** The position of the first entry whose `stat` fails, or the length of the listing. */
  function StatReach(entries: seq<Entry>): (k: nat)
    ensures k <= |entries|
    ensures forall j :: 0 <= j < k ==> !entries[j].kind.StatFails?
    ensures k < |entries| ==> entries[k].kind.StatFails?
  {
    if entries == [] then 0
    else if entries[0].kind.StatFails? then 0
    else 1 + StatReach(entries[1..])
  }

  /** What one call of the publish step returns and attempts, for a listing (None: `readdir` fails). */
  function Publish(folderId: string, listing: Option<seq<Entry>>): Run {
    match listing
    case None => Run(Failure(ReadDirFailed), [])
    case Some(entries) =>
      var k := StatReach(entries);
      if k < |entries| then
        Run(Failure(StatFailed(entries[k].name)), AttemptedKeys(folderId, entries[..k]))
      else
        Run(Success(Published(entries)), AttemptedKeys(folderId, entries))
  }

  /** The loop of `uploadFolderToCloudStorage` over the directory listing. */
  method UploadFolderToCloudStorage(folderId: string, listing: Option<seq<Entry>>)
    returns (result: Result<seq<UploadedFile>, PublishError>, attempted: seq<string>)
    ensures Run(result, attempted) == Publish(folderId, listing)
  {
    if listing.None? {
      return Failure(ReadDirFailed), [];
    }
    var files := listing.value;
    var uploadedFiles: seq<UploadedFile> := [];
    attempted := [];
    for i := 0 to |files|
      invariant forall j :: 0 <= j < i ==> !files[j].kind.StatFails?
      invariant uploadedFiles == Published(files[..i])
      invariant attempted == AttemptedKeys(folderId, files[..i])
    {
      var file := files[i];
      assert files[..i + 1][..i] == files[..i];
      if file.kind.StatFails? {
        assert StatReach(files) == i;
        return Failure(StatFailed(file.name)), attempted;
      }
      if file.kind.Directory? {
        continue;
      }
      var cloudFilePath := ObjectKey(folderId, file.name);
      attempted := attempted + [cloudFilePath];
      if file.kind.sessionCreated && file.kind.putSucceeded {
        match file.kind.signedUrl
        case Some(url) =>
          uploadedFiles := uploadedFiles + [UploadedFile(file.name, url)];
        case None =>
      }
    }
    assert files[..|files|] == files;
    return Success(uploadedFiles), attempted;
  }

  // ---------------------------------------------------------------------
  // Properties of the specification
  // ---------------------------------------------------------------------

  /** The published list of a concatenated listing is the concatenation of the published lists. */
  lemma {:induction false} PublishedAppend(a: seq<Entry>, b: seq<Entry>)
    ensures Published(a + b) == Published(a) + Published(b)
    decreases |b|
  {
    if b == [] {
      assert a + b == a;
    } else {
      var last := b[|b| - 1];
      var init := b[..|b| - 1];
      assert (a + b)[..|a + b| - 1] == a + init;
      assert (a + b)[|a + b| - 1] == last;
      PublishedAppend(a, init);
    }
  }

  /**
   * A file is in the returned list exactly when some listed regular file of
   * that name got through the resumable upload, the PUT and the signing,
   * and the URL is the one it was signed with.
   */
  lemma {:induction false} PublishedMembership(entries: seq<Entry>, u: UploadedFile)
    ensures u in Published(entries) <==>
      exists i :: 0 <= i < |entries| && entries[i].name == u.fileName &&
        Uploads(entries[i].kind) && entries[i].kind.signedUrl.value == u.url
    decreases |entries|
  {
    if entries != [] {
      var n := |entries| - 1;
      var init := entries[..n];
      PublishedMembership(init, u);
      if u in Published(entries) && u !in Published(init) {
        assert u in PublishedOne(entries[n]);
      }
      if exists i :: 0 <= i < |entries| && entries[i].name == u.fileName &&
          Uploads(entries[i].kind) && entries[i].kind.signedUrl.value == u.url {
        var i :| 0 <= i < |entries| && entries[i].name == u.fileName &&
          Uploads(entries[i].kind) && entries[i].kind.signedUrl.value == u.url;
        if i < n {
          assert init[i] == entries[i];
        } else {
          assert u in PublishedOne(entries[n]);
        }
      }
    }
  }

  /**
   * Best effort: a file whose upload fails, or a directory, contributes
   * nothing, and the files around it are published as if it were absent.
   */
  lemma FailedUploadSkipped(a: seq<Entry>, e: Entry, b: seq<Entry>)
    requires !Uploads(e.kind)
    ensures Published(a + [e] + b) == Published(a) + Published(b)
  {
    PublishedAppend(a + [e], b);
    PublishedAppend(a, [e]);
    assert [e][..|[e]| - 1] == [];
    assert Published([e]) == [];
    assert Published(a + [e]) == Published(a);
  }

  /** The keys of a concatenated listing are the concatenation of the keys. */
  lemma {:induction false} AttemptedKeysAppend(folderId: string, a: seq<Entry>, b: seq<Entry>)
    ensures AttemptedKeys(folderId, a + b) == AttemptedKeys(folderId, a) + AttemptedKeys(folderId, b)
    decreases |b|
  {
    if b == [] {
      assert a + b == a;
    } else {
      var init := b[..|b| - 1];
      assert (a + b)[..|a + b| - 1] == a + init;
      assert (a + b)[|a + b| - 1] == b[|b| - 1];
      AttemptedKeysAppend(folderId, a, init);
    }
  }

  /**
   * An upload is started under a key exactly when a listed regular file has
   * that key: directories and entries whose stat fails never reach an upload.
   */
  lemma {:induction false} AttemptedKeysMembership(folderId: string, entries: seq<Entry>, key: string)
    ensures key in AttemptedKeys(folderId, entries) <==>
      exists i :: 0 <= i < |entries| && entries[i].kind.File? && key == ObjectKey(folderId, entries[i].name)
    decreases |entries|
  {
    if entries != [] {
      var n := |entries| - 1;
      var init := entries[..n];
      AttemptedKeysMembership(folderId, init, key);
      if key in AttemptedKeys(folderId, entries) && key !in AttemptedKeys(folderId, init) {
        assert key in KeyOf(folderId, entries[n]);
      }
      if exists i :: 0 <= i < |entries| && entries[i].kind.File? && key == ObjectKey(folderId, entries[i].name) {
        var i :| 0 <= i < |entries| && entries[i].kind.File? && key == ObjectKey(folderId, entries[i].name);
        if i < n {
          assert init[i] == entries[i];
        }
      }
    }
  }

  /** Every key an upload is started under lies in the folder `normalizePath(folderId) + "/"`. */
  lemma AttemptedKeysInFolder(folderId: string, entries: seq<Entry>)
    ensures forall key :: key in AttemptedKeys(folderId, entries) ==> NormalizePath(folderId) + "/" <= key
  {
  }

  /** The publish step returns a list exactly when the listing succeeds and no stat fails; the list is then `Published`. */
  lemma PublishSucceeds(folderId: string, listing: Option<seq<Entry>>)
    ensures Publish(folderId, listing).result.Success? <==>
      listing.Some? && forall i :: 0 <= i < |listing.value| ==> !listing.value[i].kind.StatFails?
    ensures Publish(folderId, listing).result.Success? ==>
      Publish(folderId, listing).result.value == Published(listing.value)
  {
  }

  /**
   * A stat failure is not swallowed: whatever follows it, the call fails with
   * that entry's name, after starting uploads only for the files before it.
   */
  lemma StatFailureAborts(folderId: string, a: seq<Entry>, name: string, b: seq<Entry>)
    requires forall i :: 0 <= i < |a| ==> !a[i].kind.StatFails?
    ensures Publish(folderId, Some(a + [Entry(name, StatFails)] + b)) ==
      Run(Failure(StatFailed(name)), AttemptedKeys(folderId, a))
  {
    var entries := a + [Entry(name, StatFails)] + b;
    assert entries[|a|] == Entry(name, StatFails);
    assert StatReach(entries) == |a|;
    assert entries[..|a|] == a;
  }

  /**
   * An upload failure, by contrast, is swallowed: a regular file whose upload
   * fails changes neither the verdict nor the returned list of the call.
   */
  lemma UploadFailureSwallowed(folderId: string, a: seq<Entry>, e: Entry, b: seq<Entry>)
    requires e.kind.File? && !Uploads(e.kind)
    ensures Publish(folderId, Some(a + [e] + b)).result == Publish(folderId, Some(a + b)).result
  {
    var with := a + [e] + b;
    var without := a + b;
    var k := StatReach(without);
    if k < |without| {
      var k' := if k < |a| then k else k + 1;
      assert with[k'] == without[k];
      forall j | 0 <= j < k' ensures !with[j].kind.StatFails? {
        if j < |a| { assert with[j] == without[j]; }
        else if j > |a| { assert with[j] == without[j - 1]; }
      }
      assert StatReach(with) == k';
    } else {
      forall j | 0 <= j < |with| ensures !with[j].kind.StatFails? {
        if j < |a| { assert with[j] == without[j]; }
        else if j > |a| { assert with[j] == without[j - 1]; }
      }
      assert StatReach(with) == |with|;
      FailedUploadSkipped(a, e, b);
      PublishedAppend(a, b);
    }
  }
}
