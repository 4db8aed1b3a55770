/**
  The request handler `api_convert`: validate `fileId`, fetch metadata,
  derive the key, serve a cached artifact, otherwise join or submit the
  conversion in the in-flight table, wait for it, and pop the entry.
 */
module ConvertApi {
  import opened Common
  import opened CacheKeys
  import opened Worker
  import opened InFlight

  const AudioMime := "audio/mpeg"

  /** Where the first locked phase of a request leaves it. */
  datatype Admission =
    | MissingFileId                       // `fileId` absent or empty: 400
    | MetadataFailed                      // `drive_file_metadata` raised: 500
    | CacheHit(path: Path)                // `send_file(cached)`
    | Awaiting(key: Key, handle: Handle)  // blocked in `fut.result()`

  datatype Admitted = Admitted(admission: Admission, table: Table)

  /**
    What the client receives. An exception that leaves the view becomes
    Flask's generic 500 page, which carries nothing of the exception.
   */
  datatype Response =
    | Audio(path: Path, mimeType: string)
    | JsonError(status: nat, message: string)
    | ServerError

  function Status(r: Response): nat
  {
    match r
    case Audio(_, _) => 200
    case JsonError(status, _) => status
    case ServerError => 500
  }

  /**
    `api_convert` up to the end of its first `with ongoing_lock:` block.
    `files` is the file system at the moment of the `cached.exists()` check.
   */
  function Admit(t: Table, files: set<Path>, fileIdArg: Option<string>, meta: Option<DriveFile>,
                 nowSeconds: nat): (r: Admitted)
    ensures r.admission == MissingFileId <==> !Truthy(fileIdArg)
    ensures Truthy(fileIdArg) ==> (r.admission.MetadataFailed? <==> meta.None?)
    ensures Truthy(fileIdArg) && meta.Some? ==>
              var cached := ArtifactFor(fileIdArg.value, meta.value, nowSeconds);
              (r.admission.CacheHit? <==> cached in files) && (r.admission.Awaiting? <==> cached !in files)
    ensures !r.admission.Awaiting? ==> r.table == t
    ensures r.admission.CacheHit? ==>
              meta.Some? && r.admission.path == ArtifactFor(fileIdArg.value, meta.value, nowSeconds) &&
              r.admission.path in files
    ensures r.admission.Awaiting? ==>
              Truthy(fileIdArg) && meta.Some? &&
              r.admission.key == MakeCacheKey(fileIdArg.value, ChooseTimestamp(meta.value), nowSeconds) &&
              ArtifactFor(fileIdArg.value, meta.value, nowSeconds) !in files &&
              Register(t, r.admission.key, fileIdArg.value) == Registration(r.table, r.admission.handle)
  {
    if !Truthy(fileIdArg) then Admitted(MissingFileId, t)
    else if meta.None? then Admitted(MetadataFailed, t)
    else
      var key := MakeCacheKey(fileIdArg.value, ChooseTimestamp(meta.value), nowSeconds);
      var cached := CachedPath(key);
      if cached in files then Admitted(CacheHit(cached), t)
      else
        var g := Register(t, key, fileIdArg.value);
        Admitted(Awaiting(key, g.handle), g.table)
  }

  /** The response of a request that does not wait for a conversion. */
  function EarlyResponse(a: Admission): (r: Response)
    requires !a.Awaiting?
    ensures a.MissingFileId? <==> Status(r) == 400
    ensures a.CacheHit? <==> r.Audio?
    ensures a.CacheHit? ==> r == Audio(a.path, AudioMime)
    ensures a.MetadataFailed? ==> r == ServerError
  {
    match a
    case MissingFileId => JsonError(400, "fileId required")
    case MetadataFailed => ServerError
    case CacheHit(p) => Audio(p, AudioMime)
  }

  /**
    `send_file(fut.result(), mimetype="audio/mpeg")`. A failed conversion
    re-raises in `fut.result()`; with no `except`, the request ends in a 500.
   */
  function FinalResponse(outcome: Outcome<Path>): (r: Response)
    ensures outcome.Ok? <==> Status(r) == 200
    ensures outcome.Ok? ==> r == Audio(outcome.value, AudioMime)
    ensures outcome.Fail? ==> r == ServerError
  {
    match outcome
    case Ok(p) => Audio(p, AudioMime)
    case Fail(_) => ServerError
  }

  /**
    A request without a usable `fileId` is answered 400 before anything else
    happens: the metadata, the clock and the file system do not matter and the
    table does not change.
   */
  lemma MissingFileIdIs400(t: Table, files: set<Path>, fileIdArg: Option<string>,
                           meta: Option<DriveFile>, nowSeconds: nat)
    requires !Truthy(fileIdArg)
    ensures Admit(t, files, fileIdArg, meta, nowSeconds) == Admitted(MissingFileId, t)
    ensures Status(EarlyResponse(MissingFileId)) == 400
  {
  }

  /**
    The handler and the worker apply the same timestamp rule and the same key:
    whenever the handler finds the artifact, a worker run on the same metadata
    and clock would return that very path and change nothing.
   */
  lemma HandlerAgreesWithWorker(t: Table, s: Store, fileId: string, meta: DriveFile, nowSeconds: nat,
                                dl: Download, ff: Ffmpeg)
    requires fileId != ""
    ensures var a := Admit(t, s.files, Some(fileId), Some(meta), nowSeconds).admission;
            a.CacheHit? <==> ArtifactFor(fileId, meta, nowSeconds) in s.files
    ensures var a := Admit(t, s.files, Some(fileId), Some(meta), nowSeconds).admission;
            a.CacheHit? ==> Convert(s, fileId, Some(meta), nowSeconds, dl, ff) == Run(Ok(a.path), s)
  {
  }

  /**
    A first request for a file with a usable timestamp registers a conversion;
    when that conversion succeeds and the request has popped its entry, the
    next request for the file is served from the cache, with no further
    submission, whatever the clocks read.
   */
  lemma RepeatRequestHitsCache(t: Table, s: Store, fileId: string, meta: DriveFile,
                               now1: nat, nowWorker: nat, now2: nat)
    requires ValidStore(s) && fileId != "" && Truthy(ChooseTimestamp(meta))
    requires ArtifactFor(fileId, meta, now1) !in s.files
    ensures var first := Admit(t, s.files, Some(fileId), Some(meta), now1);
            var run := Convert(s, fileId, Some(meta), nowWorker, Complete, ExitZero);
            first.admission.Awaiting? && run.result == Ok(ArtifactFor(fileId, meta, now1)) &&
            var afterFirst := Leave(first.table, first.admission.key);
            Admit(afterFirst, run.store.files, Some(fileId), Some(meta), now2) ==
              Admitted(CacheHit(run.result.value), afterFirst)
  {
    var key := MakeCacheKey(fileId, ChooseTimestamp(meta), now1);
    assert MakeCacheKey(fileId, ChooseTimestamp(meta), nowWorker) == key;
    assert MakeCacheKey(fileId, ChooseTimestamp(meta), now2) == key;
    SuccessInstallsArtifact(s, fileId, meta, nowWorker);
  }

  /**
    Without a usable timestamp the key holds the clock's seconds, so the
    artifact of a successful run is not found by a request in another second:
    that request waits for a new conversion.
   */
  lemma ClockKeyMissesLater(t: Table, s: Store, fileId: string, meta: DriveFile, now1: nat, now2: nat)
    requires fileId != "" && !Truthy(ChooseTimestamp(meta)) && now1 != now2
    requires ArtifactFor(fileId, meta, now1) !in s.files && ArtifactFor(fileId, meta, now2) !in s.files
    ensures var run := Convert(s, fileId, Some(meta), now1, Complete, ExitZero);
            run.result == Ok(ArtifactFor(fileId, meta, now1)) &&
            Admit(t, run.store.files, Some(fileId), Some(meta), now2).admission.Awaiting?
  {
    var ts := ChooseTimestamp(meta);
    var k1, k2 := MakeCacheKey(fileId, ts, now1), MakeCacheKey(fileId, ts, now2);
    KeyFromClock(fileId, ts, now1);
    KeyFromClock(fileId, ts, now2);
    assert KeySuffix(fileId, k1) != KeySuffix(fileId, k2);
    CachedPathInjective(k1, k2);
  }

  /**
    The in-flight table of the service, `ongoing`, with the log of the
    submissions made to the executor.
   */
  class Coordinator {
    var ongoing: map<Key, Handle>
    var submitted: seq<Submission>

    ghost predicate Valid()
      reads this
    {
      ValidTable(State())
    }

    function State(): Table
      reads this
    {
      Table(ongoing, submitted)
    }

    constructor ()
      ensures Valid() && State() == Empty
    {
      ongoing := map[];
      submitted := [];
    }

    /**
      The first part of `api_convert`, through its first locked block. The
      file system is only read. Metadata failure is `meta == None`.
     */
    method Begin(store: FileStore, fileIdArg: Option<string>, meta: Option<DriveFile>, nowSeconds: nat)
      returns (a: Admission)
      requires Valid()
      modifies this
      ensures Valid()
      ensures Admitted(a, State()) == Admit(old(State()), store.files, fileIdArg, meta, nowSeconds)
    {
      if !Truthy(fileIdArg) {
        return MissingFileId;
      }
      var fileId := fileIdArg.value;
      if meta.None? {
        return MetadataFailed;
      }
      var modifiedTime := ChooseTimestamp(meta.value);
      var key := MakeCacheKey(fileId, modifiedTime, nowSeconds);
      var cached := CachedPath(key);
      var hit := store.Exists(cached);
      if hit {
        return CacheHit(cached);
      }
      // with ongoing_lock:
      var fut: Handle;
      if key in ongoing {
        fut := ongoing[key];
      } else {
        fut := |submitted|;
        submitted := submitted + [Submission(key, fileId)];
        ongoing := ongoing[key := fut];
      }
      a := Awaiting(key, fut);
    }

    /**
      The end of `api_convert` for a request that waited: the future's
      outcome becomes the response, and the `finally` block pops the key.
     */
    method Finish(key: Key, outcome: Outcome<Path>) returns (resp: Response)
      requires Valid()
      modifies this
      ensures Valid()
      ensures resp == FinalResponse(outcome) && State() == Leave(old(State()), key)
    {
      resp := FinalResponse(outcome);
      // with ongoing_lock:
      ongoing := ongoing - {key};
    }
  }
}
