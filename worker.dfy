/**
  The conversion worker `convert_and_cache` over an abstract file system.
  The file system is the set of paths that exist; Drive and ffmpeg are
  represented by the outcome each of them produces on this run.
 */
module Worker {
  import opened Common
  import opened CacheKeys

  /**
    `CacheFile(name)` is `CACHE_DIR / name`. `TempFile(id, suffix)` is a file
    made by `tempfile.NamedTemporaryFile(delete=False, suffix=suffix)`; `id`
    stands for the random part of its name.
   */
  datatype Path = CacheFile(name: string) | TempFile(id: nat, suffix: string)

  /** `CACHE_DIR / f"{key}.mp3"` */
  function CachedPath(key: Key): (p: Path)
    ensures p.CacheFile? && p.name == CachedName(key)
  {
    CacheFile(CachedName(key))
  }

  /** A store keyed by the cache key: two keys share an artifact path only when they are equal. */
  lemma CachedPathInjective(k1: Key, k2: Key)
    ensures CachedPath(k1) == CachedPath(k2) <==> k1 == k2
  {
    CachedNameInjective(k1, k2);
  }

  /**
    The file system as the worker sees it: the paths that exist, and the next
    temporary-file number (every temporary file on disk has a smaller one).
   */
  datatype Store = Store(files: set<Path>, nextTemp: nat)

  ghost predicate ValidStore(s: Store)
  {
    forall p :: p in s.files && p.TempFile? ==> p.id < s.nextTemp
  }

  /** The paths of the cache directory. */
  function CacheFiles(files: set<Path>): set<Path>
  {
    set p | p in files && p.CacheFile?
  }

  /**
    What `download_drive_file_to_temp` meets: `HttpError` when the request or
    `raise_for_status` raises (no file made); `StreamBroken` when reading the
    body fails after the temporary file was created (the file stays);
    `Complete` when the whole body was written.
   */
  datatype Download = HttpError | StreamBroken | Complete

  /** The exit status of `ffmpeg -y -i src -vn -ab 192k out`. */
  datatype Ffmpeg = ExitZero | ExitNonZero

  /** What a call of the worker returns and the file system it leaves. */
  datatype Run = Run(result: Outcome<Path>, store: Store)

  /** The first temporary file a run creates holds the downloaded source. */
  function SourcePath(s: Store): Path
  {
    TempFile(s.nextTemp, "")
  }

  /** The second holds ffmpeg's output. */
  function OutputPath(s: Store): Path
  {
    TempFile(s.nextTemp + 1, ".mp3")
  }

  /**
    The effect of one call `convert_and_cache(fileId)`. `meta` is the answer
    of `drive_file_metadata` (`None` when it raised) and `nowSeconds` the clock
    read by `make_cache_key`.
   */
  function Convert(s: Store, fileId: string, meta: Option<DriveFile>, nowSeconds: nat,
                   dl: Download, ff: Ffmpeg): (r: Run)
    ensures s.files <= r.store.files && s.nextTemp <= r.store.nextTemp
    ensures r.result.Ok? ==>
              meta.Some? &&
              r.result.value == CachedPath(MakeCacheKey(fileId, ChooseTimestamp(meta.value), nowSeconds)) &&
              r.result.value in r.store.files
    ensures forall p :: p in r.store.files && p !in s.files ==>
              p == SourcePath(s) || p == OutputPath(s) || (r.result.Ok? && p == r.result.value)
  {
    if meta.None? then Run(Fail(DriveError), s)
    else
      var cached := CachedPath(MakeCacheKey(fileId, ChooseTimestamp(meta.value), nowSeconds));
      if cached in s.files then Run(Ok(cached), s)
      else match dl
        case HttpError => Run(Fail(DriveError), s)
        case StreamBroken => Run(Fail(DriveError), Store(s.files + {SourcePath(s)}, s.nextTemp + 1))
        case Complete =>
          match ff
          case ExitZero => Run(Ok(cached), Store(s.files + {cached}, s.nextTemp + 2))
          case ExitNonZero => Run(Fail(TranscodeError), Store(s.files + {OutputPath(s)}, s.nextTemp + 2))
  }

  /** The artifact path the worker computes for these metadata. */
  function ArtifactFor(fileId: string, meta: DriveFile, nowSeconds: nat): Path
  {
    CachedPath(MakeCacheKey(fileId, ChooseTimestamp(meta), nowSeconds))
  }

  /** Every run keeps the file-system invariant and never deletes a file it did not create. */
  lemma ConvertKeepsStore(s: Store, fileId: string, meta: Option<DriveFile>, nowSeconds: nat,
                          dl: Download, ff: Ffmpeg)
    requires ValidStore(s)
    ensures var r := Convert(s, fileId, meta, nowSeconds, dl, ff);
            ValidStore(r.store) && s.files <= r.store.files && s.nextTemp <= r.store.nextTemp
  {
  }

  /** A cache hit returns the artifact and touches nothing, whatever Drive and ffmpeg would do. */
  lemma CacheHitShortCircuits(s: Store, fileId: string, meta: DriveFile, nowSeconds: nat,
                              dl: Download, ff: Ffmpeg, dl': Download, ff': Ffmpeg)
    requires ArtifactFor(fileId, meta, nowSeconds) in s.files
    ensures Convert(s, fileId, Some(meta), nowSeconds, dl, ff) == Run(Ok(ArtifactFor(fileId, meta, nowSeconds)), s)
    ensures Convert(s, fileId, Some(meta), nowSeconds, dl, ff) == Convert(s, fileId, Some(meta), nowSeconds, dl', ff')
  {
  }

  /**
    On a miss, a successful run installs the artifact by the rename: the
    artifact exists afterwards, ffmpeg's temporary output does not, and the file
    system has gained the artifact and nothing else.
   */
  lemma SuccessInstallsArtifact(s: Store, fileId: string, meta: DriveFile, nowSeconds: nat)
    requires ValidStore(s)
    requires ArtifactFor(fileId, meta, nowSeconds) !in s.files
    ensures var r := Convert(s, fileId, Some(meta), nowSeconds, Complete, ExitZero);
            var cached := ArtifactFor(fileId, meta, nowSeconds);
            r.result == Ok(cached) && cached in r.store.files && OutputPath(s) !in r.store.files &&
            r.store.files == s.files + {cached}
  {
  }

  /** Once the download completed, the downloaded source is gone whether ffmpeg succeeded or not. */
  lemma SourceAlwaysRemoved(s: Store, fileId: string, meta: Option<DriveFile>, nowSeconds: nat, ff: Ffmpeg)
    requires ValidStore(s)
    ensures SourcePath(s) !in Convert(s, fileId, meta, nowSeconds, Complete, ff).store.files
  {
  }

  /** A successful result names a file that exists afterwards, and it is the artifact of this key. */
  lemma OkResultExists(s: Store, fileId: string, meta: Option<DriveFile>, nowSeconds: nat,
                       dl: Download, ff: Ffmpeg)
    ensures var r := Convert(s, fileId, meta, nowSeconds, dl, ff);
            r.result.Ok? ==> meta.Some? && r.result.value == ArtifactFor(fileId, meta.value, nowSeconds) &&
                             r.result.value in r.store.files
  {
  }

  /**
    A failed run leaves the cache directory as it was: no partial artifact is
    ever visible under a cache name. The only cache entry a run can add is its
    own artifact.
   */
  lemma CacheChangesOnlyBySuccess(s: Store, fileId: string, meta: Option<DriveFile>, nowSeconds: nat,
                                  dl: Download, ff: Ffmpeg)
    ensures var r := Convert(s, fileId, meta, nowSeconds, dl, ff);
            (r.result.Fail? ==> CacheFiles(r.store.files) == CacheFiles(s.files)) &&
            (r.result.Ok? ==> CacheFiles(r.store.files) == CacheFiles(s.files) + {r.result.value})
  {
    var r := Convert(s, fileId, meta, nowSeconds, dl, ff);
    if r.result.Fail? {
      assert forall p :: p in r.store.files - s.files ==> p.TempFile?;
    }
  }

  /**
    What a failure leaves behind, as the code is written: a broken download
    keeps its temporary file, and a failed ffmpeg keeps its temporary `.mp3`
    (only the source is removed by the `finally`).
   */
  lemma FailureLeftovers(s: Store, fileId: string, meta: DriveFile, nowSeconds: nat, ff: Ffmpeg)
    requires ArtifactFor(fileId, meta, nowSeconds) !in s.files
    ensures Convert(s, fileId, Some(meta), nowSeconds, HttpError, ff).store.files == s.files
    ensures Convert(s, fileId, Some(meta), nowSeconds, StreamBroken, ff).store.files == s.files + {SourcePath(s)}
    ensures Convert(s, fileId, Some(meta), nowSeconds, Complete, ExitNonZero).store.files == s.files + {OutputPath(s)}
  {
  }

  /**
    The local file system: the set of paths that exist. The methods are the
    operations `convert_and_cache` performs on it.
   */
  class FileStore {
    var files: set<Path>
    var nextTemp: nat

    ghost predicate Valid()
      reads this
    {
      ValidStore(Snapshot())
    }

    function Snapshot(): Store
      reads this
    {
      Store(files, nextTemp)
    }

    /** `CACHE_DIR.mkdir(exist_ok=True)`: artifacts of an earlier process may already be there. */
    constructor (existing: set<string>)
      ensures Valid()
      ensures files == set n | n in existing :: CacheFile(n)
    {
      files := set n | n in existing :: CacheFile(n);
      nextTemp := 0;
    }

    /** `path.exists()` */
    method Exists(p: Path) returns (b: bool)
      ensures b <==> p in files
    {
      b := p in files;
    }

    /** `tempfile.NamedTemporaryFile(delete=False, suffix=suffix)`: creates a fresh file. */
    method NewTemp(suffix: string) returns (p: Path)
      requires Valid()
      modifies this
      ensures Valid()
      ensures p == TempFile(old(nextTemp), suffix) && p !in old(files)
      ensures files == old(files) + {p} && nextTemp == old(nextTemp) + 1
    {
      p := TempFile(nextTemp, suffix);
      files := files + {p};
      nextTemp := nextTemp + 1;
    }

    /** `os.replace(src, dst)`: one rename; an existing `dst` is overwritten. */
    method Replace(src: Path, dst: Path)
      requires Valid() && src in files && dst.CacheFile?
      modifies this
      ensures Valid()
      ensures files == old(files) - {src} + {dst} && nextTemp == old(nextTemp)
    {
      files := files - {src} + {dst};
    }

    /** `os.remove(p)` */
    method Remove(p: Path)
      requires Valid() && p in files
      modifies this
      ensures Valid()
      ensures files == old(files) - {p} && nextTemp == old(nextTemp)
    {
      files := files - {p};
    }

    /** `download_drive_file_to_temp(file_id)`; `None` stands for the exception it raises. */
    method DownloadToTemp(dl: Download) returns (src: Option<Path>)
      requires Valid()
      modifies this
      ensures Valid()
      ensures dl.HttpError? ==> src.None? && files == old(files) && nextTemp == old(nextTemp)
      ensures dl.StreamBroken? ==> src.None? && files == old(files) + {TempFile(old(nextTemp), "")} &&
                                   nextTemp == old(nextTemp) + 1
      ensures dl.Complete? ==> src == Some(TempFile(old(nextTemp), "")) && files == old(files) + {src.value} &&
                               nextTemp == old(nextTemp) + 1
    {
      if dl.HttpError? {
        return None;
      }
      var tmp := NewTemp("");
      if dl.StreamBroken? {
        return None;
      }
      src := Some(tmp);
    }

    /**
      `convert_and_cache(file_id)`, step by step: metadata, key, cache check,
      download, temporary output, ffmpeg, rename into the cache, and the
      `finally` that removes the downloaded source.
     */
    method ConvertAndCache(fileId: string, meta: Option<DriveFile>, nowSeconds: nat,
                           dl: Download, ff: Ffmpeg) returns (r: Outcome<Path>)
      requires Valid()
      modifies this
      ensures Valid()
      ensures Run(r, Snapshot()) == Convert(old(Snapshot()), fileId, meta, nowSeconds, dl, ff)
    {
      if meta.None? {
        return Fail(DriveError);
      }
      var modifiedTime := ChooseTimestamp(meta.value);
      var key := MakeCacheKey(fileId, modifiedTime, nowSeconds);
      var cached := CachedPath(key);
      var hit := Exists(cached);
      if hit {
        return Ok(cached);
      }
      ghost var s0 := Snapshot();
      var src := DownloadToTemp(dl);
      if src.None? {
        return Fail(DriveError);
      }
      var tmpMp3 := NewTemp(".mp3");
      if ff.ExitZero? {
        Replace(tmpMp3, cached);
        r := Ok(cached);
      } else {
        r := Fail(TranscodeError);
      }
      Remove(src.value);
      assert files == Convert(s0, fileId, meta, nowSeconds, dl, ff).store.files;
    }
  }
}
