# Drive audio transcoding proxy: a Dafny model of its core

The service lists the audio files of one Google Drive folder. On request it
converts a file to MP3 with ffmpeg and keeps the result in a cache directory.
Several requests for a file that is not cached yet share one conversion
through an in-flight table (`ongoing`, a map from cache key to future,
guarded by a lock). This project models the logic under the HTTP, Drive and
ffmpeg plumbing of `app.py`:

- `CacheKeys` (`cache_key.dfy`): `make_cache_key` and the
  "`modifiedTime`, else `createdTime`" rule. The clock is a parameter.
- `Worker` (`worker.dfy`): `convert_and_cache` over an abstract file system,
  which is the set of paths that exist. `Convert` is the effect of one call.
  The class `FileStore` performs the same call step by step and is proved
  equal to `Convert`. Download and ffmpeg are given as their outcomes.
- `InFlight` (`inflight.dfy`): the `ongoing` table. Each locked block of
  `api_convert` is one atomic step. `Register` is the check-and-submit block
  and `Leave` is the `pop` in the `finally`. `Run` replays any interleaving of
  such steps from many requests.
- `ConvertApi` (`convert_api.dfy`): `api_convert` itself. `Admit` covers
  the request up to the first locked block, and `FinalResponse` the answer
  after the wait. The class `Coordinator` holds `ongoing` and the executor's
  submission log, and updates them in place. The worker fetches the metadata
  and reads the clock again on its own (app.py:132, app.py:137), so the model
  gives `Convert` its own `meta` and `nowSeconds`. The key registered in
  `ongoing` can therefore differ from the artifact the worker installs, when a
  file has no timestamp and the worker runs in a later second, or when the
  metadata change between the two fetches.
- `Listing` (`listing.dfy`): the query string and the `nextPageToken` loop
  of `drive_list_all_files` (a `while` loop over Drive's replies, given as a
  sequence), and the page window of `api_files` with Python's slice rules.

`Common` (`common.dfy`) holds the shared values: `Option`, Python's
truthiness of an optional string, the Drive file record, and the failures.

In four places the code behaves in a way a reader might not expect. The model
follows the code and proves what it does:

- A download whose stream breaks keeps its temporary file
  (`Worker.FailureLeftovers`). Only the downloaded source is removed in the
  `finally`, and only once the download has returned.
- When ffmpeg fails, the temporary `.mp3` made by `NamedTemporaryFile` stays
  on disk (`Worker.FailureLeftovers`).
- A key's entry is not removed when its conversion completes. Every waiting
  request pops the key in its own `finally`, and the pop removes whatever
  entry is there. A late pop can clear the entry of a newer submission, so
  two conversions for one key can overlap (`InFlight.StalePopAllowsOverlap`).
  Single flight holds only while no request for the key has finished
  (`InFlight.SingleSubmit`).
- `replace(":", "-")` maps timestamps that differ only by colons and dashes
  to the same key, so a changed timestamp need not give a new artifact
  (`CacheKeys.SameFileKeysIff`, `CacheKeys.KeyNotInjective`). The `_`
  separator is ambiguous too: when a timestamp holds a `_`, two different
  files can share a key (`CacheKeys.KeyCollisionAcrossFiles`). Without `_`
  in the timestamps, the key determines the file (`CacheKeys.KeyDeterminesFile`).

## Model

| member | source | states |
|---|---|---|
| `CacheKeys.ReplaceColons` | app.py:132 | same length as the input; each colon becomes a dash and every other character is kept; no colon is left |
| `CacheKeys.ReplaceColonsCollideIff` | app.py:132 | two strings give the same result exactly when they have equal length and differ only by colons and dashes (both directions) |
| `CacheKeys.NatToDecimal` | app.py:132 | `str(n)` is a non-empty string of decimal digits with no leading zero, except for "0" |
| `CacheKeys.DecimalRoundTrip` | app.py:132 | reading the decimal rendering back gives the number |
| `CacheKeys.ChooseTimestamp` | app.py:138 | the result is one of the two fields; a truthy `modifiedTime` wins; the result is truthy iff either field is |
| `CacheKeys.MakeCacheKey` | app.py:131-133 | the key is the file id, `_`, then a suffix; with a truthy timestamp the suffix is the timestamp with colons turned into dashes, so it has no colon; otherwise it is all digits |
| `CacheKeys.KeyFromClock` | app.py:132-133 | without a truthy timestamp, the suffix is exactly `str(nowSeconds)`: decimal, no leading zero, and it denotes the clock's seconds |
| `CacheKeys.SameFileKeysIff` | app.py:131-133 | for one file and two truthy timestamps, the keys are equal iff the timestamps differ only by colons and dashes; the clock plays no part |
| `CacheKeys.KeyNotInjective` | app.py:132 | "12:30" and "12-30" give the same key for the same file |
| `CacheKeys.KeyDeterminesFile` | app.py:131-133 | when neither timestamp holds a `_`, equal keys imply equal file ids, so distinct files never share an artifact |
| `CacheKeys.KeyCollisionAcrossFiles` | app.py:131-133 | file "a_b" with timestamp "c" and file "a" with timestamp "b_c" get the same key |
| `CacheKeys.CachedNameInjective` | app.py:141 | the artifact name `f"{key}.mp3"` is equal for two keys exactly when the keys are equal |
| `Worker.CachedPathInjective` | app.py:141 | two keys share an artifact path in the cache directory exactly when they are equal |
| `Worker.Convert` | app.py:136-153 | a run of the worker never deletes a file that existed before, and its temp counter only grows; an ok result is this file's artifact and exists afterwards; the only new files are the downloaded source, ffmpeg's temporary output and the returned artifact |
| `Worker.ConvertKeepsStore` | app.py:136-153 | a worker run keeps the file-system invariant and never deletes a file that existed before |
| `Worker.CacheHitShortCircuits` | app.py:143-144 | when the artifact exists, the run returns its path and leaves the file system unchanged, whatever the download and ffmpeg would do |
| `Worker.SuccessInstallsArtifact` | app.py:146-151 | on a miss with a complete download and ffmpeg exit 0, the result is the artifact path; the artifact exists afterwards; the temporary `.mp3` does not; the artifact is the only file added |
| `Worker.SourceAlwaysRemoved` | app.py:147-153 | once the download completed, the downloaded source is absent afterwards, whether ffmpeg succeeded or failed |
| `Worker.OkResultExists` | app.py:140-151 | a successful result is the artifact path for this file's key, and that file exists afterwards |
| `Worker.CacheChangesOnlyBySuccess` | app.py:146-153 | a failed run leaves the cache directory unchanged; a successful run adds at most its own artifact to it |
| `Worker.FailureLeftovers` | app.py:112-153 | an HTTP error leaves the file system unchanged; a broken stream leaves its temporary file behind; a failed ffmpeg leaves the temporary `.mp3` behind |
| `Worker.FileStore.constructor` | app.py:35-36 | the cache directory may already hold artifacts of earlier runs; no temporary file exists yet |
| `Worker.FileStore.Exists` | app.py:143 | true iff the path exists |
| `Worker.FileStore.NewTemp` | app.py:148 | creates a fresh temporary file that did not exist before |
| `Worker.FileStore.Replace` | app.py:150 | the rename removes the source path and makes the destination exist, in one step |
| `Worker.FileStore.Remove` | app.py:153 | the path no longer exists and nothing else changes |
| `Worker.FileStore.DownloadToTemp` | app.py:112-121 | an HTTP error creates nothing; a broken stream leaves a new temporary file and fails; a complete download returns the new temporary file |
| `Worker.FileStore.ConvertAndCache` | app.py:136-153 | the step-by-step run returns exactly what `Convert` gives and leaves exactly its file system |
| `InFlight.Register` | app.py:171-175 | afterwards the table maps the key to the handle returned; no other entry changes; a registered key changes nothing and submits nothing; an absent key gets exactly one new submission, made for that key |
| `InFlight.Leave` | app.py:180-181 | the key's entry is gone; no other key's entry changes; the submission log is untouched; popping an absent key changes nothing |
| `InFlight.LeaveIdempotent` | app.py:181 | popping twice is the same as popping once |
| `InFlight.RegisterAfterLeaveSubmits` | app.py:171-181 | after the entry is popped, the next request for the key submits a new conversion |
| `InFlight.Run` | app.py:171-181 | any interleaving of locked steps answers every request's lookup-or-submit with a handle and no pop with one; the submission log only grows at its end; from a valid table, every handle handed out names a submission made for the requested key |
| `InFlight.RunKeepsValid` | app.py:171-181 | in any interleaving, every entry names a submission made for its own key |
| `InFlight.EntryStable` | app.py:171-175 | while no request for a registered key finishes, its entry keeps the same handle and no conversion is submitted for it, whatever requests for other keys do |
| `InFlight.SingleSubmit` | app.py:171-175 | while no request for the key finishes, any interleaving submits exactly one conversion for the key when it was absent and some request asked for it, and none otherwise |
| `InFlight.SameHandle` | app.py:171-178 | while no request for the key finishes, every request for it gets the handle that the table holds for it at the end |
| `InFlight.StalePopAllowsOverlap` | app.py:171-181 | a late pop clears a newer registration, so a third submission for one key happens while the second may still be running |
| `ConvertApi.Admit` | app.py:157-175 | a falsy `fileId` gives 400, and only then; with a truthy id, the metadata call failing is exactly a metadata failure; with metadata, the artifact existing is exactly a cache hit, and not existing is exactly a wait; only a wait changes the table; a cache hit names the existing artifact of this key; a wait is exactly `Register` on the key |
| `ConvertApi.EarlyResponse` | app.py:158-169 | a missing id gives status 400, and only it does; a cache hit serves that artifact as `audio/mpeg`, and only a cache hit is audio; a metadata failure is a generic 500 |
| `ConvertApi.FinalResponse` | app.py:177-178 | a successful conversion is served as `audio/mpeg` with status 200; a failed conversion re-raises in `fut.result()` and ends in a generic 500 |
| `ConvertApi.MissingFileIdIs400` | app.py:158-160 | a missing or empty `fileId` is answered 400 before anything else, whatever the metadata, the clock or the files; the table is unchanged |
| `ConvertApi.HandlerAgreesWithWorker` | app.py:162-168 | the handler finds the artifact iff the worker's key names an existing file; then a worker run returns that path and changes nothing |
| `ConvertApi.RepeatRequestHitsCache` | app.py:162-181 | for a file with a truthy `modifiedTime`/`createdTime` whose metadata do not change, after a first request's conversion succeeds and its entry is popped, a second request for the file is served from the cache with no submission, whatever the clocks read |
| `ConvertApi.ClockKeyMissesLater` | app.py:132-133 | for a file with neither timestamp, after a successful conversion the artifact is not found by a request in a different second, which waits for a new conversion |
| `ConvertApi.Coordinator.constructor` | app.py:38 | the table starts empty with no submissions |
| `ConvertApi.Coordinator.Begin` | app.py:157-175 | the in-place request phase gives the admission and the new table that `Admit` gives |
| `ConvertApi.Coordinator.Finish` | app.py:177-181 | the response is `FinalResponse` of the outcome, and the table becomes `Leave` of the key |
| `Listing.FiltersFromArgs` | app.py:91-96 | a filter is present iff its query argument is truthy, and then it has that argument's value |
| `Listing.BuildQuery` | app.py:52-58 | the query is the folder/trashed clause, then the type clause if a type is given, then the name clause if a name is given, and nothing else |
| `Listing.ParamsAt` | app.py:60-73 | every request has the built query, `orderBy` "createdTime desc" and page size 1000; the first has no token; each later one, up to the last page, carries the previous page's truthy `nextPageToken` |
| `Listing.Concat` | app.py:77 | a file is in the listing exactly when it is in the files of one of the pages |
| `Listing.ConcatSnoc` | app.py:77 | `files.extend` of one more page appends that page's files at the end |
| `Listing.FirstStop` | app.py:71-80 | the position of the first reply that ends the loop (an error, or no truthy `nextPageToken`); every earlier reply carries a token |
| `Listing.ListAllFiles` | app.py:51-82 | one request per reply up to the first last one; the first request has no token and every later one has the previous page's token; the result is the in-order concatenation of those pages' files, or a failure when the last reply is an HTTP error |
| `Listing.Window` | app.py:99-108 | the JSON echoes `page` and `pageSize`; `total` is the listing's length; the window holds at most that many files, all from the listing |
| `Listing.SliceBound` | app.py:108 | a slice bound within `0..n` is kept as it is; any other lands in `0..n` |
| `Listing.PySlice` | app.py:108 | `s[start:stop]` is the run of `s` between the two clamped bounds, or empty when they cross |
| `Listing.WindowForPositivePage` | app.py:99-108 | for `page >= 1` and `pageSize >= 0`: `total` is the listing's length; the files are `all[(page-1)*pageSize .. min(page*pageSize, total)]`, empty past the end, and at most `pageSize` of them |
| `Listing.PagesTileListing` | app.py:101-108 | pages 1 to k, one after the other, are exactly the first `k * pageSize` files of the listing, in order |
| `Listing.PageZeroIsEmpty` | app.py:101-108 | page 0 is always empty, for every page size, negative ones included |
| `Listing.NegativePageCountsFromEnd` | app.py:101-108 | for page `p <= -1` and `pageSize >= 1`, when the listing is long enough, the window is the `pageSize` files from `len + (p-1)*pageSize` up to `len + p*pageSize`: negative pages count from the end, following Python's slice rules |
| `Listing.ApiFiles` | app.py:88-109 | every request uses the query built from the filters; the response is the window of the full listing, or a failure when Drive answers with an error |

## Left out

- Flask routing, `render_template`, `send_file`, CORS and `app.run` are HTTP and UI glue. The model returns a `Response` value instead.
- The Drive HTTP calls are not modelled. `drive_file_metadata` becomes an `Option` (`None` when it raises). The download becomes one of three outcomes. The listing replies become a sequence. The API key and the `fields` parameter are not modelled.
- The ffmpeg subprocess is an exit status. The codec and the 192k bit rate are not modelled.
- `ThreadPoolExecutor`, `threading.Lock` and blocking in `Future.result()` are not modelled. Each locked block is one atomic step, and a future is a handle into the submission log. Who waits on which handle, and when a job completes, appear only as the order of steps in `InFlight.Run`.
- Races between a cache check and another worker's rename are not modelled, because the file system is touched by one call at a time.
- Reading `FOLDER_ID` and `GOOGLE_API_KEY` from the environment or `keys.json` (app.py:17-25) is I/O. The folder id is a parameter.
- `time.time()` is a parameter, `nowSeconds`, already truncated by `int(...)` to whole non-negative seconds.
- `int(request.args.get(...))` parsing in `api_files` is not modelled, and neither are its defaults `page=1` and `pageSize=100` (app.py:89-90). A non-numeric argument would raise and give a 500. The model takes the parsed integers.
- The failure kind (`DriveError`, `TranscodeError`) exists only in the model, as a record of the cause. In the code, the `HTTPError` of `raise_for_status` and the `RuntimeError` with ffmpeg's stderr leave the view, and Flask answers with its generic 500 page (`ConvertApi.ServerError`), which carries neither.
- A failure of `os.remove` in the `finally`, or of `os.replace`, is not modelled. A temporary file that cannot be created is not modelled either.
- `Listing.ListAllFiles`: requires that Drive eventually sends a last page. Without one, the source loops for ever.
- `Worker.FileStore.Replace`: requires that the destination is a cache path. That holds at the only call site.
