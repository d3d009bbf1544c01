# Adaptive video streaming pipeline, modelled in Dafny

This project models the core of a small video pipeline. A browser page
uploads a video. The back end stores it through multer, then converts it
with FFmpeg into an adaptive HLS package: three renditions (360p, 480p and
720p), encoded one after another, plus a master playlist that lists them. It
then tries to grab a thumbnail and answers with the package's URLs. The
player page plays the package with hls.js or natively, and keeps a bounded
event log and a sliding window of throughput samples.

Modules, one file each:

- `Wrappers`: `Option` and `Result`.
- `Text`: decimal rendering and `parseInt`, `startsWith`, `includes` and
  `lastIndexOf`.
- `Paths`: `path.join`, `path.dirname`, `path.basename` and
  `path.parse(..).name` on POSIX paths, for directories without a trailing
  separator and for names without one (see Left out).
- `Storage`: the file system as a class `Disk`. It holds a map from file
  paths to contents and a set of directories.
- `Ffmpeg`: fluent-ffmpeg as an oracle.
  - `decide` fixes, for every job, whether it ends or fails and what it
    writes.
  - The encoder keeps a log of the jobs it was started with.
- `Runs`: a chain of encodes that stops at the first failure.
- `Manifest`: the master playlist serialiser. It writes the tags of RFC
  8216: `#EXTM3U` (section 4.3.1.1), `#EXT-X-VERSION` (section 4.3.1.2) and
  `#EXT-X-STREAM-INF` (section 4.3.4.2). The text conforms only when every
  bitrate starts with a digit. Otherwise it carries `BANDWIDTH=NaN`, as the
  source does, which is not the decimal integer section 4.3.4.2 requires.
- `HlsConverter`: `backend/hls-converter.js`.
  - `PlanConversion` is the reference semantics of one adaptive
    conversion: the jobs it starts, the files it writes, and how it
    settles.
  - The methods are proved against it, and the lemmas state what it
    promises.
- `UploadRoute`: `backend/routes/upload.js`. This covers multer's storage,
  size limit and MIME filter, and the `POST /upload` handler.
- `Player`: `frontend/player.js`, as a class `PlayerSession` that holds the
  module's state.
  - The ghost histories `logHistory` and `sampleHistory` record every entry
    and sample ever added.
  - `Valid()` ties the visible log and the sample window to those
    histories: the last ten entries, newest first, and the last five
    samples, oldest first.
- `App`: `frontend/app.js`, as a class `UploadPage`. The page's five
  pipeline steps are an array of optional class pairs.

## Model

| member | source | states |
|---|---|---|
| Text.NatToString | backend/hls-converter.js:143 | the decimal text of a number is non-empty, all digits, and has no leading zero unless the number is 0 |
| Text.IntToString | frontend/player.js:421 | `${i}` is non-empty and starts with '-' exactly for negative numbers |
| Text.IntToStringInjective | frontend/player.js:421 | different integers render as different texts |
| Text.LeadingDigits | backend/hls-converter.js:142 | the longest all-digit prefix: it is a prefix, all digits, and the next character is not a digit |
| Text.ParseInt | backend/hls-converter.js:142 | `parseInt` yields a number exactly when the text starts with a digit |
| Text.DigitsValueOfNatToString | backend/hls-converter.js:142 | reading back a rendered number gives the number |
| Text.ParseIntOfRendered | backend/hls-converter.js:142 | `parseInt` of a rendered number followed by a non-digit suffix (such as "800k") is that number |
| Text.Contains | frontend/player.js:34 | `includes` holds exactly when the text occurs at some index |
| Text.LastIndexOf | backend/hls-converter.js:88 | `lastIndexOf` is absent exactly when the character does not occur; otherwise it is the last occurrence |
| Paths.Join | backend/hls-converter.js:118 | `path.join(dir, name)` is the directory, one separator, then the name |
| Paths.JoinSegment | backend/routes/upload.js:81 | joining a segment: "" and "." give the directory, ".." gives its parent, any other segment is appended |
| Paths.LastSegment | backend/hls-converter.js:206 | `path.basename` is a separator-free suffix that follows the last separator |
| Paths.Dirname | backend/hls-converter.js:196 | `path.dirname` is non-empty; it is "." without a separator; otherwise it is the prefix before the last separator, which leaves a last segment free of separators, or "/" when that prefix is empty |
| Paths.Stem | backend/hls-converter.js:88 | the name is a prefix of the base name; when shorter, it is cut at the base name's last dot |
| Paths.DirnameOfJoin | backend/hls-converter.js:196 | the directory of `dir/name` is `dir` |
| Paths.StemOfExtendedName | backend/hls-converter.js:88 | a name with one extension loses exactly that extension |
| Paths.StemWithoutExtension | backend/hls-converter.js:88 | a dot-free segment is its own name |
| Paths.JoinInjective | backend/hls-converter.js:118 | different names in one directory are different paths |
| Paths.SiblingsDisjoint | backend/routes/upload.js:81 | sibling directories with different names share no path |
| Paths.WithinParent | backend/routes/upload.js:137 | whatever lies inside `root/name` lies inside `root` |
| Storage.PruneFiles | backend/hls-converter.js:182 | after `rm -r dir`, exactly the files outside `dir` remain, with their contents |
| Storage.PruneDirs | backend/hls-converter.js:182 | after `rm -r dir`, exactly the directories outside `dir` remain |
| Storage.Disk.MakeDirectory | backend/hls-converter.js:85 | the directory is added and the files are untouched |
| Storage.Disk.WriteFile | backend/hls-converter.js:172 | the file is created or replaced, and nothing else changes |
| Storage.Disk.Unlink | backend/routes/upload.js:125 | exactly that file is removed |
| Storage.Disk.RemoveTree | backend/hls-converter.js:182 | the path and everything below it are gone; a missing path is no error |
| Ffmpeg.Encoder.Run | backend/hls-converter.js:122-151 | the job is logged; the outcome is the oracle's; on `end` the output file holds the oracle's content |
| Runs.FirstFailure | backend/hls-converter.js:145-149 | every job before the stopping index ended, and the job at it failed |
| Runs.ProducedKeys | backend/hls-converter.js:136-145 | the first k finished jobs leave exactly their outputs behind |
| Runs.ProducedContents | backend/hls-converter.js:136-145 | each of those outputs holds what its encoder wrote |
| Runs.StoppedRun | backend/hls-converter.js:147-150 | a run stopped by a failure started one job past the last success and wrote only the earlier outputs |
| Runs.CompletedRun | backend/hls-converter.js:137-145 | in a run without failure, every output is on disk with its content, also after the manifest is added |
| Manifest.BandwidthText | backend/hls-converter.js:168 | the bandwidth text contains no newline or comma and is all digits for a number |
| Manifest.EntriesAppend | backend/hls-converter.js:167-170 | the entries of `vs + [v]` are those of `vs` followed by v's entry |
| Manifest.MasterPlaylistAppend | backend/hls-converter.js:167-170 | appending a variant appends exactly its two lines to the playlist |
| Manifest.EntryAppended | backend/hls-converter.js:168-169 | the two `+=` steps for one variant append its entry |
| Manifest.ComposeMasterPlaylist | backend/hls-converter.js:165-170 | the text built by the `forEach` loop is the master playlist of the variants, in their order |
| Manifest.StreamInfIsOneLine | backend/hls-converter.js:168 | a variant's `#EXT-X-STREAM-INF` tag is a single line |
| Manifest.LinesOfEntry | backend/hls-converter.js:168-169 | one entry splits into its tag line and its file line |
| Manifest.EntryLinesAt | backend/hls-converter.js:167-170 | the i-th variant contributes line 2i (its tag) and line 2i+1 (its file) |
| Manifest.LinesOfEntries | backend/hls-converter.js:167-170 | splitting the entries gives back the entry lines, then an empty remainder |
| Manifest.MasterPlaylistLines | backend/hls-converter.js:164-170 | read line by line: the header lines, a blank line, then for variant i its tag at 3+2i and its file at 4+2i; with no variants only the header |
| Manifest.HeaderLines | backend/hls-converter.js:165 | the header is `#EXTM3U`, `#EXT-X-VERSION:3` and a blank line |
| HlsConverter.Bandwidth | backend/hls-converter.js:142 | a bandwidth exists exactly when the bitrate starts with a digit, and it is a multiple of 1000 |
| HlsConverter.CreateMasterPlaylist | backend/hls-converter.js:164-174 | the master path holds the master playlist of the variants; nothing else changes |
| HlsConverter.EncodeQualities | backend/hls-converter.js:100-152 | with k the first failed profile: the pushed descriptors are those of the first k profiles; the error is that encode's message; the encoder was started on exactly the jobs up to the failed one; the disk gained exactly their outputs |
| HlsConverter.ConvertToAdaptiveHLS | backend/hls-converter.js:82-156 | the result, the jobs started and the files written equal `PlanConversion` for the declared profiles; the output directory is created only if absent |
| HlsConverter.ConvertLadder | backend/hls-converter.js:82-156 | the same for any ladder of profiles |
| HlsConverter.ConvertToHLS | backend/hls-converter.js:12-73 | one playlist job writes `<base>.m3u8` in the output directory; the result names that file, or rejects with "FFmpeg conversion failed: " and the message; the directory is created only if absent |
| HlsConverter.Cleanup | backend/hls-converter.js:180-185 | the directory is absent afterwards; an existing one is pruned with everything below it; if already absent, nothing changes |
| HlsConverter.GenerateThumbnail | backend/hls-converter.js:194-219 | one screenshot job at the given second, size 320x180; the result is the output path or the encoder's error; the file is written only on `end`; the output's directory is created if absent |
| HlsConverter.DeclaredQualitiesWellNamed | backend/hls-converter.js:94-98 | the declared profiles have distinct names, none called "master" |
| HlsConverter.OutputFilesDistinct | backend/hls-converter.js:118 | distinct profile names give distinct media playlists, none equal to the master playlist |
| HlsConverter.RenditionOutputsDistinct | backend/hls-converter.js:118 | no two jobs of a run write the same file, and none writes the master playlist |
| HlsConverter.SuccessPublishesEveryRendition | backend/hls-converter.js:103-145 | when a conversion resolves, every profile was encoded in declaration order and ended; every listed playlist is on disk with what its encoder wrote; the master playlist lists all descriptors in order; the result names `<base>_master.m3u8` and the full profile list |
| HlsConverter.FailureAbortsRemainingRenditions | backend/hls-converter.js:147-150 | when a conversion rejects, the error is the first failed encode's message; no later profile was started; no master playlist was written; exactly the earlier profiles' playlists were |
| HlsConverter.SuccessIffEveryEncodeEnds | backend/hls-converter.js:103-150 | a conversion resolves if and only if every profile's encode ends |
| HlsConverter.BandwidthOfKbps | backend/hls-converter.js:142 | a bitrate `${n}k` has bandwidth n * 1000 |
| HlsConverter.DeclaredFiles | backend/hls-converter.js:139-143 | the media playlists are `<base>_360p.m3u8`, `<base>_480p.m3u8` and `<base>_720p.m3u8` |
| HlsConverter.Declared360 | backend/hls-converter.js:94-98 | the 360p profile has resolution "640x360" and bandwidth 800000 |
| HlsConverter.Declared480 | backend/hls-converter.js:94-98 | the 480p profile has resolution "854x480" and bandwidth 1400000 |
| HlsConverter.Declared720 | backend/hls-converter.js:94-98 | the 720p profile has resolution "1280x720" and bandwidth 2800000 |
| HlsConverter.Resolution | backend/hls-converter.js:125 | the `WIDTHxHEIGHT` text handed to FFmpeg and reported in the descriptor (definition; see `ResolutionReadsBack`) |
| HlsConverter.ResolutionReadsBack | backend/hls-converter.js:143 | a resolution contains no newline and no comma, and `parseInt` of it gives back the width |
| HlsConverter.VariantFile | backend/hls-converter.js:118 | `<base>_<name>.m3u8` (definition; see `PlaylistNames`) |
| HlsConverter.MasterFile | backend/hls-converter.js:89 | `<base>_master.m3u8` (definition; see `PlaylistNames`) |
| HlsConverter.PlaylistNames | backend/hls-converter.js:89-118 | media and master playlists both start with `<base>_` and end in ".m3u8"; a media playlist has the master's name if and only if its profile is called "master" |
| HlsConverter.Describe | backend/hls-converter.js:139-144 | the descriptor pushed on `end` (definition; see `DescriptorMatchesJob`) |
| HlsConverter.RenditionJob | backend/hls-converter.js:122-136 | the encode started for one profile (definition; see `DescriptorMatchesJob`) |
| HlsConverter.DescriptorMatchesJob | backend/hls-converter.js:118-143 | the descriptor's file, joined to the output directory, is the encode's output; its resolution is the encode's size; the encode gets the profile's bitrate and the descriptor its bandwidth |
| HlsConverter.PlanConversion | backend/hls-converter.js:82-156 | the reference semantics of one conversion (definition; its properties are the lemmas in these rows) |
| HlsConverter.DeclaredDescriptors | backend/hls-converter.js:139-144 | the three descriptors, in order, with their files, bandwidths and resolutions |
| UploadRoute.FileFilter | backend/routes/upload.js:41-57 | a file is accepted if and only if its MIME type is one of the six listed; otherwise the refusal carries the invalid-type message |
| UploadRoute.AllowedMimesAreVideo | backend/routes/upload.js:43-50 | every whitelisted type starts with "video/" |
| UploadRoute.WithinSizeLimit | backend/routes/upload.js:39 | a size is accepted exactly when it is at most 100 * 1024 * 1024 bytes (definition) |
| UploadRoute.TempName | backend/routes/upload.js:31 | `<now>-<originalname>` (definition; see `TempNameTimestamp` and `TempPathsDistinct`) |
| UploadRoute.TempNameTimestamp | backend/routes/upload.js:31 | `parseInt` of a temp name gives back its timestamp |
| UploadRoute.TempPathsDistinct | backend/routes/upload.js:30-33 | uploads of one name at different milliseconds get different temp files |
| UploadRoute.StoreUpload | backend/routes/upload.js:22-34 | the temp directory is created if absent; the file is written at `uploads/temp/<now>-<name>`; `req.file` reports that path and the size |
| UploadRoute.OutputDirFor | backend/routes/upload.js:81 | the output directory is a non-empty path; it is `uploads/hls/<base>` for every base name other than "", "." and "..", and the HLS root itself for "" and "." (see also `OwnDirectoryUnlessDotName`) |
| UploadRoute.VideoUrl | backend/routes/upload.js:108 | `<baseUrl>/videos/<base>/<file>` (definition) |
| UploadRoute.ErrorText | backend/routes/upload.js:142 | a non-empty message is reported as is; the text is never empty |
| UploadRoute.DiscardAsWritten | backend/routes/upload.js:132-138 | the effect of the catch block on a snapshot of the disk, as written (definition; see `ConfinedMatchesAsWritten`) |
| UploadRoute.Discard | backend/routes/upload.js:132-138 | the same effect with the removal confined to the HLS root (definition; see `DiscardContained`) |
| UploadRoute.ConfinedMatchesAsWritten | backend/routes/upload.js:132-138 | for every base name other than "", "." and "..", the confined cleanup is exactly the cleanup as written |
| UploadRoute.DiscardFailedUploadAsWritten | backend/routes/upload.js:132-138 | the catch block as written: the temp file goes, and the output directory goes wherever it resolved |
| UploadRoute.DiscardFailedUpload | backend/routes/upload.js:132-138 | the same cleanup, removing the output directory only when it lies strictly inside the HLS root |
| UploadRoute.ThumbnailJob | backend/routes/upload.js:91-94 | the screenshot at 2 s into `<dir>/thumbnail.jpg` (definition; see `ThumbnailInOutputDir`) |
| UploadRoute.ThumbnailInOutputDir | backend/routes/upload.js:91 | the thumbnail's directory is the output directory |
| UploadRoute.PublishUpload | backend/routes/upload.js:90-127 | one thumbnail job at 2 s into `thumbnail.jpg`; a thumbnail failure only leaves `thumbnailUrl` absent; the reply is 200 with the manifest URL and file; the temp file is deleted; nothing else changes |
| UploadRoute.HandleUpload | backend/routes/upload.js:65-145 | without a file: 400 "No video file provided", no job, no change; otherwise the conversion runs on the temp path, `uploads/hls/<base>` and the original name with `PlanConversion`'s effects; on rejection 500 with the error text and the confined cleanup; on success the thumbnail, the 200 reply and the deletion, after the conversion |
| UploadRoute.DiscardContained | backend/routes/upload.js:132-138 | the cleanup removes the temp file, and only files inside an output directory that lies in the root; every kept file keeps its content |
| UploadRoute.OwnDirectoryUnlessDotName | backend/routes/upload.js:80-81 | a base name gets its own directory just below the HLS root exactly when it is not "", "." or ".." |
| UploadRoute.OutputDirsDisjoint | backend/routes/upload.js:80-81 | two different base names never share a path in their output directories |
| UploadRoute.FailedUploadSparesOthers | backend/routes/upload.js:136-138 | a failed upload leaves every file of another upload's directory as it was |
| UploadRoute.DotNameEscapesLibrary | backend/routes/upload.js:80-81 | "...mp4" has the base name "..", so its output directory is `uploads`, which contains the whole HLS root |
| UploadRoute.StemOfTripleDot | backend/routes/upload.js:80 | `path.parse("...mp4").name` is ".." |
| UploadRoute.AsWrittenCleanupWipesLibrary | backend/routes/upload.js:136-138 | as written, a failed conversion of "...mp4" deletes every file of the HLS library |
| UploadRoute.DoubleDotNameIsLibrary | backend/routes/upload.js:80-81 | `path.parse("..mp4").name` is ".", so its output directory is the HLS root itself |
| UploadRoute.AsWrittenCleanupWipesLibraryFromDotDot | backend/routes/upload.js:136-138 | as written, a failed conversion of "..mp4" deletes every file of the HLS library |
| UploadRoute.DotNameCleanupKeepsLibrary | backend/routes/upload.js:136-138 | with the confined cleanup, a dot name costs only its temp file |
| Player.LogEntry | frontend/player.js:315 | `[<time>] <message>` (definition) |
| Player.NewestFirst | frontend/player.js:319-322 | the log of a history holds at most ten entries |
| Player.NewestFirstEntries | frontend/player.js:317-322 | the log is the last ten entries of the history, newest first |
| Player.LogAfter | frontend/player.js:317-322 | `unshift` then `slice(0, 10)`: the new entry is first, followed by the old log truncated so the total is at most ten |
| Player.LogAfterNewestFirst | frontend/player.js:317-322 | adding an entry to the log of a history gives the log of the extended history |
| Player.LatestSamples | frontend/player.js:187-190 | the window holds at most five samples |
| Player.LatestSamplesAreLast | frontend/player.js:187-190 | the window is the last five samples of the history, oldest first; all of them while there are at most five |
| Player.SampleAfter | frontend/player.js:187-190 | `push` then `shift`: the new sample is last, the window stays within five, and it only grows while not full |
| Player.SampleAfterLatest | frontend/player.js:187-190 | recording into the window of a history gives the window of the extended history (FIFO) |
| Player.Measured | frontend/player.js:177-182 | a sample is taken if and only if stats exist and both bytes and load time are positive |
| Player.ChooseRoute | frontend/player.js:34-46 | a ".m3u8" URL goes to hls.js if supported, else to native playback if the element plays HLS, else to an error; any other URL plays directly (each case if and only if) |
| Player.Dispatch | frontend/player.js:144-160 | non-fatal errors are ignored; a fatal network error restarts loading, a fatal media error recovers, any other fatal error reports "Fatal error: <type>" |
| Player.QualityLabel | frontend/player.js:411-421 | -1 is labelled "Auto", any other level "Level <n>" |
| Player.QualityLabelInjective | frontend/player.js:411-421 | different levels get different labels |
| Player.SetupLog | frontend/player.js:61 | the entry each route's setup adds: none for hls.js, one for native, unsupported and direct playback (definition; see `InitPlayer`) |
| Player.PlayerSession.constructor | frontend/player.js:1-8 | the module's state at page load |
| Player.PlayerSession.AddEventLog | frontend/player.js:313-322 | the new entry `[time] message` is first; the log is the last ten entries of the history, newest first; nothing else changes |
| Player.PlayerSession.ReportError | frontend/player.js:343-346 | logs "Error: <message>" and sets the playback state to "Error" |
| Player.PlayerSession.InitPlayer | frontend/player.js:27-53 | the start is logged; the route is `ChooseRoute`'s; hls.js gets a fresh instance on the URL, native and direct playback point the video at it, the unsupported case reports the error; the metrics timer runs |
| Player.PlayerSession.OnFragLoaded | frontend/player.js:173-201 | the state shows "Playing"; a measurable fragment slides the window by one sample; otherwise the window and the last load are unchanged |
| Player.PlayerSession.RecordSample | frontend/player.js:187-198 | the window slides by one sample, and the last load is remembered |
| Player.PlayerSession.OnHlsError | frontend/player.js:141-161 | applies `Dispatch`: counts a restart or a recovery on the instance, or reports the error; logs accordingly |
| Player.PlayerSession.SelectQuality | frontend/player.js:408-425 | -1 sets level -1 and the label "Auto"; any other value sets that level and the label "Level n"; either choice is logged |
| Player.PlayerSession.StopPlayer | frontend/player.js:355-387 | no hls.js instance and no timer; the video source is cleared and the log emptied; the status texts are reset; the sample window is untouched |
| App.CheckFile | frontend/app.js:124-136 | a type not starting with "video/" is refused first, then a size above 100 * 1024 * 1024, so exactly 104857600 bytes passes; each refusal carries its message; acceptance holds if and only if both checks pass |
| App.ServerAcceptedPassesPage | frontend/app.js:124-136 | every file the server's filter and size limit accept passes the page's check |
| App.PageAdmitsWhatServerRefuses | frontend/app.js:126 | the converse fails: "video/ogg" passes the page but the server refuses it |
| App.Classify | frontend/app.js:47-56 | a step is completed if and only if it is before the current one, active if and only if it is the current one, never both |
| App.UpdateMarksProgress | frontend/app.js:46-56 | after `updatePipelineStep(s)` exactly the steps before s are completed, only s is active, no step is both, and missing elements stay missing |
| App.ProgressMonotone | frontend/app.js:47-56 | a step completed or active at one index is completed at any later index |
| App.UploadPage.constructor | frontend/app.js:35-40 | the page's steps hold the elements found, with their classes |
| App.UploadPage.RestyleSteps | frontend/app.js:47-49 | the loop restyles every step that has an element and keeps missing ones missing |
| App.UploadPage.UpdatePipelineStep | frontend/app.js:46-61 | the steps are restyled by progress at the index; the processing text becomes the step's label only when 0 <= index < 5; nothing else changes |
| App.UploadPage.ResetPipelineSteps | frontend/app.js:66-72 | every step that has an element loses both classes |
| App.UploadPage.HandleUploadSuccess | frontend/app.js:228-243 | every step that has an element is completed and not active; the processing text is "Complete! Loading video..."; the status text is "✅ Video uploaded successfully! Loading player..."; the current file and the uploads are unchanged |
| App.UploadPage.UploadVideo | frontend/app.js:146-158 | the upload is recorded once, and the pipeline shows step 0 as active with its label |
| App.UploadPage.HandleFileSelection | frontend/app.js:124-140 | a refused file only sets the status text; an accepted one becomes the current file and starts exactly one upload |
| App.UploadPage.ResetUpload | frontend/app.js:295-311 | the player is stopped as `StopPlayer` states: no instance, no timer, no video source, an empty log and history, the texts "Ready" and "Auto", the route, last load and sample window kept; the current file is cleared; every step loses both classes; the page's texts and uploads are unchanged |
| App.RestyleTwice | frontend/app.js:157-158 | clearing the steps before restyling them changes nothing |
| App.SuccessAndResetStyles | frontend/app.js:232-237 | after success every present step is completed and not active; after a reset every present step has neither class |

The upload handler uses the confined cleanup `DiscardFailedUpload`, not the
cleanup as written (see Findings).

## Left out

- I/O is reduced to a map of files and a set of directories. Console
  output, alerts, the DOM, the XHR request, `setTimeout` stages and the
  metrics `setInterval` body are not modelled.
- The clock and locale time are parameters: `now` and `stamp`.
- The base URL built from `NODE_ENV`, the host and `PORT` is a parameter
  `baseUrl`.
- FFmpeg is an oracle. Codec options are not modelled, and a failed encode
  leaves no partial file.
- Ffmpeg.Encoder.Run: each encode writes one file. Its `.ts` segment files
  are folded into the content of its playlist file.
- Manifest write failure is not modelled. `writeFileSync` throws outside the
  promise executor, so it is not a clean rejection path.
- Concurrency: the callbacks and promises are sequential calls. Two
  uploads running at once are not modelled.
- The rate limiter, `GET /health` and `backend/server.js` are not part of
  this model. That includes the error middleware that answers multer's
  errors: a refused type, and a file over the size limit.
  `UploadRoute.HandleUpload` starts after multer has accepted the file.
- `frontend/player-controls.js` is not part of this model.
- Floating point is not modelled.
  - Integer arithmetic is taken as exact, and numbers render as plain
    digits. JavaScript multiplies exactly only up to 2^53 and writes `${n}`
    in exponent form from 1e21. `HlsConverter.BandwidthOfKbps` holds for
    every n in the model. The declared bitrates are far below both limits.
  - This covers the Mbps figure, its moving average and every `toFixed`
    text.
  - It also covers `formatFileSize`.
  - The sample window holds each fragment's byte count and load time.
- hls.js internals are not modelled, and neither are the `MANIFEST_PARSED`,
  `LEVEL_SWITCHED`, `LEVEL_LOADING`, `FRAG_BUFFERED` and `FRAG_LOADING`
  handlers. Their effects beyond display are therefore missing:
  - the event-log entries added at `frontend/player.js:106` and
    `frontend/player.js:133`;
  - the current-quality text written by `updateQualityInfo`
    (`frontend/player.js:302-305`) and by the metrics interval
    (`frontend/player.js:281-285`), which overwrite the label that
    `Player.PlayerSession.SelectQuality` sets;
  - `populateQualitySelector` adds one more `change` listener for every
    parsed manifest (`frontend/player.js:408`), so after a second manifest
    one selection runs the effects of `SelectQuality` twice, logging two
    entries. The model runs them once.
- `getPlaybackStats` and the selector's option texts are display only.
- The video element's listeners are not modelled: `setupVideoListeners`,
  `loadedmetadata` and `canplay`.
- `handleUploadError` is not modelled. Nor are the drop handler, the
  progress bar, the status element's class, display and auto-hide, or the
  delayed `initPlayer` call after a success. The status text itself is a
  field.
- Text.ParseInt: no leading whitespace, no sign and no `0x` hexadecimal
  prefix. The bitrates and time stamps it reads are decimal digits
  followed by a non-digit.
- Paths.Join, Paths.Dirname, Paths.LastSegment: no normalisation beyond a
  single segment. They agree with Node's `path` for a directory without a
  trailing separator and a name without separators, which is how every
  call in the model uses them. Node differs elsewhere: `path.join("out/",
  "x")` is "out/x" and `path.join("", "x")` is "x"; `path.dirname("a/b/")`
  is "a"; `path.basename("a/b/")` is "b"; `path.dirname("//x")` is "//".
- Paths.JoinSegment: normalises a single segment only. Upload names cannot
  contain separators, because busboy keeps only the base name of the
  client's file name.
- Storage.Disk.MakeDirectory: adds only the named directory, not its
  missing parents as `recursive: true` would. The disk therefore does not
  require a path's parents to be directories, so `Exists(d)` can be false
  while files lie below `d`, where `fs.existsSync` would be true.
  `HlsConverter.Cleanup` and `UploadRoute.DiscardAsWritten` then keep those
  files.
- Storage.Disk.Unlink: requires a file. The source's `existsSync` check is
  also true for a directory, on which `unlinkSync` throws, so the handler
  deletes the temp path only when it is a file.
- HlsConverter.CreateMasterPlaylist: the unused `baseName` parameter is
  dropped.
- Player.PlayerSession.RecordSample: stores the byte count and load time
  instead of the rounded Mbps figure. The average is not modelled.
- Player.PlayerSession.OnHlsError: requires an hls.js instance. The
  handler exists only on one.
- Player.PlayerSession.SelectQuality: requires an hls.js instance. The
  selector is filled only from one. The level's description text is a
  parameter, since it is floating-point display.
- Player.PlayerSession.StopPlayer: the quality selector's options and the
  loading overlay are DOM only.

## Findings

| source | as written | input that shows it | evidently intended | confidence | as-written member | corrected member |
|---|---|---|---|---|---|---|
| backend/routes/upload.js:80-81 | the output directory is `path.join(hlsRoot, path.parse(originalname).name)`, and the catch block at lines 136-138 removes it recursively | an upload named "...mp4" whose conversion fails: its base name is "..", so the directory resolves to `uploads`, and the cleanup deletes the whole upload tree and every converted video; "..mp4" has the base name ".", so the directory is `uploads/hls`, and the cleanup deletes the whole HLS library | a failed upload removes only its own directory inside the HLS root | not executed | UploadRoute.AsWrittenCleanupWipesLibrary | UploadRoute.DiscardFailedUpload |

The as-written half is `UploadRoute.DiscardFailedUploadAsWritten`, together
with `UploadRoute.DotNameEscapesLibrary`,
`UploadRoute.AsWrittenCleanupWipesLibrary`,
`UploadRoute.DoubleDotNameIsLibrary` and
`UploadRoute.AsWrittenCleanupWipesLibraryFromDotDot`.

The corrected half is `UploadRoute.DiscardFailedUpload`, with these lemmas:
- `UploadRoute.DiscardContained`: removal stays inside the upload's own
  directory;
- `UploadRoute.FailedUploadSparesOthers`: other uploads are untouched;
- `UploadRoute.DotNameCleanupKeepsLibrary`: a dot name removes only its
  temp file;
- `UploadRoute.ConfinedMatchesAsWritten`: for every other base name it
  does exactly what the code as written does.

`UploadRoute.HandleUpload` uses the corrected half.
