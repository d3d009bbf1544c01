/** The `/upload` route: multer's storage, size limit and MIME filter in
    front of the handler, and the handler itself, which converts the stored
    upload, tries a thumbnail, answers, and cleans up. Paths are relative to
    the back end's directory, so `uploads/hls` stands for
    `path.join(__dirname, '../uploads/hls')`. */
module UploadRoute {
  import opened Wrappers
  import opened Text
  import opened Paths
  import opened Storage
  import opened Ffmpeg
  import opened HlsConverter

  // ------------------------------------------------------------ constants

  const UploadsRoot: Path := "uploads"
  const TempDir: Path := "uploads/temp"
  const HlsRoot: Path := "uploads/hls"

  /** multer's `limits.fileSize`: 100 MB. */
  const MaxFileSize: nat := 100 * 1024 * 1024

  /** The MIME types the file filter lets through. */
  const AllowedMimes: seq<string> := [
    "video/mp4", "video/mpeg", "video/quicktime",
    "video/x-msvideo", "video/webm", "video/x-matroska"
  ]

  const InvalidTypeError: string := "Invalid file type. Only video files are allowed."
  const NoFileError: string := "No video file provided"
  const FallbackError: string := "Failed to upload video"
  const SuccessMessage: string := "Video uploaded and converted to HLS successfully"
  const ThumbnailFile: string := "thumbnail.jpg"
  const ThumbnailSecond: nat := 2

  // ------------------------------------------------------- multer in front

  /** What the file filter tells multer: take the file, or fail the request. */
  datatype Verdict = Accept | Reject(error: string)

  /** multer's `fileFilter`: a whitelist of six video MIME types. */
  function FileFilter(mimeType: string): (v: Verdict)
    ensures v.Accept? <==> mimeType in AllowedMimes
    ensures v.Reject? ==> v.error == InvalidTypeError
  {
    if mimeType in AllowedMimes then Accept else Reject(InvalidTypeError)
  }

  /** Every whitelisted type is a `video/` type. */
  lemma AllowedMimesAreVideo()
    ensures forall m :: m in AllowedMimes ==> StartsWith(m, "video/")
  {
    forall m | m in AllowedMimes ensures StartsWith(m, "video/") {
      var i :| 0 <= i < |AllowedMimes| && AllowedMimes[i] == m;
      assert m[..6] == "video/";
    }
  }

  /** multer's size limit lets a file of exactly `fileSize` bytes through. */
  predicate WithinSizeLimit(size: nat) {
    size <= MaxFileSize
  }

  /** The stored file as the handler sees it in `req.file`. */
  datatype UploadedFile = UploadedFile(originalName: string, mimeType: string, size: nat, path: Path)

  /** The disk storage's file name: the arrival time in milliseconds, a
      dash, then the client's file name. */
  function TempName(now: nat, originalName: string): string {
    NatToString(now) + "-" + originalName
  }

  /** The timestamp can be read back from the front of a temp name. */
  lemma TempNameTimestamp(now: nat, originalName: string)
    ensures ParseInt(TempName(now, originalName)) == Some(now)
  {
    assert TempName(now, originalName) == NatToString(now) + ("-" + originalName);
    ParseIntOfRendered(now, "-" + originalName);
  }

  /** Two uploads of the same name at different milliseconds get different
      temp files. */
  lemma TempPathsDistinct(a: nat, b: nat, originalName: string)
    ensures a != b ==> Join(TempDir, TempName(a, originalName)) != Join(TempDir, TempName(b, originalName))
  {
    if Join(TempDir, TempName(a, originalName)) == Join(TempDir, TempName(b, originalName)) {
      JoinInjective(TempDir, TempName(a, originalName), TempName(b, originalName));
      TempNameTimestamp(a, originalName);
      TempNameTimestamp(b, originalName);
    }
  }

  /** multer's disk storage: creates `uploads/temp` when absent and writes
      the upload's bytes under its temp name. */
  method StoreUpload(disk: Disk, now: nat, originalName: string, mimeType: string, content: string)
    returns (f: UploadedFile)
    modifies disk
    ensures f == UploadedFile(originalName, mimeType, |content|, Join(TempDir, TempName(now, originalName)))
    ensures disk.files == old(disk.files)[f.path := content]
    ensures disk.dirs == if old(disk.Exists(TempDir)) then old(disk.dirs) else old(disk.dirs) + {TempDir}
  {
    if !disk.Exists(TempDir) {
      disk.MakeDirectory(TempDir);
    }
    var path := Join(TempDir, TempName(now, originalName));
    disk.WriteFile(path, content);
    f := UploadedFile(originalName, mimeType, |content|, path);
  }

  // ------------------------------------------------------------ the handler

  /** The JSON body of a reply: the success object, or `success: false`
      with an error text. */
  datatype UploadData = UploadData(fileName: string, hlsUrl: string, manifestFile: string,
                                   thumbnailUrl: Option<string>, size: nat, outputDir: string)
  datatype Body = Uploaded(message: string, data: UploadData) | Refused(error: string)
  datatype Reply = Reply(status: nat, body: Body)

  /** The directory an upload is converted into: `path.join` of the HLS root
      and the name without its extension. */
  function OutputDirFor(baseName: string): (dir: Path)
    ensures dir != []
    ensures baseName != "" && baseName != "." && baseName != ".." ==> dir == Join(HlsRoot, baseName)
    ensures baseName == "" || baseName == "." ==> dir == HlsRoot
  {
    JoinSegment(HlsRoot, baseName)
  }

  /** Where the static server publishes a file of an upload's directory. */
  function VideoUrl(baseUrl: string, baseName: string, file: string): string {
    baseUrl + "/videos/" + baseName + "/" + file
  }

  /** `error.message || 'Failed to upload video'`. */
  function ErrorText(message: string): (t: string)
    ensures t != []
    ensures message != [] ==> t == message
  {
    if message == [] then FallbackError else message
  }

  /** The directory lies strictly inside the HLS root. */
  predicate InsideLibrary(dir: Path) {
    StartsWith(dir, HlsRoot + "/")
  }

  /** Files and directories at one moment. */
  datatype Snapshot = Snapshot(files: map<Path, string>, dirs: set<Path>)

  /** The catch block as written: the temp file goes if present, and the
      output directory, wherever it resolved to, goes if present. */
  function DiscardAsWritten(s: Snapshot, temp: Path, dir: Path): Snapshot {
    var kept := s.files - {temp};
    if dir in kept || dir in s.dirs then Snapshot(PruneFiles(kept, dir), PruneDirs(s.dirs, dir))
    else Snapshot(kept, s.dirs)
  }

  /** The catch block with its removal confined to the HLS root: the output
      directory goes only when it lies strictly inside the root. */
  function Discard(s: Snapshot, temp: Path, dir: Path): Snapshot {
    var kept := s.files - {temp};
    if InsideLibrary(dir) && (dir in kept || dir in s.dirs) then Snapshot(PruneFiles(kept, dir), PruneDirs(s.dirs, dir))
    else Snapshot(kept, s.dirs)
  }

  /** Lines 133-138 of the route as written. */
  method DiscardFailedUploadAsWritten(disk: Disk, temp: Path, dir: Path)
    modifies disk
    ensures Snapshot(disk.files, disk.dirs) == DiscardAsWritten(Snapshot(old(disk.files), old(disk.dirs)), temp, dir)
  {
    if temp in disk.files {
      disk.Unlink(temp);
    }
    if disk.Exists(dir) {
      disk.RemoveTree(dir);
    }
  }

  /** The same cleanup, removing the output directory only when it lies
      strictly inside the HLS root. */
  method DiscardFailedUpload(disk: Disk, temp: Path, dir: Path)
    modifies disk
    ensures Snapshot(disk.files, disk.dirs) == Discard(Snapshot(old(disk.files), old(disk.dirs)), temp, dir)
  {
    if temp in disk.files {
      disk.Unlink(temp);
    }
    if InsideLibrary(dir) && disk.Exists(dir) {
      disk.RemoveTree(dir);
    }
  }

  /** The thumbnail request: one frame at 2 s into `thumbnail.jpg` of the
      output directory. */
  function ThumbnailJob(temp: Path, dir: Path): Job {
    Screenshot(temp, Join(dir, ThumbnailFile), ThumbnailSecond, ThumbnailSize)
  }

  /** The thumbnail goes into the output directory itself. */
  lemma ThumbnailInOutputDir(dir: Path)
    requires dir != []
    ensures Dirname(Join(dir, ThumbnailFile)) == dir
  {
    assert '/' !in ThumbnailFile;
    DirnameOfJoin(dir, ThumbnailFile);
  }

  /** The handler after a successful conversion: try the thumbnail, whose
      failure only leaves its URL out, answer 200, delete the temp file. */
  method PublishUpload(disk: Disk, encoder: Encoder, f: UploadedFile, baseUrl: string,
                       baseName: string, dir: Path, manifestFile: string)
    returns (reply: Reply)
    requires dir != [] && disk.Exists(dir)
    modifies disk, encoder
    ensures var job := ThumbnailJob(f.path, dir);
      var thumbnail := encoder.decide(job);
      && reply == Reply(200, Uploaded(SuccessMessage,
           UploadData(f.originalName, VideoUrl(baseUrl, baseName, manifestFile), manifestFile,
                      if thumbnail.Finished? then Some(VideoUrl(baseUrl, baseName, ThumbnailFile)) else None,
                      f.size, baseName)))
      && encoder.calls == old(encoder.calls) + [job]
      && disk.files == (if thumbnail.Finished? then old(disk.files)[job.output := thumbnail.content]
                        else old(disk.files)) - {f.path}
      && disk.dirs == old(disk.dirs)
  {
    var thumbnailPath := Join(dir, ThumbnailFile);
    ThumbnailInOutputDir(dir);
    var thumbnailUrl: Option<string> := None;
    ghost var job := ThumbnailJob(f.path, dir);
    assert job == Screenshot(f.path, thumbnailPath, ThumbnailSecond, ThumbnailSize);
    var thumbnail := GenerateThumbnail(disk, encoder, f.path, thumbnailPath, ThumbnailSecond);
    if thumbnail.Ok? {
      thumbnailUrl := Some(VideoUrl(baseUrl, baseName, ThumbnailFile));
    }
    var hlsUrl := VideoUrl(baseUrl, baseName, manifestFile);
    reply := Reply(200, Uploaded(SuccessMessage,
      UploadData(f.originalName, hlsUrl, manifestFile, thumbnailUrl, f.size, baseName)));
    if f.path in disk.files {
      disk.Unlink(f.path);
    }
  }

  /** `POST /upload` after multer: 400 without a file; otherwise convert,
      then try a thumbnail whose failure is only reported as a missing URL,
      answer 200 and delete the temp file; when the conversion rejects,
      discard the temp file and the output directory and answer 500 with
      the error's message. */
  method HandleUpload(disk: Disk, encoder: Encoder, upload: Option<UploadedFile>, baseUrl: string)
    returns (reply: Reply)
    modifies disk, encoder
    ensures upload.None? ==>
      && reply == Reply(400, Refused(NoFileError))
      && disk.files == old(disk.files) && disk.dirs == old(disk.dirs)
      && encoder.calls == old(encoder.calls)
    ensures upload.Some? ==>
      var f := upload.value;
      var baseName := Stem(f.originalName);
      var dir := OutputDirFor(baseName);
      var plan := PlanConversion(encoder.decide, Qualities, f.path, dir, f.originalName);
      var converted := Snapshot(old(disk.files) + plan.written,
                                if old(disk.Exists(dir)) then old(disk.dirs) else old(disk.dirs) + {dir});
      match plan.result
      case Err(m) =>
        && reply == Reply(500, Refused(ErrorText(m)))
        && encoder.calls == old(encoder.calls) + plan.calls
        && Snapshot(disk.files, disk.dirs) == Discard(converted, f.path, dir)
      case Ok(pkg) =>
        var job := ThumbnailJob(f.path, dir);
        var thumbnail := encoder.decide(job);
        && reply == Reply(200, Uploaded(SuccessMessage,
             UploadData(f.originalName, VideoUrl(baseUrl, baseName, pkg.fileName), pkg.fileName,
                        if thumbnail.Finished? then Some(VideoUrl(baseUrl, baseName, ThumbnailFile)) else None,
                        f.size, baseName)))
        && encoder.calls == old(encoder.calls) + plan.calls + [job]
        && disk.files == (if thumbnail.Finished? then converted.files[job.output := thumbnail.content]
                          else converted.files) - {f.path}
        && disk.dirs == converted.dirs
  {
    if upload.None? {
      return Reply(400, Refused(NoFileError));
    }
    var f := upload.value;
    var baseName := Stem(f.originalName);
    var hlsOutputDir := OutputDirFor(baseName);
    var hlsResult := ConvertToAdaptiveHLS(disk, encoder, f.path, hlsOutputDir, f.originalName);
    match hlsResult
    case Err(m) =>
      DiscardFailedUpload(disk, f.path, hlsOutputDir);
      reply := Reply(500, Refused(ErrorText(m)));
    case Ok(pkg) =>
      reply := PublishUpload(disk, encoder, f, baseUrl, baseName, hlsOutputDir, pkg.fileName);
  }

  // ------------------------------------------------------------ properties

  /** The cleanup removes the temp file and, when the output directory lies
      inside the HLS root, that directory's files; nothing else is removed or
      altered. */
  lemma DiscardContained(s: Snapshot, temp: Path, dir: Path)
    ensures var r := Discard(s, temp, dir);
      && temp !in r.files
      && (forall p :: p in s.files && p !in r.files ==> p == temp || (InsideLibrary(dir) && Within(p, dir)))
      && (forall p :: p in r.files ==> p in s.files && r.files[p] == s.files[p])
      && (InsideLibrary(dir) ==> dir !in r.files && dir !in r.dirs)
  {
  }

  /** An extension-less name gets a directory of its own just below the HLS
      root exactly when it is not "", "." or "..". */
  lemma OwnDirectoryUnlessDotName(baseName: string)
    requires '/' !in baseName
    ensures InsideLibrary(OutputDirFor(baseName)) <==> baseName != "" && baseName != "." && baseName != ".."
    ensures InsideLibrary(OutputDirFor(baseName)) ==> Dirname(OutputDirFor(baseName)) == HlsRoot
  {
    var dir := OutputDirFor(baseName);
    if baseName == "" || baseName == "." {
      assert dir == HlsRoot;
      assert |dir| < |HlsRoot + "/"|;
    } else if baseName == ".." {
      assert HlsRoot[7] == '/' && '/' !in HlsRoot[8..];
      assert LastIndexOf(HlsRoot, '/') == Some(7);
      assert dir == UploadsRoot;
      assert |dir| < |HlsRoot + "/"|;
    } else {
      assert dir == HlsRoot + "/" + baseName;
      assert dir[..|HlsRoot + "/"|] == HlsRoot + "/";
      DirnameOfJoin(HlsRoot, baseName);
    }
  }

  /** Two different names never share a file: no path lies in both of their
      output directories. */
  lemma OutputDirsDisjoint(a: string, b: string, p: Path)
    requires '/' !in a && '/' !in b && a != b
    requires InsideLibrary(OutputDirFor(a)) && InsideLibrary(OutputDirFor(b))
    ensures !(Within(p, OutputDirFor(a)) && Within(p, OutputDirFor(b)))
  {
    OwnDirectoryUnlessDotName(a);
    OwnDirectoryUnlessDotName(b);
    SiblingsDisjoint(HlsRoot, a, b, p);
  }

  /** A failed upload whose name has its own directory leaves every other
      upload's directory as it was. */
  lemma FailedUploadSparesOthers(s: Snapshot, temp: Path, a: string, b: string, p: Path)
    requires '/' !in a && '/' !in b && a != b
    requires InsideLibrary(OutputDirFor(b))
    requires p in s.files && p != temp && Within(p, OutputDirFor(b))
    ensures var r := Discard(s, temp, OutputDirFor(a));
      p in r.files && r.files[p] == s.files[p]
  {
    DiscardContained(s, temp, OutputDirFor(a));
    if InsideLibrary(OutputDirFor(a)) {
      OutputDirsDisjoint(a, b, p);
    }
  }

  /** The name "...mp4" has the stem "..", so its output directory is the
      uploads directory itself, which holds the whole HLS library. */
  lemma DotNameEscapesLibrary()
    ensures Stem("...mp4") == ".."
    ensures OutputDirFor(Stem("...mp4")) == UploadsRoot
    ensures forall p :: Within(p, HlsRoot) ==> Within(p, UploadsRoot)
  {
    StemOfTripleDot();
    ParentOfHlsRoot();
    forall p | Within(p, HlsRoot) ensures Within(p, UploadsRoot) {
      WithinParent(p, UploadsRoot, "hls");
    }
  }

  lemma StemOfTripleDot()
    ensures Stem("...mp4") == ".."
  {
    var name := "...mp4";
    assert name[2] == '.' && '.' !in name[3..];
    assert LastIndexOf(name, '.') == Some(2);
    assert LastSegment(name) == name;
  }

  lemma ParentOfHlsRoot()
    ensures Dirname(HlsRoot) == UploadsRoot && HlsRoot == Join(UploadsRoot, "hls")
  {
    assert HlsRoot[7] == '/' && '/' !in HlsRoot[8..];
    assert LastIndexOf(HlsRoot, '/') == Some(7);
  }

  /** As written, the cleanup after a failed conversion of "...mp4" removes
      every file of the HLS library along with the uploads directory. */
  lemma AsWrittenCleanupWipesLibrary(s: Snapshot, temp: Path)
    requires UploadsRoot in s.dirs
    ensures var r := DiscardAsWritten(s, temp, OutputDirFor(Stem("...mp4")));
      forall p :: Within(p, HlsRoot) ==> p !in r.files
  {
    DotNameEscapesLibrary();
  }

  /** The name "..mp4" has the stem ".", so its output directory is the
      HLS root itself. */
  lemma DoubleDotNameIsLibrary()
    ensures Stem("..mp4") == "."
    ensures OutputDirFor(Stem("..mp4")) == HlsRoot
  {
    var name := "..mp4";
    assert name[1] == '.' && '.' !in name[2..];
    assert LastIndexOf(name, '.') == Some(1);
    assert LastSegment(name) == name;
  }

  /** As written, the cleanup after a failed conversion of "..mp4" removes
      every file of the HLS library. */
  lemma AsWrittenCleanupWipesLibraryFromDotDot(s: Snapshot, temp: Path)
    requires HlsRoot in s.dirs
    ensures var r := DiscardAsWritten(s, temp, OutputDirFor(Stem("..mp4")));
      forall p :: Within(p, HlsRoot) ==> p !in r.files
  {
    DoubleDotNameIsLibrary();
  }

  /** For every name with a directory of its own, the confined cleanup is
      the cleanup as written: the two differ only for "", "." and "..". */
  lemma ConfinedMatchesAsWritten(s: Snapshot, temp: Path, baseName: string)
    requires '/' !in baseName && baseName != "" && baseName != "." && baseName != ".."
    ensures Discard(s, temp, OutputDirFor(baseName)) == DiscardAsWritten(s, temp, OutputDirFor(baseName))
  {
    OwnDirectoryUnlessDotName(baseName);
  }

  /** With the confined cleanup, a dot name costs only its temp file. */
  lemma DotNameCleanupKeepsLibrary(s: Snapshot, temp: Path, baseName: string)
    requires baseName == "" || baseName == "." || baseName == ".."
    ensures Discard(s, temp, OutputDirFor(baseName)).files == s.files - {temp}
  {
    OwnDirectoryUnlessDotName(baseName);
  }
}
