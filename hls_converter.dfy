/** The HLS packaging pipeline: one input video is encoded, strictly one
    quality profile after another, into one media playlist per profile, and
    only when every encode has ended is the master playlist written that
    lists them in declaration order. */
module HlsConverter {
  import opened Wrappers
  import opened Text
  import opened Paths
  import opened Storage
  import opened Ffmpeg
  import opened Manifest
  import opened Runs

  /** A quality profile: target geometry and the video bitrate handed to
      the encoder, a number followed by a unit suffix ("800k"). */
  datatype Profile = Profile(name: string, width: nat, height: nat, bitrate: string)

  /** The profiles every adaptive conversion encodes, in this order. */
  const Qualities: seq<Profile> := [
    Profile("360p", 640, 360, "800k"),
    Profile("480p", 854, 480, "1400k"),
    Profile("720p", 1280, 720, "2800k")
  ]

  const AudioBitrate: string := "128k"
  /** `-hls_time 10`: target segment duration, in seconds. */
  const SegmentSeconds: nat := 10
  const ThumbnailSize: string := "320x180"

  /** `{ success: true, manifestPath, outputDir, fileName }` of `convertToHLS`. */
  datatype SinglePackage = SinglePackage(manifestPath: Path, outputDir: Path, fileName: string)

  /** `{ success: true, manifestPath, outputDir, fileName, qualities }` of
      `convertToAdaptiveHLS`. */
  datatype AdaptivePackage = AdaptivePackage(manifestPath: Path, outputDir: Path, fileName: string, qualities: seq<Profile>)

  // ---------------------------------------------------------------- naming

  /** `${width}x${height}`. */
  function Resolution(q: Profile): string {
    NatToString(q.width) + "x" + NatToString(q.height)
  }

  /** `${baseName}_${quality.name}.m3u8`, the media playlist of one profile. */
  function VariantFile(baseName: string, q: Profile): string {
    baseName + "_" + q.name + ".m3u8"
  }

  /** `${baseName}_master.m3u8`. */
  function MasterFile(baseName: string): string {
    baseName + "_master.m3u8"
  }

  /** `parseInt(bitrate) * 1000`: a bitrate in kbit/s as bit/s. */
  function Bandwidth(bitrate: string): (b: Option<nat>)
    ensures b.Some? <==> |bitrate| > 0 && IsDigit(bitrate[0])
    ensures b.Some? ==> b.value % 1000 == 0
  {
    match ParseInt(bitrate)
    case Some(n) => Some(n * 1000)
    case None => None
  }

  /** The descriptor pushed when a profile's encode ends. */
  function Describe(baseName: string, q: Profile): Variant {
    Variant(q.name, VariantFile(baseName, q), Bandwidth(q.bitrate), Resolution(q))
  }

  function Descriptors(baseName: string, ps: seq<Profile>): (vs: seq<Variant>)
    ensures |vs| == |ps|
  {
    seq(|ps|, i requires 0 <= i < |ps| => Describe(baseName, ps[i]))
  }

  /** What the encoder is told for one profile: write `VariantFile` into the
      output directory at that profile's size and bitrates. */
  function RenditionJob(inputPath: Path, outputDir: Path, baseName: string, q: Profile): Job {
    Rendition(inputPath, Join(outputDir, VariantFile(baseName, q)), Resolution(q), q.bitrate, AudioBitrate, SegmentSeconds)
  }

  function RenditionJobs(inputPath: Path, outputDir: Path, baseName: string, ps: seq<Profile>): (jobs: seq<Job>)
    ensures |jobs| == |ps|
  {
    seq(|ps|, i requires 0 <= i < |ps| => RenditionJob(inputPath, outputDir, baseName, ps[i]))
  }

  // ------------------------------------------------- the run, as a function

  /** Everything one adaptive conversion does: the jobs it starts, in order,
      the files it writes, and how its promise settles. */
  datatype Plan = Plan(calls: seq<Job>, written: map<Path, string>, result: Result<AdaptivePackage>)

  /** The reference semantics of `convertToAdaptiveHLS` for the encoder
      oracle `decide`: jobs run in declaration order up to and including the
      first failure; the master playlist is added only when none failed. */
  function PlanConversion(decide: Job -> Outcome, profiles: seq<Profile>, inputPath: Path,
                          outputDir: Path, fileName: string): Plan
  {
    var baseName := Stem(fileName);
    var jobs := RenditionJobs(inputPath, outputDir, baseName, profiles);
    var outs := Outcomes(decide, jobs);
    var k := FirstFailure(outs);
    if k == |jobs| then
      var manifestPath := Join(outputDir, MasterFile(baseName));
      Plan(jobs,
           Produced(jobs, outs, k)[manifestPath := MasterPlaylist(Descriptors(baseName, profiles))],
           Ok(AdaptivePackage(manifestPath, outputDir, MasterFile(baseName), profiles)))
    else
      Plan(jobs[..k + 1], Produced(jobs, outs, k), Err(outs[k].message))
  }

  /** A resolution is one attribute-safe token whose leading integer is
      the width. */
  lemma ResolutionReadsBack(q: Profile)
    ensures var r := Resolution(q);
      '\n' !in r && ',' !in r && ParseInt(r) == Some(q.width)
  {
    var h := NatToString(q.height);
    ParseIntOfRendered(q.width, "x" + h);
    assert NatToString(q.width) + "x" + h == NatToString(q.width) + ("x" + h);
  }

  /** Every playlist of a conversion is named `<baseName>_….m3u8`, and the
      master's name differs from every media playlist's. */
  lemma PlaylistNames(baseName: string, q: Profile)
    ensures var v := VariantFile(baseName, q);
      StartsWith(v, baseName + "_") && v[|v| - 5..] == ".m3u8"
    ensures var m := MasterFile(baseName);
      StartsWith(m, baseName + "_") && m[|m| - 5..] == ".m3u8"
    ensures VariantFile(baseName, q) == MasterFile(baseName) <==> q.name == "master"
  {
    var v, m := VariantFile(baseName, q), MasterFile(baseName);
    assert v[|baseName| + 1..] == q.name + ".m3u8";
    assert m[|baseName| + 1..] == "master.m3u8";
    if v == m {
      assert q.name == (q.name + ".m3u8")[..|q.name|];
    }
  }

  /** The descriptor of a profile names the very file its encode writes,
      and reports the very size the encoder was given. */
  lemma DescriptorMatchesJob(inputPath: Path, outputDir: Path, baseName: string, q: Profile)
    ensures var job := RenditionJob(inputPath, outputDir, baseName, q);
      var v := Describe(baseName, q);
      && job.output == Join(outputDir, v.file)
      && job.size == v.resolution
      && job.videoBitrate == q.bitrate && v.bandwidth == Bandwidth(q.bitrate)
  {
  }

  /** `PlanConversion` unfolded for a run that stopped at `k`. */
  lemma PlanCases(decide: Job -> Outcome, profiles: seq<Profile>, inputPath: Path, outputDir: Path,
                  fileName: string, jobs: seq<Job>, outs: seq<Outcome>, k: nat)
    requires jobs == RenditionJobs(inputPath, outputDir, Stem(fileName), profiles)
    requires outs == Outcomes(decide, jobs) && k == FirstFailure(outs)
    ensures var plan := PlanConversion(decide, profiles, inputPath, outputDir, fileName);
      var baseName := Stem(fileName);
      var manifestPath := Join(outputDir, MasterFile(baseName));
      && (k < |jobs| ==> plan == Plan(jobs[..k + 1], Produced(jobs, outs, k), Err(outs[k].message)))
      && (k == |jobs| ==> plan == Plan(jobs,
            Produced(jobs, outs, k)[manifestPath := MasterPlaylist(Descriptors(baseName, profiles))],
            Ok(AdaptivePackage(manifestPath, outputDir, MasterFile(baseName), profiles))))
  {
  }

  lemma DescriptorsSnoc(baseName: string, ps: seq<Profile>, i: nat)
    requires i < |ps|
    ensures Descriptors(baseName, ps[..i + 1]) == Descriptors(baseName, ps[..i]) + [Describe(baseName, ps[i])]
  {
    var a := Descriptors(baseName, ps[..i + 1]);
    var b := Descriptors(baseName, ps[..i]) + [Describe(baseName, ps[i])];
    assert |a| == |b|;
    forall j | 0 <= j < |a| ensures a[j] == b[j] {
      assert ps[..i + 1][j] == ps[j];
    }
  }

  // --------------------------------------------------------- the operations

  /** `createMasterPlaylist(masterPath, variants, baseName)`; `baseName` is
      unused by the source and left out. */
  method CreateMasterPlaylist(disk: Disk, masterPath: Path, variants: seq<Variant>)
    modifies disk
    ensures disk.files == old(disk.files)[masterPath := MasterPlaylist(variants)]
    ensures disk.dirs == old(disk.dirs)
  {
    var content := ComposeMasterPlaylist(variants);
    disk.WriteFile(masterPath, content);
  }

  /** The `processQuality(index)` chain of `convertToAdaptiveHLS`: each
      encode is started only from the `end` of the previous one, and the
      first `error` stops the chain. Returns the descriptors pushed so far
      and the error, if any. */
  method EncodeQualities(disk: Disk, encoder: Encoder, inputPath: Path, outputDir: Path,
                         baseName: string, profiles: seq<Profile>)
    returns (variantPlaylists: seq<Variant>, error: Option<string>)
    modifies disk, encoder
    ensures var jobs := RenditionJobs(inputPath, outputDir, baseName, profiles);
      var outs := Outcomes(encoder.decide, jobs);
      var k := FirstFailure(outs);
      && variantPlaylists == Descriptors(baseName, profiles[..k])
      && error == (if k == |jobs| then None else Some(outs[k].message))
      && encoder.calls == old(encoder.calls) + (if k == |jobs| then jobs else jobs[..k + 1])
      && disk.files == old(disk.files) + Produced(jobs, outs, k)
    ensures disk.dirs == old(disk.dirs)
  {
    ghost var jobs := RenditionJobs(inputPath, outputDir, baseName, profiles);
    ghost var outs := Outcomes(encoder.decide, jobs);
    variantPlaylists := [];
    var index := 0;
    while index < |profiles|
      invariant 0 <= index <= |profiles|
      invariant forall j :: 0 <= j < index ==> outs[j].Finished?
      invariant variantPlaylists == Descriptors(baseName, profiles[..index])
      invariant encoder.calls == old(encoder.calls) + jobs[..index]
      invariant disk.files == old(disk.files) + Produced(jobs, outs, index)
      invariant disk.dirs == old(disk.dirs)
    {
      var quality := profiles[index];
      var job := RenditionJob(inputPath, outputDir, baseName, quality);
      assert job == jobs[index];
      var outcome := encoder.Run(disk, job);
      CallsStep(old(encoder.calls), jobs, index);
      assert outs[index] == outcome;
      if outcome.Failed? {
        FirstFailureAt(outs, index);
        return variantPlaylists, Some(outcome.message);
      }
      ProducedStep(old(disk.files), jobs, outs, index);
      variantPlaylists := variantPlaylists + [Describe(baseName, quality)];
      DescriptorsSnoc(baseName, profiles, index);
      index := index + 1;
    }
    assert jobs[..index] == jobs;
    FirstFailureAt(outs, index);
    error := None;
  }

  /** `convertToAdaptiveHLS(inputPath, outputDir, fileName)`: creates the
      output directory if absent, encodes every declared profile in order,
      and only then writes the master playlist and resolves. */
  method ConvertToAdaptiveHLS(disk: Disk, encoder: Encoder, inputPath: Path, outputDir: Path, fileName: string)
    returns (r: Result<AdaptivePackage>)
    modifies disk, encoder
    ensures var plan := PlanConversion(encoder.decide, Qualities, inputPath, outputDir, fileName);
      && r == plan.result
      && encoder.calls == old(encoder.calls) + plan.calls
      && disk.files == old(disk.files) + plan.written
    ensures disk.dirs == if old(disk.Exists(outputDir)) then old(disk.dirs) else old(disk.dirs) + {outputDir}
  {
    r := ConvertLadder(disk, encoder, inputPath, outputDir, fileName, Qualities);
  }

  /** The body of `convertToAdaptiveHLS` for any ladder of profiles. */
  method ConvertLadder(disk: Disk, encoder: Encoder, inputPath: Path, outputDir: Path, fileName: string,
                       profiles: seq<Profile>)
    returns (r: Result<AdaptivePackage>)
    modifies disk, encoder
    ensures var plan := PlanConversion(encoder.decide, profiles, inputPath, outputDir, fileName);
      && r == plan.result
      && encoder.calls == old(encoder.calls) + plan.calls
      && disk.files == old(disk.files) + plan.written
    ensures disk.dirs == if old(disk.Exists(outputDir)) then old(disk.dirs) else old(disk.dirs) + {outputDir}
  {
    if !disk.Exists(outputDir) {
      disk.MakeDirectory(outputDir);
    }
    var baseName := Stem(fileName);
    var manifestPath := Join(outputDir, MasterFile(baseName));
    var variantPlaylists, error := EncodeQualities(disk, encoder, inputPath, outputDir, baseName, profiles);
    ghost var jobs := RenditionJobs(inputPath, outputDir, baseName, profiles);
    ghost var outs := Outcomes(encoder.decide, jobs);
    ghost var k := FirstFailure(outs);
    PlanCases(encoder.decide, profiles, inputPath, outputDir, fileName, jobs, outs, k);
    if error.Some? {
      return Err(error.value);
    }
    assert profiles[..|profiles|] == profiles;
    CreateMasterPlaylist(disk, manifestPath, variantPlaylists);
    MergeUpdate(old(disk.files), Produced(jobs, outs, k), manifestPath, MasterPlaylist(variantPlaylists));
    r := Ok(AdaptivePackage(manifestPath, outputDir, MasterFile(baseName), profiles));
  }

  /** `convertToHLS(inputPath, outputDir, fileName)`: one rendition written
      straight to `${baseName}.m3u8`; an encoder error rejects with
      "FFmpeg conversion failed: " and the encoder's message. */
  method ConvertToHLS(disk: Disk, encoder: Encoder, inputPath: Path, outputDir: Path, fileName: string)
    returns (r: Result<SinglePackage>)
    modifies disk, encoder
    ensures var manifestPath := Join(outputDir, Stem(fileName) + ".m3u8");
      var job := Playlist(inputPath, manifestPath, SegmentSeconds);
      && encoder.calls == old(encoder.calls) + [job]
      && r == (match encoder.decide(job)
               case Finished(_) => Ok(SinglePackage(manifestPath, outputDir, Stem(fileName) + ".m3u8"))
               case Failed(m) => Err("FFmpeg conversion failed: " + m))
      && disk.files == (match encoder.decide(job)
                        case Finished(c) => old(disk.files)[manifestPath := c]
                        case Failed(_) => old(disk.files))
    ensures disk.dirs == if old(disk.Exists(outputDir)) then old(disk.dirs) else old(disk.dirs) + {outputDir}
  {
    if !disk.Exists(outputDir) {
      disk.MakeDirectory(outputDir);
    }
    var baseName := Stem(fileName);
    var manifestPath := Join(outputDir, baseName + ".m3u8");
    var outcome := encoder.Run(disk, Playlist(inputPath, manifestPath, SegmentSeconds));
    match outcome
    case Finished(_) =>
      r := Ok(SinglePackage(manifestPath, outputDir, baseName + ".m3u8"));
    case Failed(message) =>
      r := Err("FFmpeg conversion failed: " + message);
  }

  /** `cleanup(directory)`: afterwards the directory is gone; when it was
      already absent nothing changes. */
  method Cleanup(disk: Disk, directory: Path)
    modifies disk
    ensures !disk.Exists(directory)
    ensures old(disk.Exists(directory)) ==> disk.files == PruneFiles(old(disk.files), directory)
                                            && disk.dirs == PruneDirs(old(disk.dirs), directory)
    ensures !old(disk.Exists(directory)) ==> disk.files == old(disk.files) && disk.dirs == old(disk.dirs)
  {
    if disk.Exists(directory) {
      disk.RemoveTree(directory);
    }
  }

  /** `generateThumbnail(inputPath, outputPath, timeInSeconds)`: one frame
      at `timeInSeconds`, scaled to 320x180, written to `outputPath`; the
      promise resolves to `outputPath` or rejects with the encoder's error. */
  method GenerateThumbnail(disk: Disk, encoder: Encoder, inputPath: Path, outputPath: Path, timeInSeconds: nat)
    returns (r: Result<Path>)
    modifies disk, encoder
    ensures var job := Screenshot(inputPath, outputPath, timeInSeconds, ThumbnailSize);
      && encoder.calls == old(encoder.calls) + [job]
      && r == (match encoder.decide(job)
               case Finished(_) => Ok(outputPath)
               case Failed(m) => Err(m))
      && disk.files == (match encoder.decide(job)
                        case Finished(c) => old(disk.files)[outputPath := c]
                        case Failed(_) => old(disk.files))
    ensures var dir := Dirname(outputPath);
      disk.dirs == if old(disk.Exists(dir)) then old(disk.dirs) else old(disk.dirs) + {dir}
  {
    var outputDir := Dirname(outputPath);
    if !disk.Exists(outputDir) {
      disk.MakeDirectory(outputDir);
    }
    var outcome := encoder.Run(disk, Screenshot(inputPath, outputPath, timeInSeconds, ThumbnailSize));
    match outcome
    case Finished(_) =>
      r := Ok(outputPath);
    case Failed(message) =>
      r := Err(message);
  }

  // ------------------------------------------------------------ properties

  /** No two profiles share a name and none is called "master", so no two
      output files of a run collide. */
  predicate WellNamed(ps: seq<Profile>) {
    && (forall i, j :: 0 <= i < j < |ps| ==> ps[i].name != ps[j].name)
    && (forall i :: 0 <= i < |ps| ==> ps[i].name != "master")
  }

  lemma DeclaredQualitiesWellNamed()
    ensures WellNamed(Qualities)
  {
  }

  /** Distinct profile names give distinct media playlists, and no media
      playlist is the master playlist. */
  lemma OutputFilesDistinct(outputDir: Path, baseName: string, p: Profile, q: Profile)
    ensures p.name != q.name ==> Join(outputDir, VariantFile(baseName, p)) != Join(outputDir, VariantFile(baseName, q))
    ensures q.name != "master" ==> Join(outputDir, VariantFile(baseName, q)) != Join(outputDir, MasterFile(baseName))
  {
    if Join(outputDir, VariantFile(baseName, p)) == Join(outputDir, VariantFile(baseName, q)) {
      JoinInjective(outputDir, VariantFile(baseName, p), VariantFile(baseName, q));
      CancelAffixes(baseName + "_", p.name, q.name, ".m3u8");
    }
    if Join(outputDir, VariantFile(baseName, q)) == Join(outputDir, MasterFile(baseName)) {
      JoinInjective(outputDir, VariantFile(baseName, q), MasterFile(baseName));
      assert MasterFile(baseName) == baseName + "_" + "master" + ".m3u8";
      CancelAffixes(baseName + "_", q.name, "master", ".m3u8");
    }
  }

  lemma RenditionOutputsDistinct(inputPath: Path, outputDir: Path, baseName: string, ps: seq<Profile>)
    requires WellNamed(ps)
    ensures var jobs := RenditionJobs(inputPath, outputDir, baseName, ps);
      && (forall i, j :: 0 <= i < j < |jobs| ==> jobs[i].output != jobs[j].output)
      && (forall i :: 0 <= i < |jobs| ==> jobs[i].output != Join(outputDir, MasterFile(baseName)))
  {
    forall i, j | 0 <= i < |ps| && 0 <= j < |ps|
      ensures i < j ==> Join(outputDir, VariantFile(baseName, ps[i])) != Join(outputDir, VariantFile(baseName, ps[j]))
      ensures Join(outputDir, VariantFile(baseName, ps[i])) != Join(outputDir, MasterFile(baseName))
    {
      OutputFilesDistinct(outputDir, baseName, ps[i], ps[j]);
      OutputFilesDistinct(outputDir, baseName, ps[j], ps[i]);
    }
  }

  /** A conversion that resolves encoded every profile, in declaration
      order, and wrote the master playlist listing every descriptor in that
      order; every playlist the master lists is on disk with what the
      encoder produced for it. */
  lemma SuccessPublishesEveryRendition(decide: Job -> Outcome, profiles: seq<Profile>, inputPath: Path,
                                       outputDir: Path, fileName: string)
    requires WellNamed(profiles)
    requires PlanConversion(decide, profiles, inputPath, outputDir, fileName).result.Ok?
    ensures var plan := PlanConversion(decide, profiles, inputPath, outputDir, fileName);
      var baseName := Stem(fileName);
      var manifestPath := Join(outputDir, MasterFile(baseName));
      var variants := Descriptors(baseName, profiles);
      && |plan.calls| == |profiles|
      && (forall i :: 0 <= i < |profiles| ==>
            plan.calls[i] == RenditionJob(inputPath, outputDir, baseName, profiles[i])
            && decide(plan.calls[i]).Finished?
            && Join(outputDir, variants[i].file) in plan.written
            && plan.written[Join(outputDir, variants[i].file)] == decide(plan.calls[i]).content)
      && manifestPath in plan.written
      && plan.written[manifestPath] == MasterPlaylist(variants)
      && plan.result.value == AdaptivePackage(manifestPath, outputDir, MasterFile(baseName), profiles)
  {
    var baseName := Stem(fileName);
    var jobs := RenditionJobs(inputPath, outputDir, baseName, profiles);
    var outs := Outcomes(decide, jobs);
    var manifestPath := Join(outputDir, MasterFile(baseName));
    var variants := Descriptors(baseName, profiles);
    var plan := PlanConversion(decide, profiles, inputPath, outputDir, fileName);
    assert FirstFailure(outs) == |jobs|;
    var produced := Produced(jobs, outs, |jobs|);
    assert plan.calls == jobs;
    assert plan.written == produced[manifestPath := MasterPlaylist(variants)];
    RenditionOutputsDistinct(inputPath, outputDir, baseName, profiles);
    CompletedRun(decide, jobs, outs, manifestPath, MasterPlaylist(variants));
    forall i | 0 <= i < |profiles|
      ensures Join(outputDir, variants[i].file) == jobs[i].output
    {
    }
  }

  /** A conversion that rejects did so with the message of the first failed
      encode; it started no profile after that one, and it wrote no master
      playlist: only the media playlists of the profiles before it. */
  lemma FailureAbortsRemainingRenditions(decide: Job -> Outcome, profiles: seq<Profile>, inputPath: Path,
                                         outputDir: Path, fileName: string)
    requires WellNamed(profiles)
    requires PlanConversion(decide, profiles, inputPath, outputDir, fileName).result.Err?
    ensures var plan := PlanConversion(decide, profiles, inputPath, outputDir, fileName);
      var baseName := Stem(fileName);
      var k := |plan.calls| - 1;
      && 0 <= k < |profiles|
      && (forall i :: 0 <= i <= k ==> plan.calls[i] == RenditionJob(inputPath, outputDir, baseName, profiles[i]))
      && (forall i :: 0 <= i < k ==> decide(plan.calls[i]).Finished?)
      && decide(plan.calls[k]) == Failed(plan.result.message)
      && Join(outputDir, MasterFile(baseName)) !in plan.written
      && plan.written.Keys == set i | 0 <= i < k :: plan.calls[i].output
  {
    var baseName := Stem(fileName);
    var jobs := RenditionJobs(inputPath, outputDir, baseName, profiles);
    var plan := PlanConversion(decide, profiles, inputPath, outputDir, fileName);
    RenditionOutputsDistinct(inputPath, outputDir, baseName, profiles);
    var outs := Outcomes(decide, jobs);
    var k := FirstFailure(outs);
    FailedPlan(decide, profiles, inputPath, outputDir, fileName, jobs, outs, k);
    StoppedRun(decide, jobs, outs, k, Join(outputDir, MasterFile(baseName)), plan.calls, plan.written);
    assert forall i :: 0 <= i <= k ==> plan.calls[i] == jobs[i];
  }

  /** A conversion that rejects stopped at its first failed encode. */
  lemma FailedPlan(decide: Job -> Outcome, profiles: seq<Profile>, inputPath: Path, outputDir: Path,
                   fileName: string, jobs: seq<Job>, outs: seq<Outcome>, k: nat)
    requires jobs == RenditionJobs(inputPath, outputDir, Stem(fileName), profiles)
    requires outs == Outcomes(decide, jobs) && k == FirstFailure(outs)
    requires PlanConversion(decide, profiles, inputPath, outputDir, fileName).result.Err?
    ensures k < |jobs|
    ensures PlanConversion(decide, profiles, inputPath, outputDir, fileName)
         == Plan(jobs[..k + 1], Produced(jobs, outs, k), Err(outs[k].message))
  {
    PlanCases(decide, profiles, inputPath, outputDir, fileName, jobs, outs, k);
  }

  /** A conversion resolves exactly when every encode ends. */
  lemma SuccessIffEveryEncodeEnds(decide: Job -> Outcome, profiles: seq<Profile>, inputPath: Path,
                                  outputDir: Path, fileName: string)
    ensures var jobs := RenditionJobs(inputPath, outputDir, Stem(fileName), profiles);
      var plan := PlanConversion(decide, profiles, inputPath, outputDir, fileName);
      plan.result.Ok? <==> (forall i :: 0 <= i < |jobs| ==> decide(jobs[i]).Finished?)
  {
    var jobs := RenditionJobs(inputPath, outputDir, Stem(fileName), profiles);
    var outs := Outcomes(decide, jobs);
    var k := FirstFailure(outs);
    if k < |jobs| {
      assert outs[k] == decide(jobs[k]);
    } else {
      forall i | 0 <= i < |jobs| ensures decide(jobs[i]).Finished? {
        assert outs[i] == decide(jobs[i]);
      }
    }
  }

  /** A bitrate written as `${n}k` has bandwidth n * 1000 bit/s. */
  lemma BandwidthOfKbps(bitrate: string, n: nat)
    requires bitrate == NatToString(n) + "k"
    ensures Bandwidth(bitrate) == Some(n * 1000)
  {
    ParseIntOfRendered(n, "k");
  }

  /** The media playlist names of the declared profiles. */
  lemma DeclaredFiles(baseName: string)
    ensures VariantFile(baseName, Qualities[0]) == baseName + "_360p.m3u8"
    ensures VariantFile(baseName, Qualities[1]) == baseName + "_480p.m3u8"
    ensures VariantFile(baseName, Qualities[2]) == baseName + "_720p.m3u8"
  {
    assert "_" + "360p" + ".m3u8" == "_360p.m3u8";
    assert "_" + "480p" + ".m3u8" == "_480p.m3u8";
    assert "_" + "720p" + ".m3u8" == "_720p.m3u8";
  }

  /** The resolution and bandwidth of the 360p profile. */
  lemma Declared360()
    ensures Resolution(Qualities[0]) == "640x360"
    ensures Bandwidth(Qualities[0].bitrate) == Some(800000)
  {
    assert Resolution(Qualities[0]) == "640x360" by {
      assert NatToString(64) == "64";
      assert NatToString(36) == "36";
    }
    assert Qualities[0].bitrate == NatToString(800) + "k" by {
      assert NatToString(80) == "80";
    }
    BandwidthOfKbps(Qualities[0].bitrate, 800);
  }

  /** The resolution and bandwidth of the 480p profile. */
  lemma Declared480()
    ensures Resolution(Qualities[1]) == "854x480"
    ensures Bandwidth(Qualities[1].bitrate) == Some(1400000)
  {
    assert Resolution(Qualities[1]) == "854x480" by {
      assert NatToString(85) == "85";
      assert NatToString(48) == "48";
    }
    assert Qualities[1].bitrate == NatToString(1400) + "k" by {
      assert NatToString(14) == "14";
      assert NatToString(140) == "140";
    }
    BandwidthOfKbps(Qualities[1].bitrate, 1400);
  }

  /** The resolution and bandwidth of the 720p profile. */
  lemma Declared720()
    ensures Resolution(Qualities[2]) == "1280x720"
    ensures Bandwidth(Qualities[2].bitrate) == Some(2800000)
  {
    assert Resolution(Qualities[2]) == "1280x720" by {
      assert NatToString(12) == "12";
      assert NatToString(128) == "128";
      assert NatToString(72) == "72";
    }
    assert Qualities[2].bitrate == NatToString(2800) + "k" by {
      assert NatToString(28) == "28";
      assert NatToString(280) == "280";
    }
    BandwidthOfKbps(Qualities[2].bitrate, 2800);
  }

  /** The descriptors of the declared profiles for any base name. */
  lemma DeclaredDescriptors(baseName: string)
    ensures Descriptors(baseName, Qualities) == [
      Variant("360p", baseName + "_360p.m3u8", Some(800000), "640x360"),
      Variant("480p", baseName + "_480p.m3u8", Some(1400000), "854x480"),
      Variant("720p", baseName + "_720p.m3u8", Some(2800000), "1280x720")
    ]
  {
    DeclaredFiles(baseName);
    Declared360();
    Declared480();
    Declared720();
    DescriptorsOfThree(baseName, Qualities[0], Qualities[1], Qualities[2]);
  }

  lemma DescriptorsOfThree(baseName: string, p: Profile, q: Profile, r: Profile)
    ensures Descriptors(baseName, [p, q, r]) == [Describe(baseName, p), Describe(baseName, q), Describe(baseName, r)]
  {
  }
}
