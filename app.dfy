/** The upload page: the five pipeline steps shown while a video is
    uploaded and processed, the client-side file check, and the reset back
    to an empty page. Each step's element is either missing or carries the
    two class flags the page toggles; the DOM's other effects are outside. */
module App {
  import opened Wrappers
  import opened Text
  import UploadRoute
  import Player

  /** The page refuses files above 100 MB. */
  const MaxSize: nat := 100 * 1024 * 1024

  const StepCount: nat := 5
  const StepLabels: seq<string> := [
    "Uploading video...", "FFmpeg transcoding...", "Creating quality levels...",
    "Saving HLS files...", "Preparing player..."
  ]

  const NotVideoError: string := "Please select a video file"
  const TooLargeError: string := "File size exceeds 100MB limit"
  const CompleteText: string := "Complete! Loading video..."
  const SuccessStatus: string := "\U{2705} Video uploaded successfully! Loading player..."

  // ----------------------------------------------------------- file check

  /** A `File` as the page sees it: its MIME type and its size in bytes. */
  datatype SelectedFile = SelectedFile(name: string, mimeType: string, size: nat)

  /** The checks of `handleFileSelection`: the type first, then the size;
      `None` when the file may be uploaded. */
  function CheckFile(f: SelectedFile): (error: Option<string>)
    ensures error.None? <==> StartsWith(f.mimeType, "video/") && f.size <= MaxSize
    ensures !StartsWith(f.mimeType, "video/") ==> error == Some(NotVideoError)
    ensures StartsWith(f.mimeType, "video/") && f.size > MaxSize ==> error == Some(TooLargeError)
  {
    if !StartsWith(f.mimeType, "video/") then Some(NotVideoError)
    else if f.size > MaxSize then Some(TooLargeError)
    else None
  }

  /** Whatever the server's filter and size limit take, the page lets
      through. */
  lemma ServerAcceptedPassesPage(f: SelectedFile)
    requires UploadRoute.FileFilter(f.mimeType).Accept? && UploadRoute.WithinSizeLimit(f.size)
    ensures CheckFile(f).None?
  {
    UploadRoute.AllowedMimesAreVideo();
  }

  /** The converse fails: the page uploads any `video/` type, which the
      server may still refuse. */
  lemma PageAdmitsWhatServerRefuses()
    ensures var f := SelectedFile("clip.ogv", "video/ogg", 1);
      CheckFile(f).None? && UploadRoute.FileFilter(f.mimeType).Reject?
  {
    var m := "video/ogg";
    assert m[..6] == "video/";
    assert forall i :: 0 <= i < |UploadRoute.AllowedMimes| ==> UploadRoute.AllowedMimes[i] != m by {
      forall i | 0 <= i < |UploadRoute.AllowedMimes| ensures UploadRoute.AllowedMimes[i] != m {
        var a := UploadRoute.AllowedMimes[i];
        if |a| == |m| {
          assert a[6] != m[6];
        }
      }
    }
  }

  // ------------------------------------------------------- pipeline steps

  /** The `active` and `completed` classes of one step's element. */
  datatype Classes = Classes(active: bool, completed: bool)

  /** The classes `updatePipelineStep(current)` gives step `index`. */
  function Classify(index: nat, current: int): (c: Classes)
    ensures c.completed <==> index < current
    ensures c.active <==> index == current
    ensures !(c.active && c.completed)
  {
    Classes(index == current, index < current)
  }

  /** The style `updatePipelineStep(current)` applies. */
  function Progress(current: int): nat -> Classes {
    (i: nat) => Classify(i, current)
  }

  /** A style that gives every step the same classes. */
  function Uniform(c: Classes): nat -> Classes {
    (_: nat) => c
  }

  /** Every step that has an element gets the classes `style` gives its
      index; missing elements stay missing. */
  function Restyled(steps: seq<Option<Classes>>, style: nat -> Classes): (r: seq<Option<Classes>>)
    ensures |r| == |steps|
  {
    seq(|steps|, i requires 0 <= i < |steps| => if steps[i].Some? then Some(style(i)) else None)
  }

  /** After `updatePipelineStep(current)` the steps before `current` are
      completed, `current` is the only active one, later ones are clear,
      and no step is both. */
  lemma UpdateMarksProgress(steps: seq<Option<Classes>>, current: int)
    ensures var r := Restyled(steps, Progress(current));
      && (forall i :: 0 <= i < |r| ==> (r[i].Some? <==> steps[i].Some?))
      && (forall i :: 0 <= i < |r| && r[i].Some? ==>
            (r[i].value.completed <==> i < current) && (r[i].value.active <==> i == current)
            && !(r[i].value.active && r[i].value.completed))
      && (forall i, j :: (0 <= i < |r| && 0 <= j < |r| && r[i].Some? && r[j].Some?
                          && r[i].value.active && r[j].value.active) ==> i == j)
  {
    var r := Restyled(steps, Progress(current));
    forall i | 0 <= i < |r| && r[i].Some? ensures r[i].value == Classify(i, current) {
    }
  }

  /** The progress shown is monotone in the step index: every step that a
      smaller index marks completed or active, a larger one marks completed. */
  lemma ProgressMonotone(steps: seq<Option<Classes>>, s: int, t: int)
    requires s < t
    ensures var a := Restyled(steps, Progress(s));
      var b := Restyled(steps, Progress(t));
      forall i :: 0 <= i < |steps| && a[i].Some? && (a[i].value.completed || a[i].value.active) ==> b[i].value.completed
  {
    var a := Restyled(steps, Progress(s));
    var b := Restyled(steps, Progress(t));
    forall i | 0 <= i < |steps| && a[i].Some? && (a[i].value.completed || a[i].value.active)
      ensures b[i].value.completed
    {
      assert a[i].value == Classify(i, s);
      assert b[i].value == Classify(i, t);
    }
  }

  class UploadPage {
    /** `pipelineSteps`, reduced to each step's element's classes. */
    const steps: array<Option<Classes>>
    var processingText: string
    var statusText: string
    var currentFile: Option<SelectedFile>
    /** Every upload started, oldest first. */
    var uploads: seq<SelectedFile>

    ghost predicate Valid()
      reads this
    {
      steps.Length == StepCount
    }

    /** The page after `initPipelineSteps`: `elements[i]` is the i-th
        step's element, when the page has one, with the classes it has. */
    constructor (elements: seq<Option<Classes>>, processingText: string)
      requires |elements| == StepCount
      ensures Valid() && fresh(steps) && steps[..] == elements
      ensures this.processingText == processingText && statusText == ""
      ensures currentFile == None && uploads == []
    {
      steps := new Option<Classes>[StepCount](i requires 0 <= i < StepCount => elements[i]);
      this.processingText := processingText;
      statusText := "";
      currentFile := None;
      uploads := [];
    }

    /** The `forEach` over the steps that have an element. */
    method RestyleSteps(style: nat -> Classes)
      requires Valid()
      modifies steps
      ensures steps[..] == Restyled(old(steps[..]), style)
    {
      var i := 0;
      while i < steps.Length
        invariant 0 <= i <= steps.Length
        invariant forall j :: 0 <= j < i ==> steps[j] == if old(steps[j]).Some? then Some(style(j)) else None
        invariant forall j :: i <= j < steps.Length ==> steps[j] == old(steps[j])
      {
        if steps[i].Some? {
          steps[i] := Some(style(i));
        }
        i := i + 1;
      }
    }

    /** `updatePipelineStep(stepIndex)`. */
    method UpdatePipelineStep(stepIndex: int)
      requires Valid()
      modifies this, steps
      ensures Valid()
      ensures steps[..] == Restyled(old(steps[..]), Progress(stepIndex))
      ensures processingText == if 0 <= stepIndex < StepCount then StepLabels[stepIndex] else old(processingText)
      ensures statusText == old(statusText) && currentFile == old(currentFile) && uploads == old(uploads)
    {
      RestyleSteps(Progress(stepIndex));
      if 0 <= stepIndex < StepCount {
        processingText := StepLabels[stepIndex];
      }
    }

    /** `resetPipelineSteps()`: every step clear. */
    method ResetPipelineSteps()
      requires Valid()
      modifies steps
      ensures steps[..] == Restyled(old(steps[..]), Uniform(Classes(false, false)))
    {
      RestyleSteps(Uniform(Classes(false, false)));
    }

    /** `handleUploadSuccess(data)`: every step completed, none active, and
        the success shown in both texts. */
    method HandleUploadSuccess()
      requires Valid()
      modifies this, steps
      ensures Valid()
      ensures steps[..] == Restyled(old(steps[..]), Uniform(Classes(false, true)))
      ensures processingText == CompleteText && statusText == SuccessStatus
      ensures currentFile == old(currentFile) && uploads == old(uploads)
    {
      RestyleSteps(Uniform(Classes(false, true)));
      processingText := CompleteText;
      statusText := SuccessStatus;
    }

    /** The synchronous start of `uploadVideo(file)`: the request goes out
        with the pipeline showing its first step. */
    method UploadVideo(f: SelectedFile)
      requires Valid()
      modifies this, steps
      ensures Valid()
      ensures uploads == old(uploads) + [f]
      ensures steps[..] == Restyled(old(steps[..]), Progress(0))
      ensures processingText == StepLabels[0]
      ensures statusText == old(statusText) && currentFile == old(currentFile)
    {
      ResetPipelineSteps();
      UpdatePipelineStep(0);
      uploads := uploads + [f];
      RestyleTwice(old(steps[..]), Progress(0));
    }

    /** `handleFileSelection(file)`: a file failing `CheckFile` only shows
        the error; an accepted one becomes the current file and is uploaded
        once. */
    method HandleFileSelection(f: SelectedFile)
      requires Valid()
      modifies this, steps
      ensures Valid()
      ensures match CheckFile(f)
        case Some(error) =>
          && statusText == error && currentFile == old(currentFile) && uploads == old(uploads)
          && steps[..] == old(steps[..]) && processingText == old(processingText)
        case None =>
          && currentFile == Some(f) && uploads == old(uploads) + [f]
          && steps[..] == Restyled(old(steps[..]), Progress(0))
          && statusText == old(statusText) && processingText == StepLabels[0]
    {
      match CheckFile(f) {
        case Some(error) =>
          statusText := error;
        case None =>
          currentFile := Some(f);
          UploadVideo(f);
      }
    }

    /** `resetUpload()`: stops the player, forgets the current file and
        clears every step. */
    method ResetUpload(player: Player.PlayerSession)
      requires Valid() && player.Valid()
      modifies this, steps, player
      ensures Valid() && player.Valid()
      ensures currentFile == None
      ensures steps[..] == Restyled(old(steps[..]), Uniform(Classes(false, false)))
      ensures player.hls == None && !player.metricsRunning && player.videoSource == ""
      ensures player.eventLogItems == [] && player.logHistory == []
      ensures player.playbackState == "Ready" && player.currentQuality == "Auto"
      ensures player.speedSamples == old(player.speedSamples) && player.sampleHistory == old(player.sampleHistory)
      ensures player.route == old(player.route)
      ensures player.lastLoadedBytes == old(player.lastLoadedBytes) && player.lastLoadTime == old(player.lastLoadTime)
      ensures processingText == old(processingText) && statusText == old(statusText) && uploads == old(uploads)
    {
      player.StopPlayer();
      currentFile := None;
      ResetPipelineSteps();
    }
  }

  /** Clearing the steps before restyling them changes nothing: restyling
      only looks at which elements exist. */
  lemma RestyleTwice(steps: seq<Option<Classes>>, style: nat -> Classes)
    ensures Restyled(Restyled(steps, Uniform(Classes(false, false))), style) == Restyled(steps, style)
  {
  }

  /** After a success every step that has an element is completed and none
      is active; after a reset every such step is clear. */
  lemma SuccessAndResetStyles(steps: seq<Option<Classes>>)
    ensures var done := Restyled(steps, Uniform(Classes(false, true)));
      forall i :: 0 <= i < |steps| && steps[i].Some? ==> done[i] == Some(Classes(false, true))
    ensures var clear := Restyled(steps, Uniform(Classes(false, false)));
      forall i :: 0 <= i < |steps| && steps[i].Some? ==> clear[i] == Some(Classes(false, false))
  {
  }
}
