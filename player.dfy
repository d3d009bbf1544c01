/** The player page's own state: the bounded event log, the window of
    throughput samples, the hls.js instance it drives, and the decisions it
    takes when starting, failing, switching quality and stopping. The DOM,
    hls.js itself and the clock are outside; times and capabilities come in
    as parameters. */
module Player {
  import opened Wrappers
  import opened Text

  /** The log keeps the ten most recent entries. */
  const LogCapacity: nat := 10
  /** `MAX_SPEED_SAMPLES`. */
  const MaxSpeedSamples: nat := 5

  const ManifestExtension: string := ".m3u8"
  const UnsupportedMessage: string := "HLS is not supported in this browser"

  function Min(a: nat, b: nat): nat {
    if a < b then a else b
  }

  // ------------------------------------------------------------ event log

  /** `[${timestamp}] ${message}`. */
  function LogEntry(stamp: string, message: string): string {
    "[" + stamp + "] " + message
  }

  /** What the log should show after the entries of `history` were added,
      oldest first: the last ten of them, newest first. */
  function NewestFirst(history: seq<string>): (log: seq<string>)
    ensures |log| == Min(|history|, LogCapacity)
  {
    seq(Min(|history|, LogCapacity), i requires 0 <= i < Min(|history|, LogCapacity) => history[|history| - 1 - i])
  }

  /** The log of a history holds its last ten entries, the newest first,
      and no more. */
  lemma NewestFirstEntries(history: seq<string>)
    ensures |NewestFirst(history)| <= LogCapacity
    ensures |history| <= LogCapacity ==> |NewestFirst(history)| == |history|
    ensures forall i :: 0 <= i < |NewestFirst(history)| ==> NewestFirst(history)[i] == history[|history| - 1 - i]
  {
  }

  /** `unshift` then, past ten, `slice(0, 10)`. */
  function LogAfter(log: seq<string>, entry: string): (r: seq<string>)
    ensures |r| == Min(|log| + 1, LogCapacity)
    ensures r[0] == entry && r[1..] == log[..|r| - 1]
  {
    var grown := [entry] + log;
    if |grown| > LogCapacity then grown[..LogCapacity] else grown
  }

  /** Adding an entry to the log of a history is the log of the history
      with that entry added: the log always holds the ten most recent
      entries, newest first. */
  lemma LogAfterNewestFirst(history: seq<string>, entry: string)
    ensures LogAfter(NewestFirst(history), entry) == NewestFirst(history + [entry])
  {
    var a := LogAfter(NewestFirst(history), entry);
    var h := history + [entry];
    var b := NewestFirst(h);
    NewestFirstEntries(history);
    NewestFirstEntries(h);
    assert |a| == |b|;
    forall i | 0 <= i < |a| ensures a[i] == b[i] {
      if i > 0 {
        assert a[i] == a[1..][i - 1] == NewestFirst(history)[i - 1];
        assert b[i] == h[|h| - 1 - i] == history[|history| - 1 - (i - 1)];
      }
    }
  }

  // ------------------------------------------------- throughput samples

  /** One fragment's load: the bytes received and the milliseconds it took.
      The page stores the Mbps figure computed from the two. */
  datatype Sample = Sample(bytesLoaded: int, loadTimeMs: int)

  /** `data.frag.stats`: bytes received and the loading interval. */
  datatype FragStats = FragStats(loaded: int, loadingStart: int, loadingEnd: int)

  /** What the window should hold after the samples of `history` were
      recorded, oldest first: the last five of them, in order. */
  function LatestSamples(history: seq<Sample>): (w: seq<Sample>)
    ensures |w| == Min(|history|, MaxSpeedSamples)
  {
    if |history| <= MaxSpeedSamples then history else history[|history| - MaxSpeedSamples..]
  }

  /** The window of a history is its last five samples, oldest first: at
      most five, all of them while there are no more than five. */
  lemma LatestSamplesAreLast(history: seq<Sample>)
    ensures |LatestSamples(history)| <= MaxSpeedSamples
    ensures LatestSamples(history) == history[|history| - |LatestSamples(history)|..]
    ensures |history| <= MaxSpeedSamples ==> LatestSamples(history) == history
  {
  }

  /** `push`, then, past the maximum, `shift`. */
  function SampleAfter(window: seq<Sample>, s: Sample): (r: seq<Sample>)
    ensures |window| <= MaxSpeedSamples ==> |r| <= MaxSpeedSamples
    ensures |r| > 0 && r[|r| - 1] == s
    ensures |window| < MaxSpeedSamples ==> r == window + [s]
  {
    var grown := window + [s];
    if |grown| > MaxSpeedSamples then grown[1..] else grown
  }

  /** The window slides as a FIFO: recording into the window of a history
      gives the window of the longer history. */
  lemma SampleAfterLatest(history: seq<Sample>, s: Sample)
    ensures SampleAfter(LatestSamples(history), s) == LatestSamples(history + [s])
  {
    var h := history + [s];
    if |history| >= MaxSpeedSamples {
      assert LatestSamples(history) + [s] == h[|h| - MaxSpeedSamples - 1..];
    }
  }

  /** The measurement guard: stats present, bytes and time both positive. */
  function Measured(stats: Option<FragStats>): (r: Option<Sample>)
    ensures r.Some? <==> stats.Some? && stats.value.loaded > 0 && stats.value.loadingEnd - stats.value.loadingStart > 0
    ensures r.Some? ==> r.value.bytesLoaded > 0 && r.value.loadTimeMs > 0
  {
    match stats
    case None => None
    case Some(st) =>
      var loadTimeMs := st.loadingEnd - st.loadingStart;
      if st.loaded > 0 && loadTimeMs > 0 then Some(Sample(st.loaded, loadTimeMs)) else None
  }

  // ------------------------------------------------------ routing, errors

  /** Which player `initPlayer` sets up. */
  datatype Route = HlsJs | Native | Unsupported | Direct

  /** A manifest URL goes to hls.js where supported, else to the browser's
      own HLS (`playsHlsNatively`: the video element can play
      "application/vnd.apple.mpegurl"), else fails; any other URL is played
      directly. */
  function ChooseRoute(url: string, hlsSupported: bool, playsHlsNatively: bool): (r: Route)
    ensures r == Direct <==> !Contains(url, ManifestExtension)
    ensures r == HlsJs <==> Contains(url, ManifestExtension) && hlsSupported
    ensures r == Native <==> Contains(url, ManifestExtension) && !hlsSupported && playsHlsNatively
    ensures r == Unsupported <==> Contains(url, ManifestExtension) && !hlsSupported && !playsHlsNatively
  {
    if Contains(url, ManifestExtension) then
      if hlsSupported then HlsJs
      else if playsHlsNatively then Native
      else Unsupported
    else Direct
  }

  /** What setting up each player logs right away. */
  function SetupLog(r: Route, stamp: string): seq<string> {
    match r
    case HlsJs => []
    case Native => [LogEntry(stamp, "Using native HLS support (Safari)")]
    case Unsupported => [LogEntry(stamp, "Error: " + UnsupportedMessage)]
    case Direct => [LogEntry(stamp, "Loading video from CDN...")]
  }

  /** `data.type` of an hls.js error event. */
  datatype ErrorType = NetworkError | MediaError | OtherError(name: string)

  /** The response to an hls.js error event. */
  datatype Recovery = Ignore | RestartLoading | RecoverMedia | Report(message: string)

  /** Only fatal errors are acted on: network errors restart loading, media
      errors are recovered, anything else is reported. */
  function Dispatch(fatal: bool, errorType: ErrorType): (a: Recovery)
    ensures !fatal ==> a == Ignore
    ensures fatal ==> (a == RestartLoading <==> errorType == NetworkError)
    ensures fatal ==> (a == RecoverMedia <==> errorType == MediaError)
    ensures a.Report? <==> fatal && errorType.OtherError?
    ensures a.Report? ==> a.message == "Fatal error: " + errorType.name
  {
    if !fatal then Ignore
    else match errorType
      case NetworkError => RestartLoading
      case MediaError => RecoverMedia
      case OtherError(name) => Report("Fatal error: " + name)
  }

  /** The hls.js instance as the page drives it: its source, the level it
      is asked to play (-1 for automatic) and how often it was told to
      restart loading or to recover from a media error. */
  datatype HlsInstance = HlsInstance(source: string, currentLevel: int, loadRestarts: nat, mediaRecoveries: nat)

  /** The option label of a selector value. */
  function QualityLabel(level: int): (t: string)
    ensures level == -1 ==> t == "Auto"
    ensures level != -1 ==> t == "Level " + IntToString(level)
  {
    if level == -1 then "Auto" else "Level " + IntToString(level)
  }

  /** Different levels get different labels. */
  lemma QualityLabelInjective(a: int, b: int)
    requires QualityLabel(a) == QualityLabel(b)
    ensures a == b
  {
    if a != -1 && b != -1 {
      var p := "Level ";
      assert IntToString(a) == QualityLabel(a)[|p|..];
      assert IntToString(b) == QualityLabel(b)[|p|..];
      IntToStringInjective(a, b);
    }
  }

  class PlayerSession {
    var hls: Option<HlsInstance>
    /** Whether the metrics `setInterval` is running. */
    var metricsRunning: bool
    /** What the video element was pointed at directly ("" when cleared). */
    var videoSource: string
    var route: Option<Route>
    var eventLogItems: seq<string>
    var speedSamples: seq<Sample>
    var lastLoadedBytes: int
    var lastLoadTime: int
    var playbackState: string
    var currentQuality: string

    /** Every entry logged since the page loaded or was last stopped. */
    ghost var logHistory: seq<string>
    /** Every sample recorded since the page loaded. */
    ghost var sampleHistory: seq<Sample>

    ghost predicate Valid()
      reads this
    {
      && eventLogItems == NewestFirst(logHistory)
      && speedSamples == LatestSamples(sampleHistory)
    }

    /** The module's state at page load. */
    constructor (now: int, playbackState: string, currentQuality: string)
      ensures Valid()
      ensures hls == None && !metricsRunning && videoSource == "" && route == None
      ensures eventLogItems == [] && speedSamples == [] && logHistory == [] && sampleHistory == []
      ensures lastLoadedBytes == 0 && lastLoadTime == now
      ensures this.playbackState == playbackState && this.currentQuality == currentQuality
    {
      hls := None;
      metricsRunning := false;
      videoSource := "";
      route := None;
      eventLogItems := [];
      speedSamples := [];
      lastLoadedBytes := 0;
      lastLoadTime := now;
      this.playbackState := playbackState;
      this.currentQuality := currentQuality;
      logHistory := [];
      sampleHistory := [];
    }

    /** `addEventLog(message)` at the local time `stamp`. */
    method AddEventLog(message: string, stamp: string)
      requires Valid()
      modifies this
      ensures Valid()
      ensures eventLogItems == LogAfter(old(eventLogItems), LogEntry(stamp, message))
      ensures logHistory == old(logHistory) + [LogEntry(stamp, message)]
      ensures hls == old(hls) && metricsRunning == old(metricsRunning) && videoSource == old(videoSource)
      ensures route == old(route) && speedSamples == old(speedSamples) && sampleHistory == old(sampleHistory)
      ensures lastLoadedBytes == old(lastLoadedBytes) && lastLoadTime == old(lastLoadTime)
      ensures playbackState == old(playbackState) && currentQuality == old(currentQuality)
    {
      var logMessage := LogEntry(stamp, message);
      eventLogItems := [logMessage] + eventLogItems;
      if |eventLogItems| > LogCapacity {
        eventLogItems := eventLogItems[..LogCapacity];
      }
      LogAfterNewestFirst(logHistory, logMessage);
      logHistory := logHistory + [logMessage];
    }

    /** `handlePlayerError(errorMessage)`: logs the error and shows the
        playback state "Error". */
    method ReportError(errorMessage: string, stamp: string)
      requires Valid()
      modifies this
      ensures Valid()
      ensures eventLogItems == LogAfter(old(eventLogItems), LogEntry(stamp, "Error: " + errorMessage))
      ensures logHistory == old(logHistory) + [LogEntry(stamp, "Error: " + errorMessage)]
      ensures playbackState == "Error"
      ensures hls == old(hls) && metricsRunning == old(metricsRunning) && videoSource == old(videoSource)
      ensures route == old(route) && speedSamples == old(speedSamples) && sampleHistory == old(sampleHistory)
      ensures lastLoadedBytes == old(lastLoadedBytes) && lastLoadTime == old(lastLoadTime)
      ensures currentQuality == old(currentQuality)
    {
      AddEventLog("Error: " + errorMessage, stamp);
      playbackState := "Error";
    }

    /** `initPlayer(url)`: logs the start, sets up the player `ChooseRoute`
        picks and starts the metrics timer. */
    method InitPlayer(url: string, hlsSupported: bool, playsHlsNatively: bool, stamp: string)
      requires Valid()
      modifies this
      ensures Valid()
      ensures var r := ChooseRoute(url, hlsSupported, playsHlsNatively);
        && route == Some(r)
        && hls == (if r == HlsJs then Some(HlsInstance(url, -1, 0, 0)) else old(hls))
        && videoSource == (if r == Native || r == Direct then url else old(videoSource))
        && logHistory == old(logHistory) + [LogEntry(stamp, "Initializing video player...")] + SetupLog(r, stamp)
        && playbackState == (if r == Unsupported then "Error" else old(playbackState))
      ensures metricsRunning
      ensures speedSamples == old(speedSamples) && sampleHistory == old(sampleHistory)
      ensures lastLoadedBytes == old(lastLoadedBytes) && lastLoadTime == old(lastLoadTime)
      ensures currentQuality == old(currentQuality)
    {
      AddEventLog("Initializing video player...", stamp);
      var r := ChooseRoute(url, hlsSupported, playsHlsNatively);
      match r {
        case HlsJs =>
          hls := Some(HlsInstance(url, -1, 0, 0));
        case Native =>
          AddEventLog("Using native HLS support (Safari)", stamp);
          videoSource := url;
        case Unsupported =>
          ReportError(UnsupportedMessage, stamp);
        case Direct =>
          AddEventLog("Loading video from CDN...", stamp);
          videoSource := url;
      }
      route := Some(r);
      metricsRunning := true;
    }

    /** The `FRAG_LOADED` handler: shows "Playing" and, when the fragment's
        stats measure a positive load, records it in the sample window. */
    method OnFragLoaded(stats: Option<FragStats>, now: int)
      requires Valid()
      modifies this
      ensures Valid()
      ensures playbackState == "Playing"
      ensures match Measured(stats)
        case None =>
          && speedSamples == old(speedSamples) && sampleHistory == old(sampleHistory)
          && lastLoadedBytes == old(lastLoadedBytes) && lastLoadTime == old(lastLoadTime)
        case Some(s) =>
          && speedSamples == SampleAfter(old(speedSamples), s)
          && sampleHistory == old(sampleHistory) + [s]
          && lastLoadedBytes == s.bytesLoaded && lastLoadTime == now
      ensures hls == old(hls) && metricsRunning == old(metricsRunning) && videoSource == old(videoSource)
      ensures route == old(route) && eventLogItems == old(eventLogItems) && logHistory == old(logHistory)
      ensures currentQuality == old(currentQuality)
    {
      playbackState := "Playing";
      var measured := Measured(stats);
      if measured.Some? {
        RecordSample(measured.value, now);
      }
    }

    /** Pushes a speed sample into the window, dropping the oldest past
        five, and remembers the load. */
    method RecordSample(sample: Sample, now: int)
      requires Valid()
      modifies this
      ensures Valid()
      ensures speedSamples == SampleAfter(old(speedSamples), sample)
      ensures sampleHistory == old(sampleHistory) + [sample]
      ensures lastLoadedBytes == sample.bytesLoaded && lastLoadTime == now
      ensures hls == old(hls) && metricsRunning == old(metricsRunning) && videoSource == old(videoSource)
      ensures route == old(route) && eventLogItems == old(eventLogItems) && logHistory == old(logHistory)
      ensures currentQuality == old(currentQuality) && playbackState == old(playbackState)
    {
      SampleAfterLatest(sampleHistory, sample);
      var window := speedSamples + [sample];
      if |window| > MaxSpeedSamples {
        window := window[1..];
      }
      speedSamples, sampleHistory := window, sampleHistory + [sample];
      lastLoadedBytes := sample.bytesLoaded;
      lastLoadTime := now;
    }

    /** The hls.js `ERROR` handler. */
    method OnHlsError(fatal: bool, errorType: ErrorType, stamp: string)
      requires Valid() && hls.Some?
      modifies this
      ensures Valid()
      ensures match Dispatch(fatal, errorType)
        case Ignore =>
          && hls == old(hls) && logHistory == old(logHistory) && playbackState == old(playbackState)
        case RestartLoading =>
          && hls == Some(old(hls.value).(loadRestarts := old(hls.value.loadRestarts) + 1))
          && logHistory == old(logHistory) + [LogEntry(stamp, "Network error, attempting recovery...")]
          && playbackState == old(playbackState)
        case RecoverMedia =>
          && hls == Some(old(hls.value).(mediaRecoveries := old(hls.value.mediaRecoveries) + 1))
          && logHistory == old(logHistory) + [LogEntry(stamp, "Media error, attempting recovery...")]
          && playbackState == old(playbackState)
        case Report(message) =>
          && hls == old(hls)
          && logHistory == old(logHistory) + [LogEntry(stamp, "Error: " + message)]
          && playbackState == "Error"
      ensures metricsRunning == old(metricsRunning) && videoSource == old(videoSource) && route == old(route)
      ensures speedSamples == old(speedSamples) && sampleHistory == old(sampleHistory)
      ensures lastLoadedBytes == old(lastLoadedBytes) && lastLoadTime == old(lastLoadTime)
      ensures currentQuality == old(currentQuality)
    {
      if fatal {
        match errorType
        case NetworkError =>
          AddEventLog("Network error, attempting recovery...", stamp);
          hls := Some(hls.value.(loadRestarts := hls.value.loadRestarts + 1));
        case MediaError =>
          AddEventLog("Media error, attempting recovery...", stamp);
          hls := Some(hls.value.(mediaRecoveries := hls.value.mediaRecoveries + 1));
        case OtherError(name) =>
          ReportError("Fatal error: " + name, stamp);
      }
    }

    /** The quality selector's `change` handler for the option value
        `selectedLevel`; `description` is the chosen level's
        "<height>p @ <Mbps> Mbps" text. */
    method SelectQuality(selectedLevel: int, description: string, stamp: string)
      requires Valid() && hls.Some?
      modifies this
      ensures Valid()
      ensures hls == Some(old(hls.value).(currentLevel := selectedLevel))
      ensures currentQuality == QualityLabel(selectedLevel)
      ensures logHistory == old(logHistory) + [LogEntry(stamp,
                if selectedLevel == -1 then "Quality switched to Auto" else "Manually selected: " + description)]
      ensures metricsRunning == old(metricsRunning) && videoSource == old(videoSource) && route == old(route)
      ensures speedSamples == old(speedSamples) && sampleHistory == old(sampleHistory)
      ensures lastLoadedBytes == old(lastLoadedBytes) && lastLoadTime == old(lastLoadTime)
      ensures playbackState == old(playbackState)
    {
      if selectedLevel == -1 {
        hls := Some(hls.value.(currentLevel := -1));
        currentQuality := "Auto";
        AddEventLog("Quality switched to Auto", stamp);
      } else {
        hls := Some(hls.value.(currentLevel := selectedLevel));
        currentQuality := "Level " + IntToString(selectedLevel);
        AddEventLog("Manually selected: " + description, stamp);
      }
    }

    /** `stopPlayer()`: drops the hls.js instance, stops the timer, clears
        the video source and the log and resets the status texts; the
        sample window is kept. */
    method StopPlayer()
      requires Valid()
      modifies this
      ensures Valid()
      ensures hls == None && !metricsRunning && videoSource == ""
      ensures eventLogItems == [] && logHistory == []
      ensures playbackState == "Ready" && currentQuality == "Auto"
      ensures speedSamples == old(speedSamples) && sampleHistory == old(sampleHistory)
      ensures route == old(route)
      ensures lastLoadedBytes == old(lastLoadedBytes) && lastLoadTime == old(lastLoadTime)
    {
      hls := None;
      metricsRunning := false;
      videoSource := "";
      currentQuality := "Auto";
      playbackState := "Ready";
      eventLogItems := [];
      logHistory := [];
    }
  }
}
