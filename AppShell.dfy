/**
 * The application shell (App.tsx): the phase machine that picks a file, waits for its
 * metadata, edits, exports and finishes, with a reset back to the start; and the values
 * the progress card and the header derive from that state.
 */
module AppShell {
  import opened Wrappers
  import opened Types
  import opened JsText

  /** A file selection whose metadata has not arrived yet: the file and the object URL made for it. */
  datatype PendingLoad = PendingLoad(file: SourceFile, url: string)

  class App {
    var status: AppStatus
    var videoFile: Option<VideoFile>
    var exportProgress: real
    var exportedUrl: Option<string>
    /** Probing video elements whose `loadedmetadata` handler has not run yet, oldest first. */
    var pendingLoads: seq<PendingLoad>
    /** The object URLs released with `URL.revokeObjectURL`, in order. */
    ghost var revoked: seq<string>

    /** The first render: idle, nothing loaded, nothing exported. */
    constructor ()
      ensures status == Idle && videoFile == None && exportProgress == 0.0 && exportedUrl == None
      ensures pendingLoads == [] && revoked == []
    {
      status := Idle;
      videoFile := None;
      exportProgress := 0.0;
      exportedUrl := None;
      pendingLoads := [];
      revoked := [];
    }

    /**
     * `handleFileSelect`: shows the loading phase and starts probing the file's metadata
     * through `url`, the object URL the browser made for it.
     */
    method HandleFileSelect(file: SourceFile, url: string)
      modifies this
      ensures status == Loading
      ensures pendingLoads == old(pendingLoads) + [PendingLoad(file, url)]
      ensures videoFile == old(videoFile) && exportProgress == old(exportProgress)
      ensures exportedUrl == old(exportedUrl) && revoked == old(revoked)
    {
      status := Loading;
      pendingLoads := pendingLoads + [PendingLoad(file, url)];
    }

    /**
     * The `loadedmetadata` handler of the `k`-th pending probe: stores the video with the
     * probed duration and frame size and enters the editor. A probe started before a reset
     * still completes, as in the source.
     */
    method OnLoadedMetadata(k: nat, duration: real, width: int, height: int)
      requires k < |pendingLoads|
      modifies this
      ensures status == Editing
      ensures videoFile == Some(VideoFile(old(pendingLoads)[k].file, old(pendingLoads)[k].url, duration, width, height))
      ensures pendingLoads == old(pendingLoads)[..k] + old(pendingLoads)[k + 1..]
      ensures exportProgress == old(exportProgress) && exportedUrl == old(exportedUrl) && revoked == old(revoked)
    {
      var load := pendingLoads[k];
      videoFile := Some(VideoFile(load.file, load.url, duration, width, height));
      status := Editing;
      pendingLoads := pendingLoads[..k] + pendingLoads[k + 1..];
    }

    /**
     * `handleReset`: releases the video's URL when there is a video and then the
     * export's URL when it is set and not empty (JavaScript truthiness), and returns to the idle phase with nothing loaded and no progress.
     */
    method HandleReset()
      modifies this
      ensures status == Idle && videoFile == None && exportedUrl == None && exportProgress == 0.0
      ensures revoked == old(revoked) + UrlOf(old(videoFile)) + Present(old(exportedUrl))
      ensures pendingLoads == old(pendingLoads)
    {
      if videoFile.Some? {
        revoked := revoked + [videoFile.value.url];
      }
      if exportedUrl.Some? && exportedUrl.value != "" {
        revoked := revoked + [exportedUrl.value];
      }
      videoFile := None;
      exportedUrl := None;
      exportProgress := 0.0;
      status := Idle;
    }

    /** `handleExportStart`: enters the exporting phase with the progress back at zero. */
    method HandleExportStart()
      modifies this
      ensures status == Exporting && exportProgress == 0.0
      ensures videoFile == old(videoFile) && exportedUrl == old(exportedUrl)
      ensures pendingLoads == old(pendingLoads) && revoked == old(revoked)
    {
      status := Exporting;
      exportProgress := 0.0;
    }

    /** `setExportProgress`, the state setter the editor reports progress through. */
    method SetExportProgress(p: real)
      modifies this
      ensures exportProgress == p
      ensures status == old(status) && videoFile == old(videoFile) && exportedUrl == old(exportedUrl)
      ensures pendingLoads == old(pendingLoads) && revoked == old(revoked)
    {
      exportProgress := p;
    }

    /** `handleExportComplete`: keeps the clip's URL and enters the finished phase. */
    method HandleExportComplete(url: string)
      modifies this
      ensures status == Finished && exportedUrl == Some(url)
      ensures videoFile == old(videoFile) && exportProgress == old(exportProgress)
      ensures pendingLoads == old(pendingLoads) && revoked == old(revoked)
    {
      exportedUrl := Some(url);
      status := Finished;
    }
  }

  /** The URL of a loaded video, as a list of zero or one. */
  function UrlOf(v: Option<VideoFile>): (urls: seq<string>)
    ensures |urls| <= 1 && (v.Some? <==> |urls| == 1)
    ensures v.Some? ==> urls[0] == v.value.url
  {
    if v.Some? then [v.value.url] else []
  }

  /** A URL JavaScript takes as present (set and not empty), as a list of zero or one. */
  function Present(u: Option<string>): (urls: seq<string>)
    ensures |urls| <= 1 && (u.Some? && u.value != "" <==> |urls| == 1)
    ensures |urls| == 1 ==> urls[0] == u.value
  {
    if u.Some? && u.value != "" then [u.value] else []
  }

  // ---------------------------------------------------------------------------
  // Derived display values
  // ---------------------------------------------------------------------------

  /** `Math.round`: the nearest integer, halves rounding up. */
  function Round(x: real): (n: int)
    ensures x - 0.5 < n as real <= x + 0.5
  {
    (x + 0.5).Floor
  }

  /** The progress the ring and the label show: full once finished, the reported value otherwise. */
  function ShownProgress(status: AppStatus, progress: real): real
  {
    if status == Finished then 100.0 else progress
  }

  /** The percentage label of the progress card: `100%` once finished, else the rounded progress. */
  function PercentText(status: AppStatus, progress: real): (s: string)
    ensures |s| >= 2 && s[|s| - 1] == '%'
    ensures status == Finished ==> s == "100%"
    ensures status != Finished ==> s[..|s| - 1] == IntToString(Round(progress))
  {
    if status == Finished then "100%" else IntToString(Round(progress)) + "%"
  }

  /** The circumference of the progress ring, the `strokeDasharray` of App.tsx. */
  const RingLength: real := 440.0

  /** The unpainted part of the ring, `440 - 440 * shown / 100`. */
  function RingOffset(status: AppStatus, progress: real): (offset: real)
    ensures 0.0 <= ShownProgress(status, progress) <= 100.0 ==> 0.0 <= offset <= RingLength
    ensures status == Finished ==> offset == 0.0
    ensures offset == RingLength * (1.0 - ShownProgress(status, progress) / 100.0)
  {
    RingLength - (RingLength * ShownProgress(status, progress)) / 100.0
  }

  /** More progress never leaves more of the ring unpainted. */
  lemma RingOffsetMonotone(status: AppStatus, p: real, q: real)
    requires p <= q
    ensures RingOffset(status, q) <= RingOffset(status, p)
  {
  }

  /**
   * While exporting, a reported progress from 99.5 up to the editor's cap of 99.9 already
   * reads `100%`, as the finished card does.
   */
  lemma ExportingShowsFullAtCap(p: real)
    requires 99.5 <= p <= 99.9
    ensures PercentText(Exporting, p) == PercentText(Finished, p) == "100%"
  {
    assert Round(p) == 100;
    NatToStringValue(100);
    assert IntToString(100) == "100" by {
      assert NatToString(100) == NatToString(10) + [DigitChar(0)];
      assert NatToString(10) == NatToString(1) + [DigitChar(0)];
    }
  }

  /** A reported progress within zero to the editor's cap never reads past `100%`. */
  lemma PercentAtMostHundred(p: real)
    requires 0.0 <= p <= 99.9
    ensures 0 <= Round(p) <= 100
  {
  }

  /**
   * The download name of the finished clip: `trimmed_`, the picked file's name (or `video`
   * when there is no file or its name is empty) and `.webm`.
   */
  function DownloadName(v: Option<VideoFile>): (name: string)
    ensures |name| > 13 && name[..8] == "trimmed_" && name[|name| - 5..] == ".webm"
    ensures v.Some? && v.value.file.name != "" ==> name[8..|name| - 5] == v.value.file.name
    ensures !(v.Some? && v.value.file.name != "") ==> name[8..|name| - 5] == "video"
  {
    var stem := if v.Some? && v.value.file.name != "" then v.value.file.name else "video";
    var name := "trimmed_" + stem + ".webm";
    assert name[8..|name| - 5] == stem;
    name
  }

  /** The screens the main area of App.tsx can show. */
  datatype Screen = Picker | Analyzing | EditorScreen | ProgressCard | Blank

  /** The screen for a phase, given whether a video is loaded. */
  function ScreenOf(status: AppStatus, hasVideo: bool): Screen
  {
    match status
    case Idle => Picker
    case Loading => Analyzing
    case Editing => if hasVideo then EditorScreen else Blank
    case Exporting => ProgressCard
    case Finished => ProgressCard
  }

  /** Whether the header offers the "New Project" reset button. */
  predicate OffersReset(status: AppStatus)
  {
    status != Idle
  }

  /** The reset button is offered on every screen except the file picker. */
  lemma ResetOfferedOffPicker(status: AppStatus, hasVideo: bool)
    ensures OffersReset(status) <==> ScreenOf(status, hasVideo) != Picker
  {
  }

  /** The download link and its second reset button appear only when finished with a URL that is not empty. */
  predicate OffersDownload(status: AppStatus, exportedUrl: Option<string>)
  {
    status == Finished && exportedUrl.Some? && exportedUrl.value != ""
  }

  /**
   * A reset pressed while exporting does not stop the export: the editor's frame loop still
   * reports progress and its recorder's `onstop` still hands over the clip, so the shell ends
   * finished with no video loaded, offering the clip under the fallback download name.
   */
  method ResetDuringExport(app: App, p: real, url: string)
    requires app.status == Exporting
    modifies app
    ensures app.status == Finished && app.videoFile == None && app.exportedUrl == Some(url)
    ensures app.exportProgress == p
    ensures url != "" ==> OffersDownload(app.status, app.exportedUrl)
    ensures DownloadName(app.videoFile) == "trimmed_video.webm"
  {
    app.HandleReset();
    app.SetExportProgress(p);
    app.HandleExportComplete(url);
  }
}
