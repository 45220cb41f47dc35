# Web video trimmer, modelled in Dafny

The web video trimmer is a browser application. It loads a local video and lets the user select a span with a minimum length of 0.2 s, either by dragging or by typing times. It then re-encodes that span as a WebM clip by drawing the playing video onto a canvas and recording the canvas with a `MediaRecorder`. This project models the logic under that user interface and proves what that logic promises.

The model has nine modules:

- **TimeCodec** (`utils.ts`): `formatTime`, which renders seconds as `M:SS.CC` with every field truncated, and `parseTime`, which reads `M:SS` or a bare number and otherwise gives null. Proved: the exact shape of the rendering, every case of the parser, and the round trip `parseTime(formatTime(t)) == ⌊100t⌋/100` for every `t ≥ 0`.
- **JsText**: the JavaScript built-ins the codec relies on, over `string`.
  - `split` with a one-character separator;
  - `padStart`;
  - integer `toString`;
  - `parseFloat`, as a left-to-right scan of the longest decimal literal.
- **RealArith**: two facts about products of reals that the remainder bounds of the codec rest on.
- **TrimRule** (`handleRangeChange` in `components/VideoEditor.tsx`): the two clamp formulas. Proved: the range invariant they keep under any sequence of edits, and that each clamp picks the nearest allowed value.
- **Editor** (`components/VideoEditor.tsx`): the editor component as a class.
  - Its handlers are methods.
  - What it asks of the browser (play, pause, seek, recorder start and stop, frame requests, progress reports, the finished clip) is appended to a ghost event log.
  - The export takes the browser's reports as a sequence of inputs: frame timestamps with the media position, recorded chunks, and the recorder's stop.
  - The frame loop is a method proved against a pure fold (`Run`). Laws proved about that fold:
    - progress never exceeds 99.9;
    - progress never decreases when the frame timestamps never go backwards;
    - nothing is reported after the stop;
    - the clip is handed over at most once, only after the stop, as the chunks the recorder delivered before its stop report, in arrival order;
    - the recorder's stop report after a stopping frame finishes the export;
    - the clip is handed over exactly once when the export is done.
- **ManualEntry** (`components/ManualInputs.tsx`): the two time fields as a class.
  - The gate that decides whether typed text is forwarded, and how the effects rewrite the text.
  - Proved: a field's own text typed back is forwarded as its bound truncated to hundredths.
- **AppShell** (`App.tsx`): the phase machine IDLE → LOADING → EDITING → EXPORTING → FINISHED with its reset, as a class. Also the derived display values: percentage text, ring offset, download name, and the reset and download offers. A reset pressed during an export is followed by the export's own progress and completion (`AppShell.ResetDuringExport`).
- **Types** and **Wrappers**: the records of `types.ts` and an `Option` type.

Seconds are exact reals. JavaScript's `%` is a truncating remainder and is written out as such (`TimeCodec.JsRem`).

A video shorter than 0.2 s starts with the whole video selected (components/VideoEditor.tsx:35) and keeps that selection, which is shorter than the 0.2 s minimum. So the invariant proved is `TrimRule.Admissible`: either the 0.2 s rule holds, or the selection is the whole video. For videos of at least 0.2 s, `Admissible` is exactly `0 ≤ start`, `end ≤ duration` and `end − start ≥ 0.2` (`TrimRule.AdmissibleIsValid`).

Two behaviours of the code are modelled as written:

- When the canvas yields no 2D context, `exportVideo` returns after `onExportStart`. The shell is left in the exporting phase, and only a reset leaves it (`Editor.VideoEditor.ExportVideo`).
- `!startTime` treats a first frame timestamp of exactly 0 as unset, so the next frame restarts the clock (`Editor.Anchor`).

## Model

| member | source | states |
|---|---|---|
| JsText.NatToString | utils.ts:6 | the text of a natural number is a non-empty run of digits with no leading zero, and is one digit long exactly when the number is below 10 |
| JsText.NatToStringValue | utils.ts:6 | the digits of `n` read back as `n` |
| JsText.IntToString | utils.ts:6 | a negative integer renders as a minus sign before the digits of its magnitude, any other as its digits |
| JsText.PadStart | utils.ts:6 | text at least `width` long is unchanged; shorter text becomes exactly `width` long, ends with the original text and is filled before it |
| JsText.TwoDigitsOf | utils.ts:6 | padding the digits of a number below 100 to two gives its tens digit and then its units digit |
| JsText.TwoDigitText | utils.ts:6 | the padded text of a number below 100 is two digits worth that number |
| JsText.IndexOf | utils.ts:10 | the index of the first occurrence of the separator, or the length when there is none |
| JsText.Split | utils.ts:10 | `split` gives one more piece than there are separators; no piece holds the separator; joining the pieces gives the text back |
| JsText.SplitAfterPiece | utils.ts:10 | a separator-free piece followed by the separator splits off as the first piece |
| JsText.SplitJoin | utils.ts:10 | splitting the separator-joined pieces gives those pieces back |
| JsText.NoSeparatorSplit | utils.ts:10 | text without the separator splits into itself alone |
| JsText.SplitFirstPiece | components/VideoEditor.tsx:141 | the first piece of `split` is the text before the first separator |
| JsText.ParseFloat | utils.ts:13-19 | `parseFloat`; no contract of its own: the `ParseFloat…` lemmas state what it reads |
| JsText.ScanNeedsDigit | utils.ts:13-19 | a scan that has not yet read a digit yields a number only if a digit is still to come |
| JsText.ParseFloatNeedsDigit | utils.ts:13-19 | text without a digit is NaN: a sign, a point or an exponent alone is no number |
| JsText.ParseFloatNotANumber | utils.ts:13-19 | text starting with anything but white space, a sign, a digit or a point is NaN |
| JsText.ParseFloatSkipsWhitespace | utils.ts:13-18 | leading white space does not change what `parseFloat` reads |
| JsText.ParseFloatDigits | utils.ts:13-18 | digits followed by text that cannot continue a literal read as the digits' value |
| JsText.ParseFloatNat | utils.ts:13 | the text of a natural number parses back to that number |
| JsText.ParseFloatDecimal | utils.ts:14 | digits, a point and digits read as all the digits scaled down one place per fractional digit |
| JsText.ParseFloatTwoPlaces | utils.ts:14 | `SS.CC` reads as seconds plus hundredths |
| TimeCodec.JsRem | utils.ts:4-5 | JavaScript's truncating `%`; no contract of its own: `TimeCodec.JsRemBounds` states its sign and size |
| TimeCodec.JsRemBounds | utils.ts:4-5 | for a positive divisor the remainder has the dividend's sign and is smaller than the divisor in magnitude, in `[0, b)` for a non-negative dividend |
| TimeCodec.FormatTime | utils.ts:2-7 | `formatTime`; no contract of its own: `TimeCodec.FormatTimeFields`, `TimeCodec.FormatTimeSeparators` and `TimeCodec.ParseFormatTime` state its shape and round trip |
| TimeCodec.ParseTime | utils.ts:9-25 | a number is read only from text with at most one colon; the cases are stated by the `ParseTime…` lemmas below |
| TimeCodec.MinutesAndSeconds | utils.ts:15-16 | `mins * 60 + secs` with null when either side is NaN; no contract of its own: `TimeCodec.ParseTimeMinutes` and `TimeCodec.ParseTimeNumbers` state that one-colon text is read through it |
| TimeCodec.Trunc | utils.ts:4-5 | truncation toward zero: the floor for non-negative values, within one above for negative ones |
| TimeCodec.FormatTimeFields | utils.ts:2-7 | for `t ≥ 0`: unpadded whole minutes, a colon, seconds past the minute as exactly two digits (00-59), a point, and hundredths past the second as exactly two digits (00-99) |
| TimeCodec.ClockSeparators | utils.ts:6 | a clock text holds exactly one colon and one point and is six characters longer than its minutes |
| TimeCodec.FormatTimeSeparators | utils.ts:4-6 | the rendering of `t ≥ 0` holds exactly one colon and exactly one point |
| TimeCodec.HundredthsBounds | utils.ts:5 | truncating a non-negative time to hundredths keeps it non-negative and never raises it |
| TimeCodec.ParseTimeBare | utils.ts:17-20 | text with no colon is read as one number, with NaN giving null |
| TimeCodec.SplitClock | utils.ts:10-12 | two colon-free pieces joined by a colon split into exactly those two pieces |
| TimeCodec.ParseTimeMinutes | utils.ts:12-16 | text with exactly one colon is minutes times sixty plus seconds, null when either side is NaN, with no range check |
| TimeCodec.ParseTimeManyColons | utils.ts:21-22 | text with two or more colons is null |
| TimeCodec.ParseTimeNumbers | utils.ts:12-16 | two numeric sides joined by one colon give the first times sixty plus the second |
| TimeCodec.ParseClockText | utils.ts:12-16 | a clock text of minutes, two-digit seconds and two-digit hundredths reads back as its value |
| TimeCodec.ParseFormatTime | utils.ts:2-25 | round trip: for `t ≥ 0`, `parseTime(formatTime(t))` is `t` truncated to hundredths, at most `t` and less than 0.01 below it |
| TimeCodec.ParseMinutesExample | utils.ts:12-16 | `1:30` reads as 90 |
| TimeCodec.ParseOverflowSecondsExample | utils.ts:12-16 | `1:90.5` reads as 150.5, the seconds not being range-checked |
| TimeCodec.ParseBareExample | utils.ts:17-20 | `90` reads as 90 |
| TimeCodec.ParseThreePartsExample | utils.ts:21-22 | `1:2:3` is null |
| TimeCodec.ParseNotANumberExamples | utils.ts:17-19 | the empty text and `abc` are null |
| TimeCodec.FormatExample | utils.ts:2-7 | 65.5 renders as `1:05.50` |
| TimeCodec.FormatTruncatesExample | utils.ts:3-5 | 59.999 renders as `0:59.99`: every field truncates, none rounds |
| TrimRule.Update | components/VideoEditor.tsx:83-93 | a start edit leaves the end alone and an end edit leaves the start alone; `ClampStart`/`ClampEnd` state each side's value |
| TrimRule.ApplyAll | components/VideoEditor.tsx:83-93 | a run of start edits never moves the end, and a run of end edits never moves the start |
| TrimRule.ClampStart | components/VideoEditor.tsx:84-86 | a start edit leaves the end alone, never goes below 0, keeps 0.2 s before the end whenever the end allows it, and is the requested value whenever that is allowed |
| TrimRule.ClampEnd | components/VideoEditor.tsx:88-89 | an end edit leaves the start alone, never passes the duration, keeps 0.2 s after the start whenever the video allows it, and is the requested value whenever that is allowed |
| TrimRule.InitialRange | components/VideoEditor.tsx:35 | the first selection, the whole video, is admissible, and it is valid exactly when the video is at least 0.2 s long |
| TrimRule.AdmissibleIsValid | components/VideoEditor.tsx:83-93 | for a video of at least 0.2 s, the invariant kept is exactly `0 ≤ start`, `end ≤ duration`, `end − start ≥ 0.2` |
| TrimRule.UpdateKeepsAdmissible | components/VideoEditor.tsx:83-93 | one edit, with any requested value, keeps the selection admissible |
| TrimRule.ApplyAllKeepsAdmissible | components/VideoEditor.tsx:83-93 | any sequence of edits keeps the selection admissible, and valid for a video of at least 0.2 s |
| TrimRule.ShortVideoIsFixed | components/VideoEditor.tsx:86-89 | a video shorter than 0.2 s keeps its whole-video selection whatever is asked |
| TrimRule.ClampStartIdempotent | components/VideoEditor.tsx:86 | asking twice for the same start changes nothing more |
| TrimRule.ClampEndIdempotent | components/VideoEditor.tsx:89 | asking twice for the same end changes nothing more |
| TrimRule.ClampStartIsNearest | components/VideoEditor.tsx:86 | when any start is allowed, the clamped start is allowed and no allowed start is nearer the request |
| TrimRule.ClampEndIsNearest | components/VideoEditor.tsx:89 | when any end is allowed, the clamped end is allowed and no allowed end is nearer the request |
| AppShell.App.constructor | App.tsx:14-17 | the app starts idle, with no video, zero progress and no exported URL |
| AppShell.App.HandleFileSelect | App.tsx:19-23 | picking a file enters the loading phase and starts a metadata probe on the file's URL, changing nothing else |
| AppShell.App.OnLoadedMetadata | App.tsx:24-33 | a probe's metadata stores the file, its URL, duration and frame size, and enters the editing phase |
| AppShell.App.HandleReset | App.tsx:37-44 | reset from any phase releases the video's URL if there is a video, and then the export's URL if it is set and not empty (JavaScript truthiness), and returns to idle with nothing loaded, nothing exported and zero progress |
| AppShell.App.HandleExportStart | App.tsx:46-49 | starting an export enters the exporting phase with zero progress |
| AppShell.App.SetExportProgress | App.tsx:16 | the progress setter changes the progress and nothing else |
| AppShell.App.HandleExportComplete | App.tsx:51-54 | completion stores the clip's URL and enters the finished phase |
| AppShell.Round | App.tsx:135 | `Math.round` gives the integer within half of its argument, halves rounding up |
| AppShell.PercentText | App.tsx:134-136 | the label ends in `%` and is `100%` once finished, whatever the progress; otherwise it is the rounded progress |
| AppShell.RingOffset | App.tsx:127-128 | the ring's unpainted length is 440 × (1 − shown/100), in [0, 440] for a shown value in [0, 100], and 0 once finished |
| AppShell.ShownProgress | App.tsx:128 | the value the ring shows, 100 once finished and the progress otherwise; no contract of its own: `AppShell.RingOffset` states the ring through it and `AppShell.PercentText` the label's finished case |
| AppShell.RingOffsetMonotone | App.tsx:128 | more progress never leaves more of the ring unpainted |
| AppShell.ExportingShowsFullAtCap | App.tsx:135 | while exporting, a progress from 99.5 up to the editor's cap of 99.9 already reads `100%` |
| AppShell.PercentAtMostHundred | App.tsx:135 | a progress from 0 to 99.9 rounds into 0-100 |
| AppShell.ScreenOf | App.tsx:87-107 | the main area per phase; no contract of its own: `AppShell.ResetOfferedOffPicker` relates it to the reset offer |
| AppShell.OffersReset | App.tsx:74-82 | the header's reset button; no contract of its own: `AppShell.ResetOfferedOffPicker` states that it is offered exactly off the file picker |
| AppShell.OffersDownload | App.tsx:154 | the download link appears when finished with a non-empty URL; no contract of its own: `AppShell.ResetDuringExport` states when it is offered |
| AppShell.ResetDuringExport | App.tsx:37-54 | a reset during an export, then the export's further progress and completion, leaves the shell finished with no video, the progress last reported and the clip's URL, offering the download under `trimmed_video.webm` |
| AppShell.DownloadName | App.tsx:158 | the download name is `trimmed_`, then the file's name (or `video` when there is no file or its name is empty), then `.webm` |
| AppShell.ResetOfferedOffPicker | App.tsx:74-89 | the reset button is offered exactly when the main area is not the file picker, that is, when the phase is not idle |
| Editor.Snap | components/VideoEditor.tsx:68-77 | after a time update the playhead lies in `[start, end)` when the selection is non-empty; it is unchanged when it already lay there, and otherwise it is the start |
| Editor.SnapIdempotent | components/VideoEditor.tsx:68-77 | a second time update with no playback in between changes nothing |
| Editor.Anchor | components/VideoEditor.tsx:150 | the first frame sets the loop's start time; a set start time is kept; a start time of 0 counts as unset |
| Editor.Span | components/VideoEditor.tsx:146 | the selection's length; no contract of its own: `Editor.AdmissibleSpanPositive` states that it is positive for an admissible selection of a video with positive length |
| Editor.Elapsed | components/VideoEditor.tsx:151 | seconds since the loop's start from millisecond timestamps; no contract of its own: `Editor.RenderFrame` states its role in the stop test and the report, `Editor.TickClimbs` that a later frame never reports less |
| Editor.Percent | components/VideoEditor.tsx:151-160 | the reported progress is never above 99.9, is non-negative for non-negative elapsed time, is the elapsed share of the selection in percent until the cap, and is exactly 99.9 from 99.9 % of the selection on |
| Editor.ShouldStop | components/VideoEditor.tsx:154 | the stopping test; no contract of its own: `Editor.RenderFrame` states what a stopping frame does |
| Editor.BaseType | components/VideoEditor.tsx:141 | the clip's media type; no contract of its own: the `BaseType…` lemmas below state what it is |
| Editor.Finalize | components/VideoEditor.tsx:140-141 | the clip built in `onstop`; no contract of its own: `Editor.StopFinishes` and `Editor.ExportOutcome` state that the clip handed over is the chunks the recorder delivered before its stop report, in arrival order |
| Editor.Concat | components/VideoEditor.tsx:141 | the clip's bytes: the chunks' bytes in arrival order; no contract of its own: `Editor.ConcatAppend` states that it splits over any division of the chunks |
| Editor.ConcatAppend | components/VideoEditor.tsx:139-141 | the bytes of two runs of chunks in turn are the bytes of the first run followed by those of the second, so a chunk pushed later lands after every earlier one |
| Editor.BaseTypeIsPrefix | components/VideoEditor.tsx:141 | the clip's type is the recorder's type up to its first `;` |
| Editor.BaseTypeIsFirstPiece | components/VideoEditor.tsx:141 | the clip's type is `split(';')[0]` of the recorder's type |
| Editor.BaseTypeOfPiece | components/VideoEditor.tsx:141 | a `;`-free piece followed by `;` is the type of the whole |
| Editor.BaseTypeIsWebm | components/VideoEditor.tsx:141 | both encoder profiles produce clips typed `video/webm` |
| Editor.Tick | components/VideoEditor.tsx:139-179 | one report only appends to the log, never returns to rendering, and changes nothing once the export is done |
| Editor.Run | components/VideoEditor.tsx:138-183 | a sequence of reports only appends to the log, never returns to rendering, and changes nothing once the export is done |
| Editor.StopBeforeAppend | components/VideoEditor.tsx:155 | a recorder stop already in the log stays there when the log grows |
| Editor.StopLawful | components/VideoEditor.tsx:154-158 | a stopping frame, which stops the recorder and pauses, keeps the laws of the export log |
| Editor.ProgressLawful | components/VideoEditor.tsx:160-178 | a reporting frame, which reports capped progress, draws and schedules the next frame, keeps the laws |
| Editor.ChunkLawful | components/VideoEditor.tsx:139 | a chunk pushed before the clip is built keeps the laws |
| Editor.ClipLawful | components/VideoEditor.tsx:140-144 | building the clip after the stop keeps the laws |
| Editor.TickLawful | components/VideoEditor.tsx:139-179 | any single report from the browser keeps the laws |
| Editor.RunLawful | components/VideoEditor.tsx:138-183 | any sequence of reports keeps the laws: kept chunks are those logged; progress stays at most 99.9; no stop while rendering; no progress or second stop after the stop; the recorder is stopped once rendering ends; the clip is handed over only after the stop, only as the next-to-last request, as the kept chunks, exactly when done |
| Editor.StartTimeFixed | components/VideoEditor.tsx:147-150 | once set to a non-zero time, the loop's start time never moves |
| Editor.RenderFrame | components/VideoEditor.tsx:149-160 | a rendering frame stops exactly when the selection's length has elapsed or the video reached the selection's end; a stopping frame only stops the recorder and pauses; any other frame reports the capped progress, draws and schedules the next frame |
| Editor.TickClimbs | components/VideoEditor.tsx:149-160 | a report keeps the progress reports non-decreasing and below what any later frame will report |
| Editor.PercentMonotone | components/VideoEditor.tsx:151-152 | more elapsed time never reports less progress |
| Editor.RunClimbs | components/VideoEditor.tsx:149-183 | with frame timestamps that never go backwards, the reported progress never goes down and stays in [0, 99.9] |
| Editor.StartIsLawful | components/VideoEditor.tsx:138-147 | the state the loop starts from (no start time, no chunks, empty log) satisfies the laws |
| Editor.DataChunks | components/VideoEditor.tsx:139 | the chunks of the recorder's `dataavailable` reports in arrival order; no contract of its own: `Editor.RunCollects` and `Editor.StopFinishes` relate the kept chunks and the clip to it |
| Editor.RunAppend | components/VideoEditor.tsx:138-183 | handling reports in two runs is handling them in one |
| Editor.RunCollects | components/VideoEditor.tsx:138-139 | until the clip is built, the chunks kept are those kept before followed by every chunk delivered since, in arrival order |
| Editor.RunDone | components/VideoEditor.tsx:140-144 | a finished export was finished by a recorder stop report that arrived while flushing, and nothing after that report changed it |
| Editor.StopFinishes | components/VideoEditor.tsx:140-144 | a recorder stop report while flushing finishes the export: the log gains the clip of the chunks delivered before that report, then the closing of the audio graph, and later reports change nothing |
| Editor.FinishedClip | components/VideoEditor.tsx:138-144 | a finished export handed over, as the next-to-last request, the clip of the chunks delivered before the recorder's stop report |
| Editor.VideoEditor.constructor | components/VideoEditor.tsx:32-36 | the editor opens paused at zero, unmuted, with VP9 chosen and the whole video selected |
| Editor.VideoEditor.TogglePlay | components/VideoEditor.tsx:38-44 | with the element mounted, pauses when playing and plays otherwise, flipping the flag; with none, nothing happens |
| Editor.VideoEditor.ToggleMute | components/VideoEditor.tsx:46-48 | flips the mute flag and nothing else |
| Editor.VideoEditor.SelectFormat | components/VideoEditor.tsx:225-227 | the menu sets the encoder profile and nothing else |
| Editor.VideoEditor.HandleRangeChange | components/VideoEditor.tsx:83-93 | the selection becomes the clamped edit and stays admissible; with the element mounted it seeks to the new start, or to 0.05 s before the new end |
| Editor.VideoEditor.HandleTimeUpdate | components/VideoEditor.tsx:68-77 | the shown time becomes the element's position, and the position snaps into the selection; a position before the start or at the end logs a seek to the start, followed by a pause at the end when not playing; a position inside the selection logs nothing |
| Editor.VideoEditor.HandleTimeClick | components/VideoEditor.tsx:95-100 | with the element mounted, seeks to the clicked time and shows it |
| Editor.VideoEditor.ExportVideo | components/VideoEditor.tsx:105-184 | tells the shell, pauses, seeks to the start, then starts the recorder, plays and requests a frame, in that order, before any report; the shell's progress is the last progress reported, and it finishes with the clip's URL exactly when the fold `Run` is done, which `Editor.RunDone` and `Editor.StopFinishes` tie to the recorder's stop report after a stopping frame; without a context it stops after the seek, with the shell exporting |
| Editor.VideoEditor.PrepareExport | components/VideoEditor.tsx:109-114 | the shell enters exporting with zero progress, then the video pauses and seeks to the selection's start |
| Editor.VideoEditor.RenderLoop | components/VideoEditor.tsx:138-183 | the loop over the browser's reports leaves exactly the log and shell state of the fold `Run` from the start state |
| Editor.VideoEditor.Report | components/VideoEditor.tsx:139-160 | one report updates the loop's variables exactly as `Tick` does, appends the new requests to the log, and passes progress and completion to the shell |
| Editor.ExportOutcome | components/VideoEditor.tsx:138-160 | whatever the browser reports, the progress stays at most 99.9; the export is done exactly when a clip was handed over; that happens exactly once when done and never otherwise, only after the recorder was stopped, as the next-to-last request; until then the chunks kept are exactly those delivered, and the clip is the chunks delivered before the recorder's stop report, in arrival order |
| Editor.ExportProgressClimbs | components/VideoEditor.tsx:147-160 | with frame timestamps that never go backwards, the progress the shell receives only grows, from 0 to at most 99.9 |
| Editor.AdmissibleSpanPositive | components/VideoEditor.tsx:146 | an admissible selection of a video with positive length is never empty, so the progress division is defined |
| ManualEntry.Forward | components/ManualInputs.tsx:28-39 | typed text is forwarded exactly when it parses and lies in `[0, end)` for the start or in `(start, duration]` for the end; the forwarded value is the parsed one; null forwards nothing |
| ManualEntry.ForwardsReadable | components/ManualInputs.tsx:28-39 | text that parses to an acceptable time for its side is forwarded as that time |
| ManualEntry.ManualInputs.constructor | components/ManualInputs.tsx:13-14 | both fields start as the clock text of the current start and end |
| ManualEntry.ManualInputs.HandleInput | components/ManualInputs.tsx:24-40 | the edited field takes the raw text, valid or not; the other field is untouched; at most one bound is forwarded, always for the edited side, as the gate decides |
| ManualEntry.ManualInputs.Sync | components/ManualInputs.tsx:16-22 | a field is rewritten as the clock text of its bound exactly when that bound changed; otherwise it keeps what was typed |
| ManualEntry.RetypeStart | components/ManualInputs.tsx:30-33 | in a valid selection, the start field's own text typed back is forwarded as the start truncated to hundredths |
| ManualEntry.KeepRetypedStart | components/VideoEditor.tsx:86 | the editor keeps such a retyped start as the new start |
| ManualEntry.RetypeEnd | components/ManualInputs.tsx:34-37 | in a valid selection, the end field's own text typed back is forwarded as the end truncated to hundredths |
| ManualEntry.KeepRetypedEnd | components/VideoEditor.tsx:89 | the editor keeps such a retyped end, or lifts it to 0.2 s after the start when truncation took it below that |
| ManualEntry.ForwardedStartIsClamped | components/ManualInputs.tsx:30-33 | a forwarded start lies in `[0, end)`; the editor keeps it only when it leaves 0.2 s before the end, and otherwise pulls it back to `end − 0.2` |
| ManualEntry.ForwardedEndIsClamped | components/ManualInputs.tsx:34-37 | a forwarded end lies in `(start, duration]`; the editor keeps it only when it leaves 0.2 s after the start, and otherwise pushes it on to `start + 0.2` |
| ManualEntry.UnreadableTextForwardsNothing | components/ManualInputs.tsx:28-29 | text `parseTime` rejects never moves the selection |
| ManualEntry.Keystroke | components/ManualInputs.tsx:16-40 | a keystroke followed by the effects leaves an admissible selection: the old one, or the edit applied to the forwarded value; a moved bound's field shows its clock text again |
| Types.LabelsDistinct | components/VideoEditor.tsx:230-231 | the export menu's two labels tell the encoder profiles apart: equal labels mean the same profile |
| Types.OutputFormat.Label | components/VideoEditor.tsx:230-231 | the menu text of each profile; no contract of its own: `Types.LabelsDistinct` states that the two labels differ |
| Types.OutputFormat.MimeType | components/VideoEditor.tsx:230-231 | the recorder type of each menu profile; no contract of its own: `Editor.BaseTypeIsWebm` states that both give clips typed `video/webm` |

## Left out

- Browser media and encoding APIs are not modelled: `MediaRecorder`, the `AudioContext` graph, `canvas.captureStream`, `drawImage` and the watermark text, and `URL.createObjectURL`/`revokeObjectURL`. The editor's requests are ghost log events. The object URL of the clip is a parameter of `ExportVideo`, and the probe's URL one of `HandleFileSelect`.
- The `onseeked` await, `requestVideoFrameCallback`/`requestAnimationFrame` scheduling and wall-clock timing are not modelled. The seek is taken to complete, and the browser's reports (frames with their timestamp and media position, chunks, the recorder's stop) are a given input sequence. Reports a phase cannot receive are ignored.
- JavaScript numbers are exact reals here, not IEEE-754 doubles. The floating-point `%` and `* 100` in `formatTime` can differ from exact arithmetic in the last hundredth.
- Editor.VideoEditor.constructor: requires a positive duration. The export's progress divides by the selection's length, and a zero-length video gives a zero span, where JavaScript's division gives NaN or an infinity that reals do not have. NaN and infinite durations have no real counterpart either. A browser can report an infinite duration for some WebM files (stored as is at App.tsx:28); with one, `Infinity` typed as the end passes the gate at components/ManualInputs.tsx:35 and is forwarded, which the model does not capture.
- Editor.VideoEditor.ExportVideo: the export's reports are consumed in one call, so no shell handler runs between them. In the source, a reset during EXPORTING (App.tsx:74) is followed by further `setExportProgress` calls and by `onExportComplete` (components/VideoEditor.tsx:142). That sequence leaves the app FINISHED with no video and the download name `trimmed_video.webm`; `AppShell.ResetDuringExport` models it on the shell.
- JsText.ParseFloat: `Infinity` and `-Infinity` read as NaN here, where JavaScript reads them as infinities. For a finite duration neither can pass the manual-entry gate in JavaScript either, so what is forwarded is unaffected; infinite durations are left out (see the `Editor.VideoEditor.constructor` line). The sign of a negative zero is not kept.
- The React lifecycle (subscribe/unsubscribe of effects, re-render timing) and the Space-key shortcut (components/VideoEditor.tsx:51-61) are not modelled.
- The editor unmounting when the phase leaves EDITING is not modelled. The running export keeps the element and callbacks it captured, and the model keeps the editor object for the whole export.
- Editor.VideoEditor.ExportVideo: the clip type is computed once when the recorder starts, instead of inside `onstop`. The format is captured by that closure, so the value is the same.
- Editor.VideoEditor.ExportVideo: the element's position during the export is not tracked. The media position arrives with each frame.
- The selection-duration label (`formatTime(end - start)`, components/VideoEditor.tsx:237) is a display of the codec and is not modelled separately.
- components/Timeline.tsx, components/PlayerFrame.tsx and components/FilePicker.tsx are not part of this model. They hold presentational markup, pixel-to-time mapping and a random waveform.
