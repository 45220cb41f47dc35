/**
 * The editor session of components/VideoEditor.tsx: playback state, the trim range and its
 * update rule, the playback clamp run on every `timeupdate`, and the export, which drives a
 * MediaRecorder from a frame loop and hands the finished clip to the application shell.
 *
 * The browser's media, canvas, audio and recorder APIs are not modelled; what the editor
 * asks of them is written to a ghost event log, and what they report back (frame
 * timestamps, the media position, recorded chunks, the recorder stopping) is an input.
 */
module Editor {
  import opened Wrappers
  import opened Types
  import opened JsText
  import opened TrimRule
  import opened AppShell

  /** What the editor asks of the browser, in order. */
  datatype Event =
    | Play
    | Pause
    | Seek(to: real)
    | RecorderStart
    | RequestFrame
    | DrawFrame
    | Progress(value: real)
    | RecorderStop
    | Chunk(data: Blob)
    | ExportComplete(clip: Blob)
    | CloseAudio

  // ---------------------------------------------------------------------------
  // Playback clamp
  // ---------------------------------------------------------------------------

  /**
   * Where a `timeupdate` leaves the playhead: at the start of the selection when it has
   * reached the end or lies before the start, where it was otherwise.
   */
  function Snap(position: real, r: TrimRange): (p: real)
    ensures r.start < r.end ==> r.start <= p < r.end
    ensures r.start <= position < r.end ==> p == position
    ensures p == position || p == r.start
  {
    if position >= r.end || position < r.start then r.start else position
  }

  /** A second `timeupdate` with no playback in between changes nothing. */
  lemma SnapIdempotent(position: real, r: TrimRange)
    ensures Snap(Snap(position, r), r) == Snap(position, r)
  {
  }

  // ---------------------------------------------------------------------------
  // The export's frame loop, as a function of what the browser reports
  // ---------------------------------------------------------------------------

  /** What the browser reports to a running export. */
  datatype ExportInput =
    | Frame(now: real, mediaPosition: real)   // an animation frame: its timestamp (ms) and the video's position (s)
    | Data(chunk: Blob)                        // the recorder's `dataavailable`
    | RecorderStopped                          // the recorder's `stop`

  /** Rendering: frames are scheduled; Flushing: the recorder was stopped; Done: the clip was handed over. */
  datatype Phase = Rendering | Flushing | Done

  /**
   * The state of a running export: its phase, the loop's `startTime` (zero while unset),
   * the chunks recorded so far, the progress last reported and what was asked of the browser.
   */
  datatype Recording = Recording(phase: Phase, startTime: real, chunks: seq<Blob>, progress: real, events: seq<Event>)

  /** The state when the frame loop is first scheduled. */
  const Start: Recording := Recording(Rendering, 0.0, [], 0.0, [])

  /** The length of the selection, which the export records. */
  function Span(r: TrimRange): real
  {
    r.end - r.start
  }

  /** The loop's start time after a frame at `now`: `!startTime` also takes a start time of zero as unset. */
  function Anchor(startTime: real, now: real): (s: real)
    ensures startTime != 0.0 ==> s == startTime
    ensures startTime == 0.0 ==> s == now
  {
    if startTime == 0.0 then now else startTime
  }

  /** Seconds since the loop started. */
  function Elapsed(now: real, startTime: real): real
  {
    (now - startTime) / 1000.0
  }

  /** The progress a frame reports: the share of the selection elapsed, in percent, held at 99.9. */
  function Percent(r: TrimRange, elapsed: real): (p: real)
    requires Span(r) > 0.0
    ensures p <= 99.9
    ensures elapsed >= 0.0 ==> p >= 0.0
    ensures elapsed <= 0.999 * Span(r) ==> p == elapsed / Span(r) * 100.0
    ensures elapsed >= 0.999 * Span(r) ==> p == 99.9
  {
    Min(elapsed / Span(r) * 100.0, 99.9)
  }

  /** A frame stops the export once the whole selection has elapsed or the video has reached its end. */
  predicate ShouldStop(r: TrimRange, elapsed: real, mediaPosition: real)
  {
    elapsed >= Span(r) || mediaPosition >= r.end
  }

  /** The media type of the clip: the recorder's type up to its first `;`. */
  function BaseType(mimeType: string): string
  {
    if mimeType == [] || mimeType[0] == ';' then [] else [mimeType[0]] + BaseType(mimeType[1..])
  }

  /** The base type is the text before the first `;`, or all of it when there is none. */
  lemma {:induction false} BaseTypeIsPrefix(mimeType: string)
    ensures BaseType(mimeType) == mimeType[..IndexOf(mimeType, ';')]
    decreases |mimeType|
  {
    if mimeType != [] && mimeType[0] != ';' {
      BaseTypeIsPrefix(mimeType[1..]);
      assert mimeType[..IndexOf(mimeType, ';')] == [mimeType[0]] + mimeType[1..][..IndexOf(mimeType[1..], ';')];
    }
  }

  /** The base type is the first piece of `mimeType.split(';')`. */
  lemma BaseTypeIsFirstPiece(mimeType: string)
    ensures BaseType(mimeType) == Split(mimeType, ';')[0]
  {
    BaseTypeIsPrefix(mimeType);
    SplitFirstPiece(mimeType, ';');
  }

  /** A piece free of `;` followed by `;` is the base type of the whole. */
  lemma {:induction false} BaseTypeOfPiece(piece: string, rest: string)
    requires ';' !in piece
    ensures BaseType(piece + [';'] + rest) == piece
    decreases |piece|
  {
    if piece == [] {
      assert (piece + [';'] + rest)[0] == ';';
    } else {
      assert (piece + [';'] + rest)[1..] == piece[1..] + [';'] + rest;
      BaseTypeOfPiece(piece[1..], rest);
      assert [piece[0]] + piece[1..] == piece;
    }
  }

  /** Both encoder profiles produce clips typed `video/webm`. */
  lemma BaseTypeIsWebm(f: OutputFormat)
    ensures BaseType(f.MimeType()) == "video/webm"
  {
    var codec := if f == Vp9 then "codecs=vp9" else "codecs=vp8";
    assert f.MimeType() == "video/webm" + [';'] + codec;
    BaseTypeOfPiece("video/webm", codec);
  }

  /** The bytes of the chunks, one after another. */
  function Concat(chunks: seq<Blob>): seq<Byte>
  {
    if chunks == [] then [] else Concat(chunks[..|chunks| - 1]) + chunks[|chunks| - 1].bytes
  }

  /** A chunk added last contributes its bytes last. */
  lemma ConcatSnoc(chunks: seq<Blob>, c: Blob)
    ensures Concat(chunks + [c]) == Concat(chunks) + c.bytes
  {
    assert (chunks + [c])[..|chunks|] == chunks;
  }

  /** The bytes of two runs of chunks, one after the other, are the bytes of each run in turn. */
  lemma {:induction false} ConcatAppend(a: seq<Blob>, b: seq<Blob>)
    ensures Concat(a + b) == Concat(a) + Concat(b)
    decreases |b|
  {
    if b == [] {
      assert a + b == a;
    } else {
      var init, last := b[..|b| - 1], b[|b| - 1];
      assert a + b == (a + init) + [last];
      ConcatSnoc(a + init, last);
      ConcatSnoc(init, last);
      ConcatAppend(a, init);
    }
  }

  /** The clip `onstop` builds: the recorded chunks in arrival order, typed `clipType`. */
  function Finalize(chunks: seq<Blob>, clipType: string): Blob
  {
    Blob(Concat(chunks), clipType)
  }

  /**
   * One report from the browser. A frame while rendering either stops the recorder and
   * pauses the video, or reports progress, draws and schedules the next frame; a chunk is
   * kept until the clip is built; the recorder's stop, once requested, builds the clip,
   * hands it over and closes the audio graph. Reports a phase cannot receive change nothing.
   */
  function Tick(r: TrimRange, clipType: string, st: Recording, input: ExportInput): (st': Recording)
    requires Span(r) > 0.0
    ensures st.events <= st'.events
    ensures st.phase != Rendering ==> st'.phase != Rendering
    ensures st.phase == Done ==> st' == st
  {
    match input
    case Frame(now, mediaPosition) =>
      if st.phase != Rendering then st
      else
        var s := Anchor(st.startTime, now);
        if ShouldStop(r, Elapsed(now, s), mediaPosition) then
          st.(phase := Flushing, startTime := s, events := st.events + [RecorderStop, Pause])
        else
          var p := Percent(r, Elapsed(now, s));
          st.(startTime := s, progress := p, events := st.events + [Progress(p), DrawFrame, RequestFrame])
    case Data(chunk) =>
      if st.phase == Done then st
      else st.(chunks := st.chunks + [chunk], events := st.events + [Chunk(chunk)])
    case RecorderStopped =>
      if st.phase != Flushing then st
      else st.(phase := Done, events := st.events + [ExportComplete(Finalize(st.chunks, clipType)), CloseAudio])
  }

  /** The reports, one after another. */
  function Run(r: TrimRange, clipType: string, st: Recording, inputs: seq<ExportInput>): (st': Recording)
    requires Span(r) > 0.0
    ensures st.events <= st'.events
    ensures st.phase != Rendering ==> st'.phase != Rendering
    ensures st.phase == Done ==> st' == st
    decreases |inputs|
  {
    if inputs == [] then st else Run(r, clipType, Tick(r, clipType, st, inputs[0]), inputs[1..])
  }

  /** The chunks the log records, in order. */
  function ChunksIn(events: seq<Event>): seq<Blob>
  {
    if events == [] then []
    else (if events[0].Chunk? then [events[0].data] else []) + ChunksIn(events[1..])
  }

  lemma {:induction false} ChunksInAppend(a: seq<Event>, b: seq<Event>)
    ensures ChunksIn(a + b) == ChunksIn(a) + ChunksIn(b)
    decreases |a|
  {
    if a == [] {
      assert a + b == b;
    } else {
      var head := if a[0].Chunk? then [a[0].data] else [];
      assert (a + b)[0] == a[0] && (a + b)[1..] == a[1..] + b;
      assert ChunksIn(a + b) == head + ChunksIn(a[1..] + b);
      ChunksInAppend(a[1..], b);
      assert ChunksIn(a) == head + ChunksIn(a[1..]);
    }
  }

  /** A log without chunks records none. */
  lemma {:induction false} NoChunks(events: seq<Event>)
    requires forall i :: 0 <= i < |events| ==> !events[i].Chunk?
    ensures ChunksIn(events) == []
    decreases |events|
  {
    if events != [] {
      NoChunks(events[1..]);
    }
  }

  /**
   * The laws of an export's log: the kept chunks are those logged; no progress is reported
   * above 99.9; nothing is stopped while rendering; after the recorder is stopped no
   * progress is reported and it is not stopped again; once the export has stopped rendering
   * the recorder has been stopped; a clip is handed over only after the recorder was stopped,
   * only at the very end, as the chunks kept, and exactly when the export is done.
   */
  predicate Lawful(clipType: string, st: Recording)
  {
    var e := st.events;
    && st.chunks == ChunksIn(e)
    && st.progress <= 99.9
    && (forall i :: 0 <= i < |e| && e[i].Progress? ==> e[i].value <= 99.9)
    && (st.phase == Rendering ==> forall i :: 0 <= i < |e| ==> !e[i].RecorderStop?)
    && StopIsFinal(e)
    && (st.phase != Rendering ==> StopBefore(e, |e|))
    && (forall i :: 0 <= i < |e| && e[i].ExportComplete? ==> StopBefore(e, i))
    && (forall i :: 0 <= i < |e| && e[i].ExportComplete? ==>
          st.phase == Done && i == |e| - 2 && e[i].clip == Finalize(st.chunks, clipType))
    && (st.phase == Done ==> |e| >= 2 && e[|e| - 2] == ExportComplete(Finalize(st.chunks, clipType)))
  }

  /** Once the recorder is stopped, no progress is reported and it is not stopped again. */
  predicate StopIsFinal(e: seq<Event>)
  {
    forall i, j :: 0 <= i < j < |e| && e[i].RecorderStop? ==> !e[j].Progress? && !e[j].RecorderStop?
  }

  /** The recorder was stopped among the first `n` events. */
  predicate StopBefore(e: seq<Event>, n: int)
  {
    exists j :: 0 <= j < n && j < |e| && e[j].RecorderStop?
  }

  /** A stop among the first `n` events stays one among the first `m >= n` of a longer log. */
  lemma StopBeforeAppend(e: seq<Event>, tail: seq<Event>, n: int, m: int)
    requires StopBefore(e, n) && n <= m
    ensures StopBefore(e + tail, m)
  {
    var j :| 0 <= j < n && j < |e| && e[j].RecorderStop?;
    assert (e + tail)[j] == e[j];
  }

  /** Events that neither report progress nor stop the recorder can follow a stop. */
  lemma StopIsFinalAppend(e: seq<Event>, tail: seq<Event>)
    requires StopIsFinal(e)
    requires forall k :: 0 <= k < |tail| ==> !tail[k].Progress? && !tail[k].RecorderStop?
    ensures StopIsFinal(e + tail)
  {
    var e' := e + tail;
    forall i, j | 0 <= i < j < |e'| && e'[i].RecorderStop?
      ensures !e'[j].Progress? && !e'[j].RecorderStop?
    {
      if j < |e| {
        assert e[i] == e'[i] && e[j] == e'[j];
      } else {
        assert e'[j] == tail[j - |e|];
      }
    }
  }

  /** A frame that stops the recorder keeps the laws. */
  lemma StopLawful(clipType: string, st: Recording, s: real)
    requires Lawful(clipType, st) && st.phase == Rendering
    ensures Lawful(clipType, st.(phase := Flushing, startTime := s, events := st.events + [RecorderStop, Pause]))
  {
    var e, tail := st.events, [RecorderStop, Pause];
    var e' := e + tail;
    NoChunks(tail);
    ChunksInAppend(e, tail);
    assert StopIsFinal(e') by {
      assert forall i :: 0 <= i < |e'| && e'[i].RecorderStop? ==> i == |e|;
    }
    assert StopBefore(e', |e'|) by {
      assert e'[|e|].RecorderStop?;
    }
    assert forall i :: 0 <= i < |e'| && e'[i].Progress? ==> i < |e| && e'[i] == e[i];
    assert forall i :: 0 <= i < |e'| && e'[i].ExportComplete? ==> false;
  }

  /** A frame that reports progress keeps the laws. */
  lemma ProgressLawful(clipType: string, st: Recording, s: real, p: real)
    requires Lawful(clipType, st) && st.phase == Rendering && p <= 99.9
    ensures Lawful(clipType, st.(startTime := s, progress := p, events := st.events + [Progress(p), DrawFrame, RequestFrame]))
  {
    var e, tail := st.events, [Progress(p), DrawFrame, RequestFrame];
    NoChunks(tail);
    ChunksInAppend(e, tail);
    var e' := e + tail;
    assert forall i :: 0 <= i < |e'| && e'[i].RecorderStop? ==> i < |e|;
    assert forall i :: 0 <= i < |e'| && e'[i].ExportComplete? ==> i < |e|;
  }

  /** A recorded chunk, before the clip is built, keeps the laws. */
  lemma ChunkLawful(clipType: string, st: Recording, chunk: Blob)
    requires Lawful(clipType, st) && st.phase != Done
    ensures Lawful(clipType, st.(chunks := st.chunks + [chunk], events := st.events + [Chunk(chunk)]))
  {
    ChunksInAppend(st.events, [Chunk(chunk)]);
    StopIsFinalAppend(st.events, [Chunk(chunk)]);
    if st.phase == Flushing {
      StopBeforeAppend(st.events, [Chunk(chunk)], |st.events|, |st.events| + 1);
    }
  }

  /** Building the clip after the recorder stopped keeps the laws. */
  lemma ClipLawful(clipType: string, st: Recording)
    requires Lawful(clipType, st) && st.phase == Flushing
    ensures Lawful(clipType, st.(phase := Done, events := st.events + [ExportComplete(Finalize(st.chunks, clipType)), CloseAudio]))
  {
    var e, tail := st.events, [ExportComplete(Finalize(st.chunks, clipType)), CloseAudio];
    var e' := e + tail;
    assert st.chunks == ChunksIn(e') by {
      NoChunks(tail);
      ChunksInAppend(e, tail);
    }
    assert StopIsFinal(e') by {
      StopIsFinalAppend(e, tail);
    }
    StopBeforeAppend(e, tail, |e|, |e|);
    StopBeforeAppend(e, tail, |e|, |e'|);
    assert forall i :: 0 <= i < |e| ==> !e[i].ExportComplete?;
    ClipEvents(e, Finalize(st.chunks, clipType));
  }

  /** After a log with no clip, the clip and the closing of the audio graph add no progress and the one clip. */
  lemma ClipEvents(e: seq<Event>, clip: Blob)
    requires forall i :: 0 <= i < |e| ==> !e[i].ExportComplete?
    ensures var e' := e + [ExportComplete(clip), CloseAudio];
      && (forall i :: 0 <= i < |e'| && e'[i].Progress? ==> i < |e| && e'[i] == e[i])
      && (forall i :: 0 <= i < |e'| && e'[i].ExportComplete? ==> i == |e|)
      && e'[|e'| - 2] == ExportComplete(clip)
  {
  }

  /** One report keeps the laws. */
  lemma TickLawful(r: TrimRange, clipType: string, st: Recording, input: ExportInput)
    requires Span(r) > 0.0 && Lawful(clipType, st)
    ensures Lawful(clipType, Tick(r, clipType, st, input))
  {
    match input
    case Frame(now, mediaPosition) =>
      if st.phase == Rendering {
        var s := Anchor(st.startTime, now);
        if ShouldStop(r, Elapsed(now, s), mediaPosition) {
          StopLawful(clipType, st, s);
        } else {
          ProgressLawful(clipType, st, s, Percent(r, Elapsed(now, s)));
        }
      }
    case Data(chunk) =>
      if st.phase != Done {
        ChunkLawful(clipType, st, chunk);
      }
    case RecorderStopped =>
      if st.phase == Flushing {
        ClipLawful(clipType, st);
      }
  }

  /** Every export's log keeps the laws, whatever the browser reports. */
  lemma {:induction false} RunLawful(r: TrimRange, clipType: string, st: Recording, inputs: seq<ExportInput>)
    requires Span(r) > 0.0 && Lawful(clipType, st)
    ensures Lawful(clipType, Run(r, clipType, st, inputs))
    decreases |inputs|
  {
    if inputs != [] {
      TickLawful(r, clipType, st, inputs[0]);
      RunLawful(r, clipType, Tick(r, clipType, st, inputs[0]), inputs[1..]);
    }
  }

  /** Once set to a non-zero time, the loop's start time never moves. */
  lemma {:induction false} StartTimeFixed(r: TrimRange, clipType: string, st: Recording, inputs: seq<ExportInput>)
    requires Span(r) > 0.0 && st.startTime != 0.0
    ensures Run(r, clipType, st, inputs).startTime == st.startTime
    decreases |inputs|
  {
    if inputs != [] {
      StartTimeFixed(r, clipType, Tick(r, clipType, st, inputs[0]), inputs[1..]);
    }
  }

  /**
   * A frame while rendering stops exactly when the selection has elapsed or the video has
   * reached the end of the selection; a stopping frame only stops the recorder and pauses,
   * and any other frame reports the capped progress, draws and schedules the next frame.
   */
  lemma RenderFrame(r: TrimRange, clipType: string, st: Recording, now: real, mediaPosition: real)
    requires Span(r) > 0.0 && st.phase == Rendering
    ensures var st', s := Tick(r, clipType, st, Frame(now, mediaPosition)), Anchor(st.startTime, now);
      && st'.startTime == s
      && (st'.phase == Flushing <==> Elapsed(now, s) >= Span(r) || mediaPosition >= r.end)
      && (st'.phase == Flushing ==> st'.events == st.events + [RecorderStop, Pause])
      && (st'.phase == Rendering ==>
            st'.events == st.events + [Progress(Percent(r, Elapsed(now, s))), DrawFrame, RequestFrame])
  {
  }

  // Progress is non-decreasing when frame timestamps are.

  /** Frame timestamps that never go backwards, none before `t0`. */
  predicate TimestampsFrom(t0: real, inputs: seq<ExportInput>)
    decreases |inputs|
  {
    if inputs == [] then true
    else if inputs[0].Frame? then t0 <= inputs[0].now && TimestampsFrom(inputs[0].now, inputs[1..])
    else TimestampsFrom(t0, inputs[1..])
  }

  /** The progress values reported in a log, in order. */
  function Reported(events: seq<Event>): seq<real>
  {
    if events == [] then []
    else (if events[0].Progress? then [events[0].value] else []) + Reported(events[1..])
  }

  lemma {:induction false} ReportedAppend(a: seq<Event>, b: seq<Event>)
    ensures Reported(a + b) == Reported(a) + Reported(b)
    decreases |a|
  {
    if a == [] {
      assert a + b == b;
    } else {
      var head := if a[0].Progress? then [a[0].value] else [];
      assert (a + b)[0] == a[0] && (a + b)[1..] == a[1..] + b;
      assert Reported(a + b) == head + Reported(a[1..] + b);
      ReportedAppend(a[1..], b);
      assert Reported(a) == head + Reported(a[1..]);
    }
  }

  predicate NonDecreasing(s: seq<real>)
  {
    forall i, j :: 0 <= i < j < |s| ==> s[i] <= s[j]
  }

  /** The least progress a frame at time `t` reports, once the loop has started at `startTime`. */
  function LeastReport(r: TrimRange, startTime: real, t: real): real
    requires Span(r) > 0.0
  {
    if startTime == 0.0 then 0.0 else Percent(r, Elapsed(t, startTime))
  }

  /**
   * What makes the next report at least every earlier one: the reports so far never go
   * down and lie between zero and the least progress a frame at or after `t0` can report.
   */
  predicate Climbing(r: TrimRange, st: Recording, t0: real)
    requires Span(r) > 0.0
  {
    && NonDecreasing(Reported(st.events))
    && (forall i :: 0 <= i < |Reported(st.events)| ==> 0.0 <= Reported(st.events)[i] <= LeastReport(r, st.startTime, t0))
    && (st.startTime != 0.0 ==> st.startTime <= t0)
  }

  /** A log without progress reports reports nothing. */
  lemma {:induction false} NoReports(events: seq<Event>)
    requires forall i :: 0 <= i < |events| ==> !events[i].Progress?
    ensures Reported(events) == []
    decreases |events|
  {
    if events != [] {
      NoReports(events[1..]);
    }
  }

  /** Time passing keeps the reports climbing. */
  lemma ClimbingLater(r: TrimRange, st: Recording, t0: real, t1: real)
    requires Span(r) > 0.0 && Climbing(r, st, t0) && t0 <= t1
    ensures Climbing(r, st, t1)
  {
    if st.startTime != 0.0 {
      PercentMonotone(r, Elapsed(t0, st.startTime), Elapsed(t1, st.startTime));
    }
  }

  /** Fixing the start time at a frame keeps the reports climbing. */
  lemma ClimbingAnchored(r: TrimRange, st: Recording, t0: real, now: real)
    requires Span(r) > 0.0 && Climbing(r, st, t0) && t0 <= now
    ensures Climbing(r, st.(startTime := Anchor(st.startTime, now)), now)
  {
    if st.startTime == 0.0 {
      assert Percent(r, Elapsed(now, now)) == 0.0;
    } else {
      ClimbingLater(r, st, t0, now);
    }
  }

  /** Logging anything but a progress report keeps the reports climbing. */
  lemma ClimbingQuiet(r: TrimRange, st: Recording, st': Recording, t: real, tail: seq<Event>)
    requires Span(r) > 0.0 && Climbing(r, st, t)
    requires forall i :: 0 <= i < |tail| ==> !tail[i].Progress?
    requires st'.startTime == st.startTime && st'.events == st.events + tail
    ensures Climbing(r, st', t)
  {
    NoReports(tail);
    ReportedAppend(st.events, tail);
  }

  /** Reporting the least progress a frame at `t` can report keeps the reports climbing. */
  lemma ClimbingReport(r: TrimRange, st: Recording, st': Recording, t: real)
    requires Span(r) > 0.0 && Climbing(r, st, t)
    requires st'.startTime == st.startTime
    requires st'.events == st.events + [Progress(LeastReport(r, st.startTime, t)), DrawFrame, RequestFrame]
    ensures Climbing(r, st', t)
  {
    var p := LeastReport(r, st.startTime, t);
    var tail := [Progress(p), DrawFrame, RequestFrame];
    NoReports(tail[1..]);
    assert tail[1..][0] == DrawFrame;
    ReportedAppend(st.events, tail);
  }

  /** A frame at or after `t0` keeps the reports climbing. */
  lemma TickClimbs(r: TrimRange, clipType: string, st: Recording, t0: real, input: ExportInput)
    requires Span(r) > 0.0 && Climbing(r, st, t0)
    requires input.Frame? ==> t0 <= input.now
    ensures Climbing(r, Tick(r, clipType, st, input), if input.Frame? then input.now else t0)
  {
    var st' := Tick(r, clipType, st, input);
    match input
    case Frame(now, mediaPosition) =>
      if st.phase == Rendering {
        var s := Anchor(st.startTime, now);
        var st1 := st.(startTime := s);
        ClimbingAnchored(r, st, t0, now);
        if ShouldStop(r, Elapsed(now, s), mediaPosition) {
          ClimbingQuiet(r, st1, st', now, [RecorderStop, Pause]);
        } else {
          assert Percent(r, Elapsed(now, s)) == LeastReport(r, s, now);
          ClimbingReport(r, st1, st', now);
        }
      } else {
        ClimbingLater(r, st, t0, now);
      }
    case Data(chunk) =>
      if st.phase != Done {
        ClimbingQuiet(r, st, st', t0, [Chunk(chunk)]);
      }
    case RecorderStopped =>
      if st.phase == Flushing {
        ClimbingQuiet(r, st, st', t0, [ExportComplete(Finalize(st.chunks, clipType)), CloseAudio]);
      }
  }

  lemma PercentMonotone(r: TrimRange, a: real, b: real)
    requires Span(r) > 0.0 && a <= b
    ensures Percent(r, a) <= Percent(r, b)
  {
    assert a / Span(r) <= b / Span(r);
  }

  /** With frame timestamps that never go backwards, the reported progress never goes down, and never below zero. */
  lemma {:induction false} RunClimbs(r: TrimRange, clipType: string, st: Recording, t0: real, inputs: seq<ExportInput>)
    requires Span(r) > 0.0 && Climbing(r, st, t0) && TimestampsFrom(t0, inputs)
    ensures NonDecreasing(Reported(Run(r, clipType, st, inputs).events))
    ensures forall p :: p in Reported(Run(r, clipType, st, inputs).events) ==> 0.0 <= p <= 99.9
    decreases |inputs|
  {
    if inputs == [] {
      var rep := Reported(st.events);
      forall p | p in rep
        ensures 0.0 <= p <= 99.9
      {
        var i :| 0 <= i < |rep| && rep[i] == p;
      }
    } else {
      var t1 := if inputs[0].Frame? then inputs[0].now else t0;
      TickClimbs(r, clipType, st, t0, inputs[0]);
      RunClimbs(r, clipType, Tick(r, clipType, st, inputs[0]), t1, inputs[1..]);
    }
  }

  /** The laws and the climbing hold of the state the loop starts from. */
  lemma StartIsLawful(r: TrimRange, clipType: string, t0: real)
    requires Span(r) > 0.0
    ensures Lawful(clipType, Start) && Climbing(r, Start, t0)
  {
  }

  // The clip is built from the chunks the recorder delivered, once the recorder has stopped.

  /** The chunks of the recorder's `dataavailable` reports, in arrival order. */
  function DataChunks(inputs: seq<ExportInput>): seq<Blob>
  {
    if inputs == [] then []
    else (if inputs[0].Data? then [inputs[0].chunk] else []) + DataChunks(inputs[1..])
  }

  /** Reports handled in two runs are handled as one run. */
  lemma {:induction false} RunAppend(r: TrimRange, clipType: string, st: Recording, a: seq<ExportInput>, b: seq<ExportInput>)
    requires Span(r) > 0.0
    ensures Run(r, clipType, st, a + b) == Run(r, clipType, Run(r, clipType, st, a), b)
    decreases |a|
  {
    if a == [] {
      assert a + b == b;
    } else {
      assert (a + b)[0] == a[0] && (a + b)[1..] == a[1..] + b;
      RunAppend(r, clipType, Tick(r, clipType, st, a[0]), a[1..], b);
    }
  }

  /** Until the clip is built, the chunks kept are those kept before followed by every chunk delivered since. */
  lemma {:induction false} RunCollects(r: TrimRange, clipType: string, st: Recording, inputs: seq<ExportInput>)
    requires Span(r) > 0.0 && Run(r, clipType, st, inputs).phase != Done
    ensures Run(r, clipType, st, inputs).chunks == st.chunks + DataChunks(inputs)
    decreases |inputs|
  {
    if inputs == [] {
      assert st.chunks + [] == st.chunks;
    } else {
      var next := Tick(r, clipType, st, inputs[0]);
      var head := if inputs[0].Data? then [inputs[0].chunk] else [];
      assert next.chunks == st.chunks + head;
      RunCollects(r, clipType, next, inputs[1..]);
      assert DataChunks(inputs) == head + DataChunks(inputs[1..]);
      assert st.chunks + head + DataChunks(inputs[1..]) == st.chunks + (head + DataChunks(inputs[1..]));
    }
  }

  /**
   * An export that is done was finished by a report of the recorder's stop that arrived while
   * flushing, and nothing after that report changed it.
   */
  lemma {:induction false} RunDone(r: TrimRange, clipType: string, st: Recording, inputs: seq<ExportInput>)
    requires Span(r) > 0.0 && st.phase != Done && Run(r, clipType, st, inputs).phase == Done
    ensures exists k :: (0 <= k < |inputs| && inputs[k] == RecorderStopped
                         && Run(r, clipType, st, inputs[..k]).phase == Flushing
                         && Run(r, clipType, st, inputs) == Run(r, clipType, st, inputs[..k + 1]))
    decreases |inputs|
  {
    var next := Tick(r, clipType, st, inputs[0]);
    if next.phase == Done {
      assert inputs[..0] == [] && inputs[..1] == [inputs[0]] && [inputs[0]][1..] == [];
      assert inputs[0] == RecorderStopped && st.phase == Flushing;
      assert Run(r, clipType, st, inputs[..1]) == next;
    } else {
      RunDone(r, clipType, next, inputs[1..]);
      var k :| 0 <= k < |inputs[1..]| && inputs[1..][k] == RecorderStopped
        && Run(r, clipType, next, inputs[1..][..k]).phase == Flushing
        && Run(r, clipType, next, inputs[1..]) == Run(r, clipType, next, inputs[1..][..k + 1]);
      assert inputs[..k + 1][0] == inputs[0] && inputs[..k + 1][1..] == inputs[1..][..k];
      assert inputs[..k + 2][0] == inputs[0] && inputs[..k + 2][1..] == inputs[1..][..k + 1];
      assert inputs[k + 1] == RecorderStopped;
    }
  }

  /**
   * The recorder's stop, reported while flushing, finishes the export: the clip handed over is
   * the chunks delivered before that report in arrival order, and the audio graph is closed
   * after it; later reports change nothing.
   */
  lemma StopFinishes(r: TrimRange, clipType: string, inputs: seq<ExportInput>, k: nat)
    requires Span(r) > 0.0 && k < |inputs| && inputs[k] == RecorderStopped
    requires Run(r, clipType, Start, inputs[..k]).phase == Flushing
    ensures var rec := Run(r, clipType, Start, inputs);
      && rec.phase == Done
      && rec.events == Run(r, clipType, Start, inputs[..k]).events
                       + [ExportComplete(Finalize(DataChunks(inputs[..k]), clipType)), CloseAudio]
  {
    var before := Run(r, clipType, Start, inputs[..k]);
    RunCollects(r, clipType, Start, inputs[..k]);
    assert before.chunks == DataChunks(inputs[..k]);
    var done := Tick(r, clipType, before, RecorderStopped);
    assert Run(r, clipType, before, [inputs[k]]) == done by {
      assert [inputs[k]][1..] == [];
    }
    assert inputs == inputs[..k] + [inputs[k]] + inputs[k + 1..];
    RunAppend(r, clipType, Start, inputs[..k], [inputs[k]]);
    RunAppend(r, clipType, Start, inputs[..k] + [inputs[k]], inputs[k + 1..]);
  }

  // ---------------------------------------------------------------------------
  // The editor component
  // ---------------------------------------------------------------------------

  class VideoEditor {
    /** The application shell whose handlers the editor's callbacks are. */
    const app: App
    /** The loaded video this editor was opened on. */
    const videoFile: VideoFile
    /** Whether the `<video>` element is mounted (`videoRef.current`). */
    const hasElement: bool
    var trimRange: TrimRange
    var playing: bool
    /** The time the timeline shows (`currentTime` state). */
    var currentTime: real
    /** The video element's own position (`video.currentTime`). */
    var position: real
    var muted: bool
    var format: OutputFormat
    ghost var log: seq<Event>

    /** The selection stays admissible for the loaded video, which has a positive duration. */
    predicate Valid()
      reads this
    {
      videoFile.duration > 0.0 && Admissible(trimRange, videoFile.duration)
    }

    /** The first render: the whole video selected, paused at zero, VP9 chosen. */
    constructor (app: App, videoFile: VideoFile, hasElement: bool)
      requires videoFile.duration > 0.0
      ensures Valid()
      ensures this.app == app && this.videoFile == videoFile && this.hasElement == hasElement
      ensures trimRange == TrimRange(0.0, videoFile.duration)
      ensures !playing && currentTime == 0.0 && position == 0.0 && !muted && format == Vp9 && log == []
    {
      this.app := app;
      this.videoFile := videoFile;
      this.hasElement := hasElement;
      trimRange := TrimRange(0.0, videoFile.duration);
      playing := false;
      currentTime := 0.0;
      position := 0.0;
      muted := false;
      format := Vp9;
      log := [];
    }

    /** `togglePlay`: with the element mounted, pauses or plays it and flips the playing flag. */
    method TogglePlay()
      modifies this
      ensures hasElement ==> playing == !old(playing) && log == old(log) + [if old(playing) then Pause else Play]
      ensures !hasElement ==> playing == old(playing) && log == old(log)
      ensures trimRange == old(trimRange) && currentTime == old(currentTime) && position == old(position)
      ensures muted == old(muted) && format == old(format)
    {
      if hasElement {
        if playing {
          log := log + [Pause];
        } else {
          log := log + [Play];
        }
        playing := !playing;
      }
    }

    /** `toggleMute`. */
    method ToggleMute()
      modifies this
      ensures muted == !old(muted)
      ensures trimRange == old(trimRange) && playing == old(playing) && currentTime == old(currentTime)
      ensures position == old(position) && format == old(format) && log == old(log)
    {
      muted := !muted;
    }

    /** The format menu's `onChange`. */
    method SelectFormat(f: OutputFormat)
      modifies this
      ensures format == f
      ensures trimRange == old(trimRange) && playing == old(playing) && currentTime == old(currentTime)
      ensures position == old(position) && muted == old(muted) && log == old(log)
    {
      format := f;
    }

    /**
     * `handleRangeChange`: applies the clamp rule to one side and, with the element mounted,
     * seeks to the new start, or to just before the new end so the cut point shows.
     */
    method HandleRangeChange(side: Side, v: real)
      requires Valid()
      modifies this
      ensures Valid()
      ensures trimRange == Update(old(trimRange), videoFile.duration, side, v)
      ensures side == StartSide && hasElement ==> position == trimRange.start && log == old(log) + [Seek(trimRange.start)]
      ensures side == EndSide && hasElement ==> position == trimRange.end - 0.05 && log == old(log) + [Seek(trimRange.end - 0.05)]
      ensures !hasElement ==> position == old(position) && log == old(log)
      ensures playing == old(playing) && currentTime == old(currentTime) && muted == old(muted) && format == old(format)
    {
      UpdateKeepsAdmissible(trimRange, videoFile.duration, side, v);
      var newRange := trimRange;
      if side == StartSide {
        newRange := newRange.(start := Max(0.0, Min(v, trimRange.end - MinGap)));
        if hasElement {
          position := newRange.start;
          log := log + [Seek(newRange.start)];
        }
      } else {
        newRange := newRange.(end := Min(videoFile.duration, Max(v, trimRange.start + MinGap)));
        if hasElement {
          position := newRange.end - 0.05;
          log := log + [Seek(newRange.end - 0.05)];
        }
      }
      trimRange := newRange;
    }

    /**
     * The `timeupdate` handler: shows the element's position, then sends the element back
     * to the start of the selection when it has reached the end (pausing it there unless
     * playing) or lies before the start.
     */
    method HandleTimeUpdate()
      modifies this
      ensures hasElement ==> currentTime == old(position) && position == Snap(old(position), trimRange)
      ensures hasElement && old(position) >= trimRange.end ==>
                log == old(log) + [Seek(trimRange.start)] + (if playing then [] else [Pause])
      ensures hasElement && old(position) < trimRange.end && old(position) < trimRange.start ==>
                log == old(log) + [Seek(trimRange.start)]
      ensures !hasElement || trimRange.start <= old(position) < trimRange.end ==> log == old(log)
      ensures !hasElement ==> currentTime == old(currentTime) && position == old(position)
      ensures trimRange == old(trimRange) && playing == old(playing) && muted == old(muted) && format == old(format)
    {
      if hasElement {
        currentTime := position;
        if position >= trimRange.end {
          position := trimRange.start;
          log := log + [Seek(trimRange.start)];
          if !playing {
            log := log + [Pause];
          }
        }
        if position < trimRange.start {
          position := trimRange.start;
          log := log + [Seek(trimRange.start)];
        }
      }
    }

    /** `handleTimeClick`: with the element mounted, seeks it and shows the clicked time. */
    method HandleTimeClick(t: real)
      modifies this
      ensures hasElement ==> position == t && currentTime == t && log == old(log) + [Seek(t)]
      ensures !hasElement ==> position == old(position) && currentTime == old(currentTime) && log == old(log)
      ensures trimRange == old(trimRange) && playing == old(playing) && muted == old(muted) && format == old(format)
    {
      if hasElement {
        position := t;
        currentTime := t;
        log := log + [Seek(t)];
      }
    }

    /**
     * `exportVideo` and its frame loop. With the element mounted it tells the shell the
     * export started, pauses, seeks to the start of the selection and (once a 2D context is
     * available) starts the recorder, plays and schedules the first frame; then it handles
     * the browser's reports in order. The shell's progress is the last progress reported,
     * and the shell finishes with `clipUrl`, the object URL of the clip, exactly when the
     * recorder has stopped. Without a context the export stops after the seek and the
     * shell stays in the exporting phase.
     */
    method ExportVideo(inputs: seq<ExportInput>, contextAvailable: bool, clipUrl: string)
      requires Valid()
      modifies this, app
      ensures Valid() && trimRange == old(trimRange) && format == old(format) && muted == old(muted)
      ensures currentTime == old(currentTime)
      ensures !hasElement ==> playing == old(playing) && position == old(position) && log == old(log)
      ensures !hasElement ==> app.status == old(app.status) && app.exportProgress == old(app.exportProgress)
      ensures !hasElement ==> app.exportedUrl == old(app.exportedUrl)
      ensures hasElement ==> !playing && position == trimRange.start
      ensures hasElement && !contextAvailable ==> log == old(log) + [Pause, Seek(trimRange.start)]
      ensures hasElement && !contextAvailable ==> app.status == Exporting && app.exportProgress == 0.0
      ensures hasElement && !contextAvailable ==> app.exportedUrl == old(app.exportedUrl)
      ensures hasElement && contextAvailable ==>
        var rec := Run(trimRange, BaseType(format.MimeType()), Start, inputs);
        && log == old(log) + [Pause, Seek(trimRange.start), RecorderStart, Play, RequestFrame] + rec.events
        && app.status == (if rec.phase == Done then Finished else Exporting)
        && app.exportProgress == rec.progress
        && app.exportedUrl == (if rec.phase == Done then Some(clipUrl) else old(app.exportedUrl))
      ensures app.videoFile == old(app.videoFile) && app.pendingLoads == old(app.pendingLoads)
      ensures app.revoked == old(app.revoked)
    {
      if !hasElement {
        return;
      }
      PrepareExport();
      if !contextAvailable {
        return;
      }
      log := log + [RecorderStart, Play, RequestFrame];
      assert log == old(log) + [Pause, Seek(trimRange.start), RecorderStart, Play, RequestFrame];
      ghost var started := log;
      AdmissibleSpanPositive(trimRange, videoFile.duration);
      var clipType := BaseType(format.MimeType());
      RenderLoop(inputs, clipType, clipUrl);
      assert log == started + Run(trimRange, clipType, Start, inputs).events;
    }

    /** The start of `exportVideo`: tells the shell, pauses, and seeks to the start of the selection. */
    method PrepareExport()
      modifies this`log, this`playing, this`position, app
      ensures log == old(log) + [Pause, Seek(trimRange.start)] && !playing && position == trimRange.start
      ensures app.status == Exporting && app.exportProgress == 0.0 && app.exportedUrl == old(app.exportedUrl)
      ensures app.videoFile == old(app.videoFile) && app.pendingLoads == old(app.pendingLoads)
      ensures app.revoked == old(app.revoked)
    {
      app.HandleExportStart();
      log := log + [Pause];
      playing := false;
      position := trimRange.start;
      log := log + [Seek(trimRange.start)];
    }

    /**
     * The export once the recorder runs: the frame loop with `startTime` and the `chunks`
     * array, fed the browser's reports in order; `clipType` is the base type of the chosen
     * format, which `onstop` types the clip with.
     */
    method RenderLoop(inputs: seq<ExportInput>, clipType: string, clipUrl: string)
      requires Span(trimRange) > 0.0 && app.status == Exporting && app.exportProgress == 0.0
      modifies this`log, app
      ensures var rec := Run(trimRange, clipType, Start, inputs);
        && log == old(log) + rec.events
        && app.status == (if rec.phase == Done then Finished else Exporting)
        && app.exportProgress == rec.progress
        && app.exportedUrl == (if rec.phase == Done then Some(clipUrl) else old(app.exportedUrl))
      ensures app.videoFile == old(app.videoFile) && app.pendingLoads == old(app.pendingLoads)
      ensures app.revoked == old(app.revoked)
    {
      var span := trimRange.end - trimRange.start;
      var phase := Rendering;
      var startTime := 0.0;
      var chunks: seq<Blob> := [];
      ghost var progress := 0.0;
      ghost var events: seq<Event> := [];
      var i := 0;
      while i < |inputs|
        invariant 0 <= i <= |inputs|
        invariant Run(trimRange, clipType, Recording(phase, startTime, chunks, progress, events), inputs[i..])
               == Run(trimRange, clipType, Start, inputs)
        invariant log == old(log) + events
        invariant app.status == (if phase == Done then Finished else Exporting)
        invariant app.exportProgress == progress
        invariant app.exportedUrl == (if phase == Done then Some(clipUrl) else old(app.exportedUrl))
        invariant app.videoFile == old(app.videoFile) && app.pendingLoads == old(app.pendingLoads)
        invariant app.revoked == old(app.revoked)
      {
        assert inputs[i..][0] == inputs[i] && inputs[i..][1..] == inputs[i + 1..];
        phase, startTime, chunks, progress, events :=
          Report(inputs[i], span, clipType, clipUrl, phase, startTime, chunks, progress, events);
        i := i + 1;
      }
    }

    /**
     * One report to a running export: a frame runs the body of `renderLoop`, a chunk is
     * pushed by `ondataavailable`, and the recorder's stop runs `onstop`.
     */
    method Report(input: ExportInput, span: real, clipType: string, clipUrl: string,
                  phase: Phase, startTime: real, chunks: seq<Blob>, ghost progress: real, ghost events: seq<Event>)
      returns (phase': Phase, startTime': real, chunks': seq<Blob>, ghost progress': real, ghost events': seq<Event>)
      requires span == Span(trimRange) > 0.0
      requires app.status == (if phase == Done then Finished else Exporting) && app.exportProgress == progress
      modifies this`log, app
      ensures Recording(phase', startTime', chunks', progress', events')
           == Tick(trimRange, clipType, Recording(phase, startTime, chunks, progress, events), input)
      ensures log == old(log) + events'[|events|..] && |events| <= |events'|
      ensures app.status == (if phase' == Done then Finished else Exporting) && app.exportProgress == progress'
      ensures app.exportedUrl == (if phase' != Done || phase == Done then old(app.exportedUrl) else Some(clipUrl))
      ensures app.videoFile == old(app.videoFile) && app.pendingLoads == old(app.pendingLoads)
      ensures app.revoked == old(app.revoked)
    {
      phase', startTime', chunks', progress', events' := phase, startTime, chunks, progress, events;
      match input {
        case Frame(now, mediaPosition) =>
          if phase == Rendering {
            if startTime' == 0.0 {
              startTime' := now;
            }
            var elapsed := (now - startTime') / 1000.0;
            var p := elapsed / span * 100.0;
            if elapsed >= span || mediaPosition >= trimRange.end {
              log := log + [RecorderStop, Pause];
              events' := events + [RecorderStop, Pause];
              phase' := Flushing;
            } else {
              var shown := Min(p, 99.9);
              app.SetExportProgress(shown);
              progress' := shown;
              log := log + [Progress(shown), DrawFrame, RequestFrame];
              events' := events + [Progress(shown), DrawFrame, RequestFrame];
            }
          }
        case Data(chunk) =>
          if phase != Done {
            chunks' := chunks + [chunk];
            log := log + [Chunk(chunk)];
            events' := events + [Chunk(chunk)];
          }
        case RecorderStopped =>
          if phase == Flushing {
            var clip := Blob(Concat(chunks), clipType);
            log := log + [ExportComplete(clip), CloseAudio];
            events' := events + [ExportComplete(clip), CloseAudio];
            app.HandleExportComplete(clipUrl);
            phase' := Done;
          }
      }
    }
  }

  /**
   * The export's contract, read through the laws: the shell never shows more than 99.9
   * before the clip exists, and finishes exactly when the clip has been handed over; the clip
   * is handed over at most once, only after the recorder was stopped, and as the next-to-last
   * request. Until then the chunks kept are every chunk the recorder delivered; once done,
   * the clip is the chunks delivered before the recorder's stop report, in arrival order.
   */
  lemma ExportOutcome(r: TrimRange, clipType: string, inputs: seq<ExportInput>)
    requires Span(r) > 0.0
    ensures var rec := Run(r, clipType, Start, inputs);
      && rec.progress <= 99.9
      && (rec.phase == Done <==> exists i :: 0 <= i < |rec.events| && rec.events[i].ExportComplete?)
      && (forall i :: 0 <= i < |rec.events| && rec.events[i].ExportComplete? ==> i == |rec.events| - 2)
      && (forall i :: 0 <= i < |rec.events| && rec.events[i].ExportComplete? ==>
            exists j :: 0 <= j < i && rec.events[j].RecorderStop?)
      && (rec.phase == Done ==>
            |rec.events| >= 2 && rec.events[|rec.events| - 2] == ExportComplete(Finalize(ChunksIn(rec.events), clipType)))
      && (rec.phase != Done ==> rec.chunks == DataChunks(inputs))
      && (rec.phase == Done ==> exists k :: (0 <= k < |inputs| && inputs[k] == RecorderStopped
            && Run(r, clipType, Start, inputs[..k]).phase == Flushing
            && rec.events[|rec.events| - 2] == ExportComplete(Finalize(DataChunks(inputs[..k]), clipType))))
  {
    StartIsLawful(r, clipType, 0.0);
    RunLawful(r, clipType, Start, inputs);
    var rec := Run(r, clipType, Start, inputs);
    if rec.phase == Done {
      assert rec.events[|rec.events| - 2].ExportComplete?;
      FinishedClip(r, clipType, inputs);
    } else {
      RunCollects(r, clipType, Start, inputs);
      assert [] + DataChunks(inputs) == DataChunks(inputs);
    }
  }

  /** A finished export handed over the chunks delivered before the recorder's stop report. */
  lemma FinishedClip(r: TrimRange, clipType: string, inputs: seq<ExportInput>)
    requires Span(r) > 0.0 && Run(r, clipType, Start, inputs).phase == Done
    ensures var e := Run(r, clipType, Start, inputs).events;
      exists k :: (0 <= k < |inputs| && inputs[k] == RecorderStopped
        && Run(r, clipType, Start, inputs[..k]).phase == Flushing
        && |e| >= 2 && e[|e| - 2] == ExportComplete(Finalize(DataChunks(inputs[..k]), clipType)))
  {
    RunDone(r, clipType, Start, inputs);
    var k :| 0 <= k < |inputs| && inputs[k] == RecorderStopped
      && Run(r, clipType, Start, inputs[..k]).phase == Flushing
      && Run(r, clipType, Start, inputs) == Run(r, clipType, Start, inputs[..k + 1]);
    StopFinishes(r, clipType, inputs, k);
  }

  /** With frame timestamps that never go backwards, the progress the shell receives only grows, from zero to at most 99.9. */
  lemma ExportProgressClimbs(r: TrimRange, clipType: string, t0: real, inputs: seq<ExportInput>)
    requires Span(r) > 0.0 && TimestampsFrom(t0, inputs)
    ensures NonDecreasing(Reported(Run(r, clipType, Start, inputs).events))
    ensures forall p :: p in Reported(Run(r, clipType, Start, inputs).events) ==> 0.0 <= p <= 99.9
  {
    StartIsLawful(r, clipType, t0);
    RunClimbs(r, clipType, Start, t0, inputs);
  }

  /** A selection kept admissible for a video of positive length is never empty, so the export's progress is defined. */
  lemma AdmissibleSpanPositive(r: TrimRange, duration: real)
    requires duration > 0.0 && Admissible(r, duration)
    ensures Span(r) > 0.0
  {
  }
}
