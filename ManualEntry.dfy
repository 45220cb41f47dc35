/**
 * The manual time entry of the editor (components/ManualInputs.tsx): two text fields that
 * show the selection's bounds as clock text, forward what the user types to the editor when
 * it reads as an acceptable time, and are rewritten whenever the bound they show changes.
 */
module ManualEntry {
  import opened Wrappers
  import opened Types
  import opened TimeCodec
  import opened TrimRule

  /**
   * The gate of `handleInput`: the typed text is forwarded as a new bound only when it reads
   * as a time that lies in `[0, end)` for the start, or in `(start, duration]` for the end.
   */
  function Forward(side: Side, text: string, r: TrimRange, duration: real): (f: Option<real>)
    ensures f.Some? ==> ParseTime(text) == f
    ensures ParseTime(text) == None ==> f == None
    ensures side == StartSide && ParseTime(text).Some? ==>
              (f.Some? <==> 0.0 <= ParseTime(text).value < r.end)
    ensures side == EndSide && ParseTime(text).Some? ==>
              (f.Some? <==> r.start < ParseTime(text).value <= duration)
  {
    match ParseTime(text)
    case None => None
    case Some(secs) =>
      match side
      case StartSide => if secs < r.end && secs >= 0.0 then Some(secs) else None
      case EndSide => if secs > r.start && secs <= duration then Some(secs) else None
  }

  /** Text that reads as an acceptable time for its side is forwarded as that time. */
  lemma ForwardsReadable(side: Side, text: string, r: TrimRange, duration: real, v: real)
    requires ParseTime(text) == Some(v)
    requires side == StartSide ==> 0.0 <= v < r.end
    requires side == EndSide ==> r.start < v <= duration
    ensures Forward(side, text, r, duration) == Some(v)
  {
  }

  class ManualInputs {
    /** The text of the start field. */
    var startInput: string
    /** The text of the end field. */
    var endInput: string
    /** The start bound the start field's effect last ran for. */
    var shownStart: real
    /** The end bound the end field's effect last ran for. */
    var shownEnd: real

    /** Both fields start as the clock text of the current bounds. */
    constructor (r: TrimRange)
      ensures startInput == FormatTime(r.start) && endInput == FormatTime(r.end)
      ensures shownStart == r.start && shownEnd == r.end
    {
      startInput := FormatTime(r.start);
      endInput := FormatTime(r.end);
      shownStart := r.start;
      shownEnd := r.end;
    }

    /**
     * `handleInput`: the edited field takes the typed text as it is, whether or not it reads
     * as a time, and the other field is left alone; the result is the bound forwarded to the
     * editor's `onRangeChange` for the edited side, if any.
     */
    method HandleInput(side: Side, text: string, r: TrimRange, duration: real) returns (forwarded: Option<real>)
      modifies this`startInput, this`endInput
      ensures side == StartSide ==> startInput == text && endInput == old(endInput)
      ensures side == EndSide ==> endInput == text && startInput == old(startInput)
      ensures forwarded == Forward(side, text, r, duration)
    {
      if side == StartSide {
        startInput := text;
      } else {
        endInput := text;
      }
      forwarded := None;
      var secs := ParseTime(text);
      if secs.Some? {
        if side == StartSide {
          if secs.value < r.end && secs.value >= 0.0 {
            forwarded := Some(secs.value);
          }
        } else {
          if secs.value > r.start && secs.value <= duration {
            forwarded := Some(secs.value);
          }
        }
      }
    }

    /**
     * The two effects, run after a render with the selection `r`: a field is rewritten as the
     * clock text of its bound only when that bound differs from the one it last ran for, so
     * a field whose bound did not move keeps whatever the user typed.
     */
    method Sync(r: TrimRange)
      modifies this
      ensures startInput == (if r.start != old(shownStart) then FormatTime(r.start) else old(startInput))
      ensures endInput == (if r.end != old(shownEnd) then FormatTime(r.end) else old(endInput))
      ensures shownStart == r.start && shownEnd == r.end
    {
      if r.start != shownStart {
        startInput := FormatTime(r.start);
      }
      if r.end != shownEnd {
        endInput := FormatTime(r.end);
      }
      shownStart := r.start;
      shownEnd := r.end;
    }
  }

  /**
   * Typing back the start field's own text, in a selection that is valid, forwards the start
   * truncated to hundredths.
   */
  lemma RetypeStart(r: TrimRange, duration: real)
    requires Valid(r, duration)
    ensures Forward(StartSide, FormatTime(r.start), r, duration) == Some(Hundredths(r.start))
  {
    ParseFormatTime(r.start);
    HundredthsBounds(r.start);
    ForwardsReadable(StartSide, FormatTime(r.start), r, duration, Hundredths(r.start));
  }

  /** The editor keeps a retyped start, truncated to hundredths, as the new start. */
  lemma KeepRetypedStart(r: TrimRange, duration: real)
    requires Valid(r, duration)
    ensures Update(r, duration, StartSide, Hundredths(r.start)) == r.(start := Hundredths(r.start))
  {
    HundredthsBounds(r.start);
  }

  /**
   * Typing back the end field's own text, in a selection that is valid, forwards the end
   * truncated to hundredths.
   */
  lemma RetypeEnd(r: TrimRange, duration: real)
    requires Valid(r, duration)
    ensures Forward(EndSide, FormatTime(r.end), r, duration) == Some(Hundredths(r.end))
  {
    ParseFormatTime(r.end);
    ForwardsReadable(EndSide, FormatTime(r.end), r, duration, Hundredths(r.end));
  }

  /**
   * The editor keeps a retyped end, truncated to hundredths, or lifts it to the minimum gap
   * after the start when truncation took it below that.
   */
  lemma KeepRetypedEnd(r: TrimRange, duration: real)
    requires Valid(r, duration)
    ensures Update(r, duration, EndSide, Hundredths(r.end)) == r.(end := Max(Hundredths(r.end), r.start + MinGap))
  {
    HundredthsBounds(r.end);
  }

  /**
   * The gate is looser than the editor's rule: a forwarded start is kept only when it leaves
   * the minimum gap before the end, and is otherwise pulled back to the end minus that gap.
   */
  lemma ForwardedStartIsClamped(text: string, r: TrimRange, duration: real, v: real)
    requires Forward(StartSide, text, r, duration) == Some(v)
    ensures 0.0 <= v < r.end
    ensures Update(r, duration, StartSide, v).start == (if v <= r.end - MinGap then v else Max(0.0, r.end - MinGap))
  {
  }

  /**
   * A forwarded end is kept only when it leaves the minimum gap after the start, and is
   * otherwise pushed on to the start plus that gap, within the video.
   */
  lemma ForwardedEndIsClamped(text: string, r: TrimRange, duration: real, v: real)
    requires Forward(EndSide, text, r, duration) == Some(v)
    ensures r.start < v <= duration
    ensures Update(r, duration, EndSide, v).end == (if v >= r.start + MinGap then v else Min(duration, r.start + MinGap))
  {
  }

  /** Text that is not a time never moves the selection. */
  lemma UnreadableTextForwardsNothing(side: Side, text: string, r: TrimRange, duration: real)
    requires ParseTime(text) == None
    ensures Forward(side, text, r, duration) == None
  {
  }

  /**
   * One keystroke in one field followed by the effects: the selection the editor ends up with
   * stays admissible, and when the forwarded bound moved the selection, the edited field shows
   * that bound's clock text again.
   */
  method Keystroke(m: ManualInputs, side: Side, text: string, r: TrimRange, duration: real)
      returns (r': TrimRange)
    requires Admissible(r, duration)
    requires m.shownStart == r.start && m.shownEnd == r.end
    modifies m
    ensures Admissible(r', duration)
    ensures r' == (match Forward(side, text, r, duration)
                   case None => r
                   case Some(v) => Update(r, duration, side, v))
    ensures m.shownStart == r'.start && m.shownEnd == r'.end
    ensures r'.start != r.start ==> m.startInput == FormatTime(r'.start)
    ensures r'.end != r.end ==> m.endInput == FormatTime(r'.end)
    ensures r' == r && side == StartSide ==> m.startInput == text && m.endInput == old(m.endInput)
    ensures r' == r && side == EndSide ==> m.endInput == text && m.startInput == old(m.startInput)
  {
    var forwarded := m.HandleInput(side, text, r, duration);
    r' := r;
    if forwarded.Some? {
      r' := Update(r, duration, side, forwarded.value);
      UpdateKeepsAdmissible(r, duration, side, forwarded.value);
    }
    m.Sync(r');
  }
}
