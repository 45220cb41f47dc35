/**
 * The trim-range update rule of the editor (components/VideoEditor.tsx, `handleRangeChange`):
 * moving one side of the selection clamps it against the other side, keeping a gap of at
 * least 0.2 s, and against the ends of the video.
 */
module TrimRule {
  import opened Types

  /** The side of the selection an edit moves (`'start' | 'end'`). */
  datatype Side = StartSide | EndSide

  /** The smallest selection the editor lets the user make, in seconds. */
  const MinGap: real := 0.2

  function Max(a: real, b: real): real { if a >= b then a else b }

  function Min(a: real, b: real): real { if a <= b then a else b }

  /**
   * A start update: `max(0, min(v, end - 0.2))`. The result never lies before the video,
   * stays at least the minimum gap before the end whenever the end allows it, and is the
   * requested value whenever that value is itself allowed.
   */
  function ClampStart(r: TrimRange, v: real): (r': TrimRange)
    ensures r'.end == r.end
    ensures r'.start >= 0.0
    ensures r'.start <= r.end - MinGap || r'.start == 0.0
    ensures 0.0 <= v <= r.end - MinGap ==> r'.start == v
    ensures v <= 0.0 ==> r'.start == 0.0
    ensures 0.0 <= r.end - MinGap <= v ==> r'.start == r.end - MinGap
  {
    r.(start := Max(0.0, Min(v, r.end - MinGap)))
  }

  /**
   * An end update: `min(duration, max(v, start + 0.2))`. The result never lies past the
   * video, stays at least the minimum gap after the start whenever the video allows it,
   * and is the requested value whenever that value is itself allowed.
   */
  function ClampEnd(r: TrimRange, duration: real, v: real): (r': TrimRange)
    ensures r'.start == r.start
    ensures r'.end <= duration
    ensures r'.end >= r.start + MinGap || r'.end == duration
    ensures r.start + MinGap <= v <= duration ==> r'.end == v
    ensures v >= duration ==> r'.end == duration
    ensures v <= r.start + MinGap <= duration ==> r'.end == r.start + MinGap
  {
    r.(end := Min(duration, Max(v, r.start + MinGap)))
  }

  /** One edit of the selection. */
  function Update(r: TrimRange, duration: real, side: Side, v: real): (r': TrimRange)
    ensures side == StartSide ==> r'.end == r.end
    ensures side == EndSide ==> r'.start == r.start
  {
    match side
    case StartSide => ClampStart(r, v)
    case EndSide => ClampEnd(r, duration, v)
  }

  /** The selection lies inside the video and is at least the minimum gap long. */
  predicate Valid(r: TrimRange, duration: real)
  {
    0.0 <= r.start && r.end <= duration && r.end - r.start >= MinGap
  }

  /**
   * The invariant the rule keeps for any video: either a valid selection, or, for a video
   * shorter than the minimum gap, the whole video.
   */
  predicate Admissible(r: TrimRange, duration: real)
  {
    0.0 <= r.start && r.end <= duration && (r.end - r.start >= MinGap || (r.start == 0.0 && r.end == duration))
  }

  /** The editor's first selection, the whole video, is admissible; it is valid when the video is at least 0.2 s long. */
  lemma InitialRange(duration: real)
    requires duration >= 0.0
    ensures Admissible(TrimRange(0.0, duration), duration)
    ensures Valid(TrimRange(0.0, duration), duration) <==> duration >= MinGap
  {
  }

  /** For a video at least the minimum gap long, admissible and valid are the same. */
  lemma AdmissibleIsValid(r: TrimRange, duration: real)
    requires duration >= MinGap
    ensures Admissible(r, duration) <==> Valid(r, duration)
  {
  }

  /** Any edit, with any requested value, keeps the selection admissible. */
  lemma UpdateKeepsAdmissible(r: TrimRange, duration: real, side: Side, v: real)
    requires Admissible(r, duration)
    ensures Admissible(Update(r, duration, side, v), duration)
  {
    if side == StartSide {
      if r.end < MinGap {
        assert r.start == 0.0 && r.end == duration;
      }
    } else {
      if duration < r.start + MinGap {
        assert r.start == 0.0 && r.end == duration;
      }
    }
  }

  /** A sequence of edits, applied in order. */
  function ApplyAll(r: TrimRange, duration: real, edits: seq<(Side, real)>): (r': TrimRange)
    ensures (forall k :: 0 <= k < |edits| ==> edits[k].0 == StartSide) ==> r'.end == r.end
    ensures (forall k :: 0 <= k < |edits| ==> edits[k].0 == EndSide) ==> r'.start == r.start
    decreases |edits|
  {
    if edits == [] then r
    else ApplyAll(Update(r, duration, edits[0].0, edits[0].1), duration, edits[1..])
  }

  /** Every sequence of edits keeps the selection admissible, and so valid when it was valid. */
  lemma {:induction false} ApplyAllKeepsAdmissible(r: TrimRange, duration: real, edits: seq<(Side, real)>)
    requires Admissible(r, duration)
    ensures Admissible(ApplyAll(r, duration, edits), duration)
    ensures duration >= MinGap ==> Valid(ApplyAll(r, duration, edits), duration)
    decreases |edits|
  {
    if edits != [] {
      UpdateKeepsAdmissible(r, duration, edits[0].0, edits[0].1);
      ApplyAllKeepsAdmissible(Update(r, duration, edits[0].0, edits[0].1), duration, edits[1..]);
    }
  }

  /** A video shorter than the minimum gap keeps its whole-video selection whatever the user asks for. */
  lemma ShortVideoIsFixed(duration: real, side: Side, v: real)
    requires 0.0 <= duration < MinGap
    ensures Update(TrimRange(0.0, duration), duration, side, v) == TrimRange(0.0, duration)
  {
  }

  /** Asking twice for the same start gives the same selection as asking once. */
  lemma ClampStartIdempotent(r: TrimRange, v: real)
    ensures ClampStart(ClampStart(r, v), v) == ClampStart(r, v)
  {
  }

  /** Asking twice for the same end gives the same selection as asking once. */
  lemma ClampEndIdempotent(r: TrimRange, duration: real, v: real)
    ensures ClampEnd(ClampEnd(r, duration, v), duration, v) == ClampEnd(r, duration, v)
  {
  }

  function Dist(a: real, b: real): real { if a >= b then a - b else b - a }

  /** When some start is allowed, the clamped start is an allowed start nearest to the requested one. */
  lemma ClampStartIsNearest(r: TrimRange, v: real, s: real)
    requires 0.0 <= s <= r.end - MinGap
    ensures 0.0 <= ClampStart(r, v).start <= r.end - MinGap
    ensures Dist(ClampStart(r, v).start, v) <= Dist(s, v)
  {
  }

  /** When some end is allowed, the clamped end is an allowed end nearest to the requested one. */
  lemma ClampEndIsNearest(r: TrimRange, duration: real, v: real, e: real)
    requires r.start + MinGap <= e <= duration
    ensures r.start + MinGap <= ClampEnd(r, duration, v).end <= duration
    ensures Dist(ClampEnd(r, duration, v).end, v) <= Dist(e, v)
  {
  }
}
