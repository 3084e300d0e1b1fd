/**
 * One effect's row on the timeline: a track with a start ("offset") handle
 * and an end ("duration") handle, and a text box for each. Pixels along the
 * track map linearly onto the timeline's length; moving one handle past the
 * other pushes the other along, so the end never comes before the start.
 */
module EffectUnit {
  import opened JsMath
  import opened Workspace
  import opened LinearTrackpad

  /** Pixels of the measured track width that the handles cannot use. */
  const TrackSidePadding: real := 15.0

  /** The part of the measured track width the handles move along. */
  function UsableWidth(clientWidth: real): real {
    clientWidth - TrackSidePadding
  }

  /**
   * `setTime`: a scale effect with the given start and end and every other
   * field as it was; a move effect as it was.
   */
  function SetTime(e: Effect, newOffset: real, newDuration: real): (r: Effect)
    ensures r.key == e.key && r.ScaleEffect? == e.ScaleEffect?
    ensures e.ScaleEffect? ==> r.Offset() == newOffset && r.Duration() == newDuration
    ensures e.ScaleEffect? ==> r.scale.(offset := e.scale.offset, duration := e.scale.duration) == e.scale
    ensures e.MoveEffect? ==> r == e
  {
    match e
    case ScaleEffect(key, scale) => ScaleEffect(key, scale.(offset := newOffset, duration := newDuration))
    case MoveEffect(_, _) => e
  }

  /** `cursorToTime`: a pixel position on the track as a time on the timeline. */
  function CursorToTime(clientWidth: real, maxValue: real, x: real): real
    requires UsableWidth(clientWidth) != 0.0
  {
    Proportion(x, UsableWidth(clientWidth), maxValue)
  }

  /** `timeToCursor`: a time on the timeline as a pixel position on the track. */
  function TimeToCursor(clientWidth: real, maxValue: real, t: real): real
    requires maxValue != 0.0
  {
    Proportion(t, maxValue, UsableWidth(clientWidth))
  }

  /** With room on the track and a timeline of some length, the two conversions undo each other. */
  lemma CursorTimeInverse(clientWidth: real, maxValue: real, x: real, t: real)
    requires UsableWidth(clientWidth) != 0.0 && maxValue != 0.0
    ensures TimeToCursor(clientWidth, maxValue, CursorToTime(clientWidth, maxValue, x)) == x
    ensures CursorToTime(clientWidth, maxValue, TimeToCursor(clientWidth, maxValue, t)) == t
  {
    ProportionInverse(x, UsableWidth(clientWidth), maxValue);
    ProportionInverse(t, maxValue, UsableWidth(clientWidth));
  }

  /** Further right on the track is later on the timeline. */
  lemma CursorToTimeMonotone(clientWidth: real, maxValue: real, x1: real, x2: real)
    requires 0.0 < UsableWidth(clientWidth) && 0.0 <= maxValue && x1 <= x2
    ensures CursorToTime(clientWidth, maxValue, x1) <= CursorToTime(clientWidth, maxValue, x2)
  {
    ProportionMonotone(x1, x2, UsableWidth(clientWidth), maxValue);
  }

  /** The start and end an effect is drawn with: its own, pulled onto the timeline. */
  function ClampToTimeline(t: real, maxValue: real): (r: real)
    ensures 0.0 <= maxValue ==> 0.0 <= r <= maxValue
    ensures 0.0 <= t <= maxValue ==> r == t
    ensures t < 0.0 && 0.0 <= maxValue ==> r == 0.0
    ensures maxValue < t ==> r == maxValue
  {
    Min(maxValue, Max(0.0, t))
  }

  /**
   * The timeline's effects after one of them is edited: the entry with the
   * edited key becomes the new effect, every other entry stays where it was.
   */
  function ReplaceEffect(effects: seq<Effect>, key: string, replacement: Effect): (r: seq<Effect>)
    ensures |r| == |effects|
    ensures forall i :: 0 <= i < |effects| && effects[i].key != key ==> r[i] == effects[i]
    ensures forall i :: 0 <= i < |effects| && effects[i].key == key ==> r[i] == replacement
  {
    seq(|effects|, i requires 0 <= i < |effects| => if effects[i].key == key then replacement else effects[i])
  }

  /** Replacing an effect by one with the same key keeps every key in its place. */
  lemma ReplaceEffectKeepsKeys(effects: seq<Effect>, key: string, replacement: Effect)
    requires replacement.key == key
    ensures forall i :: 0 <= i < |effects| ==> ReplaceEffect(effects, key, replacement)[i].key == effects[i].key
  {
  }

  /** Where the end handle sits once the start handle is placed at `x`: pushed right to `x` if it was left of it. */
  function PushedRight(durationCursor: real, x: real): (c: real)
    ensures x <= c && durationCursor <= c
    ensures c == x || c == durationCursor
  {
    Max(durationCursor, x)
  }

  /** Where the start handle sits once the end handle is placed at `x`: pushed left to `x` if it was right of it. */
  function PushedLeft(offsetCursor: real, x: real): (c: real)
    ensures c <= x && c <= offsetCursor
    ensures c == x || c == offsetCursor
  {
    Min(offsetCursor, x)
  }

  /** After the start moves to `x`, the end's time is not before the time at `x`. */
  lemma EndNotBeforeStart(clientWidth: real, maxValue: real, durationCursor: real, x: real)
    requires 0.0 < UsableWidth(clientWidth) && 0.0 <= maxValue
    ensures CursorToTime(clientWidth, maxValue, x) <= CursorToTime(clientWidth, maxValue, PushedRight(durationCursor, x))
  {
    CursorToTimeMonotone(clientWidth, maxValue, x, PushedRight(durationCursor, x));
  }

  /** After the end moves to `x`, the start's time is not after the time at `x`. */
  lemma StartNotAfterEnd(clientWidth: real, maxValue: real, offsetCursor: real, x: real)
    requires 0.0 < UsableWidth(clientWidth) && 0.0 <= maxValue
    ensures CursorToTime(clientWidth, maxValue, PushedLeft(offsetCursor, x)) <= CursorToTime(clientWidth, maxValue, x)
  {
    CursorToTimeMonotone(clientWidth, maxValue, PushedLeft(offsetCursor, x), x);
  }

  /**
   * A start time typed on a timeline of positive length: the end that goes
   * with it is not before it.
   */
  lemma TypedStartKeepsOrder(clientWidth: real, maxValue: real, durationCursor: real, newOffset: real)
    requires 0.0 < UsableWidth(clientWidth) && 0.0 < maxValue
    ensures newOffset <= CursorToTime(clientWidth, maxValue,
      PushedRight(durationCursor, TimeToCursor(clientWidth, maxValue, newOffset)))
  {
    var x := TimeToCursor(clientWidth, maxValue, newOffset);
    CursorTimeInverse(clientWidth, maxValue, 0.0, newOffset);
    EndNotBeforeStart(clientWidth, maxValue, durationCursor, x);
  }

  /**
   * An end time typed on a timeline of positive length: the start that goes
   * with it is not after it.
   */
  lemma TypedEndKeepsOrder(clientWidth: real, maxValue: real, offsetCursor: real, newDuration: real)
    requires 0.0 < UsableWidth(clientWidth) && 0.0 < maxValue
    ensures CursorToTime(clientWidth, maxValue,
      PushedLeft(offsetCursor, TimeToCursor(clientWidth, maxValue, newDuration))) <= newDuration
  {
    var x := TimeToCursor(clientWidth, maxValue, newDuration);
    CursorTimeInverse(clientWidth, maxValue, 0.0, newDuration);
    StartNotAfterEnd(clientWidth, maxValue, offsetCursor, x);
  }

  /**
   * The row's own state: the two handles' pixel positions and the numbers
   * shown in the two text boxes.
   */
  class EffectSliders {
    var offsetCursor: real
    var durationCursor: real
    var offsetInput: real
    var durationInput: real

    /** Both handles start at the left end with empty boxes reading 0. */
    constructor ()
      ensures offsetCursor == 0.0 && durationCursor == 0.0 && offsetInput == 0.0 && durationInput == 0.0
    {
      offsetCursor := 0.0;
      durationCursor := 0.0;
      offsetInput := 0.0;
      durationInput := 0.0;
    }

    /**
     * The initial placement: the effect's start and end are pulled onto the
     * timeline, and the handles and boxes show them.
     */
    method Place(effect: Effect, clientWidth: real, maxValue: real)
      requires maxValue != 0.0
      modifies this
      ensures offsetInput == ClampToTimeline(effect.Offset(), maxValue)
      ensures durationInput == ClampToTimeline(effect.Duration(), maxValue)
      ensures offsetCursor == TimeToCursor(clientWidth, maxValue, offsetInput)
      ensures durationCursor == TimeToCursor(clientWidth, maxValue, durationInput)
    {
      var offset := Min(maxValue, Max(0.0, effect.Offset()));
      var duration := Min(maxValue, Max(0.0, effect.Duration()));
      offsetCursor := TimeToCursor(clientWidth, maxValue, offset);
      durationCursor := TimeToCursor(clientWidth, maxValue, duration);
      offsetInput := offset;
      durationInput := duration;
    }

    /**
     * `adjustDurationCursor`: the end handle moves right to `newX` when it
     * was left of it, and its box shows the new time; the time of wherever
     * the end handle then is comes back.
     */
    method AdjustDurationCursor(clientWidth: real, maxValue: real, newX: real) returns (t: real)
      requires UsableWidth(clientWidth) != 0.0
      modifies this
      ensures durationCursor == PushedRight(old(durationCursor), newX)
      ensures t == CursorToTime(clientWidth, maxValue, durationCursor)
      ensures durationInput == (if old(durationCursor) < newX then t else old(durationInput))
      ensures offsetCursor == old(offsetCursor) && offsetInput == old(offsetInput)
    {
      if durationCursor < newX {
        var newValue := CursorToTime(clientWidth, maxValue, newX);
        durationCursor := newX;
        durationInput := newValue;
        return newValue;
      }
      return CursorToTime(clientWidth, maxValue, durationCursor);
    }

    /**
     * `adjustOffsetCursor`: the start handle moves left to `newX` when it
     * was right of it, and its box shows the new time; the time of wherever
     * the start handle then is comes back.
     */
    method AdjustOffsetCursor(clientWidth: real, maxValue: real, newX: real) returns (t: real)
      requires UsableWidth(clientWidth) != 0.0
      modifies this
      ensures offsetCursor == PushedLeft(old(offsetCursor), newX)
      ensures t == CursorToTime(clientWidth, maxValue, offsetCursor)
      ensures offsetInput == (if old(offsetCursor) > newX then t else old(offsetInput))
      ensures durationCursor == old(durationCursor) && durationInput == old(durationInput)
    {
      if offsetCursor > newX {
        var newValue := CursorToTime(clientWidth, maxValue, newX);
        offsetCursor := newX;
        offsetInput := newValue;
        return newValue;
      }
      return CursorToTime(clientWidth, maxValue, offsetCursor);
    }

    /**
     * A start time typed into the start box; `newOffset` is the number its
     * text reads as (`parseFloat(...) || 0`), and the box keeps that text
     * either way. Past the end of the timeline nothing else happens.
     * Otherwise the start handle goes to it, the end handle and its box are
     * pushed along if need be, and the timeline's effects come back with
     * this effect's times replaced.
     */
    method OnOffsetTyped(effects: seq<Effect>, effect: Effect, clientWidth: real, maxValue: real, newOffset: real)
      returns (newEffects: Option<seq<Effect>>)
      requires UsableWidth(clientWidth) != 0.0 && maxValue != 0.0
      modifies this
      ensures offsetInput == newOffset
      ensures maxValue < newOffset ==> newEffects.None?
      ensures maxValue < newOffset ==>
        offsetCursor == old(offsetCursor) && durationCursor == old(durationCursor) && durationInput == old(durationInput)
      ensures newOffset <= maxValue ==>
        offsetCursor == TimeToCursor(clientWidth, maxValue, newOffset) &&
        durationCursor == PushedRight(old(durationCursor), offsetCursor) &&
        durationInput == (if old(durationCursor) < offsetCursor then CursorToTime(clientWidth, maxValue, offsetCursor) else old(durationInput)) &&
        newEffects == Some(ReplaceEffect(effects, effect.key,
          SetTime(effect, newOffset, CursorToTime(clientWidth, maxValue, durationCursor))))
    {
      offsetInput := newOffset;
      if newOffset > maxValue {
        return None;
      }
      var newCursor := TimeToCursor(clientWidth, maxValue, newOffset);
      offsetCursor := newCursor;
      var newDuration := AdjustDurationCursor(clientWidth, maxValue, newCursor);
      newEffects := Some(ReplaceEffect(effects, effect.key, SetTime(effect, newOffset, newDuration)));
    }

    /**
     * An end time typed into the end box; `newDuration` is the number its
     * text reads as, and the box keeps that text either way. Past the end of
     * the timeline nothing else happens. Otherwise the end handle goes to
     * it, the start handle and its box are pushed back if need be, and the
     * timeline's effects come back with this effect's times replaced.
     */
    method OnDurationTyped(effects: seq<Effect>, effect: Effect, clientWidth: real, maxValue: real, newDuration: real)
      returns (newEffects: Option<seq<Effect>>)
      requires UsableWidth(clientWidth) != 0.0 && maxValue != 0.0
      modifies this
      ensures durationInput == newDuration
      ensures maxValue < newDuration ==> newEffects.None?
      ensures maxValue < newDuration ==>
        offsetCursor == old(offsetCursor) && durationCursor == old(durationCursor) && offsetInput == old(offsetInput)
      ensures newDuration <= maxValue ==>
        durationCursor == TimeToCursor(clientWidth, maxValue, newDuration) &&
        offsetCursor == PushedLeft(old(offsetCursor), durationCursor) &&
        offsetInput == (if old(offsetCursor) > durationCursor then CursorToTime(clientWidth, maxValue, durationCursor) else old(offsetInput)) &&
        newEffects == Some(ReplaceEffect(effects, effect.key,
          SetTime(effect, CursorToTime(clientWidth, maxValue, offsetCursor), newDuration)))
    {
      durationInput := newDuration;
      if newDuration > maxValue {
        return None;
      }
      var newCursor := TimeToCursor(clientWidth, maxValue, newDuration);
      durationCursor := newCursor;
      var newOffset := AdjustOffsetCursor(clientWidth, maxValue, newCursor);
      newEffects := Some(ReplaceEffect(effects, effect.key, SetTime(effect, newOffset, newDuration)));
    }

    /** The start handle dragged to `x`: its box shows the time there while the drag goes on. */
    method OnCursorMove(clientWidth: real, maxValue: real, x: real)
      requires UsableWidth(clientWidth) != 0.0
      modifies this
      ensures offsetInput == CursorToTime(clientWidth, maxValue, x)
      ensures offsetCursor == old(offsetCursor) && durationCursor == old(durationCursor) && durationInput == old(durationInput)
    {
      offsetInput := CursorToTime(clientWidth, maxValue, x);
    }

    /** The end handle dragged to `x`: its box shows the time there while the drag goes on. */
    method OnRangeMove(clientWidth: real, maxValue: real, x: real)
      requires UsableWidth(clientWidth) != 0.0
      modifies this
      ensures durationInput == CursorToTime(clientWidth, maxValue, x)
      ensures offsetCursor == old(offsetCursor) && durationCursor == old(durationCursor) && offsetInput == old(offsetInput)
    {
      durationInput := CursorToTime(clientWidth, maxValue, x);
    }

    /**
     * The start handle dropped at `x`: its box keeps what the drag last
     * wrote, the end handle and its box are pushed along if need be, and the
     * effect to publish has the start at `x`'s time and the end at the end
     * handle's time.
     */
    method OnOffsetDropped(effect: Effect, clientWidth: real, maxValue: real, x: real) returns (newEffect: Effect)
      requires UsableWidth(clientWidth) != 0.0
      modifies this
      ensures offsetCursor == x && durationCursor == PushedRight(old(durationCursor), x)
      ensures offsetInput == old(offsetInput)
      ensures durationInput == (if old(durationCursor) < x then CursorToTime(clientWidth, maxValue, x) else old(durationInput))
      ensures newEffect == SetTime(effect, CursorToTime(clientWidth, maxValue, x), CursorToTime(clientWidth, maxValue, durationCursor))
    {
      offsetCursor := x;
      var adjustedDuration := AdjustDurationCursor(clientWidth, maxValue, x);
      var newOffset := CursorToTime(clientWidth, maxValue, x);
      newEffect := SetTime(effect, newOffset, adjustedDuration);
    }

    /**
     * The end handle dropped at `x`: its box keeps what the drag last wrote,
     * the start handle and its box are pushed back if need be, and the
     * effect to publish has the end at `x`'s time and the start at the start
     * handle's time.
     */
    method OnDurationDropped(effect: Effect, clientWidth: real, maxValue: real, x: real) returns (newEffect: Effect)
      requires UsableWidth(clientWidth) != 0.0
      modifies this
      ensures durationCursor == x && offsetCursor == PushedLeft(old(offsetCursor), x)
      ensures durationInput == old(durationInput)
      ensures offsetInput == (if old(offsetCursor) > x then CursorToTime(clientWidth, maxValue, x) else old(offsetInput))
      ensures newEffect == SetTime(effect, CursorToTime(clientWidth, maxValue, offsetCursor), CursorToTime(clientWidth, maxValue, x))
    {
      durationCursor := x;
      var adjustedOffset := AdjustOffsetCursor(clientWidth, maxValue, x);
      var newDuration := CursorToTime(clientWidth, maxValue, x);
      newEffect := SetTime(effect, adjustedOffset, newDuration);
    }
  }

  /** A dropped start handle never yields a scale effect whose end is before its start. */
  lemma DroppedStartKeepsOrder(effect: Effect, clientWidth: real, maxValue: real, durationCursor: real, x: real)
    requires 0.0 < UsableWidth(clientWidth) && 0.0 <= maxValue && effect.ScaleEffect?
    ensures var e := SetTime(effect, CursorToTime(clientWidth, maxValue, x),
      CursorToTime(clientWidth, maxValue, PushedRight(durationCursor, x)));
      e.Offset() <= e.Duration()
  {
    EndNotBeforeStart(clientWidth, maxValue, durationCursor, x);
  }
}
