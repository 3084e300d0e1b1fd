/**
 * The scale effect's editor: a vertical "speed" slider and a text box for the
 * time of the active element's keyframe, shown as a percentage of the
 * timeline that counts down from 100 at time 0 to 0 at the timeline's end;
 * a horizontal "zoom" slider and a text box for its scale. Typed values are
 * checked, staged, and published after a pause.
 */
module ScaleUnit {
  import opened JsMath
  import opened Workspace
  import LinearTrackpad
  import ComplexTrackpad

  /** The zoom slider's maximum. */
  const MaxScale: real := 30.0

  /** The speed slider's cap offset: cap height 21 less the 2-pixel border. */
  const TimeCapOffset: int := 21 - 2

  /** The zoom slider's cap offset: cap width 51 less the 2-pixel border. */
  const ScaleCapOffset: int := 51 - 2

  /** `toClientTime`: a timeline time as the percentage shown, 100 at the start and 0 at `maxTime`. */
  function ToClientTime(serverTime: real, maxTime: real): (c: real)
    requires maxTime != 0.0
    ensures 0.0 < maxTime && 0.0 <= serverTime <= maxTime ==> 0.0 <= c <= 100.0
  {
    (1.0 - serverTime / maxTime) * 100.0
  }

  /** `toServerTime`: a shown percentage back to a timeline time. */
  function ToServerTime(clientTime: real, maxTime: real): (t: real)
    ensures 0.0 <= maxTime && 0.0 <= clientTime <= 100.0 ==> 0.0 <= t <= maxTime
  {
    maxTime - (clientTime / 100.0) * maxTime
  }

  /** A time survives being shown and read back. */
  lemma ServerClientRoundTrip(t: real, maxTime: real)
    requires maxTime != 0.0
    ensures ToServerTime(ToClientTime(t, maxTime), maxTime) == t
  {
    var share := t / maxTime;
    assert ((1.0 - share) * 100.0) / 100.0 == 1.0 - share;
    assert (1.0 - share) * maxTime == maxTime - share * maxTime;
    CancelShare(t, maxTime);
  }

  /** A shown percentage survives being read back and shown again. */
  lemma ClientServerRoundTrip(c: real, maxTime: real)
    requires maxTime != 0.0
    ensures ToClientTime(ToServerTime(c, maxTime), maxTime) == c
  {
    var k := c / 100.0;
    var share := 1.0 - k;
    var t := ToServerTime(c, maxTime);
    assert t == share * maxTime;
    CancelFactor(share, maxTime);
    assert t / maxTime == share;
    assert ToClientTime(t, maxTime) == (1.0 - share) * 100.0;
  }

  /** The start of the timeline shows as 100 and its end as 0. */
  lemma ClientTimeEnds(maxTime: real)
    requires maxTime != 0.0
    ensures ToClientTime(0.0, maxTime) == 100.0
    ensures ToClientTime(maxTime, maxTime) == 0.0
  {
    assert maxTime / maxTime == 1.0;
  }

  /** Later times show as smaller percentages. */
  lemma ClientTimeDecreasing(t1: real, t2: real, maxTime: real)
    requires 0.0 < maxTime && t1 <= t2
    ensures ToClientTime(t2, maxTime) <= ToClientTime(t1, maxTime)
  {
    DivMonotone(t1, t2, maxTime);
  }

  /**
   * The check on a typed time (the time box's change handler): the time it
   * stands for is used only when it lies on the timeline.
   */
  function AcceptTypedTime(clientTime: real, maxValue: real): (r: Option<real>)
    ensures r.Some? <==> 0.0 <= ToServerTime(clientTime, maxValue) <= maxValue
    ensures r.Some? ==> r.value == ToServerTime(clientTime, maxValue)
  {
    var newTime := ToServerTime(clientTime, maxValue);
    if newTime > maxValue || newTime < 0.0 then None else Some(newTime)
  }

  /** On a timeline of positive length, exactly the percentages from 0 to 100 are accepted. */
  lemma AcceptedTimesArePercentages(clientTime: real, maxValue: real)
    requires 0.0 < maxValue
    ensures AcceptTypedTime(clientTime, maxValue).Some? <==> 0.0 <= clientTime <= 100.0
  {
    var k := clientTime / 100.0;
    assert ToServerTime(clientTime, maxValue) == (1.0 - k) * maxValue;
    if 0.0 <= clientTime <= 100.0 {
      MulMonotone(0.0, 1.0 - k, maxValue);
      MulMonotone(1.0 - k, 1.0, maxValue);
    } else if clientTime < 0.0 {
      assert 1.0 < 1.0 - k;
      assert maxValue < (1.0 - k) * maxValue;
    } else {
      assert 1.0 - k < 0.0;
      assert (1.0 - k) * maxValue < 0.0;
    }
  }

  /** The check on a typed scale (the scale box's change handler): only values in [0, 30] are used. */
  function AcceptTypedScale(value: real): (r: Option<real>)
    ensures r.Some? <==> 0.0 <= value <= MaxScale
    ensures r.Some? ==> r.value == value
  {
    if value > MaxScale || value < 0.0 then None else Some(value)
  }

  /**
   * `saveNewEquation`: the scale effect with a copy of its keyframes in which
   * the equation's element now maps to it; nothing else changes.
   */
  function SaveNewEquation(scale: Scale, equation: Equation): (s: Scale)
    ensures s.math.Keys == scale.math.Keys + {equation.inputId}
    ensures s.math[equation.inputId] == equation
    ensures forall k :: k in scale.math && k != equation.inputId ==> s.math[k] == scale.math[k]
    ensures s.(math := scale.math) == scale
  {
    scale.(math := scale.math[equation.inputId := equation])
  }

  /**
   * The keyframe the speed slider saves: the active one at the new time, or
   * a fresh one at the new time with scale 1, no loop and no solution.
   */
  function SpeedEquation(activeKey: string, active: Option<Equation>, newTime: real): (e: Equation)
    ensures e.time == newTime
    ensures active.Some? ==> e.(time := active.value.time) == active.value
    ensures active.None? ==> e.inputId == activeKey && e.scale == 1.0 && !e.loop && e.solution == []
  {
    if active.Some? then active.value.(time := newTime)
    else Equation(activeKey, newTime, 1.0, false, [])
  }

  /**
   * The keyframe the zoom slider saves: the active one at the new scale, or
   * a fresh one at the new scale placed at the end of the timeline, with no
   * loop and no solution.
   */
  function ZoomEquation(activeKey: string, active: Option<Equation>, newScale: real, timelineMaxValue: real): (e: Equation)
    ensures e.scale == newScale
    ensures active.Some? ==> e.(scale := active.value.scale) == active.value
    ensures active.None? ==> e.inputId == activeKey && e.time == timelineMaxValue && !e.loop && e.solution == []
  {
    if active.Some? then active.value.(scale := newScale)
    else Equation(activeKey, timelineMaxValue, newScale, false, [])
  }

  /** The keyframe of `key` in `math`, if it has one (`Map.get`). */
  function Lookup(math: map<string, Equation>, key: string): (r: Option<Equation>)
    ensures r.Some? <==> key in math
    ensures r.Some? ==> r.value == math[key]
  {
    if key in math then Some(math[key]) else None
  }

  /**
   * The scale and time the sliders start from: the active keyframe's, or
   * scale 1 at the end of the timeline when no keyframe is active.
   */
  function StartingPoint(math: map<string, Equation>, activeKey: string, timelineMaxValue: real): (p: (real, real))
    ensures activeKey in math ==> p == (math[activeKey].scale, math[activeKey].time)
    ensures activeKey !in math ==> p == (1.0, timelineMaxValue)
  {
    var active := Lookup(math, activeKey);
    (if active.Some? then active.value.scale else 1.0, if active.Some? then active.value.time else timelineMaxValue)
  }

  /**
   * Without an active keyframe the speed slider starts at the far end of its
   * track and the time box reads 0 percent.
   */
  lemma StartWithoutKeyframe(math: map<string, Equation>, activeKey: string, timelineMaxValue: real, trackHeight: int)
    requires activeKey !in math && 0.0 < timelineMaxValue
    ensures var t := StartingPoint(math, activeKey, timelineMaxValue).1;
      LinearTrackpad.TrackCursor(TimeCapOffset, timelineMaxValue, t, trackHeight) == LinearTrackpad.MaxCursor(TimeCapOffset, trackHeight) &&
      ToClientTime(t, timelineMaxValue) == 0.0
  {
    LinearTrackpad.TrackCursorSaturates(TimeCapOffset, timelineMaxValue, timelineMaxValue, trackHeight);
    ClientTimeEnds(timelineMaxValue);
  }

  /**
   * The editor's own state: the cursors of its two sliders, the keyframes
   * staged for the delayed save, and the two pending delayed saves (each the
   * effect it belongs to and the number typed).
   */
  class ScaleEditor {
    var timeCursor: real
    var scaleCursor: real
    var staged: map<string, Equation>
    var scaleDebouncer: Option<(Scale, real)>
    var timeDebouncer: Option<(Scale, real)>

    /** Nothing is pending at first; the staged keyframes are the effect's own. */
    constructor (scale: Scale)
      ensures staged == scale.math && scaleDebouncer.None? && timeDebouncer.None?
      ensures timeCursor == 0.0 && scaleCursor == 0.0
    {
      timeCursor := 0.0;
      scaleCursor := 0.0;
      staged := scale.math;
      scaleDebouncer := None;
      timeDebouncer := None;
    }

    /** Puts both sliders at the starting point (after layout, and when the active keyframe changes). */
    method Place(scale: Scale, activeKey: string, timelineMaxValue: real, scaleTrackWidth: int, timeTrackHeight: int)
      requires timelineMaxValue != 0.0
      modifies this
      ensures var p := StartingPoint(scale.math, activeKey, timelineMaxValue);
        scaleCursor == ComplexTrackpad.ComplexTrackCursor(ScaleCapOffset, MaxScale, p.0, scaleTrackWidth) as real &&
        timeCursor == LinearTrackpad.TrackCursor(TimeCapOffset, timelineMaxValue, p.1, timeTrackHeight) as real
      ensures staged == old(staged) && scaleDebouncer == old(scaleDebouncer) && timeDebouncer == old(timeDebouncer)
    {
      var activeEquation := Lookup(scale.math, activeKey);
      var scaleInit := if activeEquation.Some? then activeEquation.value.scale else 1.0;
      var timeInit := if activeEquation.Some? then activeEquation.value.time else timelineMaxValue;
      scaleCursor := ComplexTrackpad.ComplexTrackCursor(ScaleCapOffset, MaxScale, scaleInit, scaleTrackWidth) as real;
      timeCursor := LinearTrackpad.TrackCursor(TimeCapOffset, timelineMaxValue, timeInit, timeTrackHeight) as real;
    }

    /**
     * A time typed into the time box. Out of range: nothing changes. With an
     * active keyframe: the keyframe moves to the new time in the staged copy
     * and the delayed save is armed. Without one: only the speed slider's
     * cursor moves.
     */
    method OnTimeTyped(scale: Scale, activeKey: string, clientTime: real, maxValue: real, trackHeight: int)
      requires maxValue != 0.0
      modifies this
      ensures AcceptTypedTime(clientTime, maxValue).None? ==>
        timeCursor == old(timeCursor) && staged == old(staged) && timeDebouncer == old(timeDebouncer)
      ensures var t := AcceptTypedTime(clientTime, maxValue);
        t.Some? && activeKey in scale.math ==>
          staged == SaveNewEquation(scale, scale.math[activeKey].(time := t.value)).math &&
          timeDebouncer == Some((scale, t.value)) && timeCursor == old(timeCursor)
      ensures var t := AcceptTypedTime(clientTime, maxValue);
        t.Some? && activeKey !in scale.math ==>
          timeCursor == LinearTrackpad.TrackCursor(TimeCapOffset, maxValue, t.value, trackHeight) as real &&
          staged == old(staged) && timeDebouncer == old(timeDebouncer)
      ensures scaleCursor == old(scaleCursor) && scaleDebouncer == old(scaleDebouncer)
    {
      var newTime := ToServerTime(clientTime, maxValue);
      if newTime > maxValue || newTime < 0.0 {
        return;
      }
      var activeEq := Lookup(scale.math, activeKey);
      if activeEq.Some? {
        var newEquation := activeEq.value.(time := newTime);
        staged := scale.math[newEquation.inputId := newEquation];
        timeDebouncer := Some((scale, newTime));
      } else {
        timeCursor := LinearTrackpad.TrackCursor(TimeCapOffset, maxValue, newTime, trackHeight) as real;
      }
    }

    /**
     * A scale typed into the scale box. Out of [0, 30]: nothing changes.
     * With an active keyframe: the keyframe takes the new scale in the staged
     * copy, and the delayed save is armed, in the time box's slot (see the
     * note on the source's wiring). Without one: only the zoom slider's
     * cursor moves.
     */
    method OnScaleTyped(scale: Scale, activeKey: string, value: real, trackWidth: int)
      modifies this
      ensures AcceptTypedScale(value).None? ==>
        scaleCursor == old(scaleCursor) && staged == old(staged) && timeDebouncer == old(timeDebouncer)
      ensures AcceptTypedScale(value).Some? && activeKey in scale.math ==>
        staged == SaveNewEquation(scale, scale.math[activeKey].(scale := value)).math &&
        timeDebouncer == Some((scale, value)) && scaleCursor == old(scaleCursor)
      ensures AcceptTypedScale(value).Some? && activeKey !in scale.math ==>
        scaleCursor == ComplexTrackpad.ComplexTrackCursor(ScaleCapOffset, MaxScale, value, trackWidth) as real &&
        staged == old(staged) && timeDebouncer == old(timeDebouncer)
      ensures timeCursor == old(timeCursor) && scaleDebouncer == old(scaleDebouncer)
    {
      if value > MaxScale || value < 0.0 {
        return;
      }
      var activeEq := Lookup(scale.math, activeKey);
      if activeEq.Some? {
        var newEquation := activeEq.value.(scale := value);
        staged := scale.math[newEquation.inputId := newEquation];
        timeDebouncer := Some((scale, value));
      } else {
        scaleCursor := ComplexTrackpad.ComplexTrackCursor(ScaleCapOffset, MaxScale, value, trackWidth) as real;
      }
    }

    /**
     * The delayed save: each armed slot publishes its effect with the staged
     * keyframes, moves a cursor to the number it holds, read on the speed
     * slider's scale, and is disarmed.
     */
    method OnDebounce(maxValue: real, scaleTrackHeight: int, timeTrackHeight: int) returns (published: seq<Scale>)
      requires maxValue != 0.0
      modifies this
      ensures scaleDebouncer.None? && timeDebouncer.None? && staged == old(staged)
      ensures published ==
        (if old(scaleDebouncer).Some? then [old(scaleDebouncer).value.0.(math := staged)] else []) +
        (if old(timeDebouncer).Some? then [old(timeDebouncer).value.0.(math := staged)] else [])
      ensures scaleCursor == (if old(scaleDebouncer).Some?
        then LinearTrackpad.TrackCursor(TimeCapOffset, maxValue, old(scaleDebouncer).value.1, scaleTrackHeight) as real
        else old(scaleCursor))
      ensures timeCursor == (if old(timeDebouncer).Some?
        then LinearTrackpad.TrackCursor(TimeCapOffset, maxValue, old(timeDebouncer).value.1, timeTrackHeight) as real
        else old(timeCursor))
    {
      published := [];
      if scaleDebouncer.Some? {
        scaleCursor := LinearTrackpad.TrackCursor(TimeCapOffset, maxValue, scaleDebouncer.value.1, scaleTrackHeight) as real;
        published := published + [scaleDebouncer.value.0.(math := staged)];
        scaleDebouncer := None;
      }
      if timeDebouncer.Some? {
        timeCursor := LinearTrackpad.TrackCursor(TimeCapOffset, maxValue, timeDebouncer.value.1, timeTrackHeight) as real;
        published := published + [timeDebouncer.value.0.(math := staged)];
        timeDebouncer := None;
      }
    }
  }
}
