/**
 * The uniform slider mapper (`useTrackpadState`): a cursor in pixels along a
 * track of `trackSize` pixels, of which the last `offset` pixels are taken by
 * the slider's cap, maps linearly onto a value in [0, maxValue], and back.
 */
module LinearTrackpad {
  import opened JsMath

  /** The usable length of the track: the cap must stay inside it. */
  function MaxCursor(offset: int, trackSize: int): (m: nat)
    ensures m as int >= trackSize - offset
    ensures m == 0 || m == trackSize - offset
  {
    MaxInt(0, trackSize - offset)
  }

  /** A cursor pulled into [0, maxCursor]. */
  function ClampCursor(cursor: real, maxCursor: nat): (c: real)
    ensures 0.0 <= c <= maxCursor as real
    ensures 0.0 <= cursor <= maxCursor as real ==> c == cursor
  {
    Max(0.0, Min(cursor, maxCursor as real))
  }

  /** `x`'s share of `whole`, times `scale`: both directions of the linear mapping are one of these. */
  function Proportion(x: real, whole: real, scale: real): real
    requires whole != 0.0
  {
    x / whole * scale
  }

  /** A larger part gives a larger proportion. */
  lemma ProportionMonotone(x1: real, x2: real, whole: real, scale: real)
    requires x1 <= x2 && 0.0 < whole && 0.0 <= scale
    ensures Proportion(x1, whole, scale) <= Proportion(x2, whole, scale)
  {
    ScaledShareMonotone(x1, x2, whole, scale);
  }

  /** Taking the proportion back the other way recovers the part. */
  lemma ProportionInverse(x: real, whole: real, scale: real)
    requires whole != 0.0 && scale != 0.0
    ensures Proportion(Proportion(x, whole, scale), scale, whole) == x
  {
    CancelScale(x, whole, scale);
  }

  /**
   * `getTrackValue`. The source divides by the usable length without a
   * guard, so the model is only defined on a track with room to move.
   */
  function TrackValue(offset: int, maxValue: real, cursor: real, trackSize: int): (v: real)
    requires MaxCursor(offset, trackSize) > 0
    ensures 0.0 <= v
    ensures 0.0 <= maxValue ==> v <= maxValue
  {
    var m := MaxCursor(offset, trackSize);
    var clamped := ClampCursor(cursor, m);
    assert 0.0 <= maxValue ==> Proportion(clamped, m as real, maxValue) <= maxValue by {
      if 0.0 <= maxValue {
        ProportionMonotone(clamped, m as real, m as real, maxValue);
      }
    }
    Max(0.0, Proportion(clamped, m as real, maxValue))
  }

  /**
   * `getTrackCursor`. The source divides by `maxValue` without a guard; a
   * zero maximum would make the cursor NaN, so the model requires it non-zero.
   */
  function TrackCursor(offset: int, maxValue: real, value: real, trackSize: int): (c: int)
    requires maxValue != 0.0
    ensures 0 <= c <= MaxCursor(offset, trackSize)
  {
    var m := MaxCursor(offset, trackSize);
    MaxInt(0, MinInt(Round(Proportion(Max(0.0, value), maxValue, m as real)), m))
  }

  /** Cursors outside the track read as the nearest end of the track. */
  lemma TrackValueClamps(offset: int, maxValue: real, cursor: real, trackSize: int)
    requires MaxCursor(offset, trackSize) > 0
    ensures cursor <= 0.0 ==> TrackValue(offset, maxValue, cursor, trackSize) == TrackValue(offset, maxValue, 0.0, trackSize)
    ensures cursor >= MaxCursor(offset, trackSize) as real ==>
      TrackValue(offset, maxValue, cursor, trackSize) == TrackValue(offset, maxValue, MaxCursor(offset, trackSize) as real, trackSize)
  {
  }

  /** The two ends of the track read as 0 and as `maxValue`. */
  lemma TrackValueEnds(offset: int, maxValue: real, trackSize: int)
    requires MaxCursor(offset, trackSize) > 0
    requires 0.0 <= maxValue
    ensures TrackValue(offset, maxValue, 0.0, trackSize) == 0.0
    ensures TrackValue(offset, maxValue, MaxCursor(offset, trackSize) as real, trackSize) == maxValue
  {
  }

  /** Moving the cursor right never lowers the value. */
  lemma TrackValueMonotone(offset: int, maxValue: real, c1: real, c2: real, trackSize: int)
    requires MaxCursor(offset, trackSize) > 0
    requires 0.0 <= maxValue
    requires c1 <= c2
    ensures TrackValue(offset, maxValue, c1, trackSize) <= TrackValue(offset, maxValue, c2, trackSize)
  {
    var m := MaxCursor(offset, trackSize);
    ProportionMonotone(ClampCursor(c1, m), ClampCursor(c2, m), m as real, maxValue);
  }

  /** A negative value puts the cursor at 0; `maxValue` or more puts it at the end. */
  lemma TrackCursorSaturates(offset: int, maxValue: real, value: real, trackSize: int)
    requires 0.0 < maxValue
    ensures value <= 0.0 ==> TrackCursor(offset, maxValue, value, trackSize) == 0
    ensures maxValue <= value ==> TrackCursor(offset, maxValue, value, trackSize) == MaxCursor(offset, trackSize)
  {
    var m := MaxCursor(offset, trackSize);
    if value <= 0.0 {
      RoundOfInt(0);
    }
    if maxValue <= value {
      ProportionMonotone(maxValue, value, maxValue, m as real);
      assert Proportion(maxValue, maxValue, m as real) == m as real;
      RoundOfInt(m);
      RoundMonotone(m as real, Proportion(value, maxValue, m as real));
    }
  }

  /** A larger value never puts the cursor further left. */
  lemma TrackCursorMonotone(offset: int, maxValue: real, v1: real, v2: real, trackSize: int)
    requires 0.0 < maxValue
    requires v1 <= v2
    ensures TrackCursor(offset, maxValue, v1, trackSize) <= TrackCursor(offset, maxValue, v2, trackSize)
  {
    var m := MaxCursor(offset, trackSize) as real;
    ProportionMonotone(Max(0.0, v1), Max(0.0, v2), maxValue, m);
    RoundMonotone(Proportion(Max(0.0, v1), maxValue, m), Proportion(Max(0.0, v2), maxValue, m));
  }

  /**
   * Every whole-pixel cursor survives a trip through its value: the slider's
   * handle stays where the user left it.
   */
  lemma TrackRoundTrip(offset: int, maxValue: real, c: nat, trackSize: int)
    requires 0.0 < maxValue
    requires 0 < MaxCursor(offset, trackSize)
    requires c <= MaxCursor(offset, trackSize)
    ensures TrackCursor(offset, maxValue, TrackValue(offset, maxValue, c as real, trackSize), trackSize) == c
  {
    var m := MaxCursor(offset, trackSize);
    var v := Proportion(c as real, m as real, maxValue);
    ProportionMonotone(0.0, c as real, m as real, maxValue);
    assert TrackValue(offset, maxValue, c as real, trackSize) == v;
    ProportionInverse(c as real, m as real, maxValue);
    RoundOfInt(c);
  }
}
