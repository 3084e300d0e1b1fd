/**
 * The non-linear slider mapper (`useComplexTrackpadState`) behind the zoom
 * slider. A pivot pixel (`medianCursor`) always means 1; the pixels to its
 * left cover [0, 1) linearly; to its right a "fine" band compressed tenfold
 * is followed by a linear "coarse" band that reaches `maxValue` at the end.
 *
 * The arithmetic of the bands lives in `BandMath` on plain numbers; this
 * module derives the per-track context and states the mapping's properties
 * in its terms.
 */
module ComplexTrackpad {
  import opened JsMath
  import opened LinearTrackpad
  import opened BandMath

  /** The per-track constants, in the order the source returns them. */
  datatype Context = Context(
    medianCursor: nat,
    maxCursor: nat,
    rightSector: nat,
    leftSector: nat,
    rightReBase: nat,
    safeReBase: nat,
    maxRebasedScale: real)

  /**
   * The integer part of a context: the pivot is the middle pixel rounded up,
   * both sectors are at least one pixel wide, and `rightReBase` lies in the
   * right sector.
   */
  predicate Shaped(ctx: Context) {
    && ctx.medianCursor == (ctx.maxCursor + 1) / 2
    && ctx.leftSector == MaxInt(1, ctx.medianCursor)
    && ctx.rightSector == MaxInt(1, ctx.maxCursor - ctx.medianCursor)
    && ctx.rightReBase < ctx.rightSector
    && ctx.safeReBase == MaxInt(1, ctx.rightReBase)
  }

  /**
   * What `getContext` guarantees of the context it returns, with the scan's
   * outcome stated as a property of `rightReBase` instead of a formula: every
   * coordinate up to it passes the fine test, and it is the last coordinate
   * of the sector or the next one fails.
   */
  ghost predicate ValidContext(ctx: Context, maxValue: real) {
    && Shaped(ctx)
    && (forall k :: 0 <= k <= ctx.rightReBase ==> Fine(k, ctx.rightSector, maxValue))
    && (ctx.rightReBase == ctx.rightSector - 1 || !Fine(ctx.rightReBase + 1, ctx.rightSector, maxValue))
    && ctx.maxRebasedScale == RebasedScale(ctx.rightReBase, ctx.rightSector, maxValue)
  }

  /** A track length and a maximum determine the context completely. */
  lemma ValidContextUnique(c1: Context, c2: Context, maxValue: real)
    requires ValidContext(c1, maxValue) && ValidContext(c2, maxValue)
    requires c1.maxCursor == c2.maxCursor
    ensures c1 == c2
  {
  }

  /** The context `getContext` derives for a track, with the scan in closed form. */
  function ContextOf(offset: int, maxValue: real, trackWidth: int): (ctx: Context)
    ensures ctx.maxCursor == MaxCursor(offset, trackWidth)
    ensures ctx.medianCursor <= ctx.maxCursor
    ensures ValidContext(ctx, maxValue)
  {
    var maxCursor := MaxCursor(offset, trackWidth);
    CeilHalf(maxCursor);
    var medianCursor := Ceil(maxCursor as real / 2.0);
    var leftSector := MaxInt(1, medianCursor);
    var rightSector := MaxInt(1, maxCursor - medianCursor);
    var rightReBase := LastFine(rightSector, maxValue);
    var safeReBase := MaxInt(1, rightReBase);
    var maxRebasedScale := RebasedScale(rightReBase, rightSector, maxValue);
    RightReBaseIsLastFineCoordinate(rightSector, maxValue);
    Context(medianCursor, maxCursor, rightSector, leftSector, rightReBase, safeReBase, maxRebasedScale)
  }

  /** For a non-negative maximum the fine band's scale lies in [0, 1/10], and is positive when the band is. */
  lemma MaxRebasedScaleBounds(ctx: Context, maxValue: real)
    requires ValidContext(ctx, maxValue)
    requires 0.0 <= maxValue
    ensures 1 <= ctx.safeReBase && 1 <= ctx.leftSector && 1 <= ctx.rightSector
    ensures 0.0 <= ctx.maxRebasedScale <= 1.0 / FineCompression
    ensures 0 < ctx.rightReBase && 0.0 < maxValue ==> 0.0 < ctx.maxRebasedScale
  {
    assert Fine(ctx.rightReBase, ctx.rightSector, maxValue);
    RebasedScaleBounds(ctx.rightReBase, ctx.rightSector, maxValue);
  }

  /** `getContext`, scanning the right sector pixel by pixel as the source does. */
  method GetContext(offset: int, maxValue: real, trackWidth: int) returns (ctx: Context)
    ensures ctx == ContextOf(offset, maxValue, trackWidth)
  {
    var maxCursor := MaxCursor(offset, trackWidth);
    CeilHalf(maxCursor);
    var medianCursor := Ceil(maxCursor as real / 2.0);
    var leftSector := MaxInt(1, medianCursor);
    var rightSector := MaxInt(1, maxCursor - medianCursor);

    var rightReBase := 0;
    for coordinate := 0 to rightSector
      invariant rightReBase == MaxInt(0, coordinate - 1)
      invariant forall k :: 0 <= k < coordinate ==> Fine(k, rightSector, maxValue)
    {
      if Fine(coordinate, rightSector, maxValue) {
        rightReBase := coordinate;
      } else {
        break;
      }
    }

    var safeReBase := MaxInt(1, rightReBase);
    var maxRebasedScale := RebasedScale(rightReBase, rightSector, maxValue);
    ctx := Context(medianCursor, maxCursor, rightSector, leftSector, rightReBase, safeReBase, maxRebasedScale);
    ValidContextUnique(ctx, ContextOf(offset, maxValue, trackWidth), maxValue);
  }

  /** `getComplexTrackValue` once the context is known: clamp the cursor to the track, then read it. */
  function ValueAt(ctx: Context, maxValue: real, cursor: real): (v: real)
    requires Shaped(ctx)
    ensures 0.0 <= v
  {
    Reading(ctx.medianCursor as real, ctx.leftSector as real, ctx.rightSector as real,
      ctx.safeReBase as real, ctx.maxRebasedScale, maxValue, ClampCursor(cursor, ctx.maxCursor))
  }

  /** `getComplexTrackValue`: the context of the track, then the mapping. */
  function ComplexTrackValue(offset: int, maxValue: real, cursor: real, trackWidth: int): (v: real)
    ensures 0.0 <= v
  {
    ValueAt(ContextOf(offset, maxValue, trackWidth), maxValue, cursor)
  }

  /** The cursor before rounding and clamping, for a value already floored at 0. */
  function RawCursor(ctx: Context, maxValue: real, safeValue: real): (c: real)
    requires maxValue != 0.0 || !CoarseInverse(ctx.maxRebasedScale, safeValue)
    ensures safeValue == 1.0 ==> c == ctx.medianCursor as real
    ensures safeValue == 0.0 ==> c == 0.0
  {
    Inverse(ctx.medianCursor as real, ctx.leftSector as real, ctx.rightSector as real,
      ctx.rightReBase as real, ctx.maxRebasedScale, maxValue, safeValue)
  }

  /**
   * `getComplexTrackCursor` once the context is known: always a whole pixel
   * on the track. With a zero maximum the coarse branch divides by zero; in
   * JavaScript that gives +Infinity, which the final `Math.min` turns into
   * the end of the track.
   */
  function CursorAt(ctx: Context, maxValue: real, value: real): (c: int)
    ensures 0 <= c <= ctx.maxCursor
  {
    var safeValue := Max(0.0, value);
    if maxValue == 0.0 && CoarseInverse(ctx.maxRebasedScale, safeValue) then ctx.maxCursor
    else MaxInt(0, MinInt(Round(RawCursor(ctx, maxValue, safeValue)), ctx.maxCursor))
  }

  /** `getComplexTrackCursor`: the context of the track, then the inverse mapping. */
  function ComplexTrackCursor(offset: int, maxValue: real, value: real, trackWidth: int): (c: int)
    ensures 0 <= c <= MaxCursor(offset, trackWidth)
  {
    CursorAt(ContextOf(offset, maxValue, trackWidth), maxValue, value)
  }

  /** The zoom slider as wired up (cap offset 51 - 2, maximum 30) on a 430-pixel track. */
  lemma ZoomSliderContext()
    ensures ContextOf(49, 30.0, 430) == Context(191, 381, 190, 191, 6, 6, 9.0 / 95.0)
  {
    CeilHalf(381);
    assert Floor(190.0 / 30.0) == 6;
  }

  /** On the zoom slider the left end reads 0, the pivot 1 and the right end 30. */
  lemma ZoomSliderReadings()
    ensures ComplexTrackValue(49, 30.0, 0.0, 430) == 0.0
    ensures ComplexTrackValue(49, 30.0, 191.0, 430) == 1.0
    ensures ComplexTrackValue(49, 30.0, 381.0, 430) == 30.0
  {
    ZoomSliderContext();
  }

  /** Inside the track the clamp changes nothing. */
  lemma ValueInsideTrack(ctx: Context, maxValue: real, x: real)
    requires Shaped(ctx)
    requires 0.0 <= x <= ctx.maxCursor as real
    ensures ValueAt(ctx, maxValue, x) == Reading(ctx.medianCursor as real, ctx.leftSector as real,
      ctx.rightSector as real, ctx.safeReBase as real, ctx.maxRebasedScale, maxValue, x)
  {
    assert ClampCursor(x, ctx.maxCursor) == x;
  }

  /** The pivot pixel always reads as exactly 1. */
  lemma PivotIsOne(ctx: Context, maxValue: real)
    requires Shaped(ctx)
    ensures ValueAt(ctx, maxValue, ctx.medianCursor as real) == 1.0
  {
    ValueInsideTrack(ctx, maxValue, ctx.medianCursor as real);
  }

  /** On a track with no room to move every cursor is the pivot, so every value is 1. */
  lemma EmptyTrackIsPivot(ctx: Context, maxValue: real, cursor: real)
    requires Shaped(ctx)
    requires ctx.maxCursor == 0
    ensures ValueAt(ctx, maxValue, cursor) == 1.0
  {
    assert ClampCursor(cursor, ctx.maxCursor) == 0.0;
  }

  /** Cursors outside the track read as the nearest end of the track. */
  lemma ValueClamps(ctx: Context, maxValue: real, cursor: real)
    requires Shaped(ctx)
    ensures cursor <= 0.0 ==> ValueAt(ctx, maxValue, cursor) == ValueAt(ctx, maxValue, 0.0)
    ensures cursor >= ctx.maxCursor as real ==> ValueAt(ctx, maxValue, cursor) == ValueAt(ctx, maxValue, ctx.maxCursor as real)
  {
    if cursor <= 0.0 {
      assert ClampCursor(cursor, ctx.maxCursor) == ClampCursor(0.0, ctx.maxCursor);
    }
    if cursor >= ctx.maxCursor as real {
      assert ClampCursor(cursor, ctx.maxCursor) == ClampCursor(ctx.maxCursor as real, ctx.maxCursor);
    }
  }

  /** Left of the pivot the value is the cursor's share of the left sector, in [0, 1). */
  lemma LeftOfPivot(ctx: Context, maxValue: real, cursor: real)
    requires Shaped(ctx)
    requires 0.0 <= cursor < ctx.medianCursor as real
    ensures ValueAt(ctx, maxValue, cursor) == cursor / ctx.leftSector as real
    ensures ValueAt(ctx, maxValue, cursor) < 1.0
  {
    var m, rs, safe := ctx.medianCursor as real, ctx.rightSector as real, ctx.safeReBase as real;
    var mrs := ctx.maxRebasedScale;
    assert ctx.leftSector == ctx.medianCursor;
    ValueInsideTrack(ctx, maxValue, cursor);
    ReadingLeft(m, rs, safe, mrs, maxValue, cursor);
  }

  /** Right of the pivot, with a non-negative maximum, both bands read at least 1. */
  lemma RightOfPivot(ctx: Context, maxValue: real, cursor: real)
    requires ValidContext(ctx, maxValue)
    requires 0.0 <= maxValue
    requires ctx.medianCursor as real < cursor
    ensures 1.0 <= ValueAt(ctx, maxValue, cursor)
  {
    var m, L, rs := ctx.medianCursor as real, ctx.leftSector as real, ctx.rightSector as real;
    var safe, mrs := ctx.safeReBase as real, ctx.maxRebasedScale;
    MaxRebasedScaleBounds(ctx, maxValue);
    var clamped := ClampCursor(cursor, ctx.maxCursor);
    if clamped == ctx.medianCursor as real {
      PivotIsOne(ctx, maxValue);
    } else {
      ReadingRight(m, L, rs,
        safe, mrs, maxValue, clamped);
    }
  }

  /** With room to move, the left end reads 0; with room on both sides and a maximum above 1, the right end reads the maximum. */
  lemma ValueEnds(ctx: Context, maxValue: real)
    requires Shaped(ctx)
    requires 0 < ctx.maxCursor
    ensures ValueAt(ctx, maxValue, 0.0) == 0.0
    ensures 2 <= ctx.maxCursor && 1.0 < maxValue ==> ValueAt(ctx, maxValue, ctx.maxCursor as real) == maxValue
  {
    LeftOfPivot(ctx, maxValue, 0.0);
    if 2 <= ctx.maxCursor && 1.0 < maxValue {
      var m := ctx.medianCursor as real;
      var rs := ctx.rightSector as real;
      var top := ctx.maxCursor as real;
      assert top - m == rs;
      assert (top - m) / rs == 1.0;
      ValueInsideTrack(ctx, maxValue, top);
      assert ValueAt(ctx, maxValue, top)
        == Reading(m, ctx.leftSector as real, rs, ctx.safeReBase as real, ctx.maxRebasedScale, maxValue, top);
    }
  }

  /** Up to the pivot the value never decreases, and nothing left of the pivot reads more than anything right of it. */
  lemma ValueMonotoneThroughPivot(ctx: Context, maxValue: real, c1: real, c2: real)
    requires ValidContext(ctx, maxValue)
    requires 0.0 <= maxValue
    requires c1 <= c2
    requires c1 <= ctx.medianCursor as real
    ensures ValueAt(ctx, maxValue, c1) <= ValueAt(ctx, maxValue, c2)
  {
    var m, rs, safe := ctx.medianCursor as real, ctx.rightSector as real, ctx.safeReBase as real;
    var mrs := ctx.maxRebasedScale;
    var k1 := ClampCursor(c1, ctx.maxCursor);
    var k2 := ClampCursor(c2, ctx.maxCursor);
    assert ValueAt(ctx, maxValue, c1) == ValueAt(ctx, maxValue, k1);
    assert ValueAt(ctx, maxValue, c2) == ValueAt(ctx, maxValue, k2);
    if k2 > m {
      RightOfPivot(ctx, maxValue, k2);
      if k1 < m {
        LeftOfPivot(ctx, maxValue, k1);
      } else {
        PivotIsOne(ctx, maxValue);
      }
    } else if k1 < m {
      assert ctx.leftSector == ctx.medianCursor;
      ValueInsideTrack(ctx, maxValue, k1);
      ValueInsideTrack(ctx, maxValue, k2);
      ReadingLeftMonotone(m, rs, safe, mrs, maxValue, k1, k2);
    }
  }

  /** Within the fine band the value never decreases. */
  lemma ValueMonotoneInFineBand(ctx: Context, maxValue: real, c1: real, c2: real)
    requires ValidContext(ctx, maxValue)
    requires 0.0 <= maxValue
    requires ctx.medianCursor as real < c1 <= c2 <= ctx.maxCursor as real
    requires InFineBand(ctx.medianCursor as real, ctx.rightSector as real, maxValue, c2)
    ensures ValueAt(ctx, maxValue, c1) <= ValueAt(ctx, maxValue, c2)
  {
    var m, L, rs := ctx.medianCursor as real, ctx.leftSector as real, ctx.rightSector as real;
    var safe, mrs := ctx.safeReBase as real, ctx.maxRebasedScale;
    MaxRebasedScaleBounds(ctx, maxValue);
    assert ClampCursor(c1, ctx.maxCursor) == c1 && ClampCursor(c2, ctx.maxCursor) == c2;
    ReadingFineMonotone(m, L, rs, safe, mrs, maxValue, c1, c2);
  }

  /** Within the coarse band the value never decreases. */
  lemma ValueMonotoneInCoarseBand(ctx: Context, maxValue: real, c1: real, c2: real)
    requires Shaped(ctx)
    requires 0.0 <= maxValue
    requires ctx.medianCursor as real < c1 <= c2 <= ctx.maxCursor as real
    requires !InFineBand(ctx.medianCursor as real, ctx.rightSector as real, maxValue, c1)
    ensures ValueAt(ctx, maxValue, c1) <= ValueAt(ctx, maxValue, c2)
  {
    var m, L, rs := ctx.medianCursor as real, ctx.leftSector as real, ctx.rightSector as real;
    var safe, mrs := ctx.safeReBase as real, ctx.maxRebasedScale;
    assert ClampCursor(c1, ctx.maxCursor) == c1 && ClampCursor(c2, ctx.maxCursor) == c2;
    ReadingCoarseMonotone(m, L, rs, safe, mrs, maxValue, c1, c2);
  }

  /** The context of the track used by the seam examples. */
  lemma SeamContext()
    ensures ContextOf(0, 200.0 / 21.0, 200) == Context(100, 200, 100, 100, 10, 10, 2.0 / 21.0)
  {
    CeilHalf(200);
    assert 100.0 / (200.0 / 21.0) == 10.5;
    assert Floor(10.5) == 10;
  }

  /**
   * Across the seam between the bands the value can go DOWN: on a 200-pixel
   * track with maximum 200/21, pixel 110 is the last fine pixel and reads
   * 23/21, pixel 111 is the first coarse one and reads 22/21.
   */
  lemma SeamCanDecrease()
    ensures ComplexTrackValue(0, 200.0 / 21.0, 110.0, 200) == 23.0 / 21.0
    ensures ComplexTrackValue(0, 200.0 / 21.0, 111.0, 200) == 22.0 / 21.0
  {
    SeamContext();
  }

  /** An unrounded inverse that lands on a whole pixel of the track is that pixel. */
  lemma CursorOnPixel(ctx: Context, maxValue: real, value: real, c: nat)
    requires maxValue != 0.0
    requires c <= ctx.maxCursor
    requires RawCursor(ctx, maxValue, Max(0.0, value)) == c as real
    ensures CursorAt(ctx, maxValue, value) == c
  {
    RoundOfInt(c);
  }

  /** The value 1 puts the cursor on the pivot, whatever the maximum. */
  lemma CursorAtOne(ctx: Context, maxValue: real)
    requires Shaped(ctx)
    ensures CursorAt(ctx, maxValue, 1.0) == ctx.medianCursor
  {
    RoundOfInt(ctx.medianCursor);
  }

  /** A negative value is read as 0 and puts the cursor at 0, whatever the maximum. */
  lemma NegativeValueIsZero(ctx: Context, maxValue: real, value: real)
    requires value <= 0.0
    ensures CursorAt(ctx, maxValue, value) == 0
  {
    assert RawCursor(ctx, maxValue, 0.0) == 0.0;
    RoundOfInt(0);
  }

  /** With a zero maximum every value above 1 puts the cursor at the end of the track. */
  lemma ZeroMaximumSaturates(ctx: Context, value: real)
    requires ValidContext(ctx, 0.0)
    requires 1.0 < value
    ensures CursorAt(ctx, 0.0, value) == ctx.maxCursor
  {
    MaxRebasedScaleBounds(ctx, 0.0);
  }

  /**
   * Unlike the forward mapping, the inverse never moves the cursor left as
   * the value grows: the fine band's inverse ends at pivot + rightReBase,
   * where the coarse band's inverse begins at the earliest.
   */
  lemma CursorMonotone(ctx: Context, maxValue: real, v1: real, v2: real)
    requires ValidContext(ctx, maxValue)
    requires 0.0 < maxValue
    requires v1 <= v2
    ensures CursorAt(ctx, maxValue, v1) <= CursorAt(ctx, maxValue, v2)
  {
    var m, rs, rb := ctx.medianCursor as real, ctx.rightSector as real, ctx.rightReBase as real;
    var mrs := ctx.maxRebasedScale;
    if 0 < ctx.maxCursor {
      var s1 := Max(0.0, v1);
      var s2 := Max(0.0, v2);
      MaxRebasedScaleBounds(ctx, maxValue);
      assert Fine(ctx.rightReBase, ctx.rightSector, maxValue);
      FineWithinReach(ctx.rightReBase, ctx.rightSector, maxValue);
      assert ctx.leftSector == ctx.medianCursor;
      InverseMonotone(m, rs, rb,
        mrs, maxValue, s1, s2);
      RoundMonotone(RawCursor(ctx, maxValue, s1), RawCursor(ctx, maxValue, s2));
    }
  }

  /** Left of the pivot every whole pixel survives a trip through its value. */
  lemma RoundTripLeft(ctx: Context, maxValue: real, c: nat)
    requires Shaped(ctx)
    requires c < ctx.medianCursor
    ensures CursorAt(ctx, maxValue, ValueAt(ctx, maxValue, c as real)) == c
  {
    var m, rs, safe := ctx.medianCursor as real, ctx.rightSector as real, ctx.safeReBase as real;
    var rb, mrs := ctx.rightReBase as real, ctx.maxRebasedScale;
    var x := c as real;
    assert ctx.leftSector == ctx.medianCursor;
    ValueInsideTrack(ctx, maxValue, x);
    LeftRoundTrip(m, rs, safe, rb, mrs, maxValue, x);
    ReadingLeft(m, rs, safe, mrs, maxValue, x);
    RoundOfInt(c);
  }

  /** In the fine band every whole pixel survives a trip through its value. */
  lemma RoundTripFine(ctx: Context, maxValue: real, c: nat)
    requires ValidContext(ctx, maxValue)
    requires 0.0 < maxValue
    requires ctx.medianCursor < c <= ctx.medianCursor + ctx.rightReBase
    ensures CursorAt(ctx, maxValue, ValueAt(ctx, maxValue, c as real)) == c
  {
    var m, L, rs := ctx.medianCursor as real, ctx.leftSector as real, ctx.rightSector as real;
    var rb, mrs := ctx.rightReBase as real, ctx.maxRebasedScale;
    var k := c - ctx.medianCursor;
    var x := c as real;
    assert x - m == k as real;
    assert Fine(k, ctx.rightSector, maxValue);
    assert InFineBand(m, rs, maxValue, x);
    MaxRebasedScaleBounds(ctx, maxValue);
    assert ctx.safeReBase == ctx.rightReBase;
    ValueInsideTrack(ctx, maxValue, x);
    FineRoundTrip(m, L, rs, rb, mrs, maxValue, x);
    ReadingRight(m, L, rs, rb, mrs, maxValue, x);
    RoundOfInt(c);
  }

  /** In the coarse band, a pixel whose value clears the fine band's top survives the trip. */
  lemma RoundTripCoarse(ctx: Context, maxValue: real, c: nat)
    requires ValidContext(ctx, maxValue)
    requires 0.0 < maxValue
    requires ctx.medianCursor < c <= ctx.maxCursor
    requires 1.0 + ctx.maxRebasedScale < (c as real - ctx.medianCursor as real) / ctx.rightSector as real * maxValue
    ensures CursorAt(ctx, maxValue, ValueAt(ctx, maxValue, c as real)) == c
  {
    var m, L, rs := ctx.medianCursor as real, ctx.leftSector as real, ctx.rightSector as real;
    var safe, rb, mrs := ctx.safeReBase as real, ctx.rightReBase as real, ctx.maxRebasedScale;
    var x := c as real;
    MaxRebasedScaleBounds(ctx, maxValue);
    ValueInsideTrack(ctx, maxValue, x);
    CoarseRoundTrip(m, L, rs, safe, rb, mrs, maxValue, x);
    ReadingRight(m, L, rs, safe, mrs, maxValue, x);
    RoundOfInt(c);
  }

  /**
   * Between the two tests the round trip breaks: on the seam example's track
   * pixel 111 reads 22/21, which the inverse takes for a fine value and
   * sends to pixel 105.
   */
  lemma SeamBreaksRoundTrip()
    ensures ComplexTrackCursor(0, 200.0 / 21.0, ComplexTrackValue(0, 200.0 / 21.0, 111.0, 200), 200) == 105
  {
    SeamContext();
    SeamCanDecrease();
    var ctx := ContextOf(0, 200.0 / 21.0, 200);
    assert RawCursor(ctx, 200.0 / 21.0, 22.0 / 21.0) == 105.0;
    CursorOnPixel(ctx, 200.0 / 21.0, 22.0 / 21.0, 105);
  }
}
