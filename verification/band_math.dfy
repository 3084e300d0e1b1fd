/**
 * The arithmetic of the non-linear slider mapper on plain numbers: the test
 * that splits the right half of the track into a fine and a coarse band, the
 * reading of a clamped cursor, and its inverse. The context record that
 * carries these numbers in the source is unpacked by the caller.
 */
module BandMath {
  import opened JsMath

  /** The fine band gets a tenth of the slope a plain linear mapping would give it. */
  const FineCompression: real := 10.0

  /**
   * The test the source applies to each coordinate of the right sector:
   * spread linearly over the whole sector, would this coordinate still read
   * as at most 1?
   */
  predicate Fine(coordinate: int, rightSector: nat, maxValue: real)
    requires 0 < rightSector
  {
    (coordinate as real / rightSector as real) * maxValue <= 1.0
  }

  /** Where the scan of the right sector stops, in closed form. */
  function LastFine(rightSector: nat, maxValue: real): (k: nat)
    requires 0 < rightSector
    ensures k < rightSector
  {
    if maxValue > 0.0 then MinInt(Floor(rightSector as real / maxValue), rightSector - 1)
    else rightSector - 1
  }

  /** Inside the sector, a coordinate passes the test exactly when it is at most `LastFine`. */
  lemma FineIff(k: int, rightSector: nat, maxValue: real)
    requires 0 <= k < rightSector
    ensures Fine(k, rightSector, maxValue) <==> k <= LastFine(rightSector, maxValue)
  {
    var rs := rightSector as real;
    var x := k as real / rs;
    assert 0.0 <= x;
    if maxValue > 0.0 {
      assert x * maxValue == (k as real * maxValue) / rs;
      assert Fine(k, rightSector, maxValue) <==> k as real * maxValue <= rs;
      assert k as real * maxValue <= rs <==> k as real <= rs / maxValue;
    } else {
      MulMonotone(maxValue, 0.0, x);
    }
  }

  /**
   * `LastFine` is what the scan finds: every coordinate up to it passes the
   * test, and it is the sector's last coordinate or the next one fails.
   */
  lemma RightReBaseIsLastFineCoordinate(rightSector: nat, maxValue: real)
    requires 0 < rightSector
    ensures 0 <= LastFine(rightSector, maxValue) < rightSector
    ensures forall k :: 0 <= k <= LastFine(rightSector, maxValue) ==> Fine(k, rightSector, maxValue)
    ensures LastFine(rightSector, maxValue) == rightSector - 1 || !Fine(LastFine(rightSector, maxValue) + 1, rightSector, maxValue)
  {
    forall k | 0 <= k <= LastFine(rightSector, maxValue)
      ensures Fine(k, rightSector, maxValue)
    {
      FineIff(k, rightSector, maxValue);
    }
    var last := LastFine(rightSector, maxValue);
    if last < rightSector - 1 {
      FineIff(last + 1, rightSector, maxValue);
    }
  }

  /** The scale the fine band reaches at its last coordinate. */
  function RebasedScale(rightReBase: nat, rightSector: nat, maxValue: real): real
    requires 0 < rightSector
  {
    ((rightReBase as real / rightSector as real) * maxValue) / FineCompression
  }

  /** For a coordinate that passes the test and a non-negative maximum, that scale lies in [0, 1/10]. */
  lemma RebasedScaleBounds(rightReBase: nat, rightSector: nat, maxValue: real)
    requires 0 < rightSector
    requires 0.0 <= maxValue
    requires Fine(rightReBase, rightSector, maxValue)
    ensures 0.0 <= RebasedScale(rightReBase, rightSector, maxValue) <= 1.0 / FineCompression
    ensures 0 < rightReBase && 0.0 < maxValue ==> 0.0 < RebasedScale(rightReBase, rightSector, maxValue)
  {
    var x := rightReBase as real / rightSector as real;
    MulMonotone(0.0, x, maxValue);
  }

  /** `reBase` pixels lie no further than where the coarse band's inverse starts, `right / maxValue` pixels. */
  predicate WithinReach(reBase: real, right: real, maxValue: real)
    requires maxValue != 0.0
  {
    reBase <= 1.0 / maxValue * right
  }

  /** A coordinate that passes the test lies no further than `rightSector / maxValue`. */
  lemma FineWithinReach(k: nat, rightSector: nat, maxValue: real)
    requires 0 < rightSector
    requires 0.0 < maxValue
    requires Fine(k, rightSector, maxValue)
    ensures WithinReach(k as real, rightSector as real, maxValue)
  {
    var rb := k as real;
    var rs := rightSector as real;
    assert (rb / rs) * maxValue == (rb * maxValue) / rs;
    assert rb * maxValue <= rs;
    assert 1.0 / maxValue * rs == rs / maxValue;
  }

  /**
   * The test the reading applies right of the pivot: the cursor's share of
   * the right sector, times the maximum, is at most 1.
   */
  predicate InFineBand(pivot: real, right: real, maxValue: real, x: real)
    requires 0.0 < right
  {
    (x - pivot) / right * maxValue <= 1.0
  }

  /**
   * The reading of a cursor already clamped to the track: 1 at the pivot,
   * the cursor's share of the left sector left of it, and right of it the
   * fine band (1 plus a share of `scale`) while the test passes, the coarse
   * band (a share of `maxValue`) once it fails; never below 0.
   */
  function Reading(pivot: real, left: real, right: real, safe: real, scale: real, maxValue: real, clamped: real): (v: real)
    requires 0.0 < left && 0.0 < right && 0.0 < safe
    ensures 0.0 <= v
  {
    if clamped == pivot then 1.0
    else
      var value :=
        if clamped > pivot then
          if InFineBand(pivot, right, maxValue, clamped) then
            1.0 + ((clamped - pivot) / safe) * scale
          else
            (clamped - pivot) / right * maxValue
        else
          clamped / left;
      Max(0.0, value)
  }

  /** A value above 1 that the inverse sends to the coarse band, where it divides by the maximum. */
  predicate CoarseInverse(scale: real, safeValue: real) {
    safeValue > 1.0 && !(safeValue <= 1.0 + scale && scale > 0.0)
  }

  /**
   * The inverse before rounding, for a value already floored at 0: the pivot
   * for 1, a share of the fine band up to `1 + scale`, a share of the right
   * sector above it, and a share of the left sector below 1.
   */
  function Inverse(pivot: real, left: real, right: real, reBase: real, scale: real, maxValue: real, safeValue: real): (c: real)
    requires maxValue != 0.0 || !CoarseInverse(scale, safeValue)
    ensures safeValue == 1.0 ==> c == pivot
    ensures safeValue == 0.0 ==> c == 0.0
  {
    if safeValue == 1.0 then pivot
    else if safeValue > 1.0 then
      if safeValue <= 1.0 + scale && scale > 0.0 then
        (safeValue - 1.0) / scale * reBase + pivot
      else
        safeValue / maxValue * right + pivot
    else
      safeValue * left
  }

  /** Left of the pivot the reading is the cursor's share of the left sector, in [0, 1). */
  lemma ReadingLeft(pivot: real, right: real, safe: real, scale: real, maxValue: real, x: real)
    requires 0.0 < right && 0.0 < safe
    requires 0.0 <= x < pivot
    ensures Reading(pivot, pivot, right, safe, scale, maxValue, x) == x / pivot
    ensures 0.0 <= x / pivot < 1.0
  {
    ShareBelowOne(x, pivot);
  }

  /** Right of the pivot, with a non-negative scale, both bands read at least 1. */
  lemma ReadingRight(pivot: real, left: real, right: real, safe: real, scale: real, maxValue: real, x: real)
    requires 0.0 < left && 0.0 < right && 0.0 < safe
    requires 0.0 <= scale
    requires pivot < x
    ensures 1.0 <= Reading(pivot, left, right, safe, scale, maxValue, x)
  {
    ScaledShareMonotone(0.0, x - pivot, safe, scale);
  }

  /** Up to the pivot the reading never decreases. */
  lemma ReadingLeftMonotone(pivot: real, right: real, safe: real, scale: real, maxValue: real, x1: real, x2: real)
    requires 0.0 < right && 0.0 < safe
    requires 0.0 <= x1 <= x2 <= pivot && 0.0 < pivot
    ensures Reading(pivot, pivot, right, safe, scale, maxValue, x1) <= Reading(pivot, pivot, right, safe, scale, maxValue, x2)
  {
    if x1 < pivot {
      ReadingLeft(pivot, right, safe, scale, maxValue, x1);
      if x2 < pivot {
        ReadingLeft(pivot, right, safe, scale, maxValue, x2);
        DivMonotone(x1, x2, pivot);
      }
    }
  }

  /** In the fine band the reading is 1 plus the cursor's share of the band, scaled. */
  lemma FineReading(pivot: real, left: real, right: real, safe: real, scale: real, maxValue: real, x: real)
    requires 0.0 < left && 0.0 < right && 0.0 < safe && 0.0 <= scale
    requires pivot < x
    requires InFineBand(pivot, right, maxValue, x)
    ensures Reading(pivot, left, right, safe, scale, maxValue, x) == 1.0 + (x - pivot) / safe * scale
  {
    ScaledShareMonotone(0.0, x - pivot, safe, scale);
  }

  /** Within the fine band the reading never decreases. */
  lemma ReadingFineMonotone(pivot: real, left: real, right: real, safe: real, scale: real, maxValue: real, x1: real, x2: real)
    requires 0.0 < left && 0.0 < right && 0.0 < safe
    requires 0.0 <= scale && 0.0 <= maxValue
    requires pivot < x1 <= x2
    requires InFineBand(pivot, right, maxValue, x2)
    ensures Reading(pivot, left, right, safe, scale, maxValue, x1) <= Reading(pivot, left, right, safe, scale, maxValue, x2)
  {
    assert InFineBand(pivot, right, maxValue, x1) by {
      ScaledShareMonotone(x1 - pivot, x2 - pivot, right, maxValue);
    }
    calc {
      Reading(pivot, left, right, safe, scale, maxValue, x1);
    == { FineReading(pivot, left, right, safe, scale, maxValue, x1); }
      1.0 + (x1 - pivot) / safe * scale;
    <= { ScaledShareMonotone(x1 - pivot, x2 - pivot, safe, scale); }
      1.0 + (x2 - pivot) / safe * scale;
    == { FineReading(pivot, left, right, safe, scale, maxValue, x2); }
      Reading(pivot, left, right, safe, scale, maxValue, x2);
    }
  }

  /** Within the coarse band the reading never decreases. */
  lemma ReadingCoarseMonotone(pivot: real, left: real, right: real, safe: real, scale: real, maxValue: real, x1: real, x2: real)
    requires 0.0 < left && 0.0 < right && 0.0 < safe
    requires 0.0 <= maxValue
    requires pivot < x1 <= x2
    requires !InFineBand(pivot, right, maxValue, x1)
    ensures Reading(pivot, left, right, safe, scale, maxValue, x1) <= Reading(pivot, left, right, safe, scale, maxValue, x2)
  {
    var a := (x1 - pivot) / right * maxValue;
    var b := (x2 - pivot) / right * maxValue;
    ScaledShareMonotone(x1 - pivot, x2 - pivot, right, maxValue);
    assert a <= b;
    assert 1.0 < b;
    assert Reading(pivot, left, right, safe, scale, maxValue, x1) == a;
    assert Reading(pivot, left, right, safe, scale, maxValue, x2) == b;
  }

  /** The inverse of every value of at least 1 lies at or right of the pivot. */
  lemma InverseRightOfPivot(pivot: real, left: real, right: real, reBase: real, scale: real, maxValue: real, s: real)
    requires 0.0 < maxValue && 0.0 <= right && 0.0 <= reBase
    requires 1.0 <= s
    ensures pivot <= Inverse(pivot, left, right, reBase, scale, maxValue, s)
  {
    if s > 1.0 {
      if s <= 1.0 + scale && scale > 0.0 {
        ScaledShareMonotone(0.0, s - 1.0, scale, reBase);
      } else {
        ScaledShareMonotone(0.0, s, maxValue, right);
      }
    }
  }

  /** The fine band's inverse stays within `reBase` pixels right of the pivot. */
  lemma FineInverseWithin(pivot: real, left: real, right: real, reBase: real, scale: real, maxValue: real, s: real)
    requires 0.0 <= reBase
    requires 1.0 < s <= 1.0 + scale && 0.0 < scale
    ensures Inverse(pivot, left, right, reBase, scale, maxValue, s) <= pivot + reBase
  {
    var share := (s - 1.0) / scale;
    ShareWithin(s - 1.0, scale);
    MulMonotone(share, 1.0, reBase);
    assert share * reBase <= reBase;
  }

  /** Outside the fine band, the inverse of a value above 1 lies beyond `right / maxValue` pixels right of the pivot. */
  lemma CoarseInverseBeyond(pivot: real, left: real, right: real, reBase: real, scale: real, maxValue: real, s: real)
    requires 0.0 < maxValue && 0.0 <= right
    requires 1.0 < s && !(s <= 1.0 + scale && 0.0 < scale)
    ensures pivot + 1.0 / maxValue * right <= Inverse(pivot, left, right, reBase, scale, maxValue, s)
  {
    ScaledShareMonotone(1.0, s, maxValue, right);
  }

  /** Below 1 the inverse is the value's share of the left sector, which grows with the value. */
  lemma InverseLeftMonotone(pivot: real, right: real, reBase: real, scale: real, maxValue: real, s1: real, s2: real)
    requires 0.0 <= pivot && 0.0 <= s1 <= s2 < 1.0
    ensures Inverse(pivot, pivot, right, reBase, scale, maxValue, s1) <= Inverse(pivot, pivot, right, reBase, scale, maxValue, s2)
    ensures Inverse(pivot, pivot, right, reBase, scale, maxValue, s2) <= pivot
  {
    MulMonotone(s1, s2, pivot);
    MulMonotone(s2, 1.0, pivot);
  }

  /** Within the fine band the inverse grows with the value. */
  lemma InverseFineMonotone(pivot: real, right: real, reBase: real, scale: real, maxValue: real, s1: real, s2: real)
    requires 0.0 <= reBase && 0.0 < scale
    requires 1.0 < s1 <= s2 <= 1.0 + scale
    ensures Inverse(pivot, pivot, right, reBase, scale, maxValue, s1) <= Inverse(pivot, pivot, right, reBase, scale, maxValue, s2)
  {
    assert Inverse(pivot, pivot, right, reBase, scale, maxValue, s1) == (s1 - 1.0) / scale * reBase + pivot;
    assert Inverse(pivot, pivot, right, reBase, scale, maxValue, s2) == (s2 - 1.0) / scale * reBase + pivot;
    ScaledShareMonotone(s1 - 1.0, s2 - 1.0, scale, reBase);
  }

  /** Beyond the fine band the inverse grows with the value. */
  lemma InverseCoarseMonotone(pivot: real, right: real, reBase: real, scale: real, maxValue: real, s1: real, s2: real)
    requires 0.0 < maxValue && 0.0 <= right
    requires 1.0 < s1 <= s2 && CoarseInverse(scale, s1)
    ensures Inverse(pivot, pivot, right, reBase, scale, maxValue, s1) <= Inverse(pivot, pivot, right, reBase, scale, maxValue, s2)
  {
    assert CoarseInverse(scale, s2);
    assert Inverse(pivot, pivot, right, reBase, scale, maxValue, s1) == s1 / maxValue * right + pivot;
    assert Inverse(pivot, pivot, right, reBase, scale, maxValue, s2) == s2 / maxValue * right + pivot;
    ScaledShareMonotone(s1, s2, maxValue, right);
  }

  /**
   * The inverse never decreases as the value grows, provided the fine band's
   * last coordinate lies no further than where the coarse band's inverse
   * starts (`reBase <= right / maxValue`).
   */
  lemma InverseMonotone(pivot: real, right: real, reBase: real, scale: real, maxValue: real, s1: real, s2: real)
    requires 0.0 < maxValue && 0.0 <= right && 0.0 <= reBase && 0.0 <= pivot && 0.0 <= scale
    requires WithinReach(reBase, right, maxValue)
    requires 0.0 <= s1 <= s2
    ensures Inverse(pivot, pivot, right, reBase, scale, maxValue, s1) <= Inverse(pivot, pivot, right, reBase, scale, maxValue, s2)
  {
    if s2 < 1.0 {
      InverseLeftMonotone(pivot, right, reBase, scale, maxValue, s1, s2);
    } else if s1 < 1.0 {
      InverseLeftMonotone(pivot, right, reBase, scale, maxValue, s1, s1);
      InverseRightOfPivot(pivot, pivot, right, reBase, scale, maxValue, s2);
    } else if s1 == 1.0 {
      InverseRightOfPivot(pivot, pivot, right, reBase, scale, maxValue, s2);
    } else if CoarseInverse(scale, s1) {
      InverseCoarseMonotone(pivot, right, reBase, scale, maxValue, s1, s2);
    } else if CoarseInverse(scale, s2) {
      FineInverseWithin(pivot, pivot, right, reBase, scale, maxValue, s1);
      CoarseInverseBeyond(pivot, pivot, right, reBase, scale, maxValue, s2);
    } else {
      InverseFineMonotone(pivot, right, reBase, scale, maxValue, s1, s2);
    }
  }

  /** Left of the pivot the inverse undoes the reading. */
  lemma LeftRoundTrip(pivot: real, right: real, safe: real, reBase: real, scale: real, maxValue: real, x: real)
    requires 0.0 < right && 0.0 < safe
    requires 0.0 <= x < pivot
    ensures Inverse(pivot, pivot, right, reBase, scale, maxValue, Reading(pivot, pivot, right, safe, scale, maxValue, x)) == x
  {
    ReadingLeft(pivot, right, safe, scale, maxValue, x);
    CancelShare(x, pivot);
  }

  /** A positive part of a whole no larger than the whole is a share in (0, 1]. */
  lemma ShareWithin(k: real, d: real)
    requires 0.0 < k <= d
    ensures 0.0 < k / d <= 1.0
  {
    DivMonotone(k, d, d);
  }

  /**
   * In the fine band, when the band is `reBase` pixels wide and the scale is
   * positive, the inverse undoes the reading of every cursor in the band.
   */
  lemma FineRoundTrip(pivot: real, left: real, right: real, reBase: real, scale: real, maxValue: real, x: real)
    requires 0.0 < left && 0.0 < right && 0.0 < scale && maxValue != 0.0
    requires pivot < x <= pivot + reBase
    requires InFineBand(pivot, right, maxValue, x)
    ensures Inverse(pivot, left, right, reBase, scale, maxValue, Reading(pivot, left, right, reBase, scale, maxValue, x)) == x
  {
    var k := x - pivot;
    var share := k / reBase;
    var v := 1.0 + share * scale;
    ShareWithin(k, reBase);
    MulMonotone(share, 1.0, scale);
    assert share * scale <= scale;
    assert 0.0 < share * scale;
    assert Reading(pivot, left, right, reBase, scale, maxValue, x) == v;
    assert 1.0 < v <= 1.0 + scale;
    assert Inverse(pivot, left, right, reBase, scale, maxValue, v) == (v - 1.0) / scale * reBase + pivot;
    assert v - 1.0 == share * scale;
    CancelScale(k, reBase, scale);
  }

  /** In the coarse band, a cursor whose reading clears the fine band's top is recovered by the inverse. */
  lemma CoarseRoundTrip(pivot: real, left: real, right: real, safe: real, reBase: real, scale: real, maxValue: real, x: real)
    requires 0.0 < left && 0.0 < right && 0.0 < safe && 0.0 <= scale && 0.0 < maxValue
    requires pivot < x
    requires 1.0 + scale < (x - pivot) / right * maxValue
    ensures Inverse(pivot, left, right, reBase, scale, maxValue, Reading(pivot, left, right, safe, scale, maxValue, x)) == x
  {
    var v := (x - pivot) / right * maxValue;
    assert Reading(pivot, left, right, safe, scale, maxValue, x) == v;
    CancelScale(x - pivot, right, maxValue);
  }
}
