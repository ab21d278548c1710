/** What the stretch, slide and lock passes of the stretchyIK node promise. */
module StretchyIKProperties {
  import opened Geometry
  import opened RealArith
  import opened StretchyIK

  /** Each output of `s` is at most the matching output of `t`. */
  predicate Dominated(s: Scales, t: Scales) {
    s.up <= t.up && s.lo <= t.lo
  }

  // ---------------------------------------------------------------------------
  // Neutral controls

  /**
    * With stretch and lock at or below the threshold and no slide, the outputs are
    * the rest lengths, whatever the matrices and the global scale.
    */
  lemma NeutralIdentity(rig: Rig, length: Vec3 -> real)
    requires PositiveLengths(rig)
    requires rig.stretch <= Threshold && rig.slide == 0.0 && rig.poleVectorLock <= Threshold
    ensures OutputScales(rig, length) == Scales(rig.upInitLength, rig.loInitLength)
  {
    SlideFactors(rig.upInitLength, rig.loInitLength, rig.globalScale, rig.slide);
  }

  // ---------------------------------------------------------------------------
  // Stretch pass

  /**
    * The stretch pass scales both segments by one common factor, which is at
    * least 1 for a non-negative control, and is exactly 1 (nothing changes)
    * when the chain is not longer than at rest.
    */
  lemma StretchUniformFactor(s: Scales, curLength: real, chainLength: real, stretch: real)
    requires 0.0 < chainLength && 0.0 <= stretch
    ensures exists delta :: 1.0 <= delta && StretchPass(s, curLength, chainLength, stretch) == Scaled(s, delta)
    ensures curLength <= chainLength ==> StretchPass(s, curLength, chainLength, stretch) == s
  {
    if stretch > Threshold {
      var delta := StretchFactor(curLength, chainLength, stretch);
      assert StretchPass(s, curLength, chainLength, stretch) == Scaled(s, delta);
    } else {
      assert StretchPass(s, curLength, chainLength, stretch) == Scaled(s, 1.0);
    }
  }

  /** The stretch pass never shrinks a non-negative output. */
  lemma StretchNeverShrinks(s: Scales, curLength: real, chainLength: real, stretch: real)
    requires 0.0 < chainLength && 0.0 <= stretch && 0.0 <= s.up && 0.0 <= s.lo
    ensures Dominated(s, StretchPass(s, curLength, chainLength, stretch))
  {
    if stretch > Threshold {
      var delta := StretchFactor(curLength, chainLength, stretch);
      MulLeq(1.0, delta, s.up);
      MulLeq(1.0, delta, s.lo);
      assert s.up * delta == delta * s.up && s.lo * delta == delta * s.lo;
    }
  }

  /**
    * At full stretch on an over-long chain both segments follow the measured
    * length exactly: they are multiplied by curLength / chainLength.
    */
  lemma FullStretch(s: Scales, curLength: real, chainLength: real)
    requires 0.0 < chainLength < curLength
    ensures StretchPass(s, curLength, chainLength, 1.0) == Scaled(s, curLength / chainLength)
  {
    DivAboveOne(curLength, chainLength);
  }

  /** For a fixed chain the stretch factor does not decrease as the control grows. */
  lemma StretchFactorMonotone(curLength: real, chainLength: real, stretch1: real, stretch2: real)
    requires 0.0 < chainLength && stretch1 <= stretch2
    ensures StretchFactor(curLength, chainLength, stretch1) <= StretchFactor(curLength, chainLength, stretch2)
  {
    var ratio := curLength / chainLength;
    if ratio > 1.0 {
      MulLeq(stretch1, stretch2, ratio - 1.0);
      assert (ratio - 1.0) * stretch1 == stretch1 * (ratio - 1.0);
      assert (ratio - 1.0) * stretch2 == stretch2 * (ratio - 1.0);
    }
  }

  /** Raising the stretch control over [0, 1] never lowers the stretch pass's outputs. */
  lemma StretchPassMonotone(s: Scales, curLength: real, chainLength: real, stretch1: real, stretch2: real)
    requires 0.0 < chainLength && 0.0 <= stretch1 <= stretch2 && 0.0 <= s.up && 0.0 <= s.lo
    ensures Dominated(StretchPass(s, curLength, chainLength, stretch1), StretchPass(s, curLength, chainLength, stretch2))
  {
    if stretch1 > Threshold {
      var d1 := StretchFactor(curLength, chainLength, stretch1);
      var d2 := StretchFactor(curLength, chainLength, stretch2);
      StretchFactorMonotone(curLength, chainLength, stretch1, stretch2);
      MulLeq(d1, d2, s.up);
      MulLeq(d1, d2, s.lo);
      assert s.up * d1 == d1 * s.up && s.up * d2 == d2 * s.up;
      assert s.lo * d1 == d1 * s.lo && s.lo * d2 == d2 * s.lo;
    } else {
      StretchNeverShrinks(s, curLength, chainLength, stretch2);
    }
  }

  // ---------------------------------------------------------------------------
  // Slide pass

  /** |x|. */
  function Abs(x: real): real {
    if x >= 0.0 then x else -x
  }

  /**
    * The slide multipliers: the lower output is multiplied by 1 - |slide| and the
    * upper one by 1 + (ratio - 1) * |slide|, whatever the sign of the slide, the
    * ratio being over the upper rest length for a non-negative slide and over the
    * lower one otherwise. Over [-1, 1] both are non-negative and the lower one is
    * at most 1; with a global scale of at most 1 the upper one is at least 1.
    */
  lemma SlideFactors(upInit: real, loInit: real, gScale: real, slide: real)
    requires 0.0 < upInit && 0.0 < loInit && 0.0 < gScale
    ensures LoSlideFactor(slide) == 1.0 - Abs(slide)
    ensures UpSlideFactor(upInit, loInit, gScale, slide)
      == (SlideRatio(if slide >= 0.0 then upInit else loInit, upInit + loInit, gScale) - 1.0) * Abs(slide) + 1.0
    ensures -1.0 <= slide <= 1.0 ==> 0.0 <= UpSlideFactor(upInit, loInit, gScale, slide) && 0.0 <= LoSlideFactor(slide) <= 1.0
    ensures -1.0 <= slide <= 1.0 && gScale <= 1.0 ==> 1.0 <= UpSlideFactor(upInit, loInit, gScale, slide)
  {
    var pivot := if slide >= 0.0 then upInit else loInit;
    var ratio := SlideRatio(pivot, upInit + loInit, gScale);
    SlideRatioBounds(pivot, upInit + loInit, gScale);
    assert UpSlideFactor(upInit, loInit, gScale, slide) == (ratio - 1.0) * Abs(slide) + 1.0;
    if -1.0 <= slide <= 1.0 {
      assert 0.0 <= (ratio - 1.0) * Abs(slide) + 1.0 by {
        MulNonNeg(ratio, Abs(slide));
        assert (ratio - 1.0) * Abs(slide) == ratio * Abs(slide) - Abs(slide);
      }
    }
    if gScale <= 1.0 {
      MulNonNeg(ratio - 1.0, Abs(slide));
    }
  }

  /**
    * Over [-1, 1] and with a global scale of at most 1, the slide pass never
    * shrinks the upper output and never grows the lower one, whichever the sign
    * of the slide: it only moves length from the lower segment to the upper.
    */
  lemma SlideFavoursUpper(s: Scales, upInit: real, loInit: real, gScale: real, slide: real)
    requires 0.0 < upInit && 0.0 < loInit && 0.0 < gScale <= 1.0 && -1.0 <= slide <= 1.0
    requires 0.0 <= s.up && 0.0 <= s.lo
    ensures var r := SlidePass(s, upInit, loInit, gScale, slide);
      s.up <= r.up && r.lo <= s.lo
  {
    var up, lo := UpSlideFactor(upInit, loInit, gScale, slide), LoSlideFactor(slide);
    SlideFactors(upInit, loInit, gScale, slide);
    assert SlidePass(s, upInit, loInit, gScale, slide) == Scales(s.up * up, s.lo * lo);
    GrowsAndShrinks(s.up, up, s.lo, lo);
  }

  /** Raising the outputs before the slide pass never lowers them after it, over [-1, 1]. */
  lemma SlidePassMonotone(s: Scales, t: Scales, upInit: real, loInit: real, gScale: real, slide: real)
    requires 0.0 < upInit && 0.0 < loInit && 0.0 < gScale && -1.0 <= slide <= 1.0
    requires Dominated(s, t)
    ensures Dominated(SlidePass(s, upInit, loInit, gScale, slide), SlidePass(t, upInit, loInit, gScale, slide))
  {
    var up, lo := UpSlideFactor(upInit, loInit, gScale, slide), LoSlideFactor(slide);
    SlideFactors(upInit, loInit, gScale, slide);
    MulLeq(s.up, t.up, up);
    MulLeq(s.lo, t.lo, lo);
  }

  // ---------------------------------------------------------------------------
  // Lock pass

  /** Raising the outputs before the lock pass never lowers them after it, over [0, 1]. */
  lemma LockPassMonotone(s: Scales, t: Scales, startPoleLength: real, endPoleLength: real, lock: real)
    requires 0.0 <= lock <= 1.0 && Dominated(s, t)
    ensures Dominated(LockPass(s, startPoleLength, endPoleLength, lock), LockPass(t, startPoleLength, endPoleLength, lock))
  {
    MulLeq(s.up, t.up, 1.0 - lock);
    MulLeq(s.lo, t.lo, 1.0 - lock);
  }

  /**
    * For a lock in [0, 1], each of the node's outputs lies between its stretched
    * and slid value and its scaled pole distance.
    */
  lemma LockedOutputs(rig: Rig, length: Vec3 -> real)
    requires PositiveLengths(rig) && 0.0 <= rig.poleVectorLock <= 1.0
    ensures Between(OutputScales(rig, length).up, BeforeLock(rig, length).up, StartPoleLength(rig, length))
    ensures Between(OutputScales(rig, length).lo, BeforeLock(rig, length).lo, EndPoleLength(rig, length))
  {
    LockBlend(BeforeLock(rig, length), StartPoleLength(rig, length), EndPoleLength(rig, length), rig.poleVectorLock);
  }

  // ---------------------------------------------------------------------------
  // Whole evaluation

  /**
    * Over the declared attribute ranges, raising the stretch control never lowers
    * either output; the other inputs are held fixed.
    */
  lemma OutputsMonotoneInStretch(rig: Rig, length: Vec3 -> real, stretch2: real)
    requires InAttributeRanges(rig) && rig.stretch <= stretch2 <= 1.0
    ensures Dominated(OutputScales(rig, length), OutputScales(rig.(stretch := stretch2), length))
  {
    var rig2 := rig.(stretch := stretch2);
    BeforeLockMonotoneInStretch(rig, length, stretch2);
    assert StartPoleLength(rig2, length) == StartPoleLength(rig, length);
    assert EndPoleLength(rig2, length) == EndPoleLength(rig, length);
    LockPassMonotone(BeforeLock(rig, length), BeforeLock(rig2, length),
      StartPoleLength(rig, length), EndPoleLength(rig, length), rig.poleVectorLock);
  }

  /** The stretch and slide passes together are monotone in the stretch control. */
  lemma BeforeLockMonotoneInStretch(rig: Rig, length: Vec3 -> real, stretch2: real)
    requires InAttributeRanges(rig) && rig.stretch <= stretch2 <= 1.0
    ensures Dominated(BeforeLock(rig, length), BeforeLock(rig.(stretch := stretch2), length))
  {
    var rig2 := rig.(stretch := stretch2);
    var rest := Scales(rig.upInitLength, rig.loInitLength);
    StretchPassMonotone(rest, CurLength(rig, length), ChainLength(rig), rig.stretch, stretch2);
    assert AfterStretch(rig2, length) == StretchPass(rest, CurLength(rig, length), ChainLength(rig), stretch2);
    SlidePassMonotone(AfterStretch(rig, length), AfterStretch(rig2, length),
      rig.upInitLength, rig.loInitLength, rig.globalScale, rig.slide);
  }

  /** At or below the lock threshold the pole-vector matrix has no influence on either output. */
  lemma PoleIgnoredBelowThreshold(rig: Rig, length: Vec3 -> real, pole: Matrix)
    requires PositiveLengths(rig) && rig.poleVectorLock <= Threshold
    ensures OutputScales(rig.(poleVectorMatrix := pole), length) == OutputScales(rig, length)
  {
    assert BeforeLock(rig.(poleVectorMatrix := pole), length) == BeforeLock(rig, length);
  }

  /**
    * The outputs depend on the three matrices only through their translations:
    * two evaluations whose matrices have the same translations and whose other
    * inputs agree give the same outputs.
    */
  lemma OutputsDependOnlyOnTranslations(rig1: Rig, rig2: Rig, length: Vec3 -> real)
    requires PositiveLengths(rig1)
    requires Translation(rig1.startMatrix) == Translation(rig2.startMatrix)
    requires Translation(rig1.endMatrix) == Translation(rig2.endMatrix)
    requires Translation(rig1.poleVectorMatrix) == Translation(rig2.poleVectorMatrix)
    requires rig2 == rig1.(startMatrix := rig2.startMatrix, endMatrix := rig2.endMatrix, poleVectorMatrix := rig2.poleVectorMatrix)
    ensures OutputScales(rig1, length) == OutputScales(rig2, length)
  {
    assert CurLength(rig1, length) == CurLength(rig2, length);
    assert StartPoleLength(rig1, length) == StartPoleLength(rig2, length);
    assert EndPoleLength(rig1, length) == EndPoleLength(rig2, length);
  }

  /** Writing any matrix entry outside [3][0..2] leaves both outputs unchanged. */
  lemma OnlyTranslationRead(rig: Rig, length: Vec3 -> real, i: nat, j: nat, x: real)
    requires PositiveLengths(rig) && i < 4 && j < 4 && (i != 3 || j == 3)
    ensures OutputScales(rig.(startMatrix := SetEntry(rig.startMatrix, i, j, x)), length) == OutputScales(rig, length)
    ensures OutputScales(rig.(endMatrix := SetEntry(rig.endMatrix, i, j, x)), length) == OutputScales(rig, length)
    ensures OutputScales(rig.(poleVectorMatrix := SetEntry(rig.poleVectorMatrix, i, j, x)), length) == OutputScales(rig, length)
  {
    TranslationIgnoresOtherEntries(rig.startMatrix, i, j, x);
    TranslationIgnoresOtherEntries(rig.endMatrix, i, j, x);
    TranslationIgnoresOtherEntries(rig.poleVectorMatrix, i, j, x);
    OutputsDependOnlyOnTranslations(rig, rig.(startMatrix := SetEntry(rig.startMatrix, i, j, x)), length);
    OutputsDependOnlyOnTranslations(rig, rig.(endMatrix := SetEntry(rig.endMatrix, i, j, x)), length);
    OutputsDependOnlyOnTranslations(rig, rig.(poleVectorMatrix := SetEntry(rig.poleVectorMatrix, i, j, x)), length);
  }

  // ---------------------------------------------------------------------------
  // Worked cases: rest lengths 5 and 5, global scale 1, start at the origin and
  // end at (12, 0, 0), so the chain is 10 long at rest and 12 long now.

  predicate ExampleRig(rig: Rig) {
    && Translation(rig.startMatrix) == Vec3(0.0, 0.0, 0.0)
    && Translation(rig.endMatrix) == Vec3(12.0, 0.0, 0.0)
    && rig.upInitLength == 5.0 && rig.loInitLength == 5.0 && rig.globalScale == 1.0
  }

  /**
    * Full stretch follows the measured length: with a Euclidean length the ends
    * are 12 apart, and each rest length grows by 12 / 10.
    */
  lemma ExampleFullStretch(rig: Rig, length: Vec3 -> real)
    requires ExampleRig(rig) && rig.stretch == 1.0 && rig.slide == 0.0 && rig.poleVectorLock == 0.0
    requires EuclideanAt(length, Vec3(12.0, 0.0, 0.0))
    ensures OutputScales(rig, length) == Scales(6.0, 6.0)
  {
    LengthFromSquare(length, Vec3(12.0, 0.0, 0.0), 12.0);
    ExampleCurLength(rig, length);
    FullStretchAfterStretch(rig, length);
    ZeroSlideKeepsStretch(rig, length);
  }

  /** The example's ends are 12 apart, in rest units too since the global scale is 1. */
  lemma ExampleCurLength(rig: Rig, length: Vec3 -> real)
    requires ExampleRig(rig) && length(Vec3(12.0, 0.0, 0.0)) == 12.0
    ensures CurLength(rig, length) == 12.0
  {
    assert Span(rig) == Vec3(12.0, 0.0, 0.0);
  }

  /** `ExampleFullStretch` after the stretch pass, once the current length is known. */
  lemma FullStretchAfterStretch(rig: Rig, length: Vec3 -> real)
    requires ExampleRig(rig) && rig.stretch == 1.0 && CurLength(rig, length) == 12.0
    ensures AfterStretch(rig, length) == Scales(6.0, 6.0)
  {
    assert AfterStretch(rig, length) == StretchPass(Scales(5.0, 5.0), 12.0, 10.0, 1.0);
    assert StretchPass(Scales(5.0, 5.0), 12.0, 10.0, 1.0) == Scales(6.0, 6.0);
  }

  /** Half slide: the upper segment takes half the lower one's length. */
  lemma ExampleHalfSlide(rig: Rig, length: Vec3 -> real)
    requires ExampleRig(rig) && rig.stretch == 0.0 && rig.slide == 0.5 && rig.poleVectorLock == 0.0
    ensures OutputScales(rig, length) == Scales(7.5, 2.5)
  {
    HalfSlideBeforeLock(rig, length);
  }

  /** `ExampleHalfSlide` before the lock pass, which the zero lock leaves alone. */
  lemma HalfSlideBeforeLock(rig: Rig, length: Vec3 -> real)
    requires ExampleRig(rig) && rig.stretch == 0.0 && rig.slide == 0.5
    ensures BeforeLock(rig, length) == Scales(7.5, 2.5)
  {
    assert LoSlideFactor(0.5) == 0.5;
    assert UpSlideFactor(5.0, 5.0, 1.0, 0.5) == 1.5 by {
      assert SlideRatio(5.0, 10.0, 1.0) == 2.0;
    }
    assert AfterStretch(rig, length) == Scales(5.0, 5.0);
  }

  /**
    * Full lock with the pole at (6, 8, 0): with a Euclidean length the pole is 10
    * from both ends, and both outputs become 10.
    */
  lemma ExampleFullLock(rig: Rig, length: Vec3 -> real)
    requires ExampleRig(rig) && rig.stretch == 0.0 && rig.slide == 0.0 && rig.poleVectorLock == 1.0
    requires Translation(rig.poleVectorMatrix) == Vec3(6.0, 8.0, 0.0)
    requires EuclideanAt(length, Vec3(6.0, 8.0, 0.0)) && EuclideanAt(length, Vec3(-6.0, 8.0, 0.0))
    ensures OutputScales(rig, length) == Scales(10.0, 10.0)
  {
    LengthFromSquare(length, Vec3(6.0, 8.0, 0.0), 10.0);
    LengthFromSquare(length, Vec3(-6.0, 8.0, 0.0), 10.0);
    FullLockAt(rig, length);
  }

  /** `ExampleFullLock` once the pole is known to be 10 from both ends. */
  lemma FullLockAt(rig: Rig, length: Vec3 -> real)
    requires ExampleRig(rig) && rig.stretch == 0.0 && rig.slide == 0.0 && rig.poleVectorLock == 1.0
    requires Translation(rig.poleVectorMatrix) == Vec3(6.0, 8.0, 0.0)
    requires length(Vec3(6.0, 8.0, 0.0)) == 10.0 && length(Vec3(-6.0, 8.0, 0.0)) == 10.0
    ensures OutputScales(rig, length) == Scales(10.0, 10.0)
  {
    assert StartPoleLength(rig, length) == 10.0 && EndPoleLength(rig, length) == 10.0 by {
      assert StartToPole(rig) == Vec3(6.0, 8.0, 0.0) && EndToPole(rig) == Vec3(-6.0, 8.0, 0.0);
    }
  }
}
