/**
  * The evaluation of the stretchyIK dependency node: from the start, end and
  * pole-vector matrices, the two rest lengths, the global scale and the stretch,
  * slide and pole-vector-lock controls, two output scales for the upper and the
  * lower segment of a two-bone IK chain.
  *
  * `OutputScales` is the specification, one function per pass; `Compute` is the
  * node's straight-line computation with its two accumulators, proved equal to it.
  */
module StretchyIK {
  import opened Geometry
  import opened RealArith

  /** Stretch and lock count as switched on only above this value. */
  const Threshold: real := 0.001

  /** Minimum the node declares for upInitLength, loInitLength and globalScale. */
  const MinValue: real := 0.001

  /** The node's input attributes as read from the data block in one evaluation. */
  datatype Rig = Rig(
    startMatrix: Matrix,
    endMatrix: Matrix,
    poleVectorMatrix: Matrix,
    upInitLength: real,
    loInitLength: real,
    stretch: real,
    slide: real,
    poleVectorLock: real,
    globalScale: real)

  /** The node's two outputs: outputUpScale and outputLoScale. */
  datatype Scales = Scales(up: real, lo: real)

  /** What the divisions in the computation need: positive rest lengths and global scale. */
  predicate PositiveLengths(rig: Rig) {
    0.0 < rig.upInitLength && 0.0 < rig.loInitLength && 0.0 < rig.globalScale
  }

  /** The minimum and maximum values the node declares for its numeric inputs. */
  predicate InAttributeRanges(rig: Rig) {
    && MinValue <= rig.upInitLength
    && MinValue <= rig.loInitLength
    && MinValue <= rig.globalScale
    && 0.0 <= rig.stretch <= 1.0
    && -1.0 <= rig.slide <= 1.0
    && 0.0 <= rig.poleVectorLock <= 1.0
  }

  /** Both outputs multiplied by the same factor. */
  function Scaled(s: Scales, k: real): Scales {
    Scales(s.up * k, s.lo * k)
  }

  /** The rest length of the whole chain. */
  function ChainLength(rig: Rig): real {
    rig.upInitLength + rig.loInitLength
  }

  /** From the start translation to the end translation. */
  function Span(rig: Rig): Vec3 {
    Sub(Translation(rig.endMatrix), Translation(rig.startMatrix))
  }

  /** From the start translation to the pole-vector translation. */
  function StartToPole(rig: Rig): Vec3 {
    Sub(Translation(rig.poleVectorMatrix), Translation(rig.startMatrix))
  }

  /** From the end translation to the pole-vector translation. */
  function EndToPole(rig: Rig): Vec3 {
    Sub(Translation(rig.poleVectorMatrix), Translation(rig.endMatrix))
  }

  /** `length` is the Euclidean length on the three vectors the node measures. */
  predicate Measured(rig: Rig, length: Vec3 -> real) {
    EuclideanAt(length, Span(rig)) && EuclideanAt(length, StartToPole(rig)) && EuclideanAt(length, EndToPole(rig))
  }

  /** The current start-to-end distance, divided by the global scale. */
  function CurLength(rig: Rig, length: Vec3 -> real): real
    requires 0.0 < rig.globalScale
  {
    length(Span(rig)) / rig.globalScale
  }

  /**
    * The current length is the measured span in the units of the rest lengths:
    * non-negative, and the measured distance once scaled back.
    */
  lemma CurLengthInRestUnits(rig: Rig, length: Vec3 -> real)
    requires 0.0 < rig.globalScale && EuclideanAt(length, Span(rig))
    ensures 0.0 <= CurLength(rig, length)
    ensures CurLength(rig, length) * rig.globalScale == length(Span(rig))
  {
    DivNonNeg(length(Span(rig)), rig.globalScale);
  }

  /**
    * The pole-to-start distance, multiplied by the global scale: the plain
    * distance at unit scale.
    */
  function StartPoleLength(rig: Rig, length: Vec3 -> real): (d: real)
    ensures rig.globalScale == 1.0 ==> d == length(StartToPole(rig))
  {
    length(StartToPole(rig)) * rig.globalScale
  }

  /**
    * The pole-to-end distance, multiplied by the global scale: the plain distance
    * at unit scale.
    */
  function EndPoleLength(rig: Rig, length: Vec3 -> real): (d: real)
    ensures rig.globalScale == 1.0 ==> d == length(EndToPole(rig))
  {
    length(EndToPole(rig)) * rig.globalScale
  }

  /**
    * The pole distances are the measured distances in world units: non-negative,
    * and their squares are the squared Euclidean distances scaled by the square
    * of the global scale.
    */
  lemma PoleLengthsInWorldUnits(rig: Rig, length: Vec3 -> real)
    requires 0.0 < rig.globalScale
    requires EuclideanAt(length, StartToPole(rig)) && EuclideanAt(length, EndToPole(rig))
    ensures 0.0 <= StartPoleLength(rig, length) && 0.0 <= EndPoleLength(rig, length)
    ensures StartPoleLength(rig, length) * StartPoleLength(rig, length)
      == rig.globalScale * rig.globalScale * SqNorm(StartToPole(rig))
    ensures EndPoleLength(rig, length) * EndPoleLength(rig, length)
      == rig.globalScale * rig.globalScale * SqNorm(EndToPole(rig))
  {
    var g := rig.globalScale;
    var a, b := length(StartToPole(rig)), length(EndToPole(rig));
    MulNonNeg(a, g);
    MulNonNeg(b, g);
    assert (a * g) * (a * g) == g * g * (a * a);
    assert (b * g) * (b * g) == g * g * (b * b);
  }

  /**
    * The factor the stretch pass applies to both segments: at least 1 for a
    * non-negative control, and exactly 1 unless the chain is longer than at rest.
    */
  function StretchFactor(curLength: real, chainLength: real, stretch: real): (delta: real)
    requires 0.0 < chainLength
    ensures 0.0 <= stretch ==> 1.0 <= delta
    ensures curLength <= chainLength ==> delta == 1.0
  {
    var ratio := curLength / chainLength;
    if ratio > 1.0 then (ratio - 1.0) * stretch + 1.0 else 1.0
  }

  /**
    * Stretch pass, only when the control is above the threshold. It keeps the
    * proportion between the two outputs, and changes nothing when the control is
    * off or the chain is not longer than at rest.
    */
  function StretchPass(s: Scales, curLength: real, chainLength: real, stretch: real): (r: Scales)
    requires 0.0 < chainLength
    ensures stretch <= Threshold || curLength <= chainLength ==> r == s
    ensures r.up * s.lo == r.lo * s.up
  {
    if stretch > Threshold then Scaled(s, StretchFactor(curLength, chainLength, stretch)) else s
  }

  /**
    * The slide ratio: how many times the scaled rest length `pivot` of one segment
    * fits into the chain's rest length.
    */
  function SlideRatio(pivot: real, chainLength: real, gScale: real): real
    requires 0.0 < pivot && 0.0 < gScale
  {
    chainLength / (pivot * gScale)
  }

  /**
    * The slide ratio of a segment is non-negative, and at least 1 when the global
    * scale is at most 1.
    */
  lemma SlideRatioBounds(pivot: real, chainLength: real, gScale: real)
    requires 0.0 < pivot < chainLength && 0.0 < gScale
    ensures 0.0 <= SlideRatio(pivot, chainLength, gScale)
    ensures gScale <= 1.0 ==> 1.0 <= SlideRatio(pivot, chainLength, gScale)
  {
    MulNonNeg(pivot, gScale);
    assert pivot * gScale != 0.0;
    DivNonNeg(chainLength, pivot * gScale);
    if gScale <= 1.0 {
      ScaledAtMost(pivot, gScale);
      DivAtLeastOne(chainLength, pivot * gScale);
    }
  }

  /**
    * The multiplier the slide pass applies to the upper output: 1 plus |slide|
    * times how much the slide ratio exceeds 1, the ratio being over the upper
    * rest length for a non-negative slide and over the lower one otherwise.
    */
  function UpSlideFactor(upInit: real, loInit: real, gScale: real, slide: real): (k: real)
    requires 0.0 < upInit && 0.0 < loInit && 0.0 < gScale
    ensures slide == 0.0 ==> k == 1.0
  {
    var chainLength := upInit + loInit;
    if slide >= 0.0 then
      (SlideRatio(upInit, chainLength, gScale) - 1.0) * slide + 1.0
    else
      (SlideRatio(loInit, chainLength, gScale) - 1.0) * -slide + 1.0
  }

  /**
    * The multiplier the slide pass applies to the lower output: never above 1,
    * non-negative over [-1, 1], and 1 exactly when there is no slide.
    */
  function LoSlideFactor(slide: real): (k: real)
    ensures k <= 1.0
    ensures -1.0 <= slide <= 1.0 ==> 0.0 <= k
    ensures k == 1.0 <==> slide == 0.0
  {
    if slide >= 0.0 then 1.0 - slide else 1.0 + slide
  }

  /** Slide pass, always applied: no slide changes nothing. */
  function SlidePass(s: Scales, upInit: real, loInit: real, gScale: real, slide: real): (r: Scales)
    requires 0.0 < upInit && 0.0 < loInit && 0.0 < gScale
    ensures slide == 0.0 ==> r == s
  {
    Scales(s.up * UpSlideFactor(upInit, loInit, gScale, slide), s.lo * LoSlideFactor(slide))
  }

  /**
    * Lock pass, only above the threshold: a linear blend toward the pole
    * distances. At or below the threshold nothing changes; at full lock the
    * outputs are the pole distances.
    */
  function LockPass(s: Scales, startPoleLength: real, endPoleLength: real, lock: real): (r: Scales)
    ensures lock <= Threshold ==> r == s
    ensures lock == 1.0 ==> r == Scales(startPoleLength, endPoleLength)
  {
    if lock > Threshold then
      Scales(s.up * (1.0 - lock) + startPoleLength * lock, s.lo * (1.0 - lock) + endPoleLength * lock)
    else
      s
  }

  /** The outputs after the stretch pass, starting from the rest lengths. */
  function AfterStretch(rig: Rig, length: Vec3 -> real): Scales
    requires PositiveLengths(rig)
  {
    StretchPass(Scales(rig.upInitLength, rig.loInitLength), CurLength(rig, length), ChainLength(rig), rig.stretch)
  }

  /** The outputs after the stretch and slide passes, before the lock pass. */
  function BeforeLock(rig: Rig, length: Vec3 -> real): Scales
    requires PositiveLengths(rig)
  {
    SlidePass(AfterStretch(rig, length), rig.upInitLength, rig.loInitLength, rig.globalScale, rig.slide)
  }

  /** Without a slide, the slide pass hands the stretched outputs to the lock pass unchanged. */
  lemma ZeroSlideKeepsStretch(rig: Rig, length: Vec3 -> real)
    requires PositiveLengths(rig) && rig.slide == 0.0
    ensures BeforeLock(rig, length) == AfterStretch(rig, length)
  {
  }

  /** The node's outputs: stretch, then slide, then lock. */
  function OutputScales(rig: Rig, length: Vec3 -> real): (r: Scales)
    requires PositiveLengths(rig)
    ensures rig.poleVectorLock <= Threshold ==> r == BeforeLock(rig, length)
    ensures rig.poleVectorLock == 1.0 ==> r == Scales(StartPoleLength(rig, length), EndPoleLength(rig, length))
  {
    LockPass(BeforeLock(rig, length), StartPoleLength(rig, length), EndPoleLength(rig, length), rig.poleVectorLock)
  }

  /**
    * One evaluation of the node. The two accumulators start at the rest lengths
    * and are overwritten by the stretch, slide and lock passes in that order.
    * Under the declared attribute ranges both outputs are non-negative.
    */
  method Compute(rig: Rig, length: Vec3 -> real) returns (upScaleOut: real, loScaleOut: real)
    requires PositiveLengths(rig)
    ensures Scales(upScaleOut, loScaleOut) == OutputScales(rig, length)
    ensures Measured(rig, length) && InAttributeRanges(rig) ==> 0.0 <= upScaleOut && 0.0 <= loScaleOut
  {
    var chainLength := rig.upInitLength + rig.loInitLength;

    var startVec := Translation(rig.startMatrix);
    var endVec := Translation(rig.endMatrix);
    var curLength := length(Sub(endVec, startVec)) / rig.globalScale;

    upScaleOut := rig.upInitLength;
    loScaleOut := rig.loInitLength;

    assert curLength == CurLength(rig, length) && chainLength == ChainLength(rig);
    upScaleOut, loScaleOut := ApplyStretch(upScaleOut, loScaleOut, curLength, chainLength, rig.stretch);
    assert Scales(upScaleOut, loScaleOut) == AfterStretch(rig, length);
    upScaleOut, loScaleOut := ApplySlide(upScaleOut, loScaleOut, rig.upInitLength, rig.loInitLength, rig.globalScale, rig.slide);
    assert Scales(upScaleOut, loScaleOut) == BeforeLock(rig, length);

    if rig.poleVectorLock > Threshold {
      var polePos := Translation(rig.poleVectorMatrix);
      var startPoleLength := length(Sub(polePos, startVec)) * rig.globalScale;
      var endPoleLength := length(Sub(polePos, endVec)) * rig.globalScale;
      assert startPoleLength == StartPoleLength(rig, length) && endPoleLength == EndPoleLength(rig, length);
      upScaleOut, loScaleOut := ApplyLock(upScaleOut, loScaleOut, startPoleLength, endPoleLength, rig.poleVectorLock);
    }

    NonNegativeWhenMeasured(rig, length);
  }

  /** The stretch pass of `Compute`, on the two accumulators. */
  method ApplyStretch(upScaleIn: real, loScaleIn: real, curLength: real, chainLength: real, stretch: real)
    returns (upScaleOut: real, loScaleOut: real)
    requires 0.0 < chainLength
    ensures Scales(upScaleOut, loScaleOut) == StretchPass(Scales(upScaleIn, loScaleIn), curLength, chainLength, stretch)
  {
    upScaleOut, loScaleOut := upScaleIn, loScaleIn;
    if stretch > Threshold {
      var delta := curLength / chainLength;
      if delta > 1.0 {
        delta := (delta - 1.0) * stretch + 1.0;
      } else {
        delta := 1.0;
      }
      upScaleOut := upScaleOut * delta;
      loScaleOut := loScaleOut * delta;
    }
  }

  /** The slide pass of `Compute`, on the two accumulators. */
  method ApplySlide(upScaleIn: real, loScaleIn: real, upInit: real, loInit: real, gScale: real, slide: real)
    returns (upScaleOut: real, loScaleOut: real)
    requires 0.0 < upInit && 0.0 < loInit && 0.0 < gScale
    ensures Scales(upScaleOut, loScaleOut) == SlidePass(Scales(upScaleIn, loScaleIn), upInit, loInit, gScale, slide)
  {
    var chainLength := upInit + loInit;
    var ratio, delta;
    if slide >= 0.0 {
      ratio := chainLength / (upInit * gScale);
      delta := (ratio - 1.0) * slide;
      upScaleOut := upScaleIn * (delta + 1.0);
      loScaleOut := loScaleIn * (1.0 - slide);
    } else {
      ratio := chainLength / (loInit * gScale);
      delta := (ratio - 1.0) * -slide;
      upScaleOut := upScaleIn * (delta + 1.0);
      loScaleOut := loScaleIn * (1.0 + slide);
    }
  }

  /** The interpolation step of the lock pass of `Compute`, applied above the threshold. */
  method ApplyLock(upScaleIn: real, loScaleIn: real, startPoleLength: real, endPoleLength: real, lock: real)
    returns (upScaleOut: real, loScaleOut: real)
    requires lock > Threshold
    ensures Scales(upScaleOut, loScaleOut) == LockPass(Scales(upScaleIn, loScaleIn), startPoleLength, endPoleLength, lock)
  {
    upScaleOut := (upScaleIn * (1.0 - lock)) + (startPoleLength * lock);
    loScaleOut := (loScaleIn * (1.0 - lock)) + (endPoleLength * lock);
  }

  /** Under the declared attribute ranges both outputs are non-negative. */
  /** `NonNegativeOutputs` as an implication, for callers that do not know its hypotheses hold. */
  lemma NonNegativeWhenMeasured(rig: Rig, length: Vec3 -> real)
    requires PositiveLengths(rig)
    ensures Measured(rig, length) && InAttributeRanges(rig) ==>
      0.0 <= OutputScales(rig, length).up && 0.0 <= OutputScales(rig, length).lo
  {
    if Measured(rig, length) && InAttributeRanges(rig) {
      NonNegativeOutputs(rig, length);
    }
  }

  lemma NonNegativeOutputs(rig: Rig, length: Vec3 -> real)
    requires Measured(rig, length) && InAttributeRanges(rig)
    ensures 0.0 <= OutputScales(rig, length).up && 0.0 <= OutputScales(rig, length).lo
  {
    var s := AfterStretch(rig, length);
    assert 0.0 <= CurLength(rig, length);
    assert 0.0 <= s.up && 0.0 <= s.lo;
    var b := BeforeLock(rig, length);
    SlideKeepsNonNegative(s, rig.upInitLength, rig.loInitLength, rig.globalScale, rig.slide);
    assert 0.0 <= StartPoleLength(rig, length) && 0.0 <= EndPoleLength(rig, length);
    LockBlend(b, StartPoleLength(rig, length), EndPoleLength(rig, length), rig.poleVectorLock);
  }

  /** Over the declared slide range, the slide pass keeps both outputs non-negative. */
  lemma SlideKeepsNonNegative(s: Scales, upInit: real, loInit: real, gScale: real, slide: real)
    requires 0.0 < upInit && 0.0 < loInit && 0.0 < gScale && -1.0 <= slide <= 1.0
    requires 0.0 <= s.up && 0.0 <= s.lo
    ensures 0.0 <= SlidePass(s, upInit, loInit, gScale, slide).up
    ensures 0.0 <= SlidePass(s, upInit, loInit, gScale, slide).lo
  {
    var chainLength := upInit + loInit;
    if slide >= 0.0 {
      var ratio := chainLength / (upInit * gScale);
      DivNonNeg(chainLength, upInit * gScale);
      MulNonNeg(ratio, slide);
      MulNonNeg(s.up, (ratio - 1.0) * slide + 1.0);
      MulNonNeg(s.lo, 1.0 - slide);
    } else {
      var ratio := chainLength / (loInit * gScale);
      DivNonNeg(chainLength, loInit * gScale);
      MulNonNeg(ratio, -slide);
      MulNonNeg(s.up, (ratio - 1.0) * -slide + 1.0);
      MulNonNeg(s.lo, 1.0 + slide);
    }
  }

  /**
    * The lock pass blends each output toward its pole distance: above the threshold
    * each output is the linear interpolation, which for a control in [0, 1] lies
    * between the pre-lock value and the pole distance and reaches the pole distance
    * at 1; at or below the threshold nothing changes.
    */
  lemma LockBlend(s: Scales, startPoleLength: real, endPoleLength: real, lock: real)
    requires 0.0 <= lock <= 1.0
    ensures var r := LockPass(s, startPoleLength, endPoleLength, lock);
      && Between(r.up, s.up, startPoleLength)
      && Between(r.lo, s.lo, endPoleLength)
      && (lock > Threshold ==> r.up == s.up * (1.0 - lock) + startPoleLength * lock)
      && (lock > Threshold ==> r.lo == s.lo * (1.0 - lock) + endPoleLength * lock)
      && (lock == 1.0 ==> r == Scales(startPoleLength, endPoleLength))
      && (lock <= Threshold ==> r == s)
  {
    if lock > Threshold {
      InterpolationBetween(s.up, startPoleLength, lock);
      InterpolationBetween(s.lo, endPoleLength, lock);
    }
  }

  /** `x` lies on the closed segment between `a` and `b`. */
  predicate Between(x: real, a: real, b: real) {
    (a <= x <= b) || (b <= x <= a)
  }

  lemma InterpolationBetween(a: real, b: real, t: real)
    requires 0.0 <= t <= 1.0
    ensures Between(a * (1.0 - t) + b * t, a, b)
  {
    if a <= b {
      OrderedInterpolation(a, b, t);
    } else {
      OrderedInterpolation(b, a, t);
    }
  }
}
