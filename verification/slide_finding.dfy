/**
  * The slide pass for a negative slide, as written and as evidently intended.
  *
  * For a negative slide the code takes the slide ratio over the lower rest length
  * instead of the upper one (stretchyIK.cpp:218). That ratio measures how much
  * the lower segment would have to grow to take the whole chain, so the branch
  * evidently means the lower segment to grow, mirroring the non-negative branch.
  * The code still applies that growth to the upper output and scales the lower
  * one by 1 + slide, so at a global scale of at most 1 the upper segment grows and
  * the lower one shrinks whatever the sign of the slide.
  * This module exhibits the consequences on the model of the code as written, and
  * proves the mirror symmetry of a slide pass whose negative branch really swaps
  * the roles.
  */
module SlideFinding {
  import opened Geometry
  import opened RealArith
  import opened StretchyIK

  /** The same rig seen from the other end: ends, rest lengths and slide direction swapped. */
  function Mirror(rig: Rig): Rig {
    rig.(startMatrix := rig.endMatrix, endMatrix := rig.startMatrix,
         upInitLength := rig.loInitLength, loInitLength := rig.upInitLength,
         slide := -rig.slide)
  }

  /** The two outputs exchanged. */
  function Swap(s: Scales): Scales {
    Scales(s.lo, s.up)
  }

  // ---------------------------------------------------------------------------
  // As written

  /**
    * With equal rest lengths the code's slide pass ignores the sign of the
    * control: a slide of -x does exactly what a slide of x does.
    */
  lemma SlideSignIgnoredAsWritten(s: Scales, restLength: real, gScale: real, slide: real)
    requires 0.0 < restLength && 0.0 < gScale
    ensures SlidePass(s, restLength, restLength, gScale, -slide) == SlidePass(s, restLength, restLength, gScale, slide)
  {
    var ratio := (restLength + restLength) / (restLength * gScale);
    if slide > 0.0 {
      assert UpSlideFactor(restLength, restLength, gScale, -slide) == (ratio - 1.0) * slide + 1.0;
    } else if slide < 0.0 {
      assert UpSlideFactor(restLength, restLength, gScale, slide) == (ratio - 1.0) * -slide + 1.0;
    }
  }

  /**
    * Mirroring a rig with rest lengths 5 and 5 and a half slide does not swap the
    * outputs: both rigs give 7.5 for the upper segment and 2.5 for the lower.
    */
  lemma MirrorNotSwappedAsWritten(rig: Rig, length: Vec3 -> real)
    requires rig.upInitLength == 5.0 && rig.loInitLength == 5.0 && rig.globalScale == 1.0
    requires rig.stretch == 0.0 && rig.slide == 0.5 && rig.poleVectorLock == 0.0
    ensures OutputScales(rig, length) == Scales(7.5, 2.5)
    ensures OutputScales(Mirror(rig), length) == Scales(7.5, 2.5)
    ensures OutputScales(Mirror(rig), length) != Swap(OutputScales(rig, length))
  {
    assert AfterStretch(rig, length) == Scales(5.0, 5.0);
    assert AfterStretch(Mirror(rig), length) == Scales(5.0, 5.0);
    assert SlidePass(Scales(5.0, 5.0), 5.0, 5.0, 1.0, 0.5) == Scales(7.5, 2.5);
    assert SlidePass(Scales(5.0, 5.0), 5.0, 5.0, 1.0, -0.5) == Scales(7.5, 2.5);
  }

  /**
    * At unit global scale a full positive slide hands the whole chain to the upper
    * segment, but a full negative slide on rest lengths 2 and 1 does not hand it to
    * the lower one: the upper output becomes 6, twice the chain length, and the
    * lower one 0.
    */
  lemma FullNegativeSlideAsWritten()
    ensures SlidePass(Scales(2.0, 1.0), 2.0, 1.0, 1.0, 1.0) == Scales(3.0, 0.0)
    ensures SlidePass(Scales(2.0, 1.0), 2.0, 1.0, 1.0, -1.0) == Scales(6.0, 0.0)
  {
    assert UpSlideFactor(2.0, 1.0, 1.0, 1.0) == 1.5;
    assert UpSlideFactor(2.0, 1.0, 1.0, -1.0) == 3.0;
  }

  // ---------------------------------------------------------------------------
  // Corrected

  /**
    * The multiplier of the segment a slide of size `amount` favours, `pivot` being
    * that segment's rest length: 1 plus `amount` times how much the slide ratio
    * exceeds 1.
    */
  function Growth(pivot: real, chainLength: real, gScale: real, amount: real): real
    requires 0.0 < pivot && 0.0 < gScale
  {
    (SlideRatio(pivot, chainLength, gScale) - 1.0) * amount + 1.0
  }

  /**
    * The slide pass with the roles of the segments swapped for a negative slide:
    * the lower output grows by the ratio of the chain to its own scaled rest
    * length and the upper one shrinks by 1 + slide. No slide changes nothing, and
    * a non-negative slide does exactly what the code does.
    */
  function SlidePassCorrected(s: Scales, upInit: real, loInit: real, gScale: real, slide: real): (r: Scales)
    requires 0.0 < upInit && 0.0 < loInit && 0.0 < gScale
    ensures slide == 0.0 ==> r == s
    ensures 0.0 <= slide ==> r == SlidePass(s, upInit, loInit, gScale, slide)
  {
    var chainLength := upInit + loInit;
    if slide >= 0.0 then
      Scales(s.up * Growth(upInit, chainLength, gScale, slide), s.lo * (1.0 - slide))
    else
      Scales(s.up * (1.0 + slide), s.lo * Growth(loInit, chainLength, gScale, -slide))
  }

  /**
    * Slide symmetry: sliding by -x with the rest lengths and the outputs swapped
    * gives the swapped result of sliding by x.
    */
  lemma SlideCorrectedMirror(s: Scales, upInit: real, loInit: real, gScale: real, slide: real)
    requires 0.0 < upInit && 0.0 < loInit && 0.0 < gScale
    ensures SlidePassCorrected(Swap(s), loInit, upInit, gScale, -slide)
      == Swap(SlidePassCorrected(s, upInit, loInit, gScale, slide))
  {
    var chainLength := upInit + loInit;
    assert loInit + upInit == chainLength;
    if slide == 0.0 {
      assert Growth(upInit, chainLength, gScale, 0.0) == 1.0;
      assert Growth(loInit, chainLength, gScale, 0.0) == 1.0;
    }
  }

  /**
    * The sign of the slide picks the segment that grows: over [-1, 1] and with a
    * global scale of at most 1, a non-negative slide never shrinks the upper output
    * nor grows the lower one, and a negative slide never grows the upper output
    * nor shrinks the lower one.
    */
  lemma SlideCorrectedFavours(s: Scales, upInit: real, loInit: real, gScale: real, slide: real)
    requires 0.0 < upInit && 0.0 < loInit && 0.0 < gScale <= 1.0 && -1.0 <= slide <= 1.0
    requires 0.0 <= s.up && 0.0 <= s.lo
    ensures var r := SlidePassCorrected(s, upInit, loInit, gScale, slide);
      && (0.0 <= slide ==> s.up <= r.up && r.lo <= s.lo)
      && (slide < 0.0 ==> r.up <= s.up && s.lo <= r.lo)
  {
    var chainLength := upInit + loInit;
    if 0.0 <= slide {
      GrowthAtLeastOne(upInit, chainLength, gScale, slide);
      var k := Growth(upInit, chainLength, gScale, slide);
      assert SlidePassCorrected(s, upInit, loInit, gScale, slide) == Scales(s.up * k, s.lo * (1.0 - slide));
      GrowsAndShrinks(s.up, k, s.lo, 1.0 - slide);
    } else {
      GrowthAtLeastOne(loInit, chainLength, gScale, -slide);
      var k := Growth(loInit, chainLength, gScale, -slide);
      assert SlidePassCorrected(s, upInit, loInit, gScale, slide) == Scales(s.up * (1.0 + slide), s.lo * k);
      GrowsAndShrinks(s.lo, k, s.up, 1.0 + slide);
    }
  }

  /** The growth multiplier of the favoured segment is at least 1. */
  lemma GrowthAtLeastOne(pivot: real, chainLength: real, gScale: real, amount: real)
    requires 0.0 < pivot < chainLength && 0.0 < gScale <= 1.0 && 0.0 <= amount
    ensures 1.0 <= Growth(pivot, chainLength, gScale, amount)
  {
    SlideRatioBounds(pivot, chainLength, gScale);
    MulNonNeg(SlideRatio(pivot, chainLength, gScale) - 1.0, amount);
  }

  /**
    * At unit global scale the corrected slide only moves length between the
    * segments: starting from the rest lengths, the two outputs still add up to the
    * chain length, and a full slide either way hands the whole chain to one side.
    */
  lemma SlideCorrectedKeepsChain(upInit: real, loInit: real, slide: real)
    requires 0.0 < upInit && 0.0 < loInit
    ensures var r := SlidePassCorrected(Scales(upInit, loInit), upInit, loInit, 1.0, slide);
      && r.up + r.lo == upInit + loInit
      && (slide == 1.0 ==> r == Scales(upInit + loInit, 0.0))
      && (slide == -1.0 ==> r == Scales(0.0, upInit + loInit))
  {
    var chainLength := upInit + loInit;
    if slide >= 0.0 {
      KeepsChain(upInit, loInit, slide);
    } else {
      KeepsChain(loInit, upInit, -slide);
      assert loInit + upInit == chainLength;
    }
  }

  /**
    * The favoured segment, of rest length `grow`, gains exactly what the other one,
    * of rest length `shrink`, loses.
    */
  lemma KeepsChain(grow: real, shrink: real, amount: real)
    requires 0.0 < grow && 0.0 < shrink
    ensures grow * Growth(grow, grow + shrink, 1.0, amount) + shrink * (1.0 - amount) == grow + shrink
  {
    var ratio := (grow + shrink) / (grow * 1.0);
    assert grow * ratio == grow + shrink;
    calc {
      grow * Growth(grow, grow + shrink, 1.0, amount);
      grow * ((ratio - 1.0) * amount + 1.0);
      (grow * ratio - grow) * amount + grow;
      shrink * amount + grow;
    }
  }

  /**
    * The node's outputs with the corrected slide pass: the same as the code's for
    * a non-negative slide, and the pole distances at full lock.
    */
  function OutputScalesCorrected(rig: Rig, length: Vec3 -> real): (r: Scales)
    requires PositiveLengths(rig)
    ensures 0.0 <= rig.slide ==> r == OutputScales(rig, length)
    ensures rig.poleVectorLock == 1.0 ==> r == Scales(StartPoleLength(rig, length), EndPoleLength(rig, length))
  {
    var b := SlidePassCorrected(AfterStretch(rig, length), rig.upInitLength, rig.loInitLength, rig.globalScale, rig.slide);
    LockPass(b, StartPoleLength(rig, length), EndPoleLength(rig, length), rig.poleVectorLock)
  }

  /**
    * Evaluating the mirrored rig gives the swapped outputs, whatever the stretch,
    * slide and lock, once `length` is the Euclidean length on the vectors both
    * rigs measure.
    */
  lemma EvaluateCorrectedMirror(rig: Rig, length: Vec3 -> real)
    requires PositiveLengths(rig) && Measured(rig, length) && Measured(Mirror(rig), length)
    ensures OutputScalesCorrected(Mirror(rig), length) == Swap(OutputScalesCorrected(rig, length))
  {
    CurLengthMirror(rig, length);
    PoleLengthsMirror(rig, length);
    MirrorByPasses(rig, length);
  }

  /** The mirrored rig measures the same span. */
  lemma CurLengthMirror(rig: Rig, length: Vec3 -> real)
    requires PositiveLengths(rig) && EuclideanAt(length, Span(rig)) && EuclideanAt(length, Span(Mirror(rig)))
    ensures CurLength(Mirror(rig), length) == CurLength(rig, length)
  {
    LengthSymmetric(length, Translation(rig.endMatrix), Translation(rig.startMatrix));
    assert Span(Mirror(rig)) == Sub(Translation(rig.startMatrix), Translation(rig.endMatrix));
  }

  /** The mirrored rig's pole distances are the original's, exchanged. */
  lemma PoleLengthsMirror(rig: Rig, length: Vec3 -> real)
    ensures StartPoleLength(Mirror(rig), length) == EndPoleLength(rig, length)
    ensures EndPoleLength(Mirror(rig), length) == StartPoleLength(rig, length)
  {
    assert StartToPole(Mirror(rig)) == EndToPole(rig) && EndToPole(Mirror(rig)) == StartToPole(rig);
  }

  /** Each pass commutes with mirroring once the measured lengths correspond. */
  lemma MirrorByPasses(rig: Rig, length: Vec3 -> real)
    requires PositiveLengths(rig)
    requires CurLength(Mirror(rig), length) == CurLength(rig, length)
    requires StartPoleLength(Mirror(rig), length) == EndPoleLength(rig, length)
    requires EndPoleLength(Mirror(rig), length) == StartPoleLength(rig, length)
    ensures OutputScalesCorrected(Mirror(rig), length) == Swap(OutputScalesCorrected(rig, length))
  {
    var m := Mirror(rig);
    var a := AfterStretch(rig, length);
    var b := SlidePassCorrected(a, rig.upInitLength, rig.loInitLength, rig.globalScale, rig.slide);
    StretchMirror(rig, length);
    SlideCorrectedMirror(a, rig.upInitLength, rig.loInitLength, rig.globalScale, rig.slide);
    assert SlidePassCorrected(AfterStretch(m, length), m.upInitLength, m.loInitLength, m.globalScale, m.slide) == Swap(b);
    LockPassMirror(b, StartPoleLength(rig, length), EndPoleLength(rig, length), rig.poleVectorLock);
  }

  /** Swapping the outputs and the pole distances swaps the lock pass's result. */
  lemma LockPassMirror(s: Scales, startPoleLength: real, endPoleLength: real, lock: real)
    ensures LockPass(Swap(s), endPoleLength, startPoleLength, lock) == Swap(LockPass(s, startPoleLength, endPoleLength, lock))
  {
  }

  /** The stretch pass scales both outputs alike, so it commutes with mirroring. */
  lemma StretchMirror(rig: Rig, length: Vec3 -> real)
    requires PositiveLengths(rig)
    requires CurLength(Mirror(rig), length) == CurLength(rig, length)
    ensures AfterStretch(Mirror(rig), length) == Swap(AfterStretch(rig, length))
  {
    assert ChainLength(Mirror(rig)) == ChainLength(rig);
  }
}
