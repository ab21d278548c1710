# stretchyIK in Dafny

A model of the evaluation of the `stretchyIK` Maya dependency node. The node
computes two scale factors for a two-bone IK chain, such as an upper and a
lower limb. Its inputs are:

- a start, an end and a pole-vector matrix;
- the rest lengths of the two segments (`upInitLength`, `loInitLength`);
- a global scale;
- three controls: `stretch`, `slide` and `poleVectorLock`.

The outputs (`outputUpScale`, `outputLoScale`) start at the rest lengths and
go through three passes, always in this order:

1. **Stretch.** Only above a stretch of 0.001. Both outputs are multiplied by
   one common factor. That factor is above 1 only when the measured start-to-end
   distance, divided by the global scale, exceeds the rest chain length.
2. **Slide.** Always applied. Both outputs are multiplied by factors that
   depend on the sign of `slide`.
3. **Lock.** Only above a lock of 0.001. Each output is blended linearly toward
   the distance from the pole vector to the matching end of the chain, and that
   distance is multiplied by the global scale.

Files:

- `stretchy_ik.dfy` (module `StretchyIK`) holds the model. The function
  `OutputScales` is the node's result, built as one function per pass. The
  method `Compute` is the node's straight-line body: two accumulators, each pass
  a method that overwrites them. `Compute` is proved equal to `OutputScales`.
- `properties.dfy` (module `StretchyIKProperties`) holds what each pass and the
  whole evaluation promise.
- `slide_finding.dfy` (module `SlideFinding`) holds the finding below.
- `geometry.dfy` and `real_arith.dfy` are supporting modules.

Details of the model:

- **Matrices** are 4x4 row-major, as the host stores them. Only the
  translation row `[3][0..2]` is read.
- **Vector length** is a parameter `length: Vec3 -> real`. Where a property
  depends on geometry, `Measured` requires it to be the Euclidean length on the
  three vectors the node measures: non-negative, and its square is the sum of the
  squared components.
- **Attribute ranges** declared by the node are the predicate
  `InAttributeRanges`: rest lengths and global scale at least 0.001, stretch and
  lock in [0, 1], slide in [-1, 1].
- **Global scale.** The lock pass multiplies the pole distances by the global
  scale, while the stretch pass divides the measured length by it. The model
  keeps both exactly as written.

For a negative slide the code takes the slide ratio over the lower rest length
(stretchyIK.cpp:218), which only makes sense if the lower segment is the one
meant to grow. It still applies that growth to the upper output and multiplies
the lower one by 1 + slide (stretchyIK.cpp:220-221). So at a global scale of at
most 1 the upper segment grows and the lower one shrinks, whatever the sign of
the slide. The model follows the code. `StretchyIKProperties.SlideFactors` and
`StretchyIKProperties.SlideFavoursUpper` state what it does, and the Findings
section below records the discrepancy.

## Model

| member | source | states |
|---|---|---|
| StretchyIK.Compute | stretchyIK.cpp:176-236 | the two accumulators after the stretch, slide and lock passes equal `OutputScales`; under the declared attribute ranges and a Euclidean length both outputs are non-negative |
| StretchyIK.ApplyStretch | stretchyIK.cpp:193-209 | the stretch step on the accumulators: above the 0.001 threshold both are multiplied by the stretch factor, otherwise they are left alone |
| StretchyIK.ApplySlide | stretchyIK.cpp:212-222 | the slide step on the accumulators, with the ratio taken over the upper rest length for slide >= 0 and over the lower one otherwise |
| StretchyIK.ApplyLock | stretchyIK.cpp:235-236 | the interpolation step: each accumulator becomes itself times (1 - lock) plus its pole distance times lock |
| StretchyIK.OutputScales | stretchyIK.cpp:176-236 | the node's outputs, computed as the stretch, slide and lock passes from the rest lengths; with the lock at or below 0.001 they are the stretched-and-slid values, and at lock 1 they are exactly the two scaled pole distances |
| StretchyIK.InAttributeRanges | stretchyIK.cpp:80-117 | states the declared minimum and maximum of every numeric input: rest lengths and global scale at least 0.001, stretch and lock in [0, 1], slide in [-1, 1] (used as the hypothesis of `NonNegativeOutputs` and the monotonicity lemmas) |
| Geometry.Translation | stretchyIK.cpp:180-181 | computes the vector of the entries [3][0], [3][1] and [3][2] of a matrix (its properties are in `Geometry.TranslationIgnoresOtherEntries`) |
| StretchyIK.ChainLength | stretchyIK.cpp:176 | computes the chain's rest length as the sum of the two rest lengths (the bounds the slide ratio takes from it are in `SlideRatioBounds`) |
| StretchyIK.Span | stretchyIK.cpp:180-184 | computes the vector from the start translation to the end translation (its measured length is `CurLength`, whose properties are in `CurLengthInRestUnits`) |
| StretchyIK.StartToPole | stretchyIK.cpp:226-229 | computes the vector from the start translation to the pole translation (its properties are in `PoleLengthsInWorldUnits` and `SlideFinding.PoleLengthsMirror`) |
| StretchyIK.EndToPole | stretchyIK.cpp:226-230 | computes the vector from the end translation to the pole translation (its properties are in `PoleLengthsInWorldUnits` and `SlideFinding.PoleLengthsMirror`) |
| StretchyIK.AfterStretch | stretchyIK.cpp:188-209 | computes the two accumulators after the stretch pass, as `StretchPass` applied to the rest lengths (the properties of that pass are in `StretchUniformFactor` and `StretchPassMonotone`) |
| StretchyIK.BeforeLock | stretchyIK.cpp:188-222 | computes the two accumulators after the stretch and slide passes, the values the lock pass blends from (its properties are in `LockedOutputs` and `BeforeLockMonotoneInStretch`) |
| StretchyIK.CurLength | stretchyIK.cpp:184-185 | computes the length of the start-to-end vector divided by the global scale (its properties are in `CurLengthInRestUnits`) |
| StretchyIK.CurLengthInRestUnits | stretchyIK.cpp:184-185 | with a Euclidean length the current length is non-negative, and multiplied back by the global scale it is the measured start-to-end distance |
| StretchyIK.StartPoleLength | stretchyIK.cpp:226-231 | computes the length of the start-to-pole vector times the global scale (its properties are in `PoleLengthsInWorldUnits`) |
| StretchyIK.EndPoleLength | stretchyIK.cpp:226-232 | computes the length of the end-to-pole vector times the global scale (its properties are in `PoleLengthsInWorldUnits`) |
| StretchyIK.PoleLengthsInWorldUnits | stretchyIK.cpp:229-232 | with a Euclidean length and a positive global scale both pole distances are non-negative, and each squared is the squared Euclidean distance to the pole times the square of the global scale |
| StretchyIK.StretchFactor | stretchyIK.cpp:196-205 | the stretch factor is at least 1 for a non-negative control, and exactly 1 when the measured length does not exceed the chain length |
| StretchyIK.StretchPass | stretchyIK.cpp:193-209 | the stretch pass keeps the proportion between the two outputs, and leaves them unchanged when the control is at or below 0.001 or the chain is not longer than at rest |
| StretchyIK.SlideRatio | stretchyIK.cpp:213 | computes the chain's rest length over a segment's rest length times the global scale (its bounds are in `SlideRatioBounds`) |
| StretchyIK.SlideRatioBounds | stretchyIK.cpp:213-218 | the slide ratio of either segment is non-negative, and at least 1 when the global scale is at most 1 |
| StretchyIK.UpSlideFactor | stretchyIK.cpp:212-220 | the upper output's slide multiplier is 1 when there is no slide (its exact form and bounds are in `SlideFactors`) |
| StretchyIK.LoSlideFactor | stretchyIK.cpp:216-221 | the lower output's slide multiplier is never above 1, is non-negative over slide in [-1, 1], and is 1 exactly when the slide is 0 |
| StretchyIK.SlidePass | stretchyIK.cpp:212-222 | the slide pass, applied even at zero slide, leaves the outputs unchanged when the slide is 0 |
| StretchyIK.ZeroSlideKeepsStretch | stretchyIK.cpp:212-222 | with no slide the slide pass, which runs unconditionally, hands the stretched outputs to the lock pass unchanged |
| StretchyIK.LockPass | stretchyIK.cpp:225-236 | the lock pass leaves the outputs unchanged at or below the 0.001 threshold and gives exactly the two pole distances at lock 1 |
| StretchyIK.NonNegativeOutputs | stretchyIK.cpp:193-236 | with every input in its declared range and a Euclidean length, both outputs are non-negative |
| StretchyIK.SlideKeepsNonNegative | stretchyIK.cpp:212-222 | over slide in [-1, 1], the slide pass maps non-negative outputs to non-negative outputs, in both branches |
| StretchyIK.LockBlend | stretchyIK.cpp:225-236 | for lock in [0, 1] each output lies between its pre-lock value and its pole distance; above the threshold it is the linear interpolation; at lock 1 it is exactly the pole distance; at or below the threshold nothing changes |
| StretchyIK.InterpolationBetween | stretchyIK.cpp:235-236 | a blend a(1 - t) + bt with t in [0, 1] lies between a and b |
| Geometry.TranslationIgnoresOtherEntries | stretchyIK.cpp:180-181 | writing any matrix entry other than [3][0], [3][1] or [3][2] leaves the translation the node reads unchanged |
| Geometry.LengthSymmetric | stretchyIK.cpp:184-185 | the Euclidean length from a to b equals the length from b to a |
| Geometry.LengthFromSquare | stretchyIK.cpp:184-185 | a vector whose squared components add up to d * d, with d >= 0, has Euclidean length d |
| StretchyIKProperties.NeutralIdentity | stretchyIK.cpp:188-225 | with stretch and lock at or below 0.001 and no slide, the outputs are exactly the two rest lengths, for any matrices and global scale |
| StretchyIKProperties.StretchUniformFactor | stretchyIK.cpp:193-209 | the stretch pass multiplies both outputs by one common factor that is at least 1, and changes nothing when the chain is not longer than at rest |
| StretchyIKProperties.StretchNeverShrinks | stretchyIK.cpp:193-209 | the stretch pass never makes a non-negative output smaller |
| StretchyIKProperties.FullStretch | stretchyIK.cpp:196-208 | at stretch 1 on an over-long chain both outputs are multiplied by exactly the measured length over the chain length |
| StretchyIKProperties.StretchFactorMonotone | stretchyIK.cpp:196-205 | for a fixed chain the stretch factor does not decrease as the stretch control grows |
| StretchyIKProperties.StretchPassMonotone | stretchyIK.cpp:193-209 | raising a non-negative stretch control never lowers either output of the stretch pass |
| StretchyIKProperties.SlideFactors | stretchyIK.cpp:212-222 | the lower output is multiplied by 1 - abs(slide) and the upper one by 1 + (ratio - 1) abs(slide), the ratio being over the upper rest length for slide >= 0 and the lower one otherwise; over [-1, 1] both multipliers are non-negative and the lower one is at most 1; with global scale at most 1 the upper one is at least 1 |
| StretchyIKProperties.SlideFavoursUpper | stretchyIK.cpp:212-222 | over slide in [-1, 1] with global scale at most 1, the slide pass never shrinks the upper output and never grows the lower one, whatever the sign of the slide |
| StretchyIKProperties.SlidePassMonotone | stretchyIK.cpp:212-222 | over slide in [-1, 1], larger outputs before the slide pass stay larger after it |
| StretchyIKProperties.LockPassMonotone | stretchyIK.cpp:235-236 | over lock in [0, 1], larger outputs before the lock pass stay larger after it |
| StretchyIKProperties.LockedOutputs | stretchyIK.cpp:225-236 | for lock in [0, 1], each of the node's outputs lies between its stretched-and-slid value and its scaled pole distance |
| StretchyIKProperties.OutputsMonotoneInStretch | stretchyIK.cpp:193-236 | under the declared ranges, raising the stretch control with every other input fixed never lowers either output |
| StretchyIKProperties.BeforeLockMonotoneInStretch | stretchyIK.cpp:193-222 | under the declared ranges, raising the stretch control never lowers either output of the stretch and slide passes |
| StretchyIKProperties.PoleIgnoredBelowThreshold | stretchyIK.cpp:225-226 | with lock at or below 0.001, replacing the pole-vector matrix changes neither output |
| StretchyIKProperties.OutputsDependOnlyOnTranslations | stretchyIK.cpp:180-232 | two evaluations whose three matrices have the same translations and whose other inputs agree give the same outputs |
| StretchyIKProperties.OnlyTranslationRead | stretchyIK.cpp:180-226 | writing any entry of the start, end or pole-vector matrix other than [3][0..2] leaves both outputs unchanged |
| StretchyIKProperties.ExampleFullStretch | stretchyIK.cpp:184-209 | rest lengths 5 and 5, global scale 1, ends at (0, 0, 0) and (12, 0, 0), stretch 1, with a Euclidean length: both outputs are 6 |
| StretchyIKProperties.ExampleHalfSlide | stretchyIK.cpp:212-216 | rest lengths 5 and 5, global scale 1, slide 0.5: the outputs are 7.5 and 2.5 |
| StretchyIKProperties.ExampleFullLock | stretchyIK.cpp:225-236 | rest lengths 5 and 5, global scale 1, ends at (0, 0, 0) and (12, 0, 0), pole at (6, 8, 0), lock 1, with a Euclidean length: the pole is 10 from both ends and both outputs are 10 |
| SlideFinding.SlideSignIgnoredAsWritten | stretchyIK.cpp:212-222 | as written, with equal rest lengths a slide of -x gives exactly what a slide of x gives |
| SlideFinding.MirrorNotSwappedAsWritten | stretchyIK.cpp:212-222 | as written, mirroring a rig with rest lengths 5 and 5 and slide 0.5 gives (7.5, 2.5) again, not the swapped (2.5, 7.5) |
| SlideFinding.FullNegativeSlideAsWritten | stretchyIK.cpp:212-222 | as written, with rest lengths 2 and 1 at global scale 1, slide 1 gives (3, 0) but slide -1 gives (6, 0) |
| SlideFinding.SlidePassCorrected | stretchyIK.cpp:212-222 | the corrected slide pass leaves the outputs unchanged at zero slide and equals the code's slide pass for every slide >= 0 |
| SlideFinding.OutputScalesCorrected | stretchyIK.cpp:176-236 | the outputs with the corrected slide pass equal the code's for every slide >= 0, and are the two scaled pole distances at lock 1 |
| SlideFinding.SlideCorrectedMirror | stretchyIK.cpp:212-222 | corrected slide by -x, with the rest lengths and outputs swapped, gives the swapped result of slide by x |
| SlideFinding.SlideCorrectedFavours | stretchyIK.cpp:212-222 | corrected, with global scale at most 1, a non-negative slide grows the upper output and shrinks the lower one, and a negative slide does the opposite |
| SlideFinding.GrowthAtLeastOne | stretchyIK.cpp:213-215 | the multiplier of the favoured segment is at least 1 when the global scale is at most 1 |
| SlideFinding.SlideCorrectedKeepsChain | stretchyIK.cpp:212-222 | corrected, at global scale 1 and starting from the rest lengths, the outputs add up to the chain length; slide 1 gives the whole chain to the upper segment and slide -1 gives it to the lower one |
| SlideFinding.EvaluateCorrectedMirror | stretchyIK.cpp:176-236 | with the corrected slide pass and a Euclidean length, evaluating the mirrored rig (ends, rest lengths and slide sign swapped) gives the swapped outputs, for any stretch and lock |
| SlideFinding.CurLengthMirror | stretchyIK.cpp:184-185 | the mirrored rig measures the same start-to-end length |
| SlideFinding.PoleLengthsMirror | stretchyIK.cpp:229-232 | the mirrored rig's two pole distances are the original's, exchanged |
| SlideFinding.StretchMirror | stretchyIK.cpp:193-209 | the stretch pass commutes with mirroring |
| SlideFinding.LockPassMirror | stretchyIK.cpp:235-236 | the lock pass commutes with swapping the outputs and the pole distances |
| SlideFinding.MirrorByPasses | stretchyIK.cpp:193-236 | when the measured lengths correspond, the corrected evaluation of the mirrored rig is the swapped evaluation |

## Left out

- `stretchyIK::initialize` (stretchyIK.cpp:54-153) creates attributes, sets keyable and storable flags, and wires `attributeAffects`. All of this is host registration and is not modelled. Only its minimum and maximum values appear, as `InAttributeRanges`.
- Reading inputs from the data block, the plug check, and writing and cleaning the outputs (stretchyIK.cpp:158-173, 240-244) are host I/O. The inputs become the `Rig` value. The outputs are `Compute`'s two results.
- `MVector::length` needs a square root, which Dafny reals cannot define. It is the parameter `length`, characterised by `EuclideanAt` only where a property needs it.
- Double-precision rounding, infinities and NaN are not modelled. Arithmetic is on exact reals.
- Compute: requires positive rest lengths and a positive global scale, because the source divides by them. With a zero divisor the source would produce an infinity or NaN, which reals cannot represent. The model assumes the host keeps these three inputs at or above their declared minimum of 0.001 (stretchyIK.cpp:83, 89, 95); their declared defaults are 0 (stretchyIK.cpp:80, 86, 92), below that minimum, and with that default the source would divide by zero at stretchyIK.cpp:185, 196 and 213 or 218.
- stretchyIK.h (declarations only) and pluginMain.cpp (plugin registration with the host) are not part of this model.

## Findings

| source | as written | input that shows it | evidently intended | confidence | as-written member | corrected member |
|---|---|---|---|---|---|---|
| stretchyIK.cpp:217-222 | for slide < 0 the upper output is multiplied by 1 + (chainLength / (loInitLength * globalScale) - 1) * (-slide) and the lower one by 1 + slide, so at a global scale of at most 1 the upper segment still grows and the lower one still shrinks | rest lengths 5 and 5, global scale 1, stretch 0, lock 0: slide 0.5 and slide -0.5 both give (7.5, 2.5); rest lengths 2 and 1 with slide -1 give (6, 0), twice the chain length of 3 | the mirror image of the slide >= 0 branch: the lower output multiplied by 1 + (chainLength / (loInitLength * globalScale) - 1) * (-slide) and the upper one by 1 + slide, so that a negative slide favours the lower segment whose rest length line 218 divides by, and the mirrored rig gives the swapped outputs | not executed | SlideFinding.MirrorNotSwappedAsWritten | SlideFinding.EvaluateCorrectedMirror |
