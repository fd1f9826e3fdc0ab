# Mitsuba render-target mask and shadow estimators

A model of the two radiance estimators ("integrators") that this Mitsuba
fork adds for compositing an object into a photograph:

- the **mask estimator** (`mask_integrator::Li`) returns white when the
  first surface a camera ray meets is tagged as the *render target*, and
  black otherwise;
- the **shadow estimator** (`shadow_integrator::Li`) makes render-target
  surfaces transparent, and when the surface behind them is tagged as the
  *ground* it draws one direct-light sample and asks whether the light is
  blocked by the render target specifically. It returns the throughput
  times the light value for "blocked by the target", the throughput for
  "not a ground surface", "nothing hit" or "lit / blocked by something
  else", and black on every branch that stops early.

The scene along a ray is a finite, distance-ordered sequence of `Hit`
records carrying the surface flags the estimators test (render target,
ground, emitter, smooth BSDF, and the outcome of the strict-normals test).
Re-intersecting just past surface `i` yields surface `i + 1`. The light
sample and the occlusion test ray are an input record (`DirectSample`)
that the estimator consults only on the branch where the source calls
`sampleEmitterDirect`. `Spectrum` is three real channels.

Files: `spectrum.dfy` (module `Spectra`), `scene.dfy` (module `Scene`:
hit records, configuration, the pass-through landing index),
`shadow.dfy` (module `ShadowIntegrator`), `mask.dfy` (module
`MaskIntegrator`).

The shadow estimator is an imperative method (`ShadowIntegrator.Li`) with
the source's pass-through `while` loop. It is proved equal to a reference
function (`ShadowPath`, the branch taken, and `Radiance`, the colour of
each branch), and the properties below are lemmas about that reference.
A ghost out-parameter `drew` marks the point where the light is sampled,
so that "no light sample is drawn" is stated about the method too.

With `maxDepth == 0` a ray at depth 0 is still sampled: the guard at
`shadow_integrator.cpp:86` needs `maxDepth > 0`
(`ShadowZeroMaxDepthSamples`).

## Model

| member | source | states |
|---|---|---|
| `Scene.PassThrough` | src/integrators/shadow_integrator/shadow_integrator.cpp:63-68 | the landing index is the first surface that is not a render target, or the end of the scene when only render targets remain |
| `Scene.PassThroughSkipsTargets` | src/integrators/shadow_integrator/shadow_integrator.cpp:63-68 | putting N render targets in front of a scene moves the landing point by exactly N |
| `Spectra.AddMulUnit` | src/integrators/shadow_integrator/shadow_integrator.cpp:46-53 | helper for `ShadowLi`: adding `throughput * value` to a zero `Li` with throughput 1.0 gives the light value itself |
| `ShadowIntegrator.ShadowPath` | src/integrators/shadow_integrator/shadow_integrator.cpp:56-122 | reference definition of the decision chain: `NotEntered` exactly when the outer loop test (`Entered`, line 56) fails; `PrimaryMiss` exactly on a primary miss inside it; `NotGround` exactly when the pass-through landing is absent or not ground; `EmitterHit` (81), `Guarded` (86, with `DepthGuard`), `NotSampled` (102), `ZeroSample` (105), `TargetOccluded` (110) and `Lit` (116) only on a ground landing, and a sampling branch other than `ZeroSample` only with a non-zero light value |
| `ShadowIntegrator.Radiance` | src/integrators/shadow_integrator/shadow_integrator.cpp:46-122 | every branch leaves black, the throughput, or throughput times value in `Li`, and the last only where a light sample was drawn |
| `ShadowIntegrator.ShadowLi` | src/integrators/shadow_integrator/shadow_integrator.cpp:42-126 | the estimate is always black, 1.0, or the sampled light value |
| `ShadowIntegrator.Li` | src/integrators/shadow_integrator/shadow_integrator.cpp:42-126 | the method (primary intersection, pass-through loop, ground/emitter/depth/strict-normals tests, light sample, occlusion ray) returns exactly the reference estimate and samples the light exactly on the reference's sampling branches |
| `ShadowIntegrator.ShadowMissIsThroughput` | src/integrators/shadow_integrator/shadow_integrator.cpp:53-61 | inside the depth bound, a primary miss returns the throughput 1.0 and draws no sample |
| `ShadowIntegrator.ShadowPassThroughTransparent` | src/integrators/shadow_integrator/shadow_integrator.cpp:58-76 | leading render-target surfaces change neither the estimate nor whether a sample is drawn, and leave the branch taken unchanged when some surface lies behind them |
| `ShadowIntegrator.ShadowPathSkipsTargets` | src/integrators/shadow_integrator/shadow_integrator.cpp:63-76 | when some surface lies behind leading render targets, the branch taken is the one taken without them |
| `ShadowIntegrator.ShadowNotGroundIsThroughput` | src/integrators/shadow_integrator/shadow_integrator.cpp:71-76 | when the landing surface is absent or not ground, the estimate is 1.0 for any light sample, and no sample is drawn |
| `ShadowIntegrator.ShadowEmitterIsBlack` | src/integrators/shadow_integrator/shadow_integrator.cpp:80-84 | an emitting ground surface with emitted radiance requested and emitters not hidden gives black without sampling |
| `ShadowIntegrator.ShadowDepthBound` | src/integrators/shadow_integrator/shadow_integrator.cpp:56-95 | at `depth >= maxDepth > 0` or `depth > maxDepth >= 0` no sample is drawn and the estimate is black or 1.0; it is black when the outer loop is not entered, and black on a ground landing when the depth guard fires |
| `ShadowIntegrator.ShadowUnboundedDepth` | src/integrators/shadow_integrator/shadow_integrator.cpp:56-86 | with a negative `maxDepth` the branch taken does not depend on the depth |
| `ShadowIntegrator.ShadowZeroMaxDepthSamples` | src/integrators/shadow_integrator/shadow_integrator.cpp:56-86 | with `maxDepth == 0` at depth 0 every ray takes the branch it would take with no depth bound, so nothing is blocked by depth |
| `ShadowIntegrator.ShadowStrictNormalsBlocks` | src/integrators/shadow_integrator/shadow_integrator.cpp:86-95 | with strict normals on and the normals test firing on the ground surface, no sample is drawn and the estimate is black |
| `ShadowIntegrator.ShadowSampleNeedsGate` | src/integrators/shadow_integrator/shadow_integrator.cpp:56-103 | a sample is drawn only inside the depth bound, on a ground surface, past the emitter and strict-normals tests, with direct surface radiance requested and a smooth BSDF |
| `ShadowIntegrator.ShadowGatePassedSamples` | src/integrators/shadow_integrator/shadow_integrator.cpp:56-103 | conversely, a ground landing inside the depth bound that passes the emitter and strict-normals tests, with direct surface radiance requested and a smooth BSDF, is sampled |
| `ShadowIntegrator.ShadowNotSampledIsBlack` | src/integrators/shadow_integrator/shadow_integrator.cpp:100-122 | past the guards, without the direct-radiance request or a smooth BSDF the estimate is black and nothing is sampled |
| `ShadowIntegrator.ShadowAttribution` | src/integrators/shadow_integrator/shadow_integrator.cpp:103-118 | once sampled: a zero light value gives black; otherwise a render target hit by the occlusion ray gives throughput times value, anything else or nothing gives the throughput |
| `MaskIntegrator.Li` | src/integrators/mask_integrator/mask_integrator.cpp:42-72 | the mask is white exactly when the first surface exists and is a render target, and is otherwise black; no other value occurs |
| `MaskIntegrator.MaskFirstHitOnly` | src/integrators/mask_integrator/mask_integrator.cpp:61-71 | the mask depends only on whether there is a first surface and on its render-target flag, not on later surfaces, other flags, depth, strict normals or requested radiance |
| `MaskIntegrator.MaskMarksPassedThrough` | src/integrators/mask_integrator/mask_integrator.cpp:65-69 | the mask is white exactly on rays whose first surface the shadow estimator's pass-through rule skips |

## Left out

- Scene intersection, `getBSDF`, `sampleEmitterDirect` and the
  `Intersection`/`DirectSamplingRecord` internals are renderer library
  calls; they are inputs here (the hit sequence, the `bsdfSmooth` flag,
  the `DirectSample` record).
- Ray geometry: the continuation ray starts at `its.p + ray.d * Epsilon`;
  the model assumes this reaches the next surface in the sequence, so a
  surface lying within `Epsilon` behind a render target is not modelled as
  skipped.
- After a pass-through ends in a miss (`shadow_integrator.cpp:66-67`),
  line 72 reads `its.shape` without checking `its.isValid()`; what that
  record then holds is decided by the renderer's intersection code, which
  is not part of this model. The model treats that case as "not ground"
  and returns the throughput, as for a primary miss.
- The strict-normals test is a floating-point dot product; it is a boolean
  flag per hit. Spectrum arithmetic is on reals, in an RGB build;
  spectral builds are not modelled.
- Random-number consumption (`rRec.nextSample2D()`) is not modelled; the
  ghost flag `drew` records only whether the sample is taken.
- The outer `while` of `shadow_integrator::Li` ends every path of its body
  in `break`, so it is modelled as an `if`; the depth is never changed
  inside it.
- `miWeight` (both files): never called, and it divides by zero when both
  densities are zero. A "return 0 for (0, 0)" policy is not what the code
  does, so it is not modelled.
- `preprocess` (the maximum camera-to-bounding-box-corner distance is
  never read by `Li`; the mask version only delegates), constructors,
  `serialize`, `toString`, the unused `avgPathLength` counter, `m_color`,
  `eta`, `ray.mint` and the plugin macros.
- Concurrency: the estimators hold no shared mutable state.
- `its` is a reference into the caller's `rRec`
  (`shadow_integrator.cpp:44`), so the pass-through loop leaves the
  landing intersection in the caller's record. The model returns only the
  estimate; nothing in the two estimators reads that record afterwards.
