/** What the estimators see of the scene: the surfaces a ray meets, the
    integrator's configuration and the per-sample query record. */
module Scene {

  datatype Option<T> = None | Some(value: T)

  /** One valid intersection record, reduced to the facts the estimators
      test. `strictNormalsFires` stands for the floating-point test
      `dot(ray.d, its.geoFrame.n) * Frame::cosTheta(its.wi) >= 0`. */
  datatype Hit = Hit(
    isRenderTarget: bool,
    isRenderGround: bool,
    isEmitter: bool,
    bsdfSmooth: bool,
    strictNormalsFires: bool)

  /** Integrator configuration (`m_maxDepth`, `m_strictNormals`,
      `m_hideEmitters`); a negative `maxDepth` means unbounded. */
  datatype Config = Config(maxDepth: int, strictNormals: bool, hideEmitters: bool)

  /** The parts of `RadianceQueryRecord` that `Li` reads: the current depth
      and the two requested-radiance bits of `type`. */
  datatype Query = Query(depth: int, emittedRadiance: bool, directSurfaceRadiance: bool)

  /** Index of the first surface that is not a render target: the surface
      the pass-through rule lands on, or `|hits|` when the ray leaves the
      scene while passing through render targets. */
  function PassThrough(hits: seq<Hit>): (k: nat)
    ensures k <= |hits|
    ensures forall j :: 0 <= j < k ==> hits[j].isRenderTarget
    ensures k < |hits| ==> !hits[k].isRenderTarget
  {
    if hits == [] then 0
    else if hits[0].isRenderTarget then 1 + PassThrough(hits[1..])
    else 0
  }

  /** Render targets in front of the rest of the scene are skipped exactly:
      the landing point moves by the number of targets placed in front. */
  lemma {:induction false} PassThroughSkipsTargets(targets: seq<Hit>, rest: seq<Hit>)
    requires forall j :: 0 <= j < |targets| ==> targets[j].isRenderTarget
    ensures PassThrough(targets + rest) == |targets| + PassThrough(rest)
  {
    if targets == [] {
      assert targets + rest == rest;
    } else {
      assert (targets + rest)[0] == targets[0];
      assert (targets + rest)[1..] == targets[1..] + rest;
      PassThroughSkipsTargets(targets[1..], rest);
    }
  }
}
