/** The mask estimator: white where the first surface a ray meets is a
    render target, black elsewhere. */
module MaskIntegrator {
  import opened Spectra
  import opened Scene

  /** `mask_integrator::Li`: one intersection, classified once. The
      configuration and query are accepted as the source accepts them and
      not consulted. */
  function Li(cfg: Config, q: Query, hits: seq<Hit>): (s: Spectrum)
    ensures s == White() <==> hits != [] && hits[0].isRenderTarget
    ensures s == Black() || s == White()
  {
    if hits == [] then Black()
    else if hits[0].isRenderTarget then White()
    else Black()
  }

  /** Only the render-target flag of the first surface matters: not the
      surfaces behind it, its other flags, the depth bound, strict normals
      or the requested radiance. */
  lemma MaskFirstHitOnly(cfg: Config, q: Query, hits: seq<Hit>,
                         cfg': Config, q': Query, hits': seq<Hit>)
    requires (hits == []) == (hits' == [])
    requires hits != [] ==> hits[0].isRenderTarget == hits'[0].isRenderTarget
    ensures Li(cfg, q, hits) == Li(cfg', q', hits')
  {
  }

  /** The mask is white exactly on the rays whose first surface the shadow
      estimator's pass-through rule would skip. */
  lemma MaskMarksPassedThrough(cfg: Config, q: Query, hits: seq<Hit>)
    ensures Li(cfg, q, hits) == White() <==> PassThrough(hits) > 0
  {
  }
}
