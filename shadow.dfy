/** The shadow estimator: for a ray that lands on a "ground" surface once
    render targets are made transparent, decide whether one sampled light
    direction is blocked by the render target specifically. */
module ShadowIntegrator {
  import opened Spectra
  import opened Scene

  /** What `sampleEmitterDirect` and the occlusion test ray return: the
      sampled light value and the first surface (if any) that the ray from
      `dRec.ref` along `dRec.d` hits. Both are drawn by the renderer; the
      estimator only looks at them when it samples the light. */
  datatype DirectSample = DirectSample(value: Spectrum, occluder: Option<Hit>)

  /** The terminal branch an evaluation takes. */
  datatype ShadowExit =
    | NotEntered      // the depth test of the outer loop fails at once
    | PrimaryMiss     // the primary ray hits nothing
    | NotGround       // after pass-through: no surface, or not tagged ground
    | EmitterHit      // emitted radiance requested and emitters shown
    | Guarded         // depth bound reached or strict-normals test fires
    | NotSampled      // direct radiance not requested or BSDF not smooth
    | ZeroSample      // the light sample came back zero
    | TargetOccluded  // occlusion ray hits a render target
    | Lit             // occlusion ray hits something else or nothing
  {
    /** Whether `sampleEmitterDirect` is called on this branch. */
    predicate DrawsSample() {
      ZeroSample? || TargetOccluded? || Lit?
    }
  }

  /** The condition of the outer `while`. */
  predicate Entered(cfg: Config, q: Query) {
    q.depth <= cfg.maxDepth || cfg.maxDepth < 0
  }

  /** The depth half of the guard in front of light sampling. */
  predicate DepthGuard(cfg: Config, q: Query) {
    q.depth >= cfg.maxDepth && cfg.maxDepth > 0
  }

  /** Reference definition of the decision cascade, over the landing index
      of the pass-through rule rather than a re-intersection loop. A
      pass-through that runs off the scene counts as "not ground". */
  function ShadowPath(cfg: Config, q: Query, hits: seq<Hit>, light: DirectSample): (e: ShadowExit)
    ensures e == NotEntered <==> !Entered(cfg, q)
    ensures e == PrimaryMiss <==> Entered(cfg, q) && hits == []
    ensures e == NotGround <==> (Entered(cfg, q) && hits != [] &&
      (PassThrough(hits) == |hits| || !hits[PassThrough(hits)].isRenderGround))
    ensures e.EmitterHit? || e.Guarded? || e.NotSampled? || e.DrawsSample() ==>
      PassThrough(hits) < |hits| && hits[PassThrough(hits)].isRenderGround
    ensures e.DrawsSample() ==> !IsZero(light.value) || e == ZeroSample
  {
    if !Entered(cfg, q) then NotEntered
    else if hits == [] then PrimaryMiss
    else
      var k := PassThrough(hits);
      if k == |hits| || !hits[k].isRenderGround then NotGround
      else
        var h := hits[k];
        if h.isEmitter && q.emittedRadiance && !cfg.hideEmitters then EmitterHit
        else if DepthGuard(cfg, q) || (cfg.strictNormals && h.strictNormalsFires) then Guarded
        else if !(q.directSurfaceRadiance && h.bsdfSmooth) then NotSampled
        else if IsZero(light.value) then ZeroSample
        else if light.occluder.Some? && light.occluder.value.isRenderTarget then TargetOccluded
        else Lit
  }

  /** The colour each branch leaves in `Li`: black, the throughput, or the
      throughput times the light value, and the last only with a sample. */
  function Radiance(e: ShadowExit, throughput: Spectrum, value: Spectrum): (s: Spectrum)
    ensures s == Black() || s == throughput || s == Mul(throughput, value)
    ensures s == Mul(throughput, value) && s != Black() && s != throughput ==> e.DrawsSample()
  {
    match e
    case PrimaryMiss => throughput
    case NotGround => throughput
    case Lit => throughput
    case TargetOccluded => Add(Black(), Mul(throughput, value))
    case _ => Black()
  }

  /** The estimate for one ray: the throughput is `Spectrum(1.0f)`. */
  function ShadowLi(cfg: Config, q: Query, hits: seq<Hit>, light: DirectSample): (s: Spectrum)
    ensures s == Black() || s == Uniform(1.0) || s == light.value
  {
    AddMulUnit(light.value);
    Radiance(ShadowPath(cfg, q, hits, light), Uniform(1.0), light.value)
  }

  /** `shadow_integrator::Li`. `hits` are the surfaces along the primary
      ray in distance order; re-intersecting just past surface `i` yields
      surface `i + 1`. `drew` records whether the light was sampled. */
  method Li(cfg: Config, q: Query, hits: seq<Hit>, light: DirectSample)
    returns (li: Spectrum, ghost drew: bool)
    ensures li == ShadowLi(cfg, q, hits, light)
    ensures drew == ShadowPath(cfg, q, hits, light).DrawsSample()
  {
    li := Black();
    drew := false;
    ghost var e := ShadowPath(cfg, q, hits, light);
    var scattered := false;
    // rRec.rayIntersect(ray): `valid` is its.isValid(), `i` the surface its describes
    var valid := hits != [];
    var i := 0;
    var throughput := Uniform(1.0);

    // The outer `while` of the source ends every path of its body in
    // `break`, so its body runs at most once: it is an `if` here.
    if q.depth <= cfg.maxDepth || cfg.maxDepth < 0 {
      if !valid {
        assert e == PrimaryMiss;
        li := throughput;
        return;
      }

      // skip render targets by re-intersecting just past them
      while hits[i].isRenderTarget
        invariant valid && i < |hits|
        invariant forall j :: 0 <= j < i ==> hits[j].isRenderTarget
        decreases |hits| - i
      {
        if i + 1 == |hits| {
          valid := false;
          break;
        }
        i := i + 1;
      }
      assert PassThrough(hits) == if valid then i else |hits|;

      if !valid || !hits[i].isRenderGround {
        assert e == NotGround;
        li := throughput;
        return;
      }

      var its := hits[i];
      if its.isEmitter && q.emittedRadiance && (!cfg.hideEmitters || scattered) {
        assert e == EmitterHit;
        return;
      }

      if (q.depth >= cfg.maxDepth && cfg.maxDepth > 0) || (cfg.strictNormals && its.strictNormalsFires) {
        assert e == Guarded;
        return;
      }

      if q.directSurfaceRadiance && its.bsdfSmooth {
        drew := true;
        var value := light.value;
        if !IsZero(value) {
          if light.occluder.Some? {
            if light.occluder.value.isRenderTarget {
              assert e == TargetOccluded;
              li := Add(li, Mul(throughput, value));
              return;
            }
          }
          assert e == Lit;
          li := throughput;
          return;
        }
        assert e == ZeroSample;
      } else {
        assert e == NotSampled;
      }
    } else {
      assert e == NotEntered;
    }
  }

  /** A primary miss inside the depth bound returns the throughput, 1.0. */
  lemma ShadowMissIsThroughput(cfg: Config, q: Query, light: DirectSample)
    requires Entered(cfg, q)
    ensures ShadowLi(cfg, q, [], light) == Uniform(1.0)
    ensures !ShadowPath(cfg, q, [], light).DrawsSample()
  {
  }

  /** Render targets in front of the rest of the scene change nothing:
      the colour and whether a sample is drawn are as if they were absent,
      and so is the branch taken once something lies behind them. */
  lemma {:induction false} ShadowPassThroughTransparent(
    cfg: Config, q: Query, targets: seq<Hit>, rest: seq<Hit>, light: DirectSample)
    requires forall j :: 0 <= j < |targets| ==> targets[j].isRenderTarget
    ensures ShadowLi(cfg, q, targets + rest, light) == ShadowLi(cfg, q, rest, light)
    ensures ShadowPath(cfg, q, targets + rest, light).DrawsSample()
         == ShadowPath(cfg, q, rest, light).DrawsSample()
    ensures rest != [] ==> ShadowPath(cfg, q, targets + rest, light) == ShadowPath(cfg, q, rest, light)
  {
    if rest == [] {
      assert targets + rest == targets;
      if Entered(cfg, q) && targets != [] {
        PassThroughSkipsTargets(targets, rest);
        assert ShadowPath(cfg, q, targets + rest, light) == NotGround;
        assert ShadowPath(cfg, q, rest, light) == PrimaryMiss;
      }
    } else {
      ShadowPathSkipsTargets(cfg, q, targets, rest, light);
    }
  }

  /** The branch taken behind leading render targets, when some surface
      lies behind them, is the branch taken without them. */
  lemma ShadowPathSkipsTargets(
    cfg: Config, q: Query, targets: seq<Hit>, rest: seq<Hit>, light: DirectSample)
    requires forall j :: 0 <= j < |targets| ==> targets[j].isRenderTarget
    requires rest != []
    ensures ShadowPath(cfg, q, targets + rest, light) == ShadowPath(cfg, q, rest, light)
  {
    PassThroughSkipsTargets(targets, rest);
    var all := targets + rest;
    var k := PassThrough(rest);
    assert PassThrough(all) == |targets| + k;
    if k < |rest| {
      assert all[|targets| + k] == rest[k];
    }
  }

  /** A landing surface that is missing or not tagged ground yields the
      throughput whatever the light would have given, and no sample. */
  lemma ShadowNotGroundIsThroughput(
    cfg: Config, q: Query, hits: seq<Hit>, light: DirectSample, other: DirectSample)
    requires Entered(cfg, q) && hits != []
    requires PassThrough(hits) == |hits| || !hits[PassThrough(hits)].isRenderGround
    ensures ShadowLi(cfg, q, hits, light) == Uniform(1.0) == ShadowLi(cfg, q, hits, other)
    ensures !ShadowPath(cfg, q, hits, light).DrawsSample()
  {
  }

  /** An emitting ground surface, with emitted radiance requested and
      emitters not hidden, gives black without sampling. */
  lemma ShadowEmitterIsBlack(cfg: Config, q: Query, hits: seq<Hit>, light: DirectSample)
    requires Entered(cfg, q)
    requires PassThrough(hits) < |hits|
    requires var h := hits[PassThrough(hits)];
      h.isRenderGround && h.isEmitter && q.emittedRadiance && !cfg.hideEmitters
    ensures ShadowLi(cfg, q, hits, light) == Black()
    ensures !ShadowPath(cfg, q, hits, light).DrawsSample()
  {
  }

  /** The depth bound: no light sample at `depth >= maxDepth > 0` nor at
      `depth > maxDepth >= 0` (the outer loop is then never entered and
      the result is black), so no shadow attribution either. */
  lemma ShadowDepthBound(cfg: Config, q: Query, hits: seq<Hit>, light: DirectSample)
    requires (q.depth >= cfg.maxDepth && cfg.maxDepth > 0) || q.depth > cfg.maxDepth >= 0
    ensures !ShadowPath(cfg, q, hits, light).DrawsSample()
    ensures ShadowLi(cfg, q, hits, light) == Black() || ShadowLi(cfg, q, hits, light) == Uniform(1.0)
    ensures q.depth > cfg.maxDepth >= 0 ==> ShadowLi(cfg, q, hits, light) == Black()
    ensures PassThrough(hits) < |hits| && hits[PassThrough(hits)].isRenderGround && DepthGuard(cfg, q)
      ==> ShadowLi(cfg, q, hits, light) == Black()
  {
  }

  /** With a negative `maxDepth` the depth never matters. */
  lemma ShadowUnboundedDepth(cfg: Config, q: Query, d: int, hits: seq<Hit>, light: DirectSample)
    requires cfg.maxDepth < 0
    ensures ShadowPath(cfg, q, hits, light) == ShadowPath(cfg, q.(depth := d), hits, light)
  {
  }

  /** `maxDepth == 0` is not a bound at depth 0: the guard needs
      `maxDepth > 0`, so such a ray is evaluated as if unbounded. */
  lemma ShadowZeroMaxDepthSamples(cfg: Config, q: Query, hits: seq<Hit>, light: DirectSample)
    requires cfg.maxDepth == 0 && q.depth == 0
    ensures ShadowPath(cfg, q, hits, light) == ShadowPath(cfg.(maxDepth := -1), q, hits, light)
  {
  }

  /** When strict normals are on and the test fires on the ground
      surface, no sample is drawn and the result is black. */
  lemma ShadowStrictNormalsBlocks(cfg: Config, q: Query, hits: seq<Hit>, light: DirectSample)
    requires Entered(cfg, q) && cfg.strictNormals
    requires PassThrough(hits) < |hits|
    requires var h := hits[PassThrough(hits)]; h.isRenderGround && h.strictNormalsFires
    ensures !ShadowPath(cfg, q, hits, light).DrawsSample()
    ensures ShadowLi(cfg, q, hits, light) == Black()
  {
  }

  /** A sample is drawn only on a ground surface inside the depth bound,
      past the emitter and strict-normals tests, with direct surface
      radiance requested and a smooth BSDF. */
  lemma ShadowSampleNeedsGate(cfg: Config, q: Query, hits: seq<Hit>, light: DirectSample)
    requires ShadowPath(cfg, q, hits, light).DrawsSample()
    ensures Entered(cfg, q) && !DepthGuard(cfg, q)
    ensures PassThrough(hits) < |hits|
    ensures var h := hits[PassThrough(hits)];
      h.isRenderGround && !(h.isEmitter && q.emittedRadiance && !cfg.hideEmitters)
      && !(cfg.strictNormals && h.strictNormalsFires)
      && q.directSurfaceRadiance && h.bsdfSmooth
  {
  }

  /** Conversely, a ground surface inside the depth bound that passes the
      emitter and strict-normals tests, with direct surface radiance
      requested and a smooth BSDF, is sampled. */
  lemma ShadowGatePassedSamples(cfg: Config, q: Query, hits: seq<Hit>, light: DirectSample)
    requires Entered(cfg, q) && !DepthGuard(cfg, q)
    requires PassThrough(hits) < |hits|
    requires var h := hits[PassThrough(hits)];
      h.isRenderGround && !(h.isEmitter && q.emittedRadiance && !cfg.hideEmitters)
      && !(cfg.strictNormals && h.strictNormalsFires)
      && q.directSurfaceRadiance && h.bsdfSmooth
    ensures ShadowPath(cfg, q, hits, light).DrawsSample()
  {
  }

  /** Once past the guards on a ground surface, a missing request or a
      non-smooth BSDF leaves the result black. */
  lemma ShadowNotSampledIsBlack(cfg: Config, q: Query, hits: seq<Hit>, light: DirectSample)
    requires Entered(cfg, q) && !DepthGuard(cfg, q)
    requires PassThrough(hits) < |hits|
    requires var h := hits[PassThrough(hits)];
      h.isRenderGround && !(h.isEmitter && q.emittedRadiance && !cfg.hideEmitters)
      && !(cfg.strictNormals && h.strictNormalsFires)
      && !(q.directSurfaceRadiance && h.bsdfSmooth)
    ensures !ShadowPath(cfg, q, hits, light).DrawsSample()
    ensures ShadowLi(cfg, q, hits, light) == Black()
  {
  }

  /** With a sample drawn: a zero light value gives black; otherwise the
      occlusion ray decides between throughput times value (a render
      target blocks) and throughput (anything else, or nothing). */
  lemma ShadowAttribution(cfg: Config, q: Query, hits: seq<Hit>, light: DirectSample)
    requires ShadowPath(cfg, q, hits, light).DrawsSample()
    ensures IsZero(light.value) ==> ShadowLi(cfg, q, hits, light) == Black()
    ensures !IsZero(light.value) ==>
      ShadowLi(cfg, q, hits, light)
        == if light.occluder.Some? && light.occluder.value.isRenderTarget
           then Mul(Uniform(1.0), light.value)
           else Uniform(1.0)
  {
    var e := ShadowPath(cfg, q, hits, light);
    ShadowSampleNeedsGate(cfg, q, hits, light);
    if IsZero(light.value) {
      assert e == ZeroSample;
    } else if light.occluder.Some? && light.occluder.value.isRenderTarget {
      assert e == TargetOccluded;
    } else {
      assert e == Lit;
    }
  }
}
