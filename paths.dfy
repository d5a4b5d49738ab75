/**
  What one sample and one batch of samples compute: the random walk of `Sample`, the colour it
  accumulates, and the buffer a batch of samples leaves behind.
 */
module Paths {
  import opened Wrappers
  import opened Linear
  import opened Quadratic
  import opened Intersect
  import opened Viewing

  /** How often `for (int i = 0; i < n; i++)` runs its body. */
  function Steps(n: int): nat {
    if n < 0 then 0 else n
  }

  /**
    The state of a walk after `k` of its casts: the spheres hit so far, the ray to cast next, whether
    a cast has missed, and the colour and albedo accumulated so far. Cast number j reflects from its
    hit position in direction bounce(j); a hit with a material adds its emission times the albedo so
    far to the colour and then multiplies the albedo by its own; after the first miss nothing changes.
   */
  datatype Walk = Walk(hits: seq<Sphere>, ray: Ray, stopped: bool, color: Color, albedo: Color)

  function WalkAfter(scene: seq<Sphere>, start: Ray, bounce: nat -> Vec3, sqrt: real -> real, k: nat): (w: Walk)
    decreases k
  {
    if k == 0 then Walk([], start, false, Black, White)
    else
      var w := WalkAfter(scene, start, bounce, sqrt, k - 1);
      if w.stopped then w
      else
        match NearestHit(scene, w.ray, sqrt, |scene|)
        case None => w.(stopped := true)
        case Some(p) =>
          var m := p.sphere.material;
          Walk(w.hits + [p.sphere], Ray(p.position, bounce(k - 1)), false,
               if m.Some? then w.color.Add(m.value.emission.Mul(w.albedo)) else w.color,
               if m.Some? then w.albedo.Mul(m.value.albedo) else w.albedo)
  }

  /** A walk that has not missed has hit once per cast; one that has, fewer times. */
  lemma {:induction false} WalkLength(scene: seq<Sphere>, start: Ray, bounce: nat -> Vec3, sqrt: real -> real, k: nat)
    ensures var w := WalkAfter(scene, start, bounce, sqrt, k);
      (w.stopped ==> |w.hits| < k) && (!w.stopped ==> |w.hits| == k)
  {
    if k > 0 {
      WalkLength(scene, start, bounce, sqrt, k - 1);
    }
  }

  /** Once a cast misses, further casts change nothing. */
  lemma {:induction false} StoppedStays(scene: seq<Sphere>, start: Ray, bounce: nat -> Vec3, sqrt: real -> real,
                                        k: nat, m: nat)
    requires k <= m && WalkAfter(scene, start, bounce, sqrt, k).stopped
    ensures WalkAfter(scene, start, bounce, sqrt, m) == WalkAfter(scene, start, bounce, sqrt, k)
    decreases m
  {
    if k < m {
      StoppedStays(scene, start, bounce, sqrt, k, m - 1);
    }
  }

  /** A walk whose next cast misses ends there: any longer limit leaves it as it is. */
  lemma MissEndsWalk(scene: seq<Sphere>, start: Ray, bounce: nat -> Vec3, sqrt: real -> real, k: nat, m: nat)
    requires k < m
    requires var w := WalkAfter(scene, start, bounce, sqrt, k);
      !w.stopped && NearestHit(scene, w.ray, sqrt, |scene|).None?
    ensures WalkAfter(scene, start, bounce, sqrt, m) == WalkAfter(scene, start, bounce, sqrt, k).(stopped := true)
  {
    StoppedStays(scene, start, bounce, sqrt, k + 1, m);
  }

  /** A longer walk extends a shorter one: the hits of the first k casts do not depend on the limit. */
  lemma {:induction false} WalkExtends(scene: seq<Sphere>, start: Ray, bounce: nat -> Vec3, sqrt: real -> real,
                                       k: nat, m: nat)
    requires k <= m
    ensures var a, b := WalkAfter(scene, start, bounce, sqrt, k).hits, WalkAfter(scene, start, bounce, sqrt, m).hits;
      |a| <= |b| && b[..|a|] == a
    decreases m
  {
    if k < m {
      WalkExtends(scene, start, bounce, sqrt, k, m - 1);
      WalkGrows(scene, start, bounce, sqrt, m);
      PrefixOfPrefix(WalkAfter(scene, start, bounce, sqrt, k).hits, WalkAfter(scene, start, bounce, sqrt, m - 1).hits,
                     WalkAfter(scene, start, bounce, sqrt, m).hits);
    }
  }

  /** One more cast keeps the hits so far as a prefix. */
  lemma WalkGrows(scene: seq<Sphere>, start: Ray, bounce: nat -> Vec3, sqrt: real -> real, m: nat)
    requires m > 0
    ensures var b, c := WalkAfter(scene, start, bounce, sqrt, m - 1).hits, WalkAfter(scene, start, bounce, sqrt, m).hits;
      |b| <= |c| && c[..|b|] == b
  {
    WalkHitsStep(scene, start, bounce, sqrt, m);
  }

  lemma PrefixOfPrefix<T>(a: seq<T>, b: seq<T>, c: seq<T>)
    requires |a| <= |b| && b[..|a|] == a
    requires |b| <= |c| && c[..|b|] == b
    ensures |a| <= |c| && c[..|a|] == a
  {
    assert c[..|a|] == c[..|b|][..|a|];
  }

  /** Every sphere a walk hits comes from the scene, and in an empty scene a walk hits nothing. */
  lemma {:induction false} WalkInScene(scene: seq<Sphere>, start: Ray, bounce: nat -> Vec3, sqrt: real -> real, k: nat)
    ensures var hits := WalkAfter(scene, start, bounce, sqrt, k).hits;
      (forall j :: 0 <= j < |hits| ==> hits[j] in scene) && (scene == [] ==> hits == [])
  {
    if k > 0 {
      WalkInScene(scene, start, bounce, sqrt, k - 1);
      var w := WalkAfter(scene, start, bounce, sqrt, k - 1);
      NearestIsFirstMinimum(scene, w.ray, sqrt, |scene|);
      WalkHitsStep(scene, start, bounce, sqrt, k);
    }
  }

  /** One cast adds the chosen sphere to the hits, unless the walk has stopped or the cast misses. */
  lemma WalkHitsStep(scene: seq<Sphere>, start: Ray, bounce: nat -> Vec3, sqrt: real -> real, k: nat)
    requires k > 0
    ensures var w := WalkAfter(scene, start, bounce, sqrt, k - 1);
      var best := NearestHit(scene, w.ray, sqrt, |scene|);
      WalkAfter(scene, start, bounce, sqrt, k).hits
        == if !w.stopped && best.Some? then w.hits + [best.value.sphere] else w.hits
  {
  }

  /** The product of the albedos of the hits that have a material, starting from white. */
  function Throughput(hits: seq<Sphere>): Color {
    if hits == [] then White
    else
      var last, before := hits[|hits| - 1], Throughput(hits[..|hits| - 1]);
      if last.material.Some? then before.Mul(last.material.value.albedo) else before
  }

  /**
    Black plus, for every hit with a material, its emission weighted by the throughput of the hits
    before it: sum over i of emission(h_i) * product over j < i of albedo(h_j).
   */
  function PathColor(hits: seq<Sphere>): Color {
    if hits == [] then Black
    else
      var last, before := hits[|hits| - 1], hits[..|hits| - 1];
      if last.material.Some? then PathColor(before).Add(last.material.value.emission.Mul(Throughput(before)))
      else PathColor(before)
  }

  /** The colour and albedo a walk accumulates cast by cast are the closed forms over its hits. */
  lemma {:induction false} WalkColor(scene: seq<Sphere>, start: Ray, bounce: nat -> Vec3, sqrt: real -> real, k: nat)
    ensures var w := WalkAfter(scene, start, bounce, sqrt, k);
      w.color == PathColor(w.hits) && w.albedo == Throughput(w.hits)
  {
    if k > 0 {
      WalkColor(scene, start, bounce, sqrt, k - 1);
      var w := WalkAfter(scene, start, bounce, sqrt, k - 1);
      var best := NearestHit(scene, w.ray, sqrt, |scene|);
      if !w.stopped && best.Some? {
        assert (w.hits + [best.value.sphere])[..|w.hits|] == w.hits;
      }
    }
  }

  /** A hit without a renderer leaves both the colour and the throughput as they were. */
  lemma UnrenderedHitChangesNothing(hits: seq<Sphere>, s: Sphere)
    requires s.material.None?
    ensures PathColor(hits + [s]) == PathColor(hits)
    ensures Throughput(hits + [s]) == Throughput(hits)
  {
    assert (hits + [s])[..|hits|] == hits;
  }

  /** A material whose colours have no negative channel. */
  predicate NonNegativeMaterial(m: Option<Material>) {
    m.Some? ==> m.value.albedo.AtLeast(Clear) && m.value.emission.AtLeast(Clear)
  }

  /** Scenes whose materials have no negative channel. */
  predicate NonNegativeScene(scene: seq<Sphere>) {
    forall k :: 0 <= k < |scene| ==> NonNegativeMaterial(scene[k].material)
  }

  /** With non-negative materials a path's colour is at least black and its throughput at least zero. */
  lemma {:induction false} PathColorAtLeastBlack(hits: seq<Sphere>)
    requires forall k :: 0 <= k < |hits| ==> NonNegativeMaterial(hits[k].material)
    ensures PathColor(hits).AtLeast(Black)
    ensures Throughput(hits).AtLeast(Clear)
  {
    if hits != [] {
      var before := hits[..|hits| - 1];
      PathColorAtLeastBlack(before);
      var last := hits[|hits| - 1];
      if last.material.Some? {
        var m, t := last.material.value, Throughput(before);
        NonNegativeProduct(m.emission, t);
        NonNegativeProduct(t, m.albedo);
      }
    }
  }

  lemma NonNegativeProduct(c: Color, d: Color)
    requires c.AtLeast(Clear) && d.AtLeast(Clear)
    ensures c.Mul(d).AtLeast(Clear)
  {
    assert c.r * d.r >= 0.0 && c.g * d.g >= 0.0 && c.b * d.b >= 0.0 && c.a * d.a >= 0.0;
  }

  /** The renderer's fixed inputs: scene, camera, screen size, bounce limit and the square root. */
  datatype Setup = Setup(scene: seq<Sphere>, camera: Camera, width: int, height: int,
                         maxReflection: int, sqrt: real -> real)
  {
    predicate Valid() {
      width > 0 && height > 0 && camera.tanHalfFov > 0.0
    }
  }

  /** The random values one sample consumes: two unit values for the pixel and one bounce direction per cast. */
  datatype Draw = Draw(u: real, v: real, bounce: nat -> Vec3)

  predicate UnitDraw(d: Draw) {
    0.0 <= d.u <= 1.0 && 0.0 <= d.v <= 1.0
  }

  predicate UnitDraws(draws: seq<Draw>) {
    forall k :: 0 <= k < |draws| ==> UnitDraw(draws[k])
  }

  /** The buffer cell one sample adds to and the colour it adds. */
  datatype Contribution = Contribution(index: int, color: Color)

  /** The contribution of one sample: always to a cell of the buffer. */
  function SampleOf(setup: Setup, draw: Draw): (c: Contribution)
    requires setup.Valid() && UnitDraw(draw)
    ensures 0 <= c.index < setup.width * setup.height
  {
    var s := GenerateRay(setup.camera, setup.width, setup.height, draw.u, draw.v, setup.sqrt);
    PixelIndexInBounds(s.x, s.y, setup.width, setup.height);
    Contribution(PixelIndex(s.x, s.y, setup.width),
                 WalkAfter(setup.scene, s.ray, draw.bounce, setup.sqrt, Steps(setup.maxReflection)).color)
  }

  /** With a bounce limit of zero (or below) a sample contributes plain black. */
  lemma NoReflectionIsBlack(setup: Setup, draw: Draw)
    requires setup.Valid() && UnitDraw(draw)
    requires setup.maxReflection <= 0
    ensures SampleOf(setup, draw).color == Black
  {
  }

  /** An empty scene: every walk misses at once, and a sample contributes plain black. */
  lemma EmptySceneIsBlack(setup: Setup, draw: Draw)
    requires setup.Valid() && UnitDraw(draw)
    requires setup.scene == []
    ensures SampleOf(setup, draw).color == Black
  {
    var s := GenerateRay(setup.camera, setup.width, setup.height, draw.u, draw.v, setup.sqrt);
    WalkInScene(setup.scene, s.ray, draw.bounce, setup.sqrt, Steps(setup.maxReflection));
    WalkColor(setup.scene, s.ray, draw.bounce, setup.sqrt, Steps(setup.maxReflection));
  }

  /** The buffer after a batch of samples, applied in order, each adding its colour to its cell. */
  function Batch(setup: Setup, acc: seq<Color>, draws: seq<Draw>): (r: seq<Color>)
    requires setup.Valid() && |acc| == setup.width * setup.height && UnitDraws(draws)
    ensures |r| == |acc|
    decreases |draws|
  {
    if draws == [] then acc
    else
      var before := Batch(setup, acc, draws[..|draws| - 1]);
      var c := SampleOf(setup, draws[|draws| - 1]);
      before[c.index := before[c.index].Add(c.color)]
  }

  /** With non-negative materials no channel of any cell decreases over a batch. */
  lemma {:induction false} BatchMonotone(setup: Setup, acc: seq<Color>, draws: seq<Draw>)
    requires setup.Valid() && |acc| == setup.width * setup.height && UnitDraws(draws)
    requires NonNegativeScene(setup.scene)
    ensures forall k :: 0 <= k < |acc| ==> Batch(setup, acc, draws)[k].AtLeast(acc[k])
    decreases |draws|
  {
    if draws != [] {
      var prefix := draws[..|draws| - 1];
      BatchMonotone(setup, acc, prefix);
      var d := draws[|draws| - 1];
      var s := GenerateRay(setup.camera, setup.width, setup.height, d.u, d.v, setup.sqrt);
      var hits := WalkAfter(setup.scene, s.ray, d.bounce, setup.sqrt, Steps(setup.maxReflection)).hits;
      WalkInScene(setup.scene, s.ray, d.bounce, setup.sqrt, Steps(setup.maxReflection));
      WalkColor(setup.scene, s.ray, d.bounce, setup.sqrt, Steps(setup.maxReflection));
      forall k | 0 <= k < |hits| ensures NonNegativeMaterial(hits[k].material) {
        var j :| 0 <= j < |setup.scene| && setup.scene[j] == hits[k];
      }
      PathColorAtLeastBlack(hits);
    }
  }

  /** In an empty scene a batch changes no cell's red, green or blue. */
  lemma {:induction false} EmptySceneBatchKeepsRgb(setup: Setup, acc: seq<Color>, draws: seq<Draw>)
    requires setup.Valid() && |acc| == setup.width * setup.height && UnitDraws(draws)
    requires setup.scene == []
    ensures forall k :: 0 <= k < |acc| ==> Batch(setup, acc, draws)[k].SameRgb(acc[k])
    decreases |draws|
  {
    if draws != [] {
      EmptySceneBatchKeepsRgb(setup, acc, draws[..|draws| - 1]);
      EmptySceneIsBlack(setup, draws[|draws| - 1]);
    }
  }

  /** `(screenWidth * screenHeight) / (float)rayCount * exposure`. */
  function NormalizationFactor(width: int, height: int, rayCount: nat, exposure: real): real
    requires rayCount > 0
  {
    (width * height) as real / rayCount as real * exposure
  }

  /**
    The factor undoes the sample density: a cell that received its expected share
    rayCount / (width * height) of samples of colour c ends up as c scaled by the exposure.
   */
  lemma NormalizationUndoesDensity(width: int, height: int, rayCount: nat, exposure: real, c: Color)
    requires width > 0 && height > 0 && rayCount > 0
    ensures var share := rayCount as real / (width * height) as real;
      c.Scale(share).Scale(NormalizationFactor(width, height, rayCount, exposure)) == c.Scale(exposure)
  {
    var share := rayCount as real / (width * height) as real;
    var f := NormalizationFactor(width, height, rayCount, exposure);
    assert (width * height) as real > 0.0;
    assert share * f == exposure;
  }
}
