/**
  Ray/sphere intersection (`TestIntersection`) and the specification of the nearest-hit
  scan over the scene (`CastRay`).
 */
module Intersect {
  import opened Wrappers
  import opened Linear
  import opened Quadratic

  /** A `Ray`: the direction need not have unit length. */
  datatype Ray = Ray(origin: Vec3, direction: Vec3)

  /** The two material colours the sampler reads from a sphere's renderer. */
  datatype Material = Material(albedo: Color, emission: Color)

  /** A scene object: centre, radius, and a material when the object has a renderer. */
  datatype Sphere = Sphere(center: Vec3, radius: real, material: Option<Material>)

  /**
    What `TestIntersection` reports. `UnorderedHit` is a reported hit whose time is NaN
    (the zero-direction ray), which no comparison in the scan can select.
   */
  datatype Intersection = Miss | Hit(time: real, position: Vec3) | UnorderedHit

  /** The self-intersection bias: roots below it are discarded. */
  const Bias: real := 0.01

  function PointAt(ray: Ray, t: real): Vec3 {
    ray.origin.Add(ray.direction.Scale(t))
  }

  /** Squared distance between two points. */
  function DistanceSquared(p: Vec3, q: Vec3): real {
    p.Sub(q).Dot(p.Sub(q))
  }

  /** The coefficients of |origin + direction*t - center|^2 - radius^2 as a polynomial in t. */
  datatype Coefficients = Coefficients(a2: real, a1: real, a0: real)

  function SphereCoefficients(ray: Ray, center: Vec3, radius: real): Coefficients {
    var d := ray.origin.Sub(center);
    Coefficients(ray.direction.Dot(ray.direction), 2.0 * d.Dot(ray.direction), d.Dot(d) - (radius * radius))
  }

  function SphereSolution(ray: Ray, center: Vec3, radius: real, sqrt: real -> real): Solution {
    var k := SphereCoefficients(ray, center, radius);
    SolveQuadratic(k.a2, k.a1, k.a0, sqrt)
  }

  /** `Mathf.Min` on floats. */
  function Min(a: real, b: real): real {
    if a < b then a else b
  }

  /** `TestIntersection`: a hit lies at or beyond the bias, on the ray at its hit time. */
  function TestIntersection(ray: Ray, center: Vec3, radius: real, sqrt: real -> real): (r: Intersection)
    ensures r.Hit? ==> Bias <= r.time && r.position == PointAt(ray, r.time)
  {
    match SphereSolution(ray, center, radius, sqrt)
    case NoRealSolution => Miss
    case ZeroLeading => UnorderedHit
    case TwoRoots(t0, t1) =>
      if t0 < Bias then
        if t1 < Bias then Miss else Hit(t1, PointAt(ray, t1))
      else if t1 < Bias then Hit(t0, PointAt(ray, t0))
      else Hit(Min(t0, t1), PointAt(ray, Min(t0, t1)))
  }

  function TestSphere(ray: Ray, s: Sphere, sqrt: real -> real): Intersection {
    TestIntersection(ray, s.center, s.radius, sqrt)
  }

  /** The squared distance from the sphere's centre to the ray's point at t, minus radius^2, is the quadratic. */
  lemma DistanceIsQuadratic(ray: Ray, center: Vec3, radius: real, t: real)
    ensures var k := SphereCoefficients(ray, center, radius);
      DistanceSquared(PointAt(ray, t), center) - radius * radius == Poly(k.a2, k.a1, k.a0, t)
  {
  }

  /** A reported hit with a NaN time happens exactly for the zero direction (then a2 = a1 = 0, so both roots are 0/0). */
  lemma UnorderedExactlyForZeroDirection(ray: Ray, center: Vec3, radius: real, sqrt: real -> real)
    ensures TestIntersection(ray, center, radius, sqrt).UnorderedHit? <==> ray.direction == Zero3
    ensures ray.direction == Zero3 ==> SphereCoefficients(ray, center, radius).a1 == 0.0
  {
    UnorderedIffZeroLeading(ray, center, radius, sqrt);
    if ray.direction == Zero3 {
      ZeroDirectionCoefficients(ray, center, radius, sqrt);
    } else {
      NonZeroDirectionLeading(ray, center, radius, sqrt);
    }
  }

  lemma UnorderedIffZeroLeading(ray: Ray, center: Vec3, radius: real, sqrt: real -> real)
    ensures TestIntersection(ray, center, radius, sqrt).UnorderedHit?
       <==> SphereSolution(ray, center, radius, sqrt).ZeroLeading?
  {
  }

  lemma NonZeroDirectionLeading(ray: Ray, center: Vec3, radius: real, sqrt: real -> real)
    requires ray.direction != Zero3
    ensures SphereCoefficients(ray, center, radius).a2 > 0.0
    ensures !SphereSolution(ray, center, radius, sqrt).ZeroLeading?
  {
    DotSelf(ray.direction);
  }

  lemma ZeroDirectionCoefficients(ray: Ray, center: Vec3, radius: real, sqrt: real -> real)
    requires ray.direction == Zero3
    ensures SphereCoefficients(ray, center, radius).a2 == 0.0
    ensures SphereCoefficients(ray, center, radius).a1 == 0.0
    ensures SphereSolution(ray, center, radius, sqrt).ZeroLeading?
  {
  }

  /**
    For a non-zero direction: a hit is reported iff the discriminant is non-negative and some root
    is at least the bias, and the hit time is the least such root.
   */
  lemma HitIffRootBeyondBias(ray: Ray, center: Vec3, radius: real, sqrt: real -> real)
    requires ray.direction != Zero3
    ensures var k := SphereCoefficients(ray, center, radius);
      var q := SphereSolution(ray, center, radius, sqrt);
      var h := TestIntersection(ray, center, radius, sqrt);
      (q.TwoRoots? <==> Discriminant(k.a2, k.a1, k.a0) >= 0.0)
      && (h.Hit? <==> q.TwoRoots? && (q.x0 >= Bias || q.x1 >= Bias))
      && (h.Miss? <==> !h.Hit?)
      && (h.Hit? ==> (h.time == q.x0 || h.time == q.x1)
                     && (q.x0 >= Bias ==> h.time <= q.x0)
                     && (q.x1 >= Bias ==> h.time <= q.x1))
  {
    DotSelf(ray.direction);
  }

  /** A reported hit position lies on the sphere's surface. */
  lemma HitOnSurface(ray: Ray, center: Vec3, radius: real, sqrt: real -> real)
    requires var k := SphereCoefficients(ray, center, radius); SqrtAt(sqrt, Discriminant(k.a2, k.a1, k.a0))
    ensures var h := TestIntersection(ray, center, radius, sqrt);
      h.Hit? ==> DistanceSquared(h.position, center) == radius * radius
  {
    var k := SphereCoefficients(ray, center, radius);
    var h := TestIntersection(ray, center, radius, sqrt);
    if h.Hit? {
      RootsAreZeros(k.a2, k.a1, k.a0, sqrt);
      DistanceIsQuadratic(ray, center, radius, h.time);
    }
  }

  /**
    The hit is the first surface crossing at or beyond the bias: whenever the ray's point at some
    t >= Bias lies on the sphere, a hit is reported no later than t.
   */
  lemma HitIsFirstCrossing(ray: Ray, center: Vec3, radius: real, sqrt: real -> real, t: real)
    requires var k := SphereCoefficients(ray, center, radius); SqrtAt(sqrt, Discriminant(k.a2, k.a1, k.a0))
    requires ray.direction != Zero3
    requires Bias <= t && DistanceSquared(PointAt(ray, t), center) == radius * radius
    ensures var h := TestIntersection(ray, center, radius, sqrt);
      h.Hit? && h.time <= t
  {
    var k := SphereCoefficients(ray, center, radius);
    DotSelf(ray.direction);
    DistanceIsQuadratic(ray, center, radius, t);
    EveryZeroIsARoot(k.a2, k.a1, k.a0, sqrt, t);
    HitIffRootBeyondBias(ray, center, radius, sqrt);
  }

  /** The bias at work: a ray leaving a sphere's surface outwards does not hit that sphere again. */
  lemma LeavingSurfaceMisses(ray: Ray, center: Vec3, radius: real, sqrt: real -> real)
    requires var k := SphereCoefficients(ray, center, radius); SqrtAt(sqrt, Discriminant(k.a2, k.a1, k.a0))
    requires ray.direction != Zero3
    requires DistanceSquared(ray.origin, center) == radius * radius
    requires ray.origin.Sub(center).Dot(ray.direction) >= 0.0
    ensures TestIntersection(ray, center, radius, sqrt).Miss?
  {
    var k := SphereCoefficients(ray, center, radius);
    var h := TestIntersection(ray, center, radius, sqrt);
    DotSelf(ray.direction);
    UnorderedExactlyForZeroDirection(ray, center, radius, sqrt);
    if h.Hit? {
      HitOnSurface(ray, center, radius, sqrt);
      DistanceIsQuadratic(ray, center, radius, h.time);
      assert false;
    }
  }

  /** The unit sphere at the origin, seen from z = -5: a hit at time 4 at (0, 0, -1), and a miss sideways. */
  lemma UnitSphereExample(sqrt: real -> real)
    requires sqrt(4.0) == 2.0
    ensures TestIntersection(Ray(Vec3(0.0, 0.0, -5.0), Vec3(0.0, 0.0, 1.0)), Zero3, 1.0, sqrt)
         == Hit(4.0, Vec3(0.0, 0.0, -1.0))
    ensures TestIntersection(Ray(Vec3(0.0, 0.0, -5.0), Vec3(1.0, 0.0, 0.0)), Zero3, 1.0, sqrt).Miss?
  {
    var ahead := Ray(Vec3(0.0, 0.0, -5.0), Vec3(0.0, 0.0, 1.0));
    assert SphereCoefficients(ahead, Zero3, 1.0) == Coefficients(1.0, -10.0, 24.0);
    assert Discriminant(1.0, -10.0, 24.0) == 4.0;
    assert SphereSolution(ahead, Zero3, 1.0, sqrt) == TwoRoots(4.0, 6.0);
    var sideways := Ray(Vec3(0.0, 0.0, -5.0), Vec3(1.0, 0.0, 0.0));
    assert SphereCoefficients(sideways, Zero3, 1.0) == Coefficients(1.0, 0.0, 24.0);
  }

  /** The sphere chosen so far by the scan: its index, the sphere, its hit time and hit position. */
  datatype Pick = Pick(index: nat, sphere: Sphere, time: real, position: Vec3)

  /** `minHitTime` for the current choice. */
  function Bound(best: Option<Pick>): real {
    if best.Some? then best.value.time else MaxFloat
  }

  /** The test in the scan: a hit strictly before `bound`. */
  predicate Beats(h: Intersection, bound: real) {
    h.Hit? && h.time < bound
  }

  /** The choice of `CastRay`'s scan after looking at the first n spheres. */
  function NearestHit(scene: seq<Sphere>, ray: Ray, sqrt: real -> real, n: nat): (best: Option<Pick>)
    requires n <= |scene|
  {
    if n == 0 then None
    else
      var before := NearestHit(scene, ray, sqrt, n - 1);
      var h := TestSphere(ray, scene[n - 1], sqrt);
      if Beats(h, Bound(before)) then Some(Pick(n - 1, scene[n - 1], h.time, h.position)) else before
  }

  /**
    The scan is an arg-min with first-index tie-breaking: nothing is chosen iff no sphere among the
    first n has a hit below the sentinel; otherwise the chosen sphere's hit is below the sentinel,
    every earlier sphere's hit is strictly later and every later sphere's hit is no earlier.
   */
  lemma {:induction false} NearestIsFirstMinimum(scene: seq<Sphere>, ray: Ray, sqrt: real -> real, n: nat)
    requires n <= |scene|
    ensures var best := NearestHit(scene, ray, sqrt, n);
      (best.None? <==> forall j :: 0 <= j < n ==> !Beats(TestSphere(ray, scene[j], sqrt), MaxFloat))
      && (best.Some? ==>
            var p := best.value;
            p.index < n && p.sphere == scene[p.index]
            && TestSphere(ray, p.sphere, sqrt) == Hit(p.time, p.position)
            && p.time < MaxFloat
            && (forall j :: 0 <= j < p.index && TestSphere(ray, scene[j], sqrt).Hit? ==>
                  p.time < TestSphere(ray, scene[j], sqrt).time)
            && (forall j :: p.index < j < n && TestSphere(ray, scene[j], sqrt).Hit? ==>
                  p.time <= TestSphere(ray, scene[j], sqrt).time))
  {
    if n > 0 {
      NearestIsFirstMinimum(scene, ray, sqrt, n - 1);
    }
  }
}
