/**
  The progressive renderer object: its configuration fields, the accumulation and normalised
  pixel buffers updated in place, and the ray counter.
 */
module Renderer {
  import opened Wrappers
  import opened Linear
  import opened Quadratic
  import opened Intersect
  import opened Viewing
  import opened Paths

  /** A buffer of `n` copies of black, what `BeginRender` fills the accumulation buffer with. */
  function BlackBuffer(n: nat): (s: seq<Color>)
    ensures |s| == n && forall k :: 0 <= k < n ==> s[k] == Black
  {
    seq(n, _ => Black)
  }

  class Tracer {
    var screenWidth: int
    var screenHeight: int
    var raysPerFrame: int
    var maxReflection: int
    var exposure: real
    var startButton: bool
    /** The scene snapshot (`objects`), with centre and radius already taken from each transform. */
    var objects: seq<Sphere>
    var camera: Camera
    /** `Mathf.Sqrt`. */
    const sqrt: real -> real

    /** Samples taken since the last restart. */
    var rayCount: nat
    var accumulatedPixels: array<Color>
    var normalizedPixels: array<Color>

    /** The inputs the samples depend on. */
    function Inputs(): Setup
      reads this
    {
      Setup(objects, camera, screenWidth, screenHeight, maxReflection, sqrt)
    }

    /** Both buffers hold one cell per pixel and are distinct arrays. */
    ghost predicate Valid()
      reads this
    {
      Inputs().Valid()
      && accumulatedPixels.Length == screenWidth * screenHeight
      && normalizedPixels.Length == accumulatedPixels.Length
      && accumulatedPixels != normalizedPixels
    }

    /**
      Creation with the inspector's field values followed by `Start`, which begins the first
      render pass; a start button set in the inspector stays set for the first `Update`.
     */
    constructor (screenWidth: int, screenHeight: int, raysPerFrame: int, maxReflection: int,
                 exposure: real, startButton: bool, objects: seq<Sphere>, camera: Camera, sqrt: real -> real)
      requires screenWidth > 0 && screenHeight > 0 && camera.tanHalfFov > 0.0
      ensures Valid() && this.startButton == startButton
      ensures Inputs() == Setup(objects, camera, screenWidth, screenHeight, maxReflection, sqrt)
      ensures this.raysPerFrame == raysPerFrame && this.exposure == exposure
      ensures rayCount == 0 && accumulatedPixels[..] == BlackBuffer(screenWidth * screenHeight)
      ensures fresh(accumulatedPixels) && fresh(normalizedPixels)
    {
      this.screenWidth, this.screenHeight := screenWidth, screenHeight;
      this.raysPerFrame, this.maxReflection, this.exposure := raysPerFrame, maxReflection, exposure;
      this.objects, this.camera, this.sqrt := objects, camera, sqrt;
      this.startButton := startButton;
      rayCount := 0;
      accumulatedPixels := new Color[0];
      normalizedPixels := new Color[0];
      new;
      BeginRender();
    }

    /**
      `BeginRender`: fresh buffers of one cell per pixel, the accumulation buffer all black,
      the normalised one all `default(Color)`, and the counter back to zero.
     */
    method BeginRender()
      requires Inputs().Valid()
      modifies this`accumulatedPixels, this`normalizedPixels, this`rayCount
      ensures Valid()
      ensures fresh(accumulatedPixels) && fresh(normalizedPixels)
      ensures accumulatedPixels[..] == BlackBuffer(screenWidth * screenHeight)
      ensures forall k :: 0 <= k < normalizedPixels.Length ==> normalizedPixels[k] == Clear
      ensures rayCount == 0
    {
      accumulatedPixels := new Color[screenWidth * screenHeight](_ => Clear);
      normalizedPixels := new Color[accumulatedPixels.Length](_ => Clear);
      rayCount := 0;
      for i := 0 to accumulatedPixels.Length
        invariant forall k :: 0 <= k < i ==> accumulatedPixels[k] == Black
        modifies accumulatedPixels
      {
        accumulatedPixels[i] := Black;
      }
    }

    /**
      `Update`: a pressed start button is cleared and restarts the pass; then one batch is rendered.
     */
    method Update(draws: seq<Draw>)
      requires Inputs().Valid() && (startButton || Valid())
      requires |draws| == Steps(raysPerFrame) && UnitDraws(draws)
      requires (if startButton then 0 else rayCount) + |draws| > 0
      modifies this`startButton, this`accumulatedPixels, this`normalizedPixels, this`rayCount
      modifies accumulatedPixels, normalizedPixels
      ensures Valid() && !startButton
      ensures old(startButton) ==>
        (fresh(accumulatedPixels) && fresh(normalizedPixels)
         && rayCount == |draws|
         && accumulatedPixels[..] == Batch(Inputs(), BlackBuffer(screenWidth * screenHeight), draws))
      ensures !old(startButton) ==>
        (accumulatedPixels == old(accumulatedPixels) && normalizedPixels == old(normalizedPixels)
         && rayCount == old(rayCount) + |draws|
         && accumulatedPixels[..] == Batch(Inputs(), old(accumulatedPixels[..]), draws))
      ensures forall k :: 0 <= k < normalizedPixels.Length ==>
        normalizedPixels[k] == accumulatedPixels[k].Scale(NormalizationFactor(screenWidth, screenHeight, rayCount, exposure))
    {
      if startButton {
        startButton := false;
        BeginRender();
      }
      Render(draws);
    }

    /**
      `Render`: one batch of samples, then every normalised cell becomes the accumulated cell
      scaled by (w*h)/rayCount*exposure.
     */
    method Render(draws: seq<Draw>)
      requires Valid()
      requires |draws| == Steps(raysPerFrame) && UnitDraws(draws)
      requires rayCount + |draws| > 0
      modifies this`rayCount, accumulatedPixels, normalizedPixels
      ensures Valid()
      ensures rayCount == old(rayCount) + |draws|
      ensures accumulatedPixels[..] == Batch(Inputs(), old(accumulatedPixels[..]), draws)
      ensures forall k :: 0 <= k < normalizedPixels.Length ==>
        normalizedPixels[k] == accumulatedPixels[k].Scale(NormalizationFactor(screenWidth, screenHeight, rayCount, exposure))
    {
      var i := 0;
      while i < raysPerFrame
        invariant 0 <= i <= |draws|
        invariant Valid()
        invariant rayCount == old(rayCount) + i
        invariant accumulatedPixels[..] == Batch(Inputs(), old(accumulatedPixels[..]), draws[..i])
        modifies this`rayCount, accumulatedPixels
      {
        assert draws[..i + 1][..i] == draws[..i];
        Sample(draws[i]);
        i := i + 1;
      }
      assert draws[..i] == draws;
      Normalize();
    }

    /** The second half of `Render`: every normalised cell becomes the accumulated cell scaled by (w*h)/rayCount*exposure. */
    method Normalize()
      requires Valid() && rayCount > 0
      modifies normalizedPixels
      ensures forall k :: 0 <= k < normalizedPixels.Length ==>
        normalizedPixels[k] == accumulatedPixels[k].Scale(NormalizationFactor(screenWidth, screenHeight, rayCount, exposure))
    {
      var normalizedFactor := (screenWidth * screenHeight) as real / rayCount as real * exposure;
      for j := 0 to accumulatedPixels.Length
        invariant forall k :: 0 <= k < j ==> normalizedPixels[k] == accumulatedPixels[k].Scale(normalizedFactor)
        modifies normalizedPixels
      {
        normalizedPixels[j] := accumulatedPixels[j].Scale(normalizedFactor);
      }
    }

    /**
      `Sample`: one walk of at most `maxReflection` casts, stopping at the first miss, whose colour
      is added to the one cell of the generated pixel; the counter grows by one.
     */
    method Sample(draw: Draw)
      requires Valid() && UnitDraw(draw)
      modifies this`rayCount, accumulatedPixels
      ensures rayCount == old(rayCount) + 1
      ensures var c := SampleOf(Inputs(), draw);
        accumulatedPixels[..] == old(accumulatedPixels[..])[c.index := old(accumulatedPixels[c.index]).Add(c.color)]
    {
      var generated := GenerateRay(camera, screenWidth, screenHeight, draw.u, draw.v, sqrt);
      var x, y := generated.x, generated.y;
      var color := Trace(generated.ray, draw.bounce);
      PixelIndexInBounds(x, y, screenWidth, screenHeight);
      var index := (y * screenWidth) + x;
      accumulatedPixels[index] := accumulatedPixels[index].Add(color);
      rayCount := rayCount + 1;
    }

    /**
      The loop of `Sample`: starting black with a white albedo, each hit adds its emission times the
      albedo so far and then multiplies the albedo by its own; the first miss ends the walk.
     */
    method Trace(start: Ray, bounce: nat -> Vec3) returns (color: Color)
      ensures color == WalkAfter(objects, start, bounce, sqrt, Steps(maxReflection)).color
    {
      var ray := start;
      color := Black;
      var albedo := White;
      ghost var steps := Steps(maxReflection);
      var i := 0;
      while i < maxReflection
        invariant 0 <= i <= steps
        invariant var w := WalkAfter(objects, start, bounce, sqrt, i);
          !w.stopped && w.ray == ray && w.color == color && w.albedo == albedo
      {
        var hitObject, reflectedRay := CastRay(ray, bounce(i));
        if hitObject.Some? {
          var s := hitObject.value;
          if s.material.Some? {
            var material := s.material.value;
            color := color.Add(material.emission.Mul(albedo));
            albedo := albedo.Mul(material.albedo);
          }
          ray := reflectedRay;
        } else {
          MissEndsWalk(objects, start, bounce, sqrt, i, steps);
          break;
        }
        i := i + 1;
      }
    }

    /**
      `CastRay`: the nearest sphere the ray hits below the sentinel, by a linear scan with strict `<`,
      and the reflected ray from its hit position in the drawn direction; none on a miss.
     */
    method CastRay(ray: Ray, bounce: Vec3) returns (hitObject: Option<Sphere>, reflectedRay: Ray)
      ensures match NearestHit(objects, ray, sqrt, |objects|)
        case None => hitObject == None && reflectedRay == Ray(Zero3, Zero3)
        case Some(p) => hitObject == Some(p.sphere) && reflectedRay == Ray(p.position, bounce)
    {
      reflectedRay := Ray(Zero3, Zero3);
      hitObject := None;
      var minHitTime := MaxFloat;
      ghost var best: Option<Pick> := None;
      for i := 0 to |objects|
        invariant best == NearestHit(objects, ray, sqrt, i)
        invariant minHitTime == Bound(best)
        invariant best.None? ==> hitObject == None && reflectedRay == Ray(Zero3, Zero3)
        invariant best.Some? ==> hitObject == Some(best.value.sphere) && reflectedRay == Ray(best.value.position, bounce)
      {
        var h := TestIntersection(ray, objects[i].center, objects[i].radius, sqrt);
        if h.Hit? {
          if h.time < minHitTime {
            minHitTime := h.time;
            reflectedRay := Ray(h.position, bounce);
            hitObject := Some(objects[i]);
            best := Some(Pick(i, objects[i], h.time, h.position));
          }
        }
      }
    }
  }
}
