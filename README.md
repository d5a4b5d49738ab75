# MinimumRaytracingOnUnity — a verified model of the path tracer core

`Assets/Main.cs` is a small progressive path tracer that runs as a Unity behaviour.

- Every frame, `Update` may restart the pass when the start button is set. It then calls `Render`.
- `Render` takes `raysPerFrame` samples and writes a normalised copy of the accumulation buffer.
- Each `Sample` shoots a camera ray through a random pixel (`GenerateRay`). It then follows at most `maxReflection` casts:
  - `CastRay` finds the nearest sphere by a linear scan over `TestIntersection`;
  - `TestIntersection` solves a quadratic (`SolveQuadratic`) and discards roots below a self-intersection bias of 0.01;
  - each hit adds its emission, weighted by the albedo gathered so far, and then multiplies that albedo by its own;
  - a miss ends the walk.
- The colour is added to one cell of the buffer, and the ray counter grows by one.

The model works over exact reals. The square root, the random values and the camera transform are parameters.

- **`linear.dfy`, module `Linear`:** vectors and RGBA colours.
- **`quadratic.dfy`, module `Quadratic`:** the solver, with the square root supplied by the caller.
- **`intersect.dfy`, module `Intersect`:** rays, spheres and materials, and the ray/sphere test. Also `NearestHit`, the choice `CastRay` makes after looking at the first n spheres, with its arg-min lemma.
- **`viewing.dfy`, module `Viewing`:** the camera, the pixel chosen for a pair of unit random values, and the camera ray.
- **`paths.dfy`, module `Paths`:** what one sample and one batch compute.
  - `WalkAfter` is the state of a walk after k casts: hits, next ray, stopped flag, colour and albedo.
  - `PathColor` and `Throughput` are the closed forms of that colour and albedo over the hits.
  - `SampleOf` is the cell and colour one sample contributes.
  - `Batch` is the buffer after a run of samples.
- **`renderer.dfy`, module `Renderer`:** the class `Tracer`.
  - Its fields are the behaviour's configuration, the counter and the two buffers, the buffers being `array`s updated in place.
  - Its methods `BeginRender`, `Update`, `Render`, `Sample`, `Trace`, `Normalize` and `CastRay` are each proved against the functions above. The loops (in `BeginRender`, `Render`, `Normalize`, `Trace` and `CastRay`) carry invariants.
- **`wrappers.dfy`:** `Option`.

In two places the model splits a source method into two Dafny methods:

- The bounce loop of `Sample` (`Assets/Main.cs:76-102`) is the method `Trace`.
- The normalisation loop of `Render` (`Assets/Main.cs:63-67`) is the method `Normalize`.

Each split keeps one solver query small. The behaviour is the same.

Degenerate quadratics:

- When a2 == 0 and the discriminant is non-negative, the formula divides by zero. In IEEE arithmetic this gives an infinite or NaN root.
- The model calls this outcome `ZeroLeading`. For a ray and a sphere it arises exactly for the zero direction, where both roots are 0/0 = NaN.
- `TestIntersection` then reports true with a NaN time. The model calls that `UnorderedHit`.
- `CastRay`'s `hitTime < minHitTime` never selects such a hit. `NearestHit` does the same.

The camera ray is taken as the code builds it:

- Only the buffer cell is quantised: its coordinates are the truncation of `Random.value * size`, clamped to size - 1. The ray itself passes through the unquantised random point (u*w - w/2, v*h - h/2) of the image plane, not through a pixel's centre.
- `GenerateRay` builds a direction vector that is not of unit length and assigns it to `ray.direction`. Unity's `Ray.direction` setter stores that vector normalised, and the model does the same (`Viewing.Normalized`, with the square root as a parameter). Hit times, and so the comparison with the bias 0.01, are therefore measured in world units along the camera ray, as in the running program.

## Model

| member | source | states |
|---|---|---|
| Quadratic.SolveQuadratic | Assets/Main.cs:215-229 | The solver reports no real solution exactly when a1*a1 - 4*a2*a0 < 0. It reports the divide-by-zero outcome exactly when that discriminant is non-negative and a2 == 0. Otherwise it returns the two roots of the formula. |
| Quadratic.NoRealSolutionMeansNoZero | Assets/Main.cs:219-228 | When the solver reports no real solution, the polynomial has no real zero at all. |
| Quadratic.RootsAreZeros | Assets/Main.cs:219-226 | With a true square root of the discriminant, both reported roots x0 and x1 are zeros of a2*x*x + a1*x + a0. |
| Quadratic.RootsOrdered | Assets/Main.cs:224-225 | x0 takes the minus branch, so x0 <= x1 when a2 > 0 and x1 <= x0 when a2 < 0. |
| Quadratic.EveryZeroIsARoot | Assets/Main.cs:215-229 | Completeness: every real zero of a quadratic with a2 != 0 is one of the two reported roots. |
| Quadratic.SolveExample | Assets/Main.cs:215-229 | x^2 - 4 gives the roots -2 and 2; x^2 + 4 has no real solution. |
| Linear.DotSelf | Assets/Main.cs:166 | Dot(B, B), the leading coefficient, is non-negative and is zero exactly for the zero direction. |
| Intersect.TestIntersection | Assets/Main.cs:138-212 | A reported hit has time at least the bias 0.01, and its position is origin + direction * time. |
| Intersect.SphereCoefficients | Assets/Main.cs:163-173 | Defines the coefficients bb, 2*db and dd - r*r. `DistanceIsQuadratic` states what they mean. |
| Intersect.PointAt | Assets/Main.cs:208 | Defines the point origin + direction * t on a ray. |
| Intersect.DistanceIsQuadratic | Assets/Main.cs:163-173 | The coefficients bb, 2*db and dd - r*r make the quadratic equal to the squared distance from the centre to the ray's point at t, minus r^2. |
| Intersect.HitIffRootBeyondBias | Assets/Main.cs:170-211 | For a non-zero direction: the solver finds roots iff the discriminant is non-negative. A hit is reported iff there are roots and one of them is >= 0.01, and then the hit time is the least root >= 0.01. Every other outcome is a miss. |
| Intersect.UnorderedExactlyForZeroDirection | Assets/Main.cs:166-175 | The NaN-time hit happens exactly when the ray's direction is the zero vector. |
| Intersect.HitOnSurface | Assets/Main.cs:205-209 | With a true square root, a hit position lies on the sphere's surface. |
| Intersect.HitIsFirstCrossing | Assets/Main.cs:177-203 | If the ray's point at some t >= 0.01 lies on the sphere, then a hit is reported with time at most t. |
| Intersect.LeavingSurfaceMisses | Assets/Main.cs:177-203 | The bias at work: a ray starting on a sphere's surface and pointing outwards does not hit that sphere. |
| Intersect.UnitSphereExample | Assets/Main.cs:138-212 | From z = -5 towards the unit sphere, the hit is at time 4 at (0, 0, -1); a sideways ray misses. |
| Intersect.NearestHit | Assets/Main.cs:111-134 | Defines the choice of the scan after n spheres: a sphere replaces the current choice only when its hit time is strictly below the current minimum, starting from float.MaxValue. `NearestIsFirstMinimum` states its arg-min property. |
| Intersect.NearestIsFirstMinimum | Assets/Main.cs:111-135 | The scan is an arg-min with first-index tie-breaking. Nothing is chosen iff no sphere has a hit below the float.MaxValue sentinel. Otherwise the chosen sphere's own hit is the reported one. Every earlier sphere's hit is strictly later, and every later sphere's hit is no earlier. |
| Viewing.Truncate | Assets/Main.cs:236-237 | The `(int)` cast truncates toward zero: the floor for non-negative values, the ceiling for negative ones. |
| Viewing.PixelCoordinate | Assets/Main.cs:234-237 | For a unit value in [0, 1], the coordinate is in [0, size). It is the floor of unit * size, except that unit == 1 is clamped to size - 1. |
| Viewing.PixelIndexInBounds | Assets/Main.cs:103 | For a pixel inside the screen, (y * screenWidth) + x is inside the buffer of screenWidth * screenHeight cells. |
| Viewing.PixelIndexInjective | Assets/Main.cs:103 | Distinct pixels have distinct buffer indices. |
| Viewing.GenerateRay | Assets/Main.cs:232-250 | The pixel (x, y) is the truncate-and-clamp `PixelCoordinate` of each unit value, and lies inside the screen. The ray starts at the camera position. Its direction is the world image of the centred screen offset and the image-plane distance, normalised as the `Ray` setter stores it. |
| Viewing.ViewDirection | Assets/Main.cs:234-242 | Defines the camera-space vector (u*w - w/2, v*h - h/2, z) with z = (h/2)/tan(fov/2). `ImagePlaneSpansFov` states what it spans. |
| Viewing.ToWorld | Assets/Main.cs:244 | Defines `TransformVector` as the combination of the camera's three axis images. |
| Viewing.Normalized | Assets/Main.cs:248 | Defines the normalisation the `Ray.direction` setter applies: the vector over its length, or zero when that length is not positive. `NormalizedIsUnit` states its properties. |
| Viewing.NormalizedIsUnit | Assets/Main.cs:248 | With a true square root, a non-zero direction is stored as a positive multiple of itself with unit length, and the zero direction stays zero. |
| Viewing.PixelIndex | Assets/Main.cs:103 | Defines the row-major index (y * screenWidth) + x. `PixelIndexInBounds` and `PixelIndexInjective` state its properties. |
| Viewing.ImagePlaneSpansFov | Assets/Main.cs:239-244 | With z = (h/2)/tan(fov/2), the slope dy/dz runs linearly from -tan(fov/2) to tan(fov/2), and dx/dz covers the same range times width/height. |
| Paths.WalkAfter | Assets/Main.cs:76-101 | Defines the state of the bounce loop after k casts: the hits so far, the ray to cast next, whether a cast has missed, and the colour and albedo. The lemmas below and `Tracer.Trace` state its properties. |
| Paths.WalkLength | Assets/Main.cs:79-101 | After k casts, a walk that has not missed has exactly k hits, and one that has missed has fewer than k. |
| Paths.StoppedStays | Assets/Main.cs:98-101 | After the first miss the loop is left: any number of further casts changes nothing. |
| Paths.MissEndsWalk | Assets/Main.cs:98-101 | A miss at cast k gives the final walk for every larger limit: the walk after k casts, marked stopped. |
| Paths.WalkExtends | Assets/Main.cs:79-102 | The hits of the first k casts are a prefix of the hits of any longer walk. |
| Paths.WalkInScene | Assets/Main.cs:82 | Every hit sphere is one of the scene's objects, so an empty scene gives no hits. |
| Paths.WalkColor | Assets/Main.cs:76-97 | The colour the loop accumulates is PathColor(hits), the sum over hits with a material of emission(h_i) * product over j < i of albedo(h_j). The albedo it carries is Throughput(hits). |
| Paths.UnrenderedHitChangesNothing | Assets/Main.cs:85-96 | A hit object without a renderer leaves the colour and the throughput unchanged. |
| Paths.PathColorAtLeastBlack | Assets/Main.cs:76-97 | With non-negative materials, the colour is at least black channel by channel and the throughput is at least zero. |
| Paths.SampleOf | Assets/Main.cs:72-105 | The cell a sample adds to is always inside the buffer. |
| Paths.NoReflectionIsBlack | Assets/Main.cs:76-79 | With maxReflection <= 0 a sample contributes plain black (alpha 1). |
| Paths.EmptySceneIsBlack | Assets/Main.cs:79-101 | In an empty scene every walk misses at once, and a sample contributes plain black. |
| Paths.Batch | Assets/Main.cs:57-62 | A batch keeps the buffer's length, one cell per pixel. What it adds to each cell is stated by the lemmas below and by `Render`. |
| Paths.BatchMonotone | Assets/Main.cs:57-62 | With non-negative materials, no channel of any cell decreases over a batch. |
| Paths.EmptySceneBatchKeepsRgb | Assets/Main.cs:57-62 | In an empty scene a batch changes no cell's red, green or blue. |
| Paths.NormalizationFactor | Assets/Main.cs:63 | Defines the factor (screenWidth * screenHeight) / rayCount * exposure. `NormalizationUndoesDensity` states what it does. |
| Paths.NormalizationUndoesDensity | Assets/Main.cs:63 | The factor (w*h)/rayCount*exposure undoes the sample density. A cell that received its expected share of samples of colour c ends up as c * exposure. |
| Renderer.Tracer.constructor | Assets/Main.cs:25-28 | `Start`: the object is valid, with both buffers of w*h cells, the accumulation buffer all black, the counter zero. The start button keeps the value it was given, as `Start` leaves the serialized field untouched. |
| Renderer.Tracer.BeginRender | Assets/Main.cs:30-41 | Both buffers are fresh with w*h cells. Every accumulated cell is black with alpha 1, every normalised cell is default(Color), and rayCount == 0. |
| Renderer.Tracer.Update | Assets/Main.cs:43-53 | Afterwards the start button is clear. If it was set, the pass restarts on fresh black buffers before the batch. Otherwise the batch accumulates onto the old buffers. Either way rayCount moves accordingly and the normalised buffer is the scaled accumulation buffer. |
| Renderer.Tracer.Render | Assets/Main.cs:55-70 | rayCount grows by raysPerFrame. The accumulation buffer becomes Batch of the old buffer and the draws. Every normalizedPixels[i] == accumulatedPixels[i] * ((w*h)/rayCount * exposure). |
| Renderer.Tracer.Normalize | Assets/Main.cs:63-67 | Every normalised cell is the accumulated cell scaled by (w*h)/rayCount*exposure. The accumulation buffer is untouched. |
| Renderer.Tracer.Sample | Assets/Main.cs:72-105 | Only cell (y * screenWidth) + x changes, and it gains the sample's colour. rayCount grows by exactly one. |
| Renderer.Tracer.Trace | Assets/Main.cs:76-102 | The loop's colour is the colour of the walk of at most maxReflection casts that stops at the first miss. |
| Renderer.Tracer.CastRay | Assets/Main.cs:108-135 | The returned object and reflected ray are those of the scan's choice. A miss returns null and the default ray. |

## Left out

- Unity presentation is not modelled: `RawImage`, `Texture2D`, `SetPixels`/`Apply` and the `rayCountText` string (`Assets/Main.cs:34-35, 52, 68-69`). These are display only.
- Floating point is not modelled. All arithmetic is exact `real` arithmetic, so there is no rounding, overflow to infinity, or NaN. The one NaN case that changes control flow is modelled explicitly (`ZeroLeading`, `UnorderedHit`), and `0.01f` is taken as the real 0.01.
- `Mathf.Sqrt`, `Mathf.Tan` and `Deg2Rad` are parameters. The square root is a caller-supplied function, and lemmas that need it to be a true square root require that at the discriminant in question. The camera carries tan(fov/2) directly.
- Engine transforms are not modelled: `mainCamera.transform` and `objects[i].position`/`localScale`. The camera is given as a position and three axis images, and each sphere as a centre and a radius, where the radius stands for localScale.x * 0.5.
- Material lookup through `GetComponent<Renderer>()` and `GetColor("_Color")`/`GetColor("_EmissionColor")` is replaced by an optional material record per sphere (albedo, emission).
- `Random.value` and `Random.Range` are replaced by a `Draw` per sample. A `Draw` holds two unit values for the pixel and one bounce direction per cast number.
  - The source draws a fresh direction each time the scan finds a nearer sphere, and the last draw is the one kept. The model takes the kept direction as the oracle's value for that cast.
  - `Vector3.Normalize` of that direction is part of the oracle.
  - The `x`, `y` drawn in `Render` at `Assets/Main.cs:59-60` are never used. They are not modelled.
- Intersect.TestIntersection: the failure-path values of the out parameters are not carried. These are x0 = x1 = float.MaxValue in `SolveQuadratic`, and hitTime = float.MaxValue and hitPosition = zero in `TestIntersection`. The only caller reads them only after a true return.
- Quadratic.SolveQuadratic: the same applies to its failure-path out values.
- The sentinel `minHitTime = float.MaxValue` of `CastRay` is modelled. A hit at or beyond it is never chosen.
- Renderer.Tracer.Render: the counter is an unbounded `nat`, whereas the source's `double` rayCount would lose precision past 2^53.
- Renderer.Tracer.Render: the requirement `rayCount + raysPerFrame > 0` replaces the division by zero (an IEEE infinity or NaN factor) that the source would compute after a batch of no samples.
- Renderer.Tracer.BeginRender: the 32-bit `int` product screenWidth * screenHeight is taken as exact. Positive dimensions and a positive tan(fov/2) are required. On a screen with no pixels the clamp at `Assets/Main.cs:236-237` gives the coordinate -1, and the write at `Assets/Main.cs:103` then falls outside the array; that failure is not modelled.
- Viewing.Normalized: Unity's `Vector3.normalized` returns zero below a small positive magnitude threshold. The model returns zero only when the magnitude is not positive, because exact reals have no rounding to guard against.
- Renderer.Tracer.CastRay: the reflected direction is stored as the oracle gives it. The source normalises it at `Assets/Main.cs:128` and the setter normalises it again; the oracle's value stands for the result of both.
- Concurrency and frame timing are not modelled: `Update` is modelled as one call with the draws of one frame.
