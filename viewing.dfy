/**
  Camera ray generation (`GenerateRay`): a unit random pair picks a pixel and a pinhole ray
  through the corresponding point of the image plane.
 */
module Viewing {
  import opened Linear
  import opened Quadratic
  import opened Intersect

  /**
    The camera snapshot: its position, the world images of its local x, y and z axes (what
    `TransformVector` multiplies by) and the tangent of half the vertical field of view.
   */
  datatype Camera = Camera(position: Vec3, right: Vec3, up: Vec3, forward: Vec3, tanHalfFov: real)

  /** The C# `(int)` cast of a float: truncation toward zero. */
  function Truncate(r: real): (t: int)
    ensures 0.0 <= r ==> t as real <= r < t as real + 1.0
    ensures r < 0.0 ==> t as real - 1.0 < r <= t as real
  {
    if r >= 0.0 then r.Floor else -((-r).Floor)
  }

  /** `Mathf.Min` on ints. */
  function MinInt(a: int, b: int): int {
    if a < b then a else b
  }

  /**
    One screen coordinate: the unit value scaled to the screen, truncated, and clamped to size - 1.
    It is always a valid coordinate; the clamp changes the truncated value only for unit == 1.
   */
  function PixelCoordinate(unit: real, size: int): (c: int)
    requires size > 0 && 0.0 <= unit <= 1.0
    ensures 0 <= c < size
    ensures unit < 1.0 ==> c as real <= unit * size as real < c as real + 1.0
    ensures unit == 1.0 ==> c == size - 1
  {
    ScaledUnit(unit, size as real);
    var t := Truncate(unit * size as real);
    assert 0 <= t && t as real <= unit * size as real < t as real + 1.0;
    MinInt(t, size - 1)
  }

  /** A unit value scaled by a positive size lands in [0, size], below size unless the value is 1. */
  lemma ScaledUnit(unit: real, size: real)
    requires 0.0 < size && 0.0 <= unit <= 1.0
    ensures 0.0 <= unit * size <= size
    ensures unit < 1.0 ==> unit * size < size
    ensures unit == 1.0 ==> unit * size == size
  {
    assert size - unit * size == (1.0 - unit) * size;
  }

  /** The row-major index of pixel (x, y) in a buffer `width` pixels wide. */
  function PixelIndex(x: int, y: int, width: int): int {
    (y * width) + x
  }

  /** A pixel inside the screen has an index inside the buffer. */
  lemma PixelIndexInBounds(x: int, y: int, width: int, height: int)
    requires 0 <= x < width && 0 <= y < height
    ensures 0 <= PixelIndex(x, y, width) < width * height
  {
    assert y * width <= (height - 1) * width by {
      assert (height - 1 - y) * width >= 0;
    }
    assert (height - 1) * width + width == width * height;
  }

  /** Distinct pixels have distinct indices, so one sample touches exactly one pixel's cell. */
  lemma PixelIndexInjective(x: int, y: int, x': int, y': int, width: int)
    requires 0 <= x < width && 0 <= x' < width && 0 <= y && 0 <= y'
    requires PixelIndex(x, y, width) == PixelIndex(x', y', width)
    ensures x == x' && y == y'
  {
    if y < y' {
      RowGap(y, y', width);
      assert false;
    } else if y' < y {
      RowGap(y', y, width);
      assert false;
    }
  }

  /** Rows further down start at least one full row later. */
  lemma RowGap(y: int, y': int, width: int)
    requires y < y' && 0 <= width
    ensures y' * width - y * width >= width
  {
    assert y' * width - y * width == (y' - y) * width;
    assert (y' - y - 1) * width >= 0;
  }

  /** The direction in camera space: centred screen position and the image-plane distance z. */
  function ViewDirection(width: int, height: int, u: real, v: real, tanHalfFov: real): Vec3
    requires tanHalfFov != 0.0
  {
    var sx := u * width as real;
    var sy := v * height as real;
    var z := height as real * 0.5 / tanHalfFov;
    Vec3(sx - width as real * 0.5, sy - height as real * 0.5, z)
  }

  /** `TransformVector`: camera space to world space. */
  function ToWorld(camera: Camera, d: Vec3): Vec3 {
    camera.right.Scale(d.x).Add(camera.up.Scale(d.y)).Add(camera.forward.Scale(d.z))
  }

  /**
    `Vector3.normalized`, which `Ray`'s direction setter applies: the vector divided by its
    length, or the zero vector when that length is not positive.
   */
  function Normalized(v: Vec3, sqrt: real -> real): Vec3 {
    var magnitude := sqrt(v.Dot(v));
    if magnitude > 0.0 then v.Scale(1.0 / magnitude) else Zero3
  }

  /** With a true square root, a non-zero vector normalises to a unit vector pointing the same way. */
  lemma NormalizedIsUnit(v: Vec3, sqrt: real -> real)
    requires SqrtAt(sqrt, v.Dot(v))
    ensures v != Zero3 ==>
      sqrt(v.Dot(v)) > 0.0
      && var n, k := Normalized(v, sqrt), 1.0 / sqrt(v.Dot(v));
      0.0 < k && n == v.Scale(k) && n.Dot(n) == 1.0
    ensures v == Zero3 ==> Normalized(v, sqrt) == Zero3
  {
    var d := v.Dot(v);
    var s := sqrt(d);
    DotSelf(v);
    assert 0.0 <= s && s * s == d;
    if v != Zero3 {
      assert 0.0 < d;
      PositiveRoot(s, d);
      var k := 1.0 / s;
      assert Normalized(v, sqrt) == v.Scale(k);
      ScaledDot(v, k);
      InverseSquare(s, d);
    } else {
      assert d == 0.0;
      RootOfZero(s, d);
    }
  }

  lemma RootOfZero(s: real, d: real)
    requires s * s == d && d == 0.0
    ensures s == 0.0
  {
    SquareZero(s);
  }

  lemma PositiveRoot(s: real, d: real)
    requires 0.0 <= s && s * s == d && 0.0 < d
    ensures 0.0 < s && 0.0 < 1.0 / s
  {
  }

  /** Scaling a vector by k scales its squared length by k*k. */
  lemma ScaledDot(v: Vec3, k: real)
    ensures v.Scale(k).Dot(v.Scale(k)) == v.Dot(v) * (k * k)
  {
    assert (v.x * k) * (v.x * k) == (v.x * v.x) * (k * k);
    assert (v.y * k) * (v.y * k) == (v.y * v.y) * (k * k);
    assert (v.z * k) * (v.z * k) == (v.z * v.z) * (k * k);
  }

  lemma InverseSquare(s: real, d: real)
    requires s > 0.0 && s * s == d
    ensures d * ((1.0 / s) * (1.0 / s)) == 1.0
  {
    var k := 1.0 / s;
    assert s * k == 1.0;
    assert d * (k * k) == (s * k) * (s * k);
  }

  /** A generated ray and the pixel it is accumulated into. */
  datatype CameraSample = CameraSample(ray: Ray, x: int, y: int)

  /**
    `GenerateRay`: the pixel is the truncated and clamped screen position, the ray starts at the
    camera, and its direction is the world image of the view-space vector as the `Ray` setter
    stores it, normalised.
   */
  function GenerateRay(camera: Camera, width: int, height: int, u: real, v: real, sqrt: real -> real): (s: CameraSample)
    requires width > 0 && height > 0 && 0.0 <= u <= 1.0 && 0.0 <= v <= 1.0
    requires camera.tanHalfFov > 0.0
    ensures 0 <= s.x < width && 0 <= s.y < height
    ensures s.x == PixelCoordinate(u, width) && s.y == PixelCoordinate(v, height)
    ensures s.ray.origin == camera.position
    ensures s.ray.direction == Normalized(ToWorld(camera, ViewDirection(width, height, u, v, camera.tanHalfFov)), sqrt)
  {
    var x := PixelCoordinate(u, width);
    var y := PixelCoordinate(v, height);
    var dir := ToWorld(camera, ViewDirection(width, height, u, v, camera.tanHalfFov));
    CameraSample(Ray(camera.position, Normalized(dir, sqrt)), x, y)
  }

  /**
    The image plane spans exactly the vertical field of view: the camera-space slope dy/dz runs
    linearly from -tan(fov/2) at v = 0 to tan(fov/2) at v = 1, while dx/dz runs over the same
    range scaled by the aspect ratio width/height.
   */
  lemma ImagePlaneSpansFov(width: int, height: int, u: real, v: real, tanHalfFov: real)
    requires width > 0 && height > 0 && tanHalfFov > 0.0
    ensures var d := ViewDirection(width, height, u, v, tanHalfFov);
      d.z > 0.0
      && d.y / d.z == (2.0 * v - 1.0) * tanHalfFov
      && d.x / d.z == (2.0 * u - 1.0) * tanHalfFov * (width as real / height as real)
  {
    var h, w := height as real, width as real;
    var d := ViewDirection(width, height, u, v, tanHalfFov);
    assert d.z * tanHalfFov == h * 0.5;
    assert d.y == (2.0 * v - 1.0) * (h * 0.5);
    assert d.x == (2.0 * u - 1.0) * (w * 0.5);
    assert d.z * (2.0 * tanHalfFov / h) == 1.0;
  }
}
