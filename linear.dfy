/** Exact real counterparts of Unity's `Vector3` and `Color` value types. */
module Linear {

  /** A `Vector3`, with the operators the tracer uses. */
  datatype Vec3 = Vec3(x: real, y: real, z: real) {
    function Add(o: Vec3): Vec3 { Vec3(x + o.x, y + o.y, z + o.z) }
    function Sub(o: Vec3): Vec3 { Vec3(x - o.x, y - o.y, z - o.z) }
    function Scale(k: real): Vec3 { Vec3(x * k, y * k, z * k) }
    function Dot(o: Vec3): real { x * o.x + y * o.y + z * o.z }
  }

  /** `Vector3.zero`, also what a default-constructed `Ray` holds. */
  const Zero3: Vec3 := Vec3(0.0, 0.0, 0.0)

  /** `Vector3.Dot(v, v)` is a sum of squares: never negative, zero only for the zero vector. */
  lemma DotSelf(v: Vec3)
    ensures v.Dot(v) >= 0.0
    ensures v.Dot(v) == 0.0 <==> v == Zero3
  {
    var sx, sy, sz := v.x * v.x, v.y * v.y, v.z * v.z;
    assert sx >= 0.0 && sy >= 0.0 && sz >= 0.0;
    if v.Dot(v) == 0.0 {
      assert sx == 0.0 && sy == 0.0 && sz == 0.0;
      SquareZero(v.x);
      SquareZero(v.y);
      SquareZero(v.z);
    }
  }

  lemma SquareZero(k: real)
    requires k * k == 0.0
    ensures k == 0.0
  {
    ProductZero(k, k);
  }

  /** A product of reals vanishes only when a factor does. */
  lemma ProductZero(p: real, q: real)
    requires p * q == 0.0
    ensures p == 0.0 || q == 0.0
  {
    if p != 0.0 {
      assert q == (p * q) / p;
    }
  }

  /** A Unity `Color`: four channels, combined channel by channel (alpha included). */
  datatype Color = Color(r: real, g: real, b: real, a: real) {
    function Add(o: Color): Color { Color(r + o.r, g + o.g, b + o.b, a + o.a) }
    function Mul(o: Color): Color { Color(r * o.r, g * o.g, b * o.b, a * o.a) }
    function Scale(k: real): Color { Color(r * k, g * k, b * k, a * k) }

    /** Every channel is at least the corresponding channel of `o`. */
    predicate AtLeast(o: Color) { r >= o.r && g >= o.g && b >= o.b && a >= o.a }

    /** Same red, green and blue as `o`; alpha may differ. */
    predicate SameRgb(o: Color) { r == o.r && g == o.g && b == o.b }
  }

  /** `default(Color)`: what a freshly allocated `Color[]` holds. */
  const Clear: Color := Color(0.0, 0.0, 0.0, 0.0)
  /** `new Color(0f, 0f, 0f, 1f)`. */
  const Black: Color := Color(0.0, 0.0, 0.0, 1.0)
  /** `new Color(1f, 1f, 1f, 1f)`. */
  const White: Color := Color(1.0, 1.0, 1.0, 1.0)
}
