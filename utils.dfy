/** Vectors, the math library the game calls into, and the angle helpers of the
    game's utility header: yaw rotation, single-shift wrapping (`repeat`), the
    looping variant, and component-wise normalisation of Euler angles. */
module Utils {

  /** A three-component vector of reals (the game's `glm::vec3`). */
  datatype Vec3 = Vec3(x: real, y: real, z: real)

  /** A two-component vector of reals (the game's `glm::vec2`). */
  datatype Vec2 = Vec2(x: real, y: real)

  const Zero: Vec3 := Vec3(0.0, 0.0, 0.0)

  /** `M_PI`, the double closest to pi, written as a decimal. */
  const PI: real := 3.141592653589793

  /** The trigonometric and root functions of the C math library. They are
      left abstract: the model never depends on their values, only on the
      identities a lemma asks for explicitly. */
  datatype Trig = Trig(cos: real -> real, sin: real -> real, tan: real -> real,
                       acos: real -> real, sqrt: real -> real)

  function Add(a: Vec3, b: Vec3): Vec3 { Vec3(a.x + b.x, a.y + b.y, a.z + b.z) }

  function Sub(a: Vec3, b: Vec3): Vec3 { Vec3(a.x - b.x, a.y - b.y, a.z - b.z) }

  function Scale(k: real, v: Vec3): Vec3 { Vec3(k * v.x, k * v.y, k * v.z) }

  /** Component-wise product (`glm::vec3 * glm::vec3`). */
  function Mul(a: Vec3, b: Vec3): Vec3 { Vec3(a.x * b.x, a.y * b.y, a.z * b.z) }

  /** Dot product of the x and y components only. */
  function Dot2(a: Vec3, b: Vec3): real { a.x * b.x + a.y * b.y }

  /** `glm::length` of the horizontal part of a vector. */
  function Length2(t: Trig, v: Vec3): real { t.sqrt(Dot2(v, v)) }

  /** `glm::sign` on a float. */
  function Sign(x: real): (s: real)
    ensures s == 1.0 || s == 0.0 || s == -1.0
    ensures (s == 1.0 <==> x > 0.0) && (s == -1.0 <==> x < 0.0)
  {
    if x > 0.0 then 1.0 else if x < 0.0 then -1.0 else 0.0
  }

  function Min(a: real, b: real): real { if b < a then b else a }

  function Max(a: real, b: real): real { if a < b then b else a }

  function Abs(a: real): real { if a < 0.0 then -a else a }

  /** `std::min(hi, std::max(lo, x))`: the clamp the game writes out inline. */
  function Clamp(x: real, lo: real, hi: real): (r: real)
    ensures lo <= hi ==> lo <= r <= hi
    ensures lo <= x <= hi ==> r == x
    ensures r == x || r == lo || r == hi
  {
    Min(hi, Max(lo, x))
  }

  /** The clamp written the other way round, `std::min(std::max(x, lo), hi)`,
      is the same clamp. */
  lemma ClampOrder(x: real, lo: real, hi: real)
    ensures Min(Max(x, lo), hi) == Clamp(x, lo, hi)
  {
  }

  /** Rotation of `v` by `yaw` radians about the vertical axis (0, 0, 1): the
      4x4 matrix that `glm::rotate` builds for that axis, applied to (v, 1). */
  function RotateYaw(t: Trig, yaw: real, v: Vec3): (r: Vec3)
    ensures r.z == v.z
    ensures v.x == 0.0 && v.y == 0.0 ==> r.x == 0.0 && r.y == 0.0
  {
    var c, s := t.cos(yaw), t.sin(yaw);
    assert c * 0.0 == 0.0 && s * 0.0 == 0.0;
    Vec3(c * v.x - s * v.y, s * v.x + c * v.y, v.z)
  }

  /** Trigonometric identities at one angle that undoing a rotation needs. */
  ghost predicate RotationIdentities(t: Trig, yaw: real)
  {
    && t.cos(-yaw) == t.cos(yaw)
    && t.sin(-yaw) == -t.sin(yaw)
    && t.cos(yaw) * t.cos(yaw) + t.sin(yaw) * t.sin(yaw) == 1.0
  }

  /** Rotating by `-yaw` undoes a rotation by `yaw`, whenever the library's
      cos and sin satisfy the usual identities at `yaw`. */
  lemma RotateYawInverse(t: Trig, yaw: real, v: Vec3)
    requires RotationIdentities(t, yaw)
    ensures RotateYaw(t, -yaw, RotateYaw(t, yaw, v)) == v
  {
    var c, s := t.cos(yaw), t.sin(yaw);
    var w := RotateYaw(t, yaw, v);
    calc {
      t.cos(-yaw) * w.x - t.sin(-yaw) * w.y;
      c * (c * v.x - s * v.y) + s * (s * v.x + c * v.y);
      (c * c + s * s) * v.x;
      v.x;
    }
    calc {
      t.sin(-yaw) * w.x + t.cos(-yaw) * w.y;
      -s * (c * v.x - s * v.y) + c * (s * v.x + c * v.y);
      (c * c + s * s) * v.y;
      v.y;
    }
  }

  /** `repeat`: wrap `x` into `[lo, hi]` by at most one shift of `2*hi` down
      and one shift of `2*lo` up; the game assumes `x` is already close. */
  function Repeat(x: real, lo: real, hi: real): (r: real)
    // a value already in range is returned as it is (so `hi` itself is kept)
    ensures lo <= x <= hi ==> r == x
    // with a symmetric range, at most one of the two shifts fires
    ensures lo == -hi ==> r == x || r == x - 2.0 * hi || r == x - 2.0 * lo
    // with a symmetric range, one period either side is brought into range
    ensures lo == -hi && 3.0 * lo <= x <= 3.0 * hi ==> lo <= r <= hi
  {
    var n := if x > hi then x - 2.0 * hi else x;
    if n < lo then n - 2.0 * lo else n
  }

  /** With a symmetric range, `repeat` leaves `x` alone exactly when `x` is
      already in `[-hi, hi]`. */
  lemma RepeatFixedIff(x: real, hi: real)
    requires hi > 0.0
    ensures Repeat(x, -hi, hi) == x <==> -hi <= x <= hi
  {
  }

  /** On the range where `repeat` lands in `[lo, hi]`, it is idempotent. */
  lemma RepeatIdempotent(x: real, hi: real)
    requires -3.0 * hi <= x <= 3.0 * hi
    ensures Repeat(Repeat(x, -hi, hi), -hi, hi) == Repeat(x, -hi, hi)
  {
  }

  /** A value just past `hi` (by less than a period) wraps to just past `lo`:
      crossing +hi by `d` gives `lo + d`, that is `x - 2*hi`. */
  lemma RepeatCrossing(hi: real, d: real)
    requires 0.0 < d <= 2.0 * hi
    ensures Repeat(hi + d, -hi, hi) == -hi + d
  {
  }

  /** One shift by a period `p` lowers `v / p` by exactly one. */
  lemma ShiftDecreases(v: real, p: real)
    requires p > 0.0
    ensures (v - p) / p == v / p - 1.0
    ensures v > 0.0 ==> v / p > 0.0
  {
    var q := v / p;
    var q' := (v - p) / p;
    assert q * p == v;
    assert q' * p == v - p;
    assert (q' - (q - 1.0)) * p == 0.0;
    ZeroProduct(q' - (q - 1.0), p);
  }

  lemma ZeroProduct(d: real, p: real)
    requires p > 0.0 && d * p == 0.0
    ensures d == 0.0
  {
  }

  /** `repeat_loop`: wrap by repeated shifts until `x` is in range. The game
      does not check the bounds, and outside `lo < 0 < hi` the loops may not
      terminate: with `lo == 0` and `x < 0` the upward shift adds nothing. */
  method RepeatLoop(x: real, lo: real, hi: real) returns (r: real)
    requires lo < 0.0 < hi
    ensures r >= lo
    ensures lo == -hi ==> lo <= r <= hi
    // within one period either side, the loop agrees with `repeat`
    ensures lo == -hi && 3.0 * lo <= x <= 3.0 * hi ==> r == Repeat(x, lo, hi)
  {
    r := x;
    while r > hi
      invariant lo == -hi && x <= 3.0 * hi ==> r == x || (r == x - 2.0 * hi && x > hi)
      decreases r / (2.0 * hi)
    {
      ShiftDecreases(r, 2.0 * hi);
      r := r - 2.0 * hi;
    }
    ghost var r1 := r;
    while r < lo
      invariant lo == -hi ==> r <= hi
      invariant lo == -hi && 3.0 * lo <= x <= 3.0 * hi ==> r == r1 || (r == r1 - 2.0 * lo && r1 < lo)
      decreases -r / (-2.0 * lo)
    {
      ShiftDecreases(-r, -2.0 * lo);
      r := r - 2.0 * lo;
    }
  }

  /** The value `normalize(v, lo, hi)` leaves in `v`. */
  function Wrapped(v: Vec3, lo: real, hi: real): Vec3
  {
    Vec3(Repeat(v.x, lo, hi), Repeat(v.y, lo, hi), Repeat(v.z, lo, hi))
  }

  /** Each component of the wrapped vector depends only on the same
      component of the input. */
  lemma WrappedComponentwise(v: Vec3, w: Vec3, lo: real, hi: real)
    ensures v.x == w.x ==> Wrapped(v, lo, hi).x == Wrapped(w, lo, hi).x
    ensures v.y == w.y ==> Wrapped(v, lo, hi).y == Wrapped(w, lo, hi).y
    ensures v.z == w.z ==> Wrapped(v, lo, hi).z == Wrapped(w, lo, hi).z
  {
  }

  /** Euler angles that `normalize(v)` leaves as they are. */
  predicate InAngleRange(v: Vec3)
  {
    -PI <= v.x <= PI && -PI <= v.y <= PI && -PI <= v.z <= PI
  }

  /** `normalize(v)` changes `v` exactly when some component is out of range. */
  lemma WrappedFixedIff(v: Vec3)
    ensures Wrapped(v, -PI, PI) == v <==> InAngleRange(v)
  {
    RepeatFixedIff(v.x, PI);
    RepeatFixedIff(v.y, PI);
    RepeatFixedIff(v.z, PI);
  }

  /** `normalize(v, min, max)`: wrap each component of `v` in place. */
  method Normalize(v: Vec3, lo: real, hi: real) returns (r: Vec3)
    ensures r == Wrapped(v, lo, hi)
    ensures lo <= v.z <= hi ==> r.z == v.z
    ensures lo == -hi && 3.0 * lo <= v.x <= 3.0 * hi && 3.0 * lo <= v.y <= 3.0 * hi
            && 3.0 * lo <= v.z <= 3.0 * hi
            ==> lo <= r.x <= hi && lo <= r.y <= hi && lo <= r.z <= hi
  {
    r := v;
    r := r.(x := Repeat(r.x, lo, hi));
    r := r.(y := Repeat(r.y, lo, hi));
    r := r.(z := Repeat(r.z, lo, hi));
  }

  /** `normalize(v)`: the default bounds `[-PI, PI]`. */
  method NormalizeAngles(v: Vec3) returns (r: Vec3)
    ensures r == Wrapped(v, -PI, PI)
    ensures -PI <= v.z <= PI ==> r.z == v.z
  {
    r := Normalize(v, -PI, PI);
  }
}
