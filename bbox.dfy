/** The yaw-only bounding box of a vehicle: a local box `min0..max0` fixed at
    construction, placed in the world by a midpoint and a yaw angle. */
module BBoxes {
  import opened Utils

  /** The offset below the top face at which the ray test samples the roof. */
  const Eps: real := 0.00001

  /** The geometric state of a bounding box: everything except the
      `collided` annotation. */
  datatype Box = Box(min0: Vec3, max0: Vec3, midpt: Vec3, extent: Vec3, rot: Vec3)
  {
    /** `get_midpoint0`: the centre of the local corners. */
    function Midpoint0(): (m: Vec3)
      ensures Sub(m, min0) == Sub(max0, m)
    {
      Scale(0.5, Add(max0, min0))
    }

    /** `update(pos, yaw)`: the new pose. The rest midpoint is added to `pos`
        without being rotated. */
    function Updated(pos: Vec3, yaw: real): (b: Box)
      ensures b.min0 == min0 && b.max0 == max0 && b.extent == extent
      ensures b.rot == Vec3(0.0, 0.0, yaw)
      ensures Sub(b.midpt, pos) == Midpoint0()
    {
      this.(rot := Vec3(0.0, 0.0, yaw), midpt := Add(pos, Midpoint0()))
    }

    /** The z half of the containment test, in world coordinates. */
    predicate WithinZ(pt: Vec3)
    {
      midpt.z - extent.z / 2.0 <= pt.z <= midpt.z + extent.z / 2.0
    }

    /** `contains_pt`: rotate `pt - midpt` by `-yaw` and compare x and y with
        the local corners; compare the unrotated z with `midpt.z` plus or
        minus half the height. */
    predicate ContainsPt(t: Trig, pt: Vec3)
      // the z verdict does not involve the yaw
      ensures ContainsPt(t, pt) ==> WithinZ(pt)
    {
      var aa := RotateYaw(t, -rot.z, Sub(pt, midpt));
      && min0.x <= aa.x <= max0.x
      && min0.y <= aa.y <= max0.y
      && WithinZ(pt)
    }

    /** A corner of this box, as `collides_with` computes it for the other box:
        half the extent, scaled by a sign per axis, rotated by the yaw. */
    function Corner(t: Trig, s: Vec3): Vec3
    {
      Add(midpt, RotateYaw(t, rot.z, Mul(Scale(0.5, extent), s)))
    }

    /** The nine sample points of `collides_with`, in the order `collides_with` tests them. */
    function CheckPoints(t: Trig): seq<Vec3>
    {
      [ midpt,
        Corner(t, Vec3(1.0, 1.0, -1.0)),
        Corner(t, Vec3(1.0, 1.0, 1.0)),
        Corner(t, Vec3(1.0, -1.0, -1.0)),
        Corner(t, Vec3(1.0, -1.0, 1.0)),
        Corner(t, Vec3(-1.0, 1.0, -1.0)),
        Corner(t, Vec3(-1.0, 1.0, 1.0)),
        Corner(t, Vec3(-1.0, -1.0, -1.0)),
        Corner(t, Vec3(-1.0, -1.0, 1.0)) ]
    }

    /** The overlap test: this box contains one of the other's sample points. */
    predicate Collides(t: Trig, other: Box)
      ensures ContainsPt(t, other.midpt) ==> Collides(t, other)
    {
      var ps := other.CheckPoints(t);
      assert ps[0] == other.midpt;
      exists i :: 0 <= i < |ps| && ContainsPt(t, ps[i])
    }

    /** Where the ray meets the ground plane z = 0. */
    function GroundPoint(origin: Vec3, ray: Vec3): (p: Vec3)
      requires ray.z != 0.0
      ensures p.z == 0.0
    {
      var s := -origin.z / ray.z;
      Add(origin, Scale(s, ray))
    }

    /** The height of the roof plane the ray test uses. */
    function RoofZ(): real
    {
      midpt.z + extent.z / 2.0 - Eps
    }

    /** Where the ray meets the roof plane. */
    function RoofPoint(origin: Vec3, ray: Vec3): (p: Vec3)
      requires ray.z != 0.0
      ensures p.z == RoofZ()
    {
      var s := (RoofZ() - origin.z) / ray.z;
      Add(origin, Scale(s, ray))
    }

    /** `intersects`: a box is hit when the ray's point on the ground plane or
        on the roof plane lies in the box. With `ray.z == 0` both parameters
        are infinite or NaN, so both points have a NaN z and the test fails. */
    predicate Intersects(t: Trig, origin: Vec3, ray: Vec3)
      ensures ray.z == 0.0 ==> !Intersects(t, origin, ray)
      // every hit is a point of the ray's line, on the ground or on the roof
      ensures Intersects(t, origin, ray) ==>
        exists s :: OnPlanes(t, Add(origin, Scale(s, ray)))
    {
      if ray.z == 0.0 then false
      else
        var g, r := GroundPoint(origin, ray), RoofPoint(origin, ray);
        assert g == Add(origin, Scale(-origin.z / ray.z, ray));
        assert r == Add(origin, Scale((RoofZ() - origin.z) / ray.z, ray));
        ContainsPt(t, g) || ContainsPt(t, r)
    }

    /** A contained point on one of the two planes the ray test samples. */
    predicate OnPlanes(t: Trig, p: Vec3)
    {
      ContainsPt(t, p) && (p.z == 0.0 || p.z == RoofZ())
    }
  }

  /** A sign vector: every component is 1 or -1. */
  ghost predicate IsSign(s: Vec3)
  {
    (s.x == 1.0 || s.x == -1.0) && (s.y == 1.0 || s.y == -1.0) && (s.z == 1.0 || s.z == -1.0)
  }

  /** Where the corner with signs `s` sits in `CheckPoints`. */
  function SignIndex(s: Vec3): int
  {
    1 + (if s.x == 1.0 then 0 else 4) + (if s.y == 1.0 then 0 else 2) + (if s.z == -1.0 then 0 else 1)
  }

  /** The sign vector of the corner at position `i` of `CheckPoints`. */
  function SignOf(i: int): Vec3
    requires 1 <= i < 9
  {
    [Vec3(1.0, 1.0, -1.0), Vec3(1.0, 1.0, 1.0), Vec3(1.0, -1.0, -1.0),
     Vec3(1.0, -1.0, 1.0), Vec3(-1.0, 1.0, -1.0), Vec3(-1.0, 1.0, 1.0),
     Vec3(-1.0, -1.0, -1.0), Vec3(-1.0, -1.0, 1.0)][i - 1]
  }

  /** Every corner, whatever its signs, is one of the sample points. */
  lemma CornerIsCheckPoint(t: Trig, b: Box, s: Vec3)
    requires IsSign(s)
    ensures 1 <= SignIndex(s) < 9 && b.CheckPoints(t)[SignIndex(s)] == b.Corner(t, s)
  {
    if s.x == 1.0 && s.y == 1.0 && s.z == -1.0 { assert s == Vec3(1.0, 1.0, -1.0); }
    else if s.x == 1.0 && s.y == 1.0 { assert s == Vec3(1.0, 1.0, 1.0); }
    else if s.x == 1.0 && s.z == -1.0 { assert s == Vec3(1.0, -1.0, -1.0); }
    else if s.x == 1.0 { assert s == Vec3(1.0, -1.0, 1.0); }
    else if s.y == 1.0 && s.z == -1.0 { assert s == Vec3(-1.0, 1.0, -1.0); }
    else if s.y == 1.0 { assert s == Vec3(-1.0, 1.0, 1.0); }
    else if s.z == -1.0 { assert s == Vec3(-1.0, -1.0, -1.0); }
    else { assert s == Vec3(-1.0, -1.0, 1.0); }
  }

  /** Every sample point after the first is a corner. */
  lemma CheckPointIsCorner(t: Trig, b: Box, i: int)
    requires 1 <= i < 9
    ensures IsSign(SignOf(i)) && b.CheckPoints(t)[i] == b.Corner(t, SignOf(i))
  {
  }

  /** `collides_with` holds iff this box contains the other's midpoint or one
      of its eight corners, whatever order the samples are taken in. */
  lemma CollidesIffSample(t: Trig, a: Box, b: Box)
    ensures a.Collides(t, b) <==>
      a.ContainsPt(t, b.midpt) || exists s :: IsSign(s) && a.ContainsPt(t, b.Corner(t, s))
  {
    var ps := b.CheckPoints(t);
    if a.Collides(t, b) {
      var i :| 0 <= i < |ps| && a.ContainsPt(t, ps[i]);
      if i > 0 {
        CheckPointIsCorner(t, b, i);
        assert IsSign(SignOf(i)) && a.ContainsPt(t, b.Corner(t, SignOf(i)));
      }
    }
    if exists s :: IsSign(s) && a.ContainsPt(t, b.Corner(t, s)) {
      var s :| IsSign(s) && a.ContainsPt(t, b.Corner(t, s));
      CornerIsCheckPoint(t, b, s);
      assert a.ContainsPt(t, ps[SignIndex(s)]);
    }
  }

  /** Because the offset from the midpoint is compared with `min0..max0`
      rather than with plus or minus half the extent, a box contains its own
      midpoint exactly when the local origin lies in the local box. */
  lemma ContainsMidpoint(t: Trig, b: Box)
    ensures b.ContainsPt(t, b.midpt) <==>
      b.min0.x <= 0.0 <= b.max0.x && b.min0.y <= 0.0 <= b.max0.y && b.extent.z >= 0.0
  {
    assert Sub(b.midpt, b.midpt) == Zero;
  }

  /** Two boxes with the same state collide whenever the local origin lies in
      the local box. */
  lemma SamePoseCollides(t: Trig, b: Box)
    requires b.min0.x <= 0.0 <= b.max0.x && b.min0.y <= 0.0 <= b.max0.y && b.extent.z >= 0.0
    ensures b.Collides(t, b)
  {
    ContainsMidpoint(t, b);
  }

  /** In the box's own frame, containment is the local box test: a point
      given by local coordinates `q` is contained iff `q` lies within
      `min0..max0` in x and y and within half the height in z. */
  lemma ContainsLocal(t: Trig, b: Box, q: Vec3)
    requires RotationIdentities(t, b.rot.z)
    ensures b.ContainsPt(t, Add(b.midpt, RotateYaw(t, b.rot.z, q))) <==>
      && b.min0.x <= q.x <= b.max0.x && b.min0.y <= q.y <= b.max0.y
      && -b.extent.z / 2.0 <= q.z <= b.extent.z / 2.0
  {
    var w := RotateYaw(t, b.rot.z, q);
    assert Sub(Add(b.midpt, w), b.midpt) == w;
    RotateYawInverse(t, b.rot.z, q);
  }

  /** The ray parameter that puts the ray at height `z` is unique. */
  lemma RayHeight(origin: Vec3, ray: Vec3, s: real, z: real)
    requires ray.z != 0.0
    requires Add(origin, Scale(s, ray)).z == z
    ensures s == (z - origin.z) / ray.z
  {
    assert s * ray.z == z - origin.z;
  }

  /** For a ray that is not horizontal, `intersects` holds iff some point of
      the ray's line on the ground plane or the roof plane is contained. */
  lemma IntersectsIffPlaneHit(t: Trig, b: Box, origin: Vec3, ray: Vec3)
    requires ray.z != 0.0
    ensures b.Intersects(t, origin, ray) <==>
      exists s :: b.OnPlanes(t, Add(origin, Scale(s, ray)))
  {
    if exists s :: b.OnPlanes(t, Add(origin, Scale(s, ray))) {
      var s :| b.OnPlanes(t, Add(origin, Scale(s, ray)));
      var p := Add(origin, Scale(s, ray));
      if p.z == 0.0 {
        RayHeight(origin, ray, s, 0.0);
        assert p == b.GroundPoint(origin, ray);
      } else {
        RayHeight(origin, ray, s, b.RoofZ());
        assert p == b.RoofPoint(origin, ray);
      }
    }
  }

  /** A ray parallel to the ground never picks a box. */
  lemma HorizontalRayMisses(t: Trig, b: Box, origin: Vec3, ray: Vec3)
    requires ray.z == 0.0
    ensures !b.Intersects(t, origin, ray)
  {
  }

  /** The bounding box object a vehicle carries. */
  class BBox {
    var min0: Vec3
    var max0: Vec3
    var midpt: Vec3
    var extent: Vec3
    var rot: Vec3
    /** Set by picking; not part of the geometry. */
    var collided: bool

    /** The geometric state. */
    function Val(): Box
      reads this`min0, this`max0, this`midpt, this`extent, this`rot
    {
      Box(min0, max0, midpt, extent, rot)
    }

    /** `BBox(min, max)`: the local corners, the rest midpoint and the extent.
        The rotation is left as it is until the first `update`. */
    constructor (minIn: Vec3, maxIn: Vec3)
      ensures min0 == minIn && max0 == maxIn
      ensures extent == Sub(maxIn, minIn)
      ensures midpt == Val().Midpoint0()
      ensures !collided
    {
      min0 := minIn;
      max0 := maxIn;
      midpt := Scale(0.5, Add(maxIn, minIn));
      extent := Sub(maxIn, minIn);
      collided := false;
    }

    /** `update(pos, yaw)`: only the midpoint and the rotation change. */
    method Update(pos: Vec3, yaw: real)
      modifies this`rot, this`midpt
      ensures Val() == old(Val()).Updated(pos, yaw)
      ensures rot == Vec3(0.0, 0.0, yaw) && midpt == Add(pos, old(Val()).Midpoint0())
      ensures min0 == old(min0) && max0 == old(max0) && extent == old(extent)
      ensures collided == old(collided)
    {
      rot := Vec3(0.0, 0.0, yaw);
      midpt := Add(pos, Scale(0.5, Add(max0, min0)));
    }

    /** `collides_with`: scan the other box's sample points and stop at the
        first one this box contains. */
    method CollidesWith(t: Trig, other: BBox) returns (hit: bool)
      ensures hit == Val().Collides(t, other.Val())
    {
      var box := Val();
      var checkPoints := other.Val().CheckPoints(t);
      for i := 0 to |checkPoints|
        invariant forall k :: 0 <= k < i ==> !box.ContainsPt(t, checkPoints[k])
      {
        if box.ContainsPt(t, checkPoints[i]) {
          return true;
        }
      }
      return false;
    }
  }
}
