/** A four-wheeled vehicle: a named mesh that can be disabled, that moves by
    the integrator of a physical mesh, and whose controls are set either by
    its driver's input or by a chase-the-target heuristic. */
module Vehicles {
  import opened Utils
  import opened BBoxes
  import opened Kinematics

  /** The default steering range `[-PI/4, PI/4]`. */
  const DefaultWheelBounds: Vec2 := Vec2(-PI / 4.0, PI / 4.0)

  /** Normalising `v` divides by a zero length, which makes the result NaN. */
  predicate Degenerate(t: Trig, v: Vec3)
  {
    Length2(t, v) == 0.0
  }

  /** `dot(normalize(dir), normalize(heading))` for vectors that normalise. */
  function Bearing(t: Trig, dir: Vec3, heading: Vec3): real
    requires !Degenerate(t, dir) && !Degenerate(t, heading)
  {
    Dot2(dir, heading) / (Length2(t, dir) * Length2(t, heading))
  }

  /** The signed angle `acos(dot2) - PI/2` the heuristic steers by. */
  function RawAngle(t: Trig, dot2: real): real
  {
    t.acos(dot2) - PI / 2.0
  }

  /** Whether the target lies within the steerable bound. */
  predicate Steerable(angle: real, wb: Vec2)
  {
    Abs(angle) < wb.y && Abs(angle) > wb.x
  }

  /** The steering angle `think` chooses toward a target in direction `dir`,
      given the raw heading. A zero-length vector makes `dot2` NaN: the
      steerable test then fails and the sign of NaN is 0. */
  function SteerToward(t: Trig, dir: Vec3, heading: Vec3, wb: Vec2): (angle: real)
    // degenerate geometry steers straight
    ensures Degenerate(t, dir) || Degenerate(t, heading) ==> angle == 0.0
    // a reachable target is steered at, clamped to the wheel bounds
    ensures !Degenerate(t, dir) && !Degenerate(t, heading) &&
            Steerable(RawAngle(t, Bearing(t, dir, heading)), wb) ==>
              angle == Clamp(RawAngle(t, Bearing(t, dir, heading)), wb.x, wb.y)
    // an unreachable target snaps to PI/4 against the bearing's sign
    ensures !Degenerate(t, dir) && !Degenerate(t, heading) &&
            !Steerable(RawAngle(t, Bearing(t, dir, heading)), wb) ==>
              && (Bearing(t, dir, heading) > 0.0 ==> angle == -PI / 4.0)
              && (Bearing(t, dir, heading) < 0.0 ==> angle == PI / 4.0)
              && (Bearing(t, dir, heading) == 0.0 ==> angle == 0.0)
    // with ordered bounds the result is in range or one of the two snaps
    ensures wb.x <= wb.y ==>
      (wb.x <= angle <= wb.y) || angle == PI / 4.0 || angle == -PI / 4.0 || angle == 0.0
  {
    if Degenerate(t, dir) || Degenerate(t, heading) then
      0.0
    else
      var dot2 := Bearing(t, dir, heading);
      var angle := RawAngle(t, dot2);
      if Steerable(angle, wb) then Clamp(angle, wb.x, wb.y)
      else -Sign(dot2) * (PI / 4.0)
  }

  /** With the default wheel bounds, the heuristic's steering stays within
      `[-PI/4, PI/4]`, and a target within the bound is steered at exactly. */
  lemma SteerTowardDefault(t: Trig, dir: Vec3, heading: Vec3)
    ensures -PI / 4.0 <= SteerToward(t, dir, heading, DefaultWheelBounds) <= PI / 4.0
    ensures !Degenerate(t, dir) && !Degenerate(t, heading) &&
            Steerable(RawAngle(t, Bearing(t, dir, heading)), DefaultWheelBounds) ==>
              SteerToward(t, dir, heading, DefaultWheelBounds) == RawAngle(t, Bearing(t, dir, heading))
  {
  }

  /** `min(1, 1/length(dir))`: full throttle up to distance 1, then the
      reciprocal of the distance. A zero distance gives `1/0 = inf`, and the
      minimum is 1. */
  function ThrottleToward(t: Trig, dir: Vec3): (r: real)
    ensures r <= 1.0
    ensures Degenerate(t, dir) ==> r == 1.0
    ensures 0.0 < Length2(t, dir) <= 1.0 ==> r == 1.0
    ensures Length2(t, dir) >= 1.0 ==> r * Length2(t, dir) == 1.0 && 0.0 < r
  {
    var d := Length2(t, dir);
    if d == 0.0 then 1.0 else Min(1.0, 1.0 / d)
  }

  /** Given the usual values at a quarter turn, the drive heading is the raw
      heading turned a quarter turn anticlockwise, so the two are
      perpendicular. */
  lemma HeadingQuarterTurn(t: Trig, yaw: real)
    requires t.cos(PI / 2.0) == 0.0 && t.sin(PI / 2.0) == 1.0
    requires t.cos(yaw + PI / 2.0) == -t.sin(yaw) && t.sin(yaw + PI / 2.0) == t.cos(yaw)
    ensures HeadingAt(t, yaw + PI / 2.0) == RotateYaw(t, PI / 2.0, HeadingAt(t, yaw))
    ensures Dot2(HeadingAt(t, yaw + PI / 2.0), HeadingAt(t, yaw)) == 0.0
  {
  }

  /** The grounded acceleration, computed in the order `update` computes it. */
  lemma GroundAccelSteps(t: Trig, b: Body, c: Controls, a1: Vec3)
    requires a1 == Sub(ControlAccel(t, b, c), Scale(Friction(SignedSpeed(t, b)), Horizontal(b.vel)))
    ensures GroundAccel(t, b, c) ==
      Vec3(Min(Max(a1.x, -MaxAccel), MaxAccel), Min(Max(a1.y, -MaxAccel), MaxAccel), a1.z)
  {
    ClampOrder(a1.x, -MaxAccel, MaxAccel);
    ClampOrder(a1.y, -MaxAccel, MaxAccel);
  }

  /** The grounded setup, field by field. */
  lemma GroundSetup(t: Trig, b: Body, c: Controls)
    requires b.pos.z <= 0.0
    ensures DriveSetup(t, b, c) ==
      b.(accel := GroundAccel(t, b, c),
         vel := AlongHeading(b.vel, SignedSpeed(t, b), DriveHeading(t, b)),
         rotvel := Vec3(0.0, 0.0, YawRate(t, SignedSpeed(t, b), c.steer)))
  {
  }

  /** A node of the scene graph; only its position is modelled. */
  class Transform {
    var position: Vec3

    constructor (p: Vec3)
      ensures position == p
    {
      position := p;
    }
  }

  class Vehicle {
    /** The mesh's name in the scene. */
    const name: string
    /** False once the vehicle is eliminated; it is then dropped from the roster. */
    var enabled: bool
    /** The vehicle's bounding box, owned by the vehicle. */
    const bounds: BBox

    var pos: Vec3
    var vel: Vec3
    var accel: Vec3
    var rot: Vec3
    var rotvel: Vec3
    var rotaccel: Vec3
    var collisionForce: Vec3

    /** Selects the driver's input instead of the heuristic. Nothing in the
        game logic assigns it after construction. */
    const isPlayer: bool
    /** The vehicle the heuristic chases; never owned. */
    var target: Vehicle?

    var throttle: real
    /** Nothing in the game logic assigns the brake after construction. */
    const brake: real
    var steer: real
    /** The steering range `[x, y]`; never assigned after construction. */
    const wheelBounds: Vec2

    /** The vehicle's root transform in the scene. */
    const all: Transform

    /** The kinematic state. */
    function State(): Body
      reads this
    {
      Body(pos, vel, accel, rot, rotvel, rotaccel, collisionForce)
    }

    /** The control signals. */
    function Inputs(): Controls
      reads this
    {
      Controls(throttle, brake, steer)
    }

    /** A new vehicle with the given mesh bounds: enabled, at rest at the
        origin, pulled by gravity, with no target and zero controls; `player`
        says whether the driver controls it. */
    constructor (nameIn: string, allIn: Transform, meshMin: Vec3, meshMax: Vec3, player: bool)
      ensures name == nameIn && all == allIn && enabled && isPlayer == player && target == null
      ensures State() == InitialBody
      ensures Inputs() == Controls(0.0, 0.0, 0.0) && wheelBounds == DefaultWheelBounds
      ensures fresh(bounds) && !bounds.collided
      ensures bounds.min0 == meshMin && bounds.max0 == meshMax
      ensures bounds.extent == Sub(meshMax, meshMin) && bounds.midpt == bounds.Val().Midpoint0()
    {
      name := nameIn;
      enabled := true;
      bounds := new BBox(meshMin, meshMax);
      pos := Zero;
      vel := Zero;
      accel := Gravity;
      rot := Zero;
      rotvel := Zero;
      rotaccel := Zero;
      collisionForce := Zero;
      isPlayer := player;
      target := null;
      throttle := 0.0;
      brake := 0.0;
      steer := 0.0;
      wheelBounds := DefaultWheelBounds;
      all := allIn;
    }

    /** `die()`: only `enabled` changes. */
    method Die()
      modifies this`enabled
      ensures !enabled
    {
      enabled := false;
    }

    /** `get_heading(raw)`: the drive heading, or with `raw` the direction of
        the yaw itself. */
    function Heading(t: Trig, raw: bool): (h: Vec3)
      reads this
      ensures h.z == 0.0
      ensures !raw ==> h == DriveHeading(t, State())
      ensures raw ==> h == HeadingAt(t, rot.z)
    {
      HeadingAt(t, rot.z + (if raw then 0.0 else PI / 2.0))
    }

    /** `turn_wheel(delta)`: add `delta` to the steering angle and clamp it to
        the wheel bounds. */
    method TurnWheel(delta: real)
      modifies this`steer
      ensures wheelBounds.x <= wheelBounds.y ==> wheelBounds.x <= steer <= wheelBounds.y
      ensures wheelBounds.x <= old(steer) + delta <= wheelBounds.y ==> steer == old(steer) + delta
      ensures steer == Clamp(old(steer) + delta, wheelBounds.x, wheelBounds.y)
    {
      steer := Min(wheelBounds.y, Max(wheelBounds.x, steer + delta));
    }

    /** `PhysicalAssetMesh::update(dt)`: one integration step of the fields,
        then the box follows the new position and yaw. */
    method PhysicalUpdate(dt: real)
      modifies this`vel, this`pos, this`collisionForce, this`rotvel, this`rot
      modifies bounds`rot, bounds`midpt
      ensures State() == Integrate(old(State()), dt)
      ensures collisionForce == Zero && pos.z >= 0.0
      ensures old(pos.z) <= 0.0 ==> vel.z >= 0.0
      ensures bounds.Val() == old(bounds.Val()).Updated(pos, rot.z)
    {
      vel := Add(vel, Scale(dt, accel));
      vel := Add(vel, Scale(dt, collisionForce));
      collisionForce := Zero;
      if pos.z <= 0.0 {
        vel := vel.(z := Max(0.0, vel.z));
      }
      pos := Add(pos, Scale(dt, vel));
      pos := pos.(z := Max(0.0, pos.z));
      rotvel := Add(rotvel, Scale(dt, rotaccel));
      rot := Add(rot, Scale(dt, rotvel));
      rot := NormalizeAngles(rot);
      bounds.Update(pos, rot.z);
    }

    /** `FourWheeledVehicle::update(dt)`, physics only: set up the
        acceleration (and on the ground the velocity and yaw rate), integrate,
        and move the root transform to the new position. */
    method Update(t: Trig, dt: real)
      modifies this`accel, this`vel, this`pos, this`collisionForce, this`rotvel, this`rot
      modifies all`position, bounds`rot, bounds`midpt
      ensures State() == Drive(t, old(State()), Inputs(), dt)
      ensures old(pos.z) > 0.0 ==> accel == Gravity
      ensures old(pos.z) <= 0.0 ==> -MaxAccel <= accel.x <= MaxAccel && -MaxAccel <= accel.y <= MaxAccel
      ensures all.position == pos
      ensures bounds.Val() == old(bounds.Val()).Updated(pos, rot.z)
    {
      SetUpDrive(t);
      PhysicalUpdate(dt);
      all.position := pos;
    }

    /** The acceleration model of `update`, before the integration step. */
    method SetUpDrive(t: Trig)
      modifies this`accel, this`vel, this`rotvel
      ensures State() == DriveSetup(t, old(State()), Inputs())
    {
      ghost var b, c := State(), Inputs();
      var heading := Heading(t, false);
      assert heading == DriveHeading(t, b);
      accel := Add(Scale(ThrottleForce * throttle - BrakeForce * brake, heading),
                   Vec3(0.0, 0.0, accel.z));
      assert accel == ControlAccel(t, b, c);
      var vel2D := Vec3(vel.x, vel.y, 0.0);
      var velocitySign := Sign(Dot2(vel2D, heading));
      var signedSpeed := velocitySign * Length2(t, vel2D);
      assert signedSpeed == SignedSpeed(t, b);
      if pos.z <= 0.0 {
        GroundModel(t, heading, vel2D, signedSpeed, b);
        GroundSetup(t, b, c);
      } else {
        accel := Gravity;
        assert State() == b.(accel := Gravity);
      }
    }

    /** The grounded branch of `update`: friction and saturation, the
        heading-aligned velocity and the yaw rate. */
    method GroundModel(t: Trig, heading: Vec3, vel2D: Vec3, signedSpeed: real, ghost b: Body)
      requires b.pos.z <= 0.0 && accel == ControlAccel(t, b, Inputs()) && vel == b.vel
      requires heading == DriveHeading(t, b) && vel2D == Horizontal(b.vel)
      requires signedSpeed == SignedSpeed(t, b)
      modifies this`accel, this`vel, this`rotvel
      ensures accel == GroundAccel(t, b, Inputs())
      ensures vel == AlongHeading(b.vel, SignedSpeed(t, b), DriveHeading(t, b))
      ensures rotvel == Vec3(0.0, 0.0, YawRate(t, SignedSpeed(t, b), steer))
    {
      ghost var c := Inputs();
      var friction := Friction(signedSpeed);
      var a := Sub(accel, Scale(friction, vel2D));
      GroundAccelSteps(t, b, c, a);
      a := a.(x := Min(Max(a.x, -MaxAccel), MaxAccel));
      a := a.(y := Min(Max(a.y, -MaxAccel), MaxAccel));
      var v := AlongHeading(vel, signedSpeed, heading);
      var yawRate := YawRate(t, signedSpeed, steer);
      assert yawRate * 0.0 == 0.0 && yawRate * 1.0 == yawRate;
      accel, vel, rotvel := a, v, Scale(yawRate, Vec3(0.0, 0.0, 1.0));
    }

    /** A vehicle the heuristic accepts as its target. */
    predicate ValidTarget(v: Vehicle?)
      reads {v}`enabled
    {
      v != null && v != this && v.enabled
    }

    /** The stream of random numbers, from position `from` on, eventually
        picks a valid target. */
    ghost predicate PicksEventually(others: seq<Vehicle>, rand: nat -> nat, from: nat)
      requires |others| > 0
      reads (set v | v in others)`enabled
    {
      exists k: nat :: k >= from && ValidTarget(others[rand(k) % |others|])
    }

    /** `think(dt, others)`: with fewer than two vehicles, nothing; otherwise
        draw random members of `others` (the stream `rand` from position
        `from`) until the target is valid, then steer toward it. Returns the
        position of the next unused random number. */
    method Think(t: Trig, others: seq<Vehicle>, rand: nat -> nat, from: nat) returns (next: nat)
      requires |others| > 1 && !ValidTarget(target) ==> PicksEventually(others, rand, from)
      modifies this`target, this`throttle, this`steer
      ensures next >= from
      ensures |others| <= 1 ==>
        next == from && target == old(target) && throttle == old(throttle) && steer == old(steer)
      ensures |others| > 1 ==> ValidTarget(target)
      ensures old(ValidTarget(target)) ==> target == old(target) && next == from
      ensures target != old(target) ==> target in others
      ensures |others| > 1 ==>
        && throttle == ThrottleToward(t, Sub(target.pos, pos))
        && steer == SteerToward(t, Sub(target.pos, pos), Heading(t, true), wheelBounds)
      ensures throttle <= 1.0 || throttle == old(throttle)
      ensures |others| > 1 && wheelBounds == DefaultWheelBounds ==> -PI / 4.0 <= steer <= PI / 4.0
    {
      next := from;
      if |others| <= 1 {
        return;
      }
      ghost var w: nat := from;
      if !ValidTarget(target) {
        w :| w >= from && ValidTarget(others[rand(w) % |others|]);
      }
      while target == null || target == this || !target.enabled
        invariant next >= from
        invariant !ValidTarget(target) ==> next <= w
        invariant target == old(target) || target in others
        invariant old(ValidTarget(target)) ==> target == old(target) && next == from
        decreases w + 1 - next
      {
        target := others[rand(next) % |others|];
        next := next + 1;
      }
      Chase(t);
    }

    /** The second half of `think`: throttle and steer toward the target. */
    method Chase(t: Trig)
      requires target != null
      modifies this`throttle, this`steer
      ensures throttle == ThrottleToward(t, Sub(target.pos, pos))
      ensures steer == SteerToward(t, Sub(target.pos, pos), Heading(t, true), wheelBounds)
      ensures wheelBounds == DefaultWheelBounds ==> -PI / 4.0 <= steer <= PI / 4.0
    {
      var dir2D := Sub(target.pos, pos);
      var headingSwap := Heading(t, true);
      var angle: real;
      if Length2(t, dir2D) == 0.0 || Length2(t, headingSwap) == 0.0 {
        // dot2 is NaN: the steerable test fails and the sign of NaN is 0
        angle := 0.0;
      } else {
        var dot2 := Dot2(dir2D, headingSwap) / (Length2(t, dir2D) * Length2(t, headingSwap));
        assert dot2 == Bearing(t, dir2D, headingSwap);
        angle := t.acos(dot2) - PI / 2.0;
        var forward := Abs(angle) < wheelBounds.y && Abs(angle) > wheelBounds.x;
        assert forward == Steerable(RawAngle(t, dot2), wheelBounds);
        angle := Min(wheelBounds.y, Max(wheelBounds.x, angle));
        if !forward {
          angle := -Sign(dot2) * (PI / 4.0);
        }
      }
      throttle := if Length2(t, dir2D) == 0.0 then 1.0 else Min(1.0, 1.0 / Length2(t, dir2D));
      steer := angle;
      assert steer == SteerToward(t, dir2D, headingSwap, wheelBounds);
      SteerTowardDefault(t, dir2D, headingSwap);
    }
  }
}
