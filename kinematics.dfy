/** The motion model of a vehicle, as values: the generic integrator of a
    physical mesh and the acceleration model a four-wheeled vehicle sets up
    before calling it. The vehicle class applies these to its own fields. */
module Kinematics {
  import opened Utils

  /** `PhysicalAssetMesh::gravity`. */
  const Gravity: Vec3 := Vec3(0.0, 0.0, -9.8)

  /** The saturation bound on grounded horizontal acceleration. */
  const MaxAccel: real := 100.0

  // Tuning values of `FourWheeledVehicle`; the game never reassigns them.
  const ThrottleForce: real := 10.0
  const BrakeForce: real := 5.0
  const SteerForce: real := 1.0
  const WheelDiameter: real := 1.0
  /** Coefficient of rolling resistance. */
  const RollingResistance: real := 0.02
  /** Drag coefficient. */
  const Drag: real := 0.025

  /** The kinematic state of a physical mesh. */
  datatype Body = Body(pos: Vec3, vel: Vec3, accel: Vec3,
                       rot: Vec3, rotvel: Vec3, rotaccel: Vec3,
                       collisionForce: Vec3)

  /** The control signals of a vehicle. */
  datatype Controls = Controls(throttle: real, brake: real, steer: real)

  /** The state a physical mesh is constructed with. */
  const InitialBody: Body := Body(Zero, Zero, Gravity, Zero, Zero, Zero, Zero)

  /** `PhysicalAssetMesh::update(dt)` on the kinematic state. */
  function Integrate(b: Body, dt: real): (r: Body)
    // the collision force is consumed by one step
    ensures r.collisionForce == Zero
    // the mesh never sinks below the ground
    ensures r.pos.z >= 0.0
    // on the ground, the vertical velocity is never downwards
    ensures b.pos.z <= 0.0 ==> r.vel.z >= 0.0
    ensures r.accel == b.accel && r.rotaccel == b.rotaccel
  {
    var v1 := Add(Add(b.vel, Scale(dt, b.accel)), Scale(dt, b.collisionForce));
    var v2 := if b.pos.z <= 0.0 then v1.(z := Max(0.0, v1.z)) else v1;
    var p1 := Add(b.pos, Scale(dt, v2));
    var rv := Add(b.rotvel, Scale(dt, b.rotaccel));
    Body(p1.(z := Max(0.0, p1.z)), v2, b.accel,
         Wrapped(Add(b.rot, Scale(dt, rv)), -PI, PI), rv, b.rotaccel, Zero)
  }

  /** How one step changes the velocity: it gains the step's accelerations;
      the ground clamp only touches z, and only on the ground. */
  lemma IntegrateVelocity(b: Body, dt: real)
    ensures Integrate(b, dt).vel.x == b.vel.x + dt * b.accel.x + dt * b.collisionForce.x
    ensures Integrate(b, dt).vel.y == b.vel.y + dt * b.accel.y + dt * b.collisionForce.y
    ensures b.pos.z > 0.0 ==>
      Integrate(b, dt).vel.z == b.vel.z + dt * b.accel.z + dt * b.collisionForce.z
  {
    var v1 := Add(Add(b.vel, Scale(dt, b.accel)), Scale(dt, b.collisionForce));
    Gains(b.vel, b.accel, b.collisionForce, dt);
    var r := Integrate(b, dt);
    if b.pos.z <= 0.0 {
      assert r.vel == Vec3(v1.x, v1.y, Max(0.0, v1.z));
    } else {
      assert r.vel == v1;
    }
  }

  lemma Gains(v: Vec3, a: Vec3, f: Vec3, dt: real)
    ensures Add(Add(v, Scale(dt, a)), Scale(dt, f)).x == v.x + dt * a.x + dt * f.x
    ensures Add(Add(v, Scale(dt, a)), Scale(dt, f)).y == v.y + dt * a.y + dt * f.y
    ensures Add(Add(v, Scale(dt, a)), Scale(dt, f)).z == v.z + dt * a.z + dt * f.z
  {
  }

  /** The horizontal position advances by exactly one step of the new
      velocity. */
  lemma IntegratePosition(b: Body, dt: real)
    ensures Integrate(b, dt).pos.x == b.pos.x + dt * Integrate(b, dt).vel.x
    ensures Integrate(b, dt).pos.y == b.pos.y + dt * Integrate(b, dt).vel.y
  {
    var r := Integrate(b, dt);
    var p1 := Add(b.pos, Scale(dt, r.vel));
    Advances(b.pos, r.vel, dt);
    assert r.pos == Vec3(p1.x, p1.y, Max(0.0, p1.z));
  }

  lemma Advances(p: Vec3, v: Vec3, dt: real)
    ensures Add(p, Scale(dt, v)).x == p.x + dt * v.x && Add(p, Scale(dt, v)).y == p.y + dt * v.y
  {
  }

  /** The states one integration step can leave behind at `dt = 0`. */
  predicate Settled(b: Body)
  {
    && b.collisionForce == Zero
    && b.pos.z >= 0.0
    && (b.pos.z <= 0.0 ==> b.vel.z >= 0.0)
    && InAngleRange(b.rot)
  }

  /** A step of length zero changes nothing exactly on settled states: the
      only effects left at `dt = 0` are the consumed collision force and the
      ground and angle clamps. */
  lemma IntegrateZeroIff(b: Body)
    ensures Integrate(b, 0.0) == b <==> Settled(b)
  {
    var r := Integrate(b, 0.0);
    assert Add(b.rot, Scale(0.0, r.rotvel)) == b.rot;
    WrappedFixedIff(b.rot);
    if Settled(b) {
      assert r.vel == b.vel;
      assert r.pos == b.pos;
      assert r.rotvel == b.rotvel;
    }
  }

  /** `n` steps of length `dt`. */
  function Steps(b: Body, dt: real, n: nat): Body
    decreases n
  {
    if n == 0 then b else Integrate(Steps(b, dt, n - 1), dt)
  }

  /** At rest on the ground at `p` with angles `rot`, with nothing acting on
      it but a downward pull `az`. */
  predicate RestingAt(b: Body, p: Vec3, rot: Vec3, az: real)
  {
    && b == Body(p, Zero, Vec3(0.0, 0.0, az), rot, Zero, Zero, Zero)
    && p.z == 0.0 && az <= 0.0 && InAngleRange(rot)
  }

  /** A resting body is a fixed point of a forward step. */
  lemma RestingIsFixed(b: Body, dt: real, p: Vec3, rot: Vec3, az: real)
    requires RestingAt(b, p, rot, az) && dt >= 0.0
    ensures RestingAt(Integrate(b, dt), p, rot, az)
  {
    RestingVelocity(b, dt);
    StillPosition(b, dt);
    StillPose(b, dt);
  }

  /** Gravity alone cannot push a grounded body, at rest, into the ground. */
  lemma RestingVelocity(b: Body, dt: real)
    requires b.vel == Zero && b.accel.x == 0.0 && b.accel.y == 0.0 && b.accel.z <= 0.0
    requires b.collisionForce == Zero && b.pos.z <= 0.0 && dt >= 0.0
    ensures Integrate(b, dt).vel == Zero
  {
    assert b.accel == Vec3(0.0, 0.0, b.accel.z);
    assert Scale(dt, b.accel) == Vec3(0.0, 0.0, dt * b.accel.z);
    NonNegTimesNonPos(dt, b.accel.z);
  }

  /** A step that ends with zero velocity leaves a body above ground where
      it was. */
  lemma StillPosition(b: Body, dt: real)
    requires Integrate(b, dt).vel == Zero && b.pos.z >= 0.0
    ensures Integrate(b, dt).pos == b.pos
  {
    assert Scale(dt, Zero) == Zero;
  }

  /** Without angular velocity or acceleration, in-range angles stay put. */
  lemma StillPose(b: Body, dt: real)
    requires b.rotvel == Zero && b.rotaccel == Zero && InAngleRange(b.rot)
    ensures Integrate(b, dt).rotvel == Zero && Integrate(b, dt).rot == b.rot
  {
    assert Scale(dt, Zero) == Zero;
    assert Add(b.rot, Zero) == b.rot;
    WrappedFixedIff(b.rot);
  }

  lemma NonNegTimesNonPos(a: real, b: real)
    requires a >= 0.0 && b <= 0.0
    ensures a * b <= 0.0
  {
  }

  /** Grounded with zero velocity and zero horizontal acceleration, the body
      stays exactly as it is, with z pinned at 0, for any number of steps. */
  lemma {:induction false} RestingForever(b: Body, dt: real, n: nat, p: Vec3, rot: Vec3, az: real)
    requires RestingAt(b, p, rot, az) && dt >= 0.0
    decreases n
    ensures RestingAt(Steps(b, dt, n), p, rot, az)
  {
    if n > 0 {
      RestingForever(b, dt, n - 1, p, rot, az);
      RestingIsFixed(Steps(b, dt, n - 1), dt, p, rot, az);
    }
  }

  /** No horizontal velocity, acceleration or push. */
  predicate VerticalOnly(b: Body)
  {
    && b.vel.x == 0.0 && b.vel.y == 0.0
    && b.accel.x == 0.0 && b.accel.y == 0.0
    && b.collisionForce.x == 0.0 && b.collisionForce.y == 0.0
  }

  /** With zero horizontal velocity and acceleration, repeated steps only move
      the body vertically (gravity while airborne); it never goes below z = 0. */
  lemma {:induction false} VerticalMotionOnly(b: Body, dt: real, n: nat)
    requires VerticalOnly(b)
    decreases n
    ensures Steps(b, dt, n).pos.x == b.pos.x && Steps(b, dt, n).pos.y == b.pos.y
    ensures VerticalOnly(Steps(b, dt, n))
    ensures n > 0 ==> Steps(b, dt, n).pos.z >= 0.0
  {
    if n > 0 {
      VerticalMotionOnly(b, dt, n - 1);
      VerticalStep(Steps(b, dt, n - 1), dt);
    }
  }

  /** One step of `VerticalMotionOnly`. */
  lemma VerticalStep(b: Body, dt: real)
    requires VerticalOnly(b)
    ensures Integrate(b, dt).pos.x == b.pos.x && Integrate(b, dt).pos.y == b.pos.y
    ensures VerticalOnly(Integrate(b, dt))
  {
    IntegrateVelocity(b, dt);
    assert dt * b.accel.x == 0.0 && dt * b.accel.y == 0.0;
    assert dt * b.collisionForce.x == 0.0 && dt * b.collisionForce.y == 0.0;
    IntegratePosition(b, dt);
  }

  /** `get_heading(raw)`: the unit vector at angle `yaw` in the ground plane. */
  function HeadingAt(t: Trig, yaw: real): (h: Vec3)
    ensures h.z == 0.0
  {
    Vec3(t.cos(yaw), t.sin(yaw), 0.0)
  }

  /** The heading is a unit vector wherever cos and sin satisfy the
      Pythagorean identity. */
  lemma HeadingUnit(t: Trig, yaw: real)
    requires t.cos(yaw) * t.cos(yaw) + t.sin(yaw) * t.sin(yaw) == 1.0
    ensures Dot2(HeadingAt(t, yaw), HeadingAt(t, yaw)) == 1.0
  {
  }

  /** The direction a vehicle drives in: its yaw plus a quarter turn. */
  function DriveHeading(t: Trig, b: Body): (h: Vec3)
    ensures h.z == 0.0
  {
    HeadingAt(t, b.rot.z + PI / 2.0)
  }

  /** The horizontal part of the velocity. */
  function Horizontal(v: Vec3): Vec3
  {
    Vec3(v.x, v.y, 0.0)
  }

  /** The horizontal speed, signed by whether it points along the heading. */
  function SignedSpeed(t: Trig, b: Body): (s: real)
    // zero when moving exactly sideways
    ensures Dot2(b.vel, DriveHeading(t, b)) == 0.0 ==> s == 0.0
    // otherwise plus or minus the horizontal speed
    ensures Dot2(b.vel, DriveHeading(t, b)) > 0.0 ==> s == Length2(t, b.vel)
    ensures Dot2(b.vel, DriveHeading(t, b)) < 0.0 ==> s == -Length2(t, b.vel)
  {
    var v2 := Horizontal(b.vel);
    assert Dot2(v2, DriveHeading(t, b)) == Dot2(b.vel, DriveHeading(t, b));
    assert Dot2(v2, v2) == Dot2(b.vel, b.vel);
    Sign(Dot2(v2, DriveHeading(t, b))) * Length2(t, v2)
  }

  /** The acceleration from the controls along the heading, keeping the
      previous vertical acceleration. */
  function ControlAccel(t: Trig, b: Body, c: Controls): (a: Vec3)
    ensures a.x == (ThrottleForce * c.throttle - BrakeForce * c.brake) * DriveHeading(t, b).x
    ensures a.y == (ThrottleForce * c.throttle - BrakeForce * c.brake) * DriveHeading(t, b).y
    ensures a.z == b.accel.z
  {
    Add(Scale(ThrottleForce * c.throttle - BrakeForce * c.brake, DriveHeading(t, b)),
        Vec3(0.0, 0.0, b.accel.z))
  }

  /** The rolling resistance and drag factor at a signed speed. */
  function Friction(speed: real): real
  {
    speed * (RollingResistance + Drag * speed)
  }

  /** The grounded acceleration: the control acceleration less rolling
      resistance and drag, its horizontal part saturated. */
  function GroundAccel(t: Trig, b: Body, c: Controls): (a: Vec3)
    ensures -MaxAccel <= a.x <= MaxAccel && -MaxAccel <= a.y <= MaxAccel
    ensures a.z == b.accel.z
  {
    var a1 := Sub(ControlAccel(t, b, c), Scale(Friction(SignedSpeed(t, b)), Horizontal(b.vel)));
    Vec3(Clamp(a1.x, -MaxAccel, MaxAccel), Clamp(a1.y, -MaxAccel, MaxAccel), a1.z)
  }

  /** The bicycle model's yaw rate at a signed speed and steering angle. */
  function YawRate(t: Trig, speed: real, steer: real): real
  {
    speed * t.tan(SteerForce * steer) / WheelDiameter
  }

  /** The velocity `v` turned onto the heading `h` at signed speed `s`; the
      vertical part is kept. */
  function AlongHeading(v: Vec3, s: real, h: Vec3): Vec3
  {
    v.(x := s * h.x, y := s * h.y)
  }

  /** The turned velocity is parallel to the heading. */
  lemma AlongHeadingParallel(v: Vec3, s: real, h: Vec3)
    ensures AlongHeading(v, s, h).x * h.y == AlongHeading(v, s, h).y * h.x
  {
    assert s * h.x * h.y == s * h.y * h.x;
  }

  /** `FourWheeledVehicle::update` up to, not including, the integration
      step: the acceleration model, and on the ground the heading-aligned
      velocity and the yaw rate of the bicycle model. */
  function DriveSetup(t: Trig, b: Body, c: Controls): (r: Body)
    // airborne: pure gravity, nothing else touched
    ensures b.pos.z > 0.0 ==> r == b.(accel := Gravity)
    // grounded: the horizontal acceleration saturates, the vertical one is kept
    ensures b.pos.z <= 0.0 ==>
      && -MaxAccel <= r.accel.x <= MaxAccel && -MaxAccel <= r.accel.y <= MaxAccel
      && r.accel.z == b.accel.z
    // grounded: no sideways sliding, the horizontal velocity lies along the heading
    ensures b.pos.z <= 0.0 ==>
      r.vel.x * DriveHeading(t, b).y == r.vel.y * DriveHeading(t, b).x && r.vel.z == b.vel.z
    // grounded: the angular velocity is a pure yaw rate
    ensures b.pos.z <= 0.0 ==> r.rotvel.x == 0.0 && r.rotvel.y == 0.0
    ensures r.pos == b.pos && r.rot == b.rot && r.rotaccel == b.rotaccel
    ensures r.collisionForce == b.collisionForce
  {
    var heading := DriveHeading(t, b);
    var speed := SignedSpeed(t, b);
    AlongHeadingParallel(b.vel, speed, heading);
    if b.pos.z <= 0.0 then
      b.(accel := GroundAccel(t, b, c),
         vel := AlongHeading(b.vel, speed, heading),
         rotvel := Vec3(0.0, 0.0, YawRate(t, speed, c.steer)))
    else
      b.(accel := Gravity)
  }

  /** When grounded and not moving sideways, the setup keeps the horizontal
      speed and only turns the velocity onto the heading (given a unit
      heading and a square root that squares back). */
  lemma GroundSpeedKept(t: Trig, b: Body, c: Controls)
    requires b.pos.z <= 0.0
    requires Dot2(b.vel, DriveHeading(t, b)) != 0.0
    requires Dot2(DriveHeading(t, b), DriveHeading(t, b)) == 1.0
    requires Length2(t, b.vel) * Length2(t, b.vel) == Dot2(b.vel, b.vel)
    ensures Dot2(DriveSetup(t, b, c).vel, DriveSetup(t, b, c).vel) == Dot2(b.vel, b.vel)
  {
    var h := DriveHeading(t, b);
    var s := SignedSpeed(t, b);
    var l := Length2(t, b.vel);
    var v := DriveSetup(t, b, c).vel;
    assert v == AlongHeading(b.vel, s, h);
    ScaledUnitSquare(b.vel, s, h);
    SignedSquare(s, l);
  }

  /** A multiple `s` of a horizontal unit vector has squared length `s * s`. */
  lemma ScaledUnitSquare(v: Vec3, s: real, h: Vec3)
    requires Dot2(h, h) == 1.0
    ensures Dot2(AlongHeading(v, s, h), AlongHeading(v, s, h)) == s * s
  {
    calc {
      s * h.x * (s * h.x) + s * h.y * (s * h.y);
      (s * s) * (h.x * h.x + h.y * h.y);
    }
  }

  lemma SignedSquare(s: real, l: real)
    requires s == l || s == -l
    ensures s * s == l * l
  {
  }

  /** When grounded and moving exactly sideways, the vehicle stops both
      moving horizontally and turning. */
  lemma SidewaysStops(t: Trig, b: Body, c: Controls)
    requires b.pos.z <= 0.0
    requires Dot2(b.vel, DriveHeading(t, b)) == 0.0
    ensures DriveSetup(t, b, c).vel == Vec3(0.0, 0.0, b.vel.z)
    ensures DriveSetup(t, b, c).rotvel == Zero
  {
  }

  /** A full `FourWheeledVehicle::update(dt)` physics step. */
  function Drive(t: Trig, b: Body, c: Controls, dt: real): (r: Body)
    ensures r.collisionForce == Zero && r.pos.z >= 0.0
    ensures b.pos.z > 0.0 ==> r.accel == Gravity
    ensures b.pos.z <= 0.0 ==>
      -MaxAccel <= r.accel.x <= MaxAccel && -MaxAccel <= r.accel.y <= MaxAccel
    ensures b.pos.z <= 0.0 ==> r.vel.z >= 0.0
  {
    Integrate(DriveSetup(t, b, c), dt)
  }
}
