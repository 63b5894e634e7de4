/** The per-frame game logic of the play mode: the roster loop (think, update
    and a push away from the first colliding partner), the removal of
    disabled vehicles, the camera's arrow-key offset, and the outcome of a
    click on the scene. */
module Play {
  import opened Utils
  import opened BBoxes
  import opened Kinematics
  import opened Vehicles

  datatype Option<T> = None | Some(value: T)

  /** An input button: the presses since the last frame and whether it is
      held down. */
  datatype Button = Button(downs: nat, pressed: bool)

  /** Where a removed vehicle's transform is parked: under the ground, out of
      sight. */
  const Hidden: Vec3 := Vec3(0.0, 0.0, -100.0)

  /** A roster of distinct vehicles, each with its own box and transform. */
  predicate Roster(vs: seq<Vehicle>)
  {
    forall a, b :: 0 <= a < b < |vs| ==>
      vs[a] != vs[b] && vs[a].bounds != vs[b].bounds && vs[a].all != vs[b].all
  }

  /** What the roster loop changes about a vehicle: its kinematic state,
      the controls the heuristic sets, its target, its box and where its
      root transform is. */
  datatype Pose = Pose(body: Body, throttle: real, steer: real, target: Vehicle?, box: Box, shown: Vec3)

  function PoseOf(v: Vehicle): Pose
    reads v, v.bounds, v.all
  {
    Pose(v.State(), v.throttle, v.steer, v.target, v.bounds.Val(), v.all.position)
  }

  /** The poses of a roster, in roster order. */
  function Poses(vs: seq<Vehicle>): (r: seq<Pose>)
    reads set v | v in vs, set v | v in vs :: v.bounds, set v | v in vs :: v.all
    ensures |r| == |vs|
  {
    seq(|vs|, j reads set v | v in vs, set v | v in vs :: v.bounds, set v | v in vs :: v.all
              requires 0 <= j < |vs| => PoseOf(vs[j]))
  }

  /** What the roster loop reads about a vehicle but never changes: which
      vehicle it is (with its player flag, brake and wheel bounds, which are
      fixed), and whether its target was valid when the loop began. */
  datatype Role = Role(self: Vehicle, tracking: bool)

  function RoleOf(v: Vehicle): Role
    reads v, {v.target}`enabled
  {
    Role(v, v.ValidTarget(v.target))
  }

  /** The roles of a roster, in roster order. */
  function Roles(vs: seq<Vehicle>): (r: seq<Role>)
    reads set v | v in vs, set v | v in vs :: v.target
    ensures |r| == |vs|
    ensures forall j :: 0 <= j < |vs| ==> r[j] == RoleOf(vs[j])
  {
    seq(|vs|, j reads set v | v in vs, set v | v in vs :: v.target
              requires 0 <= j < |vs| => RoleOf(vs[j]))
  }

  /** The `enabled` flags of a roster, in roster order. */
  function EnabledFlags(vs: seq<Vehicle>): (r: seq<bool>)
    reads set v | v in vs
    ensures |r| == |vs|
    ensures forall j :: 0 <= j < |vs| ==> r[j] == vs[j].enabled
  {
    seq(|vs|, j reads set v | v in vs requires 0 <= j < |vs| => vs[j].enabled)
  }

  /** Where each vehicle of a roster is drawn, in roster order. */
  function Shown(vs: seq<Vehicle>): (r: seq<Vec3>)
    reads set v | v in vs :: v.all
    ensures |r| == |vs|
  {
    seq(|vs|, j reads set v | v in vs :: v.all requires 0 <= j < |vs| => vs[j].all.position)
  }

  /** Where compaction leaves the vehicles drawn: an enabled one where its
      pose shows it, a disabled one parked out of sight. */
  function Parked(ps: seq<Pose>, on: seq<bool>): (r: seq<Vec3>)
    requires |on| == |ps|
    ensures |r| == |ps| && forall j :: 0 <= j < |ps| ==> r[j] == if on[j] then ps[j].shown else Hidden
  {
    seq(|ps|, j requires 0 <= j < |ps| => if on[j] then ps[j].shown else Hidden)
  }

  /** The boxes of the poses, in order. */
  function BoxesOf(ps: seq<Pose>): (r: seq<Box>)
    ensures |r| == |ps| && forall j :: 0 <= j < |ps| ==> r[j] == ps[j].box
  {
    seq(|ps|, j requires 0 <= j < |ps| => ps[j].box)
  }

  /** The positions of the poses, in order. */
  function PositionsOf(ps: seq<Pose>): (r: seq<Vec3>)
    ensures |r| == |ps| && forall j :: 0 <= j < |ps| ==> r[j] == ps[j].body.pos
  {
    seq(|ps|, j requires 0 <= j < |ps| => ps[j].body.pos)
  }

  /** The boxes of a roster, in roster order. */
  function Boxes(vs: seq<Vehicle>): (r: seq<Box>)
    reads set v | v in vs, set v | v in vs :: v.bounds
    ensures |r| == |vs| && forall j :: 0 <= j < |vs| ==> r[j] == vs[j].bounds.Val()
  {
    seq(|vs|, j reads set v | v in vs, set v | v in vs :: v.bounds
              requires 0 <= j < |vs| => vs[j].bounds.Val())
  }

  /** What a click can change about a vehicle: whether it is enabled and
      whether its box is marked as hit. */
  datatype Mark = Mark(enabled: bool, collided: bool)

  /** The marks of a roster, in roster order. */
  function Marks(vs: seq<Vehicle>): (r: seq<Mark>)
    reads set v | v in vs, set v | v in vs :: v.bounds
    ensures |r| == |vs|
  {
    seq(|vs|, j reads set v | v in vs, set v | v in vs :: v.bounds
              requires 0 <= j < |vs| => Mark(vs[j].enabled, vs[j].bounds.collided))
  }

  /** The marks after the outcome loop has handled the first `i` entries:
      each of them is marked with its hit, and dies on a hit. */
  function Clicked(was: seq<Mark>, hits: seq<bool>, i: nat): (r: seq<Mark>)
    requires |hits| == |was| && i <= |was|
    ensures |r| == |was|
    ensures forall j :: 0 <= j < i ==> r[j] == Mark(was[j].enabled && !hits[j], hits[j])
    ensures forall j :: i <= j < |was| ==> r[j] == was[j]
  {
    seq(|was|, j requires 0 <= j < |was| => if j < i then Mark(was[j].enabled && !hits[j], hits[j]) else was[j])
  }

  /** The values the collision scan of entry `i` sees: the entries up to and
      including `i` as they are now, the later ones as they were before the
      roster loop. */
  function Snapshot<T>(now: seq<T>, before: seq<T>, i: nat): (r: seq<T>)
    requires |now| == |before| && i < |now|
    ensures |r| == |now|
    ensures forall j :: 0 <= j <= i ==> r[j] == now[j]
    ensures forall j :: i < j < |now| ==> r[j] == before[j]
  {
    now[..i + 1] + before[i + 1..]
  }

  /** A snapshot only depends on the entries up to `i` of `now`. */
  lemma SnapshotPrefix<T>(now: seq<T>, now': seq<T>, before: seq<T>, i: nat)
    requires |now| == |now'| == |before| && i < |now|
    requires forall j :: 0 <= j <= i ==> now[j] == now'[j]
    ensures Snapshot(now, before, i) == Snapshot(now', before, i)
  {
    assert now[..i + 1] == now'[..i + 1];
  }

  /** When the entries after `i` are still the ones from before, the
      snapshot is just the present. */
  lemma SnapshotPresent<T>(now: seq<T>, before: seq<T>, i: nat)
    requires |now| == |before| && i < |now|
    requires forall j :: i < j < |now| ==> now[j] == before[j]
    ensures Snapshot(now, before, i) == now
  {
    assert now[i + 1..] == before[i + 1..];
  }

  /** Either box collides with the other: the test of the collision scan. */
  predicate Touching(t: Trig, a: Box, b: Box)
  {
    a.Collides(t, b) || b.Collides(t, a)
  }

  /** The first position at or after `from`, other than `i` itself, whose box
      touches box `i`. */
  function FirstPartner(t: Trig, boxes: seq<Box>, i: nat, from: nat): (r: Option<nat>)
    requires i < |boxes| && from <= |boxes|
    decreases |boxes| - from
    // a partner is never the vehicle itself, and it does touch
    ensures r.Some? ==> from <= r.value < |boxes| && r.value != i && Touching(t, boxes[i], boxes[r.value])
    // nothing before the partner (or nothing at all) touches
    ensures forall j :: from <= j < |boxes| && j != i && (r.None? || j < r.value) ==>
      !Touching(t, boxes[i], boxes[j])
  {
    if from == |boxes| then None
    else if from != i && Touching(t, boxes[i], boxes[from]) then Some(from)
    else FirstPartner(t, boxes, i, from + 1)
  }

  /** The push of a collision, `0.5 * dir / elapsed`, component-wise. */
  function Push(dir: Vec3, elapsed: real): Vec3
    requires elapsed != 0.0
  {
    Vec3(0.5 * dir.x / elapsed, 0.5 * dir.y / elapsed, 0.5 * dir.z / elapsed)
  }

  /** For a positive frame time the push is a positive multiple of the
      direction away from the partner. */
  lemma PushAway(dir: Vec3, elapsed: real)
    requires elapsed > 0.0
    ensures 0.5 / elapsed > 0.0 && Push(dir, elapsed) == Scale(0.5 / elapsed, dir)
  {
    var k := 0.5 / elapsed;
    assert 0.5 * dir.x / elapsed == k * dir.x;
    assert 0.5 * dir.y / elapsed == k * dir.y;
    assert 0.5 * dir.z / elapsed == k * dir.z;
  }

  /** The collision force that the scan of entry `i` leaves behind, given the
      boxes and positions it sees and the force it starts from. */
  function ScanResult(t: Trig, boxes: seq<Box>, positions: seq<Vec3>, i: nat,
                      elapsed: real, none: Vec3): (f: Vec3)
    requires |boxes| == |positions| && i < |boxes| && elapsed != 0.0
    ensures (forall j :: 0 <= j < |boxes| && j != i ==> !Touching(t, boxes[i], boxes[j])) ==> f == none
  {
    match FirstPartner(t, boxes, i, 0)
    case Some(j) => Push(Sub(positions[i], positions[j]), elapsed)
    case None => none
  }

  /** A partner is found exactly when some other box touches. */
  lemma PartnerIffTouching(t: Trig, boxes: seq<Box>, i: nat)
    requires i < |boxes|
    ensures FirstPartner(t, boxes, i, 0).Some? <==>
      exists j :: 0 <= j < |boxes| && j != i && Touching(t, boxes[i], boxes[j])
  {
    if FirstPartner(t, boxes, i, 0).Some? {
      var j := FirstPartner(t, boxes, i, 0).value;
      assert Touching(t, boxes[i], boxes[j]);
    }
  }

  /** The enabled vehicles of a roster, in roster order. */
  function Alive(vs: seq<Vehicle>): seq<Vehicle>
    reads (set v | v in vs)`enabled
  {
    if vs == [] then []
    else Alive(vs[..|vs| - 1]) + (if vs[|vs| - 1].enabled then [vs[|vs| - 1]] else [])
  }

  /** The survivors are exactly the enabled members of the roster. */
  lemma {:induction false} AliveMembers(vs: seq<Vehicle>)
    decreases |vs|
    ensures forall k :: 0 <= k < |Alive(vs)| ==> Alive(vs)[k] in vs && Alive(vs)[k].enabled
    ensures forall j :: 0 <= j < |vs| && vs[j].enabled ==> vs[j] in Alive(vs)
    ensures |Alive(vs)| <= |vs|
  {
    if vs != [] {
      var n := |vs| - 1;
      AliveMembers(vs[..n]);
      assert forall j :: 0 <= j < n ==> vs[..n][j] == vs[j];
      assert forall v :: v in vs[..n] ==> v in vs;
    }
  }

  /** Keeping the enabled vehicles distributes over concatenation: the order
      of the survivors is the roster order. */
  lemma {:induction false} AliveConcat(vs: seq<Vehicle>, ws: seq<Vehicle>)
    decreases |ws|
    ensures Alive(vs + ws) == Alive(vs) + Alive(ws)
  {
    if ws == [] {
      assert vs + ws == vs;
    } else {
      var n := |ws| - 1;
      assert (vs + ws)[..|vs + ws| - 1] == vs + ws[..n];
      AliveConcat(vs, ws[..n]);
    }
  }

  /** The survivors of a roster form a roster. */
  lemma {:induction false} AliveRoster(vs: seq<Vehicle>)
    requires Roster(vs)
    decreases |vs|
    ensures Roster(Alive(vs))
  {
    if vs != [] {
      var n := |vs| - 1;
      assert Roster(vs[..n]);
      AliveRoster(vs[..n]);
      AliveMembers(vs[..n]);
      var r := Alive(vs[..n]);
      forall v | v in r
        ensures v != vs[n] && v.bounds != vs[n].bounds && v.all != vs[n].all
      {
        var a :| 0 <= a < n && vs[..n][a] == v;
      }
    }
  }

  /** The random stream picks every position `j < n` again and again. */
  ghost predicate Reaches(rand: nat -> nat, n: nat, from: nat, j: nat)
    requires n > 0
  {
    exists k: nat :: k >= from && rand(k) % n == j
  }

  /** `std::rand() % n` is fair: from any point on, every residue occurs. */
  ghost predicate Fair(rand: nat -> nat, n: nat)
    requires n > 0
  {
    forall from: nat, j: nat :: j < n ==> Reaches(rand, n, from, j)
  }

  /** A fair stream eventually draws any valid target present in `others`. */
  lemma FairPicks(v: Vehicle, others: seq<Vehicle>, rand: nat -> nat, from: nat, j: nat)
    requires j < |others| && Fair(rand, |others|) && v.ValidTarget(others[j])
    ensures v.PicksEventually(others, rand, from)
  {
    assert Reaches(rand, |others|, from, j);
    var k: nat :| k >= from && rand(k) % |others| == j;
    assert v.ValidTarget(others[rand(k) % |others|]);
  }

  /** The arrow-key rule for the camera offset. */
  function CameraOffset(up: Button, down: Button, right: Button, left: Button): Vec3
  {
    if up.pressed then Vec3(0.0, 1.0, 0.0)
    else if down.pressed then Vec3(0.0, -1.0, 0.0)
    else if right.pressed then Vec3(1.0, 0.0, 0.0)
    else if left.pressed then Vec3(-1.0, 0.0, 0.0)
    else Zero
  }

  /** Up wins over down, down over right, right over left; nothing held
      gives no offset, and each offset comes from exactly one case. */
  lemma CameraPriority(up: Button, down: Button, right: Button, left: Button)
    ensures CameraOffset(up, down, right, left) == Vec3(0.0, 1.0, 0.0) <==> up.pressed
    ensures CameraOffset(up, down, right, left) == Vec3(0.0, -1.0, 0.0) <==> !up.pressed && down.pressed
    ensures CameraOffset(up, down, right, left) == Vec3(1.0, 0.0, 0.0) <==>
      !up.pressed && !down.pressed && right.pressed
    ensures CameraOffset(up, down, right, left) == Vec3(-1.0, 0.0, 0.0) <==>
      !up.pressed && !down.pressed && !right.pressed && left.pressed
    ensures CameraOffset(up, down, right, left) == Zero <==>
      !up.pressed && !down.pressed && !right.pressed && !left.pressed
  {
  }

  /** How far the camera moves in one frame, case by case: a tenth of a
      unit along the offset the arrow keys select. */
  function CameraStep(up: Button, down: Button, right: Button, left: Button): Vec3
  {
    if up.pressed then Vec3(0.0, 0.1, 0.0)
    else if down.pressed then Vec3(0.0, -0.1, 0.0)
    else if right.pressed then Vec3(0.1, 0.0, 0.0)
    else if left.pressed then Vec3(-0.1, 0.0, 0.0)
    else Zero
  }

  /** The per-case step is the offset scaled by 0.1. */
  lemma CameraStepScaled(up: Button, down: Button, right: Button, left: Button)
    ensures CameraStep(up, down, right, left) == Scale(0.1, CameraOffset(up, down, right, left))
  {
  }

  /** Which boxes a click ray hits, in roster order. */
  function Hits(t: Trig, boxes: seq<Box>, origin: Vec3, ray: Vec3): (r: seq<bool>)
    ensures |r| == |boxes| && forall j :: 0 <= j < |boxes| ==> r[j] == boxes[j].Intersects(t, origin, ray)
  {
    seq(|boxes|, j requires 0 <= j < |boxes| => boxes[j].Intersects(t, origin, ray))
  }

  /** The last position holding `true`, if any. */
  function LastTrue(s: seq<bool>): (r: Option<nat>)
    ensures r.Some? ==> r.value < |s| && s[r.value]
    ensures forall j :: 0 <= j < |s| && (r.None? || r.value < j) ==> !s[j]
  {
    if s == [] then None
    else if s[|s| - 1] then Some(|s| - 1)
    else LastTrue(s[..|s| - 1])
  }

  /** Handling entry `i` moves the marks on by one entry. */
  lemma ClickedStep(was: seq<Mark>, hits: seq<bool>, i: nat)
    requires |hits| == |was| && i < |was|
    ensures Clicked(was, hits, i)[i := Mark(was[i].enabled && !hits[i], hits[i])] == Clicked(was, hits, i + 1)
  {
  }

  /** `win` after the outcome loop has seen `hits` over `roster`, starting
      from `win0`: decided by the last hit, if any. */
  function Verdict(win0: bool, roster: seq<Vehicle>, target: Vehicle?, hits: seq<bool>): bool
    requires |hits| <= |roster|
  {
    match LastTrue(hits)
    case Some(k) => roster[k] == target
    case None => win0
  }

  /** One more entry of the outcome loop: a hit decides on its own, a miss
      leaves the verdict as it was. */
  lemma VerdictStep(win0: bool, roster: seq<Vehicle>, target: Vehicle?, hits: seq<bool>, i: nat)
    requires i < |hits| <= |roster|
    ensures Verdict(win0, roster, target, hits[..i + 1]) ==
      if hits[i] then roster[i] == target else Verdict(win0, roster, target, hits[..i])
    ensures (true in hits[..i + 1]) == (hits[i] || true in hits[..i])
  {
    assert hits[..i + 1][..i] == hits[..i];
    assert hits[..i + 1] == hits[..i] + [hits[i]];
  }

  /** The state of the play mode the game logic touches. */
  class PlayMode {
    /** The roster, in the order the vehicles were created. */
    var vehicles: seq<Vehicle>
    /** The vehicle the player has to find; never owned. */
    var target: Vehicle?
    var gameOver: bool
    var win: bool
    var cameraOffset: Vec3
    var cameraPosition: Vec3
    var left: Button
    var right: Button
    var down: Button
    var up: Button

    predicate Valid()
      reads this`vehicles
    {
      Roster(vehicles)
    }

    /** A new round over `roster`: its first vehicle is the one to find. */
    constructor (roster: seq<Vehicle>, cameraAt: Vec3)
      requires |roster| > 0 && Roster(roster)
      ensures Valid() && vehicles == roster && target == roster[0]
      ensures !gameOver && win && cameraOffset == Zero && cameraPosition == cameraAt
      ensures left == right == down == up == Button(0, false)
    {
      vehicles := roster;
      target := roster[0];
      gameOver := false;
      win := true;
      cameraOffset := Zero;
      cameraPosition := cameraAt;
      left := Button(0, false);
      right := Button(0, false);
      down := Button(0, false);
      up := Button(0, false);
    }

    /** In a roster of more than one vehicle, every vehicle that thinks and
        has no valid target has one to find in the roster. A roster of one
        needs nothing: `think` returns at once there. */
    predicate TargetsAvailable()
      reads this`vehicles, (set v | v in vehicles)`target
      reads (set v | v in vehicles)`enabled, (set v | v in vehicles :: v.target)`enabled
    {
      forall i :: 0 <= i < |vehicles| && |vehicles| > 1 && !vehicles[i].isPlayer &&
                  !vehicles[i].ValidTarget(vehicles[i].target) ==>
        exists j :: 0 <= j < |vehicles| && vehicles[i].ValidTarget(vehicles[j])
    }

    /** The collision scan of entry `i`: stop at the first other vehicle
        whose box touches, and push away from it. */
    method ScanPartners(t: Trig, v: Vehicle, i: nat, elapsed: real)
      requires Valid() && i < |vehicles| && v == vehicles[i] && elapsed != 0.0
      modifies v`collisionForce
      ensures v.collisionForce ==
        old(ScanResult(t, BoxesOf(Poses(vehicles)), PositionsOf(Poses(vehicles)), i, elapsed, v.collisionForce))
    {
      ghost var poses := Poses(vehicles);
      ghost var boxes := BoxesOf(poses);
      assert boxes[i] == poses[i].box == v.bounds.Val();
      for j := 0 to |vehicles|
        invariant FirstPartner(t, boxes, i, 0) == FirstPartner(t, boxes, i, j)
        invariant v.collisionForce == old(v.collisionForce)
      {
        var other := vehicles[j];
        assert boxes[j] == poses[j].box == other.bounds.Val();
        assert PositionsOf(poses)[i] == v.pos && PositionsOf(poses)[j] == other.pos;
        var wasCollision := v.bounds.CollidesWith(t, other.bounds);
        if !wasCollision {
          wasCollision := other.bounds.CollidesWith(t, v.bounds);
        }
        if other != v && wasCollision {
          v.collisionForce := Push(Sub(v.pos, other.pos), elapsed);
          return;
        }
      }
    }

    /** For each of the first `m` vehicles that needs a target, the
        position of one it could pick. */
    ghost function Rivals(m: nat): (r: seq<nat>)
      requires TargetsAvailable() && m <= |vehicles|
      reads this`vehicles, (set v | v in vehicles)`target
      reads (set v | v in vehicles)`enabled, (set v | v in vehicles :: v.target)`enabled
      ensures |r| == m
      ensures forall i :: 0 <= i < m && |vehicles| > 1 && !vehicles[i].isPlayer &&
                          !vehicles[i].ValidTarget(vehicles[i].target) ==>
        r[i] < |vehicles| && vehicles[i].ValidTarget(vehicles[r[i]])
    {
      if m == 0 then [] else Rivals(m - 1) + [RivalOf(m - 1)]
    }

    /** A vehicle that vehicle `i` could pick, if it needs one. */
    ghost function RivalOf(i: nat): (j: nat)
      requires TargetsAvailable() && i < |vehicles|
      reads this`vehicles, (set v | v in vehicles)`target
      reads (set v | v in vehicles)`enabled, (set v | v in vehicles :: v.target)`enabled
      ensures |vehicles| > 1 && !vehicles[i].isPlayer && !vehicles[i].ValidTarget(vehicles[i].target) ==>
        j < |vehicles| && vehicles[i].ValidTarget(vehicles[j])
    {
      if |vehicles| > 1 && !vehicles[i].isPlayer && !vehicles[i].ValidTarget(vehicles[i].target) then
        var j :| 0 <= j < |vehicles| && vehicles[i].ValidTarget(vehicles[j]); j
      else 0
    }

    /** The first part of entry `k` of the roster loop: think, unless the
        vehicle is driven by the player. */
    method StepThink(t: Trig, v: Vehicle, k: nat, rand: nat -> nat, from: nat,
                     ghost role: Role, ghost alive: seq<bool>, ghost rival: nat) returns (next: nat)
      requires Valid() && k < |vehicles| && v == vehicles[k]
      requires role.self == v
      requires role.tracking == v.ValidTarget(v.target)
      requires |alive| == |vehicles| && forall j :: 0 <= j < |vehicles| ==> vehicles[j].enabled == alive[j]
      requires |vehicles| > 1 ==> Fair(rand, |vehicles|)
      requires !role.self.isPlayer && |vehicles| > 1 && !role.tracking ==>
        rival < |vehicles| && alive[rival] && vehicles[rival] != v
      modifies v`target, v`throttle, v`steer
      ensures next >= from
      ensures Poses(vehicles) == old(Poses(vehicles))[k := Poses(vehicles)[k]]
      ensures Poses(vehicles)[k] == old(Poses(vehicles))[k].(throttle := v.throttle, steer := v.steer, target := v.target)
      ensures Thought(role, vehicles, alive, old(Poses(vehicles))[k], Poses(vehicles)[k])
    {
      if !v.isPlayer && |vehicles| > 1 && !v.ValidTarget(v.target) {
        FairPicks(v, vehicles, rand, from, rival);
      }
      next := from;
      if !v.isPlayer {
        next := v.Think(t, vehicles, rand, from);
      }
      if !role.self.isPlayer && |vehicles| > 1 && !role.tracking {
        var j :| 0 <= j < |vehicles| && vehicles[j] == v.target;
        assert Eligible(v, vehicles, alive, v.target);
      }
    }

    /** The update of entry `k`: one physics step, nothing else. */
    method StepUpdate(t: Trig, v: Vehicle, k: nat, elapsed: real)
      requires Valid() && k < |vehicles| && v == vehicles[k]
      modifies v`accel, v`vel, v`pos, v`collisionForce, v`rotvel, v`rot
      modifies v.bounds`rot, v.bounds`midpt, v.all`position
      ensures Poses(vehicles) == old(Poses(vehicles))[k := Poses(vehicles)[k]]
      ensures Poses(vehicles)[k] == old(Poses(vehicles))[k].(body := v.State(), box := v.bounds.Val(), shown := v.all.position)
      ensures Moved(t, elapsed, v.brake, old(Poses(vehicles))[k], Poses(vehicles)[k])
      ensures v.collisionForce == Zero
    {
      v.Update(t, elapsed);
    }

    /** The collision scan of entry `k`, seen on the poses: only the force of
        entry `k` changes. */
    method StepScan(t: Trig, v: Vehicle, k: nat, elapsed: real)
      requires Valid() && k < |vehicles| && v == vehicles[k] && elapsed != 0.0
      modifies v`collisionForce
      ensures Poses(vehicles) == old(Poses(vehicles))[k := Poses(vehicles)[k]]
      ensures Poses(vehicles)[k] == old(Poses(vehicles))[k].(body := old(Poses(vehicles))[k].body.(collisionForce := v.collisionForce))
      ensures v.collisionForce ==
        old(ScanResult(t, BoxesOf(Poses(vehicles)), PositionsOf(Poses(vehicles)), k, elapsed, v.collisionForce))
    {
      ScanPartners(t, v, k, elapsed);
    }

    /** The rest of entry `k` of the roster loop: update, then scan for a
        collision partner against the roster as it is right after this
        update. */
    method StepPhysics(t: Trig, v: Vehicle, k: nat, elapsed: real)
      requires Valid() && k < |vehicles| && v == vehicles[k] && elapsed != 0.0
      modifies v`accel, v`vel, v`pos, v`collisionForce, v`rotvel, v`rot
      modifies v.bounds`rot, v.bounds`midpt, v.all`position
      ensures Poses(vehicles) == old(Poses(vehicles))[k := Poses(vehicles)[k]]
      ensures Poses(vehicles)[k] == old(Poses(vehicles))[k].(body := Poses(vehicles)[k].body, box := Poses(vehicles)[k].box, shown := Poses(vehicles)[k].shown)
      ensures Moved(t, elapsed, v.brake, old(Poses(vehicles))[k], Poses(vehicles)[k])
      ensures Poses(vehicles)[k].body.collisionForce ==
        ScanResult(t, BoxesOf(Poses(vehicles)), PositionsOf(Poses(vehicles)), k, elapsed, Zero)
    {
      ghost var p0 := Poses(vehicles);
      StepUpdate(t, v, k, elapsed);
      ghost var p1 := Poses(vehicles);
      StepScan(t, v, k, elapsed);
      ghost var p2 := Poses(vehicles);
      ForceOnly(t, elapsed, v.brake, p0, p1, p2, k);
    }

    /** Entry `k` of the roster loop: think unless driven by the player,
        update, then scan for a collision partner. */
    method Step(t: Trig, v: Vehicle, k: nat, elapsed: real, rand: nat -> nat, from: nat,
                ghost role: Role, ghost alive: seq<bool>, ghost rival: nat) returns (next: nat)
      requires Valid() && k < |vehicles| && v == vehicles[k] && elapsed != 0.0
      requires role.self == v && role.tracking == v.ValidTarget(v.target)
      requires |alive| == |vehicles| && forall j :: 0 <= j < |vehicles| ==> vehicles[j].enabled == alive[j]
      requires |vehicles| > 1 ==> Fair(rand, |vehicles|)
      requires !role.self.isPlayer && |vehicles| > 1 && !role.tracking ==>
        rival < |vehicles| && alive[rival] && vehicles[rival] != v
      modifies v`target, v`throttle, v`steer
      modifies v`accel, v`vel, v`pos, v`collisionForce, v`rotvel, v`rot
      modifies v.bounds`rot, v.bounds`midpt, v.all`position
      ensures next >= from
      ensures Poses(vehicles) == old(Poses(vehicles))[k := Poses(vehicles)[k]]
      ensures Thought(role, vehicles, alive, old(Poses(vehicles))[k], Poses(vehicles)[k])
      ensures Moved(t, elapsed, role.self.brake, old(Poses(vehicles))[k], Poses(vehicles)[k])
      ensures Poses(vehicles)[k].body.collisionForce ==
        ScanResult(t, BoxesOf(Poses(vehicles)), PositionsOf(Poses(vehicles)), k, elapsed, Zero)
    {
      ghost var p0 := Poses(vehicles);
      next := StepThink(t, v, k, rand, from, role, alive, rival);
      ghost var p1 := Poses(vehicles);
      StepPhysics(t, v, k, elapsed);
      ghost var p2 := Poses(vehicles);
      Compose(t, elapsed, role, vehicles, alive, p0[k], p1[k], p2[k]);
      assert p2 == p1[k := p2[k]] == p0[k := p1[k]][k := p2[k]];
    }

    /** What the roster loop never changes: the roster itself, its
        `enabled` flags `alive`, and whose the roles are. */
    predicate Fixed(roles: seq<Role>, alive: seq<bool>)
      reads this`vehicles, (set v | v in vehicles)`enabled
    {
      && Valid() && |alive| == |roles| == |vehicles|
      && forall i :: 0 <= i < |vehicles| ==> vehicles[i].enabled == alive[i] && roles[i].self == vehicles[i]
    }

    /** One turn of the roster loop. */
    method Proceed(t: Trig, v: Vehicle, k: nat, elapsed: real, rand: nat -> nat, from: nat,
                   ghost before: seq<Pose>, ghost roles: seq<Role>, ghost alive: seq<bool>,
                   ghost rival: seq<nat>) returns (next: nat)
      requires Fixed(roles, alive) && k < |vehicles| && v == vehicles[k]
      requires roles[k].tracking == v.ValidTarget(v.target)
      requires Done(t, elapsed, vehicles, alive, roles, before, Poses(vehicles), k)
      requires |vehicles| > 1 ==> Fair(rand, |vehicles|)
      requires Rivalry(vehicles, alive, roles, rival)
      modifies v`target, v`throttle, v`steer
      modifies v`accel, v`vel, v`pos, v`collisionForce, v`rotvel, v`rot
      modifies v.bounds`rot, v.bounds`midpt, v.all`position
      ensures next >= from
      ensures Fixed(roles, alive)
      ensures Done(t, elapsed, vehicles, alive, roles, before, Poses(vehicles), k + 1)
    {
      ghost var now0 := Poses(vehicles);
      assert now0[k] == before[k];
      next := Step(t, v, k, elapsed, rand, from, roles[k], alive, rival[k]);
      Advance(t, elapsed, vehicles, alive, roles, before, now0, Poses(vehicles), k);
    }

    /** The roster loop of `update`: in roster order every vehicle thinks
        (unless it is the player's), is updated exactly once, and is pushed
        away from the first other vehicle it collides with. The scan of entry
        `i` sees the entries up to `i` after their update and the later ones
        before theirs. Nothing outside the fields named here changes. */
    method StepVehicles(t: Trig, elapsed: real, rand: nat -> nat, from: nat) returns (next: nat)
      requires Valid() && elapsed != 0.0 && TargetsAvailable()
      requires |vehicles| > 1 ==> Fair(rand, |vehicles|)
      modifies (set v | v in vehicles)`target, (set v | v in vehicles)`throttle
      modifies (set v | v in vehicles)`steer, (set v | v in vehicles)`accel
      modifies (set v | v in vehicles)`vel, (set v | v in vehicles)`pos
      modifies (set v | v in vehicles)`collisionForce, (set v | v in vehicles)`rotvel
      modifies (set v | v in vehicles)`rot, (set v | v in vehicles :: v.bounds)`rot
      modifies (set v | v in vehicles :: v.bounds)`midpt, (set v | v in vehicles :: v.all)`position
      ensures next >= from
      ensures Done(t, elapsed, vehicles, old(EnabledFlags(vehicles)), old(Roles(vehicles)),
                   old(Poses(vehicles)), Poses(vehicles), |vehicles|)
    {
      next := from;
      var n := |vehicles|;
      ghost var before, roles, alive := Poses(vehicles), Roles(vehicles), EnabledFlags(vehicles);
      ghost var rival := Rivals(n);
      assert Rivalry(vehicles, alive, roles, rival);
      assert Fixed(roles, alive);
      assert Done(t, elapsed, vehicles, alive, roles, before, Poses(vehicles), 0);
      for k := 0 to n
        invariant next >= from
        invariant Fixed(roles, alive)
        invariant Done(t, elapsed, vehicles, alive, roles, before, Poses(vehicles), k)
      {
        assert Poses(vehicles)[k] == before[k] && before[k].target == old(vehicles[k].target);
        next := Proceed(t, vehicles[k], k, elapsed, rand, next, before, roles, alive, rival);
      }
    }

    /** The compaction of `update`: keep the enabled vehicles in roster
        order, and park the root transform of every other one at `Hidden`. */
    method RemoveDisabled()
      requires Valid()
      modifies this`vehicles, (set v | v in vehicles :: v.all)`position
      ensures Valid() && vehicles == Alive(old(vehicles))
      ensures Shown(old(vehicles)) == Parked(old(Poses(vehicles)), old(EnabledFlags(vehicles)))
    {
      var alive := Survivors();
      vehicles := alive;
    }

    /** The loop of the compaction: collect the enabled vehicles in roster
        order, and park every other one. */
    method Survivors() returns (alive: seq<Vehicle>)
      requires Valid()
      modifies (set v | v in vehicles :: v.all)`position
      ensures alive == Alive(vehicles) && Roster(alive)
      ensures Shown(vehicles) == Parked(old(Poses(vehicles)), old(EnabledFlags(vehicles)))
    {
      alive := [];
      ghost var vs := vehicles;
      ghost var parked := Parked(Poses(vs), EnabledFlags(vs));
      for i := 0 to |vehicles|
        invariant alive == Alive(vs[..i])
        invariant forall j :: 0 <= j < |vs| ==>
          vs[j].all.position == if j < i then parked[j] else old(vs[j].all.position)
      {
        var v := vehicles[i];
        assert vs[..i + 1][..i] == vs[..i];
        if v.enabled {
          alive := alive + [v];
        } else {
          Park(v, i);
        }
      }
      assert vs[..|vs|] == vs;
      AliveRoster(vs);
      assert Shown(vs) == parked;
    }

    /** Move the root transform of entry `i` out of sight; every other
        vehicle stays where it is drawn. */
    method Park(v: Vehicle, i: nat)
      requires Valid() && i < |vehicles| && v == vehicles[i]
      modifies v.all`position
      ensures v.all.position == Hidden
      ensures forall j :: 0 <= j < |vehicles| && j != i ==>
        vehicles[j].all.position == old(vehicles[j].all.position)
    {
      v.all.position := Hidden;
    }

    /** The outcome loop after `i` entries, with `boxes`, `was`, `won` and
        `over` the boxes, the marks, `win` and `game_over` before it, and
        `hits` the entries the ray hits. */
    predicate Clicking(boxes: seq<Box>, hits: seq<bool>, was: seq<Mark>, won: bool, over: bool, i: nat)
      reads this, set v | v in vehicles, set v | v in vehicles :: v.bounds
    {
      && Valid() && |boxes| == |hits| == |was| == |vehicles| && i <= |vehicles|
      && Marks(vehicles) == Clicked(was, hits, i)
      && gameOver == (over || true in hits[..i])
      && win == Verdict(won, vehicles, target, hits[..i])
    }

    /** The vehicle part of `update(elapsed)`: the roster loop, then the
        compaction. `stepped` holds the poses right after the roster loop. */
    method Simulate(t: Trig, elapsed: real, rand: nat -> nat, from: nat) returns (next: nat, ghost stepped: seq<Pose>)
      requires Valid() && elapsed != 0.0 && TargetsAvailable()
      requires |vehicles| > 1 ==> Fair(rand, |vehicles|)
      modifies (set v | v in vehicles)`target, (set v | v in vehicles)`throttle
      modifies (set v | v in vehicles)`steer, (set v | v in vehicles)`accel
      modifies (set v | v in vehicles)`vel, (set v | v in vehicles)`pos
      modifies (set v | v in vehicles)`collisionForce, (set v | v in vehicles)`rotvel
      modifies (set v | v in vehicles)`rot, (set v | v in vehicles :: v.bounds)`rot
      modifies (set v | v in vehicles :: v.bounds)`midpt, (set v | v in vehicles :: v.all)`position
      modifies this`vehicles
      ensures next >= from
      ensures Valid()
      ensures vehicles == old(Alive(vehicles))
      ensures Stepped(t, elapsed, old(vehicles), old(EnabledFlags(vehicles)), old(Roles(vehicles)),
                      old(Poses(vehicles)), stepped)
      ensures Shown(old(vehicles)) == Parked(stepped, old(EnabledFlags(vehicles)))
    {
      ghost var vs, on := vehicles, EnabledFlags(vehicles);
      next := StepVehicles(t, elapsed, rand, from);
      assert EnabledFlags(vs) == on;
      stepped := Poses(vehicles);
      DoneStepped(t, elapsed, vs, on, old(Roles(vehicles)), old(Poses(vehicles)), stepped);
      RemoveDisabled();
    }

    /** `update(elapsed)`: the vehicles, then the camera offset from the
        arrow keys, and last the reset of their press counters. */
    method Update(t: Trig, elapsed: real, rand: nat -> nat, from: nat) returns (next: nat, ghost stepped: seq<Pose>)
      requires Valid() && elapsed != 0.0 && TargetsAvailable()
      requires |vehicles| > 1 ==> Fair(rand, |vehicles|)
      modifies (set v | v in vehicles)`target, (set v | v in vehicles)`throttle
      modifies (set v | v in vehicles)`steer, (set v | v in vehicles)`accel
      modifies (set v | v in vehicles)`vel, (set v | v in vehicles)`pos
      modifies (set v | v in vehicles)`collisionForce, (set v | v in vehicles)`rotvel
      modifies (set v | v in vehicles)`rot, (set v | v in vehicles :: v.bounds)`rot
      modifies (set v | v in vehicles :: v.bounds)`midpt, (set v | v in vehicles :: v.all)`position
      modifies this`vehicles, this`cameraOffset, this`cameraPosition
      modifies this`left, this`right, this`up, this`down
      ensures next >= from
      ensures Valid()
      ensures vehicles == old(Alive(vehicles))
      ensures Stepped(t, elapsed, old(vehicles), old(EnabledFlags(vehicles)), old(Roles(vehicles)),
                      old(Poses(vehicles)), stepped)
      ensures Shown(old(vehicles)) == Parked(stepped, old(EnabledFlags(vehicles)))
      ensures cameraOffset == CameraOffset(old(up), old(down), old(right), old(left))
      ensures cameraPosition == Add(old(cameraPosition), CameraStep(old(up), old(down), old(right), old(left)))
      ensures left == old(left).(downs := 0) && right == old(right).(downs := 0)
      ensures up == old(up).(downs := 0) && down == old(down).(downs := 0)
    {
      next, stepped := Simulate(t, elapsed, rand, from);
      ghost var shown := Shown(old(vehicles));
      MoveCamera();
      assert Shown(old(vehicles)) == shown;
    }

    /** The end of `update`: the camera offset from the arrow keys, its
        step, and the reset of their press counters. */
    method MoveCamera()
      modifies this`cameraOffset, this`cameraPosition, this`left, this`right, this`up, this`down
      ensures cameraOffset == CameraOffset(old(up), old(down), old(right), old(left))
      ensures cameraPosition == Add(old(cameraPosition), CameraStep(old(up), old(down), old(right), old(left)))
      ensures left == old(left).(downs := 0) && right == old(right).(downs := 0)
      ensures up == old(up).(downs := 0) && down == old(down).(downs := 0)
    {
      cameraOffset := CameraOffset(up, down, right, left);
      CameraStepScaled(up, down, right, left);
      cameraPosition := Add(cameraPosition, Scale(0.1, cameraOffset));
      left := left.(downs := 0);
      right := right.(downs := 0);
      up := up.(downs := 0);
      down := down.(downs := 0);
    }

    /** One turn of the outcome loop: test the ray against the box of entry
        `i`, and on a hit let it die and record the outcome. */
    method ClickNext(t: Trig, v: Vehicle, origin: Vec3, ray: Vec3, ghost boxes: seq<Box>, ghost hits: seq<bool>,
                     ghost was: seq<Mark>, ghost won: bool, ghost over: bool, i: nat)
      requires Clicking(boxes, hits, was, won, over, i) && i < |vehicles| && v == vehicles[i]
      requires v.bounds.Val() == boxes[i] && hits[i] == boxes[i].Intersects(t, origin, ray)
      modifies v`enabled, v.bounds`collided, this`gameOver, this`win
      ensures Clicking(boxes, hits, was, won, over, i + 1)
    {
      var hit := v.bounds.Val().Intersects(t, origin, ray);
      MarkHit(v, i, hit);
      if hit {
        gameOver := true;
        win := v == target;
      }
      VerdictStep(won, vehicles, target, hits, i);
      ClickedStep(was, hits, i);
    }

    /** The marks part of one turn: record on the box whether it was hit,
        and on a hit let the vehicle die. Only entry `i`'s mark changes. */
    method MarkHit(v: Vehicle, i: nat, hit: bool)
      requires Valid() && i < |vehicles| && v == vehicles[i]
      modifies v`enabled, v.bounds`collided
      ensures Marks(vehicles) == old(Marks(vehicles))[i := Mark(old(v.enabled) && !hit, hit)]
    {
      v.bounds.collided := hit;
      if hit {
        v.Die();
      }
    }

    /** `check_if_clicked`: every vehicle whose box the ray from the camera
        position hits is marked collided and dies; any hit ends the game, and
        the last hit decides whether it was won: by hitting the target. */
    method CheckIfClicked(t: Trig, ray: Vec3)
      requires Valid()
      modifies (set v | v in vehicles)`enabled, (set v | v in vehicles :: v.bounds)`collided
      modifies this`gameOver, this`win
      ensures var hits := old(Hits(t, Boxes(vehicles), cameraPosition, ray));
        && Marks(vehicles) == Clicked(old(Marks(vehicles)), hits, |vehicles|)
        && gameOver == (old(gameOver) || true in hits)
        && win == Verdict(old(win), vehicles, target, hits)
    {
      ClickFrom(t, cameraPosition, ray);
    }

    /** The outcome loop of `check_if_clicked` for a ray from `origin`. */
    method ClickFrom(t: Trig, origin: Vec3, ray: Vec3)
      requires Valid()
      modifies (set v | v in vehicles)`enabled, (set v | v in vehicles :: v.bounds)`collided
      modifies this`gameOver, this`win
      ensures var hits := old(Hits(t, Boxes(vehicles), origin, ray));
        && Marks(vehicles) == Clicked(old(Marks(vehicles)), hits, |vehicles|)
        && gameOver == (old(gameOver) || true in hits)
        && win == Verdict(old(win), vehicles, target, hits)
    {
      ghost var boxes, was := Boxes(vehicles), Marks(vehicles);
      ghost var hits := Hits(t, boxes, origin, ray);
      assert hits[..0] == [] && hits[..|vehicles|] == hits;
      for i := 0 to |vehicles|
        invariant Clicking(boxes, hits, was, old(win), old(gameOver), i)
      {
        assert vehicles[i].bounds.Val() == old(vehicles[i].bounds.Val());
        ClickNext(t, vehicles[i], origin, ray, boxes, hits, was, old(win), old(gameOver), i);
      }
    }
  }

  /** A click that kills one of the last two vehicles strands the other:
      with its target dead, the redraw of `think` can only draw itself or
      the dead vehicle before compaction removes it, so no stream of draws
      ends the loop. */
  lemma Stranded(pm: PlayMode, a: Vehicle, b: Vehicle)
    requires pm.vehicles == [a, b] && a != b && !a.isPlayer && !b.enabled && a.target == b
    ensures !pm.TargetsAvailable()
    ensures forall j :: 0 <= j < |pm.vehicles| ==> !a.ValidTarget(pm.vehicles[j])
  {
    assert !a.ValidTarget(pm.vehicles[0]) && !a.ValidTarget(pm.vehicles[1]);
  }

  /** Thinking and then moving, as one entry. */
  lemma Compose(t: Trig, elapsed: real, role: Role, roster: seq<Vehicle>, alive: seq<bool>,
                p0: Pose, p1: Pose, p2: Pose)
    requires |alive| == |roster|
    requires Thought(role, roster, alive, p0, p1) && p1 == p0.(throttle := p1.throttle, steer := p1.steer, target := p1.target)
    requires Moved(t, elapsed, role.self.brake, p1, p2) && p2 == p1.(body := p2.body, box := p2.box, shown := p2.shown)
    ensures Thought(role, roster, alive, p0, p2) && Moved(t, elapsed, role.self.brake, p0, p2)
  {
  }

  /** Setting the collision force of entry `k` changes neither the boxes
      nor the positions the scan looks at, nor what the update did. */
  lemma ForceOnly(t: Trig, elapsed: real, brake: real, p0: seq<Pose>, p1: seq<Pose>, p2: seq<Pose>, k: nat)
    requires |p0| == |p1| == |p2| && k < |p0| && elapsed != 0.0
    requires p1 == p0[k := p1[k]] && Moved(t, elapsed, brake, p0[k], p1[k])
    requires p2 == p1[k := p2[k]] && p2[k] == p1[k].(body := p1[k].body.(collisionForce := p2[k].body.collisionForce))
    requires p2[k].body.collisionForce == ScanResult(t, BoxesOf(p1), PositionsOf(p1), k, elapsed, p1[k].body.collisionForce)
    requires p1[k].body.collisionForce == Zero
    ensures p2 == p0[k := p2[k]] && Moved(t, elapsed, brake, p0[k], p2[k])
    ensures p2[k].body.collisionForce == ScanResult(t, BoxesOf(p2), PositionsOf(p2), k, elapsed, Zero)
  {
    assert BoxesOf(p2) == BoxesOf(p1);
    assert PositionsOf(p2) == PositionsOf(p1);
  }

  /** `rival[i]` is a target that entry `i` can draw whenever it needs one. */
  predicate Rivalry(roster: seq<Vehicle>, alive: seq<bool>, roles: seq<Role>, rival: seq<nat>)
  {
    && |alive| == |roles| == |rival| == |roster|
    && forall i :: 0 <= i < |roster| && !roles[i].self.isPlayer && !roles[i].tracking && |roster| > 1 ==>
      rival[i] < |roster| && alive[rival[i]] && roster[rival[i]] != roster[i]
  }

  /** The state of the roster loop after `k` entries: entries from `k` on
      are as they were, and each entry before `k` has thought, moved and
      been scanned. */
  predicate Done(t: Trig, elapsed: real, roster: seq<Vehicle>, alive: seq<bool>, roles: seq<Role>,
                 before: seq<Pose>, now: seq<Pose>, k: nat)
  {
    && |alive| == |roles| == |before| == |now| == |roster| && k <= |roster| && elapsed != 0.0
    && (forall i :: k <= i < |now| ==> now[i] == before[i])
    && (forall i :: 0 <= i < k ==> Thought(roles[i], roster, alive, before[i], now[i]))
    && (forall i :: 0 <= i < k ==> Moved(t, elapsed, roles[i].self.brake, before[i], now[i]))
    && (forall i :: 0 <= i < k ==> Scanned(t, elapsed, before, now, i))
  }

  /** Entry `i` of a finished roster loop: it has thought, moved and been
      scanned. */
  predicate Finished(t: Trig, elapsed: real, roster: seq<Vehicle>, alive: seq<bool>, roles: seq<Role>,
                     before: seq<Pose>, after: seq<Pose>, i: nat)
    requires |alive| == |roles| == |before| == |after| == |roster| && i < |after| && elapsed != 0.0
  {
    && Thought(roles[i], roster, alive, before[i], after[i])
    && Moved(t, elapsed, roles[i].self.brake, before[i], after[i])
    && Scanned(t, elapsed, before, after, i)
  }

  /** The whole roster loop, entry by entry. */
  predicate Stepped(t: Trig, elapsed: real, roster: seq<Vehicle>, alive: seq<bool>, roles: seq<Role>,
                    before: seq<Pose>, after: seq<Pose>)
  {
    && |alive| == |roles| == |before| == |after| == |roster| && elapsed != 0.0
    && forall i :: 0 <= i < |after| ==> Finished(t, elapsed, roster, alive, roles, before, after, i)
  }

  /** The loop state after the last entry is the finished loop. */
  lemma DoneStepped(t: Trig, elapsed: real, roster: seq<Vehicle>, alive: seq<bool>, roles: seq<Role>,
                    before: seq<Pose>, after: seq<Pose>)
    requires Done(t, elapsed, roster, alive, roles, before, after, |roster|)
    ensures Stepped(t, elapsed, roster, alive, roles, before, after)
  {
    forall i | 0 <= i < |after|
      ensures Finished(t, elapsed, roster, alive, roles, before, after, i)
    {
    }
  }

  /** One entry of the roster loop moves the loop state on by one. */
  lemma Advance(t: Trig, elapsed: real, roster: seq<Vehicle>, alive: seq<bool>, roles: seq<Role>,
                before: seq<Pose>, now0: seq<Pose>, now: seq<Pose>, k: nat)
    requires Done(t, elapsed, roster, alive, roles, before, now0, k) && k < |roster|
    requires |now| == |now0| && now == now0[k := now[k]]
    requires Thought(roles[k], roster, alive, now0[k], now[k])
    requires Moved(t, elapsed, roles[k].self.brake, now0[k], now[k])
    requires now[k].body.collisionForce ==
      ScanResult(t, BoxesOf(now), PositionsOf(now), k, elapsed, Zero)
    ensures Done(t, elapsed, roster, alive, roles, before, now, k + 1)
  {
    SnapshotPresent(now, before, k);
    ScansKept(t, elapsed, before, now0, now, k);
    assert now0[k] == before[k];
    EntriesKept(t, elapsed, roster, alive, roles, before, now0, now, k);
  }

  /** Updating entry `k` keeps what the earlier entries did, and adds what
      entry `k` did. */
  lemma EntriesKept(t: Trig, elapsed: real, roster: seq<Vehicle>, alive: seq<bool>, roles: seq<Role>,
                    before: seq<Pose>, now0: seq<Pose>, now: seq<Pose>, k: nat)
    requires |alive| == |roles| == |before| == |now0| == |now| == |roster| && k < |roster|
    requires now == now0[k := now[k]]
    requires forall i :: 0 <= i < k ==> Thought(roles[i], roster, alive, before[i], now0[i])
    requires forall i :: 0 <= i < k ==> Moved(t, elapsed, roles[i].self.brake, before[i], now0[i])
    requires Thought(roles[k], roster, alive, before[k], now[k])
    requires Moved(t, elapsed, roles[k].self.brake, before[k], now[k])
    ensures forall i :: 0 <= i < k + 1 ==> Thought(roles[i], roster, alive, before[i], now[i])
    ensures forall i :: 0 <= i < k + 1 ==> Moved(t, elapsed, roles[i].self.brake, before[i], now[i])
  {
    forall i | 0 <= i < k + 1
      ensures Thought(roles[i], roster, alive, before[i], now[i])
      ensures Moved(t, elapsed, roles[i].self.brake, before[i], now[i])
    {
      if i < k {
        assert now[i] == now0[i];
      }
    }
  }

  /** Updating entry `k` leaves the scans of the earlier entries as they
      were: each of them saw entry `k` before its update. */
  lemma ScansKept(t: Trig, elapsed: real, before: seq<Pose>, now0: seq<Pose>, now: seq<Pose>, k: nat)
    requires |now0| == |now| == |before| && k < |now| && elapsed != 0.0
    requires now == now0[k := now[k]]
    requires forall i :: 0 <= i < k ==> Scanned(t, elapsed, before, now0, i)
    ensures forall i :: 0 <= i < k ==> Scanned(t, elapsed, before, now, i)
  {
    forall i | 0 <= i < k
      ensures Scanned(t, elapsed, before, now, i)
    {
      SnapshotPrefix(now, now0, before, i);
      assert Scanned(t, elapsed, before, now0, i);
    }
  }

  /** A target that `think` may draw from the roster: an enabled member
      other than the vehicle itself. */
  predicate Eligible(self: Vehicle, roster: seq<Vehicle>, alive: seq<bool>, c: Vehicle?)
    requires |alive| == |roster|
  {
    exists j :: 0 <= j < |roster| && roster[j] == c && alive[j] && c != self
  }

  /** The think part of one entry, on the fields it may change: nothing for
      the player's vehicle or a roster of one; otherwise the target is kept
      if it was valid and else drawn from the roster, the throttle is at most
      1 and with the default wheel bounds the steering angle is within a
      quarter of PI. */
  predicate Thought(role: Role, roster: seq<Vehicle>, alive: seq<bool>, was: Pose, now: Pose)
    requires |alive| == |roster|
  {
    if role.self.isPlayer || |roster| <= 1 then
      now.throttle == was.throttle && now.steer == was.steer && now.target == was.target
    else
      && (role.tracking ==> now.target == was.target)
      && (!role.tracking ==> Eligible(role.self, roster, alive, now.target))
      && now.throttle <= 1.0
      && (role.self.wheelBounds == DefaultWheelBounds ==> -PI / 4.0 <= now.steer <= PI / 4.0)
  }

  /** The update part of one entry: one `Drive` step under the controls
      chosen by the think part, the root transform moved to the new
      position and the box to the new pose. */
  predicate Moved(t: Trig, elapsed: real, brake: real, was: Pose, now: Pose)
  {
    && now.body.(collisionForce := Zero) ==
       Drive(t, was.body, Controls(now.throttle, brake, now.steer), elapsed)
    && now.shown == now.body.pos
    && now.box == was.box.Updated(now.body.pos, now.body.rot.z)
  }

  /** The collision part of entry `i`: the force left by a scan over the
      roster as it was right after entry `i` was updated. */
  predicate Scanned(t: Trig, elapsed: real, before: seq<Pose>, now: seq<Pose>, i: nat)
    requires |now| == |before| && i < |now| && elapsed != 0.0
  {
    var seen := Snapshot(now, before, i);
    now[i].body.collisionForce == ScanResult(t, BoxesOf(seen), PositionsOf(seen), i, elapsed, Zero)
  }
}
