# Vehicle hunt: a verified model of the game logic

This is the game logic of a small driving game, modelled in Dafny. Every
frame the play mode steps a roster of four-wheeled vehicles. In roster
order, each vehicle:

- picks a random target and steers toward it, unless the player drives it;
- takes one physics step;
- is pushed away from the first other vehicle whose yaw-only bounding box
  touches its own.

Disabled vehicles are then dropped from the roster and parked under the
ground. The arrow keys move the camera. A click casts a ray into the scene:
every vehicle whose box the ray hits dies. Any hit ends the game, and the
game is won when the last vehicle hit is the designated target.

The model has five modules:

- `Utils` holds vectors, yaw rotation, `repeat`, `repeat_loop` and `normalize`.
- `BBoxes` holds the bounding box: the value `Box` with its queries, and the
  class `BBox` that a vehicle owns and updates in place.
- `Kinematics` holds the motion model as values: the integrator of a physical
  mesh and the acceleration model of a four-wheeled vehicle.
- `Vehicles` holds the class `Vehicle`, covering the mesh, the physical mesh
  and the vehicle, with `think`, `update`, `turn_wheel`, `get_heading` and `die`.
- `Play` holds the class `PlayMode`, with the frame update and the click
  handling.

All arithmetic is over `real`. Trigonometry and the square root come from
the C math library. They are a parameter record `Trig` whose values the
model never fixes. A lemma that needs an identity, such as
`cos² + sin² = 1`, takes it as a precondition.

`think` draws from `std::rand()`. The model replaces it with a stream
`rand: nat -> nat` plus a cursor. `think` returns the position of the next
unused number.

State is modelled as follows:

- Vehicles, their boxes and their scene transforms are objects whose fields
  the methods update in place.
- A roster is a `seq<Vehicle>` field that the compaction reassigns.
- The roster loop is specified on snapshots (`Pose`, `Role`, `Mark`) that the
  loop invariants relate entry by entry.

`contains_pt` rotates `pt - midpt` into the box's frame, then compares it
with the local corners `min0..max0` rather than with half the extent (in
x and y). The model keeps that comparison as written. `ContainsMidpoint`
states what follows from it.

## Model

| member | source | states |
|---|---|---|
| Utils.Sign | AssetMesh.hpp:199 | `glm::sign` is 1, 0 or -1, and positive or negative exactly when its argument is |
| Utils.Clamp | AssetMesh.hpp:239 | the inline `min(hi, max(lo, x))` lands in `[lo, hi]` for ordered bounds, keeps a value already in range, and returns `x`, `lo` or `hi` |
| Utils.ClampOrder | AssetMesh.hpp:217-218 | the clamp written as `min(max(x, lo), hi)` equals the one written as `min(hi, max(lo, x))` |
| Utils.RotateYaw | Utils.hpp:7-12 | rotation about the vertical axis keeps z, and keeps a vertical vector vertical |
| Utils.RotateYawInverse | Utils.hpp:7-12 | rotating by `-yaw` undoes a rotation by `yaw` wherever cos and sin satisfy the usual identities |
| Utils.Repeat | Utils.hpp:14-25 | a value in range is kept; with a symmetric range at most one shift fires, and anything within one period either side lands in range |
| Utils.RepeatFixedIff | Utils.hpp:14-25 | with a symmetric range, `repeat` changes `x` exactly when `x` is out of range |
| Utils.RepeatIdempotent | Utils.hpp:14-25 | on the inputs it brings into range, `repeat` is idempotent |
| Utils.RepeatCrossing | Utils.hpp:18-20 | crossing `+hi` by `d` wraps to `-hi + d` |
| Utils.RepeatLoop | Utils.hpp:27-37 | the loops terminate for `lo < 0 < hi`; the result is at least `lo`, in range for a symmetric range, and agrees with `repeat` within one period |
| Utils.WrappedComponentwise | Utils.hpp:39-44 | each wrapped component depends only on the same input component |
| Utils.WrappedFixedIff | Utils.hpp:46-50 | `normalize(v)` leaves `v` unchanged exactly when every component is in `[-PI, PI]` |
| Utils.Normalize | Utils.hpp:39-44 | the in-place `normalize(v, min, max)` wraps each component by `repeat`, and lands in range for a symmetric range |
| Utils.NormalizeAngles | Utils.hpp:46-50 | `normalize(v)` is the wrap into `[-PI, PI]` |
| BBoxes.Box.Midpoint0 | BBox.hpp:99-102 | the midpoint is equidistant from the two local corners |
| BBoxes.Box.Updated | BBox.hpp:90-97 | `update` sets the rotation to pure yaw and moves the midpoint to `pos` plus the rest midpoint; the corners and extent do not change |
| BBoxes.Box.ContainsPt | BBox.hpp:41-59 | a contained point is within half the height of the midpoint in unrotated z |
| BBoxes.Box.Collides | BBox.hpp:61-88 | a box that contains the other's midpoint collides with it |
| BBoxes.Box.GroundPoint | BBox.hpp:27-30 | the extended ray meets the ground plane at z = 0 |
| BBoxes.Box.RoofPoint | BBox.hpp:32-36 | the extended ray meets the roof plane at `midpt.z + extent.z/2 - 1e-5` |
| BBoxes.Box.Intersects | BBox.hpp:24-39 | a horizontal ray never hits, and every hit is a contained point of the ray's line on the ground or roof plane |
| BBoxes.CornerIsCheckPoint | BBox.hpp:68-80 | every corner with signs ±1 on each axis is one of the nine sample points |
| BBoxes.CheckPointIsCorner | BBox.hpp:72-79 | every sample point after the midpoint is a corner |
| BBoxes.CollidesIffSample | BBox.hpp:61-88 | `collides_with` holds exactly when this box contains the other's midpoint or one of its eight corners |
| BBoxes.ContainsMidpoint | BBox.hpp:41-59 | because the offset from the midpoint is compared with `min0..max0`, a box contains its own midpoint exactly when the local origin lies in the local box |
| BBoxes.SamePoseCollides | BBox.hpp:61-88 | a box collides with a box of the same state whenever the local origin lies in the local box |
| BBoxes.ContainsLocal | BBox.hpp:41-59 | in the box's own frame, containment is the local test: x and y within `min0..max0`, z within half the height |
| BBoxes.IntersectsIffPlaneHit | BBox.hpp:24-39 | for a ray that is not horizontal, a hit means some contained point of the ray's line lies on the ground or roof plane, and conversely |
| BBoxes.HorizontalRayMisses | BBox.hpp:29-35 | a ray parallel to the ground picks nothing (both ray parameters are infinite or NaN) |
| BBoxes.BBox.constructor | BBox.hpp:15-22 | the constructor stores the local corners, the rest midpoint and the extent `max - min`, not collided |
| BBoxes.BBox.Update | BBox.hpp:90-97 | `update` changes only the midpoint and the rotation, to the `Updated` pose |
| BBoxes.BBox.CollidesWith | BBox.hpp:61-88 | the scan that stops at the first contained sample point answers the overlap test |
| Kinematics.Integrate | AssetMesh.hpp:55-79 | one step consumes the collision force and never goes below the ground; on the ground the vertical velocity is never downwards |
| Kinematics.IntegrateVelocity | AssetMesh.hpp:58-67 | the velocity gains `dt` times the acceleration and the collision force; the ground clamp only affects z, only on the ground |
| Kinematics.IntegratePosition | AssetMesh.hpp:69 | the horizontal position advances by `dt` times the new velocity |
| Kinematics.IntegrateZeroIff | AssetMesh.hpp:55-79 | a zero-length step is the identity exactly on states with no pending force, not underground, not sinking on the ground, and with in-range angles |
| Kinematics.RestingIsFixed | AssetMesh.hpp:55-79 | a body at rest on the ground under a downward pull stays at rest after a forward step |
| Kinematics.RestingVelocity | AssetMesh.hpp:58-67 | gravity alone cannot give a grounded resting body any velocity |
| Kinematics.StillPosition | AssetMesh.hpp:69-70 | a step that ends with zero velocity leaves a body above ground where it was |
| Kinematics.StillPose | AssetMesh.hpp:73-75 | with no angular velocity or acceleration, in-range angles stay put |
| Kinematics.RestingForever | AssetMesh.hpp:55-79 | a resting body stays exactly as it is, with z kept at 0, for any number of steps |
| Kinematics.VerticalMotionOnly | AssetMesh.hpp:55-79 | with no horizontal velocity, acceleration or push, any number of steps moves the body only vertically, never below the ground |
| Kinematics.VerticalStep | AssetMesh.hpp:58-70 | one step with no horizontal velocity, acceleration or push keeps x and y |
| Kinematics.HeadingAt | AssetMesh.hpp:145-149 | the heading lies in the ground plane |
| Kinematics.HeadingUnit | AssetMesh.hpp:145-149 | the heading is a unit vector wherever cos and sin satisfy the Pythagorean identity |
| Kinematics.DriveHeading | AssetMesh.hpp:194 | the drive heading lies in the ground plane |
| Kinematics.SignedSpeed | AssetMesh.hpp:198-200 | the signed speed is zero when moving exactly sideways, otherwise plus or minus the horizontal speed according to the heading |
| Kinematics.ControlAccel | AssetMesh.hpp:195 | horizontally, the heading times `10 * throttle - 5 * brake`; vertically, the previous acceleration kept |
| Kinematics.GroundAccel | AssetMesh.hpp:213-218 | the grounded horizontal acceleration saturates at ±100, and the vertical one is kept |
| Kinematics.AlongHeadingParallel | AssetMesh.hpp:221-222 | the velocity turned onto the heading is parallel to it |
| Kinematics.DriveSetup | AssetMesh.hpp:193-228 | airborne is pure gravity; grounded, the acceleration saturates, the horizontal velocity lies along the heading, and the angular velocity is a pure yaw rate; position, angles and force are untouched |
| Kinematics.GroundSpeedKept | AssetMesh.hpp:220-222 | grounded and not moving sideways, the setup keeps the horizontal speed and only turns the velocity onto the heading |
| Kinematics.SidewaysStops | AssetMesh.hpp:199-225 | grounded and moving exactly sideways, the vehicle stops moving horizontally and stops turning |
| Kinematics.Drive | AssetMesh.hpp:185-234 | a physics step consumes the force and stays above ground: gravity when airborne, saturated acceleration and no downward velocity when grounded |
| Vehicles.SteerToward | AssetMesh.hpp:164-180 | steering is straight for degenerate geometry; a reachable target is steered at, clamped to the wheel bounds; an unreachable one snaps to `-PI/4` for a positive bearing, `PI/4` for a negative one and 0 for a zero bearing |
| Vehicles.SteerTowardDefault | AssetMesh.hpp:176-180 | with the default bounds, steering stays in `[-PI/4, PI/4]`, and a target within the bound is steered at exactly |
| Vehicles.ThrottleToward | AssetMesh.hpp:181 | the throttle is at most 1: full up to distance 1 (and at distance 0), the reciprocal of the distance beyond |
| Vehicles.HeadingQuarterTurn | AssetMesh.hpp:145-149 | the drive heading is the raw heading turned a quarter turn, so the two are perpendicular |
| Vehicles.GroundAccelSteps | AssetMesh.hpp:213-218 | the grounded acceleration, computed in the order of `update`, is the saturated one |
| Vehicles.Vehicle.constructor | AssetMesh.hpp:43-53 | a new vehicle is enabled, at rest at the origin under gravity, without a target, with zero controls and the default wheel bounds, and owns a fresh box |
| Vehicles.Vehicle.Die | AssetMesh.hpp:29-32 | `die` disables the vehicle and changes nothing else |
| Vehicles.Vehicle.Heading | AssetMesh.hpp:145-149 | `get_heading` is the drive heading, or with `raw` the direction of the yaw |
| Vehicles.Vehicle.TurnWheel | AssetMesh.hpp:236-240 | the steering angle is the old one plus `delta`, clamped to the wheel bounds |
| Vehicles.Vehicle.PhysicalUpdate | AssetMesh.hpp:55-79 | the fields take one `Integrate` step, and the box follows to the new pose |
| Vehicles.Vehicle.Update | AssetMesh.hpp:185-234 | the fields take one `Drive` step under the current controls; the root transform and the box follow |
| Vehicles.Vehicle.SetUpDrive | AssetMesh.hpp:193-228 | before the integration, the fields are set up as `DriveSetup` says |
| Vehicles.Vehicle.GroundModel | AssetMesh.hpp:209-225 | the grounded branch sets the saturated acceleration, the heading-aligned velocity and the yaw rate |
| Vehicles.Vehicle.Think | AssetMesh.hpp:152-183 | fewer than two vehicles changes nothing; otherwise a valid target is kept, or one is drawn from the roster until valid, and then throttle and steering are aimed at it |
| Vehicles.Vehicle.Chase | AssetMesh.hpp:163-182 | throttle and steering are the ones toward the target, within a quarter of PI with the default bounds |
| Play.Parked | PlayMode.cpp:243-251 | after compaction an enabled vehicle is drawn where its pose shows it, and a disabled one at (0, 0, -100) |
| Play.Snapshot | PlayMode.cpp:212-221 | the scan of entry `i` sees the entries up to `i` as updated and the later ones as before the loop |
| Play.SnapshotPrefix | PlayMode.cpp:212-221 | the scan of entry `i` depends only on the entries up to `i` after their update, so later updates cannot change it |
| Play.SnapshotPresent | PlayMode.cpp:212-221 | when no later entry has been updated yet, entry `i`'s scan sees the roster as it is |
| Play.FirstPartner | PlayMode.cpp:220-236 | the partner is never the vehicle itself, it does touch, and no other vehicle before it touches |
| Play.PushAway | PlayMode.cpp:225-226 | for a positive frame time the push `0.5 * dir / elapsed` is a positive multiple of the direction away from the partner |
| Play.ScanResult | PlayMode.cpp:220-237 | without any touching partner the scan leaves the force as it found it |
| Play.PartnerIffTouching | PlayMode.cpp:220-236 | a partner is found exactly when some other box touches |
| Play.AliveMembers | PlayMode.cpp:242-253 | the survivors are exactly the enabled members of the roster |
| Play.AliveConcat | PlayMode.cpp:242-253 | survivors keep roster order: keeping the enabled ones distributes over concatenation |
| Play.AliveRoster | PlayMode.cpp:242-253 | the survivors of a roster of distinct vehicles are again such a roster |
| Play.FairPicks | AssetMesh.hpp:159-161 | a fair random stream eventually draws any valid target in the roster |
| Play.CameraPriority | PlayMode.cpp:259-269 | the offset is up, down, right or left in that priority, and zero with nothing held; each offset arises from exactly one case |
| Play.CameraStepScaled | PlayMode.cpp:271 | the camera's step is 0.1 times the offset |
| Play.Hits | PlayMode.cpp:187-188 | entry `j` is hit exactly when the ray intersects its box |
| Play.LastTrue | PlayMode.cpp:187-199 | the last hit is a hit, and nothing after it is |
| Play.ClickedStep | PlayMode.cpp:188-190 | handling entry `i` marks it with its hit and disables it on a hit |
| Play.VerdictStep | PlayMode.cpp:189-198 | a hit decides `win` on its own; a miss leaves `win` and `game_over` as they were |
| Play.PlayMode.constructor | PlayMode.cpp:85-92 | a new round holds the roster, targets its first vehicle, is not over, is won so far, and has no camera offset and no button pressed |
| Play.PlayMode.ScanPartners | PlayMode.cpp:220-237 | the scan sets the force to the push away from the first other touching vehicle, and leaves it alone without one |
| Play.PlayMode.StepThink | PlayMode.cpp:213-215 | only a vehicle that is not the player's thinks; only its controls and target change |
| Play.PlayMode.StepUpdate | PlayMode.cpp:216 | every entry is updated by exactly one physics step, and its collision force is consumed |
| Play.PlayMode.StepScan | PlayMode.cpp:220-237 | the scan changes only entry `k`'s force, to the scan result over the roster as it is |
| Play.PlayMode.StepPhysics | PlayMode.cpp:216-237 | update then scan: the scan sees entry `k` after its update |
| Play.PlayMode.Step | PlayMode.cpp:212-238 | one entry thinks (unless it is the player's), moves once, and is scanned; nothing else changes |
| Play.PlayMode.Proceed | PlayMode.cpp:212-238 | one turn of the roster loop moves the loop state on by one entry |
| Play.PlayMode.StepVehicles | PlayMode.cpp:212-238 | in roster order every entry thinks unless it is the player's, is updated exactly once, and is pushed from its first partner as seen then |
| Play.PlayMode.RemoveDisabled | PlayMode.cpp:242-253 | the roster becomes exactly its enabled vehicles in order, and every removed vehicle is parked at (0, 0, -100) |
| Play.PlayMode.Survivors | PlayMode.cpp:242-251 | one pass over the roster yields exactly its enabled vehicles in order, and parks each disabled one at (0, 0, -100) while leaving the others where they were |
| Play.PlayMode.Park | PlayMode.cpp:246-250 | a removed vehicle is moved to (0, 0, -100) and no other entry moves |
| Play.PlayMode.Simulate | PlayMode.cpp:212-253 | the frame's vehicle part: every entry stepped as `Stepped` says over the roster as it was, then the roster reduced to its enabled vehicles and the removed ones drawn at (0, 0, -100) |
| Play.PlayMode.Update | PlayMode.cpp:202-286 | one frame: every entry stepped as `Stepped` says, the roster reduced to its enabled vehicles with the removed ones drawn at (0, 0, -100), the camera offset and step from the arrow keys, and the reset of the press counters |
| Play.PlayMode.MoveCamera | PlayMode.cpp:259-285 | the camera offset follows the key priority, the camera moves by 0.1 times it, and the four press counters are reset |
| Play.PlayMode.ClickNext | PlayMode.cpp:188-198 | one entry of the outcome loop moves the click state on by one |
| Play.PlayMode.MarkHit | PlayMode.cpp:188-190 | entry `i` records whether it was hit and is enabled afterwards only if it was before and was not hit; no other entry changes |
| Play.PlayMode.CheckIfClicked | PlayMode.cpp:187-199 | each vehicle is marked with whether the ray from the camera position hits it and dies on a hit; `game_over` holds iff it did or any vehicle was hit; `win` is whether the last hit was the target, and unchanged with no hit |
| Play.PlayMode.ClickFrom | PlayMode.cpp:187-199 | the outcome loop for a ray from a given origin: marks, `game_over` and `win` as for the whole roster |
| Play.Stranded | AssetMesh.hpp:153-160 | when one of two vehicles is dead and is the other's target, no roster entry is a valid target for the survivor, so the roster fails `TargetsAvailable` |
| Play.Compose | PlayMode.cpp:213-216 | thinking then moving is one entry that has thought and moved |
| Play.ForceOnly | PlayMode.cpp:220-226 | setting entry `k`'s force changes neither the boxes nor the positions the scan reads, nor what the update did |
| Play.DoneStepped | PlayMode.cpp:212-238 | the loop state after the last entry is the finished loop, entry by entry |
| Play.Advance | PlayMode.cpp:212-238 | after one more entry, the earlier entries' scans still hold, because each saw the later entries as they were before the loop |
| Play.ScansKept | PlayMode.cpp:220-237 | updating entry `k` leaves the scans of the entries before it as they were, since each saw entry `k` before its update |
| Play.EntriesKept | PlayMode.cpp:212-238 | updating entry `k` keeps what the earlier entries' think and update did, and adds entry `k`'s own |

## Left out

- Floating point: the model computes over exact reals.
  - It does not model single precision, rounding, or the `float(M_PI / 4)` cast.
  - It does not model infinities and NaN in general.
  - It does model the NaN cases the core reaches: a horizontal click ray in `intersects`, and a zero-length direction or heading in `think`.
- Trigonometry and square roots: `cos`, `sin`, `tan`, `acos` and `sqrt` are abstract. This is why the model settles nothing about NaN from `acos` outside `[-1, 1]`.
- `std::rand()`: it is an input stream, not a generator.
- Vehicles.Vehicle.Think: requires that the stream eventually draws a valid target. The game loops forever when none exists, and that state is reachable: `update` never checks `game_over`, so when a click kills one of the last two vehicles, the survivor's next `think` runs before compaction removes the dead one, and can draw only itself or the dead vehicle. `Play.Stranded` shows that this roster fails `TargetsAvailable`.
- Play.PlayMode.StepVehicles: requires `TargetsAvailable()` and a fair stream so that every `think` stops, and `elapsed != 0` for the division in the push. `TargetsAvailable()` asks nothing of a roster of one, where `think` returns at once; in a larger roster it asks that every thinking vehicle without a valid target has one to find, which is exactly when the game's redraw loop can stop.
- Play.PlayMode.StepVehicles: states the outcome of `think` as `Thought` says:
  - a kept or eligible target;
  - throttle at most 1;
  - steering within a quarter of PI under the default wheel bounds.

  The exact throttle and steering are stated per call by `Vehicles.Vehicle.Think`, not over the loop.
- Utils.RepeatLoop: requires `lo < 0 < hi`. For other bounds the loops may not terminate: with `lo = 0` and `x < 0` the second loop shifts by 0, and with `hi <= 0` and `x > hi` the first loop never lowers `x`.
- Rendering and animation are not modelled:
  - the wheel and chassis rotations `woggle` and `wheel_rot`;
  - the quaternion `all->rotation` of `update`;
  - the sounds of the collision scan;
  - the audio listener.
- Scene loading is not modelled: `initialize_components`, `initialize_from_scene` and the shuffle of names. The vehicle constructor takes the mesh bounds as arguments and starts at the origin. It does not start at the transform's position.
- The click ray is an input. Its construction from the mouse position and the camera frame is not modelled. Its origin is the `cameraPosition` field, which `update` moves.
- Vehicle fields: `health`, `timeLastHit` and the jump button are declared but never used by the game logic.
- The player's keyboard steering: the game does not implement it.
- `isPlayer`, `brake` and `wheel_bounds` are constants of a vehicle. Nothing in the game logic assigns them after construction.
- `think(dt, …)` never reads `dt`, so the model drops the parameter.
- `check_if_clicked` assigns `win` through an if/else on `FWV == target`. The model writes this as the single assignment `win := v == target`, which is equivalent.
- Play.PlayMode.Update: states the camera step as the per-case `CameraStep`. `Play.CameraStepScaled` proves it equal to `0.1 * camera_offset`.
- Button press counters are natural numbers rather than 8-bit values. The core only resets them to 0.
