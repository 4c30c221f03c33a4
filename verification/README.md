# cannon.js on Croquet, modelled in Dafny

This project models the physics core of a port of the cannon.js rigid-body
engine onto the Croquet replicated-model framework, together with the
app-layer component merge `EntityModel.setComponents`. Each source file of the
core has one Dafny module in a file of the same name:

- collision bookkeeping: `OverlapKeeper`, `ArrayCollisionMatrix`,
  `ObjectCollisionMatrix`, `TupleDictionary`, `Pool`, `Utils` and `Octree`;
- broadphases: `Broadphase`, `NaiveBroadphase`, and the sweep-and-prune
  broadphase as `SapBroadphase` (axis choice, insertion sorts, queries) and
  `SapScan` (the pair scan);
- bodies and shapes: `Body`, `Shape`, `Sphere`, `Particle`, `Plane`, `Box`,
  `Cylinder`, `Heightfield` and `Trimesh`;
- equations and solvers: `Equation`, `ContactEquation`, `FrictionEquation`,
  `RotationalEquation`, `RotationalMotorEquation`, `ConeEquation`, `Solver`,
  `GaussSeidel` (one projected Gauss-Seidel sweep), `GsSolver` and
  `SplitSolver`;
- constraints: `Constraint`, `PointToPointConstraint`, `HingeConstraint`,
  `LockConstraint`, `ConeTwistConstraint` and `DistanceConstraint`;
- orchestration: `Narrowphase` and `World`;
- rays: `Ray` and `RaycastResult`;
- force laws and vehicles: `Spring`, `RaycastVehicle` (with the wheel record
  of `WheelInfo.js`), `RigidVehicle` and `SphSystem`;
- materials: `Materials` (`Material` and `ContactMaterial`);
- the app layer: `EntityModel`.

Three shared modules support them. `Wrappers` holds `Option`, `Result` and
the JavaScript errors the source can throw. `Vectors` holds real 3-vectors,
quaternions and 3x3 matrices. Its `MathOps` record carries the operations the
model leaves uninterpreted: quaternion rotation, `sqrt`, `normalize`, `sin`,
`cos`, tangents and the AABB tests. `JsNumbers` holds JavaScript's 32-bit
integer conversions and the bitwise `&`, `or` and `>>`.

Conventions:

- Numbers are exact `real`s. Integer conversions (`ToInt32`, `ToInt16`,
  bitwise operators) are written out.
- Object identity (`===`, `indexOf`, `includes`) is modelled by the objects'
  integer ids. Bodies and equations refer to each other by index or id.
- Mutation is modelled by pure functions that return the new state. Where the
  source throws, the model returns `Err` with the error JavaScript would raise.
- Loops with interesting invariants are methods: the insertion sorts, the
  Gauss-Seidel sweep, the island search, octree insertion and the step loop.
- Where the source has a defect, the model keeps two definitions: one as
  written (`...AsWritten`) with a lemma that exhibits the defect, and one
  corrected, which the rest of the model uses (see Findings).

## Model

| member | source | states |
|---|---|---|
| JsNumbers.ToInt32 | script/cannon/collision/ArrayCollisionMatrix.js:36 | the 32-bit signed integer JavaScript's shift operators work on: equal to the input for values already in range, wrapped modulo 2^32 otherwise |
| JsNumbers.ShiftRight1 | script/cannon/collision/ArrayCollisionMatrix.js:73 | `x >> 1` on a value in 32-bit range is the floor of half of it |
| JsNumbers.AndSymmetric | script/cannon/collision/OverlapKeeper.js:100 | bitwise `&` does not depend on the order of its operands |
| JsNumbers.ToInt16 | script/cannon/shapes/Trimesh.js:16 | an `Int16Array` store keeps values in [-32768, 32768) and leaves those already in range unchanged |
| JsNumbers.AndMinusOne | script/cannon/collision/Ray.js:60 | a filter mask of -1 lets every group through: `x & -1` is `x` as a 32-bit integer, either way round |
| JsNumbers.OrBit | script/cannon/world/Narrowphase.js:505 | a bit of `a or b` (the bitwise `or` of the shape types) is set exactly when it is set in either operand |
| JsNumbers.OrOfBitsUnique | script/cannon/world/Narrowphase.js:505 | or-ing two single-bit shape types names the unordered pair of types: two such ors are equal exactly when the pairs are |
| ArrayCollisionMatrix.Init | script/cannon/collision/ArrayCollisionMatrix.js:14-19 | a new matrix is valid, has length 0 and no stored slots |
| ArrayCollisionMatrix.Set | script/cannon/collision/ArrayCollisionMatrix.js:46-55 | `set` stores 1 for a truthy value and 0 otherwise at the pair's slot; the length grows to just past the slot when the slot is an array index at or past the end and is kept otherwise; `get` reads the same as before for every pair with another slot |
| ArrayCollisionMatrix.Reset | script/cannon/collision/ArrayCollisionMatrix.js:61-65 | `reset` zeroes every slot below the length and keeps the length |
| ArrayCollisionMatrix.SetNumObjects | script/cannon/collision/ArrayCollisionMatrix.js:72-74 | the new length is `(n(n-1)) >> 1`; a negative length throws a RangeError; shrinking drops exactly the index slots at or past the new end and keeps the rest |
| ArrayCollisionMatrix.SetNumObjectsLength | script/cannon/collision/ArrayCollisionMatrix.js:72-74 | for body counts where the 32-bit shift is exact the length is n(n-1)/2 |
| ArrayCollisionMatrix.GetSymmetric | script/cannon/collision/ArrayCollisionMatrix.js:28-37 | `get(i, j) == get(j, i)` |
| ArrayCollisionMatrix.SetSymmetric | script/cannon/collision/ArrayCollisionMatrix.js:46-55 | `set(i, j, v)` and `set(j, i, v)` give the same matrix |
| ArrayCollisionMatrix.SlotValue | script/cannon/collision/ArrayCollisionMatrix.js:36 | the triangular slot `((i(i+1)) >> 1) + j - 1` equals `i(i+1)/2 + j - 1` for indices below 46340 |
| ArrayCollisionMatrix.RowsDisjoint | script/cannon/collision/ArrayCollisionMatrix.js:36 | slots of row i lie in `[i(i+1)/2 - 1, (i+1)(i+2)/2 - 1)`, so different rows never share a slot |
| ArrayCollisionMatrix.SlotInjective | script/cannon/collision/ArrayCollisionMatrix.js:28-55 | distinct unordered index pairs (below 46340) map to distinct slots |
| ArrayCollisionMatrix.SetOtherPair | script/cannon/collision/ArrayCollisionMatrix.js:28-55 | setting one pair never changes what `get` reads for a different pair |
| ObjectCollisionMatrix.Init | script/cannon/collision/ObjectCollisionMatrix.js:12-15 | a new matrix marks no pair |
| ObjectCollisionMatrix.Key | script/cannon/collision/ObjectCollisionMatrix.js:24-31 | the key holds the larger `_id` first and is made of exactly the two ids |
| ObjectCollisionMatrix.Set | script/cannon/collision/ObjectCollisionMatrix.js:40-53 | a truthy value marks the pair and a falsy one unmarks it; no other pair changes |
| ObjectCollisionMatrix.Reset | script/cannon/collision/ObjectCollisionMatrix.js:59-61 | `reset` leaves no pair marked |
| ObjectCollisionMatrix.SetNumObjects | script/cannon/collision/ObjectCollisionMatrix.js:68 | `setNumObjects` changes no answer of `get` |
| ObjectCollisionMatrix.GetSymmetric | script/cannon/collision/ObjectCollisionMatrix.js:23-32 | `get(i, j) == get(j, i)` |
| ObjectCollisionMatrix.KeyInjective | script/cannon/collision/ObjectCollisionMatrix.js:23-32 | equal keys come from the same unordered pair of ids |
| TupleDictionary.Init | script/cannon/utils/TupleDictionary.js:4-8 | a new dictionary is valid and holds no entries and no listed keys |
| TupleDictionary.Key | script/cannon/utils/TupleDictionary.js:16-24 | the key holds the smaller number first and is made of exactly the two numbers |
| TupleDictionary.Set | script/cannon/utils/TupleDictionary.js:32-46 | the pair's entry becomes the value, no other entry changes, the key is listed again only when no truthy value was stored under it, and validity is kept |
| TupleDictionary.Reset | script/cannon/utils/TupleDictionary.js:51-58 | `reset` deletes the entry of every listed key and leaves the key list empty |
| TupleDictionary.ResetEmpties | script/cannon/utils/TupleDictionary.js:32-58 | on a valid dictionary (every entry's key listed) `reset` leaves no entry |
| TupleDictionary.GetSymmetric | script/cannon/utils/TupleDictionary.js:16-24 | `get(i, j) == get(j, i)` |
| Utils.Defaults | script/cannon/utils/Utils.js:12-20 | every key of the defaults that the options lack is filled in, every key the options have is kept, nothing else is added |
| Utils.FillFrom | script/cannon/utils/Utils.js:14-18 | the for-in loop over a key list fills exactly the listed missing keys |
| Utils.DefaultsIdempotent | script/cannon/utils/Utils.js:12-20 | applying `defaults` to its own result changes nothing |
| Utils.DefaultsOrderIndependent | script/cannon/utils/Utils.js:14-18 | the result does not depend on the order the keys are visited in |
| Pool.Init | script/cannon/utils/Pool.js:12-17 | a new pool holds no objects |
| Pool.ConstructObject | script/cannon/utils/Pool.js:50-54 | the base pool throws; a subclass returns the object it builds |
| Pool.Release | script/cannon/utils/Pool.js:24-30 | the released objects are pushed in argument order after the existing ones |
| Pool.Get | script/cannon/utils/Pool.js:37-43 | a non-empty pool pops its last object; an empty one constructs an object, which throws for the base pool |
| Pool.Resize | script/cannon/utils/Pool.js:61-73 | shrinking pops down to the size keeping the prefix; growing pushes constructed objects up to the size, which throws for the base pool |
| Pool.ReleaseGetRoundTrip | script/cannon/utils/Pool.js:24-43 | releasing an object and then getting one returns that same object and the original pool |
| OverlapKeeper.Init | script/cannon/collision/OverlapKeeper.js:12-17 | both generations start empty |
| OverlapKeeper.GetKeySymmetric | script/cannon/collision/OverlapKeeper.js:19-26 | `getKey(i, j) == getKey(j, i)` |
| OverlapKeeper.GetKeyValue | script/cannon/collision/OverlapKeeper.js:19-26 | for ids below 2^15 the key is `min * 65536 + max` |
| OverlapKeeper.UnpackGetKey | script/cannon/collision/OverlapKeeper.js:19-101 | unpacking a key gives back the two ids, smaller first, for ids below 2^15 |
| OverlapKeeper.GetKeyHalves | script/cannon/collision/OverlapKeeper.js:19-26 | for ids below 2^15 the key is a non-negative 31-bit number whose high half is the smaller id and whose low half is the larger |
| OverlapKeeper.UnpackHalves | script/cannon/collision/OverlapKeeper.js:99-101 | `unpackAndPush` splits a non-negative 31-bit key into its high and low 16-bit halves |
| OverlapKeeper.HighHalf | script/cannon/collision/OverlapKeeper.js:100 | `(key & 0xffff0000) >> 16` is the high half of a non-negative 31-bit key |
| OverlapKeeper.LowHalf | script/cannon/collision/OverlapKeeper.js:100 | `key & 0xffff` is the low 16 bits of a key |
| OverlapKeeper.ScanIndex | script/cannon/collision/OverlapKeeper.js:37-40 | the scan stops at the first entry of the ascending list that is not below the key; every entry before it is below the key |
| OverlapKeeper.SetValid | script/cannon/collision/OverlapKeeper.js:33-48 | `set` keeps `current` strictly ascending (sorted and duplicate-free) and leaves `previous` alone |
| OverlapKeeper.SetPresent | script/cannon/collision/OverlapKeeper.js:41-43 | setting a pair whose key is already current changes nothing |
| OverlapKeeper.SetAbsent | script/cannon/collision/OverlapKeeper.js:44-47 | setting a new pair grows `current` by exactly its key and keeps every old key |
| OverlapKeeper.SetHas | script/cannon/collision/OverlapKeeper.js:33-48 | after `set` the pair's key is current and every key current before still is |
| OverlapKeeper.Tick | script/cannon/collision/OverlapKeeper.js:53-58 | `previous` becomes the old `current` and `current` becomes empty |
| OverlapKeeper.MissingIsDifference | script/cannon/collision/OverlapKeeper.js:65-97 | the keys the diff scan keeps are exactly the keys of one list absent from the other, still ascending |
| OverlapKeeper.MissingNone | script/cannon/collision/OverlapKeeper.js:65-97 | nothing is reported against a list that holds every key |
| OverlapKeeper.UnpackAll | script/cannon/collision/OverlapKeeper.js:99-101 | each key contributes its two ids, in order, to the output array |
| OverlapKeeper.GetDiff | script/cannon/collision/OverlapKeeper.js:65-97 | `additions` gains the unpacked keys of `current` missing from `previous` and `removals` those of `previous` missing from `current`, each ascending, appended after what the arrays held |
| OverlapKeeper.DiffScan | script/cannon/collision/OverlapKeeper.js:71-81 | the merge scan with a cursor that only moves forward collects exactly the keys of `a` absent from `b` |
| OverlapKeeper.FoundIff | script/cannon/collision/OverlapKeeper.js:74-77 | once the cursor has passed every smaller entry, the key is in `b` exactly when it sits at the cursor |
| OverlapKeeper.SetAllKeeps | script/cannon/collision/OverlapKeeper.js:33-48 | setting a list of pairs keeps every key that was current |
| OverlapKeeper.SetAllHas | script/cannon/collision/OverlapKeeper.js:33-48 | after setting a list of pairs every pair's key is current |
| OverlapKeeper.SetOnly | script/cannon/collision/OverlapKeeper.js:33-48 | `set` adds the pair's key and no other |
| OverlapKeeper.SetAllOnly | script/cannon/collision/OverlapKeeper.js:33-48 | setting a list of pairs adds their keys and no other |
| OverlapKeeper.SetAllCurrent | script/cannon/collision/OverlapKeeper.js:33-58 | after a `tick`, the current generation depends only on the pairs set since |
| OverlapKeeper.SameContactsEmptyDiff | script/cannon/collision/OverlapKeeper.js:53-97 | two steps that set the same pairs report no additions and no removals |
| Vectors.BoundsOf | script/cannon/shapes/Box.js:200-228 | the running min/max scan over the points: every point lies inside the box, and each bound is attained by some point |
| Vectors.BoundsOfTight | script/cannon/shapes/Box.js:200-228 | when two of the points are opposite corners of a box holding them all, the scan returns that box |
| Vectors.Union | script/cannon/objects/Body.js:544 | `extend` gives the componentwise min of the lower and max of the upper bounds, a box holding both boxes |
| Materials.NewMaterial | script/cannon/material/Material.js:12-29 | a friction or restitution missing from the options is -1, a given one is kept |
| Materials.NewContactMaterial | script/cannon/material/ContactMaterial.js:14-40 | each missing option takes its default (friction and restitution 0.3, stiffnesses 1e7, relaxations 3); given ones are kept; the material pair is stored |
| Shape.Init | script/cannon/shapes/Shape.js:4-24 | the type defaults to 0, the collision filter group to 1 and the mask to -1; the bounding radius starts at 0 and the shape belongs to no body |
| Shape.CollisionResponseAlwaysTrue | script/cannon/shapes/Shape.js:11-13 | both branches of the `collisionResponse` conditional give true, so a fresh shape always responds whatever the options say |
| Shape.UpdateBoundingSphereRadius | script/cannon/shapes/Shape.js:30-32 | the base method throws |
| Shape.Volume | script/cannon/shapes/Shape.js:39-41 | the base method throws |
| Shape.CalculateLocalInertia | script/cannon/shapes/Shape.js:50-52 | the base method throws |
| Shape.CalculateWorldAabb | script/cannon/shapes/Shape.js:54-56 | the base method throws |
| Shape.TypesArePowers | script/cannon/shapes/Shape.js:58-70 | each type flag is a distinct power of two |
| Shape.TypePairKeyUnique | script/cannon/world/Narrowphase.js:505 | the bitwise or of the two types names the unordered pair of types: two pairs get the same resolver key exactly when they are the same pair |
| Shape.TypePairKey | script/cannon/world/Narrowphase.js:505 | the resolver key of two types is their sum, or the one type when both are the same |
| Sphere.Init | script/cannon/shapes/Sphere.js:7-17 | the radius defaults to 1, a negative radius throws, and the bounding radius equals the radius |
| Sphere.LocalInertia | script/cannon/shapes/Sphere.js:19-25 | the moment is 2mr^2/5 about every axis |
| Sphere.UpdateBoundingSphereRadius | script/cannon/shapes/Sphere.js:31-33 | the bounding radius becomes the radius |
| Sphere.WorldAabb | script/cannon/shapes/Sphere.js:35-43 | the box is the position plus and minus r on every axis, whatever the orientation |
| Sphere.WorldAabbHoldsCentre | script/cannon/shapes/Sphere.js:35-43 | a sphere's box holds its centre |
| Sphere.InertiaMonotone | script/cannon/shapes/Sphere.js:19-25 | the heavier of two spheres of the same radius has the larger moment |
| Particle.Init | script/cannon/shapes/Particle.js:7-9 | a particle shape has the particle type |
| Particle.LocalInertia | script/cannon/shapes/Particle.js:11-14 | the inertia is zero about every axis, whatever the mass |
| Particle.Volume | script/cannon/shapes/Particle.js:16-18 | the volume is 0 |
| Particle.UpdateBoundingSphereRadius | script/cannon/shapes/Particle.js:20-22 | the bounding radius is 0 |
| Particle.WorldAabb | script/cannon/shapes/Particle.js:24-28 | the box is the single point at the position |
| Plane.Init | script/cannon/shapes/Plane.js:15-23 | the plane type with an infinite (MAX_VALUE) bounding radius |
| Plane.ComputeWorldNormal | script/cannon/shapes/Plane.js:35-40 | the world normal is the +z axis rotated by the orientation |
| Plane.LocalInertia | script/cannon/shapes/Plane.js:42-44 | `calculateLocalInertia` returns the target unchanged |
| Plane.Volume | script/cannon/shapes/Plane.js:46-51 | the volume is MAX_VALUE |
| Plane.UpdateBoundingSphereRadius | script/cannon/shapes/Plane.js:81-83 | the bounding radius is MAX_VALUE |
| Plane.AxisBounds | script/cannon/shapes/Plane.js:60-78 | on each axis a normal component of exactly +1 puts the upper bound at the position, exactly -1 the lower bound, otherwise both bounds are ±MAX_VALUE |
| Plane.WorldAabb | script/cannon/shapes/Plane.js:53-79 | the box is the three axis bounds of the world normal |
| Plane.WorldAabbHoldsPosition | script/cannon/shapes/Plane.js:53-79 | the plane's own (finite) position lies in its box whatever the orientation |
| Plane.WorldAabbFacingUp | script/cannon/shapes/Plane.js:53-79 | an unrotated plane bounds only z from above, at its position |
| Box.Init | script/cannon/shapes/Box.js:16-23 | the box keeps its half extents, builds its hull and takes the bounding radius, the length of the half extents |
| Box.ConvexRepresentation | script/cannon/shapes/Box.js:53-84 | the hull has the 8 sign-combination corners, 6 four-index faces over indices 0..7 and the three unit axes |
| Box.FaceSide | script/cannon/shapes/Box.js:64-71 | faces 0..5 are the -z, +z, -y, +y, -x, +x sides |
| Box.FacesLieOnSides | script/cannon/shapes/Box.js:53-84 | every corner of every face sits on that face's side of the box |
| Box.VerticesAreCorners | script/cannon/shapes/Box.js:53-84 | every hull vertex is one of the eight sign combinations of the extents |
| Box.CalculateInertia | script/cannon/shapes/Box.js:97-102 | the solid-box moments m/12 (side^2 + side^2) with sides twice the half extents |
| Box.CubeInertiaIsotropic | script/cannon/shapes/Box.js:97-102 | a cube has the same moment about every axis, and a heavier cube a larger one |
| Box.LocalSideNormals | script/cannon/shapes/Box.js:111-127 | the six half-extent vectors along +x, +y, +z, -x, -y, -z |
| Box.SideNormals | script/cannon/shapes/Box.js:111-128 | the side normals, rotated by the quaternion when one is given |
| Box.Volume | script/cannon/shapes/Box.js:130-132 | the volume is 8 ex ey ez |
| Box.VolumeOfHull | script/cannon/shapes/Box.js:53-132 | the volume is the product of the hull's side lengths measured between opposite corners 0 and 6 |
| Box.LocalCorners | script/cannon/shapes/Box.js:170-199 | the eight corners in the order the world-AABB scan visits them |
| Box.WorldAabb | script/cannon/shapes/Box.js:162-231 | the bounds of the eight corners moved into the world, scanned from the first corner: they hold every corner and each bound is attained |
| Box.WorldAabbUnrotated | script/cannon/shapes/Box.js:162-231 | unrotated, the world box is the position plus and minus the half extents |
| Cylinder.BuildSides | script/cannon/shapes/Cylinder.js:55-93 | the segment loop yields 2N vertices, N side faces each over in-range indices, the bottom and top rings and the side axes |
| Cylinder.Reverse | script/cannon/shapes/Cylinder.js:105-108 | the top cap is the top ring in reverse order |
| Cylinder.HullFacesInRange | script/cannon/shapes/Cylinder.js:55-110 | the side faces and both caps index only existing vertices |
| Cylinder.BuildHull | script/cannon/shapes/Cylinder.js:30-111 | the polyhedron has 2N vertices and N + 2 faces, all in range |
| Cylinder.Init | script/cannon/shapes/Cylinder.js:15-118 | radii and height default to 1 and the segment count to 8; a negative top radius throws first, then a negative bottom radius |
| Body.StaticBit | script/cannon/objects/Body.js:18-24 | of the three body types (1, 2, 4) only STATIC has the STATIC bit set |
| Body.KinematicBit | script/cannon/objects/Body.js:18-24 | of the three body types only KINEMATIC has the KINEMATIC bit set |
| Body.InverseMass | script/cannon/objects/Body.js:709-712 | the inverse mass is 1/mass for a positive mass and 0 otherwise, and is never negative |
| Body.Fields | script/cannon/objects/Body.js:34-150 | a missing mass is 0; the type is STATIC for a non-positive mass and DYNAMIC otherwise unless a numeric type option overrides it; the other options are copied or defaulted |
| Body.Init | script/cannon/objects/Body.js:34-167 | the option fields, then the option's shape if there is one, then the mass properties; a shapeless body has no shapes |
| Body.WakeUp | script/cannon/objects/Body.js:307-315 | the body is awake with no pending wake-up and nothing else changes |
| Body.Sleep | script/cannon/objects/Body.js:321-326 | the body is sleeping with both velocities zero |
| Body.SleepTick | script/cannon/objects/Body.js:333-358 | an awake slow body becomes sleepy and records the time; a sleepy fast body wakes; a sleepy body slow for longer than the time limit falls asleep; nothing happens when sleeping is disallowed |
| Body.SleepTickSteps | script/cannon/objects/Body.js:333-358 | a tick moves one step along awake, sleepy, sleeping, or from sleepy back to awake, and never wakes a sleeping body |
| Body.FallsAsleep | script/cannon/objects/Body.js:333-358 | a slow awake body ticked twice, the second time after more than the time limit, is asleep |
| Body.WakeUpAfterSleep | script/cannon/objects/Body.js:307-326 | waking a body put to sleep leaves it awake and at rest |
| Body.UpdateSolveMassProperties | script/cannon/objects/Body.js:364-374 | a sleeping or kinematic body gets zero solver inverse mass and inertia; any other body solves with its own |
| Body.ApplyForce | script/cannon/objects/Body.js:581-600 | only a dynamic body takes the force; a sleeping one is woken; the force adds to `force` and relativePoint x force to `torque`; apart from the wake-up nothing else changes |
| Body.ApplyForceCancels | script/cannon/objects/Body.js:581-600 | a force and its opposite at the same point cancel |
| Body.ApplyLocalForce | script/cannon/objects/Body.js:608-621 | the force and point are rotated into the world frame and then applied as `applyForce` |
| Body.ApplyTorque | script/cannon/objects/Body.js:628-639 | a dynamic body's torque grows by the given torque and a sleeping one is woken, nothing else changing; other bodies are unchanged |
| Body.TorqueIsPureMoment | script/cannon/objects/Body.js:581-639 | a pure torque changes `torque` like a force with zero lever arm changes it, and leaves `force` alone |
| Body.ApplyImpulse | script/cannon/objects/Body.js:649-682 | on a dynamic body the velocity gains invMass x impulse and the angular velocity gains invInertiaWorld (relativePoint x impulse); apart from the wake-up nothing else changes; other bodies are unchanged |
| Body.ImpulseChangesMomentum | script/cannon/objects/Body.js:649-682 | an impulse changes a dynamic body's momentum by exactly the impulse |
| Body.ApplyLocalImpulse | script/cannon/objects/Body.js:690-703 | the impulse and point are rotated into the world frame and then applied as `applyImpulse` |
| Body.ShapesAabb | script/cannon/objects/Body.js:520-546 | the bounds of the first n shapes: a copy of the first shape's world box extended by each later one |
| Body.UpdateAabb | script/cannon/objects/Body.js:512-549 | the body's box holds every shape's world box; with no shapes the old box is kept |
| Body.MaxReach | script/cannon/objects/Body.js:489-506 | the largest offset length plus bounding radius over the first n shapes, and 0 when none is positive |
| Body.UpdateBoundingRadius | script/cannon/objects/Body.js:489-506 | the bounding radius becomes the largest reach of a shape |
| Body.UpdateInertiaWorld | script/cannon/objects/Body.js:555-572 | an isotropic inverse inertia is left as it is unless forced; otherwise the world inverse inertia is the local one rotated into the world frame |
| Body.InverseMoment | script/cannon/objects/Body.js:718-726 | the inverse of a principal moment is 0 for a non-positive moment or a body with fixed rotation |
| Body.UpdateMassProperties | script/cannon/objects/Body.js:709-731 | the inverse mass, the inertia of the box spanned by the body's bounds, its inverse and the world inverse inertia are all recomputed |
| Body.AddShape | script/cannon/objects/Body.js:434-456 | the shape is appended with its offset (zero if missing) and orientation (identity if missing), attached to the body, and the mass properties recomputed |
| Body.IndexOf | script/cannon/objects/Body.js:465 | `indexOf` gives the first position holding the shape, or -1 when none does |
| Body.RemoveShape | script/cannon/objects/Body.js:464-483 | a shape the body does not hold changes nothing; otherwise its entry is spliced out of the shape, offset and orientation arrays, it is detached and the mass properties recomputed |
| Body.AddRemoveShape | script/cannon/objects/Body.js:434-483 | removing a shape just added restores the three shape arrays and detaches the shape again |
| Body.GetVelocityAtWorldPoint | script/cannon/objects/Body.js:740-746 | the velocity at a world point is v + w x (p - x) |
| Body.VelocityAtCentre | script/cannon/objects/Body.js:740-746 | the centre moves at the body's velocity, and without spin every point does |
| Body.LocalFrameRoundTrip | script/cannon/objects/Body.js:383-424 | for a unit orientation, taking a point or a direction into the body frame and back gives it back |
| Body.Integrate | script/cannon/objects/Body.js:754-810 | the previous pose is saved; a body that is neither dynamic nor kinematic, or is sleeping, stops there; others gain velocity from force (per linear factor) and spin from torque, then move by dt |
| Body.IntegrateWithoutForce | script/cannon/objects/Body.js:754-810 | with no force and no torque a dynamic body keeps its velocity and moves by velocity x dt |
| Equation.SetSpookParams | script/cannon/equations/Equation.js:100-107 | a = 4/(h(1+4d)), b = 4d/(1+4d) and eps = 4/(h^2 k (1+4d)); nothing else changes |
| Equation.SpookParamsInRange | script/cannon/equations/Equation.js:100-107 | for a positive step and stiffness and a non-negative relaxation, a and eps are positive and b lies in [0, 1) |
| Equation.Init | script/cannon/equations/Equation.js:15-37 | bounds -1e6 and 1e6 unless given, SPOOK parameters of stiffness 1e7, relaxation 4 and step 1/60, zero Jacobians, enabled, multiplier 0 |
| Equation.ComputeB | script/cannon/equations/Equation.js:114-192 | the base right-hand side is -Gq a - GW b - GiMf h |
| Equation.RhsIsBase | script/cannon/equations/Equation.js:114-134 | with zero spatial Jacobian parts, a right-hand side that puts an error g in place of G q is the base one minus g a |
| Equation.RhsIsBaseShifted | script/cannon/equations/Equation.js:114-151 | shifting G q by dq and G W by dw shifts the right-hand side by -(a dq + b dw) |
| Equation.ComputeBAtRest | script/cannon/equations/Equation.js:114-192 | for bodies at rest and free of forces only the position error drives the right-hand side |
| Equation.ComputeC | script/cannon/equations/Equation.js:194-255 | the SPOOK denominator is G M^-1 G^T + eps |
| Equation.ComputeCPositive | script/cannon/equations/Equation.js:194-255 | with non-negative inverse masses, semi-definite inverse inertias and a positive eps the denominator is positive |
| Equation.AddToWlambda | script/cannon/equations/Equation.js:219-245 | body i then body j take their velocity increments; when both are the same body it takes both; other bodies are unchanged |
| Equation.AddToWlambdaZero | script/cannon/equations/Equation.js:219-245 | a zero increment changes nothing |
| Equation.AddToWlambdaAdds | script/cannon/equations/Equation.js:219-245 | two increments in a row equal one increment of their sum |
| ContactEquation.Init | script/cannon/equations/ContactEquation.js:15-30 | bounds 0 and maxForce (1e6 unless given), restitution 0, zero contact vectors |
| ContactEquation.Jacobians | script/cannon/equations/ContactEquation.js:112-138 | the Jacobian written is [-n, -(ri x n), n, rj x n] |
| ContactEquation.ComputeB | script/cannon/equations/ContactEquation.js:112-162 | the Jacobian is written and the right-hand side is -g a - GW b - h GiMf, with the normal velocities in GW scaled by 1 + restitution |
| ContactEquation.PenetrationIsGqPlusOffsets | script/cannon/equations/ContactEquation.js:140-150 | on the written Jacobian G q is n . (pj - pi), and the penetration adds n . (rj - ri) to it |
| ContactEquation.SeparationAlong | script/cannon/equations/ContactEquation.js:140-150 | the separation along n splits into the centres' part and the offsets' part |
| ContactEquation.ScaledGWSplits | script/cannon/equations/ContactEquation.js:152-158 | the restitution-scaled velocity term is G W plus e times the normal velocity difference |
| ContactEquation.RhsIsBaseWithContactPoints | script/cannon/equations/ContactEquation.js:112-162 | compared with the base formula the position term measures the contact points rather than the centres, and restitution adds e times the normal velocity difference |
| ContactEquation.ComputeBForgetsJacobian | script/cannon/equations/ContactEquation.js:112-162 | the result does not depend on the Jacobian held before |
| ContactEquation.ImpactVelocityAlongNormal | script/cannon/equations/ContactEquation.js:169-186 | the impact velocity is the velocity of body i's contact point minus body j's, along n |
| ContactEquation.ImpactVelocityFromPointVelocities | script/cannon/equations/ContactEquation.js:169-186 | it equals n . ((vi + wi x ri) - (vj + wj x rj)) |
| FrictionEquation.Init | script/cannon/equations/FrictionEquation.js:15-28 | the force lies in [-slipForce, slipForce] |
| FrictionEquation.Jacobians | script/cannon/equations/FrictionEquation.js:49-70 | the Jacobian written is [-t, -(ri x t), t, rj x t] |
| FrictionEquation.ComputeB | script/cannon/equations/FrictionEquation.js:49-80 | the Jacobian is written and the right-hand side is -GW b - h GiMf |
| FrictionEquation.ComputeBHasNoPositionTerm | script/cannon/equations/FrictionEquation.js:49-80 | friction is the base right-hand side with position weight 0, whatever the positions |
| FrictionEquation.ComputeBForgetsJacobian | script/cannon/equations/FrictionEquation.js:49-80 | the result does not depend on the Jacobian held before |
| RotationalEquation.Init | script/cannon/equations/RotationalEquation.js:15-38 | bounds -maxForce and maxForce (1e6 unless given), axes (1,0,0) and (0,1,0) unless given, and a right angle |
| RotationalEquation.ComputeBAsWritten | script/cannon/equations/RotationalEquation.js:40-68 | as written `computeB` throws a TypeError, because the scratch vectors it writes into are never set |
| RotationalEquation.Jacobians | script/cannon/equations/RotationalEquation.js:44-60 | the rotational parts are nj x ni and ni x nj, the spatial parts are kept |
| RotationalEquation.ComputeB | script/cannon/equations/RotationalEquation.js:40-68 | with the scratch vectors in place: the Jacobian is written and the right-hand side is -g a - GW b - h GiMf with g the angle error |
| RotationalEquation.Rhs | script/cannon/equations/RotationalEquation.js:40-68 | with zero spatial parts it is the base right-hand side with the angle error in place of G q |
| RotationalEquation.TorquesOppose | script/cannon/equations/RotationalEquation.js:44-60 | the rotational Jacobian parts on the two bodies are opposite |
| RotationalMotorEquation.Init | script/cannon/equations/RotationalMotorEquation.js:15-27 | bounds -maxForce and maxForce, zero axes, target velocity 0 |
| RotationalMotorEquation.Jacobians | script/cannon/equations/RotationalMotorEquation.js:29-45 | the rotational parts are axisA and -axisB, the spatial parts are kept |
| RotationalMotorEquation.ComputeB | script/cannon/equations/RotationalMotorEquation.js:29-54 | the right-hand side is -(GW - targetVelocity) b - h GiMf |
| RotationalMotorEquation.ComputeBIsBaseShiftedByTarget | script/cannon/equations/RotationalMotorEquation.js:29-54 | with zero spatial parts it is the base right-hand side with a = 0 shifted by targetVelocity b |
| ConeEquation.Init | script/cannon/equations/ConeEquation.js:16-41 | bounds -maxForce and maxForce (1e6 unless given), axes (1,0,0) and (0,1,0) and angle 0 unless given |
| ConeEquation.Jacobians | script/cannon/equations/ConeEquation.js:62-85 | the rotational parts are nj x ni and ni x nj, the spatial parts are kept |
| ConeEquation.ComputeB | script/cannon/equations/ConeEquation.js:62-93 | the Jacobian is written and the right-hand side is -g a - GW b - h GiMf with g the angle error |
| ConeEquation.Rhs | script/cannon/equations/ConeEquation.js:62-93 | with zero spatial parts it is the base right-hand side with the angle error in place of G q |
| ConeEquation.TorquesOppose | script/cannon/equations/ConeEquation.js:62-85 | the rotational Jacobian parts on the two bodies are opposite |
| Constraint.WakePair | script/cannon/constraints/Constraint.js:32-36 | both bodies are woken, first A then B, and no other body changes |
| Constraint.InitAsWritten | script/cannon/constraints/Constraint.js:14-38 | as written `init` throws a TypeError whatever the options, because it assigns to the `const` options binding |
| Constraint.Init | script/cannon/constraints/Constraint.js:14-38 | as intended: `collideConnected` and `wakeUpBodies` default to true, the equation list starts empty, and both bodies are woken unless `wakeUpBodies` is false |
| Constraint.UpdateBase | script/cannon/constraints/Constraint.js:44-48 | the base `update` throws |
| Constraint.SetEnabled | script/cannon/constraints/Constraint.js:54-70 | every equation gets the flag, and nothing else about it changes |
| Constraint.Enable | script/cannon/constraints/Constraint.js:54-59 | every equation is enabled and nothing else changes |
| Constraint.Disable | script/cannon/constraints/Constraint.js:65-70 | every equation is disabled and nothing else changes |
| Constraint.EnableUndoesDisable | script/cannon/constraints/Constraint.js:54-70 | enabling undoes disabling on a constraint whose equations were all enabled; only the last of two calls matters; each is idempotent |
| PointToPointConstraint.AxisEquation | script/cannon/constraints/PointToPointConstraint.js:25-38 | an axis equation is a contact equation with bounds -maxForce and maxForce and the axis as its normal |
| PointToPointConstraint.Init | script/cannon/constraints/PointToPointConstraint.js:18-43 | the pivots are kept; equations x, y and z are created in that order with consecutive ids, bidirectional and along the three unit axes |
| PointToPointConstraint.Update | script/cannon/constraints/PointToPointConstraint.js:45-60 | equation x's contact points become the pivots turned into the world frame, y and z copy them, nothing else changes |
| PointToPointConstraint.UpdateIdempotent | script/cannon/constraints/PointToPointConstraint.js:45-60 | updating twice with the same bodies equals updating once, whatever contact points the equations held |
| HingeConstraint.Init | script/cannon/constraints/HingeConstraint.js:17-67 | the point-to-point constraint with the given pivots and bound (1e6 unless given), normalised axes (x unless given), then two rotational equations and a disabled motor appended |
| HingeConstraint.Added | script/cannon/constraints/HingeConstraint.js:40-64 | the added equations are two rotational equations and the motor, each with the hinge's bound and consecutive ids |
| HingeConstraint.WithMotor | script/cannon/constraints/HingeConstraint.js:91-117 | replacing the motor equation changes no other equation |
| HingeConstraint.EnableMotor | script/cannon/constraints/HingeConstraint.js:91-93 | the motor equation is enabled and nothing else changes |
| HingeConstraint.DisableMotor | script/cannon/constraints/HingeConstraint.js:98-100 | the motor equation is disabled and nothing else changes |
| HingeConstraint.SetMotorSpeed | script/cannon/constraints/HingeConstraint.js:106-108 | the motor's target velocity is set and nothing else changes |
| HingeConstraint.SetMotorMaxForce | script/cannon/constraints/HingeConstraint.js:114-117 | the motor's bounds become -maxForce and maxForce and nothing else changes |
| HingeConstraint.MotorToggleUndoes | script/cannon/constraints/HingeConstraint.js:91-100 | enabling then disabling the motor restores a hinge whose motor was off, and the other way round |
| HingeConstraint.MotorSettersLastWins | script/cannon/constraints/HingeConstraint.js:106-117 | the last speed and the last bound set are the ones that stay |
| HingeConstraint.MotorSettersCommute | script/cannon/constraints/HingeConstraint.js:106-117 | setting the speed and setting the bound do not interfere |
| HingeConstraint.UpdateAxes | script/cannon/constraints/HingeConstraint.js:127-144 | the rotational equations take axis B from the world axis of B and axis A from the two tangents of A's world axis; the motor takes both world axes |
| HingeConstraint.Update | script/cannon/constraints/HingeConstraint.js:119-145 | the point-to-point update, then the rotational and motor axes from the two bodies' axes in the world frame |
| HingeConstraint.UpdateAsWritten | script/cannon/constraints/HingeConstraint.js:69-145 | as written both scratch getters return one shared vector, so body B's world axis overwrites body A's before the tangents are taken |
| HingeConstraint.UpdateAsWrittenDiffers | script/cannon/constraints/HingeConstraint.js:69-145 | the written update agrees with the intended one exactly when the two world axes have the same tangents |
| HingeConstraint.UpdateAsWrittenCounterexample | script/cannon/constraints/HingeConstraint.js:69-86 | a hinge about x on A and y on B gets a different first rotational axis as written than as intended |
| LockConstraint.Init | script/cannon/constraints/LockConstraint.js:16-62 | both pivots are the midpoint of the two centres in each body's frame, the bound is maxForce (1e6 unless given), and three rotational equations follow the point-to-point three |
| LockConstraint.Rotations | script/cannon/constraints/LockConstraint.js:41-58 | the three rotational equations have consecutive ids after the point-to-point three and the lock's bound |
| LockConstraint.PivotsMeet | script/cannon/constraints/LockConstraint.js:16-62 | for unit orientations both pivots are, in the world, the midpoint the lock was built at |
| LockConstraint.Update | script/cannon/constraints/LockConstraint.js:83-104 | the point-to-point update, then the rotational equations pair A's kept x, y, z axes in the world with B's y, z, x axes |
| LockConstraint.AxesStartOrthogonal | script/cannon/constraints/LockConstraint.js:16-104 | updated with the bodies as built, a lock pairs the world axes (x, y), (y, z) and (z, x), which are orthogonal, so it starts with no angular error |
| ConeTwistConstraint.Limits | script/cannon/constraints/ConeTwistConstraint.js:55-70 | the cone and the twist equations are each bounded to [-maxForce, 0] |
| ConeTwistConstraint.Init | script/cannon/constraints/ConeTwistConstraint.js:20-76 | the point-to-point constraint with the given pivots and bound (1e6 unless given), the axes (zero unless given), then the cone and twist equations with angles 0 unless given |
| ConeTwistConstraint.Update | script/cannon/constraints/ConeTwistConstraint.js:78-99 | the point-to-point update; the cone takes both world axes and the angle; the twist takes each body's second axis in the world and the twist angle |
| ConeTwistConstraint.UpdateIdempotent | script/cannon/constraints/ConeTwistConstraint.js:78-99 | updating twice with the same bodies equals updating once |
| DistanceConstraint.InitAsWritten | script/cannon/constraints/DistanceConstraint.js:15-18 | as written `init` fails with the base constraint's TypeError before anything of its own runs |
| DistanceConstraint.InitMaxForceAsWritten | script/cannon/constraints/DistanceConstraint.js:31 | on a base that returns, reading `maxForce` in its own initialiser throws a ReferenceError exactly when the option is present; otherwise the bound is 1e6 |
| DistanceConstraint.Init | script/cannon/constraints/DistanceConstraint.js:15-35 | as intended: the distance is the given one or the current distance between the centres; one contact equation between the bodies bounded by -maxForce and maxForce (1e6 unless given) |
| DistanceConstraint.MaxForceCounterexample | script/cannon/constraints/DistanceConstraint.js:31 | with `maxForce: 5` the written bound read throws while the intended `init` uses 5 |
| DistanceConstraint.Update | script/cannon/constraints/DistanceConstraint.js:37-48 | the normal is the unit vector from A's centre to B's and the contact points lie half the distance along it from each side; nothing else changes |
| DistanceConstraint.UpdateArmsOppose | script/cannon/constraints/DistanceConstraint.js:37-48 | after an update the two contact points are opposite and lie the full distance apart along the normal |
| Spring.OrNonZero | script/cannon/objects/Spring.js:15-16 | JavaScript `or` with a default on a number: a missing value and 0 both give d |
| Spring.Init | script/cannon/objects/Spring.js:6-34 | the rest length defaults to 1 only when not a number; a stiffness or damping of 0 is replaced by 100 or 1 like a missing one; the anchors come from the local options or from the world anchors through the body frames |
| Spring.AtRestNoForce | script/cannon/objects/Spring.js:181-234 | at its rest length with no relative motion along it the spring applies no force |
| Spring.Restoring | script/cannon/objects/Spring.js:181-234 | without motion along the spring, a stretched spring pulls B back towards A and a compressed one pushes it away |
| Spring.Push | script/cannon/objects/Spring.js:226-233 | a force and a torque are added to a body and nothing else about it changes |
| Spring.PushPush | script/cannon/objects/Spring.js:226-233 | two pushes add up |
| Spring.ApplyForce | script/cannon/objects/Spring.js:181-234 | body A takes -f and -(ri x f), then body B takes f and rj x f; with both ends on one body the two updates compose |
| Spring.ApplyForceFrame | script/cannon/objects/Spring.js:181-234 | only the force and torque of the spring's bodies change, and a spring on one body leaves its force as it was |
| Spring.ApplyForceKeepsNetForce | script/cannon/objects/Spring.js:181-234 | the spring's forces are equal and opposite, so the net force on all bodies is unchanged |
| Broadphase.Init | script/cannon/collision/Broadphase.js:16-32 | a new broadphase uses bounding spheres and starts dirty |
| Broadphase.NeedBroadphaseCollision | script/cannon/collision/Broadphase.js:84-104 | a pair is tested exactly when each body's group meets the other's mask and at least one body is neither static nor asleep |
| Broadphase.NeedBroadphaseCollisionSymmetric | script/cannon/collision/Broadphase.js:84-104 | the filter does not depend on the order of the two bodies |
| Broadphase.DefaultFiltersAccept | script/cannon/collision/Broadphase.js:84-104 | two awake dynamic bodies with the default group 1 and mask -1 always pass the filter |
| Broadphase.Fresh | script/cannon/collision/Broadphase.js:150-163 | the box a test reads: a body flagged stale is read with its recomputed bounds, any other body with its stored ones |
| Broadphase.Refresh | script/cannon/collision/Broadphase.js:150-155 | after the test a stale body holds its recomputed bounds and the flag is cleared; every other field is kept |
| Broadphase.RefreshStable | script/cannon/collision/Broadphase.js:150-163 | a refreshed body reads the same bounds as before and refreshing it again changes nothing, so no later test sees a difference |
| Broadphase.DoBoundingSphereBroadphase | script/cannon/collision/Broadphase.js:130-140 | A and B are pushed onto the two lists exactly when the distance between their centres is below the sum of their bounding radii |
| Broadphase.DoBoundingBoxBroadphase | script/cannon/collision/Broadphase.js:150-163 | A and B are pushed exactly when their fresh bounding boxes overlap |
| Broadphase.IntersectionTest | script/cannon/collision/Broadphase.js:114-120 | the box test is used when `useBoundingBoxes` is set and the sphere test otherwise |
| Broadphase.IntersectionTestPushesPairs | script/cannon/collision/Broadphase.js:114-163 | either test pushes onto both lists or onto neither, so the two lists keep equal length |
| Broadphase.CollisionPairs | script/cannon/collision/Broadphase.js:71-75 | the base `collisionPairs` throws |
| Broadphase.AabbQuery | script/cannon/collision/Broadphase.js:236-239 | the base `aabbQuery` returns a new empty list and ignores the one it was given |
| Broadphase.BoundingSphereCheck | script/cannon/collision/Broadphase.js:217-226 | the first shapes' bounding spheres overlap at the body positions; a body without shapes makes the call throw |
| Broadphase.Overlapping | script/cannon/collision/NaiveBroadphase.js:50-65 | exactly the bodies, in order, whose fresh bounds overlap the query box |
| NaiveBroadphase.RowIsTheHits | script/cannon/collision/NaiveBroadphase.js:21-40 | row i of the double loop emits (i, j') exactly for the j' < j that pass, each once and in increasing order |
| NaiveBroadphase.PairsPass | script/cannon/collision/NaiveBroadphase.js:21-40 | every pair the loops emit passes the filter and the intersection test |
| NaiveBroadphase.PairsDistinct | script/cannon/collision/NaiveBroadphase.js:21-40 | no pair is emitted twice |
| NaiveBroadphase.PairsComplete | script/cannon/collision/NaiveBroadphase.js:21-40 | every passing pair (i, j) with j < i is emitted |
| NaiveBroadphase.PairsAreExactlyTheHits | script/cannon/collision/NaiveBroadphase.js:21-40 | the reported pairs are exactly the pairs of different bodies that pass the filter and the test, each once, the earlier body second |
| NaiveBroadphase.SideStep | script/cannon/collision/NaiveBroadphase.js:30-37 | trying (i, j) adds bodies i and j to the two lists exactly when the pair passes |
| NaiveBroadphase.TryPair | script/cannon/collision/NaiveBroadphase.js:30-37 | the inner step pushes the pair when it passes the filter and then the intersection test, and otherwise leaves both lists alone |
| NaiveBroadphase.ScanRow | script/cannon/collision/NaiveBroadphase.js:29-38 | the inner loop appends row i's pairs to both lists |
| NaiveBroadphase.ScanRows | script/cannon/collision/NaiveBroadphase.js:28-39 | the outer loop appends the pairs of every row in turn |
| NaiveBroadphase.RowsStep | script/cannon/collision/NaiveBroadphase.js:28-39 | one outer step adds row i's pairs to both lists |
| NaiveBroadphase.CollisionPairs | script/cannon/collision/NaiveBroadphase.js:21-40 | the lists grow by exactly the passing pairs, first bodies on one list and second bodies on the other |
| NaiveBroadphase.AabbQuery | script/cannon/collision/NaiveBroadphase.js:50-65 | every body whose fresh bounds overlap the query is appended, in world order, and the list is returned |
| SapBroadphase.Init | script/cannon/collision/SAPBroadphase.js:14-26 | the base broadphase with an empty list and axis 0; with a world the list is then set from it |
| SapBroadphase.SetWorld | script/cannon/collision/SAPBroadphase.js:28-39 | the list becomes the world's bodies in world order and is flagged dirty |
| SapBroadphase.Insert | script/cannon/collision/SAPBroadphase.js:193-206 | the inserted entry moves left past every greater key and stops behind the first key that is not greater |
| SapBroadphase.InsertSorted | script/cannon/collision/SAPBroadphase.js:193-206 | inserting into a sorted list gives a sorted list |
| SapBroadphase.SwapPastSame | script/cannon/collision/SAPBroadphase.js:193-206 | moving an entry past one with a different key leaves the order of the entries with that key as it was |
| SapBroadphase.SwapPastOther | script/cannon/collision/SAPBroadphase.js:193-206 | moving an entry with a different key past another entry leaves the order of the entries with that key as it was |
| SapBroadphase.InsertStable | script/cannon/collision/SAPBroadphase.js:193-206 | insertion keeps entries with equal keys in their order; the new entry lands behind every entry with its key |
| SapBroadphase.InsertStep | script/cannon/collision/SAPBroadphase.js:193-206 | one outer round takes the next entry into the sorted prefix |
| SapBroadphase.InsertionSort | script/cannon/collision/SAPBroadphase.js:193-236 | the result is sorted by the key, a permutation of the input, and stable |
| SapBroadphase.SortList | script/cannon/collision/SAPBroadphase.js:80-101 | the list is sorted by the lower bound on the current axis; an axis other than 0, 1 or 2 leaves it as it is |
| SapBroadphase.CheckBounds | script/cannon/collision/SAPBroadphase.js:238-261 | on axis 0, 1 or 2 it holds exactly when the lower end of j's bounding sphere lies below the upper end of i's; otherwise it is false |
| SapBroadphase.SpheresOverlapPassCheckBounds | script/cannon/collision/SAPBroadphase.js:238-261 | two bodies whose bounding spheres overlap pass `checkBounds` on every axis and in either order |
| SapBroadphase.SpreadFromSums | script/cannon/collision/SAPBroadphase.js:136-138 | the spread computed from sums and sums of squares times the reciprocal of n equals the sum of squares less the squared sum over n |
| SapBroadphase.ChooseAxis | script/cannon/collision/SAPBroadphase.js:140-150 | the chosen axis has a spread at least as large as each of the other two |
| SapBroadphase.SumPositions | script/cannon/collision/SAPBroadphase.js:120-134 | the loop yields the sums and sums of squares of the positions on each axis |
| SapBroadphase.AutoDetectAxis | script/cannon/collision/SAPBroadphase.js:108-150 | the axis along which the body positions spread the most; with no bodies every comparison fails and the axis is 2 |
| SapScan.Row | script/cannon/collision/SAPBroadphase.js:64-76 | row i skips rejected bodies, stops at the first accepted body that fails `checkBounds`, and emits the accepted pairs before it that hit |
| SapScan.InRowBounds | script/cannon/collision/SAPBroadphase.js:64-76 | what row i emits from position j lies in row i, at j or after |
| SapScan.RowHitBeforeStop | script/cannon/collision/SAPBroadphase.js:64-76 | row i emits (i, k) exactly when k lies between j and the stop and the pair passes the filter and the test |
| SapScan.TryPair | script/cannon/collision/SAPBroadphase.js:65-75 | a rejected pair is skipped, an accepted pair that fails `checkBounds` ends the row, otherwise the test may push the pair |
| SapScan.RowEmit | script/cannon/collision/SAPBroadphase.js:65-75 | an accepted pair that passes `checkBounds` puts its hit, if any, in front of the rest of the row |
| SapScan.Advance | script/cannon/collision/SAPBroadphase.js:65-75 | across a step that does not stop, what was pushed plus what remains is the whole row |
| SapScan.ScanRow | script/cannon/collision/SAPBroadphase.js:64-76 | the inner loop of the corrected `collisionPairs` appends row i |
| SapScan.ScanRows | script/cannon/collision/SAPBroadphase.js:61-77 | the outer loop appends every row in turn |
| SapScan.PairIsInItsRow | script/cannon/collision/SAPBroadphase.js:61-77 | pair (a, b) is among the first rows exactly when its row is one of them and emits it |
| SapScan.PairsAreTheHitsBeforeStop | script/cannon/collision/SAPBroadphase.js:48-78 | the scan reports (a, b) exactly when a < b, the filter accepts, the test hits, and b lies before row a's stop |
| SapScan.StopLosesNoSphereHit | script/cannon/collision/SAPBroadphase.js:48-78 | with the sphere test and the list sorted by the spheres' lower ends, the early stop loses no accepted pair whose spheres overlap |
| SapScan.BoundHoldsBefore | script/cannon/collision/SAPBroadphase.js:238-261 | in a list sorted by the spheres' lower ends, if body b passes `checkBounds` against a then so does every body between a and b |
| SapScan.StopPast | script/cannon/collision/SAPBroadphase.js:63-74 | the inner loop of `collisionPairs` runs past b whenever every body up to b that needs a test passes `checkBounds` |
| SapScan.Prepare | script/cannon/collision/SAPBroadphase.js:55-58 | the list is sorted only when dirty, and the flag is then cleared |
| SapScan.CollisionPairs | script/cannon/collision/SAPBroadphase.js:48-78 | corrected: after the sort, the pairs the scan finds are pushed onto the two lists |
| SapScan.ScanUntilAccepted | script/cannon/collision/SAPBroadphase.js:61-73 | as written, the first pair the filter accepts reaches the static call of `checkBounds` |
| SapScan.CollisionPairsAsWritten | script/cannon/collision/SAPBroadphase.js:48-78 | as written: sorted and flag cleared, then a TypeError at the first accepted pair before any pair is pushed; no accepted pair means no error and no pairs |
| SapScan.AabbQuery | script/cannon/collision/SAPBroadphase.js:160-191 | after the sort, the listed bodies whose fresh bounds overlap the query box are appended in list order |
| SapScan.ListedOverlappingIsNaive | script/cannon/collision/SAPBroadphase.js:160-191 | a list naming every body answers the query with the same bodies as the naive broadphase |
| SapScan.SetWorldNamesEveryBody | script/cannon/collision/SAPBroadphase.js:28-39 | the list `setWorld` builds names every body, and the sort keeps it so |
| Narrowphase.CurrentContactMaterial | script/cannon/world/Narrowphase.js:451-502 | the table entry for the two shapes' materials, else the entry for the two bodies' materials, else the world default |
| Narrowphase.CurrentContactMaterialSymmetric | script/cannon/world/Narrowphase.js:451-502 | the contact material does not depend on which shape and body come first, and with no table entries it is the default |
| Narrowphase.MaterialProductsSymmetric | script/cannon/world/Narrowphase.js:284-310 | the restitution and friction products do not depend on which side comes first; without a material on one side the contact material's values stay |
| Narrowphase.CreateContactEquation | script/cannon/world/Narrowphase.js:254-293 | the top of the pool is reused (else a new equation with the given id) for the two bodies; it is enabled exactly when all four collision responses are on; restitution, spook parameters and override shapes are set |
| Narrowphase.CreateContactTakesFromTop | script/cannon/world/Narrowphase.js:256-258 | successive contacts take the pool's equations from the top down |
| Narrowphase.ReducedMass | script/cannon/world/Narrowphase.js:315-318 | the reciprocal of the summed inverse masses when that sum is positive, else the sum itself |
| Narrowphase.ReducedMassOfBodies | script/cannon/world/Narrowphase.js:315-318 | for non-negative inverse masses the reduced mass is not negative and is 0 between two bodies of infinite mass |
| Narrowphase.Tangential | script/cannon/world/Narrowphase.js:320-343 | a friction equation of a contact: its bodies, bounds -slip and slip, its arms, the tangent, the contact's enabled flag, and the friction spook parameters |
| Narrowphase.CreateFrictionEquationsFromContact | script/cannon/world/Narrowphase.js:295-369 | two friction equations are appended exactly when the friction is positive, from the pool while it lasts, along the normal's two tangents, bounded by the slip force; otherwise nothing changes |
| Narrowphase.FrictionBoundsShareLoad | script/cannon/world/Narrowphase.js:312-338 | the slip force is not negative, and times the summed inverse masses it is friction times the length of gravity |
| Narrowphase.LookupByPair | script/cannon/world/Narrowphase.js:505-506 | looking up the `or` of two shape types finds the resolver registered for exactly that pair of types |
| Narrowphase.ResolverForSymmetric | script/cannon/world/Narrowphase.js:505-506 | the resolver does not depend on the order of the two types |
| Narrowphase.ResolverByTypes | script/cannon/world/Narrowphase.js:17-42 | for two shape types the resolver is the one registered for that pair, in either order |
| Narrowphase.CylindersUseConvex | script/cannon/world/Narrowphase.js:215-226 | cylinder pairs use the convex resolvers |
| Narrowphase.NoConvexTrimesh | script/cannon/world/Narrowphase.js:182-184 | a convex polyhedron against a trimesh has no resolver: `COLLISION_TYPES` has no `convexTrimesh` entry, so the getter is registered under the key "undefined", which no lookup by type bits reaches |
| Narrowphase.NoCompound | script/cannon/world/Narrowphase.js:17-42 | compound shapes have no resolver against anything |
| Narrowphase.NoSelfPair | script/cannon/world/Narrowphase.js:17-42 | two planes, two heightfields, two particles or two trimeshes have no resolver |
| Narrowphase.Place | script/cannon/world/Narrowphase.js:463-465 | a shape's world position is its offset turned by the body's orientation plus the body's position |
| Narrowphase.FiltersAdmitSymmetric | script/cannon/world/Narrowphase.js:475-482 | the shape filter is symmetric, and shapes with group 1 and mask -1 admit each other |
| Narrowphase.JustTestForTypes | script/cannon/world/Narrowphase.js:458-461 | only a kinematic body against a static or kinematic one is tested without contacts, in either order |
| Narrowphase.Examine | script/cannon/world/Narrowphase.js:462-550 | a shape pair gives a call exactly when it passes the filter and the bounding sphere test and has a resolver; the call orders the sides by type and carries the contact material and the test-only flag |
| Narrowphase.ContactCalls | script/cannon/world/Narrowphase.js:446-553 | every call made over the broadphase pairs is well formed and names bodies of the world |
| Narrowphase.ContactCallsComplete | script/cannon/world/Narrowphase.js:446-553 | every admitted shape pair of every broadphase pair is called |
| Narrowphase.ShapeOverlaps | script/cannon/world/Narrowphase.js:544-548 | every test-only call that reports a hit records its shape ids, and none other is recorded when none hits |
| Narrowphase.BodyOverlaps | script/cannon/world/Narrowphase.js:544-548 | every test-only call that reports a hit records its body ids |
| Narrowphase.ShapeOverlapsAt | script/cannon/world/Narrowphase.js:544-548 | every shape pair recorded comes from a test-only call that reports a hit, found by position |
| Narrowphase.BodyOverlapsAt | script/cannon/world/Narrowphase.js:544-548 | every body pair recorded comes from a test-only call that reports a hit, found by position |
| Narrowphase.ShapeKeysOnly | script/cannon/world/Narrowphase.js:544-548 | setting the recorded shape pairs adds to the keeper only keys of test-only calls that report a hit |
| Narrowphase.BodyKeysOnly | script/cannon/world/Narrowphase.js:544-548 | setting the recorded body pairs adds to the keeper only keys of test-only calls that report a hit |
| Narrowphase.GetContacts | script/cannon/world/Narrowphase.js:425-555 | the calls are those of the pairs, each recorded hit sets both overlap keepers, nothing is removed from them, and every key they gain comes from a recorded hit |
| Narrowphase.NoOverlapWithoutJustTest | script/cannon/world/Narrowphase.js:544-548 | without a test-only pair both overlap keepers are left as they were |
| Narrowphase.PointInPolygon | script/cannon/world/Narrowphase.js:2149-2188 | the point is inside exactly when it lies on one side of every edge, the first edge fixing the side |
| GaussSeidel.Clamp | script/cannon/solver/GSSolver.js:96-100 | below the lower bound gives the lower bound, within the bounds gives x, above the upper bound gives the upper bound; the lower bound is tested first |
| GaussSeidel.Delta | script/cannon/solver/GSSolver.js:94-100 | lambda plus the update is the unclamped step cut into [minForce, maxForce] |
| GaussSeidel.DeltaClamps | script/cannon/solver/GSSolver.js:94-101 | after an update lambda lies within bounds that are in order, and an update that needed no cutting is the unclamped step |
| GaussSeidel.SweepTo | script/cannon/solver/GSSolver.js:85-104 | a partial sweep keeps the number of multipliers and its total change is never negative |
| GaussSeidel.SweepClamps | script/cannon/solver/GSSolver.js:87-104 | the multipliers a sweep has updated lie within their bounds, and the rest are as the sweep found them |
| GaussSeidel.SweepKeeps | script/cannon/solver/GSSolver.js:87-104 | whatever `addToWlambda` leaves unchanged, a sweep leaves unchanged |
| GaussSeidel.ConvergedComparesSquares | script/cannon/solver/GSSolver.js:107 | the stop test on squares is the test that the total change is below the tolerance |
| GaussSeidel.Iterate | script/cannon/solver/GSSolver.js:83-110 | the reported count is between the start and the budget, and a count below the budget means the last sweep converged |
| GaussSeidel.IterateClamps | script/cannon/solver/GSSolver.js:83-110 | once a sweep has run, every multiplier lies within its bounds |
| GaussSeidel.IterateKeeps | script/cannon/solver/GSSolver.js:83-110 | whatever `addToWlambda` leaves unchanged, the whole run leaves unchanged |
| GaussSeidel.NoBudgetNoChange | script/cannon/solver/GSSolver.js:83 | a budget of no sweeps changes nothing and reports 0 |
| GaussSeidel.SweepAll | script/cannon/solver/GSSolver.js:85-104 | the inner loop computes one whole sweep |
| GaussSeidel.RunSweeps | script/cannon/solver/GSSolver.js:83-110 | the outer loop computes the run from sweep 0, with the count the source returns |
| GsSolver.Init | script/cannon/solver/GSSolver.js:14-24 | 10 iterations, tolerance 1e-7 and no equations |
| GsSolver.SolveMasses | script/cannon/solver/GSSolver.js:51-55 | every body has its solve masses updated |
| GsSolver.Prepare | script/cannon/solver/GSSolver.js:51-80 | bodies with solve masses and cleared accumulators; equations changed only in their Jacobians; 1/C of each on the solve masses |
| GsSolver.ProblemOf | script/cannon/solver/GSSolver.js:87-103 | the sweeps read B, 1/C, eps and the force bounds of each equation |
| GsSolver.RunOf | script/cannon/solver/GSSolver.js:83-110 | one multiplier per equation and never more sweeps than the budget |
| GsSolver.Finish | script/cannon/solver/GSSolver.js:113-123 | the accumulators are scaled by the body's factors and added to its velocities; nothing else about the body changes |
| GsSolver.Conclude | script/cannon/solver/GSSolver.js:112-133 | every body is finished and every equation's multiplier is its lambda times 1/h |
| GsSolver.Solve | script/cannon/solver/GSSolver.js:33-134 | the result is the reference solve; the count never exceeds the budget, and bodies and equations keep their number |
| GsSolver.NoEquationsNoChange | script/cannon/solver/GSSolver.js:51-72 | with no equations nothing changes and 0 iterations are reported |
| GsSolver.IterationsBounded | script/cannon/solver/GSSolver.js:83-110 | the count never exceeds the budget, and a count below it means the last sweep's squared total was below the squared tolerance |
| GsSolver.MultipliersWithinBounds | script/cannon/solver/GSSolver.js:96-130 | with at least one sweep every lambda lies within its force bounds and the stored multiplier is lambda times 1/h |
| GsSolver.Frame | script/cannon/solver/GSSolver.js:74-80 | a body with cleared accumulators keeps its velocities and factors |
| GsSolver.AddToWlambdaKeepsFrames | script/cannon/solver/GSSolver.js:103 | `addToWlambda` changes only the accumulators |
| GsSolver.FramesKept | script/cannon/solver/GSSolver.js:83-110 | the sweeps change only the accumulators |
| GsSolver.VelocitiesGainAccumulators | script/cannon/solver/GSSolver.js:113-123 | each velocity gains its accumulator scaled by the linear factor, each angular velocity its accumulator scaled by the angular factor, and nothing else changes beyond the solve masses |
| GsSolver.InvCOfWellPosed | script/cannon/solver/GSSolver.js:69 | for positive eps, non-negative inverse masses and semi-definite inverse inertias, C on the solve masses is positive and 1/C is its inverse |
| GsSolver.InvCReciprocal | script/cannon/solver/GSSolver.js:69 | for positive eps and non-negative solve masses, 1/C is positive and is C's inverse |
| Solver.Init | script/cannon/solver/Solver.js:12-16 | no equations |
| Solver.AddEquation | script/cannon/solver/Solver.js:37-41 | the equation is appended exactly when it is enabled and neither body is a trigger; otherwise the solver is unchanged |
| Solver.IndexOf | script/cannon/solver/Solver.js:50 | the position of the first equation with the id, or none when no equation has it |
| Solver.RemoveEquation | script/cannon/solver/Solver.js:48-54 | the first occurrence is spliced out, and an absent equation leaves the list unchanged |
| Solver.RemoveUndoesAdd | script/cannon/solver/Solver.js:37-54 | removing an equation just added to a list that did not hold it gives the list back |
| Solver.RemoveAllEquations | script/cannon/solver/Solver.js:60-62 | the list is emptied |
| Solver.Solve | script/cannon/solver/Solver.js:25-30 | the base solve changes nothing and reports 0 iterations |
| Solver.ComputeB | script/cannon/solver/GSSolver.js:65-70 | each equation's own `computeB` changes only its Jacobians and keeps it valid; the rotational kind uses the corrected scratch vectors |
| SplitSolver.Init | script/cannon/solver/SplitSolver.js:16-38 | 10 iterations, tolerance 1e-7, no equations |
| SplitSolver.Link | script/cannon/solver/SplitSolver.js:81-91 | an equation makes each of its two nodes a child of the other and puts itself on both nodes' lists; nothing else changes |
| SplitSolver.Unlinked | script/cannon/solver/SplitSolver.js:74-80 | every node starts with no children and no equations |
| SplitSolver.Graph | script/cannon/solver/SplitSolver.js:74-91 | one node per body, with every equation's edge added |
| SplitSolver.LinkKeepsLinked | script/cannon/solver/SplitSolver.js:81-91 | adding an edge keeps every child a valid node |
| SplitSolver.GraphEdges | script/cannon/solver/SplitSolver.js:74-91 | a node's children are exactly the bodies an equation joins it to, and its equations exactly those acting on its body |
| SplitSolver.GraphSymmetric | script/cannon/solver/SplitSolver.js:81-91 | the edges go both ways |
| SplitSolver.TypeTest | script/cannon/solver/SplitSolver.js:126 | the type test of each body is the bitwise and of its type with the mask being 0 |
| SplitSolver.Find | script/cannon/solver/SplitSolver.js:122-131 | the first node of the list that is unvisited and passes the test, or none when no node does |
| SplitSolver.GetUnvisitedNodeAsWritten | script/cannon/solver/SplitSolver.js:122-131 | as written the mask is undefined, so the first unvisited node is returned whatever its body type |
| SplitSolver.UndefinedMaskPassesAll | script/cannon/solver/SplitSolver.js:126 | with an undefined mask every body passes the type test |
| SplitSolver.GetUnvisitedNode | script/cannon/solver/SplitSolver.js:122-131 | as intended: the first unvisited node whose body is not static |
| SplitSolver.GetUnvisitedNodeSkipsStatic | script/cannon/solver/SplitSolver.js:122-131 | for the three body types the intended search returns the first node that is neither visited nor static, and none when every node is one or the other |
| SplitSolver.PassesIffNotStatic | script/cannon/solver/SplitSolver.js:126 | for the three body types the intended test passes exactly the bodies that are not static |
| SplitSolver.StaticBodyPickedAsWritten | script/cannon/solver/SplitSolver.js:126 | one unvisited static body is picked as written and not picked as intended |
| SplitSolver.AddNew | script/cannon/solver/SplitSolver.js:151-157 | the new equations are appended, the list keeps its prefix, and it holds no equation twice when it did not before |
| SplitSolver.Visit | script/cannon/solver/SplitSolver.js:149-158 | the node's body joins the island and so does each of its equations not already there |
| SplitSolver.MarkCounts | script/cannon/solver/SplitSolver.js:142 | marking an unvisited node leaves one fewer unvisited |
| SplitSolver.VisitCollects | script/cannon/solver/SplitSolver.js:149-158 | after a visit the island's equations are exactly those acting on its bodies |
| SplitSolver.VisitMembers | script/cannon/solver/SplitSolver.js:141-144 | visiting a node that may be picked keeps the island's bodies exactly the nodes newly marked |
| SplitSolver.VisitSpanned | script/cannon/solver/SplitSolver.js:141-144 | visiting a child of an island node keeps every island body reachable from the root |
| SplitSolver.PopKeeps | script/cannon/solver/SplitSolver.js:138 | the node taken out is an island node no longer pending, and the only one that may not be exhausted |
| SplitSolver.PushKeeps | script/cannon/solver/SplitSolver.js:141-145 | visiting and queueing a node keeps the other nodes exhausted |
| SplitSolver.CloseNode | script/cannon/solver/SplitSolver.js:141-145 | once the node taken out has no child left to pick, every island node not pending is exhausted |
| SplitSolver.Expand | script/cannon/solver/SplitSolver.js:141-145 | the inner loop visits and queues every child left to pick, keeping the island spanned, its equations collected and every finished node exhausted |
| SplitSolver.Bfs | script/cannon/solver/SplitSolver.js:133-147 | from the root, every node reachable through nodes that may be picked is marked and visited exactly once, and the island's equations are those acting on its bodies |
| SplitSolver.Insert | script/cannon/solver/SplitSolver.js:160-162 | inserting into a list sorted by descending id keeps it sorted and adds exactly the one equation |
| SplitSolver.ConsSorted | script/cannon/solver/SplitSolver.js:160-162 | an equation with an id not below any of a sorted list's goes in front of it |
| SplitSolver.SortById | script/cannon/solver/SplitSolver.js:108 | the same equations, sorted by descending id |
| SplitSolver.Admitted | script/cannon/solver/SplitSolver.js:110-112 | exactly the equations `addEquation` keeps, in order, and still sorted |
| SplitSolver.AddAll | script/cannon/solver/SplitSolver.js:110-112 | the admitted equations are appended to the subsolver's list |
| SplitSolver.SpannedJoins | script/cannon/solver/SplitSolver.js:133-147 | each body of a search after the first is joined by an equation to an earlier one |
| SplitSolver.CollectsActing | script/cannon/solver/SplitSolver.js:149-158 | the equations a search collects are exactly those acting on its bodies |
| SplitSolver.SearchReaches | script/cannon/solver/SplitSolver.js:133-147 | a finished search has visited every body that passes the test and is joined to one of its bodies |
| SplitSolver.EarlierIslandsApart | script/cannon/solver/SplitSolver.js:101-117 | no body joined to a new island's body and passing the test was visited by an earlier island |
| SplitSolver.SearchClosed | script/cannon/solver/SplitSolver.js:101-117 | a finished search is closed under the joins among bodies that pass the test |
| SplitSolver.SearchIsIsland | script/cannon/solver/SplitSolver.js:101-117 | a finished search is an island: rooted, joined, closed, and holding the equations that act on it |
| SplitSolver.AddIsland | script/cannon/solver/SplitSolver.js:101-117 | the visited bodies are those of the islands, and the islands share no body |
| SplitSolver.Between | script/cannon/solver/SplitSolver.js:97-115 | the subsolver takes the split solver's iterations and tolerance, and is emptied after each island |
| SplitSolver.IslandEquationsValid | script/cannon/solver/SplitSolver.js:108-112 | an island's sorted equations act between bodies of the world |
| SplitSolver.RecordIsland | script/cannon/solver/SplitSolver.js:101-117 | recording one more island keeps every call handed an island |
| SplitSolver.CallHanded | script/cannon/solver/SplitSolver.js:97-115 | the n-th island's subsolver has the split solver's settings and the island's admitted equations, after the caller's equations only for the first |
| SplitSolver.RecordCall | script/cannon/solver/SplitSolver.js:101-117 | recording the subsolver call for one more island keeps every call's subsolver as described |
| SplitSolver.Solve | script/cannon/solver/SplitSolver.js:55-120 | corrected type test: the count is the number of islands; the islands are disjoint and hold exactly the bodies that are not static; each subsolver gets its island's equations, largest id first |
| SplitSolver.Covering | script/cannon/solver/SplitSolver.js:101 | when no node is left to pick, the islands hold exactly the bodies that are not static |
| SplitSolver.ExitCovers | script/cannon/solver/SplitSolver.js:101 | when no node may be picked, the islands hold exactly the bodies that pass the type test |
| SplitSolver.NoneOpen | script/cannon/solver/SplitSolver.js:122-131 | when the search over all nodes finds none, no node may be picked |
| SplitSolver.NonStaticCovered | script/cannon/solver/SplitSolver.js:126 | for the three body types, the bodies passing the intended test are those that are not static |
| Octree.Subdivide | script/cannon/utils/Octree.js:97-155 | eight empty children are appended whose boxes are the octants, lower = l + corner times half and upper = lower + half; the node's items are kept |
| Octree.OctantsInside | script/cannon/utils/Octree.js:97-155 | every octant of a box lies inside it |
| Octree.OctantsDistinct | script/cannon/utils/Octree.js:97-155 | the eight octants of a box with volume are distinct |
| Octree.Insert | script/cannon/utils/Octree.js:55-91 | an item whose box the node does not contain is refused and nothing changes; otherwise it is accepted, stored in exactly one node of the subtree, directly here at the depth limit; the tree stays well formed |
| Octree.AddHere | script/cannon/utils/Octree.js:88-90 | keeping an item in a node's own data adds it to the node's items and keeps the node well formed |
| Octree.SwapChildren | script/cannon/utils/Octree.js:75-79 | replacing the children by a list holding one more item adds that item to the node's items |
| Octree.SubdivideWellFormed | script/cannon/utils/Octree.js:68-72 | a childless node subdivides into a well-formed node |
| Octree.ChildrenWellFormed | script/cannon/utils/Octree.js:81-84 | a node with eight or no well-formed children is well formed, so emptying the children again keeps it so |
| Octree.InsertChildren | script/cannon/utils/Octree.js:75-79 | the children are offered the item in order; if one accepts, the children hold exactly one more item, otherwise they are unchanged |
| Octree.UpdateWellFormed | script/cannon/utils/Octree.js:75-79 | replacing a child by a well-formed node keeps every child well formed |
| Octree.AabbQuery | script/cannon/utils/Octree.js:164-193 | the result keeps what it held and gains exactly the items of every node whose box overlaps the query |
| Octree.RemoveEmptyNodes | script/cannon/utils/Octree.js:217-224 | every child left with no items and no children is removed, the items of the tree are kept, and no empty child remains |
| Octree.RemoveEmptyChildren | script/cannon/utils/Octree.js:217-224 | the cleaned children keep every item and none of them is empty |
| Octree.Reset | script/cannon/utils/Octree.js:44-46 | the node keeps its box and holds no items and no children |
| Heightfield.ScanExtreme | script/cannon/shapes/Heightfield.js:145-175 | an empty matrix throws; an empty first row leaves no value; otherwise the value bounds every height and is one of them |
| Heightfield.UpdateMinValue | script/cannon/shapes/Heightfield.js:145-157 | the stored minimum is the smallest height and nothing else changes |
| Heightfield.UpdateMaxValue | script/cannon/shapes/Heightfield.js:163-175 | the stored maximum is the largest height and nothing else changes |
| Heightfield.GetRectMinMax | script/cannon/shapes/Heightfield.js:213-229 | the minimum is the stored minValue; the maximum is the largest of minValue and the heights of the inclusive rectangle; a rectangle whose rows leave the matrix throws |
| Heightfield.GetIndexOfPosition | script/cannon/shapes/Heightfield.js:240-272 | the indices written are the unclamped floors of x/w and y/w |
| Heightfield.GetIndexOfPositionOnGrid | script/cannon/shapes/Heightfield.js:250-271 | without clamping the answer is true exactly when both floors index a rectangle; with clamping, exactly when the grid has a rectangle and neither floor is past the last |
| Heightfield.GetTriangle | script/cannon/shapes/Heightfield.js:401-420 | the lower triangle is (xi, yi), (xi+1, yi), (xi, yi+1) and the upper one (xi+1, yi+1), (xi, yi+1), (xi+1, yi), heights from the matrix |
| Heightfield.BuildPillar | script/cannon/shapes/Heightfield.js:452-604 | a pillar has six vertices and five faces, each face naming vertices of the pillar |
| Heightfield.PillarTopIsTriangle | script/cannon/shapes/Heightfield.js:452-604 | moved by its offset, a pillar's top face is the triangle `getTriangle` reports |
| Heightfield.PillarBottomBelowTop | script/cannon/shapes/Heightfield.js:452-604 | when minValue is at most the four corners, the bottom lies strictly below every corner of the top |
| Heightfield.GetConvexTrianglePillar | script/cannon/shapes/Heightfield.js:429-604 | with the cache on a cached pillar is reused; otherwise a fresh one is built; either way it is stored under its key and no other key changes |
| Heightfield.GetConvexTrianglePillarCoherent | script/cannon/shapes/Heightfield.js:429-604 | on a cache holding only fresh pillars the pillar handed back is the fresh one and the cache stays so |
| Heightfield.SameGridSamePillar | script/cannon/shapes/Heightfield.js:452-604 | a pillar depends only on the heights, minValue and the element size |
| Heightfield.SetHeightValueAtIndex | script/cannon/shapes/Heightfield.js:184-201 | as written: the cell is written, no other cell changes, and exactly the six listed keys are evicted from the cache |
| Heightfield.EvictedIffTriangleReadsCell | script/cannon/shapes/Heightfield.js:184-201 | for non-negative indices a key is evicted exactly when its top triangle reads the changed cell |
| Heightfield.SetHeightValueLeavesStalePillar | script/cannon/shapes/Heightfield.js:184-201 | on a 2 by 2 field, setting height (0, 0) keeps the cached upper pillar at (0, 0) although its centre has moved |
| Heightfield.SetHeightValueAtIndexCoherent | script/cannon/shapes/Heightfield.js:184-201 | corrected: the cell is written and every pillar of the four rectangles around it is evicted |
| Heightfield.SetHeightValueAtIndexKeepsCacheCoherent | script/cannon/shapes/Heightfield.js:184-201 | with every reader of the cell evicted, a cache of fresh pillars stays fresh |
| Heightfield.UntouchedCornersSamePillar | script/cannon/shapes/Heightfield.js:452-604 | a pillar whose four corners did not change is built the same |
| Heightfield.BarycentricWeights | script/cannon/shapes/Heightfield.js:678-686 | the three weights sum to 1; a degenerate triangle gives no weights |
| Heightfield.BarycentricRebuildsPoint | script/cannon/shapes/Heightfield.js:678-686 | the weights rebuild the point from the triangle's corners |
| Trimesh.UnscaledVertex | script/cannon/shapes/Trimesh.js:361-365 | the raw triple at 3i, when the array holds it |
| Trimesh.GetVertex | script/cannon/shapes/Trimesh.js:344-351 | the raw triple at 3i times the scale, axis by axis |
| Trimesh.GetVertexUnscales | script/cannon/shapes/Trimesh.js:344-365 | under the unit scale a vertex is its raw triple, and under a scale with no zero axis dividing back recovers it |
| Trimesh.Vertices | script/cannon/shapes/Trimesh.js:344-351 | every scaled vertex in index order |
| Trimesh.GetTriangleVertices | script/cannon/shapes/Trimesh.js:390-395 | the vertices named by indices 3i, 3i+1 and 3i+2, or none when one is missing |
| Trimesh.GetNormal | script/cannon/shapes/Trimesh.js:404-411 | the stored normal triple at 3i, or none when one of its numbers is NaN or past the end |
| Trimesh.ComputeNormal | script/cannon/shapes/Trimesh.js:328-335 | (vc - vb) x (vb - va), normalised unless it is the zero vector |
| Trimesh.NormalOrthogonal | script/cannon/shapes/Trimesh.js:328-335 | before normalising, the normal is orthogonal to both sides it is built from, and two equal corners give the zero normal |
| Trimesh.Rounds | script/cannon/shapes/Trimesh.js:246 | the loop over `i < indices.length / 3` runs exactly the rounds below the returned count, so a partial last triangle gets a round |
| Trimesh.TriangleNormal | script/cannon/shapes/Trimesh.js:246-262 | a triangle gets a normal computed from numbers exactly when all three of its corners are vertices of the mesh; otherwise it gets what `normalize` makes of a NaN cross product (none) |
| Trimesh.UpdateNormals | script/cannon/shapes/Trimesh.js:241-263 | every round writes its triangle's normal at 3t; a triangle naming a missing vertex, and the partial last triangle, get what `normalize` makes of a NaN cross product (none); later slots are kept, and vertices, indices and scale are unchanged |
| Trimesh.WholeMeshNormals | script/cannon/shapes/Trimesh.js:241-263 | on whole triangles naming real vertices every triangle gets the number normal of its corners, the first two swapped |
| Trimesh.Init | script/cannon/shapes/Trimesh.js:10-24 | the indices are stored as 16-bit integers (kept when already in range), the normals array is as long as the index list, the scale is the unit scale, and every whole triangle holds its normal |
| Trimesh.LargeIndexWraps | script/cannon/shapes/Trimesh.js:16 | an index of 32768 is stored as -32768 and names no vertex |
| Trimesh.IndexAt | script/cannon/shapes/Trimesh.js:276-280 | a read inside the index list gives the index, past its end gives `undefined` |
| Trimesh.SideKey | script/cannon/shapes/Trimesh.js:271-274 | two number ends are keyed smaller first; with an `undefined` end the comparison is false and the second end comes first |
| Trimesh.AddKey | script/cannon/shapes/Trimesh.js:271-274 | a key is appended unless already listed, so the list stays free of repeats and ordered |
| Trimesh.AddTriangle | script/cannon/shapes/Trimesh.js:275-287 | the three sides of a triangle are added, keeping the list ordered and free of repeats |
| Trimesh.UpdateEdges | script/cannon/shapes/Trimesh.js:269-291 | exactly the sides of every round, a partial last triangle included, each stored once, number pairs smaller first |
| Trimesh.EdgeValue | script/cannon/shapes/Trimesh.js:288-289 | a parsed end is a 16-bit integer: an index already in range is kept and `undefined` (NaN) is stored as 0 |
| Trimesh.EdgeArray | script/cannon/shapes/Trimesh.js:285-290 | the flat array lists each edge's two stored ends in turn |
| Trimesh.SideOfTriangle | script/cannon/shapes/Trimesh.js:275-287 | each side of every round is among the sides collected |
| Trimesh.SidesPrefix | script/cannon/shapes/Trimesh.js:275-287 | the sides of more rounds extend those of fewer |
| Trimesh.PartialTriangleSide | script/cannon/shapes/Trimesh.js:275-287 | whole triangles give number ends only, and a list cut short gives the side (a, undefined) for the first index a of the partial triangle |
| Trimesh.Widen | script/cannon/shapes/Trimesh.js:452-469 | one round moves each lower bound down to the vertex, or else the upper bound up to it |
| Trimesh.ComputeLocalAabb | script/cannon/shapes/Trimesh.js:439-471 | every scaled vertex lies in the box and each bound is attained; a mesh without vertices gives no box |
| Trimesh.UpdateBoundingSphereRadius | script/cannon/shapes/Trimesh.js:485-498 | the squared radius is the largest squared norm of a scaled vertex, or 0 when there is none |
| Trimesh.CalculateLocalInertia | script/cannon/shapes/Trimesh.js:419-432 | the box formula applied to the extents of the local box; none for a mesh without vertices |
| Trimesh.InertiaNonNegative | script/cannon/shapes/Trimesh.js:419-432 | for a non-negative mass the inertia is never negative |
| Trimesh.UnscaleAabb | script/cannon/shapes/Trimesh.js:198-217 | the query box divided by the scale, axis by axis |
| Trimesh.GetTrianglesInAabb | script/cannon/shapes/Trimesh.js:198-217 | the result gains exactly what the octree query returns for the unscaled box |
| Trimesh.UnscaledQueryMatchesScaledVertex | script/cannon/shapes/Trimesh.js:198-217 | under a positive scale an unscaled vertex lies in the unscaled query exactly when the scaled vertex lies in the query |
| Ray.Init | script/cannon/collision/Ray.js:51-74 | the ends default to the origin; mode ANY, filters -1, collision response checked, back faces kept, precision 0.0001, a cleared result and no hit |
| Ray.GetAabb | script/cannon/collision/Ray.js:529-539 | the smallest box holding both ends |
| Ray.UpdateDirection | script/cannon/collision/Ray.js:446-449 | the direction is the normalised vector from `from` to `to`, and nothing else changes |
| Ray.ReportAsWritten | script/cannon/collision/Ray.js:930-969 | as written: a back face skipped when asked changes nothing; past that test the face index is written whatever the mode then decides; a stored hit is held in full |
| Ray.Report | script/cannon/collision/Ray.js:930-969 | corrected: a hit that is stored (ALL, ANY, or CLOSEST when nearer) is held in full; one that is not leaves the ray as it was; only ANY sets the stop flag |
| Ray.ReportAgrees | script/cannon/collision/Ray.js:941-942 | the two versions agree on every hit they store and on every back face they skip |
| Ray.ClosestKeepsWrongFace | script/cannon/collision/Ray.js:941-958 | a CLOSEST ray meeting hits at distance 1 and then 2 ends with the first hit's point but the second hit's face index |
| Ray.Cast | script/cannon/collision/Ray.js:411-443 | reporting hits in turn changes only the result and the hit flag, changes nothing once stopped, and only ANY can stop |
| Ray.CastAppend | script/cannon/collision/Ray.js:411-443 | casting over two lists is casting over the first, then the second |
| Ray.CastAny | script/cannon/collision/Ray.js:961-967 | ANY: the first facing hit is stored and stops the cast; without one nothing changes |
| Ray.CastAll | script/cannon/collision/Ray.js:945-950 | ALL: the result ends holding the last facing hit and the cast never stops |
| Ray.CastClosest | script/cannon/collision/Ray.js:952-959 | CLOSEST: the result ends holding the nearest facing hit, the earliest of equals, when nearer than what it held, and is otherwise left alone |
| Ray.ShapeLoop | script/cannon/collision/Ray.js:411-427 | the shape loop changes only the result and the hit flag |
| Ray.IntersectBody | script/cannon/collision/Ray.js:390-428 | a body the collision-response check or the filters reject changes nothing; otherwise only the result and the hit flag change |
| Ray.IntersectBodies | script/cannon/collision/Ray.js:435-444 | the loop over bodies changes only the result and the hit flag |
| Ray.ShapeLoopIsCast | script/cannon/collision/Ray.js:411-427 | the shape loop is a cast over the hits of the shapes it does not skip |
| Ray.IntersectBodiesIsCast | script/cannon/collision/Ray.js:435-444 | the nested loops are one cast over all the candidate hits, the stop flag ending every loop at once |
| Ray.OnSphereIffRoot | script/cannon/collision/Ray.js:626-644 | the point at fraction t is on the sphere exactly when t solves the quadratic the routine builds |
| Ray.SphereRootsAsWritten | script/cannon/collision/Ray.js:649-699 | as written: no root for a negative discriminant, the fraction 0 for a zero one, and the roots in [0, 1] for a positive one |
| Ray.SphereRoots | script/cannon/collision/Ray.js:649-699 | corrected: at most two fractions, all in [0, 1], none for a negative discriminant |
| Ray.SphereRootsAgree | script/cannon/collision/Ray.js:649-699 | the two definitions differ only at a zero discriminant |
| Ray.SphereRootsSolve | script/cannon/collision/Ray.js:649-699 | with an exact square root every fraction the corrected routine reports solves the quadratic |
| Ray.SphereRootsComplete | script/cannon/collision/Ray.js:649-699 | every root in [0, 1] is reported |
| Ray.SphereHits | script/cannon/collision/Ray.js:626-700 | the corrected sphere routine reports at most two hits |
| Ray.RootPointOnSphere | script/cannon/collision/Ray.js:626-700 | the point at every reported fraction is on the sphere |
| Ray.SphereHitsOnSphere | script/cannon/collision/Ray.js:626-700 | every hit reported lies on the sphere and on the segment |
| Ray.TangentRootMissesSphere | script/cannon/collision/Ray.js:652-654 | a ray from (-2, 1, 0) ending where it touches the unit sphere is reported, as written, at its start, off the sphere; corrected, at its end, on it |
| Ray.Configure | script/cannon/collision/Ray.js:347-375 | the mode is the option unless missing or 0 (then ANY); back faces skipped only when asked; missing filters are -1; collision response is checked unless turned off; ends copied when given; direction updated; result cleared; no hit |
| Ray.ConfigureForgets | script/cannon/collision/Ray.js:347-375 | given both ends, the set-up forgets everything of the ray but its precision |
| Ray.IntersectWorld | script/cannon/collision/Ray.js:347-383 | the cast keeps the ray as set up apart from the result and the hit flag |
| Ray.IntersectWorldHasHit | script/cannon/collision/Ray.js:347-383 | in each mode the answer is true exactly when some candidate hit faces the ray |
| Ray.PointInTriangleIff | script/cannon/collision/Ray.js:971-990 | against a non-degenerate triangle the point a + s(c - a) + t(b - a) is accepted exactly when s and t are not negative and s + t is below 1 |
| RaycastResult.Init | script/cannon/collision/RaycastResult.js:14-27 | four zero vectors, no hit, no shape or body, face index and distance -1, not stopped |
| RaycastResult.Reset | script/cannon/collision/RaycastResult.js:33-44 | every field gets its `init` value, whatever the result held |
| RaycastResult.ResetIsInit | script/cannon/collision/RaycastResult.js:14-44 | `reset` gives what `init` gives, and resetting twice is resetting once |
| RaycastResult.Abort | script/cannon/collision/RaycastResult.js:49-51 | only the stop flag changes, and it is set |
| RaycastResult.Set | script/cannon/collision/RaycastResult.js:63-79 | the ends, normal and point are copied and the shape, body and distance stored; the hit flag, face index and stop flag are kept |
| RaycastResult.SetOverwrites | script/cannon/collision/RaycastResult.js:63-79 | a later `set` overwrites all of an earlier one, and `set` and `abort` commute |
| RaycastVehicle.WheelInit | script/cannon/objects/WheelInfo.js:9-84 | a new wheel is at rest, and its radius and rest length are the options given or 1 |
| RaycastVehicle.WheelInitRoundTrip | script/cannon/objects/WheelInfo.js:9-84 | a wheel at rest is rebuilt exactly from its own constants, and the empty options give the listed defaults (rest length 1, maximum length 2, radius 1, stiffness 100, damping 10 both ways, friction slip 10.5, roll influence 0.01, maximum travel 1, maximum force the largest number) |
| RaycastVehicle.Init | script/cannon/objects/RaycastVehicle.js:10-29 | no wheels, not sliding, speed 0, the chassis given, and the axes z right, x forward and y up unless given |
| RaycastVehicle.AddWheel | script/cannon/objects/RaycastVehicle.js:223-229 | the new wheel goes last and the old wheel count is returned as its index; nothing else changes |
| RaycastVehicle.AddWheelsNumbered | script/cannon/objects/RaycastVehicle.js:223-229 | wheels added in turn get consecutive indices from the old count, each index finds the wheel built from its options, and earlier wheels stay |
| RaycastVehicle.SetSteeringValue | script/cannon/objects/RaycastVehicle.js:237-240 | succeeds exactly for an existing wheel, and then only that wheel's steering changes; writing through a missing wheel throws |
| RaycastVehicle.ApplyEngineForce | script/cannon/objects/RaycastVehicle.js:248-250 | succeeds exactly for an existing wheel, and then only that wheel's engine force changes |
| RaycastVehicle.SetBrake | script/cannon/objects/RaycastVehicle.js:258-260 | succeeds exactly for an existing wheel, and then only that wheel's brake changes |
| RaycastVehicle.ControlsCommute | script/cannon/objects/RaycastVehicle.js:237-260 | the last brake written wins; different controls, or the brake on different wheels, can be set in either order |
| RaycastVehicle.Damping | script/cannon/objects/RaycastVehicle.js:419-424 | the damping used is one of the wheel's two damping constants |
| RaycastVehicle.SuspensionForce | script/cannon/objects/RaycastVehicle.js:403-433 | the stored force is never negative, is 0 for a wheel out of contact, and is the spring-damper force times the chassis mass whenever that is not negative |
| RaycastVehicle.CompressedSpringPushes | script/cannon/objects/RaycastVehicle.js:403-433 | a compressed stiff suspension with no relative motion pushes the chassis with a positive force |
| RaycastVehicle.SuspensionMonotone | script/cannon/objects/RaycastVehicle.js:403-433 | a shorter suspension never pushes with less force |
| RaycastVehicle.UpdateSuspension | script/cannon/objects/RaycastVehicle.js:395-435 | every wheel gets the force of its own contact and the chassis mass, and nothing else of any wheel changes |
| RaycastVehicle.Placed | script/cannon/objects/RaycastVehicle.js:535-544 | the wheel is out of contact and its connection point and suspension direction are carried into the world by the chassis pose; nothing else changes |
| RaycastVehicle.Slant | script/cannon/objects/RaycastVehicle.js:501-521 | the clipped factor is in (0, 10]; a denominator of at least -0.1 gives relative velocity 0 and factor 10; otherwise the factor is minus the reciprocal of the denominator and scales the projected velocity |
| RaycastVehicle.CastRay | script/cannon/objects/RaycastVehicle.js:449-533 | the wheel is in contact exactly when the ray hits, and the hit distance (or -1) is returned; in contact the length is the hit distance less the radius, clamped to rest length plus or minus the travel, and a clamp at the far end clears the result; out of contact the wheel sits at rest length with factor 1 and normal against the suspension; the stored force is kept |
| RaycastVehicle.CastBoundsSpringForce | script/cannon/objects/RaycastVehicle.js:486-521 | after a cast leaving no relative motion, the stored force is at most stiffness times travel times 10 times the mass |
| RaycastVehicle.SpeedKmHourSign | script/cannon/objects/RaycastVehicle.js:303-310 | the speed squared is 3.6 squared times the chassis speed squared, and it is negative exactly when the chassis moves against the forward axis |
| RaycastVehicle.AppliedSuspensionForce | script/cannon/objects/RaycastVehicle.js:324-327 | the applied force is the stored force capped at the wheel's maximum |
| RaycastVehicle.PushChassis | script/cannon/objects/RaycastVehicle.js:321-335 | the suspension impulses never move the chassis's position |
| RaycastVehicle.NoForceNoPush | script/cannon/objects/RaycastVehicle.js:321-335 | wheels pushing with no force leave the chassis's velocity and spin as they were |
| RaycastVehicle.UpdateVehicleAsWritten | script/cannon/objects/RaycastVehicle.js:294-316 | as written: the step throws exactly when the vehicle has a wheel, because `castRay` is called on the class |
| RaycastVehicle.UpdateVehicle | script/cannon/objects/RaycastVehicle.js:294-335 | corrected: the speed is stored; each wheel is in contact exactly when its ray hits, pushes with a non-negative force (none out of contact) and, in contact, has a length within its travel; the chassis takes the suspension impulses |
| RaycastVehicle.AirborneVehicleCoasts | script/cannon/objects/RaycastVehicle.js:294-335 | a vehicle none of whose rays hits keeps its motion under the corrected step, while the step as written throws |
| RaycastVehicle.SpinWheel | script/cannon/objects/RaycastVehicle.js:342-392 | only the wheel's rotation and turn change; the turn kept is 99% of the rotation added; a wheel braked harder than it is driven does not turn |
| RaycastVehicle.WheelCoasts | script/cannon/objects/RaycastVehicle.js:359-391 | an airborne wheel not driven at a custom speed turns by what it kept, keeping 99% of it; a locked wheel stays put over two steps |
| RaycastVehicle.CalcRollingFriction | script/cannon/objects/RaycastVehicle.js:781-829 | the impulse that stops the sliding, clamped to plus or minus the limit: unchanged inside the limit, the limit beyond it |
| RaycastVehicle.RollingFrictionOpposes | script/cannon/objects/RaycastVehicle.js:781-829 | with a positive denominator rolling friction never pushes along the sliding, is 0 when nothing slides, and is 0 between a body and itself |
| RaycastVehicle.ResolveSingleBilateral | script/cannon/objects/RaycastVehicle.js:845-866 | nothing for a normal of squared length above 1.1; otherwise the impulse times the summed inverse masses is -0.2 times the contact speed |
| RaycastVehicle.BilateralOpposes | script/cannon/objects/RaycastVehicle.js:845-866 | swapping the bodies turns the impulse around, and it never pushes along the contact speed |
| RigidVehicle.Init | script/cannon/objects/RigidVehicle.js:10-34 | no wheels, axes, forces or constraints; the coordinate system is the option or (1, 2, 3); the chassis is the one given or a new body of mass 1 with one box |
| RigidVehicle.DefaultChassis | script/cannon/objects/RigidVehicle.js:23-28 | the chassis made when none is given: a dynamic body of mass 1 holding one box |
| RigidVehicle.DefaultWheel | script/cannon/objects/RigidVehicle.js:72-75 | the wheel made when none is given: a dynamic body of mass 1 holding one sphere of radius 1.2 |
| RigidVehicle.AddWheel | script/cannon/objects/RigidVehicle.js:65-115 | the wheel goes last with force 0 and axis the option or (0, 0, 1), placed at the option position carried into the world by the chassis; a hinge from the chassis at that position to the wheel's origin, both axes along the axis, not colliding, motor off, is added; earlier wheels and hinges stay; the old count is returned |
| RigidVehicle.AddWheels | script/cannon/objects/RigidVehicle.js:65-115 | wheels added in turn are numbered consecutively from the old count, earlier wheels and hinges stay, and each starts with force 0 |
| RigidVehicle.SetSteeringValue | script/cannon/objects/RigidVehicle.js:124-133 | succeeds exactly for an existing wheel; then only that hinge's first axis changes, to the stored axis turned by the angle with y cleared |
| RigidVehicle.SteeringKeepsLength | script/cannon/objects/RigidVehicle.js:128-132 | with cos squared plus sin squared 1 the steered axis keeps the length of the axis's x-z part, and angle 0 mirrors x |
| RigidVehicle.SteeringOverwrites | script/cannon/objects/RigidVehicle.js:124-133 | steering a wheel twice is steering it once with the second value |
| RigidVehicle.SetMotorSpeedAsWritten | script/cannon/objects/RigidVehicle.js:141-145 | as written: succeeds exactly for an existing hinge, enables its motor and changes nothing else, so the speed never reaches the motor equation |
| RigidVehicle.SetMotorSpeed | script/cannon/objects/RigidVehicle.js:141-145 | corrected: for an existing hinge the motor is enabled with the target velocity given, and no other constraint changes |
| RigidVehicle.MotorSpeedLost | script/cannon/objects/RigidVehicle.js:141-145 | as written the motor keeps its old target velocity; corrected it takes the value |
| RigidVehicle.DisableMotor | script/cannon/objects/RigidVehicle.js:153-156 | for an existing hinge only its motor is disabled; a missing one throws |
| RigidVehicle.DisableKeepsSpeed | script/cannon/objects/RigidVehicle.js:141-156 | disabling a motor after setting its speed keeps the speed |
| RigidVehicle.SetWheelForce | script/cannon/objects/RigidVehicle.js:164-166 | element i of the force list becomes the value, a later index lengthening the list; other elements and the rest of the vehicle stay |
| RigidVehicle.WheelForceLastWins | script/cannon/objects/RigidVehicle.js:164-166 | the last force set for a wheel wins, and forces set for two wheels commute |
| RigidVehicle.ApplyWheelForce | script/cannon/objects/RigidVehicle.js:174-182 | succeeds exactly for an existing wheel; only that wheel's torque changes, by the force times its axis carried into the world by the wheel |
| RigidVehicle.WheelForcesCommute | script/cannon/objects/RigidVehicle.js:174-182 | forces applied to two different wheels commute |
| RigidVehicle.Update | script/cannon/objects/RigidVehicle.js:204-209 | the pre-step update fails only with the error of reading the torque of a missing wheel |
| RigidVehicle.UpdateDrivesEachWheel | script/cannon/objects/RigidVehicle.js:204-209 | the update succeeds exactly when no force lacks a wheel, and then applies each force to its own wheel once |
| RigidVehicle.DrivenFrom | script/cannon/objects/RigidVehicle.js:206-208 | the loop from any force on drives the remaining wheels in turn |
| RigidVehicle.FailsFrom | script/cannon/objects/RigidVehicle.js:206-208 | the loop throws when a force lacks a wheel |
| RigidVehicle.GetWheelSpeed | script/cannon/objects/RigidVehicle.js:234-240 | succeeds exactly for an existing wheel, else the error of reading a missing wheel's angular velocity |
| RigidVehicle.WheelSpeedAlongAxis | script/cannon/objects/RigidVehicle.js:234-240 | a wheel spinning at s about its world axis reports s times the axis's squared length |
| RigidVehicle.WheelSpeedAcrossAxis | script/cannon/objects/RigidVehicle.js:234-240 | a wheel spinning across its world axis reports 0 |
| RigidVehicle.AddToWorld | script/cannon/objects/RigidVehicle.js:189-200 | corrected: the wheels and then the chassis are added as bodies, then the hinges, each joining the chassis to its own wheel, after the world's constraints; fails only with the collision matrix's range error |
| RigidVehicle.AddToWorldAsWritten | script/cannon/objects/RigidVehicle.js:189-202 | as written every call fails: with the range error when adding a body does, and otherwise with the TypeError of calling the missing `world.addEventListener` |
| RigidVehicle.AddToWorldAsWrittenThrows | script/cannon/objects/RigidVehicle.js:189-202 | wherever the corrected version places the vehicle in the world, the one as written throws the TypeError |
| RigidVehicle.RemoveFromWorld | script/cannon/objects/RigidVehicle.js:216-227 | removing the bodies and hinges fails only with the collision matrix's range error |
| RigidVehicle.AddBodiesAppends | script/cannon/objects/RigidVehicle.js:193-195 | distinct fresh bodies are appended in order after the world's bodies |
| RigidVehicle.AddBodiesRegisters | script/cannon/objects/RigidVehicle.js:193-195 | adding distinct fresh bodies registers exactly their ids |
| RigidVehicle.RemoveBodiesTruncates | script/cannon/objects/RigidVehicle.js:220-222 | removing the bodies that end the list, in order, leaves the prefix before them |
| RigidVehicle.RemoveBodiesUnregisters | script/cannon/objects/RigidVehicle.js:220-222 | removing them unregisters exactly their ids |
| RigidVehicle.RemoveConstraintsTruncates | script/cannon/objects/RigidVehicle.js:224-226 | removing the distinct constraints that end the list leaves the prefix before them |
| RigidVehicle.RemoveUndoesAddToWorld | script/cannon/objects/RigidVehicle.js:189-227 | a vehicle with fresh distinct bodies added to a world and then removed leaves its bodies, registered ids and constraints as they were |
| SphSystem.Init | script/cannon/objects/SPHSystem.js:6-20 | no particles, densities, pressures or neighbour lists; rest density 1, smoothing radius 1, speed of sound 1, viscosity 0.01, eps 0.000001 |
| SphSystem.Add | script/cannon/objects/SPHSystem.js:93-98 | the particle goes last; an empty neighbour list is added only while there are fewer lists than particles; nothing else changes |
| SphSystem.IndexOf | script/cannon/objects/SPHSystem.js:106 | the first position holding the particle, or none exactly when no position holds it |
| SphSystem.Remove | script/cannon/objects/SPHSystem.js:105-113 | an absent particle changes nothing; otherwise its first occurrence is cut out and the last neighbour list dropped only when the lists outnumber the particles left |
| SphSystem.RemoveUndoesAdd | script/cannon/objects/SPHSystem.js:93-113 | removing a particle just added to a system with one list per particle gives the system back |
| SphSystem.RemoveTakesOne | script/cannon/objects/SPHSystem.js:105-113 | removing a present particle takes exactly one occurrence of it out of the particle multiset |
| SphSystem.NearIndicesExact | script/cannon/objects/SPHSystem.js:120-126 | the neighbour scan keeps, in increasing order, exactly the positions of particles other than the probe within the smoothing radius |
| SphSystem.GetNeighbors | script/cannon/objects/SPHSystem.js:115-127 | the list given is kept and followed by exactly the particles, other than the probe, closer than the smoothing radius, in system order |
| SphSystem.PickNear | script/cannon/objects/SPHSystem.js:115-127 | a particle is in the scan's result exactly when it is in the system and near the probe |
| SphSystem.Neighborhood | script/cannon/objects/SPHSystem.js:140-142 | the list built for particle i is its near neighbours in order followed by i itself |
| SphSystem.NeighborhoodExact | script/cannon/objects/SPHSystem.js:140-142 | the last entry is the particle itself and the others are exactly the near particles |
| SphSystem.IsolatedNeighborhood | script/cannon/objects/SPHSystem.js:140-142 | a particle with nothing near it is its own only neighbour |
| SphSystem.IsolatedDensity | script/cannon/objects/SPHSystem.js:146-157 | an isolated particle's density is its mass times the kernel at distance 0 |
| SphSystem.DensityPass | script/cannon/objects/SPHSystem.js:135-159 | every particle's neighbour list is rebuilt, its density is the kernel-weighted sum of neighbour masses and its pressure the speed of sound squared times the excess over rest density; lists past the particles stay |
| SphSystem.UpdateAsWritten | script/cannon/objects/SPHSystem.js:129-226 | as written: fails exactly when some particle lacks a neighbour list; otherwise densities first, then each particle pushed with the pressure and density read at the neighbour's list position |
| SphSystem.Update | script/cannon/objects/SPHSystem.js:129-226 | corrected: the same, but each neighbour's own pressure and density are read, at its position in the system |
| SphSystem.UpdateNeighborhoods | script/cannon/objects/SPHSystem.js:129-226 | on a system with one list per particle the update succeeds, keeps that balance, and leaves every particle its neighbours, density, pressure and push |
| SphSystem.SelfUnpushed | script/cannon/objects/SPHSystem.js:186-224 | a particle whose only neighbour is itself gets no force when the kernel gradient vanishes at 0 |
| SphSystem.IsolatedUnpushed | script/cannon/objects/SPHSystem.js:129-226 | an isolated particle leaves the update unchanged |
| SphSystem.SourceKernels | script/cannon/objects/SPHSystem.js:229-253 | the three kernels: the gradient vanishes at distance 0, the weight and its Laplacian vanish at the smoothing radius, and the weight is even |
| SphSystem.SourceWeightPositive | script/cannon/objects/SPHSystem.js:229-233 | inside the smoothing radius the weight is positive |
| SphSystem.LineAsWritten | script/cannon/objects/SPHSystem.js:195-198 | on three particles in a line the first one is pushed, as written, with force 1.2 along x |
| SphSystem.LineIntended | script/cannon/objects/SPHSystem.js:195-198 | on the same particles the corrected update pushes it with 1.8 |
| SphSystem.PressureSlotDiffers | script/cannon/objects/SPHSystem.js:195-207 | the update as written and the corrected one give that particle different forces |
| World.Init | script/cannon/world/World.js:36-100 | no bodies, constraints, contact materials or equations; time 0, dt -1, step 0, accumulator 0, no active bodies; sleeping only when asked, gravity and quaternion options as given or 0 and false; the default contact material pairs the default material with friction 0.3 and restitution 0 |
| World.AddBody | script/cannon/world/World.js:297-314 | a body already present changes nothing; a new one goes last with its index, its position as initial position and the world time as last-sleepy time, its id registered and the collision matrix grown; only the matrix's range error can stop it |
| World.RemoveBody | script/cannon/world/World.js:321-338 | an absent body changes nothing; a present one is spliced out, the bodies after it re-indexed, its id unregistered; only the matrix's range error can stop it |
| World.RemoveUndoesAdd | script/cannon/world/World.js:297-338 | removing a fresh body just added gives back the world's bodies and registered ids |
| World.Reindex | script/cannon/world/World.js:330-332 | every body's index becomes its position, nothing else changing |
| World.AddContactMaterial | script/cannon/world/World.js:373-383 | the material is appended and found for its pair in either order; every other pair's lookup is unchanged |
| World.GetContactMaterialSymmetric | script/cannon/world/World.js:159-161 | looking up a pair of materials does not depend on their order |
| World.AddConstraint | script/cannon/world/World.js:192-194 | the constraint goes last and nothing else changes |
| World.RemoveConstraint | script/cannon/world/World.js:201-206 | an absent constraint changes nothing; otherwise its first occurrence is cut out and nothing else changes |
| World.RemoveConstraintUndoesAdd | script/cannon/world/World.js:192-206 | removing a fresh constraint just added gives the world back |
| World.AddGravity | script/cannon/world/World.js:470-482 | only forces change, and only of dynamic bodies |
| World.GravityAdds | script/cannon/world/World.js:470-482 | each dynamic body gains its mass times gravity; two gravities applied in turn are their sum, and zero gravity changes nothing |
| World.UnconstrainedMembers | script/cannon/world/World.js:505-519 | a candidate pair survives exactly when no constraint that does not let its bodies collide joins the pair |
| World.RemoveConstrainedPairs | script/cannon/world/World.js:505-519 | the loop removing constrained pairs leaves exactly the unconstrained pairs |
| World.ReboundAgrees | script/cannon/world/World.js:578-601 | recomputing a contact's restitution from its materials twice is doing it once, and a contact already holding that restitution is left alone |
| World.Rebounded | script/cannon/world/World.js:566-609 | each contact gets its restitution recomputed and stays valid |
| World.WakeUpRule | script/cannon/world/World.js:650-716 | after the contacts are scanned and the marked bodies woken, a body is woken exactly when some contact has it sleeping beside an awake, non-static body fast enough, and is otherwise unchanged |
| World.MarkContactsFlags | script/cannon/world/World.js:650-678 | a body is marked exactly when it was marked or some contact scanned flags it |
| World.WakeMarked | script/cannon/world/World.js:710-716 | every marked body is woken and unmarked; unmarked bodies are untouched |
| World.AdmittedMembers | script/cannon/world/World.js:561-609 | an equation reaches the solver exactly when the solver admits it |
| World.AddAll | script/cannon/world/World.js:723-726 | handing equations to the solver appends those it admits, in order |
| World.UpdateConstraint | script/cannon/world/World.js:720-722 | updating a constraint throws exactly for a plain constraint with no update of its own; otherwise only its equations change, joining the same bodies |
| World.UpdateConstraints | script/cannon/world/World.js:720-727 | the update of all constraints throws exactly when one is plain; otherwise each keeps all but its equations |
| World.EquationsValid | script/cannon/world/World.js:720-727 | the equations of ready constraints refer to bodies of the world |
| World.DampBody | script/cannon/world/World.js:740-758 | a dynamic body's velocities are scaled by the damping powers; static and kinematic bodies are untouched; nothing else changes |
| World.IntegrateAll | script/cannon/world/World.js:771-777 | each body is integrated on its own with the shared normalisation choice |
| World.ClearForces | script/cannon/world/World.js:820-830 | every force and torque becomes zero and nothing else changes |
| World.ClearForcesIdempotent | script/cannon/world/World.js:820-830 | clearing twice is clearing once, and a world with no forces is left alone |
| World.SleepUpdate | script/cannon/world/World.js:801-813 | without sleeping nothing changes and the world is active; with it every body ticks, and the world is active exactly when some body is not asleep |
| World.Contacts | script/cannon/world/World.js:556-716 | the solver is handed the world's friction and contact equations it admits, after those it held, and the bodies change only in what they need to wake |
| World.Collide | script/cannon/world/World.js:499-716 | from the broadphase to the wake-up, the equations handed to the solver are admitted ones about the world's bodies |
| World.Advance | script/cannon/world/World.js:740-778 | after damping, integration and the force clear, no body holds force or torque |
| World.InternalStep | script/cannon/world/World.js:442-814 | corrected: throws exactly when a plain constraint is updated; otherwise the step number grows by 1, dt is stored, the solver is emptied, constraints keep all but their equations, all forces are cleared and the world is active exactly as the sleep rule says; nothing else of the world changes |
| World.JsRemBounds | script/cannon/world/World.js:429 | the remainder of a non-negative accumulator by a positive step is in [0, step) and is the accumulator itself when it is already smaller |
| World.StepsFit | script/cannon/world/World.js:414 | k + 1 whole steps fit in the accumulator exactly when k + 1 is at most the whole-step count |
| World.CatchUp | script/cannon/world/World.js:410-429 | at most the maximum number of substeps are taken, the accumulator dropping by one step for each; a bail-out happens only when the clock passes a thousand steps; without one the count is the whole steps that fit, capped |
| World.Step | script/cannon/world/World.js:401-440 | without elapsed time one step of dt and time advances by dt; with it time advances by the elapsed time, as many substeps as fit (capped) are taken, and the accumulator keeps the remainder in [0, dt); throws exactly when a plain constraint is updated |
| EntityModel.JsAnd | script/model/EntityModel.js:56 | JavaScript `&&`: the result is truthy exactly when both operands are |
| EntityModel.JsOr | script/model/EntityModel.js:56 | JavaScript `or`: the result is truthy exactly when either operand is |
| EntityModel.Setting | script/model/EntityModel.js:54-76 | a component property read through `&&` and `or`: the property when it is truthy, the fallback otherwise |
| EntityModel.IsPhysicsEnabled | script/model/EntityModel.js:54-58 | truthy exactly when the croquet component's physics property is, and then that property; false otherwise |
| EntityModel.Mass | script/model/EntityModel.js:60-62 | the croquet component's mass when truthy, else 0 |
| EntityModel.Radius | script/model/EntityModel.js:64-66 | the geometry radius when truthy, else 1; always truthy |
| EntityModel.Height | script/model/EntityModel.js:68-70 | the geometry height when truthy, else 1; always truthy |
| EntityModel.Primitive | script/model/EntityModel.js:72-76 | the geometry primitive when truthy, else "box"; always truthy |
| EntityModel.GetterDefaults | script/model/EntityModel.js:54-76 | with neither component the getters give false, 0, 1, 1 and "box" |
| EntityModel.FalsySettingsRead | script/model/EntityModel.js:54-76 | a stored mass of 0 reads as if absent, physics false reads false, and an empty primitive reads "box" |
| EntityModel.Patch | script/model/EntityModel.js:96-112 | a property in the diff is kept exactly when its new value is not null, and then has that value; a property not in the diff stays as it was |
| EntityModel.PatchesCompose | script/model/EntityModel.js:96-112 | two patches in turn are one patch with the later diff winning |
| EntityModel.PatchIdempotent | script/model/EntityModel.js:96-112 | applying the same patch twice is applying it once |
| EntityModel.UndoPatch | script/model/EntityModel.js:96-112 | on a component with no null property, the inverse diff undoes a patch |
| EntityModel.MergeOne | script/model/EntityModel.js:86-128 | one component of the diff: other components stay; it throws exactly when an object diff meets a stored primitive it cannot write to; null deletes a stored component; an absent one is stored as given |
| EntityModel.RestoreAfterDelete | script/model/EntityModel.js:113-127 | deleting a component with null and storing it again gives the components back |
| EntityModel.UndoMerge | script/model/EntityModel.js:94-112 | merging an object diff into a stored object and then its inverse gives the components back |
| EntityModel.MergeOneLocal | script/model/EntityModel.js:86-128 | merging a component depends only on that component |
| EntityModel.MergeAll | script/model/EntityModel.js:86-128 | components the diff does not name stay as they were, and the only error is the write to a primitive |
| EntityModel.MergeAllPerName | script/model/EntityModel.js:86-128 | on a diff naming each component once, the whole merge succeeds exactly when each component's merge does, and then each component is that merge's |
| EntityModel.FillDefaults | script/model/EntityModel.js:225-241 | stored components stay; position, rotation and scale are present afterwards, the missing ones as (0, 0, 0), (0, 0, 0) and (1, 1, 1); nothing else is added |
| EntityModel.Settle | script/model/EntityModel.js:221-252 | both timestamps are the current time; physics reads as before the settle; stored components stay; when physics has just been enabled position, rotation and scale are present |
| EntityModel.Probe | script/model/EntityModel.js:191-218 | the `in` probes throw exactly when a croquet or geometry diff is not an object |
| EntityModel.SetComponentsAsWritten | script/model/EntityModel.js:78-253 | as written: succeeds exactly when the merge and the probes do; a thrown call keeps the merged components and the old timestamps |
| EntityModel.SetComponents | script/model/EntityModel.js:78-253 | corrected: throws exactly when the merge does, keeping the merged components and the old timestamps; otherwise every component of the merge holds its merged value, the only others are position, rotation and scale, both timestamps are the current time, components not named stay, and enabling physics fills position, rotation and scale |
| EntityModel.AsWrittenAgrees | script/model/EntityModel.js:191-218 | the two versions agree whenever the probes do not throw |
| EntityModel.Init | script/model/EntityModel.js:6-35 | the creator's diff is stored in full and only the creator's timestamp is recorded |
| EntityModel.ViewExit | script/model/EntityModel.js:364-366 | the leaving view's timestamp is dropped; other timestamps and the components stay |
| EntityModel.ViewExitUndoesSet | script/model/EntityModel.js:250-252 | a view that sets components and then leaves leaves the per-user timestamps as they were |
| EntityModel.MassAfterSet | script/model/EntityModel.js:60-128 | setting a non-zero mass makes the mass getter read it |
| EntityModel.MassCleared | script/model/EntityModel.js:60-115 | setting the mass to null makes the getter read 0 |
| EntityModel.EnablingFillsDefaults | script/model/EntityModel.js:221-242 | turning physics on for an entity without it fills missing position, rotation and scale with their defaults and keeps present ones |
| EntityModel.DeletingCroquetThrows | script/model/EntityModel.js:191-193 | as written, deleting the croquet component throws at the mass probe after the delete, leaving the timestamps old |
| EntityModel.DeletingCroquetDisablesPhysics | script/model/EntityModel.js:191-252 | corrected, deleting the croquet component turns physics off and records the time |

## Left out

- Source defects on the main path: every caller uses the corrected definition of each Findings row, and the as-written one is kept beside it. Solver.ComputeB uses the corrected RotationalEquation.ComputeB. World.InternalStep throws only for a plain constraint, through World.UpdateConstraint. Ray.Cast and Ray.IntersectBodies use Ray.Report, not Ray.ReportAsWritten. The ray's sphere test uses Ray.SphereRoots, not Ray.SphereRootsAsWritten. RigidVehicle.AddWheel and every constraint build on the corrected Constraint.Init. DistanceConstraint.Init, HingeConstraint.Update, SapScan.CollisionPairs, SplitSolver.GetUnvisitedNode, SphSystem.Update, RaycastVehicle.UpdateVehicle, RigidVehicle.SetMotorSpeed, RigidVehicle.AddToWorld and EntityModel.SetComponents are the corrected versions.
- GsSolver.InvC: returns 0 when the equation's C is 0, where JavaScript's `1 / C` gives Infinity; a well-posed equation (eps above 0) never has C = 0, as GsSolver.InvCOfWellPosed shows.
- World.Step: requires `dt != 0` when elapsed time is given, because JavaScript's `accumulator % 0` is NaN and reals have no NaN.
- Narrowphase.SpookReady: the contact and friction constructors require non-zero time step, stiffness and `1 + 4 relaxation`, because `setSpookParams` divides by them and JavaScript would give Infinity or NaN.
- Equation.SetSpookParams: requires `timeStep != 0 && stiffness != 0 && 1 + 4 relaxation != 0` for the same reason.
- GsSolver.Solve: requires `h != 0`, as do GsSolver.Reference and GsSolver.Conclude, because the multipliers are divided by the step; JavaScript would give Infinity or NaN.
- Heightfield.GetIndexOfPosition: requires a non-zero element size, because the source divides by it.
- Trimesh.GetTrianglesInAabb: requires a non-zero scale on every axis, because the query box is divided by the scale.
- Trimesh.TriangleNormal: a triangle naming a missing vertex, wholly missing or cut short by the end of the vertex array, has a NaN cross product, which Trimesh.js:332-333 passes to `Vec3.normalize`. Vec3.js is not part of this model, so the model records only that the triangle has no number normal (`None`), not the triple `normalize` leaves.
- Trimesh.UpdateNormals: the slots of a triangle naming a missing vertex, and of a partial last triangle, are `None`, standing for whatever `Vec3.normalize` writes for a NaN vector (Trimesh.js:332-333); the three numbers themselves are not modelled, because Vec3.js is not part of this model.
- Trimesh.Init: the vertices are kept as exact reals, without `Float32Array` rounding. The edges, box, bounding radius and octree that `init` also computes are the separate members Trimesh.UpdateEdges, Trimesh.ComputeLocalAabb, Trimesh.UpdateBoundingSphereRadius and the Octree insertion.
- RaycastVehicle.SpinWheel: requires a non-zero radius for a wheel in contact, because the turn is divided by it.
- RaycastVehicle.CalcRollingFriction: requires the two impulse denominators not to sum to 0, because the source divides by that sum.
- RaycastVehicle.ResolveSingleBilateral: requires the inverse masses not to sum to 0 for a normal of unit length, because the source divides by that sum.
- Equation ids: each constraint's equations are numbered `firstId`, `firstId + 1`, ..., with `firstId` a parameter. The source takes `_id` from the Croquet model id (Equation.js:18), a session-wide counter that the model does not have.
- Pool.Resize: the size is a `nat`; a negative size shrinks the JavaScript pool to empty, which the model does not cover.
- World.AddBody: copies the position into the initial position and the time into `timeLastSleepy`, but does not model the copies of the velocity, angular velocity and quaternion into `initVelocity`, `initAngularVelocity` and `initQuaternion` (World.js:305-310), which nothing modelled reads.
- RigidVehicle.SetWheelForce: holes made by writing past the end of the force list read as 0 where JavaScript leaves them `undefined`; every such index lacks a wheel, so the update throws for it either way.
- Floating point: every number is an exact real, so rounding, NaN, Infinity and -0 are not modelled.
- Vector algebra internals: Vec3, Quaternion, Mat3, AABB and ConvexPolyhedron are not part of this model. Rotation, `sqrt`, `normalize`, `sin`, `cos`, tangents and the AABB `contains`/`overlaps` tests are uninterpreted operations passed in `MathOps`.
- Croquet plumbing: `publish`/`subscribe`, events, logging, profiling, `register`/`create` and the ISLAND scratch singletons are left out. Scratch vectors are modelled as fresh values, except where sharing one causes a Findings row.
- World.InternalStep: the broadphase, narrowphase, solver, `Math.pow` damping and material lookup are parameters. The `subsystems` loop (World.js:484-490) is left out because no subsystem is part of this model.
- World.InternalStep: the per-body `postStep` callback (World.js:792-798) is not called. It is caller-supplied code, `null` unless set (Body.js:41), and nothing in this model sets it.
- World.Step: the wall clock is a parameter (`clock`), and the interpolation of positions and quaternions by lerp/slerp after the catch-up loop (World.js:431-437) is left out.
- World.Step: `maxSubSteps` is a `nat` the caller always passes. The source defaults it to 10 (World.js:401), which a caller of the model passes explicitly. The source also accepts a negative count, which runs no substep exactly as 0 does, so the model covers it through 0.
- Contact geometry: the resolvers `sphereBox`, `sphereConvex`, `convexConvex`, `planeConvex`, the heightfield and trimesh resolvers and `createFrictionFromAverage` are left out. The narrowphase models the dispatch and the contact/friction equations they create.
- Body.Integrate: quaternion integration and renormalisation go through uninterpreted operations.
- SPH kernels: the kernels are parameters (`Kernels`). SphSystem.SourceKernels states the source's formulas with `pi` and `h^9` as parameters.
- Cylinder vertex coordinates, `Trimesh.createTorus` and `Heightfield.setHeightsFromImage` (which needs a canvas) are left out.
- Cylinder.Init: `numSegments` is an `Option<nat>`. A negative or fractional count, which Cylinder.js:20 accepts unchecked, is not covered. A negative count gives only the two caps, and a fractional one rounds the number of sides up while spacing the angles by 2π/N.
- Heightfield.getTriangleAt, getHeightAt, getNormalAt and getAabbAtIndex: left out. getTriangleAt and getHeightAt read the static `Heightfield.getHeightAt_idx` (Heightfield.js:275,339), but the field is per instance (Heightfield.js:13), so as written they throw before doing any work.
- Octree maxDepth: the depth limit is a parameter. The source's default (Octree.js:248) compares the option with the string "undefined", so an absent option leaves `maxDepth` undefined instead of 8.
- Broadphase.makePairsUnique: left out. Its loop pops the key list while counting upward, so it handles about half the keys (Broadphase.js:193-199), and no broadphase here calls it.
- Broadphase.Fresh: the queries read the fresh bounds of a stale body but do not hand the refreshed body back, although `doBoundingBoxBroadphase` writes them into it (Broadphase.js:150-155). Broadphase.Refresh models that write, and Broadphase.RefreshStable shows it changes no later test.
- RigidVehicle.AddToWorld: the corrected definition adds the bodies and hinges only. Running RigidVehicle.Update before every step, which the dropped listener was meant to do, is left out with the other events. RaycastVehicle's `addToWorld` makes the same `world.addEventListener` call (RaycastVehicle.js:274) and would throw the same TypeError; it is left out, because it only adds the chassis and registers that listener.
- WheelInfo.updateWheel: left out, because nothing calls it; it reads the undefined `WheelInfo.relpos` (WheelInfo.js:112). Its slant rule is the one RaycastVehicle.Slant states for `castRay`.
- RaycastVehicle.UpdateVehicle: stops after the suspension impulses. The friction pass `updateFriction` (RaycastVehicle.js:598-779) is modelled only through its parts, RaycastVehicle.CalcRollingFriction and RaycastVehicle.ResolveSingleBilateral. The spin loop is RaycastVehicle.SpinWheel.
- Material and ContactMaterial: only their constructors' defaults are modelled. `JacobianElement.js` and `Transform.js` are not part of this model; an equation's Jacobian is a pair of real 3-vectors per body.
- GaussSeidel iterations: the iteration count is a `nat`; a negative count would loop forever in the source.
- EntityModel: identity and aliasing are left out. Stored components are values, so a diff object stored as a component is not shared with the caller. The physics-enabled test compares values where the source's `!==` compares identity.
- EntityModel: names inherited through the prototype chain (`"toString" in obj`) and NaN are not modelled. Arrays are modelled as objects.
- EntityModel: deleting a string's index or `length` property, and writing to a frozen value, are modelled by the one error `PrimitiveComponent`, where V8 has several messages.
- EntityModel: a component diff that is not an object is not modelled as such; the diff is a list of name/value pairs.
- EntityModel: the THREE and CANNON side effects (position, Euler angles, matrix compose, physics-body creation and removal) are left out.
- EntityModel: the tests `componentName in componentDifferences` at lines 89 and 122 of EntityModel.js always hold, because the loop reads the name from the diff. The model has no branch for the `delete` at lines 118-120, which cannot run.
- User interface, A-Frame views, DOM, configuration and the other Croquet models are not part of this model.

## Findings

| source | as written | input that shows it | evidently intended | confidence | as-written member | corrected member |
|---|---|---|---|---|---|---|
| script/cannon/constraints/Constraint.js:19 | `init` reassigns a `const` binding, so building any constraint throws a TypeError | any options | read the options into a `let` and fill defaults | not executed | Constraint.InitAsWritten | Constraint.Init |
| script/cannon/constraints/DistanceConstraint.js:31 | `maxForce` is read inside its own initialiser | options with `maxForce: 5` | take the bound from the options, or 1e6 | not executed | DistanceConstraint.MaxForceCounterexample | DistanceConstraint.Init |
| script/cannon/solver/SplitSolver.js:126 | the static `SplitSolver.STATIC` is undefined, so the mask is 0 and static bodies are not skipped | one unvisited static body | skip static bodies when picking an island seed | not executed | SplitSolver.StaticBodyPickedAsWritten | SplitSolver.GetUnvisitedNodeSkipsStatic |
| script/cannon/collision/SAPBroadphase.js:71 | the instance method `checkBounds` is called on the class, so the scan throws at the first candidate | two bodies on the chosen axis | call `this.checkBounds` | not executed | SapScan.CollisionPairsAsWritten | SapScan.CollisionPairs |
| script/cannon/constraints/HingeConstraint.js:69-86 | both scratch getters use one ISLAND name, so the two world axes alias | a hinge about x on body A and y on body B | two distinct scratch vectors | not executed | HingeConstraint.UpdateAsWrittenCounterexample | HingeConstraint.Update |
| script/cannon/equations/RotationalEquation.js:45-46 | `this.tmpVec1` and `this.tmpVec2` are never set, so `computeB` throws | any rotational equation | use scratch vectors that exist | not executed | RotationalEquation.ComputeBAsWritten | RotationalEquation.ComputeB |
| script/cannon/collision/Ray.js:941 | the face index is written before the mode decides, so a rejected CLOSEST hit overwrites it | hits at distance 1 and then 2 | write the face index only with the stored hit | not executed | Ray.ClosestKeepsWrongFace | Ray.Report |
| script/cannon/collision/Ray.js:654 | the tangent point lerps by the discriminant `delta`, which is 0, instead of the root's fraction, so the hit is reported at the ray's start | a ray from (-2, 1, 0) to (0, 1, 0) touching the unit sphere | lerp by the fraction `-b / 2a` | not executed | Ray.TangentRootMissesSphere | Ray.SphereRootsComplete |
| script/cannon/shapes/Heightfield.js:184-201 | setting a height evicts only some of the cached pillars that read the cell | a 2 by 2 field, setting height (0, 0) | evict every pillar that reads the cell | not executed | Heightfield.SetHeightValueLeavesStalePillar | Heightfield.SetHeightValueAtIndexKeepsCacheCoherent |
| script/cannon/objects/SPHSystem.js:197-198 | the neighbour's pressure and density are read at its list position `j`, not its particle index | three particles on the x axis at 0, 1.5 and 0.6 | read them at the neighbour's own index | not executed | SphSystem.PressureSlotDiffers | SphSystem.LineIntended |
| script/cannon/objects/RigidVehicle.js:144 | the speed goes into `motorTargetVelocity` on the hinge, which nothing reads | any wheel with a hinge | set the motor equation's target velocity | not executed | RigidVehicle.MotorSpeedLost | RigidVehicle.SetMotorSpeed |
| script/cannon/objects/RigidVehicle.js:201 | `addToWorld` ends with `world.addEventListener`, but the world extends `Croquet.Model` (World.js:35), declares no such method, and has its own dispatch commented out (World.js:756) | any vehicle whose bodies are added without a range error | register `_update` to run before every step | not executed | RigidVehicle.AddToWorldAsWritten | RigidVehicle.AddToWorld |
| script/cannon/objects/RaycastVehicle.js:314 | the instance method `castRay` is called on the class, so every step of a vehicle with a wheel throws | a vehicle with one wheel | call `this.castRay` | not executed | RaycastVehicle.AirborneVehicleCoasts | RaycastVehicle.UpdateVehicle |
| script/model/EntityModel.js:193 | after a null diff deletes the croquet component, `"mass" in null` throws | the diff `{croquet: null}` | guard the probe with an object test | not executed | EntityModel.DeletingCroquetThrows | EntityModel.DeletingCroquetDisablesPhysics |
