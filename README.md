# space_game world, commands and connections in Dafny

This project models the authoritative parts of the space_game server, a
multiplayer game in which ships fly among planets and shoot each other.
The repository keeps several iterations that do not agree with each other.
Each iteration's file is its own module here:

- the early single-process world (`src/object.rs`, `src/space.rs`);
- the server world of fixed size (`server/src/space.rs` on the bodies of
  `server/src/game/object.rs`);
- the unit-square world (`server/src/logic/object.rs`,
  `server/src/logic/space_object.rs`, `server/src/logic/space.rs`);
- the two command decoders (`server/src/ui/command.rs`,
  `server/src/communication/command.rs`);
- the two connection layers (`server/src/networking/connection.rs`,
  `server/src/communication/connection.rs`).

How the model is written:

- **Bodies, ships, bullets and planets** are datatypes. The Rust methods
  that take `&mut self` become functions that return the updated value.
- **Each world (`Space`)** is a class. Its `Vec` fields are `seq` fields,
  and its methods carry `modifies this`. Each method's new state is stated
  through specification functions (`Added`, `Removed`, `MovedShips`,
  `ApplyKills`, `ApplyRespawns`, `Survivors`, ...), and lemmas prove what
  the source promises about those functions.
- **The ship sweep** of `update_ships` is a module-level method proved
  against `KillIds`/`DeathIds`. It collects the kill credits and death
  entries, then applies them (kills first, respawns second).
- **Shared modules:**
  - `Common` holds `Option`, the `u8`/`u32`/`u64` ranges, wrap-around
    addition and big-endian byte conversion.
  - `Geometry` holds `Vec2` over `real`, clamping, distance comparisons
    without square roots, and `Physics`. `Physics` carries the float
    geometry (`DVec2::from_angle` and the inverse-square field) as
    uninterpreted function values.
- **Angles** (`f64`) are their IEEE bit pattern, a `u64`. They are only
  copied or decoded from bytes, so `f64::from_be_bytes` is exactly the
  big-endian decode of 8 bytes.
- **Integers** use the release-build wrap-around that the code evidently
  relies on:
  - `id + 48` and `max id + 1` are `u8` additions modulo 256;
  - the `u32` score counters wrap at 2^32.
- **Randomness** becomes a nondeterministic choice within the range the
  code draws from.

## Model

| member | source | states |
|---|---|---|
| Common.WrappingAdd | server/src/networking/connection.rs:79 | `u8` addition in a release build: the plain sum below 256, otherwise the sum less 256 |
| Common.WrappingIncrement | server/src/game/object.rs:176 | `u32` `+= 1` in a release build: one more, except that 2^32-1 wraps to 0 |
| Common.WrappingIncrementIsModular | server/src/game/object.rs:181 | the `u32` increment is addition of one modulo 2^32 |
| Common.Pow256 | server/src/networking/connection.rs:67 | the place value of a byte position is positive |
| Common.ToBigEndian | server/src/networking/connection.rs:67 | `to_be_bytes` yields exactly `width` bytes |
| Common.FromBigEndian | server/src/ui/command.rs:12 | `from_be_bytes` of `n` bytes is below 256^n |
| Common.BigEndianRoundTrip | server/src/networking/connection.rs:67 | decoding the big-endian bytes of `n` gives back `n` modulo 256^width, so a length below 2^32 survives a 4-byte prefix |
| Common.BigEndianInverse | server/src/ui/command.rs:12 | encoding the decoded value of a byte string gives back the same bytes, so decoding loses nothing |
| Geometry.ClampScalar | server/src/game/object.rs:72-74 | `clamp` on one axis: never above `hi`; not below `lo` when `lo <= hi`; a value in range is unchanged; an out-of-range value lands on the violated edge |
| Geometry.Clamp | server/src/game/object.rs:72-74 | `DVec2::clamp` meets both bounds on each axis and leaves a point inside the box unchanged |
| Geometry.WithinOrAtSymmetric | server/src/game/object.rs:60-62 | the distance test behind `collision` does not depend on argument order |
| GameObject.Object.New | server/src/game/object.rs:41-49 | the arguments as given, with zero acceleration |
| GameObject.Object.Update | server/src/game/object.rs:51-58 | the location advances by the old velocity and is clamped into `[0,size]`; the velocity advances by the old acceleration; with mass 0 the acceleration is kept, otherwise it becomes field/mass; radius and mass unchanged |
| GameObject.Object.GetField | server/src/game/object.rs:64-70 | zero inside the other body's radius, otherwise the inverse-square pull of the other body's mass |
| GameObject.Object.Bound | server/src/game/object.rs:72-74 | the result fits in `size` and is non-negative when `size` is; a coordinate beyond an edge lands on it; a body inside `[0,size]` is unchanged; velocity, acceleration, radius and mass are kept |
| GameObject.Object.GetParams | server/src/game/object.rs:80-82 | the triple is location x, location y and radius |
| GameObject.Planet.Update | server/src/game/object.rs:4-7 | a planet moves exactly as its body does |
| GameObject.Bullet.Update | server/src/game/object.rs:4-7 | a bullet keeps its owner id and its body moves as an object does |
| GameObject.Ship.New | server/src/game/object.rs:152-160 | id, body and config as given, no direction, zero kills and deaths |
| GameObject.Ship.Shoot | server/src/game/object.rs:162-173 | the bullet carries the ship's id and location, the config's radius and mass, velocity `from_angle(direction) * bullet_speed` and zero acceleration |
| GameObject.Ship.Respawn | server/src/game/object.rs:175-178 | deaths go up by one (wrapping), the body moves to the new location and nothing else changes: kills, velocity, id, direction and config are kept |
| GameObject.Ship.Kill | server/src/game/object.rs:180-182 | kills go up by one (wrapping) and nothing else changes |
| GameObject.Ship.ChangeDirection | server/src/game/object.rs:188-190 | only the direction changes |
| GameObject.Ship.Update | server/src/game/object.rs:4-7 | a ship's body moves as an object does; id, direction, config and score are kept |
| GameObject.UpdateStaysInside | server/src/game/object.rs:57 | in a world of non-negative size, every update leaves the body inside `[0,size]` |
| GameObject.SelfPullIsZero | server/src/game/object.rs:64-67 | a body of positive radius lies within its own radius, so its pull on itself is zero |
| GameObject.MassZeroIgnoresField | server/src/game/object.rs:54-56 | a massless body's update does not depend on the field at all |
| GameObject.FitInHasNoLowerBound | server/src/game/object.rs:76-78 | `fit_in` checks only the upper edges: a body at (-5,-5) fits in a 1 x 1 world |
| GameObject.KillRespawnCommute | server/src/game/object.rs:175-182 | crediting a kill and respawning touch disjoint fields, so their order does not matter |
| GameObject.MasslessBodyDrifts | server/src/game/object.rs:249-256 | the massless-body test: velocity (1,0) under field (0,1) ends at (1,0) after one second |
| GameObject.BoundExamples | server/src/game/object.rs:278-292 | the bound tests: (100,80) lands on the corner (50,40), and (-10,-20) lands on the origin |
| GameObject.UnclampedStep | server/src/game/object.rs:51-58 | when the moved body stays in the world, one update is exactly the integration step with acceleration field/mass |
| GameObject.AcceleratedBodyExample | server/src/game/object.rs:258-266 | the accelerated-body test: unit mass at rest under field (0,1) reaches (0,1) after the tested sequence of updates |
| LogicObject.Object.New | server/src/logic/object.rs:36-44 | the arguments as given, with zero acceleration |
| LogicObject.Object.Update | server/src/logic/object.rs:46-53 | after an update the body is inside `[0,1]^2`; radius, mass and field are kept |
| LogicObject.Object.Bound | server/src/logic/object.rs:67-77 | the location is clamped into `[0,1]^2` and an out-of-range coordinate lands on the edge; each axis on which the body was outside `[0,1]` loses its velocity and acceleration, the other axis keeps them; a body inside is unchanged |
| LogicObject.Object.BoundAsWritten | server/src/logic/object.rs:72-75 | the y components are zeroed exactly when y < 0 or x > 1; the location is clamped as in `Bound` |
| LogicObject.Object.UpdateAsWritten | server/src/logic/object.rs:46-53 | the tick the code performs, ending in the bound as written: same location, x velocity, x acceleration, radius, mass and field as `Update` |
| LogicObject.UpdateAsWrittenAgreesElsewhere | server/src/logic/object.rs:46-53 | the tick as written and the corrected tick agree unless the moved body is beyond exactly one of the top and right edges without being below the bottom one |
| LogicObject.UpdateAsWrittenDiffersAtEdges | server/src/logic/object.rs:46-53 | a body moving up from (0.5, 0.95) past the top edge keeps its vertical velocity 0.1 as written (the corrected tick stops it); a body moving from (0.95, 0.5) past the right edge loses its vertical velocity as written (the corrected tick keeps 0.1) |
| LogicObject.SelfPullIsZero | server/src/logic/object.rs:59-62 | a body of positive radius lies within its own radius, so its pull on itself is zero, and the sum in `update_planets` adds nothing for the planet itself |
| LogicObject.Object.GetField | server/src/logic/object.rs:59-65 | zero inside the other body's radius, otherwise the inverse-square pull of the other body's mass |
| LogicObject.InSpaceIsOpenSquare | server/src/logic/object.rs:79-81 | `in_space` holds iff both coordinates lie strictly between 0 and 1 |
| LogicObject.ClampedBodyLeavesSpace | server/src/logic/object.rs:76-81 | a body that had to be clamped ends on an edge and so is not `in_space` |
| LogicObject.BoundIdempotent | server/src/logic/object.rs:67-77 | bounding twice is bounding once |
| LogicObject.CollisionSymmetric | server/src/logic/object.rs:55-57 | `collision` does not depend on argument order |
| LogicObject.MassZeroIgnoresField | server/src/logic/object.rs:47-49 | a massless body's update does not depend on the field |
| LogicObject.MasslessBodyDrifts | server/src/logic/object.rs:110-116 | the massless-body test: velocity (0.1,0) under field (0,1) ends at (0.1,0) |
| LogicObject.UnclampedStep | server/src/logic/object.rs:46-53 | when the moved body stays in the unit square, one update is exactly: acceleration field/mass, then velocity, then location |
| LogicObject.AcceleratedBodyExample | server/src/logic/object.rs:118-123 | the accelerated-body test: unit mass at rest under field (0,0.1) reaches (0,0.1) after one second |
| LogicObject.BoundExamples | server/src/logic/object.rs:133-149 | the bound tests: (100,80) moving lands on (1,1) with velocity and acceleration zeroed; (-10,-20) lands on the origin and stops |
| LogicObject.BoundAsWrittenMissesTopEdge | server/src/logic/object.rs:72 | as written, a body above the top edge keeps its vertical velocity, and a body beyond the right edge loses it |
| LogicObject.BoundAsWrittenDiffersOnlyThere | server/src/logic/object.rs:72 | except for those two cases, the written test and the intended one agree |
| LogicSpaceObject.Planet.New | server/src/logic/space_object.rs:37-42 | the five arguments are passed in order to the body constructor |
| LogicSpaceObject.Planet.Update | server/src/logic/object.rs:4-7 | a planet moves exactly as its body does |
| LogicSpaceObject.Bullet.Update | server/src/logic/space_object.rs:136-144 | a bullet keeps its owner id and its body moves as an object does |
| LogicSpaceObject.Ship.New | server/src/logic/space_object.rs:87-100 | id and location from the arguments; radius, mass, field and force from the config; zero velocity and acceleration; no direction |
| LogicSpaceObject.Ship.Shoot | server/src/logic/space_object.rs:102-113 | the bullet carries the ship's id and location, the bullet config's radius, mass and field, velocity `from_angle(direction) * speed` and zero acceleration |
| LogicSpaceObject.Ship.Respawn | server/src/logic/space_object.rs:115-119 | the ship moves to the location at rest; id, direction, force, radius, mass and field are kept |
| LogicSpaceObject.Ship.ChangeDirection | server/src/logic/space_object.rs:125-127 | only the direction changes |
| LogicSpaceObject.Ship.Update | server/src/logic/space_object.rs:54-63 | with no direction the field is passed on unchanged; with a direction, `force * from_angle(direction)` is added to it; id, direction and force are kept |
| LogicSpaceObject.FreshBulletTouchesShooter | server/src/logic/space_object.rs:102-113 | a bullet spawns at the shooter's centre, so it collides with the shooter |
| LogicSpaceObject.RespawnedShipFiresFromNewLocation | server/src/logic/space_object.rs:102-119 | after a respawn, shots start at the new location and carry the same id |
| LogicSpace.ShipIndex | server/src/logic/space.rs:142-144 | `position`: the first ship carrying the id, and `None` iff no ship carries it |
| LogicSpace.PlanetFields | server/src/logic/space.rs:100-110 | one field total per planet, all computed before any planet moves |
| LogicSpace.Survivors | server/src/logic/space.rs:137-139 | the `retain`: a bullet is kept iff it is `in_space` and collides with no planet, and nothing is added |
| LogicSpace.SurvivorsAppend | server/src/logic/space.rs:137-139 | the filter works bullet by bullet, so the survivors keep their relative order |
| LogicSpace.GenNewLocation | server/src/logic/space.rs:153-156 | the drawn location lies in `[0,1)` on each axis |
| LogicSpace.Added | server/src/logic/space.rs:72-76 | an id already live leaves the ships unchanged; otherwise exactly one new ship is appended; ids stay unique and the id is live afterwards |
| LogicSpace.Removed | server/src/logic/space.rs:78-83 | an absent id changes nothing; otherwise the first ship with the id is cut out; with unique ids no ship with it remains and every other ship stays |
| LogicSpace.Steered | server/src/logic/space.rs:85-90 | only the direction of the ship at the index changes; an absent id changes nothing |
| LogicSpace.RemoveKeepsOthers | server/src/logic/space.rs:81 | cutting out a ship keeps ids unique, removes its id and keeps every other ship |
| LogicSpace.RemoveTwice | server/src/logic/space.rs:78-83 | with unique ids, removing twice is removing once |
| LogicSpace.ShipIndexUnique | server/src/logic/space.rs:142-144 | with unique ids, the index found is the position of the ship carrying the id |
| LogicSpace.Space.constructor | server/src/logic/space.rs:38-47 | an empty world with the given configs |
| LogicSpace.Space.Update | server/src/logic/space.rs:66-70 | planets first, then ships, then bullets: each ship is moved under the moved planets and tested against the bullets as they were before this tick; each surviving bullet is tested against the moved planets |
| LogicSpace.Space.AddShip | server/src/logic/space.rs:72-76 | the ships become `Added(old ships, id, location)`; planets and bullets are untouched |
| LogicSpace.Space.RemoveShip | server/src/logic/space.rs:78-83 | the ships become `Removed(old ships, id)`; planets and bullets are untouched |
| LogicSpace.Space.MoveShip | server/src/logic/space.rs:85-90 | the ships become `Steered(old ships, id, direction)`; planets and bullets are untouched |
| LogicSpace.Space.Shoot | server/src/logic/space.rs:92-98 | exactly one bullet, the found ship's shot, is appended iff the id is live; the ships are untouched |
| LogicSpace.Space.AddPlanet | server/src/logic/space.rs:146-150 | exactly one planet is appended |
| LogicSpace.Space.UpdatePlanets | server/src/logic/space.rs:100-114 | every planet moves under the field of the pre-tick planets |
| LogicSpace.Space.UpdateShips | server/src/logic/space.rs:116-126 | the ship count is kept; every ship moves under the planets' field and is either kept as moved or respawned in `[0,1)^2` exactly when it struck a planet or any bullet (no owner exemption) |
| LogicSpace.Space.UpdateBullets | server/src/logic/space.rs:128-140 | the bullets become the survivors of the moved bullets |
| LogicSpace.Space.MoveBullets | server/src/logic/space.rs:129-136 | every bullet moves under the planets' field |
| LogicSpace.Space.RetainSurvivors | server/src/logic/space.rs:137-139 | the bullets become `Survivors(old bullets)` |
| ServerSpace.ShipIndex | server/src/space.rs:157-159 | `position`: the first ship carrying the id, and `None` iff no ship carries it |
| ServerSpace.SameIdsSameIndex | server/src/space.rs:83-97 | lists with the same ids in the same order give the same index, so updating a ship in place never changes lookups |
| ServerSpace.MaxId | server/src/space.rs:110-116 | `max().unwrap_or(0)`: bounds every id, is 0 for no ships, and is attained otherwise |
| ServerSpace.NewId | server/src/space.rs:110-116 | the new id is the maximum plus one, wrapping in `u8` |
| ServerSpace.NewIdIsFresh | server/src/space.rs:110-116 | below 255, the new id is max+1 and no live ship carries it |
| ServerSpace.NewIdWrapsOntoLiveId | server/src/space.rs:110-116 | with ids 0 and 255 live, the wrapped id 0 is already taken |
| ServerSpace.PlanetFields | server/src/space.rs:36-46 | one field total per planet, all computed before any planet moves |
| ServerSpace.MovedShip | server/src/space.rs:69-70 | moving a ship keeps its id |
| ServerSpace.MovedShips | server/src/space.rs:68-70 | moving the ships keeps their ids in order |
| ServerSpace.Survivors | server/src/space.rs:61-62 | the `retain`: a bullet is kept iff it collides with no planet, and nothing is added |
| ServerSpace.NoPlanetsNoLosses | server/src/space.rs:61-62 | with no planets every bullet survives, in order |
| ServerSpace.Hits | server/src/space.rs:74-81 | a ship collects at most one credit per bullet |
| ServerSpace.HitsAreOwnersOfHits | server/src/space.rs:74-80 | an id is credited iff some bullet of that owner, other than the ship itself, collides with the ship |
| ServerSpace.DeathsOf | server/src/space.rs:71-81 | a ship collects one death entry for touching any planet plus one per hitting bullet |
| ServerSpace.DeathsOfNameTheShip | server/src/space.rs:72-79 | every death entry of a ship is that ship's id |
| ServerSpace.CasualtiesStep | server/src/space.rs:74-81 | each further bullet adds one credit and one death entry exactly when it hits |
| ServerSpace.SweepStep | server/src/space.rs:68-82 | each further ship appends its own credits and death entries to the lists |
| ServerSpace.DeathIdsNameLiveShips | server/src/space.rs:88-97 | every death entry names a live ship, so every respawn finds its ship |
| ServerSpace.KillOne | server/src/space.rs:84-86 | crediting a kill keeps the ids in order |
| ServerSpace.ApplyKills | server/src/space.rs:83-87 | crediting all kills keeps the ids in order |
| ServerSpace.RespawnOne | server/src/space.rs:90-95 | a respawn keeps the ids in order |
| ServerSpace.ApplyRespawns | server/src/space.rs:89-97 | respawning all listed ships keeps the ids in order |
| ServerSpace.WrappedIsSum | server/src/game/object.rs:176 | n wrapping increments of a `u32` add n modulo 2^32 |
| ServerSpace.KillCredits | server/src/space.rs:83-87 | each ship ends with one more kill (wrapping) per credit naming it; ids that name no live ship change nothing |
| ServerSpace.KillOneAt | server/src/space.rs:84-86 | one credit changes only the first ship with that id |
| ServerSpace.KillOfAbsentIdChangesNothing | server/src/space.rs:84 | a credit for an id that is not live is skipped |
| ServerSpace.RespawnKeepsTheRest | server/src/space.rs:88-97 | respawns change only locations and death counts: id, direction, config, kills and the rest of the body are kept |
| ServerSpace.RespawnDeathCount | server/src/space.rs:88-97 | a ship listed k times gains k deaths, modulo 2^32 |
| ServerSpace.RespawnOneAt | server/src/space.rs:90-95 | one respawn changes only the first ship with that id |
| ServerSpace.RespawnSkips | server/src/space.rs:88-97 | a ship not listed (or shadowed by an earlier ship with its id) is not touched |
| ServerSpace.RespawnsStep | server/src/space.rs:89-96 | respawning the next listed id acts on the same index as in the starting list |
| ServerSpace.Sweep | server/src/space.rs:66-82 | the loop moves every ship and builds exactly the credit and death lists of the moved ships |
| ServerSpace.Casualties | server/src/space.rs:71-81 | the inner loop builds exactly one ship's credits and death entries |
| ServerSpace.GenLocation | server/src/space.rs:91-94 | in a world of positive size the drawn location lies in `[0,size)` on each axis |
| ServerSpace.RespawnShips | server/src/space.rs:88-97 | the loop respawns each listed ship once, in list order, at locations drawn in the world |
| ServerSpace.RespawnsLandInWorld | server/src/space.rs:91-95 | after the respawns a ship is either where it was or inside the world |
| ServerSpace.Space.constructor | server/src/space.rs:17-24 | an empty world of the given size |
| ServerSpace.Space.Update | server/src/space.rs:30-34 | planets, then bullets, then ships: bullets are moved under and filtered against the moved planets; ships are moved, collide with the filtered bullets, get their kill credits, then are respawned; `ok` is false only when a respawn would draw from an empty range |
| ServerSpace.Space.UpdatePlanets | server/src/space.rs:36-50 | every planet moves under the field of the pre-tick planets |
| ServerSpace.Space.UpdateBullets | server/src/space.rs:52-63 | the bullets become the survivors of the moved bullets |
| ServerSpace.Space.MoveBullets | server/src/space.rs:53-60 | every bullet moves under the planets' field |
| ServerSpace.Space.RetainSurvivors | server/src/space.rs:61-62 | the bullets become `Survivors(old bullets)` |
| ServerSpace.Space.UpdateShips | server/src/space.rs:65-98 | the ships are moved; all kill credits are applied before any respawn; each death entry respawns its ship once in the world; an empty world range is reported as `ok == false` with only the credits applied |
| ServerSpace.Space.ApplyKillList | server/src/space.rs:83-87 | the ships become `ApplyKills(old ships, ids)` |
| ServerSpace.Space.ApplyDeathList | server/src/space.rs:88-97 | with death entries and an empty world range nothing is respawned and `ok` is false; otherwise every entry is respawned at a location in the world |
| ServerSpace.Space.RespawnAll | server/src/space.rs:89-97 | the ships become `ApplyRespawns(old ships, ids, locations)` for locations drawn in the world |
| ServerSpace.Space.AddPlanet | server/src/space.rs:100-107 | appends exactly one planet iff the body fits in the world, and returns that verdict |
| ServerSpace.Space.AddShip | server/src/space.rs:109-125 | appends exactly one ship, with id max+1, iff the body fits, and returns `Some(id)` iff it appended |
| ServerSpace.Space.RemoveShip | server/src/space.rs:127-135 | returns true iff the id was live, and then cuts out exactly the first ship with it |
| ServerSpace.Space.MoveShip | server/src/space.rs:137-145 | returns true iff the id is live, and then changes only that ship's direction |
| ServerSpace.Space.Shoot | server/src/space.rs:147-155 | returns true iff the id is live, and then appends exactly that ship's shot; ships untouched |
| ServerSpace.FirstIdsAreOneAndTwo | server/src/space.rs:166-185 | the first ship gets id 1 and the second id 2 |
| ServerSpace.SecondRemoveFindsNothing | server/src/space.rs:187-206 | after removing a ship whose id was unique, the id is gone, so a second remove returns false |
| SrcObject.Object.New | src/object.rs:17-25 | the arguments as given, with zero acceleration |
| SrcObject.Object.SpawnFrom | src/object.rs:27-35 | this body's location, zero acceleration, and radius, mass and velocity from the arguments |
| SrcObject.Object.ChangeAcceleration | src/object.rs:37-41 | a no-op for a massless body, otherwise acceleration field/mass and nothing else changes |
| SrcObject.Object.GetField | src/object.rs:47-53 | zero when the centres coincide, otherwise the inverse-square pull of this body's mass |
| SrcObject.Object.Bound | src/object.rs:55-57 | the location ends at or below `size` on each axis; an excess coordinate lands on the edge; a location already within is unchanged |
| SrcObject.Object.Advance | src/object.rs:60-65 | the velocity advances first, and the location moves by the new velocity |
| SrcObject.MasslessBodyDrifts | src/object.rs:93-100 | a massless body at rest in acceleration moves by exactly its velocity in one second, whatever the field |
| SrcObject.AcceleratedBodyExample | src/object.rs:102-108 | the accelerated test: velocity (1,0), field (0,1), unit mass reach (1,1) after one second |
| SrcObject.BoundExample | src/object.rs:118-124 | the bound test: (100,80) in a 50 x 40 world lands on (50,40) |
| SrcObject.BoundIdempotent | src/object.rs:55-57 | bounding twice is bounding once |
| SrcSpace.Properties.Body | src/space.rs:113-114 | a body built from properties copies them, with zero acceleration |
| SrcSpace.Step | src/space.rs:63 | an entity's step keeps it at or below the world size, with radius and mass kept |
| SrcSpace.Planet.New | src/space.rs:114 | a planet's body is built from its properties |
| SrcSpace.Ship.New | src/space.rs:120 | id, body and config as given; no direction; zero kills and deaths |
| SrcSpace.Ship.Shoot | src/space.rs:145 | the bullet carries the ship's id and location, with zero acceleration and the config's radius and mass |
| SrcSpace.Ship.Kill | src/space.rs:98 | kills go up by one and nothing else changes |
| SrcSpace.Ship.Respawn | src/space.rs:108 | deaths go up by one, the body moves to the location and nothing else changes |
| SrcSpace.Ship.ChangeDirection | src/space.rs:136 | only the direction changes |
| SrcSpace.ShipIndex | src/space.rs:151-153 | `position`: the first ship carrying the id, and `None` iff no ship carries it |
| SrcSpace.SameIdsSameIndex | src/space.rs:96-110 | lists with the same ids in order give the same index |
| SrcSpace.MaxId | src/space.rs:119 | `max().unwrap_or(0)`: bounds every id, is 0 for no ships and is attained otherwise |
| SrcSpace.NewId | src/space.rs:119 | below 255 the new id is max+1 and fresh; at 255 it wraps to 0 |
| SrcSpace.SelfPullIsZero | src/object.rs:48-50 | a planet's pull on itself is zero, so summing over all planets includes no self-term |
| SrcSpace.PlanetFields | src/space.rs:52-61 | one field total per planet, all computed before any planet moves |
| SrcSpace.MovedPlanets | src/space.rs:62-64 | moving the planets keeps their number |
| SrcSpace.MovedBullets | src/space.rs:67-76 | moving the bullets keeps their number and owners, and drops none |
| SrcSpace.MovedShip | src/space.rs:82-83 | moving a ship changes only its body |
| SrcSpace.MovedShips | src/space.rs:81-83 | moving the ships keeps their ids in order |
| SrcSpace.Hits | src/space.rs:87-94 | a ship collects at most one credit per bullet |
| SrcSpace.HitsAreOwnersOfHits | src/space.rs:87-93 | an id is credited iff some bullet of that owner, other than the ship itself, collides with the ship |
| SrcSpace.DeathsOf | src/space.rs:84-94 | one death entry for touching any planet plus one per hitting bullet |
| SrcSpace.DeathsOfNameTheShip | src/space.rs:85-92 | every death entry of a ship is that ship's id |
| SrcSpace.CasualtiesStep | src/space.rs:87-94 | each further bullet adds one credit and one death entry exactly when it hits |
| SrcSpace.SweepStep | src/space.rs:81-95 | each further ship appends its own credits and death entries |
| SrcSpace.DeathIdsNameLiveShips | src/space.rs:102-110 | every death entry names a live ship |
| SrcSpace.KillOne | src/space.rs:97-99 | crediting a kill keeps the ids in order |
| SrcSpace.ApplyKills | src/space.rs:96-100 | crediting all kills keeps the ids in order |
| SrcSpace.RespawnOne | src/space.rs:103-109 | a respawn keeps the ids in order |
| SrcSpace.ApplyRespawns | src/space.rs:102-110 | respawning all listed ships keeps the ids in order |
| SrcSpace.KillCredits | src/space.rs:96-100 | each ship ends with one more kill per credit naming it; unknown owner ids are skipped |
| SrcSpace.RespawnCredits | src/space.rs:102-110 | each ship gains one death per entry naming it and changes only its location otherwise; others are untouched |
| SrcSpace.KillOneAt | src/space.rs:97-99 | one credit changes only the first ship with that id |
| SrcSpace.RespawnOneAt | src/space.rs:103-109 | one respawn changes only the first ship with that id |
| SrcSpace.RespawnsStep | src/space.rs:102-109 | respawning the next listed id acts on the same index as in the starting list |
| SrcSpace.RespawnsLandInWorld | src/space.rs:104-108 | after the respawns a ship is either where it was or inside the world |
| SrcSpace.Sweep | src/space.rs:79-95 | the loop moves every ship and builds exactly the credit and death lists of the moved ships |
| SrcSpace.Casualties | src/space.rs:84-94 | the inner loop builds exactly one ship's credits and death entries |
| SrcSpace.GenLocation | src/space.rs:104-107 | in a world of positive size the drawn location lies in `[0,size)` on each axis |
| SrcSpace.RespawnShips | src/space.rs:101-110 | the loop respawns each listed ship once, in list order, at locations drawn in the world |
| SrcSpace.PlanetPoints | src/space.rs:30-33 | one `(x, y)` per planet, in order |
| SrcSpace.ShipPoints | src/space.rs:34-37 | one `(x, y)` per ship, in order |
| SrcSpace.BulletPoints | src/space.rs:38-41 | one `(x, y)` per bullet, in order |
| SrcSpace.Space.constructor | src/space.rs:18-25 | an empty world of the given size |
| SrcSpace.Space.GetObjectsLocation | src/space.rs:28-43 | planets+ships+bullets entries: the planets' locations first, then the ships', then the bullets' |
| SrcSpace.Space.Update | src/space.rs:45-49 | the numbers of planets, ships and bullets never change; planets, then bullets, then ships move; credits come before respawns; `ok` is false only when a respawn would draw from an empty range |
| SrcSpace.Space.UpdatePlanets | src/space.rs:51-65 | every planet moves under the field of the pre-tick planets |
| SrcSpace.Space.UpdateBullets | src/space.rs:67-76 | every bullet moves under the planets' field and none is removed |
| SrcSpace.Space.UpdateShips | src/space.rs:78-111 | the ships are moved; all credits are applied before any respawn; each death entry respawns its ship once in the world |
| SrcSpace.Space.ApplyKillList | src/space.rs:96-100 | the ships become `ApplyKills(old ships, ids)` |
| SrcSpace.Space.ApplyDeathList | src/space.rs:101-110 | with entries and an empty world range nothing is respawned and `ok` is false; otherwise every entry respawns its ship in the world |
| SrcSpace.Space.RespawnAll | src/space.rs:102-110 | the ships become `ApplyRespawns(old ships, ids, locations)` for locations in the world |
| SrcSpace.Space.AddPlanet | src/space.rs:113-116 | always appends exactly one planet and returns true |
| SrcSpace.Space.AddShip | src/space.rs:118-122 | always appends exactly one ship and returns `Some(max id + 1)` |
| SrcSpace.Space.RemoveShip | src/space.rs:124-131 | returns true iff the id was live, and then cuts out exactly the first ship with it |
| SrcSpace.Space.MoveShip | src/space.rs:133-140 | returns true iff the id is live, and then changes only that ship's direction |
| SrcSpace.Space.Shoot | src/space.rs:142-149 | returns true iff the id is live, and then appends exactly that ship's shot |
| SrcSpace.FirstIdsAreOneAndTwo | src/space.rs:160-179 | the first ship gets id 1 and the second id 2 |
| SrcSpace.SecondRemoveFindsNothing | src/space.rs:181-200 | after removing a ship whose id was unique, a second remove finds nothing |
| UiCommand.EightBytesAreAnAngle | server/src/ui/command.rs:12 | eight bytes span exactly the `u64` range of an `f64` bit pattern |
| UiCommand.Decode | server/src/ui/command.rs:3-16 | the frame decoder, both ways:<br>• an index panic exactly for an empty frame, a tag 0/1 frame under 2 bytes, or a tag 2 frame under 3 bytes<br>• the 8-byte `unwrap` panic exactly for a set flag with other than 11 bytes<br>• tags 0/1: add/remove ship `frame[1]`<br>• tag 2: clear or set the direction<br>• any other tag: steer ship 1 to `None` |
| UiCommand.Encode | server/src/ui/command.rs:3-16 | a frame that carries the action's id in byte 1 |
| UiCommand.DecodeEncode | server/src/ui/command.rs:3-16 | decoding the encoding of any action gives back that action |
| UiCommand.DecodedAngleKeepsBytes | server/src/ui/command.rs:11-13 | the decoded angle re-encodes to exactly the 8 bytes of the frame |
| UiCommand.UnknownTagsSteerShipOne | server/src/ui/command.rs:15 | any tag above 2 means "steer ship 1 to `None`", whatever follows it |
| UiCommand.RunCommand | server/src/ui/command.rs:3-16 | applies the decoded action to the world:<br>• add at a location in `[0,1)^2`, remove, or steer<br>• a panicking frame changes nothing<br>• planets and bullets are never touched |
| CommunicationCommand.Decode | server/src/communication/command.rs:6-13 | exactly `[2]`, `[3]`, `[4]`, `[5]` mean add planet, add ship 1, remove ship 1 and shoot from ship 1 at angle 0; every other frame clears ship 1's direction |
| CommunicationCommand.LongFramesFallBack | server/src/communication/command.rs:7 | a frame of more than one byte always falls back, whatever its first byte |
| CommunicationCommand.MeaningfulFrames | server/src/communication/command.rs:7-12 | only the four one-byte frames `[2]`..`[5]` do not fall back |
| NetworkingConnection.Live | server/src/networking/connection.rs:53 | the `retain` keeps exactly the unfinished handles, unchanged |
| NetworkingConnection.FirstFree | server/src/networking/connection.rs:58 | `find` over a range: the smallest id in range that is not a key, and `None` iff all are keys |
| NetworkingConnection.FreeId | server/src/networking/connection.rs:58 | the smallest free id in `1..=max_players`, and `None` iff all are taken |
| NetworkingConnection.FreeIdAsWrittenMissesAtCap255 | server/src/networking/connection.rs:58 | with `max_players = 255` the written range is empty, so no id is found even with no players |
| NetworkingConnection.FreeIdAsWrittenAgreesBelow255 | server/src/networking/connection.rs:58 | below a cap of 255 the written range and the intended one agree |
| NetworkingConnection.Slots | server/src/networking/connection.rs:58 | the ids `1..=n` number exactly n |
| NetworkingConnection.FreeIdFound | server/src/networking/connection.rs:54-58 | with every key in `1..=max` and fewer than `max` keys, a free id always exists |
| NetworkingConnection.Registry.constructor | server/src/networking/connection.rs:25 | the connection map starts empty |
| NetworkingConnection.Registry.InitConnection | server/src/networking/connection.rs:48-59 | finished handles are dropped; at capacity the refusal is written and `None` returned; otherwise the smallest free id in `1..=max`, which is the id the written search finds whenever the cap is below 255; valid keys stay valid and a free id is then found |
| NetworkingConnection.Registry.Register | server/src/networking/connection.rs:37 | the handle is stored under the id |
| NetworkingConnection.RegisterFreeIdStaysValid | server/src/networking/connection.rs:37 | storing under the found id adds one fresh key and keeps every key in `1..=max` |
| NetworkingConnection.Latest | server/src/networking/connection.rs:63-66 | the newest snapshot: the last pending one, or the first if none are pending |
| NetworkingConnection.Coalesce | server/src/networking/connection.rs:63-66 | the drain loop ends holding the newest snapshot |
| NetworkingConnection.LengthPrefixed | server/src/networking/connection.rs:67-68 | a 4-byte prefix then the payload; the prefix decodes to the length modulo 2^32, and to the length itself below 2^32 |
| NetworkingConnection.ReadUntil | server/src/networking/connection.rs:73-78 | `read_until`: a prefix of the input ending at the first delimiter, or the whole input if it has none |
| NetworkingConnection.Tagged | server/src/networking/connection.rs:79 | the command followed by the one byte `id + 48` |
| NetworkingConnection.Session | server/src/networking/connection.rs:61-82 | at most one frame written and one command forwarded per round, one of each per round unless the loop stopped, one frame more than commands when it stopped, and every frame has a 4-byte prefix |
| NetworkingConnection.WrittenFramesAreSnapshots | server/src/networking/connection.rs:63-72 | the k-th frame written is the length-prefixed newest snapshot of round k |
| NetworkingConnection.SessionStopsOnFailure | server/src/networking/connection.rs:69-78 | of the rounds written, a command is forwarded from round k exactly when that round's write and read both succeeded |
| NetworkingConnection.HandleConnection | server/src/networking/connection.rs:61-82 | the loop produces exactly the session trace |
| NetworkingConnection.SessionStaysStopped | server/src/networking/connection.rs:69-78 | once a write or read failed, later rounds add nothing |
| NetworkingConnection.SentCommandsAreTagged | server/src/networking/connection.rs:73-80 | the k-th forwarded command is round k's input up to 0x04 followed by `id + 48` |
| CommunicationConnection.InitConnection | server/src/communication/connection.rs:74-85 | finished handles are dropped; at capacity the refusal is written, the stream shut down and no id allocated; otherwise the lowest free id in `1..=MAX_PLAYERS` |
| CommunicationConnection.Teardown | server/src/communication/connection.rs:108 | the two-byte frame `b'a'`, then `48 + id` |
| CommunicationConnection.Rounds | server/src/communication/connection.rs:88-107 | at most one frame and one command per round, one of each per round unless the loop stopped, one frame more than commands when it stopped; every written frame ends in `MSG_END`; the k-th forwarded command is round k's input up to `MSG_END`, tagged |
| CommunicationConnection.HandleConnection | server/src/communication/connection.rs:87-109 | the rounds' frames are written; the teardown frame follows the forwarded commands exactly when the loop broke on a failed write or read |
| CommunicationConnection.WrittenFramesAreSnapshots | server/src/communication/connection.rs:89-93 | the k-th frame written is round k's newest snapshot followed by `MSG_END` |
| CommunicationConnection.RoundsStopOnFailure | server/src/communication/connection.rs:94-104 | of the rounds written, a command is forwarded from round k exactly when that round's write and read both succeeded |
| CommunicationConnection.RoundsStayStopped | server/src/communication/connection.rs:94-104 | once a write or read failed, later rounds add nothing |
| CommunicationConnection.Tick | server/src/communication/connection.rs:24-28 | every pending command is applied in arrival order, then exactly one update |
| CommunicationConnection.ForwardedCommandsFallBack | server/src/communication/connection.rs:105 | a tagged command is never a one-byte command (except for ids 210 to 213), so it clears ship 1's direction |
| CommunicationConnection.TeardownFallsBack | server/src/communication/connection.rs:108 | the teardown frame also clears ship 1's direction |
| CommunicationConnection.SessionOnlySteersShipOne | server/src/communication/connection.rs:87-109 | every frame a session forwards, the teardown included when the loop broke, clears ship 1's direction when the game runs it |

## Left out

- **Concurrency and I/O.** These are absent from the model:
  - threads, mutexes, `mpsc` and `Bus` channels;
  - `thread::sleep`, the TCP listener and streams;
  - `handle_listen` and `run_state_send`.

  In their place:
  - a connection session is a sequence of rounds. Each round holds the
    snapshots received, whether the write succeeded, the input bytes and
    whether the read succeeded.
  - `is_finished` is a given predicate on handles.
  - one tick of `run_game` is the list of steps it performs.
- **`BufReader` read-ahead.** Each `read_until` is modelled on that
  round's own input.
- **Panics in the connection code** (`unwrap` on `recv`, `send` and
  `write_all`) are not modelled. A failed write or read ends the loop, as
  in the code.
- **Floating point.** Distances, `normalize`, `powf`, the inverse-square
  field and `from_angle` are uninterpreted (`Physics`). Coordinates are
  exact reals, so no rounding is modelled. `f64::sum` over the planets is
  a sum over reals in list order.
- **Randomness.** `rand::thread_rng` and `gen_range` become a choice of any
  point in the drawn range. `gen_range` panics on an empty range; that
  case becomes `ok == false` on `Update`, `UpdateShips` and
  `ApplyDeathList`. The check of that case is made before the first draw,
  whereas the code panics at the first draw after the kill credits are
  applied.
- **Serialisation and display.** These are absent:
  - `serde`/`bincode` encoding (`get_state`, `get_state_binary`, map
    loading);
  - SDL drawing (`draw_all`, `Drawable`);
  - the client, the `main.rs`/`lib.rs` bootstrap files and the
    integration test;
  - the `src/` `run_game` loop, which uses elapsed time.
- **Missing files.**
  - `server/src/constants.rs` does not define `MAX_PLAYERS`,
    `MAX_PLAYERS_MSG` or `MSG_END`, which the communication layer uses.
    They are parameters of `CommunicationConnection`.
  - `server/src/game/space.rs` is not part of this model.
    `CommunicationCommand.Decode` therefore yields the call that
    `run_command` would make on that world, instead of applying it.
- **Early-variant types.** The ship, planet, bullet, `Properties` and
  `ShipConfig` types that `src/space.rs` imports are not defined in
  `src/object.rs`. `SrcSpace` gives them minimal definitions:
  - the ship's kill and death counters are unbounded `nat`;
  - a bullet's velocity is the ship's velocity plus the shot.

  `SrcSpace.Ship.Shoot` states only the bullet's id, location, radius,
  mass and acceleration, because its velocity rests on that assumption.

  `src/space.rs:63`, `:74` and `:83` call a three-argument
  `update(time, &field, &size)` that `src/object.rs` does not define.
  `SrcSpace.Step` takes it to be `change_acceleration`, then the two-
  argument `Updatable::update`, then `bound`.
- **Integer width.** Overflow is modelled as in a release build (`id + 48`,
  `max id + 1`, `u32` scores wrap); a debug build would panic instead.
  `ServerSpace.NewIdWrapsOntoLiveId` shows the consequence for ids.
- **`LogicObject.Object.Update`:** the tick that `LogicSpace` runs ends in
  the corrected bound (`LogicObject.Object.Bound`), not the bound as
  written. The code's own tick is `LogicObject.Object.UpdateAsWritten`:
  it differs from `Update` only in the y velocity and y acceleration of a
  body that ends beyond exactly one of the top and right edges
  (`LogicObject.UpdateAsWrittenAgreesElsewhere`,
  `LogicObject.UpdateAsWrittenDiffersAtEdges`). `Update`'s own contract
  states only the bounds and the kept fields; `LogicObject.UnclampedStep`
  gives the exact integration step for bodies that stay inside.
- **The `DVec2::MAX` world in the tests of `server/src/space.rs`** is
  generalised to a `size` parameter, so `fit_in` can reject a body.
- **`LogicSpace.Space.AddPlanet`** follows the five-argument `Planet::new`
  that exists only in test builds (`#[cfg(test)]`).
- **`NetworkingConnection.Registry.InitConnection`** uses the corrected
  search over `1..=max_players`. At a cap of 255 the search as written
  finds no id in a release build and panics in a debug build. The method
  promises only the ids below that cap to agree with the written search;
  see the second finding.
- **`CommunicationConnection.InitConnection`** uses the corrected free-id
  search. The same written range `1..MAX_PLAYERS + 1` would miss every id
  at a cap of 255, as the first finding shows for the networking layer.

## Findings

| source | as written | input that shows it | evidently intended | confidence | as-written member | corrected member |
|---|---|---|---|---|---|---|
| server/src/logic/object.rs:72 | the y components of velocity and acceleration are zeroed when `y < 0 \|\| x > 1` | a body at (0.5, 2.0) with velocity (0, 1): its location is clamped to (0.5, 1.0) but it keeps its upward velocity; a body at (2.0, 0.5) loses its vertical velocity | `y < 0 \|\| y > 1`, mirroring the x test on the line before | not executed | LogicObject.Object.BoundAsWritten and LogicObject.Object.UpdateAsWritten (shown by LogicObject.BoundAsWrittenMissesTopEdge and LogicObject.UpdateAsWrittenDiffersAtEdges) | LogicObject.Object.Bound and LogicObject.Object.Update |
| server/src/networking/connection.rs:58 | the id search ranges over `1..max_players + 1` in `u8` | `max_players = 255`: `255 + 1` is 0 in a release build (a panic in a debug build), so the range is empty and no player can join even with no one connected | the inclusive range `1..=max_players` | not executed | NetworkingConnection.FreeIdAsWritten (shown by NetworkingConnection.FreeIdAsWrittenMissesAtCap255) | NetworkingConnection.FreeId (with NetworkingConnection.FreeIdFound) |
