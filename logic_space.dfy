/** server/src/logic/space.rs: the unit-square world. It holds planets,
    ships and bullets in vectors. A tick moves planets, then ships, then
    bullets. A ship touching any planet or bullet respawns, with no
    exemption for the shooter. A bullet survives only while it is strictly
    inside the square and clear of every planet. */
module LogicSpace {
  import opened Common
  import opened Geometry
  import opened LogicObject
  import opened LogicSpaceObject

  /** `get_ship_index`: the position of the first ship carrying `id`. */
  function ShipIndex(ships: seq<Ship>, id: u8): (r: Option<nat>)
    ensures r.Some? ==> r.value < |ships| && ships[r.value].id == id
    ensures r.Some? ==> forall j :: 0 <= j < r.value ==> ships[j].id != id
    ensures r.None? <==> forall j :: 0 <= j < |ships| ==> ships[j].id != id
  {
    if ships == [] then None
    else if ships[0].id == id then Some(0)
    else match ShipIndex(ships[1..], id)
      case None => None
      case Some(i) => Some(i + 1)
  }

  /** No two ships share an id. */
  predicate UniqueIds(ships: seq<Ship>)
  {
    forall i, j :: 0 <= i < j < |ships| ==> ships[i].id != ships[j].id
  }

  /** The pulls that `body` feels from `planets`, summed in order from zero
      (`.map(|other| body.get_field(other)).sum()`). */
  function FieldFrom(body: Object, planets: seq<Planet>, physics: Physics): Vec2
  {
    if planets == [] then Zero
    else Add(FieldFrom(body, planets[..|planets| - 1], physics),
             body.GetField(planets[|planets| - 1].body, physics))
  }

  /** The field total on every planet from all planets, itself included,
      before any of them moves. */
  function PlanetFields(planets: seq<Planet>, physics: Physics): (r: seq<Vec2>)
    ensures |r| == |planets|
  {
    seq(|planets|, i requires 0 <= i < |planets| => FieldFrom(planets[i].body, planets, physics))
  }

  /** What `update_planets` makes of `planets`: every field total is taken
      from the planets as they were before any of them moved. */
  function MovedPlanets(planets: seq<Planet>, time: real, physics: Physics): seq<Planet>
  {
    var fields := PlanetFields(planets, physics);
    seq(|planets|, i requires 0 <= i < |planets| => planets[i].Update(time, fields[i]))
  }

  function MovedShip(ship: Ship, planets: seq<Planet>, time: real, physics: Physics): Ship
  {
    ship.Update(time, FieldFrom(ship.body, planets, physics), physics)
  }

  function MovedBullets(bullets: seq<Bullet>, planets: seq<Planet>, time: real, physics: Physics): seq<Bullet>
  {
    seq(|bullets|, i requires 0 <= i < |bullets| =>
      bullets[i].Update(time, FieldFrom(bullets[i].body, planets, physics)))
  }

  /** The ship touches some planet or some bullet (its own included). */
  predicate Struck(ship: Ship, planets: seq<Planet>, bullets: seq<Bullet>)
  {
    (exists j :: 0 <= j < |planets| && ship.body.Collision(planets[j].body)) ||
    (exists j :: 0 <= j < |bullets| && ship.body.Collision(bullets[j].body))
  }

  /** The range `gen_new_location` draws from: `[0,1)` on each axis. */
  predicate InUnitRange(p: Vec2)
  {
    0.0 <= p.x < 1.0 && 0.0 <= p.y < 1.0
  }

  /** `after` is `before` respawned at a location `gen_new_location` can draw. */
  predicate RespawnOf(before: Ship, after: Ship)
  {
    InUnitRange(after.body.location) && after == before.Respawn(after.body.location)
  }

  /** One ship's part of `update_ships`: it integrates, and respawns if it
      then touches a planet or a bullet. */
  predicate ShipStep(before: Ship, after: Ship, planets: seq<Planet>, bullets: seq<Bullet>,
                     time: real, physics: Physics)
  {
    var moved := MovedShip(before, planets, time, physics);
    if Struck(moved, planets, bullets) then RespawnOf(moved, after) else after == moved
  }

  /** The `retain` test on bullets: strictly inside the square and clear of
      every planet. */
  predicate Survives(b: Bullet, planets: seq<Planet>)
  {
    b.body.InSpace() && forall j :: 0 <= j < |planets| ==> !b.body.Collision(planets[j].body)
  }

  /** The bullets that `retain` keeps, in their order. */
  function Survivors(bullets: seq<Bullet>, planets: seq<Planet>): (r: seq<Bullet>)
    ensures |r| <= |bullets|
    ensures forall b :: b in r <==> b in bullets && Survives(b, planets)
  {
    if bullets == [] then []
    else
      var last := bullets[|bullets| - 1];
      Survivors(bullets[..|bullets| - 1], planets) + (if Survives(last, planets) then [last] else [])
  }

  /** Filtering keeps the relative order: the survivors of a concatenation
      are the survivors of the first part followed by those of the second. */
  lemma {:induction false} SurvivorsAppend(a: seq<Bullet>, b: seq<Bullet>, planets: seq<Planet>)
    ensures Survivors(a + b, planets) == Survivors(a, planets) + Survivors(b, planets)
  {
    if b == [] {
      assert a + b == a;
    } else {
      var init := b[..|b| - 1];
      assert (a + b)[..|a + b| - 1] == a + init;
      assert (a + b)[|a + b| - 1] == b[|b| - 1];
      SurvivorsAppend(a, init, planets);
    }
  }

  /** `gen_new_location`: a point drawn from `[0,1)` on each axis. */
  method GenNewLocation() returns (p: Vec2)
    ensures InUnitRange(p)
  {
    assert InUnitRange(Zero);
    p :| InUnitRange(p);
  }

  /** What `add_ship` makes of `ships`: a new ship at the end unless one
      with `id` is already live. Distinct ids stay distinct. */
  function Added(ships: seq<Ship>, id: u8, location: Vec2, config: ShipConfig): (r: seq<Ship>)
    ensures ShipIndex(ships, id).Some? ==> r == ships
    ensures ShipIndex(ships, id).None? ==> r == ships + [Ship.New(id, location, config)]
    ensures UniqueIds(ships) ==> UniqueIds(r)
    ensures ShipIndex(r, id).Some?
  {
    if ShipIndex(ships, id).Some? then ships
    else
      var r := ships + [Ship.New(id, location, config)];
      assert r[|ships|].id == id;
      r
  }

  /** What `remove_ship` makes of `ships`: the first ship with `id` leaves
      and the others keep their order. */
  function Removed(ships: seq<Ship>, id: u8): (r: seq<Ship>)
    ensures ShipIndex(ships, id).None? ==> r == ships
    ensures ShipIndex(ships, id).Some? ==>
              var i := ShipIndex(ships, id).value; r == ships[..i] + ships[i + 1..]
    ensures UniqueIds(ships) ==>
              UniqueIds(r) && (forall s :: s in r ==> s.id != id) &&
              (forall s :: s in ships && s.id != id ==> s in r)
  {
    match ShipIndex(ships, id)
    case None => ships
    case Some(i) => RemoveKeepsOthers(ships, i); ships[..i] + ships[i + 1..]
  }

  /** What `move_ship` makes of `ships`: the first ship with `id` takes
      `direction`; every other field of every ship is kept. */
  function Steered(ships: seq<Ship>, id: u8, direction: Option<Angle>): (r: seq<Ship>)
    ensures |r| == |ships|
    ensures forall j :: 0 <= j < |r| ==>
              r[j].id == ships[j].id && r[j].body == ships[j].body && r[j].force == ships[j].force
    ensures forall j :: 0 <= j < |r| ==>
              r[j].direction == (if ShipIndex(ships, id) == Some(j) then direction else ships[j].direction)
  {
    match ShipIndex(ships, id)
    case None => ships
    case Some(i) => ships[i := ships[i].ChangeDirection(direction)]
  }

  /** Removing the ship at `i` from a list of distinct ids leaves a list of
      distinct ids without `ships[i].id`, holding every other ship. */
  lemma RemoveKeepsOthers(ships: seq<Ship>, i: nat)
    requires i < |ships|
    ensures var rest := ships[..i] + ships[i + 1..];
            UniqueIds(ships) ==>
            UniqueIds(rest) &&
            (forall s :: s in rest ==> s.id != ships[i].id) &&
            (forall s :: s in ships && s.id != ships[i].id ==> s in rest)
  {
    var rest := ships[..i] + ships[i + 1..];
    if UniqueIds(ships) {
      forall a, b | 0 <= a < b < |rest| ensures rest[a].id != rest[b].id {
        var a', b' := if a < i then a else a + 1, if b < i then b else b + 1;
        assert rest[a] == ships[a'] && rest[b] == ships[b'];
      }
      forall s | s in rest ensures s.id != ships[i].id {
        var k :| 0 <= k < |rest| && rest[k] == s;
        assert s == ships[if k < i then k else k + 1];
      }
    }
    forall s | s in ships && s.id != ships[i].id ensures s in rest {
      var k :| 0 <= k < |ships| && ships[k] == s;
      assert k != i;
      assert s == rest[if k < i then k else k - 1];
    }
  }

  /** With distinct ids, a second `remove_ship` of the same id is a no-op. */
  lemma RemoveTwice(ships: seq<Ship>, id: u8)
    requires UniqueIds(ships)
    ensures Removed(Removed(ships, id), id) == Removed(ships, id)
  {
    var r := Removed(ships, id);
    forall j | 0 <= j < |r| ensures r[j].id != id {
      assert r[j] in r;
    }
  }

  /** With distinct ids, the ship found for `id` is the only one carrying it. */
  lemma ShipIndexUnique(ships: seq<Ship>, id: u8, j: nat)
    requires UniqueIds(ships) && j < |ships| && ships[j].id == id
    ensures ShipIndex(ships, id) == Some(j)
  {
  }

  class Space {
    const shipConfig: ShipConfig
    const bulletConfig: BulletConfig
    var planets: seq<Planet>
    var ships: seq<Ship>
    var bullets: seq<Bullet>

    /** `Space::new` (test builds only): an empty world. */
    constructor (shipConfig: ShipConfig, bulletConfig: BulletConfig)
      ensures this.shipConfig == shipConfig && this.bulletConfig == bulletConfig
      ensures planets == [] && ships == [] && bullets == []
    {
      this.shipConfig := shipConfig;
      this.bulletConfig := bulletConfig;
      planets, ships, bullets := [], [], [];
    }

    /** `update`: planets, then ships, then bullets. Ships are tested
        against the planets as they have just moved and against the bullets
        as they were before this tick. */
    method Update(time: real, physics: Physics)
      modifies this
      ensures planets == MovedPlanets(old(planets), time, physics)
      ensures |ships| == |old(ships)|
      ensures forall i :: 0 <= i < |ships| ==>
                ShipStep(old(ships[i]), ships[i], planets, old(bullets), time, physics)
      ensures bullets == Survivors(MovedBullets(old(bullets), planets, time, physics), planets)
    {
      UpdatePlanets(time, physics);
      UpdateShips(time, physics);
      UpdateBullets(time, physics);
    }

    /** `add_ship`: a new ship unless one with `id` is already live. */
    method AddShip(id: u8, location: Vec2)
      modifies this
      ensures ships == Added(old(ships), id, location, shipConfig)
      ensures planets == old(planets) && bullets == old(bullets)
    {
      if forall j :: 0 <= j < |ships| ==> ships[j].id != id {
        ships := ships + [Ship.New(id, location, shipConfig)];
      }
    }

    /** `remove_ship`: the first ship with `id` leaves; no effect otherwise. */
    method RemoveShip(id: u8)
      modifies this
      ensures ships == Removed(old(ships), id)
      ensures planets == old(planets) && bullets == old(bullets)
    {
      var index := ShipIndex(ships, id);
      if index.Some? {
        ships := ships[..index.value] + ships[index.value + 1..];
      }
    }

    /** `move_ship`: only the steering of the ship with `id` changes. */
    method MoveShip(id: u8, direction: Option<Angle>)
      modifies this
      ensures ships == Steered(old(ships), id, direction)
      ensures planets == old(planets) && bullets == old(bullets)
    {
      var index := ShipIndex(ships, id);
      if index.Some? {
        ships := ships[index.value := ships[index.value].ChangeDirection(direction)];
      }
    }

    /** `shoot`: one new bullet from the ship with `id`, if there is one. */
    method Shoot(id: u8, direction: Angle, physics: Physics)
      modifies this
      ensures ShipIndex(old(ships), id).None? ==> bullets == old(bullets)
      ensures ShipIndex(old(ships), id).Some? ==>
                bullets == old(bullets) + [old(ships[ShipIndex(ships, id).value]).Shoot(direction, bulletConfig, physics)]
      ensures ships == old(ships) && planets == old(planets)
    {
      var index := ShipIndex(ships, id);
      if index.Some? {
        bullets := bullets + [ships[index.value].Shoot(direction, bulletConfig, physics)];
      }
    }

    /** `add_planet` (test builds only). */
    method AddPlanet(location: Vec2, mass: real, field: real, radius: real, velocity: Vec2)
      modifies this
      ensures planets == old(planets) + [Planet.New(location, mass, field, radius, velocity)]
      ensures ships == old(ships) && bullets == old(bullets)
    {
      planets := planets + [Planet.New(location, mass, field, radius, velocity)];
    }

    /** `update_planets`: all field totals first, then every planet moves. */
    method UpdatePlanets(time: real, physics: Physics)
      modifies this
      ensures planets == MovedPlanets(old(planets), time, physics)
      ensures ships == old(ships) && bullets == old(bullets)
    {
      var before := planets;
      var fields := PlanetFields(before, physics);
      var moved := before;
      var i := 0;
      while i < |moved|
        invariant 0 <= i <= |moved| == |before| == |fields|
        invariant forall j :: 0 <= j < i ==> moved[j] == before[j].Update(time, fields[j])
        invariant forall j :: i <= j < |moved| ==> moved[j] == before[j]
      {
        moved := moved[i := moved[i].Update(time, fields[i])];
        i := i + 1;
      }
      planets := moved;
    }

    /** `update_ships`: each ship integrates and respawns if it touches a
        planet or a bullet. */
    method UpdateShips(time: real, physics: Physics)
      modifies this
      ensures |ships| == |old(ships)|
      ensures forall i :: 0 <= i < |ships| ==>
                ShipStep(old(ships[i]), ships[i], planets, bullets, time, physics)
      ensures planets == old(planets) && bullets == old(bullets)
    {
      var before := ships;
      var moved := before;
      var i := 0;
      while i < |moved|
        invariant 0 <= i <= |moved| == |before|
        invariant forall j :: 0 <= j < i ==> ShipStep(before[j], moved[j], planets, bullets, time, physics)
        invariant unchanged(this)
        invariant forall j :: i <= j < |moved| ==> moved[j] == before[j]
      {
        var ship := MovedShip(moved[i], planets, time, physics);
        if Struck(ship, planets, bullets) {
          var location := GenNewLocation();
          ship := ship.Respawn(location);
        }
        moved := moved[i := ship];
        i := i + 1;
      }
      ships := moved;
    }

    /** `update_bullets`: every bullet integrates; then `retain` keeps the
        ones still strictly inside the square and clear of every planet. */
    method UpdateBullets(time: real, physics: Physics)
      modifies this
      ensures bullets == Survivors(MovedBullets(old(bullets), planets, time, physics), planets)
      ensures planets == old(planets) && ships == old(ships)
    {
      MoveBullets(time, physics);
      RetainSurvivors();
    }

    /** The integration loop of `update_bullets`. */
    method MoveBullets(time: real, physics: Physics)
      modifies this
      ensures bullets == MovedBullets(old(bullets), planets, time, physics)
      ensures planets == old(planets) && ships == old(ships)
    {
      var before := bullets;
      var moved := before;
      var i := 0;
      while i < |moved|
        invariant 0 <= i <= |moved| == |before|
        invariant forall j :: 0 <= j < i ==> moved[j] == before[j].Update(time, FieldFrom(before[j].body, planets, physics))
        invariant forall j :: i <= j < |moved| ==> moved[j] == before[j]
      {
        moved := moved[i := moved[i].Update(time, FieldFrom(moved[i].body, planets, physics))];
        i := i + 1;
      }
      bullets := moved;
    }

    /** The `retain` of `update_bullets`. */
    method RetainSurvivors()
      modifies this
      ensures bullets == Survivors(old(bullets), planets)
      ensures planets == old(planets) && ships == old(ships)
    {
      var all := bullets;
      var kept := [];
      var i := 0;
      while i < |all|
        invariant 0 <= i <= |all|
        invariant kept == Survivors(all[..i], planets)
      {
        assert all[..i + 1][..i] == all[..i];
        if Survives(all[i], planets) {
          kept := kept + [all[i]];
        }
        i := i + 1;
      }
      assert all[..i] == all;
      bullets := kept;
    }
  }
}
