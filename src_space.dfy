/** src/space.rs: the world of the first, single-process iteration. It
    builds on `Planet`, `Ship`, `Bullet`, `Properties` and `ShipConfig`
    from `crate::object`, which src/object.rs does not define; the minimal
    versions below keep only what the world relies on (ids, bodies,
    steering, kill and death counters). Unlike the later server, nothing
    is refused and no bullet is ever removed. */
module SrcSpace {
  import opened Common
  import opened Geometry
  import opened SrcObject

  /** The construction parameters of a body. */
  datatype Properties = Properties(location: Vec2, radius: real, mass: real, velocity: Vec2)
  {
    static const Default: Properties := Properties(Zero, 0.0, 0.0, Zero)

    function Body(): (o: Object)
      ensures o.location == location && o.radius == radius && o.mass == mass
      ensures o.velocity == velocity && o.acceleration == Zero
    {
      Object.New(location, radius, mass, velocity)
    }
  }

  /** What a ship gives the bullets it fires. */
  datatype ShipConfig = ShipConfig(bulletSpeed: real, bulletRadius: real, bulletMass: real)
  {
    static const Default: ShipConfig := ShipConfig(0.0, 0.0, 0.0)
  }

  /** The per-tick step of every entity: accelerate by the field, advance,
      then bound to the world. */
  function Step(o: Object, time: real, totalField: Vec2, size: Vec2): (r: Object)
    ensures r.location.x <= size.x && r.location.y <= size.y
    ensures r.radius == o.radius && r.mass == o.mass
  {
    o.ChangeAcceleration(totalField).Advance(time).Bound(size)
  }

  datatype Planet = Planet(body: Object)
  {
    static function New(properties: Properties): (p: Planet)
      ensures p.body == properties.Body()
    {
      Planet(properties.Body())
    }
  }

  datatype Bullet = Bullet(id: u8, body: Object)

  datatype Ship = Ship(id: u8, body: Object, direction: Option<Angle>, config: ShipConfig,
                       kills: nat, deaths: nat)
  {
    static function New(id: u8, properties: Properties, config: ShipConfig): (s: Ship)
      ensures s.id == id && s.body == properties.Body() && s.config == config
      ensures s.direction.None? && s.kills == 0 && s.deaths == 0
    {
      Ship(id, properties.Body(), None, config, 0, 0)
    }

    /** A bullet tagged with this ship's id, spawned where the ship is. */
    function Shoot(direction: Angle, physics: Physics): (b: Bullet)
      ensures b.id == id && b.body.location == body.location && b.body.acceleration == Zero
      ensures b.body.radius == config.bulletRadius && b.body.mass == config.bulletMass
    {
      Bullet(id, body.SpawnFrom(config.bulletRadius, config.bulletMass,
                                Add(body.velocity, Scale(physics.fromAngle(direction), config.bulletSpeed))))
    }

    function Kill(): (s: Ship)
      ensures s == this.(kills := kills + 1)
    {
      this.(kills := kills + 1)
    }

    function Respawn(location: Vec2): (s: Ship)
      ensures s.body.location == location && s.deaths == deaths + 1
      ensures s == this.(body := s.body, deaths := s.deaths)
      ensures s.body == body.(location := location)
    {
      this.(body := body.(location := location), deaths := deaths + 1)
    }

    function ChangeDirection(direction: Option<Angle>): (s: Ship)
      ensures s.direction == direction && s == this.(direction := direction)
    {
      this.(direction := direction)
    }
  }

  /** `get_ship_index`: the position of the first ship carrying `id`. */
  function ShipIndex(ships: seq<Ship>, id: u8): (r: Option<nat>)
    ensures r.Some? ==> r.value < |ships| && ships[r.value].id == id
    ensures r.Some? ==> forall j :: 0 <= j < r.value ==> ships[j].id != id
    ensures r.None? <==> forall j :: 0 <= j < |ships| ==> ships[j].id != id
  {
    if ships == [] then None
    else if ships[0].id == id then Some(0)
    else match ShipIndex(ships[1..], id)
      case None => None
      case Some(i) => Some(i + 1)
  }

  predicate SameIds(a: seq<Ship>, b: seq<Ship>)
  {
    |a| == |b| && forall j :: 0 <= j < |a| ==> a[j].id == b[j].id
  }

  /** Two lists of ships with the same ids at the same positions agree on
      every `get_ship_index`. */
  lemma SameIdsSameIndex(a: seq<Ship>, b: seq<Ship>, id: u8)
    requires SameIds(a, b)
    ensures ShipIndex(a, id) == ShipIndex(b, id)
  {
  }

  /** `.max().unwrap_or(0)` over the ship ids. */
  function MaxId(ships: seq<Ship>): (r: u8)
    ensures forall j :: 0 <= j < |ships| ==> ships[j].id <= r
    ensures ships == [] ==> r == 0
    ensures ships != [] ==> exists j :: 0 <= j < |ships| && ships[j].id == r
  {
    if ships == [] then 0
    else
      var rest := MaxId(ships[1..]);
      if ships[0].id >= rest then ships[0].id
      else
        assert ships[1..] != [];
        rest
  }

  /** The id `add_ship` hands out: one more than the largest, wrapping to 0
      after 255 as a release build does. */
  function NewId(ships: seq<Ship>): (r: u8)
    ensures MaxId(ships) < 255 ==> r == MaxId(ships) + 1 && ShipIndex(ships, r).None?
    ensures MaxId(ships) == 255 ==> r == 0
  {
    WrappingAdd(MaxId(ships), 1)
  }

  /** The pulls that `body` feels from `planets`, summed in order. */
  function FieldFrom(body: Object, planets: seq<Planet>, physics: Physics): Vec2
  {
    if planets == [] then Zero
    else Add(FieldFrom(body, planets[..|planets| - 1], physics),
             body.GetField(planets[|planets| - 1].body, physics))
  }

  /** A planet's pull on itself is zero, so the sum over all planets in
      `update_planets` adds nothing for the planet itself. */
  lemma SelfPullIsZero(p: Planet, physics: Physics)
    ensures p.body.GetField(p.body, physics) == Zero
  {
  }

  /** The field total on every planet from all planets, itself included,
      before any of them moves. */
  function PlanetFields(planets: seq<Planet>, physics: Physics): (r: seq<Vec2>)
    ensures |r| == |planets|
  {
    seq(|planets|, i requires 0 <= i < |planets| => FieldFrom(planets[i].body, planets, physics))
  }

  function MovedPlanets(planets: seq<Planet>, time: real, size: Vec2, physics: Physics): (r: seq<Planet>)
    ensures |r| == |planets|
  {
    var fields := PlanetFields(planets, physics);
    seq(|planets|, i requires 0 <= i < |planets| => Planet(Step(planets[i].body, time, fields[i], size)))
  }

  function MovedBullets(bullets: seq<Bullet>, planets: seq<Planet>, time: real, size: Vec2,
                        physics: Physics): (r: seq<Bullet>)
    ensures |r| == |bullets| && forall j :: 0 <= j < |r| ==> r[j].id == bullets[j].id
  {
    seq(|bullets|, i requires 0 <= i < |bullets| =>
      Bullet(bullets[i].id, Step(bullets[i].body, time, FieldFrom(bullets[i].body, planets, physics), size)))
  }

  function MovedShip(ship: Ship, planets: seq<Planet>, time: real, size: Vec2, physics: Physics): (s: Ship)
    ensures s == ship.(body := s.body)
  {
    ship.(body := Step(ship.body, time, FieldFrom(ship.body, planets, physics), size))
  }

  function MovedShips(ships: seq<Ship>, planets: seq<Planet>, time: real, size: Vec2,
                      physics: Physics): (r: seq<Ship>)
    ensures SameIds(ships, r)
  {
    seq(|ships|, i requires 0 <= i < |ships| => MovedShip(ships[i], planets, time, size, physics))
  }

  /** A bullet that hits `ship`: someone else's, touching it. */
  predicate HitBy(ship: Ship, b: Bullet)
  {
    ship.id != b.id && ship.body.Collision(b.body)
  }

  /** The owners of the bullets that hit `ship`, in bullet order. */
  function Hits(ship: Ship, bullets: seq<Bullet>): (r: seq<u8>)
    ensures |r| <= |bullets|
  {
    if bullets == [] then []
    else Hits(ship, bullets[..|bullets| - 1]) + (if HitBy(ship, bullets[|bullets| - 1]) then [bullets[|bullets| - 1].id] else [])
  }

  /** Exactly the owners of the bullets that hit `ship` get a kill entry. */
  lemma {:induction false} HitsAreOwnersOfHits(ship: Ship, bullets: seq<Bullet>, id: u8)
    ensures id in Hits(ship, bullets) <==> exists j :: 0 <= j < |bullets| && HitBy(ship, bullets[j]) && bullets[j].id == id
  {
    if bullets != [] {
      var init := bullets[..|bullets| - 1];
      HitsAreOwnersOfHits(ship, init, id);
      assert forall j :: 0 <= j < |init| ==> init[j] == bullets[j];
    }
  }

  predicate OnPlanet(ship: Ship, planets: seq<Planet>)
  {
    exists j :: 0 <= j < |planets| && ship.body.Collision(planets[j].body)
  }

  /** The death entries one ship adds, in the order the sweep pushes them:
      one for a planet it touches, then one for every bullet that hits it. */
  function DeathsOf(ship: Ship, planets: seq<Planet>, bullets: seq<Bullet>): (r: seq<u8>)
    ensures |r| == (if OnPlanet(ship, planets) then 1 else 0) + |Hits(ship, bullets)|
  {
    if bullets == [] then (if OnPlanet(ship, planets) then [ship.id] else [])
    else DeathsOf(ship, planets, bullets[..|bullets| - 1]) + (if HitBy(ship, bullets[|bullets| - 1]) then [ship.id] else [])
  }

  /** Every death entry of a ship names that ship. */
  lemma {:induction false} DeathsOfNameTheShip(ship: Ship, planets: seq<Planet>, bullets: seq<Bullet>)
    ensures forall k :: 0 <= k < |DeathsOf(ship, planets, bullets)| ==> DeathsOf(ship, planets, bullets)[k] == ship.id
  {
    if bullets != [] {
      DeathsOfNameTheShip(ship, planets, bullets[..|bullets| - 1]);
    }
  }

  /** The kill and death entries for one ship over one more bullet. */
  lemma CasualtiesStep(ship: Ship, planets: seq<Planet>, bullets: seq<Bullet>, j: nat)
    requires j < |bullets|
    ensures Hits(ship, bullets[..j + 1]) ==
            Hits(ship, bullets[..j]) + (if HitBy(ship, bullets[j]) then [bullets[j].id] else [])
    ensures DeathsOf(ship, planets, bullets[..j + 1]) ==
            DeathsOf(ship, planets, bullets[..j]) + (if HitBy(ship, bullets[j]) then [ship.id] else [])
  {
    assert bullets[..j + 1][..j] == bullets[..j];
  }

  /** `kill_ids` after the sweep over (moved) `ships`. */
  function KillIds(ships: seq<Ship>, bullets: seq<Bullet>): seq<u8>
  {
    if ships == [] then []
    else KillIds(ships[..|ships| - 1], bullets) + Hits(ships[|ships| - 1], bullets)
  }

  /** `death_ids` after the sweep over (moved) `ships`: every entry names
      one of them. */
  function DeathIds(ships: seq<Ship>, planets: seq<Planet>, bullets: seq<Bullet>): seq<u8>
  {
    if ships == [] then []
    else DeathIds(ships[..|ships| - 1], planets, bullets) + DeathsOf(ships[|ships| - 1], planets, bullets)
  }

  /** The kill and death entries of the sweep over one more ship. */
  lemma SweepStep(ships: seq<Ship>, ship: Ship, planets: seq<Planet>, bullets: seq<Bullet>)
    ensures KillIds(ships + [ship], bullets) == KillIds(ships, bullets) + Hits(ship, bullets)
    ensures DeathIds(ships + [ship], planets, bullets) == DeathIds(ships, planets, bullets) + DeathsOf(ship, planets, bullets)
  {
    assert (ships + [ship])[..|ships|] == ships;
  }

  /** Every death entry names one of the swept ships. */
  lemma {:induction false} DeathIdsNameLiveShips(ships: seq<Ship>, planets: seq<Planet>, bullets: seq<Bullet>)
    ensures forall k :: 0 <= k < |DeathIds(ships, planets, bullets)| ==> ShipIndex(ships, DeathIds(ships, planets, bullets)[k]).Some?
  {
    if ships != [] {
      var init, last := ships[..|ships| - 1], ships[|ships| - 1];
      var rest, own := DeathIds(init, planets, bullets), DeathsOf(last, planets, bullets);
      DeathIdsNameLiveShips(init, planets, bullets);
      DeathsOfNameTheShip(last, planets, bullets);
      forall k | 0 <= k < |rest| ensures ShipIndex(ships, rest[k]).Some? {
        var i := ShipIndex(init, rest[k]).value;
        assert ships[i] == init[i];
      }
      forall k | 0 <= k < |own| ensures ShipIndex(ships, own[k]).Some? {
        assert ships[|ships| - 1].id == own[k];
      }
    }
  }

  /** One kill credit: the first ship with `id` scores, if there is one. */
  function KillOne(ships: seq<Ship>, id: u8): (r: seq<Ship>)
    ensures SameIds(ships, r)
  {
    match ShipIndex(ships, id)
    case None => ships
    case Some(i) => ships[i := ships[i].Kill()]
  }

  /** The loop over `kill_ids`. */
  function ApplyKills(ships: seq<Ship>, ids: seq<u8>): (r: seq<Ship>)
    ensures SameIds(ships, r)
  {
    if ids == [] then ships else KillOne(ApplyKills(ships, ids[..|ids| - 1]), ids[|ids| - 1])
  }

  /** One respawn: the first ship with `id` dies and moves to `location`. */
  function RespawnOne(ships: seq<Ship>, id: u8, location: Vec2): (r: seq<Ship>)
    ensures SameIds(ships, r)
  {
    match ShipIndex(ships, id)
    case None => ships
    case Some(i) => ships[i := ships[i].Respawn(location)]
  }

  /** The loop over `death_ids`, the k-th entry using the k-th drawn location. */
  function ApplyRespawns(ships: seq<Ship>, ids: seq<u8>, locations: seq<Vec2>): (r: seq<Ship>)
    requires |locations| == |ids|
    ensures SameIds(ships, r)
  {
    if ids == [] then ships
    else RespawnOne(ApplyRespawns(ships, ids[..|ids| - 1], locations[..|ids| - 1]),
                    ids[|ids| - 1], locations[|ids| - 1])
  }

  /** `gen_range(0. ..size[0])` and `gen_range(0. ..size[1])`. */
  predicate InWorld(p: Vec2, size: Vec2)
  {
    0.0 <= p.x < size.x && 0.0 <= p.y < size.y
  }

  /** Applying the kill list credits the first ship carrying each id once
      per occurrence of that id, and leaves every other ship as it was;
      ids naming no ship credit nobody. */
  lemma {:induction false} KillCredits(ships: seq<Ship>, ids: seq<u8>, j: nat)
    requires j < |ships|
    ensures ApplyKills(ships, ids)[j] ==
            if ShipIndex(ships, ships[j].id) == Some(j) then ships[j].(kills := ships[j].kills + multiset(ids)[ships[j].id])
            else ships[j]
  {
    if ids != [] {
      var init, last := ids[..|ids| - 1], ids[|ids| - 1];
      CountLast(ids, ships[j].id);
      KillCredits(ships, init, j);
      var mid := ApplyKills(ships, init);
      assert ApplyKills(ships, ids) == KillOne(mid, last);
      SameIdsSameIndex(ships, mid, last);
      KillOneAt(mid, last, j);
      if ShipIndex(ships, last) != Some(j) && ShipIndex(ships, ships[j].id) == Some(j) {
        assert last != ships[j].id;
      }
    }
  }

  /** Applying the death list charges the first ship carrying each id one
      death per occurrence of that id, moves it only, and leaves every
      other ship as it was. */
  lemma {:induction false} RespawnCredits(ships: seq<Ship>, ids: seq<u8>, locations: seq<Vec2>, j: nat)
    requires |locations| == |ids| && j < |ships|
    ensures var r := ApplyRespawns(ships, ids, locations)[j];
            if ShipIndex(ships, ships[j].id) == Some(j) then
              r == ships[j].(body := r.body, deaths := ships[j].deaths + multiset(ids)[ships[j].id]) &&
              r.body == ships[j].body.(location := r.body.location)
            else r == ships[j]
  {
    if ids != [] {
      var n := |ids| - 1;
      var init, last, location := ids[..n], ids[n], locations[n];
      CountLast(ids, ships[j].id);
      RespawnCredits(ships, init, locations[..n], j);
      var mid := ApplyRespawns(ships, init, locations[..n]);
      assert ApplyRespawns(ships, ids, locations) == RespawnOne(mid, last, location);
      SameIdsSameIndex(ships, mid, last);
      RespawnOneAt(mid, last, location, j);
      if ShipIndex(ships, last) != Some(j) && ShipIndex(ships, ships[j].id) == Some(j) {
        assert last != ships[j].id;
      }
    }
  }

  /** One kill credit at position `j`: the ship there scores iff it is the
      first carrying `id`. */
  lemma KillOneAt(ships: seq<Ship>, id: u8, j: nat)
    requires j < |ships|
    ensures KillOne(ships, id)[j] == if ShipIndex(ships, id) == Some(j) then ships[j].Kill() else ships[j]
  {
  }

  /** One respawn at position `j`: the ship there dies iff it is the first
      carrying `id`. */
  lemma RespawnOneAt(ships: seq<Ship>, id: u8, location: Vec2, j: nat)
    requires j < |ships|
    ensures RespawnOne(ships, id, location)[j] ==
            if ShipIndex(ships, id) == Some(j) then ships[j].Respawn(location) else ships[j]
  {
  }

  /** The death list one entry further: the next entry names the same
      ship as before the earlier respawns, and that ship respawns at the
      next drawn location. */
  lemma RespawnsStep(start: seq<Ship>, ids: seq<u8>, locations: seq<Vec2>, ships: seq<Ship>, location: Vec2)
    requires |locations| < |ids| && ships == ApplyRespawns(start, ids[..|locations|], locations)
    requires ShipIndex(start, ids[|locations|]).Some?
    ensures ShipIndex(ships, ids[|locations|]) == ShipIndex(start, ids[|locations|])
    ensures var i := ShipIndex(start, ids[|locations|]).value;
            ApplyRespawns(start, ids[..|locations| + 1], locations + [location]) == ships[i := ships[i].Respawn(location)]
  {
    var k := |locations|;
    SameIdsSameIndex(start, ships, ids[k]);
    assert ids[..k + 1][..k] == ids[..k];
    assert (locations + [location])[..k] == locations;
    assert ApplyRespawns(start, ids[..k + 1], locations + [location]) == RespawnOne(ships, ids[k], location);
  }

  /** Every location a respawn uses was drawn, so when every draw lies in
      the world, every ship is where it was or somewhere in the world. */
  lemma {:induction false} RespawnsLandInWorld(ships: seq<Ship>, ids: seq<u8>, locations: seq<Vec2>,
                                               size: Vec2, j: nat)
    requires |locations| == |ids| && j < |ships|
    requires forall k :: 0 <= k < |locations| ==> InWorld(locations[k], size)
    ensures var l := ApplyRespawns(ships, ids, locations)[j].body.location;
            l == ships[j].body.location || InWorld(l, size)
  {
    if ids != [] {
      var n := |ids| - 1;
      RespawnsLandInWorld(ships, ids[..n], locations[..n], size, j);
    }
  }

  /** The first loop of `update_ships`: every ship moves, and the sweep
      collects the kill and death entries of the moved ships in order. */
  method Sweep(ships: seq<Ship>, planets: seq<Planet>, bullets: seq<Bullet>, time: real, size: Vec2, physics: Physics)
    returns (moved: seq<Ship>, killIds: seq<u8>, deathIds: seq<u8>)
    ensures moved == MovedShips(ships, planets, time, size, physics)
    ensures killIds == KillIds(moved, bullets) && deathIds == DeathIds(moved, planets, bullets)
  {
    moved, killIds, deathIds := [], [], [];
    var i := 0;
    while i < |ships|
      invariant 0 <= i <= |ships| && |moved| == i
      invariant forall j :: 0 <= j < i ==> moved[j] == MovedShip(ships[j], planets, time, size, physics)
      invariant killIds == KillIds(moved, bullets) && deathIds == DeathIds(moved, planets, bullets)
    {
      var ship := MovedShip(ships[i], planets, time, size, physics);
      var hits, own := Casualties(ship, planets, bullets);
      SweepStep(moved, ship, planets, bullets);
      moved := moved + [ship];
      killIds := killIds + hits;
      deathIds := deathIds + own;
      i := i + 1;
    }
  }

  /** The body of the sweep for one moved ship: a death entry for a
      planet it touches, and a death and a kill entry for every bullet of
      another ship that it touches. */
  method Casualties(ship: Ship, planets: seq<Planet>, bullets: seq<Bullet>) returns (hits: seq<u8>, own: seq<u8>)
    ensures hits == Hits(ship, bullets) && own == DeathsOf(ship, planets, bullets)
  {
    own := if OnPlanet(ship, planets) then [ship.id] else [];
    hits := [];
    var j := 0;
    while j < |bullets|
      invariant 0 <= j <= |bullets|
      invariant hits == Hits(ship, bullets[..j]) && own == DeathsOf(ship, planets, bullets[..j])
    {
      CasualtiesStep(ship, planets, bullets, j);
      if HitBy(ship, bullets[j]) {
        own := own + [ship.id];
        hits := hits + [bullets[j].id];
      }
      j := j + 1;
    }
    assert bullets[..j] == bullets;
  }

  /** The two `gen_range` draws of a respawn: a point of `[0,size)`. The
      range is empty, and the draw panics, unless both sides are positive. */
  method GenLocation(size: Vec2) returns (p: Vec2)
    requires 0.0 < size.x && 0.0 < size.y
    ensures InWorld(p, size)
  {
    assert InWorld(Zero, size);
    p :| InWorld(p, size);
  }

  /** The loop over `death_ids` on the ship list: each entry draws a
      location and respawns the first ship with that id there. */
  method RespawnShips(start: seq<Ship>, ids: seq<u8>, size: Vec2) returns (ships: seq<Ship>, ghost drawn: seq<Vec2>)
    requires ids == [] || (0.0 < size.x && 0.0 < size.y)
    requires forall k :: 0 <= k < |ids| ==> ShipIndex(start, ids[k]).Some?
    ensures |drawn| == |ids| && forall k :: 0 <= k < |drawn| ==> InWorld(drawn[k], size)
    ensures ships == ApplyRespawns(start, ids, drawn)
  {
    ships, drawn := start, [];
    var k := 0;
    while k < |ids|
      invariant 0 <= k <= |ids| && |drawn| == k
      invariant forall m :: 0 <= m < k ==> InWorld(drawn[m], size)
      invariant ships == ApplyRespawns(start, ids[..k], drawn)
    {
      var index := ShipIndex(ships, ids[k]);
      var location := GenLocation(size);
      RespawnsStep(start, ids, drawn, ships, location);
      ships := ships[index.value := ships[index.value].Respawn(location)];
      drawn := drawn + [location];
      k := k + 1;
    }
    assert ids[..k] == ids;
  }

  /** The entries `get_objects_location` returns for each kind of entity. */
  function PlanetPoints(planets: seq<Planet>): (r: seq<(real, real)>)
    ensures |r| == |planets|
    ensures forall k :: 0 <= k < |r| ==> r[k] == (planets[k].body.location.x, planets[k].body.location.y)
  {
    seq(|planets|, k requires 0 <= k < |planets| => (planets[k].body.location.x, planets[k].body.location.y))
  }

  function ShipPoints(ships: seq<Ship>): (r: seq<(real, real)>)
    ensures |r| == |ships|
    ensures forall k :: 0 <= k < |r| ==> r[k] == (ships[k].body.location.x, ships[k].body.location.y)
  {
    seq(|ships|, k requires 0 <= k < |ships| => (ships[k].body.location.x, ships[k].body.location.y))
  }

  function BulletPoints(bullets: seq<Bullet>): (r: seq<(real, real)>)
    ensures |r| == |bullets|
    ensures forall k :: 0 <= k < |r| ==> r[k] == (bullets[k].body.location.x, bullets[k].body.location.y)
  {
    seq(|bullets|, k requires 0 <= k < |bullets| => (bullets[k].body.location.x, bullets[k].body.location.y))
  }

  class Space {
    const size: Vec2
    var planets: seq<Planet>
    var ships: seq<Ship>
    var bullets: seq<Bullet>

    /** `Space::new`: an empty world of the given size. */
    constructor (size: Vec2)
        ensures this.size == size && planets == [] && ships == [] && bullets == []
    {
      this.size := size;
      planets, ships, bullets := [], [], [];
    }

    /** `get_objects_location`: planets first, then ships, then bullets,
        each in its own order. */
    method GetObjectsLocation() returns (locations: seq<(real, real)>)
      ensures |locations| == |planets| + |ships| + |bullets|
      ensures forall k :: 0 <= k < |planets| ==>
                locations[k] == (planets[k].body.location.x, planets[k].body.location.y)
      ensures forall k :: 0 <= k < |ships| ==>
                locations[|planets| + k] == (ships[k].body.location.x, ships[k].body.location.y)
      ensures forall k :: 0 <= k < |bullets| ==>
                locations[|planets| + |ships| + k] == (bullets[k].body.location.x, bullets[k].body.location.y)
    {
      locations := [];
      var i := 0;
      while i < |planets|
        invariant 0 <= i <= |planets| && locations == PlanetPoints(planets[..i])
      {
        locations := locations + [(planets[i].body.location.x, planets[i].body.location.y)];
        i := i + 1;
      }
      assert planets[..i] == planets;
      i := 0;
      while i < |ships|
        invariant 0 <= i <= |ships| && locations == PlanetPoints(planets) + ShipPoints(ships[..i])
      {
        locations := locations + [(ships[i].body.location.x, ships[i].body.location.y)];
        i := i + 1;
      }
      assert ships[..i] == ships;
      i := 0;
      while i < |bullets|
        invariant 0 <= i <= |bullets|
        invariant locations == PlanetPoints(planets) + ShipPoints(ships) + BulletPoints(bullets[..i])
      {
        locations := locations + [(bullets[i].body.location.x, bullets[i].body.location.y)];
        i := i + 1;
      }
      assert bullets[..i] == bullets;
    }

    /** `update`: planets, then bullets, then ships; no entity is added or
        removed. Ships are swept against the bullets as they are after this
        tick. `ok` is false when a respawn draws from an empty range and
        panics. */
    method Update(time: real, physics: Physics) returns (ok: bool)
      modifies this
      ensures |planets| == |old(planets)| && |ships| == |old(ships)| && |bullets| == |old(bullets)|
      ensures planets == MovedPlanets(old(planets), time, size, physics)
      ensures bullets == MovedBullets(old(bullets), planets, time, size, physics)
      ensures var moved := MovedShips(old(ships), planets, time, size, physics);
              var deaths := DeathIds(moved, planets, bullets);
              var credited := ApplyKills(moved, KillIds(moved, bullets));
              (ok <==> deaths == [] || (0.0 < size.x && 0.0 < size.y)) &&
              (ok ==> exists locations :: |locations| == |deaths| &&
                        (forall k :: 0 <= k < |locations| ==> InWorld(locations[k], size)) &&
                        ships == ApplyRespawns(credited, deaths, locations)) &&
              (!ok ==> ships == credited)
    {
      UpdatePlanets(time, physics);
      UpdateBullets(time, physics);
      ok := UpdateShips(time, physics);
    }

    /** `update_planets`: all field totals first, then every planet moves. */
    method UpdatePlanets(time: real, physics: Physics)
      modifies this
      ensures planets == MovedPlanets(old(planets), time, size, physics)
      ensures ships == old(ships) && bullets == old(bullets)
    {
      var before := planets;
      var fields := PlanetFields(before, physics);
      var moved := before;
      var i := 0;
      while i < |moved|
        invariant 0 <= i <= |moved| == |before| == |fields|
        invariant forall j :: 0 <= j < i ==> moved[j] == Planet(Step(before[j].body, time, fields[j], size))
        invariant forall j :: i <= j < |moved| ==> moved[j] == before[j]
      {
        moved := moved[i := Planet(Step(moved[i].body, time, fields[i], size))];
        i := i + 1;
      }
      planets := moved;
    }

    /** `update_bullets`: every bullet moves; none is removed. */
    method UpdateBullets(time: real, physics: Physics)
      modifies this
      ensures bullets == MovedBullets(old(bullets), planets, time, size, physics)
      ensures planets == old(planets) && ships == old(ships)
    {
      var before := bullets;
      var moved := before;
      var i := 0;
      while i < |moved|
        invariant 0 <= i <= |moved| == |before|
        invariant forall j :: 0 <= j < i ==>
                    moved[j] == Bullet(before[j].id, Step(before[j].body, time, FieldFrom(before[j].body, planets, physics), size))
        invariant forall j :: i <= j < |moved| ==> moved[j] == before[j]
      {
        var b := moved[i];
        moved := moved[i := Bullet(b.id, Step(b.body, time, FieldFrom(b.body, planets, physics), size))];
        i := i + 1;
      }
      bullets := moved;
    }

    /** `update_ships`: the sweep that moves every ship and lists kills and
        deaths, then the kill credits, then the respawns. */
    method UpdateShips(time: real, physics: Physics) returns (ok: bool)
      modifies this
      ensures var moved := MovedShips(old(ships), planets, time, size, physics);
              var deaths := DeathIds(moved, planets, bullets);
              var credited := ApplyKills(moved, KillIds(moved, bullets));
              (ok <==> deaths == [] || (0.0 < size.x && 0.0 < size.y)) &&
              (ok ==> exists locations :: |locations| == |deaths| &&
                        (forall k :: 0 <= k < |locations| ==> InWorld(locations[k], size)) &&
                        ships == ApplyRespawns(credited, deaths, locations)) &&
              (!ok ==> ships == credited)
      ensures planets == old(planets) && bullets == old(bullets)
    {
      var moved, killIds, deathIds := Sweep(ships, planets, bullets, time, size, physics);
      ships := moved;
      DeathIdsNameLiveShips(ships, planets, bullets);
      ApplyKillList(killIds);
      ok := ApplyDeathList(deathIds);
    }

    /** The loop over `kill_ids`: credits naming no live ship are skipped. */
    method ApplyKillList(ids: seq<u8>)
      modifies this
      ensures ships == ApplyKills(old(ships), ids)
      ensures planets == old(planets) && bullets == old(bullets)
    {
      var before := ships;
      var credited := before;
      var k := 0;
      while k < |ids|
        invariant 0 <= k <= |ids|
        invariant credited == ApplyKills(before, ids[..k])
      {
        assert ids[..k + 1][..k] == ids[..k];
        assert ApplyKills(before, ids[..k + 1]) == KillOne(credited, ids[k]);
        var index := ShipIndex(credited, ids[k]);
        if index.Some? {
          credited := credited[index.value := credited[index.value].Kill()];
        }
        k := k + 1;
      }
      assert ids[..k] == ids;
      ships := credited;
    }

    /** The loop over `death_ids`: each entry naming a live ship respawns it
        at a location drawn from `[0,size)`. Every entry names a live ship,
        so when that range is empty the very first draw panics (`ok` false)
        before anything has respawned. */
    method ApplyDeathList(ids: seq<u8>) returns (ok: bool)
      modifies this
      requires forall k :: 0 <= k < |ids| ==> ShipIndex(ships, ids[k]).Some?
      ensures ok <==> ids == [] || (0.0 < size.x && 0.0 < size.y)
      ensures ok ==> exists locations :: |locations| == |ids| &&
                       (forall k :: 0 <= k < |locations| ==> InWorld(locations[k], size)) &&
                       ships == ApplyRespawns(old(ships), ids, locations)
      ensures !ok ==> ships == old(ships)
      ensures planets == old(planets) && bullets == old(bullets)
    {
      if ids != [] && !(0.0 < size.x && 0.0 < size.y) {
        return false;
      }
      RespawnAll(ids);
      ok := true;
    }

    /** The draws and respawns of the loop over `death_ids`, in order. */
    method RespawnAll(ids: seq<u8>)
      modifies this
      requires ids == [] || (0.0 < size.x && 0.0 < size.y)
      requires forall k :: 0 <= k < |ids| ==> ShipIndex(ships, ids[k]).Some?
      ensures exists locations :: |locations| == |ids| &&
                (forall k :: 0 <= k < |locations| ==> InWorld(locations[k], size)) &&
                ships == ApplyRespawns(old(ships), ids, locations)
      ensures planets == old(planets) && bullets == old(bullets)
    {
      var respawned, drawn := RespawnShips(ships, ids, size);
      ships := respawned;
    }

    /** `add_planet`: the planet always joins. */
    method AddPlanet(properties: Properties) returns (added: bool)
      modifies this
      ensures added && planets == old(planets) + [Planet.New(properties)]
      ensures ships == old(ships) && bullets == old(bullets)
    {
      planets := planets + [Planet.New(properties)];
      added := true;
    }

    /** `add_ship`: a ship with id `max + 1` always joins, and that id is
        returned. */
    method AddShip(properties: Properties, config: ShipConfig) returns (id: Option<u8>)
      modifies this
      ensures id == Some(NewId(old(ships)))
      ensures ships == old(ships) + [Ship.New(id.value, properties, config)]
      ensures planets == old(planets) && bullets == old(bullets)
    {
      var newId := WrappingAdd(MaxId(ships), 1);
      ships := ships + [Ship.New(newId, properties, config)];
      id := Some(newId);
    }

    /** `remove_ship`: true iff a ship with `id` was there; the first one leaves. */
    method RemoveShip(id: u8) returns (removed: bool)
      modifies this
      ensures removed <==> ShipIndex(old(ships), id).Some?
      ensures removed ==> var i := ShipIndex(old(ships), id).value;
                          ships == old(ships[..i] + ships[i + 1..])
      ensures !removed ==> ships == old(ships)
      ensures planets == old(planets) && bullets == old(bullets)
    {
      var index := ShipIndex(ships, id);
      if index.Some? {
        ships := ships[..index.value] + ships[index.value + 1..];
        removed := true;
      } else {
        removed := false;
      }
    }

    /** `move_ship`: true iff a ship with `id` was there; only its steering changes. */
    method MoveShip(id: u8, direction: Option<Angle>) returns (moved: bool)
      modifies this
      ensures moved <==> ShipIndex(old(ships), id).Some?
      ensures moved ==> var i := ShipIndex(old(ships), id).value;
                        ships == old(ships)[i := old(ships[i]).ChangeDirection(direction)]
      ensures !moved ==> ships == old(ships)
      ensures planets == old(planets) && bullets == old(bullets)
    {
      var index := ShipIndex(ships, id);
      if index.Some? {
        ships := ships[index.value := ships[index.value].ChangeDirection(direction)];
        moved := true;
      } else {
        moved := false;
      }
    }

    /** `shoot`: true iff a ship with `id` was there; it fires one bullet. */
    method Shoot(id: u8, direction: Angle, physics: Physics) returns (shot: bool)
      modifies this
      ensures shot <==> ShipIndex(old(ships), id).Some?
      ensures shot ==> bullets == old(bullets) + [old(ships[ShipIndex(ships, id).value]).Shoot(direction, physics)]
      ensures !shot ==> bullets == old(bullets)
      ensures planets == old(planets) && ships == old(ships)
    {
      var index := ShipIndex(ships, id);
      if index.Some? {
        bullets := bullets + [ships[index.value].Shoot(direction, physics)];
        shot := true;
      } else {
        shot := false;
      }
    }
  }

  /** The first ship that joins gets id 1, the second id 2. */
  lemma FirstIdsAreOneAndTwo(a: Ship)
    ensures NewId([]) == 1
    ensures a.id == 1 ==> NewId([a]) == 2
  {
  }

  /** Removing twice: once the only ship with `id` has left, a second
      removal finds nothing. */
  lemma SecondRemoveFindsNothing(ships: seq<Ship>, id: u8, i: nat)
    requires ShipIndex(ships, id) == Some(i)
    requires forall j :: 0 <= j < |ships| && j != i ==> ships[j].id != id
    ensures ShipIndex(ships[..i] + ships[i + 1..], id).None?
  {
    var rest := ships[..i] + ships[i + 1..];
    forall j | 0 <= j < |rest| ensures rest[j].id != id {
      assert rest[j] == ships[if j < i then j else j + 1];
    }
  }
}
