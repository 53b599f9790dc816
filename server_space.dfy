/** server/src/space.rs: the sized world built on server/src/game/object.rs.
    A tick moves planets, filters bullets against planets, then sweeps the
    ships. The sweep collects kill and death ids, credits every kill, then
    respawns every death. A ship is never hit by its own bullets. */
module ServerSpace {
  import opened Common
  import opened Geometry
  import opened GameObject

  /** `get_ship_index`: the position of the first ship carrying `id`. */
  function ShipIndex(ships: seq<Ship>, id: u8): (r: Option<nat>)
    ensures r.Some? ==> r.value < |ships| && ships[r.value].id == id
    ensures r.Some? ==> forall j :: 0 <= j < r.value ==> ships[j].id != id
    ensures r.None? <==> forall j :: 0 <= j < |ships| ==> ships[j].id != id
  {
    if ships == [] then None
    else if ships[0].id == id then Some(0)
    else match ShipIndex(ships[1..], id)
      case None => None
      case Some(i) => Some(i + 1)
  }

  /** Two lists of ships with the same ids at the same positions agree on
      every `get_ship_index`. */
  lemma SameIdsSameIndex(a: seq<Ship>, b: seq<Ship>, id: u8)
    requires |a| == |b| && forall j :: 0 <= j < |a| ==> a[j].id == b[j].id
    ensures ShipIndex(a, id) == ShipIndex(b, id)
  {
  }

  predicate SameIds(a: seq<Ship>, b: seq<Ship>)
  {
    |a| == |b| && forall j :: 0 <= j < |a| ==> a[j].id == b[j].id
  }

  /** The largest id of the ships, or 0 when there are none
      (`.max().unwrap_or(0)`). */
  function MaxId(ships: seq<Ship>): (r: u8)
    ensures forall j :: 0 <= j < |ships| ==> ships[j].id <= r
    ensures ships == [] ==> r == 0
    ensures ships != [] ==> exists j :: 0 <= j < |ships| && ships[j].id == r
  {
    if ships == [] then 0
    else
      var rest := MaxId(ships[1..]);
      if ships[0].id >= rest then ships[0].id
      else
        assert ships[1..] != [];
        rest
  }

  /** The id that `add_ship` gives a new ship: one more than the largest
      (wrapping to 0 after 255, as a release build does). */
  function NewId(ships: seq<Ship>): (r: u8)
    ensures r == WrappingAdd(MaxId(ships), 1)
  {
    WrappingAdd(MaxId(ships), 1)
  }

  /** Below the top of the id range, the new id is not live. */
  lemma {:induction false} NewIdIsFresh(ships: seq<Ship>)
    requires MaxId(ships) < 255
    ensures ShipIndex(ships, NewId(ships)).None?
    ensures NewId(ships) == MaxId(ships) + 1
  {
  }

  /** At the top of the id range the new id wraps around onto a live one:
      with ids 0 and 255, `add_ship` hands out 0 again. */
  lemma NewIdWrapsOntoLiveId(a: Ship, b: Ship)
    requires a.id == 0 && b.id == 255
    ensures NewId([a, b]) == 0 && ShipIndex([a, b], NewId([a, b])) == Some(0)
  {
    assert MaxId([a, b]) == 255 by {
      assert [a, b][1..] == [b];
    }
  }

  /** The pulls that `body` feels from `planets`, summed in order. */
  function FieldFrom(body: Object, planets: seq<Planet>, physics: Physics): Vec2
  {
    if planets == [] then Zero
    else Add(FieldFrom(body, planets[..|planets| - 1], physics),
             body.GetField(planets[|planets| - 1].body, physics))
  }

  /** The field total on every planet from all planets, itself included,
      before any of them moves. */
  function PlanetFields(planets: seq<Planet>, physics: Physics): (r: seq<Vec2>)
    ensures |r| == |planets|
  {
    seq(|planets|, i requires 0 <= i < |planets| => FieldFrom(planets[i].body, planets, physics))
  }

  function MovedPlanets(planets: seq<Planet>, time: real, size: Vec2, physics: Physics): seq<Planet>
  {
    var fields := PlanetFields(planets, physics);
    seq(|planets|, i requires 0 <= i < |planets| => planets[i].Update(time, fields[i], size))
  }

  function MovedBullets(bullets: seq<Bullet>, planets: seq<Planet>, time: real, size: Vec2,
                        physics: Physics): seq<Bullet>
  {
    seq(|bullets|, i requires 0 <= i < |bullets| =>
      bullets[i].Update(time, FieldFrom(bullets[i].body, planets, physics), size))
  }

  function MovedShip(ship: Ship, planets: seq<Planet>, time: real, size: Vec2, physics: Physics): (s: Ship)
    ensures s.id == ship.id
  {
    ship.Update(time, FieldFrom(ship.body, planets, physics), size)
  }

  function MovedShips(ships: seq<Ship>, planets: seq<Planet>, time: real, size: Vec2,
                      physics: Physics): (r: seq<Ship>)
    ensures SameIds(ships, r)
  {
    seq(|ships|, i requires 0 <= i < |ships| => MovedShip(ships[i], planets, time, size, physics))
  }

  /** The `retain` test on bullets: clear of every planet. */
  predicate ClearOfPlanets(b: Bullet, planets: seq<Planet>)
  {
    forall j :: 0 <= j < |planets| ==> !b.body.Collision(planets[j].body)
  }

  /** The bullets that `retain` keeps, in their order. */
  function Survivors(bullets: seq<Bullet>, planets: seq<Planet>): (r: seq<Bullet>)
    ensures |r| <= |bullets|
    ensures forall b :: b in r <==> b in bullets && ClearOfPlanets(b, planets)
  {
    if bullets == [] then []
    else
      var last := bullets[|bullets| - 1];
      Survivors(bullets[..|bullets| - 1], planets) + (if ClearOfPlanets(last, planets) then [last] else [])
  }

  /** Without planets every bullet survives, in order. */
  lemma {:induction false} NoPlanetsNoLosses(bullets: seq<Bullet>)
    ensures Survivors(bullets, []) == bullets
  {
    if bullets != [] {
      var init, last := bullets[..|bullets| - 1], bullets[|bullets| - 1];
      NoPlanetsNoLosses(init);
      assert ClearOfPlanets(last, []);
      assert bullets == init + [last];
    }
  }

  /** A bullet that hits `ship`: someone else's, touching it. */
  predicate HitBy(ship: Ship, b: Bullet)
  {
    ship.id != b.id && b.body.Collision(ship.body)
  }

  /** The owners of the bullets that hit `ship`, in bullet order. */
  function Hits(ship: Ship, bullets: seq<Bullet>): (r: seq<u8>)
    ensures |r| <= |bullets|
  {
    if bullets == [] then []
    else Hits(ship, bullets[..|bullets| - 1]) + (if HitBy(ship, bullets[|bullets| - 1]) then [bullets[|bullets| - 1].id] else [])
  }

  /** Exactly the owners of the bullets that hit `ship` get a kill entry. */
  lemma {:induction false} HitsAreOwnersOfHits(ship: Ship, bullets: seq<Bullet>, id: u8)
    ensures id in Hits(ship, bullets) <==> exists j :: 0 <= j < |bullets| && HitBy(ship, bullets[j]) && bullets[j].id == id
  {
    if bullets != [] {
      var init := bullets[..|bullets| - 1];
      HitsAreOwnersOfHits(ship, init, id);
      assert forall j :: 0 <= j < |init| ==> init[j] == bullets[j];
    }
  }

  predicate OnPlanet(ship: Ship, planets: seq<Planet>)
  {
    exists j :: 0 <= j < |planets| && ship.body.Collision(planets[j].body)
  }

  /** The death entries one ship adds, in the order the sweep pushes them:
      one for a planet it touches, then one for every bullet that hits it. */
  function DeathsOf(ship: Ship, planets: seq<Planet>, bullets: seq<Bullet>): (r: seq<u8>)
    ensures |r| == (if OnPlanet(ship, planets) then 1 else 0) + |Hits(ship, bullets)|
  {
    if bullets == [] then (if OnPlanet(ship, planets) then [ship.id] else [])
    else DeathsOf(ship, planets, bullets[..|bullets| - 1]) + (if HitBy(ship, bullets[|bullets| - 1]) then [ship.id] else [])
  }

  /** Every death entry of a ship names that ship. */
  lemma {:induction false} DeathsOfNameTheShip(ship: Ship, planets: seq<Planet>, bullets: seq<Bullet>)
    ensures forall k :: 0 <= k < |DeathsOf(ship, planets, bullets)| ==> DeathsOf(ship, planets, bullets)[k] == ship.id
  {
    if bullets != [] {
      DeathsOfNameTheShip(ship, planets, bullets[..|bullets| - 1]);
    }
  }

  /** The kill and death entries for one ship over one more bullet. */
  lemma CasualtiesStep(ship: Ship, planets: seq<Planet>, bullets: seq<Bullet>, j: nat)
    requires j < |bullets|
    ensures Hits(ship, bullets[..j + 1]) ==
            Hits(ship, bullets[..j]) + (if HitBy(ship, bullets[j]) then [bullets[j].id] else [])
    ensures DeathsOf(ship, planets, bullets[..j + 1]) ==
            DeathsOf(ship, planets, bullets[..j]) + (if HitBy(ship, bullets[j]) then [ship.id] else [])
  {
    assert bullets[..j + 1][..j] == bullets[..j];
  }

  /** `kill_ids` after the sweep over (moved) `ships`. */
  function KillIds(ships: seq<Ship>, bullets: seq<Bullet>): seq<u8>
  {
    if ships == [] then []
    else KillIds(ships[..|ships| - 1], bullets) + Hits(ships[|ships| - 1], bullets)
  }

  /** `death_ids` after the sweep over (moved) `ships`: every entry names
      one of them. */
  function DeathIds(ships: seq<Ship>, planets: seq<Planet>, bullets: seq<Bullet>): seq<u8>
  {
    if ships == [] then []
    else DeathIds(ships[..|ships| - 1], planets, bullets) + DeathsOf(ships[|ships| - 1], planets, bullets)
  }

  /** The kill and death entries of the sweep over one more ship. */
  lemma SweepStep(ships: seq<Ship>, ship: Ship, planets: seq<Planet>, bullets: seq<Bullet>)
    ensures KillIds(ships + [ship], bullets) == KillIds(ships, bullets) + Hits(ship, bullets)
    ensures DeathIds(ships + [ship], planets, bullets) == DeathIds(ships, planets, bullets) + DeathsOf(ship, planets, bullets)
  {
    assert (ships + [ship])[..|ships|] == ships;
  }

  /** Every death entry names one of the swept ships. */
  lemma {:induction false} DeathIdsNameLiveShips(ships: seq<Ship>, planets: seq<Planet>, bullets: seq<Bullet>)
    ensures forall k :: 0 <= k < |DeathIds(ships, planets, bullets)| ==> ShipIndex(ships, DeathIds(ships, planets, bullets)[k]).Some?
  {
    if ships != [] {
      var init, last := ships[..|ships| - 1], ships[|ships| - 1];
      var rest, own := DeathIds(init, planets, bullets), DeathsOf(last, planets, bullets);
      DeathIdsNameLiveShips(init, planets, bullets);
      DeathsOfNameTheShip(last, planets, bullets);
      forall k | 0 <= k < |rest| ensures ShipIndex(ships, rest[k]).Some? {
        var i := ShipIndex(init, rest[k]).value;
        assert ships[i] == init[i];
      }
      forall k | 0 <= k < |own| ensures ShipIndex(ships, own[k]).Some? {
        assert ships[|ships| - 1].id == own[k];
      }
    }
  }

  /** One kill credit: the first ship with `id` scores, if there is one. */
  function KillOne(ships: seq<Ship>, id: u8): (r: seq<Ship>)
    ensures SameIds(ships, r)
  {
    match ShipIndex(ships, id)
    case None => ships
    case Some(i) => ships[i := ships[i].Kill()]
  }

  /** The loop over `kill_ids`. */
  function ApplyKills(ships: seq<Ship>, ids: seq<u8>): (r: seq<Ship>)
    ensures SameIds(ships, r)
  {
    if ids == [] then ships else KillOne(ApplyKills(ships, ids[..|ids| - 1]), ids[|ids| - 1])
  }

  /** One respawn: the first ship with `id` dies and moves to `location`. */
  function RespawnOne(ships: seq<Ship>, id: u8, location: Vec2): (r: seq<Ship>)
    ensures SameIds(ships, r)
  {
    match ShipIndex(ships, id)
    case None => ships
    case Some(i) => ships[i := ships[i].Respawn(location)]
  }

  /** The loop over `death_ids`, the k-th entry using the k-th drawn location. */
  function ApplyRespawns(ships: seq<Ship>, ids: seq<u8>, locations: seq<Vec2>): (r: seq<Ship>)
    requires |locations| == |ids|
    ensures SameIds(ships, r)
  {
    if ids == [] then ships
    else RespawnOne(ApplyRespawns(ships, ids[..|ids| - 1], locations[..|ids| - 1]),
                    ids[|ids| - 1], locations[|ids| - 1])
  }

  /** `gen_range(0. ..size[0])` and `gen_range(0. ..size[1])`. */
  predicate InWorld(p: Vec2, size: Vec2)
  {
    0.0 <= p.x < size.x && 0.0 <= p.y < size.y
  }

  /** A `u32` counter after `n` wrapping increments. */
  function Wrapped(d: u32, n: nat): u32
  {
    if n == 0 then d else WrappingIncrement(Wrapped(d, n - 1))
  }

  /** One more step of a wrapping `u32` counter that already took `n`. */
  lemma WrapStep(r: int, s: nat)
    requires r == s % 0x1_0000_0000
    ensures (r + 1) % 0x1_0000_0000 == (s + 1) % 0x1_0000_0000
  {
    var m := 0x1_0000_0000;
    var a := s / m;
    assert s == a * m + r;
    if r + 1 < m {
      FundamentalDivMod(s + 1, m, a, r + 1);
      FundamentalDivMod(r + 1, m, 0, r + 1);
    } else {
      assert s + 1 == (a + 1) * m + 0;
      FundamentalDivMod(s + 1, m, a + 1, 0);
      FundamentalDivMod(r + 1, m, 1, 0);
    }
  }

  /** `n` wrapping increments add `n` modulo `2^32`. */
  lemma {:induction false} WrappedIsSum(d: u32, n: nat)
    ensures Wrapped(d, n) == (d + n) % 0x1_0000_0000
  {
    if n == 0 {
      FundamentalDivMod(d, 0x1_0000_0000, 0, d);
    } else {
      var prev := Wrapped(d, n - 1);
      WrappedIsSum(d, n - 1);
      WrappingIncrementIsModular(prev);
      WrapStep(prev, d + n - 1);
    }
  }

  /** `s` with `n` more kills. */
  function WithKills(s: Ship, n: nat): Ship
  {
    s.(score := s.score.(kills := Wrapped(s.score.kills, n)))
  }

  /** Applying the kill list credits the first ship carrying each id once
      per occurrence of that id, and leaves every other ship as it was. */
  lemma {:induction false} KillCredits(ships: seq<Ship>, ids: seq<u8>, j: nat)
    requires j < |ships|
    ensures ApplyKills(ships, ids)[j] ==
            if ShipIndex(ships, ships[j].id) == Some(j) then WithKills(ships[j], multiset(ids)[ships[j].id])
            else ships[j]
  {
    if ids != [] {
      var init, last := ids[..|ids| - 1], ids[|ids| - 1];
      var id := ships[j].id;
      CountLast(ids, id);
      KillCredits(ships, init, j);
      var mid := ApplyKills(ships, init);
      assert ApplyKills(ships, ids) == KillOne(mid, last);
      SameIdsSameIndex(ships, mid, last);
      KillOneAt(mid, last, j);
    }
  }

  /** One kill credit at position `j`: the ship there scores iff it is the
      first carrying `id`. */
  lemma KillOneAt(ships: seq<Ship>, id: u8, j: nat)
    requires j < |ships|
    ensures KillOne(ships, id)[j] == if ShipIndex(ships, id) == Some(j) then ships[j].Kill() else ships[j]
  {
  }

  /** A kill credit naming no live ship is skipped. */
  lemma KillOfAbsentIdChangesNothing(ships: seq<Ship>, id: u8)
    requires ShipIndex(ships, id).None?
    ensures KillOne(ships, id) == ships
  {
  }

  /** A respawn touches only a ship's location and its death counter. */
  lemma {:induction false} RespawnKeepsTheRest(ships: seq<Ship>, ids: seq<u8>, locations: seq<Vec2>, j: nat)
    requires |locations| == |ids| && j < |ships|
    ensures var r := ApplyRespawns(ships, ids, locations)[j];
            r.id == ships[j].id && r.direction == ships[j].direction && r.config == ships[j].config &&
            r.score.kills == ships[j].score.kills && r.body == ships[j].body.(location := r.body.location)
  {
    if ids != [] {
      var n := |ids| - 1;
      RespawnKeepsTheRest(ships, ids[..n], locations[..n], j);
    }
  }

  /** Applying the death list charges the first ship carrying each id one
      death per occurrence of that id. */
  lemma {:induction false} RespawnDeathCount(ships: seq<Ship>, ids: seq<u8>, locations: seq<Vec2>, j: nat)
    requires |locations| == |ids| && j < |ships|
    requires ShipIndex(ships, ships[j].id) == Some(j)
    ensures ApplyRespawns(ships, ids, locations)[j].score.deaths ==
            Wrapped(ships[j].score.deaths, multiset(ids)[ships[j].id])
  {
    if ids != [] {
      var n := |ids| - 1;
      var init, last, location := ids[..n], ids[n], locations[n];
      var id := ships[j].id;
      CountLast(ids, id);
      RespawnDeathCount(ships, init, locations[..n], j);
      var mid := ApplyRespawns(ships, init, locations[..n]);
      assert ApplyRespawns(ships, ids, locations) == RespawnOne(mid, last, location);
      SameIdsSameIndex(ships, mid, last);
      RespawnOneAt(mid, last, location, j);
      if last == id {
        assert RespawnOne(mid, last, location)[j] == mid[j].Respawn(location);
      } else {
        assert RespawnOne(mid, last, location)[j] == mid[j];
      }
    }
  }

  /** One respawn at position `j`: the ship there dies iff it is the first
      carrying `id`. */
  lemma RespawnOneAt(ships: seq<Ship>, id: u8, location: Vec2, j: nat)
    requires j < |ships|
    ensures RespawnOne(ships, id, location)[j] ==
            if ShipIndex(ships, id) == Some(j) then ships[j].Respawn(location) else ships[j]
  {
  }

  /** A ship that is not the first with its id, or whose id has no death
      entry, is left exactly as it was. */
  lemma {:induction false} RespawnSkips(ships: seq<Ship>, ids: seq<u8>, locations: seq<Vec2>, j: nat)
    requires |locations| == |ids| && j < |ships|
    requires ShipIndex(ships, ships[j].id) != Some(j) || ships[j].id !in ids
    ensures ApplyRespawns(ships, ids, locations)[j] == ships[j]
  {
    if ids != [] {
      var n := |ids| - 1;
      var init, last := ids[..n], ids[n];
      assert ids == init + [last];
      RespawnSkips(ships, init, locations[..n], j);
      var mid := ApplyRespawns(ships, init, locations[..n]);
      SameIdsSameIndex(ships, mid, last);
    }
  }

  /** The death list one entry further: the next entry names the same
      ship as before the earlier respawns, and that ship respawns at the
      next drawn location. */
  lemma RespawnsStep(start: seq<Ship>, ids: seq<u8>, locations: seq<Vec2>, ships: seq<Ship>, location: Vec2)
    requires |locations| < |ids| && ships == ApplyRespawns(start, ids[..|locations|], locations)
    requires ShipIndex(start, ids[|locations|]).Some?
    ensures ShipIndex(ships, ids[|locations|]) == ShipIndex(start, ids[|locations|])
    ensures var i := ShipIndex(start, ids[|locations|]).value;
            ApplyRespawns(start, ids[..|locations| + 1], locations + [location]) == ships[i := ships[i].Respawn(location)]
  {
    var k := |locations|;
    SameIdsSameIndex(start, ships, ids[k]);
    assert ids[..k + 1][..k] == ids[..k];
    assert (locations + [location])[..k] == locations;
    assert ApplyRespawns(start, ids[..k + 1], locations + [location]) == RespawnOne(ships, ids[k], location);
  }

  /** The first loop of `update_ships`: every ship moves, and the sweep
      collects the kill and death entries of the moved ships in order. */
  method Sweep(ships: seq<Ship>, planets: seq<Planet>, bullets: seq<Bullet>, time: real, size: Vec2, physics: Physics)
    returns (moved: seq<Ship>, killIds: seq<u8>, deathIds: seq<u8>)
    ensures moved == MovedShips(ships, planets, time, size, physics)
    ensures killIds == KillIds(moved, bullets) && deathIds == DeathIds(moved, planets, bullets)
  {
    moved, killIds, deathIds := [], [], [];
    var i := 0;
    while i < |ships|
      invariant 0 <= i <= |ships| && |moved| == i
      invariant forall j :: 0 <= j < i ==> moved[j] == MovedShip(ships[j], planets, time, size, physics)
      invariant killIds == KillIds(moved, bullets) && deathIds == DeathIds(moved, planets, bullets)
    {
      var ship := MovedShip(ships[i], planets, time, size, physics);
      var hits, own := Casualties(ship, planets, bullets);
      SweepStep(moved, ship, planets, bullets);
      moved := moved + [ship];
      killIds := killIds + hits;
      deathIds := deathIds + own;
      i := i + 1;
    }
  }

  /** The body of the sweep for one moved ship: a death entry for a
      planet it touches, and a death and a kill entry for every bullet of
      another ship that touches it. */
  method Casualties(ship: Ship, planets: seq<Planet>, bullets: seq<Bullet>) returns (hits: seq<u8>, own: seq<u8>)
    ensures hits == Hits(ship, bullets) && own == DeathsOf(ship, planets, bullets)
  {
    own := if OnPlanet(ship, planets) then [ship.id] else [];
    hits := [];
    var j := 0;
    while j < |bullets|
      invariant 0 <= j <= |bullets|
      invariant hits == Hits(ship, bullets[..j]) && own == DeathsOf(ship, planets, bullets[..j])
    {
      CasualtiesStep(ship, planets, bullets, j);
      if HitBy(ship, bullets[j]) {
        own := own + [ship.id];
        hits := hits + [bullets[j].id];
      }
      j := j + 1;
    }
    assert bullets[..j] == bullets;
  }

  /** The two `gen_range` draws of a respawn: a point of `[0,size)`. The
      range is empty, and the draw panics, unless both sides are positive. */
  method GenLocation(size: Vec2) returns (p: Vec2)
    requires 0.0 < size.x && 0.0 < size.y
    ensures InWorld(p, size)
  {
    assert InWorld(Zero, size);
    p :| InWorld(p, size);
  }

  /** The loop over `death_ids` on the ship list: each entry draws a
      location and respawns the first ship with that id there. */
  method RespawnShips(start: seq<Ship>, ids: seq<u8>, size: Vec2) returns (ships: seq<Ship>, ghost drawn: seq<Vec2>)
    requires ids == [] || (0.0 < size.x && 0.0 < size.y)
    requires forall k :: 0 <= k < |ids| ==> ShipIndex(start, ids[k]).Some?
    ensures |drawn| == |ids| && forall k :: 0 <= k < |drawn| ==> InWorld(drawn[k], size)
    ensures ships == ApplyRespawns(start, ids, drawn)
  {
    ships, drawn := start, [];
    var k := 0;
    while k < |ids|
      invariant 0 <= k <= |ids| && |drawn| == k
      invariant forall m :: 0 <= m < k ==> InWorld(drawn[m], size)
      invariant ships == ApplyRespawns(start, ids[..k], drawn)
    {
      var index := ShipIndex(ships, ids[k]);
      var location := GenLocation(size);
      RespawnsStep(start, ids, drawn, ships, location);
      ships := ships[index.value := ships[index.value].Respawn(location)];
      drawn := drawn + [location];
      k := k + 1;
    }
    assert ids[..k] == ids;
  }

  /** Every location a respawn uses was drawn, so when every draw lies in
      the world, every ship is where it was or somewhere in the world. */
  lemma {:induction false} RespawnsLandInWorld(ships: seq<Ship>, ids: seq<u8>, locations: seq<Vec2>,
                                               size: Vec2, j: nat)
    requires |locations| == |ids| && j < |ships|
    requires forall k :: 0 <= k < |locations| ==> InWorld(locations[k], size)
    ensures var l := ApplyRespawns(ships, ids, locations)[j].body.location;
            l == ships[j].body.location || InWorld(l, size)
  {
    if ids != [] {
      var n := |ids| - 1;
      RespawnsLandInWorld(ships, ids[..n], locations[..n], size, j);
    }
  }

  class Space {
    const size: Vec2
    var planets: seq<Planet>
    var ships: seq<Ship>
    var bullets: seq<Bullet>

    /** `Space::new`: an empty world of the given size. */
    constructor (size: Vec2)
      ensures this.size == size && planets == [] && ships == [] && bullets == []
    {
      this.size := size;
      planets, ships, bullets := [], [], [];
    }

    /** `update`: planets, then bullets, then ships. Ships are swept
        against the planets and the bullets as they are after this tick.
        `ok` is false when a respawn draws from an empty range and panics. */
    method Update(time: real, physics: Physics) returns (ok: bool)
      modifies this
      ensures planets == MovedPlanets(old(planets), time, size, physics)
      ensures bullets == Survivors(MovedBullets(old(bullets), planets, time, size, physics), planets)
      ensures var moved := MovedShips(old(ships), planets, time, size, physics);
              var deaths := DeathIds(moved, planets, bullets);
              var credited := ApplyKills(moved, KillIds(moved, bullets));
              (ok <==> deaths == [] || (0.0 < size.x && 0.0 < size.y)) &&
              (ok ==> exists locations :: |locations| == |deaths| &&
                        (forall k :: 0 <= k < |locations| ==> InWorld(locations[k], size)) &&
                        ships == ApplyRespawns(credited, deaths, locations)) &&
              (!ok ==> ships == credited)
    {
      UpdatePlanets(time, physics);
      UpdateBullets(time, physics);
      ok := UpdateShips(time, physics);
    }

    /** `update_planets`: all field totals first, then every planet moves. */
    method UpdatePlanets(time: real, physics: Physics)
      modifies this
      ensures planets == MovedPlanets(old(planets), time, size, physics)
      ensures ships == old(ships) && bullets == old(bullets)
    {
      var before := planets;
      var fields := PlanetFields(before, physics);
      var moved := before;
      var i := 0;
      while i < |moved|
        invariant 0 <= i <= |moved| == |before| == |fields|
        invariant forall j :: 0 <= j < i ==> moved[j] == before[j].Update(time, fields[j], size)
        invariant forall j :: i <= j < |moved| ==> moved[j] == before[j]
      {
        moved := moved[i := moved[i].Update(time, fields[i], size)];
        i := i + 1;
      }
      planets := moved;
    }

    /** `update_bullets`: every bullet moves; then `retain` keeps those
        clear of every planet. */
    method UpdateBullets(time: real, physics: Physics)
      modifies this
      ensures bullets == Survivors(MovedBullets(old(bullets), planets, time, size, physics), planets)
      ensures planets == old(planets) && ships == old(ships)
    {
      MoveBullets(time, physics);
      RetainSurvivors();
    }

    /** The integration loop of `update_bullets`. */
    method MoveBullets(time: real, physics: Physics)
      modifies this
      ensures bullets == MovedBullets(old(bullets), planets, time, size, physics)
      ensures planets == old(planets) && ships == old(ships)
    {
      var before := bullets;
      var moved := before;
      var i := 0;
      while i < |moved|
        invariant 0 <= i <= |moved| == |before|
        invariant forall j :: 0 <= j < i ==> moved[j] == before[j].Update(time, FieldFrom(before[j].body, planets, physics), size)
        invariant forall j :: i <= j < |moved| ==> moved[j] == before[j]
      {
        moved := moved[i := moved[i].Update(time, FieldFrom(moved[i].body, planets, physics), size)];
        i := i + 1;
      }
      bullets := moved;
    }

    /** The `retain` of `update_bullets`. */
    method RetainSurvivors()
      modifies this
      ensures bullets == Survivors(old(bullets), planets)
      ensures planets == old(planets) && ships == old(ships)
    {
      var all := bullets;
      var kept := [];
      var i := 0;
      while i < |all|
        invariant 0 <= i <= |all|
        invariant kept == Survivors(all[..i], planets)
      {
        assert all[..i + 1][..i] == all[..i];
        if ClearOfPlanets(all[i], planets) {
          kept := kept + [all[i]];
        }
        i := i + 1;
      }
      assert all[..i] == all;
      bullets := kept;
    }

    /** `update_ships`: the sweep that moves every ship and lists kills and
        deaths, then the kill credits, then the respawns. */
    method UpdateShips(time: real, physics: Physics) returns (ok: bool)
      modifies this
      ensures var moved := MovedShips(old(ships), planets, time, size, physics);
              var deaths := DeathIds(moved, planets, bullets);
              var credited := ApplyKills(moved, KillIds(moved, bullets));
              (ok <==> deaths == [] || (0.0 < size.x && 0.0 < size.y)) &&
              (ok ==> exists locations :: |locations| == |deaths| &&
                        (forall k :: 0 <= k < |locations| ==> InWorld(locations[k], size)) &&
                        ships == ApplyRespawns(credited, deaths, locations)) &&
              (!ok ==> ships == credited)
      ensures planets == old(planets) && bullets == old(bullets)
    {
      var moved, killIds, deathIds := Sweep(ships, planets, bullets, time, size, physics);
      ships := moved;
      DeathIdsNameLiveShips(ships, planets, bullets);
      ApplyKillList(killIds);
      ok := ApplyDeathList(deathIds);
    }

    /** The loop over `kill_ids`: credits naming no live ship are skipped. */
    method ApplyKillList(ids: seq<u8>)
      modifies this
      ensures ships == ApplyKills(old(ships), ids)
      ensures planets == old(planets) && bullets == old(bullets)
    {
      var before := ships;
      var credited := before;
      var k := 0;
      while k < |ids|
        invariant 0 <= k <= |ids|
        invariant credited == ApplyKills(before, ids[..k])
      {
        assert ids[..k + 1][..k] == ids[..k];
        assert ApplyKills(before, ids[..k + 1]) == KillOne(credited, ids[k]);
        var index := ShipIndex(credited, ids[k]);
        if index.Some? {
          credited := credited[index.value := credited[index.value].Kill()];
        }
        k := k + 1;
      }
      assert ids[..k] == ids;
      ships := credited;
    }

    /** The loop over `death_ids`: each entry naming a live ship respawns it
        at a location drawn from `[0,size)`. Every entry names a live ship,
        so when that range is empty the very first draw panics (`ok` false)
        before anything has respawned. */
    method ApplyDeathList(ids: seq<u8>) returns (ok: bool)
      modifies this
      requires forall k :: 0 <= k < |ids| ==> ShipIndex(ships, ids[k]).Some?
      ensures ok <==> ids == [] || (0.0 < size.x && 0.0 < size.y)
      ensures ok ==> exists locations :: |locations| == |ids| &&
                       (forall k :: 0 <= k < |locations| ==> InWorld(locations[k], size)) &&
                       ships == ApplyRespawns(old(ships), ids, locations)
      ensures !ok ==> ships == old(ships)
      ensures planets == old(planets) && bullets == old(bullets)
    {
      if ids != [] && !(0.0 < size.x && 0.0 < size.y) {
        return false;
      }
      RespawnAll(ids);
      ok := true;
    }

    /** The draws and respawns of the loop over `death_ids`, in order. */
    method RespawnAll(ids: seq<u8>)
      modifies this
      requires ids == [] || (0.0 < size.x && 0.0 < size.y)
      requires forall k :: 0 <= k < |ids| ==> ShipIndex(ships, ids[k]).Some?
      ensures exists locations :: |locations| == |ids| &&
                (forall k :: 0 <= k < |locations| ==> InWorld(locations[k], size)) &&
                ships == ApplyRespawns(old(ships), ids, locations)
      ensures planets == old(planets) && bullets == old(bullets)
    {
      var respawned, drawn := RespawnShips(ships, ids, size);
      ships := respawned;
    }

    /** `add_planet`: the planet joins iff it fits in the world. */
    method AddPlanet(body: Object) returns (valid: bool)
      modifies this
      ensures valid <==> body.FitIn(size)
      ensures valid ==> planets == old(planets) + [Planet(body)]
      ensures !valid ==> planets == old(planets)
      ensures ships == old(ships) && bullets == old(bullets)
    {
      var planet := Planet(body);
      valid := planet.body.FitIn(size);
      if valid {
        planets := planets + [planet];
      }
    }

    /** `add_ship`: a ship with id `max + 1` joins iff it fits in the world;
        the id is returned iff it joined. */
    method AddShip(body: Object, config: ShipConfig) returns (id: Option<u8>)
      modifies this
      ensures id.Some? <==> body.FitIn(size)
      ensures id.Some? ==> id.value == NewId(old(ships)) &&
                           ships == old(ships) + [Ship.New(id.value, body, config)]
      ensures id.None? ==> ships == old(ships)
      ensures planets == old(planets) && bullets == old(bullets)
    {
      var newId := NewId(ships);
      var ship := Ship.New(newId, body, config);
      if ship.body.FitIn(size) {
        ships := ships + [ship];
        id := Some(newId);
      } else {
        id := None;
      }
    }

    /** `remove_ship`: true iff a ship with `id` was there; the first one leaves. */
    method RemoveShip(id: u8) returns (removed: bool)
      modifies this
      ensures removed <==> ShipIndex(old(ships), id).Some?
      ensures removed ==> var i := ShipIndex(old(ships), id).value;
                          ships == old(ships[..i] + ships[i + 1..])
      ensures !removed ==> ships == old(ships)
      ensures planets == old(planets) && bullets == old(bullets)
    {
      var index := ShipIndex(ships, id);
      if index.Some? {
        ships := ships[..index.value] + ships[index.value + 1..];
        removed := true;
      } else {
        removed := false;
      }
    }

    /** `move_ship`: true iff a ship with `id` was there; only its steering changes. */
    method MoveShip(id: u8, direction: Option<Angle>) returns (moved: bool)
      modifies this
      ensures moved <==> ShipIndex(old(ships), id).Some?
      ensures moved ==> var i := ShipIndex(old(ships), id).value;
                        ships == old(ships)[i := old(ships[i]).ChangeDirection(direction)]
      ensures !moved ==> ships == old(ships)
      ensures planets == old(planets) && bullets == old(bullets)
    {
      var index := ShipIndex(ships, id);
      if index.Some? {
        ships := ships[index.value := ships[index.value].ChangeDirection(direction)];
        moved := true;
      } else {
        moved := false;
      }
    }

    /** `shoot`: true iff a ship with `id` was there; it fires one bullet. */
    method Shoot(id: u8, direction: Angle, physics: Physics) returns (shot: bool)
      modifies this
      ensures shot <==> ShipIndex(old(ships), id).Some?
      ensures shot ==> bullets == old(bullets) + [old(ships[ShipIndex(ships, id).value]).Shoot(direction, physics)]
      ensures !shot ==> bullets == old(bullets)
      ensures planets == old(planets) && ships == old(ships)
    {
      var index := ShipIndex(ships, id);
      if index.Some? {
        bullets := bullets + [ships[index.value].Shoot(direction, physics)];
        shot := true;
      } else {
        shot := false;
      }
    }
  }

  /** The first ship that joins gets id 1, the second id 2. */
  lemma FirstIdsAreOneAndTwo(a: Ship)
    ensures NewId([]) == 1
    ensures a.id == 1 ==> NewId([a]) == 2
  {
  }

  /** Removing twice: the second removal of a unique id finds nothing. */
  lemma SecondRemoveFindsNothing(ships: seq<Ship>, id: u8, i: nat)
    requires ShipIndex(ships, id) == Some(i)
    requires forall j :: 0 <= j < |ships| && j != i ==> ships[j].id != id
    ensures ShipIndex(ships[..i] + ships[i + 1..], id).None?
  {
    var rest := ships[..i] + ships[i + 1..];
    forall j | 0 <= j < |rest| ensures rest[j].id != id {
      assert rest[j] == ships[if j < i then j else j + 1];
    }
  }
}
