/** server/src/logic/space_object.rs: planets, ships and bullets of the
    unit-square world, each a wrapper around a `LogicObject.Object`.
    `ShipConfig` and `BulletConfig` are declared in logic/space.rs; they
    live here because the entities are built from them. */
module LogicSpaceObject {
  import opened Common
  import opened Geometry
  import opened LogicObject

  /** `ShipConfig` (logic/space.rs): thrust force and body parameters. */
  datatype ShipConfig = ShipConfig(force: real, radius: real, mass: real, field: real)

  /** `BulletConfig` (logic/space.rs): muzzle speed and body parameters. */
  datatype BulletConfig = BulletConfig(speed: real, radius: real, mass: real, field: real)

  datatype Planet = Planet(body: Object)
  {
    /** `Planet::new` (test builds only). */
    static function New(location: Vec2, mass: real, field: real, radius: real, velocity: Vec2): (p: Planet)
      ensures p.body == Object.New(location, radius, mass, field, velocity)
    {
      Planet(Object.New(location, radius, mass, field, velocity))
    }

    /** The default `Update::update`: the body integrates the field as is. */
    function Update(time: real, totalField: Vec2): (p: Planet)
      ensures p.body == body.Update(time, totalField)
    {
      Planet(body.Update(time, totalField))
    }
  }

  datatype Bullet = Bullet(id: u8, body: Object)
  {
    /** The default `Update::update`. */
    function Update(time: real, totalField: Vec2): (b: Bullet)
      ensures b.id == id && b.body == body.Update(time, totalField)
    {
      Bullet(id, body.Update(time, totalField))
    }
  }

  datatype Ship = Ship(id: u8, body: Object, direction: Option<Angle>, force: real)
  {
    /** `Ship::new`: id and location from the arguments, body parameters and
        force from the configuration, no velocity and no steering. */
    static function New(id: u8, location: Vec2, config: ShipConfig): (s: Ship)
      ensures s.id == id && s.body.location == location
      ensures s.body.velocity == Zero && s.body.acceleration == Zero
      ensures s.body.radius == config.radius && s.body.mass == config.mass && s.body.field == config.field
      ensures s.direction == None && s.force == config.force
    {
      Ship(id, Object.New(location, config.radius, config.mass, config.field, Zero), None, config.force)
    }

    /** `shoot`: a bullet that carries the ship's id, starts at the ship's
        location and flies along `direction` at the configured speed. */
    function Shoot(direction: Angle, config: BulletConfig, physics: Physics): (b: Bullet)
      ensures b.id == id && b.body.location == body.location
      ensures b.body.radius == config.radius && b.body.mass == config.mass && b.body.field == config.field
      ensures b.body.velocity == Scale(physics.fromAngle(direction), config.speed)
      ensures b.body.acceleration == Zero
    {
      Bullet(id, Object.New(body.location, config.radius, config.mass, config.field,
                            Scale(physics.fromAngle(direction), config.speed)))
    }

    /** `respawn`: the ship reappears at `location`, at rest. */
    function Respawn(location: Vec2): (s: Ship)
      ensures s.body.location == location
      ensures s.body.velocity == Zero && s.body.acceleration == Zero
      ensures s.body.radius == body.radius && s.body.mass == body.mass && s.body.field == body.field
      ensures s.id == id && s.direction == direction && s.force == force
    {
      this.(body := body.(location := location, velocity := Zero, acceleration := Zero))
    }

    /** `change_direction`: steering is the only thing that changes. */
    function ChangeDirection(direction: Option<Angle>): (s: Ship)
      ensures s.direction == direction
      ensures s.id == id && s.body == body && s.force == force
    {
      this.(direction := direction)
    }

    /** `Ship::update`: while steering, the thrust `force * from_angle(d)`
        is added to the field; otherwise the field is passed on unchanged. */
    function Update(time: real, totalField: Vec2, physics: Physics): (s: Ship)
      ensures s.id == id && s.direction == direction && s.force == force
      ensures direction.None? ==> s.body == body.Update(time, totalField)
      ensures direction.Some? ==>
                s.body == body.Update(time, Add(totalField, Scale(physics.fromAngle(direction.value), force)))
    {
      match direction
      case Some(d) => this.(body := body.Update(time, Add(totalField, Scale(physics.fromAngle(d), force))))
      case None => this.(body := body.Update(time, totalField))
    }
  }

  /** A bullet fired from a ship is caught in that ship's own body
      whenever the bullet's radius is not negative: the two share a centre. */
  lemma FreshBulletTouchesShooter(s: Ship, direction: Angle, config: BulletConfig, physics: Physics)
    requires s.body.radius + config.radius >= 0.0
    ensures s.Shoot(direction, config, physics).body.Collision(s.body)
  {
    var b := s.Shoot(direction, config, physics);
    assert SquaredDistance(b.body.location, s.body.location) == 0.0;
  }

  /** Respawning keeps the ship's identity, so a
      respawned ship fires from its new location under its old id. */
  lemma RespawnedShipFiresFromNewLocation(s: Ship, location: Vec2, direction: Angle,
                                          config: BulletConfig, physics: Physics)
    ensures s.Respawn(location).Shoot(direction, config, physics).body.location == location
    ensures s.Respawn(location).Shoot(direction, config, physics).id == s.id
  {
  }
}
