/** server/src/game/object.rs: the bodies of the sized world that
    server/src/space.rs keeps. A body is clamped into `[0,size]`; ships carry
    a score and their own bullet configuration. */
module GameObject {
  import opened Common
  import opened Geometry

  datatype Object = Object(location: Vec2, radius: real, mass: real, velocity: Vec2, acceleration: Vec2)
  {
    /** `Object::default()`: every field zero. */
    static const Default: Object := Object(Zero, 0.0, 0.0, Zero, Zero)

    /** `Object::new`: the arguments as given, with zero acceleration. */
    static function New(location: Vec2, radius: real, mass: real, velocity: Vec2): (o: Object)
      ensures o.acceleration == Zero
      ensures o.location == location && o.radius == radius && o.mass == mass && o.velocity == velocity
    {
      Object(location, radius, mass, velocity, Zero)
    }

    /** `update`: the location advances with the old velocity, the velocity
        with the old acceleration; a body with mass then takes its
        acceleration from the field, and the location is clamped. */
    function Update(time: real, totalField: Vec2, size: Vec2): (o: Object)
      ensures o.location == Clamp(Add(location, Scale(velocity, time)), Zero, size)
      ensures o.velocity == Add(velocity, Scale(acceleration, time))
      ensures mass == 0.0 ==> o.acceleration == acceleration
      ensures mass != 0.0 ==> o.acceleration == Div(totalField, mass)
      ensures o.radius == radius && o.mass == mass
    {
      var moved := this.(location := Add(location, Scale(velocity, time)),
                         velocity := Add(velocity, Scale(acceleration, time)));
      var accelerated := if mass != 0.0 then moved.(acceleration := Div(totalField, mass)) else moved;
      accelerated.Bound(size)
    }

    /** `collision`: the centres are at most the sum of the radii apart. */
    predicate Collision(other: Object)
    {
      WithinOrAt(location, other.location, radius + other.radius)
    }

    /** `get_field`: no pull while closer to `other` than its radius;
        otherwise the pull of `other.mass` toward `other`. */
    function GetField(other: Object, physics: Physics): (f: Vec2)
      ensures Within(location, other.location, other.radius) ==> f == Zero
      ensures !Within(location, other.location, other.radius) ==>
                f == physics.inverseSquare(location, other.location, other.mass)
    {
      if Within(location, other.location, other.radius) then Zero
      else physics.inverseSquare(location, other.location, other.mass)
    }

    /** `bound`: the location is clamped into `[0,size]`; nothing else changes. */
    function Bound(size: Vec2): (o: Object)
      ensures o.FitIn(size)
      ensures 0.0 <= size.x && 0.0 <= size.y ==> 0.0 <= o.location.x && 0.0 <= o.location.y
      ensures location.x > size.x ==> o.location.x == size.x
      ensures location.y > size.y ==> o.location.y == size.y
      ensures location.x < 0.0 <= size.x ==> o.location.x == 0.0
      ensures location.y < 0.0 <= size.y ==> o.location.y == 0.0
      ensures 0.0 <= location.x <= size.x && 0.0 <= location.y <= size.y ==> o == this
      ensures o.velocity == velocity && o.acceleration == acceleration
      ensures o.radius == radius && o.mass == mass
    {
      this.(location := Clamp(location, Zero, size))
    }

    /** `fit_in`: at most `size` on each axis; there is no lower bound. */
    predicate FitIn(size: Vec2)
    {
      location.x <= size.x && location.y <= size.y
    }

    /** `get_params`: the location and the radius. */
    function GetParams(): (p: (real, real, real))
      ensures p.0 == location.x && p.1 == location.y && p.2 == radius
    {
      (location.x, location.y, radius)
    }
  }

  datatype Planet = Planet(body: Object)
  {
    /** The default `Update::update`. */
    function Update(time: real, totalField: Vec2, size: Vec2): (p: Planet)
      ensures p.body == body.Update(time, totalField, size)
    {
      Planet(body.Update(time, totalField, size))
    }
  }

  /** `ShipConfig`: what the ship's bullets are made of, and its thrust. */
  datatype ShipConfig = ShipConfig(bulletSpeed: real, bulletRadius: real, bulletMass: real, force: real)
  {
    /** `ShipConfig::default()`. */
    static const Default: ShipConfig := ShipConfig(0.0, 0.0, 0.0, 0.0)
  }

  datatype Score = Score(kills: u32, deaths: u32)

  datatype Bullet = Bullet(id: u8, body: Object)
  {
    /** The default `Update::update`; the owner id is kept. */
    function Update(time: real, totalField: Vec2, size: Vec2): (b: Bullet)
      ensures b.id == id && b.body == body.Update(time, totalField, size)
    {
      Bullet(id, body.Update(time, totalField, size))
    }
  }

  datatype Ship = Ship(id: u8, body: Object, direction: Option<Angle>, config: ShipConfig, score: Score)
  {
    /** `Ship::new`: no steering and a zero score. */
    static function New(id: u8, body: Object, config: ShipConfig): (s: Ship)
      ensures s.id == id && s.body == body && s.config == config
      ensures s.direction == None && s.score == Score(0, 0)
    {
      Ship(id, body, None, config, Score(0, 0))
    }

    /** `shoot`: a bullet owned by this ship, built from the ship's body
        (`..self.object`, so location included) with the configured radius
        and mass, zero acceleration, and the muzzle velocity. */
    function Shoot(direction: Angle, physics: Physics): (b: Bullet)
      ensures b.id == id && b.body.location == body.location
      ensures b.body.radius == config.bulletRadius && b.body.mass == config.bulletMass
      ensures b.body.velocity == Scale(physics.fromAngle(direction), config.bulletSpeed)
      ensures b.body.acceleration == Zero
    {
      Bullet(id, body.(radius := config.bulletRadius, mass := config.bulletMass,
                       velocity := Scale(physics.fromAngle(direction), config.bulletSpeed),
                       acceleration := Zero))
    }

    /** `respawn`: one more death and a new location; velocity,
        acceleration and kills are kept. */
    function Respawn(location: Vec2): (s: Ship)
      ensures s.score.deaths == WrappingIncrement(score.deaths) && s.score.kills == score.kills
      ensures s.body == body.(location := location)
      ensures s.id == id && s.direction == direction && s.config == config
    {
      this.(score := score.(deaths := WrappingIncrement(score.deaths)), body := body.(location := location))
    }

    /** `kill`: one more kill, nothing else. */
    function Kill(): (s: Ship)
      ensures s.score.kills == WrappingIncrement(score.kills) && s.score.deaths == score.deaths
      ensures s.id == id && s.body == body && s.direction == direction && s.config == config
    {
      this.(score := score.(kills := WrappingIncrement(score.kills)))
    }

    /** `change_direction`: steering is the only thing that changes. */
    function ChangeDirection(direction: Option<Angle>): (s: Ship)
      ensures s.direction == direction
      ensures s.id == id && s.body == body && s.config == config && s.score == score
    {
      this.(direction := direction)
    }

    /** The default `Update::update`: this variant applies no thrust. */
    function Update(time: real, totalField: Vec2, size: Vec2): (s: Ship)
      ensures s.body == body.Update(time, totalField, size)
      ensures s.id == id && s.direction == direction && s.config == config && s.score == score
    {
      this.(body := body.Update(time, totalField, size))
    }
  }

  /** After `update` a body fits, and if `size` is not negative it lies in
      `[0,size]` on each axis. */
  lemma UpdateStaysInside(o: Object, time: real, totalField: Vec2, size: Vec2)
    requires 0.0 <= size.x && 0.0 <= size.y
    ensures var u := o.Update(time, totalField, size);
            u.FitIn(size) && 0.0 <= u.location.x && 0.0 <= u.location.y
  {
    var moved := o.(location := Add(o.location, Scale(o.velocity, time)),
                    velocity := Add(o.velocity, Scale(o.acceleration, time)));
    assert o.Update(time, totalField, size).location == moved.Bound(size).location;
  }

  /** A massless body ignores the field. */
  lemma MassZeroIgnoresField(o: Object, time: real, f1: Vec2, f2: Vec2, size: Vec2)
    requires o.mass == 0.0
    ensures o.Update(time, f1, size) == o.Update(time, f2, size)
  {
  }

  /** `fit_in` does not look below zero: a body far left of the world fits. */
  lemma FitInHasNoLowerBound()
    ensures Object.New(Vec2(-5.0, -5.0), 1.0, 1.0, Zero).FitIn(Vec2(1.0, 1.0))
  {
  }

  /** A body of positive radius feels no pull from itself, so the sum over
      all planets in `update_planets` adds nothing for the planet itself. */
  lemma SelfPullIsZero(o: Object, physics: Physics)
    requires o.radius > 0.0
    ensures o.GetField(o, physics) == Zero
  {
    SelfWithin(o.location, o.radius);
  }

  /** Kills and deaths move independently: a kill then a respawn is a
      respawn then a kill. */
  lemma KillRespawnCommute(s: Ship, location: Vec2)
    ensures s.Kill().Respawn(location) == s.Respawn(location).Kill()
  {
  }

  /** The test of a massless body: under the field `(0,1)` it drifts with
      its velocity, in any world of at least `1 x 0` (the test uses
      `DVec2::MAX`). */
  lemma MasslessBodyDrifts(size: Vec2)
    requires 1.0 <= size.x && 0.0 <= size.y
    ensures Object.New(Zero, 1.0, 0.0, Vec2(1.0, 0.0)).Update(1.0, Vec2(0.0, 1.0), size).location == Vec2(1.0, 0.0)
  {
    var o := Object.New(Zero, 1.0, 0.0, Vec2(1.0, 0.0));
    assert Add(o.location, Scale(o.velocity, 1.0)) == Vec2(1.0, 0.0);
  }

  /** The tests of the clamps at both corners of a `50 x 40` world. */
  lemma BoundExamples()
    ensures Object.New(Vec2(100.0, 80.0), 1.0, 1.0, Zero).Update(0.0, Zero, Vec2(50.0, 40.0)).location == Vec2(50.0, 40.0)
    ensures Object.New(Vec2(-10.0, -20.0), 1.0, 1.0, Zero).Update(0.0, Zero, Vec2(50.0, 40.0)).location == Zero
  {
    assert Add(Vec2(100.0, 80.0), Scale(Zero, 0.0)) == Vec2(100.0, 80.0);
    assert Add(Vec2(-10.0, -20.0), Scale(Zero, 0.0)) == Vec2(-10.0, -20.0);
  }

  /** A step that stays inside the world is the plain integration step. */
  lemma UnclampedStep(o: Object, time: real, totalField: Vec2, size: Vec2)
    requires o.mass != 0.0
    requires var l := Add(o.location, Scale(o.velocity, time));
             0.0 <= l.x <= size.x && 0.0 <= l.y <= size.y
    ensures o.Update(time, totalField, size) ==
            o.(location := Add(o.location, Scale(o.velocity, time)),
               velocity := Add(o.velocity, Scale(o.acceleration, time)),
               acceleration := Div(totalField, o.mass))
  {
  }

  /** The test that sets an acceleration, gains velocity, then moves:
      three steps under the field `(0,1)` end at `(0,1)`, in any world of
      at least `1 x 1` (the test uses `DVec2::MAX`). */
  lemma AcceleratedBodyExample(size: Vec2)
    requires 1.0 <= size.x && 1.0 <= size.y
    ensures var o := Object.New(Zero, 1.0, 1.0, Zero);
            var f := Vec2(0.0, 1.0);
            o.Update(0.0, f, size).Update(1.0, f, size).Update(1.0, f, size).location == f
  {
    var f := Vec2(0.0, 1.0);
    var o0 := Object.New(Zero, 1.0, 1.0, Zero);
    assert Add(o0.location, Scale(o0.velocity, 0.0)) == Zero;
    UnclampedStep(o0, 0.0, f, size);
    var o1 := o0.Update(0.0, f, size);
    assert o1 == Object(Zero, 1.0, 1.0, Zero, f);
    assert Add(o1.location, Scale(o1.velocity, 1.0)) == Zero;
    UnclampedStep(o1, 1.0, f, size);
    var o2 := o1.Update(1.0, f, size);
    assert o2 == Object(Zero, 1.0, 1.0, f, f);
    assert Add(o2.location, Scale(o2.velocity, 1.0)) == f;
    UnclampedStep(o2, 1.0, f, size);
  }
}
