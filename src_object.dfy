/** src/object.rs: the body of the first, single-process iteration of the
    game. Bounding clamps only from above (the lower bound is the most
    negative `f64`), and the field is the pull of this body's own mass,
    directed away from `other`; it is zero when the centres coincide. */
module SrcObject {
  import opened Geometry

  datatype Object = Object(location: Vec2, radius: real, mass: real, velocity: Vec2, acceleration: Vec2)
  {
    /** `Object::new`: the arguments as given, with zero acceleration. */
    static function New(location: Vec2, radius: real, mass: real, velocity: Vec2): (o: Object)
      ensures o.acceleration == Zero
      ensures o.location == location && o.radius == radius && o.mass == mass && o.velocity == velocity
    {
      Object(location, radius, mass, velocity, Zero)
    }

    /** `spawn_from`: a new body at this body's location, with the given
        radius, mass and velocity and no acceleration. */
    function SpawnFrom(radius: real, mass: real, velocity: Vec2): (o: Object)
      ensures o.location == location && o.acceleration == Zero
      ensures o.radius == radius && o.mass == mass && o.velocity == velocity
    {
      Object(location, radius, mass, velocity, Zero)
    }

    /** `change_acceleration`: a body with mass takes its acceleration from
        the field; a massless one is left as it is. */
    function ChangeAcceleration(totalField: Vec2): (o: Object)
      ensures mass == 0.0 ==> o == this
      ensures mass != 0.0 ==> o == this.(acceleration := Div(totalField, mass))
    {
      if mass != 0.0 then this.(acceleration := Div(totalField, mass)) else this
    }

    /** `collision`: the centres are at most the sum of the radii apart. */
    predicate Collision(other: Object)
    {
      WithinOrAt(location, other.location, radius + other.radius)
    }

    /** `get_field`: zero when the two centres coincide; otherwise
        `self.mass / d^2` along `self.location - other.location`. */
    function GetField(other: Object, physics: Physics): (f: Vec2)
      ensures location == other.location ==> f == Zero
      ensures location != other.location ==> f == physics.inverseSquare(other.location, location, mass)
    {
      if location == other.location then Zero
      else physics.inverseSquare(other.location, location, mass)
    }

    /** `bound`: `clamp(DVec2::MIN, size)`, so only `size` limits the body. */
    function Bound(size: Vec2): (o: Object)
      ensures o.location.x <= size.x && o.location.y <= size.y
      ensures location.x > size.x ==> o.location.x == size.x
      ensures location.y > size.y ==> o.location.y == size.y
      ensures VecMin.x <= location.x <= size.x && VecMin.y <= location.y <= size.y ==> o == this
      ensures o.velocity == velocity && o.acceleration == acceleration
      ensures o.radius == radius && o.mass == mass
    {
      this.(location := Clamp(location, VecMin, size))
    }

    /** `Updatable::update`: the velocity advances first, and the location
        moves with the new velocity. */
    function Advance(time: real): (o: Object)
      ensures o.velocity == Add(velocity, Scale(acceleration, time))
      ensures o.location == Add(location, Scale(o.velocity, time))
      ensures o.radius == radius && o.mass == mass && o.acceleration == acceleration
    {
      var v := Add(velocity, Scale(acceleration, time));
      this.(velocity := v, location := Add(location, Scale(v, time)))
    }
  }

  /** A massless body keeps its velocity under any field: after one second
      it has moved by exactly its velocity (test at src/object.rs:94). */
  lemma MasslessBodyDrifts(o: Object, totalField: Vec2)
    requires o.mass == 0.0 && o.acceleration == Zero
    ensures o.ChangeAcceleration(totalField).Advance(1.0).location == Add(o.location, o.velocity)
  {
    assert Scale(o.velocity, 1.0) == o.velocity;
  }

  /** The test of an accelerated body: velocity `(1,0)` and field `(0,1)`
      on unit mass reach `(1,1)` after one second. */
  lemma AcceleratedBodyExample()
    ensures Object.New(Zero, 1.0, 1.0, Vec2(1.0, 0.0)).ChangeAcceleration(Vec2(0.0, 1.0)).Advance(1.0).location
            == Vec2(1.0, 1.0)
  {
    var o := Object.New(Zero, 1.0, 1.0, Vec2(1.0, 0.0)).ChangeAcceleration(Vec2(0.0, 1.0));
    assert o.acceleration == Vec2(0.0, 1.0);
  }

  /** The test of `bound`: `(100,80)` in a `50 x 40` world lands on `(50,40)`. */
  lemma BoundExample()
    ensures Object.New(Vec2(100.0, 80.0), 1.0, 1.0, Zero).Bound(Vec2(50.0, 40.0)).location == Vec2(50.0, 40.0)
  {
  }

  /** Bounding twice is bounding once. */
  lemma BoundIdempotent(o: Object, size: Vec2)
    ensures o.Bound(size).Bound(size) == o.Bound(size)
  {
  }
}
