/** server/src/logic/object.rs: the body that planets, ships and bullets of
    the unit-square world share, with its integration step and its
    clamp-and-stop boundary policy. */
module LogicObject {
  import opened Geometry

  /** `Object`. The struct in logic/object.rs has no `field`, but
      logic/space_object.rs builds every body with a five-argument
      `Object::new(location, radius, mass, field, velocity)`; the model
      follows that caller and carries `field`, which no operation here reads. */
  datatype Object = Object(location: Vec2, radius: real, mass: real, field: real,
                           velocity: Vec2, acceleration: Vec2)
  {
    /** `Object::new`: the arguments as given, at rest in acceleration. */
    static function New(location: Vec2, radius: real, mass: real, field: real, velocity: Vec2): (o: Object)
      ensures o.acceleration == Zero
      ensures o.location == location && o.velocity == velocity
      ensures o.radius == radius && o.mass == mass && o.field == field
    {
      Object(location, radius, mass, field, velocity, Zero)
    }

    /** `update`: a body with mass takes its acceleration from the field;
        a massless one keeps the acceleration it has. Velocity, then
        location, are advanced, and the boundary policy is applied. */
    function Update(time: real, totalField: Vec2): (o: Object)
      ensures InUnitSquare(o.location)
      ensures o.radius == radius && o.mass == mass && o.field == field
    {
      Integrated(time, totalField).Bound()
    }

    /** `update` as written: the same step, finished by the as-written
        `bound`. Its location is the same as `Update`'s; only the vertical
        velocity and acceleration can differ. */
    function UpdateAsWritten(time: real, totalField: Vec2): (o: Object)
      ensures o.location == Update(time, totalField).location
      ensures o.velocity.x == Update(time, totalField).velocity.x
      ensures o.acceleration.x == Update(time, totalField).acceleration.x
      ensures o.radius == radius && o.mass == mass && o.field == field
    {
      Integrated(time, totalField).BoundAsWritten()
    }

    /** The integration step of `update` before the boundary policy: the
        acceleration (a massless body keeps its own), then the velocity,
        then the location. */
    function Integrated(time: real, totalField: Vec2): Object
    {
      var a' := if mass != 0.0 then Div(totalField, mass) else acceleration;
      var v' := Add(velocity, Scale(a', time));
      var l' := Add(location, Scale(v', time));
      this.(location := l', velocity := v', acceleration := a')
    }

    /** `bound` with the y test the code evidently means (`y > 1`): each
        axis on which the body left `[0,1]` loses its velocity and
        acceleration, and the location is clamped into `[0,1]^2`. */
    function Bound(): (o: Object)
      ensures InUnitSquare(o.location)
      ensures OutsideUnit(location.x) ==> o.velocity.x == 0.0 && o.acceleration.x == 0.0
      ensures !OutsideUnit(location.x) ==> o.velocity.x == velocity.x && o.acceleration.x == acceleration.x
      ensures OutsideUnit(location.y) ==> o.velocity.y == 0.0 && o.acceleration.y == 0.0
      ensures !OutsideUnit(location.y) ==> o.velocity.y == velocity.y && o.acceleration.y == acceleration.y
      ensures location.x > 1.0 ==> o.location.x == 1.0
      ensures location.x < 0.0 ==> o.location.x == 0.0
      ensures location.y > 1.0 ==> o.location.y == 1.0
      ensures location.y < 0.0 ==> o.location.y == 0.0
      ensures InUnitSquare(location) ==> o == this
      ensures o.radius == radius && o.mass == mass && o.field == field
    {
      var stopX, stopY := OutsideUnit(location.x), OutsideUnit(location.y);
      this.(velocity := Vec2(if stopX then 0.0 else velocity.x, if stopY then 0.0 else velocity.y),
            acceleration := Vec2(if stopX then 0.0 else acceleration.x, if stopY then 0.0 else acceleration.y),
            location := Clamp(location, Zero, Vec2(1.0, 1.0)))
    }

    /** `bound` as written: the y components are reset when `y < 0` or
        `x > 1`, so a body above the top edge keeps its vertical velocity. */
    function BoundAsWritten(): (o: Object)
      ensures InUnitSquare(o.location)
      ensures OutsideUnit(location.x) ==> o.velocity.x == 0.0 && o.acceleration.x == 0.0
      ensures !OutsideUnit(location.x) ==> o.velocity.x == velocity.x && o.acceleration.x == acceleration.x
      ensures location.y < 0.0 || location.x > 1.0 ==> o.velocity.y == 0.0 && o.acceleration.y == 0.0
      ensures !(location.y < 0.0 || location.x > 1.0) ==> o.velocity.y == velocity.y && o.acceleration.y == acceleration.y
      ensures o.location == Bound().location
      ensures InUnitSquare(location) ==> o == this
      ensures o.radius == radius && o.mass == mass && o.field == field
    {
      var stopX, stopY := OutsideUnit(location.x), location.y < 0.0 || location.x > 1.0;
      this.(velocity := Vec2(if stopX then 0.0 else velocity.x, if stopY then 0.0 else velocity.y),
            acceleration := Vec2(if stopX then 0.0 else acceleration.x, if stopY then 0.0 else acceleration.y),
            location := Clamp(location, Zero, Vec2(1.0, 1.0)))
    }

    /** `collision`: the distance between the centres is at most the sum of
        the radii. */
    predicate Collision(other: Object)
    {
      WithinOrAt(location, other.location, radius + other.radius)
    }

    /** `get_field`: the pull this body feels from `other`; none while it is
        closer to `other` than `other`'s radius. The strength is `other.mass`. */
    function GetField(other: Object, physics: Physics): (f: Vec2)
      ensures Within(location, other.location, other.radius) ==> f == Zero
      ensures !Within(location, other.location, other.radius) ==>
                f == physics.inverseSquare(location, other.location, other.mass)
    {
      if Within(location, other.location, other.radius) then Zero
      else physics.inverseSquare(location, other.location, other.mass)
    }

    /** `in_space`: largest coordinate below 1 and smallest above 0. */
    predicate InSpace()
    {
      Max(location.x, location.y) < 1.0 && Min(location.x, location.y) > 0.0
    }
  }

  predicate OutsideUnit(v: real)
  {
    v < 0.0 || v > 1.0
  }

  predicate InUnitSquare(p: Vec2)
  {
    0.0 <= p.x <= 1.0 && 0.0 <= p.y <= 1.0
  }

  /** `in_space` holds exactly for points strictly inside the unit square. */
  lemma InSpaceIsOpenSquare(o: Object)
    ensures o.InSpace() <==> 0.0 < o.location.x < 1.0 && 0.0 < o.location.y < 1.0
  {
  }

  /** A body that crossed an edge is clamped onto it, so it is not
      `in_space` afterwards. */
  lemma ClampedBodyLeavesSpace(o: Object)
    requires !InUnitSquare(o.location)
    ensures !o.Bound().InSpace()
  {
    InSpaceIsOpenSquare(o.Bound());
  }

  /** Applying the boundary policy twice is applying it once. */
  lemma BoundIdempotent(o: Object)
    ensures o.Bound().Bound() == o.Bound()
  {
  }

  /** Collision does not depend on the order of the two bodies. */
  lemma CollisionSymmetric(a: Object, b: Object)
    ensures a.Collision(b) == b.Collision(a)
  {
    assert a.radius + b.radius == b.radius + a.radius;
    WithinOrAtSymmetric(a.location, b.location, a.radius + b.radius);
  }

  /** A massless body ignores the field: any two fields give the same step. */
  lemma MassZeroIgnoresField(o: Object, time: real, f1: Vec2, f2: Vec2)
    requires o.mass == 0.0
    ensures o.Update(time, f1) == o.Update(time, f2)
    ensures o.UpdateAsWritten(time, f1) == o.UpdateAsWritten(time, f2)
  {
  }

  /** The step of the test that leaves a massless body drifting: velocity
      `(0.1, 0)`, one second under a field `(0, 1)` ends at `(0.1, 0)`. */
  lemma MasslessBodyDrifts()
    ensures Object.New(Zero, 1.0, 0.0, 0.0, Vec2(0.1, 0.0)).Update(1.0, Vec2(0.0, 1.0)).location == Vec2(0.1, 0.0)
  {
  }

  /** A step that stays inside the unit square is the plain integration
      step: acceleration from the field first, then velocity, then location. */
  lemma UnclampedStep(o: Object, time: real, totalField: Vec2)
    requires o.mass != 0.0
    requires var v := Add(o.velocity, Scale(Div(totalField, o.mass), time));
             InUnitSquare(Add(o.location, Scale(v, time)))
    ensures var a := Div(totalField, o.mass);
            var v := Add(o.velocity, Scale(a, time));
            o.Update(time, totalField) == o.(location := Add(o.location, Scale(v, time)), velocity := v, acceleration := a) &&
            o.UpdateAsWritten(time, totalField) == o.Update(time, totalField)
  {
  }

  /** The test of an accelerated body: unit mass at rest under the field
      `(0, 0.1)` is at `(0, 0.1)` after one second. */
  lemma AcceleratedBodyExample()
    ensures Object.New(Zero, 1.0, 1.0, 0.0, Zero).Update(1.0, Vec2(0.0, 0.1)).location == Vec2(0.0, 0.1)
  {
    var o := Object.New(Zero, 1.0, 1.0, 0.0, Zero);
    assert Div(Vec2(0.0, 0.1), o.mass) == Vec2(0.0, 0.1);
  }

  /** The tests of the boundary at both corners: a body far outside is
      put on the corner and stops. */
  lemma BoundExamples()
    ensures var o := Object.New(Vec2(100.0, 80.0), 1.0, 1.0, 0.0, Vec2(10.0, 10.0)).Update(0.0, Zero);
            o.location == Vec2(1.0, 1.0) && o.velocity == Zero && o.acceleration == Zero
    ensures var o := Object.New(Vec2(-10.0, -20.0), 1.0, 1.0, 0.0, Vec2(-10.0, -10.0)).Update(0.0, Zero);
            o.location == Zero && o.velocity == Zero && o.acceleration == Zero
  {
  }

  /** Finding: the as-written `bound` lets a body that left through the top
      keep moving up at the edge, and stops vertical motion of a body that
      only left through the right. */
  lemma BoundAsWrittenMissesTopEdge()
    ensures var o := Object.New(Vec2(0.5, 2.0), 0.1, 1.0, 0.0, Vec2(0.0, 1.0));
            o.BoundAsWritten().location == Vec2(0.5, 1.0) &&
            o.BoundAsWritten().velocity.y == 1.0 && o.Bound().velocity.y == 0.0
    ensures var o := Object.New(Vec2(2.0, 0.5), 0.1, 1.0, 0.0, Vec2(0.0, 1.0));
            o.BoundAsWritten().velocity.y == 0.0 && o.Bound().velocity.y == 1.0
  {
  }

  /** The two versions of `bound` differ only in the vertical components,
      and only when exactly one of the conditions `y > 1`, `x > 1` holds
      (with `y >= 0`). */
  lemma BoundAsWrittenDiffersOnlyThere(o: Object)
    ensures (o.location.y < 0.0 || !(o.location.y > 1.0 || o.location.x > 1.0) ||
             (o.location.y > 1.0 && o.location.x > 1.0)) ==> o.BoundAsWritten() == o.Bound()
  {
  }

  /** The tick as written and the tick as intended agree on every step
      that does not end above the top edge or beyond the right edge alone. */
  lemma UpdateAsWrittenAgreesElsewhere(o: Object, time: real, totalField: Vec2)
    ensures var l := o.Integrated(time, totalField).location;
            (l.y < 0.0 || !(l.y > 1.0 || l.x > 1.0) || (l.y > 1.0 && l.x > 1.0)) ==>
              o.UpdateAsWritten(time, totalField) == o.Update(time, totalField)
  {
    BoundAsWrittenDiffersOnlyThere(o.Integrated(time, totalField));
  }

  /** Two massless bodies on which one step of `update` as written differs
      from the intended one: crossing the top edge keeps the upward
      velocity, and crossing only the right edge loses the vertical one. */
  lemma UpdateAsWrittenDiffersAtEdges()
    ensures var o := Object.New(Vec2(0.5, 0.95), 0.1, 0.0, 0.0, Vec2(0.0, 0.1));
            o.UpdateAsWritten(1.0, Zero).location == o.Update(1.0, Zero).location == Vec2(0.5, 1.0) &&
            o.UpdateAsWritten(1.0, Zero).velocity.y == 0.1 && o.Update(1.0, Zero).velocity.y == 0.0
    ensures var o := Object.New(Vec2(0.95, 0.5), 0.1, 0.0, 0.0, Vec2(0.1, 0.1));
            o.UpdateAsWritten(1.0, Zero).location == o.Update(1.0, Zero).location == Vec2(1.0, 0.6) &&
            o.UpdateAsWritten(1.0, Zero).velocity.y == 0.0 && o.Update(1.0, Zero).velocity.y == 0.1
  {
    var o1 := Object.New(Vec2(0.5, 0.95), 0.1, 0.0, 0.0, Vec2(0.0, 0.1));
    assert o1.Integrated(1.0, Zero).location == Vec2(0.5, 1.05);
    var o2 := Object.New(Vec2(0.95, 0.5), 0.1, 0.0, 0.0, Vec2(0.1, 0.1));
    assert o2.Integrated(1.0, Zero).location == Vec2(1.05, 0.6);
  }

  /** A body of positive radius feels no pull from itself, so the sum over
      all planets in `update_planets` adds nothing for the planet itself. */
  lemma SelfPullIsZero(o: Object, physics: Physics)
    requires o.radius > 0.0
    ensures o.GetField(o, physics) == Zero
  {
    SelfWithin(o.location, o.radius);
  }
}
