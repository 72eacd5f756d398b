/**
 * The integrator shared by every variant: semi-implicit (symplectic) Euler.
 * The speed takes the impulse `force/mass * step` first, and the position
 * then moves by the NEW speed times `step`.  The page variants use no step
 * factor, which is the same update with `step = 1`.
 */
module Motion {
  import opened Numerics
  import opened Vectors
  import opened Trails
  import opened Bodies

  /** Position and speed of one body. */
  datatype Phase2 = Phase2(position: Vec2, speed: Vec2)
  datatype Phase3 = Phase3(position: Vec3, speed: Vec3)

  /** One integration step in the plane. */
  function Euler2(position: Vec2, speed: Vec2, force: Vec2, mass: real, step: real): (r: Phase2)
    requires mass != 0.0
    ensures Scale2(Sub2(r.speed, speed), mass) == Scale2(force, step)
    ensures Sub2(r.position, position) == Scale2(r.speed, step)
  {
    var a := Vec2(force.x / mass, force.y / mass);
    var v := Vec2(speed.x + a.x * step, speed.y + a.y * step);
    Phase2(Vec2(position.x + v.x * step, position.y + v.y * step), v)
  }

  /** One integration step in space. */
  function Euler3(position: Vec3, speed: Vec3, force: Vec3, mass: real, step: real): (r: Phase3)
    requires mass != 0.0
    ensures Scale3(Sub3(r.speed, speed), mass) == Scale3(force, step)
    ensures Sub3(r.position, position) == Scale3(r.speed, step)
  {
    var a := Vec3(force.x / mass, force.y / mass, force.z / mass);
    var v := Vec3(speed.x + a.x * step, speed.y + a.y * step, speed.z + a.z * step);
    Phase3(Vec3(position.x + v.x * step, position.y + v.y * step, position.z + v.z * step), v)
  }

  /**
   * The impulse and drift equations determine the step: any phase that
   * satisfies them is the one `Euler2` computes.
   */
  lemma Euler2Unique(position: Vec2, speed: Vec2, force: Vec2, mass: real, step: real, r: Phase2)
    requires mass != 0.0
    requires Scale2(Sub2(r.speed, speed), mass) == Scale2(force, step)
    requires Sub2(r.position, position) == Scale2(r.speed, step)
    ensures r == Euler2(position, speed, force, mass, step)
  {
    var e := Euler2(position, speed, force, mass, step);
    var dx, ex := r.speed.x - speed.x, e.speed.x - speed.x;
    var dy, ey := r.speed.y - speed.y, e.speed.y - speed.y;
    assert Scale2(Sub2(r.speed, speed), mass) == Scale2(Sub2(e.speed, speed), mass);
    Cancel(dx, ex, mass);
    Cancel(dy, ey, mass);
    assert r.speed == e.speed;
  }

  lemma Euler3Unique(position: Vec3, speed: Vec3, force: Vec3, mass: real, step: real, r: Phase3)
    requires mass != 0.0
    requires Scale3(Sub3(r.speed, speed), mass) == Scale3(force, step)
    requires Sub3(r.position, position) == Scale3(r.speed, step)
    ensures r == Euler3(position, speed, force, mass, step)
  {
    var e := Euler3(position, speed, force, mass, step);
    var dx, ex := r.speed.x - speed.x, e.speed.x - speed.x;
    var dy, ey := r.speed.y - speed.y, e.speed.y - speed.y;
    var dz, ez := r.speed.z - speed.z, e.speed.z - speed.z;
    assert Scale3(Sub3(r.speed, speed), mass) == Scale3(Sub3(e.speed, speed), mass);
    Cancel(dx, ex, mass);
    Cancel(dy, ey, mass);
    Cancel(dz, ez, mass);
    assert r.speed == e.speed;
  }

  /** The step run backwards: drift back with the new speed, then remove the impulse. */
  function Unstep2(r: Phase2, force: Vec2, mass: real, step: real): Phase2
    requires mass != 0.0
  {
    var p := Sub2(r.position, Scale2(r.speed, step));
    Phase2(p, Sub2(r.speed, Scale2(force, step / mass)))
  }

  function Unstep3(r: Phase3, force: Vec3, mass: real, step: real): Phase3
    requires mass != 0.0
  {
    var p := Sub3(r.position, Scale3(r.speed, step));
    Phase3(p, Sub3(r.speed, Scale3(force, step / mass)))
  }

  /** The integrator loses no information: the step can be undone exactly. */
  lemma Euler2Reversible(position: Vec2, speed: Vec2, force: Vec2, mass: real, step: real)
    requires mass != 0.0
    ensures Unstep2(Euler2(position, speed, force, mass, step), force, mass, step) == Phase2(position, speed)
  {
    var ax, ay := force.x / mass, force.y / mass;
    assert force.x * (step / mass) == ax * step;
    assert force.y * (step / mass) == ay * step;
  }

  lemma Euler3Reversible(position: Vec3, speed: Vec3, force: Vec3, mass: real, step: real)
    requires mass != 0.0
    ensures Unstep3(Euler3(position, speed, force, mass, step), force, mass, step) == Phase3(position, speed)
  {
    var ax, ay, az := force.x / mass, force.y / mass, force.z / mass;
    assert force.x * (step / mass) == ax * step;
    assert force.y * (step / mass) == ay * step;
    assert force.z * (step / mass) == az * step;
  }

  /**
   * `Star2D.moveToNext` (star.ts) on the body's values: one step with the
   * body's force, then the new position is pushed onto the trail, untrimmed.
   */
  function MoveToNext2D(b: Body<Vec2>, step: real, force: Vec2): (r: Body<Vec2>)
    requires Mass(b) != 0.0
    ensures r.id == b.id && r.color == b.color && r.size == b.size
    ensures Scale2(Sub2(r.speed, b.speed), Mass(b)) == Scale2(force, step)
    ensures Sub2(r.position, b.position) == Scale2(r.speed, step)
    ensures r.travel == b.travel + [r.position]
  {
    var e := Euler2(b.position, b.speed, force, Mass(b), step);
    b.(position := e.position, speed := e.speed, travel := b.travel + [e.position])
  }

  /**
   * `Star3D.moveToNext` followed by the trim of `moveLines`: push the new
   * position, then `slice(-travelLength)`, with no special case for zero.
   */
  function MoveToNext3D(b: Body<Vec3>, step: real, force: Vec3, travelLength: int): (r: Body<Vec3>)
    requires Mass(b) != 0.0
    ensures r.id == b.id && r.color == b.color && r.size == b.size
    ensures Scale3(Sub3(r.speed, b.speed), Mass(b)) == Scale3(force, step)
    ensures Sub3(r.position, b.position) == Scale3(r.speed, step)
    ensures 0 < travelLength ==> r.travel == Last(b.travel + [r.position], travelLength)
    ensures travelLength == 0 ==> r.travel == b.travel + [r.position]
    ensures travelLength < 0 ==> IsSuffix(r.travel, b.travel + [r.position])
  {
    var e := Euler3(b.position, b.speed, force, Mass(b), step);
    b.(position := e.position, speed := e.speed, travel := SliceFrom(b.travel + [e.position], -travelLength))
  }

  /**
   * `moveStar` of component/3d.tsx: the position BEFORE the move is pushed
   * and the trail trimmed, then one step is taken.
   */
  function MoveStar3D(b: Body<Vec3>, force: Vec3, travelLength: int, step: real): (r: Body<Vec3>)
    requires Mass(b) != 0.0
    ensures r.id == b.id && r.color == b.color && r.size == b.size
    ensures Scale3(Sub3(r.speed, b.speed), Mass(b)) == Scale3(force, step)
    ensures Sub3(r.position, b.position) == Scale3(r.speed, step)
    ensures r.travel == if 0 < travelLength then Last(b.travel + [b.position], travelLength) else []
    ensures |r.travel| <= if 0 < travelLength then travelLength else 0
  {
    var travel := PushTrim(b.travel, b.position, travelLength);
    var e := Euler3(b.position, b.speed, force, Mass(b), step);
    b.(position := e.position, speed := e.speed, travel := travel)
  }

  /**
   * `moveStar` of page/2d.tsx and page/canvas.tsx: push the old position
   * and trim, then add `force/mass` to the speed and the new speed to the
   * position.  Without a step factor this is the step of length 1.
   */
  function MoveStarPage(b: Body<Vec2>, force: Vec2, travelLength: int): (r: Body<Vec2>)
    requires Mass(b) != 0.0
    ensures r.id == b.id && r.color == b.color && r.size == b.size
    ensures Phase2(r.position, r.speed) == Euler2(b.position, b.speed, force, Mass(b), 1.0)
    ensures r.travel == if 0 < travelLength then Last(b.travel + [b.position], travelLength) else []
    ensures |r.travel| <= if 0 < travelLength then travelLength else 0
  {
    var travel := PushTrim(b.travel, b.position, travelLength);
    var m := Mass(b);
    var v := Vec2(b.speed.x + force.x / m, b.speed.y + force.y / m);
    b.(position := Add2(b.position, v), speed := v, travel := travel)
  }
}
