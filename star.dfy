/**
 * The body classes of star.ts: `Star` keeps `mass = size^3`, `Star2D` adds
 * the planar motion, the trail trim of `drawTravel` and the polar
 * accessors `direction` and `speedSize`, `Star3D` the spatial motion with
 * its trail trim.  Each method that moves a body is specified by the value
 * functions of `Motion` and `Trails` that the engines use as well.
 */
module Stars {
  import opened Numerics
  import opened Vectors
  import opened Trails
  import opened Bodies
  import opened Motion

  /**
   * `Math.atan2`, `Math.cos`, `Math.sin` and `Math.PI`.  They are library
   * code, so they are parameters; the proofs use only that `PI` is
   * positive and that `cos² + sin² = 1`.
   */
  datatype Trig = Trig(atan2: (real, real) -> real, cos: real -> real, sin: real -> real, pi: real) {
    ghost predicate Valid() {
      0.0 < pi && forall t: real :: cos(t) * cos(t) + sin(t) * sin(t) == 1.0
    }
  }

  /** `calcDistanceOnVec2(v, {x: 0, y: 0})`: the length of `v`. */
  function Magnitude(roots: Roots, v: Vec2): real {
    roots.sqrt(Dot2(v, v))
  }

  /** The length is zero exactly for the zero vector. */
  lemma MagnitudeZero(roots: Roots, v: Vec2)
    requires roots.Valid()
    ensures 0.0 <= Magnitude(roots, v)
    ensures Magnitude(roots, v) == 0.0 <==> v == Zero2
  {
    var q := Dot2(v, v);
    assert 0.0 <= v.x * v.x && 0.0 <= v.y * v.y;
    if v != Zero2 {
      assert 0.0 < q by {
        if v.x != 0.0 {
          SquareOrder(0.0, if v.x < 0.0 then -v.x else v.x);
        } else {
          SquareOrder(0.0, if v.y < 0.0 then -v.y else v.y);
        }
      }
      SqrtPositive(roots, q);
    } else {
      SqrtOfSquare(roots, 0.0);
    }
  }

  /** Scaling a vector by `k` scales its length by `|k|`. */
  lemma MagnitudeScale(roots: Roots, v: Vec2, k: real)
    requires roots.Valid()
    ensures Magnitude(roots, Scale2(v, k)) == (if k < 0.0 then -k else k) * Magnitude(roots, v)
  {
    var w := Scale2(v, k);
    var m, a := Magnitude(roots, v), if k < 0.0 then -k else k;
    MagnitudeZero(roots, v);
    assert 0.0 <= a * m && Dot2(w, w) == (a * m) * (a * m) by {
      ScaledSquares(v.x, v.y, k, m, a);
    }
    SqrtIs(roots, Dot2(w, w), a * m);
  }

  /** The arithmetic of `MagnitudeScale`. */
  lemma ScaledSquares(x: real, y: real, k: real, m: real, a: real)
    requires 0.0 <= m && m * m == x * x + y * y && a == (if k < 0.0 then -k else k)
    ensures 0.0 <= a * m && (x * k) * (x * k) + (y * k) * (y * k) == (a * m) * (a * m)
  {
    calc {
      (x * k) * (x * k) + (y * k) * (y * k);
      (k * k) * (x * x + y * y);
      (a * a) * (m * m);
      (a * m) * (a * m);
    }
  }

  /** Degrees to the radians `cos` and `sin` take. */
  function Radians(trig: Trig, degrees: real): real {
    degrees / 180.0 * trig.pi
  }

  /** The vector of length `r` at `degrees` from the x axis. */
  function Polar(trig: Trig, r: real, degrees: real): Vec2 {
    var t := Radians(trig, degrees);
    Vec2(r * trig.cos(t), r * trig.sin(t))
  }

  /** A polar vector has the length it was built with (`|r|` for a negative `r`). */
  lemma PolarMagnitude(roots: Roots, trig: Trig, r: real, degrees: real)
    requires roots.Valid() && trig.Valid()
    ensures Magnitude(roots, Polar(trig, r, degrees)) == if r < 0.0 then -r else r
  {
    var t := Radians(trig, degrees);
    var c, s := trig.cos(t), trig.sin(t);
    var a := if r < 0.0 then -r else r;
    assert c * c + s * s == 1.0;
    assert (r * c) * (r * c) + (r * s) * (r * s) == a * a by {
      calc {
        (r * c) * (r * c) + (r * s) * (r * s);
        (r * r) * (c * c + s * s);
        r * r;
      }
    }
    var p := Polar(trig, r, degrees);
    assert p == Vec2(r * c, r * s);
    assert 0.0 <= a && Dot2(p, p) == a * a;
    SqrtIs(roots, Dot2(p, p), a);
  }

  /** `Math.atan2(speed.y, speed.x) * 180 / Math.PI`: the angle of a speed in degrees. */
  function Angle(trig: Trig, speed: Vec2): real
    requires trig.Valid()
  {
    trig.atan2(speed.y, speed.x) * 180.0 / trig.pi
  }

  /** The angle in degrees the getter `direction` reports for a speed. */
  function Heading(trig: Trig, speed: Vec2, lastDirection: real): real
    requires trig.Valid()
  {
    if speed == Zero2 then lastDirection else Angle(trig, speed)
  }

  /** The new speed of the setter `speedSize`. */
  function Resized(roots: Roots, trig: Trig, speed: Vec2, lastDirection: real, newSize: real): Vec2
    requires roots.Valid()
  {
    var current := Magnitude(roots, speed);
    if current == 0.0 then Polar(trig, newSize, lastDirection)
    else Scale2(speed, newSize / current)
  }

  /**
   * Setting `speedSize` to `s` leaves a speed of length `|s|`: a moving
   * body keeps its direction (both components take the same factor), a
   * body at rest starts off along `lastDirection`.
   */
  lemma ResizedMagnitude(roots: Roots, trig: Trig, speed: Vec2, lastDirection: real, newSize: real)
    requires roots.Valid() && trig.Valid()
    ensures Magnitude(roots, Resized(roots, trig, speed, lastDirection, newSize))
      == if newSize < 0.0 then -newSize else newSize
  {
    var current := Magnitude(roots, speed);
    MagnitudeZero(roots, speed);
    if current == 0.0 {
      PolarMagnitude(roots, trig, newSize, lastDirection);
    } else {
      var k := newSize / current;
      MagnitudeScale(roots, speed, k);
      assert k * current == newSize;
      if newSize < 0.0 {
        assert k < 0.0;
        assert -k * current == -newSize;
      } else {
        assert 0.0 <= k;
      }
    }
  }

  /**
   * Setting the `direction` of a body keeps the length of its speed, and a
   * body at rest then reports the direction it was given.
   */
  lemma TurnedKeepsMagnitude(roots: Roots, trig: Trig, speed: Vec2, degrees: real)
    requires roots.Valid() && trig.Valid()
    ensures Magnitude(roots, Polar(trig, Magnitude(roots, speed), degrees)) == Magnitude(roots, speed)
    ensures speed == Zero2 ==> Heading(trig, Polar(trig, Magnitude(roots, speed), degrees), degrees) == degrees
  {
    MagnitudeZero(roots, speed);
    PolarMagnitude(roots, trig, Magnitude(roots, speed), degrees);
    if speed == Zero2 {
      var t := Radians(trig, degrees);
      assert Polar(trig, 0.0, degrees) == Vec2(0.0 * trig.cos(t), 0.0 * trig.sin(t)) == Zero2;
    }
  }

  /** `Star2D`: a planar body object; its methods update its fields in place. */
  class Star2D {
    var id: string
    var color: string
    var size: real
    var mass: real
    var position: Vec2
    var speed: Vec2
    var travel: seq<Vec2>
    var lastDirection: real

    /** The mass always follows the size. */
    ghost predicate Valid()
      reads this
    {
      mass == Cube(size)
    }

    /** The body's values, as the engines hold them. */
    function Body(): Body<Vec2>
      reads this
    {
      Bodies.Body(id, color, size, position, speed, travel)
    }

    /** `new Star2D(params)`: an empty trail and direction `0`. */
    constructor(id: string, color: string, size: real, position: Vec2, speed: Vec2)
      ensures Valid()
      ensures this.id == id && this.color == color && this.size == size
      ensures this.position == position && this.speed == speed
      ensures travel == [] && lastDirection == 0.0
    {
      this.id := id;
      this.color := color;
      this.position := position;
      this.speed := speed;
      this.size := size;
      this.mass := Cube(size);
      this.travel := [];
      this.lastDirection := 0.0;
    }

    /** The setter `setSize`: the size, and with it the mass. */
    method SetSize(newSize: real)
      modifies this
      ensures Valid() && size == newSize
      ensures id == old(id) && color == old(color) && position == old(position)
      ensures speed == old(speed) && travel == old(travel) && lastDirection == old(lastDirection)
    {
      size := newSize;
      mass := Cube(size);
    }

    /**
     * `clone`: a new object with the same id, colour, size, position and
     * speed, and its own empty trail.  It is fresh, so changing either
     * object later leaves the other as it is.
     */
    method Clone() returns (c: Star2D)
      ensures fresh(c) && c.Valid()
      ensures c.id == id && c.color == color && c.size == size
      ensures c.position == position && c.speed == speed
      ensures c.travel == [] && c.lastDirection == 0.0
    {
      c := new Star2D(id, color, size, position, speed);
    }

    /** The getter `sandboxData`: what is needed to build the body again. */
    function SandboxData(): (r: Bodies.SandboxData<Vec2>)
      reads this
      ensures r.position == position && r.speed == speed && r.color == color && r.size == size
    {
      Bodies.SandboxData(position, speed, color, size)
    }

    /**
     * The getter `direction`: a moving body reports the angle of its speed
     * and remembers it; a body at rest reports the angle it remembered.
     * Either way the result is what `lastDirection` holds afterwards.
     */
    method Direction(trig: Trig) returns (r: real)
      requires trig.Valid()
      modifies this
      ensures r == Heading(trig, old(speed), old(lastDirection)) && lastDirection == r
      ensures id == old(id) && color == old(color) && size == old(size) && mass == old(mass)
      ensures position == old(position) && speed == old(speed) && travel == old(travel)
    {
      var direction := Angle(trig, speed);
      if !(speed.x == 0.0 && speed.y == 0.0) {
        lastDirection := direction;
      }
      if speed.x == 0.0 && speed.y == 0.0 {
        return lastDirection;
      }
      return direction;
    }

    /** The setter `direction`: the same length of speed, turned to `degrees`. */
    method SetDirection(roots: Roots, trig: Trig, degrees: real)
      modifies this
      ensures speed == Polar(trig, Magnitude(roots, old(speed)), degrees) && lastDirection == degrees
      ensures id == old(id) && color == old(color) && size == old(size) && mass == old(mass)
      ensures position == old(position) && travel == old(travel)
    {
      var current := Magnitude(roots, speed);
      lastDirection := degrees;
      speed := Polar(trig, current, degrees);
    }

    /** The getter `speedSize`. */
    function SpeedSize(roots: Roots): (r: real)
      requires roots.Valid()
      reads this
      ensures 0.0 <= r && r * r == speed.x * speed.x + speed.y * speed.y
    {
      MagnitudeZero(roots, speed);
      Magnitude(roots, speed)
    }

    /** The setter `speedSize`; `ResizedMagnitude` says what the new speed is. */
    method SetSpeedSize(roots: Roots, trig: Trig, newSize: real)
      requires roots.Valid()
      modifies this
      ensures speed == Resized(roots, trig, old(speed), old(lastDirection), newSize)
      ensures id == old(id) && color == old(color) && size == old(size) && mass == old(mass)
      ensures position == old(position) && travel == old(travel) && lastDirection == old(lastDirection)
    {
      var currentSpeed := Magnitude(roots, speed);
      if currentSpeed == 0.0 {
        speed := Polar(trig, newSize, lastDirection);
      } else {
        var times := newSize / currentSpeed;
        speed := Vec2(speed.x * times, speed.y * times);
      }
    }

    /**
     * `moveToNext(step, forceDict)`: one semi-implicit Euler step with the
     * body's entry of the force dictionary, then the new position is
     * pushed onto the trail.
     */
    method MoveToNext(step: real, forceDict: map<string, Vec2>)
      requires Valid() && id in forceDict && mass != 0.0
      modifies this
      ensures Valid() && mass == old(mass)
      ensures Body() == MoveToNext2D(old(Body()), step, forceDict[old(id)])
      ensures lastDirection == old(lastDirection)
    {
      var force := forceDict[id];
      ghost var e := Euler2(position, speed, force, mass, step);
      var a := Vec2(force.x / mass, force.y / mass);
      speed := Vec2(speed.x + a.x * step, speed.y + a.y * step);
      position := Vec2(position.x + speed.x * step, position.y + speed.y * step);
      travel := travel + [position];
      assert speed == e.speed && position == e.position;
    }

    /**
     * The trail trim of `drawTravel`: a zero length empties the trail,
     * then `slice(-travelLength)`.
     */
    method DrawTravel(travelLength: int)
      modifies this
      ensures travel == DrawTrim(old(travel), travelLength)
      ensures id == old(id) && color == old(color) && size == old(size) && mass == old(mass)
      ensures position == old(position) && speed == old(speed) && lastDirection == old(lastDirection)
    {
      if travelLength == 0 {
        travel := [];
      }
      travel := SliceFrom(travel, -travelLength);
    }
  }

  /** `Star3D`: a body object in space. */
  class Star3D {
    var id: string
    var color: string
    var size: real
    var mass: real
    var position: Vec3
    var speed: Vec3
    var travel: seq<Vec3>

    ghost predicate Valid()
      reads this
    {
      mass == Cube(size)
    }

    function Body(): Body<Vec3>
      reads this
    {
      Bodies.Body(id, color, size, position, speed, travel)
    }

    /** `new Star3D(params)`: an empty trail. */
    constructor(id: string, color: string, size: real, position: Vec3, speed: Vec3)
      ensures Valid()
      ensures this.id == id && this.color == color && this.size == size
      ensures this.position == position && this.speed == speed && travel == []
    {
      this.id := id;
      this.color := color;
      this.size := size;
      this.mass := Cube(size);
      this.position := position;
      this.speed := speed;
      this.travel := [];
    }

    method SetSize(newSize: real)
      modifies this
      ensures Valid() && size == newSize
      ensures id == old(id) && color == old(color) && position == old(position)
      ensures speed == old(speed) && travel == old(travel)
    {
      size := newSize;
      mass := Cube(size);
    }

    /** The trail part of `moveLines`: `slice(-travelLength)`. */
    method MoveLines(travelLength: int)
      modifies this
      ensures travel == SliceFrom(old(travel), -travelLength)
      ensures id == old(id) && color == old(color) && size == old(size) && mass == old(mass)
      ensures position == old(position) && speed == old(speed)
    {
      travel := SliceFrom(travel, -travelLength);
    }

    /**
     * `moveToNext(step, forceDict, travelLength)`: one step on the three
     * axes, the new position pushed, then `moveLines`.
     */
    method MoveToNext(step: real, forceDict: map<string, Vec3>, travelLength: int)
      requires Valid() && id in forceDict && mass != 0.0
      modifies this
      ensures Valid() && mass == old(mass)
      ensures Body() == MoveToNext3D(old(Body()), step, forceDict[old(id)], travelLength)
    {
      var force := forceDict[id];
      ghost var e := Euler3(position, speed, force, mass, step);
      var a := Vec3(force.x / mass, force.y / mass, force.z / mass);
      speed := Vec3(speed.x + a.x * step, speed.y + a.y * step, speed.z + a.z * step);
      assert speed == e.speed;
      position := Vec3(position.x + speed.x * step, position.y + speed.y * step, position.z + speed.z * step);
      assert position == e.position;
      travel := travel + [position];
      MoveLines(travelLength);
      assert travel == SliceFrom(old(travel) + [e.position], -travelLength);
    }

    /** `changeTravelLength`: the trail part; the line objects are rendering. */
    method ChangeTravelLength(newTravelLength: int, oldTravelLength: int)
      modifies this
      ensures travel == Trails.ChangeTravelLength(old(travel), newTravelLength, oldTravelLength)
      ensures id == old(id) && color == old(color) && size == old(size) && mass == old(mass)
      ensures position == old(position) && speed == old(speed)
    {
      if newTravelLength > oldTravelLength {
        return;
      }
      travel := SliceFrom(travel, -newTravelLength);
    }
  }
}
