/**
 * The force and collision pass (`calcForce`) of the three planar variants:
 * component/2d.tsx, page/2d.tsx and page/canvas.tsx.  They differ only in
 * whether the anchor `#0` keeps its speed when it wins a collision, which
 * is the `anchorGuard` flag of `Rules`.
 *
 * The pass is specified by a fold over the pairs `(i, j)`, `i < j`, in the
 * order of the source's nested loops (`ScanTo`), and the nested-loop method
 * `ScanPairs` is proved to compute that fold.
 */
module Engine2D {
  import opened Numerics
  import opened Vectors
  import opened Ids
  import opened Bodies
  import opened Scans

  /**
   * The settings the pass reads: the relative gravity `g`, `mergeMode`, and
   * whether an anchor that wins a collision keeps its speed.
   */
  datatype Rules = Rules(g: real, mergeMode: bool, anchorGuard: bool)

  /** `distance_2`: the squared distance between two centres. */
  function DistanceSquared(a: Vec2, b: Vec2): (r: real)
    ensures 0.0 <= r
  {
    var d := Sub2(a, b);
    var xx, yy := d.x * d.x, d.y * d.y;
    assert 0.0 <= xx && 0.0 <= yy;
    xx + yy
  }

  /** The planar overlap test `distance < star1.size + star2.size` (strict). */
  predicate Collide(roots: Roots, b1: Body<Vec2>, b2: Body<Vec2>) {
    roots.sqrt(DistanceSquared(b1.position, b2.position)) < b1.size + b2.size
  }

  /** The test needs no root: it compares squared distance with squared reach. */
  lemma CollideSquared(roots: Roots, b1: Body<Vec2>, b2: Body<Vec2>)
    requires roots.Valid() && 0.0 < b1.size && 0.0 < b2.size
    ensures Collide(roots, b1, b2) <==>
      DistanceSquared(b1.position, b2.position) < (b1.size + b2.size) * (b1.size + b2.size)
  {
    StrictTestSquared(roots, DistanceSquared(b1.position, b2.position), b1.size + b2.size);
  }

  /** Bodies that do not overlap are a positive distance apart. */
  lemma ApartHasDistance(roots: Roots, b1: Body<Vec2>, b2: Body<Vec2>)
    requires roots.Valid() && 0.0 < b1.size && 0.0 < b2.size && !Collide(roots, b1, b2)
    ensures 0.0 < roots.sqrt(DistanceSquared(b1.position, b2.position))
    ensures 0.0 < DistanceSquared(b1.position, b2.position)
  {
    var d2 := DistanceSquared(b1.position, b2.position);
    var d := roots.sqrt(d2);
    assert 0.0 < d && d * d == d2;
    SquareOrder(0.0, d);
  }

  /** The magnitude `(g/100)·m1·m2/d²` of the attraction between two bodies. */
  function Pull(g: real, b1: Body<Vec2>, b2: Body<Vec2>): real
    requires DistanceSquared(b1.position, b2.position) != 0.0
  {
    (g / 100.0) * (Mass(b1) * Mass(b2)) / DistanceSquared(b1.position, b2.position)
  }

  /** `(xF, yF)`: the pull resolved along `star1 - star2`. */
  function Attraction(roots: Roots, g: real, b1: Body<Vec2>, b2: Body<Vec2>): Vec2
    requires roots.Valid() && 0.0 < b1.size && 0.0 < b2.size && !Collide(roots, b1, b2)
  {
    ApartHasDistance(roots, b1, b2);
    var delta := Sub2(b1.position, b2.position);
    var distance := roots.sqrt(DistanceSquared(b1.position, b2.position));
    Resolve(Pull(g, b1, b2), delta, distance)
  }

  /** A magnitude `f` resolved along `v`, whose length is `d`. */
  function Resolve(f: real, v: Vec2, d: real): Vec2
    requires d != 0.0
  {
    Vec2(f * v.x / d, f * v.y / d)
  }

  /**
   * Resolving a magnitude `f` along `(x, y)` of length `d`: the components
   * `f·x/d`, `f·y/d` have length `f` and project onto `(x, y)` as `f·d`.
   */
  lemma ResolvedPull(f: real, v: Vec2, d: real)
    requires 0.0 < d && d * d == Dot2(v, v)
    ensures var F := Resolve(f, v, d);
      Dot2(F, F) == f * f && Dot2(F, v) == f * d
  {
    var x, y := v.x, v.y;
    var a, b := x / d, y / d;
    assert a * d == x && b * d == y;
    MulDiv(f, x, d);
    MulDiv(f, y, d);
    assert ((a * a + b * b) * d) * d == d * d by {
      calc {
        ((a * a + b * b) * d) * d;
        (a * d) * (a * d) + (b * d) * (b * d);
        x * x + y * y;
        d * d;
      }
    }
    Cancel((a * a + b * b) * d, d, d);
    Cancel(a * a + b * b, 1.0, d);
    assert (f * a) * (f * a) + (f * b) * (f * b) == f * f * (a * a + b * b);
    assert (a * x + b * y) * d == d * d by {
      calc {
        (a * x + b * y) * d;
        (a * d) * x + (b * d) * y;
        x * x + y * y;
        d * d;
      }
    }
    Cancel(a * x + b * y, d, d);
    assert (f * a) * x + (f * b) * y == f * (a * x + b * y);
    assert Resolve(f, v, d) == Vec2(f * a, f * b);
  }

  /**
   * The attraction has length `f` and points from star2 to star1: its
   * projection on `star1 - star2` is `f·distance`.  So `-F` on star1 and
   * `+F` on star2 pull each towards the other when `g > 0`.
   */
  lemma AttractionLaw(roots: Roots, g: real, b1: Body<Vec2>, b2: Body<Vec2>)
    requires roots.Valid() && 0.0 < b1.size && 0.0 < b2.size && !Collide(roots, b1, b2)
    ensures 0.0 < DistanceSquared(b1.position, b2.position)
    ensures var F := Attraction(roots, g, b1, b2);
      var f := Pull(g, b1, b2);
      var distance := roots.sqrt(DistanceSquared(b1.position, b2.position));
      && Dot2(F, F) == f * f
      && Dot2(F, Sub2(b1.position, b2.position)) == f * distance
  {
    ApartHasDistance(roots, b1, b2);
    var delta := Sub2(b1.position, b2.position);
    var distance := roots.sqrt(DistanceSquared(b1.position, b2.position));
    ResolvedPull(Pull(g, b1, b2), delta, distance);
  }

  /** The momentum-weighted speed `P / (m1 + m2)` of a merged pair. */
  function MergedSpeed(b1: Body<Vec2>, b2: Body<Vec2>): (v: Vec2)
    requires Mass(b1) + Mass(b2) != 0.0
    ensures Scale2(v, Mass(b1) + Mass(b2)) == Add2(Scale2(b1.speed, Mass(b1)), Scale2(b2.speed, Mass(b2)))
  {
    var m1, m2 := Mass(b1), Mass(b2);
    Vec2((m1 * b1.speed.x + m2 * b2.speed.x) / (m1 + m2), (m1 * b1.speed.y + m2 * b2.speed.y) / (m1 + m2))
  }

  /** `result[id1] -= F; result[id2] += F`, one after the other. */
  function Exert(force: map<string, Vec2>, id1: string, id2: string, F: Vec2): (r: map<string, Vec2>)
    requires id1 in force && id2 in force
    ensures r.Keys == force.Keys
  {
    var once := force[id1 := Sub2(force[id1], F)];
    once[id2 := Add2(once[id2], F)]
  }

  /** A colliding pair exerts the zero vector, which changes nothing. */
  lemma ExertZero(force: map<string, Vec2>, id1: string, id2: string)
    requires id1 in force && id2 in force
    ensures Exert(force, id1, id2, Zero2) == force
  {
    var once := force[id1 := Sub2(force[id1], Zero2)];
    assert once == force;
    assert once[id2 := Add2(once[id2], Zero2)] == once;
  }

  /**
   * One pair `(i, j)` of the scan, `i < j`, applied to the working state.
   * A colliding pair marks one index for deletion and updates the survivor
   * in place; a pair that does not collide adds `-F` to star1 and `+F` to
   * star2.  What this means is stated by the lemmas after it.
   */
  function ResolvePair(roots: Roots, rules: Rules, s: Scan<Vec2>, i: nat, j: nat): Scan<Vec2>
    requires roots.Valid() && Ready(s) && i < j < |s.bodies|
  {
    var b1, b2 := s.bodies[i], s.bodies[j];
    CubePositive(b1.size);
    CubePositive(b2.size);
    if Collide(roots, b1, b2) then
      var totalSize := roots.cbrt(Mass(b1) + Mass(b2));
      var speed := MergedSpeed(b1, b2);
      var force := Exert(s.force, b1.id, b2.id, Zero2);
      if b1.size >= b2.size then
        var grown := if rules.mergeMode then b1.(size := totalSize) else b1;
        if rules.anchorGuard && b1.id == Anchor then
          Scan(s.bodies[i := grown], force, s.deleted + [j], s.changes)
        else
          Scan(s.bodies[i := grown.(speed := speed)], force, s.deleted + [j], s.changes[b1.id := i])
      else
        var grown := if rules.mergeMode then b2.(size := totalSize) else b2;
        Scan(s.bodies[j := grown.(speed := speed)], force, s.deleted + [i], s.changes[b2.id := j])
    else
      s.(force := Exert(s.force, b1.id, b2.id, Attraction(roots, rules.g, b1, b2)))
  }

  /**
   * A pair keeps the shape of the scan state: only the speed and size of
   * star1 or star2 can change, no key enters or leaves the force
   * dictionary, and `deleteIndex` only grows.
   */
  lemma ResolvePairFrame(roots: Roots, rules: Rules, s: Scan<Vec2>, i: nat, j: nat)
    requires roots.Valid() && Ready(s) && i < j < |s.bodies|
    ensures var r := ResolvePair(roots, rules, s, i, j);
      && Ready(r) && SameFrame(s.bodies, r.bodies) && r.force.Keys == s.force.Keys
      && s.deleted <= r.deleted
      && forall k :: 0 <= k < |s.bodies| && k != i && k != j ==> r.bodies[k] == s.bodies[k]
  {
    var b1, b2 := s.bodies[i], s.bodies[j];
    CubePositive(b1.size);
    CubePositive(b2.size);
    var r := ResolvePair(roots, rules, s, i, j);
    if Collide(roots, b1, b2) {
      CbrtPositive(roots, Mass(b1) + Mass(b2));
      ExertZero(s.force, b1.id, b2.id);
      assert r.force == s.force;
      var w := if b1.size >= b2.size then i else j;
      assert r.bodies == s.bodies[w := r.bodies[w]];
      assert 0.0 < r.bodies[w].size;
    } else {
      assert r.bodies == s.bodies && r.deleted == s.deleted && r.changes == s.changes;
    }
  }

  /**
   * A pair that does not overlap exchanges the attraction: star1 receives
   * `-F`, star2 receives `+F`, every other entry and the bodies, deletions
   * and `changeList` stay as they were.
   */
  lemma ApartPair(roots: Roots, rules: Rules, s: Scan<Vec2>, i: nat, j: nat)
    requires roots.Valid() && Ready(s) && i < j < |s.bodies|
    requires !Collide(roots, s.bodies[i], s.bodies[j])
    ensures var r := ResolvePair(roots, rules, s, i, j);
      var b1, b2 := s.bodies[i], s.bodies[j];
      var F := Attraction(roots, rules.g, b1, b2);
      && r.bodies == s.bodies && r.deleted == s.deleted && r.changes == s.changes
      && (b1.id != b2.id ==>
            && r.force[b1.id] == Sub2(s.force[b1.id], F)
            && r.force[b2.id] == Add2(s.force[b2.id], F))
      && forall id :: id in s.force && id != b1.id && id != b2.id ==> r.force[id] == s.force[id]
  {
  }

  /**
   * A colliding pair adds no force and pushes exactly one index: star2's
   * when star1 is at least as large (a tie keeps star1), star1's
   * otherwise.  The survivor `w` gets the momentum-weighted speed and, in
   * merge mode, a size whose cube is the total mass; an anchor that wins as
   * star1 under the guard keeps its speed and stays out of `changeList`,
   * but still grows.  The loser's record is left as it was.
   */
  lemma CollidingPair(roots: Roots, rules: Rules, s: Scan<Vec2>, i: nat, j: nat)
    requires roots.Valid() && Ready(s) && i < j < |s.bodies|
    requires Collide(roots, s.bodies[i], s.bodies[j])
    ensures var r := ResolvePair(roots, rules, s, i, j);
      var b1, b2 := s.bodies[i], s.bodies[j];
      var w := if b1.size >= b2.size then i else j;
      var l := if b1.size >= b2.size then j else i;
      && r.force == s.force
      && r.deleted == s.deleted + [l]
      && r.bodies[l] == s.bodies[l]
      && (rules.mergeMode ==> Mass(r.bodies[w]) == Mass(b1) + Mass(b2))
      && (!rules.mergeMode ==> r.bodies[w].size == s.bodies[w].size)
      && if w == i && rules.anchorGuard && b1.id == Anchor then
           r.bodies[w].speed == b1.speed && r.changes == s.changes
         else
           && Scale2(r.bodies[w].speed, Mass(b1) + Mass(b2))
              == Add2(Scale2(b1.speed, Mass(b1)), Scale2(b2.speed, Mass(b2)))
           && r.changes == s.changes[s.bodies[w].id := w]
  {
    var b1, b2 := s.bodies[i], s.bodies[j];
    CubePositive(b1.size);
    CubePositive(b2.size);
    CbrtPositive(roots, Mass(b1) + Mass(b2));
    ExertZero(s.force, b1.id, b2.id);
  }

  /** `ResolvePairFrame`, chained onto a state already framed by `s0`. */
  lemma FrameStep(roots: Roots, rules: Rules, s0: Scan<Vec2>, s: Scan<Vec2>, i: nat, j: nat)
    requires roots.Valid() && i < j < |s.bodies| && Framed(s0, s)
    ensures Framed(s0, ResolvePair(roots, rules, s, i, j))
  {
    ResolvePairFrame(roots, rules, s, i, j);
    var r := ResolvePair(roots, rules, s, i, j);
    forall k | 0 <= k < |r.bodies|
      ensures SameBody(s0.bodies[k], r.bodies[k])
    {
      assert SameBody(s.bodies[k], r.bodies[k]);
    }
  }

  /** `FrameStep` for every framed state at once. */
  lemma FrameSteps(roots: Roots, rules: Rules, s0: Scan<Vec2>)
    requires roots.Valid()
    ensures Keeps(PairStep(roots, rules), s0)
  {
    var step := PairStep(roots, rules);
    forall s, i: nat, j: nat | Framed(s0, s) && i < j < |s.bodies|
      ensures step.requires(s, i, j) && Framed(s0, step(s, i, j))
    {
      FrameStep(roots, rules, s0, s, i, j);
    }
  }

  /** `ResolvePair` as the step of the generic scan. */
  function PairStep(roots: Roots, rules: Rules): Step<Vec2> {
    (s: Scan<Vec2>, i: nat, j: nat) requires roots.Valid() && Ready(s) && i < j < |s.bodies| =>
      ResolvePair(roots, rules, s, i, j)
  }

  /** The planar scan state before pair `(i, j)`. */
  function ScanState(roots: Roots, rules: Rules, s0: Scan<Vec2>, i: nat, j: nat): Scan<Vec2>
    requires roots.Valid() && Ready(s0) && i < j <= |s0.bodies|
  {
    FrameSteps(roots, rules, s0);
    ScanTo(PairStep(roots, rules), s0, i, j)
  }

  /** One more pair of row `i` is one more `ResolvePair`. */
  lemma ScanStateStep(roots: Roots, rules: Rules, s0: Scan<Vec2>, i: nat, j: nat)
    requires roots.Valid() && Ready(s0) && i < j < |s0.bodies|
    ensures var s := ScanState(roots, rules, s0, i, j);
      && Ready(s) && |s.bodies| == |s0.bodies|
      && ScanState(roots, rules, s0, i, j + 1) == ResolvePair(roots, rules, s, i, j)
  {
    FrameSteps(roots, rules, s0);
    ScanToStep(PairStep(roots, rules), s0, i, j);
  }

  /** The planar scan state after every pair. */
  function ScanResult(roots: Roots, rules: Rules, s0: Scan<Vec2>): Scan<Vec2>
    requires roots.Valid() && Ready(s0)
  {
    FrameSteps(roots, rules, s0);
    Scanned(PairStep(roots, rules), s0)
  }

  /** What `calcForce` leaves behind: the new body list and the force dictionary. */
  datatype Pass = Pass(stars: seq<Body<Vec2>>, force: map<string, Vec2>)

  /** The whole pass as a function of the bodies at the start of the tick. */
  function ForcePass(roots: Roots, rules: Rules, stars: seq<Body<Vec2>>): (r: Pass)
    requires roots.Valid() && AllPositive(stars)
    ensures AllPositive(r.stars) && |r.stars| <= |stars|
    ensures forall id :: id in r.force <==> id in IdsOf(stars)
    ensures forall k :: 0 <= k < |r.stars| ==> r.stars[k].id in r.force
  {
    ZeroForcesShape(stars, Zero2);
    FrameSteps(roots, rules, Start(stars, Zero2));
    ScannedFrame(PairStep(roots, rules), Start(stars, Zero2));
    var done := ScanResult(roots, rules, Start(stars, Zero2));
    var survivors := Survivors(done.bodies, done.deleted, done.changes);
    var kept := Kept(|done.bodies|, done.deleted);
    assert forall k :: 0 <= k < |survivors| ==> survivors[k] in done.bodies by {
      forall k | 0 <= k < |survivors|
        ensures survivors[k] in done.bodies
      {
        var b := done.bodies[kept[k]];
        if b.id in done.changes {
          assert survivors[k] == done.bodies[done.changes[b.id]];
        } else {
          assert survivors[k] == b;
        }
      }
    }
    assert |kept| <= |done.bodies| by {
      KeptLength(|done.bodies|, done.deleted);
    }
    Pass(survivors, done.force)
  }

  /**
   * With distinct ids the new list is the bodies at the indices never
   * deleted, in their original order; each keeps its id, colour, position
   * and trail (only speed and size can differ), so the ids stay distinct.
   */
  lemma ForcePassSurvivors(roots: Roots, rules: Rules, stars: seq<Body<Vec2>>)
    requires roots.Valid() && AllPositive(stars) && Distinct(IdsOf(stars))
    ensures var r := ForcePass(roots, rules, stars);
      var kept := Kept(|stars|, ScanResult(roots, rules, Start(stars, Zero2)).deleted);
      && |r.stars| == |kept|
      && (forall k :: 0 <= k < |kept| ==> SameBody(stars[kept[k]], r.stars[k]))
      && Distinct(IdsOf(r.stars))
  {
    FrameSteps(roots, rules, Start(stars, Zero2));
    ScannedFrame(PairStep(roots, rules), Start(stars, Zero2));
    var done := ScanResult(roots, rules, Start(stars, Zero2));
    SurvivorsKeepFrame(stars, done);
    assert ForcePass(roots, rules, stars).stars == Survivors(done.bodies, done.deleted, done.changes);
  }

  /** The scan of two bodies starts from two zero forces. */
  lemma StartPair(a: Body<Vec2>, b: Body<Vec2>)
    requires 0.0 < a.size && 0.0 < b.size
    ensures Start([a, b], Zero2) == Scan([a, b], map[a.id := Zero2, b.id := Zero2], [], map[])
  {
    assert [a, b][..1] == [a] && [a][..0] == [];
    assert ZeroForces([a], Zero2) == map[a.id := Zero2];
  }

  /** With two bodies the pass is the single pair `(0, 1)` and the filter after it. */
  lemma PassOfPair(roots: Roots, rules: Rules, a: Body<Vec2>, b: Body<Vec2>)
    requires roots.Valid() && 0.0 < a.size && 0.0 < b.size && a.id != b.id
    ensures var s0 := Scan([a, b], map[a.id := Zero2, b.id := Zero2], [], map[]);
      Ready(s0) &&
      var d := ResolvePair(roots, rules, s0, 0, 1);
      && ForcePass(roots, rules, [a, b]).force == d.force
      && |ForcePass(roots, rules, [a, b]).stars| == |Kept(2, d.deleted)|
      && forall k :: 0 <= k < |Kept(2, d.deleted)| ==>
           ForcePass(roots, rules, [a, b]).stars[k] == d.bodies[Kept(2, d.deleted)[k]]
  {
    StartPair(a, b);
    var s0 := Start([a, b], Zero2);
    FrameSteps(roots, rules, s0);
    ScannedPair(PairStep(roots, rules), s0);
    ScannedFrame(PairStep(roots, rules), s0);
    var d := ScanResult(roots, rules, s0);
    assert d == ResolvePair(roots, rules, s0, 0, 1);
    assert IdsOf(d.bodies)[0] == a.id && IdsOf(d.bodies)[1] == b.id;
    SurvivorsAreKept(d.bodies, d.deleted, d.changes);
  }

  /**
   * Two overlapping bodies leave one survivor, star1 on a tie, that
   * carries both masses in merge mode; neither receives any force.
   */
  lemma TwoBodiesMerge(roots: Roots, rules: Rules, a: Body<Vec2>, b: Body<Vec2>)
    requires roots.Valid() && 0.0 < a.size && 0.0 < b.size && a.id != b.id && Collide(roots, a, b)
    ensures var r := ForcePass(roots, rules, [a, b]);
      && |r.stars| == 1
      && r.stars[0].id == (if a.size >= b.size then a.id else b.id)
      && (rules.mergeMode ==> Mass(r.stars[0]) == Mass(a) + Mass(b))
      && r.force == map[a.id := Zero2, b.id := Zero2]
  {
    PassOfPair(roots, rules, a, b);
    var s0 := Scan([a, b], map[a.id := Zero2, b.id := Zero2], [], map[]);
    CollidingPair(roots, rules, s0, 0, 1);
    var d := ResolvePair(roots, rules, s0, 0, 1);
    var w := if a.size >= b.size then 0 else 1;
    assert d.deleted == [1 - w] && d.force == s0.force;
    KeptOfTwo(d.deleted);
  }

  /**
   * The survivor of a two-body merge is the larger body: same id, colour,
   * position and trail (only its speed and size can change).
   */
  lemma TwoBodiesMergeSurvivor(roots: Roots, rules: Rules, a: Body<Vec2>, b: Body<Vec2>)
    requires roots.Valid() && 0.0 < a.size && 0.0 < b.size && a.id != b.id && Collide(roots, a, b)
    ensures var r := ForcePass(roots, rules, [a, b]);
      |r.stars| == 1 && SameBody(if a.size >= b.size then a else b, r.stars[0])
  {
    PassOfPair(roots, rules, a, b);
    var s0 := Scan([a, b], map[a.id := Zero2, b.id := Zero2], [], map[]);
    var w := if a.size >= b.size then 0 else 1;
    assert ResolvePair(roots, rules, s0, 0, 1).deleted == [1 - w] by {
      CollidingPair(roots, rules, s0, 0, 1);
    }
    ResolvePairFrame(roots, rules, s0, 0, 1);
    KeptOfTwo([1 - w]);
  }

  /** Two bodies apart both stay as they were and receive `-F` and `+F`. */
  lemma TwoBodiesApart(roots: Roots, rules: Rules, a: Body<Vec2>, b: Body<Vec2>)
    requires roots.Valid() && 0.0 < a.size && 0.0 < b.size && a.id != b.id && !Collide(roots, a, b)
    ensures var r := ForcePass(roots, rules, [a, b]);
      var F := Attraction(roots, rules.g, a, b);
      && r.stars == [a, b]
      && r.force == map[a.id := Sub2(Zero2, F), b.id := Add2(Zero2, F)]
  {
    PassOfPair(roots, rules, a, b);
    var s0 := Scan([a, b], map[a.id := Zero2, b.id := Zero2], [], map[]);
    var F := Attraction(roots, rules.g, a, b);
    var d := ResolvePair(roots, rules, s0, 0, 1);
    assert d == s0.(force := Exert(s0.force, a.id, b.id, F));
    var m := map[a.id := Sub2(Zero2, F), b.id := Add2(Zero2, F)];
    assert d.force == m by {
      assert d.force.Keys == m.Keys;
    }
    KeptOfTwo(d.deleted);
  }

  /** Every id of `ids` has an entry in the force dictionary. */
  ghost predicate Covers(force: map<string, Vec2>, ids: seq<string>) {
    forall k :: 0 <= k < |ids| ==> ids[k] in force
  }

  /** The sum of the forces recorded under `ids`. */
  function Total(force: map<string, Vec2>, ids: seq<string>): Vec2
    requires Covers(force, ids)
  {
    if ids == [] then Zero2 else Add2(Total(force, ids[..|ids| - 1]), force[ids[|ids| - 1]])
  }

  /** Replacing one entry changes the total by the difference, once when the ids are distinct. */
  lemma {:induction false} TotalUpdate(force: map<string, Vec2>, ids: seq<string>, id: string, v: Vec2)
    requires Covers(force, ids) && Distinct(ids) && id in force
    ensures Covers(force[id := v], ids)
    ensures Total(force[id := v], ids)
      == if id in ids then Add2(Sub2(Total(force, ids), force[id]), v) else Total(force, ids)
    decreases |ids|
  {
    if ids != [] {
      var init, last := ids[..|ids| - 1], ids[|ids| - 1];
      assert Covers(force, init);
      assert Distinct(init);
      TotalUpdate(force, init, id, v);
      assert id in ids <==> id in init || id == last;
    }
  }

  /** `-F` on one id and `+F` on another leave the total unchanged. */
  lemma ExertBalanced(force: map<string, Vec2>, ids: seq<string>, id1: string, id2: string, F: Vec2)
    requires Covers(force, ids) && Distinct(ids) && id1 in ids && id2 in ids
    ensures Covers(Exert(force, id1, id2, F), ids)
    ensures Total(Exert(force, id1, id2, F), ids) == Total(force, ids)
  {
    var once := force[id1 := Sub2(force[id1], F)];
    TotalUpdate(force, ids, id1, Sub2(force[id1], F));
    TotalUpdate(once, ids, id2, Add2(once[id2], F));
  }

  /** A pair never changes the total force over a set of distinct ids it touches. */
  lemma PairBalanced(roots: Roots, rules: Rules, s: Scan<Vec2>, i: nat, j: nat, ids: seq<string>)
    requires roots.Valid() && Ready(s) && i < j < |s.bodies|
    requires Covers(s.force, ids) && Distinct(ids) && s.bodies[i].id in ids && s.bodies[j].id in ids
    ensures var r := ResolvePair(roots, rules, s, i, j);
      Covers(r.force, ids) && Total(r.force, ids) == Total(s.force, ids)
  {
    var b1, b2 := s.bodies[i], s.bodies[j];
    CubePositive(b1.size);
    CubePositive(b2.size);
    if Collide(roots, b1, b2) {
      CollidingPair(roots, rules, s, i, j);
    } else {
      ExertBalanced(s.force, ids, b1.id, b2.id, Attraction(roots, rules.g, b1, b2));
    }
  }

  /** The total of the all-zero dictionary is zero. */
  lemma {:induction false} ZeroTotal(bodies: seq<Body<Vec2>>, ids: seq<string>)
    requires forall k :: 0 <= k < |ids| ==> ids[k] in IdsOf(bodies)
    ensures Covers(ZeroForces(bodies, Zero2), ids) && Total(ZeroForces(bodies, Zero2), ids) == Zero2
    decreases |ids|
  {
    ZeroForcesShape(bodies, Zero2);
    if ids != [] {
      ZeroTotal(bodies, ids[..|ids| - 1]);
    }
  }

  /**
   * The scan only ever adds `-F` and `+F` in pairs, so with distinct ids
   * the forces sum to what they summed to at the start.
   */
  lemma ScanBalanced(roots: Roots, rules: Rules, s0: Scan<Vec2>)
    requires roots.Valid() && Ready(s0) && Distinct(IdsOf(s0.bodies))
    ensures var ids := IdsOf(s0.bodies);
      Covers(ScanResult(roots, rules, s0).force, ids)
      && Total(ScanResult(roots, rules, s0).force, ids) == Total(s0.force, ids)
  {
    var ids := IdsOf(s0.bodies);
    var t0 := Total(s0.force, ids);
    var inv := (s: Scan<Vec2>) => Covers(s.force, ids) && Total(s.force, ids) == t0;
    var step := PairStep(roots, rules);
    FrameSteps(roots, rules, s0);
    forall s, i: nat, j: nat | Framed(s0, s) && i < j < |s.bodies| && inv(s)
      ensures inv(step(s, i, j))
    {
      assert s.bodies[i].id == ids[i] && s.bodies[j].id == ids[j];
      PairBalanced(roots, rules, s, i, j, ids);
    }
    ScannedInvariant(step, s0, inv);
  }

  /**
   * Action and reaction: after the pass the forces on the bodies present
   * at its start sum to zero, provided their ids are distinct.
   */
  lemma ForcesBalance(roots: Roots, rules: Rules, stars: seq<Body<Vec2>>)
    requires roots.Valid() && AllPositive(stars) && Distinct(IdsOf(stars))
    ensures Covers(ForcePass(roots, rules, stars).force, IdsOf(stars))
    ensures Total(ForcePass(roots, rules, stars).force, IdsOf(stars)) == Zero2
  {
    ZeroTotal(stars, IdsOf(stars));
    ScanBalanced(roots, rules, Start(stars, Zero2));
  }

  /**
   * The body of the inner loop for star1 at `index1` and star2 at `j`:
   * the updates happen in place on the working state.
   */
  method VisitPair(roots: Roots, rules: Rules, s: Scan<Vec2>, index1: nat, j: nat) returns (r: Scan<Vec2>)
    requires roots.Valid() && Ready(s) && index1 < j < |s.bodies|
    ensures r == ResolvePair(roots, rules, s, index1, j)
  {
    var bodies, result, deleteIndex, changeList := s.bodies, s.force, s.deleted, s.changes;
    var star1, star2 := bodies[index1], bodies[j];
    var distance := roots.sqrt(DistanceSquared(star1.position, star2.position));
    CubePositive(star1.size);
    CubePositive(star2.size);
    var xF, yF := 0.0, 0.0;
    if distance < star1.size + star2.size {
      var totalSize := roots.cbrt(Mass(star1) + Mass(star2));
      var speed := MergedSpeed(star1, star2);
      // star1 and star2 stand for the two body objects: their fields are
      // updated, then written back to the working list.
      if star1.size >= star2.size {
        deleteIndex := deleteIndex + [j];
        if rules.mergeMode {
          star1 := star1.(size := totalSize);
        }
        if !rules.anchorGuard || star1.id != Anchor {
          star1 := star1.(speed := speed);
          changeList := changeList[star1.id := index1];
        }
        bodies := bodies[index1 := star1];
      } else {
        deleteIndex := deleteIndex + [index1];
        if rules.mergeMode {
          star2 := star2.(size := totalSize);
        }
        star2 := star2.(speed := speed);
        changeList := changeList[star2.id := j];
        bodies := bodies[j := star2];
      }
      ExertZero(result, star1.id, star2.id);
    } else {
      var F := Attraction(roots, rules.g, star1, star2);
      xF, yF := F.x, F.y;
    }
    result := result[star1.id := Vec2(result[star1.id].x - xF, result[star1.id].y - yF)];
    result := result[star2.id := Vec2(result[star2.id].x + xF, result[star2.id].y + yF)];
    r := Scan(bodies, result, deleteIndex, changeList);
  }

  /**
   * The inner `forEach` of `calcForce`: star2 runs over
   * `stars.slice(index1 + 1)`; `j` is its absolute index
   * `index1 + 1 + index2`.  Speeds and sizes are updated in the working
   * list as soon as a pair is resolved, so later pairs see them.
   */
  method ScanRow(roots: Roots, rules: Rules, ghost s0: Scan<Vec2>, s: Scan<Vec2>, index1: nat)
    returns (st: Scan<Vec2>)
    requires roots.Valid() && Ready(s0) && index1 < |s0.bodies|
    requires s == ScanState(roots, rules, s0, index1, index1 + 1)
    ensures st == ScanState(roots, rules, s0, index1, |s0.bodies|)
  {
    var n := |s.bodies|;
    FrameSteps(roots, rules, s0);
    ScanToFrame(PairStep(roots, rules), s0, index1, index1 + 1);
    st := s;
    var j := index1 + 1;
    while j < n
      invariant index1 < j <= n
      invariant st == ScanState(roots, rules, s0, index1, j)
    {
      ScanStateStep(roots, rules, s0, index1, j);
      st := VisitPair(roots, rules, st, index1, j);
      j := j + 1;
    }
  }

  /** The outer `forEach` of `calcForce`: one row per star1. */
  method ScanPairs(roots: Roots, rules: Rules, s0: Scan<Vec2>) returns (st: Scan<Vec2>)
    requires roots.Valid() && Ready(s0)
    ensures st == ScanResult(roots, rules, s0)
  {
    var n := |s0.bodies|;
    st := s0;
    var index1 := 0;
    while index1 < n
      invariant 0 <= index1 <= n
      invariant index1 == 0 ==> st == s0
      invariant 0 < index1 ==> st == ScanState(roots, rules, s0, index1 - 1, n)
    {
      st := ScanRow(roots, rules, s0, st, index1);
      index1 := index1 + 1;
    }
  }

  /**
   * `calcForce`: zero forces, the pair scan, then the order-preserving
   * filter of the deleted indices and the `changeList` substitution.
   */
  method CalcForce(roots: Roots, rules: Rules, stars: seq<Body<Vec2>>)
    returns (survivors: seq<Body<Vec2>>, forceDict: map<string, Vec2>)
    requires roots.Valid() && AllPositive(stars)
    ensures Pass(survivors, forceDict) == ForcePass(roots, rules, stars)
  {
    var result := InitForces(stars, Zero2);
    assert Scan(stars, result, [], map[]) == Start(stars, Zero2);
    var done := ScanPairs(roots, rules, Scan(stars, result, [], map[]));
    FrameSteps(roots, rules, Start(stars, Zero2));
    ScannedFrame(PairStep(roots, rules), Start(stars, Zero2));
    forceDict := done.force;
    survivors := Survivors(done.bodies, done.deleted, done.changes);
  }
}
