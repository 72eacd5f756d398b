/**
 * The first planar page (page/2d.tsx): body records kept in the
 * component state, the force dictionary `g`, the pass without the anchor
 * guard, the step-free `moveStar` and a zoom factor.  `setState` is taken
 * to act at once, so one tick is one synchronous method call.
 */
module Page2D {
  import opened Numerics
  import opened Vectors
  import opened Ids
  import opened Trails
  import opened Bodies
  import opened Motion
  import opened Seeds
  import Engine2D

  /** The anchor `initStars` puts first: red, at rest, in the middle of the canvas, no trail. */
  function CenterStar(centerSize: real, width: real, height: real): Body<Vec2> {
    Body(Anchor, "red", centerSize, Vec2(width / 2.0, height / 2.0), Zero2, [])
  }

  /**
   * The list `initStars` returns: the anchor, then the generated bodies
   * `#1..#total`, each starting with its position as its trail.
   */
  function Initial(centerSize: real, width: real, height: real, generated: seq<SandboxData<Vec2>>): (r: seq<Body<Vec2>>)
    ensures |r| == |generated| + 1 && r[0] == CenterStar(centerSize, width, height)
    ensures Distinct(IdsOf(r))
    ensures forall k :: 0 <= k < |r| ==> (r[k].id == Anchor <==> k == 0)
    ensures forall k :: 0 < k < |r| ==> r[k].travel == [r[k].position]
    ensures forall k :: 0 < k < |r| ==>
      r[k].id == IdOf(k) && SandboxData(r[k].position, r[k].speed, r[k].color, r[k].size) == generated[k - 1]
  {
    AnchoredIds(CenterStar(centerSize, width, height), generated, true);
    [CenterStar(centerSize, width, height)] + Numbered(generated, 1, true)
  }

  /** `initStars(total)`: the anchor first, then one pushed record per generated body. */
  method InitStars(centerSize: real, width: real, height: real, generated: seq<SandboxData<Vec2>>)
    returns (stars: seq<Body<Vec2>>)
    ensures stars == Initial(centerSize, width, height, generated)
  {
    stars := [CenterStar(centerSize, width, height)];
    var total := |generated|;
    for i := 1 to total + 1
      invariant stars == [CenterStar(centerSize, width, height)] + Numbered(generated[..i - 1], 1, true)
    {
      var d := generated[i - 1];
      ghost var pushed := Numbered(generated[..i], 1, true);
      assert pushed == Numbered(generated[..i - 1], 1, true) + [pushed[i - 1]];
      stars := stars + [Body(IdOf(i), d.color, d.size, d.position, d.speed, [d.position])];
    }
    assert generated[..total] == generated;
  }

  /** The settings of the page passes: no anchor guard. */
  function Rules(g: real, mergeMode: bool): Engine2D.Rules {
    Engine2D.Rules(g, mergeMode, false)
  }

  /** The bodies a tick is given can all be moved. */
  ghost predicate Movable(bodies: seq<Body<Vec2>>, force: map<string, Vec2>) {
    forall k :: 0 <= k < |bodies| ==> 0.0 < bodies[k].size && bodies[k].id in force
  }

  /** `moveStar` of one body: one unit step with its force, the old position pushed onto the trail. */
  function Move(b: Body<Vec2>, force: map<string, Vec2>, travelLength: int): (r: Body<Vec2>)
    requires 0.0 < b.size && b.id in force
    ensures r.id == b.id && r.color == b.color && r.size == b.size
    ensures Phase2(r.position, r.speed) == Euler2(b.position, b.speed, force[b.id], Mass(b), 1.0)
    ensures r.travel == if 0 < travelLength then Last(b.travel + [b.position], travelLength) else []
    ensures |r.travel| <= if 0 < travelLength then travelLength else 0
  {
    CubePositive(b.size);
    MoveStarPage(b, force[b.id], travelLength)
  }

  /** The tick's loop: every body but the one with id `#0` is moved. */
  function Advance(bodies: seq<Body<Vec2>>, force: map<string, Vec2>, travelLength: int): (r: seq<Body<Vec2>>)
    requires Movable(bodies, force)
  {
    seq(|bodies|, k requires 0 <= k < |bodies| =>
      if bodies[k].id == Anchor then bodies[k] else Move(bodies[k], force, travelLength))
  }

  /**
   * Every body but the anchor takes one unit step and pushes its old
   * position onto its trail; the anchor stays exactly as it is.
   */
  lemma AdvanceMovesAllButAnchor(bodies: seq<Body<Vec2>>, force: map<string, Vec2>, travelLength: int)
    requires Movable(bodies, force)
    ensures var r := Advance(bodies, force, travelLength);
      && |r| == |bodies|
      && forall k :: 0 <= k < |bodies| ==>
        && r[k].id == bodies[k].id
        && (bodies[k].id == Anchor ==> r[k] == bodies[k])
        && (bodies[k].id != Anchor ==>
              && Phase2(r[k].position, r[k].speed) == Euler2(bodies[k].position, bodies[k].speed, force[bodies[k].id], Mass(bodies[k]), 1.0)
              && (0 < travelLength ==> r[k].travel == Last(bodies[k].travel + [bodies[k].position], travelLength)))
  {
  }

  /**
   * If the anchor survives a tick, it is the body it was at the start of
   * the tick apart from speed and size (which a collision may change here,
   * as there is no guard): in particular it has not moved.
   */
  lemma TickKeepsAnchor(roots: Roots, rules: Engine2D.Rules, stars: seq<Body<Vec2>>, travelLength: int)
    requires roots.Valid() && AllPositive(stars) && Distinct(IdsOf(stars))
    ensures var pass := Engine2D.ForcePass(roots, rules, stars);
      Movable(pass.stars, pass.force) &&
      var r := Advance(pass.stars, pass.force, travelLength);
      && |r| == |pass.stars|
      && forall k :: 0 <= k < |r| && r[k].id == Anchor ==>
           exists i :: 0 <= i < |stars| && SameBody(stars[i], r[k])
  {
    var pass := Engine2D.ForcePass(roots, rules, stars);
    var r := Advance(pass.stars, pass.force, travelLength);
    Engine2D.ForcePassSurvivors(roots, rules, stars);
    var kept := Kept(|stars|, Engine2D.ScanResult(roots, rules, Start(stars, Zero2)).deleted);
    forall k | 0 <= k < |r| && r[k].id == Anchor
      ensures exists i :: 0 <= i < |stars| && SameBody(stars[i], r[k])
    {
      assert SameBody(stars[kept[k]], pass.stars[k]);
    }
  }

  /** The `forEach` of the tick: each moved record replaces its slot. */
  method MoveAll(bodies: seq<Body<Vec2>>, force: map<string, Vec2>, travelLength: int)
    returns (list: seq<Body<Vec2>>)
    requires Movable(bodies, force)
    ensures list == Advance(bodies, force, travelLength)
  {
    list := bodies;
    var index := 0;
    while index < |list|
      invariant 0 <= index <= |list| == |bodies|
      invariant forall k :: 0 <= k < |list| ==>
        list[k] == if k < index && bodies[k].id != Anchor then Move(bodies[k], force, travelLength) else bodies[k]
    {
      var value := list[index];
      if value.id != Anchor {
        list := list[index := Move(value, force, travelLength)];
      }
      index := index + 1;
    }
  }

  /** `this.scale * 1.1`. */
  function ZoomedIn(scale: real): real {
    scale * 1.1
  }

  /** `this.scale * 0.9`. */
  function ZoomedOut(scale: real): real {
    scale * 0.9
  }

  /**
   * Zooming keeps the scale positive, but zooming out does not undo a
   * zoom in: the pair shrinks the scale by one percent, in either order.
   */
  lemma ZoomPair(scale: real)
    ensures 0.0 < scale ==> 0.0 < ZoomedIn(scale) && 0.0 < ZoomedOut(scale)
    ensures ZoomedOut(ZoomedIn(scale)) == ZoomedIn(ZoomedOut(scale)) == scale * 0.99
    ensures 0.0 < scale ==> ZoomedOut(ZoomedIn(scale)) < scale
  {
  }

  /** The page state: the body list, the force dictionary, the zoom factor and the centre point. */
  class Page {
    var stars: seq<Body<Vec2>>
    var g: map<string, Vec2>
    var scale: real
    var centerPoint: Vec2

    /** The initial state: no bodies, no forces, scale 1. */
    constructor ()
      ensures stars == [] && g == map[] && scale == 1.0 && centerPoint == Zero2
    {
      stars := [];
      g := map[];
      scale := 1.0;
      centerPoint := Zero2;
    }

    /**
     * The `init` branch of `start`: the centre point is the middle of the
     * canvas and the state takes the list `initStars` builds.
     */
    method Start(centerSize: real, width: real, height: real, generated: seq<SandboxData<Vec2>>)
      modifies this
      ensures stars == Initial(centerSize, width, height, generated)
      ensures centerPoint == Vec2(width / 2.0, height / 2.0)
      ensures g == old(g) && scale == old(scale)
    {
      centerPoint := Vec2(width / 2.0, height / 2.0);
      stars := InitStars(centerSize, width, height, generated);
    }

    /** `calcForce`: the pass without the anchor guard; the forces go to `g`. */
    method CalcForce(roots: Roots, g0: real, mergeMode: bool)
      requires roots.Valid() && AllPositive(stars)
      modifies this
      ensures Engine2D.Pass(stars, g) == Engine2D.ForcePass(roots, Rules(g0, mergeMode), old(stars))
      ensures scale == old(scale) && centerPoint == old(centerPoint)
    {
      stars, g := Engine2D.CalcForce(roots, Rules(g0, mergeMode), stars);
    }

    /** One tick of `start`: the pass, then every body but `#0` moves. */
    method Tick(roots: Roots, g0: real, mergeMode: bool, travelLength: int)
      requires roots.Valid() && AllPositive(stars)
      modifies this
      ensures var pass := Engine2D.ForcePass(roots, Rules(g0, mergeMode), old(stars));
        && g == pass.force
        && Movable(pass.stars, pass.force)
        && stars == Advance(pass.stars, pass.force, travelLength)
      ensures scale == old(scale) && centerPoint == old(centerPoint)
    {
      CalcForce(roots, g0, mergeMode);
      stars := MoveAll(stars, g, travelLength);
    }

    /** `zoomIn`. */
    method ZoomIn()
      modifies this
      ensures scale == ZoomedIn(old(scale))
      ensures stars == old(stars) && g == old(g) && centerPoint == old(centerPoint)
    {
      scale := scale * 1.1;
    }

    /** `zoomOut`. */
    method ZoomOut()
      modifies this
      ensures scale == ZoomedOut(old(scale))
      ensures stars == old(stars) && g == old(g) && centerPoint == old(centerPoint)
    {
      scale := scale * 0.9;
    }
  }
}
