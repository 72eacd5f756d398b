/**
 * The second planar page (page/canvas.tsx).  Its `initStars` computes
 * the same ids, anchor and trails as that of page/2d.tsx (only the
 * random ranges differ, and they are inputs here), and its `calcForce`,
 * `moveStar` and zoom steps compute what those of page/2d.tsx compute,
 * so they are the `Page2D` definitions.  What differs is
 * the tick, which leaves the body at index 0 in place instead of the
 * body with id `#0`, and `transCord`, the inverse of the drawing
 * transform.
 */
module Canvas {
  import opened Numerics
  import opened Vectors
  import opened Ids
  import opened Trails
  import opened Bodies
  import opened Motion
  import Engine2D
  import Page2D

  /** The tick's loop: every body but the first is moved. */
  function Advance(bodies: seq<Body<Vec2>>, force: map<string, Vec2>, travelLength: int): (r: seq<Body<Vec2>>)
    requires Page2D.Movable(bodies, force)
  {
    seq(|bodies|, k requires 0 <= k < |bodies| =>
      if k == 0 then bodies[k] else Page2D.Move(bodies[k], force, travelLength))
  }

  /**
   * While the anchor is first and is the only body with id `#0`,
   * skipping index 0 is the same as skipping the anchor.
   */
  lemma AgreesWhileAnchorFirst(bodies: seq<Body<Vec2>>, force: map<string, Vec2>, travelLength: int)
    requires Page2D.Movable(bodies, force)
    requires forall k :: 0 <= k < |bodies| ==> (bodies[k].id == Anchor <==> k == 0)
    ensures Advance(bodies, force, travelLength) == Page2D.Advance(bodies, force, travelLength)
  {
    var p, q := Advance(bodies, force, travelLength), Page2D.Advance(bodies, force, travelLength);
    forall k | 0 <= k < |bodies|
      ensures p[k] == q[k]
    {
    }
  }

  /**
   * When the anchor loses a collision it is deleted, and the body that
   * absorbed it becomes the first of the list.  The tick then leaves that
   * body in place, with its trail untouched, where skipping by id would
   * have moved it.
   */
  lemma FirstSurvivorFrozen(roots: Roots, g: real, mergeMode: bool, a: Body<Vec2>, b: Body<Vec2>, travelLength: int)
    requires roots.Valid() && a.id == Anchor && b.id == IdOf(1)
    requires 0.0 < a.size < b.size && Engine2D.Collide(roots, a, b)
    requires 0 < travelLength
    ensures var pass := Engine2D.ForcePass(roots, Page2D.Rules(g, mergeMode), [a, b]);
      && |pass.stars| == 1 && pass.stars[0].id == IdOf(1)
      && Page2D.Movable(pass.stars, pass.force)
      && Advance(pass.stars, pass.force, travelLength)[0] == pass.stars[0]
      && pass.stars[0].travel == b.travel
      && Page2D.Advance(pass.stars, pass.force, travelLength)[0].travel == Last(b.travel + [b.position], travelLength)
  {
    IdOfIsAnchor(1);
    Engine2D.TwoBodiesMerge(roots, Page2D.Rules(g, mergeMode), a, b);
    Engine2D.TwoBodiesMergeSurvivor(roots, Page2D.Rules(g, mergeMode), a, b);
  }

  /**
   * `transCord`: a point of the window back in canvas coordinates, given
   * the centre point and the scale.
   */
  function TransCord(centerPoint: Vec2, scale: real, x: real, y: real): Vec2
    requires scale != 0.0
  {
    Vec2(x / scale - (centerPoint.x * (1.0 - scale)) / scale, y / scale - (centerPoint.y * (1.0 - scale)) / scale)
  }

  /**
   * Where the tick draws a canvas point: `translate(centerPoint·(1 -
   * scale) + centerPointOffset)` then `scale(scale, scale)`.
   */
  function DrawnAt(centerPoint: Vec2, offset: Vec2, scale: real, p: Vec2): Vec2 {
    Vec2(p.x * scale + centerPoint.x * (1.0 - scale) + offset.x,
         p.y * scale + centerPoint.y * (1.0 - scale) + offset.y)
  }

  /**
   * `transCord` inverts the drawing transform up to the pan offset, which
   * it does not take into account: the point comes back shifted by
   * `offset / scale`, and exactly when the view is not panned.
   */
  lemma TransCordInverts(centerPoint: Vec2, offset: Vec2, scale: real, p: Vec2)
    requires scale != 0.0
    ensures var q := DrawnAt(centerPoint, offset, scale, p);
      TransCord(centerPoint, scale, q.x, q.y) == Vec2(p.x + offset.x / scale, p.y + offset.y / scale)
  {
    var q := DrawnAt(centerPoint, offset, scale, p);
    var cx, cy := centerPoint.x * (1.0 - scale), centerPoint.y * (1.0 - scale);
    assert q.x / scale - cx / scale == (q.x - cx) / scale;
    assert q.y / scale - cy / scale == (q.y - cy) / scale;
    assert (p.x * scale + offset.x) / scale == p.x + offset.x / scale;
    assert (p.y * scale + offset.y) / scale == p.y + offset.y / scale;
  }

  /** The `forEach` of the tick: each moved record replaces its slot. */
  method MoveAll(bodies: seq<Body<Vec2>>, force: map<string, Vec2>, travelLength: int)
    returns (list: seq<Body<Vec2>>)
    requires Page2D.Movable(bodies, force)
    ensures list == Advance(bodies, force, travelLength)
  {
    list := bodies;
    var index := 0;
    while index < |list|
      invariant 0 <= index <= |list| == |bodies|
      invariant forall k :: 0 <= k < |list| ==>
        list[k] == if 0 < k < index then Page2D.Move(bodies[k], force, travelLength) else bodies[k]
    {
      var value := list[index];
      if index != 0 {
        list := list[index := Page2D.Move(value, force, travelLength)];
      }
      index := index + 1;
    }
  }

  /** The page state, all of it held by `setState`. */
  class Page {
    var stars: seq<Body<Vec2>>
    var g: map<string, Vec2>
    var scale: real
    var centerPoint: Vec2
    var centerPointOffset: Vec2

    /** The initial state. */
    constructor ()
      ensures stars == [] && g == map[] && scale == 1.0
      ensures centerPoint == Zero2 && centerPointOffset == Zero2
    {
      stars := [];
      g := map[];
      scale := 1.0;
      centerPoint := Zero2;
      centerPointOffset := Zero2;
    }

    /**
     * `start` before its timer: the forces are cleared, the list is the
     * one `initStars` builds and the centre point is the middle of the
     * canvas.  The source builds a first list and at once replaces it by a
     * second; only the second, made from `generated`, is kept.
     */
    method Start(centerSize: real, width: real, height: real, generated: seq<SandboxData<Vec2>>)
      modifies this
      ensures stars == Page2D.Initial(centerSize, width, height, generated)
      ensures g == map[] && centerPoint == Vec2(width / 2.0, height / 2.0)
      ensures scale == old(scale) && centerPointOffset == old(centerPointOffset)
    {
      g := map[];
      stars := Page2D.InitStars(centerSize, width, height, generated);
      centerPoint := Vec2(width / 2.0, height / 2.0);
    }

    /** `calcForce`: the pass without the anchor guard; the forces go to `g`. */
    method CalcForce(roots: Roots, g0: real, mergeMode: bool)
      requires roots.Valid() && AllPositive(stars)
      modifies this
      ensures Engine2D.Pass(stars, g) == Engine2D.ForcePass(roots, Page2D.Rules(g0, mergeMode), old(stars))
      ensures scale == old(scale) && centerPoint == old(centerPoint) && centerPointOffset == old(centerPointOffset)
    {
      stars, g := Engine2D.CalcForce(roots, Page2D.Rules(g0, mergeMode), stars);
    }

    /** One tick of `start`: the pass, then every body but the first moves. */
    method Tick(roots: Roots, g0: real, mergeMode: bool, travelLength: int)
      requires roots.Valid() && AllPositive(stars)
      modifies this
      ensures var pass := Engine2D.ForcePass(roots, Page2D.Rules(g0, mergeMode), old(stars));
        && g == pass.force
        && Page2D.Movable(pass.stars, pass.force)
        && stars == Advance(pass.stars, pass.force, travelLength)
      ensures scale == old(scale) && centerPoint == old(centerPoint) && centerPointOffset == old(centerPointOffset)
    {
      CalcForce(roots, g0, mergeMode);
      stars := MoveAll(stars, g, travelLength);
    }

    /** `zoomIn`. */
    method ZoomIn()
      modifies this
      ensures scale == Page2D.ZoomedIn(old(scale))
      ensures stars == old(stars) && g == old(g)
      ensures centerPoint == old(centerPoint) && centerPointOffset == old(centerPointOffset)
    {
      scale := scale * 1.1;
    }

    /** `zoomOut`. */
    method ZoomOut()
      modifies this
      ensures scale == Page2D.ZoomedOut(old(scale))
      ensures stars == old(stars) && g == old(g)
      ensures centerPoint == old(centerPoint) && centerPointOffset == old(centerPointOffset)
    {
      scale := scale * 0.9;
    }
  }
}
