/**
 * The planar simulation component (component/2d.tsx): a list of `Star2D`
 * bodies and a force dictionary that every tick recomputes, the anchor
 * `#0` that can be added and removed, and the canvas view transforms.
 * Bodies are values here (see `Stars.Star2D` for the same operations on
 * a body object); the tick writes them back into `stars` by index.
 */
module Component2D {
  import opened Numerics
  import opened Vectors
  import opened Ids
  import opened Trails
  import opened Bodies
  import opened Motion
  import opened Seeds
  import Engine2D

  /**
   * The zoom state: `scale` and the `origin` pair of a canvas point and
   * the screen point it is drawn at.
   */
  datatype View = View(scale: real, canvas: Vec2, screen: Vec2)

  /** `zoomed`: a length on the canvas as a length on the screen. */
  function Zoomed(view: View, value: real): real {
    value * view.scale
  }

  /** `zoomedX`: a canvas abscissa as a screen abscissa. */
  function ZoomedX(view: View, x: real): real {
    (x - view.canvas.x) * view.scale + view.screen.x
  }

  /** `zoomedY`: a canvas ordinate as a screen ordinate. */
  function ZoomedY(view: View, y: real): real {
    (y - view.canvas.y) * view.scale + view.screen.y
  }

  /** `zoomedX_INV`: a screen abscissa back on the canvas, rounded down. */
  function ZoomedXInv(view: View, x: real): int
    requires view.scale != 0.0
  {
    ((x - view.screen.x) / view.scale + view.canvas.x).Floor
  }

  /** `zoomedY_INV`: a screen ordinate back on the canvas, rounded down. */
  function ZoomedYInv(view: View, y: real): int
    requires view.scale != 0.0
  {
    ((y - view.screen.y) / view.scale + view.canvas.y).Floor
  }

  /** The origin is fixed, and distances scale by `zoomed`. */
  lemma ZoomedAffine(view: View, a: real, b: real)
    ensures ZoomedX(view, view.canvas.x) == view.screen.x && ZoomedY(view, view.canvas.y) == view.screen.y
    ensures ZoomedX(view, a) - ZoomedX(view, b) == Zoomed(view, a - b)
    ensures ZoomedY(view, a) - ZoomedY(view, b) == Zoomed(view, a - b)
  {
    assert (a - view.canvas.x) * view.scale - (b - view.canvas.x) * view.scale == (a - b) * view.scale;
    assert (a - view.canvas.y) * view.scale - (b - view.canvas.y) * view.scale == (a - b) * view.scale;
  }

  /** Going to the screen and back gives the canvas point rounded down. */
  lemma ZoomRoundTrip(view: View, x: real, y: real)
    requires view.scale != 0.0
    ensures ZoomedXInv(view, ZoomedX(view, x)) == x.Floor
    ensures ZoomedYInv(view, ZoomedY(view, y)) == y.Floor
  {
    var s := view.scale;
    var sx, sy := ZoomedX(view, x), ZoomedY(view, y);
    assert (sx - view.screen.x) / s + view.canvas.x == x by {
      assert sx - view.screen.x == (x - view.canvas.x) * s;
    }
    assert (sy - view.screen.y) / s + view.canvas.y == y by {
      assert sy - view.screen.y == (y - view.canvas.y) * s;
    }
  }

  /** Multiplying by a positive scale keeps the order of two reals. */
  lemma ScaledOrder(a: real, b: real, s: real)
    requires 0.0 < s && a <= b
    ensures a * s <= b * s
    ensures a < b ==> a * s < b * s
  {
    assert b * s - a * s == (b - a) * s;
  }

  /**
   * The screen abscissae of the columns `lo` and `up` around the canvas
   * abscissa `u` that is drawn at `x` enclose `x`.
   */
  lemma Enclosed(view: View, x: real, u: real, lo: real, up: real)
    requires 0.0 < view.scale && lo <= u < up
    requires (u - view.canvas.x) * view.scale == x - view.screen.x
    ensures ZoomedX(view, lo) <= x < ZoomedX(view, up)
  {
    var s, c := view.scale, view.canvas.x;
    ScaledOrder(lo - c, u - c, s);
    ScaledOrder(u - c, up - c, s);
  }

  /**
   * Under a positive scale the inverse picks the canvas column a screen
   * abscissa falls in: the largest integer drawn at or left of it.
   */
  lemma ZoomedXInvColumn(view: View, x: real)
    requires 0.0 < view.scale
    ensures var k := ZoomedXInv(view, x);
      ZoomedX(view, k as real) <= x < ZoomedX(view, (k + 1) as real)
  {
    var u := (x - view.screen.x) / view.scale + view.canvas.x;
    assert (u - view.canvas.x) * view.scale == x - view.screen.x;
    Enclosed(view, x, u, u.Floor as real, (u.Floor + 1) as real);
  }

  /** The anchor `addCenterStar` creates: red, at rest, in the middle of the canvas. */
  function CenterStar(centerSize: real, width: real, height: real): Body<Vec2> {
    Body(Anchor, "red", centerSize, Vec2(width / 2.0, height / 2.0), Zero2, [])
  }

  /** Removing the anchor undoes adding it, whatever else the list holds. */
  lemma RemoveUndoesAdd(stars: seq<Body<Vec2>>, centerSize: real, width: real, height: real)
    ensures WithoutAnchor(stars + [CenterStar(centerSize, width, height)]) == WithoutAnchor(stars)
  {
    WithoutAnchorAppend(stars, [CenterStar(centerSize, width, height)]);
    assert WithoutAnchor([CenterStar(centerSize, width, height)]) == [];
  }

  /**
   * The lists `start` builds from an empty component have pairwise
   * different ids; `#0` is the anchor in front, if there is one, and no
   * sandbox body.
   */
  lemma InitialIds(sandboxData: seq<SandboxData<Vec2>>, disableCenter: bool,
                   centerSize: real, width: real, height: real, generated: seq<SandboxData<Vec2>>)
    ensures var r := Numbered(sandboxData, 1, false);
      Distinct(IdsOf(r)) && forall k :: 0 <= k < |r| ==> r[k].id != Anchor
    ensures var r := (if disableCenter then [] else [CenterStar(centerSize, width, height)])
        + Numbered(generated, 1, false);
      && Distinct(IdsOf(r))
      && forall k :: 0 <= k < |r| ==> (r[k].id == Anchor <==> !disableCenter && k == 0)
  {
    NumberedIds(sandboxData, 1, false);
    NumberedIds(generated, 1, false);
    if disableCenter {
      assert [] + Numbered(generated, 1, false) == Numbered(generated, 1, false);
    } else {
      AnchoredIds(CenterStar(centerSize, width, height), generated, false);
    }
  }

  /**
   * One body in the tick: `draw` trims its trail, then every body but
   * the anchor takes one step with its force.
   */
  function TickBody(b: Body<Vec2>, force: map<string, Vec2>, travelLength: int, step: real): (r: Body<Vec2>)
    requires 0.0 < b.size && (b.id != Anchor ==> b.id in force)
    ensures r.id == b.id && r.color == b.color && r.size == b.size
    ensures b.id == Anchor ==> r.position == b.position && r.speed == b.speed
    ensures b.id != Anchor ==>
      Phase2(r.position, r.speed) == Euler2(b.position, b.speed, force[b.id], Mass(b), step)
    ensures b.id != Anchor ==> r.travel == DrawTrim(b.travel, travelLength) + [r.position]
    ensures b.id == Anchor ==> r.travel == DrawTrim(b.travel, travelLength)
    ensures 0 <= travelLength ==> |r.travel| <= travelLength + 1
  {
    CubePositive(b.size);
    var drawn := b.(travel := DrawTrim(b.travel, travelLength));
    if b.id == Anchor then drawn
    else
      var e := Euler2(b.position, b.speed, force[b.id], Mass(b), step);
      assert Phase2(MoveToNext2D(drawn, step, force[b.id]).position, MoveToNext2D(drawn, step, force[b.id]).speed) == e by {
        Euler2Unique(b.position, b.speed, force[b.id], Mass(b), step,
          Phase2(MoveToNext2D(drawn, step, force[b.id]).position, MoveToNext2D(drawn, step, force[b.id]).speed));
      }
      MoveToNext2D(drawn, step, force[b.id])
  }

  /** The bodies a tick is given can all be drawn and moved. */
  ghost predicate Movable(bodies: seq<Body<Vec2>>, force: map<string, Vec2>) {
    forall k :: 0 <= k < |bodies| ==> 0.0 < bodies[k].size && bodies[k].id in force
  }

  /** The tick's loop over the bodies, slot by slot. */
  function Advance(bodies: seq<Body<Vec2>>, force: map<string, Vec2>, travelLength: int, step: real): (r: seq<Body<Vec2>>)
    requires Movable(bodies, force)
  {
    seq(|bodies|, k requires 0 <= k < |bodies| => TickBody(bodies[k], force, travelLength, step))
  }

  /** The settings of this component's pass: the anchor keeps its speed when it wins. */
  function Rules(g: real, mergeMode: bool): Engine2D.Rules {
    Engine2D.Rules(g, mergeMode, true)
  }

  /**
   * The anchor never moves: if it survives the tick, it is where it was
   * at the start of the tick.  The bodies after the tick are the
   * survivors of the pass, in order, each with its id.
   */
  lemma TickKeepsAnchor(roots: Roots, g: real, mergeMode: bool, stars: seq<Body<Vec2>>,
                        travelLength: int, step: real)
    requires roots.Valid() && AllPositive(stars) && Distinct(IdsOf(stars))
    ensures var pass := Engine2D.ForcePass(roots, Rules(g, mergeMode), stars);
      Movable(pass.stars, pass.force) &&
      var r := Advance(pass.stars, pass.force, travelLength, step);
      && Distinct(IdsOf(r))
      && forall k :: 0 <= k < |r| && r[k].id == Anchor ==>
           exists i :: 0 <= i < |stars| && stars[i].id == Anchor && r[k].position == stars[i].position
  {
    var rules := Rules(g, mergeMode);
    var pass := Engine2D.ForcePass(roots, rules, stars);
    var r := Advance(pass.stars, pass.force, travelLength, step);
    Engine2D.ForcePassSurvivors(roots, rules, stars);
    var kept := Kept(|stars|, Engine2D.ScanResult(roots, rules, Start(stars, Zero2)).deleted);
    assert IdsOf(r) == IdsOf(pass.stars);
    forall k | 0 <= k < |r| && r[k].id == Anchor
      ensures exists i :: 0 <= i < |stars| && stars[i].id == Anchor && r[k].position == stars[i].position
    {
      assert SameBody(stars[kept[k]], pass.stars[k]);
    }
  }

  /**
   * The `forEach` of the tick: each body is drawn (its trail trimmed)
   * and, unless it is the anchor, moved, then written back to its slot.
   */
  method MoveAll(bodies: seq<Body<Vec2>>, force: map<string, Vec2>, travelLength: int, step: real)
    returns (list: seq<Body<Vec2>>)
    requires Movable(bodies, force)
    ensures list == Advance(bodies, force, travelLength, step)
  {
    list := bodies;
    var index := 0;
    while index < |list|
      invariant 0 <= index <= |list| == |bodies|
      invariant forall k :: 0 <= k < index ==> list[k] == TickBody(bodies[k], force, travelLength, step)
      invariant forall k :: index <= k < |list| ==> list[k] == bodies[k]
    {
      var star := list[index];
      star := star.(travel := DrawTrim(star.travel, travelLength));
      if star.id != Anchor {
        CubePositive(star.size);
        star := MoveToNext2D(star, step, force[star.id]);
      }
      list := list[index := star];
      index := index + 1;
    }
  }

  /** The simulation state the component keeps between ticks. */
  /**
   * `render` sorts the list in place by size, largest first
   * (2d.tsx:461-462).  The comparator `value2.size - value1.size` is zero
   * on equal sizes and `Array.prototype.sort` is stable, so bodies of the
   * same size keep their order.  Insertion from the back gives that.
   */
  function BySize(s: seq<Body<Vec2>>): (r: seq<Body<Vec2>>)
    ensures |r| == |s|
  {
    if s == [] then [] else Insert(s[0], BySize(s[1..]))
  }

  /** `b` goes in front of the first body that is not larger than it. */
  function Insert(b: Body<Vec2>, t: seq<Body<Vec2>>): (r: seq<Body<Vec2>>)
    ensures |r| == |t| + 1
  {
    if t == [] || t[0].size <= b.size then [b] + t else [t[0]] + Insert(b, t[1..])
  }

  /** Largest first. */
  ghost predicate Descending(s: seq<Body<Vec2>>) {
    forall i, j :: 0 <= i < j < |s| ==> s[j].size <= s[i].size
  }

  /** The bodies of size `x`, in list order. */
  function SizeClass(s: seq<Body<Vec2>>, x: real): (r: seq<Body<Vec2>>)
    ensures forall k :: 0 <= k < |r| ==> r[k].size == x
  {
    if s == [] then [] else (if s[0].size == x then [s[0]] else []) + SizeClass(s[1..], x)
  }

  lemma {:induction false} SizeClassAppend(s: seq<Body<Vec2>>, t: seq<Body<Vec2>>, x: real)
    ensures SizeClass(s + t, x) == SizeClass(s, x) + SizeClass(t, x)
    decreases |s|
  {
    if s != [] {
      assert (s + t)[0] == s[0];
      assert (s + t)[1..] == s[1..] + t;
      SizeClassAppend(s[1..], t, x);
    } else {
      assert s + t == t;
    }
  }

  /** Inserting adds `b` and nothing else. */
  lemma {:induction false} InsertPerm(b: Body<Vec2>, t: seq<Body<Vec2>>)
    ensures multiset(Insert(b, t)) == multiset(t) + multiset{b}
    decreases |t|
  {
    if !(t == [] || t[0].size <= b.size) {
      InsertPerm(b, t[1..]);
      assert t == [t[0]] + t[1..];
    }
  }

  /** A body no smaller than any of a largest-first list can go in front of it. */
  lemma ConsDescending(e: Body<Vec2>, s: seq<Body<Vec2>>)
    requires Descending(s) && forall k :: 0 <= k < |s| ==> s[k].size <= e.size
    ensures Descending([e] + s)
  {
    var r := [e] + s;
    forall i, j | 0 <= i < j < |r|
      ensures r[j].size <= r[i].size
    {
      assert r[j] == s[j - 1];
      if 0 < i {
        assert r[i] == s[i - 1];
      }
    }
  }

  /** Inserting a body no larger than `m` into bodies no larger than `m` keeps every body no larger than `m`. */
  lemma {:induction false} InsertBelow(b: Body<Vec2>, t: seq<Body<Vec2>>, m: real)
    requires b.size <= m && forall k :: 0 <= k < |t| ==> t[k].size <= m
    ensures forall k :: 0 <= k < |t| + 1 ==> Insert(b, t)[k].size <= m
    decreases |t|
  {
    if !(t == [] || t[0].size <= b.size) {
      InsertBelow(b, t[1..], m);
    }
  }

  /** Inserting into a list that is largest first keeps it largest first. */
  lemma {:induction false} InsertDescending(b: Body<Vec2>, t: seq<Body<Vec2>>)
    requires Descending(t)
    ensures Descending(Insert(b, t))
    decreases |t|
  {
    if t == [] || t[0].size <= b.size {
      ConsDescending(b, t);
    } else {
      var rest := t[1..];
      assert Descending(rest) by {
        forall i, j | 0 <= i < j < |rest|
          ensures rest[j].size <= rest[i].size
        {
          assert rest[i] == t[i + 1] && rest[j] == t[j + 1];
        }
      }
      InsertDescending(b, rest);
      InsertBelow(b, rest, t[0].size);
      ConsDescending(t[0], Insert(b, rest));
    }
  }

  /** `b` lands behind larger bodies only, so among the bodies of its size it stays first. */
  lemma {:induction false} InsertStable(b: Body<Vec2>, t: seq<Body<Vec2>>, x: real)
    ensures SizeClass(Insert(b, t), x) == SizeClass([b] + t, x)
    decreases |t|
  {
    if !(t == [] || t[0].size <= b.size) {
      var t0, rest := t[0], t[1..];
      InsertStable(b, rest, x);
      assert t == [t0] + rest;
      assert [b] + t == [b] + [t0] + rest;
      SizeClassAppend([t0], Insert(b, rest), x);
      SizeClassAppend([t0], [b] + rest, x);
      SizeClassAppend([b], rest, x);
      SizeClassAppend([b] + [t0], rest, x);
      SizeClassAppend([b], [t0], x);
    }
  }

  /**
   * The reorder of `render` is a stable sort: the list comes out largest
   * first, with the same bodies, and the bodies of any one size in the
   * order they had.
   */
  lemma {:induction false} BySizeSorts(s: seq<Body<Vec2>>, x: real)
    ensures Descending(BySize(s))
    ensures multiset(BySize(s)) == multiset(s)
    ensures SizeClass(BySize(s), x) == SizeClass(s, x)
    decreases |s|
  {
    if s != [] {
      BySizeSorts(s[1..], x);
      InsertPerm(s[0], BySize(s[1..]));
      InsertDescending(s[0], BySize(s[1..]));
      InsertStable(s[0], BySize(s[1..]), x);
      SizeClassAppend([s[0]], BySize(s[1..]), x);
      SizeClassAppend([s[0]], s[1..], x);
      assert s == [s[0]] + s[1..];
    }
  }

  /** A list that is already largest first comes out of the reorder as it went in. */
  lemma {:induction false} BySizeKeepsSorted(s: seq<Body<Vec2>>)
    requires Descending(s)
    ensures BySize(s) == s
    decreases |s|
  {
    if s != [] {
      var rest := s[1..];
      assert Descending(rest) by {
        forall i, j | 0 <= i < j < |rest|
          ensures rest[j].size <= rest[i].size
        {
          assert rest[i] == s[i + 1] && rest[j] == s[j + 1];
        }
      }
      BySizeKeepsSorted(rest);
      assert s == [s[0]] + rest;
    }
  }

  /** Sorting twice is sorting once. */
  lemma BySizeIdempotent(s: seq<Body<Vec2>>)
    ensures BySize(BySize(s)) == BySize(s)
  {
    BySizeSorts(s, 0.0);
    BySizeKeepsSorted(BySize(s));
  }

  class Simulation {
    var stars: seq<Body<Vec2>>
    var forceDict: map<string, Vec2>
    var view: View

    /** An empty component: no bodies, no forces, scale 1 and the origin at the corner. */
    constructor ()
      ensures stars == [] && forceDict == map[] && view == View(1.0, Zero2, Zero2)
    {
      stars := [];
      forceDict := map[];
      view := View(1.0, Zero2, Zero2);
    }

    /** `addCenterStar`: the anchor goes to the end of the list. */
    method AddCenterStar(centerSize: real, width: real, height: real)
      modifies this
      ensures stars == old(stars) + [CenterStar(centerSize, width, height)]
      ensures forceDict == old(forceDict) && view == old(view)
    {
      stars := stars + [CenterStar(centerSize, width, height)];
    }

    /** `removeCenterStar`: every body with id `#0` goes, the rest keep their order. */
    method RemoveCenterStar()
      modifies this
      ensures stars == WithoutAnchor(old(stars))
      ensures forceDict == old(forceDict) && view == old(view)
    {
      stars := WithoutAnchor(stars);
    }

    /**
     * `initStars`: in sandbox mode the list is replaced by the sandbox
     * bodies numbered from `#1`; otherwise the anchor (unless disabled)
     * and the generated bodies `#1..#total` are appended to it.
     */
    method InitStars(sandboxMode: bool, sandboxData: seq<SandboxData<Vec2>>, disableCenter: bool,
                     centerSize: real, width: real, height: real, generated: seq<SandboxData<Vec2>>)
      modifies this
      ensures sandboxMode ==> stars == Numbered(sandboxData, 1, false)
      ensures !sandboxMode ==>
        stars == old(stars) + (if disableCenter then [] else [CenterStar(centerSize, width, height)])
          + Numbered(generated, 1, false)
      ensures forceDict == old(forceDict) && view == old(view)
    {
      if sandboxMode {
        stars := Numbered(sandboxData, 1, false);
      } else {
        if !disableCenter {
          AddCenterStar(centerSize, width, height);
        }
        var list := stars;
        var total := |generated|;
        for i := 1 to total + 1
          invariant list == stars + Numbered(generated[..i - 1], 1, false)
        {
          var d := generated[i - 1];
          ghost var pushed := Numbered(generated[..i], 1, false);
          assert pushed == Numbered(generated[..i - 1], 1, false) + [pushed[i - 1]];
          list := list + [Body(IdOf(i), d.color, d.size, d.position, d.speed, [])];
        }
        assert generated[..total] == generated;
        stars := list;
      }
    }

    /** `calcForce` with this component's rules. */
    method CalcForce(roots: Roots, g: real, mergeMode: bool)
      requires roots.Valid() && AllPositive(stars)
      modifies this
      ensures Engine2D.Pass(stars, forceDict) == Engine2D.ForcePass(roots, Rules(g, mergeMode), old(stars))
      ensures view == old(view)
    {
      stars, forceDict := Engine2D.CalcForce(roots, Rules(g, mergeMode), stars);
    }

    /**
     * `render`, run by `forceUpdate` at the end of every tick: the status
     * panel sorts `this.stars` itself, so the list is left largest first.
     */
    method Render()
      modifies this
      ensures stars == BySize(old(stars))
      ensures forceDict == old(forceDict) && view == old(view)
    {
      stars := BySize(stars);
    }

    /**
     * One tick of `start`: the pass, then for every body in order its
     * trail trim and, unless it is the anchor, one step of `moveToNext`,
     * then the render that reorders the list for the next pass.
     */
    method Tick(roots: Roots, g: real, mergeMode: bool, travelLength: int, step: real)
      requires roots.Valid() && AllPositive(stars)
      modifies this
      ensures var pass := Engine2D.ForcePass(roots, Rules(g, mergeMode), old(stars));
        && forceDict == pass.force
        && Movable(pass.stars, pass.force)
        && stars == BySize(Advance(pass.stars, pass.force, travelLength, step))
      ensures view == old(view)
    {
      CalcForce(roots, g, mergeMode);
      stars := MoveAll(stars, forceDict, travelLength, step);
      Render();
    }
  }
}
