/**
 * The spatial simulation component (component/3d.tsx): a list of body
 * records, the force dictionary `g` that every tick recomputes with the
 * inclusive collision test, and the tick that moves every body but the
 * anchor `#0` with `moveStar`.
 */
module Component3D {
  import opened Numerics
  import opened Vectors
  import opened Ids
  import opened Bodies
  import opened Motion
  import opened Seeds
  import Engine3D

  /** The anchor of the random start: red, at rest, at the origin, with no trail. */
  function CenterStar(centerSize: real): Body<Vec3> {
    Body(Anchor, "red", centerSize, Zero3, Zero3, [])
  }

  /**
   * The list `initStars` builds: the sandbox bodies `#1..#n`, or the
   * anchor followed by the generated bodies `#1..#total`; every body but
   * the anchor starts with its position as its trail.
   */
  function Initial(sandboxMode: bool, sandboxData: seq<SandboxData<Vec3>>, centerSize: real,
                   generated: seq<SandboxData<Vec3>>): (r: seq<Body<Vec3>>)
    ensures Distinct(IdsOf(r))
    ensures sandboxMode ==> forall k :: 0 <= k < |r| ==> r[k].id != Anchor
    ensures !sandboxMode ==> 0 < |r| && r[0] == CenterStar(centerSize)
    ensures !sandboxMode ==> forall k :: 0 <= k < |r| ==> (r[k].id == Anchor <==> k == 0)
    ensures forall k :: 0 <= k < |r| && r[k].id != Anchor ==> r[k].travel == [r[k].position]
    ensures sandboxMode ==> |r| == |sandboxData| && forall k :: 0 <= k < |r| ==>
      r[k].id == IdOf(k + 1) && SandboxData(r[k].position, r[k].speed, r[k].color, r[k].size) == sandboxData[k]
    ensures !sandboxMode ==> |r| == |generated| + 1 && forall k :: 0 < k < |r| ==>
      r[k].id == IdOf(k) && SandboxData(r[k].position, r[k].speed, r[k].color, r[k].size) == generated[k - 1]
  {
    if sandboxMode then
      NumberedIds(sandboxData, 1, true);
      Numbered(sandboxData, 1, true)
    else
      AnchoredIds(CenterStar(centerSize), generated, true);
      [CenterStar(centerSize)] + Numbered(generated, 1, true)
  }

  /** One body in the tick: the anchor stays, every other body takes `moveStar`. */
  function TickBody(b: Body<Vec3>, force: map<string, Vec3>, travelLength: int, step: real): (r: Body<Vec3>)
    requires 0.0 < b.size && (b.id != Anchor ==> b.id in force)
    ensures b.id == Anchor ==> r == b
    ensures b.id != Anchor ==> r.id == b.id && r.color == b.color && r.size == b.size
    ensures b.id != Anchor ==>
      Phase3(r.position, r.speed) == Euler3(b.position, b.speed, force[b.id], Mass(b), step)
    ensures b.id != Anchor ==> |r.travel| <= if 0 < travelLength then travelLength else 0
  {
    CubePositive(b.size);
    if b.id == Anchor then b
    else
      var m := MoveStar3D(b, force[b.id], travelLength, step);
      Euler3Unique(b.position, b.speed, force[b.id], Mass(b), step, Phase3(m.position, m.speed));
      m
  }

  /** The bodies a tick is given can all be moved. */
  ghost predicate Movable(bodies: seq<Body<Vec3>>, force: map<string, Vec3>) {
    forall k :: 0 <= k < |bodies| ==> 0.0 < bodies[k].size && bodies[k].id in force
  }

  /** The tick's loop over the bodies, slot by slot. */
  function Advance(bodies: seq<Body<Vec3>>, force: map<string, Vec3>, travelLength: int, step: real): (r: seq<Body<Vec3>>)
    requires Movable(bodies, force)
  {
    seq(|bodies|, k requires 0 <= k < |bodies| => TickBody(bodies[k], force, travelLength, step))
  }

  /**
   * The anchor never moves: if it survives the tick it is unchanged
   * apart from what a collision gives it, at the position it started
   * the tick at.  The ids after the tick stay pairwise different.
   */
  lemma TickKeepsAnchor(roots: Roots, rules: Engine3D.Rules, stars: seq<Body<Vec3>>,
                        travelLength: int, step: real)
    requires roots.Valid() && AllPositive(stars) && Distinct(IdsOf(stars))
    ensures var pass := Engine3D.ForcePass(roots, rules, stars);
      Movable(pass.stars, pass.force) &&
      var r := Advance(pass.stars, pass.force, travelLength, step);
      && Distinct(IdsOf(r))
      && forall k :: 0 <= k < |r| && r[k].id == Anchor ==>
           exists i :: 0 <= i < |stars| && SameBody(stars[i], r[k])
  {
    var pass := Engine3D.ForcePass(roots, rules, stars);
    var r := Advance(pass.stars, pass.force, travelLength, step);
    Engine3D.ForcePassSurvivors(roots, rules, stars);
    var kept := Kept(|stars|, Engine3D.ScanResult(roots, rules, Start(stars, Zero3)).deleted);
    assert IdsOf(r) == IdsOf(pass.stars);
    forall k | 0 <= k < |r| && r[k].id == Anchor
      ensures exists i :: 0 <= i < |stars| && SameBody(stars[i], r[k])
    {
      assert SameBody(stars[kept[k]], pass.stars[k]);
    }
  }

  /**
   * The `forEach` of the tick: every body but the anchor is moved and
   * written back to its slot.
   */
  method MoveAll(bodies: seq<Body<Vec3>>, force: map<string, Vec3>, travelLength: int, step: real)
    returns (list: seq<Body<Vec3>>)
    requires Movable(bodies, force)
    ensures list == Advance(bodies, force, travelLength, step)
  {
    list := bodies;
    var index := 0;
    while index < |list|
      invariant 0 <= index <= |list| == |bodies|
      invariant forall k :: 0 <= k < index ==> list[k] == TickBody(bodies[k], force, travelLength, step)
      invariant forall k :: index <= k < |list| ==> list[k] == bodies[k]
    {
      var starInfo := list[index];
      if starInfo.id != Anchor {
        CubePositive(starInfo.size);
        var nextStarInfo := MoveStar3D(starInfo, force[starInfo.id], travelLength, step);
        list := list[index := nextStarInfo];
      }
      index := index + 1;
    }
  }

  /** The simulation state the component keeps between ticks. */
  class Simulation {
    var stars: seq<Body<Vec3>>
    var g: map<string, Vec3>

    /** An empty component. */
    constructor ()
      ensures stars == [] && g == map[]
    {
      stars := [];
      g := map[];
    }

    /** `initStars`: the list is replaced in both modes. */
    method InitStars(sandboxMode: bool, sandboxData: seq<SandboxData<Vec3>>, centerSize: real,
                     generated: seq<SandboxData<Vec3>>)
      modifies this
      ensures stars == Initial(sandboxMode, sandboxData, centerSize, generated)
      ensures g == old(g)
    {
      if sandboxMode {
        stars := Numbered(sandboxData, 1, true);
        return;
      }
      var list := [CenterStar(centerSize)];
      var total := |generated|;
      for i := 1 to total + 1
        invariant list == [CenterStar(centerSize)] + Numbered(generated[..i - 1], 1, true)
      {
        var d := generated[i - 1];
        ghost var pushed := Numbered(generated[..i], 1, true);
        assert pushed == Numbered(generated[..i - 1], 1, true) + [pushed[i - 1]];
        list := list + [Body(IdOf(i), d.color, d.size, d.position, d.speed, [d.position])];
      }
      assert generated[..total] == generated;
      stars := list;
    }

    /** `calcForce`: the pass with the inclusive test; the forces go to `g`. */
    method CalcForce(roots: Roots, rules: Engine3D.Rules)
      requires roots.Valid() && AllPositive(stars)
      modifies this
      ensures Engine3D.Pass(stars, g) == Engine3D.ForcePass(roots, rules, old(stars))
    {
      stars, g := Engine3D.CalcForce(roots, rules, stars);
    }

    /** One tick of `start`: the pass, then every body but the anchor moves. */
    method Tick(roots: Roots, rules: Engine3D.Rules, travelLength: int, step: real)
      requires roots.Valid() && AllPositive(stars)
      modifies this
      ensures var pass := Engine3D.ForcePass(roots, rules, old(stars));
        && g == pass.force
        && Movable(pass.stars, pass.force)
        && stars == Advance(pass.stars, pass.force, travelLength, step)
    {
      CalcForce(roots, rules);
      stars := MoveAll(stars, g, travelLength, step);
    }
  }
}
