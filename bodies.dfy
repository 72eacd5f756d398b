/**
 * Bodies as records, shared by all four engine variants, and the parts of
 * `calcForce` that do not depend on the number of dimensions: the scan
 * state, the deferred deletion (`filter` on `deleteIndex`) and the
 * `changeList` map applied after it.
 */
module Bodies {
  import opened Numerics
  import opened Ids

  /**
   * One body: `StarInfo2D`/`StarInfo3D` of the type declarations and the
   * `StarInfo` records of the page variants, with its trail.  The mass is
   * not stored: every variant uses `size^3`.
   */
  datatype Body<V> = Body(id: string, color: string, size: real, position: V, speed: V, travel: seq<V>)

  /** A sandbox seed: position, speed, colour and size (`SandboxData`). */
  datatype SandboxData<V> = SandboxData(position: V, speed: V, color: string, size: real)

  function Mass<V>(b: Body<V>): real {
    Cube(b.size)
  }

  function IdsOf<V>(bodies: seq<Body<V>>): (r: seq<string>)
    ensures |r| == |bodies|
    ensures forall k :: 0 <= k < |bodies| ==> r[k] == bodies[k].id
  {
    seq(|bodies|, k requires 0 <= k < |bodies| => bodies[k].id)
  }

  ghost predicate AllPositive<V>(bodies: seq<Body<V>>) {
    forall k :: 0 <= k < |bodies| ==> 0.0 < bodies[k].size
  }

  /** What a collision may change: speed and size.  Everything else stays. */
  ghost predicate SameBody<V>(a: Body<V>, b: Body<V>) {
    a.id == b.id && a.color == b.color && a.position == b.position && a.travel == b.travel
  }

  ghost predicate SameFrame<V>(a: seq<Body<V>>, b: seq<Body<V>>) {
    |a| == |b| && forall k :: 0 <= k < |a| ==> SameBody(a[k], b[k])
  }

  /**
   * The local state of `calcForce` during its pair scan: the bodies (whose
   * speed and size are updated in place), the force dictionary `result`,
   * the `deleteIndex` list and the `changeList` (id to the index of the
   * body object stored under it).
   */
  datatype Scan<V> = Scan(bodies: seq<Body<V>>, force: map<string, V>, deleted: seq<int>, changes: map<string, nat>)

  /** Every `changeList` entry names a body with that id. */
  ghost predicate ChangesValid<V>(bodies: seq<Body<V>>, changes: map<string, nat>) {
    forall id :: id in changes ==> changes[id] < |bodies| && bodies[changes[id]].id == id
  }

  /** The shape the pair scan keeps. */
  ghost predicate Ready<V>(s: Scan<V>) {
    && AllPositive(s.bodies)
    && (forall k :: 0 <= k < |s.bodies| ==> s.bodies[k].id in s.force)
    && ChangesValid(s.bodies, s.changes)
    && (forall d :: d in s.deleted ==> 0 <= d < |s.bodies|)
  }

  /**
   * What the pair scan keeps relative to its starting state `s0`: the
   * shape, the identity of every slot, the keys of the force dictionary
   * and the deletions made so far.
   */
  ghost predicate Framed<V>(s0: Scan<V>, s: Scan<V>) {
    Ready(s) && SameFrame(s0.bodies, s.bodies) && s.force.Keys == s0.force.Keys && s0.deleted <= s.deleted
  }

  /**
   * The indices that survive `filter((value, index) =>
   * deleteIndex.indexOf(index) === -1)`, in ascending order.
   */
  function Kept(n: nat, deleted: seq<int>): (r: seq<nat>)
    ensures forall k :: 0 <= k < |r| ==> r[k] < n
    ensures forall p, q :: 0 <= p < q < |r| ==> r[p] < r[q]
    ensures forall x :: x in r <==> 0 <= x < n && x !in deleted
  {
    if n == 0 then [] else Kept(n - 1, deleted) + (if n - 1 in deleted then [] else [n - 1])
  }

  /** No more indices are kept than there are bodies. */
  lemma {:induction false} KeptLength(n: nat, deleted: seq<int>)
    ensures |Kept(n, deleted)| <= n
  {
    if n > 0 {
      KeptLength(n - 1, deleted);
    }
  }

  /** The indices of two bodies that survive no deletion or one. */
  lemma KeptOfTwo(deleted: seq<int>)
    ensures deleted == [] ==> Kept(2, deleted) == [0, 1]
    ensures deleted == [0] ==> Kept(2, deleted) == [1]
    ensures deleted == [1] ==> Kept(2, deleted) == [0]
  {
    assert Kept(0, deleted) == [];
    assert Kept(1, deleted) == if 0 in deleted then [] else [0];
  }

  /** The force dictionary before the scan: the zero vector for every body's id. */
  function ZeroForces<V>(bodies: seq<Body<V>>, zero: V): map<string, V>
  {
    if bodies == [] then map[]
    else ZeroForces(bodies[..|bodies| - 1], zero)[bodies[|bodies| - 1].id := zero]
  }

  lemma {:induction false} ZeroForcesShape<V>(bodies: seq<Body<V>>, zero: V)
    ensures forall id :: id in ZeroForces(bodies, zero) <==> id in IdsOf(bodies)
    ensures forall id :: id in ZeroForces(bodies, zero) ==> ZeroForces(bodies, zero)[id] == zero
    decreases |bodies|
  {
    if bodies != [] {
      var init := bodies[..|bodies| - 1];
      ZeroForcesShape(init, zero);
      assert IdsOf(bodies) == IdsOf(init) + [bodies[|bodies| - 1].id];
    }
  }

  /** `result[value.id] = {x: 0, y: 0, ...}` for every body, in a loop. */
  method InitForces<V>(stars: seq<Body<V>>, zero: V) returns (result: map<string, V>)
    ensures result == ZeroForces(stars, zero)
  {
    result := map[];
    for k := 0 to |stars|
      invariant result == ZeroForces(stars[..k], zero)
    {
      assert stars[..k + 1][..k] == stars[..k];
      result := result[stars[k].id := zero];
    }
    assert stars[..|stars|] == stars;
  }

  /** The state `calcForce` starts its scan from. */
  function Start<V>(stars: seq<Body<V>>, zero: V): (s: Scan<V>)
    requires AllPositive(stars)
    ensures Ready(s)
  {
    ZeroForcesShape(stars, zero);
    Scan(stars, ZeroForces(stars, zero), [], map[])
  }

  /**
   * The new body list of `calcForce`: the bodies whose index was never
   * deleted, in order, each replaced by its `changeList` entry when it has
   * one.
   */
  function Survivors<V>(bodies: seq<Body<V>>, deleted: seq<int>, changes: map<string, nat>): (r: seq<Body<V>>)
    requires ChangesValid(bodies, changes)
    ensures |r| == |Kept(|bodies|, deleted)|
    ensures forall k :: 0 <= k < |r| ==> r[k].id == bodies[Kept(|bodies|, deleted)[k]].id
  {
    var kept := Kept(|bodies|, deleted);
    seq(|kept|, k requires 0 <= k < |kept| =>
      var b := bodies[kept[k]];
      if b.id in changes then bodies[changes[b.id]] else b)
  }

  /**
   * With distinct ids the `changeList` lookup gives back the very body it
   * starts from, so the survivors are exactly the kept bodies.
   */
  lemma SurvivorsAreKept<V>(bodies: seq<Body<V>>, deleted: seq<int>, changes: map<string, nat>)
    requires ChangesValid(bodies, changes) && Distinct(IdsOf(bodies))
    ensures var kept := Kept(|bodies|, deleted);
      Survivors(bodies, deleted, changes) == seq(|kept|, k requires 0 <= k < |kept| => bodies[kept[k]])
  {
    var kept := Kept(|bodies|, deleted);
    var r := Survivors(bodies, deleted, changes);
    forall k | 0 <= k < |kept|
      ensures r[k] == bodies[kept[k]]
    {
      var b := bodies[kept[k]];
      if b.id in changes {
        var c := changes[b.id];
        assert bodies[c].id == b.id;
        assert IdsOf(bodies)[c] == IdsOf(bodies)[kept[k]];
      }
    }
  }

  /**
   * The survivors of a scan that kept the frame of `stars`: the bodies at
   * the kept indices, in order, each the same body as at the start apart
   * from speed and size, so distinct ids stay distinct.
   */
  lemma SurvivorsKeepFrame<V>(stars: seq<Body<V>>, done: Scan<V>)
    requires SameFrame(stars, done.bodies) && ChangesValid(done.bodies, done.changes)
    requires Distinct(IdsOf(stars))
    ensures var r := Survivors(done.bodies, done.deleted, done.changes);
      var kept := Kept(|stars|, done.deleted);
      && |r| == |kept|
      && (forall k :: 0 <= k < |kept| ==> SameBody(stars[kept[k]], r[k]))
      && Distinct(IdsOf(r))
  {
    var kept := Kept(|stars|, done.deleted);
    var r := Survivors(done.bodies, done.deleted, done.changes);
    assert IdsOf(done.bodies) == IdsOf(stars);
    SurvivorsAreKept(done.bodies, done.deleted, done.changes);
    assert forall k :: 0 <= k < |kept| ==> r[k] == done.bodies[kept[k]];
    forall p, q | 0 <= p < q < |r|
      ensures IdsOf(r)[p] != IdsOf(r)[q]
    {
      assert kept[p] < kept[q];
      assert IdsOf(stars)[kept[p]] != IdsOf(stars)[kept[q]];
    }
  }

  /** `stars.filter(star => star.id !== '#0')`. */
  function WithoutAnchor<V>(bodies: seq<Body<V>>): (r: seq<Body<V>>)
    ensures forall k :: 0 <= k < |r| ==> r[k] in bodies && r[k].id != Anchor
    ensures forall k :: 0 <= k < |bodies| && bodies[k].id != Anchor ==> bodies[k] in r
    ensures |r| <= |bodies|
  {
    if bodies == [] then []
    else
      var last := bodies[|bodies| - 1];
      WithoutAnchor(bodies[..|bodies| - 1]) + (if last.id == Anchor then [] else [last])
  }

  /** Filtering distributes over concatenation, so relative order is kept. */
  lemma {:induction false} WithoutAnchorAppend<V>(a: seq<Body<V>>, b: seq<Body<V>>)
    ensures WithoutAnchor(a + b) == WithoutAnchor(a) + WithoutAnchor(b)
    decreases |b|
  {
    if b != [] {
      var ab, init, last := a + b, b[..|b| - 1], b[|b| - 1];
      assert ab[..|ab| - 1] == a + init;
      assert ab[|ab| - 1] == last;
      var tail := if last.id == Anchor then [] else [last];
      calc {
        WithoutAnchor(ab);
        WithoutAnchor(a + init) + tail;
        { WithoutAnchorAppend(a, init); }
        (WithoutAnchor(a) + WithoutAnchor(init)) + tail;
        WithoutAnchor(a) + (WithoutAnchor(init) + tail);
        WithoutAnchor(a) + WithoutAnchor(b);
      }
    } else {
      assert a + b == a;
    }
  }

  /** A list without the anchor passes the filter unchanged. */
  lemma {:induction false} WithoutAnchorNoop<V>(bodies: seq<Body<V>>)
    requires forall k :: 0 <= k < |bodies| ==> bodies[k].id != Anchor
    ensures WithoutAnchor(bodies) == bodies
    decreases |bodies|
  {
    if bodies != [] {
      WithoutAnchorNoop(bodies[..|bodies| - 1]);
      assert bodies[..|bodies| - 1] + [bodies[|bodies| - 1]] == bodies;
    }
  }
}
