/**
 * The trajectory buffer (`travel`): a list of past positions that grows by a
 * push and is trimmed from the front.  Each variant trims a little
 * differently; all of them go through JavaScript's `Array.prototype.slice`
 * with a negative start.
 */
module Trails {

  /** `r` is a (possibly empty) tail of `s`. */
  ghost predicate IsSuffix<T>(r: seq<T>, s: seq<T>) {
    |r| <= |s| && r == s[|s| - |r|..]
  }

  /** The last `n` entries of `s` (all of `s` when it is shorter). */
  function Last<T>(s: seq<T>, n: nat): (r: seq<T>)
    ensures |r| == if n < |s| then n else |s|
    ensures IsSuffix(r, s)
  {
    if n < |s| then s[|s| - n..] else s
  }

  /**
   * `s.slice(start)`: a negative start counts from the end and is clamped
   * at the front, a non-negative start is clamped at the end.
   */
  function SliceFrom<T>(s: seq<T>, start: int): (r: seq<T>)
    ensures start < 0 ==> r == Last(s, -start)
    ensures start == 0 ==> r == s
    ensures 0 < start ==> |r| == (if start < |s| then |s| - start else 0) && IsSuffix(r, s)
  {
    if start < 0 then
      if |s| + start < 0 then s else s[|s| + start..]
    else if start < |s| then s[start..]
    else []
  }

  /**
   * The trim of `Star2D.drawTravel` (star.ts): a zero length empties the
   * trail, otherwise `slice(-travelLength)` keeps the newest entries.
   */
  function DrawTrim<T>(travel: seq<T>, travelLength: int): (r: seq<T>)
    ensures travelLength == 0 ==> r == []
    ensures 0 < travelLength ==> r == Last(travel, travelLength)
    ensures IsSuffix(r, travel)
  {
    var kept := if travelLength == 0 then [] else travel;
    SliceFrom(kept, -travelLength)
  }

  /**
   * The push-then-trim of the `moveStar` functions (page/2d.tsx,
   * page/canvas.tsx, component/3d.tsx): push, and when the trail is longer
   * than `travelLength`, keep its last `travelLength` entries, or none when
   * `travelLength` is not positive.
   */
  function PushTrim<T>(travel: seq<T>, x: T, travelLength: int): (r: seq<T>)
    ensures r == if 0 < travelLength then Last(travel + [x], travelLength) else []
    ensures |r| <= if 0 < travelLength then travelLength else 0
  {
    var pushed := travel + [x];
    if |pushed| > travelLength then
      if travelLength > 0 then SliceFrom(pushed, -travelLength) else []
    else
      pushed
  }

  /**
   * `Star3D.changeTravelLength`: nothing when the new length is larger,
   * otherwise `slice(-newTravelLength)`.
   */
  function ChangeTravelLength<T>(travel: seq<T>, newLength: int, oldLength: int): (r: seq<T>)
    ensures newLength > oldLength ==> r == travel
    ensures newLength <= oldLength && 0 < newLength ==> r == Last(travel, newLength)
    ensures newLength <= oldLength && newLength == 0 ==> r == travel
  {
    if newLength > oldLength then travel else SliceFrom(travel, -newLength)
  }

  /** The trail after pushing every entry of `xs` in turn. */
  function PushAll<T>(travel: seq<T>, xs: seq<T>, travelLength: int): seq<T>
    decreases |xs|
  {
    if xs == [] then travel else PushAll(PushTrim(travel, xs[0], travelLength), xs[1..], travelLength)
  }

  /**
   * However many pushes happen, a trail that starts within its bound holds
   * exactly the newest `travelLength` positions, oldest first.
   */
  lemma {:induction false} PushAllKeepsNewest<T>(travel: seq<T>, xs: seq<T>, travelLength: int)
    requires 0 < travelLength && |travel| <= travelLength
    ensures PushAll(travel, xs, travelLength) == Last(travel + xs, travelLength)
    decreases |xs|
  {
    if xs == [] {
      assert travel + xs == travel;
    } else {
      var u := travel + [xs[0]];
      var next := PushTrim(travel, xs[0], travelLength);
      calc {
        PushAll(travel, xs, travelLength);
        PushAll(next, xs[1..], travelLength);
        { PushAllKeepsNewest(next, xs[1..], travelLength); }
        Last(next + xs[1..], travelLength);
        { LastOfPushedLastAll(u, xs[1..], travelLength); }
        Last(u + xs[1..], travelLength);
        { assert u + xs[1..] == travel + xs; }
        Last(travel + xs, travelLength);
      }
    }
  }

  /** Once at least `travelLength` pushes happened, only pushed positions remain. */
  lemma PushAllForgetsStart<T>(travel: seq<T>, xs: seq<T>, travelLength: int)
    requires 0 < travelLength <= |xs| && |travel| <= travelLength
    ensures PushAll(travel, xs, travelLength) == xs[|xs| - travelLength..]
  {
    var j := |xs| - travelLength;
    calc {
      PushAll(travel, xs, travelLength);
      { PushAllKeepsNewest(travel, xs, travelLength); }
      Last(travel + xs, travelLength);
      { LastIsDrop(travel + xs, travelLength); }
      (travel + xs)[|travel| + j..];
      { DropPastPrefix(travel, xs, j); }
      xs[j..];
    }
  }

  /** Appending after a trim keeps the same newest entries. */
  lemma LastOfPushedLastAll<T>(u: seq<T>, ys: seq<T>, n: nat)
    requires 0 < n
    ensures Last(Last(u, n) + ys, n) == Last(u + ys, n)
  {
    if n < |u| {
      var i := |u| - n;
      calc {
        Last(Last(u, n) + ys, n);
        { LastIsDrop(u, n); }
        Last(u[i..] + ys, n);
        { DropAppend(u, ys, i); }
        Last((u + ys)[i..], n);
        { LastIsDrop((u + ys)[i..], n); }
        (u + ys)[i..][|ys|..];
        { DropDrop(u + ys, i, i + |ys|); }
        (u + ys)[i + |ys|..];
        { LastIsDrop(u + ys, n); }
        Last(u + ys, n);
      }
    }
  }

  /** Within its length, `Last` is a drop. */
  lemma LastIsDrop<T>(s: seq<T>, n: nat)
    requires n <= |s|
    ensures Last(s, n) == s[|s| - n..]
  {
    if n == |s| {
      assert s[0..] == s;
    }
  }

  /** Dropping from the front of a concatenation drops from its first part. */
  lemma DropAppend<T>(u: seq<T>, ys: seq<T>, i: nat)
    requires i <= |u|
    ensures u[i..] + ys == (u + ys)[i..]
  {
    var p, q := u[i..] + ys, (u + ys)[i..];
    assert |p| == |q|;
    forall k | 0 <= k < |p|
      ensures p[k] == q[k]
    {
      if k < |u| - i {
        assert p[k] == u[i + k];
      } else {
        assert p[k] == ys[k - (|u| - i)];
      }
    }
  }

  /** Dropping past a prefix drops from what follows it. */
  lemma DropPastPrefix<T>(t: seq<T>, xs: seq<T>, j: nat)
    requires j <= |xs|
    ensures (t + xs)[|t| + j..] == xs[j..]
  {
    var p, q := (t + xs)[|t| + j..], xs[j..];
    assert |p| == |q|;
    forall k | 0 <= k < |p|
      ensures p[k] == q[k]
    {
      assert p[k] == (t + xs)[|t| + j + k];
    }
  }

  /** Two drops are one. */
  lemma DropDrop<T>(s: seq<T>, i: nat, j: nat)
    requires i <= j <= |s|
    ensures s[i..][j - i..] == s[j..]
  {
    var p, q := s[i..][j - i..], s[j..];
    assert |p| == |q|;
    forall k | 0 <= k < |p|
      ensures p[k] == q[k]
    {
      assert p[k] == s[i..][j - i + k];
    }
  }
}
