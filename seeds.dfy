/**
 * The body lists the `initStars` functions build.  Positions, speeds,
 * sizes and colours come from the user's sandbox data or from the random
 * generators; both are inputs here.  What the code itself decides is the
 * ids, the trails the bodies start with and where the anchor goes.
 */
module Seeds {
  import opened Ids
  import opened Bodies

  /**
   * The bodies `#first`, `#first+1`, ... made from `data` in input order;
   * `withTrail` says whether each starts with its position as its trail
   * (the record variants) or with an empty trail (`Star2D`).
   */
  function Numbered<V>(data: seq<SandboxData<V>>, first: nat, withTrail: bool): (r: seq<Body<V>>)
    ensures |r| == |data|
    ensures forall k :: 0 <= k < |data| ==>
      && r[k].id == IdOf(first + k)
      && SandboxData(r[k].position, r[k].speed, r[k].color, r[k].size) == data[k]
  {
    seq(|data|, k requires 0 <= k < |data| =>
      var d := data[k];
      Body(IdOf(first + k), d.color, d.size, d.position, d.speed, if withTrail then [d.position] else []))
  }

  /** Numbered ids are pairwise different, and none is the anchor when numbering starts at 1. */
  lemma NumberedIds<V>(data: seq<SandboxData<V>>, first: nat, withTrail: bool)
    ensures Distinct(IdsOf(Numbered(data, first, withTrail)))
    ensures 0 < first ==> forall k :: 0 <= k < |data| ==> Numbered(data, first, withTrail)[k].id != Anchor
  {
    var r := Numbered(data, first, withTrail);
    forall p, q | 0 <= p < q < |r|
      ensures IdsOf(r)[p] != IdsOf(r)[q]
    {
      IdOfInjective(first + p, first + q);
    }
    forall k | 0 <= k < |r|
      ensures 0 < first ==> r[k].id != Anchor
    {
      IdOfIsAnchor(first + k);
    }
  }

  /**
   * An anchor put in front of bodies numbered from 1: the ids stay
   * pairwise different and the anchor is the only body with id `#0`.
   */
  lemma AnchoredIds<V>(anchor: Body<V>, data: seq<SandboxData<V>>, withTrail: bool)
    requires anchor.id == Anchor
    ensures var r := [anchor] + Numbered(data, 1, withTrail);
      && Distinct(IdsOf(r))
      && forall k :: 0 <= k < |r| ==> (r[k].id == Anchor <==> k == 0)
  {
    var rest := Numbered(data, 1, withTrail);
    var r := [anchor] + rest;
    NumberedIds(data, 1, withTrail);
    forall p, q | 0 <= p < q < |r|
      ensures IdsOf(r)[p] != IdsOf(r)[q]
    {
      if p == 0 {
        assert r[q] == rest[q - 1];
      } else {
        assert IdsOf(rest)[p - 1] != IdsOf(rest)[q - 1];
      }
    }
    forall k | 0 < k < |r|
      ensures r[k].id != Anchor
    {
      assert r[k] == rest[k - 1];
    }
  }
}
