/**
 * Body identifiers.  Every variant names its bodies with the template
 * `#${n}`: the anchor is `#0` and the others are numbered from `#1`.
 */
module Ids {

  /** The id of the anchor body, which the tick drivers never move. */
  const Anchor: string := "#0"

  /** The decimal digit of `d`. */
  function Digit(d: nat): char
    requires d < 10
  {
    "0123456789"[d]
  }

  /** The decimal text of a natural number, as a template literal renders it. */
  function Decimal(n: nat): (r: string)
    ensures |r| >= 1
    ensures n < 10 <==> |r| == 1
  {
    if n < 10 then [Digit(n)] else Decimal(n / 10) + [Digit(n % 10)]
  }

  /** `#${n}`. */
  function IdOf(n: nat): string {
    "#" + Decimal(n)
  }

  /** Only the number 0 renders as the anchor's id. */
  lemma IdOfIsAnchor(n: nat)
    ensures IdOf(n) == Anchor <==> n == 0
  {
    if n >= 10 {
      assert |IdOf(n)| >= 3;
    } else if n != 0 {
      assert IdOf(n)[1] == Digit(n) != '0';
    }
  }

  /** Different numbers render differently. */
  lemma {:induction false} DecimalInjective(a: nat, b: nat)
    requires Decimal(a) == Decimal(b)
    ensures a == b
  {
    if a >= 10 && b >= 10 {
      var da, db := Decimal(a), Decimal(b);
      assert da[..|da| - 1] == Decimal(a / 10);
      assert db[..|db| - 1] == Decimal(b / 10);
      DecimalInjective(a / 10, b / 10);
      assert Digit(a % 10) == da[|da| - 1] == db[|db| - 1] == Digit(b % 10);
    } else {
      assert Decimal(a)[0] == Digit(a) && Decimal(b)[0] == Digit(b);
    }
  }

  /** Different numbers give different ids. */
  lemma IdOfInjective(a: nat, b: nat)
    ensures IdOf(a) == IdOf(b) <==> a == b
  {
    if IdOf(a) == IdOf(b) {
      assert Decimal(a) == IdOf(a)[1..] == IdOf(b)[1..] == Decimal(b);
      DecimalInjective(a, b);
    }
  }

  /** No two positions of `ids` hold the same id. */
  predicate Distinct(ids: seq<string>) {
    forall p, q :: 0 <= p < q < |ids| ==> ids[p] != ids[q]
  }
}
