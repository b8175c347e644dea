/** Fresh names: `freshName`. */
module FreshNames {
  import opened Script
  import opened Numerals

  function Numbered(base: Name, i: nat): Name {
    base + "_" + Decimal(i)
  }

  lemma NumberedInjective(base: Name, i: nat, j: nat)
    requires Numbered(base, i) == Numbered(base, j)
    ensures i == j
  {
    var k := |base| + 1;
    assert Numbered(base, i)[k..] == Decimal(i);
    assert Numbered(base, j)[k..] == Decimal(j);
    DecimalInjective(i, j);
  }

  /** The first of `base`, `base_2`, `base_3`, … that is not taken. */
  function Fresh(base: Name, taken: set<Name>): (r: Name)
    ensures r !in taken
  {
    if base !in taken then base else FreshFrom(base, taken, taken, 2)
  }

  /** `left` bounds the search: it still holds every later candidate that is taken. */
  function FreshFrom(base: Name, taken: set<Name>, left: set<Name>, i: nat): (r: Name)
    requires forall j: nat :: i <= j && Numbered(base, j) in taken ==> Numbered(base, j) in left
    ensures r !in taken
    decreases |left|
  {
    var c := Numbered(base, i);
    if c !in taken then c
    else
      assert forall j: nat :: i + 1 <= j && Numbered(base, j) in taken ==> Numbered(base, j) in left - {c} by {
        forall j: nat | i + 1 <= j && Numbered(base, j) in taken
          ensures Numbered(base, j) in left - {c}
        {
          if Numbered(base, j) == c { NumberedInjective(base, i, j); }
        }
      }
      assert |left - {c}| < |left|;
      FreshFrom(base, taken, left - {c}, i + 1)
  }

  /** The search ends at the least free number, however far it has to go. */
  lemma {:induction false} FreshFromIsLeast(base: Name, taken: set<Name>, left: set<Name>, i: nat) returns (k: nat)
    requires forall j: nat :: i <= j && Numbered(base, j) in taken ==> Numbered(base, j) in left
    ensures i <= k && FreshFrom(base, taken, left, i) == Numbered(base, k)
    ensures forall j: nat :: i <= j < k ==> Numbered(base, j) in taken
    decreases |left|
  {
    var c := Numbered(base, i);
    if c !in taken {
      k := i;
    } else {
      forall j: nat | i + 1 <= j && Numbered(base, j) in taken
        ensures Numbered(base, j) in left - {c}
      {
        if Numbered(base, j) == c { NumberedInjective(base, i, j); }
      }
      assert |left - {c}| < |left|;
      k := FreshFromIsLeast(base, taken, left - {c}, i + 1);
    }
  }

  /** The search loop of `freshName`. */
  method FreshName(base: Name, taken: set<Name>) returns (name: Name)
    ensures name == Fresh(base, taken)
  {
    if base !in taken {
      return base;
    }
    var i := 2;
    ghost var left := taken;
    while Numbered(base, i) in taken
      invariant forall j: nat :: i <= j && Numbered(base, j) in taken ==> Numbered(base, j) in left
      invariant FreshFrom(base, taken, left, i) == Fresh(base, taken)
      decreases |left|
    {
      forall j: nat | i + 1 <= j && Numbered(base, j) in taken
        ensures Numbered(base, j) in left - {Numbered(base, i)}
      {
        if Numbered(base, j) == Numbered(base, i) { NumberedInjective(base, i, j); }
      }
      assert |left - {Numbered(base, i)}| < |left|;
      left := left - {Numbered(base, i)};
      i := i + 1;
    }
    name := Numbered(base, i);
  }
}
