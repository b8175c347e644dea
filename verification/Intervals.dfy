/** Line intervals, both ends included. */
module Intervals {
  // Merging, containment and subtraction.

  type Iv = (int, int)

  predicate In(iv: Iv, x: int) {
    iv.0 <= x <= iv.1
  }

  predicate Covers(ivs: seq<Iv>, x: int) {
    exists k :: 0 <= k < |ivs| && In(ivs[k], x)
  }

  predicate Proper(ivs: seq<Iv>) {
    forall k :: 0 <= k < |ivs| ==> ivs[k].0 <= ivs[k].1
  }

  /** Proper intervals in order, none touching the next: the normal form of a set of lines. */
  predicate Normal(ivs: seq<Iv>) {
    Proper(ivs) && forall i, j :: 0 <= i < j < |ivs| ==> ivs[i].1 + 1 < ivs[j].0
  }

  /** Proper intervals in order without a common line; they may touch. */
  predicate Ordered(ivs: seq<Iv>) {
    Proper(ivs) && forall i, j :: 0 <= i < j < |ivs| ==> ivs[i].1 < ivs[j].0
  }

  lemma CoversAppend(a: seq<Iv>, b: seq<Iv>, x: int)
    ensures Covers(a + b, x) <==> Covers(a, x) || Covers(b, x)
  {
    var all := a + b;
    assert forall k :: 0 <= k < |a| ==> all[k] == a[k];
    assert forall k :: 0 <= k < |b| ==> all[|a| + k] == b[k];
  }

  lemma CoversOne(iv: Iv, x: int)
    ensures Covers([iv], x) <==> In(iv, x)
  {
    var one := [iv];
    assert one[0] == iv;
  }

  lemma CoversMore(a: seq<Iv>, iv: Iv, x: int)
    ensures Covers(a + [iv], x) <==> Covers(a, x) || In(iv, x)
  {
    CoversAppend(a, [iv], x);
    CoversOne(iv, x);
  }

  // ---------------------------------------------------------------- merging

  predicate Precedes(a: Iv, b: Iv) {
    a.0 < b.0 || (a.0 == b.0 && a.1 <= b.1)
  }

  predicate Sorted(ivs: seq<Iv>) {
    forall i, j :: 0 <= i < j < |ivs| ==> Precedes(ivs[i], ivs[j])
  }

  function Insert(ivs: seq<Iv>, iv: Iv): (r: seq<Iv>)
    requires Sorted(ivs)
    ensures Sorted(r) && |r| == |ivs| + 1 && forall x :: x in r <==> x in ivs || x == iv
  {
    if ivs == [] then [iv]
    else
      var n := |ivs| - 1;
      assert forall x :: x in ivs <==> x in ivs[..n] || x == ivs[n];
      if Precedes(ivs[n], iv) then ivs + [iv]
      else
        var rest := Insert(ivs[..n], iv);
        assert forall x :: x in ivs[..n] ==> Precedes(x, ivs[n]);
        assert forall k :: 0 <= k < |rest| ==> rest[k] in rest && Precedes(rest[k], ivs[n]);
        rest + [ivs[n]]
  }

  /** Python's `sorted` on pairs. */
  function Sort(ivs: seq<Iv>): (r: seq<Iv>)
    ensures Sorted(r) && |r| == |ivs| && forall x :: x in r <==> x in ivs
  {
    if ivs == [] then []
    else
      assert forall x :: x in ivs <==> x in ivs[..|ivs| - 1] || x == ivs[|ivs| - 1];
      Insert(Sort(ivs[..|ivs| - 1]), ivs[|ivs| - 1])
  }

  lemma SameElements(a: seq<Iv>, b: seq<Iv>)
    requires forall x :: x in a <==> x in b
    ensures Proper(a) <==> Proper(b)
    ensures forall x :: Covers(a, x) <==> Covers(b, x)
  {
    forall x ensures Covers(a, x) <==> Covers(b, x) {
      if Covers(a, x) { var k :| 0 <= k < |a| && In(a[k], x); assert a[k] in b; }
      if Covers(b, x) { var k :| 0 <= k < |b| && In(b[k], x); assert b[k] in a; }
    }
    assert forall k :: 0 <= k < |a| ==> a[k] in b;
    assert forall k :: 0 <= k < |b| ==> b[k] in a;
  }

  /** The merged prefix: normal, the same lines, and no later start than anything still to come. */
  ghost predicate Merged(sorted: seq<Iv>, n: nat, out: seq<Iv>)
    requires n <= |sorted|
  {
    out != [] && Normal(out) && (n > 0 ==> out[|out| - 1].0 <= sorted[n - 1].0)
    && forall x :: Covers(out, x) <==> Covers(sorted[..n], x)
  }

  lemma MergeFirst(sorted: seq<Iv>)
    requires sorted != [] && Proper(sorted)
    ensures Merged(sorted, 1, [sorted[0]])
  {
    assert sorted[..1] == [sorted[0]];
  }

  lemma MergeTouching(sorted: seq<Iv>, n: nat, out: seq<Iv>)
    requires 0 < n < |sorted| && Sorted(sorted) && Proper(sorted) && Merged(sorted, n, out)
    requires sorted[n].0 <= out[|out| - 1].1 + 1
    ensures var (ls, le) := out[|out| - 1];
            var e := sorted[n].1;
            Merged(sorted, n + 1, out[|out| - 1 := (ls, if le >= e then le else e)])
  {
    hide Covers;
    var m := |out| - 1;
    var (ls, le) := out[m];
    var wide: Iv := (ls, if le >= sorted[n].1 then le else sorted[n].1);
    assert Precedes(sorted[n - 1], sorted[n]);
    var next := out[m := wide];
    assert out == out[..m] + [out[m]] && next == out[..m] + [wide];
    assert sorted[..n + 1] == sorted[..n] + [sorted[n]];
    forall x ensures Covers(next, x) <==> Covers(sorted[..n + 1], x) {
      CoversMore(out[..m], out[m], x);
      CoversMore(out[..m], wide, x);
      CoversMore(sorted[..n], sorted[n], x);
    }
  }

  lemma MergeApart(sorted: seq<Iv>, n: nat, out: seq<Iv>)
    requires 0 < n < |sorted| && Sorted(sorted) && Proper(sorted) && Merged(sorted, n, out)
    requires sorted[n].0 > out[|out| - 1].1 + 1
    ensures Merged(sorted, n + 1, out + [sorted[n]])
  {
    hide Covers;
    assert sorted[..n + 1] == sorted[..n] + [sorted[n]];
    forall i | 0 <= i < |out| ensures out[i].1 + 1 < sorted[n].0 {
      if i < |out| - 1 { assert out[i].1 + 1 < out[|out| - 1].0 <= out[|out| - 1].1; }
    }
    forall x ensures Covers(out + [sorted[n]], x) <==> Covers(sorted[..n + 1], x) {
      CoversMore(out, sorted[n], x);
      CoversMore(sorted[..n], sorted[n], x);
    }
  }

  /** Merging gives the normal form of the same lines. */
  method Merge(ivs: seq<Iv>) returns (out: seq<Iv>)
    requires Proper(ivs)
    ensures Normal(out) && forall x :: Covers(out, x) <==> Covers(ivs, x)
  {
    hide Covers, Merged;
    if ivs == [] { return []; }
    var sorted := Sort(ivs);
    SameElements(sorted, ivs);
    out := [sorted[0]];
    MergeFirst(sorted);
    var n := 1;
    while n < |sorted|
      invariant 1 <= n <= |sorted| && Merged(sorted, n, out)
    {
      var (s, e) := sorted[n];
      MergedNonEmpty(sorted, n, out);
      var (ls, le) := out[|out| - 1];
      if s <= le + 1 {
        MergeTouching(sorted, n, out);
        out := out[|out| - 1 := (ls, if le >= e then le else e)];
      } else {
        MergeApart(sorted, n, out);
        out := out + [(s, e)];
      }
      n := n + 1;
    }
    assert sorted[..n] == sorted;
    MergedNonEmpty(sorted, n, out);
  }

  lemma MergedNonEmpty(sorted: seq<Iv>, n: nat, out: seq<Iv>)
    requires n <= |sorted| && Merged(sorted, n, out)
    ensures out != [] && Normal(out) && forall x :: Covers(out, x) <==> Covers(sorted[..n], x)
  {
  }

  // ---------------------------------------------------------------- containment

  method Contained(s: int, e: int, ivs: seq<Iv>) returns (r: bool)
    ensures r <==> WithinOne(s, e, ivs)
  {
    var n := 0;
    while n < |ivs|
      invariant 0 <= n <= |ivs|
      invariant forall k :: 0 <= k < n ==> !(ivs[k].0 <= s && ivs[k].1 >= e)
    {
      if ivs[n].0 <= s && ivs[n].1 >= e { return true; }
      n := n + 1;
    }
    return false;
  }

  predicate WithinOne(s: int, e: int, ivs: seq<Iv>) {
    exists k :: 0 <= k < |ivs| && ivs[k].0 <= s && ivs[k].1 >= e
  }

  predicate Inside(s: int, e: int, ivs: seq<Iv>) {
    forall x :: s <= x <= e ==> Covers(ivs, x)
  }

  /** On the normal form, lying in one interval is lying in the union. */
  lemma NormalDecides(s: int, e: int, ivs: seq<Iv>)
    requires s <= e && Normal(ivs)
    ensures WithinOne(s, e, ivs) <==> Inside(s, e, ivs)
  {
    if WithinOne(s, e, ivs) {
      var k :| 0 <= k < |ivs| && ivs[k].0 <= s && ivs[k].1 >= e;
      forall x | s <= x <= e ensures Covers(ivs, x) { assert In(ivs[k], x); }
    }
    if Inside(s, e, ivs) {
      assert Covers(ivs, s);
      var k :| 0 <= k < |ivs| && In(ivs[k], s);
      var next := ivs[k].1 + 1;
      forall m | 0 <= m < |ivs| ensures !In(ivs[m], next) {
        if m > k { assert ivs[k].1 + 1 < ivs[m].0; }
        if m < k { assert ivs[m].1 + 1 < ivs[k].0; }
      }
      assert !Covers(ivs, next);
    }
  }

  /** Without the normal form it is not: touching intervals hide a covered range. */
  lemma NormalFormNeeded()
    ensures var ivs := [(1, 2), (3, 4)];
            Ordered(ivs) && Inside(1, 4, ivs) && !WithinOne(1, 4, ivs)
  {
    var ivs: seq<Iv> := [(1, 2), (3, 4)];
    forall x | 1 <= x <= 4 ensures Covers(ivs, x) {
      assert In(ivs[0], x) || In(ivs[1], x);
    }
  }

  // ---------------------------------------------------------------- the normal form is unique

  lemma StartsAt(ivs: seq<Iv>, x: int)
    requires Normal(ivs)
    ensures Covers(ivs, x) && !Covers(ivs, x - 1) <==> exists k :: 0 <= k < |ivs| && ivs[k].0 == x
  {
    if k :| 0 <= k < |ivs| && ivs[k].0 == x {
      assert In(ivs[k], x);
      forall m | 0 <= m < |ivs| ensures !In(ivs[m], x - 1) {
        if m < k { assert ivs[m].1 + 1 < ivs[k].0; }
        if m > k { assert ivs[k].1 + 1 < ivs[m].0; }
      }
    }
    if Covers(ivs, x) && !Covers(ivs, x - 1) {
      var k :| 0 <= k < |ivs| && In(ivs[k], x);
      assert !In(ivs[k], x - 1);
    }
  }

  /** Two normal forms of the same lines begin with the same interval. */
  lemma SameHead(a: seq<Iv>, b: seq<Iv>)
    requires Normal(a) && Normal(b) && a != [] && forall x :: Covers(a, x) <==> Covers(b, x)
    ensures b != [] && a[0].0 == b[0].0
  {
    hide Covers;
    StartsAt(a, a[0].0);
    StartsAt(b, a[0].0);
    var k :| 0 <= k < |b| && b[k].0 == a[0].0;
    StartsAt(b, b[0].0);
    StartsAt(a, b[0].0);
    var m :| 0 <= m < |a| && a[m].0 == b[0].0;
    HeadIsFirst(b, k);
    HeadIsFirst(a, m);
  }

  lemma HeadIsFirst(a: seq<Iv>, k: nat)
    requires Normal(a) && k < |a|
    ensures a[0].0 <= a[k].0
  {
  }

  lemma HeadEnd(a: seq<Iv>, b: seq<Iv>)
    requires Normal(a) && Normal(b) && a != [] && b != [] && a[0].0 == b[0].0
    requires forall x :: Covers(a, x) <==> Covers(b, x)
    ensures a[0].1 <= b[0].1
  {
    var next := b[0].1 + 1;
    forall k | 0 <= k < |b| ensures !In(b[k], next) {
      if k > 0 { assert b[0].1 + 1 < b[k].0; }
    }
    assert !Covers(b, next);
    assert !In(a[0], next);
  }

  lemma RestCovers(a: seq<Iv>, x: int)
    requires Normal(a) && a != []
    ensures Covers(a[1..], x) <==> Covers(a, x) && x > a[0].1
  {
    assert a == [a[0]] + a[1..];
    CoversAppend([a[0]], a[1..], x);
    CoversOne(a[0], x);
    if Covers(a[1..], x) {
      var k :| 0 <= k < |a[1..]| && In(a[1..][k], x);
      assert a[1..][k] == a[k + 1] && a[0].1 + 1 < a[k + 1].0;
    }
  }

  /** A set of lines has one normal form. */
  lemma {:induction false} NormalIsUnique(a: seq<Iv>, b: seq<Iv>)
    requires Normal(a) && Normal(b) && forall x :: Covers(a, x) <==> Covers(b, x)
    ensures a == b
  {
    hide Covers;
    if a == [] {
      if b != [] { SameHead(b, a); }
    } else {
      SameHead(a, b);
      HeadEnd(a, b);
      HeadEnd(b, a);
      forall x ensures Covers(a[1..], x) <==> Covers(b[1..], x) {
        RestCovers(a, x);
        RestCovers(b, x);
      }
      NormalIsUnique(a[1..], b[1..]);
    }
  }

  // ---------------------------------------------------------------- subtraction

  /** What an interval leaves of a piece. */
  function Pieces(piece: Iv, iv: Iv): seq<Iv> {
    var (a, b) := piece;
    var (ls, le) := iv;
    if le < a || ls > b then [piece]
    else (if ls > a then [(a, ls - 1)] else []) + (if le < b then [(le + 1, b)] else [])
  }

  lemma PiecesFacts(piece: Iv, iv: Iv)
    requires piece.0 <= piece.1 && iv.0 <= iv.1
    ensures Normal(Pieces(piece, iv))
    ensures forall p :: p in Pieces(piece, iv) ==> piece.0 <= p.0 && p.1 <= piece.1
    ensures forall x :: Covers(Pieces(piece, iv), x) <==> In(piece, x) && !In(iv, x)
  {
    forall x ensures Covers(Pieces(piece, iv), x) <==> In(piece, x) && !In(iv, x) {
      var left: seq<Iv> := if iv.0 > piece.0 then [(piece.0, iv.0 - 1)] else [];
      var right: seq<Iv> := if iv.1 < piece.1 then [(iv.1 + 1, piece.1)] else [];
      CoversAppend(left, right, x);
      CoversOne(piece, x);
      if left != [] { CoversOne(left[0], x); }
      if right != [] { CoversOne(right[0], x); }
    }
  }

  method SubtractOne(out: seq<Iv>, iv: Iv) returns (next: seq<Iv>)
    requires Normal(out) && iv.0 <= iv.1
    ensures Normal(next)
    ensures forall x :: Covers(next, x) <==> Covers(out, x) && !In(iv, x)
  {
    hide Covers, In, Pieces;
    next := [];
    assert out[..0] == [];
    NoneCovered();
    var k := 0;
    while k < |out|
      invariant 0 <= k <= |out|
      invariant Normal(next)
      invariant forall p :: p in next ==> k > 0 && p.1 <= out[k - 1].1
      invariant forall x :: Covers(next, x) <==> Covers(out[..k], x) && !In(iv, x)
    {
      var pieces := Pieces(out[k], iv);
      PiecesFacts(out[k], iv);
      assert out[..k + 1] == out[..k] + [out[k]];
      forall x ensures Covers(next + pieces, x) <==> Covers(out[..k + 1], x) && !In(iv, x) {
        CoversAppend(next, pieces, x);
        CoversMore(out[..k], out[k], x);
      }
      JoinNormal(next, pieces, out, k);
      next := next + pieces;
      k := k + 1;
    }
    assert out[..k] == out;
  }

  lemma NoneCovered()
    ensures forall x :: !Covers([], x)
  {
  }

  lemma JoinNormal(next: seq<Iv>, pieces: seq<Iv>, out: seq<Iv>, k: nat)
    requires k < |out| && Normal(out) && Normal(next) && Normal(pieces)
    requires forall p :: p in next ==> k > 0 && p.1 <= out[k - 1].1
    requires forall p :: p in pieces ==> out[k].0 <= p.0 && p.1 <= out[k].1
    ensures Normal(next + pieces) && forall p :: p in next + pieces ==> p.1 <= out[k].1
  {
    assert k > 0 ==> out[k - 1].1 + 1 < out[k].0 <= out[k].1;
    forall i, j | 0 <= i < |next| && 0 <= j < |pieces| ensures next[i].1 + 1 < pieces[j].0 {
      assert next[i] in next && pieces[j] in pieces;
    }
  }

  /** The lines of [s, e] outside the intervals, in normal form. */
  method Subtract(s: int, e: int, ivs: seq<Iv>) returns (out: seq<Iv>)
    requires s <= e && Proper(ivs)
    ensures Normal(out)
    ensures forall x :: Covers(out, x) <==> s <= x <= e && !Covers(ivs, x)
  {
    hide Covers;
    out := [(s, e)];
    forall x ensures Covers(out, x) <==> s <= x <= e { CoversOne((s, e), x); }
    assert ivs[..0] == [];
    NoneCovered();
    var n := 0;
    while n < |ivs|
      invariant 0 <= n <= |ivs| && Normal(out)
      invariant forall x :: Covers(out, x) <==> s <= x <= e && !Covers(ivs[..n], x)
    {
      var next := SubtractOne(out, ivs[n]);
      assert ivs[..n + 1] == ivs[..n] + [ivs[n]];
      forall x ensures Covers(ivs[..n + 1], x) <==> Covers(ivs[..n], x) || In(ivs[n], x) {
        CoversMore(ivs[..n], ivs[n], x);
      }
      out := next;
      n := n + 1;
      if out == [] {
        NothingLeft(s, e, ivs, n);
        return;
      }
    }
    assert ivs[..n] == ivs;
  }

  lemma NothingLeft(s: int, e: int, ivs: seq<Iv>, n: nat)
    requires n <= |ivs| && forall x :: Covers([], x) <==> s <= x <= e && !Covers(ivs[..n], x)
    ensures forall x :: Covers([], x) <==> s <= x <= e && !Covers(ivs, x)
  {
    assert ivs[..n] + ivs[n..] == ivs;
    forall x ensures Covers([], x) <==> s <= x <= e && !Covers(ivs, x) {
      CoversAppend(ivs[..n], ivs[n..], x);
      NoneCovered();
    }
  }
}
