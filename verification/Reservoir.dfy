/** Reservoir sampling is uniform. */
module Reservoir {
  // Counted over all sequences of random draws.

  type Draws = seq<nat>

  /** One draw below `seen` for every element after the first `size`. */
  predicate Valid(size: nat, n: nat, d: Draws) {
    |d| == (if n <= size then 0 else n - size)
    && forall i :: 0 <= i < |d| ==> d[i] < size + i + 1
  }

  /** Stream positions in the sample after `n` elements. */
  function Sample(size: nat, n: nat, d: Draws): (s: seq<nat>)
    requires Valid(size, n, d)
    ensures |s| == if n <= size then n else size
    ensures forall i :: 0 <= i < |s| ==> s[i] < n
    ensures forall i, j :: 0 <= i < j < |s| ==> s[i] != s[j]
  {
    if n == 0 then []
    else if n <= size then Sample(size, n - 1, d) + [n - 1]
    else
      var front, x := d[..|d| - 1], d[|d| - 1];
      var s := Sample(size, n - 1, front);
      if x < size then s[x := n - 1] else s
  }

  // ---------------------------------------------------------------- the sampler

  function Pick<T>(stream: seq<T>, positions: seq<nat>): seq<T>
    requires forall i :: 0 <= i < |positions| ==> positions[i] < |stream|
  {
    seq(|positions|, i requires 0 <= i < |positions| => stream[positions[i]])
  }

  class ReservoirSample<T> {
    const size: int
    var items: seq<T>
    var seen: nat
    /** The elements added and the draws made so far. */
    ghost var stream: seq<T>
    ghost var draws: Draws

    ghost predicate Ok()
      reads this
    {
      if size <= 0 then items == []
      else seen == |stream| && Valid(size, seen, draws) && items == Pick(stream, Sample(size, seen, draws))
    }

    constructor (size: int)
      ensures Ok() && this.size == size && stream == [] && draws == []
    {
      this.size := size;
      items, seen, stream, draws := [], 0, [], [];
    }

    /** `draw` stands for `randrange(seen)`; it is made only once the reservoir is full. */
    method Add(item: T, draw: nat)
      requires Ok() && draw < seen + 1
      modifies this
      ensures Ok() && (size > 0 ==> stream == old(stream) + [item])
      ensures draws == if 0 < size <= old(seen) then old(draws) + [draw] else old(draws)
    {
      if size <= 0 { return; }
      ghost var before, d := stream, draws;
      seen := seen + 1;
      stream := stream + [item];
      if |items| < size {
        items := items + [item];
        Filling(size, before, item, d);
        return;
      }
      draws := draws + [draw];
      if draw < size {
        items := items[draw := item];
      }
      Replacing(size, before, item, d, draw);
    }
  }

  lemma Filling<T>(size: nat, stream: seq<T>, item: T, d: Draws)
    requires |stream| < size && Valid(size, |stream|, d)
    ensures Valid(size, |stream| + 1, d)
    ensures Pick(stream + [item], Sample(size, |stream| + 1, d)) == Pick(stream, Sample(size, |stream|, d)) + [item]
  {
  }

  lemma Replacing<T>(size: nat, stream: seq<T>, item: T, d: Draws, x: nat)
    requires 0 < size <= |stream| && Valid(size, |stream|, d) && x < |stream| + 1
    ensures Valid(size, |stream| + 1, d + [x])
    ensures var was := Pick(stream, Sample(size, |stream|, d));
            Pick(stream + [item], Sample(size, |stream| + 1, d + [x])) == if x < size then was[x := item] else was
  {
    assert (d + [x])[..|d|] == d;
  }

  /** `draws` lists the random numbers the generator will give. */
  method SampleReservoir<T>(stream: seq<T>, size: int, draws: Draws) returns (items: seq<T>)
    requires size > 0 ==> Valid(size, |stream|, draws)
    ensures items == if size <= 0 then [] else Pick(stream, Sample(size, |stream|, draws))
  {
    var sample := new ReservoirSample<T>(size);
    var n := 0;
    while n < |stream|
      invariant 0 <= n <= |stream| && sample.Ok() && sample.size == size && fresh(sample)
      invariant size > 0 ==> sample.stream == stream[..n]
      invariant size > 0 ==> sample.draws == if n <= size then [] else draws[..n - size]
    {
      var draw := if 0 < size <= n then draws[n - size] else 0;
      sample.Add(stream[n], draw);
      n := n + 1;
    }
    assert stream[..n] == stream;
    if size > 0 { assert sample.draws == draws; }
    items := sample.items;
  }

  // ---------------------------------------------------------------- counting

  /** All draw sequences for a stream of length `n`. */
  function AllDraws(size: nat, n: nat): (r: set<Draws>)
    ensures forall d :: d in r <==> Valid(size, n, d)
  {
    if n <= size then
      assert forall d: Draws :: Valid(size, n, d) ==> d == [];
      {[]}
    else
      var all := Extended(AllDraws(size, n - 1), Numbers(n));
      assert forall d :: d in all <==> Valid(size, n, d) by {
        forall d ensures d in all <==> Valid(size, n, d) { LastDraw(size, n, d); }
      }
      all
  }

  lemma LastDraw(size: nat, n: nat, e: Draws)
    requires n > size
    ensures Valid(size, n, e) <==> exists d, x :: Valid(size, n - 1, d) && x in Numbers(n) && e == d + [x]
  {
    if Valid(size, n, e) {
      var k := |e| - 1;
      assert e == e[..k] + [e[k]] && Valid(size, n - 1, e[..k]) && e[k] in Numbers(n);
    }
  }

  function Numbers(n: nat): (r: set<nat>)
    ensures |r| == n && forall x :: x in r <==> 0 <= x < n
  {
    if n == 0 then {} else Numbers(n - 1) + {n - 1}
  }

  function Extended(s: set<Draws>, xs: set<nat>): set<Draws> {
    set d, x | d in s && x in xs :: d + [x]
  }

  /** The extensions of one sequence. */
  lemma {:induction false} OneExtended(d: Draws, xs: set<nat>)
    ensures |Extended({d}, xs)| == |xs|
    decreases |xs|
  {
    if xs == {} {
      assert Extended({d}, xs) == {};
    } else {
      var x :| x in xs;
      OneExtended(d, xs - {x});
      assert Extended({d}, xs) == Extended({d}, xs - {x}) + {d + [x]};
      forall y | y in xs - {x} ensures d + [y] != d + [x] { assert (d + [y])[|d|] == y; }
      assert d + [x] !in Extended({d}, xs - {x});
    }
  }

  /** The extensions of each `d` in `s` by the numbers `f` allows it. */
  function Fibers(s: set<Draws>, f: Draws -> set<nat>): set<Draws> {
    set d, x | d in s && x in f(d) :: d + [x]
  }

  lemma {:induction false} FiberCount(s: set<Draws>, f: Draws -> set<nat>, c: nat)
    requires forall d :: d in s ==> |f(d)| == c
    ensures |Fibers(s, f)| == c * |s|
    decreases |s|
  {
    hide Fibers, Extended;
    if s == {} {
      NoFibers(f);
    } else {
      var d :| d in s;
      FiberCount(s - {d}, f, c);
      OneExtended(d, f(d));
      FiberSplit(s, f, d);
      Distribute(c, |s - {d}|);
    }
  }

  lemma Distribute(c: nat, n: nat)
    ensures c * (n + 1) == c * n + c
  {
  }

  lemma NoFibers(f: Draws -> set<nat>)
    ensures Fibers({}, f) == {}
  {
  }

  lemma FiberSplit(s: set<Draws>, f: Draws -> set<nat>, d: Draws)
    requires d in s
    ensures Fibers(s, f) == Fibers(s - {d}, f) + Extended({d}, f(d))
    ensures Fibers(s - {d}, f) !! Extended({d}, f(d))
  {
    forall e | e in Fibers(s - {d}, f) ensures e !in Extended({d}, f(d)) { DifferentFront(s, f, d, e); }
  }

  lemma DifferentFront(s: set<Draws>, f: Draws -> set<nat>, d: Draws, e: Draws)
    requires e in Fibers(s - {d}, f)
    ensures e !in Extended({d}, f(d))
  {
    var g, x :| g in s - {d} && x in f(g) && g + [x] == e;
    assert e[..|e| - 1] == g;
    forall y | y in f(d) ensures d + [y] != e { assert (d + [y])[..|d|] == d; }
  }

  /** Draw sequences that leave position `p` in the sample. */
  function Hits(size: nat, n: nat, p: nat): set<Draws> {
    set d | d in AllDraws(size, n) && p in Sample(size, n, d)
  }

  // Fibers of the two ways a position can be in the sample after one more element.

  function All(n: nat): Draws -> set<nat> {
    (d: Draws) => Numbers(n)
  }

  function Winning(size: nat): Draws -> set<nat> {
    (d: Draws) => Numbers(size)
  }

  /** The draws that do not evict position `p`. */
  function Sparing(size: nat, n: nat, p: nat): Draws -> set<nat> {
    (d: Draws) => Numbers(n) - Slots(size, n - 1, p, d)
  }

  function Slots(size: nat, n: int, p: nat, d: Draws): set<nat> {
    if n >= 0 && Valid(size, n, d)
    then set x | x in Numbers(|Sample(size, n, d)|) && Sample(size, n, d)[x] == p
    else {}
  }

  lemma OneSlot(size: nat, n: nat, p: nat, d: Draws)
    requires Valid(size, n, d) && p in Sample(size, n, d)
    ensures |Slots(size, n, p, d)| == 1 && Slots(size, n, p, d) <= Numbers(size)
  {
    hide Sample;
    var s := Sample(size, n, d);
    var k: nat :| k < |s| && s[k] == p;
    var slots := Slots(size, n, p, d);
    forall x: nat ensures x in slots <==> x == k {
      if x < |s| && x != k { assert s[x] != s[k]; }
    }
    assert slots == {k};
  }

  lemma Extend(size: nat, n: nat, d: Draws, x: nat)
    requires n > size && Valid(size, n - 1, d) && x < n
    ensures Valid(size, n, d + [x])
    ensures Sample(size, n, d + [x])
            == if x < size then Sample(size, n - 1, d)[x := n - 1] else Sample(size, n - 1, d)
  {
    assert (d + [x])[..|d|] == d;
  }

  lemma Split(size: nat, n: nat, e: Draws) returns (d: Draws, x: nat)
    requires n > size && Valid(size, n, e)
    ensures e == d + [x] && Valid(size, n - 1, d) && x < n
  {
    d, x := e[..|e| - 1], e[|e| - 1];
  }

  lemma AllIsFibers(size: nat, n: nat)
    requires n > size
    ensures AllDraws(size, n) == Fibers(AllDraws(size, n - 1), All(n))
  {
    hide AllDraws, Sample;
    forall e | e in AllDraws(size, n) ensures e in Fibers(AllDraws(size, n - 1), All(n)) {
      var d, x := Split(size, n, e);
      assert d in AllDraws(size, n - 1) && x in All(n)(d);
    }
    forall e | e in Fibers(AllDraws(size, n - 1), All(n)) ensures e in AllDraws(size, n) {
      var d, x :| d in AllDraws(size, n - 1) && x in All(n)(d) && d + [x] == e;
      Extend(size, n, d, x);
    }
  }

  lemma NewestIsFibers(size: nat, n: nat, p: nat)
    requires n > size > 0 && p == n - 1
    ensures Hits(size, n, p) == Fibers(AllDraws(size, p), Winning(size))
  {
    hide AllDraws, Sample;
    forall e | e in Hits(size, n, p) ensures e in Fibers(AllDraws(size, p), Winning(size)) {
      var d, x := Split(size, n, e);
      Extend(size, n, d, x);
      assert d in AllDraws(size, p) && x in Winning(size)(d);
    }
    forall e | e in Fibers(AllDraws(size, p), Winning(size)) ensures e in Hits(size, n, p) {
      var d, x :| d in AllDraws(size, p) && x in Winning(size)(d) && d + [x] == e;
      Extend(size, n, d, x);
      assert Sample(size, n, e)[x] == p;
    }
  }

  lemma OlderIsFibers(size: nat, n: nat, p: nat)
    requires n > size > 0 && p < n - 1
    ensures Hits(size, n, p) == Fibers(Hits(size, n - 1, p), Sparing(size, n, p))
  {
    hide AllDraws, Sample;
    forall e ensures e in Hits(size, n, p) <==> e in Fibers(Hits(size, n - 1, p), Sparing(size, n, p)) {
      OlderFiber(size, n, p, e);
    }
  }

  lemma OlderFiber(size: nat, n: nat, p: nat, e: Draws)
    requires n > size > 0 && p < n - 1
    ensures e in Hits(size, n, p) <==> e in Fibers(Hits(size, n - 1, p), Sparing(size, n, p))
  {
    hide AllDraws, Sample;
    if e in Hits(size, n, p) {
      var d, x := Split(size, n, e);
      Survives(size, n, p, d, x);
      assert d in Hits(size, n - 1, p) && x in Sparing(size, n, p)(d);
    }
    if e in Fibers(Hits(size, n - 1, p), Sparing(size, n, p)) {
      var d, x :| d in Hits(size, n - 1, p) && x in Sparing(size, n, p)(d) && d + [x] == e;
      Survives(size, n, p, d, x);
    }
  }

  lemma Survives(size: nat, n: nat, p: nat, d: Draws, x: nat)
    requires n > size > 0 && p < n - 1 && Valid(size, n - 1, d) && x < n
    ensures Valid(size, n, d + [x])
    ensures p in Sample(size, n, d + [x])
            <==> p in Sample(size, n - 1, d) && x !in Slots(size, n - 1, p, d)
  {
    hide Sample, Valid;
    Extend(size, n, d, x);
    var s := Sample(size, n - 1, d);
    assert forall k :: k in Slots(size, n - 1, p, d) <==> 0 <= k < |s| && s[k] == p;
    if x < size { Overwritten(s, x, n - 1, p); }
  }

  /** In a sequence without repetitions only the overwritten value goes. */
  lemma Overwritten(s: seq<nat>, x: nat, v: nat, p: nat)
    requires x < |s| && p != v && forall i, j :: 0 <= i < j < |s| ==> s[i] != s[j]
    ensures p in s[x := v] <==> p in s && s[x] != p
  {
    var t := s[x := v];
    if p in s && s[x] != p {
      var k :| 0 <= k < |s| && s[k] == p;
      assert t[k] == p;
    }
    if p in t {
      var k :| 0 <= k < |t| && t[k] == p;
      assert s[k] == p && k != x;
    }
  }

  lemma {:induction false} HitCount(size: nat, n: nat, p: nat)
    requires n > size > 0 && p < n
    ensures |Hits(size, n, p)| == if p == n - 1 then size * |AllDraws(size, n - 1)| else (n - 1) * |Hits(size, n - 1, p)|
  {
    hide AllDraws, Sample, Hits, Slots;
    if p == n - 1 {
      NewestIsFibers(size, n, p);
      FiberCount(AllDraws(size, n - 1), Winning(size), size);
    } else {
      OlderIsFibers(size, n, p);
      forall d | d in Hits(size, n - 1, p) ensures |Sparing(size, n, p)(d)| == n - 1 {
        SparesOne(size, n, p, d);
      }
      FiberCount(Hits(size, n - 1, p), Sparing(size, n, p), n - 1);
    }
  }

  lemma SparesOne(size: nat, n: nat, p: nat, d: Draws)
    requires n > size > 0 && p < n - 1 && d in Hits(size, n - 1, p)
    ensures |Sparing(size, n, p)(d)| == n - 1
  {
    hide AllDraws, Sample, Slots;
    OneSlot(size, n - 1, p, d);
  }

  /**
   * Uniformity: each of the `n` positions ends in the sample under the same number of draw
   * sequences, the fraction `size / n` of all of them.
   */
  lemma {:induction false} Uniform(size: nat, n: nat, p: nat)
    requires 1 <= size <= n && p < n
    ensures n * |Hits(size, n, p)| == size * |AllDraws(size, n)|
    decreases n
  {
    hide AllDraws, Hits, Sample;
    if n == size {
      FullSample(size, n, p);
    } else {
      AllCount(size, n);
      HitCount(size, n, p);
      if p < n - 1 { Uniform(size, n - 1, p); }
      Conclude(n, size, |AllDraws(size, n - 1)|, |AllDraws(size, n)|, |Hits(size, n, p)|,
               if p < n - 1 then |Hits(size, n - 1, p)| else 0);
    }
  }

  lemma AllCount(size: nat, n: nat)
    requires n > size
    ensures |AllDraws(size, n)| == n * |AllDraws(size, n - 1)|
  {
    hide AllDraws;
    AllIsFibers(size, n);
    FiberCount(AllDraws(size, n - 1), All(n), n);
  }

  lemma Conclude(n: nat, size: nat, a: nat, all: nat, hits: nat, before: nat)
    requires n > 0 && all == n * a
    requires hits == size * a || (hits == (n - 1) * before && (n - 1) * before == size * a)
    ensures n * hits == size * all
  {
    assert hits == size * a;
    assert n * (size * a) == size * (n * a);
  }

  lemma {:induction false} FullSample(size: nat, n: nat, p: nat)
    requires p < n <= size
    ensures AllDraws(size, n) == {[]} && Hits(size, n, p) == {[]}
  {
    AllInside(size, n, p);
  }

  lemma {:induction false} AllInside(size: nat, n: nat, p: nat)
    requires p < n <= size
    ensures p in Sample(size, n, [])
  {
    if p < n - 1 { AllInside(size, n - 1, p); }
  }
}
