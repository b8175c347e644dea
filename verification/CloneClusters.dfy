/** Clone clusters as connected components. */
module CloneClusters {
  import opened Text
  import opened UnionFind

  // Windows of lines are hashed, equal windows and consecutive matched windows are united.

  /** A normalised significant line and its number in the file. */
  datatype SigLine = SigLine(text: string, number: nat)

  const WINDOW: nat := 7
  const POS: nat := 0x100_0000

  type Files = seq<seq<SigLine>>

  /** Window indices, and the one after the last, stay below the encoding's radix. */
  predicate Small(sig: Files) {
    forall f :: 0 <= f < |sig| ==> |sig[f]| < POS + WINDOW - 1
  }

  predicate IsWindow(sig: Files, f: int, i: int) {
    0 <= f < |sig| && 0 <= i && i + WINDOW <= |sig[f]|
  }

  predicate IsPos(sig: Files, p: int) {
    IsWindow(sig, p / POS, p % POS)
  }

  function TextsOf(lines: seq<SigLine>): seq<string> {
    seq(|lines|, i requires 0 <= i < |lines| => lines[i].text)
  }

  function HashAt(sig: Files, hash: string -> int, p: int): int
    requires IsPos(sig, p)
  {
    hash(Join(TextsOf(sig[p / POS][p % POS..p % POS + WINDOW])))
  }

  // ---------------------------------------------------------------- the relation to be found

  predicate SameHash(sig: Files, hash: string -> int, p: int, q: int) {
    IsPos(sig, p) && IsPos(sig, q) && HashAt(sig, hash, p) == HashAt(sig, hash, q)
  }

  /** A window that occurs elsewhere too. */
  ghost predicate Matched(sig: Files, hash: string -> int, p: int) {
    exists q :: q != p && SameHash(sig, hash, p, q)
  }

  /** Windows `i` and `i + 1` of one file, both matched. */
  ghost predicate Consecutive(sig: Files, hash: string -> int, f: int, i: int) {
    IsWindow(sig, f, i) && IsWindow(sig, f, i + 1)
    && Matched(sig, hash, f * POS + i) && Matched(sig, hash, f * POS + i + 1)
  }

  ghost predicate Contains(sig: Files, hash: string -> int, r: (int, int) -> bool) {
    (forall p, q :: SameHash(sig, hash, p, q) ==> r(p, q))
    && forall f, i :: Consecutive(sig, hash, f, i) ==> r(f * POS + i, f * POS + i + 1)
  }

  /** Related by every equivalence that holds of equal windows and of consecutive matched windows. */
  ghost predicate Connected(sig: Files, hash: string -> int, p: int, q: int) {
    forall r: (int, int) -> bool :: Equivalence(r) && Contains(sig, hash, r) ==> r(p, q)
  }

  /** What the code looks at: a position and the next one. */
  ghost predicate Follows(sig: Files, hash: string -> int, p: int) {
    Matched(sig, hash, p) && Matched(sig, hash, p + 1)
  }

  /** Successive positions are consecutive windows of one file: the encoding never runs over. */
  lemma FollowsInFile(sig: Files, hash: string -> int, p: int)
    requires Small(sig) && Follows(sig, hash, p)
    ensures Consecutive(sig, hash, p / POS, p % POS)
  {
    hide HashAt;
    NextInFile(sig, p);
    assert p == p / POS * POS + p % POS;
  }

  lemma ConsecutiveFollows(sig: Files, hash: string -> int, f: int, i: int)
    requires Consecutive(sig, hash, f, i)
    ensures Follows(sig, hash, f * POS + i)
  {
    hide Matched;
  }

  lemma NextInFile(sig: Files, p: int)
    requires Small(sig) && IsPos(sig, p) && IsPos(sig, p + 1)
    ensures (p + 1) / POS == p / POS && (p + 1) % POS == p % POS + 1
  {
    var f, i := p / POS, p % POS;
    assert p == f * POS + i;
    if i + 1 < POS {
      Decode(f, i + 1);
    }
  }

  lemma Decode(f: int, i: int)
    requires 0 <= i < POS
    ensures (f * POS + i) / POS == f && (f * POS + i) % POS == i
  {
  }

  // ---------------------------------------------------------------- the window index

  type Index = map<int, seq<int>>

  predicate Distinct(s: seq<int>) {
    forall i, j :: 0 <= i < j < |s| ==> s[i] != s[j]
  }

  /** Windows before window `i` of file `f`. */
  predicate Before(p: int, f: nat, i: nat) {
    p / POS < f || (p / POS == f && p % POS < i)
  }

  ghost predicate Indexed(sig: Files, hash: string -> int, byHash: Index, f: nat, i: nat) {
    (forall h :: h in byHash ==> byHash[h] != [] && Distinct(byHash[h]))
    && Listed(sig, hash, byHash, f, i) && Complete(sig, hash, byHash, f, i)
  }

  ghost predicate Listed(sig: Files, hash: string -> int, byHash: Index, f: nat, i: nat) {
    forall h, p :: h in byHash && p in byHash[h] ==> Filed(sig, hash, p, f, i, h)
  }

  predicate Filed(sig: Files, hash: string -> int, p: int, f: nat, i: nat, h: int) {
    IsPos(sig, p) && Before(p, f, i) && HashAt(sig, hash, p) == h
  }

  ghost predicate Complete(sig: Files, hash: string -> int, byHash: Index, f: nat, i: nat) {
    forall p :: IsPos(sig, p) && Before(p, f, i) ==>
      HashAt(sig, hash, p) in byHash && p in byHash[HashAt(sig, hash, p)]
  }

  lemma OneMore(f: nat, i: nat, q: int)
    requires i < POS
    ensures Before(q, f, i + 1) <==> Before(q, f, i) || q == f * POS + i
  {
    Decode(f, i);
    assert q == q / POS * POS + q % POS;
  }

  lemma AddWindow(sig: Files, hash: string -> int, byHash: Index, f: nat, i: nat)
    requires Indexed(sig, hash, byHash, f, i) && IsWindow(sig, f, i) && i < POS
    ensures var p := f * POS + i;
            IsPos(sig, p)
            && var h := HashAt(sig, hash, p);
               Indexed(sig, hash, byHash[h := (if h in byHash then byHash[h] else []) + [p]], f, i + 1)
  {
    hide HashAt, Before;
    Decode(f, i);
    var p := f * POS + i;
    var h := HashAt(sig, hash, p);
    var known := if h in byHash then byHash[h] else [];
    var next := byHash[h := known + [p]];
    assert !Before(p, f, i) by { NotBefore(f, i); }
    forall q ensures Before(q, f, i + 1) <==> Before(q, f, i) || q == p {
      OneMore(f, i, q);
    }
    assert Distinct(next[h]) by { assert p !in known; }
    forall g, q | g in next && q in next[g] ensures Filed(sig, hash, q, f, i + 1, g) {
      if g != h || q in known { assert Filed(sig, hash, q, f, i, g); }
    }
  }

  lemma NotBefore(f: nat, i: nat)
    requires i < POS
    ensures !Before(f * POS + i, f, i)
  {
    Decode(f, i);
  }

  /** `order` is the map's insertion order. */
  ghost predicate Ordered<T>(order: seq<int>, m: map<int, T>) {
    (forall k :: 0 <= k < |order| ==> order[k] in m) && forall h :: h in m ==> h in order
  }

  method IndexWindows(sig: Files, hash: string -> int) returns (order: seq<int>, byHash: Index)
    requires Small(sig)
    ensures Indexed(sig, hash, byHash, |sig|, 0) && Ordered(order, byHash)
  {
    hide HashAt, Indexed;
    order, byHash := [], map[];
    var f := 0;
    NoWindows(sig, hash);
    while f < |sig|
      invariant 0 <= f <= |sig| && Indexed(sig, hash, byHash, f, 0) && Ordered(order, byHash)
    {
      var s := sig[f];
      var i := 0;
      while i + WINDOW <= |s|
        invariant 0 <= i && Indexed(sig, hash, byHash, f, i) && Ordered(order, byHash)
        invariant i + WINDOW <= |s| + 1 || i == 0
        decreases |s| - i
      {
        AddWindow(sig, hash, byHash, f, i);
        var p := f * POS + i;
        var h := HashAt(sig, hash, p);
        var list := [];
        if h in byHash { list := byHash[h]; } else { order := order + [h]; }
        byHash := byHash[h := list + [p]];
        i := i + 1;
      }
      NextFile(sig, hash, byHash, f, i);
      f := f + 1;
    }
  }

  lemma NoWindows(sig: Files, hash: string -> int)
    ensures Indexed(sig, hash, map[], 0, 0)
  {
  }

  lemma NextFile(sig: Files, hash: string -> int, byHash: Index, f: nat, i: nat)
    requires f < |sig| && Indexed(sig, hash, byHash, f, i) && i + WINDOW > |sig[f]|
    ensures Indexed(sig, hash, byHash, f + 1, 0)
  {
    hide HashAt, Before;
    forall p | IsPos(sig, p) ensures Before(p, f + 1, 0) <==> Before(p, f, i) {
      FileEnd(sig, f, i, p);
    }
    SameComplete(sig, hash, byHash, f, i);
    SameListed(sig, hash, byHash, f, i);
  }

  lemma SameListed(sig: Files, hash: string -> int, byHash: Index, f: nat, i: nat)
    requires Listed(sig, hash, byHash, f, i)
    requires forall p :: IsPos(sig, p) ==> (Before(p, f + 1, 0) <==> Before(p, f, i))
    ensures Listed(sig, hash, byHash, f + 1, 0)
  {
    hide HashAt, Before;
    forall h, p | h in byHash && p in byHash[h] ensures Filed(sig, hash, p, f + 1, 0, h) {
      assert Filed(sig, hash, p, f, i, h);
    }
  }

  lemma SameComplete(sig: Files, hash: string -> int, byHash: Index, f: nat, i: nat)
    requires Complete(sig, hash, byHash, f, i)
    requires forall p :: IsPos(sig, p) ==> (Before(p, f + 1, 0) <==> Before(p, f, i))
    ensures Complete(sig, hash, byHash, f + 1, 0)
  {
    hide HashAt, Before;
    forall p | IsPos(sig, p) && Before(p, f + 1, 0)
      ensures HashAt(sig, hash, p) in byHash && p in byHash[HashAt(sig, hash, p)]
    {
      assert Before(p, f, i);
    }
  }

  lemma FileEnd(sig: Files, f: nat, i: nat, p: int)
    requires f < |sig| && i + WINDOW > |sig[f]|
    ensures IsPos(sig, p) ==> (Before(p, f + 1, 0) <==> Before(p, f, i))
  {
  }

  // ---------------------------------------------------------------- linking

  /** Every union made is of two equal windows or of two consecutive matched ones. */
  ghost predicate Sound(sig: Files, hash: string -> int, links: seq<Link>) {
    forall i :: 0 <= i < |links| ==>
      SameHash(sig, hash, links[i].0, links[i].1)
      || (Follows(sig, hash, links[i].0) && links[i].1 == links[i].0 + 1)
  }

  /** The unions made cover the list: all its windows hang together. */
  ghost predicate Hangs(links: seq<Link>, list: seq<int>, n: nat)
    requires n <= |list|
  {
    forall i :: 0 <= i < n ==> Linked(links, list[0], list[i])
  }

  lemma LinkedStays(links: seq<Link>, l: Link, a: int, b: int)
    requires Linked(links, a, b)
    ensures Linked(links + [l], a, b)
  {
    assert (links + [l])[..|links|] == links;
  }

  lemma JustLinked(links: seq<Link>, l: Link)
    ensures Linked(links + [l], l.0, l.1)
  {
    LinksAreLinked(links + [l], |links|);
  }

  /** The lists of the first `n` hashes hang together. */
  ghost predicate Done(links: seq<Link>, byHash: Index, order: seq<int>, n: nat)
    requires n <= |order| && Ordered(order, byHash)
  {
    forall k :: 0 <= k < n ==> Hangs(links, byHash[order[k]], |byHash[order[k]]|)
  }

  ghost predicate Repeats(byHash: Index, order: seq<int>, n: nat, p: int)
    requires n <= |order| && Ordered(order, byHash)
  {
    exists k :: 0 <= k < n && |byHash[order[k]]| >= 2 && p in byHash[order[k]]
  }

  method UniteEqual(sig: Files, hash: string -> int, order: seq<int>, byHash: Index, uf: UnionFind)
    returns (matched: seq<int>)
    requires Indexed(sig, hash, byHash, |sig|, 0) && Ordered(order, byHash) && uf.Valid() && uf.links == []
    modifies uf
    ensures uf.Valid() && Sound(sig, hash, uf.links) && Done(uf.links, byHash, order, |order|)
    ensures Distinct(matched) && forall p :: p in matched <==> Matched(sig, hash, p)
  {
    hide HashAt, Linked, Indexed, UnionFind.Valid;
    matched := [];
    var n := 0;
    while n < |order|
      invariant 0 <= n <= |order|
      invariant uf.Valid() && Sound(sig, hash, uf.links) && Done(uf.links, byHash, order, n)
      invariant Distinct(matched) && forall p :: p in matched <==> Repeats(byHash, order, n, p)
    {
      var h := order[n];
      var list := byHash[h];
      ghost var before := matched;
      ListFacts(sig, hash, byHash, h);
      if |list| >= 2 {
        var k := 0;
        while k < |list|
          invariant 0 <= k <= |list|
          invariant uf.Valid() && Sound(sig, hash, uf.links) && Done(uf.links, byHash, order, n)
          invariant Hangs(uf.links, list, k)
          invariant Distinct(matched) && forall p :: p in matched <==> p in before || p in list[..k]
        {
          ghost var links := uf.links;
          if list[k] !in matched { matched := matched + [list[k]]; }
          uf.Union(list[0], list[k]);
          assert list[..k + 1] == list[..k] + [list[k]];
          Stays(links, (list[0], list[k]), byHash, order, n, list, k);
          k := k + 1;
        }
        assert list[..k] == list;
      } else {
        SelfLinked(uf.links, list[0]);
      }
      forall p ensures Repeats(byHash, order, n + 1, p) <==> Repeats(byHash, order, n, p) || (|list| >= 2 && p in list) {
        OneMoreList(byHash, order, n, p);
      }
      n := n + 1;
    }
    MatchedLists(sig, hash, order, byHash, matched);
  }

  lemma OneMoreList(byHash: Index, order: seq<int>, n: nat, p: int)
    requires n < |order| && Ordered(order, byHash)
    ensures var list := byHash[order[n]];
            Repeats(byHash, order, n + 1, p) <==> Repeats(byHash, order, n, p) || (|list| >= 2 && p in list)
  {
  }

  lemma SelfLinked(links: seq<Link>, a: int)
    ensures Linked(links, a, a)
  {
    LinkedIsEquivalence(links);
    assert Relation(links)(a, a);
  }

  lemma ListFacts(sig: Files, hash: string -> int, byHash: Index, h: int)
    requires Indexed(sig, hash, byHash, |sig|, 0) && h in byHash
    ensures byHash[h] != []
    ensures forall i, j :: 0 <= i < |byHash[h]| && 0 <= j < |byHash[h]| ==> SameHash(sig, hash, byHash[h][i], byHash[h][j])
  {
    hide HashAt;
    var list := byHash[h];
    assert forall i :: 0 <= i < |list| ==> list[i] in list;
  }

  lemma Stays(links: seq<Link>, l: Link, byHash: Index, order: seq<int>, n: nat, list: seq<int>, k: nat)
    requires n <= |order| && Ordered(order, byHash) && Done(links, byHash, order, n)
    requires k < |list| && Hangs(links, list, k) && l == (list[0], list[k])
    ensures Done(links + [l], byHash, order, n) && Hangs(links + [l], list, k + 1)
  {
    hide Linked;
    forall a, b | Linked(links, a, b) ensures Linked(links + [l], a, b) {
      LinkedStays(links, l, a, b);
    }
    JustLinked(links, l);
  }

  lemma MatchedLists(sig: Files, hash: string -> int, order: seq<int>, byHash: Index, matched: seq<int>)
    requires Indexed(sig, hash, byHash, |sig|, 0) && Ordered(order, byHash)
    requires forall p :: p in matched <==> Repeats(byHash, order, |order|, p)
    ensures forall p :: p in matched <==> Matched(sig, hash, p)
  {
    hide HashAt;
    forall p ensures p in matched <==> Matched(sig, hash, p) {
      if p in matched { RepeatMatches(sig, hash, order, byHash, p); }
      if Matched(sig, hash, p) { MatchRepeats(sig, hash, order, byHash, p); }
    }
  }

  lemma RepeatMatches(sig: Files, hash: string -> int, order: seq<int>, byHash: Index, p: int)
    requires Indexed(sig, hash, byHash, |sig|, 0) && Ordered(order, byHash) && Repeats(byHash, order, |order|, p)
    ensures Matched(sig, hash, p)
  {
    hide HashAt;
    var k :| 0 <= k < |order| && |byHash[order[k]]| >= 2 && p in byHash[order[k]];
    ListFacts(sig, hash, byHash, order[k]);
    var list := byHash[order[k]];
    var i :| 0 <= i < |list| && list[i] == p;
    var j := if i == 0 then 1 else 0;
    assert list[j] != list[i] by {
      assert order[k] in byHash;
      assert Distinct(list);
    }
    assert SameHash(sig, hash, p, list[j]);
  }

  lemma MatchRepeats(sig: Files, hash: string -> int, order: seq<int>, byHash: Index, p: int)
    requires Indexed(sig, hash, byHash, |sig|, 0) && Ordered(order, byHash) && Matched(sig, hash, p)
    ensures Repeats(byHash, order, |order|, p)
  {
    hide HashAt;
    var q :| q != p && SameHash(sig, hash, p, q);
    AllBefore(sig, p);
    AllBefore(sig, q);
    var h := HashAt(sig, hash, p);
    var list := byHash[h];
    var i :| 0 <= i < |list| && list[i] == p;
    var j :| 0 <= j < |list| && list[j] == q;
    var k :| 0 <= k < |order| && order[k] == h;
  }

  lemma AllBefore(sig: Files, p: int)
    requires IsPos(sig, p)
    ensures Before(p, |sig|, 0)
  {
  }

  method UniteFollowing(
      sig: Files, hash: string -> int, order: seq<int>, byHash: Index, matched: seq<int>, uf: UnionFind)
    requires Ordered(order, byHash)
    requires uf.Valid() && Sound(sig, hash, uf.links) && Done(uf.links, byHash, order, |order|)
    requires forall p :: p in matched <==> Matched(sig, hash, p)
    modifies uf
    ensures uf.Valid() && Sound(sig, hash, uf.links) && Done(uf.links, byHash, order, |order|)
    ensures forall p :: Follows(sig, hash, p) ==> Linked(uf.links, p, p + 1)
  {
    hide Linked, Matched, Hangs, UnionFind.Valid, Ordered;
    var n := 0;
    while n < |matched|
      invariant 0 <= n <= |matched|
      invariant uf.Valid() && Sound(sig, hash, uf.links) && Done(uf.links, byHash, order, |order|)
      invariant forall k :: 0 <= k < n && matched[k] + 1 in matched ==> Linked(uf.links, matched[k], matched[k] + 1)
    {
      var p := matched[n];
      assert p in matched;
      if p + 1 in matched {
        ghost var links := uf.links;
        uf.Union(p, p + 1);
        JustLinked(links, (p, p + 1));
        MoreHangs(links, (p, p + 1), byHash, order);
        forall a, b | Linked(links, a, b) ensures Linked(uf.links, a, b) {
          LinkedStays(links, (p, p + 1), a, b);
        }
      }
      n := n + 1;
    }
  }

  lemma MoreHangs(links: seq<Link>, l: Link, byHash: Index, order: seq<int>)
    requires Ordered(order, byHash) && Done(links, byHash, order, |order|)
    ensures Done(links + [l], byHash, order, |order|)
  {
    hide Linked;
    forall a, b | Linked(links, a, b) ensures Linked(links + [l], a, b) {
      LinkedStays(links, l, a, b);
    }
  }

  /** The unions made link exactly the connected windows. */
  lemma LinkedIsConnected(
      sig: Files, hash: string -> int, order: seq<int>, byHash: Index, links: seq<Link>, p: int, q: int)
    requires Indexed(sig, hash, byHash, |sig|, 0) && Ordered(order, byHash)
    requires Small(sig) && Sound(sig, hash, links) && Done(links, byHash, order, |order|)
    requires forall a :: Follows(sig, hash, a) ==> Linked(links, a, a + 1)
    ensures Linked(links, p, q) <==> Connected(sig, hash, p, q)
  {
    hide HashAt, Linked, Indexed, Matched;
    if Linked(links, p, q) {
      forall r: (int, int) -> bool | Equivalence(r) && Contains(sig, hash, r) ensures r(p, q) {
        forall a | Follows(sig, hash, a) ensures r(a, a + 1) {
          FollowsInFile(sig, hash, a);
        }
        LinkedIsLeast(links, r, p, q);
      }
    }
    if Connected(sig, hash, p, q) {
      var r := Relation(links);
      LinkedIsEquivalence(links);
      forall a, b | SameHash(sig, hash, a, b) ensures r(a, b) {
        SameListLinked(sig, hash, order, byHash, links, a, b);
      }
      assert forall a, b :: r(a, b) == Linked(links, a, b);
      forall f, i | Consecutive(sig, hash, f, i) ensures r(f * POS + i, f * POS + i + 1) {
        ConsecutiveFollows(sig, hash, f, i);
      }
      assert Contains(sig, hash, r);
      assert r(p, q);
    }
  }

  lemma SameListLinked(
      sig: Files, hash: string -> int, order: seq<int>, byHash: Index, links: seq<Link>, a: int, b: int)
    requires Indexed(sig, hash, byHash, |sig|, 0) && Ordered(order, byHash) && SameHash(sig, hash, a, b)
    requires Done(links, byHash, order, |order|)
    ensures Linked(links, a, b)
  {
    hide HashAt, Linked;
    AllBefore(sig, a);
    AllBefore(sig, b);
    var list := byHash[HashAt(sig, hash, a)];
    var k :| 0 <= k < |order| && order[k] == HashAt(sig, hash, a);
    var i :| 0 <= i < |list| && list[i] == a;
    var j :| 0 <= j < |list| && list[j] == b;
    LinkedIsEquivalence(links);
    var r := Relation(links);
    assert r(list[0], a) && r(list[0], b);
    assert r(a, list[0]);
  }

  // ---------------------------------------------------------------- clusters

  /** Lists of matched windows, keyed by root. */
  ghost predicate Clustered(matched: seq<int>, root: int -> int, clusters: map<int, seq<int>>) {
    (forall r :: r in clusters ==> clusters[r] != [] && Distinct(clusters[r]))
    && (forall r, p :: r in clusters && p in clusters[r] ==> p in matched && root(p) == r)
    && forall p :: p in matched ==> root(p) in clusters && p in clusters[root(p)]
  }

  method GroupByRoot(matched: seq<int>, uf: UnionFind) returns (order: seq<int>, clusters: map<int, seq<int>>)
    requires uf.Valid() && Distinct(matched)
    modifies uf`parent
    ensures uf.Valid() && Ordered(order, clusters) && Distinct(order) && Clustered(matched, uf.root, clusters)
  {
    hide Up, Chains, Agrees;
    order, clusters := [], map[];
    var n := 0;
    while n < |matched|
      invariant 0 <= n <= |matched|
      invariant uf.Valid() && Ordered(order, clusters) && Distinct(order) && Clustered(matched[..n], uf.root, clusters)
    {
      var p := matched[n];
      var root := uf.Find(p);
      assert matched[..n + 1] == matched[..n] + [p];
      assert p !in matched[..n];
      var list := [];
      if root in clusters { list := clusters[root]; } else {
        assert root !in order;
        order := order + [root];
      }
      AddToCluster(matched[..n], uf.root, clusters, p);
      clusters := clusters[root := list + [p]];
      n := n + 1;
    }
    assert matched[..n] == matched;
  }

  lemma AddToCluster(matched: seq<int>, root: int -> int, clusters: map<int, seq<int>>, p: int)
    requires Clustered(matched, root, clusters) && p !in matched
    ensures var r := root(p);
            Clustered(matched + [p], root, clusters[r := (if r in clusters then clusters[r] else []) + [p]])
  {
    var r := root(p);
    var list := if r in clusters then clusters[r] else [];
    assert p !in list;
  }

  /** The clusters are the connected components of the matched windows. */
  ghost predicate Components(sig: Files, hash: string -> int, clusters: map<int, seq<int>>) {
    (forall c, p :: c in clusters && p in clusters[c] ==> Matched(sig, hash, p))
    && (forall p :: Matched(sig, hash, p) ==> exists c :: c in clusters && p in clusters[c])
    && (forall c, d, p, q :: c in clusters && d in clusters && p in clusters[c] && q in clusters[d] ==>
          (c == d <==> Connected(sig, hash, p, q)))
    && forall c :: c in clusters ==> clusters[c] != [] && Distinct(clusters[c])
  }

  lemma ClusteredIsComponents(sig: Files, hash: string -> int, matched: seq<int>, root: int -> int,
                              links: seq<Link>, clusters: map<int, seq<int>>)
    requires Clustered(matched, root, clusters) && Agrees(root, links)
    requires forall p :: p in matched <==> Matched(sig, hash, p)
    requires forall p, q {:trigger Connected(sig, hash, p, q)} :: Linked(links, p, q) <==> Connected(sig, hash, p, q)
    ensures Components(sig, hash, clusters)
  {
    hide Matched, Linked, Connected, Distinct;
    forall p | Matched(sig, hash, p) ensures exists c :: c in clusters && p in clusters[c] {
      var c := root(p);
      assert c in clusters && p in clusters[c];
    }
    forall c, d, p, q | c in clusters && d in clusters && p in clusters[c] && q in clusters[d]
      ensures c == d <==> Connected(sig, hash, p, q)
    {
      assert root(p) == c && root(q) == d;
      assert root(p) == root(q) <==> Linked(links, p, q);
    }
  }

  method FindClusters(sig: Files, hash: string -> int) returns (order: seq<int>, clusters: map<int, seq<int>>)
    requires Small(sig)
    ensures Ordered(order, clusters) && Distinct(order) && Components(sig, hash, clusters)
  {
    hide Linked, Matched, Connected, Components, Indexed, Clustered;
    var hashes, byHash := IndexWindows(sig, hash);
    var uf := new UnionFind();
    var matched := UniteEqual(sig, hash, hashes, byHash, uf);
    UniteFollowing(sig, hash, hashes, byHash, matched, uf);
    order, clusters := GroupByRoot(matched, uf);
    forall p, q ensures Linked(uf.links, p, q) <==> Connected(sig, hash, p, q) {
      LinkedIsConnected(sig, hash, hashes, byHash, uf.links, p, q);
    }
    ClusteredIsComponents(sig, hash, matched, uf.root, uf.links, clusters);
  }
}
