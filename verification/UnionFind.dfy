/** The path-compressing union-find of `scripts/cleanup-scan.ts`. */
module UnionFind {
  // ---------------------------------------------------------------- what the unions link

  type Link = (int, int)

  /** Linked by a sequence of unions. */
  predicate Linked(links: seq<Link>, a: int, b: int) {
    if links == [] then a == b
    else
      var front := links[..|links| - 1];
      var (c, d) := links[|links| - 1];
      Linked(front, a, b)
      || (Linked(front, a, c) && Linked(front, d, b))
      || (Linked(front, a, d) && Linked(front, c, b))
  }

  ghost predicate Equivalence(r: (int, int) -> bool) {
    (forall a :: r(a, a))
    && (forall a, b :: r(a, b) ==> r(b, a))
    && (forall a, b, c :: r(a, b) && r(b, c) ==> r(a, c))
  }

  /** `Linked` is the least equivalence that contains every link: this and the next two lemmas. */
  lemma {:induction false} LinkedIsEquivalence(links: seq<Link>)
    ensures Equivalence(Relation(links))
    decreases |links|
  {
    if links != [] {
      var front := links[..|links| - 1];
      LinkedIsEquivalence(front);
      forall a, b, c ensures Relation(links)(a, a)
                     ensures Relation(links)(a, b) ==> Relation(links)(b, a)
                     ensures Relation(links)(a, b) && Relation(links)(b, c) ==> Relation(links)(a, c)
      {
        OneMoreLink(links, a, b, c);
      }
    }
  }

  function Relation(links: seq<Link>): (int, int) -> bool {
    (a: int, b: int) => Linked(links, a, b)
  }

  lemma {:induction false} OneMoreLink(links: seq<Link>, a: int, b: int, c: int)
    requires links != [] && Equivalence(Relation(links[..|links| - 1]))
    ensures Linked(links, a, a)
    ensures Linked(links, a, b) ==> Linked(links, b, a)
    ensures Linked(links, a, b) && Linked(links, b, c) ==> Linked(links, a, c)
  {
    var r := Relation(links[..|links| - 1]);
    var (d, e) := links[|links| - 1];
    assert forall x, y :: r(x, y) == Linked(links[..|links| - 1], x, y);
    assert forall x, y {:trigger Linked(links, x, y)} ::
        Linked(links, x, y) <==> r(x, y) || (r(x, d) && r(e, y)) || (r(x, e) && r(d, y));
    hide Linked;
  }

  lemma {:induction false} LinksAreLinked(links: seq<Link>, i: nat)
    requires i < |links|
    ensures Linked(links, links[i].0, links[i].1)
    decreases |links|
  {
    var n := |links| - 1;
    var (c, d) := links[n];
    LinkedIsEquivalence(links[..n]);
    assert Relation(links[..n])(c, c) && Relation(links[..n])(d, d);
    if i < n { LinksAreLinked(links[..n], i); }
  }

  lemma {:induction false} LinkedIsLeast(links: seq<Link>, r: (int, int) -> bool, a: int, b: int)
    requires Equivalence(r) && forall i :: 0 <= i < |links| ==> r(links[i].0, links[i].1)
    ensures Linked(links, a, b) ==> r(a, b)
    decreases |links|
  {
    if links != [] {
      var n := |links| - 1;
      var front := links[..n];
      var (c, d) := links[n];
      assert r(links[n].0, links[n].1);
      assert forall i :: 0 <= i < |front| ==> r(links[i].0, links[i].1) && front[i] == links[i];
      LinkedIsLeast(front, r, a, b);
      LinkedIsLeast(front, r, a, c);
      LinkedIsLeast(front, r, d, b);
      LinkedIsLeast(front, r, a, d);
      LinkedIsLeast(front, r, c, b);
    }
  }

  // ---------------------------------------------------------------- chains of parents

  function Up(parent: map<int, int>, x: int): int {
    if x in parent then parent[x] else x
  }

  ghost predicate Chained(parent: map<int, int>, root: int -> int, height: int -> nat, x: int) {
    var up := Up(parent, x);
    root(up) == root(x) && if up == x then root(x) == x else height(up) < height(x)
  }

  /** `root` is the end of each element's chain of parents; `height` falls along it. */
  ghost predicate Chains(parent: map<int, int>, root: int -> int, height: int -> nat) {
    forall x :: Chained(parent, root, height, x)
  }

  /** Same root, exactly when linked. */
  ghost predicate Agrees(root: int -> int, links: seq<Link>) {
    forall a, b {:trigger Linked(links, a, b)} :: root(a) == root(b) <==> Linked(links, a, b)
  }

  lemma {:induction false} RootIsTop(parent: map<int, int>, root: int -> int, height: int -> nat, x: int)
    requires Chains(parent, root, height)
    ensures var r := root(x);
            Up(parent, r) == r && root(r) == r && (r == x || height(r) < height(x))
    decreases height(x)
  {
    var up := Up(parent, x);
    assert Chained(parent, root, height, x);
    if up != x { RootIsTop(parent, root, height, up); }
  }

  lemma Compressed(parent: map<int, int>, root: int -> int, height: int -> nat, x: int)
    requires Chains(parent, root, height) && root(x) != x
    ensures Chains(parent[x := root(x)], root, height)
  {
    RootIsTop(parent, root, height, x);
    var p := parent[x := root(x)];
    forall y ensures Chained(p, root, height, y) {
      assert Chained(parent, root, height, y);
    }
  }

  function NewRoot(root: int -> int, ra: int, rb: int): int -> int {
    (x: int) => if root(x) == ra then rb else root(x)
  }

  function NewHeight(root: int -> int, height: int -> nat, ra: int, rb: int): int -> nat {
    (x: int) => if root(x) == ra then height(x) + height(rb) + 1 else height(x)
  }

  /** Hanging one root below another joins the two trees. */
  lemma Joined(parent: map<int, int>, root: int -> int, height: int -> nat, ra: int, rb: int)
    requires Chains(parent, root, height) && root(ra) == ra && root(rb) == rb && ra != rb
    ensures Chains(parent[ra := rb], NewRoot(root, ra, rb), NewHeight(root, height, ra, rb))
  {
    var p, r, h := parent[ra := rb], NewRoot(root, ra, rb), NewHeight(root, height, ra, rb);
    forall y ensures Chained(p, r, h, y) {
      assert Chained(parent, root, height, y);
      RootIsTop(parent, root, height, y);
    }
  }

  lemma JoinedLinks(root: int -> int, links: seq<Link>, a: int, b: int)
    requires Agrees(root, links)
    ensures Agrees(if root(a) == root(b) then root else NewRoot(root, root(a), root(b)), links + [(a, b)])
  {
    var more := links + [(a, b)];
    var r := if root(a) == root(b) then root else NewRoot(root, root(a), root(b));
    assert more[..|more| - 1] == links && more[|more| - 1] == (a, b);
    assert forall x, y {:trigger Linked(more, x, y)} ::
        Linked(more, x, y) <==> Linked(links, x, y) || (Linked(links, x, a) && Linked(links, b, y))
                                || (Linked(links, x, b) && Linked(links, a, y));
    hide Linked;
  }

  // ---------------------------------------------------------------- the structure

  function Self(): int -> int {
    (x: int) => x
  }

  function Flat(): int -> nat {
    (x: int) => 0
  }

  class UnionFind {
    var parent: map<int, int>
    ghost var root: int -> int
    ghost var height: int -> nat
    /** The unions made so far. */
    ghost var links: seq<Link>

    /** Two elements have the same root exactly when the unions made so far link them. */
    ghost predicate Valid()
      reads this
    {
      Chains(parent, root, height) && Agrees(root, links)
    }

    constructor ()
      ensures Valid() && links == []
    {
      parent, root, height, links := map[], Self(), Flat(), [];
    }

    /** Compression moves pointers, never roots. */
    method Find(x: int) returns (r: int)
      requires Valid()
      modifies this`parent
      ensures Valid() && r == root(x) && Up(parent, r) == r
      decreases height(x)
    {
      hide Chains, Agrees;
      r := if x in parent then parent[x] else x;
      OneUp(parent, root, height, x);
      if r != x {
        r := Find(r);
        RootIsTop(parent, root, height, x);
        Compressed(parent, root, height, x);
        parent := parent[x := r];
      }
      RootIsTop(parent, root, height, x);
    }

    /** Links two elements: the one root is hung below the other. */
    method Union(a: int, b: int)
      requires Valid()
      modifies this
      ensures Valid() && links == old(links) + [(a, b)]
    {
      hide Chains, Agrees;
      var ra := Find(a);
      var rb := Find(b);
      JoinedLinks(root, links, a, b);
      if ra != rb {
        RootIsTop(parent, root, height, a);
        RootIsTop(parent, root, height, b);
        Joined(parent, root, height, ra, rb);
        root, height := NewRoot(root, ra, rb), NewHeight(root, height, ra, rb);
        parent := parent[ra := rb];
      }
      links := links + [(a, b)];
    }
  }

  lemma OneUp(parent: map<int, int>, root: int -> int, height: int -> nat, x: int)
    requires Chains(parent, root, height)
    ensures var up := Up(parent, x);
            root(x) == root(up) && if up == x then root(x) == x else root(x) != x && height(up) < height(x)
  {
    assert Chained(parent, root, height, x);
    if Up(parent, x) != x {
      RootIsTop(parent, root, height, Up(parent, x));
    }
  }
}
