/** File regions of clone clusters. */
module CloneRegions {
  import opened CloneClusters

  /** Significant lines `start` up to but not including `end`, and the source lines they span. */
  datatype Region = Region(file: int, start: int, end: int, startLine: nat, endLine: nat)
  datatype Clone = Clone(regions: seq<Region>, sigLines: int)

  // ---------------------------------------------------------------- one file

  type Span = (int, int)

  predicate InSpan(s: Span, l: int) {
    s.0 <= l < s.1
  }

  predicate InWindow(i: int, l: int) {
    i <= l < i + WINDOW
  }

  /** Spans are non-empty, in order, and at least one line apart. */
  predicate Apart(spans: seq<Span>) {
    (forall k :: 0 <= k < |spans| ==> spans[k].0 < spans[k].1)
    && forall k, m :: 0 <= k < m < |spans| ==> spans[k].1 < spans[m].0
  }

  predicate Covered(spans: seq<Span>, l: int) {
    exists k :: 0 <= k < |spans| && InSpan(spans[k], l)
  }

  predicate Windowed(idxs: seq<int>, l: int) {
    exists k :: 0 <= k < |idxs| && InWindow(idxs[k], l)
  }

  ghost predicate SameLines(idxs: seq<int>, spans: seq<Span>) {
    forall l :: Covered(spans, l) <==> Windowed(idxs, l)
  }

  predicate Rising(idxs: seq<int>) {
    forall i, j :: 0 <= i < j < |idxs| ==> idxs[i] < idxs[j]
  }

  function Total(spans: seq<Span>): int {
    if spans == [] then 0 else Total(spans[..|spans| - 1]) + (spans[|spans| - 1].1 - spans[|spans| - 1].0)
  }

  lemma CoveredAppend(spans: seq<Span>, s: Span, l: int)
    ensures Covered(spans + [s], l) <==> Covered(spans, l) || InSpan(s, l)
  {
    var all := spans + [s];
    assert forall k :: 0 <= k < |spans| ==> all[k] == spans[k];
    assert all[|spans|] == s;
  }

  lemma WindowedAppend(idxs: seq<int>, i: int, l: int)
    ensures Windowed(idxs + [i], l) <==> Windowed(idxs, l) || InWindow(i, l)
  {
    var all := idxs + [i];
    assert forall k :: 0 <= k < |idxs| ==> all[k] == idxs[k];
    assert all[|idxs|] == i;
  }

  ghost predicate Edges(idxs: seq<int>, spans: seq<Span>) {
    forall s :: s in spans ==> s.0 in idxs && s.1 - WINDOW in idxs
  }

  /** The flushed spans and the open one stand for the indices read so far. */
  ghost predicate Reading(idxs: seq<int>, spans: seq<Span>, open: Span, total: int) {
    var all := spans + [open];
    Apart(all) && SameLines(idxs, all) && Edges(idxs, all) && total == Total(spans)
  }

  lemma Flush(spans: seq<Span>, s: Span)
    ensures Total(spans + [s]) == Total(spans) + (s.1 - s.0)
  {
    assert (spans + [s])[..|spans|] == spans;
  }

  lemma ReadFar(idxs: seq<int>, spans: seq<Span>, open: Span, total: int, i: int)
    requires Reading(idxs, spans, open, total) && i > open.1
    ensures Reading(idxs + [i], spans + [open], (i, i + WINDOW), total + (open.1 - open.0))
  {
    hide SameLines, Total;
    Flush(spans, open);
    NewSpan(idxs, spans + [open], i);
    var all := spans + [open];
    assert forall k :: 0 <= k < |all| ==> all[k].0 < all[k].1;
    assert forall k :: 0 <= k < |all| ==> all[k].1 <= all[|all| - 1].1;
  }

  lemma ReadNear(idxs: seq<int>, spans: seq<Span>, start: int, prev: int, total: int, i: int)
    requires Reading(idxs, spans, (start, prev + WINDOW), total) && start <= prev < i <= prev + WINDOW
    ensures Reading(idxs + [i], spans, (start, i + WINDOW), total)
  {
    hide SameLines, Total;
    GrowSpan(idxs, spans, start, prev, i);
    var was, all := spans + [(start, prev + WINDOW)], spans + [(start, i + WINDOW)];
    assert forall k :: 0 <= k < |spans| ==> all[k] == was[k] && all[k] in was;
    assert was[|spans|] in was;
  }

  /** Merges sorted window indices into maximal spans; windows that touch are one span. */
  method Spans(idxs: seq<int>) returns (spans: seq<Span>, total: int)
    requires idxs != [] && Rising(idxs)
    ensures Apart(spans) && SameLines(idxs, spans) && Edges(idxs, spans) && total == Total(spans) == |LineSet(spans)|
  {
    hide SameLines, Edges, Apart, Total, Reading, LineSet;
    spans, total := [], 0;
    var start, prev := idxs[0], idxs[0];
    var k := 1;
    FirstSpan(idxs[0]);
    assert idxs[..1] == [idxs[0]];
    while k < |idxs|
      invariant 1 <= k <= |idxs| && start <= prev == idxs[k - 1]
      invariant Reading(idxs[..k], spans, (start, prev + WINDOW), total)
    {
      assert idxs[..k + 1] == idxs[..k] + [idxs[k]];
      if idxs[k] > prev + WINDOW {
        ReadFar(idxs[..k], spans, (start, prev + WINDOW), total, idxs[k]);
        spans := spans + [(start, prev + WINDOW)];
        total := total + (prev + WINDOW - start);
        start := idxs[k];
      } else {
        ReadNear(idxs[..k], spans, start, prev, total, idxs[k]);
      }
      prev := idxs[k];
      k := k + 1;
    }
    assert idxs[..k] == idxs;
    LastFlush(idxs, spans, (start, prev + WINDOW), total);
    spans := spans + [(start, prev + WINDOW)];
    total := total + (prev + WINDOW - start);
    TotalCounts(spans);
  }

  lemma LastFlush(idxs: seq<int>, spans: seq<Span>, open: Span, total: int)
    requires Reading(idxs, spans, open, total)
    ensures var all := spans + [open];
            Apart(all) && SameLines(idxs, all) && Edges(idxs, all) && total + (open.1 - open.0) == Total(all)
  {
    Flush(spans, open);
  }

  lemma FirstSpan(i: int)
    ensures Reading([i], [], (i, i + WINDOW), 0)
  {
    assert [] + [i] == [i] && [] + [(i, i + WINDOW)] == [(i, i + WINDOW)];
    forall l ensures Covered([] + [(i, i + WINDOW)], l) <==> Windowed([] + [i], l) {
      CoveredAppend([], (i, i + WINDOW), l);
      WindowedAppend([], i, l);
    }
  }

  lemma NewSpan(idxs: seq<int>, spans: seq<Span>, i: int)
    requires SameLines(idxs, spans)
    ensures SameLines(idxs + [i], spans + [(i, i + WINDOW)])
  {
    hide Covered, Windowed;
    forall l ensures Covered(spans + [(i, i + WINDOW)], l) <==> Windowed(idxs + [i], l) {
      CoveredAppend(spans, (i, i + WINDOW), l);
      WindowedAppend(idxs, i, l);
    }
  }

  lemma GrowSpan(idxs: seq<int>, spans: seq<Span>, start: int, prev: int, i: int)
    requires SameLines(idxs, spans + [(start, prev + WINDOW)])
    requires start <= prev < i <= prev + WINDOW
    ensures SameLines(idxs + [i], spans + [(start, i + WINDOW)])
  {
    hide Covered, Windowed;
    forall l ensures Covered(spans + [(start, i + WINDOW)], l) <==> Windowed(idxs + [i], l) {
      CoveredAppend(spans, (start, prev + WINDOW), l);
      CoveredAppend(spans, (start, i + WINDOW), l);
      WindowedAppend(idxs, i, l);
    }
  }

  function Range(a: int, b: int): (r: set<int>)
    ensures forall l :: l in r <==> a <= l < b
    ensures a <= b ==> |r| == b - a
    decreases b - a
  {
    if a >= b then {} else Range(a, b - 1) + {b - 1}
  }

  /** The lines of the spans, as a set. */
  function LineSet(spans: seq<Span>): set<int> {
    if spans == [] then {}
    else LineSet(spans[..|spans| - 1]) + Range(spans[|spans| - 1].0, spans[|spans| - 1].1)
  }

  lemma {:induction false} LineSetIsCovered(spans: seq<Span>, l: int)
    ensures l in LineSet(spans) <==> Covered(spans, l)
    decreases |spans|
  {
    hide Covered;
    if spans == [] {
      NothingCovered(l);
    } else {
      var n := |spans| - 1;
      LineSetIsCovered(spans[..n], l);
      assert spans == spans[..n] + [spans[n]];
      CoveredAppend(spans[..n], spans[n], l);
    }
  }

  /** The total counts each covered line once. */
  lemma {:induction false} TotalCounts(spans: seq<Span>)
    requires Apart(spans)
    ensures |LineSet(spans)| == Total(spans)
    decreases |spans|
  {
    hide Covered;
    if spans != [] {
      var n := |spans| - 1;
      var front, last := LineSet(spans[..n]), Range(spans[n].0, spans[n].1);
      TotalCounts(spans[..n]);
      forall l | l in last ensures l !in front {
        BelowLast(spans, l);
        LineSetIsCovered(spans[..n], l);
      }
      assert front !! last;
    }
  }

  lemma NothingCovered(l: int)
    ensures !Covered([], l)
  {
  }

  lemma BelowLast(spans: seq<Span>, l: int)
    requires spans != [] && Apart(spans) && InSpan(spans[|spans| - 1], l)
    ensures !Covered(spans[..|spans| - 1], l)
  {
  }

  // ---------------------------------------------------------------- sorting

  function InsertIndex(s: seq<int>, x: int): (r: seq<int>)
    requires Rising(s) && x !in s
    ensures Rising(r) && forall y :: y in r <==> y in s || y == x
  {
    if s == [] then [x]
    else if x < s[0] then
      assert forall k :: 0 <= k < |s| ==> s[0] <= s[k];
      RisingFront(x, s);
      [x] + s
    else
      assert s == [s[0]] + s[1..];
      assert forall y :: y in s[1..] ==> s[0] < y;
      var rest := InsertIndex(s[1..], x);
      RisingFront(s[0], rest);
      [s[0]] + rest
  }

  lemma RisingFront(x: int, s: seq<int>)
    requires Rising(s) && forall y :: y in s ==> x < y
    ensures Rising([x] + s)
  {
    assert forall k :: 0 <= k < |s| ==> s[k] in s;
  }

  function SortIndices(s: seq<int>): (r: seq<int>)
    requires Distinct(s)
    ensures Rising(r) && forall y :: y in r <==> y in s
  {
    if s == [] then []
    else
      assert s[0] !in s[1..];
      InsertIndex(SortIndices(s[1..]), s[0])
  }

  // ---------------------------------------------------------------- one cluster

  function Position(f: int, i: int): int {
    f * POS + i
  }

  lemma PositionOf(f: int, i: int)
    requires 0 <= i < POS
    ensures Position(f, i) / POS == f && Position(f, i) % POS == i
  {
    Decode(f, i);
  }

  lemma OwnPosition(p: int)
    ensures Position(p / POS, p % POS) == p && 0 <= p % POS < POS
  {
  }

  /** Window indices of the cluster, file by file. */
  ghost predicate Grouped(positions: seq<int>, perFile: map<int, seq<int>>) {
    (forall f :: f in perFile ==> perFile[f] != [] && Distinct(perFile[f]))
    && (forall f, i :: f in perFile && i in perFile[f] ==> 0 <= i < POS && Position(f, i) in positions)
    && forall p :: p in positions ==> p / POS in perFile && p % POS in perFile[p / POS]
  }

  method GroupByFile(positions: seq<int>) returns (order: seq<int>, perFile: map<int, seq<int>>)
    requires Distinct(positions)
    ensures Ordered(order, perFile) && Distinct(order) && Grouped(positions, perFile)
  {
    hide Grouped;
    order, perFile := [], map[];
    NoFiles();
    var n := 0;
    while n < |positions|
      invariant 0 <= n <= |positions|
      invariant Ordered(order, perFile) && Distinct(order) && Grouped(positions[..n], perFile)
    {
      var p := positions[n];
      var f := p / POS;
      assert positions[..n + 1] == positions[..n] + [p] && p !in positions[..n];
      AddToFile(positions[..n], perFile, p);
      var list := [];
      if f in perFile {
        list := perFile[f];
      } else {
        assert f !in order;
        order := order + [f];
      }
      perFile := perFile[f := list + [p % POS]];
      n := n + 1;
    }
    assert positions[..n] == positions;
  }

  lemma NoFiles()
    ensures Grouped([], map[])
  {
  }

  lemma AddToFile(positions: seq<int>, perFile: map<int, seq<int>>, p: int)
    requires Grouped(positions, perFile) && p !in positions
    ensures var f := p / POS;
            Grouped(positions + [p], perFile[f := (if f in perFile then perFile[f] else []) + [p % POS]])
  {
    hide Position;
    var f, i := p / POS, p % POS;
    OwnPosition(p);
    var list := if f in perFile then perFile[f] else [];
    assert i !in list;
    var next := perFile[f := list + [i]];
    forall g, j | g in next && j in next[g] ensures 0 <= j < POS && Position(g, j) in positions + [p] {
      if g != f || j in list { assert g in perFile && j in perFile[g]; }
    }
  }

  function RegionOf(sig: Files, f: int, s: Span): Region
    requires 0 <= f < |sig| && 0 <= s.0 < s.1 <= |sig[f]|
  {
    Region(f, s.0, s.1, sig[f][s.0].number, sig[f][s.1 - 1].number)
  }

  predicate Holds(r: Region, f: int, l: int) {
    r.file == f && r.start <= l < r.end
  }

  /** No line lies in two regions, and regions of one file leave a gap. */
  predicate Disjoint(regions: seq<Region>) {
    forall i, j :: 0 <= i < |regions| && 0 <= j < |regions| && i != j && regions[i].file == regions[j].file ==>
      regions[i].end < regions[j].start || regions[j].end < regions[i].start
  }

  predicate InRegions(regions: seq<Region>, f: int, l: int) {
    exists k :: 0 <= k < |regions| && Holds(regions[k], f, l)
  }

  /** Line `l` of file `f` lies in some window of the cluster. */
  predicate InCluster(positions: seq<int>, f: int, l: int) {
    exists k :: 0 <= k < |positions| && positions[k] / POS == f && InWindow(positions[k] % POS, l)
  }

  predicate FromFile(sig: Files, r: Region) {
    0 <= r.file < |sig| && 0 <= r.start < r.end <= |sig[r.file]|
    && r.startLine == sig[r.file][r.start].number && r.endLine == sig[r.file][r.end - 1].number
  }

  function Sizes(regions: seq<Region>): int {
    if regions == [] then 0
    else Sizes(regions[..|regions| - 1]) + (regions[|regions| - 1].end - regions[|regions| - 1].start)
  }

  /** The lines of the cluster, with their files. */
  ghost function ClusterSet(sig: Files, positions: seq<int>): set<(int, int)> {
    set f, l | 0 <= f < |sig| && 0 <= l < |sig[f]| && InCluster(positions, f, l) :: (f, l)
  }

  function Lines(f: int, ls: set<int>): set<(int, int)> {
    set l | l in ls :: (f, l)
  }

  lemma {:induction false} LinesCount(f: int, a: int, b: int)
    requires a <= b
    ensures |Lines(f, Range(a, b))| == b - a
    decreases b - a
  {
    if a == b {
      assert Lines(f, Range(a, b)) == {};
    } else {
      LinesCount(f, a, b - 1);
      assert Lines(f, Range(a, b)) == Lines(f, Range(a, b - 1)) + {(f, b - 1)};
    }
  }

  /** The lines of the regions, as a set. */
  function RegionSet(regions: seq<Region>): set<(int, int)> {
    if regions == [] then {}
    else
      var r := regions[|regions| - 1];
      RegionSet(regions[..|regions| - 1]) + Lines(r.file, Range(r.start, r.end))
  }

  lemma {:induction false} RegionSetHolds(regions: seq<Region>, f: int, l: int)
    ensures (f, l) in RegionSet(regions) <==> InRegions(regions, f, l)
    decreases |regions|
  {
    if regions != [] {
      var n := |regions| - 1;
      RegionSetHolds(regions[..n], f, l);
      if InRegions(regions[..n], f, l) {
        var k :| 0 <= k < n && Holds(regions[..n][k], f, l);
        assert Holds(regions[k], f, l);
      }
      if InRegions(regions, f, l) && !Holds(regions[n], f, l) {
        var k :| 0 <= k < |regions| && Holds(regions[k], f, l);
        assert Holds(regions[..n][k], f, l);
      }
    }
  }

  /** Disjoint regions: their sizes add up to the number of lines they hold. */
  lemma {:induction false} SizesCount(sig: Files, regions: seq<Region>)
    requires Disjoint(regions) && forall r :: r in regions ==> FromFile(sig, r)
    ensures Sizes(regions) == |RegionSet(regions)|
    decreases |regions|
  {
    hide InRegions, FromFile;
    if regions != [] {
      var n := |regions| - 1;
      var r, front := regions[n], regions[..n];
      SizesCount(sig, front);
      assert r.start <= r.end by { FileBounds(sig, r); }
      LinesCount(r.file, r.start, r.end);
      LastApart(regions);
    }
  }

  lemma FileBounds(sig: Files, r: Region)
    requires FromFile(sig, r)
    ensures r.start <= r.end
  {
  }

  lemma LastApart(regions: seq<Region>)
    requires Disjoint(regions) && regions != []
    ensures var r := regions[|regions| - 1];
            RegionSet(regions[..|regions| - 1]) !! Lines(r.file, Range(r.start, r.end))
  {
    hide InRegions, Disjoint;
    var r, front := regions[|regions| - 1], regions[..|regions| - 1];
    forall x | x in Lines(r.file, Range(r.start, r.end)) ensures x !in RegionSet(front) {
      RegionSetHolds(front, x.0, x.1);
      NotBefore(regions, x.0, x.1);
    }
  }

  lemma NotBefore(regions: seq<Region>, f: int, l: int)
    requires Disjoint(regions) && regions != [] && Holds(regions[|regions| - 1], f, l)
    ensures !InRegions(regions[..|regions| - 1], f, l)
  {
  }

  /** The regions hold the cluster's lines and no other, so their sizes count those. */
  lemma ClusterCount(sig: Files, positions: seq<int>, regions: seq<Region>)
    requires Disjoint(regions) && forall r :: r in regions ==> FromFile(sig, r)
    requires forall f, l :: InRegions(regions, f, l) <==> InCluster(positions, f, l)
    ensures Sizes(regions) == |ClusterSet(sig, positions)|
  {
    hide InCluster, InRegions, RegionSet, ClusterSet;
    SizesCount(sig, regions);
    forall x: (int, int) ensures x in RegionSet(regions) <==> x in ClusterSet(sig, positions) {
      RegionSetHolds(regions, x.0, x.1);
      InClusterSet(sig, positions, x);
      if InRegions(regions, x.0, x.1) { InBounds(sig, regions, x.0, x.1); }
    }
    assert RegionSet(regions) == ClusterSet(sig, positions);
  }

  lemma InClusterSet(sig: Files, positions: seq<int>, x: (int, int))
    ensures x in ClusterSet(sig, positions)
            <==> 0 <= x.0 < |sig| && 0 <= x.1 < |sig[x.0]| && InCluster(positions, x.0, x.1)
  {
    hide InCluster;
  }

  lemma InBounds(sig: Files, regions: seq<Region>, f: int, l: int)
    requires InRegions(regions, f, l) && forall r :: r in regions ==> FromFile(sig, r)
    ensures 0 <= f < |sig| && 0 <= l < |sig[f]|
  {
    var k :| 0 <= k < |regions| && Holds(regions[k], f, l);
    assert FromFile(sig, regions[k]);
  }

  /** What the clone says about the cluster: disjoint regions that cover its windows' lines exactly,
      and the number of those lines. */
  ghost predicate Describes(sig: Files, positions: seq<int>, c: Clone) {
    (forall r :: r in c.regions ==> FromFile(sig, r)) && Disjoint(c.regions)
    && (forall f, l :: InRegions(c.regions, f, l) <==> InCluster(positions, f, l))
    && c.sigLines == Sizes(c.regions) == |ClusterSet(sig, positions)|
  }

  /** The regions of the first `n` files. */
  ghost predicate Partial(sig: Files, perFile: map<int, seq<int>>, order: seq<int>, n: nat, regions: seq<Region>)
    requires n <= |order| && Ordered(order, perFile)
  {
    (forall r :: r in regions ==> FromFile(sig, r) && r.file in order[..n]) && Disjoint(regions)
    && forall f, l :: InRegions(regions, f, l) <==> f in order[..n] && Windowed(perFile[f], l)
  }

  method AddFileRegions(sig: Files, f: int, spans: seq<Span>, regions: seq<Region>) returns (r: seq<Region>)
    requires Apart(spans) && forall s :: s in spans ==> 0 <= f < |sig| && 0 <= s.0 && s.1 <= |sig[f]|
    requires Disjoint(regions) && forall x :: x in regions ==> FromFile(sig, x) && x.file != f
    ensures Disjoint(r) && forall x :: x in r ==> FromFile(sig, x) && (x in regions || x.file == f)
    ensures forall g, l :: InRegions(r, g, l) <==> InRegions(regions, g, l) || (g == f && Covered(spans, l))
    ensures Sizes(r) == Sizes(regions) + Total(spans)
  {
    hide Sizes, Total, Covered, InRegions;
    r := regions;
    var k := 0;
    assert spans[..0] == [];
    StartFile(f, regions, spans[..0]);
    while k < |spans|
      invariant 0 <= k <= |spans|
      invariant forall i :: 0 <= i < |r| ==> FromFile(sig, r[i]) && (r[i] in regions || r[i].file == f)
      invariant Disjoint(r) && forall i :: 0 <= i < |r| && r[i].file == f ==> k > 0 && r[i].end <= spans[k - 1].1
      invariant forall g, l :: InRegions(r, g, l) <==> InRegions(regions, g, l) || (g == f && Covered(spans[..k], l))
      invariant Sizes(r) == Sizes(regions) + Total(spans[..k])
    {
      assert spans[k] in spans;
      assert spans[..k + 1] == spans[..k] + [spans[k]];
      var next := RegionOf(sig, f, spans[k]);
      Flush(spans[..k], spans[k]);
      SizesAppend(r, next);
      forall g, l ensures InRegions(r + [next], g, l)
                          <==> InRegions(regions, g, l) || (g == f && Covered(spans[..k + 1], l)) {
        RegionsAppend(r, next, g, l);
        CoveredAppend(spans[..k], spans[k], l);
      }
      r := r + [next];
      k := k + 1;
    }
    assert spans[..k] == spans;
  }

  lemma StartFile(f: int, regions: seq<Region>, spans: seq<Span>)
    requires spans == []
    ensures Total(spans) == 0 && forall l :: !Covered(spans, l)
  {
  }

  lemma SizesAppend(regions: seq<Region>, r: Region)
    ensures Sizes(regions + [r]) == Sizes(regions) + (r.end - r.start)
  {
    assert (regions + [r])[..|regions|] == regions;
  }

  lemma RegionsAppend(regions: seq<Region>, r: Region, f: int, l: int)
    ensures InRegions(regions + [r], f, l) <==> InRegions(regions, f, l) || Holds(r, f, l)
  {
    var all := regions + [r];
    assert forall k :: 0 <= k < |regions| ==> all[k] == regions[k];
    assert all[|regions|] == r;
  }

  method DescribeCluster(sig: Files, positions: seq<int>) returns (c: Clone)
    requires Distinct(positions) && forall p :: p in positions ==> IsPos(sig, p)
    ensures Describes(sig, positions, c)
  {
    hide Windowed, InRegions, InCluster, Grouped, Sizes, Total, Covered, LineSet, ClusterSet;
    var order, perFile := GroupByFile(positions);
    var regions, sigLines := [], 0;
    var n := 0;
    NoRegions(sig, perFile, order);
    while n < |order|
      invariant 0 <= n <= |order|
      invariant Partial(sig, perFile, order, n, regions) && sigLines == Sizes(regions)
    {
      var f := order[n];
      FileWindows(sig, positions, perFile, f);
      var idxs := SortIndices(perFile[f]);
      SortKeepsWindows(perFile[f]);
      var spans, total := Spans(idxs);
      assert f !in order[..n];
      assert order[..n + 1] == order[..n] + [f];
      regions := AddFileRegions(sig, f, spans, regions);
      sigLines := sigLines + total;
      n := n + 1;
    }
    assert order[..n] == order;
    c := Clone(regions, sigLines);
    ClusterLines(sig, positions, perFile, order, regions);
    ClusterCount(sig, positions, regions);
  }

  lemma NoRegions(sig: Files, perFile: map<int, seq<int>>, order: seq<int>)
    requires Ordered(order, perFile)
    ensures Partial(sig, perFile, order, 0, []) && Sizes([]) == 0
  {
  }

  lemma FileWindows(sig: Files, positions: seq<int>, perFile: map<int, seq<int>>, f: int)
    requires Grouped(positions, perFile) && f in perFile && forall p :: p in positions ==> IsPos(sig, p)
    ensures perFile[f] != [] && Distinct(perFile[f])
    ensures forall i :: i in perFile[f] ==> IsWindow(sig, f, i)
  {
    forall i | i in perFile[f] ensures IsWindow(sig, f, i) {
      PositionOf(f, i);
      assert IsPos(sig, Position(f, i));
    }
  }

  lemma SortKeepsWindows(s: seq<int>)
    requires Distinct(s) && s != []
    ensures SortIndices(s) != []
    ensures forall l :: Windowed(SortIndices(s), l) <==> Windowed(s, l)
  {
    hide SortIndices;
    var r := SortIndices(s);
    assert s[0] in r;
    forall l ensures Windowed(r, l) <==> Windowed(s, l) {
      if Windowed(s, l) {
        var k :| 0 <= k < |s| && InWindow(s[k], l);
        assert s[k] in r;
      }
      if Windowed(r, l) {
        var k :| 0 <= k < |r| && InWindow(r[k], l);
        assert r[k] in s;
      }
    }
  }

  lemma ClusterLines(sig: Files, positions: seq<int>, perFile: map<int, seq<int>>, order: seq<int>, regions: seq<Region>)
    requires Grouped(positions, perFile) && Ordered(order, perFile)
    requires Partial(sig, perFile, order, |order|, regions)
    ensures forall f, l :: InRegions(regions, f, l) <==> InCluster(positions, f, l)
  {
    assert order[..|order|] == order;
    forall f, l ensures InRegions(regions, f, l) <==> InCluster(positions, f, l) {
      hide InRegions;
      assert InRegions(regions, f, l) <==> f in order && Windowed(perFile[f], l);
      FileLines(positions, perFile, f, l);
    }
  }

  lemma FileLines(positions: seq<int>, perFile: map<int, seq<int>>, f: int, l: int)
    requires Grouped(positions, perFile)
    ensures InCluster(positions, f, l) <==> f in perFile && Windowed(perFile[f], l)
  {
    hide Position;
    if f in perFile && Windowed(perFile[f], l) {
      var k :| 0 <= k < |perFile[f]| && InWindow(perFile[f][k], l);
      var i := perFile[f][k];
      assert i in perFile[f];
      PositionOf(f, i);
      assert Position(f, i) in positions;
    }
    if InCluster(positions, f, l) {
      var k :| 0 <= k < |positions| && positions[k] / POS == f && InWindow(positions[k] % POS, l);
      assert positions[k] in positions;
    }
  }

  // ---------------------------------------------------------------- the report

  predicate Falling(cs: seq<Clone>) {
    forall i, j :: 0 <= i < j < |cs| ==> cs[i].sigLines >= cs[j].sigLines
  }

  function InsertClone(cs: seq<Clone>, c: Clone): (r: seq<Clone>)
    requires Falling(cs)
    ensures Falling(r) && forall x :: x in r <==> x in cs || x == c
  {
    if cs == [] then [c]
    else
      var n := |cs| - 1;
      assert forall x :: x in cs <==> x in cs[..n] || x == cs[n];
      if cs[n].sigLines >= c.sigLines then cs + [c]
      else
        var rest := InsertClone(cs[..n], c);
        assert forall x :: x in cs[..n] ==> x.sigLines >= cs[n].sigLines;
        assert forall k :: 0 <= k < |rest| ==> rest[k] in rest && rest[k].sigLines >= cs[n].sigLines;
        rest + [cs[n]]
  }

  lemma {:induction false} InsertCloneKeeps(cs: seq<Clone>, c: Clone)
    requires Falling(cs)
    ensures multiset(InsertClone(cs, c)) == multiset(cs) + multiset{c}
  {
    if cs != [] && cs[|cs| - 1].sigLines < c.sigLines {
      var n := |cs| - 1;
      InsertCloneKeeps(cs[..n], c);
      LastOfBag(cs);
      assert InsertClone(cs, c) == InsertClone(cs[..n], c) + [cs[n]];
    }
  }

  lemma LastOfBag(cs: seq<Clone>)
    requires cs != []
    ensures multiset(cs) == multiset(cs[..|cs| - 1]) + multiset{cs[|cs| - 1]}
  {
    assert cs == cs[..|cs| - 1] + [cs[|cs| - 1]];
  }

  /** The clones among some descriptions: those with at least two regions. */
  function Multiple(cs: seq<Clone>): seq<Clone> {
    if cs == [] then []
    else
      var n := |cs| - 1;
      Multiple(cs[..n]) + if |cs[n].regions| >= 2 then [cs[n]] else []
  }

  lemma MultipleNext(cs: seq<Clone>, c: Clone)
    ensures Multiple(cs + [c]) == Multiple(cs) + if |c.regions| >= 2 then [c] else []
  {
    assert (cs + [c])[..|cs|] == cs;
  }

  /**
   * Each connected component is described once, and the descriptions with at least two regions are
   * the result, largest first.
   */
  method DetectClones(sig: Files, hash: string -> int)
    returns (results: seq<Clone>, ghost clusters: map<int, seq<int>>, ghost order: seq<int>, ghost described: seq<Clone>)
    requires Small(sig)
    ensures Components(sig, hash, clusters)
    ensures Distinct(order) && forall k :: k in clusters <==> k in order
    ensures |described| == |order|
    ensures forall n :: 0 <= n < |order| ==> order[n] in clusters && Describes(sig, clusters[order[n]], described[n])
    ensures Falling(results) && multiset(results) == multiset(Multiple(described))
  {
    hide Components, Describes;
    var roots, found := FindClusters(sig, hash);
    clusters, order := found, roots;
    results, described := [], [];
    var n := 0;
    while n < |roots|
      invariant 0 <= n <= |roots| == |order| && |described| == n
      invariant forall k :: 0 <= k < n ==> Describes(sig, clusters[order[k]], described[k])
      invariant Falling(results) && multiset(results) == multiset(Multiple(described))
    {
      ClusterWindows(sig, hash, clusters, roots[n]);
      var c := DescribeCluster(sig, found[roots[n]]);
      MultipleNext(described, c);
      described := described + [c];
      if |c.regions| >= 2 {
        InsertCloneKeeps(results, c);
        results := InsertClone(results, c);
      }
      n := n + 1;
    }
  }

  lemma ClusterWindows(sig: Files, hash: string -> int, clusters: map<int, seq<int>>, k: int)
    requires Components(sig, hash, clusters) && k in clusters
    ensures Distinct(clusters[k]) && forall p :: p in clusters[k] ==> IsPos(sig, p)
  {
    hide HashAt, Connected;
    assert forall p :: Matched(sig, hash, p) ==> IsPos(sig, p);
  }
}
