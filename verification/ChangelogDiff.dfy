/** Which added list items of a diff may be promoted to [Unreleased]. */
module ChangelogDiff {
  import opened Wrappers
  import opened Text
  import opened Changelog

  /** A hunk is known by its file and its number there; an item by its file and its trimmed text. */
  type Hunk = (string, nat)
  type ItemKey = (string, string)

  datatype Change = Change(path: string, line: nat, text: string, hunk: Hunk)

  function KeyOf(c: Change): ItemKey {
    (c.path, TrimEnd(TrimStart(c.text)))
  }

  function KeysOf(cs: seq<Change>): seq<ItemKey> {
    seq(|cs|, i requires 0 <= i < |cs| => KeyOf(cs[i]))
  }

  function HunksOf(cs: seq<Change>): seq<Hunk> {
    seq(|cs|, i requires 0 <= i < |cs| => cs[i].hunk)
  }

  // ---------------------------------------------------------------- reading the diff

  const FILE := "+++ b/"
  const GIT := "diff --git "

  /** The new-file line a hunk header announces; `None` for a line that is no header. */
  type HeaderReader = string -> Option<nat>

  /** File in force before line `n`. */
  function PathAt(lines: seq<string>, n: nat): string
    requires n <= |lines|
  {
    if n == 0 then ""
    else if FILE <= lines[n - 1] then lines[n - 1][|FILE|..]
    else if GIT <= lines[n - 1] then ""
    else PathAt(lines, n - 1)
  }

  predicate IsHeader(header: HeaderReader, line: string) {
    !(FILE <= line) && !(GIT <= line) && header(line).Some?
  }

  /** Number of the hunk in force before line `n`, -1 outside hunks. */
  function HunkAt(header: HeaderReader, lines: seq<string>, n: nat): (h: int)
    requires n <= |lines|
    ensures h >= -1
  {
    if n == 0 then -1
    else if !(FILE <= lines[n - 1]) && GIT <= lines[n - 1] then -1
    else HunkAt(header, lines, n - 1) + if IsHeader(header, lines[n - 1]) then 1 else 0
  }

  /** Line `n` belongs to a hunk's body. */
  predicate InBody(header: HeaderReader, lines: seq<string>, n: nat)
    requires n < |lines|
  {
    !(FILE <= lines[n]) && !(GIT <= lines[n]) && header(lines[n]).None?
    && PathAt(lines, n) != "" && HunkAt(header, lines, n) >= 0 && lines[n] != ""
  }

  /** Line `n` is a line of the new file. */
  predicate IsNew(header: HeaderReader, lines: seq<string>, n: nat)
    requires n < |lines|
  {
    InBody(header, lines, n) && (lines[n][0] == '+' || lines[n][0] == ' ')
  }

  function LineAt(header: HeaderReader, lines: seq<string>, n: nat): nat
    requires n <= |lines|
  {
    if n == 0 then 0
    else if IsHeader(header, lines[n - 1]) then header(lines[n - 1]).value
    else LineAt(header, lines, n - 1) + if IsNew(header, lines, n - 1) then 1 else 0
  }

  function ChangeAt(header: HeaderReader, lines: seq<string>, n: nat): Change
    requires n < |lines| && InBody(header, lines, n)
  {
    Change(PathAt(lines, n), LineAt(header, lines, n), lines[n][1..], (PathAt(lines, n), HunkAt(header, lines, n)))
  }

  /** Added (`+`) or removed (`-`) list items among the first `n` lines. */
  function Changes(header: HeaderReader, lines: seq<string>, n: nat, marker: char): seq<Change>
    requires n <= |lines|
  {
    if n == 0 then []
    else
      var before := Changes(header, lines, n - 1, marker);
      if InBody(header, lines, n - 1) && lines[n - 1][0] == marker && IsItem(lines[n - 1][1..])
      then before + [ChangeAt(header, lines, n - 1)]
      else before
  }

  const ADDED_RELEASE := "+## ["

  /** Hunks that add a release heading. */
  function ReleaseHunks(header: HeaderReader, lines: seq<string>, n: nat): set<Hunk>
    requires n <= |lines|
  {
    if n == 0 then {}
    else
      ReleaseHunks(header, lines, n - 1)
      + if InBody(header, lines, n - 1) && ADDED_RELEASE <= lines[n - 1]
        then {ChangeAt(header, lines, n - 1).hunk} else {}
  }

  method ReadDiff(header: HeaderReader, lines: seq<string>)
    returns (candidates: seq<Change>, removals: seq<Change>, releases: set<Hunk>)
    ensures candidates == Changes(header, lines, |lines|, '+')
    ensures removals == Changes(header, lines, |lines|, '-')
    ensures releases == ReleaseHunks(header, lines, |lines|)
  {
    hide IsItem;
    candidates, removals, releases := [], [], {};
    var currentPath := "";
    var newLine: nat := 0;
    var hunkIndex := -1;
    var n := 0;
    while n < |lines|
      invariant 0 <= n <= |lines|
      invariant currentPath == PathAt(lines, n) && hunkIndex == HunkAt(header, lines, n)
      invariant newLine == LineAt(header, lines, n)
      invariant candidates == Changes(header, lines, n, '+') && removals == Changes(header, lines, n, '-')
      invariant releases == ReleaseHunks(header, lines, n)
    {
      var raw := lines[n];
      if FILE <= raw {
        currentPath := raw[|FILE|..];
      } else if GIT <= raw {
        currentPath := "";
        hunkIndex := -1;
      } else if header(raw).Some? {
        newLine := header(raw).value;
        hunkIndex := hunkIndex + 1;
      } else if currentPath != "" && hunkIndex >= 0 && raw != "" {
        var marker, text := raw[0], raw[1..];
        var hunk := (currentPath, hunkIndex);
        if marker == '+' {
          if ADDED_RELEASE <= raw {
            releases := releases + {hunk};
          }
          if IsItem(text) {
            candidates := candidates + [Change(currentPath, newLine, text, hunk)];
          }
          newLine := newLine + 1;
        } else if marker == '-' {
          if IsItem(text) {
            removals := removals + [Change(currentPath, newLine, text, hunk)];
          }
        } else if marker == ' ' {
          newLine := newLine + 1;
        }
      }
      n := n + 1;
    }
  }

  // ---------------------------------------------------------------- pairing

  /** One flag per element: fewer equal elements before it than there are partners for its key. */
  function Pairs<K(==)>(keys: seq<K>, partners: multiset<K>): seq<bool> {
    seq(|keys|, j requires 0 <= j < |keys| => multiset(keys[..j])[keys[j]] < partners[keys[j]])
  }

  /** The elements whose flag has the given value. */
  function Keep<T>(xs: seq<T>, flags: seq<bool>, value: bool): seq<T>
    requires |xs| == |flags|
  {
    if xs == [] then []
    else
      var n := |xs| - 1;
      var before := Keep(xs[..n], flags[..n], value);
      if flags[n] == value then before + [xs[n]] else before
  }

  lemma PairsPrefix<K>(keys: seq<K>, partners: multiset<K>, n: nat)
    requires n <= |keys|
    ensures Pairs(keys[..n], partners) == Pairs(keys, partners)[..n]
  {
    assert forall j :: 0 <= j < n ==> keys[..n][..j] == keys[..j];
  }

  /** Greedy matching pairs as many as both sides allow. */
  lemma {:induction false} PairedCount<K>(keys: seq<K>, partners: multiset<K>, k: K)
    ensures multiset(Keep(keys, Pairs(keys, partners), true))[k]
            == if multiset(keys)[k] <= partners[k] then multiset(keys)[k] else partners[k]
    decreases |keys|
  {
    if keys != [] {
      var n := |keys| - 1;
      PairedCount(keys[..n], partners, k);
      PairsPrefix(keys, partners, n);
      assert keys == keys[..n] + [keys[n]];
    }
  }

  /** Among equal elements, the number of earlier ones tells them apart. */
  lemma {:induction false} EarlierOne<K>(xs: seq<K>, r: nat, k: K, c: nat)
    requires r <= |xs| && c < multiset(xs[..r])[k]
    ensures exists i :: 0 <= i < r && xs[i] == k && multiset(xs[..i])[k] == c
    decreases r
  {
    if r > 0 {
      assert xs[..r] == xs[..r - 1] + [xs[r - 1]];
      if xs[r - 1] != k || multiset(xs[..r - 1])[k] != c {
        EarlierOne(xs, r - 1, k, c);
      }
    }
  }

  lemma {:induction false} RankGrows<K>(xs: seq<K>, i: nat, r: nat)
    requires i < r <= |xs|
    ensures multiset(xs[..i])[xs[i]] < multiset(xs[..r])[xs[i]]
  {
    assert xs[..r] == xs[..i] + [xs[i]] + xs[i + 1..r];
  }

  /** Taking the first free partner marks exactly the next one by rank. */
  lemma TakePartner<K>(removed: seq<K>, used: seq<K>, k: K, r: nat)
    requires r < |removed| && removed[r] == k
    requires var flags := Pairs(removed, multiset(used));
             !flags[r] && forall i :: 0 <= i < r && removed[i] == k ==> flags[i]
    ensures Pairs(removed, multiset(used + [k])) == Pairs(removed, multiset(used))[r := true]
    ensures multiset(used)[k] < multiset(removed)[k]
  {
    var c := multiset(used)[k];
    if multiset(removed[..r])[k] > c {
      EarlierOne(removed, r, k, c);
    }
    RankGrows(removed, r, |removed|);
    assert removed[..|removed|] == removed;
    forall j | 0 <= j < |removed| && removed[j] == k && j != r ensures multiset(removed[..j])[k] != c {
      if j < r { RankGrows(removed, j, r); } else { RankGrows(removed, r, j); }
    }
  }

  lemma NoPartner<K>(removed: seq<K>, used: seq<K>, k: K)
    requires forall i :: 0 <= i < |removed| && removed[i] == k ==> Pairs(removed, multiset(used))[i]
    ensures Pairs(removed, multiset(used + [k])) == Pairs(removed, multiset(used))
    ensures multiset(used)[k] >= multiset(removed)[k]
  {
    if multiset(used)[k] < multiset(removed)[k] {
      assert removed[..|removed|] == removed;
      EarlierOne(removed, |removed|, k, multiset(used)[k]);
    }
  }

  method FirstFree(removed: seq<ItemKey>, taken: seq<bool>, k: ItemKey) returns (r: nat)
    requires |removed| == |taken|
    ensures r <= |removed| && (r < |removed| ==> removed[r] == k && !taken[r])
    ensures forall i :: 0 <= i < r && removed[i] == k ==> taken[i]
  {
    r := 0;
    while r < |removed| && !(removed[r] == k && !taken[r])
      invariant 0 <= r <= |removed|
      invariant forall i :: 0 <= i < r && removed[i] == k ==> taken[i]
    {
      r := r + 1;
    }
  }

  lemma NoneTaken(removed: seq<ItemKey>, flags: seq<bool>)
    requires |flags| == |removed| && forall i :: 0 <= i < |flags| ==> !flags[i]
    ensures flags == Pairs(removed, multiset([]))
  {
  }

  lemma NextPair(added: seq<ItemKey>, partners: multiset<ItemKey>, j: nat)
    requires j < |added|
    ensures Pairs(added, partners)[..j + 1]
            == Pairs(added, partners)[..j] + [multiset(added[..j])[added[j]] < partners[added[j]]]
  {
  }

  method PairUp(added: seq<ItemKey>, removed: seq<ItemKey>) returns (addedPaired: seq<bool>, removedPaired: seq<bool>)
    ensures addedPaired == Pairs(added, multiset(removed))
    ensures removedPaired == Pairs(removed, multiset(added))
  {
    hide Pairs;
    addedPaired := [];
    removedPaired := seq(|removed|, _ => false);
    NoneTaken(removed, removedPaired);
    PairsLength(added, multiset(removed));
    assert added[..0] == [];
    var j := 0;
    while j < |added|
      invariant 0 <= j <= |added|
      invariant addedPaired == Pairs(added, multiset(removed))[..j]
      invariant removedPaired == Pairs(removed, multiset(added[..j]))
    {
      var k := added[j];
      PairsLength(removed, multiset(added[..j]));
      var r := FirstFree(removed, removedPaired, k);
      assert added[..j + 1] == added[..j] + [k];
      NextPair(added, multiset(removed), j);
      if r < |removed| {
        TakePartner(removed, added[..j], k, r);
        removedPaired := removedPaired[r := true];
      } else {
        NoPartner(removed, added[..j], k);
      }
      addedPaired := addedPaired + [r < |removed|];
      j := j + 1;
    }
    assert added[..j] == added;
  }

  lemma PairsLength(keys: seq<ItemKey>, partners: multiset<ItemKey>)
    ensures |Pairs(keys, partners)| == |keys|
  {
  }

  // ---------------------------------------------------------------- promotion

  /** An unmatched added item is promotable once the hunk's unmatched removals are used up. */
  function Spared(hunks: seq<Hunk>, paired: seq<bool>, releases: set<Hunk>, renames: multiset<Hunk>): seq<bool>
    requires |hunks| == |paired|
  {
    seq(|hunks|, j requires 0 <= j < |hunks| =>
      !paired[j] && hunks[j] !in releases
      && multiset(Keep(hunks[..j], paired[..j], false))[hunks[j]] >= renames[hunks[j]])
  }

  lemma SparedPrefix(hunks: seq<Hunk>, paired: seq<bool>, releases: set<Hunk>, renames: multiset<Hunk>, n: nat)
    requires n <= |hunks| == |paired|
    ensures Spared(hunks[..n], paired[..n], releases, renames) == Spared(hunks, paired, releases, renames)[..n]
  {
    assert forall j :: 0 <= j < n ==> hunks[..n][..j] == hunks[..j] && paired[..n][..j] == paired[..j];
  }

  /** In every hunk exactly the surplus of unmatched additions over unmatched removals is promotable. */
  lemma {:induction false} SparedCount(
      hunks: seq<Hunk>, paired: seq<bool>, releases: set<Hunk>, renames: multiset<Hunk>, h: Hunk)
    requires |hunks| == |paired|
    ensures var unmatched := multiset(Keep(hunks, paired, false))[h];
            multiset(Keep(hunks, Spared(hunks, paired, releases, renames), true))[h]
            == if h in releases || unmatched <= renames[h] then 0 else unmatched - renames[h]
    decreases |hunks|
  {
    if hunks != [] {
      var n := |hunks| - 1;
      SparedCount(hunks[..n], paired[..n], releases, renames, h);
      SparedPrefix(hunks, paired, releases, renames, n);
    }
  }

  function Count(m: map<Hunk, nat>, h: Hunk): nat {
    if h in m then m[h] else 0
  }

  method CountUnpaired(hunks: seq<Hunk>, paired: seq<bool>) returns (m: map<Hunk, nat>)
    requires |hunks| == |paired|
    ensures forall h :: Count(m, h) == multiset(Keep(hunks, paired, false))[h]
  {
    m := map[];
    var i := 0;
    while i < |hunks|
      invariant 0 <= i <= |hunks|
      invariant forall h :: Count(m, h) == multiset(Keep(hunks[..i], paired[..i], false))[h]
    {
      assert hunks[..i + 1][..i] == hunks[..i] && paired[..i + 1][..i] == paired[..i];
      if !paired[i] {
        m := m[hunks[i] := Count(m, hunks[i]) + 1];
      }
      i := i + 1;
    }
    assert hunks[..i] == hunks && paired[..i] == paired;
  }

  /** Lines chosen in file `p`. */
  function LinesIn(cs: seq<Change>, chosen: seq<bool>, p: string): set<nat>
    requires |cs| == |chosen|
  {
    set i | 0 <= i < |cs| && chosen[i] && cs[i].path == p :: cs[i].line
  }

  predicate Reports(result: map<string, set<nat>>, cs: seq<Change>, chosen: seq<bool>)
    requires |cs| == |chosen|
  {
    (forall p :: p in result ==> result[p] != {} && result[p] == LinesIn(cs, chosen, p))
    && forall i :: 0 <= i < |cs| && chosen[i] ==> cs[i].path in result
  }

  method ChooseLines(cs: seq<Change>, paired: seq<bool>, releases: set<Hunk>, unpairedRemovals: map<Hunk, nat>,
                     ghost renames: multiset<Hunk>)
    returns (result: map<string, set<nat>>)
    requires |cs| == |paired| && forall h :: Count(unpairedRemovals, h) == renames[h]
    ensures Reports(result, cs, Spared(HunksOf(cs), paired, releases, renames))
  {
    hide Keep;
    var counts := unpairedRemovals;
    ghost var hunks := HunksOf(cs);
    ghost var chosen := Spared(hunks, paired, releases, renames);
    result := map[];
    var j := 0;
    KeepNone(hunks[..0], paired[..0]);
    while j < |cs|
      invariant 0 <= j <= |cs|
      invariant forall h :: h !in releases ==>
                  var seen := multiset(Keep(hunks[..j], paired[..j], false))[h];
                  Count(counts, h) == if seen <= renames[h] then renames[h] - seen else 0
      invariant Reports(result, cs[..j], chosen[..j])
    {
      var c := cs[j];
      KeepNext(hunks, paired, j);
      AddLine(result, cs, chosen, j);
      if !paired[j] && c.hunk !in releases {
        if Count(counts, c.hunk) > 0 {
          counts := counts[c.hunk := counts[c.hunk] - 1];
        } else {
          result := result[c.path := (if c.path in result then result[c.path] else {}) + {c.line}];
        }
      }
      j := j + 1;
    }
    assert cs[..j] == cs && chosen[..j] == chosen;
  }

  lemma KeepNone(hunks: seq<Hunk>, paired: seq<bool>)
    requires hunks == [] && paired == []
    ensures Keep(hunks, paired, false) == []
  {
  }

  lemma KeepNext(hunks: seq<Hunk>, paired: seq<bool>, j: nat)
    requires j < |hunks| == |paired|
    ensures Keep(hunks[..j + 1], paired[..j + 1], false)
            == Keep(hunks[..j], paired[..j], false) + if paired[j] then [] else [hunks[j]]
  {
    assert hunks[..j + 1][..j] == hunks[..j] && paired[..j + 1][..j] == paired[..j];
  }

  lemma AddLine(result: map<string, set<nat>>, cs: seq<Change>, chosen: seq<bool>, j: nat)
    requires j < |cs| == |chosen| && Reports(result, cs[..j], chosen[..j])
    ensures var c := cs[j];
            Reports(if chosen[j] then result[c.path := (if c.path in result then result[c.path] else {}) + {c.line}]
                    else result, cs[..j + 1], chosen[..j + 1])
  {
    var c := cs[j];
    forall p ensures LinesIn(cs[..j + 1], chosen[..j + 1], p)
                     == LinesIn(cs[..j], chosen[..j], p) + if chosen[j] && c.path == p then {c.line} else {} {
      forall l | l in LinesIn(cs[..j], chosen[..j], p) ensures l in LinesIn(cs[..j + 1], chosen[..j + 1], p) {
        var i :| 0 <= i < j && chosen[..j][i] && cs[..j][i].path == p && cs[..j][i].line == l;
        assert chosen[..j + 1][i] && cs[..j + 1][i].line == l;
      }
      assert cs[..j + 1][j] == c && chosen[..j + 1][j] == chosen[j];
    }
    if c.path !in result {
      assert LinesIn(cs[..j], chosen[..j], c.path) == {};
    }
    assert forall i :: 0 <= i < j ==> cs[..j + 1][i] == cs[..j][i] && chosen[..j + 1][i] == chosen[..j][i];
  }

  // ---------------------------------------------------------------- the whole collector

  function Matched(header: HeaderReader, lines: seq<string>): (r: seq<bool>)
    ensures |r| == |Changes(header, lines, |lines|, '+')|
  {
    Pairs(KeysOf(Changes(header, lines, |lines|, '+')), multiset(KeysOf(Changes(header, lines, |lines|, '-'))))
  }

  /** Hunks of the removals that found no equal addition, as a multiset. */
  function Renames(header: HeaderReader, lines: seq<string>): multiset<Hunk> {
    var added, removed := Changes(header, lines, |lines|, '+'), Changes(header, lines, |lines|, '-');
    multiset(Keep(HunksOf(removed), Pairs(KeysOf(removed), multiset(KeysOf(added))), false))
  }

  function Promotable(header: HeaderReader, lines: seq<string>): (r: seq<bool>)
    ensures |r| == |Changes(header, lines, |lines|, '+')|
  {
    Spared(HunksOf(Changes(header, lines, |lines|, '+')), Matched(header, lines),
           ReleaseHunks(header, lines, |lines|), Renames(header, lines))
  }

  /** Only CR LF becomes LF here. */
  function UnixLines(diffText: string): string {
    if diffText == "" then ""
    else if |diffText| > 1 && diffText[0] == '\r' && diffText[1] == '\n' then "\n" + UnixLines(diffText[2..])
    else [diffText[0]] + UnixLines(diffText[1..])
  }

  method CollectPromotableAddedItemLines(header: HeaderReader, diffText: string)
    returns (result: map<string, set<nat>>)
    ensures var lines := Split(UnixLines(diffText));
            Reports(result, Changes(header, lines, |lines|, '+'), Promotable(header, lines))
  {
    hide Changes, ReleaseHunks, Pairs, Keep, Spared, Split, UnixLines, Reports;
    var lines := Split(UnixLines(diffText));
    var candidates, removals, releases := ReadDiff(header, lines);
    var paired, removalPaired := PairUp(KeysOf(candidates), KeysOf(removals));
    PairsLength(KeysOf(candidates), multiset(KeysOf(removals)));
    PairsLength(KeysOf(removals), multiset(KeysOf(candidates)));
    var unpaired := CountUnpaired(HunksOf(removals), removalPaired);
    result := ChooseLines(candidates, paired, releases, unpaired, Renames(header, lines));
  }

  /** Every candidate is an added list item of some hunk body, under the line number in force there. */
  lemma {:induction false} CandidateIsAdded(header: HeaderReader, lines: seq<string>, n: nat, c: Change)
    requires n <= |lines| && c in Changes(header, lines, n, '+')
    ensures exists i :: 0 <= i < n && InBody(header, lines, i) && lines[i][0] == '+' && IsItem(lines[i][1..])
                        && c == ChangeAt(header, lines, i)
  {
    if c in Changes(header, lines, n - 1, '+') {
      CandidateIsAdded(header, lines, n - 1, c);
    } else {
      assert InBody(header, lines, n - 1) && c == ChangeAt(header, lines, n - 1);
    }
  }

  /** Per hunk: the surplus of unmatched additions over unmatched removals, or nothing beside a new release. */
  lemma HunkCount(header: HeaderReader, lines: seq<string>, h: Hunk)
    ensures var hunks := HunksOf(Changes(header, lines, |lines|, '+'));
            var unmatched := multiset(Keep(hunks, Matched(header, lines), false))[h];
            multiset(Keep(hunks, Promotable(header, lines), true))[h]
            == if h in ReleaseHunks(header, lines, |lines|) || unmatched <= Renames(header, lines)[h] then 0
               else unmatched - Renames(header, lines)[h]
  {
    hide Changes, ReleaseHunks, Keep, Spared;
    SparedCount(HunksOf(Changes(header, lines, |lines|, '+')), Matched(header, lines),
                ReleaseHunks(header, lines, |lines|), Renames(header, lines), h);
  }

  /** Per file and item text, as many additions are matched as there are equal removals for them. */
  lemma MatchedCount(header: HeaderReader, lines: seq<string>, k: ItemKey)
    ensures var added := KeysOf(Changes(header, lines, |lines|, '+'));
            var removed := KeysOf(Changes(header, lines, |lines|, '-'));
            multiset(Keep(added, Matched(header, lines), true))[k]
            == if multiset(added)[k] <= multiset(removed)[k] then multiset(added)[k] else multiset(removed)[k]
  {
    hide Changes, Keep;
    PairedCount(KeysOf(Changes(header, lines, |lines|, '+')),
                multiset(KeysOf(Changes(header, lines, |lines|, '-'))), k);
  }
}
