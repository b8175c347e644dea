/** Whole release sections: dropping duplicates, promoting items to [Unreleased], merging headings. */
module ChangelogSections {
  import opened Wrappers
  import opened Text
  import opened Changelog
  import opened ChangelogItems
  import opened ChangelogFix
  import opened ChangelogRoundTrip

  predicate SoundSub(s: Subsection) {
    GoodTitle(s.title) && LinesFrom(s.lines, PlainLine)
  }

  predicate SoundHead(s: Section) {
    IsRelease(s.heading) && OneLine(s.heading) && s.title == ReleaseTitle(s.heading)
    && LinesFrom(s.leading, PlainLine)
  }

  predicate SoundSubs(subs: seq<Subsection>) {
    forall x :: x in subs ==> SoundSub(x)
  }

  predicate Sound(s: Section) {
    SoundHead(s) && SoundSubs(s.subsections)
  }

  predicate SameHead(s: Section, t: Section) {
    s.heading == t.heading && s.title == t.title && s.leading == t.leading
  }

  // ---------------------------------------------------------------- cutting items out of a section

  ghost predicate CutFrom(s: Section, t: Section, chosen: Item -> bool, n: nat)
    requires n <= |s.subsections|
  {
    SameHead(s, t) && |t.subsections| == |s.subsections|
    && (forall i :: 0 <= i < n ==>
          t.subsections[i] == Subsection(s.subsections[i].title, Cut(s.subsections[i].lines, chosen)))
    && (forall i :: n <= i < |s.subsections| ==> t.subsections[i] == s.subsections[i])
  }

  /** The section without the chosen items. */
  function CutAll(s: Section, chosen: Item -> bool): Section {
    s.(subsections := seq(|s.subsections|, i requires 0 <= i < |s.subsections| =>
                            Subsection(s.subsections[i].title, Cut(s.subsections[i].lines, chosen))))
  }

  lemma CutIsAll(s: Section, t: Section, chosen: Item -> bool)
    requires CutFrom(s, t, chosen, |s.subsections|)
    ensures t == CutAll(s, chosen)
  {
    hide Cut;
    assert t.subsections == CutAll(s, chosen).subsections;
  }

  lemma CutSection(s: Section, t: Section, chosen: Item -> bool)
    requires Ordered(s) && CutFrom(s, t, chosen, |s.subsections|)
    ensures SectionEntries(t) == SectionSift(chosen, false)(s) == SectionSift(chosen, false)(t)
    ensures SectionSift(chosen, true)(t) == {}
    ensures Ordered(t) && (MergeSafe(s.subsections) ==> MergeSafe(t.subsections)) && (Sound(s) ==> Sound(t))
  {
    hide Cut, Increasing, Itemized, NoItemsIn, Items, Select, SubEntries, Tag, GoodTitle, PlainLine, SoundHead;
    var subs, cut := s.subsections, t.subsections;
    forall i | 0 <= i < |subs|
      ensures SubEntries(cut[i]) == Sift(chosen, false)(subs[i]) == Sift(chosen, false)(cut[i])
      ensures Sift(chosen, true)(cut[i]) == {} && Increasing(cut[i].lines)
      ensures Itemized(Texts(subs[i].lines)) ==> Itemized(Texts(cut[i].lines))
      ensures NoItemsIn(subs[i]) ==> NoItemsIn(cut[i])
      ensures forall l :: l in cut[i].lines ==> l in subs[i].lines
    {
      assert subs[i] in subs;
      CutSub(subs[i], chosen);
    }
    UnionSame(cut, subs, SubEntries, Sift(chosen, false));
    UnionSame(cut, subs, Sift(chosen, false), Sift(chosen, false));
    UnionEmpty(cut, Sift(chosen, true));
    if Sound(s) {
      assert SoundHead(t) by { SoundHeadOf(s, t); }
      forall x | x in cut ensures SoundSub(x) {
        var i :| 0 <= i < |cut| && cut[i] == x;
        assert subs[i] in subs;
      }
    }
  }

  /** Where nothing is chosen, nothing is cut. */
  lemma CutNothing(s: Section, t: Section, chosen: Item -> bool)
    requires CutFrom(s, t, chosen, |s.subsections|) && SectionSift(chosen, true)(s) == {}
    ensures t == s
  {
    hide Items, Select, Tag, KeySet, Removed, LineRange, Bodies;
    forall i | 0 <= i < |s.subsections| ensures t.subsections[i] == s.subsections[i] {
      UnionAt(s.subsections, i, Sift(chosen, true));
      NoneChosen(s.subsections[i], chosen);
    }
    assert t.subsections == s.subsections;
  }

  lemma NoneChosen(s: Subsection, chosen: Item -> bool)
    requires Sift(chosen, true)(s) == {}
    ensures Cut(s.lines, chosen) == s.lines
  {
    hide Items;
    var picked := Select(Items(s.lines), chosen, true);
    if picked != [] { SomeChosen(s, chosen); }
    RemovedAllOrNone(s.lines, LineRange(picked));
  }

  lemma SomeChosen(s: Subsection, chosen: Item -> bool)
    requires Select(Items(s.lines), chosen, true) != []
    ensures Sift(chosen, true)(s) != {}
  {
    hide Items, Key;
    var picked := Select(Items(s.lines), chosen, true);
    assert Bodies(picked)[0] == picked[0].lines;
    assert (s.title, Key(picked[0].lines)) in Sift(chosen, true)(s);
  }

  lemma SoundHeadOf(s: Section, t: Section)
    requires SoundHead(s) && SameHead(s, t)
    ensures SoundHead(t)
  {
  }

  /** Drops the items whose key is among `keys`. */
  method DropItems(s: Section, keys: set<string>) returns (t: Section)
    ensures CutFrom(s, t, Repeated(keys), |s.subsections|)
  {
    hide Items, Select, Removed, LineRange, Key;
    t := s;
    var i := 0;
    while i < |s.subsections|
      invariant 0 <= i <= |s.subsections|
      invariant CutFrom(s, t, Repeated(keys), i)
    {
      var sub := s.subsections[i];
      var items := ParseItems(sub.lines);
      var duplicates := Select(items, Repeated(keys), true);
      var lines := Removed(sub.lines, LineRange(duplicates));
      t := t.(subsections := t.subsections[i := Subsection(sub.title, lines)]);
      i := i + 1;
    }
  }

  lemma {:induction false} SelectRepeated(items: seq<Item>, keys: set<string>)
    ensures KeySet(Bodies(Select(items, Repeated(keys), false))) == KeySet(Bodies(items)) - keys
  {
    if items != [] {
      SelectRepeated(items[1..], keys);
      KeySetCons(items[0], items[1..]);
      KeySetCons(items[0], Select(items[1..], Repeated(keys), false));
      assert items == [items[0]] + items[1..];
    }
  }

  function Except(entries: set<Entry>, keys: set<string>): set<Entry> {
    set e | e in entries && e.1 !in keys
  }

  lemma {:induction false} SiftRepeated(subs: seq<Subsection>, keys: set<string>)
    ensures UnionOf(subs, Sift(Repeated(keys), false)) == Except(UnionOf(subs, SubEntries), keys)
  {
    if subs != [] {
      SiftRepeated(subs[1..], keys);
      SubKeysOfItems(subs[0]);
      SelectRepeated(Items(subs[0].lines), keys);
    }
  }

  // ---------------------------------------------------------------- promotion

  function FindLast(subs: seq<Subsection>, title: string): (k: nat)
    ensures k <= |subs| && (k < |subs| ==> subs[k].title == title)
    ensures forall i :: 0 <= i < |subs| && (i > k || k == |subs|) ==> subs[i].title != title
  {
    if subs == [] then 0
    else
      var n := |subs| - 1;
      if subs[n].title == title then n
      else
        var k := FindLast(subs[..n], title);
        if k == n then |subs| else k
  }

  /** The section with the items in its last category of the title, or in a new one. */
  function Into(u: Section, title: string, items: seq<Item>): Section {
    var k := FindLast(u.subsections, title);
    if k == |u.subsections| then u.(subsections := u.subsections + [WithItems(Subsection(title, []), items)])
    else u.(subsections := u.subsections[k := WithItems(u.subsections[k], items)])
  }

  /** `getOrCreateSubsection`, then the promoted items. */
  method PromoteInto(u: Section, title: string, items: seq<Item>) returns (r: Section)
    requires Sound(u) && GoodTitle(title)
    requires forall i :: 0 <= i < |items| ==>
               Whole(items[i].lines) && forall l :: l in items[i].lines ==> PlainLine(l)
    ensures r == Into(u, title, items)
    ensures Sound(r) && SameHead(u, r) && (MergeSafe(u.subsections) ==> MergeSafe(r.subsections))
    ensures SectionEntries(r) == SectionEntries(u) + Tag(title, KeySet(Bodies(items)))
  {
    hide Itemized, NoItemsIn, Key, Whole, TrimBlank, GoodTitle, PlainLine, SoundHead, SubKeys, Tag;
    var subs := u.subsections;
    var k := FindLast(subs, title);
    BlankLine();
    if k == |subs| {
      var empty := Subsection(title, []);
      EmptySub(title);
      TagUnion(title, {}, KeySet(Bodies(items)));
      var target := PromoteItems(empty, items, PlainLine);
      r := u.(subsections := subs + [target]);
      UnionAppend(subs, [target], SubEntries);
      UnionOne(target, SubEntries);
    } else {
      assert subs[k] in subs;
      TagUnion(title, SubKeys(subs[k]), KeySet(Bodies(items)));
      var target := PromoteItems(subs[k], items, PlainLine);
      r := u.(subsections := subs[k := target]);
      UnionAt(subs, k, SubEntries);
      UnionUpdate(subs, k, target, SubEntries);
    }
    SoundHeadOf(u, r);
  }

  lemma TagUnion(title: string, a: set<string>, b: set<string>)
    ensures Tag(title, a + b) == Tag(title, a) + Tag(title, b)
    ensures Tag(title, {}) == {}
  {
  }

  lemma EmptySub(title: string)
    ensures SubKeys(Subsection(title, [])) == {} && Itemized(Texts([]))
  {
    assert Texts([]) == [];
  }

  const UNRELEASED_HEADING := "## [Unreleased]"

  function NewUnreleased(): Section {
    Section(UNRELEASED_HEADING, "Unreleased", [], [])
  }

  lemma NewUnreleasedIsSound()
    ensures Sound(NewUnreleased()) && MergeSafe(NewUnreleased().subsections) && SectionEntries(NewUnreleased()) == {}
  {
    hide IsRelease, ReleaseTitle, OneLine;
    UnreleasedHeading(UNRELEASED_HEADING);
  }

  lemma UnreleasedHeading(h: string)
    requires h == "## [Unreleased]"
    ensures IsRelease(h) && ReleaseTitle(h) == "Unreleased" && OneLine(h)
  {
    hide IndexOf;
    var rest := h[4..];
    assert h[..4] == "## [" && rest == "Unreleased]";
    IndexIs(rest, 10, ']');
    assert h[4..14] == "Unreleased";
  }

  lemma {:induction false} IndexIs(s: string, k: nat, c: char)
    requires k < |s| && s[k] == c && forall i :: 0 <= i < k ==> s[i] != c
    ensures IndexOf(s, c) == k
  {
    if k > 0 { IndexIs(s[1..], k - 1, c); }
  }

  lemma UnionOfNone<T, K>(f: T -> set<K>)
    ensures UnionOf([], f) == {}
  {
  }

  /** [Unreleased] with the promotable items of these categories; none while nothing needed it. */
  function Gained(subs: seq<Subsection>, u: Option<Section>, promotable: set<nat>): Option<Section> {
    if subs == [] then u
    else
      var n := |subs| - 1;
      var before := Gained(subs[..n], u, promotable);
      var items := Select(Items(subs[n].lines), Marked(promotable), true);
      if items == [] then before
      else Some(Into(if before.Some? then before.value else NewUnreleased(), subs[n].title, items))
  }

  lemma GainedNext(subs: seq<Subsection>, j: nat, u: Option<Section>, promotable: set<nat>)
    requires j < |subs|
    ensures var before, items := Gained(subs[..j], u, promotable), Select(Items(subs[j].lines), Marked(promotable), true);
            Gained(subs[..j + 1], u, promotable)
            == if items == [] then before
               else Some(Into(if before.Some? then before.value else NewUnreleased(), subs[j].title, items))
  {
    hide Into, Select, Items, NewUnreleased;
    assert subs[..j + 1][..j] == subs[..j];
  }

  /** Moves a section's promotable items to [Unreleased], which is created on first need. */
  method PromoteSection(s: Section, unreleased: Option<Section>, promotable: set<nat>)
    returns (t: Section, u: Option<Section>)
    requires Ordered(s) && Sound(s)
    requires unreleased.Some? ==> Sound(unreleased.value)
    ensures CutFrom(s, t, Marked(promotable), |s.subsections|) && u == Gained(s.subsections, unreleased, promotable)
    ensures unreleased.Some? ==> u.Some? && SameHead(unreleased.value, u.value)
    ensures u.None? ==> SectionSift(Marked(promotable), true)(s) == {}
    ensures SectionSift(Marked(promotable), true)(s) == {} ==> u == unreleased
    ensures u.Some? && unreleased.None? ==>
              SameHead(NewUnreleased(), u.value) && SectionSift(Marked(promotable), true)(s) != {}
    ensures u.Some? ==>
              Sound(u.value)
              && (unreleased.None? || MergeSafe(unreleased.value.subsections) ==> MergeSafe(u.value.subsections))
              && SectionEntries(u.value)
                 == (if unreleased.Some? then SectionEntries(unreleased.value) else {})
                    + SectionSift(Marked(promotable), true)(s)
  {
    hide Items, Select, Removed, LineRange, Key, Whole, TrimBlank, GoodTitle, PlainLine, SectionEntries, SoundHead,
         MergeSafe, NewUnreleased, UnionOf, Texts, Keys, Gained, Into;
    var chosen := Marked(promotable);
    UnionOfNone(Sift(chosen, true));
    NothingGained(unreleased, promotable);
    assert s.subsections[..0] == [];
    t, u := s, unreleased;
    var j := 0;
    while j < |s.subsections|
      invariant 0 <= j <= |s.subsections|
      invariant CutFrom(s, t, chosen, j) && u == Gained(s.subsections[..j], unreleased, promotable)
      invariant unreleased.Some? ==> u.Some? && SameHead(unreleased.value, u.value)
      invariant u.None? ==> UnionOf(s.subsections[..j], Sift(chosen, true)) == {}
      invariant UnionOf(s.subsections[..j], Sift(chosen, true)) == {} ==> u == unreleased
      invariant u.Some? && unreleased.None? ==>
                  SameHead(NewUnreleased(), u.value) && UnionOf(s.subsections[..j], Sift(chosen, true)) != {}
      invariant u.Some? ==>
                  Sound(u.value)
                  && (unreleased.None? || MergeSafe(unreleased.value.subsections) ==> MergeSafe(u.value.subsections))
                  && SectionEntries(u.value)
                     == (if unreleased.Some? then SectionEntries(unreleased.value) else {})
                        + UnionOf(s.subsections[..j], Sift(chosen, true))
    {
      var sub := s.subsections[j];
      assert sub in s.subsections;
      var all := ParseItems(sub.lines);
      var items := Select(all, chosen, true);
      assert s.subsections[..j + 1] == s.subsections[..j] + [sub];
      UnionAppend(s.subsections[..j], [sub], Sift(chosen, true));
      UnionOne(sub, Sift(chosen, true));
      GainedNext(s.subsections, j, unreleased, promotable);
      t := t.(subsections := t.subsections[j := Subsection(sub.title, Removed(sub.lines, LineRange(items)))]);
      if |items| > 0 {
        ItemsArePlain(sub, chosen);
        NewUnreleasedIsSound();
        var target := if u.Some? then u.value else NewUnreleased();
        assert (sub.title, Key(items[0].lines)) in Sift(chosen, true)(sub) by { assert Bodies(items)[0] == items[0].lines; }
        var promoted := PromoteInto(target, sub.title, items);
        u := Some(promoted);
      }
      j := j + 1;
    }
    assert s.subsections[..j] == s.subsections;
  }

  lemma NothingGained(u: Option<Section>, promotable: set<nat>)
    ensures Gained([], u, promotable) == u
  {
  }

  lemma ItemsArePlain(s: Subsection, chosen: Item -> bool)
    requires SoundSub(s)
    ensures forall i :: i in Select(Items(s.lines), chosen, true) ==>
              Whole(i.lines) && forall l :: l in i.lines ==> PlainLine(l)
  {
    SelectIsSubset(Items(s.lines), chosen);
    ItemsOfTexts(s.lines);
    ItemsAreWhole(Texts(s.lines));
    ItemLines(s.lines);
    LinesFromTexts(s.lines, PlainLine);
    assert forall l :: l in s.lines ==> PlainLine(l.text);
  }

  lemma {:induction false} SelectIsSubset(items: seq<Item>, chosen: Item -> bool)
    ensures forall i :: i in Select(items, chosen, true) ==> i in items
  {
    if items != [] { SelectIsSubset(items[1..], chosen); }
  }

  lemma {:induction false} ItemLines(lines: seq<Line>)
    ensures forall i :: i in Items(lines) ==> forall l :: l in i.lines ==> l in Texts(lines)
  {
    hide IsItem, TrimBlank, Gap;
    if lines == [] {
    } else if !IsItem(lines[0].text) {
      ItemLines(lines[1..]);
      assert forall l :: l in Texts(lines[1..]) ==> l in Texts(lines) by { assert Texts(lines)[1..] == Texts(lines[1..]); }
    } else {
      var k := BlockEnd(lines);
      ItemLines(lines[k..]);
      TrimBlankTrims(Texts(lines[..k]));
      assert Texts(lines)[..k] == Texts(lines[..k]) && Texts(lines)[k..] == Texts(lines[k..]);
    }
  }

  // ---------------------------------------------------------------- merging headings

  const TITLES := ["Breaking Changes", "Added", "Changed", "Fixed", "Removed"]

  function TitleOrder(title: string): nat {
    IndexOf(TITLES, title)
  }

  predicate SortedBy(subs: seq<Subsection>, rank: string -> nat) {
    forall i, j :: 0 <= i < j < |subs| ==> rank(subs[i].title) <= rank(subs[j].title)
  }

  predicate DistinctTitles(subs: seq<Subsection>) {
    forall i, j :: 0 <= i < j < |subs| ==> subs[i].title != subs[j].title
  }

  function InsertBy(subs: seq<Subsection>, s: Subsection, rank: string -> nat): (r: seq<Subsection>)
    requires SortedBy(subs, rank)
    ensures SortedBy(r, rank)
    ensures forall x :: x in r ==> x in subs || x == s
    decreases |subs|
  {
    var n := |subs|;
    if n == 0 || rank(subs[n - 1].title) <= rank(s.title) then subs + [s]
    else
      var rest := InsertBy(subs[..n - 1], s, rank);
      assert forall x :: x in rest ==> rank(x.title) <= rank(subs[n - 1].title);
      rest + [subs[n - 1]]
  }

  lemma {:induction false} InsertIsPermutation(subs: seq<Subsection>, s: Subsection, rank: string -> nat)
    requires SortedBy(subs, rank)
    ensures multiset(InsertBy(subs, s, rank)) == multiset(subs) + multiset{s}
    decreases |subs|
  {
    if InsertBy(subs, s, rank) != subs + [s] {
      var n := |subs| - 1;
      InsertIsPermutation(subs[..n], s, rank);
      assert subs == subs[..n] + [subs[n]];
    }
  }

  /** A stable sort. */
  function SortBy(subs: seq<Subsection>, rank: string -> nat): (r: seq<Subsection>)
    ensures SortedBy(r, rank) && multiset(r) == multiset(subs)
    decreases |subs|
  {
    if subs == [] then []
    else
      var n := |subs| - 1;
      assert subs == subs[..n] + [subs[n]];
      InsertIsPermutation(SortBy(subs[..n], rank), subs[n], rank);
      InsertBy(SortBy(subs[..n], rank), subs[n], rank)
  }

  predicate NoBlank(subs: seq<Subsection>) {
    forall s :: s in subs ==> TrimBlank(Texts(s.lines)) != []
  }

  function Titles(subs: seq<Subsection>): seq<string> {
    seq(|subs|, i requires 0 <= i < |subs| => subs[i].title)
  }

  /** The titles of the categories that hold anything, in order of first appearance. */
  function FirstTitles(subs: seq<Subsection>): seq<string> {
    if subs == [] then []
    else
      var n := |subs| - 1;
      var before := FirstTitles(subs[..n]);
      if Compact(Texts(subs[n].lines)) == [] || subs[n].title in before then before else before + [subs[n].title]
  }

  /** The items of all categories of a title, in order. */
  function ItemsUnder(subs: seq<Subsection>, title: string): seq<seq<string>> {
    if subs == [] then []
    else
      var n := |subs| - 1;
      ItemsUnder(subs[..n], title) + if subs[n].title == title then TextItems(Texts(subs[n].lines)) else []
  }

  /** Every category keeps its items, text by text and in order. */
  ghost predicate SameItems(a: seq<Subsection>, b: seq<Subsection>) {
    forall t :: ItemsUnder(a, t) == ItemsUnder(b, t)
  }

  lemma {:induction false} NoneUnder(subs: seq<Subsection>, title: string)
    ensures ItemsUnder(subs, title) == []
            <==> forall i :: 0 <= i < |subs| && subs[i].title == title ==> NoItemsIn(subs[i])
  {
    hide TextItems;
    if subs != [] {
      var n := |subs| - 1;
      NoneUnder(subs[..n], title);
      assert forall i :: 0 <= i < n ==> subs[..n][i] == subs[i];
    }
  }

  /** Without a second category of its title, a category's items are those under the title. */
  lemma {:induction false} OneUnder(subs: seq<Subsection>, k: nat)
    requires DistinctTitles(subs) && k < |subs|
    ensures ItemsUnder(subs, subs[k].title) == TextItems(Texts(subs[k].lines))
    decreases |subs|
  {
    hide TextItems;
    var n := |subs| - 1;
    if k == n {
      NotUnder(subs[..n], subs[n].title);
    } else {
      OneUnder(subs[..n], k);
      assert subs[..n][k] == subs[k];
    }
  }

  lemma {:induction false} NotUnder(subs: seq<Subsection>, title: string)
    requires forall k :: 0 <= k < |subs| ==> subs[k].title != title
    ensures ItemsUnder(subs, title) == []
  {
    if subs != [] { NotUnder(subs[..|subs| - 1], title); }
  }

  /** A section's entries are the keys of its items. */
  lemma {:induction false} EntriesOfItems(subs: seq<Subsection>, e: Entry)
    ensures e in UnionOf(subs, SubEntries) <==> e.1 in KeySet(ItemsUnder(subs, e.0))
    decreases |subs|
  {
    hide TextItems, Key, KeySet;
    if subs == [] {
      NoKeys();
    } else {
      var n := |subs| - 1;
      EntriesOfItems(subs[..n], e);
      NoKeys();
      assert subs == subs[..n] + [subs[n]];
      UnionAppend(subs[..n], [subs[n]], SubEntries);
      UnionOne(subs[n], SubEntries);
      KeySetAppend(ItemsUnder(subs[..n], e.0), if subs[n].title == e.0 then TextItems(Texts(subs[n].lines)) else []);
    }
  }

  lemma NoKeys()
    ensures KeySet([]) == {}
  {
  }

  lemma SameItemsSameEntries(a: Section, b: Section)
    requires SameItems(a.subsections, b.subsections)
    ensures SectionEntries(a) == SectionEntries(b)
  {
    hide ItemsUnder, UnionOf, KeySet;
    forall e ensures e in SectionEntries(a) <==> e in SectionEntries(b) {
      EntriesOfItems(a.subsections, e);
      EntriesOfItems(b.subsections, e);
      assert ItemsUnder(a.subsections, e.0) == ItemsUnder(b.subsections, e.0);
    }
  }

  /** What merging duplicate headings has to keep. */
  ghost predicate Normalized(s: Section, r: Section) {
    r.heading == s.heading && r.title == s.title && Sound(r) && NoBlank(r.subsections)
    && Texts(r.leading) == TrimBlank(Texts(s.leading))
    && (SameItems(r.subsections, s.subsections) <==> MergeSafe(s.subsections))
    && multiset(Titles(r.subsections)) == multiset(FirstTitles(s.subsections))
    && (if s.title == "Unreleased" then SortedBy(r.subsections, TitleOrder)
        else Titles(r.subsections) == FirstTitles(s.subsections))
  }

  lemma BlankSub(s: Subsection)
    requires Compact(Texts(s.lines)) == []
    ensures NoItemsIn(s) && Itemized(Texts(s.lines))
  {
    hide IsItem, IsBlank;
    CompactKeeps(Texts(s.lines));
    ItemsTrimmed(Texts(s.lines));
    ItemizedTrims(Texts(s.lines));
    NothingInNothing();
  }

  lemma {:induction false} CompactFrom(ls: seq<string>)
    ensures forall l :: l in Compact(ls) ==> l in ls
  {
    TrimBlankTrims(ls);
    FlatFrom(TrimBlank(ls));
  }

  lemma {:induction false} FlatFrom(ls: seq<string>)
    ensures forall l :: l in Flat(TextItems(ls)) ==> l in ls
  {
    hide IsItem, TrimBlank, Gap;
    if ls == [] {
    } else if !IsItem(ls[0]) {
      FlatFrom(ls[1..]);
    } else {
      var k := 1 + Gap(ls[1..]);
      FlatFrom(ls[k..]);
      TrimBlankTrims(ls[..k]);
    }
  }

  /** `target` after a body of the same title has been merged into it. */
  lemma MergedSub(target: Subsection, merged: Subsection, sub: Subsection, body: seq<string>)
    requires SoundSub(target) && SoundSub(sub) && body == Compact(Texts(sub.lines)) && body != []
    requires merged.title == target.title == sub.title && Texts(merged.lines) == Appended(Texts(target.lines), body)
    ensures SoundSub(merged) && TrimBlank(Texts(merged.lines)) != []
    ensures var ours, theirs, all := TextItems(Texts(target.lines)), TextItems(Texts(sub.lines)), TextItems(Texts(merged.lines));
            if Itemized(Texts(sub.lines)) || ours == [] then all == ours + theirs
            else Weight(all) > Weight(ours) + Weight(theirs)
  {
    hide Itemized, GoodTitle, PlainLine, IsItem, TextItems, Compact;
    CompactKeeps(Texts(sub.lines));
    CompactFrom(Texts(sub.lines));
    LinesFromTexts(sub.lines, PlainLine);
    LinesFromTexts(target.lines, PlainLine);
    LinesFromTexts(merged.lines, PlainLine);
    AppendedFrom(Texts(target.lines), body);
    BlankLine();
    AppendedNotBlank(Texts(target.lines), body, Texts(sub.lines));
    AppendWeight(Texts(target.lines), body);
  }

  lemma AppendedNotBlank(target: seq<string>, body: seq<string>, source: seq<string>)
    requires body == Compact(source) && body != []
    ensures TrimBlank(body) == body && TrimBlank(Appended(target, body)) != []
  {
    hide IsItem, IsBlank;
    TrimBlankTrims(source);
    ItemsAreWhole(TrimBlank(source));
    FlatTrimmed(TextItems(TrimBlank(source)));
    assert Trimmed(body);
    TrimmedStays(body);
    TrimBlankTrims(target);
    TrimmedStays(Appended(target, body));
  }

  lemma {:induction false} FlatTrimmed(items: seq<seq<string>>)
    requires forall i :: 0 <= i < |items| ==> Whole(items[i])
    ensures Trimmed(Flat(items))
  {
    hide IsItem, IsBlank;
    if items != [] {
      FlatTrimmed(items[1..]);
      assert Whole(items[0]);
    }
  }

  lemma FirstSub(sub: Subsection, body: seq<string>)
    requires SoundSub(sub) && body == Compact(Texts(sub.lines)) && body != []
    ensures var s := Subsection(sub.title, Synthetic(body));
            SoundSub(s) && TrimBlank(Texts(s.lines)) != []
            && TextItems(Texts(s.lines)) == TextItems(Texts(sub.lines))
  {
    hide Itemized, GoodTitle, PlainLine, IsItem, TextItems, Compact;
    CompactKeeps(Texts(sub.lines));
    CompactFrom(Texts(sub.lines));
    LinesFromTexts(sub.lines, PlainLine);
    LinesFromTexts(Synthetic(body), PlainLine);
    assert Texts(Synthetic(body)) == body;
    AppendedNotBlank([], body, Texts(sub.lines));
  }

  /** Merging the categories of one title keeps their items. */
  predicate SafeFor(subs: seq<Subsection>, title: string) {
    forall i, j :: 0 <= i < j < |subs| && subs[i].title == subs[j].title == title ==>
      Itemized(Texts(subs[j].lines)) || NoItemsIn(subs[i])
  }

  /** The merged categories stand for the first `i` ones: the same items, or longer ones. */
  ghost predicate Stands(subs: seq<Subsection>, merged: seq<Subsection>, title: string) {
    var now, before := ItemsUnder(merged, title), ItemsUnder(subs, title);
    if SafeFor(subs, title) then now == before else Weight(now) > Weight(before)
  }

  ghost predicate StandsFor(subs: seq<Subsection>, merged: seq<Subsection>) {
    forall t :: Stands(subs, merged, t)
  }

  ghost predicate Merging(s: Section, i: nat, merged: seq<Subsection>)
    requires i <= |s.subsections|
  {
    DistinctTitles(merged) && SoundSubs(merged) && NoBlank(merged)
    && Titles(merged) == FirstTitles(s.subsections[..i])
    && StandsFor(s.subsections[..i], merged)
  }

  lemma NextTitles(s: Section, i: nat)
    requires i < |s.subsections|
    ensures var title, before := s.subsections[i].title, FirstTitles(s.subsections[..i]);
            FirstTitles(s.subsections[..i + 1])
            == if Compact(Texts(s.subsections[i].lines)) == [] || title in before then before else before + [title]
  {
    assert s.subsections[..i + 1][..i] == s.subsections[..i];
  }

  /** One category more: what is under its title, and when merging stays safe. */
  lemma NextUnder(subs: seq<Subsection>, sub: Subsection, t: string)
    ensures ItemsUnder(subs + [sub], t)
            == ItemsUnder(subs, t) + if sub.title == t then TextItems(Texts(sub.lines)) else []
    ensures SafeFor(subs + [sub], t)
            <==> SafeFor(subs, t) && (sub.title == t ==> Itemized(Texts(sub.lines)) || ItemsUnder(subs, t) == [])
  {
    hide TextItems, Itemized, NoItemsIn, ItemsUnder;
    var all := subs + [sub];
    assert ItemsUnder(all, t) == ItemsUnder(subs, t) + if sub.title == t then TextItems(Texts(sub.lines)) else [] by {
      LastUnder(subs, sub, t);
    }
    NoneUnder(subs, t);
    assert forall i :: 0 <= i < |subs| ==> all[i] == subs[i];
    assert all[|subs|] == sub;
  }

  lemma LastUnder(subs: seq<Subsection>, sub: Subsection, t: string)
    ensures ItemsUnder(subs + [sub], t)
            == ItemsUnder(subs, t) + if sub.title == t then TextItems(Texts(sub.lines)) else []
  {
    hide TextItems;
    assert (subs + [sub])[..|subs|] == subs;
  }

  lemma SkipBlank(s: Section, i: nat, merged: seq<Subsection>)
    requires i < |s.subsections| && Merging(s, i, merged) && Compact(Texts(s.subsections[i].lines)) == []
    ensures Merging(s, i + 1, merged)
  {
    hide Itemized, TrimBlank, Compact, SoundSub, ItemsUnder, SafeFor, TextItems, Stands, DistinctTitles, SoundSubs, NoBlank,
         FirstTitles;
    var subs, sub := s.subsections[..i], s.subsections[i];
    BlankSub(sub);
    NextTitles(s, i);
    var more := s.subsections[..i + 1];
    assert more == subs + [sub];
    forall t ensures Stands(more, merged, t) {
      assert Stands(subs, merged, t);
      StandsStill(subs, sub, merged, t);
    }
  }

  lemma StandsStill(subs: seq<Subsection>, sub: Subsection, merged: seq<Subsection>, t: string)
    requires Stands(subs, merged, t) && TextItems(Texts(sub.lines)) == [] && Itemized(Texts(sub.lines))
    ensures Stands(subs + [sub], merged, t)
  {
    hide Itemized, ItemsUnder, SafeFor, TextItems, Weight;
    NextUnder(subs, sub, t);
    assert ItemsUnder(subs, t) + [] == ItemsUnder(subs, t);
  }

  /** The items under a title after one category has been replaced by another of its title. */
  lemma ReplacedUnder(merged: seq<Subsection>, k: nat, sub: Subsection, t: string)
    requires k < |merged| && DistinctTitles(merged) && merged[k].title == sub.title
    ensures DistinctTitles(merged[k := sub])
    ensures ItemsUnder(merged[k := sub], t)
            == if t == sub.title then TextItems(Texts(sub.lines)) else ItemsUnder(merged, t)
    ensures t == sub.title ==> ItemsUnder(merged, t) == TextItems(Texts(merged[k].lines))
  {
    hide TextItems, ItemsUnder;
    var next := merged[k := sub];
    if t == sub.title {
      OneUnder(merged, k);
      OneUnder(next, k);
    } else if j :| 0 <= j < |merged| && merged[j].title == t {
      OneUnder(merged, j);
      OneUnder(next, j);
    } else {
      NotUnder(merged, t);
      NotUnder(next, t);
    }
  }

  lemma MergeInto(s: Section, i: nat, merged: seq<Subsection>, k: nat, sub: Subsection)
    requires i < |s.subsections| && Sound(s) && Merging(s, i, merged) && k < |merged|
    requires merged[k].title == s.subsections[i].title == sub.title
    requires var body := Compact(Texts(s.subsections[i].lines));
             body != [] && Texts(sub.lines) == Appended(Texts(merged[k].lines), body)
    ensures Merging(s, i + 1, merged[k := sub])
  {
    hide Itemized, TrimBlank, Compact, Appended, SoundSub, FirstTitles, ItemsUnder, SafeFor, TextItems, Weight;
    var subs, extra := s.subsections[..i], s.subsections[i];
    assert extra in s.subsections && merged[k] in merged;
    assert Titles(merged)[k] == sub.title && Titles(merged[k := sub]) == Titles(merged);
    MergedSub(merged[k], sub, extra, Compact(Texts(extra.lines)));
    NextTitles(s, i);
    var more, next := s.subsections[..i + 1], merged[k := sub];
    assert more == subs + [extra];
    forall t ensures Stands(more, next, t) {
      assert Stands(subs, merged, t);
      NextUnder(subs, extra, t);
      ReplacedUnder(merged, k, sub, t);
      assert ItemsUnder(subs, t) + [] == ItemsUnder(subs, t);
      WeightAppend(ItemsUnder(subs, t), TextItems(Texts(extra.lines)));
      WeightAppend(ItemsUnder(merged, t), TextItems(Texts(extra.lines)));
    }
    ReplacedUnder(merged, k, sub, sub.title);
  }

  lemma AddFirst(s: Section, i: nat, merged: seq<Subsection>)
    requires i < |s.subsections| && Sound(s) && Merging(s, i, merged)
    requires forall k :: 0 <= k < |merged| ==> merged[k].title != s.subsections[i].title
    requires Compact(Texts(s.subsections[i].lines)) != []
    ensures var body := Compact(Texts(s.subsections[i].lines));
            Merging(s, i + 1, merged + [Subsection(s.subsections[i].title, Synthetic(body))])
  {
    hide Itemized, TrimBlank, Compact, SoundSub, MergeSafe, ItemsUnder, SafeFor, TextItems, Weight, Stands, DistinctTitles,
         SoundSubs, NoBlank, FirstTitles;
    var subs, extra := s.subsections[..i], s.subsections[i];
    var body := Compact(Texts(extra.lines));
    SubIsSound(s, i);
    FirstSub(extra, body);
    NextTitles(s, i);
    var first := Subsection(extra.title, Synthetic(body));
    var more, next := s.subsections[..i + 1], merged + [first];
    assert more == subs + [extra];
    forall t ensures Stands(more, next, t) {
      assert Stands(subs, merged, t);
      StandsFirst(subs, merged, extra, first, t);
    }
    PushSub(merged, first);
  }

  lemma SubIsSound(s: Section, i: nat)
    requires Sound(s) && i < |s.subsections|
    ensures SoundSub(s.subsections[i])
  {
  }

  lemma PushSub(merged: seq<Subsection>, sub: Subsection)
    requires DistinctTitles(merged) && SoundSubs(merged) && NoBlank(merged)
    requires SoundSub(sub) && TrimBlank(Texts(sub.lines)) != []
    requires forall k :: 0 <= k < |merged| ==> merged[k].title != sub.title
    ensures DistinctTitles(merged + [sub]) && SoundSubs(merged + [sub]) && NoBlank(merged + [sub])
    ensures Titles(merged + [sub]) == Titles(merged) + [sub.title] && sub.title !in Titles(merged)
  {
    hide SoundSub, TrimBlank;
  }

  lemma StandsFirst(subs: seq<Subsection>, merged: seq<Subsection>, extra: Subsection, first: Subsection, t: string)
    requires Stands(subs, merged, t) && first.title == extra.title
    requires TextItems(Texts(first.lines)) == TextItems(Texts(extra.lines))
    requires forall k :: 0 <= k < |merged| ==> merged[k].title != extra.title
    ensures Stands(subs + [extra], merged + [first], t)
  {
    hide Itemized, TrimBlank, Compact, MergeSafe, ItemsUnder, SafeFor, TextItems, Weight;
    NextUnder(subs, extra, t);
    LastUnder(merged, first, t);
    assert ItemsUnder(subs, t) + [] == ItemsUnder(subs, t) && ItemsUnder(merged, t) + [] == ItemsUnder(merged, t);
    if t == extra.title {
      NotUnder(merged, t);
      NothingUnder(subs, merged, t);
      assert [] + TextItems(Texts(extra.lines)) == TextItems(Texts(extra.lines));
    }
  }

  /** Nothing merged under a title means nothing was there. */
  lemma NothingUnder(subs: seq<Subsection>, merged: seq<Subsection>, t: string)
    requires Stands(subs, merged, t) && ItemsUnder(merged, t) == []
    ensures SafeFor(subs, t) && ItemsUnder(subs, t) == []
  {
    hide TextItems, SafeFor, ItemsUnder;
    assert Weight([]) == 0;
  }

  lemma MergingEnds(s: Section, merged: seq<Subsection>)
    ensures Merging(s, 0, [])
    ensures Merging(s, |s.subsections|, merged) ==>
              DistinctTitles(merged) && SoundSubs(merged) && NoBlank(merged)
              && Titles(merged) == FirstTitles(s.subsections)
              && (SameItems(merged, s.subsections) <==> MergeSafe(s.subsections))
  {
    hide SoundSub, ItemsUnder, Weight, NoItemsIn, Itemized;
    assert s.subsections[..0] == [] && s.subsections[..|s.subsections|] == s.subsections;
    assert Merging(s, 0, []) by { NothingMerged(); }
    SafeForAll(s.subsections);
    if StandsFor(s.subsections, merged) { StandsEnds(s.subsections, merged); }
  }

  lemma StandsEnds(subs: seq<Subsection>, merged: seq<Subsection>)
    requires StandsFor(subs, merged)
    ensures SameItems(merged, subs) <==> forall t :: SafeFor(subs, t)
  {
    hide ItemsUnder, Weight, SafeFor;
    if SameItems(merged, subs) {
      forall t ensures SafeFor(subs, t) {
        assert Stands(subs, merged, t);
      }
    }
    if forall t :: SafeFor(subs, t) {
      forall t ensures ItemsUnder(merged, t) == ItemsUnder(subs, t) {
        assert SafeFor(subs, t) && Stands(subs, merged, t);
      }
    }
  }

  lemma NothingMerged()
    ensures StandsFor([], [])
  {
  }

  lemma SafeForAll(subs: seq<Subsection>)
    ensures MergeSafe(subs) <==> forall t :: SafeFor(subs, t)
  {
    hide Itemized, NoItemsIn;
    if forall t :: SafeFor(subs, t) {
      forall i, j | 0 <= i < j < |subs| && subs[i].title == subs[j].title
        ensures Itemized(Texts(subs[j].lines)) || NoItemsIn(subs[i])
      {
        assert SafeFor(subs, subs[i].title);
      }
    }
  }

  method NormalizeSection(s: Section) returns (r: Section)
    requires Sound(s)
    ensures Normalized(s, r) && DistinctTitles(r.subsections)
  {
    var byTitle: map<string, nat> := map[];
    var normalized: seq<Subsection> := [];
    var i := 0;
    MergingEnds(s, []);
    hide Merging, Compact, Appended, SoundHead, MergeSafe, NoBlank, DistinctTitles, SoundSubs, TrimBlank, TextItems,
         Itemized, NoItemsIn, NonBlank, SameItems, FirstTitles, Titles;
    while i < |s.subsections|
      invariant 0 <= i <= |s.subsections|
      invariant Merging(s, i, normalized)
      invariant forall t :: t in byTitle ==> byTitle[t] < |normalized| && normalized[byTitle[t]].title == t
      invariant forall k :: 0 <= k < |normalized| ==> normalized[k].title in byTitle
    {
      var sub := s.subsections[i];
      var body := Compact(Texts(sub.lines));
      if |body| == 0 {
        SkipBlank(s, i, normalized);
      } else if sub.title in byTitle {
        var k := byTitle[sub.title];
        var merged := AppendSubsectionLines(normalized[k], body);
        MergeInto(s, i, normalized, k, merged);
        normalized := normalized[k := merged];
      } else {
        AddFirst(s, i, normalized);
        byTitle := byTitle[sub.title := |normalized|];
        normalized := normalized + [Subsection(sub.title, Synthetic(body))];
      }
      i := i + 1;
    }
    MergingEnds(s, normalized);
    if s.title == "Unreleased" {
      var sorted := SortTitles(normalized);
      SameItemsAs(sorted, normalized, s.subsections);
      normalized := sorted;
    }
    var leading := TrimBlankLines(Texts(s.leading));
    r := s.(leading := Synthetic(leading), subsections := normalized);
    SoundHeadTrimmed(s, r, leading);
  }

  lemma SameItemsAs(a: seq<Subsection>, b: seq<Subsection>, c: seq<Subsection>)
    requires SameItems(a, b)
    ensures SameItems(a, c) <==> SameItems(b, c)
  {
    hide ItemsUnder;
    if SameItems(a, c) {
      forall t ensures ItemsUnder(b, t) == ItemsUnder(c, t) { assert ItemsUnder(a, t) == ItemsUnder(b, t); }
    }
    if SameItems(b, c) {
      forall t ensures ItemsUnder(a, t) == ItemsUnder(c, t) { assert ItemsUnder(b, t) == ItemsUnder(c, t); }
    }
  }

  method SortTitles(subs: seq<Subsection>) returns (r: seq<Subsection>)
    requires DistinctTitles(subs) && SoundSubs(subs) && NoBlank(subs)
    ensures DistinctTitles(r) && SoundSubs(r) && NoBlank(r) && SortedBy(r, TitleOrder)
    ensures SameItems(r, subs) && multiset(Titles(r)) == multiset(Titles(subs))
  {
    hide SoundSub, TrimBlank, TitleOrder, ItemsUnder;
    r := SortBy(subs, TitleOrder);
    TitlesPermuted(subs, r);
    assert forall x :: x in r <==> x in multiset(r);
    assert forall x :: x in subs <==> x in multiset(subs);
    SameTitles(subs, r);
    forall t ensures ItemsUnder(r, t) == ItemsUnder(subs, t) {
      PermutedUnder(r, subs, t);
    }
  }

  lemma PermutedUnder(a: seq<Subsection>, b: seq<Subsection>, t: string)
    requires DistinctTitles(a) && DistinctTitles(b) && forall x :: x in a <==> x in b
    ensures ItemsUnder(a, t) == ItemsUnder(b, t)
  {
    hide ItemsUnder, TextItems;
    if k :| 0 <= k < |a| && a[k].title == t {
      assert a[k] in b;
      var j :| 0 <= j < |b| && b[j] == a[k];
      OneUnder(a, k);
      OneUnder(b, j);
    } else {
      NotUnder(a, t);
      forall j | 0 <= j < |b| ensures b[j].title != t {
        assert b[j] in a;
      }
      NotUnder(b, t);
    }
  }

  lemma TitleAt(b: seq<Subsection>, i: nat)
    requires i < |b|
    ensures multiset(b) == multiset(b[..i] + b[i + 1..]) + multiset{b[i]}
    ensures multiset(Titles(b)) == multiset(Titles(b[..i] + b[i + 1..])) + multiset{b[i].title}
  {
    assert b == b[..i] + [b[i]] + b[i + 1..];
    assert Titles(b) == Titles(b[..i]) + [b[i].title] + Titles(b[i + 1..]);
    assert Titles(b[..i] + b[i + 1..]) == Titles(b[..i]) + Titles(b[i + 1..]);
  }

  lemma SameRest(a: multiset<Subsection>, b: multiset<Subsection>, x: Subsection)
    requires a + multiset{x} == b + multiset{x}
    ensures a == b
  {
    assert a + multiset{x} - multiset{x} == a && b + multiset{x} - multiset{x} == b;
  }

  lemma {:induction false} TitlesPermuted(a: seq<Subsection>, b: seq<Subsection>)
    requires multiset(a) == multiset(b)
    ensures multiset(Titles(a)) == multiset(Titles(b))
    decreases |a|
  {
    hide Titles;
    if a == [] {
      assert |b| == |multiset(b)| == 0;
    } else {
      assert a[0] in multiset(b);
      var i :| 0 <= i < |b| && b[i] == a[0];
      TitleAt(a, 0);
      TitleAt(b, i);
      assert a[..0] + a[1..] == a[1..];
      SameRest(multiset(a[1..]), multiset(b[..i] + b[i + 1..]), a[0]);
      TitlesPermuted(a[1..], b[..i] + b[i + 1..]);
    }
  }

  lemma SameTitles(a: seq<Subsection>, b: seq<Subsection>)
    requires DistinctTitles(a) && multiset(a) == multiset(b)
    ensures DistinctTitles(b)
  {
    forall i, j | 0 <= i < j < |b| ensures b[i].title != b[j].title {
      if b[i].title == b[j].title {
        assert b[i] in multiset(b) && b[j] in multiset(b);
        var x :| 0 <= x < |a| && a[x] == b[i];
        var y :| 0 <= y < |a| && a[y] == b[j];
        assert x == y;
        Twice(b, i, j);
        Once(a, x);
        assert false;
      }
    }
  }

  lemma Twice(b: seq<Subsection>, i: nat, j: nat)
    requires i < j < |b| && b[i] == b[j]
    ensures multiset(b)[b[i]] >= 2
  {
    assert b == b[..j] + [b[j]] + b[j + 1..];
    assert b[i] in b[..j];
  }

  lemma Once(a: seq<Subsection>, x: nat)
    requires x < |a| && DistinctTitles(a)
    ensures multiset(a)[a[x]] == 1
  {
    assert a == a[..x] + [a[x]] + a[x + 1..];
    assert a[x] !in a[..x] && a[x] !in a[x + 1..];
  }

  lemma SoundHeadTrimmed(s: Section, r: Section, leading: seq<string>)
    requires SoundHead(s) && r.heading == s.heading && r.title == s.title
    requires leading == TrimBlank(Texts(s.leading)) && r.leading == Synthetic(leading)
    ensures SoundHead(r)
  {
    hide PlainLine, IsRelease;
    TrimBlankTrims(Texts(s.leading));
    LinesFromTexts(s.leading, PlainLine);
    LinesFromTexts(r.leading, PlainLine);
    assert Texts(r.leading) == leading;
  }
}
