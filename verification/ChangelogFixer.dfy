/** `fixChangelogContent`: what happens to the list items of a whole changelog. */
module ChangelogFixer {
  import opened Wrappers
  import opened Text
  import opened Changelog
  import opened ChangelogItems
  import opened ChangelogFix
  import opened ChangelogRoundTrip
  import opened ChangelogSections
  import opened ChangelogVersions

  /** Looks only at the [Unreleased] sections, or only at the released ones. */
  function Only<K>(unreleased: bool, f: Section -> set<K>): Section -> set<K> {
    (s: Section) => if (s.title == "Unreleased") == unreleased then f(s) else {}
  }

  /** Entries together with the title of the section they stand in. */
  type Placed = (string, Entry)

  function Place(f: Section -> set<Entry>): Section -> set<Placed> {
    (s: Section) => set e | e in f(s) :: (s.title, e)
  }

  /** Every released item: its release, its category and its text. */
  function Released(sections: seq<Section>): set<Placed> {
    UnionOf(sections, Only(false, Place(SectionEntries)))
  }

  function ReleasedKeys(sections: seq<Section>): set<string> {
    set e | e in Released(sections) :: e.1.1
  }

  /** Every item of [Unreleased]: its category and its text. */
  function Unreleased(sections: seq<Section>): set<Entry> {
    UnionOf(sections, Only(true, SectionEntries))
  }

  /** The released items that do not start on a promotable line. */
  function Staying(sections: seq<Section>, promotable: set<nat>): set<Placed> {
    UnionOf(sections, Only(false, Place(SectionSift(Marked(promotable), false))))
  }

  /** The released items that do, without their release. */
  function Promoted(sections: seq<Section>, promotable: set<nat>): set<Entry> {
    UnionOf(sections, Only(false, SectionSift(Marked(promotable), true)))
  }

  function FirstUnreleased(sections: seq<Section>): (u: nat)
    ensures u <= |sections| && (u < |sections| ==> sections[u].title == "Unreleased")
    ensures forall i :: 0 <= i < u ==> sections[i].title != "Unreleased"
  {
    if sections == [] || sections[0].title == "Unreleased" then 0 else 1 + FirstUnreleased(sections[1..])
  }

  predicate AllSound(sections: seq<Section>) {
    forall s :: s in sections ==> Sound(s)
  }

  predicate AllOrdered(sections: seq<Section>) {
    forall s :: s in sections && s.title != "Unreleased" ==> Ordered(s)
  }

  predicate AllMergeSafe(sections: seq<Section>) {
    forall s :: s in sections ==> MergeSafe(s.subsections)
  }

  // ---------------------------------------------------------------- dropping

  /** Items of the first [Unreleased] section that are not released, and those of any later one. */
  function Pending(sections: seq<Section>, released: set<string>): set<Entry> {
    var u := FirstUnreleased(sections);
    if u == |sections| then {}
    else Except(SectionEntries(sections[u]), released) + UnionOf(sections[u + 1..], Only(true, SectionEntries))
  }

  /** The sections once the first [Unreleased] has lost the items that a release or the history has. */
  function Dropped(sections: seq<Section>, historical: set<string>): seq<Section> {
    var u := FirstUnreleased(sections);
    if u == |sections| then sections
    else sections[u := CutAll(sections[u], Repeated(ReleasedKeys(sections) + historical))]
  }

  method DropUnreleasedDuplicates(sections: seq<Section>, historical: set<string>) returns (r: seq<Section>)
    requires AllSound(sections) && forall s :: s in sections ==> Ordered(s)
    ensures r == Dropped(sections, historical)
    ensures AllSound(r) && AllOrdered(r) && (AllMergeSafe(sections) ==> AllMergeSafe(r))
    ensures Unreleased(r) == Pending(sections, ReleasedKeys(sections) + historical)
    ensures |r| == |sections|
    ensures forall i :: 0 <= i < |r| ==>
              SameHead(sections[i], r[i]) && (sections[i].title != "Unreleased" ==> r[i] == sections[i])
    ensures NoneRepeated(sections, historical) ==> r == sections
  {
    hide Sound, Ordered, MergeSafe, SectionEntries, Unreleased, Pending, ReleasedKeys, FirstUnreleased;
    var u := FirstUnreleased(sections);
    var released := ReleasedKeys(sections) + historical;
    if u == |sections| {
      NonePending(sections, released);
      return sections;
    }
    var first := DropItems(sections[u], released);
    assert sections[u] in sections;
    CutIsAll(sections[u], first, Repeated(released));
    CutSection(sections[u], first, Repeated(released));
    SiftRepeated(sections[u].subsections, released);
    DroppedKeys(sections[u], first, released);
    r := sections[u := first];
    DroppedPending(sections, u, first, released);
    if NoneRepeated(sections, historical) { NothingDropped(sections, u, first, historical); }
  }

  /** No item of [Unreleased] is known from a release or the history. */
  predicate NoneRepeated(sections: seq<Section>, historical: set<string>) {
    forall e :: e in Unreleased(sections) ==> e.1 !in ReleasedKeys(sections) + historical
  }

  lemma NothingDropped(sections: seq<Section>, u: nat, first: Section, historical: set<string>)
    requires u == FirstUnreleased(sections) < |sections| && NoneRepeated(sections, historical)
    requires CutFrom(sections[u], first, Repeated(ReleasedKeys(sections) + historical), |sections[u].subsections|)
    ensures first == sections[u]
  {
    hide SectionEntries, ReleasedKeys, FirstUnreleased, CutFrom, Repeated, UnionOf;
    var released := ReleasedKeys(sections) + historical;
    FirstPart(sections, SectionEntries);
    SiftCovers(sections[u], Repeated(released));
    forall e | e in SectionSift(Repeated(released), true)(sections[u]) ensures e.1 in released {
      ChosenAreRepeated(sections[u].subsections, released, e);
    }
    assert SectionSift(Repeated(released), true)(sections[u]) == {};
    CutNothing(sections[u], first, Repeated(released));
  }

  lemma {:induction false} ChosenAreRepeated(subs: seq<Subsection>, keys: set<string>, e: Entry)
    requires e in UnionOf(subs, Sift(Repeated(keys), true))
    ensures e.1 in keys
    decreases |subs|
  {
    hide Items, Key;
    if e in Sift(Repeated(keys), true)(subs[0]) {
      var picked := Select(Items(subs[0].lines), Repeated(keys), true);
      var i :| 0 <= i < |picked| && e.1 == Key(Bodies(picked)[i]);
      SelectedAre(Items(subs[0].lines), Repeated(keys));
      assert picked[i] in picked && Repeated(keys)(picked[i]);
    } else {
      ChosenAreRepeated(subs[1..], keys, e);
    }
  }

  lemma {:induction false} SelectedAre(items: seq<Item>, chosen: Item -> bool)
    ensures forall i :: i in Select(items, chosen, true) ==> chosen(i)
  {
    if items != [] { SelectedAre(items[1..], chosen); }
  }

  lemma NonePending(sections: seq<Section>, released: set<string>)
    requires FirstUnreleased(sections) == |sections|
    ensures Unreleased(sections) == Pending(sections, released)
  {
    FirstPart(sections, SectionEntries);
  }

  lemma DroppedPending(sections: seq<Section>, u: nat, first: Section, released: set<string>)
    requires u == FirstUnreleased(sections) < |sections| && first.title == sections[u].title
    requires SectionEntries(first) == Except(SectionEntries(sections[u]), released)
    ensures Unreleased(sections[u := first]) == Pending(sections, released)
  {
    hide SectionEntries, Except;
    var r := sections[u := first];
    SameFirst(sections, r, u);
    FirstPart(r, SectionEntries);
    assert r[u + 1..] == sections[u + 1..];
  }

  lemma DroppedKeys(s: Section, t: Section, released: set<string>)
    requires SectionEntries(t) == SectionSift(Repeated(released), false)(s)
    requires UnionOf(s.subsections, Sift(Repeated(released), false)) == Except(UnionOf(s.subsections, SubEntries), released)
    ensures SectionEntries(t) == Except(SectionEntries(s), released)
  {
  }

  /** Functions of the released sections do not see a change in [Unreleased]. */
  lemma SameReleased<K>(a: seq<Section>, b: seq<Section>, f: Section -> set<K>)
    requires |a| == |b|
    requires forall i :: 0 <= i < |a| ==> SameHead(a[i], b[i]) && (a[i].title != "Unreleased" ==> b[i] == a[i])
    ensures UnionOf(b, Only(false, f)) == UnionOf(a, Only(false, f))
  {
    UnionSame(b, a, Only(false, f), Only(false, f));
  }

  lemma SameFirst(a: seq<Section>, b: seq<Section>, u: nat)
    requires |a| == |b| && u == FirstUnreleased(a) && forall i :: 0 <= i < |a| ==> a[i].title == b[i].title
    ensures FirstUnreleased(b) == u
  {
  }

  lemma OnlyIs<K>(f: Section -> set<K>)
    ensures forall s :: Only(true, f)(s) == if s.title == "Unreleased" then f(s) else {}
  {
  }

  lemma NoneBefore<K>(sections: seq<Section>, u: nat, f: Section -> set<K>)
    requires u <= |sections| && forall i :: 0 <= i < u ==> sections[i].title != "Unreleased"
    ensures UnionOf(sections[..u], Only(true, f)) == {}
  {
    hide UnionOf;
    forall s | s in sections[..u] ensures Only(true, f)(s) == {} {
      var i :| 0 <= i < u && sections[i] == s;
    }
    UnionEmpty(sections[..u], Only(true, f));
  }

  lemma FirstPart<K>(sections: seq<Section>, f: Section -> set<K>)
    ensures var u := FirstUnreleased(sections);
            UnionOf(sections, Only(true, f))
            == if u == |sections| then {}
               else f(sections[u]) + UnionOf(sections[u + 1..], Only(true, f))
  {
    hide FirstUnreleased, UnionOf, Only;
    OnlyIs(f);
    var u := FirstUnreleased(sections);
    NoneBefore(sections, u, f);
    if u < |sections| {
      UnionAt(sections, u, Only(true, f));
    } else {
      assert sections[..u] == sections;
    }
  }

  // ---------------------------------------------------------------- promotion

  /** Heading and leading text of a section, blank lines around it aside. */
  function HeadOf(s: Section): (string, seq<string>) {
    (s.heading, TrimBlank(Texts(s.leading)))
  }

  function Heads(sections: seq<Section>): seq<(string, seq<string>)> {
    seq(|sections|, i requires 0 <= i < |sections| => HeadOf(sections[i]))
  }

  /** [Unreleased] is created in front when it is missing and something is promoted. */
  function Opened(sections: seq<Section>, promotable: set<nat>): seq<Section> {
    if FirstUnreleased(sections) == |sections| && Promoted(sections, promotable) != {}
    then [NewUnreleased()] + sections else sections
  }

  lemma HeadsCons(s: Section, a: seq<Section>)
    ensures Heads([s] + a) == [HeadOf(s)] + Heads(a)
  {
  }

  predicate Grown(orig: seq<Section>, sections: seq<Section>, promotable: set<nat>) {
    Heads(sections) == Heads(orig)
    || (FirstUnreleased(orig) == |orig| && Promoted(orig, promotable) != {}
        && Heads(sections) == Heads([NewUnreleased()] + orig))
  }

  lemma SameHeadOf(s: Section, t: Section)
    requires SameHead(s, t)
    ensures HeadOf(s) == HeadOf(t) && s.title == t.title
  {
  }

  lemma HeadsUpdate(sections: seq<Section>, i: nat, t: Section)
    requires i < |sections| && SameHead(sections[i], t)
    ensures Heads(sections[i := t]) == Heads(sections)
  {
    hide SameHead, HeadOf;
    SameHeadOf(sections[i], t);
  }

  lemma HeadsInFront(s: Section, t: Section, a: seq<Section>, b: seq<Section>)
    requires SameHead(s, t) && Heads(a) == Heads(b)
    ensures Heads([s] + a) == Heads([t] + b)
  {
    hide SameHead, HeadOf;
    SameHeadOf(s, t);
    assert Heads([s] + a) == [HeadOf(s)] + Heads(a) && Heads([t] + b) == [HeadOf(t)] + Heads(b);
  }

  /** A release without its promotable items. */
  function Sifted(s: Section, promotable: set<nat>): Section {
    if s.title == "Unreleased" then s else CutAll(s, Marked(promotable))
  }

  function Sieved(sections: seq<Section>, promotable: set<nat>): seq<Section> {
    seq(|sections|, i requires 0 <= i < |sections| => Sifted(sections[i], promotable))
  }

  function FoundIn(sections: seq<Section>): Option<Section> {
    var u := FirstUnreleased(sections);
    if u < |sections| then Some(sections[u]) else None
  }

  /** [Unreleased] with the promotable items of these sections. */
  function Collected(sections: seq<Section>, u: Option<Section>, promotable: set<nat>): Option<Section> {
    if sections == [] then u
    else
      var n := |sections| - 1;
      var before := Collected(sections[..n], u, promotable);
      if sections[n].title == "Unreleased" then before else Gained(sections[n].subsections, before, promotable)
  }

  /** With this first [Unreleased] section, in its place `k` or in front. */
  function WithOpen(rest: seq<Section>, k: nat, u: Option<Section>): seq<Section> {
    if u.None? then rest else if k < |rest| then rest[k := u.value] else [u.value] + rest
  }

  /** The sections once the first `m` have given up their promotable items. */
  function MovedUpTo(sections: seq<Section>, promotable: set<nat>, m: nat): seq<Section>
    requires m <= |sections|
  {
    WithOpen(Sieved(sections[..m], promotable) + sections[m..], FirstUnreleased(sections),
             Collected(sections[..m], FoundIn(sections), promotable))
  }

  /** The sections after dropping and promoting: what the merging of headings starts from. */
  function Moved(sections: seq<Section>, promotable: set<nat>, historical: set<string>): seq<Section> {
    var dropped := Dropped(sections, historical);
    MovedUpTo(dropped, promotable, |dropped|)
  }

  lemma CollectedNext(sections: seq<Section>, m: nat, u: Option<Section>, promotable: set<nat>)
    requires m < |sections|
    ensures Collected(sections[..m + 1], u, promotable)
            == var before := Collected(sections[..m], u, promotable);
               if sections[m].title == "Unreleased" then before else Gained(sections[m].subsections, before, promotable)
  {
    hide Gained;
    assert sections[..m + 1][..m] == sections[..m];
  }

  lemma {:induction false} CollectedStays(sections: seq<Section>, u: Option<Section>, promotable: set<nat>)
    requires u.Some?
    ensures Collected(sections, u, promotable).Some?
  {
    hide Gained;
    if sections != [] {
      var n := |sections| - 1;
      CollectedStays(sections[..n], u, promotable);
      GainedStays(sections[n].subsections, Collected(sections[..n], u, promotable), promotable);
    }
  }

  lemma {:induction false} GainedStays(subs: seq<Subsection>, u: Option<Section>, promotable: set<nat>)
    requires u.Some?
    ensures Gained(subs, u, promotable).Some?
    decreases |subs|
  {
    hide Into, Items, Select;
    if subs != [] { GainedStays(subs[..|subs| - 1], u, promotable); }
  }

  lemma SievedNext(sections: seq<Section>, m: nat, promotable: set<nat>)
    requires m < |sections|
    ensures Sieved(sections[..m + 1], promotable) + sections[m + 1..]
            == (Sieved(sections[..m], promotable) + sections[m..])[m := Sifted(sections[m], promotable)]
  {
    hide Sifted;
    var a, b := Sieved(sections[..m + 1], promotable) + sections[m + 1..], Sieved(sections[..m], promotable) + sections[m..];
    assert |a| == |b|;
    forall i | 0 <= i < |a| ensures a[i] == b[m := Sifted(sections[m], promotable)][i] { }
  }

  /** What the promotion loop keeps while it works its way through the sections. */
  ghost predicate Promoting(orig: seq<Section>, sections: seq<Section>, promotable: set<nat>, i: nat)
    requires i <= |sections|
  {
    AllSound(sections) && AllOrdered(sections)
    && (AllMergeSafe(orig) ==> AllMergeSafe(sections))
    && Staying(sections, promotable) == Staying(orig, promotable)
    && Unreleased(sections) + Promoted(sections, promotable) == Unreleased(orig) + Promoted(orig, promotable)
    && Grown(orig, sections, promotable)
    && forall k :: 0 <= k < i && sections[k].title != "Unreleased" ==>
         SectionSift(Marked(promotable), true)(sections[k]) == {}
  }

  lemma ReleasedUpdate<K, L>(sections: seq<Section>, i: nat, t: Section, f: Section -> set<K>, g: Section -> set<L>)
    requires i < |sections| && sections[i].title == t.title != "Unreleased"
    ensures UnionOf(sections[i := t], Only(false, f))
            == UnionOf(sections[..i], Only(false, f)) + f(t) + UnionOf(sections[i + 1..], Only(false, f))
    ensures UnionOf(sections, Only(false, f))
            == UnionOf(sections[..i], Only(false, f)) + f(sections[i]) + UnionOf(sections[i + 1..], Only(false, f))
    ensures UnionOf(sections[i := t], Only(true, g)) == UnionOf(sections, Only(true, g))
  {
    UnionAt(sections, i, Only(false, f));
    UnionUpdate(sections, i, t, Only(false, f));
    UnionSame(sections[i := t], sections, Only(true, g), Only(true, g));
  }

  lemma UnreleasedUpdate<K, L>(sections: seq<Section>, u: nat, t: Section, f: Section -> set<K>, g: Section -> set<L>)
    requires u < |sections| && sections[u].title == t.title == "Unreleased"
    ensures UnionOf(sections[u := t], Only(true, f))
            == UnionOf(sections[..u], Only(true, f)) + f(t) + UnionOf(sections[u + 1..], Only(true, f))
    ensures UnionOf(sections, Only(true, f))
            == UnionOf(sections[..u], Only(true, f)) + f(sections[u]) + UnionOf(sections[u + 1..], Only(true, f))
    ensures UnionOf(sections[u := t], Only(false, g)) == UnionOf(sections, Only(false, g))
  {
    UnionAt(sections, u, Only(true, f));
    UnionUpdate(sections, u, t, Only(true, f));
    UnionSame(sections[u := t], sections, Only(false, g), Only(false, g));
  }

  /** The promoted items of section `i` are gone from it. */
  lemma CutStep(orig: seq<Section>, sections: seq<Section>, promotable: set<nat>, i: nat, t: Section)
    requires i < |sections| && Promoting(orig, sections, promotable, i) && sections[i].title != "Unreleased"
    requires CutFrom(sections[i], t, Marked(promotable), |sections[i].subsections|)
    ensures var next := sections[i := t];
            AllSound(next) && AllOrdered(next) && (AllMergeSafe(sections) ==> AllMergeSafe(next))
            && Staying(next, promotable) == Staying(orig, promotable)
            && Unreleased(next) + SectionSift(Marked(promotable), true)(sections[i]) + Promoted(next, promotable)
               == Unreleased(orig) + Promoted(orig, promotable)
            && SectionSift(Marked(promotable), true)(t) == {}
  {
    hide Sound, Ordered, MergeSafe, SectionEntries, SectionSift, Marked, Grown;
    var m := Marked(promotable);
    assert sections[i] in sections;
    CutSection(sections[i], t, m);
    ReleasedUpdate(sections, i, t, Place(SectionSift(m, false)), SectionEntries);
    ReleasedUpdate(sections, i, t, SectionSift(m, true), SectionEntries);
  }

  lemma GainStep(sections: seq<Section>, promotable: set<nat>, u: nat, t: Section, gained: set<Entry>)
    requires u < |sections| && sections[u].title == t.title == "Unreleased"
    requires AllSound(sections) && AllOrdered(sections) && Sound(t)
    requires SectionEntries(t) == SectionEntries(sections[u]) + gained
    requires MergeSafe(sections[u].subsections) ==> MergeSafe(t.subsections)
    ensures var next := sections[u := t];
            AllSound(next) && AllOrdered(next) && (AllMergeSafe(sections) ==> AllMergeSafe(next))
            && Staying(next, promotable) == Staying(sections, promotable)
            && Promoted(next, promotable) == Promoted(sections, promotable)
            && Unreleased(next) == Unreleased(sections) + gained
  {
    hide Sound, Ordered, MergeSafe, SectionEntries, SectionSift, Marked;
    assert sections[u] in sections;
    var m := Marked(promotable);
    UnreleasedUpdate(sections, u, t, SectionEntries, SectionSift(m, true));
    UnreleasedUpdate(sections, u, t, SectionEntries, Place(SectionSift(m, false)));
  }

  lemma CreateStep(sections: seq<Section>, promotable: set<nat>, t: Section)
    requires t.title == "Unreleased" && Sound(t)
    requires AllSound(sections) && AllOrdered(sections) && MergeSafe(t.subsections)
    ensures var next := [t] + sections;
            AllSound(next) && AllOrdered(next) && (AllMergeSafe(sections) ==> AllMergeSafe(next))
            && Staying(next, promotable) == Staying(sections, promotable)
            && Promoted(next, promotable) == Promoted(sections, promotable)
            && Unreleased(next) == Unreleased(sections) + SectionEntries(t)
  {
    hide Sound, Ordered, MergeSafe, SectionEntries, SectionSift, Marked;
    assert ([t] + sections)[1..] == sections;
  }

  /** Something is promoted when a section still has something to promote. */
  lemma SomethingPromoted(orig: seq<Section>, sections: seq<Section>, promotable: set<nat>, i: nat)
    requires i < |sections| && sections[i].title != "Unreleased"
    requires SectionSift(Marked(promotable), true)(sections[i]) != {}
    requires FirstUnreleased(orig) == |orig|
    requires Unreleased(sections) + Promoted(sections, promotable) == Unreleased(orig) + Promoted(orig, promotable)
    ensures Promoted(orig, promotable) != {}
  {
    hide SectionEntries, SectionSift, Marked, FirstUnreleased;
    FirstPart(orig, SectionEntries);
    var e :| e in SectionSift(Marked(promotable), true)(sections[i]);
    UnionAt(sections, i, Only(false, SectionSift(Marked(promotable), true)));
    assert e in Promoted(sections, promotable);
  }

  lemma SameHeads(a: seq<Section>, b: seq<Section>)
    requires AllSound(a) && AllSound(b) && Heads(a) == Heads(b)
    ensures |a| == |b| && forall i :: 0 <= i < |a| ==> a[i].heading == b[i].heading && a[i].title == b[i].title
  {
    hide ReleaseTitle, IsRelease, TrimBlank, LinesFrom;
    assert |Heads(a)| == |Heads(b)|;
    forall i | 0 <= i < |a| ensures a[i].heading == b[i].heading && a[i].title == b[i].title {
      assert Heads(a)[i] == Heads(b)[i] && a[i] in a && b[i] in b;
    }
  }

  /** `m`: how many of the original sections are done when section `i` is next. They are as many, until
      [Unreleased] is created in front; then the section at hand comes again. */
  predicate Reached(orig: seq<Section>, sections: seq<Section>, promotable: set<nat>, i: nat, m: nat) {
    if |sections| == |orig| then m == i
    else m == i - 1 || (m == i && (i < |sections| ==> SectionSift(Marked(promotable), true)(sections[i]) == {}))
  }

  lemma IntoTitle(u: Section, title: string, items: seq<Item>)
    ensures Into(u, title, items).title == u.title
  {
  }

  lemma {:induction false} GainedTitle(subs: seq<Subsection>, u: Option<Section>, promotable: set<nat>)
    ensures var r := Gained(subs, u, promotable);
            r.Some? ==> r.value.title == if u.Some? then u.value.title else "Unreleased"
    decreases |subs|
  {
    hide Into, Items, Select;
    if subs != [] {
      var n := |subs| - 1;
      GainedTitle(subs[..n], u, promotable);
      if u.Some? { GainedStays(subs[..n], u, promotable); }
      var before := Gained(subs[..n], u, promotable);
      IntoTitle(if before.Some? then before.value else NewUnreleased(), subs[n].title,
                Select(Items(subs[n].lines), Marked(promotable), true));
    }
  }

  lemma {:induction false} CollectedTitle(sections: seq<Section>, u: Option<Section>, promotable: set<nat>)
    ensures var r := Collected(sections, u, promotable);
            r.Some? ==> r.value.title == if u.Some? then u.value.title else "Unreleased"
  {
    hide Gained;
    if sections != [] {
      var n := |sections| - 1;
      CollectedTitle(sections[..n], u, promotable);
      if u.Some? { CollectedStays(sections[..n], u, promotable); }
      GainedTitle(sections[n].subsections, Collected(sections[..n], u, promotable), promotable);
    }
  }

  function Last<T>(s: seq<T>, n: nat): (r: seq<T>)
    requires n <= |s|
    ensures |r| == n
  {
    s[|s| - n..]
  }

  /** Where the sections stand that are not done, and [Unreleased]. */
  lemma MovedParts(orig: seq<Section>, promotable: set<nat>, m: nat)
    requires m <= |orig|
    ensures var sections, k := MovedUpTo(orig, promotable, m), FirstUnreleased(orig);
            var u := Collected(orig[..m], FoundIn(orig), promotable);
            && (u.Some? ==> u.value.title == "Unreleased") && (k < |orig| ==> u.Some?)
            && |sections| == |orig| + (if k == |orig| && u.Some? then 1 else 0)
            && (forall i :: 0 <= i < |orig| ==> Last(sections, |orig|)[i].title == orig[i].title)
            && (forall i :: m <= i < |orig| && i != k ==> Last(sections, |orig|)[i] == orig[i])
            && FirstUnreleased(sections) == (if |sections| == |orig| then k else 0)
            && FoundIn(sections) == u
  {
    hide Collected, Sieved, FirstUnreleased, FoundIn, WithOpen;
    CollectedTitle(orig[..m], FoundIn(orig), promotable);
    FoundAtFirst(orig);
    if FirstUnreleased(orig) < |orig| { CollectedStays(orig[..m], FoundIn(orig), promotable); }
    SiftedTitles(orig, promotable, m);
    PartsOf(orig, Sieved(orig[..m], promotable) + orig[m..], Collected(orig[..m], FoundIn(orig), promotable), m);
  }

  /** The same with `u` put into its place among any sections of those titles. */
  lemma PartsOf(orig: seq<Section>, rest: seq<Section>, u: Option<Section>, m: nat)
    requires |rest| == |orig| && (forall i :: 0 <= i < |orig| ==> rest[i].title == orig[i].title)
    requires forall i :: m <= i < |orig| ==> rest[i] == orig[i]
    requires u.Some? ==> u.value.title == "Unreleased"
    requires FirstUnreleased(orig) < |orig| ==> u.Some?
    ensures var k := FirstUnreleased(orig);
            var sections := WithOpen(rest, k, u);
            && |sections| == |orig| + (if k == |orig| && u.Some? then 1 else 0)
            && (forall i :: 0 <= i < |orig| ==> Last(sections, |orig|)[i].title == orig[i].title)
            && (forall i :: m <= i < |orig| && i != k ==> Last(sections, |orig|)[i] == orig[i])
            && FirstUnreleased(sections) == (if |sections| == |orig| then k else 0)
            && FoundIn(sections) == u
  {
    hide FirstUnreleased, FoundIn;
    var k := FirstUnreleased(orig);
    if u.None? {
      SameFirst(orig, rest, k);
      FoundAtFirst(rest);
      assert Last(rest, |orig|) == rest;
    } else if k < |orig| {
      SameFirst(orig, rest[k := u.value], k);
      FoundAtFirst(rest[k := u.value]);
      assert Last(rest[k := u.value], |orig|) == rest[k := u.value];
    } else {
      assert Last([u.value] + rest, |orig|) == rest;
      FrontIsFirst([u.value] + rest);
      FoundAtFirst([u.value] + rest);
    }
  }

  lemma SiftedTitles(orig: seq<Section>, promotable: set<nat>, m: nat)
    requires m <= |orig|
    ensures var rest := Sieved(orig[..m], promotable) + orig[m..];
            |rest| == |orig| && (forall i :: 0 <= i < |orig| ==> rest[i].title == orig[i].title)
            && forall i :: m <= i < |orig| ==> rest[i] == orig[i]
  {
    hide CutAll;
    var rest := Sieved(orig[..m], promotable) + orig[m..];
    forall i | 0 <= i < |orig| ensures rest[i].title == orig[i].title {
      if i < m { CutTitle(orig[i], Marked(promotable)); }
    }
  }

  lemma CutTitle(s: Section, chosen: Item -> bool)
    ensures CutAll(s, chosen).title == s.title
  {
  }

  lemma UnreleasedStays(orig: seq<Section>, promotable: set<nat>, m: nat)
    requires m < |orig| && orig[m].title == "Unreleased"
    ensures MovedUpTo(orig, promotable, m + 1) == MovedUpTo(orig, promotable, m)
  {
    hide Collected, CutAll, Sieved;
    CollectedNext(orig, m, FoundIn(orig), promotable);
    SievedNext(orig, m, promotable);
    AtSeam(orig, promotable, m);
  }

  lemma AtSeam(orig: seq<Section>, promotable: set<nat>, m: nat)
    requires m < |orig|
    ensures var rest := Sieved(orig[..m], promotable) + orig[m..];
            |rest| == |orig| && rest[m] == orig[m] && rest[m := orig[m]] == rest
  {
    hide Sifted;
  }

  /** One release done: its items gone, and collected. */
  lemma ReleaseMoves(orig: seq<Section>, promotable: set<nat>, m: nat, next: seq<Section>)
    requires m < |orig| && orig[m].title != "Unreleased"
    requires var sections, t := MovedUpTo(orig, promotable, m), CutAll(orig[m], Marked(promotable));
             var i := m + |sections| - |orig|;
             var u := Gained(orig[m].subsections, Collected(orig[..m], FoundIn(orig), promotable), promotable);
             0 <= i < |sections|
             && next == if u.None? then sections[i := t]
                        else if FirstUnreleased(sections) == |sections| then [u.value] + sections[i := t]
                        else sections[i := t][FirstUnreleased(sections) := u.value]
    ensures next == MovedUpTo(orig, promotable, m + 1)
  {
    hide Collected, CutAll, Sieved, Gained, FirstUnreleased, FoundIn, WithOpen;
    CollectedNext(orig, m, FoundIn(orig), promotable);
    SievedNext(orig, m, promotable);
    SiftedTitles(orig, promotable, m);
    MovedParts(orig, promotable, m);
    FoundAtFirst(orig);
    var rest, v := Sieved(orig[..m], promotable) + orig[m..], Collected(orig[..m], FoundIn(orig), promotable);
    if v.Some? { GainedStays(orig[m].subsections, v, promotable); }
    AtSeam(orig, promotable, m);
    OpenMoves(rest, FirstUnreleased(orig), v, Gained(orig[m].subsections, v, promotable), m, CutAll(orig[m], Marked(promotable)));
  }

  /** The first [Unreleased] section and another one change one after the other. */
  lemma OpenMoves(rest: seq<Section>, k: nat, v: Option<Section>, u: Option<Section>, m: nat, t: Section)
    requires m < |rest| && k <= |rest| && k != m && (v.Some? ==> u.Some?) && (k < |rest| ==> v.Some?)
    ensures var sections := WithOpen(rest, k, v);
            var i := m + |sections| - |rest|;
            0 <= i < |sections|
            && WithOpen(rest[m := t], k, u)
               == if u.None? then sections[i := t]
                  else if v.None? then [u.value] + sections[i := t]
                  else sections[i := t][(if k < |rest| then k else 0) := u.value]
  {
    if v.Some? && k == |rest| {
      assert ([v.value] + rest)[m + 1 := t] == [v.value] + rest[m := t];
      assert ([v.value] + rest[m := t])[0 := u.value] == [u.value] + rest[m := t];
    } else if v.Some? {
      assert rest[k := v.value][m := t][k := u.value] == rest[m := t][k := u.value];
    }
  }

  /** What is kept up to section `i`; `u` is the first [Unreleased] section. */
  ghost predicate Keeping(orig: seq<Section>, sections: seq<Section>, promotable: set<nat>, i: nat, u: nat) {
    i <= |sections| && Promoting(orig, sections, promotable, i) && u == FirstUnreleased(sections)
    && (u == |sections| ==> FirstUnreleased(orig) == |orig| && Heads(sections) == Heads(orig))
    && (Promoted(orig, promotable) == {} ==> sections == orig)
  }

  /** What is known before section `i` is visited. */
  ghost predicate Visiting(orig: seq<Section>, sections: seq<Section>, promotable: set<nat>, i: nat, u: nat, m: nat) {
    Keeping(orig, sections, promotable, i, u)
    && m <= |orig| && sections == MovedUpTo(orig, promotable, m) && Reached(orig, sections, promotable, i, m)
  }

  /** A section without its promotable items, and nothing to give. */
  lemma CutKeeps(orig: seq<Section>, sections: seq<Section>, promotable: set<nat>, i: nat, u: nat, t: Section)
    requires i < |sections| && Keeping(orig, sections, promotable, i, u) && sections[i].title != "Unreleased"
    requires CutFrom(sections[i], t, Marked(promotable), |sections[i].subsections|)
    requires SectionSift(Marked(promotable), true)(sections[i]) == {}
    ensures SectionSift(Marked(promotable), true)(t) == {}
    ensures Keeping(orig, sections[i := t], promotable, i + 1, u)
  {
    hide Sound, Ordered, MergeSafe, SectionEntries, SectionSift, Marked, UnionOf, CutFrom, NewUnreleased, FirstUnreleased,
         Staying, Promoted, Unreleased, Released, Heads, SameHead;
    HeadKept(sections[i], t, promotable);
    CutStep(orig, sections, promotable, i, t);
    CutNothing(sections[i], t, Marked(promotable));
    assert sections[i := t] == sections;
  }

  /** Its items given to the first [Unreleased] section. */
  lemma GivingKeeps(orig: seq<Section>, sections: seq<Section>, promotable: set<nat>, i: nat, u: nat,
                    t: Section, given: Section)
    requires i < |sections| && Keeping(orig, sections, promotable, i, u) && sections[i].title != "Unreleased"
    requires CutFrom(sections[i], t, Marked(promotable), |sections[i].subsections|)
    requires u < |sections| && Sound(given) && SameHead(sections[u], given)
    requires MergeSafe(sections[u].subsections) ==> MergeSafe(given.subsections)
    requires var moved := SectionSift(Marked(promotable), true)(sections[i]);
             SectionEntries(given) == SectionEntries(sections[u]) + moved && (moved == {} ==> given == sections[u])
    ensures SectionSift(Marked(promotable), true)(t) == {}
    ensures Keeping(orig, sections[i := t][u := given], promotable, i + 1, u)
  {
    hide Sound, Ordered, MergeSafe, SectionEntries, SectionSift, Marked, UnionOf, CutFrom, NewUnreleased, FirstUnreleased,
         Staying, Promoted, Unreleased, Released, Heads, SameHead;
    HeadKept(sections[i], t, promotable);
    CutStep(orig, sections, promotable, i, t);
    if Promoted(orig, promotable) == {} { NothingMoves(orig, promotable, i, t); }
    var cut := sections[i := t];
    SameHeadOf(sections[u], given);
    HeadsUpdate(sections, i, t);
    SameFirst(sections, cut, u);
    assert cut[u] == sections[u];
    GainStep(cut, promotable, u, given, SectionSift(Marked(promotable), true)(sections[i]));
    HeadsUpdate(cut, u, given);
    SameFirst(cut, cut[u := given], u);
  }

  /** Its items in an [Unreleased] section created for them. */
  lemma CreatingKeeps(orig: seq<Section>, sections: seq<Section>, promotable: set<nat>, i: nat, u: nat,
                      t: Section, given: Section)
    requires i < |sections| && Keeping(orig, sections, promotable, i, u) && sections[i].title != "Unreleased"
    requires CutFrom(sections[i], t, Marked(promotable), |sections[i].subsections|)
    requires u == |sections| && Sound(given) && SameHead(NewUnreleased(), given) && MergeSafe(given.subsections)
    requires SectionSift(Marked(promotable), true)(sections[i]) != {}
    requires SectionEntries(given) == SectionSift(Marked(promotable), true)(sections[i])
    ensures SectionSift(Marked(promotable), true)(t) == {}
    ensures Keeping(orig, [given] + sections[i := t], promotable, i + 1, 0)
  {
    hide Sound, Ordered, MergeSafe, SectionEntries, SectionSift, Marked, UnionOf, CutFrom, NewUnreleased, FirstUnreleased,
         Staying, Promoted, Unreleased, Released, Heads, SameHead;
    HeadKept(sections[i], t, promotable);
    CutStep(orig, sections, promotable, i, t);
    SomethingPromoted(orig, sections, promotable, i);
    var cut := sections[i := t];
    HeadsUpdate(sections, i, t);
    SameFirst(sections, cut, u);
    NewTitle(given);
    CreateStep(cut, promotable, given);
    HeadsInFront(NewUnreleased(), given, orig, cut);
    FrontIsFirst([given] + cut);
  }

  /** One release of the loop: cut its promotable items, and give them to [Unreleased]. */
  method PromoteStep(ghost orig: seq<Section>, sections: seq<Section>, promotable: set<nat>, i: nat, u: nat, ghost m: nat)
    returns (next: seq<Section>, v: nat, ghost done: nat)
    requires i < |sections| && Visiting(orig, sections, promotable, i, u, m) && sections[i].title != "Unreleased"
    ensures i + 1 <= |next| && Visiting(orig, next, promotable, i + 1, v, done)
    ensures (|next| == |sections| && v == u) || (u == |sections| && v < |next|)
  {
    hide Sound, Ordered, MergeSafe, SectionEntries, SectionSift, Marked, UnionOf, CutFrom, NewUnreleased, FirstUnreleased,
         Staying, Promoted, Unreleased, Released, Heads, SameHead, MovedUpTo, Collected, Gained, CutAll, FoundIn, Reached,
         Grown;
    var s := sections[i];
    assert s in sections;
    var found := if u < |sections| then Some(sections[u]) else None;
    if u < |sections| { assert sections[u] in sections; }
    var t, unreleased := PromoteSection(s, found, promotable);
    if u < |sections| {
      next, v := sections[i := t][u := unreleased.value], u;
      GivingKeeps(orig, sections, promotable, i, u, t, unreleased.value);
    } else if unreleased.Some? {
      next, v := [unreleased.value] + sections[i := t], 0;
      CreatingKeeps(orig, sections, promotable, i, u, t, unreleased.value);
    } else {
      next, v := sections[i := t], u;
      CutKeeps(orig, sections, promotable, i, u, t);
    }
    FoundAtFirst(sections);
    done := StepIsMove(orig, sections, promotable, i, u, m, t, unreleased, next);
  }

  /** The step reaches one original section more, or nothing is left to do at a second visit. */
  lemma StepIsMove(orig: seq<Section>, sections: seq<Section>, promotable: set<nat>, i: nat, u: nat, m: nat,
                   t: Section, unreleased: Option<Section>, next: seq<Section>)
    returns (done: nat)
    requires i < |sections| && sections[i].title != "Unreleased" && m <= |orig| && u == FirstUnreleased(sections)
    requires sections == MovedUpTo(orig, promotable, m) && Reached(orig, sections, promotable, i, m)
    requires CutFrom(sections[i], t, Marked(promotable), |sections[i].subsections|)
    requires SectionSift(Marked(promotable), true)(t) == {}
    requires unreleased == Gained(sections[i].subsections, FoundIn(sections), promotable)
    requires SectionSift(Marked(promotable), true)(sections[i]) == {} ==> unreleased == FoundIn(sections)
    requires next == if unreleased.None? then sections[i := t]
                     else if u == |sections| then [unreleased.value] + sections[i := t]
                     else sections[i := t][u := unreleased.value]
    ensures done <= |orig| && next == MovedUpTo(orig, promotable, done)
    ensures Reached(orig, next, promotable, i + 1, done)
  {
    hide SectionSift, Marked, CutFrom, FirstUnreleased, MovedUpTo, Collected, Gained, CutAll, FoundIn;
    MovedParts(orig, promotable, m);
    CutIsAll(sections[i], t, Marked(promotable));
    if |sections| > |orig| && m == i {
      CutNothing(sections[i], t, Marked(promotable));
      FoundAtFirst(sections);
      done := m;
      assert next == sections;
    } else {
      assert i == m + |sections| - |orig| && Last(sections, |orig|)[m] == sections[i];
      assert sections[i] == orig[m];
      done := m + 1;
      ReleaseMoves(orig, promotable, m, next);
      assert |next| > |sections| ==> next[i + 1] == t;
    }
  }

  lemma FoundAtFirst(sections: seq<Section>)
    ensures var u := FirstUnreleased(sections);
            FoundIn(sections) == if u < |sections| then Some(sections[u]) else None
  {
  }

  /**
   * The loop over the sections. Creating [Unreleased] shifts them by one, so the section at hand is
   * visited a second time; nothing is left to promote in it then.
   */
  method PromoteAll(orig: seq<Section>, promotable: set<nat>) returns (sections: seq<Section>)
    requires AllSound(orig) && AllOrdered(orig)
    ensures sections == MovedUpTo(orig, promotable, |orig|)
    ensures AllSound(sections) && AllOrdered(sections) && (AllMergeSafe(orig) ==> AllMergeSafe(sections))
    ensures Heads(sections) == Heads(Opened(orig, promotable))
    ensures Promoted(orig, promotable) == {} ==> sections == orig
    ensures Released(sections) == Staying(orig, promotable)
    ensures Unreleased(sections) == Unreleased(orig) + Promoted(orig, promotable)
  {
    hide Visiting, MovedUpTo, FirstUnreleased, Sound, Heads, Opened, Staying, Promoted, Unreleased, Released;
    sections := orig;
    var u := FirstUnreleased(sections);
    var i := 0;
    ghost var m := 0;
    VisitingStarts(orig, promotable);
    while i < |sections|
      invariant i <= |sections| && Visiting(orig, sections, promotable, i, u, m)
      decreases u == |sections|, |sections| - i
    {
      if sections[i].title != "Unreleased" {
        sections, u, m := PromoteStep(orig, sections, promotable, i, u, m);
      } else {
        VisitingSkips(orig, sections, promotable, i, u, m);
        m := m + 1;
      }
      i := i + 1;
    }
    VisitingEnds(orig, sections, promotable, u, m);
  }

  lemma VisitingStarts(orig: seq<Section>, promotable: set<nat>)
    requires AllSound(orig) && AllOrdered(orig)
    ensures Visiting(orig, orig, promotable, 0, FirstUnreleased(orig), 0)
  {
    hide Sound, Ordered, MergeSafe, SectionEntries, SectionSift, Marked, UnionOf, FirstUnreleased, Staying, Promoted, Unreleased,
         Heads, MovedUpTo;
    NothingMoved(orig, promotable);
  }

  lemma VisitingSkips(orig: seq<Section>, sections: seq<Section>, promotable: set<nat>, i: nat, u: nat, m: nat)
    requires Visiting(orig, sections, promotable, i, u, m) && i < |sections| && sections[i].title == "Unreleased"
    ensures Visiting(orig, sections, promotable, i + 1, u, m + 1)
  {
    hide Sound, Ordered, MergeSafe, SectionEntries, SectionSift, Marked, UnionOf, FirstUnreleased, Staying, Promoted, Unreleased,
         Heads, MovedUpTo, NewUnreleased;
    NotCreated(orig, sections, promotable, i, m);
    UnreleasedStays(orig, promotable, m);
  }

  lemma VisitingEnds(orig: seq<Section>, sections: seq<Section>, promotable: set<nat>, u: nat, m: nat)
    requires AllSound(orig) && Visiting(orig, sections, promotable, |sections|, u, m)
    ensures sections == MovedUpTo(orig, promotable, |orig|)
    ensures AllSound(sections) && AllOrdered(sections) && (AllMergeSafe(orig) ==> AllMergeSafe(sections))
    ensures Heads(sections) == Heads(Opened(orig, promotable))
    ensures Promoted(orig, promotable) == {} ==> sections == orig
    ensures Released(sections) == Staying(orig, promotable)
    ensures Unreleased(sections) == Unreleased(orig) + Promoted(orig, promotable)
  {
    hide Sound, Ordered, MergeSafe, SectionEntries, SectionSift, Marked, UnionOf, NewUnreleased, FirstUnreleased,
         Staying, Promoted, Unreleased, Released, Heads, MovedUpTo, Collected, FoundIn, Opened;
    MovedParts(orig, promotable, m);
    NothingLeft(sections, promotable);
    GrownIsOpened(orig, sections, promotable);
  }

  lemma NothingMoved(orig: seq<Section>, promotable: set<nat>)
    ensures MovedUpTo(orig, promotable, 0) == orig
  {
    assert orig[..0] == [] && Sieved([], promotable) + orig[0..] == orig;
  }

  /** An [Unreleased] section that is reached was there before. */
  lemma NotCreated(orig: seq<Section>, sections: seq<Section>, promotable: set<nat>, i: nat, m: nat)
    requires m <= |orig| && i < |sections| && sections[i].title == "Unreleased"
    requires sections == MovedUpTo(orig, promotable, m) && Reached(orig, sections, promotable, i, m)
    ensures |sections| == |orig| && m == i < |orig| && orig[m].title == "Unreleased"
  {
    hide SectionSift, Marked, MovedUpTo, Collected, FoundIn, FirstUnreleased;
    MovedParts(orig, promotable, m);
    if m == 0 { NothingMoved(orig, promotable); }
    var j := i - (|sections| - |orig|);
    assert 0 <= j < |orig| ==> Last(sections, |orig|)[j] == sections[i];
  }

  lemma NothingMoves(orig: seq<Section>, promotable: set<nat>, i: nat, t: Section)
    requires i < |orig| && orig[i].title != "Unreleased" && Promoted(orig, promotable) == {}
    requires CutFrom(orig[i], t, Marked(promotable), |orig[i].subsections|)
    ensures SectionSift(Marked(promotable), true)(orig[i]) == {} && t == orig[i]
  {
    hide SectionSift, Marked, CutFrom;
    UnionAt(orig, i, Only(false, SectionSift(Marked(promotable), true)));
    CutNothing(orig[i], t, Marked(promotable));
  }

  lemma GrownIsOpened(orig: seq<Section>, sections: seq<Section>, promotable: set<nat>)
    requires AllSound(orig) && AllSound(sections) && Grown(orig, sections, promotable)
    requires Unreleased(sections) == Unreleased(orig) + Promoted(orig, promotable)
    ensures Heads(sections) == Heads(Opened(orig, promotable))
  {
    hide Sound, SectionEntries, SectionSift, Marked, FirstUnreleased, NewUnreleased, Promoted;
    if Heads(sections) == Heads(orig) && FirstUnreleased(orig) == |orig| {
      SameHeads(orig, sections);
      SameFirst(orig, sections, |orig|);
      FirstPart(orig, SectionEntries);
      FirstPart(sections, SectionEntries);
    }
  }

  lemma FrontIsFirst(sections: seq<Section>)
    requires sections != [] && sections[0].title == "Unreleased"
    ensures FirstUnreleased(sections) == 0
  {
  }

  lemma HeadKept(s: Section, t: Section, promotable: set<nat>)
    requires CutFrom(s, t, Marked(promotable), |s.subsections|)
    ensures SameHead(s, t) && t.title == s.title
  {
  }

  lemma NewTitle(t: Section)
    requires SameHead(NewUnreleased(), t)
    ensures t.title == "Unreleased"
  {
  }

  lemma NothingLeft(sections: seq<Section>, promotable: set<nat>)
    requires forall k :: 0 <= k < |sections| && sections[k].title != "Unreleased" ==>
               SectionSift(Marked(promotable), true)(sections[k]) == {}
    ensures Promoted(sections, promotable) == {}
    ensures Released(sections) == Staying(sections, promotable)
  {
    hide SectionEntries, SectionSift, Marked;
    var m := Marked(promotable);
    forall k | 0 <= k < |sections| && sections[k].title != "Unreleased"
      ensures SectionEntries(sections[k]) == SectionSift(m, false)(sections[k])
    {
      SiftCovers(sections[k], m);
    }
    UnionEmpty(sections, Only(false, SectionSift(m, true)));
    UnionSame(sections, sections, Only(false, Place(SectionEntries)), Only(false, Place(SectionSift(m, false))));
  }

  // ---------------------------------------------------------------- the whole fixer

  method NormalizeAll(sections: seq<Section>) returns (r: seq<Section>)
    requires AllSound(sections)
    ensures |r| == |sections| && forall i :: 0 <= i < |r| ==> Normalized(sections[i], r[i])
  {
    hide Sound, Normalized, DistinctTitles;
    r := [];
    var i := 0;
    while i < |sections|
      invariant 0 <= i <= |sections| && |r| == i
      invariant forall k :: 0 <= k < i ==> Normalized(sections[k], r[k])
    {
      assert sections[i] in sections;
      var s := NormalizeSection(sections[i]);
      r := r + [s];
      i := i + 1;
    }
  }

  /** Merging headings keeps a function of sections that it keeps section by section. */
  lemma NormalizedKeep(sections: seq<Section>, r: seq<Section>)
    requires |r| == |sections| && (forall i :: 0 <= i < |r| ==> Normalized(sections[i], r[i])) && AllMergeSafe(sections)
    ensures Released(r) == Released(sections) && Unreleased(r) == Unreleased(sections)
  {
    hide SectionEntries, Sound, MergeSafe, SameItems;
    forall i | 0 <= i < |r| ensures r[i].title == sections[i].title && SectionEntries(r[i]) == SectionEntries(sections[i]) {
      assert sections[i] in sections && Normalized(sections[i], r[i]);
      SameItemsSameEntries(r[i], sections[i]);
    }
    UnionSame(r, sections, Only(true, SectionEntries), Only(true, SectionEntries));
    UnionSame(r, sections, Only(false, Place(SectionEntries)), Only(false, Place(SectionEntries)));
  }

  lemma NormalizedHeads(sections: seq<Section>, r: seq<Section>)
    requires |r| == |sections| && forall i :: 0 <= i < |r| ==> Normalized(sections[i], r[i])
    ensures Heads(r) == Heads(sections)
  {
    hide SectionEntries, Sound, MergeSafe, SameItems, TrimBlank;
    forall i | 0 <= i < |r| ensures HeadOf(r[i]) == HeadOf(sections[i]) {
      assert Normalized(sections[i], r[i]);
      TrimBlankTrims(Texts(sections[i].leading));
      TrimmedStays(TrimBlank(Texts(sections[i].leading)));
    }
  }

  /** [Unreleased] first, then the releases in some order by title. */
  function SortSections(sections: seq<Section>, precedes: (string, string) -> bool): seq<Section> {
    WithTitle(sections, true) + SortReleases(WithTitle(sections, false), precedes)
  }

  function WithTitle(sections: seq<Section>, unreleased: bool): seq<Section> {
    if sections == [] then []
    else
      var rest := WithTitle(sections[1..], unreleased);
      if (sections[0].title == "Unreleased") == unreleased then [sections[0]] + rest else rest
  }

  function SortReleases(sections: seq<Section>, precedes: (string, string) -> bool): seq<Section> {
    if sections == [] then [] else InsertRelease(SortReleases(sections[1..], precedes), sections[0], precedes)
  }

  function InsertRelease(sections: seq<Section>, s: Section, precedes: (string, string) -> bool): seq<Section> {
    if sections == [] || !precedes(sections[0].title, s.title) then [s] + sections
    else [sections[0]] + InsertRelease(sections[1..], s, precedes)
  }

  lemma {:induction false} InsertReleaseKeeps<K>(
      sections: seq<Section>, s: Section, precedes: (string, string) -> bool, f: Section -> set<K>)
    ensures UnionOf(InsertRelease(sections, s, precedes), f) == UnionOf(sections, f) + f(s)
    ensures forall x :: x in InsertRelease(sections, s, precedes) ==> x in sections || x == s
  {
    if sections == [] || !precedes(sections[0].title, s.title) {
      assert ([s] + sections)[1..] == sections;
    } else {
      InsertReleaseKeeps(sections[1..], s, precedes, f);
      var rest := InsertRelease(sections[1..], s, precedes);
      assert ([sections[0]] + rest)[1..] == rest;
    }
  }

  lemma {:induction false} SortReleasesKeeps<K>(
      sections: seq<Section>, precedes: (string, string) -> bool, f: Section -> set<K>)
    ensures UnionOf(SortReleases(sections, precedes), f) == UnionOf(sections, f)
    ensures forall x :: x in SortReleases(sections, precedes) ==> x in sections
  {
    hide InsertRelease;
    if sections != [] {
      SortReleasesKeeps(sections[1..], precedes, f);
      InsertReleaseKeeps(SortReleases(sections[1..], precedes), sections[0], precedes, f);
    }
  }

  lemma {:induction false} WithTitleKeeps<K>(sections: seq<Section>, f: Section -> set<K>)
    ensures UnionOf(WithTitle(sections, true), f) + UnionOf(WithTitle(sections, false), f) == UnionOf(sections, f)
    ensures forall x :: x in WithTitle(sections, true) || x in WithTitle(sections, false) ==> x in sections
  {
    if sections != [] {
      WithTitleKeeps(sections[1..], f);
      var rest := WithTitle(sections[1..], sections[0].title == "Unreleased");
      assert ([sections[0]] + rest)[1..] == rest;
    }
  }

  /** The releases of a file come out by falling version number. */
  lemma ReleasesAreSorted(sections: seq<Section>, version: string)
    requires Among(sections, IsVersion) && IsVersion(version)
    ensures var r := SortReleases(sections, Precedes);
            InOrder(r, Precedes) && multiset(r) == multiset(sections)
            && Like(r, Precedes, version) == Like(sections, Precedes, version)
  {
    VersionsAreOrdered();
    SortReleasesSorts(sections, Precedes, IsVersion, version);
  }

  /** One title that is no version number, between two versions it ties with, hides from the sort that
      they stand in the wrong order. */
  lemma LeftUnsorted(t: string, a: Section, b: Section, c: Section)
    requires !IsVersion(t) && a.title == Sibling(t, 1) && b.title == t && c.title == Sibling(t, 2)
    ensures SortReleases([a, b, c], Precedes) == [a, b, c] && Precedes(c.title, a.title)
    ensures !InOrder([a, b, c], Precedes)
  {
    hide Precedes, Sibling, IsVersion;
    TiesWithBoth(t);
    var all := [a, b, c];
    assert all[1..] == [b, c] && [b, c][1..] == [c] && [c][1..] == [];
    assert SortReleases([], Precedes) == [] && SortReleases([c], Precedes) == [c] + [];
    assert SortReleases([b, c], Precedes) == [b] + [c];
    assert SortReleases(all, Precedes) == [a] + [b, c];
    assert Precedes(all[2].title, all[0].title);
  }

  /** The sort puts every list of such titles in order if and only if all of them are version numbers. */
  lemma SortsIff(among: string -> bool)
    requires forall t :: IsVersion(t) ==> among(t)
    ensures (forall sections :: Among(sections, among) ==> InOrder(SortReleases(sections, Precedes), Precedes))
            <==> forall t :: among(t) ==> IsVersion(t)
  {
    hide Precedes, Sibling, IsVersion, SortReleases, InOrder;
    if forall t :: among(t) ==> IsVersion(t) {
      forall sections | Among(sections, among) ensures InOrder(SortReleases(sections, Precedes), Precedes) {
        OneIsVersion();
        ReleasesAreSorted(sections, Sibling("x", 1));
      }
    } else {
      var t :| among(t) && !IsVersion(t);
      TiesWithBoth(t);
      var a, b, c := Titled(Sibling(t, 1)), Titled(t), Titled(Sibling(t, 2));
      LeftUnsorted(t, a, b, c);
      assert Among([a, b, c], among);
    }
  }

  function Titled(title: string): Section {
    Section("", title, [], [])
  }

  lemma OneIsVersion()
    ensures !IsVersion("x") && IsVersion(Sibling("x", 1))
  {
    hide Precedes, IsVersion, Sibling;
    OtherTitlesAreNot();
    TiesWithBoth("x");
  }

  /** Releases titled `1`, `x`, `2` stay as they are. */
  lemma XStaysBetween(a: Section, b: Section, c: Section)
    requires a.title == "1" && b.title == "x" && c.title == "2"
    ensures SortReleases([a, b, c], Precedes) == [a, b, c] && Precedes(c.title, a.title)
  {
    hide Precedes, Sibling, IsVersion;
    OtherTitlesAreNot();
    LeftUnsorted("x", a, b, c);
  }

  lemma SortKeeps<K>(sections: seq<Section>, precedes: (string, string) -> bool, f: Section -> set<K>)
    ensures UnionOf(SortSections(sections, precedes), f) == UnionOf(sections, f)
    ensures AllSound(sections) ==> AllSound(SortSections(sections, precedes))
  {
    hide Sound;
    WithTitleKeeps(sections, f);
    SortReleasesKeeps(WithTitle(sections, false), precedes, f);
    UnionAppend(WithTitle(sections, true), SortReleases(WithTitle(sections, false), precedes), f);
  }

  predicate InOrder(sections: seq<Section>, precedes: (string, string) -> bool) {
    forall i, j :: 0 <= i < j < |sections| ==> !precedes(sections[j].title, sections[i].title)
  }

  lemma {:induction false} InsertReleaseMembers(sections: seq<Section>, s: Section, precedes: (string, string) -> bool)
    ensures multiset(InsertRelease(sections, s, precedes)) == multiset(sections) + multiset{s}
    ensures forall x :: x in InsertRelease(sections, s, precedes) ==> x in sections || x == s
  {
    if sections != [] && precedes(sections[0].title, s.title) {
      InsertReleaseMembers(sections[1..], s, precedes);
      assert sections == [sections[0]] + sections[1..];
    }
  }

  predicate Among(sections: seq<Section>, among: string -> bool) {
    forall s :: s in sections ==> among(s.title)
  }

  lemma {:induction false} InsertReleaseSorts(
      sections: seq<Section>, s: Section, precedes: (string, string) -> bool, among: string -> bool)
    requires WeakOrder(precedes, among) && InOrder(sections, precedes) && among(s.title) && Among(sections, among)
    ensures InOrder(InsertRelease(sections, s, precedes), precedes)
  {
    if sections != [] && precedes(sections[0].title, s.title) {
      var rest := InsertRelease(sections[1..], s, precedes);
      InsertReleaseSorts(sections[1..], s, precedes, among);
      InsertReleaseMembers(sections[1..], s, precedes);
      forall x | x in rest ensures !precedes(x.title, sections[0].title) {
        if x in sections[1..] {
          var k :| 0 <= k < |sections| - 1 && sections[1..][k] == x;
          assert sections[k + 1] == x;
        }
      }
      FrontInOrder(sections[0], rest, precedes);
    } else if sections != [] {
      forall x | x in sections ensures !precedes(x.title, s.title) {
        var k :| 0 <= k < |sections| && sections[k] == x;
        if k > 0 { assert !precedes(sections[k].title, sections[0].title); }
      }
      FrontInOrder(s, sections, precedes);
    }
  }

  lemma FrontInOrder(s: Section, rest: seq<Section>, precedes: (string, string) -> bool)
    requires InOrder(rest, precedes) && forall x :: x in rest ==> !precedes(x.title, s.title)
    ensures InOrder([s] + rest, precedes)
  {
  }

  /** The releases come out in order, none lost; equal versions keep their order. */
  lemma {:induction false} SortReleasesSorts(
      sections: seq<Section>, precedes: (string, string) -> bool, among: string -> bool, version: string)
    requires WeakOrder(precedes, among) && Among(sections, among) && among(version)
    ensures var r := SortReleases(sections, precedes);
            InOrder(r, precedes) && multiset(r) == multiset(sections)
            && Like(r, precedes, version) == Like(sections, precedes, version)
    decreases |sections|
  {
    hide InsertRelease, InOrder, WeakOrder;
    if sections == [] {
      NoSections(precedes);
    } else {
      var rest := SortReleases(sections[1..], precedes);
      SortReleasesSorts(sections[1..], precedes, among, version);
      SameAmong(sections[1..], rest, among);
      InsertReleaseSorts(rest, sections[0], precedes, among);
      InsertReleaseMembers(rest, sections[0], precedes);
      InsertLike(rest, sections[0], precedes, among, version);
      LikeCons(sections[0], rest, precedes, version);
      LikeCons(sections[0], sections[1..], precedes, version);
      assert sections == [sections[0]] + sections[1..];
    }
  }

  lemma NoSections(precedes: (string, string) -> bool)
    ensures InOrder([], precedes)
  {
  }

  lemma SameAmong(a: seq<Section>, b: seq<Section>, among: string -> bool)
    requires multiset(a) == multiset(b) && Among(a, among)
    ensures Among(b, among)
  {
    forall s | s in b ensures among(s.title) { assert s in multiset(b) && s in a; }
  }

  lemma LikeCons(s: Section, sections: seq<Section>, precedes: (string, string) -> bool, version: string)
    ensures var rest := Like(sections, precedes, version);
            Like([s] + sections, precedes, version)
            == if !precedes(s.title, version) && !precedes(version, s.title) then [s] + rest else rest
  {
    assert ([s] + sections)[1..] == sections;
  }

  /** The sections that no comparison tells apart from a version. */
  function Like(sections: seq<Section>, precedes: (string, string) -> bool, version: string): seq<Section> {
    if sections == [] then []
    else
      var rest, title := Like(sections[1..], precedes, version), sections[0].title;
      if !precedes(title, version) && !precedes(version, title) then [sections[0]] + rest else rest
  }

  lemma {:induction false} InsertLike(
      sections: seq<Section>, s: Section, precedes: (string, string) -> bool, among: string -> bool, version: string)
    requires WeakOrder(precedes, among) && Among(sections, among) && among(s.title) && among(version)
    ensures Like(InsertRelease(sections, s, precedes), precedes, version) == Like([s] + sections, precedes, version)
  {
    assert ([s] + sections)[1..] == sections;
    if sections == [] || !precedes(sections[0].title, s.title) {
    } else {
      InsertLike(sections[1..], s, precedes, among, version);
      var rest := InsertRelease(sections[1..], s, precedes);
      assert ([sections[0]] + rest)[1..] == rest && ([s] + sections[1..])[1..] == sections[1..];
    }
  }

  /** Two lists of sections with the same titles, related place by place. */
  predicate Paired(a: seq<Section>, b: seq<Section>, r: (Section, Section) -> bool) {
    |a| == |b| && forall i :: 0 <= i < |a| ==> a[i].title == b[i].title && r(a[i], b[i])
  }

  lemma PairedCons(s: Section, a: seq<Section>, t: Section, b: seq<Section>, r: (Section, Section) -> bool)
    requires s.title == t.title && r(s, t) && Paired(a, b, r)
    ensures Paired([s] + a, [t] + b, r)
  {
  }

  /** Sorting looks at titles only, so it keeps pairs together. */
  lemma {:induction false} InsertPaired(a: seq<Section>, s: Section, b: seq<Section>, t: Section,
                                        precedes: (string, string) -> bool, r: (Section, Section) -> bool)
    requires Paired(a, b, r) && s.title == t.title && r(s, t)
    ensures Paired(InsertRelease(a, s, precedes), InsertRelease(b, t, precedes), r)
    decreases |a|
  {
    if a == [] || !precedes(a[0].title, s.title) {
      PairedCons(s, a, t, b, r);
    } else {
      InsertPaired(a[1..], s, b[1..], t, precedes, r);
      PairedCons(a[0], InsertRelease(a[1..], s, precedes), b[0], InsertRelease(b[1..], t, precedes), r);
    }
  }

  lemma {:induction false} WithTitlePaired(
      a: seq<Section>, b: seq<Section>, unreleased: bool, r: (Section, Section) -> bool)
    requires Paired(a, b, r)
    ensures Paired(WithTitle(a, unreleased), WithTitle(b, unreleased), r)
    decreases |a|
  {
    if a != [] {
      WithTitlePaired(a[1..], b[1..], unreleased, r);
      PairedCons(a[0], WithTitle(a[1..], unreleased), b[0], WithTitle(b[1..], unreleased), r);
    }
  }

  lemma {:induction false} SortReleasesPaired(
      a: seq<Section>, b: seq<Section>, precedes: (string, string) -> bool, r: (Section, Section) -> bool)
    requires Paired(a, b, r)
    ensures Paired(SortReleases(a, precedes), SortReleases(b, precedes), r)
    decreases |a|
  {
    hide InsertRelease;
    if a != [] {
      SortReleasesPaired(a[1..], b[1..], precedes, r);
      InsertPaired(SortReleases(a[1..], precedes), a[0], SortReleases(b[1..], precedes), b[0], precedes, r);
    }
  }

  lemma SortPaired(a: seq<Section>, b: seq<Section>, precedes: (string, string) -> bool, r: (Section, Section) -> bool)
    requires Paired(a, b, r)
    ensures Paired(SortSections(a, precedes), SortSections(b, precedes), r)
  {
    hide WithTitle, SortReleases;
    WithTitlePaired(a, b, true, r);
    WithTitlePaired(a, b, false, r);
    SortReleasesPaired(WithTitle(a, false), WithTitle(b, false), precedes, r);
  }

  lemma SortHeads(a: seq<Section>, b: seq<Section>, precedes: (string, string) -> bool)
    requires AllSound(a) && AllSound(b) && Heads(a) == Heads(b)
    ensures Heads(SortSections(a, precedes)) == Heads(SortSections(b, precedes))
  {
    hide HeadOf, Sound, SortSections;
    var r := (x: Section, y: Section) => HeadOf(x) == HeadOf(y);
    SameHeads(a, b);
    forall i | 0 <= i < |a| ensures r(a[i], b[i]) { assert Heads(a)[i] == Heads(b)[i]; }
    SortPaired(a, b, precedes, r);
  }

  /** What merging makes of each section is found again behind the sorting. */
  lemma SortNormalized(sections: seq<Section>, merged: seq<Section>, precedes: (string, string) -> bool)
    requires |merged| == |sections| && forall i :: 0 <= i < |merged| ==> Normalized(sections[i], merged[i])
    ensures Paired(SortSections(merged, precedes), SortSections(sections, precedes), MergesSafely())
  {
    hide Sound, SameItems, MergeSafe, SortSections;
    forall i | 0 <= i < |merged|
      ensures merged[i].title == sections[i].title && MergesSafely()(merged[i], sections[i])
    {
      assert Normalized(sections[i], merged[i]);
    }
    SortPaired(merged, sections, precedes, MergesSafely());
  }

  /** The merged section keeps its items exactly when merging is safe. */
  ghost function MergesSafely(): (Section, Section) -> bool {
    (merged: Section, s: Section) => SameItems(merged.subsections, s.subsections) <==> MergeSafe(s.subsections)
  }

  // ---------------------------------------------------------------- from text to text

  function SectionsOf(content: string): seq<Section> {
    Parse(Number(SplitLines(content))).sections
  }

  /** The text before the first release, blank lines around it aside. */
  function Lead(content: string): seq<string> {
    TrimBlank(Texts(Parse(Number(SplitLines(content))).prefix))
  }

  lemma FirstIsOneLine(lines: seq<Line>)
    requires lines != [] && SingleLines(lines)
    ensures OneLine(lines[0].text)
  {
  }

  lemma BodyIsSound(lines: seq<Line>, k: nat)
    requires lines != [] && k == 1 + Until(lines[1..], IsCategory)
    requires SingleLines(lines) && Increasing(lines) && forall l :: l in lines ==> !IsRelease(l.text)
    ensures LinesFrom(lines[1..k], PlainLine) && Increasing(lines[1..k])
    ensures SingleLines(lines[k..]) && Increasing(lines[k..]) && forall l :: l in lines[k..] ==> !IsRelease(l.text)
  {
    hide IsRelease, IsCategory, Until, OneLine;
    var body := lines[1..k];
    forall l | l in body ensures PlainLine(l.text) {
      var i :| 0 <= i < |body| && body[i] == l;
      assert lines[1..][i] == l == lines[i + 1] && l in lines;
    }
    RestIsSound(lines, k);
  }

  lemma RestIsSound(lines: seq<Line>, k: nat)
    requires k <= |lines| && SingleLines(lines) && Increasing(lines)
    ensures SingleLines(lines[k..]) && Increasing(lines[k..]) && forall l :: l in lines[k..] ==> l in lines
  {
    hide OneLine;
  }

  lemma {:induction false} SubsSound(lines: seq<Line>)
    requires lines != [] ==> IsCategory(lines[0].text)
    requires SingleLines(lines) && Increasing(lines) && forall l :: l in lines ==> !IsRelease(l.text)
    ensures var subs := ParseSubsections(lines);
            SoundSubs(subs) && forall x :: x in subs ==> Increasing(x.lines)
  {
    hide GoodTitle, IsRelease, IsCategory, CategoryTitle, SingleLines, Increasing, LinesFrom, Until;
    if lines != [] {
      var k := 1 + Until(lines[1..], IsCategory);
      assert OneLine(lines[0].text) by { FirstIsOneLine(lines); }
      TitleIsGood(lines[0].text);
      BodyIsSound(lines, k);
      SubsSound(lines[k..]);
    }
  }

  lemma SectionSound(heading: string, body: seq<Line>)
    requires IsRelease(heading) && OneLine(heading) && SingleLines(body) && Increasing(body)
    requires forall l :: l in body ==> !IsRelease(l.text)
    ensures Sound(ParseSection(heading, body)) && Ordered(ParseSection(heading, body))
  {
    hide IsRelease, IsCategory, ReleaseTitle, ParseSubsections, SoundSubs, Increasing, OneLine;
    var j := Until(body, IsCategory);
    forall l | l in body[..j] ensures PlainLine(l.text) {
      var i :| 0 <= i < j && body[i] == l;
      assert l in body;
    }
    RestIsSound(body, j);
    SubsSound(body[j..]);
  }

  lemma BodyOfSection(lines: seq<Line>, k: nat)
    requires lines != [] && k == 1 + Until(lines[1..], IsRelease) && SingleLines(lines) && Increasing(lines)
    ensures SingleLines(lines[1..k]) && Increasing(lines[1..k]) && forall l :: l in lines[1..k] ==> !IsRelease(l.text)
    ensures SingleLines(lines[k..]) && Increasing(lines[k..]) && OneLine(lines[0].text)
  {
    hide IsRelease, OneLine;
    forall l | l in lines[1..k] ensures !IsRelease(l.text) {
      var i :| 0 <= i < k - 1 && lines[1..k][i] == l;
      assert lines[1..][i] == l;
    }
  }

  lemma {:induction false} SectionsSound(lines: seq<Line>)
    requires lines != [] ==> IsRelease(lines[0].text)
    requires SingleLines(lines) && Increasing(lines)
    ensures AllSound(ParseSections(lines)) && forall s :: s in ParseSections(lines) ==> Ordered(s)
  {
    hide IsRelease, Sound, Ordered, ParseSection, SingleLines, Increasing;
    if lines != [] {
      var k := 1 + Until(lines[1..], IsRelease);
      BodyOfSection(lines, k);
      SectionSound(lines[0].text, lines[1..k]);
      SectionsSound(lines[k..]);
    }
  }

  lemma ParsedSound(content: string)
    ensures AllSound(SectionsOf(content)) && forall s :: s in SectionsOf(content) ==> Ordered(s)
  {
    LinesAreOneLine(content);
    var lines := Number(SplitLines(content));
    SectionsSound(lines[Until(lines, IsRelease)..]);
  }

  lemma SoundPrints(s: Section)
    requires Sound(s)
    ensures GoodRelease(ReleaseOf(s))
  {
    hide GoodTitle, PlainLine, IsRelease, ReleaseTitle;
    LinesFromTexts(s.leading, PlainLine);
    TrimBlankTrims(Texts(s.leading));
    SubsPrint(s.subsections);
  }

  lemma {:induction false} SubsPrint(subs: seq<Subsection>)
    requires SoundSubs(subs)
    ensures forall c :: c in Categories(subs) ==> GoodCategory(c)
  {
    hide GoodTitle, PlainLine;
    if subs != [] {
      LinesFromTexts(subs[0].lines, PlainLine);
      TrimBlankTrims(Texts(subs[0].lines));
      assert SoundSub(subs[0]);
      assert forall x :: x in subs[1..] ==> x in subs;
      SubsPrint(subs[1..]);
    }
  }

  /** Items by title in a printed section. */
  function ItemsPrinted(cs: seq<Category>, title: string): seq<seq<string>> {
    if cs == [] then [] else (if cs[0].title == title then TextItems(cs[0].lines) else []) + ItemsPrinted(cs[1..], title)
  }

  lemma {:induction false} UnderAppend(a: seq<Subsection>, b: seq<Subsection>, t: string)
    ensures ItemsUnder(a + b, t) == ItemsUnder(a, t) + ItemsUnder(b, t)
    decreases |b|
  {
    hide TextItems, ItemsUnder;
    if b == [] {
      NotUnder(b, t);
      assert a + b == a && ItemsUnder(a, t) + [] == ItemsUnder(a, t);
    } else {
      var n := |b| - 1;
      UnderAppend(a, b[..n], t);
      LastUnder(a + b[..n], b[n], t);
      LastUnder(b[..n], b[n], t);
      assert b == b[..n] + [b[n]] && a + b == a + b[..n] + [b[n]];
      Regroup(ItemsUnder(a, t), ItemsUnder(b[..n], t),
              if b[n].title == t then TextItems(Texts(b[n].lines)) else []);
    }
  }

  lemma {:induction false} UnderPrinted(subs: seq<Subsection>, t: string)
    ensures ItemsUnder(subs, t) == ItemsPrinted(Categories(subs), t)
    decreases |subs|
  {
    hide TextItems, TrimBlank, ItemsUnder;
    if subs == [] {
      NotUnder(subs, t);
    } else {
      var first, rest := [subs[0]], subs[1..];
      UnderPrinted(rest, t);
      UnderAppend(first, rest, t);
      assert subs == first + rest;
      LastUnder([], subs[0], t);
      NotUnder([], t);
      assert [] + first == first;
      ItemsTrimmed(Texts(subs[0].lines));
      NothingInNothing();
    }
  }

  lemma SameReleaseSameItems(s: Section, t: Section)
    requires ReleaseOf(s) == ReleaseOf(t)
    ensures SameItems(s.subsections, t.subsections)
  {
    hide ItemsUnder;
    forall title ensures ItemsUnder(s.subsections, title) == ItemsUnder(t.subsections, title) {
      UnderPrinted(s.subsections, title);
      UnderPrinted(t.subsections, title);
    }
  }

  lemma SameReleaseSameKeys(s: Section, t: Section)
    requires Sound(s) && Sound(t) && ReleaseOf(s) == ReleaseOf(t)
    ensures s.title == t.title && SectionEntries(s) == SectionEntries(t)
  {
    SameReleaseSameItems(s, t);
    SameItemsSameEntries(s, t);
  }

  /** Reading back what was printed: the same items, headings and texts before them. */
  lemma PrintedKeeps(doc: Document)
    requires AllSound(doc.sections) && GoodOutline(OutlineOf(doc))
    ensures Released(SectionsOf(Render(doc))) == Released(doc.sections)
    ensures Unreleased(SectionsOf(Render(doc))) == Unreleased(doc.sections)
    ensures Heads(SectionsOf(Render(doc))) == Heads(doc.sections)
    ensures Lead(Render(doc)) == TrimBlank(Texts(doc.prefix))
    ensures var a, b := SectionsOf(Render(doc)), doc.sections;
            |a| == |b| && forall i :: 0 <= i < |a| ==> SameItems(a[i].subsections, b[i].subsections)
  {
    hide Sound, SectionEntries, GoodRelease, Render, Parse, TrimBlank, SameItems;
    ParseRender(doc);
    ParsedSound(Render(doc));
    var a, b := SectionsOf(Render(doc)), doc.sections;
    var o := OutlineOf(doc);
    assert |a| == |b| == |o.releases|;
    forall i | 0 <= i < |a|
      ensures a[i].title == b[i].title && SectionEntries(a[i]) == SectionEntries(b[i]) && HeadOf(a[i]) == HeadOf(b[i])
      ensures SameItems(a[i].subsections, b[i].subsections)
    {
      assert a[i] in a && b[i] in b;
      assert ReleaseOf(a[i]) == OutlineOf(Parse(Number(SplitLines(Render(doc))))).releases[i] == o.releases[i];
      SameReleaseSameKeys(a[i], b[i]);
      SameReleaseSameItems(a[i], b[i]);
    }
    UnionSame(a, b, Only(true, SectionEntries), Only(true, SectionEntries));
    UnionSame(a, b, Only(false, Place(SectionEntries)), Only(false, Place(SectionEntries)));
  }

  lemma MergedSound(sections: seq<Section>, r: seq<Section>)
    requires |r| == |sections| && forall i :: 0 <= i < |r| ==> Normalized(sections[i], r[i])
    ensures AllSound(r)
  {
    hide Sound, SectionEntries, MergeSafe, NoBlank;
    forall s | s in r ensures Sound(s) {
      var i :| 0 <= i < |r| && r[i] == s;
      assert Normalized(sections[i], r[i]);
    }
  }

  lemma PrefixPrints(content: string, sections: seq<Section>)
    requires AllSound(sections)
    ensures GoodOutline(OutlineOf(Document(Parse(Number(SplitLines(content))).prefix, sections)))
  {
    hide Sound, GoodRelease, ReleaseOf;
    LinesAreOneLine(content);
    ParsedOutline(Number(SplitLines(content)));
    forall s | s in sections ensures GoodRelease(ReleaseOf(s)) {
      SoundPrints(s);
    }
  }

  lemma HeadingsNotBlank(sections: seq<Section>)
    requires AllSound(sections)
    ensures forall s :: s in sections ==> !IsBlank(s.heading)
  {
    hide SoundSubs, IsRelease, ReleaseTitle, PlainLine;
    forall s | s in sections ensures !IsBlank(s.heading) {
      if IsBlank(s.heading) { BlankIsNoHeading(s.heading); }
    }
  }

  /** Nothing to drop and nothing to promote. */
  predicate Quiet(sections: seq<Section>, promotable: set<nat>, historical: set<string>) {
    NoneRepeated(sections, historical) && Promoted(sections, promotable) == {}
  }

  /** The [Unreleased] sections in their order, then the releases in some order. */
  predicate Arranged(order: seq<Section>, sections: seq<Section>) {
    var open, released := WithTitle(sections, true), WithTitle(sections, false);
    open <= order && multiset(order[|open|..]) == multiset(released)
  }

  lemma SortArranges(sections: seq<Section>, precedes: (string, string) -> bool)
    ensures Arranged(SortSections(sections, precedes), sections)
  {
    hide SortReleases;
    SortReleasesMembers(WithTitle(sections, false), precedes);
    var open, released := WithTitle(sections, true), SortReleases(WithTitle(sections, false), precedes);
    assert (open + released)[|open|..] == released;
  }

  lemma {:induction false} SortReleasesMembers(sections: seq<Section>, precedes: (string, string) -> bool)
    ensures multiset(SortReleases(sections, precedes)) == multiset(sections)
  {
    hide InsertRelease;
    if sections != [] {
      SortReleasesMembers(sections[1..], precedes);
      InsertReleaseMembers(SortReleases(sections[1..], precedes), sections[0], precedes);
      assert sections == [sections[0]] + sections[1..];
    }
  }

  /** The text holds these sections in this order. Merging headings keeps the items of each of them if
      and only if it is safe there. */
  ghost predicate Prints(fixed: string, order: seq<Section>) {
    Heads(SectionsOf(fixed)) == Heads(order) && Paired(SectionsOf(fixed), order, MergesSafely())
  }

  /**
   * The fixer on whole texts. After dropping and promoting, the releases hold exactly their
   * non-promotable items, each in its release and category, and [Unreleased] holds its own items that
   * no release has, plus the promotable ones in their categories. Merging headings then keeps the items
   * of a section if and only if it is safe there. The text before the releases and every section's
   * heading and leading text stay, and [Unreleased] is created only when something is promoted. The
   * releases are sorted when their titles are version numbers; with other titles their order is open.
   */
  method FixChangelogContent(content: string, promotable: set<nat>, historical: set<string>)
    returns (fixed: string)
    ensures Lead(fixed) == Lead(content)
    ensures var before, moved := SectionsOf(content), Moved(SectionsOf(content), promotable, historical);
            && Heads(moved) == Heads(Opened(before, promotable))
            && Released(moved) == Staying(before, promotable)
            && Unreleased(moved) == Pending(before, ReleasedKeys(before) + historical) + Promoted(before, promotable)
            && (Quiet(before, promotable, historical) ==> moved == before)
            && (AllMergeSafe(before) ==> AllMergeSafe(moved))
    ensures var moved := Moved(SectionsOf(content), promotable, historical);
            exists order ::
              && Arranged(order, moved) && Prints(fixed, order)
              && (Among(WithTitle(moved, false), IsVersion) ==> order == SortSections(moved, Precedes))
    ensures var moved := Moved(SectionsOf(content), promotable, historical);
            AllMergeSafe(moved) ==>
              Released(SectionsOf(fixed)) == Released(moved) && Unreleased(SectionsOf(fixed)) == Unreleased(moved)
  {
    hide Sound, Ordered, MergeSafe, SectionEntries, SectionSift, Marked, UnionOf, Only, Render, Pending, SortSections,
         GoodRelease, IsRelease, Heads, Opened, Place, ReleasedKeys, Staying, Promoted, Released, Unreleased, TrimBlank,
         NoneRepeated, MergesSafely, SameItems, Paired, Dropped, MovedUpTo, Arranged, WithTitle, IsVersion, Precedes;
    ParsedSound(content);
    var doc := ParseChangelog(content);
    var before := doc.sections;
    var dropped := DropUnreleasedDuplicates(before, historical);
    DroppedOpens(before, dropped, promotable);
    var moved := PromoteAll(dropped, promotable);
    assert moved == Moved(before, promotable, historical);
    var merged := NormalizeAll(moved);
    MergedSound(moved, merged);
    NormalizedHeads(moved, merged);
    SortHeads(merged, moved, Precedes);
    SortNormalized(moved, merged, Precedes);
    SortArranges(moved, Precedes);
    var sorted := SortSections(merged, Precedes);
    var result := Document(doc.prefix, sorted);
    SortedKeeps(merged, Precedes);
    PrefixPrints(content, sorted);
    HeadingsNotBlank(sorted);
    fixed := RenderChangelog(result);
    PrintedKeeps(result);
    PrintedPairs(fixed, sorted, SortSections(moved, Precedes));
    assert Prints(fixed, SortSections(moved, Precedes));
    if AllMergeSafe(moved) { NormalizedKeep(moved, merged); }
  }

  /** Printing changes no items, so what holds of the sorted sections holds of the printed ones. */
  lemma PrintedPairs(fixed: string, sorted: seq<Section>, promoted: seq<Section>)
    requires Paired(sorted, promoted, MergesSafely()) && AllSound(sorted) && Heads(SectionsOf(fixed)) == Heads(sorted)
    requires var a := SectionsOf(fixed);
             |a| == |sorted| && forall i :: 0 <= i < |a| ==> SameItems(a[i].subsections, sorted[i].subsections)
    ensures Paired(SectionsOf(fixed), promoted, MergesSafely())
  {
    hide SameItems, MergeSafe, Sound, SectionsOf, HeadOf;
    var a := SectionsOf(fixed);
    ParsedSound(fixed);
    SameHeads(a, sorted);
    forall i | 0 <= i < |a| ensures MergesSafely()(a[i], promoted[i]) {
      SameItemsAs(a[i].subsections, sorted[i].subsections, promoted[i].subsections);
      assert MergesSafely()(sorted[i], promoted[i]);
    }
  }

  lemma SortedKeeps(sections: seq<Section>, precedes: (string, string) -> bool)
    ensures Released(SortSections(sections, precedes)) == Released(sections)
    ensures Unreleased(SortSections(sections, precedes)) == Unreleased(sections)
    ensures AllSound(sections) ==> AllSound(SortSections(sections, precedes))
  {
    SortKeeps(sections, precedes, Only(true, SectionEntries));
    SortKeeps(sections, precedes, Only(false, Place(SectionEntries)));
  }

  lemma DroppedOpens(before: seq<Section>, dropped: seq<Section>, promotable: set<nat>)
    requires |before| == |dropped|
    requires forall i :: 0 <= i < |before| ==>
               SameHead(before[i], dropped[i]) && (before[i].title != "Unreleased" ==> dropped[i] == before[i])
    ensures Heads(Opened(dropped, promotable)) == Heads(Opened(before, promotable))
    ensures Staying(dropped, promotable) == Staying(before, promotable)
    ensures Promoted(dropped, promotable) == Promoted(before, promotable)
  {
    hide FirstUnreleased, NewUnreleased, HeadOf, SectionSift, Marked, UnionOf;
    SameReleased(before, dropped, SectionSift(Marked(promotable), true));
    SameReleased(before, dropped, Place(SectionSift(Marked(promotable), false)));
    SameFirst(before, dropped, FirstUnreleased(before));
    forall i | 0 <= i < |before| ensures HeadOf(before[i]) == HeadOf(dropped[i]) {
      SameHeadOf(before[i], dropped[i]);
    }
    assert Heads(before) == Heads(dropped);
    HeadsCons(NewUnreleased(), before);
    HeadsCons(NewUnreleased(), dropped);
  }

  function EntryTexts(entries: set<Entry>): set<string> {
    set e | e in entries :: e.1
  }

  /** The items of a file, whatever their release: category and text. */
  function AllEntries(sections: seq<Section>): set<Entry> {
    (set e | e in Released(sections) :: e.1) + Unreleased(sections)
  }

  /**
   * Without historical keys the fixer neither loses nor invents an item text, and no item changes
   * its category.
   */
  lemma Conservation(content: string, fixed: string, promotable: set<nat>)
    requires var before, after := SectionsOf(content), SectionsOf(fixed);
             Released(after) == Staying(before, promotable)
             && Unreleased(after) == Pending(before, ReleasedKeys(before) + {}) + Promoted(before, promotable)
    ensures AllEntries(SectionsOf(fixed)) <= AllEntries(SectionsOf(content))
    ensures EntryTexts(AllEntries(SectionsOf(fixed))) == EntryTexts(AllEntries(SectionsOf(content)))
  {
    hide SectionsOf, Released, Unreleased, Staying, Promoted, Pending, ReleasedKeys;
    var before, after := SectionsOf(content), SectionsOf(fixed);
    Split(before, promotable);
    Regained(before);
    AllKept(Released(before), Staying(before, promotable), Promoted(before, promotable), Unreleased(before),
            Pending(before, ReleasedKeys(before) + {}));
  }

  lemma Regained(before: seq<Section>)
    ensures forall k :: k in ReleasedKeys(before) + {} ==> exists e :: e in Released(before) && e.1.1 == k
  {
  }

  /** What stays, what moves and what is dropped, as sets. */
  lemma AllKept(released: set<Placed>, staying: set<Placed>, promoted: set<Entry>, open: set<Entry>, pending: set<Entry>)
    requires (set e | e in released :: e.1) == (set e | e in staying :: e.1) + promoted
    requires pending <= open
    requires forall e :: e in open && e !in pending ==> exists r :: r in released && r.1.1 == e.1
    ensures (set e | e in staying :: e.1) + (pending + promoted) <= (set e | e in released :: e.1) + open
    ensures EntryTexts((set e | e in staying :: e.1) + (pending + promoted))
            == EntryTexts((set e | e in released :: e.1) + open)
  {
    var gone, kept := (set e | e in released :: e.1), (set e | e in staying :: e.1);
    var all, now := gone + open, kept + (pending + promoted);
    assert gone == kept + promoted;
    forall e | e in all ensures e.1 in EntryTexts(now) {
      if e !in now {
        var r :| r in released && r.1.1 == e.1;
        assert r.1 in gone;
        assert r.1 in kept + promoted;
      }
    }
  }

  lemma Split(before: seq<Section>, promotable: set<nat>)
    ensures (set e | e in Released(before) :: e.1)
            == (set e | e in Staying(before, promotable) :: e.1) + Promoted(before, promotable)
    ensures forall keys :: Pending(before, keys) <= Unreleased(before)
    ensures forall keys, e :: e in Unreleased(before) && e !in Pending(before, keys) ==> e.1 in keys
  {
    hide SectionEntries, SectionSift, Marked;
    var m := Marked(promotable);
    FirstPart(before, SectionEntries);
    forall s | s in before
      ensures Only(false, Place(SectionEntries))(s)
              == Only(false, Place(SectionSift(m, true)))(s) + Only(false, Place(SectionSift(m, false)))(s) {
      SiftCovers(s, m);
    }
    UnionPair(before, Only(false, Place(SectionSift(m, true))), Only(false, Place(SectionSift(m, false))),
              Only(false, Place(SectionEntries)));
    Unplaced(before, SectionSift(m, true));
  }

  lemma {:induction false} Unplaced(sections: seq<Section>, f: Section -> set<Entry>)
    ensures (set e | e in UnionOf(sections, Only(false, Place(f))) :: e.1) == UnionOf(sections, Only(false, f))
  {
    if sections != [] {
      Unplaced(sections[1..], f);
      var s := sections[0];
      if s.title != "Unreleased" {
        forall e | e in f(s) ensures e in (set x | x in Place(f)(s) :: x.1) {
          assert (s.title, e) in Place(f)(s);
        }
      }
    }
  }
}
