/** Moving, merging and dropping list items inside release sections. */
module ChangelogFix {
  import opened Text
  import opened Changelog
  import opened ChangelogItems

  // ---------------------------------------------------------------- unions of keys

  function UnionOf<T, K>(xs: seq<T>, f: T -> set<K>): set<K> {
    if xs == [] then {} else f(xs[0]) + UnionOf(xs[1..], f)
  }

  lemma {:induction false} UnionAppend<T, K>(a: seq<T>, b: seq<T>, f: T -> set<K>)
    ensures UnionOf(a + b, f) == UnionOf(a, f) + UnionOf(b, f)
  {
    if a == [] {
      assert a + b == b;
    } else {
      UnionAppend(a[1..], b, f);
      assert (a + b)[1..] == a[1..] + b;
    }
  }

  lemma UnionOne<T, K>(x: T, f: T -> set<K>)
    ensures UnionOf([x], f) == f(x)
  {
    assert [x][1..] == [];
  }

  lemma UnionAt<T, K>(xs: seq<T>, i: nat, f: T -> set<K>)
    requires i < |xs|
    ensures UnionOf(xs, f) == UnionOf(xs[..i], f) + f(xs[i]) + UnionOf(xs[i + 1..], f)
  {
    UnionAppend(xs[..i], [xs[i]] + xs[i + 1..], f);
    UnionAppend([xs[i]], xs[i + 1..], f);
    UnionOne(xs[i], f);
    assert xs[..i] + ([xs[i]] + xs[i + 1..]) == xs;
  }

  /** Replacing one element replaces its contribution. */
  lemma UnionUpdate<T, K>(xs: seq<T>, i: nat, x: T, f: T -> set<K>)
    requires i < |xs|
    ensures UnionOf(xs[i := x], f) == UnionOf(xs[..i], f) + f(x) + UnionOf(xs[i + 1..], f)
  {
    UnionAt(xs[i := x], i, f);
    assert xs[i := x][..i] == xs[..i] && xs[i := x][i + 1..] == xs[i + 1..];
  }

  lemma {:induction false} UnionSame<T, S, K>(xs: seq<T>, ys: seq<S>, f: T -> set<K>, g: S -> set<K>)
    requires |xs| == |ys| && forall i :: 0 <= i < |xs| ==> f(xs[i]) == g(ys[i])
    ensures UnionOf(xs, f) == UnionOf(ys, g)
  {
    if xs != [] { UnionSame(xs[1..], ys[1..], f, g); }
  }

  lemma {:induction false} UnionEmpty<T, K>(xs: seq<T>, f: T -> set<K>)
    requires forall x :: x in xs ==> f(x) == {}
    ensures UnionOf(xs, f) == {}
  {
    if xs != [] { UnionEmpty(xs[1..], f); }
  }

  lemma {:induction false} UnionPair<T, K>(xs: seq<T>, f: T -> set<K>, g: T -> set<K>, h: T -> set<K>)
    requires forall x :: x in xs ==> h(x) == f(x) + g(x)
    ensures UnionOf(xs, h) == UnionOf(xs, f) + UnionOf(xs, g)
  {
    if xs != [] { UnionPair(xs[1..], f, g, h); }
  }

  // ---------------------------------------------------------------- keys of sections

  function SubKeys(s: Subsection): set<string> {
    Keys(Texts(s.lines))
  }

  /** An item's text with the category it stands in. */
  type Entry = (string, string)

  function Tag(category: string, keys: set<string>): set<Entry> {
    set k | k in keys :: (category, k)
  }

  function SubEntries(s: Subsection): set<Entry> {
    Tag(s.title, SubKeys(s))
  }

  function SectionEntries(s: Section): set<Entry> {
    UnionOf(s.subsections, SubEntries)
  }

  function Marked(promotable: set<nat>): Item -> bool {
    (i: Item) => i.start in promotable
  }

  function Repeated(keys: set<string>): Item -> bool {
    (i: Item) => Key(i.lines) in keys
  }

  function Sift(chosen: Item -> bool, wanted: bool): Subsection -> set<Entry> {
    (s: Subsection) => Tag(s.title, KeySet(Bodies(Select(Items(s.lines), chosen, wanted))))
  }

  function SectionSift(chosen: Item -> bool, wanted: bool): Section -> set<Entry> {
    (s: Section) => UnionOf(s.subsections, Sift(chosen, wanted))
  }

  lemma {:induction false} KeySetSelect(items: seq<Item>, chosen: Item -> bool)
    ensures KeySet(Bodies(items))
            == KeySet(Bodies(Select(items, chosen, true))) + KeySet(Bodies(Select(items, chosen, false)))
  {
    if items != [] {
      KeySetSelect(items[1..], chosen);
      KeySetCons(items[0], items[1..]);
      KeySetCons(items[0], Select(items[1..], chosen, true));
      KeySetCons(items[0], Select(items[1..], chosen, false));
      assert items == [items[0]] + items[1..];
    }
  }

  lemma {:induction false} KeySetCons(item: Item, items: seq<Item>)
    ensures KeySet(Bodies([item] + items)) == {Key(item.lines)} + KeySet(Bodies(items))
  {
    assert Bodies([item] + items) == [item.lines] + Bodies(items);
    KeySetAppend([item.lines], Bodies(items));
    OneKey(item.lines);
  }

  lemma KeySetAppend(a: seq<seq<string>>, b: seq<seq<string>>)
    ensures KeySet(a + b) == KeySet(a) + KeySet(b)
  {
    var all := a + b;
    assert forall i :: 0 <= i < |a| ==> all[i] == a[i];
    assert forall i :: 0 <= i < |b| ==> all[|a| + i] == b[i];
  }

  lemma SubKeysOfItems(s: Subsection)
    ensures SubKeys(s) == KeySet(Bodies(Items(s.lines)))
  {
    ItemsOfTexts(s.lines);
    assert TextItems(Texts(s.lines)) == Bodies(Items(s.lines));
  }

  lemma SubSift(s: Subsection, chosen: Item -> bool)
    ensures SubEntries(s) == Sift(chosen, true)(s) + Sift(chosen, false)(s)
  {
    SubKeysOfItems(s);
    KeySetSelect(Items(s.lines), chosen);
  }

  lemma SiftCovers(s: Section, chosen: Item -> bool)
    ensures SectionEntries(s) == SectionSift(chosen, true)(s) + SectionSift(chosen, false)(s)
  {
    forall x | x in s.subsections ensures SubEntries(x) == Sift(chosen, true)(x) + Sift(chosen, false)(x) {
      SubSift(x, chosen);
    }
    UnionPair(s.subsections, Sift(chosen, true), Sift(chosen, false), SubEntries);
  }

  // ---------------------------------------------------------------- sections the fixer can handle

  predicate Ordered(s: Section) {
    forall x :: x in s.subsections ==> Increasing(x.lines)
  }

  predicate NoItemsIn(s: Subsection) {
    TextItems(Texts(s.lines)) == []
  }

  /** A category behind another one of its title starts with a list item, or the other one holds none. */
  predicate MergeSafe(subs: seq<Subsection>) {
    forall i, j :: 0 <= i < j < |subs| && subs[i].title == subs[j].title ==>
      Itemized(Texts(subs[j].lines)) || NoItemsIn(subs[i])
  }

  predicate LinesFrom(lines: seq<Line>, allowed: string -> bool) {
    forall l :: l in lines ==> allowed(l.text)
  }

  lemma LinesFromTexts(lines: seq<Line>, allowed: string -> bool)
    ensures LinesFrom(lines, allowed) <==> forall t :: t in Texts(lines) ==> allowed(t)
  {
    var texts := Texts(lines);
    assert forall i :: 0 <= i < |lines| ==> texts[i] in texts && lines[i] in lines;
  }

  // ---------------------------------------------------------------- cutting

  lemma {:induction false} SelectTwice(items: seq<Item>, chosen: Item -> bool)
    ensures Select(Select(items, chosen, false), chosen, true) == []
    ensures Select(Select(items, chosen, false), chosen, false) == Select(items, chosen, false)
  {
    if items != [] { SelectTwice(items[1..], chosen); }
  }

  lemma CutSub(s: Subsection, chosen: Item -> bool)
    requires Increasing(s.lines)
    ensures var t := Subsection(s.title, Cut(s.lines, chosen));
            SubEntries(t) == Sift(chosen, false)(s) == Sift(chosen, false)(t) && Sift(chosen, true)(t) == {}
            && Increasing(t.lines) && (Itemized(Texts(s.lines)) ==> Itemized(Texts(t.lines)))
            && (NoItemsIn(s) ==> NoItemsIn(t))
            && forall l :: l in t.lines ==> l in s.lines
  {
    hide Cut, Increasing, Itemized;
    CutItems(s.lines, chosen);
    SelectTwice(Items(s.lines), chosen);
    SubKeysOfItems(Subsection(s.title, Cut(s.lines, chosen)));
    CutIsSubset(s.lines, chosen);
    ItemsOfTexts(s.lines);
    ItemsOfTexts(Cut(s.lines, chosen));
  }

  lemma CutIsSubset(lines: seq<Line>, chosen: Item -> bool)
    ensures forall l :: l in Cut(lines, chosen) ==> l in lines
  {
    RemovedFacts(lines, LineRange(Select(Items(lines), chosen, true)));
  }

  // ---------------------------------------------------------------- appending

  function Synthetic(texts: seq<string>): seq<Line> {
    seq(|texts|, i requires 0 <= i < |texts| => Line(texts[i], 0))
  }

  /** The target with the body behind it. */
  function WithBody(target: Subsection, source: seq<string>): Subsection {
    if TrimBlank(source) == [] then target else target.(lines := Synthetic(Appended(Texts(target.lines), source)))
  }

  /** The target with those of the items that it does not hold yet, one after the other. */
  function WithItems(target: Subsection, items: seq<Item>): Subsection {
    if items == [] then target
    else
      var n := |items| - 1;
      var r, item := WithItems(target, items[..n]), items[n].lines;
      if Key(item) in SubKeys(r) then r else WithBody(r, item)
  }

  /**
   * The appended body adds its items, and changes none, exactly when it starts with an item or finds
   * none in front of it. No line but blank ones is lost or added.
   */
  method AppendSubsectionLines(target: Subsection, source: seq<string>) returns (r: Subsection)
    ensures r == WithBody(target, source)
    ensures r.title == target.title && Texts(r.lines) == Appended(Texts(target.lines), source)
    ensures TextItems(Texts(r.lines)) == TextItems(Texts(target.lines)) + TextItems(source)
            <==> Itemized(source) || NoItemsIn(target)
    ensures NonBlank(Texts(r.lines)) == NonBlank(Texts(target.lines)) + NonBlank(source)
  {
    hide Itemized, TextItems, NonBlank, TrimBlank, IsItem;
    AppendItems(Texts(target.lines), source);
    AppendNonBlank(Texts(target.lines), source);
    var trimmedSource := TrimBlankLines(source);
    if |trimmedSource| == 0 { return target; }
    var existing := TrimBlankLines(Texts(target.lines));
    if |existing| == 0 {
      assert Texts(Synthetic(trimmedSource)) == trimmedSource;
      return target.(lines := Synthetic(trimmedSource));
    }
    var separator := if IsItem(existing[|existing| - 1]) && IsItem(trimmedSource[0]) then [] else [""];
    var all := existing + separator + trimmedSource;
    assert Texts(Synthetic(all)) == all;
    return target.(lines := Synthetic(all));
  }

  lemma AppendNonBlank(target: seq<string>, source: seq<string>)
    ensures NonBlank(Appended(target, source)) == NonBlank(target) + NonBlank(source)
  {
    hide NonBlank, IsItem, TrimBlank;
    var added, existing := TrimBlank(source), TrimBlank(target);
    NonBlankTrim(source);
    NonBlankTrim(target);
    NoneNonBlank();
    OneBlank();
    if added != [] && existing != [] {
      if IsItem(existing[|existing| - 1]) && IsItem(added[0]) {
        NonBlankAppend(existing, added);
        assert existing + [] + added == existing + added;
      } else {
        NonBlankAppend(existing + [""], added);
        NonBlankAppend(existing, [""]);
      }
    }
  }

  lemma OneBlank()
    ensures NonBlank([""]) == []
  {
    assert [""][1..] == [];
    NoneNonBlank();
  }

  lemma AppendedKeys(target: seq<string>, source: seq<string>)
    requires Itemized(source)
    ensures Keys(Appended(target, source)) == Keys(target) + Keys(source)
    ensures Itemized(target) ==> Itemized(Appended(target, source))
  {
    AppendItems(target, source);
    if Itemized(target) { AppendItemized(target, source); }
    KeySetAppend(TextItems(target), TextItems(source));
  }

  lemma AppendedFrom(target: seq<string>, source: seq<string>)
    ensures forall l :: l in Appended(target, source) ==> l in target || l in source || l == ""
  {
    TrimBlankTrims(target);
    TrimBlankTrims(source);
  }

  lemma WholeItemized(item: seq<string>)
    requires Whole(item)
    ensures Itemized(item) && TextItems(item) == [item] && Keys(item) == {Key(item)}
  {
    WholeItem(item);
    var one := [item];
    assert KeySet(one) == {Key(one[0])};
  }

  lemma NextItem(target: Subsection, items: seq<Item>, i: nat)
    requires i < |items|
    ensures var r, item := WithItems(target, items[..i]), items[i].lines;
            WithItems(target, items[..i + 1]) == if Key(item) in SubKeys(r) then r else WithBody(r, item)
    ensures Bodies(items[..i + 1]) == Bodies(items[..i]) + [items[i].lines]
  {
    hide Key, SubKeys, WithBody;
    assert items[..i + 1][..i] == items[..i];
  }

  lemma NoItemsYet(target: Subsection, items: seq<Item>)
    ensures WithItems(target, items[..0]) == target && KeySet(Bodies(items[..0])) == {} && items[..|items|] == items
  {
  }

  /** Appends the promoted items that are not in the target yet. */
  method PromoteItems(target: Subsection, items: seq<Item>, ghost allowed: string -> bool) returns (r: Subsection)
    requires forall i :: 0 <= i < |items| ==> Whole(items[i].lines) && forall l :: l in items[i].lines ==> allowed(l)
    requires LinesFrom(target.lines, allowed) && allowed("")
    ensures r == WithItems(target, items) && r.title == target.title && LinesFrom(r.lines, allowed)
    ensures SubKeys(r) == SubKeys(target) + KeySet(Bodies(items))
    ensures Itemized(Texts(target.lines)) ==> Itemized(Texts(r.lines))
  {
    hide Itemized, TextItems, Whole, Appended, TrimBlank, Key, WithBody, Keys, WithItems, Texts, Bodies;
    r := target;
    var i := 0;
    NoItemsYet(target, items);
    while i < |items|
      invariant 0 <= i <= |items|
      invariant r == WithItems(target, items[..i]) && r.title == target.title && LinesFrom(r.lines, allowed)
      invariant SubKeys(r) == SubKeys(target) + KeySet(Bodies(items[..i]))
      invariant Itemized(Texts(target.lines)) ==> Itemized(Texts(r.lines))
    {
      var item := items[i].lines;
      var has := SubsectionHasItem(r, item);
      WholeItemized(item);
      NextItem(target, items, i);
      KeySetAppend(Bodies(items[..i]), [item]);
      assert KeySet([item]) == {Key(item)} by { OneKey(item); }
      if !has {
        AppendedKeys(Texts(r.lines), item);
        AppendedFrom(Texts(r.lines), item);
        LinesFromTexts(r.lines, allowed);
        r := AppendSubsectionLines(r, item);
        LinesFromTexts(r.lines, allowed);
      }
      i := i + 1;
    }
    assert items[..i] == items;
  }

  lemma OneKey(item: seq<string>)
    ensures KeySet([item]) == {Key(item)}
  {
    var one := [item];
    assert KeySet(one) == {Key(one[0])};
  }

  method SubsectionHasItem(sub: Subsection, item: seq<string>) returns (has: bool)
    requires Whole(item)
    ensures has <==> Key(item) in SubKeys(sub)
  {
    hide Key, Whole, TrimBlank;
    var wanted := Key(item);
    KeyNotEmpty(item);
    var items := ParseItems(sub.lines);
    SubKeysOfItems(sub);
    var i := 0;
    while i < |items|
      invariant 0 <= i <= |items|
      invariant forall k :: 0 <= k < i ==> Key(items[k].lines) != wanted
    {
      if Key(items[i].lines) == wanted {
        assert Bodies(items)[i] == items[i].lines;
        return true;
      }
      i := i + 1;
    }
    assert forall k :: 0 <= k < |items| ==> Key(Bodies(items)[k]) != wanted;
    return false;
  }

  /** The reader's guard for an empty key never fires on a parsed item. */
  lemma KeyNotEmpty(item: seq<string>)
    requires Whole(item)
    ensures Key(item) != ""
  {
    TrimIsStable(item);
    ItemIsNotBlank(item[0]);
  }

  /** One item and one note: the key is another one. */
  lemma MergedProse(item: string, note: string)
    requires IsItem(item) && !IsItem(note) && !IsBlank(note)
    ensures Keys([item]) == {item} && Keys([note]) == {}
    ensures Keys(Appended([item], [note])) == {item + "\n\n" + note}
  {
    ItemIsNotBlank(item);
    WholeItemized([item]);
    NoItems([note]);
    TrimIsStable([item]);
    TrimIsStable([note]);
    var all := [item, "", note];
    BlankEmpty();
    BlankIsNoHeading("");
    WholeItemized(all);
    TrimIsStable(all);
    assert Appended([item], [note]) == all;
    assert all[1..] == ["", note] && ["", note][1..] == [note];
    assert Join(["", note]) == "\n" + note;
    assert Join(all) == item + "\n" + ("\n" + note) == item + "\n\n" + note;
    assert Key(all) == Join(all) && Key([item]) == Join([item]) == item;
  }
}
