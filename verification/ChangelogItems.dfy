/** List items of a changelog category, and what editing its lines does to them. */
module ChangelogItems {
  import opened Text
  import opened Changelog

  datatype Item = Item(start: nat, end: nat, lines: seq<string>)

  /** Number of lines before the first list item. */
  function Gap(ls: seq<string>): (k: nat)
    ensures k <= |ls|
  {
    if ls == [] || IsItem(ls[0]) then 0 else 1 + Gap(ls[1..])
  }

  lemma {:induction false} GapStops(ls: seq<string>)
    ensures var k := Gap(ls);
            (k < |ls| ==> IsItem(ls[k])) && forall i :: 0 <= i < k ==> !IsItem(ls[i])
  {
    if ls != [] && !IsItem(ls[0]) { GapStops(ls[1..]); }
  }

  /** The items' texts; a nested bullet is an item of its own. */
  function TextItems(ls: seq<string>): seq<seq<string>> {
    if ls == [] then []
    else if !IsItem(ls[0]) then TextItems(ls[1..])
    else
      var k := 1 + Gap(ls[1..]);
      [TrimBlank(ls[..k])] + TextItems(ls[k..])
  }

  function Items(lines: seq<Line>): seq<Item> {
    if lines == [] then []
    else if !IsItem(lines[0].text) then Items(lines[1..])
    else
      var k := 1 + Gap(Texts(lines[1..]));
      [Item(lines[0].number, lines[k - 1].number, TrimBlank(Texts(lines[..k])))] + Items(lines[k..])
  }

  function Key(item: seq<string>): string {
    Join(TrimBlank(item))
  }

  function KeySet(items: seq<seq<string>>): set<string> {
    set i | 0 <= i < |items| :: Key(items[i])
  }

  function Keys(ls: seq<string>): set<string> {
    KeySet(TextItems(ls))
  }

  method ParseItems(lines: seq<Line>) returns (items: seq<Item>)
    ensures items == Items(lines)
  {
    hide IsItem, TrimBlank, Gap;
    items := [];
    var index := 0;
    assert lines[0..] == lines;
    while index < |lines|
      invariant 0 <= index <= |lines|
      invariant Items(lines) == items + Items(lines[index..])
    {
      if !IsItem(lines[index].text) {
        assert lines[index..][1..] == lines[index + 1..];
        index := index + 1;
      } else {
        var start := index;
        index := ItemEnd(lines, start);
        var item := Item(lines[start].number, lines[index - 1].number, TrimBlank(Texts(lines[start..index])));
        NextItem(lines, start, index);
        ghost var rest := Items(lines[index..]);
        assert items + ([item] + rest) == items + [item] + rest;
        items := items + [item];
      }
    }
  }

  lemma {:induction false} NextItem(lines: seq<Line>, start: nat, index: nat)
    requires start < index <= |lines| && IsItem(lines[start].text)
    requires index - start == 1 + Gap(Texts(lines[start..][1..]))
    ensures Items(lines[start..])
            == [Item(lines[start].number, lines[index - 1].number, TrimBlank(Texts(lines[start..index])))]
               + Items(lines[index..])
  {
    hide IsItem, TrimBlank, Gap;
    assert lines[start..][index - start..] == lines[index..];
    assert lines[start..][..index - start] == lines[start..index];
  }

  method ItemEnd(lines: seq<Line>, start: nat) returns (index: nat)
    requires start < |lines|
    ensures start < index <= |lines| && index - start == 1 + Gap(Texts(lines[start..][1..]))
  {
    index := start + 1;
    assert lines[start..][1..] == lines[index..];
    while index < |lines| && !IsItem(lines[index].text)
      invariant start < index <= |lines|
      invariant Gap(Texts(lines[start..][1..])) == index - start - 1 + Gap(Texts(lines[index..]))
    {
      assert Texts(lines[index..])[1..] == Texts(lines[index + 1..]);
      index := index + 1;
    }
  }

  /** Line numbers play no part in the texts. */
  lemma {:induction false} ItemsOfTexts(lines: seq<Line>)
    ensures var items, texts := Items(lines), TextItems(Texts(lines));
            |items| == |texts| && forall i :: 0 <= i < |items| ==> items[i].lines == texts[i]
  {
    hide IsItem, TrimBlank, TextItems, Items, Gap;
    if lines == [] {
      NothingInNothing();
      NoLines();
    } else {
      var all := Texts(lines);
      assert all[1..] == Texts(lines[1..]) && all[0] == lines[0].text;
      FirstItem(all);
      FirstLines(lines);
      if !IsItem(lines[0].text) {
        ItemsOfTexts(lines[1..]);
      } else {
        var k := BlockEnd(lines);
        assert all[..k] == Texts(lines[..k]) && all[k..] == Texts(lines[k..]);
        ItemsOfTexts(lines[k..]);
      }
    }
  }

  lemma NoLines()
    ensures Items([]) == []
  {
  }

  // ---------------------------------------------------------------- joining and trimming

  lemma {:induction false} GapAppend(a: seq<string>, b: seq<string>)
    ensures Gap(a + b) == if Gap(a) < |a| then Gap(a) else |a| + Gap(b)
  {
    if a == [] {
      assert a + b == b;
    } else {
      GapAppend(a[1..], b);
      assert (a + b)[1..] == a[1..] + b;
    }
  }

  /** The two ways in which `TextItems` takes its first step. */
  lemma {:induction false} FirstItem(ls: seq<string>)
    requires ls != []
    ensures !IsItem(ls[0]) ==> TextItems(ls) == TextItems(ls[1..])
    ensures var k := 1 + Gap(ls[1..]);
            IsItem(ls[0]) ==> TextItems(ls) == [TrimBlank(ls[..k])] + TextItems(ls[k..])
  {
  }

  lemma {:induction false} ItemsAppend(a: seq<string>, b: seq<string>)
    requires b == [] || IsItem(b[0])
    ensures TextItems(a + b) == TextItems(a) + TextItems(b)
    decreases |a|
  {
    hide IsItem, TrimBlank, TextItems, Gap;
    if a == [] {
      assert a + b == b;
      assert TextItems(a) == [] by { NothingInNothing(); }
    } else if !IsItem(a[0]) {
      FirstItem(a);
      FirstItem(a + b);
      assert (a + b)[1..] == a[1..] + b;
      ItemsAppend(a[1..], b);
    } else {
      FirstBlock(a, b);
      var k := 1 + Gap(a[1..]);
      ItemsAppend(a[k..], b);
      FirstItem(a);
      var head, x, y := [TrimBlank(a[..k])], TextItems(a[k..]), TextItems(b);
      assert head + (x + y) == (head + x) + y;
    }
  }

  lemma {:induction false} NothingInNothing()
    ensures TextItems([]) == []
  {
  }

  lemma {:induction false} FirstBlock(a: seq<string>, b: seq<string>)
    requires a != [] && IsItem(a[0]) && (b == [] || IsItem(b[0]))
    ensures var k := 1 + Gap(a[1..]);
            TextItems(a + b) == [TrimBlank(a[..k])] + TextItems(a[k..] + b)
  {
    hide IsItem, TrimBlank, TextItems;
    FirstItem(a + b);
    GapAppend(a[1..], b);
    assert (a + b)[1..] == a[1..] + b;
    var k := 1 + Gap(a[1..]);
    assert (a + b)[..k] == a[..k] && (a + b)[k..] == a[k..] + b;
  }

  lemma {:induction false} ItemsBlankAfter(a: seq<string>, blank: string)
    requires IsBlank(blank)
    ensures TextItems(a + [blank]) == TextItems(a)
    decreases |a|
  {
    hide IsItem, TrimBlank, IsBlank;
    var all := a + [blank];
    BlankIsNoHeading(blank);
    if a == [] {
      assert all == [blank] && [blank][1..] == [];
    } else {
      assert Gap([blank]) == 1 by { assert [blank][1..] == []; }
      GapAppend(a[1..], [blank]);
      assert all[1..] == a[1..] + [blank];
      if !IsItem(a[0]) {
        ItemsBlankAfter(a[1..], blank);
      } else {
        var k := 1 + Gap(a[1..]);
        if k < |a| {
          assert all[..k] == a[..k] && all[k..] == a[k..] + [blank];
          ItemsBlankAfter(a[k..], blank);
        } else {
          TrimBlankAfter(a, blank);
          assert all[..k + 1] == all && all[k + 1..] == [] && a[..k] == a && a[k..] == [];
        }
      }
    }
  }

  lemma {:induction false} ItemsTrimmed(ls: seq<string>)
    ensures TextItems(TrimBlank(ls)) == TextItems(ls)
  {
    hide IsItem, IsBlank;
    if ls != [] && IsBlank(ls[0]) {
      BlankIsNoHeading(ls[0]);
      ItemsTrimmed(ls[1..]);
    } else if ls != [] && IsBlank(ls[|ls| - 1]) {
      var n := |ls| - 1;
      ItemsTrimmed(ls[..n]);
      ItemsBlankAfter(ls[..n], ls[n]);
      assert ls[..n] + [ls[n]] == ls;
    }
  }

  /** An item as parsed: its bullet, then lines that are no bullets, without blank lines at the end. */
  predicate Whole(item: seq<string>) {
    item != [] && IsItem(item[0]) && Trimmed(item) && forall i :: 0 < i < |item| ==> !IsItem(item[i])
  }

  lemma {:induction false} TrimKeepsFront(ls: seq<string>)
    requires ls != [] && !IsBlank(ls[0])
    ensures TrimBlank(ls) != [] && TrimBlank(ls) <= ls
    decreases |ls|
  {
    if IsBlank(ls[|ls| - 1]) { TrimKeepsFront(ls[..|ls| - 1]); }
  }

  lemma {:induction false} ItemsAreWhole(ls: seq<string>)
    ensures forall i :: 0 <= i < |TextItems(ls)| ==> Whole(TextItems(ls)[i])
    decreases |ls|
  {
    hide IsItem, IsBlank;
    if ls != [] {
      if !IsItem(ls[0]) {
        ItemsAreWhole(ls[1..]);
      } else {
        var k := 1 + Gap(ls[1..]);
        ItemsAreWhole(ls[k..]);
        GapStops(ls[1..]);
        ItemIsNotBlank(ls[0]);
        TrimKeepsFront(ls[..k]);
        TrimBlankTrims(ls[..k]);
        assert forall i :: 0 < i < k ==> ls[i] == ls[1..][i - 1];
      }
    }
  }

  lemma {:induction false} NoItems(ls: seq<string>)
    requires forall i :: 0 <= i < |ls| ==> !IsItem(ls[i])
    ensures Gap(ls) == |ls| && TextItems(ls) == []
  {
    if ls != [] { NoItems(ls[1..]); }
  }

  lemma {:induction false} WholeItem(item: seq<string>)
    requires Whole(item)
    ensures TextItems(item) == [item]
  {
    hide IsItem, IsBlank;
    assert forall i :: 0 <= i < |item| - 1 ==> item[1..][i] == item[i + 1];
    NoItems(item[1..]);
    assert item[..|item|] == item && item[|item|..] == [];
  }

  function Flat(items: seq<seq<string>>): seq<string> {
    if items == [] then [] else items[0] + Flat(items[1..])
  }

  /** Items put next to each other parse back to themselves. */
  lemma {:induction false} ItemsOfFlat(items: seq<seq<string>>)
    requires forall i :: 0 <= i < |items| ==> Whole(items[i])
    ensures TextItems(Flat(items)) == items
    ensures Flat(items) != [] ==> IsItem(Flat(items)[0])
  {
    if items != [] {
      ItemsOfFlat(items[1..]);
      WholeItem(items[0]);
      ItemsAppend(items[0], Flat(items[1..]));
    }
  }

  // ---------------------------------------------------------------- compacting and appending

  function NonBlank(ls: seq<string>): seq<string> {
    if ls == [] then [] else (if IsBlank(ls[0]) then [] else [ls[0]]) + NonBlank(ls[1..])
  }

  function Compact(lines: seq<string>): seq<string> {
    var trimmed := TrimBlank(lines);
    var flat := Flat(TextItems(trimmed));
    if flat == [] || NonBlank(trimmed) != NonBlank(flat) then trimmed else flat
  }

  /** Compacting touches blank lines only. */
  lemma {:induction false} CompactKeeps(lines: seq<string>)
    ensures TextItems(Compact(lines)) == TextItems(lines)
    ensures NonBlank(Compact(lines)) == NonBlank(TrimBlank(lines))
    ensures Itemized(lines) <==> Itemized(Compact(lines))
    ensures Compact(lines) == [] <==> TrimBlank(lines) == []
  {
    hide IsItem, IsBlank;
    ItemsTrimmed(lines);
    ItemizedTrims(lines);
    ItemizedTrims(Compact(lines));
    var trimmed := TrimBlank(lines);
    ItemsAreWhole(trimmed);
    ItemsOfFlat(TextItems(trimmed));
    TrimBlankTrims(lines);
    TrimIsStable(trimmed);
    if Compact(lines) != trimmed {
      var flat := Compact(lines);
      ItemIsNotBlank(flat[0]);
      TrimKeepsFront(flat);
      FirstNonBlank(flat);
      if trimmed != [] { FirstNonBlank(trimmed); }
    }
  }

  lemma {:induction false} TrimIsStable(ls: seq<string>)
    requires Trimmed(ls)
    ensures TrimBlank(ls) == ls
  {
  }

  /** The body starts with a list item, or is blank. */
  predicate Itemized(ls: seq<string>) {
    forall i :: 0 <= i < Gap(ls) ==> IsBlank(ls[i])
  }

  lemma {:induction false} ItemizedTrims(ls: seq<string>)
    ensures Itemized(ls) <==> TrimBlank(ls) == [] || IsItem(TrimBlank(ls)[0])
  {
    hide IsItem, IsBlank;
    if ls == [] {
    } else if IsBlank(ls[0]) {
      BlankIsNoHeading(ls[0]);
      ItemizedTrims(ls[1..]);
      assert forall i :: 0 <= i < Gap(ls[1..]) ==> ls[1..][i] == ls[i + 1];
      assert Itemized(ls) <==> Itemized(ls[1..]) by {
        assert forall i :: 0 < i < Gap(ls) ==> ls[i] == ls[1..][i - 1];
      }
    } else {
      TrimKeepsFront(ls);
    }
  }

  function Appended(target: seq<string>, source: seq<string>): seq<string> {
    var added, existing := TrimBlank(source), TrimBlank(target);
    if added == [] then target
    else if existing == [] then added
    else existing + (if IsItem(existing[|existing| - 1]) && IsItem(added[0]) then [] else [""]) + added
  }

  lemma {:induction false} BlankEmpty()
    ensures IsBlank("")
  {
  }

  // ---------------------------------------------------------------- when appending keeps the items

  /** Non-blank lines in the items. */
  function Weight(items: seq<seq<string>>): nat {
    if items == [] then 0 else |NonBlank(items[0])| + Weight(items[1..])
  }

  lemma {:induction false} WeightAppend(a: seq<seq<string>>, b: seq<seq<string>>)
    ensures Weight(a + b) == Weight(a) + Weight(b)
  {
    if a == [] {
      assert a + b == b;
    } else {
      WeightAppend(a[1..], b);
      assert (a + b)[1..] == a[1..] + b;
    }
  }

  lemma {:induction false} NonBlankAppend(a: seq<string>, b: seq<string>)
    ensures NonBlank(a + b) == NonBlank(a) + NonBlank(b)
  {
    hide IsBlank;
    if a == [] {
      assert a + b == b;
    } else {
      NonBlankAppend(a[1..], b);
      assert (a + b)[1..] == a[1..] + b;
      var first, mine, theirs := if IsBlank(a[0]) then [] else [a[0]], NonBlank(a[1..]), NonBlank(b);
      assert first + (mine + theirs) == (first + mine) + theirs;
    }
  }

  lemma {:induction false} NonBlankTrim(ls: seq<string>)
    ensures NonBlank(TrimBlank(ls)) == NonBlank(ls)
    decreases |ls|
  {
    hide IsBlank;
    if ls != [] && IsBlank(ls[0]) {
      NonBlankTrim(ls[1..]);
    } else if ls != [] && IsBlank(ls[|ls| - 1]) {
      var n := |ls| - 1;
      NonBlankTrim(ls[..n]);
      NonBlankAppend(ls[..n], [ls[n]]);
      assert [ls[n]][1..] == [] && ls[..n] + [ls[n]] == ls;
    }
  }

  /** The items hold every non-blank line from the first item on. */
  lemma {:induction false} WeightIs(ls: seq<string>)
    ensures Weight(TextItems(ls)) == |NonBlank(ls[Gap(ls)..])|
    decreases |ls|
  {
    hide IsItem, IsBlank, TrimBlank, NonBlank, TextItems;
    if ls == [] {
      NothingInNothing();
      assert ls[Gap(ls)..] == [] && NonBlank([]) == [] by { NoneNonBlank(); }
    } else if !IsItem(ls[0]) {
      FirstItem(ls);
      WeightIs(ls[1..]);
      assert ls[Gap(ls)..] == ls[1..][Gap(ls[1..])..];
    } else {
      var k := 1 + Gap(ls[1..]);
      FirstItem(ls);
      WeightIs(ls[k..]);
      GapStops(ls[1..]);
      assert k < |ls| ==> ls[k..][0] == ls[1..][k - 1];
      assert ls[k..][Gap(ls[k..])..] == ls[k..];
      NonBlankTrim(ls[..k]);
      NonBlankAppend(ls[..k], ls[k..]);
      assert ls[..k] + ls[k..] == ls && ls[Gap(ls)..] == ls;
      var rest := TextItems(ls[k..]);
      assert ([TrimBlank(ls[..k])] + rest)[1..] == rest;
    }
  }

  lemma NoneNonBlank()
    ensures NonBlank([]) == []
  {
  }

  /** Lines without an item, in front of others, add none. */
  lemma {:induction false} ItemsBehind(a: seq<string>, b: seq<string>)
    requires TextItems(a) == []
    ensures TextItems(a + b) == TextItems(b)
    decreases |a|
  {
    hide IsItem, TrimBlank;
    if a == [] {
      assert a + b == b;
    } else {
      assert !IsItem(a[0]);
      ItemsBehind(a[1..], b);
      assert (a + b)[1..] == a[1..] + b;
    }
  }

  /** Glued to an item, a body that starts with prose makes that item longer. */
  lemma {:induction false} ProseWeight(existing: seq<string>, added: seq<string>)
    requires TextItems(existing) != [] && added != [] && !IsItem(added[0]) && !IsBlank(added[0])
    ensures Weight(TextItems(existing + [""] + added)) > Weight(TextItems(existing)) + Weight(TextItems(added))
  {
    hide IsItem, IsBlank, TrimBlank, NonBlank, TextItems;
    var all, g, h := existing + [""] + added, Gap(existing), Gap(added);
    if g == |existing| {
      GapStops(existing);
      NoItems(existing);
      assert false;
    }
    GapAppend(existing, [""] + added);
    assert all == existing + ([""] + added);
    WeightIs(all);
    WeightIs(existing);
    WeightIs(added);
    assert all[g..] == existing[g..] + ([""] + added);
    NonBlankAppend(existing[g..], [""] + added);
    NonBlankAppend([""], added);
    NonBlankAppend(added[..h], added[h..]);
    assert added[..h] + added[h..] == added && added[..h][0] == added[0];
    assert |NonBlank(added[..h])| > 0 by { FirstNonBlank(added[..h]); }
  }

  lemma FirstNonBlank(ls: seq<string>)
    requires ls != [] && !IsBlank(ls[0])
    ensures NonBlank(ls) != [] && NonBlank(ls)[0] == ls[0]
  {
    hide IsBlank;
  }

  /** Appending keeps the items of both bodies, or lengthens one. */
  lemma {:induction false} AppendWeight(target: seq<string>, source: seq<string>)
    ensures var all, ours, theirs := TextItems(Appended(target, source)), TextItems(target), TextItems(source);
            if Itemized(source) || ours == [] then all == ours + theirs
            else Weight(all) > Weight(ours) + Weight(theirs)
  {
    hide IsItem, IsBlank, TextItems, Weight;
    var added, existing := TrimBlank(source), TrimBlank(target);
    ItemsTrimmed(source);
    ItemsTrimmed(target);
    ItemizedTrims(source);
    TrimBlankTrims(source);
    NothingInNothing();
    if added == [] {
    } else if existing == [] {
      ItemsBehind(existing, added);
      assert existing + added == added;
    } else {
      BlankEmpty();
      ItemsBlankAfter(existing, "");
      assert existing + [] == existing;
      if TextItems(target) == [] {
        ItemsBehind(existing, added);
        ItemsBehind(existing + [""], added);
      } else if IsItem(added[0]) {
        ItemsAppend(existing, added);
        ItemsAppend(existing + [""], added);
      } else {
        ProseWeight(existing, added);
      }
    }
  }

  /** Appending adds the body's items, and changes none, exactly when the body starts with an item or comes first. */
  lemma AppendItems(target: seq<string>, source: seq<string>)
    ensures TextItems(Appended(target, source)) == TextItems(target) + TextItems(source)
            <==> Itemized(source) || TextItems(target) == []
  {
    hide Appended, TextItems, Itemized, Weight;
    AppendWeight(target, source);
    WeightAppend(TextItems(target), TextItems(source));
  }

  /** Lines without an item, behind others, belong to the last item. */
  lemma {:induction false} LastGrows(existing: seq<string>, tail: seq<string>)
    requires TextItems(existing) != [] && existing != [] && !IsBlank(existing[|existing| - 1])
    ensures var ours := TextItems(existing);
            var n := |ours| - 1;
            TextItems(existing + tail) == ours[..n] + [TrimBlank(ours[n] + tail[..Gap(tail)])] + TextItems(tail)
    decreases |existing|
  {
    hide IsItem, IsBlank, TrimBlank, TextItems;
    var all := existing + tail;
    FirstItem(existing);
    FirstItem(all);
    assert all[1..] == existing[1..] + tail;
    if !IsItem(existing[0]) {
      NothingInNothing();
      assert existing[1..] != [];
      LastGrows(existing[1..], tail);
    } else {
      GapAppend(existing[1..], tail);
      var k := 1 + Gap(existing[1..]);
      if k < |existing| {
        OneMore(existing, k, tail);
      } else {
        LastIsWhole(existing, tail);
      }
    }
  }

  lemma {:induction false} OneMore(existing: seq<string>, k: nat, tail: seq<string>)
    requires existing != [] && IsItem(existing[0]) && k == 1 + Gap(existing[1..]) < |existing|
    requires !IsBlank(existing[|existing| - 1])
    ensures var ours := TextItems(existing);
            var n := |ours| - 1;
            TextItems(existing + tail) == ours[..n] + [TrimBlank(ours[n] + tail[..Gap(tail)])] + TextItems(tail)
    decreases |existing|, 0
  {
    hide IsItem, IsBlank, TrimBlank, TextItems, Gap;
    var all, rest := existing + tail, existing[k..];
    FirstItem(existing);
    FirstItem(all);
    assert all[1..] == existing[1..] + tail;
    GapAppend(existing[1..], tail);
    assert all[..k] == existing[..k] && all[k..] == rest + tail;
    GapStops(existing[1..]);
    assert rest[0] == existing[1..][k - 1];
    FirstItem(rest);
    LastGrows(rest, tail);
    var first, ours := [TrimBlank(existing[..k])], TextItems(rest);
    var n := |ours| - 1;
    assert (first + ours)[..n + 1] == first + ours[..n] && (first + ours)[n + 1] == ours[n];
  }

  lemma {:induction false} LastIsWhole(existing: seq<string>, tail: seq<string>)
    requires existing != [] && IsItem(existing[0]) && 1 + Gap(existing[1..]) == |existing|
    requires !IsBlank(existing[|existing| - 1])
    ensures TextItems(existing) == [existing]
    ensures TextItems(existing + tail) == [TrimBlank(existing + tail[..Gap(tail)])] + TextItems(tail)
  {
    hide IsItem, IsBlank, TextItems, Gap, TrimBlank;
    var all, g := existing + tail, Gap(tail);
    FirstItem(existing);
    FirstItem(all);
    assert all[1..] == existing[1..] + tail;
    GapAppend(existing[1..], tail);
    NothingInNothing();
    ItemIsNotBlank(existing[0]);
    TrimIsStable(existing);
    var k := |existing|;
    assert existing[..k] == existing && existing[k..] == [];
    assert all[..k + g] == existing + tail[..g] && all[k + g..] == tail[g..];
    BehindGap(tail);
  }

  lemma {:induction false} BehindGap(ls: seq<string>)
    ensures TextItems(ls[Gap(ls)..]) == TextItems(ls)
  {
    hide IsItem, TrimBlank;
    if ls != [] && !IsItem(ls[0]) {
      BehindGap(ls[1..]);
      assert ls[Gap(ls)..] == ls[1..][Gap(ls[1..])..];
    }
  }

  /** Otherwise the lines in front of the body's first item become part of the item before them. */
  lemma {:induction false} ProseJoins(target: seq<string>, source: seq<string>)
    requires TextItems(target) != [] && !Itemized(source)
    ensures var ours, added := TextItems(target), TrimBlank(source);
            var n := |ours| - 1;
            TextItems(Appended(target, source))
            == ours[..n] + [TrimBlank(ours[n] + [""] + added[..Gap(added)])] + TextItems(source)
  {
    hide IsItem, IsBlank, TextItems, TrimBlank;
    var existing, added := TrimBlank(target), TrimBlank(source);
    ItemsTrimmed(target);
    ItemsTrimmed(source);
    ItemizedTrims(source);
    TrimBlankTrims(target);
    NothingInNothing();
    var tail := [""] + added;
    BlankEmpty();
    BlankIsNoHeading("");
    assert tail[1..] == added;
    FirstItem(tail);
    LastGrows(existing, tail);
    assert existing + [""] + added == existing + tail;
    var ours := TextItems(target);
    var last := ours[|ours| - 1];
    assert tail[..Gap(tail)] == [""] + added[..Gap(added)];
    assert last + tail[..Gap(tail)] == last + [""] + added[..Gap(added)];
  }

  lemma {:induction false} AppendItemized(target: seq<string>, source: seq<string>)
    requires Itemized(source) && Itemized(target)
    ensures Itemized(Appended(target, source))
  {
    hide IsItem, IsBlank;
    ItemizedTrims(source);
    ItemizedTrims(target);
    ItemizedTrims(Appended(target, source));
    TrimBlankTrims(target);
    TrimBlankTrims(source);
    var added, existing := TrimBlank(source), TrimBlank(target);
    if added != [] {
      if existing == [] { TrimIsStable(added); } else { TrimIsStable(Appended(target, source)); }
    }
  }

  // ---------------------------------------------------------------- removing items

  /** Line numbers strictly increase. */
  predicate Increasing(lines: seq<Line>) {
    forall i, j :: 0 <= i < j < |lines| ==> lines[i].number < lines[j].number
  }

  function Range(start: nat, end: nat): (r: set<nat>)
    ensures forall n :: n in r <==> start <= n <= end
    decreases end - start + 1
  {
    if start > end then {} else {start} + Range(start + 1, end)
  }

  function LineRange(items: seq<Item>): set<nat> {
    if items == [] then {}
    else Range(items[0].start, items[0].end) + LineRange(items[1..])
  }

  function Removed(lines: seq<Line>, numbers: set<nat>): (r: seq<Line>) {
    if lines == [] then []
    else
      var rest := Removed(lines[1..], numbers);
      if lines[0].number in numbers then rest else [lines[0]] + rest
  }

  lemma {:induction false} RemovedFacts(lines: seq<Line>, numbers: set<nat>)
    ensures forall l :: l in Removed(lines, numbers) ==> l in lines && l.number !in numbers
    ensures Increasing(lines) ==> Increasing(Removed(lines, numbers))
  {
    if lines != [] {
      RemovedFacts(lines[1..], numbers);
      assert forall l :: l in lines[1..] ==> l in lines;
    }
  }

  lemma {:induction false} RemovedAppend(a: seq<Line>, b: seq<Line>, numbers: set<nat>)
    ensures Removed(a + b, numbers) == Removed(a, numbers) + Removed(b, numbers)
  {
    if a == [] {
      assert a + b == b;
    } else {
      RemovedAppend(a[1..], b, numbers);
      assert (a + b)[1..] == a[1..] + b;
    }
  }

  lemma {:induction false} RemovedAllOrNone(lines: seq<Line>, numbers: set<nat>)
    ensures (forall l :: l in lines ==> l.number in numbers) ==> Removed(lines, numbers) == []
    ensures (forall l :: l in lines ==> l.number !in numbers) ==> Removed(lines, numbers) == lines
  {
    if lines != [] {
      RemovedAllOrNone(lines[1..], numbers);
      assert forall l :: l in lines[1..] ==> l in lines;
      assert lines == [lines[0]] + lines[1..];
    }
  }

  /** The items chosen, or left, by a predicate on key and starting line. */
  function Select(items: seq<Item>, chosen: Item -> bool, wanted: bool): seq<Item> {
    if items == [] then []
    else
      var rest := Select(items[1..], chosen, wanted);
      if chosen(items[0]) == wanted then [items[0]] + rest else rest
  }

  function Bodies(items: seq<Item>): seq<seq<string>> {
    seq(|items|, i requires 0 <= i < |items| => items[i].lines)
  }

  lemma {:induction false} RangeBounds(lines: seq<Line>, chosen: Item -> bool)
    requires Increasing(lines)
    ensures forall n :: n in LineRange(Select(Items(lines), chosen, true)) ==>
              lines != [] && lines[0].number <= n <= lines[|lines| - 1].number
  {
    hide IsItem, TrimBlank, Increasing, Items, BlockEnd;
    if lines == [] {
      NoLines();
    } else {
      FirstLines(lines);
      if !IsItem(lines[0].text) {
        Grows(lines, 1);
        RangeBounds(lines[1..], chosen);
      } else {
        var k := BlockEnd(lines);
        Grows(lines, k);
        RangeBounds(lines[k..], chosen);
        var first, rest := FirstOf(lines), Items(lines[k..]);
        assert ([first] + rest)[1..] == rest;
      }
    }
  }

  /** Numbers rise from the first line to any other. */
  lemma Grows(lines: seq<Line>, k: nat)
    requires Increasing(lines) && 0 < k <= |lines|
    ensures Increasing(lines[k..])
    ensures lines[0].number <= lines[k - 1].number <= lines[|lines| - 1].number
    ensures k < |lines| ==> lines[0].number <= lines[k..][0].number && lines[k..][|lines| - k - 1] == lines[|lines| - 1]
  {
  }

  function BlockEnd(lines: seq<Line>): (k: nat)
    requires lines != []
    ensures 0 < k <= |lines|
  {
    1 + Gap(Texts(lines[1..]))
  }

  function FirstOf(lines: seq<Line>): Item
    requires lines != []
  {
    var k := BlockEnd(lines);
    Item(lines[0].number, lines[k - 1].number, TrimBlank(Texts(lines[..k])))
  }

  /** The lines with the chosen items cut out. */
  function Without(lines: seq<Line>, chosen: Item -> bool): seq<Line> {
    if lines == [] then []
    else if !IsItem(lines[0].text) then [lines[0]] + Without(lines[1..], chosen)
    else
      var k := BlockEnd(lines);
      var rest := Without(lines[k..], chosen);
      if chosen(FirstOf(lines)) then rest else lines[..k] + rest
  }

  /** The range of the chosen items, first item first. */
  lemma {:induction false} FirstRange(lines: seq<Line>, chosen: Item -> bool)
    requires lines != [] && IsItem(lines[0].text)
    ensures var k := BlockEnd(lines);
            var later := LineRange(Select(Items(lines[k..]), chosen, true));
            LineRange(Select(Items(lines), chosen, true))
            == if chosen(FirstOf(lines)) then Range(lines[0].number, lines[k - 1].number) + later else later
  {
    var k := BlockEnd(lines);
    assert Items(lines) == [FirstOf(lines)] + Items(lines[k..]);
    var rest := Select(Items(lines[k..]), chosen, true);
    assert ([FirstOf(lines)] + rest)[1..] == rest;
  }

  ghost predicate Marks(lines: seq<Line>, chosen: Item -> bool, numbers: set<nat>) {
    forall l :: l in lines ==> (l.number in numbers <==> l.number in LineRange(Select(Items(lines), chosen, true)))
  }

  lemma {:induction false} FilterBlock(lines: seq<Line>, chosen: Item -> bool, numbers: set<nat>)
    requires lines != [] && IsItem(lines[0].text) && Increasing(lines) && Marks(lines, chosen, numbers)
    ensures var k := BlockEnd(lines);
            Increasing(lines[k..]) && Marks(lines[k..], chosen, numbers)
            && forall l :: l in lines[..k] ==> (l.number in numbers <==> chosen(FirstOf(lines)))
  {
    hide IsItem, Items, Select, LineRange, FirstOf, BlockEnd;
    var k := BlockEnd(lines);
    RangeBounds(lines[k..], chosen);
    FirstRange(lines, chosen);
    assert forall l :: l in lines[..k] ==> l in lines && lines[0].number <= l.number <= lines[k - 1].number;
    assert forall l :: l in lines[k..] ==> l in lines && l.number > lines[k - 1].number;
  }

  lemma {:induction false} FilterLine(lines: seq<Line>, chosen: Item -> bool, numbers: set<nat>)
    requires lines != [] && !IsItem(lines[0].text) && Increasing(lines) && Marks(lines, chosen, numbers)
    ensures Increasing(lines[1..]) && Marks(lines[1..], chosen, numbers) && lines[0].number !in numbers
  {
    hide LineRange, Select, IsItem;
    RangeBounds(lines[1..], chosen);
    assert forall l :: l in lines[1..] ==> l in lines;
    assert lines[0] in lines;
    assert Items(lines) == Items(lines[1..]);
    if lines[1..] != [] { assert lines[0].number < lines[1].number; }
  }

  /** Filtering by line number cuts out exactly the chosen items. */
  lemma {:induction false} FilterIsWithout(lines: seq<Line>, chosen: Item -> bool, numbers: set<nat>)
    requires Increasing(lines) && Marks(lines, chosen, numbers)
    ensures Removed(lines, numbers) == Without(lines, chosen)
  {
    hide Marks, Increasing, FirstOf, BlockEnd, IsItem;
    if lines == [] {
    } else if !IsItem(lines[0].text) {
      FilterLine(lines, chosen, numbers);
      FilterIsWithout(lines[1..], chosen, numbers);
    } else {
      var k := BlockEnd(lines);
      FilterBlock(lines, chosen, numbers);
      FilterIsWithout(lines[k..], chosen, numbers);
      RemovedAppend(lines[..k], lines[k..], numbers);
      RemovedAllOrNone(lines[..k], numbers);
      assert lines[..k] + lines[k..] == lines;
    }
  }

  lemma {:induction false} WithoutItems(lines: seq<Line>, chosen: Item -> bool)
    ensures var left := Without(lines, chosen);
            Items(left) == Select(Items(lines), chosen, false)
            && (lines != [] && IsItem(lines[0].text) ==> left == [] || IsItem(left[0].text))
            && (Itemized(Texts(lines)) ==> Itemized(Texts(left)))
  {
    if lines == [] {
    } else if !IsItem(lines[0].text) {
      WithoutItems(lines[1..], chosen);
      WithoutLine(lines, chosen);
    } else {
      var k := BlockEnd(lines);
      WithoutItems(lines[k..], chosen);
      NextIsItem(lines);
      WithoutBlock(lines, chosen);
    }
  }

  lemma {:induction false} WithoutLine(lines: seq<Line>, chosen: Item -> bool)
    requires lines != [] && !IsItem(lines[0].text)
    ensures var left, rest := Without(lines, chosen), Without(lines[1..], chosen);
            Items(left) == Items(rest) && Items(lines) == Items(lines[1..])
            && (Itemized(Texts(lines)) <==> IsBlank(lines[0].text) && Itemized(Texts(lines[1..])))
            && (Itemized(Texts(left)) <==> IsBlank(lines[0].text) && Itemized(Texts(rest)))
  {
    hide IsItem, IsBlank, TrimBlank, TextItems, Itemized, Gap;
    var head, rest := lines[0].text, Without(lines[1..], chosen);
    ItemizedHead(head, Texts(lines[1..]));
    ItemizedHead(head, Texts(rest));
    assert Texts(lines) == [head] + Texts(lines[1..]);
    assert Texts([lines[0]] + rest) == [head] + Texts(rest);
    assert ([lines[0]] + rest)[1..] == rest;
  }

  lemma {:induction false} WithoutBlock(lines: seq<Line>, chosen: Item -> bool)
    requires lines != [] && IsItem(lines[0].text)
    requires var later := Without(lines[BlockEnd(lines)..], chosen);
             later == [] || IsItem(later[0].text)
    ensures var left, later := Without(lines, chosen), Without(lines[BlockEnd(lines)..], chosen);
            Items(left) == (if chosen(FirstOf(lines)) then [] else [FirstOf(lines)]) + Items(later)
            && (left == [] || IsItem(left[0].text)) && Itemized(Texts(left))
    ensures Select(Items(lines), chosen, false)
            == (if chosen(FirstOf(lines)) then [] else [FirstOf(lines)])
               + Select(Items(lines[BlockEnd(lines)..]), chosen, false)
  {
    hide IsItem, IsBlank, TrimBlank;
    var k := BlockEnd(lines);
    var later := Without(lines[k..], chosen);
    KeepBlock(lines, later);
    assert Items(lines) == [FirstOf(lines)] + Items(lines[k..]);
  }

  /** The first block of `lines` stays one item in front of lines that start with an item. */
  lemma {:induction false} KeepBlock(lines: seq<Line>, later: seq<Line>)
    requires lines != [] && IsItem(lines[0].text) && (later == [] || IsItem(later[0].text))
    ensures Items(lines[..BlockEnd(lines)] + later) == [FirstOf(lines)] + Items(later)
  {
    hide IsItem, TrimBlank, Items;
    var k := BlockEnd(lines);
    var all := lines[..k] + later;
    SameBlock(lines, later);
    assert all[..k] == lines[..k] && all[k..] == later;
    FirstLines(all);
  }

  lemma {:induction false} SameBlock(lines: seq<Line>, later: seq<Line>)
    requires lines != [] && (later == [] || IsItem(later[0].text))
    ensures BlockEnd(lines[..BlockEnd(lines)] + later) == BlockEnd(lines)
  {
    hide IsItem;
    var k := BlockEnd(lines);
    var all := lines[..k] + later;
    var under := lines[..k][1..];
    NoneUnder(lines);
    GapAppend(Texts(under), Texts(later));
    assert Texts(all[1..]) == Texts(under) + Texts(later);
  }

  lemma {:induction false} NoneUnder(lines: seq<Line>)
    requires lines != []
    ensures Gap(Texts(lines[..BlockEnd(lines)][1..])) == BlockEnd(lines) - 1
  {
    hide IsItem;
    var under := lines[..BlockEnd(lines)][1..];
    GapStops(Texts(lines[1..]));
    assert forall i :: 0 <= i < |under| ==> Texts(under)[i] == Texts(lines[1..])[i];
    NoItems(Texts(under));
  }

  lemma {:induction false} FirstLines(lines: seq<Line>)
    requires lines != []
    ensures Items(lines) == if IsItem(lines[0].text) then [FirstOf(lines)] + Items(lines[BlockEnd(lines)..])
                            else Items(lines[1..])
  {
    hide IsItem, TrimBlank, Gap;
  }

  lemma {:induction false} NextIsItem(lines: seq<Line>)
    requires lines != []
    ensures var k := BlockEnd(lines);
            lines[k..] == [] || IsItem(lines[k..][0].text)
  {
    GapStops(Texts(lines[1..]));
  }

  function Cut(lines: seq<Line>, chosen: Item -> bool): seq<Line> {
    Removed(lines, LineRange(Select(Items(lines), chosen, true)))
  }

  /** Removing the chosen items' line ranges leaves exactly the other items, in order and unchanged. */
  lemma {:induction false} CutItems(lines: seq<Line>, chosen: Item -> bool)
    requires Increasing(lines)
    ensures var left := Cut(lines, chosen);
            Items(left) == Select(Items(lines), chosen, false)
            && (Itemized(Texts(lines)) ==> Itemized(Texts(left))) && Increasing(left)
  {
    var numbers := LineRange(Select(Items(lines), chosen, true));
    FilterIsWithout(lines, chosen, numbers);
    WithoutItems(lines, chosen);
    RemovedFacts(lines, numbers);
  }

  lemma {:induction false} ItemizedHead(l: string, ls: seq<string>)
    requires !IsItem(l)
    ensures Itemized([l] + ls) <==> IsBlank(l) && Itemized(ls)
    ensures TextItems([l] + ls) == TextItems(ls)
  {
    var all := [l] + ls;
    assert all[1..] == ls;
    assert forall i :: 0 < i < |all| ==> all[i] == ls[i - 1];
    assert forall i :: 0 <= i < |ls| ==> ls[i] == all[i + 1];
  }
}
