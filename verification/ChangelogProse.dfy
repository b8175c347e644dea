/** A changelog that the fixer spoils. */
module ChangelogProse {
  import opened Text
  import opened Changelog
  import opened ChangelogItems
  import opened ChangelogFix
  import opened ChangelogRoundTrip
  import opened ChangelogSections
  import opened ChangelogVersions
  import opened ChangelogFixer

  // Its second category of the same title starts with prose, which merging glues to the item before.

  const HEADING := "## [Unreleased]"
  const ADDED := "### Added"
  const LINES := [HEADING, "", ADDED, "", "- a", "", ADDED, "", "note"]
  const GLUED := Join(LINES) + "\n"

  /** The texts of the two categories. */
  const ITEM := ["", "- a", ""]
  const PROSE := ["", "note"]

  function Numbered(texts: seq<string>, start: nat): seq<Line> {
    seq(|texts|, i requires 0 <= i < |texts| => Line(texts[i], start + i))
  }

  const PARSED := Section(HEADING, "Unreleased", Numbered([""], 2),
                          [Subsection("Added", Numbered(ITEM, 4)), Subsection("Added", Numbered(PROSE, 8))])

  lemma Headings()
    ensures IsRelease(HEADING) && ReleaseTitle(HEADING) == "Unreleased" && !IsCategory(HEADING)
    ensures IsCategory(ADDED) && CategoryTitle(ADDED) == "Added" && !IsRelease(ADDED)
  {
    hide IsRelease, ReleaseTitle, IsCategory, CategoryTitle;
    UnreleasedHeading(HEADING);
    NoCategory(HEADING);
    AddedHeading();
  }

  lemma NoCategory(h: string)
    requires h == HEADING
    ensures !IsCategory(h)
  {
    assert h[2] == ' ';
  }

  lemma AddedHeading()
    ensures IsCategory(ADDED) && CategoryTitle(ADDED) == "Added" && !IsRelease(ADDED)
  {
    assert ADDED[2] == '#' && ADDED[3..] == " Added";
    AddedTitle();
  }

  lemma AddedTitle()
    ensures TrimStart(" Added") == "Added" && TrimEnd("Added") == "Added"
  {
    assert " Added"[1..] == "Added" && TrimStart("Added") == "Added";
  }

  lemma Plain(l: string)
    requires l == "" || l[0] != '#'
    ensures !IsRelease(l) && !IsCategory(l)
  {
  }

  /** The two categories of a body that holds both. */
  lemma BodyParsed(body: seq<Line>)
    requires Texts(body) == [""] + [ADDED] + ITEM + [ADDED] + PROSE
    ensures ParseSection(HEADING, body)
            == Section(HEADING, "Unreleased", body[..1],
                       [Subsection("Added", body[2..5]), Subsection("Added", body[6..8])])
    requires IsRelease(HEADING)
  {
    hide IsRelease, IsCategory, ReleaseTitle, CategoryTitle, ParseSubsections, Until;
    Headings();
    Plain("");
    Plain("- a");
    Plain("note");
    assert |Texts(body)| == |body| == 8 && forall i :: 0 <= i < 8 ==> body[i].text == Texts(body)[i];
    assert body[0].text == "" && body[1].text == ADDED && body[2].text == "" && body[3].text == "- a";
    assert body[4].text == "" && body[5].text == ADDED && body[6].text == "" && body[7].text == "note";
    UntilAt(body, 1, IsCategory);
    UntilAt(body[2..], 3, IsCategory);
    UntilAt(body[6..], 2, IsCategory);
    var one, two := body[1..], body[5..];
    assert one[1..] == body[2..] && one[1..4] == body[2..5] && one[4..] == two;
    assert two[1..] == body[6..] && two[1..3] == body[6..8] && two[3..] == [];
    NoSubsections();
    ParseFirst(one, "Added");
    ParseFirst(two, "Added");
  }

  lemma Pieces()
    ensures var body := Number(LINES)[1..];
            |body| == 8 && Texts(body) == [""] + [ADDED] + ITEM + [ADDED] + PROSE
            && body[..1] == Numbered([""], 2) && body[2..5] == Numbered(ITEM, 4) && body[6..8] == Numbered(PROSE, 8)
  {
  }

  lemma NoHeadingsBelow()
    ensures forall i :: 0 <= i < 8 ==> !IsRelease(Number(LINES)[1..][i].text)
    ensures AllOneLine(LINES)
  {
    hide IsRelease, IsCategory, OneLine;
    Headings();
    Plain("");
    Plain("- a");
    Plain("note");
    OneLines();
    Below(LINES);
  }

  lemma OneLines()
    ensures OneLine(HEADING) && OneLine("") && OneLine(ADDED) && OneLine("- a") && OneLine("note")
  {
  }

  lemma Below(lines: seq<string>)
    requires lines == LINES
    ensures forall i :: 0 <= i < 8 ==> Number(lines)[1..][i].text in {"", ADDED, "- a", "note"}
    ensures forall i :: 0 <= i < 9 ==> lines[i] in {HEADING, "", ADDED, "- a", "note"}
  {
    var rest := lines[1..];
    assert forall i :: 0 <= i < 8 ==> Number(lines)[1..][i].text == rest[i];
    assert rest[0] == rest[2] == rest[4] == rest[6] == "" && rest[1] == rest[5] == ADDED;
    assert rest[3] == "- a" && rest[7] == "note";
    forall i | 0 <= i < 8 ensures rest[i] in {"", ADDED, "- a", "note"} { }
  }

  /** The whole text, parsed. */
  lemma GluedParsed()
    ensures SectionsOf(GLUED) == [PARSED]
  {
    hide IsRelease, ReleaseTitle, ParseSection, Until, SplitLines, IsCategory, CategoryTitle, Parse, Join, Number, Texts;
    Headings();
    NoHeadingsBelow();
    LinesRoundTrip(LINES);
    var lines := Number(LINES);
    Pieces();
    FirstLine();
    UntilAt(lines, 0, IsRelease);
    UntilAt(lines[1..], 8, IsRelease);
    BodyParsed(lines[1..]);
    OneSection(lines);
  }

  lemma FirstLine()
    ensures |Number(LINES)| == 9 && Number(LINES)[0].text == HEADING
  {
  }

  lemma {:induction false} OneSection(lines: seq<Line>)
    requires lines != [] && IsRelease(lines[0].text) && Until(lines, IsRelease) == 0
    requires Until(lines[1..], IsRelease) == |lines| - 1
    ensures Parse(lines).sections == [ParseSection(lines[0].text, lines[1..])]
  {
    hide IsRelease, ParseSection, Until;
    assert lines[0..] == lines && lines[1..|lines|] == lines[1..] && lines[|lines|..] == [];
    assert ParseSections(lines[|lines|..]) == [] by { NoSubsections(); }
  }

  /** The prose is no item, and an item comes before it: merging is not safe. */
  lemma GluedIsUnsafe()
    ensures !MergeSafe(PARSED.subsections)
    ensures TextItems(ITEM) == [["- a"]] && TextItems(PROSE) == []
  {
    ProseIsNoItem();
    var subs := PARSED.subsections;
    assert Texts(Numbered(ITEM, 4)) == ITEM && Texts(Numbered(PROSE, 8)) == PROSE;
    assert subs[0].title == subs[1].title;
  }

  lemma ProseIsNoItem()
    ensures TextItems(ITEM) == [["- a"]] && TextItems(PROSE) == [] && !Itemized(PROSE)
  {
    assert TrimStart("- a") == "- a" && TrimStart("note") == "note" && TrimStart("") == "";
    assert IsItem("- a") && !IsItem("note") && !IsItem("");
    NoItems(PROSE);
    assert PROSE[1] == "note" && !IsSpace("note"[0]) && !IsBlank("note");
    WholeItem(["- a"]);
    BlankEmpty();
    ItemIsNotBlank("- a");
    ItemsBlankAfter(["- a"], "");
    assert ITEM[1..] == ["- a"] + [""];
  }

  /** Nothing of it is dropped or promoted. */
  lemma GluedIsQuiet()
    ensures Quiet([PARSED], {}, {})
  {
    hide SectionEntries, SectionSift, UnionOf;
    UnionOne(PARSED, Only(false, Place(SectionEntries)));
    UnionOne(PARSED, Only(false, SectionSift(Marked({}), true)));
    assert Released([PARSED]) == {} && Promoted([PARSED], {}) == {};
    assert ReleasedKeys([PARSED]) == {};
  }

  /** Fixing that text changes the items of its one section. */
  method FixGlued() returns (fixed: string)
    ensures |SectionsOf(fixed)| == |SectionsOf(GLUED)| == 1
    ensures !SameItems(SectionsOf(fixed)[0].subsections, SectionsOf(GLUED)[0].subsections)
  {
    hide SameItems, MergeSafe, Quiet, Parse, Pending, Released, Unreleased, Staying, Promoted, Moved, Arranged, Opened, IsVersion;
    GluedParsed();
    GluedIsUnsafe();
    GluedIsQuiet();
    fixed := FixChangelogContent(GLUED, {}, {});
    ghost var order :| Arranged(order, [PARSED]) && Prints(fixed, order);
    ArrangeOne(PARSED, order);
    assert MergesSafely()(SectionsOf(fixed)[0], PARSED);
  }

  lemma ArrangeOne(s: Section, order: seq<Section>)
    requires s.title == "Unreleased" && Arranged(order, [s])
    ensures order == [s]
  {
    assert [s][1..] == [] && WithTitle([], true) == [] && WithTitle([], false) == [];
    assert WithTitle([s], true) == [s] && WithTitle([s], false) == [];
    assert |multiset(order[1..])| == 0;
  }
}
