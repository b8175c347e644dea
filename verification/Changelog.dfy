/** The changelog parser and printer of `scripts/fix-changelogs.ts`. */
module Changelog {
  import opened Text

  datatype Line = Line(text: string, number: nat)
  datatype Subsection = Subsection(title: string, lines: seq<Line>)
  datatype Section = Section(heading: string, title: string, leading: seq<Line>, subsections: seq<Subsection>)
  datatype Document = Document(prefix: seq<Line>, sections: seq<Section>)

  function Texts(lines: seq<Line>): seq<string> {
    seq(|lines|, i requires 0 <= i < |lines| => lines[i].text)
  }

  function Number(texts: seq<string>): seq<Line> {
    seq(|texts|, i requires 0 <= i < |texts| => Line(texts[i], i + 1))
  }

  // ---------------------------------------------------------------- headings

  /** "## [" and a non-empty bracketed title. */
  predicate IsRelease(line: string) {
    "## [" <= line && 0 < IndexOf(line[4..], ']') < |line| - 4
  }

  function ReleaseTitle(line: string): string
    requires IsRelease(line)
  {
    line[4..4 + IndexOf(line[4..], ']')]
  }

  /** "###", white space and something after it. */
  predicate IsCategory(line: string) {
    "###" <= line && |line| > 3 && IsSpace(line[3]) && TrimStart(line[3..]) != ""
  }

  function CategoryTitle(line: string): string
    requires IsCategory(line)
  {
    TrimEnd(TrimStart(line[3..]))
  }

  predicate IsItem(line: string) {
    "- " <= TrimStart(line)
  }

  lemma ItemIsNotBlank(line: string)
    requires IsItem(line)
    ensures !IsBlank(line)
  {
    TrimMembers(line);
    assert TrimStart(line)[0] == '-';
    assert '-' in TrimStart(line);
  }

  lemma BlankIsNoHeading(line: string)
    requires IsBlank(line)
    ensures !IsRelease(line) && !IsCategory(line) && !IsItem(line)
  {
    if IsItem(line) { ItemIsNotBlank(line); }
    if line != "" { assert IsSpace(line[0]); }
  }

  // ---------------------------------------------------------------- parsing

  function Until(lines: seq<Line>, heads: string -> bool): (k: nat)
    ensures k <= |lines| && forall i :: 0 <= i < k ==> !heads(lines[i].text)
    ensures k < |lines| ==> heads(lines[k].text)
  {
    if lines == [] || heads(lines[0].text) then 0 else 1 + Until(lines[1..], heads)
  }

  function ParseSubsections(lines: seq<Line>): seq<Subsection>
    requires lines != [] ==> IsCategory(lines[0].text)
  {
    if lines == [] then []
    else
      var k := 1 + Until(lines[1..], IsCategory);
      [Subsection(CategoryTitle(lines[0].text), lines[1..k])] + ParseSubsections(lines[k..])
  }

  function ParseSection(heading: string, body: seq<Line>): Section
    requires IsRelease(heading)
  {
    var k := Until(body, IsCategory);
    Section(heading, ReleaseTitle(heading), body[..k], ParseSubsections(body[k..]))
  }

  function ParseSections(lines: seq<Line>): seq<Section>
    requires lines != [] ==> IsRelease(lines[0].text)
  {
    if lines == [] then []
    else
      var k := 1 + Until(lines[1..], IsRelease);
      [ParseSection(lines[0].text, lines[1..k])] + ParseSections(lines[k..])
  }

  function Parse(lines: seq<Line>): Document {
    var k := Until(lines, IsRelease);
    Document(lines[..k], ParseSections(lines[k..]))
  }

  /** The scanning loop the parsers share: the first heading at or after `from`. */
  method Scan(lines: seq<Line>, from: nat, heads: string -> bool) returns (index: nat)
    requires from <= |lines|
    ensures from <= index <= |lines| && Until(lines[from..], heads) == index - from
  {
    index := from;
    while index < |lines| && !heads(lines[index].text)
      invariant from <= index <= |lines|
      invariant Until(lines[from..], heads) == index - from + Until(lines[index..], heads)
    {
      assert lines[index..][1..] == lines[index + 1..];
      index := index + 1;
    }
  }

  /** `next` is where a scan that starts after the heading at `at` stops. */
  lemma Slices(lines: seq<Line>, at: nat, next: nat, heads: string -> bool)
    requires at < next <= |lines| && Until(lines[at + 1..], heads) == next - at - 1
    ensures lines[at..][1..] == lines[at + 1..]
    ensures lines[at..][1..next - at] == lines[at + 1..next] && lines[at..][next - at..] == lines[next..]
    ensures next < |lines| ==> heads(lines[next].text)
  {
    if next < |lines| { assert lines[at + 1..][next - at - 1] == lines[next]; }
  }

  lemma NextSection(lines: seq<Line>, at: nat, next: nat)
    requires at < next <= |lines| && Until(lines[at + 1..], IsRelease) == next - at - 1
    requires IsRelease(lines[at].text)
    ensures next < |lines| ==> IsRelease(lines[next].text)
    ensures ParseSections(lines[at..])
            == [ParseSection(lines[at].text, lines[at + 1..next])] + ParseSections(lines[next..])
  {
    hide ParseSection, Until, IsRelease;
    Slices(lines, at, next, IsRelease);
  }

  lemma NextSubsection(lines: seq<Line>, at: nat, next: nat)
    requires at < next <= |lines| && Until(lines[at + 1..], IsCategory) == next - at - 1
    requires IsCategory(lines[at].text)
    ensures next < |lines| ==> IsCategory(lines[next].text)
    ensures ParseSubsections(lines[at..])
            == [Subsection(CategoryTitle(lines[at].text), lines[at + 1..next])] + ParseSubsections(lines[next..])
  {
    hide Until, IsCategory;
    Slices(lines, at, next, IsCategory);
  }

  lemma FirstSection(lines: seq<Line>, at: nat)
    requires at <= |lines| && Until(lines[0..], IsRelease) == at
    ensures at < |lines| ==> IsRelease(lines[at].text)
    ensures Parse(lines) == Document(lines[..at], ParseSections(lines[at..]))
  {
    assert lines[0..] == lines;
  }

  method ParseChangelog(content: string) returns (doc: Document)
    ensures doc == Parse(Number(SplitLines(content)))
  {
    hide Parse, ParseSection, ParseSections, Until, IsRelease, SplitLines, Number;
    NoSubsections();
    var lines := Number(SplitLines(content));
    var index := Scan(lines, 0, IsRelease);
    FirstSection(lines, index);
    var prefix, sections := lines[..index], [];
    ghost var all := ParseSections(lines[index..]);
    while index < |lines|
      invariant 0 <= index <= |lines|
      invariant index < |lines| ==> IsRelease(lines[index].text)
      invariant all == sections + ParseSections(lines[index..])
    {
      var heading := index;
      index := Scan(lines, heading + 1, IsRelease);
      NextSection(lines, heading, index);
      var section := ParseReleaseSection(lines[heading].text, lines[heading + 1..index]);
      Regroup(sections, [section], ParseSections(lines[index..]));
      sections := sections + [section];
    }
    doc := Document(prefix, sections);
  }

  lemma FirstSubsection(heading: string, body: seq<Line>, at: nat)
    requires IsRelease(heading) && at <= |body| && Until(body[0..], IsCategory) == at
    ensures at < |body| ==> IsCategory(body[at].text)
    ensures ParseSection(heading, body)
            == Section(heading, ReleaseTitle(heading), body[..at], ParseSubsections(body[at..]))
  {
    assert body[0..] == body;
  }

  lemma NoSubsections()
    ensures ParseSubsections([]) == [] && ParseSections([]) == []
  {
  }

  method ParseReleaseSection(heading: string, body: seq<Line>) returns (section: Section)
    requires IsRelease(heading)
    ensures section == ParseSection(heading, body)
  {
    hide IsRelease, ReleaseTitle, ParseSection, ParseSubsections, Until, IsCategory, CategoryTitle;
    var index := Scan(body, 0, IsCategory);
    FirstSubsection(heading, body, index);
    NoSubsections();
    var leading, subsections := body[..index], [];
    ghost var all := ParseSubsections(body[index..]);
    while index < |body|
      invariant 0 <= index <= |body|
      invariant index < |body| ==> IsCategory(body[index].text)
      invariant all == subsections + ParseSubsections(body[index..])
    {
      var line := index;
      index := Scan(body, line + 1, IsCategory);
      NextSubsection(body, line, index);
      var next := Subsection(CategoryTitle(body[line].text), body[line + 1..index]);
      Regroup(subsections, [next], ParseSubsections(body[index..]));
      subsections := subsections + [next];
    }
    section := Section(heading, ReleaseTitle(heading), leading, subsections);
  }

  // ---------------------------------------------------------------- printing

  datatype Category = Category(title: string, lines: seq<string>)
  datatype Release = Release(heading: string, leading: seq<string>, categories: seq<Category>)

  /** What a document says: blank lines at the ends of blocks and empty categories left out. */
  datatype Outline = Outline(prefix: seq<string>, releases: seq<Release>)

  function Categories(subsections: seq<Subsection>): seq<Category> {
    if subsections == [] then []
    else
      var lines, rest := TrimBlank(Texts(subsections[0].lines)), Categories(subsections[1..]);
      if lines == [] then rest else [Category(subsections[0].title, lines)] + rest
  }

  function ReleaseOf(section: Section): Release {
    Release(section.heading, TrimBlank(Texts(section.leading)), Categories(section.subsections))
  }

  function OutlineOf(doc: Document): Outline {
    Outline(TrimBlank(Texts(doc.prefix)),
            seq(|doc.sections|, i requires 0 <= i < |doc.sections| => ReleaseOf(doc.sections[i])))
  }

  type Block = (string, seq<string>)

  function Concat(blocks: seq<Block>): seq<string> {
    if blocks == [] then [] else [blocks[0].0] + blocks[0].1 + Concat(blocks[1..])
  }

  /** The last block ends in `tail`, every other one in an empty line. */
  function CategoryBlocks(cs: seq<Category>, tail: seq<string>): seq<Block> {
    seq(|cs|, i requires 0 <= i < |cs| =>
      ("### " + cs[i].title, [""] + cs[i].lines + if i == |cs| - 1 then tail else [""]))
  }

  function LeadLines(leading: seq<string>): seq<string> {
    if leading == [] then [] else [""] + leading
  }

  function Body(r: Release, tail: seq<string>): seq<string> {
    LeadLines(r.leading) + (if r.categories == [] then tail else [""]) + Concat(CategoryBlocks(r.categories, tail))
  }

  function ReleaseBlocks(rs: seq<Release>, tail: seq<string>): seq<Block> {
    seq(|rs|, i requires 0 <= i < |rs| => (rs[i].heading, Body(rs[i], if i == |rs| - 1 then tail else [""])))
  }

  function PrefixLines(o: Outline, tail: seq<string>): seq<string> {
    if o.prefix == [] then [] else o.prefix + if o.releases == [] then tail else [""]
  }

  function OutlineLines(o: Outline, tail: seq<string>): seq<string> {
    PrefixLines(o, tail) + Concat(ReleaseBlocks(o.releases, tail))
  }

  function Render(doc: Document): string {
    Join(OutlineLines(OutlineOf(doc), [])) + "\n"
  }

  lemma {:induction false} ConcatAppend(bs: seq<Block>, b: Block)
    ensures Concat(bs + [b]) == Concat(bs) + [b.0] + b.1
  {
    if bs == [] {
      assert bs + [b] == [b] && Concat([b][1..]) == [];
    } else {
      ConcatAppend(bs[1..], b);
      assert (bs + [b])[1..] == bs[1..] + [b];
    }
  }

  lemma LastCategory(cs: seq<Category>, tail: seq<string>)
    requires cs != []
    ensures var n := |cs| - 1;
            Concat(CategoryBlocks(cs, tail))
            == Concat(CategoryBlocks(cs[..n], [""])) + ["### " + cs[n].title] + ([""] + cs[n].lines + tail)
  {
    var n := |cs| - 1;
    var b := CategoryBlocks(cs, tail);
    assert b == CategoryBlocks(cs[..n], [""]) + [b[n]];
    ConcatAppend(CategoryBlocks(cs[..n], [""]), b[n]);
  }

  lemma LastRelease(rs: seq<Release>, tail: seq<string>)
    requires rs != []
    ensures var n := |rs| - 1;
            Concat(ReleaseBlocks(rs, tail))
            == Concat(ReleaseBlocks(rs[..n], [""])) + [rs[n].heading] + Body(rs[n], tail)
  {
    var n := |rs| - 1;
    var b := ReleaseBlocks(rs, tail);
    assert b == ReleaseBlocks(rs[..n], [""]) + [b[n]];
    ConcatAppend(ReleaseBlocks(rs[..n], [""]), b[n]);
  }

  lemma BodyTail(r: Release)
    ensures Body(r, [""]) == Body(r, []) + [""]
  {
    if r.categories != [] {
      LastCategory(r.categories, [""]);
      LastCategory(r.categories, []);
    }
  }

  /** The final loop of the printer pops exactly one empty line, if any line was printed. */
  lemma OutlineTail(o: Outline)
    requires o.prefix != [] || o.releases != []
    ensures OutlineLines(o, [""]) == OutlineLines(o, []) + [""]
  {
    if o.releases != [] {
      var n := |o.releases| - 1;
      LastRelease(o.releases, [""]);
      LastRelease(o.releases, []);
      BodyTail(o.releases[n]);
    }
  }
}
