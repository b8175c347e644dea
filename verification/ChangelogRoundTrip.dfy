/** Printing a parsed changelog and parsing it again changes nothing more. */
module ChangelogRoundTrip {
  import opened Text
  import opened Changelog

  // ---------------------------------------------------------------- the printer's loops

  lemma {:induction false} CategoriesAppend(a: seq<Subsection>, s: Subsection)
    ensures Categories(a + [s]) == Categories(a) + Categories([s])
  {
    if a == [] {
      assert a + [s] == [s];
    } else {
      CategoriesAppend(a[1..], s);
      assert (a + [s])[1..] == a[1..] + [s];
    }
  }

  lemma OneCategory(s: Subsection)
    ensures var lines := TrimBlank(Texts(s.lines));
            Categories([s]) == if lines == [] then [] else [Category(s.title, lines)]
  {
    assert Categories([s][1..]) == [];
  }

  lemma BlocksAppend(cs: seq<Category>, c: Category)
    ensures Concat(CategoryBlocks(cs + [c], [""]))
            == Concat(CategoryBlocks(cs, [""])) + ["### " + c.title] + ([""] + c.lines + [""])
  {
    LastCategory(cs + [c], [""]);
    assert (cs + [c])[..|cs|] == cs;
  }

  /** The lines printed so far, but for the empty line the next category or the section's end adds. */
  ghost predicate Printed(output: seq<string>, lead: seq<string>, cs: seq<Category>) {
    output + [""] == lead + [""] + Concat(CategoryBlocks(cs, [""]))
  }

  lemma PrintFirst(lead: seq<string>)
    ensures Printed(lead, lead, []) && Categories([]) == []
  {
  }

  lemma PrintNext(output: seq<string>, lead: seq<string>, cs: seq<Category>, c: Category)
    requires Printed(output, lead, cs)
    ensures Printed(output + ["", "### " + c.title, ""] + c.lines, lead, cs + [c])
  {
    hide Concat, CategoryBlocks;
    BlocksAppend(cs, c);
    var before, head, rest := Concat(CategoryBlocks(cs, [""])), ["### " + c.title], [""] + c.lines + [""];
    assert output + ["", "### " + c.title, ""] + c.lines + [""] == output + [""] + head + rest;
    Regroup(lead + [""], before, head);
    Regroup(lead + [""], before + head, rest);
  }

  method RenderSection(section: Section) returns (lines: seq<string>)
    ensures lines == [section.heading] + Body(ReleaseOf(section), [""])
  {
    hide Categories, CategoryBlocks, Concat, TrimBlank, Printed, Body;
    var output := [section.heading];
    var leading := TrimBlankLines(Texts(section.leading));
    if |leading| > 0 {
      output := output + [""] + leading;
    }
    ghost var lead := output;
    var j := 0;
    PrintFirst(lead);
    while j < |section.subsections|
      invariant 0 <= j <= |section.subsections|
      invariant Printed(output, lead, Categories(section.subsections[..j]))
    {
      var s := section.subsections[j];
      var body := TrimBlankLines(Texts(s.lines));
      ghost var before := Categories(section.subsections[..j]);
      CategoriesAppend(section.subsections[..j], s);
      OneCategory(s);
      assert section.subsections[..j + 1] == section.subsections[..j] + [s];
      if |body| > 0 {
        PrintNext(output, lead, before, Category(s.title, body));
        output := output + ["", "### " + s.title, ""] + body;
      } else {
        assert before + [] == before;
      }
      j := j + 1;
    }
    assert section.subsections[..j] == section.subsections;
    lines := output + [""];
    PrintEnd(section, output, lead);
  }

  lemma PrintEnd(section: Section, output: seq<string>, lead: seq<string>)
    requires Printed(output, lead, Categories(section.subsections))
    requires lead == [section.heading] + LeadLines(TrimBlank(Texts(section.leading)))
    ensures output + [""] == [section.heading] + Body(ReleaseOf(section), [""])
  {
    hide Concat, CategoryBlocks, TrimBlank, Categories;
    BodyShape(ReleaseOf(section));
  }

  lemma BodyShape(r: Release)
    ensures Body(r, [""]) == LeadLines(r.leading) + [""] + Concat(CategoryBlocks(r.categories, [""]))
  {
  }

  method RenderChangelog(doc: Document) returns (content: string)
    requires forall s :: s in doc.sections ==> !IsBlank(s.heading)
    ensures content == Render(doc)
  {
    hide Categories, TrimBlank, Body, IsBlank, Concat, ReleaseBlocks;
    NoReleaseBlocks();
    ghost var o := OutlineOf(doc);
    var output := [];
    var prefix := TrimBlankLines(Texts(doc.prefix));
    if |prefix| > 0 {
      output := prefix + [""];
    }
    ghost var top := output;
    var i := 0;
    assert o.releases[..0] == [] && top + [] == top;
    while i < |doc.sections|
      invariant 0 <= i <= |doc.sections|
      invariant output == top + Concat(ReleaseBlocks(o.releases[..i], [""]))
    {
      var lines := RenderSection(doc.sections[i]);
      LastRelease(o.releases[..i + 1], [""]);
      assert o.releases[..i + 1][..i] == o.releases[..i];
      output := output + lines;
      i := i + 1;
    }
    assert o.releases[..i] == o.releases;
    assert output == OutlineLines(o, [""]);
    LastLine(doc);
    if o.prefix != [] || o.releases != [] { OutlineTail(o); } else { NothingPrinted(o); }
    while |output| > 0 && output[|output| - 1] == ""
      invariant output == OutlineLines(o, []) || (|output| > 0 && output == OutlineLines(o, []) + [""])
    {
      output := output[..|output| - 1];
    }
    content := Join(output) + "\n";
  }

  lemma NothingPrinted(o: Outline)
    requires o.prefix == [] && o.releases == []
    ensures OutlineLines(o, [""]) == OutlineLines(o, []) == []
  {
  }

  lemma NoReleaseBlocks()
    ensures Concat(ReleaseBlocks([], [""])) == []
  {
  }

  predicate EndsFilled(lines: seq<string>) {
    lines == [] || lines[|lines| - 1] != ""
  }

  lemma TrimmedEnds(lines: seq<string>)
    requires Trimmed(lines)
    ensures EndsFilled(lines)
  {
  }

  lemma AppendEnds(a: seq<string>, b: seq<string>)
    requires EndsFilled(b) && (b == [] ==> EndsFilled(a))
    ensures EndsFilled(a + b)
  {
    if b == [] { assert a + b == a; }
  }

  lemma BodyEnds(r: Release)
    requires Trimmed(r.leading) && forall c :: c in r.categories ==> c.lines != [] && Trimmed(c.lines)
    ensures EndsFilled(Body(r, []))
  {
    hide Trimmed, CategoryBlocks, Concat;
    var lead := LeadLines(r.leading);
    if r.categories == [] {
      TrimmedEnds(r.leading);
      assert CategoryBlocks(r.categories, []) == [] && Concat([]) == [] by { NoneToPrint(); }
      assert Body(r, []) == lead + [] + [];
      if r.leading != [] { AppendEnds([""], r.leading); }
    } else {
      var last := r.categories[|r.categories| - 1];
      assert last in r.categories;
      TrimmedEnds(last.lines);
      LastCategory(r.categories, []);
      var front := Concat(CategoryBlocks(r.categories[..|r.categories| - 1], [""])) + ["### " + last.title];
      assert [""] + last.lines + [] == [""] + last.lines;
      assert Body(r, []) == (lead + [""] + front + [""]) + last.lines;
      AppendEnds(lead + [""] + front + [""], last.lines);
    }
  }

  lemma NoneToPrint()
    ensures CategoryBlocks([], []) == [] && Concat([]) == []
  {
  }

  /** The printed lines never end in an empty line, so popping stops there. */
  lemma LastLine(doc: Document)
    requires forall s :: s in doc.sections ==> !IsBlank(s.heading)
    ensures EndsFilled(OutlineLines(OutlineOf(doc), []))
    ensures OutlineOf(doc).prefix == [] && OutlineOf(doc).releases == [] ==> OutlineLines(OutlineOf(doc), [""]) == []
  {
    hide Trimmed, TrimBlank, Texts, Categories, Body, IsBlank, EndsFilled, Concat;
    var o := OutlineOf(doc);
    TrimBlankTrims(Texts(doc.prefix));
    TrimmedEnds(o.prefix);
    if o.releases == [] {
      assert ReleaseBlocks(o.releases, []) == [] && ReleaseBlocks(o.releases, [""]) == [] && Concat([]) == [] by {
        NoneToPrint();
      }
      assert o.prefix + [] + [] == o.prefix;
      NothingEnds();
    } else {
      var n := |o.releases| - 1;
      var r, s := o.releases[n], doc.sections[n];
      assert s in doc.sections && s.heading == r.heading;
      TrimBlankTrims(Texts(s.leading));
      CategoriesNonEmpty(s.subsections);
      BodyEnds(r);
      HeadingEnds(s.heading);
      LastRelease(o.releases, []);
      var front := PrefixLines(o, []) + Concat(ReleaseBlocks(o.releases[..n], [""]));
      AppendEnds(front, [r.heading]);
      AppendEnds(front + [r.heading], Body(r, []));
      assert OutlineLines(o, []) == front + [r.heading] + Body(r, []);
    }
  }

  lemma NothingEnds()
    ensures EndsFilled([])
  {
  }

  lemma HeadingEnds(heading: string)
    requires !IsBlank(heading)
    ensures EndsFilled([heading])
  {
  }

  lemma {:induction false} CategoriesNonEmpty(subsections: seq<Subsection>)
    ensures forall c :: c in Categories(subsections) ==> c.lines != [] && Trimmed(c.lines)
  {
    if subsections != [] {
      TrimBlankTrims(Texts(subsections[0].lines));
      CategoriesNonEmpty(subsections[1..]);
    }
  }

  // ---------------------------------------------------------------- documents worth printing

  predicate PlainLine(l: string) {
    OneLine(l) && !IsRelease(l) && !IsCategory(l)
  }

  predicate PlainLines(ls: seq<string>) {
    Trimmed(ls) && forall l :: l in ls ==> PlainLine(l)
  }

  predicate GoodTitle(t: string) {
    OneLine(t) && IsCategory("### " + t) && CategoryTitle("### " + t) == t
  }

  predicate GoodCategory(c: Category) {
    GoodTitle(c.title) && c.lines != [] && PlainLines(c.lines)
  }

  predicate GoodRelease(r: Release) {
    IsRelease(r.heading) && OneLine(r.heading) && PlainLines(r.leading)
    && forall c :: c in r.categories ==> GoodCategory(c)
  }

  predicate GoodOutline(o: Outline) {
    Trimmed(o.prefix) && (forall l :: l in o.prefix ==> OneLine(l) && !IsRelease(l))
    && forall r :: r in o.releases ==> GoodRelease(r)
  }

  lemma TitleIsGood(heading: string)
    requires IsCategory(heading) && OneLine(heading)
    ensures GoodTitle(CategoryTitle(heading))
  {
    var rest := TrimStart(heading[3..]);
    TrimStartIsStart(heading[3..]);
    var t := TrimEnd(rest);
    TrimEndKeepsFirst(rest);
    TrimMembers(heading[3..]);
    TrimMembers(rest);
    var line := "### " + t;
    assert line[3..] == " " + t && (" " + t)[1..] == t;
    assert TrimStart(line[3..]) == t;
    assert IsCategory(line) by { assert line[..3] == "###"; }
  }

  lemma {:induction false} TrimStartIsStart(s: string)
    ensures TrimStart(s) != "" ==> !IsSpace(TrimStart(s)[0])
  {
    if s != "" && IsSpace(s[0]) { TrimStartIsStart(s[1..]); }
  }

  predicate SingleLines(lines: seq<Line>) {
    forall i :: 0 <= i < |lines| ==> OneLine(lines[i].text)
  }

  lemma TrimmedTexts(lines: seq<Line>)
    requires SingleLines(lines)
    ensures Trimmed(TrimBlank(Texts(lines)))
    ensures forall l :: l in TrimBlank(Texts(lines)) ==> OneLine(l) && exists i :: 0 <= i < |lines| && lines[i].text == l
  {
    TrimBlankTrims(Texts(lines));
    assert forall l :: l in Texts(lines) ==> exists i :: 0 <= i < |lines| && lines[i].text == l;
  }

  lemma {:induction false} ParsedCategories(lines: seq<Line>)
    requires lines != [] ==> IsCategory(lines[0].text)
    requires SingleLines(lines) && forall i :: 0 <= i < |lines| ==> !IsRelease(lines[i].text)
    ensures forall c :: c in Categories(ParseSubsections(lines)) ==> GoodCategory(c)
  {
    hide GoodCategory, IsRelease, TrimBlank, OneLine, IsCategory;
    if lines != [] {
      var k := 1 + Until(lines[1..], IsCategory);
      var body := lines[1..k];
      assert forall i :: 0 <= i < |body| ==> body[i] == lines[1..][i];
      CategoryIsGood(lines[0].text, body);
      ParsedCategories(lines[k..]);
    }
  }

  lemma CategoryIsGood(heading: string, body: seq<Line>)
    requires IsCategory(heading) && OneLine(heading) && SingleLines(body)
    requires forall i :: 0 <= i < |body| ==> !IsRelease(body[i].text) && !IsCategory(body[i].text)
    ensures TrimBlank(Texts(body)) != [] ==> GoodCategory(Category(CategoryTitle(heading), TrimBlank(Texts(body))))
  {
    hide GoodTitle, IsRelease, IsCategory, TrimBlank, Trimmed, OneLine;
    TitleIsGood(heading);
    TrimmedTexts(body);
  }

  lemma ParsedSection(heading: string, body: seq<Line>)
    requires IsRelease(heading) && OneLine(heading) && SingleLines(body)
    requires forall i :: 0 <= i < |body| ==> !IsRelease(body[i].text)
    ensures GoodRelease(ReleaseOf(ParseSection(heading, body)))
  {
    hide IsRelease, IsCategory, TrimBlank, Trimmed, Categories, ParseSubsections, ReleaseTitle, OneLine;
    var j := Until(body, IsCategory);
    TrimmedTexts(body[..j]);
    ParsedCategories(body[j..]);
  }

  lemma {:induction false} ParsedSections(lines: seq<Line>)
    requires lines != [] ==> IsRelease(lines[0].text)
    requires SingleLines(lines)
    ensures forall s :: s in ParseSections(lines) ==> GoodRelease(ReleaseOf(s))
  {
    hide IsRelease, ParseSection, ReleaseOf, OneLine;
    if lines != [] {
      var k := 1 + Until(lines[1..], IsRelease);
      var body := lines[1..k];
      assert forall i :: 0 <= i < |body| ==> body[i] == lines[1..][i];
      ParsedSection(lines[0].text, body);
      ParsedSections(lines[k..]);
    }
  }

  /** Whatever the text, parsing gives a document that prints well. */
  lemma ParsedOutline(lines: seq<Line>)
    requires SingleLines(lines)
    ensures GoodOutline(OutlineOf(Parse(lines)))
  {
    var k := Until(lines, IsRelease);
    TrimmedTexts(lines[..k]);
    ParsedSections(lines[k..]);
  }

  // ---------------------------------------------------------------- reading the print

  lemma {:induction false} UntilAt(lines: seq<Line>, n: nat, heads: string -> bool)
    requires n <= |lines| && forall i :: 0 <= i < n ==> !heads(lines[i].text)
    requires n < |lines| ==> heads(lines[n].text)
    ensures Until(lines, heads) == n
  {
    if n > 0 { UntilAt(lines[1..], n - 1, heads); }
  }

  /** Splits printed lines after a heading and the plain lines under it. */
  lemma HeadBlock(lines: seq<Line>, head: string, under: seq<string>, rest: seq<string>, heads: string -> bool)
    requires Texts(lines) == [head] + under + rest
    requires (forall l :: l in under ==> !heads(l)) && (rest != [] ==> heads(rest[0]))
    ensures var k := 1 + Until(lines[1..], heads);
            k == 1 + |under| <= |lines| && lines[0].text == head
            && Texts(lines[1..k]) == under && Texts(lines[k..]) == rest
  {
    var all, n := Texts(lines), |under|;
    assert |lines| == |all| == 1 + n + |rest|;
    assert all[0] == head && all[1..1 + n] == under && all[1 + n..] == rest;
    assert forall i :: 0 <= i < n ==> lines[1..][i].text == all[1..1 + n][i];
    assert rest != [] ==> lines[1..][n].text == all[1 + n..][0];
    UntilAt(lines[1..], n, heads);
    assert Texts(lines[1..1 + n]) == all[1..1 + n];
    assert Texts(lines[1 + n..]) == all[1 + n..];
  }

  predicate Tail(tail: seq<string>) {
    tail == [] || tail == [""]
  }

  lemma BlankLine()
    ensures IsBlank("") && PlainLine("")
  {
    BlankIsNoHeading("");
  }

  lemma UnderCategory(c: Category, tail: seq<string>)
    requires Tail(tail) && GoodCategory(c)
    ensures var under := [""] + c.lines + tail;
            TrimBlank(under) == c.lines && |under| == 1 + |c.lines| + |tail|
            && forall l :: l in under ==> !IsCategory(l)
  {
    hide IsCategory, IsRelease, CategoryTitle, IsBlank;
    BlankLine();
    TrimBlankPadded([""], c.lines, tail);
    TrimmedStays(c.lines);
  }

  lemma ReadCategory(lines: seq<Line>, c: Category, tail: seq<string>, rest: seq<string>)
    requires Tail(tail) && GoodCategory(c) && (rest != [] ==> IsCategory(rest[0]))
    requires Texts(lines) == ["### " + c.title] + ([""] + c.lines + tail) + rest
    ensures IsCategory(lines[0].text)
    ensures var k := 2 + |c.lines| + |tail|;
            Texts(lines[k..]) == rest && ParseSubsections(lines)
            == [Subsection(c.title, lines[1..k])] + ParseSubsections(lines[k..])
    ensures TrimBlank(Texts(lines[1..2 + |c.lines| + |tail|])) == c.lines
  {
    hide IsCategory, IsRelease, CategoryTitle, GoodCategory, GoodTitle, Trimmed, TrimBlank, Until, ParseSubsections, IsBlank;
    var under, head := [""] + c.lines + tail, "### " + c.title;
    UnderCategory(c, tail);
    GoodHead(c);
    HeadBlock(lines, head, under, rest, IsCategory);
    ParseFirst(lines, c.title);
  }

  lemma GoodHead(c: Category)
    requires GoodCategory(c)
    ensures var head := "### " + c.title; IsCategory(head) && CategoryTitle(head) == c.title
  {
    hide IsCategory, CategoryTitle;
  }

  lemma {:induction false} ParseFirst(lines: seq<Line>, title: string)
    requires lines != [] && IsCategory(lines[0].text) && CategoryTitle(lines[0].text) == title
    ensures var k := 1 + Until(lines[1..], IsCategory);
            ParseSubsections(lines) == [Subsection(title, lines[1..k])] + ParseSubsections(lines[k..])
  {
    hide IsCategory, CategoryTitle, Until;
  }

  lemma FirstCategory(cs: seq<Category>, tail: seq<string>)
    requires cs != [] && forall c :: c in cs ==> GoodCategory(c)
    ensures var rest := Concat(CategoryBlocks(cs[1..], tail));
            Concat(CategoryBlocks(cs, tail))
            == ["### " + cs[0].title] + ([""] + cs[0].lines + (if |cs| == 1 then tail else [""])) + rest
            && (rest != [] ==> IsCategory(rest[0]))
  {
    hide IsCategory, CategoryTitle, PlainLine, IsBlank;
    assert CategoryBlocks(cs, tail)[1..] == CategoryBlocks(cs[1..], tail);
    if |cs| > 1 { assert GoodCategory(cs[1]); }
  }

  lemma {:induction false} ReadCategories(lines: seq<Line>, cs: seq<Category>, tail: seq<string>)
    requires Tail(tail) && forall c :: c in cs ==> GoodCategory(c)
    requires Texts(lines) == Concat(CategoryBlocks(cs, tail))
    ensures lines == [] || IsCategory(lines[0].text)
    ensures Categories(ParseSubsections(lines)) == cs
    decreases |cs|
  {
    hide IsCategory, CategoryTitle, PlainLine, IsBlank, Trimmed, TrimBlank, Concat, CategoryBlocks, ParseSubsections;
    if cs == [] {
      NoCategories(lines, tail);
    } else {
      var c, last := cs[0], if |cs| == 1 then tail else [""];
      FirstCategory(cs, tail);
      ReadCategory(lines, c, last, Concat(CategoryBlocks(cs[1..], tail)));
      var k := 2 + |c.lines| + |last|;
      ReadCategories(lines[k..], cs[1..], tail);
      OneCategory(Subsection(c.title, lines[1..k]));
      assert cs == [c] + cs[1..];
    }
  }

  lemma NoCategories(lines: seq<Line>, tail: seq<string>)
    requires Texts(lines) == Concat(CategoryBlocks([], tail))
    ensures lines == [] && Categories(ParseSubsections(lines)) == []
  {
    assert |Texts(lines)| == |lines|;
  }

  lemma NotHeadings(under: seq<string>, heads: string -> bool)
    requires forall l :: l in under ==> PlainLine(l)
    requires heads == IsCategory || heads == IsRelease
    ensures forall l :: l in under ==> !heads(l)
  {
  }

  lemma TrimmedStays(ls: seq<string>)
    requires Trimmed(ls)
    ensures TrimBlank(ls) == ls
  {
  }

  lemma ReadBody(heading: string, body: seq<Line>, r: Release, tail: seq<string>)
    requires Tail(tail) && GoodRelease(r) && heading == r.heading
    requires Texts(body) == Body(r, tail)
    ensures ReleaseOf(ParseSection(heading, body)) == r
  {
    hide IsCategory, IsRelease, CategoryTitle, PlainLine, IsBlank, Trimmed, ParseSubsections, Categories, GoodCategory;
    var pad := if r.categories == [] then tail else [""];
    var lead, rest := LeadLines(r.leading) + pad, Concat(CategoryBlocks(r.categories, tail));
    var n := |lead|;
    assert Texts(body[..n]) == Texts(body)[..n] == lead && Texts(body[n..]) == Texts(body)[n..] == rest;
    BlankLine();
    NotHeadings(lead, IsCategory);
    ReadCategories(body[n..], r.categories, tail);
    assert forall i :: 0 <= i < n ==> body[i].text == lead[i];
    UntilAt(body, n, IsCategory);
    if r.leading == [] {
      TrimBlankPadded(pad, [], []);
      assert pad + [] + [] == lead;
    } else {
      TrimBlankPadded([""], r.leading, pad);
      assert [""] + r.leading + pad == lead;
    }
    TrimmedStays(r.leading);
  }

  lemma BodyIsPlain(r: Release, tail: seq<string>)
    requires Tail(tail) && GoodRelease(r)
    ensures forall l :: l in Body(r, tail) ==> OneLine(l) && !IsRelease(l)
  {
    hide IsRelease, IsCategory, CategoryTitle;
    BlankLine();
    CategoriesArePlain(r.categories, tail);
  }

  lemma {:induction false} CategoriesArePlain(cs: seq<Category>, tail: seq<string>)
    requires Tail(tail) && forall c :: c in cs ==> GoodCategory(c)
    ensures forall l :: l in Concat(CategoryBlocks(cs, tail)) ==> OneLine(l) && !IsRelease(l)
    decreases |cs|
  {
    if cs != [] {
      var c := cs[0];
      assert GoodCategory(c);
      assert CategoryBlocks(cs, tail)[1..] == CategoryBlocks(cs[1..], tail);
      CategoriesArePlain(cs[1..], tail);
      BlankLine();
      var head := "### " + c.title;
      assert head[2] == '#' && OneLine(head);
    }
  }

  lemma {:induction false} ReadReleases(lines: seq<Line>, rs: seq<Release>)
    requires forall r :: r in rs ==> GoodRelease(r)
    requires Texts(lines) == Concat(ReleaseBlocks(rs, []))
    ensures lines != [] ==> IsRelease(lines[0].text)
    ensures var sections := ParseSections(lines);
            |sections| == |rs| && forall i :: 0 <= i < |rs| ==> ReleaseOf(sections[i]) == rs[i]
    decreases |rs|
  {
    hide IsRelease, PlainLine, Body, ParseSection, ReleaseOf;
    if rs != [] {
      var r, tail := rs[0], if |rs| == 1 then [] else [""];
      var rest := Concat(ReleaseBlocks(rs[1..], []));
      assert ReleaseBlocks(rs, [])[1..] == ReleaseBlocks(rs[1..], []);
      assert GoodRelease(r);
      if |rs| > 1 { assert GoodRelease(rs[1]); }
      BodyIsPlain(r, tail);
      HeadBlock(lines, r.heading, Body(r, tail), rest, IsRelease);
      var k := 1 + |Body(r, tail)|;
      ReadReleases(lines[k..], rs[1..]);
      ReadBody(r.heading, lines[1..k], r, tail);
    }
  }

  /** Parsing what was printed recovers the outline. */
  lemma ReadOutline(lines: seq<Line>, o: Outline)
    requires GoodOutline(o) && Texts(lines) == OutlineLines(o, [])
    ensures OutlineOf(Parse(lines)) == o
  {
    hide IsRelease, ParseSections, ReleaseOf, GoodRelease, IsBlank, Trimmed;
    var lead, rest := PrefixLines(o, []), Concat(ReleaseBlocks(o.releases, []));
    var n := |lead|;
    assert !IsRelease("") by { EmptyIsNoRelease(); }
    assert Texts(lines[..n]) == Texts(lines)[..n] == lead && Texts(lines[n..]) == Texts(lines)[n..] == rest;
    ReadReleases(lines[n..], o.releases);
    assert forall i :: 0 <= i < n ==> lines[i].text == lead[i];
    UntilAt(lines, n, IsRelease);
    PrefixTrims(o);
  }

  lemma PrefixTrims(o: Outline)
    requires GoodOutline(o)
    ensures TrimBlank(PrefixLines(o, [])) == o.prefix
  {
    hide GoodRelease, IsBlank;
    BlankLine();
    if o.prefix != [] {
      var end := if o.releases == [] then [] else [""];
      TrimBlankPadded([], o.prefix, end);
      assert [] + o.prefix + end == PrefixLines(o, []);
    }
    TrimmedStays(o.prefix);
  }

  lemma EmptyIsNoRelease()
    ensures !IsRelease("")
  {
  }

  lemma {:induction false} ReleasesAreOneLine(rs: seq<Release>)
    requires forall r :: r in rs ==> GoodRelease(r)
    ensures forall l :: l in Concat(ReleaseBlocks(rs, [])) ==> OneLine(l)
    decreases |rs|
  {
    if rs != [] {
      assert GoodRelease(rs[0]);
      assert ReleaseBlocks(rs, [])[1..] == ReleaseBlocks(rs[1..], []);
      BodyIsPlain(rs[0], if |rs| == 1 then [] else [""]);
      ReleasesAreOneLine(rs[1..]);
    }
  }

  /**
   * Parsing a printed document recovers it up to blank lines at the ends of blocks and empty
   * categories.
   */
  lemma ParseRender(doc: Document)
    requires GoodOutline(OutlineOf(doc))
    ensures OutlineOf(Parse(Number(SplitLines(Render(doc))))) == OutlineOf(doc)
  {
    hide GoodRelease, IsRelease, TrimBlank;
    var o := OutlineOf(doc);
    var texts := OutlineLines(o, []);
    BlankLine();
    ReleasesAreOneLine(o.releases);
    if texts == [] {
      ReadNothing();
      assert o.prefix == [] && o.releases == [];
      assert Join(texts) + "\n" == "\n";
    } else {
      LinesRoundTrip(texts);
      assert Texts(Number(texts)) == texts;
      ReadOutline(Number(texts), o);
    }
  }

  lemma ReadNothing()
    ensures OutlineOf(Parse(Number(SplitLines("\n")))) == Outline([], [])
  {
    var n := Normalize("\n");
    assert n == "\n";
    assert SplitLines("\n") == [""];
    var lines := Number([""]);
    assert Until(lines, IsRelease) == 1;
    assert Texts(lines[..1]) == [""];
  }

  /** Printing after parsing is idempotent on every text. */
  lemma RenderIsIdempotent(content: string)
    ensures var once := Render(Parse(Number(SplitLines(content))));
            Render(Parse(Number(SplitLines(once)))) == once
  {
    var lines := Number(SplitLines(content));
    LinesAreOneLine(content);
    ParsedOutline(lines);
    ParseRender(Parse(lines));
  }
}
