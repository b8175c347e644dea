/** Collapsing old releases into a link. */
module ChangelogTail {
  import opened Wrappers
  import opened Text
  import opened Changelog
  import Utf8

  // So that a changelog fits its byte budget.

  function ByteLength(s: string): nat {
    |Utf8.Encode(s)|
  }

  /** Bytes of the lines, each with its newline. */
  function LineBytes(lines: seq<string>): nat {
    if lines == [] then 0 else LineBytes(lines[..|lines| - 1]) + ByteLength(lines[|lines| - 1]) + 1
  }

  function FileOf(lines: seq<string>): string {
    Join(lines) + "\n"
  }

  lemma {:induction false} LineBytesFront(lines: seq<string>)
    requires lines != []
    ensures LineBytes(lines) == ByteLength(lines[0]) + 1 + LineBytes(lines[1..])
  {
    var n := |lines| - 1;
    if n > 0 {
      LineBytesFront(lines[..n]);
      assert lines[..n][1..] == lines[1..][..n - 1];
    }
  }

  lemma BytesOf(a: string, b: string)
    ensures ByteLength(a + b) == ByteLength(a) + ByteLength(b) && ByteLength("\n") == 1
  {
    Utf8.EncodeAppend(a, b);
    Utf8.EncodeAscii("\n");
  }

  lemma {:induction false} FileBytes(lines: seq<string>)
    requires lines != []
    ensures ByteLength(FileOf(lines)) == LineBytes(lines)
  {
    hide ByteLength;
    LineBytesFront(lines);
    if |lines| == 1 {
      BytesOf(lines[0], "\n");
    } else {
      FileBytes(lines[1..]);
      assert FileOf(lines) == lines[0] + ("\n" + FileOf(lines[1..]));
      BytesOf(lines[0], "\n" + FileOf(lines[1..]));
      BytesOf("\n", FileOf(lines[1..]));
    }
  }

  // ---------------------------------------------------------------- headings and cuts

  function Headings(lines: seq<string>): seq<nat> {
    if lines == [] then []
    else
      var n := |lines| - 1;
      Headings(lines[..n]) + if IsRelease(lines[n]) then [n] else []
  }

  predicate AreHeadings(lines: seq<string>, h: seq<nat>) {
    (forall i :: 0 <= i < |h| ==> h[i] < |lines| && IsRelease(lines[h[i]]))
    && forall i, j :: 0 <= i < j < |h| ==> h[i] < h[j]
  }

  lemma {:induction false} HeadingsFacts(lines: seq<string>)
    ensures AreHeadings(lines, Headings(lines))
  {
    hide IsRelease;
    if lines != [] {
      var front := lines[..|lines| - 1];
      HeadingsFacts(front);
      var h := Headings(front);
      assert forall i :: 0 <= i < |h| ==> h[i] < |front| && lines[h[i]] == front[h[i]];
    }
  }

  /** End of the body above line `n`: blank lines are dropped. */
  function BodyEnd(lines: seq<string>, n: nat): (e: nat)
    requires n <= |lines|
    ensures e <= n
  {
    if n > 0 && IsBlank(lines[n - 1]) then BodyEnd(lines, n - 1) else n
  }

  lemma {:induction false} BodyEndStops(lines: seq<string>, n: nat, h: nat)
    requires h < n <= |lines| && !IsBlank(lines[h])
    ensures h < BodyEnd(lines, n) && !IsBlank(lines[BodyEnd(lines, n) - 1])
    ensures forall i :: BodyEnd(lines, n) <= i < n ==> IsBlank(lines[i])
    decreases n
  {
    hide IsBlank;
    if IsBlank(lines[n - 1]) { BodyEndStops(lines, n - 1, h); }
  }

  /** The first `k` sections of the file, as lines. */
  function Kept(lines: seq<string>, k: nat): seq<string>
    requires k < |Headings(lines)|
  {
    HeadingsFacts(lines);
    var h := Headings(lines);
    lines[..BodyEnd(lines, h[k])]
  }

  lemma {:induction false} HeadingsPrefix(lines: seq<string>, e: nat)
    requires e <= |lines|
    ensures Headings(lines[..e]) <= Headings(lines)
    ensures forall i :: 0 <= i < |Headings(lines)| ==>
              (i < |Headings(lines[..e])| <==> Headings(lines)[i] < e)
    decreases |lines|
  {
    hide IsRelease;
    HeadingsFacts(lines);
    HeadingsFacts(lines[..e]);
    if e < |lines| {
      var n := |lines| - 1;
      HeadingsPrefix(lines[..n], e);
      assert lines[..n][..e] == lines[..e];
    } else {
      assert lines[..e] == lines;
    }
  }

  /** A cut before heading `k` leaves `k` sections and no blank line at the end. */
  lemma KeptFacts(lines: seq<string>, k: nat)
    requires 0 < k < |Headings(lines)|
    ensures var kept := Kept(lines, k);
            kept != [] && !IsBlank(kept[|kept| - 1]) && Headings(kept) == Headings(lines)[..k]
  {
    hide IsRelease, IsBlank;
    HeadingsFacts(lines);
    var h := Headings(lines);
    NotBlankHeading(lines[h[k - 1]]);
    BodyEndStops(lines, h[k], h[k - 1]);
    HeadingsPrefix(lines, BodyEnd(lines, h[k]));
  }

  lemma KeptIsPrefix(lines: seq<string>, k: nat)
    requires k < |Headings(lines)| && AllOneLine(lines)
    ensures Kept(lines, k) <= lines && AllOneLine(Kept(lines, k))
  {
    hide OneLine, Headings;
    HeadingsFacts(lines);
  }

  lemma NotBlankHeading(line: string)
    requires IsRelease(line)
    ensures !IsBlank(line)
  {
    if IsBlank(line) { BlankIsNoHeading(line); }
  }

  // ---------------------------------------------------------------- collapsing

  function FooterBytes(link: string): nat {
    ByteLength("\n" + link + "\n")
  }

  /** What the collapse promises for `maxBytes`. */
  ghost predicate Collapsed(content: string, link: string, maxBytes: int, r: string, gone: nat) {
    var lines := SplitLines(content);
    var n := |Headings(lines)|;
    if gone == 0 then r == content && (ByteLength(content) + FooterBytes(link) <= maxBytes || n <= 2)
    else
      2 <= n - gone && r == FileOf(Kept(lines, n - gone))
      && ByteLength(content) + FooterBytes(link) > maxBytes
      && (ByteLength(r) + FooterBytes(link) <= maxBytes || n - gone == 2)
      && forall k :: n - gone < k < n ==> ByteLength(FileOf(Kept(lines, k))) + FooterBytes(link) > maxBytes
  }

  lemma CutBytes(lines: seq<string>, k: nat)
    requires 0 < k < |Headings(lines)|
    ensures ByteLength(FileOf(Kept(lines, k))) == LineBytes(Kept(lines, k))
  {
    KeptFacts(lines, k);
    FileBytes(Kept(lines, k));
  }

  method FindHeadings(lines: seq<string>) returns (h: seq<nat>)
    ensures h == Headings(lines)
  {
    hide IsRelease;
    h := [];
    var i := 0;
    while i < |lines|
      invariant 0 <= i <= |lines| && h == Headings(lines[..i])
    {
      assert lines[..i + 1][..i] == lines[..i];
      if IsRelease(lines[i]) { h := h + [i]; }
      i := i + 1;
    }
    assert lines[..i] == lines;
  }

  method CumulativeBytes(lines: seq<string>) returns (a: array<nat>)
    ensures a.Length == |lines| + 1 && fresh(a)
    ensures forall i :: 0 <= i <= |lines| ==> a[i] == LineBytes(lines[..i])
  {
    hide ByteLength;
    a := new nat[|lines| + 1];
    a[0] := 0;
    var i := 0;
    while i < |lines|
      invariant 0 <= i <= |lines|
      invariant forall k :: 0 <= k <= i ==> a[k] == LineBytes(lines[..k])
    {
      assert lines[..i + 1][..i] == lines[..i];
      a[i + 1] := a[i] + ByteLength(lines[i]) + 1;
      i := i + 1;
    }
  }

  method BodyEndBeforeLine(lines: seq<string>, heading: nat) returns (end: nat)
    requires heading <= |lines|
    ensures end == BodyEnd(lines, heading)
  {
    end := heading;
    while end > 0 && IsBlank(lines[end - 1])
      invariant end <= heading && BodyEnd(lines, heading) == BodyEnd(lines, end)
    {
      end := end - 1;
    }
  }

  method CollapseChangelogTail(content: string, link: string, maxBytes: int) returns (r: string, collapsed: nat)
    ensures Collapsed(content, link, maxBytes, r, collapsed)
  {
    hide SplitLines, Headings, LineBytes, ByteLength, FooterBytes, FileOf, BodyEnd;
    var footer := FooterBytes(link);
    var lines := SplitLines(content);
    if ByteLength(content) + footer <= maxBytes { return content, 0; }
    var headings := FindHeadings(lines);
    if |headings| <= 2 { return content, 0; }
    HeadingsFacts(lines);
    var cumulative := CumulativeBytes(lines);
    var budget := maxBytes - footer;
    var keptSections := 2;
    var candidate := |headings| - 1;
    var fits := false;
    while candidate >= 2 && !fits
      invariant 1 <= candidate < |headings| && 2 <= keptSections < |headings|
      invariant fits ==> keptSections == candidate && ByteLength(FileOf(Kept(lines, keptSections))) <= budget
      invariant !fits ==> keptSections == 2
      invariant forall i :: 0 <= i <= |lines| ==> cumulative[i] == LineBytes(lines[..i])
      invariant forall k :: candidate < k < |headings| ==> ByteLength(FileOf(Kept(lines, k))) > budget
      decreases !fits, candidate
    {
      var end := BodyEndBeforeLine(lines, headings[candidate]);
      CutBytes(lines, candidate);
      assert Kept(lines, candidate) == lines[..end];
      if cumulative[end] <= budget {
        keptSections := candidate;
        fits := true;
      } else {
        candidate := candidate - 1;
      }
    }
    var bodyEnd := BodyEndBeforeLine(lines, headings[keptSections]);
    r := FileOf(lines[..bodyEnd]);
    collapsed := |headings| - keptSections;
  }

  // ---------------------------------------------------------------- the footer

  /** `isLink` is the archive-link pattern; it matches no blank line. */
  ghost predicate LinkPattern(isLink: string -> bool) {
    forall l :: isLink(l) ==> !IsBlank(l)
  }

  predicate AllBlank(ls: seq<string>) {
    forall i :: 0 <= i < |ls| ==> IsBlank(ls[i])
  }

  predicate EndsFull(ls: seq<string>) {
    ls == [] || !IsBlank(ls[|ls| - 1])
  }

  /** The lines are a body, blank lines, the link, and blank lines. */
  predicate HasFooter(lines: seq<string>, before: seq<string>, gap: seq<string>, link: string, after: seq<string>) {
    lines == before + gap + [link] + after && EndsFull(before) && AllBlank(gap) && AllBlank(after) && !IsBlank(link)
  }

  predicate IsLastFull(lines: seq<string>, i: int) {
    0 <= i < |lines| && !IsBlank(lines[i]) && AllBlank(lines[i + 1..])
  }

  /** No line but blank ones, or the last other one is no link. */
  predicate NoFooter(lines: seq<string>, isLink: string -> bool) {
    forall i :: 0 <= i < |lines| && IsLastFull(lines, i) ==> !isLink(lines[i])
  }

  lemma {:induction false} BodyEndSplits(lines: seq<string>, n: nat)
    requires n <= |lines|
    ensures EndsFull(lines[..BodyEnd(lines, n)]) && AllBlank(lines[BodyEnd(lines, n)..n])
    decreases n
  {
    hide IsBlank;
    if n > 0 && IsBlank(lines[n - 1]) {
      BodyEndSplits(lines, n - 1);
      var e := BodyEnd(lines, n);
      assert lines[e..n] == lines[e..n - 1] + [lines[n - 1]];
    } else if n > 0 {
      assert lines[..n][n - 1] == lines[n - 1];
    }
  }

  lemma FooterMissing(lines: seq<string>, isLink: string -> bool, end: nat)
    requires end == BodyEnd(lines, |lines|) && (end == 0 || !isLink(lines[end - 1]))
    ensures NoFooter(lines, isLink)
  {
    hide IsBlank, BodyEnd;
    BodyEndSplits(lines, |lines|);
    forall i | end <= i < |lines| ensures IsBlank(lines[i]) { assert lines[end..|lines|][i - end] == lines[i]; }
    if end > 0 { assert lines[..end][end - 1] == lines[end - 1]; }
    forall i | 0 <= i < end - 1 ensures !IsLastFull(lines, i) {
      assert lines[i + 1..][end - 2 - i] == lines[end - 1];
    }
  }

  lemma FooterFound(lines: seq<string>, end: nat)
    requires 0 < end == BodyEnd(lines, |lines|)
    ensures var bodyEnd := BodyEnd(lines, end - 1);
            HasFooter(lines, lines[..bodyEnd], lines[bodyEnd..end - 1], lines[end - 1], lines[end..])
  {
    hide IsBlank, BodyEnd;
    BodyEndSplits(lines, |lines|);
    BodyEndSplits(lines, end - 1);
    var bodyEnd := BodyEnd(lines, end - 1);
    assert lines[..end][end - 1] == lines[end - 1] && lines[end..|lines|] == lines[end..];
    assert lines == lines[..end] + lines[end..] && lines[..end] == lines[..end - 1] + [lines[end - 1]];
    assert lines[..end - 1] == lines[..bodyEnd] + lines[bodyEnd..end - 1];
  }

  /** Splits off the link line and the blank lines around it, or leaves the text alone. */
  method SplitArchiveFooter(content: string, isLink: string -> bool) returns (body: string, link: Option<string>)
    ensures (body, link) == SplitFooter(content, isLink)
    ensures link.None? ==> body == content && NoFooter(SplitLines(content), isLink)
    ensures link.Some? ==>
              isLink(link.value)
              && exists before, gap, after :: HasFooter(SplitLines(content), before, gap, link.value, after)
                                              && body == FileOf(before)
  {
    hide SplitLines, HasFooter, NoFooter;
    var lines := SplitLines(content);
    var end := BodyEndBeforeLine(lines, |lines|);
    if end == 0 || !isLink(lines[end - 1]) {
      FooterMissing(lines, isLink, end);
      return content, None;
    }
    FooterFound(lines, end);
    var bodyEnd := BodyEndBeforeLine(lines, end - 1);
    return FileOf(lines[..bodyEnd]), Some(lines[end - 1]);
  }

  function SplitFooter(content: string, isLink: string -> bool): (string, Option<string>) {
    var lines := SplitLines(content);
    var end := BodyEnd(lines, |lines|);
    if end == 0 || !isLink(lines[end - 1]) then (content, None)
    else (FileOf(lines[..BodyEnd(lines, end - 1)]), Some(lines[end - 1]))
  }

  function AppendArchiveFooter(body: string, link: string): string {
    body + "\n" + link + "\n"
  }

  /** Splitting an appended footer gives back body and link. */
  lemma FooterRoundTrip(lines: seq<string>, link: string, isLink: string -> bool)
    requires LinkPattern(isLink) && isLink(link) && OneLine(link)
    requires lines != [] && AllOneLine(lines) && !IsBlank(lines[|lines| - 1])
    ensures SplitFooter(AppendArchiveFooter(FileOf(lines), link), isLink) == (FileOf(lines), Some(link))
  {
    hide IsBlank, SplitLines;
    var all := lines + ["", link];
    JoinTwo(lines, link);
    assert FileOf(all) == AppendArchiveFooter(FileOf(lines), link);
    LinesRoundTrip(all);
    assert IsBlank("") by { Empty(); }
    var n := |lines|;
    assert BodyEnd(all, n + 2) == n + 2;
    assert BodyEnd(all, n + 1) == BodyEnd(all, n) == n;
    assert all[..n] == lines;
  }

  lemma Empty()
    ensures IsBlank("")
  {
  }

  lemma {:induction false} JoinTwo(lines: seq<string>, link: string)
    requires lines != []
    ensures Join(lines + ["", link]) == Join(lines) + "\n" + "\n" + link
  {
    var all := lines + ["", link];
    if |lines| == 1 {
      assert all[1..] == ["", link] && ["", link][1..] == [link];
      assert Join(["", link]) == "\n" + link;
    } else {
      JoinTwo(lines[1..], link);
      assert all[1..] == lines[1..] + ["", link];
    }
  }

  /** A collapsed file with its footer splits into the kept part and the link. */
  lemma CollapsedFooter(content: string, link: string, maxBytes: int, r: string, gone: nat, isLink: string -> bool)
    requires Collapsed(content, link, maxBytes, r, gone) && gone > 0
    requires LinkPattern(isLink) && isLink(link) && OneLine(link)
    ensures SplitFooter(AppendArchiveFooter(r, link), isLink) == (r, Some(link))
    ensures SplitLines(r) <= SplitLines(content)
    ensures |Headings(SplitLines(r))| == |Headings(SplitLines(content))| - gone
  {
    hide IsBlank, SplitLines, Headings, ByteLength;
    var lines := SplitLines(content);
    var k := |Headings(lines)| - gone;
    KeptFacts(lines, k);
    LinesAreOneLine(content);
    assert Kept(lines, k) <= lines && AllOneLine(Kept(lines, k)) by { KeptIsPrefix(lines, k); }
    FooterRoundTrip(Kept(lines, k), link, isLink);
    LinesRoundTrip(Kept(lines, k));
  }
}
