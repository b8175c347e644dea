/** JavaScript string helpers: `indexOf`, `trim`, and lines. */
module Text {
  /** First position of `x`, or the length where JavaScript's `indexOf` gives -1. */
  function IndexOf<T(==)>(s: seq<T>, x: T): (k: nat)
    ensures k <= |s| && x !in s[..k]
    ensures k < |s| ==> s[k] == x
  {
    if s == [] || s[0] == x then 0 else 1 + IndexOf(s[1..], x)
  }

  lemma Regroup<T>(a: seq<T>, b: seq<T>, c: seq<T>)
    ensures a + (b + c) == a + b + c
  {
  }

  /** The characters that `trim` removes and `\s` matches. */
  predicate IsSpace(c: char) {
    var n := c as int;
    9 <= n <= 13 || n == 32 || n == 0xA0 || n == 0x1680 || 0x2000 <= n <= 0x200A
    || n == 0x2028 || n == 0x2029 || n == 0x202F || n == 0x205F || n == 0x3000 || n == 0xFEFF
  }

  function TrimEnd(s: string): string {
    if s != "" && IsSpace(s[|s| - 1]) then TrimEnd(s[..|s| - 1]) else s
  }

  function TrimStart(s: string): string {
    if s != "" && IsSpace(s[0]) then TrimStart(s[1..]) else s
  }

  /** `line.trim() === ""` */
  predicate IsBlank(s: string) {
    forall i :: 0 <= i < |s| ==> IsSpace(s[i])
  }

  lemma {:induction false} BlankTrims(s: string)
    ensures IsBlank(s) <==> TrimStart(TrimEnd(s)) == ""
  {
    if s != "" && IsSpace(s[|s| - 1]) {
      BlankTrims(s[..|s| - 1]);
    } else if s != "" {
      TrimStartKeepsLast(s);
    }
  }

  lemma {:induction false} TrimStartKeepsLast(s: string)
    requires s != "" && !IsSpace(s[|s| - 1])
    ensures TrimStart(s) != "" && TrimStart(s)[|TrimStart(s)| - 1] == s[|s| - 1]
    ensures !IsSpace(TrimStart(s)[0])
  {
    if IsSpace(s[0]) { TrimStartKeepsLast(s[1..]); }
  }

  lemma {:induction false} TrimEndKeepsFirst(s: string)
    requires s != "" && !IsSpace(s[0])
    ensures TrimEnd(s) != "" && TrimEnd(s)[0] == s[0]
    ensures !IsSpace(TrimEnd(s)[|TrimEnd(s)| - 1])
  {
    if IsSpace(s[|s| - 1]) { TrimEndKeepsFirst(s[..|s| - 1]); }
  }

  lemma {:induction false} TrimMembers(s: string)
    ensures forall c :: c in TrimStart(s) || c in TrimEnd(s) ==> c in s
  {
    if s != "" {
      TrimMembers(s[1..]);
      TrimMembers(s[..|s| - 1]);
      assert forall c :: c in s[1..] || c in s[..|s| - 1] ==> c in s;
    }
  }

  // ---------------------------------------------------------------- lines

  /** `split("\n")` */
  function Split(s: string): (r: seq<string>)
    ensures r != []
  {
    if s == "" then [""]
    else
      var rest := Split(s[1..]);
      if s[0] == '\n' then [""] + rest else [[s[0]] + rest[0]] + rest[1..]
  }

  /** `join("\n")` */
  function Join(lines: seq<string>): string {
    if lines == [] then "" else if |lines| == 1 then lines[0] else lines[0] + "\n" + Join(lines[1..])
  }

  /** CR LF and lone CR become LF. */
  function Normalize(s: string): string {
    if s == "" then ""
    else if s[0] == '\r' then "\n" + Normalize(if |s| > 1 && s[1] == '\n' then s[2..] else s[1..])
    else [s[0]] + Normalize(s[1..])
  }

  function SplitLines(content: string): (r: seq<string>)
    ensures r != []
  {
    var n := Normalize(content);
    if n != "" && n[|n| - 1] == '\n' then Split(n[..|n| - 1]) else Split(n)
  }

  predicate OneLine(s: string) {
    '\n' !in s && '\r' !in s
  }

  predicate AllOneLine(lines: seq<string>) {
    forall i :: 0 <= i < |lines| ==> OneLine(lines[i])
  }

  lemma {:induction false} SplitIsOneLine(s: string)
    requires '\r' !in s
    ensures AllOneLine(Split(s))
  {
    if s != "" {
      SplitIsOneLine(s[1..]);
      assert forall l :: l in Split(s[1..]) ==> OneLine(l);
      assert s[0] in s;
    }
  }

  lemma {:induction false} NormalizeDropsReturns(s: string)
    ensures '\r' !in Normalize(s)
  {
    if s != "" {
      NormalizeDropsReturns(s[1..]);
      if |s| > 1 { NormalizeDropsReturns(s[2..]); }
    }
  }

  lemma LinesAreOneLine(content: string)
    ensures AllOneLine(SplitLines(content))
  {
    NormalizeDropsReturns(content);
    var n := Normalize(content);
    SplitIsOneLine(n);
    if n != "" { SplitIsOneLine(n[..|n| - 1]); }
  }

  lemma {:induction false} NormalizeKeeps(s: string)
    requires '\r' !in s
    ensures Normalize(s) == s
  {
    if s != "" {
      assert s[0] in s;
      NormalizeKeeps(s[1..]);
    }
  }

  lemma {:induction false} SplitPrefix(l: string, rest: string)
    requires '\n' !in l
    ensures Split(l + "\n" + rest) == [l] + Split(rest)
    ensures Split(l) == [l]
  {
    var s := l + "\n" + rest;
    if l == "" {
      assert s[1..] == rest;
    } else {
      assert l[0] in l;
      SplitPrefix(l[1..], rest);
      assert s[1..] == l[1..] + "\n" + rest;
      assert [l[0]] + l[1..] == l;
    }
  }

  lemma {:induction false} JoinOneLine(lines: seq<string>)
    requires AllOneLine(lines)
    ensures '\r' !in Join(lines)
  {
    if |lines| > 1 { JoinOneLine(lines[1..]); }
  }

  lemma {:induction false} SplitJoin(lines: seq<string>)
    requires lines != [] && AllOneLine(lines)
    ensures Split(Join(lines)) == lines
  {
    if |lines| == 1 {
      SplitPrefix(lines[0], "");
    } else {
      SplitPrefix(lines[0], Join(lines[1..]));
      SplitJoin(lines[1..]);
    }
  }

  /** Writing lines out and splitting the file again gives them back. */
  lemma LinesRoundTrip(lines: seq<string>)
    requires lines != [] && AllOneLine(lines)
    ensures SplitLines(Join(lines) + "\n") == lines
  {
    var s := Join(lines) + "\n";
    JoinOneLine(lines);
    NormalizeKeeps(s);
    assert s[..|s| - 1] == Join(lines);
    SplitJoin(lines);
  }

  // ---------------------------------------------------------------- blank lines

  function TrimBlank(ls: seq<string>): seq<string> {
    if ls != [] && IsBlank(ls[0]) then TrimBlank(ls[1..])
    else if ls != [] && IsBlank(ls[|ls| - 1]) then TrimBlank(ls[..|ls| - 1])
    else ls
  }

  /** No blank line at either end. */
  predicate Trimmed(ls: seq<string>) {
    ls == [] || (!IsBlank(ls[0]) && !IsBlank(ls[|ls| - 1]))
  }

  lemma {:induction false} TrimBlankTrims(ls: seq<string>)
    ensures Trimmed(TrimBlank(ls))
    ensures forall l :: l in TrimBlank(ls) ==> l in ls
  {
    if ls != [] && IsBlank(ls[0]) {
      TrimBlankTrims(ls[1..]);
    } else if ls != [] && IsBlank(ls[|ls| - 1]) {
      TrimBlankTrims(ls[..|ls| - 1]);
    }
  }

  lemma {:induction false} TrimBlankAfter(ls: seq<string>, blank: string)
    requires IsBlank(blank)
    ensures TrimBlank(ls + [blank]) == TrimBlank(ls)
    decreases |ls|
  {
    var more := ls + [blank];
    if ls != [] && IsBlank(ls[0]) {
      TrimBlankAfter(ls[1..], blank);
      assert more[1..] == ls[1..] + [blank];
    } else if ls != [] {
      assert more[..|more| - 1] == ls;
    } else {
      assert more[1..] == ls;
    }
  }

  lemma {:induction false} TrimBlankPadded(before: seq<string>, ls: seq<string>, after: seq<string>)
    requires forall l :: l in before || l in after ==> IsBlank(l)
    ensures TrimBlank(before + ls + after) == TrimBlank(ls)
    decreases |before| + |after|
  {
    if before != [] {
      TrimBlankPadded(before[1..], ls, after);
      assert (before + ls + after)[1..] == before[1..] + ls + after;
    } else if after != [] {
      var n := |after| - 1;
      TrimBlankPadded(before, ls, after[..n]);
      TrimBlankAfter(before + ls + after[..n], after[n]);
      assert before + ls + after == before + ls + after[..n] + [after[n]];
    } else {
      assert before + ls + after == ls;
    }
  }

  method TrimBlankLines(lines: seq<string>) returns (r: seq<string>)
    ensures r == TrimBlank(lines)
  {
    var start, end := 0, |lines|;
    while start < end && IsBlank(lines[start])
      invariant 0 <= start <= end == |lines|
      invariant TrimBlank(lines) == TrimBlank(lines[start..])
    {
      start := start + 1;
    }
    assert lines[start..end] == lines[start..];
    while end > start && IsBlank(lines[end - 1])
      invariant start <= end <= |lines|
      invariant start < end ==> !IsBlank(lines[start])
      invariant TrimBlank(lines) == TrimBlank(lines[start..end])
    {
      assert lines[start..end][..end - start - 1] == lines[start..end - 1];
      end := end - 1;
    }
    r := lines[start..end];
  }
}
