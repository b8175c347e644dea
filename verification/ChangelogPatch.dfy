/** Unified diffs and the new files they describe. */
module ChangelogPatch {
  import opened Wrappers
  import opened Text
  import opened Numerals
  import opened Changelog
  import opened ChangelogDiff

  // A diff is written from an edit script, so that old file, new file and every line number are
  // known. The reader of `ChangelogDiff` is then compared with them.

  // ---------------------------------------------------------------- edit scripts

  /** A row of a hunk; a remark is what follows a backslash. */
  datatype Row = Context(text: string) | Added(text: string) | Removed(text: string) | Remark(text: string)

  datatype Piece = Same(lines: seq<string>) | Edit(rows: seq<Row>, heading: string)

  /** One file: the rest of its `diff --git` line, further header lines, its new path, its pieces. */
  datatype FileDiff = FileDiff(git: string, extended: seq<string>, path: Option<string>, pieces: seq<Piece>)

  predicate IsNewRow(r: Row) {
    r.Context? || r.Added?
  }

  predicate IsOldRow(r: Row) {
    r.Context? || r.Removed?
  }

  function NewRows(rows: seq<Row>): seq<string> {
    if rows == [] then [] else (if IsNewRow(rows[0]) then [rows[0].text] else []) + NewRows(rows[1..])
  }

  function OldRows(rows: seq<Row>): seq<string> {
    if rows == [] then [] else (if IsOldRow(rows[0]) then [rows[0].text] else []) + OldRows(rows[1..])
  }

  function NewFile(pieces: seq<Piece>): seq<string> {
    if pieces == [] then []
    else (if pieces[0].Same? then pieces[0].lines else NewRows(pieces[0].rows)) + NewFile(pieces[1..])
  }

  // ---------------------------------------------------------------- writing them

  function Shown(r: Row): string {
    match r
    case Context(t) => " " + t
    case Added(t) => "+" + t
    case Removed(t) => "-" + t
    case Remark(t) => "\\" + t
  }

  function ShownRows(rows: seq<Row>): seq<string> {
    if rows == [] then [] else [Shown(rows[0])] + ShownRows(rows[1..])
  }

  lemma RowsCons(r: Row, rows: seq<Row>)
    ensures ShownRows([r] + rows) == [Shown(r)] + ShownRows(rows)
    ensures NewRows([r] + rows) == (if IsNewRow(r) then [r.text] else []) + NewRows(rows)
    ensures OldRows([r] + rows) == (if IsOldRow(r) then [r.text] else []) + OldRows(rows)
  {
    assert ([r] + rows)[1..] == rows;
  }

  /** A count of one is left out; an empty side names the line before it. */
  function Side(before: nat, count: nat): string {
    if count == 1 then Decimal(before + 1)
    else Decimal(if count == 0 then before else before + 1) + "," + Decimal(count)
  }

  function HeaderLine(oldBefore: nat, oldCount: nat, newBefore: nat, newCount: nat, heading: string): string {
    "@@ -" + Side(oldBefore, oldCount) + " +" + Side(newBefore, newCount) + " @@" + heading
  }

  function Pieces(pieces: seq<Piece>, oldBefore: nat, newBefore: nat): seq<string> {
    if pieces == [] then []
    else
      match pieces[0]
      case Same(ls) => Pieces(pieces[1..], oldBefore + |ls|, newBefore + |ls|)
      case Edit(rows, heading) =>
        var olds, news := |OldRows(rows)|, |NewRows(rows)|;
        [HeaderLine(oldBefore, olds, newBefore, news, heading)] + ShownRows(rows)
        + Pieces(pieces[1..], oldBefore + olds, newBefore + news)
  }

  function Target(path: Option<string>): string {
    match path
    case None => "+++ /dev/null"
    case Some(p) => FILE + p
  }

  predicate HasHunk(pieces: seq<Piece>) {
    exists k :: 0 <= k < |pieces| && pieces[k].Edit?
  }

  function FileLines(f: FileDiff): seq<string> {
    [GIT + f.git] + f.extended
    + if HasHunk(f.pieces) then [Target(f.path)] + Pieces(f.pieces, 0, 0) else []
  }

  function DiffLines(files: seq<FileDiff>): seq<string> {
    if files == [] then [] else FileLines(files[0]) + DiffLines(files[1..])
  }

  // ---------------------------------------------------------------- reading hunk headers

  /** `(\d+)(?:,\d+)?`, and what follows; the second group never matches less than it can. */
  function ReadSide(s: string): Option<(string, string)> {
    var k := Digits(s);
    if k == 0 then None
    else
      var rest := s[k..];
      var m := if rest != "" && rest[0] == ',' then Digits(rest[1..]) else 0;
      Some((s[..k], if m > 0 then rest[1 + m..] else rest))
  }

  /** `^@@ -(\d+)(?:,\d+)? \+(\d+)(?:,\d+)? @@` and its second number. */
  function HunkHeader(line: string): (r: Option<nat>)
    ensures r.Some? ==> "@@ -" <= line
  {
    if !("@@ -" <= line) then None
    else
      match ReadSide(line[4..])
      case None => None
      case Some((_, rest)) =>
        if !(" +" <= rest) then None
        else
          match ReadSide(rest[2..])
          case None => None
          case Some((start, after)) =>
            if " @@" <= after && ValueOf(10, start) >= 0 then Some(ValueOf(10, start)) else None
  }

  lemma {:induction false} DigitsOf(d: string, rest: string)
    requires forall i :: 0 <= i < |d| ==> IsDigit(d[i])
    requires rest == "" || !IsDigit(rest[0])
    ensures Digits(d + rest) == |d|
  {
    if d == "" {
      assert d + rest == rest;
    } else {
      DigitsOf(d[1..], rest);
      assert (d + rest)[1..] == d[1..] + rest;
    }
  }

  lemma Front(d: string, rest: string)
    requires forall i :: 0 <= i < |d| ==> IsDigit(d[i])
    requires rest == "" || !IsDigit(rest[0])
    ensures Digits(d + rest) == |d| && (d + rest)[..|d|] == d && (d + rest)[|d|..] == rest
  {
    DigitsOf(d, rest);
  }

  lemma ShortRead(d: string, rest: string)
    requires d != "" && forall i :: 0 <= i < |d| ==> IsDigit(d[i])
    requires rest != "" && rest[0] == ' '
    ensures ReadSide(d + rest) == Some((d, rest))
  {
    hide Digits;
    Front(d, rest);
  }

  lemma LongRead(d: string, c: string, rest: string)
    requires d != "" && forall i :: 0 <= i < |d| ==> IsDigit(d[i])
    requires c != "" && forall i :: 0 <= i < |c| ==> IsDigit(c[i])
    requires rest != "" && rest[0] == ' '
    ensures ReadSide(d + ("," + (c + rest))) == Some((d, rest))
  {
    hide Digits;
    var after := "," + (c + rest);
    Front(d, after);
    Front(c, rest);
    assert after[1..] == c + rest && after[1 + |c|..] == (c + rest)[|c|..];
  }

  lemma SideRead(before: nat, count: nat, rest: string)
    requires rest != "" && rest[0] == ' '
    ensures var d := Decimal(if count == 0 then before else before + 1);
            ReadSide(Side(before, count) + rest) == Some((d, rest))
  {
    hide Decimal, ReadSide;
    var n := if count == 0 then before else before + 1;
    DecimalReads(n);
    DecimalNonEmpty(n);
    DecimalReads(count);
    DecimalNonEmpty(count);
    if count == 1 {
      ShortRead(Decimal(n), rest);
    } else {
      LongRead(Decimal(n), Decimal(count), rest);
      assert Side(before, count) + rest == Decimal(n) + ("," + (Decimal(count) + rest));
    }
  }

  /** The reader finds the number of the first new line, or of the line before an empty side. */
  lemma HeaderRead(oldBefore: nat, oldCount: nat, newBefore: nat, newCount: nat, heading: string)
    ensures HunkHeader(HeaderLine(oldBefore, oldCount, newBefore, newCount, heading))
            == Some(if newCount == 0 then newBefore else newBefore + 1)
  {
    hide ReadSide, Side, Decimal;
    var tail := " @@" + heading;
    var mid := " +" + Side(newBefore, newCount) + tail;
    var line := HeaderLine(oldBefore, oldCount, newBefore, newCount, heading);
    assert line == "@@ -" + (Side(oldBefore, oldCount) + mid);
    assert line[4..] == Side(oldBefore, oldCount) + mid;
    SideRead(oldBefore, oldCount, mid);
    assert mid[2..] == Side(newBefore, newCount) + tail;
    SideRead(newBefore, newCount, tail);
    DecimalReads(if newCount == 0 then newBefore else newBefore + 1);
  }

  // ---------------------------------------------------------------- the reader, line by line

  datatype Reader = Reader(path: string, hunk: int, line: nat)

  function Step(st: Reader, raw: string): Reader {
    if FILE <= raw then st.(path := raw[|FILE|..])
    else if GIT <= raw then st.(path := "", hunk := -1)
    else if HunkHeader(raw).Some? then Reader(st.path, st.hunk + 1, HunkHeader(raw).value)
    else if st.path != "" && st.hunk >= 0 && raw != "" && (raw[0] == '+' || raw[0] == ' ')
    then st.(line := st.line + 1)
    else st
  }

  function Emitted(st: Reader, raw: string, marker: char): seq<Change> {
    if !(FILE <= raw) && !(GIT <= raw) && HunkHeader(raw).None? && st.path != "" && st.hunk >= 0 && raw != ""
       && raw[0] == marker && IsItem(raw[1..])
    then [Change(st.path, st.line, raw[1..], (st.path, st.hunk))]
    else []
  }

  function After(st: Reader, lines: seq<string>): Reader
    decreases |lines|
  {
    if lines == [] then st else After(Step(st, lines[0]), lines[1..])
  }

  function Collected(st: Reader, lines: seq<string>, marker: char): seq<Change>
    decreases |lines|
  {
    if lines == [] then [] else Emitted(st, lines[0], marker) + Collected(Step(st, lines[0]), lines[1..], marker)
  }

  lemma {:induction false} CollectedAppend(st: Reader, a: seq<string>, b: seq<string>, marker: char)
    ensures After(st, a + b) == After(After(st, a), b)
    ensures Collected(st, a + b, marker) == Collected(st, a, marker) + Collected(After(st, a), b, marker)
    decreases |a|
  {
    hide Step, Emitted;
    if a == [] {
      assert a + b == b;
    } else {
      CollectedAppend(Step(st, a[0]), a[1..], b, marker);
      assert (a + b)[1..] == a[1..] + b;
    }
  }

  lemma CollectedOne(st: Reader, raw: string, marker: char)
    ensures After(st, [raw]) == Step(st, raw) && Collected(st, [raw], marker) == Emitted(st, raw, marker)
  {
    hide Step, Emitted;
    assert [raw][1..] == [];
    assert After(Step(st, raw), []) == Step(st, raw);
  }

  /** The reader's positions and findings are those of the prefix recursion. */
  lemma {:induction false} ReaderAt(lines: seq<string>, n: nat, marker: char)
    requires n <= |lines| && (marker == '+' || marker == '-')
    ensures After(Reader("", -1, 0), lines[..n])
            == Reader(PathAt(lines, n), HunkAt(HunkHeader, lines, n), LineAt(HunkHeader, lines, n))
    ensures Collected(Reader("", -1, 0), lines[..n], marker) == Changes(HunkHeader, lines, n, marker)
  {
    hide HunkHeader, IsItem;
    if n > 0 {
      ReaderAt(lines, n - 1, marker);
      assert lines[..n] == lines[..n - 1] + [lines[n - 1]];
      CollectedAppend(Reader("", -1, 0), lines[..n - 1], [lines[n - 1]], marker);
      CollectedOne(After(Reader("", -1, 0), lines[..n - 1]), lines[n - 1], marker);
    }
  }

  // ---------------------------------------------------------------- what it should find

  const POSING := "++ b/"

  /** An added row that the reader takes for a file header. */
  predicate Poses(r: Row) {
    r.Added? && POSING <= r.text
  }

  predicate IsChange(r: Row, marker: char) {
    (if marker == '+' then r.Added? else r.Removed?) && IsItem(r.text)
  }

  /** The list items of a hunk under their file, their hunk, and the number of the new line at hand. */
  function TrueRows(path: string, hunk: nat, line: nat, rows: seq<Row>, marker: char): seq<Change>
    decreases |rows|
  {
    if rows == [] then []
    else
      (if IsChange(rows[0], marker) then [Change(path, line, rows[0].text, (path, hunk))] else [])
      + TrueRows(path, hunk, if IsNewRow(rows[0]) then line + 1 else line, rows[1..], marker)
  }

  /** The number a hunk's header announces. */
  function Start(newBefore: nat, rows: seq<Row>): nat {
    if NewRows(rows) == [] then newBefore else newBefore + 1
  }

  function TruePieces(path: string, hunk: nat, newBefore: nat, pieces: seq<Piece>, marker: char): seq<Change>
    decreases |pieces|
  {
    if pieces == [] then []
    else
      match pieces[0]
      case Same(ls) => TruePieces(path, hunk, newBefore + |ls|, pieces[1..], marker)
      case Edit(rows, _) =>
        TrueRows(path, hunk, Start(newBefore, rows), rows, marker)
        + TruePieces(path, hunk + 1, newBefore + |NewRows(rows)|, pieces[1..], marker)
  }

  function TrueFile(f: FileDiff, marker: char): seq<Change> {
    if f.path.Some? then TruePieces(f.path.value, 0, 0, f.pieces, marker) else []
  }

  function TrueChanges(files: seq<FileDiff>, marker: char): seq<Change>
    decreases |files|
  {
    if files == [] then []
    else
      TrueFile(files[0], marker) + TrueChanges(files[1..], marker)
  }

  /** True findings of additions: the item stands on that line of the new file. */
  lemma {:induction false} TrueRowsAt(path: string, hunk: nat, line: nat, rows: seq<Row>, c: Change)
    requires c in TrueRows(path, hunk, line, rows, '+')
    ensures c.path == path && 0 <= c.line - line < |NewRows(rows)| && NewRows(rows)[c.line - line] == c.text
    ensures IsItem(c.text)
    decreases |rows|
  {
    hide IsItem;
    var next := if IsNewRow(rows[0]) then line + 1 else line;
    if c in TrueRows(path, hunk, next, rows[1..], '+') {
      TrueRowsAt(path, hunk, next, rows[1..], c);
    }
  }

  lemma {:induction false} TruePiecesAt(path: string, hunk: nat, newBefore: nat, pieces: seq<Piece>, c: Change)
    requires c in TruePieces(path, hunk, newBefore, pieces, '+')
    ensures c.path == path && IsItem(c.text)
    ensures newBefore < c.line <= newBefore + |NewFile(pieces)|
            && NewFile(pieces)[c.line - 1 - newBefore] == c.text
    decreases |pieces|
  {
    hide IsItem, NewRows, TrueRows;
    match pieces[0]
    case Same(ls) =>
      TruePiecesAt(path, hunk, newBefore + |ls|, pieces[1..], c);
    case Edit(rows, _) =>
      if c in TrueRows(path, hunk, Start(newBefore, rows), rows, '+') {
        TrueRowsAt(path, hunk, Start(newBefore, rows), rows, c);
      } else {
        TruePiecesAt(path, hunk + 1, newBefore + |NewRows(rows)|, pieces[1..], c);
      }
  }

  lemma {:induction false} TrueChangesAt(files: seq<FileDiff>, c: Change)
    requires c in TrueChanges(files, '+')
    ensures exists k :: 0 <= k < |files| && OnLine(files[k], c)
    decreases |files|
  {
    hide TruePieces, OnLine;
    var f := files[0];
    if f.path.Some? && c in TruePieces(f.path.value, 0, 0, f.pieces, '+') {
      OnItsLine(f, c);
    } else {
      TrueChangesAt(files[1..], c);
      var k :| 0 <= k < |files| - 1 && OnLine(files[1..][k], c);
      assert files[k + 1] == files[1..][k];
    }
  }

  /** The change is a list item and the line of that number in the file's new version. */
  predicate OnLine(f: FileDiff, c: Change) {
    f.path == Some(c.path) && IsItem(c.text)
    && 0 < c.line <= |NewFile(f.pieces)| && NewFile(f.pieces)[c.line - 1] == c.text
  }

  lemma OnItsLine(f: FileDiff, c: Change)
    requires f.path.Some? && c in TruePieces(f.path.value, 0, 0, f.pieces, '+')
    ensures OnLine(f, c)
  {
    TruePiecesAt(f.path.value, 0, 0, f.pieces, c);
  }

  // ---------------------------------------------------------------- when it finds that

  /** The file a hunk ends in: the last one an added row poses as a header of. */
  function PathAfter(path: string, rows: seq<Row>): string
    decreases |rows|
  {
    if rows == [] then path
    else PathAfter(if Poses(rows[0]) then rows[0].text[|POSING|..] else path, rows[1..])
  }

  /** List items are read under their own path, with no line missed, and none follows a posing row. */
  predicate HonestRows(own: string, path: string, lag: nat, rows: seq<Row>, marker: char) {
    forall j :: 0 <= j < |rows| && IsChange(rows[j], marker) ==>
      lag == 0 && path == own && forall i :: 0 <= i < j ==> !Poses(rows[i])
  }

  predicate HonestPieces(own: string, path: string, pieces: seq<Piece>, marker: char)
    decreases |pieces|
  {
    pieces == []
    || match pieces[0]
       case Same(_) => HonestPieces(own, path, pieces[1..], marker)
       case Edit(rows, _) =>
         HonestRows(own, path, 0, rows, marker) && HonestPieces(own, PathAfter(path, rows), pieces[1..], marker)
  }

  predicate HonestFile(f: FileDiff, marker: char) {
    f.path.Some? ==> HonestPieces(f.path.value, f.path.value, f.pieces, marker)
  }

  /**
   * In every file, no added row that begins with `++ b/` precedes a list item in its hunk, and the last
   * one in earlier hunks, if any, happens to name this very file.
   */
  predicate Honest(files: seq<FileDiff>, marker: char) {
    forall k :: 0 <= k < |files| ==> HonestFile(files[k], marker)
  }

  predicate PlainHeader(raw: string) {
    !(FILE <= raw) && !(GIT <= raw) && HunkHeader(raw).None?
  }

  /** Header lines are no hunk headers or paths, and a deleted file has no new lines. */
  predicate WellFormed(f: FileDiff) {
    (forall raw :: raw in f.extended ==> PlainHeader(raw))
    && match f.path
       case Some(p) => p != ""
       case None =>
         forall k, i :: 0 <= k < |f.pieces| && f.pieces[k].Edit? && 0 <= i < |f.pieces[k].rows| ==>
           !IsNewRow(f.pieces[k].rows[i])
  }

  /** Reading rows: the path, the hunk, and a line number that lags behind. */
  lemma RowStep(st: Reader, r: Row, marker: char)
    requires st.hunk >= 0 && (marker == '+' || marker == '-')
    ensures Step(st, Shown(r))
            == if Poses(r) then st.(path := r.text[|POSING|..])
               else if IsNewRow(r) && st.path != "" then st.(line := st.line + 1) else st
    ensures Emitted(st, Shown(r), marker)
            == if st.path != "" && IsChange(r, marker) then [Change(st.path, st.line, r.text, (st.path, st.hunk))]
               else []
  {
    hide HunkHeader, IsItem;
    var raw := Shown(r);
    assert raw[1..] == r.text && raw[0] in [' ', '+', '-', '\\'];
    assert HunkHeader(raw).None? && !(GIT <= raw);
    assert r.Added? ==> (FILE <= raw <==> POSING <= r.text) by {
      if r.Added? && POSING <= r.text { assert raw[..6] == "+" + r.text[..5]; }
      if r.Added? && FILE <= raw { assert r.text[..5] == raw[1..6]; }
    }
    assert Poses(r) ==> raw[|FILE|..] == r.text[|POSING|..];
    if Poses(r) { PosingIsNoItem(r.text); }
  }

  lemma PosingIsNoItem(text: string)
    requires POSING <= text
    ensures !IsItem(text)
  {
    assert text[0] == '+' && TrimStart(text) == text;
  }

  lemma PosingRow(r: Row, marker: char)
    requires Poses(r)
    ensures !IsChange(r, marker) && IsNewRow(r)
  {
    PosingIsNoItem(r.text);
  }

  lemma {:induction false} FoundAtMost(st: Reader, rows: seq<Row>, path: string, hunk: nat, line: nat, marker: char)
    requires st.hunk >= 0 && (marker == '+' || marker == '-')
    ensures |Collected(st, ShownRows(rows), marker)| <= |TrueRows(path, hunk, line, rows, marker)|
    ensures After(st, ShownRows(rows)).path == PathAfter(st.path, rows)
    ensures After(st, ShownRows(rows)).hunk == st.hunk
    decreases |rows|
  {
    hide Step, Emitted, Shown, IsItem, IsChange;
    if rows != [] {
      RowStep(st, rows[0], marker);
      FoundAtMost(Step(st, Shown(rows[0])), rows[1..], path, hunk, if IsNewRow(rows[0]) then line + 1 else line, marker);
    }
  }

  /** A hunk's findings are true exactly when it is honest; `lag` counts the new lines not seen so far. */
  lemma {:induction false} RowsExact(own: string, st: Reader, lag: nat, rows: seq<Row>, marker: char)
    requires own != "" && st.hunk >= 0 && (marker == '+' || marker == '-')
    ensures Collected(st, ShownRows(rows), marker) == TrueRows(own, st.hunk, st.line + lag, rows, marker)
            <==> HonestRows(own, st.path, lag, rows, marker)
    decreases |rows|
  {
    hide Step, Emitted, Shown, IsItem, HonestRows, Collected, ShownRows, TrueRows, Poses, IsChange;
    if rows == [] {
      NoRows(own, st, lag, rows, marker);
    } else {
      var r := rows[0];
      var next := Step(st, Shown(r));
      var line := if IsNewRow(r) then st.line + lag + 1 else st.line + lag;
      RowStep(st, r, marker);
      RowsExact(own, next, line - next.line, rows[1..], marker);
      FoundAtMost(next, rows[1..], own, st.hunk, line, marker);
      if Poses(r) { PosingRow(r, marker); }
      FirstRow(own, st.path, lag, next.path, line - next.line, rows, marker);
      var found, rest := Collected(next, ShownRows(rows[1..]), marker), TrueRows(own, st.hunk, line, rows[1..], marker);
      FirstFound(own, st, lag, rows, marker);
      if IsChange(r, marker) {
        var here := Change(own, st.line + lag, r.text, (own, st.hunk));
        assert TrueRows(own, st.hunk, st.line + lag, rows, marker) == [here] + rest;
        SameHead(Change(st.path, st.line, r.text, (st.path, st.hunk)), here, found, rest);
        if st.path == "" {
          assert Collected(st, ShownRows(rows), marker) == found;
          assert |found| < |[here] + rest|;
        } else {
          assert Collected(st, ShownRows(rows), marker)
                 == [Change(st.path, st.line, r.text, (st.path, st.hunk))] + found;
        }
      } else {
        assert Collected(st, ShownRows(rows), marker) == found;
        assert TrueRows(own, st.hunk, st.line + lag, rows, marker) == rest;
      }
    }
  }

  lemma NoRows(own: string, st: Reader, lag: nat, rows: seq<Row>, marker: char)
    requires rows == [] && st.hunk >= 0
    ensures HonestRows(own, st.path, lag, rows, marker)
    ensures Collected(st, ShownRows(rows), marker) == TrueRows(own, st.hunk, st.line + lag, rows, marker) == []
  {
  }

  lemma FirstFound(own: string, st: Reader, lag: nat, rows: seq<Row>, marker: char)
    requires rows != [] && st.hunk >= 0
    ensures var raw := Shown(rows[0]);
            Collected(st, ShownRows(rows), marker)
            == Emitted(st, raw, marker) + Collected(Step(st, raw), ShownRows(rows[1..]), marker)
    ensures var r, line := rows[0], st.line + lag;
            TrueRows(own, st.hunk, line, rows, marker)
            == (if IsChange(r, marker) then [Change(own, line, r.text, (own, st.hunk))] else [])
               + TrueRows(own, st.hunk, if IsNewRow(r) then line + 1 else line, rows[1..], marker)
  {
    hide Step, Emitted, Shown, IsChange;
    assert ShownRows(rows)[1..] == ShownRows(rows[1..]);
  }

  lemma SameHead<T>(a: T, b: T, xs: seq<T>, ys: seq<T>)
    ensures [a] + xs == [b] + ys <==> a == b && xs == ys
  {
    if [a] + xs == [b] + ys {
      assert a == ([a] + xs)[0] == b && xs == ([a] + xs)[1..] == ([b] + ys)[1..];
    }
  }

  lemma FirstRow(own: string, path: string, lag: nat, nextPath: string, nextLag: nat, rows: seq<Row>, marker: char)
    requires rows != [] && own != "" && !(Poses(rows[0]) && IsChange(rows[0], marker))
    requires if Poses(rows[0]) then nextLag > 0
             else nextPath == path && (nextLag == lag || (path == "" && nextLag > 0))
    ensures HonestRows(own, path, lag, rows, marker)
            <==> HonestRows(own, nextPath, nextLag, rows[1..], marker)
                 && (IsChange(rows[0], marker) ==> lag == 0 && path == own)
  {
    hide IsChange, Poses;
    var tail := rows[1..];
    assert forall j :: 0 <= j < |tail| ==> tail[j] == rows[j + 1];
    if HonestRows(own, path, lag, rows, marker) {
      forall j | 0 <= j < |tail| && IsChange(tail[j], marker)
        ensures nextLag == 0 && nextPath == own && forall i :: 0 <= i < j ==> !Poses(tail[i])
      {
        assert IsChange(rows[j + 1], marker) && !Poses(rows[0]);
        forall i | 0 <= i < j ensures !Poses(tail[i]) { assert tail[i] == rows[i + 1]; }
      }
    }
    if HonestRows(own, nextPath, nextLag, tail, marker) && (IsChange(rows[0], marker) ==> lag == 0 && path == own) {
      forall j | 0 <= j < |rows| && IsChange(rows[j], marker)
        ensures lag == 0 && path == own && forall i :: 0 <= i < j ==> !Poses(rows[i])
      {
        if j > 0 {
          assert IsChange(tail[j - 1], marker);
          forall i | 0 <= i < j ensures !Poses(rows[i]) {
            if i > 0 { assert rows[i] == tail[i - 1]; }
          }
        }
      }
    }
  }

  // ---------------------------------------------------------------- files and whole diffs

  lemma SameHalves<T>(a: seq<T>, b: seq<T>, x: seq<T>, y: seq<T>)
    requires |a| <= |x| && |b| <= |y|
    ensures a + b == x + y <==> a == x && b == y
  {
    if a + b == x + y {
      assert |a| == |x|;
      assert a == (a + b)[..|a|] == x && b == (a + b)[|a|..] == y;
    }
  }

  lemma HeaderStep(st: Reader, oldBefore: nat, newBefore: nat, rows: seq<Row>, heading: string, marker: char)
    requires marker == '+' || marker == '-'
    ensures var raw := HeaderLine(oldBefore, |OldRows(rows)|, newBefore, |NewRows(rows)|, heading);
            Step(st, raw) == Reader(st.path, st.hunk + 1, Start(newBefore, rows)) && Emitted(st, raw, marker) == []
  {
    hide HunkHeader, Side;
    HeaderRead(oldBefore, |OldRows(rows)|, newBefore, |NewRows(rows)|, heading);
    var raw := HeaderLine(oldBefore, |OldRows(rows)|, newBefore, |NewRows(rows)|, heading);
    assert raw[0] == '@';
  }

  lemma Unchanged(pieces: seq<Piece>, oldBefore: nat, newBefore: nat)
    ensures Pieces([], oldBefore, newBefore) == []
    ensures pieces != [] && pieces[0].Same? ==>
              var n := |pieces[0].lines|;
              Pieces(pieces, oldBefore, newBefore) == Pieces(pieces[1..], oldBefore + n, newBefore + n)
  {
    hide HeaderLine;
  }

  /** What a hunk adds to the findings, and where it leaves the reader. */
  lemma HunkRead(st: Reader, oldBefore: nat, newBefore: nat, pieces: seq<Piece>, marker: char)
    requires pieces != [] && pieces[0].Edit? && (marker == '+' || marker == '-')
    ensures var (rows, news) := (pieces[0].rows, |NewRows(pieces[0].rows)|);
            var first := Reader(st.path, st.hunk + 1, Start(newBefore, rows));
            Collected(st, Pieces(pieces, oldBefore, newBefore), marker)
            == Collected(first, ShownRows(rows), marker)
               + Collected(After(first, ShownRows(rows)),
                           Pieces(pieces[1..], oldBefore + |OldRows(rows)|, newBefore + news), marker)
  {
    hide Step, Emitted, HeaderLine, Start, NewRows, OldRows, Collected, After, ShownRows;
    var rows, heading := pieces[0].rows, pieces[0].heading;
    var olds, news := |OldRows(rows)|, |NewRows(rows)|;
    var head := HeaderLine(oldBefore, olds, newBefore, news, heading);
    var rest := Pieces(pieces[1..], oldBefore + olds, newBefore + news);
    HeaderStep(st, oldBefore, newBefore, rows, heading, marker);
    CollectedOne(st, head, marker);
    CollectedAppend(st, [head], ShownRows(rows), marker);
    CollectedAppend(st, [head] + ShownRows(rows), rest, marker);
  }

  lemma {:induction false} PiecesAtMost(
      own: string, st: Reader, oldBefore: nat, newBefore: nat, pieces: seq<Piece>, marker: char)
    requires st.hunk >= -1 && (marker == '+' || marker == '-')
    ensures |Collected(st, Pieces(pieces, oldBefore, newBefore), marker)|
            <= |TruePieces(own, st.hunk + 1, newBefore, pieces, marker)|
    decreases |pieces|
  {
    hide Collected, TrueRows, NewRows, OldRows, ShownRows, Start, Pieces;
    Unchanged(pieces, oldBefore, newBefore);
    if pieces == [] {
      NothingCollected(st, marker);
    } else {
      match pieces[0]
      case Same(ls) => PiecesAtMost(own, st, oldBefore + |ls|, newBefore + |ls|, pieces[1..], marker);
      case Edit(rows, _) =>
        var first := Reader(st.path, st.hunk + 1, Start(newBefore, rows));
        HunkRead(st, oldBefore, newBefore, pieces, marker);
        FoundAtMost(first, rows, own, first.hunk, first.line, marker);
        PiecesAtMost(own, After(first, ShownRows(rows)), oldBefore + |OldRows(rows)|, newBefore + |NewRows(rows)|,
                     pieces[1..], marker);
    }
  }

  lemma NothingCollected(st: Reader, marker: char)
    ensures Collected(st, [], marker) == [] && After(st, []) == st
  {
  }

  lemma {:induction false} PiecesExact(
      own: string, st: Reader, oldBefore: nat, newBefore: nat, pieces: seq<Piece>, marker: char)
    requires own != "" && st.hunk >= -1 && (marker == '+' || marker == '-')
    ensures Collected(st, Pieces(pieces, oldBefore, newBefore), marker)
            == TruePieces(own, st.hunk + 1, newBefore, pieces, marker)
            <==> HonestPieces(own, st.path, pieces, marker)
    decreases |pieces|
  {
    hide Collected, TrueRows, NewRows, OldRows, ShownRows, Start, HonestRows, PathAfter, Pieces;
    Unchanged(pieces, oldBefore, newBefore);
    if pieces == [] {
      NothingCollected(st, marker);
    } else {
      match pieces[0]
      case Same(ls) => PiecesExact(own, st, oldBefore + |ls|, newBefore + |ls|, pieces[1..], marker);
      case Edit(rows, _) =>
        var first := Reader(st.path, st.hunk + 1, Start(newBefore, rows));
        var olds, news := oldBefore + |OldRows(rows)|, newBefore + |NewRows(rows)|;
        var last := After(first, ShownRows(rows));
        HunkRead(st, oldBefore, newBefore, pieces, marker);
        FoundAtMost(first, rows, own, first.hunk, first.line, marker);
        RowsExact(own, first, 0, rows, marker);
        PiecesAtMost(own, last, olds, news, pieces[1..], marker);
        PiecesExact(own, last, olds, news, pieces[1..], marker);
        SameHalves(Collected(first, ShownRows(rows), marker), Collected(last, Pieces(pieces[1..], olds, news), marker),
                   TrueRows(own, first.hunk, first.line, rows, marker),
                   TruePieces(own, first.hunk + 1, news, pieces[1..], marker));
    }
  }

  /** Header lines of a file leave no trace but its path. */
  lemma {:induction false} ExtendedRead(st: Reader, extended: seq<string>, marker: char)
    requires st.path == "" && forall raw :: raw in extended ==> PlainHeader(raw)
    ensures After(st, extended) == st && Collected(st, extended, marker) == []
    decreases |extended|
  {
    hide HunkHeader;
    if extended != [] {
      assert PlainHeader(extended[0]);
      ExtendedRead(st, extended[1..], marker);
    }
  }

  /** Under no path nothing is found. */
  lemma {:induction false} NothingNamed(st: Reader, rows: seq<Row>, marker: char)
    requires st.path == "" && st.hunk >= 0 && (marker == '+' || marker == '-')
    requires forall i :: 0 <= i < |rows| ==> !IsNewRow(rows[i])
    ensures After(st, ShownRows(rows)) == st && Collected(st, ShownRows(rows), marker) == []
    decreases |rows|
  {
    hide Step, Emitted, Shown, IsItem;
    if rows != [] {
      RowStep(st, rows[0], marker);
      assert !IsNewRow(rows[0]);
      NothingNamed(st, rows[1..], marker);
    }
  }

  lemma {:induction false} DeletedRead(st: Reader, oldBefore: nat, newBefore: nat, pieces: seq<Piece>, marker: char)
    requires st.path == "" && st.hunk >= -1 && (marker == '+' || marker == '-')
    requires forall k, i :: 0 <= k < |pieces| && pieces[k].Edit? && 0 <= i < |pieces[k].rows| ==>
               !IsNewRow(pieces[k].rows[i])
    ensures Collected(st, Pieces(pieces, oldBefore, newBefore), marker) == []
    decreases |pieces|
  {
    hide Collected, IsNewRow, NewRows, OldRows, ShownRows, Start, Pieces;
    Unchanged(pieces, oldBefore, newBefore);
    if pieces == [] {
      NothingCollected(st, marker);
    } else {
      assert forall k :: 0 <= k < |pieces| - 1 ==> pieces[1..][k] == pieces[k + 1];
      match pieces[0]
      case Same(ls) => DeletedRead(st, oldBefore + |ls|, newBefore + |ls|, pieces[1..], marker);
      case Edit(rows, _) =>
        HunkRead(st, oldBefore, newBefore, pieces, marker);
        var first := Reader(st.path, st.hunk + 1, Start(newBefore, rows));
        NothingNamed(first, rows, marker);
        DeletedRead(first, oldBefore + |OldRows(rows)|, newBefore + |NewRows(rows)|, pieces[1..], marker);
    }
  }

  lemma {:induction false} NoHunk(path: string, hunk: nat, newBefore: nat, pieces: seq<Piece>, marker: char)
    requires !HasHunk(pieces)
    ensures TruePieces(path, hunk, newBefore, pieces, marker) == [] && HonestPieces(path, path, pieces, marker)
    decreases |pieces|
  {
    if pieces != [] {
      assert pieces[0].Same?;
      assert forall k :: 0 <= k < |pieces| - 1 ==> pieces[1..][k] == pieces[k + 1];
      NoHunk(path, hunk, newBefore + |pieces[0].lines|, pieces[1..], marker);
    }
  }

  lemma GitStep(st: Reader, git: string, marker: char)
    requires marker == '+' || marker == '-'
    ensures Step(st, GIT + git) == Reader("", -1, st.line) && Emitted(st, GIT + git, marker) == []
  {
    hide HunkHeader;
    assert (GIT + git)[0] == 'd';
  }

  lemma TargetStep(st: Reader, path: Option<string>, marker: char)
    requires st.path == "" && st.hunk == -1
    ensures Step(st, Target(path)) == (if path.Some? then st.(path := path.value) else st)
    ensures Emitted(st, Target(path), marker) == []
  {
    hide HunkHeader;
    var raw := Target(path);
    assert raw[0] == '+';
    if path.None? { assert raw[4] == '/' && FILE[4] == 'b'; }
  }

  /** The head of a file's part sets the path and nothing else. */
  lemma FileHead(st: Reader, f: FileDiff, marker: char)
    requires WellFormed(f) && (marker == '+' || marker == '-')
    ensures var blank := Reader("", -1, st.line);
            var named := if f.path.Some? then blank.(path := f.path.value) else blank;
            Collected(st, FileLines(f), marker)
            == if HasHunk(f.pieces) then Collected(named, Pieces(f.pieces, 0, 0), marker) else []
  {
    hide Step, Emitted, Pieces, HasHunk, Target;
    var blank := Reader("", -1, st.line);
    var head := [GIT + f.git] + f.extended;
    GitStep(st, f.git, marker);
    CollectedOne(st, GIT + f.git, marker);
    CollectedAppend(st, [GIT + f.git], f.extended, marker);
    ExtendedRead(blank, f.extended, marker);
    TargetStep(blank, f.path, marker);
    CollectedOne(blank, Target(f.path), marker);
    CollectedAppend(blank, [Target(f.path)], Pieces(f.pieces, 0, 0), marker);
    CollectedAppend(st, head, [Target(f.path)] + Pieces(f.pieces, 0, 0), marker);
    assert head + [] == head;
  }

  lemma FileExact(st: Reader, f: FileDiff, marker: char)
    requires WellFormed(f) && (marker == '+' || marker == '-')
    ensures |Collected(st, FileLines(f), marker)| <= |TrueFile(f, marker)|
    ensures Collected(st, FileLines(f), marker) == TrueFile(f, marker) <==> HonestFile(f, marker)
  {
    hide Collected, TruePieces, HonestPieces, Pieces, FileLines, HasHunk, PlainHeader;
    FileHead(st, f, marker);
    var blank := Reader("", -1, st.line);
    match f.path
    case Some(p) =>
      PiecesAtMost(p, blank.(path := p), 0, 0, f.pieces, marker);
      PiecesExact(p, blank.(path := p), 0, 0, f.pieces, marker);
      if !HasHunk(f.pieces) { NoHunk(p, 0, 0, f.pieces, marker); }
    case None =>
      DeletedRead(blank, 0, 0, f.pieces, marker);
  }

  lemma {:induction false} FilesExact(st: Reader, files: seq<FileDiff>, marker: char)
    requires (forall f :: f in files ==> WellFormed(f)) && (marker == '+' || marker == '-')
    ensures |Collected(st, DiffLines(files), marker)| <= |TrueChanges(files, marker)|
    ensures Collected(st, DiffLines(files), marker) == TrueChanges(files, marker) <==> Honest(files, marker)
    decreases |files|
  {
    hide Collected, TrueFile, HonestFile, FileLines, WellFormed;
    if files == [] {
      NothingCollected(st, marker);
    } else {
      var f, rest := files[0], files[1..];
      var next := After(st, FileLines(f));
      assert WellFormed(f);
      CollectedAppend(st, FileLines(f), DiffLines(rest), marker);
      FileExact(st, f, marker);
      FilesExact(next, rest, marker);
      SameHalves(Collected(st, FileLines(f), marker), Collected(next, DiffLines(rest), marker),
                 TrueFile(f, marker), TrueChanges(rest, marker));
      assert Honest(files, marker) <==> HonestFile(f, marker) && Honest(rest, marker) by {
        assert forall k :: 0 <= k < |rest| ==> rest[k] == files[k + 1];
        if HonestFile(f, marker) && Honest(rest, marker) {
          forall k | 0 <= k < |files| ensures HonestFile(files[k], marker) {
            if k > 0 { assert files[k] == rest[k - 1]; }
          }
        }
      }
    }
  }

  // ---------------------------------------------------------------- the text of a diff

  /** A line without the carriage return that may end it. */
  function Chomp(l: string): string {
    if l != "" && l[|l| - 1] == '\r' then l[..|l| - 1] else l
  }

  function ChompLines(ls: seq<string>): seq<string> {
    seq(|ls|, i requires 0 <= i < |ls| => Chomp(ls[i]))
  }

  function ChompRows(rows: seq<Row>): seq<Row> {
    seq(|rows|, i requires 0 <= i < |rows| => rows[i].(text := Chomp(rows[i].text)))
  }

  function ChompPiece(p: Piece): Piece {
    match p
    case Same(ls) => Same(ChompLines(ls))
    case Edit(rows, heading) => Edit(ChompRows(rows), Chomp(heading))
  }

  function ChompPieces(pieces: seq<Piece>): seq<Piece> {
    seq(|pieces|, i requires 0 <= i < |pieces| => ChompPiece(pieces[i]))
  }

  function ChompFile(f: FileDiff): FileDiff {
    FileDiff(Chomp(f.git), ChompLines(f.extended), if f.path.Some? then Some(Chomp(f.path.value)) else None,
             ChompPieces(f.pieces))
  }

  /** The files as the fixer sees them: carriage returns at line ends do not count. */
  function ChompFiles(files: seq<FileDiff>): seq<FileDiff> {
    seq(|files|, i requires 0 <= i < |files| => ChompFile(files[i]))
  }

  function DiffText(files: seq<FileDiff>): string {
    if files == [] then "" else Join(DiffLines(files)) + "\n"
  }

  predicate Unbroken(ls: seq<string>) {
    forall l :: l in ls ==> '\n' !in l
  }

  lemma UnixEnd(rest: string)
    ensures UnixLines("\n" + rest) == "\n" + UnixLines(rest)
    ensures UnixLines("\r\n" + rest) == "\n" + UnixLines(rest)
  {
    assert ("\n" + rest)[1..] == rest && ("\r\n" + rest)[2..] == rest;
  }

  lemma UnixOther(c: char, t: string)
    requires c != '\r' || t == "" || t[0] != '\n'
    ensures UnixLines([c] + t) == [c] + UnixLines(t)
  {
    assert ([c] + t)[1..] == t;
  }

  lemma {:induction false} UnixLine(l: string, rest: string)
    requires '\n' !in l
    ensures UnixLines(l + "\n" + rest) == Chomp(l) + "\n" + UnixLines(rest)
    ensures '\n' !in Chomp(l)
    decreases |l|
  {
    hide UnixLines;
    UnixEnd(rest);
    if l == "" {
      assert l + "\n" + rest == "\n" + rest;
    } else if l == "\r" {
      assert l + "\n" + rest == "\r\n" + rest;
    } else {
      var c, more := l[0], l[1..];
      assert l == [c] + more && c in l && (more != "" ==> more[0] in l);
      UnixLine(more, rest);
      UnixOther(c, more + "\n" + rest);
      assert l + "\n" + rest == [c] + (more + "\n" + rest);
      ChompCons(c, more);
    }
  }

  lemma ChompCons(c: char, more: string)
    ensures more != "" || c != '\r' ==> Chomp([c] + more) == [c] + Chomp(more)
  {
  }

  /** Reading a text back line by line. */
  lemma {:induction false} TextRead(ls: seq<string>)
    requires ls != [] && Unbroken(ls)
    ensures Split(UnixLines(Join(ls) + "\n")) == ChompLines(ls) + [""]
    decreases |ls|
  {
    hide UnixLines, Chomp;
    var l := ls[0];
    assert l in ls;
    if |ls| == 1 {
      UnixLine(l, "");
      NoText();
      SplitPrefix(Chomp(l), "");
      assert l + "\n" + "" == Join(ls) + "\n";
      assert ChompLines(ls) == [Chomp(l)];
    } else {
      var rest := Join(ls[1..]) + "\n";
      UnixLine(l, rest);
      SplitPrefix(Chomp(l), UnixLines(rest));
      TextRead(ls[1..]);
      assert Join(ls) + "\n" == l + "\n" + rest;
      assert ChompLines(ls) == [Chomp(l)] + ChompLines(ls[1..]);
    }
  }

  lemma NoText()
    ensures UnixLines("") == "" && Split("") == [""]
  {
  }

  lemma ChompAfter(a: string, l: string)
    requires a != "" && a[|a| - 1] != '\r'
    ensures Chomp(a + l) == a + Chomp(l)
  {
  }

  lemma ChompAppend(a: seq<string>, b: seq<string>)
    ensures ChompLines(a + b) == ChompLines(a) + ChompLines(b)
  {
    hide Chomp;
  }

  lemma {:induction false} ChompShown(rows: seq<Row>)
    ensures ShownRows(ChompRows(rows)) == ChompLines(ShownRows(rows))
    ensures |NewRows(ChompRows(rows))| == |NewRows(rows)| && |OldRows(ChompRows(rows))| == |OldRows(rows)|
    decreases |rows|
  {
    hide Chomp, Shown, ShownRows, NewRows, OldRows;
    if rows == [] {
      NoRowsShown();
      assert ChompRows(rows) == [] && ChompLines([]) == [];
    } else {
      var r, rest := rows[0], rows[1..];
      var plain := r.(text := Chomp(r.text));
      ChompShown(rest);
      ChompRow(r);
      RowsCons(r, rest);
      RowsCons(plain, ChompRows(rest));
      assert rows == [r] + rest && ChompRows(rows) == [plain] + ChompRows(rest);
      ChompAppend([Shown(r)], ShownRows(rest));
      assert ChompLines([Shown(r)]) == [Chomp(Shown(r))];
    }
  }

  lemma NoRowsShown()
    ensures ShownRows([]) == [] && NewRows([]) == [] && OldRows([]) == []
  {
  }

  lemma ChompRow(r: Row)
    ensures Shown(r.(text := Chomp(r.text))) == Chomp(Shown(r))
  {
    hide Chomp;
    ChompAfter(Shown(r)[..1], r.text);
    assert Shown(r)[..1] + r.text == Shown(r);
  }

  lemma {:induction false} ChompPiecesShown(pieces: seq<Piece>, oldBefore: nat, newBefore: nat)
    ensures Pieces(ChompPieces(pieces), oldBefore, newBefore) == ChompLines(Pieces(pieces, oldBefore, newBefore))
    ensures HasHunk(ChompPieces(pieces)) == HasHunk(pieces)
    decreases |pieces|
  {
    hide Chomp, Side, NewRows, OldRows, ShownRows;
    assert HasHunk(ChompPieces(pieces)) == HasHunk(pieces) by {
      assert forall k :: 0 <= k < |pieces| ==> ChompPieces(pieces)[k].Edit? == pieces[k].Edit?;
    }
    if pieces == [] {
      assert ChompPieces(pieces) == [] && ChompLines([]) == [];
    } else {
      assert ChompPieces(pieces)[1..] == ChompPieces(pieces[1..]);
      match pieces[0]
      case Same(ls) => ChompPiecesShown(pieces[1..], oldBefore + |ls|, newBefore + |ls|);
      case Edit(rows, heading) =>
        var olds, news := |OldRows(rows)|, |NewRows(rows)|;
        var rest := Pieces(pieces[1..], oldBefore + olds, newBefore + news);
        var head := HeaderLine(oldBefore, olds, newBefore, news, heading);
        ChompShown(rows);
        ChompPiecesShown(pieces[1..], oldBefore + olds, newBefore + news);
        ChompHeader(oldBefore, olds, newBefore, news, heading);
        ChompAppend([head], ShownRows(rows));
        ChompAppend([head] + ShownRows(rows), rest);
        assert ChompLines([head]) == [Chomp(head)];
    }
  }

  lemma ChompHeader(oldBefore: nat, oldCount: nat, newBefore: nat, newCount: nat, heading: string)
    ensures Chomp(HeaderLine(oldBefore, oldCount, newBefore, newCount, heading))
            == HeaderLine(oldBefore, oldCount, newBefore, newCount, Chomp(heading))
  {
    hide Chomp, Side;
    var front := "@@ -" + Side(oldBefore, oldCount) + " +" + Side(newBefore, newCount) + " @@";
    assert front[|front| - 1] == '@';
    ChompAfter(front, heading);
  }

  lemma ChompFileShown(f: FileDiff)
    ensures FileLines(ChompFile(f)) == ChompLines(FileLines(f))
  {
    hide Chomp, Pieces, HasHunk;
    var head := [GIT + f.git] + f.extended;
    ChompAfter(GIT, f.git);
    ChompAppend([GIT + f.git], f.extended);
    assert ChompLines([GIT + f.git]) == [Chomp(GIT + f.git)];
    ChompPiecesShown(f.pieces, 0, 0);
    if f.path.Some? { ChompAfter(FILE, f.path.value); } else { ChompAfter("+++ /dev/null", ""); NoReturn(); }
    ChompAppend([Target(f.path)], Pieces(f.pieces, 0, 0));
    ChompAppend(head, [Target(f.path)] + Pieces(f.pieces, 0, 0));
    assert ChompLines([Target(f.path)]) == [Chomp(Target(f.path))];
    assert head + [] == head;
  }

  lemma NoReturn()
    ensures Chomp("") == "" && "+++ /dev/null" + "" == "+++ /dev/null"
  {
  }

  lemma {:induction false} ChompFilesShown(files: seq<FileDiff>)
    ensures DiffLines(ChompFiles(files)) == ChompLines(DiffLines(files))
    decreases |files|
  {
    hide FileLines, ChompFile, Chomp;
    if files == [] {
      assert ChompFiles(files) == [] && ChompLines([]) == [];
    } else {
      ChompFileShown(files[0]);
      ChompFilesShown(files[1..]);
      assert ChompFiles(files)[1..] == ChompFiles(files[1..]);
      ChompAppend(FileLines(files[0]), DiffLines(files[1..]));
    }
  }

  /** What the collector reads from a diff's text. */
  function Found(diffText: string, marker: char): seq<Change> {
    var lines := Split(UnixLines(diffText));
    Changes(HunkHeader, lines, |lines|, marker)
  }

  predicate AllWellFormed(files: seq<FileDiff>) {
    forall f :: f in files ==> WellFormed(f)
  }

  lemma FoundIsCollected(files: seq<FileDiff>, marker: char)
    requires Unbroken(DiffLines(files)) && (marker == '+' || marker == '-')
    ensures Found(DiffText(files), marker) == Collected(Reader("", -1, 0), DiffLines(ChompFiles(files)), marker)
  {
    hide Changes, Split, UnixLines, Collected, ChompFile, Join, FileLines;
    var lines, plain := Split(UnixLines(DiffText(files))), DiffLines(ChompFiles(files));
    NoText();
    if files == [] {
      assert plain + [""] == [""];
    } else {
      NotEmpty(files);
      TextRead(DiffLines(files));
      ChompFilesShown(files);
    }
    assert lines == plain + [""];
    assert lines[..|lines|] == lines;
    ReaderAt(lines, |lines|, marker);
    CollectedAppend(Reader("", -1, 0), plain, [""], marker);
    CollectedOne(After(Reader("", -1, 0), plain), "", marker);
  }

  lemma NotEmpty(files: seq<FileDiff>)
    requires files != []
    ensures DiffLines(files) != []
  {
  }

  /**
   * The collector's findings are the true ones (every added or removed list item under its file, its
   * hunk, its new line number) if and only if the diff is honest.
   */
  lemma FindingsExact(files: seq<FileDiff>, marker: char)
    requires Unbroken(DiffLines(files)) && AllWellFormed(ChompFiles(files)) && (marker == '+' || marker == '-')
    ensures Found(DiffText(files), marker) == TrueChanges(ChompFiles(files), marker)
            <==> Honest(ChompFiles(files), marker)
  {
    hide Found, Collected, WellFormed, HonestFile, TrueChanges;
    FoundIsCollected(files, marker);
    FilesExact(Reader("", -1, 0), ChompFiles(files), marker);
  }

  /** In an honest diff every candidate is the list item on the reported line of the new file. */
  lemma TrueLine(files: seq<FileDiff>, c: Change)
    requires Unbroken(DiffLines(files)) && AllWellFormed(ChompFiles(files)) && Honest(ChompFiles(files), '+')
    requires c in Found(DiffText(files), '+')
    ensures exists k :: 0 <= k < |files| && OnLine(ChompFile(files[k]), c)
  {
    hide Found, WellFormed, HonestFile, TrueChanges, OnLine, DiffLines, DiffText, ChompFile, Unbroken;
    FindingsExact(files, '+');
    TrueChangesAt(ChompFiles(files), c);
    var k :| 0 <= k < |ChompFiles(files)| && OnLine(ChompFiles(files)[k], c);
    assert ChompFiles(files)[k] == ChompFile(files[k]);
  }

  /** In an honest diff every line the collector returns is a list item of the new file of that path. */
  lemma ReportedLines(files: seq<FileDiff>, result: map<string, set<nat>>, path: string, line: nat)
    requires Unbroken(DiffLines(files)) && AllWellFormed(ChompFiles(files)) && Honest(ChompFiles(files), '+')
    requires var lines := Split(UnixLines(DiffText(files)));
             Reports(result, Changes(HunkHeader, lines, |lines|, '+'), Promotable(HunkHeader, lines))
    requires path in result && line in result[path]
    ensures exists k, c :: 0 <= k < |files| && OnLine(ChompFile(files[k]), c) && c.path == path && c.line == line
  {
    hide WellFormed, HonestFile, Changes, OnLine, Split, UnixLines, DiffText, Promotable, ChompFile;
    var cs := Found(DiffText(files), '+');
    var lines := Split(UnixLines(DiffText(files)));
    var chosen := Promotable(HunkHeader, lines);
    assert line in LinesIn(cs, chosen, path);
    var i :| 0 <= i < |cs| && chosen[i] && cs[i].path == path && cs[i].line == line;
    assert cs[i] in cs;
    TrueLine(files, cs[i]);
  }

  const MISREAD := [Context("x"), Added("++ b/notes"), Added("- item")]
  const MISREAD_FILE := FileDiff("a/C b/C", [], Some("C"), [Edit(MISREAD, "")])

  lemma MisreadShown()
    ensures ShownRows(MISREAD) == [" x", "+++ b/notes", "+- item"]
    ensures NewRows(MISREAD) == ["x", "++ b/notes", "- item"] && OldRows(MISREAD) == ["x"]
  {
    hide ShownRows, NewRows, OldRows, Shown;
    NoRowsShown();
    ShownAre();
    RowsCons(MISREAD[2], []);
    RowsCons(MISREAD[1], [MISREAD[2]]);
    RowsCons(MISREAD[0], [MISREAD[1]] + [MISREAD[2]]);
    assert MISREAD == [MISREAD[0]] + ([MISREAD[1]] + ([MISREAD[2]] + []));
    assert [MISREAD[2]] + [] == [MISREAD[2]];
  }

  lemma MisreadSteps()
    ensures Step(Reader("C", 0, 1), Shown(MISREAD[0])) == Reader("C", 0, 2)
    ensures Emitted(Reader("C", 0, 1), Shown(MISREAD[0]), '+') == []
    ensures Step(Reader("C", 0, 2), Shown(MISREAD[1])) == Reader("notes", 0, 2)
    ensures Emitted(Reader("C", 0, 2), Shown(MISREAD[1]), '+') == []
    ensures Emitted(Reader("notes", 0, 2), Shown(MISREAD[2]), '+') == [Change("notes", 2, "- item", ("notes", 0))]
  {
    hide Step, Emitted, Shown, IsItem;
    ItemText("- item");
    RowStep(Reader("C", 0, 1), MISREAD[0], '+');
    RowStep(Reader("C", 0, 2), MISREAD[1], '+');
    RowStep(Reader("notes", 0, 2), MISREAD[2], '+');
    assert MISREAD[1].text[..5] == POSING && MISREAD[1].text[5..] == "notes";
    PosingIsNoItem(MISREAD[1].text);
  }

  /** Its second row turns the reader to the file `notes`, one line short. */
  lemma MisreadRows()
    ensures Collected(Reader("C", 0, 1), ShownRows(MISREAD), '+') == [Change("notes", 2, "- item", ("notes", 0))]
  {
    hide Step, Emitted, Shown, Collected, ShownRows;
    var a, b, c := Reader("C", 0, 1), Reader("C", 0, 2), Reader("notes", 0, 2);
    var x, y, z := Shown(MISREAD[0]), Shown(MISREAD[1]), Shown(MISREAD[2]);
    MisreadSteps();
    CollectedOne(a, x, '+');
    CollectedOne(b, y, '+');
    CollectedOne(c, z, '+');
    CollectedAppend(a, [x], [y], '+');
    CollectedAppend(a, [x] + [y], [z], '+');
    MisreadShown();
    ShownAre();
    assert ShownRows(MISREAD) == [x] + [y] + [z];
  }

  lemma ShownAre()
    ensures Shown(MISREAD[0]) == " x" && Shown(MISREAD[1]) == "+++ b/notes" && Shown(MISREAD[2]) == "+- item"
  {
  }

  lemma ItemText(t: string)
    requires t != "" && t[0] == '-' && "- " <= t
    ensures IsItem(t) && !(POSING <= t)
  {
    assert !IsSpace(t[0]) && TrimStart(t) == t;
    assert POSING[0] != t[0];
  }

  lemma NothingChomped()
    ensures ChompFile(MISREAD_FILE) == MISREAD_FILE && ChompFiles([MISREAD_FILE]) == [MISREAD_FILE]
  {
    var rows := MISREAD;
    assert Chomp("x") == "x" && Chomp("++ b/notes") == "++ b/notes" && Chomp("- item") == "- item";
    assert ChompRows(rows) == rows;
    assert Chomp("") == "" && Chomp("C") == "C" && Chomp("a/C b/C") == "a/C b/C";
    assert ChompPieces(MISREAD_FILE.pieces) == MISREAD_FILE.pieces;
  }

  lemma MisreadHeader()
    ensures HeaderLine(0, 1, 0, 3, "") == "@@ -1 +1,3 @@"
  {
    assert Decimal(1) == "1" && Decimal(3) == "3";
    assert Side(0, 1) == "1" && Side(0, 3) == "1,3";
  }

  lemma MisreadLines()
    ensures Unbroken(DiffLines([MISREAD_FILE]))
  {
    hide ShownRows, OldRows, NewRows, HeaderLine;
    MisreadShown();
    MisreadHeader();
    var pieces := MISREAD_FILE.pieces;
    assert pieces[0].Edit? && pieces[1..] == [] && [MISREAD_FILE][1..] == [];
    assert Pieces(pieces, 0, 0) == [HeaderLine(0, 1, 0, 3, "")] + ShownRows(MISREAD);
    assert DiffLines([MISREAD_FILE]) == [GIT + "a/C b/C", FILE + "C", "@@ -1 +1,3 @@", " x", "+++ b/notes", "+- item"];
  }

  lemma MisreadFound()
    ensures Collected(Reader("", -1, 0), DiffLines([MISREAD_FILE]), '+')
            == [Change("notes", 2, "- item", ("notes", 0))]
  {
    hide Collected, ShownRows, Pieces, NewRows, OldRows, WellFormed;
    var f := MISREAD_FILE;
    MisreadShown();
    MisreadRows();
    assert DiffLines([f]) == FileLines(f) + DiffLines([]) && FileLines(f) + [] == FileLines(f);
    assert WellFormed(f) by { MisreadIsWellFormed(); }
    FileHead(Reader("", -1, 0), f, '+');
    assert f.pieces[0].Edit? && f.pieces[1..] == [] && HasHunk(f.pieces);
    assert Start(0, MISREAD) == 1;
    HunkRead(Reader("C", -1, 0), 0, 0, f.pieces, '+');
    Unchanged([], 1, 3);
    assert FileLines(f) == DiffLines([f]);
    NothingCollected(After(Reader("C", 0, 1), ShownRows(MISREAD)), '+');
  }

  lemma MisreadIsWellFormed()
    ensures WellFormed(MISREAD_FILE)
  {
  }

  /**
   * A dishonest diff: the second row adds a line that begins with `++ b/`, and the item after it is
   * reported for line 2 of `notes` although it is line 3 of `C`.
   */
  lemma PosingRowMisleads()
    ensures var c := Change("notes", 2, "- item", ("notes", 0));
            Found(DiffText([MISREAD_FILE]), '+') == [c] && !OnLine(ChompFile(MISREAD_FILE), c)
    ensures NewFile(MISREAD_FILE.pieces) == ["x", "++ b/notes", "- item"]
  {
    hide Found, Collected, NewRows, DiffLines, DiffText, Unbroken;
    MisreadLines();
    MisreadShown();
    MisreadFound();
    NothingChomped();
    assert "notes"[0] != "C"[0];
    FoundIsCollected([MISREAD_FILE], '+');
    var pieces := MISREAD_FILE.pieces;
    assert pieces[0].Edit? && pieces[1..] == [] && NewFile([]) == [];
    assert NewFile(pieces) == NewRows(MISREAD) + NewFile(pieces[1..]) == NewRows(MISREAD);
  }
}
