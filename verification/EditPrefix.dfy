/** The edit-prefix recogniser of `scripts/session-stats/harmony_backtest.py`. */
module EditPrefix {
  import opened Wrappers

  // ---------------------------------------------------------------- lines

  /** Characters at which Python's `splitlines` ends a line. */
  predicate EndsLine(c: char) {
    var n := c as int;
    0x0A <= n <= 0x0D || 0x1C <= n <= 0x1E || n == 0x85 || n == 0x2028 || n == 0x2029
  }

  /** The characters `str.strip` removes. */
  predicate IsSpace(c: char) {
    var n := c as int;
    EndsLine(c) || n == 9 || n == 0x1F || n == 0x20 || n == 0xA0 || n == 0x1680
    || 0x2000 <= n <= 0x200A || n == 0x202F || n == 0x205F || n == 0x3000
  }

  predicate IsBlank(s: string) {
    forall i :: 0 <= i < |s| ==> IsSpace(s[i])
  }

  /** Length of the first line with its terminator; CR LF is one terminator. */
  function LineLength(text: string): (n: nat)
    requires text != ""
    ensures 0 < n <= |text|
  {
    if EndsLine(text[0]) then if |text| > 1 && text[0] == '\r' && text[1] == '\n' then 2 else 1
    else if |text| == 1 then 1
    else 1 + LineLength(text[1..])
  }

  function StripEnd(raw: string): string {
    if raw != "" && (raw[|raw| - 1] == '\r' || raw[|raw| - 1] == '\n') then StripEnd(raw[..|raw| - 1]) else raw
  }

  datatype Span = Span(line: string, start: nat, end: nat)

  function LineSpans(text: string, pos: nat): seq<Span> {
    if text == "" then []
    else
      var n := LineLength(text);
      [Span(StripEnd(text[..n]), pos, pos + n)] + LineSpans(text[n..], pos + n)
  }

  /** Offsets at which a kept prefix may end. */
  function EndAt(spans: seq<Span>, n: nat, start: nat): nat
    requires n <= |spans|
  {
    if n == 0 then start else spans[n - 1].end
  }

  lemma {:induction false} LineLengthCut(text: string, e: nat)
    requires text != "" && LineLength(text) <= e <= |text|
    ensures LineLength(text[..e]) == LineLength(text)
  {
    if !EndsLine(text[0]) && |text| > 1 {
      if e > 1 {
        assert text[..e][1..] == text[1..][..e - 1];
        LineLengthCut(text[1..], e - 1);
      }
    }
  }

  lemma {:induction false} EndsInText(text: string, pos: nat, n: nat)
    requires n <= |LineSpans(text, pos)|
    ensures pos <= EndAt(LineSpans(text, pos), n, pos) <= pos + |text|
    ensures n > 0 ==> EndAt(LineSpans(text, pos), n, pos) >= pos + LineLength(text)
    decreases n
  {
    hide LineLength;
    if n > 0 {
      var k := LineLength(text);
      EndsInText(text[k..], pos + k, n - 1);
      assert LineSpans(text, pos)[1..] == LineSpans(text[k..], pos + k);
    }
  }

  lemma CutLine(text: string, pos: nat, e: nat)
    requires text != "" && LineLength(text) <= e <= |text|
    ensures var k := LineLength(text);
            LineSpans(text[..e], pos)
            == [Span(StripEnd(text[..k]), pos, pos + k)] + LineSpans(text[k..][..e - k], pos + k)
  {
    LineLengthCut(text, e);
    var k := LineLength(text);
    hide LineLength;
    assert text[..e][..k] == text[..k] && text[..e][k..] == text[k..][..e - k];
  }

  lemma FirstSpan(text: string, pos: nat)
    ensures text == "" ==> LineSpans(text, pos) == []
    ensures text != "" ==>
              var k := LineLength(text);
              LineSpans(text, pos) == [Span(StripEnd(text[..k]), pos, pos + k)] + LineSpans(text[k..], pos + k)
  {
  }

  /** Cutting a text at a line end keeps exactly the lines before the cut. */
  lemma {:induction false} SpansOfPrefix(text: string, pos: nat, n: nat)
    requires n <= |LineSpans(text, pos)|
    ensures var e := EndAt(LineSpans(text, pos), n, pos);
            pos <= e <= pos + |text| && LineSpans(text[..e - pos], pos) == LineSpans(text, pos)[..n]
    decreases n
  {
    hide LineLength, StripEnd, LineSpans;
    EndsInText(text, pos, n);
    FirstSpan(text, pos);
    if n > 0 {
      var k := LineLength(text);
      var spans, rest := LineSpans(text, pos), LineSpans(text[k..], pos + k);
      SpansOfPrefix(text[k..], pos + k, n - 1);
      var e := EndAt(spans, n, pos);
      assert e == EndAt(rest, n - 1, pos + k);
      CutLine(text, pos, e - pos);
      assert spans[..n] == [spans[0]] + rest[..n - 1];
    } else {
      FirstSpan(text[..0], pos);
    }
  }

  // ---------------------------------------------------------------- the grammar

  datatype Format = NewStyle | LegacyStyle | Codex
  datatype Header = Header(format: Format, target: string)
  datatype RangeOp = RangeOp(sigil: char, deleted: nat, inline: bool)
  datatype OldOp = OldOp(op: char, deleted: nat, tail: bool)

  /** What the recogniser's regular expressions say about a line. */
  datatype Grammar = Grammar(
    beginPatch: string -> bool, endPatch: string -> bool, header: string -> Option<Header>,
    newInsert: string -> Option<bool>, newRange: string -> Option<RangeOp>,
    legacyInsert: string -> bool, legacyReplace: string -> Option<nat>,
    contaminated: string -> bool, oldDelete: string -> Option<nat>, oldReplace: string -> Option<OldOp>)

  datatype Section = Section(file: string, ops: nat, payload: nat, deleted: nat)

  function Last(sections: seq<Section>, ops: nat, payload: nat, deleted: nat): seq<Section> {
    if sections == [] then []
    else
      var n := |sections| - 1;
      var s := sections[n];
      sections[n := Section(s.file, s.ops + ops, s.payload + payload, s.deleted + deleted)]
  }

  datatype State = State(
    sections: seq<Section>, format: Format, end: nat, needs: bool, allowed: bool, saw: bool, content: bool)

  const START := State([], Codex, 0, false, false, false, false)

  /** A legacy insert header still waits for its first payload line. */
  predicate Missing(st: State) {
    st.needs && !st.saw
  }

  function Bit(b: bool): nat {
    if b then 1 else 0
  }

  const BLOCKERS := "\U{AB}\U{BB}\U{2254}\U{A7}"
  const PILCROW := "\U{B6}"

  /** One line; `None` where the parser stops. */
  function Step(g: Grammar, st: State, line: string, end: nat): Option<State> {
    if !st.content && IsBlank(line) then Some(st.(end := end))
    else
      var s := st.(content := true);
      if g.beginPatch(line) || g.endPatch(line) then
        if Missing(s) then None else Some(s.(end := end, allowed := false))
      else if g.header(line).Some? then
        if Missing(s) then None
        else
          var h := g.header(line).value;
          Some(State(s.sections + [Section(h.target, 0, 0, 0)], h.format, end, false, false, false, true))
      else if s.sections == [] then None
      else if s.format.NewStyle? then NewStep(g, s, line, end)
      else LegacyStep(g, s, line, end)
  }

  function NewStep(g: Grammar, s: State, line: string, end: nat): Option<State> {
    var insert, range := g.newInsert(line), g.newRange(line);
    if s.allowed && !(PILCROW <= line) && insert.None? && range.None? then
      Some(s.(sections := Last(s.sections, 0, 1, 0), end := end))
    else if IsBlank(line) then Some(s.(end := end, allowed := false))
    else if insert.Some? then
      Some(s.(sections := Last(s.sections, 1, Bit(insert.value), 0), end := end, allowed := true))
    else if range.Some? then
      var op := range.value;
      Some(s.(sections := Last(s.sections, 1, Bit(op.sigil == ':' && op.inline), op.deleted),
              end := end, allowed := op.sigil == ':'))
    else None
  }

  function LegacyStep(g: Grammar, s: State, line: string, end: nat): Option<State> {
    if s.allowed && (line == "" || line[0] !in BLOCKERS) then
      Some(s.(sections := Last(s.sections, 0, 1, 0), end := end, saw := true, needs := false))
    else if IsBlank(line) then
      if Missing(s) then None else Some(s.(end := end, allowed := false, needs := false, saw := false))
    else if Missing(s) then None
    else if g.legacyInsert(line) then
      Some(s.(sections := Last(s.sections, 1, 0, 0), needs := true, allowed := true, saw := false))
    else if g.legacyReplace(line).Some? then
      Some(s.(sections := Last(s.sections, 1, 0, g.legacyReplace(line).value),
              end := end, needs := false, allowed := true, saw := false))
    else None
  }

  function Run(g: Grammar, spans: seq<Span>, st: State): State {
    if spans == [] then st
    else
      var next := Step(g, st, spans[0].line, spans[0].end);
      if next.None? then st else Run(g, spans[1..], next.value)
  }

  // ---------------------------------------------------------------- the pre-hashline format

  datatype Old = Old(sections: seq<Section>, end: nat, inPayload: bool)

  const OLD_START := Old([], 0, false)

  function Strip(s: string): string {
    if s != "" && IsSpace(s[0]) then Strip(s[1..])
    else if s != "" && IsSpace(s[|s| - 1]) then Strip(s[..|s| - 1])
    else s
  }

  function OldStep(g: Grammar, loose: bool, st: Old, line: string, end: nat): Option<Old> {
    var n := |st.sections|;
    if loose && g.contaminated(line) && n > 0 && st.sections[n - 1].ops > 0 then None
    else if "---" <= line then
      var target := Strip(line[3..]);
      if target == "" then None else Some(Old(st.sections + [Section(target, 0, 0, 0)], end, false))
    else if n == 0 then if IsBlank(line) then Some(st.(end := end)) else None
    else if "+++" <= line || "@@" <= line then
      Some(Old(Last(st.sections, Bit("@@" <= line), 0, 0), end, "@@" <= line))
    else if g.oldDelete(line).Some? then Some(Old(Last(st.sections, 1, 0, g.oldDelete(line).value), end, false))
    else if g.oldReplace(line).Some? then
      var op := g.oldReplace(line).value;
      Some(Old(Last(st.sections, 1, Bit(op.tail), if op.op == '=' then op.deleted else 0), end, true))
    else if "+" <= line then Some(Old(Last(st.sections, 0, 1, 0), end, true))
    else if st.inPayload && ("-" <= line || " " <= line || "\\" <= line) then
      Some(Old(Last(st.sections, 0, 0, Bit("-" <= line)), end, true))
    else if st.inPayload then Some(Old(Last(st.sections, 0, 1, 0), end, true))
    else if IsBlank(line) then Some(st.(end := end))
    else None
  }

  function OldRun(g: Grammar, loose: bool, spans: seq<Span>, st: Old): Old {
    if spans == [] then st
    else
      var next := OldStep(g, loose, st, spans[0].line, spans[0].end);
      if next.None? then st else OldRun(g, loose, spans[1..], next.value)
  }

  // ---------------------------------------------------------------- the recogniser

  datatype Reason = Fine | LegacyFine | NoPrefix | MissingPayload

  datatype Boundary = Boundary(ok: bool, end: nat, reason: Reason, sections: seq<Section>)

  function LeftStrip(s: string): string {
    if s != "" && IsSpace(s[0]) then LeftStrip(s[1..]) else s
  }

  function OldBoundary(g: Grammar, text: string, loose: bool): Boundary {
    var st := OldRun(g, loose, LineSpans(text, 0), OLD_START);
    var ok := st.end > 0 && st.sections != [];
    Boundary(ok, st.end, if ok then LegacyFine else NoPrefix, st.sections)
  }

  function EditBoundary(g: Grammar, text: string, loose: bool): Boundary {
    var st := Run(g, LineSpans(text, 0), START);
    if st.sections == [] && "---" <= LeftStrip(text) then OldBoundary(g, text, loose)
    else
      var ok := st.end > 0 && st.sections != [];
      Boundary(ok, st.end, if Missing(st) then MissingPayload else if ok then Fine else NoPrefix, st.sections)
  }

  method ParseLegacyDiffBoundary(g: Grammar, text: string, loose: bool) returns (b: Boundary)
    ensures b == OldBoundary(g, text, loose)
  {
    hide OldStep;
    var spans := LineSpans(text, 0);
    var st := OLD_START;
    var n := 0;
    var stopped := false;
    assert spans[0..] == spans;
    while n < |spans| && !stopped
      invariant 0 <= n <= |spans|
      invariant OldRun(g, loose, spans, OLD_START) == if stopped then st else OldRun(g, loose, spans[n..], st)
      decreases !stopped, |spans| - n
    {
      var next := OldStep(g, loose, st, spans[n].line, spans[n].end);
      if next.None? {
        stopped := true;
      } else {
        assert spans[n..][1..] == spans[n + 1..];
        st := next.value;
        n := n + 1;
      }
    }
    var ok := st.end > 0 && st.sections != [];
    b := Boundary(ok, st.end, if ok then LegacyFine else NoPrefix, st.sections);
  }

  method ParseEditBoundary(g: Grammar, text: string, loose: bool) returns (b: Boundary)
    ensures b == EditBoundary(g, text, loose)
  {
    hide Step;
    var spans := LineSpans(text, 0);
    var st := START;
    var n := 0;
    var stopped := false;
    assert spans[0..] == spans;
    while n < |spans| && !stopped
      invariant 0 <= n <= |spans|
      invariant Run(g, spans, START) == if stopped then st else Run(g, spans[n..], st)
      decreases !stopped, |spans| - n
    {
      var next := Step(g, st, spans[n].line, spans[n].end);
      if next.None? {
        stopped := true;
      } else {
        assert spans[n..][1..] == spans[n + 1..];
        st := next.value;
        n := n + 1;
      }
    }
    if st.sections == [] && "---" <= LeftStrip(text) {
      b := ParseLegacyDiffBoundary(g, text, loose);
    } else {
      var ok := st.end > 0 && st.sections != [];
      b := Boundary(ok, st.end, if Missing(st) then MissingPayload else if ok then Fine else NoPrefix, st.sections);
    }
  }

  // ---------------------------------------------------------------- stability

  /** A step keeps its line at once, or it is a legacy insert header that waits. */
  lemma StepKeeps(g: Grammar, st: State, line: string, end: nat)
    requires !Missing(st)
    ensures var r := Step(g, st, line, end);
            r.Some? ==>
              if Missing(r.value)
              then r.value == Waiting(st) && st.sections != [] && !st.format.NewStyle? && g.legacyInsert(line)
              else r.value.end == end
  {
  }

  function Waiting(st: State): State {
    st.(sections := Last(st.sections, 1, 0, 0), needs := true, allowed := true, saw := false, content := true)
  }

  /** Only a payload line leads on from a waiting header, and it completes it. */
  lemma PayloadKeeps(g: Grammar, st: State, line: string, end: nat)
    requires st.sections != [] && Missing(st) && st.allowed && st.content && !st.format.NewStyle?
    ensures var r := Step(g, st, line, end);
            r.Some? ==> !Missing(r.value) && r.value.end == end
                        && r.value.sections == Last(st.sections, 0, 1, 0)
                        && (line == "" || line[0] !in BLOCKERS)
  {
  }

  /** Result of a run, told from its kept lines: the state they lead to, or one waiting header more. */
  lemma {:induction false} RunKept(g: Grammar, spans: seq<Span>, st: State) returns (n: nat)
    requires !Missing(st)
    ensures n <= |spans|
    ensures var kept, all := Run(g, spans[..n], st), Run(g, spans, st);
            kept.end == EndAt(spans, n, st.end) && !Missing(kept)
            && (all == kept || (all == Waiting(kept) && kept.sections != []))
    decreases |spans|
  {
    hide Step;
    n := 0;
    assert spans[..0] == [];
    if spans != [] {
      var line, end := spans[0].line, spans[0].end;
      StepKeeps(g, st, line, end);
      var r := Step(g, st, line, end);
      if r.Some? && !Missing(r.value) {
        var m := RunKept(g, spans[1..], r.value);
        n := m + 1;
        assert spans[..n][1..] == spans[1..][..m];
      } else if r.Some? && |spans| > 1 {
        PayloadKeeps(g, r.value, spans[1].line, spans[1].end);
        var q := Step(g, r.value, spans[1].line, spans[1].end);
        if q.Some? {
          var m := RunKept(g, spans[2..], q.value);
          n := m + 2;
          assert spans[1..][1..] == spans[2..] && spans[..n][1..][1..] == spans[2..][..m];
          assert spans[..n][1..][0] == spans[1] && spans[1..][0] == spans[1];
        } else {
          assert spans[1..][0] == spans[1];
        }
      } else if r.Some? {
        assert spans[1..] == [];
      }
    }
  }

  /** Once a run waits it stays so until a payload line: what a kept prefix has seen after a header. */
  lemma {:induction false} HeaderHasPayload(g: Grammar, spans: seq<Span>, st: State, i: nat, n: nat)
    requires !Missing(st) && i < n <= |spans|
    requires Missing(Run(g, spans[..i + 1], st)) && !Missing(Run(g, spans[..n], st))
    ensures i + 1 < n && (spans[i + 1].line == "" || spans[i + 1].line[0] !in BLOCKERS)
    ensures Run(g, spans[..i + 2], st).sections == Last(Run(g, spans[..i + 1], st).sections, 0, 1, 0)
    decreases i, 1
  {
    hide Step, Run;
    var two := spans[1..];
    StepKeeps(g, st, spans[0].line, spans[0].end);
    var r := Step(g, st, spans[0].line, spans[0].end);
    RunTake(g, spans, st, i + 1);
    RunTake(g, spans, st, i + 2);
    RunTake(g, spans, st, n);
    if r.Some? && !Missing(r.value) {
      RunNone(g, two, r.value);
      if i > 0 { HeaderHasPayload(g, two, r.value, i - 1, n - 1); }
    } else if r.Some? {
      RunNone(g, two, r.value);
      if n > 1 { OneHeader(g, two, r.value, i, n - 1); }
    }
  }

  /** After a waiting header: the next line is its payload. */
  lemma {:induction false} OneHeader(g: Grammar, spans: seq<Span>, st: State, i: nat, n: nat)
    requires 0 < n <= |spans| && i <= n
    requires st.sections != [] && Missing(st) && st.allowed && st.content && !st.format.NewStyle?
    requires Missing(Run(g, spans[..i], st)) && !Missing(Run(g, spans[..n], st))
    ensures i < n && (spans[i].line == "" || spans[i].line[0] !in BLOCKERS)
    ensures Run(g, spans[..i + 1], st).sections == Last(Run(g, spans[..i], st).sections, 0, 1, 0)
    decreases i, 0
  {
    hide Step, Run;
    PayloadKeeps(g, st, spans[0].line, spans[0].end);
    RunTake(g, spans, st, n);
    var q := Step(g, st, spans[0].line, spans[0].end);
    RunNone(g, spans, st);
    if q.Some? {
      RunNone(g, spans[1..], q.value);
      RunTake(g, spans, st, 1);
      if i > 0 {
        RunTake(g, spans, st, i);
        if i < n { RunTake(g, spans, st, i + 1); }
        if i > 1 { HeaderHasPayload(g, spans[1..], q.value, i - 2, n - 1); }
      }
    }
  }

  lemma RunNone(g: Grammar, spans: seq<Span>, st: State)
    ensures Run(g, spans[..0], st) == st
  {
  }

  lemma RunTake(g: Grammar, spans: seq<Span>, st: State, m: nat)
    requires m > 0 && spans != []
    ensures m <= |spans| ==>
              Run(g, spans[..m], st)
              == var r := Step(g, st, spans[0].line, spans[0].end);
                 if r.None? then st else Run(g, spans[1..][..m - 1], r.value)
  {
    hide Step;
    if m <= |spans| { assert spans[..m][1..] == spans[1..][..m - 1]; }
  }

  lemma {:induction false} SectionsGrow(g: Grammar, spans: seq<Span>, st: State, n: nat)
    requires n <= |spans|
    ensures |Run(g, spans[..n], st).sections| <= |Run(g, spans, st).sections|
    ensures |st.sections| <= |Run(g, spans, st).sections|
    decreases |spans|
  {
    hide Step;
    if spans != [] {
      var r := Step(g, st, spans[0].line, spans[0].end);
      StepGrows(g, st, spans[0].line, spans[0].end);
      if r.Some? {
        SectionsGrow(g, spans[1..], r.value, if n > 0 then n - 1 else 0);
        if n > 0 { assert spans[..n][1..] == spans[1..][..n - 1]; }
      }
    }
  }

  lemma StepGrows(g: Grammar, st: State, line: string, end: nat)
    ensures var r := Step(g, st, line, end); r.Some? ==> |st.sections| <= |r.value.sections|
  {
  }

  lemma {:induction false} OldKept(g: Grammar, loose: bool, spans: seq<Span>, st: Old) returns (n: nat)
    ensures n <= |spans|
    ensures var kept, all := OldRun(g, loose, spans[..n], st), OldRun(g, loose, spans, st);
            kept == all && all.end == EndAt(spans, n, st.end)
    decreases |spans|
  {
    hide OldStep;
    n := 0;
    assert spans[..0] == [];
    if spans != [] {
      OldStepKeeps(g, loose, st, spans[0].line, spans[0].end);
      var r := OldStep(g, loose, st, spans[0].line, spans[0].end);
      if r.Some? {
        var m := OldKept(g, loose, spans[1..], r.value);
        n := m + 1;
        assert spans[..n][1..] == spans[1..][..m];
      }
    }
  }

  lemma OldStepKeeps(g: Grammar, loose: bool, st: Old, line: string, end: nat)
    ensures var r := OldStep(g, loose, st, line, end); r.Some? ==> r.value.end == end
  {
  }

  // Where the fallback applies: a text whose first non-blank character run is "---".

  lemma {:induction false} LeftStripPrefix(s: string, e: nat)
    requires e <= |s| && "---" <= LeftStrip(s[..e])
    ensures "---" <= LeftStrip(s)
  {
    if e > 0 && IsSpace(s[0]) {
      assert s[..e][1..] == s[1..][..e - 1];
      LeftStripPrefix(s[1..], e - 1);
    }
  }

  lemma {:induction false} LeftStripBlank(a: string, b: string)
    requires IsBlank(a)
    ensures LeftStrip(a + b) == LeftStrip(b)
  {
    if a == "" {
      assert a + b == b;
    } else {
      assert IsBlank(a[1..]);
      LeftStripBlank(a[1..], b);
      assert (a + b)[1..] == a[1..] + b;
    }
  }

  lemma {:induction false} StripEndFacts(raw: string)
    ensures StripEnd(raw) <= raw && (IsBlank(StripEnd(raw)) ==> IsBlank(raw))
  {
    if raw != "" && (raw[|raw| - 1] == '\r' || raw[|raw| - 1] == '\n') {
      var front := raw[..|raw| - 1];
      StripEndFacts(front);
      if IsBlank(StripEnd(raw)) {
        assert forall i :: 0 <= i < |raw| ==> IsSpace(raw[i]) by {
          assert forall i :: 0 <= i < |front| ==> raw[i] == front[i];
        }
      }
    }
  }

  /** Before its first section the old parser accepts blank lines and a file header only. */
  lemma OldFirst(g: Grammar, loose: bool, st: Old, line: string, end: nat)
    requires st.sections == []
    ensures var r := OldStep(g, loose, st, line, end);
            if "---" <= line then r.Some? ==> |r.value.sections| == 1
            else r == if IsBlank(line) then Some(st.(end := end)) else None
  {
  }

  lemma {:induction false} OldGrows(g: Grammar, loose: bool, spans: seq<Span>, st: Old)
    requires st.sections != []
    ensures OldRun(g, loose, spans, st).sections != []
    decreases |spans|
  {
    if spans != [] {
      var r := OldStep(g, loose, st, spans[0].line, spans[0].end);
      if r.Some? { OldGrows(g, loose, spans[1..], r.value); }
    }
  }

  /** One line of such a run, by its first line. */
  lemma OldFirstLine(g: Grammar, loose: bool, text: string, pos: nat, st: Old)
    requires st.sections == [] && text != ""
    ensures var n := LineLength(text);
            var r := OldRun(g, loose, LineSpans(text, pos), st);
            if "---" <= text then true
            else r == if IsBlank(text[..n]) then OldRun(g, loose, LineSpans(text[n..], pos + n), st.(end := pos + n))
                      else st
    ensures var r := OldRun(g, loose, LineSpans(text, pos), st);
            "---" <= text ==> r.sections != [] || r == st
  {
    hide OldStep, IsBlank;
    var n := LineLength(text);
    FirstSpan(text, pos);
    hide LineLength, StripEnd, LineSpans;
    StripEndFacts(text[..n]);
    var line := StripEnd(text[..n]);
    BlankLine(text[..n]);
    OldFirst(g, loose, st, line, pos + n);
    if "---" <= line {
      assert text[..3] == line[..3];
      var next := OldStep(g, loose, st, line, pos + n);
      if next.Some? { OldGrows(g, loose, LineSpans(text[n..], pos + n), next.value); }
    } else if "---" <= text {
      DashesStay(text);
    }
  }

  lemma BlankLine(raw: string)
    ensures IsBlank(StripEnd(raw)) <==> IsBlank(raw)
  {
    StripEndFacts(raw);
  }

  /** A line that starts with dashes keeps them. */
  lemma DashesStay(text: string)
    requires "---" <= text
    ensures "---" <= StripEnd(text[..LineLength(text)])
  {
    assert text[0] == '-' && text[1] == '-' && text[2] == '-';
    assert LineLength(text) == 1 + LineLength(text[1..]) >= 3 by {
      assert text[1..][0] == '-' && text[1..][1] == '-';
      assert text[1..][1..][0] == '-';
    }
    StripKeepsDashes(text[..LineLength(text)]);
  }

  lemma {:induction false} StripKeepsDashes(raw: string)
    requires "---" <= raw
    ensures "---" <= StripEnd(raw)
  {
    if |raw| > 3 {
      if raw[|raw| - 1] == '\r' || raw[|raw| - 1] == '\n' { StripKeepsDashes(raw[..|raw| - 1]); }
    } else {
      assert raw[2] == '-';
    }
  }

  /** The old parser finds a section only in such a text; without one it keeps blank lines only. */
  lemma {:induction false} OldLead(g: Grammar, loose: bool, text: string, pos: nat, st: Old)
    requires st.sections == [] && st.end == pos
    ensures var r := OldRun(g, loose, LineSpans(text, pos), st);
            if r.sections != [] then "---" <= LeftStrip(text)
            else pos <= r.end <= pos + |text| && IsBlank(text[..r.end - pos])
    decreases |text|
  {
    hide OldStep, LineLength, StripEnd, IsBlank;
    NothingIsBlank();
    assert text[..0] == "";
    if text == "" {
      assert LineSpans(text, pos) == [];
    } else {
      hide LineSpans, OldRun;
      var n := LineLength(text);
      var raw, rest := text[..n], text[n..];
      var r := OldRun(g, loose, LineSpans(text, pos), st);
      OldFirstLine(g, loose, text, pos, st);
      assert text == raw + rest;
      if "---" <= text {
        DashesLead(text);
      } else if IsBlank(raw) {
        OldLead(g, loose, rest, pos + n, st.(end := pos + n));
        BlankLeads(raw, rest, pos, r.end, r.sections == []);
      }
    }
  }

  /** A blank line in front changes nothing about the lead. */
  lemma BlankLeads(raw: string, rest: string, pos: nat, end: nat, none: bool)
    requires IsBlank(raw)
    requires if none then pos + |raw| <= end <= pos + |raw| + |rest| && IsBlank(rest[..end - pos - |raw|])
             else "---" <= LeftStrip(rest)
    ensures if none then pos <= end <= pos + |raw + rest| && IsBlank((raw + rest)[..end - pos])
            else "---" <= LeftStrip(raw + rest)
  {
    hide IsBlank, LeftStrip;
    LeftStripBlank(raw, rest);
    if none {
      assert (raw + rest)[..end - pos] == raw + rest[..end - pos - |raw|];
      BothBlank(raw, rest[..end - pos - |raw|]);
    }
  }

  lemma NothingIsBlank()
    ensures IsBlank("")
  {
  }

  lemma BothBlank(a: string, b: string)
    requires IsBlank(a) && IsBlank(b)
    ensures IsBlank(a + b)
  {
  }

  lemma DashesLead(text: string)
    requires |text| >= 3 && text[..3] == "---"
    ensures "---" <= LeftStrip(text)
  {
    assert text[0] == text[..3][0] == '-';
  }

  /** Sections agree in file, payload and deleted lines; the number of operations may differ. */
  predicate SameEdits(a: seq<Section>, b: seq<Section>) {
    |a| == |b|
    && forall k :: 0 <= k < |a| ==> a[k].file == b[k].file && a[k].payload == b[k].payload && a[k].deleted == b[k].deleted
  }

  predicate IsLineEnd(text: string, e: nat) {
    e == 0 || exists k :: 0 <= k < |LineSpans(text, 0)| && LineSpans(text, 0)[k].end == e
  }

  lemma OldStable(g: Grammar, text: string, loose: bool)
    ensures var b := OldBoundary(g, text, loose);
            IsLineEnd(text, b.end) && b.end <= |text| && OldBoundary(g, text[..b.end], loose) == b
  {
    hide OldRun, LineSpans;
    var spans := LineSpans(text, 0);
    var n := OldKept(g, loose, spans, OLD_START);
    SpansOfPrefix(text, 0, n);
  }

  lemma {:induction false} BlankRun(g: Grammar, text: string, pos: nat, st: State)
    requires IsBlank(text) && !st.content && st.sections == [] && st.end == pos
    ensures Run(g, LineSpans(text, pos), st) == st.(end := pos + |text|)
    decreases |text|
  {
    hide LineLength, IsBlank, LineSpans, StripEnd;
    FirstSpan(text, pos);
    if text != "" {
      var n := LineLength(text);
      BlankParts(text, n);
      assert LineSpans(text, pos)[1..] == LineSpans(text[n..], pos + n);
      BlankRun(g, text[n..], pos + n, st.(end := pos + n));
    }
  }

  lemma BlankParts(text: string, n: nat)
    requires n <= |text| && IsBlank(text)
    ensures IsBlank(text[..n]) && IsBlank(text[n..]) && IsBlank(StripEnd(text[..n]))
  {
    StripEndFacts(text[..n]);
  }

  lemma {:induction false} BlankStrip(text: string)
    requires IsBlank(text)
    ensures LeftStrip(text) == ""
  {
    LeftStripBlank(text, "");
    assert text + "" == text;
  }

  /**
   * The boundary is a line end, and parsing the kept prefix again gives the same boundary, files,
   * payload and deleted lines. Operation counts agree too unless a legacy insert header was left
   * waiting: that header counts as one operation more.
   */
  lemma Stable(g: Grammar, text: string, loose: bool)
    ensures var b := EditBoundary(g, text, loose);
            IsLineEnd(text, b.end) && b.end <= |text|
            && var c := EditBoundary(g, text[..b.end], loose);
               c.end == b.end && c.ok == b.ok && SameEdits(c.sections, b.sections)
               && (if b.reason == MissingPayload
                   then b.sections == Last(c.sections, 1, 0, 0) && c.sections != []
                   else c.sections == b.sections)
  {
    hide Run, OldRun, LineSpans, LeftStrip;
    var spans := LineSpans(text, 0);
    var n := RunKept(g, spans, START);
    SpansOfPrefix(text, 0, n);
    var all, kept := Run(g, spans, START), Run(g, spans[..n], START);
    if all.sections == [] && "---" <= LeftStrip(text) {
      Fallback(g, text, loose);
    } else {
      var e := all.end;
      if kept.sections == [] && "---" <= LeftStrip(text[..e]) {
        LeftStripPrefix(text, e);
      }
    }
  }

  /** The same for texts that only the old parser reads. */
  lemma Fallback(g: Grammar, text: string, loose: bool)
    requires Run(g, LineSpans(text, 0), START).sections == [] && "---" <= LeftStrip(text)
    ensures var b := OldBoundary(g, text, loose);
            IsLineEnd(text, b.end) && b.end <= |text|
            && var c := EditBoundary(g, text[..b.end], loose);
               c.end == b.end && c.ok == b.ok && c.sections == b.sections
  {
    hide Run, OldRun, LineSpans, LeftStrip, IsBlank;
    var b := OldBoundary(g, text, loose);
    OldStable(g, text, loose);
    var prefix := text[..b.end];
    if b.sections == [] {
      OldLead(g, loose, text, 0, OLD_START);
      BlankRun(g, prefix, 0, START);
      BlankStrip(prefix);
    } else {
      OldLead(g, loose, prefix, 0, OLD_START);
      var m := OldKept(g, loose, LineSpans(text, 0), OLD_START);
      SpansOfPrefix(text, 0, m);
      SectionsGrow(g, LineSpans(text, 0), START, m);
    }
  }
}
