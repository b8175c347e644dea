/** Replaying the reads of one file. */
module Replay {
  import opened Wrappers
  import opened Intervals

  // Two phases, under a candidate read-tool configuration.

  datatype Intent = Bare | Range(start: Option<int>, end: Option<int>) | Raw | Other
  datatype ReadCall = ReadCall(intent: Intent, actualA: Option<int>, actualB: Option<int>)
  datatype FileStats = FileStats(sizeLines: int, tokensPerLine: real, bytesPerLine: real)
  datatype Config = Config(defaultPage: int, lineCap: int, byteCap: int, summarizeMin: int)

  const OVERHEAD: real := 200.0
  const SUMMARY_RATE: real := 0.35

  function Min(a: int, b: int): int {
    if a <= b then a else b
  }

  function Max(a: int, b: int): int {
    if a >= b then a else b
  }

  /** The byte cap in lines, at least one. */
  function ByteCapLines(fs: FileStats, cfg: Config): int
    requires fs.bytesPerLine > 0.0
  {
    Max(1, (cfg.byteCap as real / fs.bytesPerLine).Floor)
  }

  function PerCall(fs: FileStats, cfg: Config): int {
    if fs.bytesPerLine > 0.0 then Min(cfg.lineCap, ByteCapLines(fs, cfg)) else cfg.lineCap
  }

  /** The range the tool returns for a call, `None` for intents without line bounds. */
  function Returned(rc: ReadCall, fs: FileStats, cfg: Config): Option<Iv> {
    var size := Max(fs.sizeLines, 1);
    var bounds: Option<(int, int)> :=
      match rc.intent
      case Bare => Some((1, cfg.defaultPage))
      case Range(start, end) =>
        var s := if start.Some? && start.value != 0 then start.value else 1;
        Some((s, if end.Some? then end.value else s + cfg.defaultPage - 1))
      case Raw => Some((1, size))
      case Other => None;
    if bounds.None? then None
    else
      var (start, wish) := bounds.value;
      var end := Min(Min(wish, size), start + cfg.lineCap - 1);
      var capped := if fs.bytesPerLine > 0.0 then Min(end, start + ByteCapLines(fs, cfg) - 1) else end;
      Some((start, if capped < start then start else capped))
  }

  /** A returned range is never empty, never longer than the caps allow, and ends within the file. */
  lemma ReturnedBounds(rc: ReadCall, fs: FileStats, cfg: Config)
    requires cfg.lineCap >= 1 && Returned(rc, fs, cfg).Some?
    ensures var (s, e) := Returned(rc, fs, cfg).value;
            s <= e && e - s + 1 <= PerCall(fs, cfg) && (e == s || e <= Max(fs.sizeLines, 1))
  {
  }

  /** Tokens of that many lines at the verbatim rate. */
  function Verbatim(lines: int, fs: FileStats): real {
    lines as real * fs.tokensPerLine
  }

  /** Estimated tokens for a chunk; large files read without bounds are summarised. */
  function Cost(iv: Iv, fs: FileStats, bare: bool, cfg: Config): real {
    var raw := Verbatim(Max(iv.1 - iv.0 + 1, 0), fs);
    if bare && cfg.summarizeMin >= 0 && fs.sizeLines >= cfg.summarizeMin then raw * SUMMARY_RATE else raw
  }

  // ---------------------------------------------------------------- what a replay has to achieve

  /** Line `x` is among those the first `n` calls return under the configuration. */
  predicate Reached(calls: seq<ReadCall>, fs: FileStats, cfg: Config, n: nat, x: int)
    requires n <= |calls|
  {
    exists j :: 0 <= j < n && Returned(calls[j], fs, cfg).Some? && In(Returned(calls[j], fs, cfg).value, x)
  }

  predicate IsObserved(rc: ReadCall) {
    rc.actualA.Some? && rc.actualB.Some? && rc.actualB.value >= rc.actualA.value
  }

  /** Line `x` was delivered in the original session. */
  predicate Observed(calls: seq<ReadCall>, n: nat, x: int)
    requires n <= |calls|
  {
    exists j :: 0 <= j < n && IsObserved(calls[j]) && calls[j].actualA.value <= x <= calls[j].actualB.value
  }

  /** The call brings a line that no earlier call returns. */
  ghost predicate Useful(calls: seq<ReadCall>, fs: FileStats, cfg: Config, i: nat)
    requires i < |calls|
  {
    var r := Returned(calls[i], fs, cfg);
    r.Some? && exists x :: In(r.value, x) && !Reached(calls, fs, cfg, i, x)
  }

  ghost function UsefulCount(calls: seq<ReadCall>, fs: FileStats, cfg: Config, n: nat): nat
    requires n <= |calls|
  {
    if n == 0 then 0
    else UsefulCount(calls, fs, cfg, n - 1) + if Useful(calls, fs, cfg, n - 1) then 1 else 0
  }

  ghost function UsefulCost(calls: seq<ReadCall>, fs: FileStats, cfg: Config, n: nat): real
    requires n <= |calls|
  {
    if n == 0 then 0.0
    else UsefulCost(calls, fs, cfg, n - 1)
         + if Useful(calls, fs, cfg, n - 1)
           then Cost(Returned(calls[n - 1], fs, cfg).value, fs, calls[n - 1].intent.Bare?, cfg) else 0.0
  }

  /** Number of lines in disjoint intervals. */
  function Length(ivs: seq<Iv>): int {
    if ivs == [] then 0
    else Length(ivs[..|ivs| - 1]) + (ivs[|ivs| - 1].1 - ivs[|ivs| - 1].0 + 1)
  }

  /** The fewest reads of at most `cap` lines that deliver `lines` lines. */
  function Reads(lines: int, cap: int): nat
    requires cap >= 1
  {
    if lines <= 0 then 0 else 1 + Reads(lines - cap, cap)
  }

  function ReadsFor(ivs: seq<Iv>, cap: int): nat
    requires cap >= 1
  {
    if ivs == [] then 0
    else ReadsFor(ivs[..|ivs| - 1], cap) + Reads(ivs[|ivs| - 1].1 - ivs[|ivs| - 1].0 + 1, cap)
  }

  /** The lines once observed that no call of the replay returns, in normal form. */
  ghost predicate Shortfall(calls: seq<ReadCall>, fs: FileStats, cfg: Config, gaps: seq<Iv>) {
    Normal(gaps)
    && forall x :: Covers(gaps, x) <==> Observed(calls, |calls|, x) && !Reached(calls, fs, cfg, |calls|, x)
  }

  predicate Capped(chunks: seq<Iv>, cap: int) {
    forall k :: 0 <= k < |chunks| ==> chunks[k].1 - chunks[k].0 + 1 <= cap
  }

  // ---------------------------------------------------------------- chunks

  ghost predicate Tiling(out: seq<Iv>, s: int, cur: int, e: int, cap: int) {
    Ordered(out) && Capped(out, cap) && s <= cur && (s <= e ==> cur <= e + 1) && (|out| > 0 ==> out[|out| - 1].1 == cur - 1)
    && (forall x :: Covers(out, x) <==> s <= x < cur && x <= e)
    && (forall k :: 0 <= k < |out| ==> out[k].1 - out[k].0 + 1 == cap || (cur == e + 1 && k == |out| - 1))
  }

  lemma ChunkStep(out: seq<Iv>, s: int, cur: int, e: int, cap: int)
    requires cap >= 1 && cur <= e && Tiling(out, s, cur, e, cap)
    ensures var end := Min(cur + cap - 1, e);
            Tiling(out + [(cur, end)], s, end + 1, e, cap)
  {
    hide Covers, In;
    var end := Min(cur + cap - 1, e);
    InGap((cur, end));
    forall x ensures Covers(out + [(cur, end)], x) <==> s <= x < end + 1 && x <= e {
      CoversMore(out, (cur, end), x);
    }
  }

  lemma ChunkCount(out: seq<Iv>, cur: int, e: int, cap: int)
    requires cap >= 1 && cur <= e
    ensures var end := Min(cur + cap - 1, e);
            Length(out + [(cur, end)]) == Length(out) + (end - cur + 1)
            && Reads(e - end, cap) + 1 == Reads(e + 1 - cur, cap)
  {
    ReadsAppend(out, (cur, Min(cur + cap - 1, e)), cap);
  }

  /** Tiles [s, e] with ordered chunks; all but the last are full. */
  method ChunkRange(s: int, e: int, cap: int) returns (out: seq<Iv>)
    requires cap >= 1
    ensures Ordered(out) && Capped(out, cap)
    ensures forall x :: Covers(out, x) <==> s <= x <= e
    ensures forall k :: 0 <= k < |out| - 1 ==> out[k].1 - out[k].0 + 1 == cap
    ensures |out| == Reads(e - s + 1, cap)
    ensures Length(out) == if s <= e then e - s + 1 else 0
  {
    hide Covers, Reads;
    out := [];
    NoneCovered();
    NoReads(cap);
    var cur := s;
    while cur <= e
      invariant Tiling(out, s, cur, e, cap)
      invariant |out| + Reads(e + 1 - cur, cap) == Reads(e + 1 - s, cap)
      invariant s <= e ==> Length(out) == cur - s
      decreases e + 1 - cur
    {
      var end := Min(cur + cap - 1, e);
      ChunkStep(out, s, cur, e, cap);
      ChunkCount(out, cur, e, cap);
      out := out + [(cur, end)];
      cur := end + 1;
    }
  }

  lemma NoReads(cap: int)
    requires cap >= 1
    ensures forall lines :: lines <= 0 ==> Reads(lines, cap) == 0
  {
  }

  /** So many reads suffice, and one fewer does not. */
  lemma {:induction false} ReadsAreFewest(lines: int, cap: int)
    requires lines > 0 && cap >= 1
    ensures (Reads(lines, cap) - 1) * cap < lines <= Reads(lines, cap) * cap
    decreases lines
  {
    var r := Reads(lines - cap, cap);
    assert (r + 1) * cap == r * cap + cap;
    if lines > cap {
      ReadsAreFewest(lines - cap, cap);
      assert (r - 1) * cap == r * cap - cap;
    }
  }

  lemma {:induction false} LengthAppend(a: seq<Iv>, b: seq<Iv>)
    ensures Length(a + b) == Length(a) + Length(b)
  {
    if b == [] { assert a + b == a; }
    else {
      var n := |b| - 1;
      assert (a + b)[..|a + b| - 1] == a + b[..n];
      LengthAppend(a, b[..n]);
    }
  }

  lemma ReadsAppend(a: seq<Iv>, iv: Iv, cap: int)
    requires cap >= 1
    ensures ReadsFor(a + [iv], cap) == ReadsFor(a, cap) + Reads(iv.1 - iv.0 + 1, cap)
    ensures Length(a + [iv]) == Length(a) + (iv.1 - iv.0 + 1)
  {
    assert (a + [iv])[..|a|] == a;
  }

  // ---------------------------------------------------------------- phase 1

  lemma ReachedNext(calls: seq<ReadCall>, fs: FileStats, cfg: Config, n: nat, x: int)
    requires n < |calls|
    ensures Reached(calls, fs, cfg, n + 1, x)
            <==> Reached(calls, fs, cfg, n, x)
                 || (Returned(calls[n], fs, cfg).Some? && In(Returned(calls[n], fs, cfg).value, x))
  {
    hide Returned;
  }

  lemma ObservedNext(calls: seq<ReadCall>, n: nat, x: int)
    requires n < |calls|
    ensures Observed(calls, n + 1, x)
            <==> Observed(calls, n, x)
                 || (IsObserved(calls[n]) && calls[n].actualA.value <= x <= calls[n].actualB.value)
  {
  }

  /** The coverage after `n` calls: normal, and exactly the reached lines. */
  ghost predicate Coverage(calls: seq<ReadCall>, fs: FileStats, cfg: Config, n: nat, covered: seq<Iv>)
    requires n <= |calls|
  {
    Normal(covered) && forall x :: Covers(covered, x) <==> Reached(calls, fs, cfg, n, x)
  }

  lemma CoverageStart(calls: seq<ReadCall>, fs: FileStats, cfg: Config)
    ensures Coverage(calls, fs, cfg, 0, []) && forall x :: !Observed(calls, 0, x)
  {
  }

  /** The skip test is exact: a call is dropped just when it brings nothing new. */
  lemma SkipIsExact(calls: seq<ReadCall>, fs: FileStats, cfg: Config, n: nat, covered: seq<Iv>)
    requires n < |calls| && cfg.lineCap >= 1 && Coverage(calls, fs, cfg, n, covered)
    ensures var r := Returned(calls[n], fs, cfg);
            Useful(calls, fs, cfg, n) <==> r.Some? && !WithinOne(r.value.0, r.value.1, covered)
    ensures !Useful(calls, fs, cfg, n) ==> Coverage(calls, fs, cfg, n + 1, covered)
  {
    hide Returned, Covers, Reached, WithinOne;
    var r := Returned(calls[n], fs, cfg);
    if r.Some? {
      ReturnedBounds(calls[n], fs, cfg);
      NormalDecides(r.value.0, r.value.1, covered);
    }
    forall x ensures !Useful(calls, fs, cfg, n) ==>
        (Covers(covered, x) <==> Reached(calls, fs, cfg, n + 1, x)) {
      ReachedNext(calls, fs, cfg, n, x);
    }
  }

  lemma CoverageNext(calls: seq<ReadCall>, fs: FileStats, cfg: Config, n: nat, covered: seq<Iv>, next: seq<Iv>)
    requires n < |calls| && Coverage(calls, fs, cfg, n, covered) && Returned(calls[n], fs, cfg).Some?
    requires Normal(next)
    requires forall x :: Covers(next, x) <==> Covers(covered + [Returned(calls[n], fs, cfg).value], x)
    ensures Coverage(calls, fs, cfg, n + 1, next)
  {
    hide Returned, Covers, Reached;
    forall x ensures Covers(next, x) <==> Reached(calls, fs, cfg, n + 1, x) {
      CoversMore(covered, Returned(calls[n], fs, cfg).value, x);
      ReachedNext(calls, fs, cfg, n, x);
    }
  }

  method Phase1(calls: seq<ReadCall>, fs: FileStats, cfg: Config)
    returns (total: real, kept: nat, covered: seq<Iv>, observed: seq<Iv>)
    requires cfg.lineCap >= 1
    ensures Coverage(calls, fs, cfg, |calls|, covered)
    ensures Proper(observed) && forall x :: Covers(observed, x) <==> Observed(calls, |calls|, x)
    ensures kept == UsefulCount(calls, fs, cfg, |calls|)
    ensures total == OVERHEAD * kept as real + UsefulCost(calls, fs, cfg, |calls|)
  {
    hide Covers, Coverage, Observed, Returned, Cost, Useful;
    covered, observed, total, kept := [], [], 0.0, 0;
    CoverageStart(calls, fs, cfg);
    NoneCovered();
    var n := 0;
    while n < |calls|
      invariant 0 <= n <= |calls| && Coverage(calls, fs, cfg, n, covered)
      invariant Proper(observed) && forall x :: Covers(observed, x) <==> Observed(calls, n, x)
      invariant kept == UsefulCount(calls, fs, cfg, n)
      invariant total == OVERHEAD * kept as real + UsefulCost(calls, fs, cfg, n)
    {
      var rc := calls[n];
      ghost var was := observed;
      if IsObserved(rc) {
        observed := observed + [(rc.actualA.value, rc.actualB.value)];
      }
      forall x ensures Covers(observed, x) <==> Observed(calls, n + 1, x) {
        ObservedNext(calls, n, x);
        if IsObserved(rc) { CoversMore(was, (rc.actualA.value, rc.actualB.value), x); }
      }
      SkipIsExact(calls, fs, cfg, n, covered);
      var ret := Returned(rc, fs, cfg);
      if ret.Some? {
        var (s, e) := ret.value;
        var skip := Contained(s, e, covered);
        if !skip {
          total := total + Cost((s, e), fs, rc.intent.Bare?, cfg) + OVERHEAD;
          kept := kept + 1;
          ReturnedBounds(rc, fs, cfg);
          CoverageIsProper(calls, fs, cfg, n, covered);
          var next := Merge(covered + [(s, e)]);
          CoverageNext(calls, fs, cfg, n, covered, next);
          covered := next;
        }
      }
      n := n + 1;
    }
  }

  lemma CoverageIsProper(calls: seq<ReadCall>, fs: FileStats, cfg: Config, n: nat, covered: seq<Iv>)
    requires n <= |calls| && Coverage(calls, fs, cfg, n, covered)
    ensures Normal(covered) && forall x :: Covers(covered, x) <==> Reached(calls, fs, cfg, n, x)
  {
  }

  // ---------------------------------------------------------------- phase 2

  /** Intervals whose lines all lie inside `iv`. */
  lemma InsideOf(next: seq<Iv>, iv: Iv)
    requires Proper(next) && forall x :: Covers(next, x) ==> In(iv, x)
    ensures forall k :: 0 <= k < |next| ==> iv.0 <= next[k].0 && next[k].1 <= iv.1
  {
    forall k | 0 <= k < |next| ensures iv.0 <= next[k].0 && next[k].1 <= iv.1 {
      assert In(next[k], next[k].0) && In(next[k], next[k].1);
      assert Covers(next, next[k].0) && Covers(next, next[k].1);
    }
  }

  /** `next` continues `out` inside the interval `iv`, which lies behind everything in `out`. */
  lemma ContinueOrdered(out: seq<Iv>, next: seq<Iv>, iv: Iv)
    requires Ordered(out) && Ordered(next)
    requires forall k :: 0 <= k < |out| ==> out[k].1 < iv.0
    requires forall x :: Covers(next, x) ==> In(iv, x)
    ensures Ordered(out + next) && forall k :: 0 <= k < |out + next| ==> k < |out| || (out + next)[k].1 <= iv.1
  {
    InsideOf(next, iv);
  }

  lemma ContinueNormal(out: seq<Iv>, next: seq<Iv>, iv: Iv)
    requires Normal(out) && Normal(next)
    requires forall k :: 0 <= k < |out| ==> out[k].1 + 1 < iv.0
    requires forall x :: Covers(next, x) ==> In(iv, x)
    ensures Normal(out + next) && forall k :: 0 <= k < |out + next| ==> k < |out| || (out + next)[k].1 <= iv.1
  {
    InsideOf(next, iv);
  }

  /** The observed lines that the replay has not delivered. */
  method Gaps(needs: seq<Iv>, covered: seq<Iv>) returns (gaps: seq<Iv>)
    requires Normal(needs) && Proper(covered)
    ensures Normal(gaps)
    ensures forall x :: Covers(gaps, x) <==> Covers(needs, x) && !Covers(covered, x)
  {
    hide Covers;
    gaps := [];
    NoneCovered();
    assert needs[..0] == [];
    var n := 0;
    while n < |needs|
      invariant 0 <= n <= |needs| && Normal(gaps)
      invariant forall k :: 0 <= k < |gaps| ==> n > 0 && gaps[k].1 <= needs[n - 1].1
      invariant forall x :: Covers(gaps, x) <==> Covers(needs[..n], x) && !Covers(covered, x)
    {
      var more := Subtract(needs[n].0, needs[n].1, covered);
      assert n > 0 ==> needs[n - 1].1 + 1 < needs[n].0;
      ContinueNormal(gaps, more, needs[n]);
      assert needs[..n + 1] == needs[..n] + [needs[n]];
      forall x ensures Covers(gaps + more, x) <==> Covers(needs[..n + 1], x) && !Covers(covered, x) {
        CoversAppend(gaps, more, x);
        CoversMore(needs[..n], needs[n], x);
      }
      gaps := gaps + more;
      n := n + 1;
    }
    assert needs[..n] == needs;
  }

  /** Charges the chunks of one gap: a whole chunk costs its lines at the verbatim rate. */
  method ChargeChunks(pieces: seq<Iv>, fs: FileStats, cfg: Config, total0: real, kept0: nat)
    returns (total: real, kept: nat)
    requires Proper(pieces)
    ensures kept == kept0 + |pieces|
    ensures total == total0 + OVERHEAD * |pieces| as real + Verbatim(Length(pieces), fs)
  {
    hide Verbatim;
    total, kept := total0, kept0;
    Rates(0, 0, fs);
    var k := 0;
    while k < |pieces|
      invariant 0 <= k <= |pieces| && kept == kept0 + k
      invariant total == total0 + OVERHEAD * k as real + Verbatim(Length(pieces[..k]), fs)
    {
      var iv := pieces[k];
      LengthAppend(pieces[..k], [iv]);
      assert pieces[..k + 1] == pieces[..k] + [iv];
      assert Length([iv]) == iv.1 - iv.0 + 1;
      Rates(Length(pieces[..k]), iv.1 - iv.0 + 1, fs);
      total := total + Cost(iv, fs, false, cfg) + OVERHEAD;
      kept := kept + 1;
      k := k + 1;
    }
    assert pieces[..k] == pieces;
  }

  lemma Rates(a: int, b: int, fs: FileStats)
    ensures Verbatim(a + b, fs) == Verbatim(a, fs) + Verbatim(b, fs) && Verbatim(0, fs) == 0.0
  {
  }

  /**
   * Tokens and calls for one file. The replay delivers exactly what its own calls return plus
   * everything observed; the synthetic chunks are disjoint, within the cap, and outside what the
   * calls returned. Each gap is filled with the fewest reads the cap allows, and the price is the
   * overhead of every call and chunk, the useful calls' tokens, and the missing lines' tokens.
   */
  method ReplayPair(calls: seq<ReadCall>, fs: FileStats, cfg: Config)
    returns (total: real, kept: nat, ghost covered: seq<Iv>, ghost chunks: seq<Iv>)
    requires cfg.lineCap >= 1
    ensures forall x :: Covers(covered, x)
                        <==> Reached(calls, fs, cfg, |calls|, x) || Observed(calls, |calls|, x)
    ensures Ordered(chunks) && Capped(chunks, PerCall(fs, cfg))
    ensures forall x :: Covers(chunks, x)
                        <==> Observed(calls, |calls|, x) && !Reached(calls, fs, cfg, |calls|, x)
    ensures kept == UsefulCount(calls, fs, cfg, |calls|) + |chunks|
    ensures exists gaps :: Shortfall(calls, fs, cfg, gaps)
    ensures forall gaps :: Shortfall(calls, fs, cfg, gaps) ==>
              kept == UsefulCount(calls, fs, cfg, |calls|) + ReadsFor(gaps, PerCall(fs, cfg))
              && total == OVERHEAD * kept as real + UsefulCost(calls, fs, cfg, |calls|)
                          + Verbatim(Length(gaps), fs)
  {
    hide Covers, Observed, Reached, Cost, Useful, UsefulCost, UsefulCount, In, Reads, ReadsFor, Length, Shortfall,
         Verbatim;
    var delivered, observed;
    total, kept, delivered, observed := Phase1(calls, fs, cfg);
    ghost var first, paid := kept, total;
    CoverageIsProper(calls, fs, cfg, |calls|, delivered);
    var needs := Merge(observed);
    var gaps := Gaps(needs, delivered);
    IsShortfall(calls, fs, cfg, gaps);
    ghost var reached := delivered;
    chunks := [];
    NoneCovered();
    assert gaps[..0] == [];
    NoLength(PerCall(fs, cfg));
    Rates(0, 0, fs);
    var n := 0;
    while n < |gaps|
      invariant 0 <= n <= |gaps| && Ordered(chunks) && Capped(chunks, PerCall(fs, cfg))
      invariant forall k :: 0 <= k < |chunks| ==> n > 0 && chunks[k].1 <= gaps[n - 1].1
      invariant forall x :: Covers(chunks, x) <==> Covers(gaps[..n], x)
      invariant Normal(delivered)
      invariant forall x :: Covers(delivered, x) <==> Covers(reached, x) || Covers(chunks, x)
      invariant kept == first + |chunks| && |chunks| == ReadsFor(gaps[..n], PerCall(fs, cfg))
      invariant total == paid + OVERHEAD * |chunks| as real + Verbatim(Length(gaps[..n]), fs)
    {
      var gap := gaps[n];
      var pieces := ChunkRange(gap.0, gap.1, PerCall(fs, cfg));
      assert n > 0 ==> gaps[n - 1].1 + 1 < gap.0;
      assert forall x :: Covers(pieces, x) <==> In(gap, x) by { InGap(gap); }
      ContinueOrdered(chunks, pieces, gap);
      total, kept := ChargeChunks(pieces, fs, cfg, total, kept);
      assert gaps[..n + 1] == gaps[..n] + [gap];
      ReadsAppend(gaps[..n], gap, PerCall(fs, cfg));
      Rates(Length(gaps[..n]), gap.1 - gap.0 + 1, fs);
      var next := Merge(delivered + pieces);
      forall x ensures Covers(next, x) <==> Covers(reached, x) || Covers(chunks + pieces, x)
               ensures Covers(chunks + pieces, x) <==> Covers(gaps[..n + 1], x) {
        CoversAppend(delivered, pieces, x);
        CoversAppend(chunks, pieces, x);
        CoversMore(gaps[..n], gap, x);
      }
      delivered := next;
      chunks := chunks + pieces;
      n := n + 1;
    }
    assert gaps[..n] == gaps;
    covered := delivered;
    forall other | Shortfall(calls, fs, cfg, other) ensures other == gaps {
      OneShortfall(calls, fs, cfg, gaps, other);
    }
  }

  lemma IsShortfall(calls: seq<ReadCall>, fs: FileStats, cfg: Config, gaps: seq<Iv>)
    requires Normal(gaps)
    requires forall x :: Covers(gaps, x)
                         <==> Observed(calls, |calls|, x) && !Reached(calls, fs, cfg, |calls|, x)
    ensures Shortfall(calls, fs, cfg, gaps)
  {
  }

  /** The shortfall is unique. */
  lemma OneShortfall(calls: seq<ReadCall>, fs: FileStats, cfg: Config, a: seq<Iv>, b: seq<Iv>)
    requires Shortfall(calls, fs, cfg, a) && Shortfall(calls, fs, cfg, b)
    ensures a == b
  {
    hide Covers, Observed, Reached;
    NormalIsUnique(a, b);
  }

  lemma InGap(gap: Iv)
    ensures forall x :: In(gap, x) <==> gap.0 <= x <= gap.1
  {
  }

  lemma NoLength(cap: int)
    requires cap >= 1
    ensures ReadsFor([], cap) == 0 && Length([]) == 0
  {
  }
}
