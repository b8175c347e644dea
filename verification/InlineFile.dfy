/** The whole run, `inlineFile`. */
module InlineFile {
  import opened Script
  import opened ScriptFacts
  import opened GuardInversion
  import opened Inliner
  import opened InlineCall
  import opened InlineProgram
  import opened InlineCorrect

  // Candidates are re-collected and the first is inlined, round after round.

  // ----- one helper, whole program -----

  /** Some amount of fuel lets the call finish with outcome `r`. */
  ghost predicate Finishes(w: World, p: Table, f: Name, vs: seq<Value>, g: Globals, tr: Trace, r: Outcome<Value>) {
    f in p && !r.Div? && exists n :: Invoke(w, p, p[f], vs, g, tr, n) == r
  }

  /** Called with any arguments in any world state, `f` does the same in both programs:
      same result or exception, same globals, same events; and it diverges in both or in neither. */
  ghost predicate SameMeaning(w: World, p: Table, q: Table, f: Name) {
    forall vs, g, tr, r :: Finishes(w, p, f, vs, g, tr, r) <==> Finishes(w, q, f, vs, g, tr, r)
  }

  /** Inlining one helper changes the meaning of no other function. */
  lemma InlineHelper(w: World, p: Table, h: Func, f: Name)
    requires Inlinable(w, p, h) && f in p && f != h.name
    ensures SameMeaning(w, p, TTable(p, h, true), f)
  {
    hide Inlinable, FuncOk;
    var q := TTable(p, h, true);
    FuncsOk(w, p, h, f);
    forall vs, g, tr, r
      ensures Finishes(w, p, f, vs, g, tr, r) <==> Finishes(w, q, f, vs, g, tr, r)
    {
      if Finishes(w, p, f, vs, g, tr, r) {
        var n: nat :| Invoke(w, p, p[f], vs, g, tr, n) == r;
        CarryInvoke(w, p, h, false, p[f], vs, g, tr, n, n);
        assert Invoke(w, q, q[f], vs, g, tr, n) == r;
      }
      if Finishes(w, q, f, vs, g, tr, r) {
        var n: nat :| Invoke(w, q, q[f], vs, g, tr, n) == r;
        CarryInvoke(w, p, h, true, p[f], vs, g, tr, 2 * n + 1, n);
        assert Invoke(w, p, p[f], vs, g, tr, 2 * n + 1) == r;
      }
    }
  }

  // ----- files -----

  datatype Options = Options(maxStatements: nat, nameOk: Name -> bool, strict: bool)

  function TableOf(file: seq<Func>): Table {
    if file == [] then map[] else TableOf(file[1..])[file[0].name := file[0]]
  }

  predicate DistinctFuncs(file: seq<Func>) {
    forall i, j :: 0 <= i < j < |file| ==> file[i].name != file[j].name
  }

  function TotalSites(file: seq<Func>, h: Func): nat {
    if file == [] then 0 else Sites(file[0].body, h) + TotalSites(file[1..], h)
  }

  /** `analyze`. */
  predicate Candidate(file: seq<Func>, h: Func, opts: Options) {
    && opts.nameOk(h.name) && !h.exported
    && Accepted(h) && |Tail(h.body)| <= opts.maxStatements
    && RefsOk(h.body, h) && Sites(h.body, h) == 0
    && (forall i :: 0 <= i < |file| ==> RefsOk(file[i].body, h))
    && TotalSites(file, h) > 0
    && (forall i :: 0 <= i < |file| ==> Visible(file[i], h, CodeFree(h)))
  }

  /** The name conditions `analyze` leaves out, and a total order where guards need one. */
  ghost predicate CleanRound(w: World, file: seq<Func>, h: Func) {
    GuardsClean(h) && SafeGuards(w, Guards(h.body)) && forall i :: 0 <= i < |file| ==> FuncClean(file[i], h)
  }

  function FirstCandidate(file: seq<Func>, opts: Options, i: nat): (k: nat)
    requires i <= |file|
    ensures i <= k <= |file| && (k < |file| ==> Candidate(file, file[k], opts))
    ensures forall j :: i <= j < k ==> !Candidate(file, file[j], opts)
    decreases |file| - i
  {
    if i == |file| || Candidate(file, file[i], opts) then i else FirstCandidate(file, opts, i + 1)
  }

  /** The file after one round: calls replaced everywhere, the helper removed. */
  function Rewritten(file: seq<Func>, h: Func, strict: bool): seq<Func> {
    if file == [] then []
    else
      var rest := Rewritten(file[1..], h, strict);
      if file[0].name == h.name then rest else [TFunc(file[0], h, strict)] + rest
  }

  lemma {:induction false} TableHas(file: seq<Func>, i: nat)
    requires DistinctFuncs(file) && i < |file|
    ensures file[i].name in TableOf(file) && TableOf(file)[file[i].name] == file[i]
  {
    if i > 0 {
      assert forall j :: 0 <= j < |file[1..]| ==> file[1..][j] == file[j + 1];
      TableHas(file[1..], i - 1);
    }
  }

  lemma {:induction false} TableFrom(file: seq<Func>, f: Name) returns (i: nat)
    requires f in TableOf(file)
    ensures i < |file| && file[i].name == f && TableOf(file)[f] == file[i]
  {
    if file[0].name == f {
      i := 0;
    } else {
      i := TableFrom(file[1..], f);
      i := i + 1;
    }
  }

  lemma {:induction false} RewrittenTable(file: seq<Func>, h: Func, strict: bool)
    requires DistinctFuncs(file)
    ensures TableOf(Rewritten(file, h, strict)) == TTable(TableOf(file), h, strict)
  {
    hide TFunc;
    if file != [] {
      assert forall j :: 0 <= j < |file[1..]| ==> file[1..][j] == file[j + 1];
      RewrittenTable(file[1..], h, strict);
      if file[0].name != h.name {
        assert Rewritten(file, h, strict)[1..] == Rewritten(file[1..], h, strict);
        NameStays(file[0], h, strict);
      }
    }
  }

  lemma NameStays(f: Func, h: Func, strict: bool)
    ensures TFunc(f, h, strict).name == f.name
  {
  }

  lemma {:induction false} RewrittenFrom(file: seq<Func>, h: Func, strict: bool, k: nat) returns (i: nat)
    requires k < |Rewritten(file, h, strict)|
    ensures k <= i < |file| && file[i].name != h.name && Rewritten(file, h, strict)[k] == TFunc(file[i], h, strict)
  {
    if file[0].name == h.name {
      i := RewrittenFrom(file[1..], h, strict, k);
      i := i + 1;
    } else if k == 0 {
      i := 0;
    } else {
      i := RewrittenFrom(file[1..], h, strict, k - 1);
      i := i + 1;
    }
  }

  lemma {:induction false} RewrittenShape(file: seq<Func>, h: Func, strict: bool)
    requires DistinctFuncs(file)
    ensures DistinctFuncs(Rewritten(file, h, strict))
    ensures |Rewritten(file, h, strict)| == |file| - if h.name in TableOf(file) then 1 else 0
  {
    if file != [] {
      assert forall j :: 0 <= j < |file[1..]| ==> file[1..][j] == file[j + 1];
      RewrittenShape(file[1..], h, strict);
      var rest := Rewritten(file[1..], h, strict);
      if file[0].name == h.name {
        if h.name in TableOf(file[1..]) {
          var i := TableFrom(file[1..], h.name);
        }
        assert Rewritten(file, h, strict) == rest;
      } else {
        forall k | 0 <= k < |rest|
          ensures rest[k].name != file[0].name
        {
          var i := RewrittenFrom(file[1..], h, strict, k);
        }
      }
    }
  }

  lemma RoundInlinable(w: World, file: seq<Func>, h: Func, opts: Options)
    requires DistinctFuncs(file) && h in file && Candidate(file, h, opts) && CleanRound(w, file, h)
    ensures Inlinable(w, TableOf(file), h)
  {
    var p := TableOf(file);
    var k :| 0 <= k < |file| && file[k] == h;
    TableHas(file, k);
    forall f | f in p
      ensures FuncOk(p[f], h)
    {
      var i := TableFrom(file, f);
    }
  }

  // ----- rounds -----

  /** At most `rounds` rounds; the source stops at 100 000. */
  function InlineAll(file: seq<Func>, opts: Options, rounds: nat): (r: (seq<Func>, seq<Name>))
    decreases rounds
  {
    var k := FirstCandidate(file, opts, 0);
    if rounds == 0 || k == |file| then (file, [])
    else
      var rest := InlineAll(Rewritten(file, file[k], opts.strict), opts, rounds - 1);
      (rest.0, [file[k].name] + rest.1)
  }

  /** Every round of the run meets the name conditions. */
  ghost predicate CleanRun(w: World, file: seq<Func>, opts: Options, rounds: nat)
    decreases rounds
  {
    var k := FirstCandidate(file, opts, 0);
    rounds == 0 || k == |file| ||
    (CleanRound(w, file, file[k]) && CleanRun(w, Rewritten(file, file[k], opts.strict), opts, rounds - 1))
  }

  /** Each round removes exactly one function, so a file of `n` functions is finished after
      at most `n` rounds: the run ends with no candidate left. */
  lemma {:induction false} RoundsSuffice(file: seq<Func>, opts: Options, rounds: nat)
    requires DistinctFuncs(file)
    ensures var (out, names) := InlineAll(file, opts, rounds);
            && |out| + |names| == |file|
            && DistinctFuncs(out)
            && (rounds >= |file| ==> FirstCandidate(out, opts, 0) == |out|)
    decreases rounds
  {
    hide Candidate, Rewritten, TableOf;
    var k := FirstCandidate(file, opts, 0);
    if rounds > 0 && k < |file| {
      TableHas(file, k);
      RewrittenShape(file, file[k], opts.strict);
      RoundsSuffice(Rewritten(file, file[k], opts.strict), opts, rounds - 1);
    }
  }

  /** Exported functions are never removed. */
  lemma {:induction false} ExportsSurvive(file: seq<Func>, opts: Options, rounds: nat, f: Name)
    requires DistinctFuncs(file) && f in TableOf(file) && TableOf(file)[f].exported
    ensures var out := InlineAll(file, opts, rounds).0;
            f in TableOf(out) && TableOf(out)[f].exported
    decreases rounds
  {
    var k := FirstCandidate(file, opts, 0);
    if rounds > 0 && k < |file| {
      TableHas(file, k);
      RewrittenTable(file, file[k], opts.strict);
      RewrittenShape(file, file[k], opts.strict);
      ExportsSurvive(Rewritten(file, file[k], opts.strict), opts, rounds - 1, f);
    }
  }

  /** A strict run keeps the meaning of every function that is left. */
  lemma {:induction false} InlineAllCorrect(w: World, file: seq<Func>, opts: Options, rounds: nat, f: Name)
    requires DistinctFuncs(file) && opts.strict && CleanRun(w, file, opts, rounds)
    requires f in TableOf(InlineAll(file, opts, rounds).0)
    ensures SameMeaning(w, TableOf(file), TableOf(InlineAll(file, opts, rounds).0), f)
    decreases rounds
  {
    var k := FirstCandidate(file, opts, 0);
    if rounds > 0 && k < |file| {
      var h := file[k];
      var file' := Rewritten(file, h, true);
      RewrittenTable(file, h, true);
      RewrittenShape(file, h, true);
      InlineAllCorrect(w, file', opts, rounds - 1, f);
      LeftOver(file', opts, rounds - 1, f);
      RoundInlinable(w, file, h, opts);
      InlineHelper(w, TableOf(file), h, f);
      MeaningChain(w, TableOf(file), TableOf(file'), TableOf(InlineAll(file', opts, rounds - 1).0), f);
    }
  }

  lemma MeaningChain(w: World, p: Table, q: Table, r: Table, f: Name)
    requires SameMeaning(w, p, q, f) && SameMeaning(w, q, r, f)
    ensures SameMeaning(w, p, r, f)
  {
    hide Finishes;
    forall vs, g, tr, o
      ensures Finishes(w, p, f, vs, g, tr, o) <==> Finishes(w, r, f, vs, g, tr, o)
    {
      assert Finishes(w, p, f, vs, g, tr, o) <==> Finishes(w, q, f, vs, g, tr, o);
    }
  }

  lemma {:induction false} LeftOver(file: seq<Func>, opts: Options, rounds: nat, f: Name)
    requires DistinctFuncs(file) && f in TableOf(InlineAll(file, opts, rounds).0)
    ensures f in TableOf(file)
    decreases rounds
  {
    var k := FirstCandidate(file, opts, 0);
    if rounds > 0 && k < |file| {
      RewrittenTable(file, file[k], opts.strict);
      RewrittenShape(file, file[k], opts.strict);
      LeftOver(Rewritten(file, file[k], opts.strict), opts, rounds - 1, f);
    }
  }

  /** `inlineFile`: rewrites the file in place, one candidate a round; the source's
      `maxRounds` is 100 000. */
  method InlineFile(input: seq<Func>, opts: Options, maxRounds: nat) returns (file: seq<Func>, inlined: seq<Name>)
    ensures (file, inlined) == InlineAll(input, opts, maxRounds)
  {
    hide Rewritten, FirstCandidate, InlineAll;
    file, inlined := input, [];
    assert [] + InlineAll(input, opts, maxRounds).1 == InlineAll(input, opts, maxRounds).1;
    for round := 0 to maxRounds
      invariant var rest := InlineAll(file, opts, maxRounds - round);
                InlineAll(input, opts, maxRounds) == (rest.0, inlined + rest.1)
    {
      var k := FirstCandidate(file, opts, 0);
      OneRound(file, opts, maxRounds - round);
      if k == |file| {
        assert inlined + [] == inlined;
        return;
      }
      var next := file[k];
      ghost var rest := InlineAll(Rewritten(file, next, opts.strict), opts, maxRounds - round - 1);
      assert inlined + ([next.name] + rest.1) == (inlined + [next.name]) + rest.1;
      file := Rewritten(file, next, opts.strict);
      inlined := inlined + [next.name];
    }
    OneRound(file, opts, 0);
    assert inlined + [] == inlined;
  }

  lemma OneRound(file: seq<Func>, opts: Options, rounds: nat)
    ensures var k := FirstCandidate(file, opts, 0);
            InlineAll(file, opts, rounds)
            == if rounds == 0 || k == |file| then (file, [])
               else var rest := InlineAll(Rewritten(file, file[k], opts.strict), opts, rounds - 1);
                    (rest.0, [file[k].name] + rest.1)
  {
  }
}
