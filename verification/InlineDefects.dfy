/**
 * Default mode against strict mode; four files the checks of `analyze` accept although strict
 * inlining changes what they do, one for each name condition that `CleanRound` adds; and one that
 * default mode turns into no program at all.
 */
module InlineDefects {
  import opened Wrappers
  import opened Script
  import opened ScriptText
  import opened ScriptFacts
  import opened FreshNames
  import opened GuardInversion
  import opened Inliner
  import opened InlineSite
  import opened InlineCall
  import opened InlineText
  import opened InlineProgram
  import opened InlineFresh
  import opened InlineCorrect
  import opened InlineFile

  /** Default mode agrees with strict mode when every argument it leaves in place is settled at
      the call, nothing evaluated later writes what it reads, and no helper local captures it. */
  lemma ModesAgree(w: World, p: Table, h: Func, args: seq<Expr>, taken: set<Name>, s: State, n: nat, gs: set<Name>)
    requires Accepted(h) && GuardsClean(h) && |args| <= |h.params|
    requires NamesClean(h, SiteOf(h, args, taken, true)) && NamesClean(h, SiteOf(h, args, taken, false))
    requires CallReady(w, p, h, args, SiteOf(h, args, taken, true), s, {})
    requires CallReady(w, p, h, args, SiteOf(h, args, taken, false), s, gs)
    ensures var strict, dflt := SiteOf(h, args, taken, true), SiteOf(h, args, taken, false);
            var a, b := ExecSeq(w, p, Replacement(h, strict), s, n), ExecSeq(w, p, Replacement(h, dflt), s, n);
            match a
            case Div => b.Div?
            case Exc(v, g, tr) => b == Exc(v, g, tr)
            case Ok(sig, t) =>
              && b.Ok? && b.val == sig && b.st.g == t.g && b.st.tr == t.tr && b.st.l.Keys == t.l.Keys
              && (forall x :: x in t.l && x !in NewNames(h, strict) && x !in NewNames(h, dflt) ==> b.st.l[x] == t.l[x])
  {
    hide CallReady, NamesClean, GuardsClean, SiteNames, Replacement, SiteOf, NewNames;
    SiteFresh(h, args, taken, true);
    SiteFresh(h, args, taken, false);
    CallSite(w, p, h, args, SiteOf(h, args, taken, true), s, n, {});
    CallSite(w, p, h, args, SiteOf(h, args, taken, false), s, n, gs);
  }

  // ----- a temporary captured by the helper's own local (strict mode, chained helpers) -----

  const Opts := Options(3, (x: Name) => true, true)

  const TEMP: Name := TempBase("ev")

  /** `function k(ev) { last = ev; }` */
  const K := Func("k", false, ["ev"], [Do(Assign("last", Var("ev")))])

  /** `function h(ev) { if (!ev) return; k(ev); }` */
  const H0 := Func("h", false, ["ev"], [GUARD, PASS])

  const PASS := Do(Call("k", [Var("ev")]))

  /** `h` once `k` has been inlined into it. */
  const H := Func("h", false, ["ev"], [GUARD, Const(TEMP, Var("ev")), Do(Assign("last", Var(TEMP)))])

  const GUARD := If(Not(Var("ev")), [Return], [])

  /** `export function main() { h(1); }` */
  const M := Func("main", true, [], [Do(Call("h", [Lit(Num(1))]))])

  /** The result: the inner declaration reads itself before it is initialised. */
  const M2 := Func("main", true, [], [Const(TEMP, Lit(Num(1))), If(Var(TEMP), THEN, [])])

  const THEN := [Const(TEMP, Var(TEMP)), Do(Assign("last", Var(TEMP)))]

  /** One used parameter, one argument, a free temporary: the argument is hoisted. */
  lemma OneHoist(h: Func, x: Name, arg: Expr, taken: set<Name>)
    requires h.params == [x] && Uses(x, h.body) > 0 && TempBase(x) !in taken
    ensures Plans(h.params, [arg], h.body, taken, true) == [Hoist(TempBase(x), arg)]
    ensures ArgMap(h.params, [Hoist(TempBase(x), arg)]) == map[x := Var(TempBase(x))]
    ensures Prefix([Hoist(TempBase(x), arg)]) == [Const(TempBase(x), arg)]
  {
    assert h.params[1..] == [];
    assert [arg][1..] == [];
    assert Plans([], [], h.body, taken + {TempBase(x)}, true) == [];
    assert [Hoist(TempBase(x), arg)][1..] == [];
  }

  lemma TempIsLong(x: Name)
    requires x == "k" || x == "h" || x == "ev" || x == "last" || x == "main"
    ensures TEMP != x
  {
    assert |TEMP| == 8;
  }

  /** The recursive functions on two statements. */
  lemma TwoStmts(a: Stmt, b: Stmt, z: Subst, h: Func)
    ensures var l := [a, b];
            && Decls(l) == (if a.Const? then {a.x} else {}) + (if b.Const? then {b.x} else {})
            && Substs(l, z) == [SSubst(a, z), SSubst(b, z)]
            && Writes(l) == SWrites(a) + SWrites(b)
            && Binders(l) == SBinders(a) + SBinders(b)
            && Sites(l, h) == SSites(a, h) + SSites(b, h)
            && RefsOk(l, h) == (SRefsOk(a, h) && SRefsOk(b, h))
            && NoEscapes(l, false) == (NoEscape(a, false) && NoEscape(b, false))
  {
    var l := [a, b];
    assert l[1..] == [b];
    OneStmt(b, z, h);
  }

  lemma OneStmt(b: Stmt, z: Subst, h: Func)
    ensures var l := [b];
            && Decls(l) == (if b.Const? then {b.x} else {})
            && Substs(l, z) == [SSubst(b, z)]
            && Writes(l) == SWrites(b)
            && Binders(l) == SBinders(b)
            && Sites(l, h) == SSites(b, h)
            && RefsOk(l, h) == SRefsOk(b, h)
            && NoEscapes(l, false) == NoEscape(b, false)
  {
    var none: seq<Stmt> := [];
    assert [b][1..] == none;
    assert Decls(none) == {} && Substs(none, z) == [] && Writes(none) == {} && Binders(none) == {};
    assert Sites(none, h) == 0 && RefsOk(none, h) && NoEscapes(none, false);
  }

  lemma TwoNames(a: Stmt, b: Stmt, z: Subst, h: Func, names: set<Name>)
    ensures var l := [a, b];
            && l[1..] == [b]
            && CaptureFree(l, z) == (SCaptureFree(a, z) && SCaptureFree(b, z))
            && Names(l) == SNames(a) + SNames(b)
            && Free(l) == SFree(a) + SFree(b)
            && UnshadowedIn(l, h, names) == (SUnshadowed(a, h, names) && SUnshadowed(b, h, names))
  {
    var l := [a, b];
    assert l[1..] == [b];
    OneName(b, z, h, names);
  }

  lemma OneName(b: Stmt, z: Subst, h: Func, names: set<Name>)
    ensures var l := [b];
            && l[1..] == []
            && CaptureFree(l, z) == SCaptureFree(b, z)
            && Names(l) == SNames(b)
            && Free(l) == SFree(b)
            && UnshadowedIn(l, h, names) == SUnshadowed(b, h, names)
  {
    var none: seq<Stmt> := [];
    assert [b][1..] == none;
    assert Names(none) == {} && Free(none) == {} && CaptureFree(none, z) && UnshadowedIn(none, h, names);
  }

  /** And on one argument. */
  lemma OneArg(e: Expr, z: Subst, h: Func)
    ensures ANames([e]) == ENames(e) && AWrites([e]) == EWrites(e) && NoCalls([e], h) == NoCall(e, h)
    ensures ASubst([e], z) == [ESubst(e, z)]
  {
    assert [e][1..] == [];
    assert ANames([]) == {} && AWrites([]) == {} && NoCalls([], h) && ASubst([], z) == [];
  }

  lemma TwoRun(w: World, p: Table, a: Stmt, b: Stmt, s: State, n: nat)
    ensures ExecSeq(w, p, [a, b], s, n) ==
            var (sig, s1) :- Exec(w, p, a, s, n);
            if sig.Next? then Exec(w, p, b, s1, n) else Ok(sig, s1)
  {
    assert [a, b][1..] == [b];
    var r := Exec(w, p, a, s, n);
    if r.Ok? {
      SingleStmt(w, p, b, r.st, n);
    }
  }

  lemma KSite()
    ensures SiteOf(K, [Var("ev")], {"ev", "k"}, true) == Site([Hoist(TEMP, Var("ev"))], map[]) && Guards(K.body) == []
  {
    TempIsLong("ev");
    TempIsLong("k");
    var c := K.body[0];
    assert K.body == [c] && K.body[1..] == [];
    OneHoist(K, "ev", Var("ev"), {"ev", "k"});
    var site := SiteOf(K, [Var("ev")], {"ev", "k"}, true);
    var taken := {"ev", "k"} + Temps(site.plans);
    assert RenameLocals([], taken) == map[] && RenameLocals(K.body, taken) == map[];
  }

  lemma KSubst()
    ensures SiteSubst(K, Site([Hoist(TEMP, Var("ev"))], map[])) == Subst(map[], map["ev" := Var(TEMP)])
    ensures Prefix([Hoist(TEMP, Var("ev"))]) == [Const(TEMP, Var("ev"))]
  {
    TempIsLong("ev");
    TempIsLong("k");
    OneHoist(K, "ev", Var("ev"), {"ev", "k"});
  }

  /** Round one, at the call of `k`. */
  lemma InlineK()
    ensures var site := SiteOf(K, [Var("ev")], {"ev", "k"}, true);
            |site.plans| == 1 && Replacement(K, site) == H.body[1..]
  {
    hide SiteOf, SiteSubst, Prefix;
    KSite();
    KSubst();
    var c := K.body[0];
    var z := Subst(map[], map["ev" := Var(TEMP)]);
    OneStmt(c, z, H);
    assert K.body == [c] && ESubst(Var("ev"), z) == Var(TEMP);
    assert ESubst(c.e, z) == Assign("last", Var(TEMP));
  }

  lemma HelperParts()
    ensures Guards(H.body) == [Not(Var("ev"))] && Tail(H.body) == [H.body[1], H.body[2]] && Uses("ev", H.body) > 0
  {
    assert H.body[1..] == [H.body[1], H.body[2]];
    assert Guards(H.body[1..]) == [];
    assert SUses("ev", H.body[0]) >= 1;
  }

  /** Round two, at the call of the rewritten `h`. */
  lemma InlineH()
    ensures var site := SiteOf(H, [Lit(Num(1))], {"h"}, true);
            |site.plans| == 1 && Replacement(H, site) == M2.body
  {
    TempIsLong("h");
    HelperParts();
    OneHoist(H, "ev", Lit(Num(1)), {"h"});
    var z := Subst(map[], map["ev" := Var(TEMP)]);
    InlineTail(z);
    NegatedGuard(z);
  }

  lemma InlineTail(z: Subst)
    requires z == Subst(map[], map["ev" := Var(TEMP)])
    ensures BSubst([H.body[1], H.body[2]], z) == THEN
  {
    TempIsLong("ev");
    var a, b := H.body[1], H.body[2];
    TwoStmts(a, b, z, H);
    assert Decls([a, b]) == {TEMP};
    var z' := Hide(z, {TEMP});
    assert z'.arg["ev"] == Var(TEMP) && TEMP !in z'.arg;
    TwoStmts(a, b, z', H);
    assert ESubst(Var("ev"), z') == Var(TEMP) && ESubst(Var(TEMP), z') == Var(TEMP);
    assert ESubst(b.e, z') == Assign("last", Var(TEMP));
  }

  lemma NegatedGuard(z: Subst)
    requires z.arg == map["ev" := Var(TEMP)]
    ensures Condition([Not(Var("ev"))], z) == Var(TEMP)
  {
  }

  /** The result throws, whatever the world. */
  lemma ResultThrows(w: World, p: Table, g: Globals, tr: Trace, n: nat)
    ensures Invoke(w, p, M2, [], g, tr, n) == Exc(Undefined, g, tr)
  {
    var a, b := M2.body[0], M2.body[1];
    TwoStmts(a, b, NoSubst, H);
    TwoStmts(THEN[0], THEN[1], NoSubst, H);
    var s0 := State(g, Frame([], [], M2.body), tr);
    var s1 := s0.(l := s0.l[TEMP := Some(Num(1))]);
    var s2 := Enter(s1, {TEMP});
    assert s2.l[TEMP] == None;
    assert Eval(w, p, Var(TEMP), s2, n) == Exc(Undefined, g, tr);
    TwoRun(w, p, THEN[0], THEN[1], s2, n);
    assert ExecBlock(w, p, THEN, s1, n) == Exc(Undefined, g, tr);
    assert Eval(w, p, Var(TEMP), s1, n) == Ok(Num(1), s1);
    TwoRun(w, p, a, b, s0, n);
  }

  lemma GuardFalse(w: World, p: Table, s: State, n: nat)
    requires "ev" in s.l && s.l["ev"] == Some(Num(1))
    ensures AllFalse(w, p, [Not(Var("ev"))], NoSubst, s, n) == Ok(true, s)
  {
    var g := Not(Var("ev"));
    ESubstNone(g);
    assert Eval(w, p, Var("ev"), s, n) == Ok(Num(1), s);
    assert Eval(w, p, g, s, n) == Ok(Bool(false), s);
    assert [g][1..] == [];
    assert AllFalse(w, p, [], NoSubst, s, n) == Ok(true, s);
  }

  /** `analyze` accepts the rewritten `h`: nothing there looks at the name `__inl_ev`. */
  lemma HelperAccepted()
    ensures Candidate([H, M], H, Opts)
  {
    HelperShape();
    MainSites();
    PairAccepted(H, M);
  }

  /** `analyze` on a file of two functions. */
  lemma PairAccepted(h: Func, m: Func)
    requires !h.exported && Accepted(h) && |Tail(h.body)| <= 3 && RefsOk(h.body, h) && Sites(h.body, h) == 0
    requires RefsOk(m.body, h) && Sites(m.body, h) == 1 && Visible(m, h, CodeFree(h))
    ensures Candidate([h, m], h, Opts)
  {
    hide Accepted, CodeFree;
    var file := [h, m];
    assert file[1..] == [m] && [m][1..] == [];
    assert TotalSites([], h) == 0 && TotalSites([m], h) == 1 && TotalSites(file, h) == 1;
    NoneHidden(h.body, h, CodeFree(h));
    assert Visible(h, h, CodeFree(h)) && Visible(m, h, CodeFree(h));
  }

  lemma CapturesTemp()
    ensures !NamesClean(H, SiteOf(H, [Lit(Num(1))], {"h"}, true))
  {
    hide Plans;
    TempIsLong("h");
    TempIsLong("ev");
    HelperParts();
    OneHoist(H, "ev", Lit(Num(1)), {"h"});
    var z := SiteSubst(H, SiteOf(H, [Lit(Num(1))], {"h"}, true));
    var tail := [H.body[1], H.body[2]];
    TwoStmts(H.body[1], H.body[2], NoSubst, H);
    assert "ev" in SFree(tail[0]) && "ev" in Free(tail);
    assert z.arg["ev"] == Var(TEMP) && ENames(Var(TEMP)) == {TEMP} && Decls(tail) == {TEMP};
    assert TEMP in ENames(z.arg["ev"]) * Decls(tail);
    assert "ev" in Free(tail) - Decls(tail) && Captures(Decls(tail), "ev", z);
  }

  lemma HelperShape()
    ensures Accepted(H) && |Tail(H.body)| == 2 && RefsOk(H.body, H) && Sites(H.body, H) == 0
  {
    TempIsLong("ev");
    HelperParts();
    HelperRefs();
    HelperWrites();
    TwoStmts(H.body[1], H.body[2], NoSubst, H);
  }

  lemma HelperWrites()
    ensures Writes(H.body) == {TEMP, "last"} && Decls(H.body) == {TEMP}
  {
    HelperParts();
    OneArg(Not(Var("ev")), NoSubst, H);
    BodyParts(H.body);
    TailWrites();
  }

  lemma TailWrites()
    ensures Writes([H.body[1], H.body[2]]) == {TEMP, "last"} && Decls([H.body[1], H.body[2]]) == {TEMP}
  {
    TwoStmts(H.body[1], H.body[2], NoSubst, H);
    assert SWrites(H.body[1]) == {TEMP} && SWrites(H.body[2]) == {"last"};
  }

  lemma HelperRefs()
    ensures RefsOk(H.body, H) && Sites(H.body, H) == 0
  {
    var a, b := H.body[1], H.body[2];
    TwoStmts(a, b, NoSubst, H);
    OneStmt(Return, NoSubst, H);
    var none: seq<Stmt> := [];
    assert Sites(none, H) == 0 && RefsOk(none, H);
    assert GUARD.thn == [Return] && GUARD.els == none && NoCall(GUARD.c, H);
    assert SSites(GUARD, H) == Sites(GUARD.thn, H) + Sites(GUARD.els, H);
    assert NoCall(Var("ev"), H) && NoCall(b.e, H) && !IsSite(b, H);
    assert SRefsOk(a, H) && SRefsOk(b, H) && SSites(a, H) == 0 && SSites(b, H) == 0;
    assert H.body[0] == GUARD && H.body[1..] == [a, b];
    assert H.body != [];
  }

  lemma MainSites()
    ensures RefsOk(M.body, H) && Sites(M.body, H) == 1 && Decls(M.body) == {} && Names(M.body) == {"h"}
    ensures forall names :: Visible(M, H, names)
  {
    var c := M.body[0];
    var args := [Lit(Num(1))];
    assert M.body == [c] && args[1..] == [];
    OneStmt(c, NoSubst, H);
    assert ANames([]) == {} && NoCalls([], H) && Names([]) == {};
    assert ANames(args) == {} && NoCalls(args, H);
    assert M.body[1..] == [];
    assert Names(M.body) == SNames(c) == {"h"};
  }

  /** Strict mode is not exact on chained helpers. A file `k`, `h`, `main` whose `main` stores 1
      is rewritten in two rounds to `main` alone, and that `main` always throws. */
  lemma StrictModeCaptures(w: World, g: Globals, tr: Trace, n: nat)
    ensures InlineAll([K, H0, M], Opts, 2) == ([M2], ["k", "h"])
    ensures CleanRound(w, [K, H0, M], K) && !CleanRound(w, [H, M], H)
    ensures Invoke(w, TableOf([K, H0, M]), M, [], g, tr, n + 2) == Ok(Undefined, State(g["last" := Num(1)], map[], tr))
    ensures Invoke(w, TableOf([M2]), M2, [], g, tr, n + 2) == Exc(Undefined, g, tr)
  {
    hide Candidate, Replacement, SiteOf, CleanRound;
    TwoRounds();
    FirstRoundClean(w);
    ResultThrows(w, TableOf([M2]), g, tr, n + 2);
    ChainRuns(w, g, tr, n);
  }

  lemma TwoRounds()
    ensures InlineAll([K, H0, M], Opts, 2) == ([M2], ["k", "h"])
  {
    hide Candidate, Rewritten, InlineAll;
    KAccepted();
    RewritesH();
    HelperAccepted();
    RewritesMain();
    OneRound([M2], Opts, 0);
    FirstGoes([H, M], 1);
    FirstGoes([K, H0, M], 2);
    assert ["h"] + [] == ["h"] && ["k"] + ["h"] == ["k", "h"];
  }

  lemma FirstGoes(file: seq<Func>, rounds: nat)
    requires file != [] && rounds > 0 && Candidate(file, file[0], Opts)
    ensures var rest := InlineAll(Rewritten(file, file[0], true), Opts, rounds - 1);
            InlineAll(file, Opts, rounds) == (rest.0, [file[0].name] + rest.1)
  {
    hide Candidate, Rewritten, InlineAll;
    assert FirstCandidate(file, Opts, 0) == 0;
    OneRound(file, Opts, rounds);
  }

  lemma KShape()
    ensures Accepted(K) && Guards(K.body) == [] && Tail(K.body) == K.body && RefsOk(K.body, K) && Sites(K.body, K) == 0
    ensures Names(K.body) == {"last", "ev"} && Binders(K.body) == {} && Decls(K.body) == {}
  {
    var c := K.body[0];
    assert K.body == [c] && K.body[1..] == [] && Names([]) == {};
    OneStmt(c, NoSubst, K);
    assert NoCall(c.e, K) && !IsSite(c, K);
    assert Guards(K.body) == [] && Tail(K.body) == K.body;
    assert SWrites(c) == {"last"};
  }

  /** The calls of `k` in the original file. */
  lemma PassSites()
    ensures RefsOk(H0.body, K) && Sites(H0.body, K) == 1 && Names(H0.body) == {"ev", "k"}
    ensures forall names :: "ev" !in names ==> Visible(H0, K, names)
  {
    hide CodeFree, Names, Sites, RefsOk, UnshadowedIn, Decls, SNames, SSites, SRefsOk, SUnshadowed,
      SSubst, Substs, SCaptureFree, CaptureFree, SFree, Free, SWrites, Writes, SBinders, Binders, NoEscape, NoEscapes;
    GuardSites();
    PassStmt();
    TwoStmts(GUARD, PASS, NoSubst, K);
    assert H0.body == [GUARD, PASS] && Decls(H0.body) == {};
    TwoNames(GUARD, PASS, NoSubst, K, {});
    forall names | "ev" !in names ensures Visible(H0, K, names) {
      TwoNames(GUARD, PASS, NoSubst, K, names);
    }
  }

  lemma PassStmt()
    ensures SNames(PASS) == {"ev", "k"} && SRefsOk(PASS, K) && SSites(PASS, K) == 1 && forall names :: SUnshadowed(PASS, K, names)
  {
    OneArg(Var("ev"), NoSubst, K);
  }

  lemma GuardSites()
    ensures SNames(GUARD) == {"ev"} && SRefsOk(GUARD, K) && SSites(GUARD, K) == 0 && !IsSite(GUARD, K)
    ensures TStmt(GUARD, K, true) == GUARD && SClean(GUARD, K, true) && forall names :: SUnshadowed(GUARD, K, names)
  {
    OneStmt(Return, NoSubst, K);
    var none: seq<Stmt> := [];
    assert Names(none) == {} && RefsOk(none, K) && Sites(none, K) == 0;
    assert NoCall(Not(Var("ev")), K);
    NoSitesStmt(GUARD, K);
  }

  lemma MainKSites()
    ensures RefsOk(M.body, K) && Sites(M.body, K) == 0 && forall names :: Visible(M, K, names)
    ensures TSeq(M.body, K, Names(M.body), true) == M.body
    ensures Clean(M.body, K, Names(M.body), true) && AllNew(M.body, K, Names(M.body), true) == {}
  {
    OneStmt(M.body[0], NoSubst, K);
    OneArg(Lit(Num(1)), NoSubst, K);
    assert M.body == [M.body[0]];
    NoSites(M.body, K, Names(M.body));
  }

  lemma KAccepted()
    ensures Candidate([K, H0, M], K, Opts)
  {
    hide Accepted;
    KShape();
    PassSites();
    MainKSites();
    var file := [K, H0, M];
    assert file[1..] == [H0, M] && [H0, M][1..] == [M] && [M][1..] == [];
    assert TotalSites([], K) == 0 && TotalSites([M], K) == 0 && TotalSites([H0, M], K) == 1 && TotalSites(file, K) == 1;
    assert CodeFree(K) == {"last"};
    NoneHidden(K.body, K, CodeFree(K));
  }

  lemma RewritesH()
    ensures Rewritten([K, H0, M], K, true) == [H, M]
  {
    hide TSeq;
    RewritesPass();
    PassSites();
    MainKSites();
    assert TFunc(H0, K, true) == H && TFunc(M, K, true) == M;
    assert [K, H0, M][1..] == [H0, M] && [H0, M][1..] == [M] && [M][1..] == [];
    assert Rewritten([M], K, true) == [M] + Rewritten([], K, true);
    assert Rewritten([H0, M], K, true) == [H] + [M];
  }

  lemma RewritesPass()
    ensures TSeq(H0.body, K, {"ev", "k"}, true) == H.body
  {
    hide Replacement, SiteOf, NewNames;
    InlineK();
    var site := SiteOf(K, [Var("ev")], {"ev", "k"}, true);
    assert H0.body[1..] == [PASS] && [PASS][1..] == [];
    assert TSeq([], K, {"ev", "k"} + NewNames(K, site), true) == [];
    assert TSeq([PASS], K, {"ev", "k"}, true) == H.body[1..] + [];
    GuardSites();
    assert TSeq(H0.body, K, {"ev", "k"}, true) == [GUARD] + H.body[1..] == H.body;
  }

  /** The first round meets every name condition; what it adds breaks the second. */
  lemma FirstRoundClean(w: World)
    ensures CleanRound(w, [K, H0, M], K) && !CleanRound(w, [H, M], H)
  {
    hide FuncClean, SafeGuards, GuardsClean;
    SiteKClean();
    KShape();
    NoGuardsSafe(w);
    KClean();
    PassClean();
    MainKClean();
    MainUnclean();
    var file := [K, H0, M];
    forall i | 0 <= i < |file| ensures FuncClean(file[i], K) {
      assert file[i] == K || file[i] == H0 || file[i] == M;
    }
    assert [H, M][1] == M;
  }

  lemma KClean()
    ensures FuncClean(K, K)
  {
    KShape();
    NoSites(K.body, K, Names(K.body));
    NoneHidden(K.body, K, Outer(K));
  }

  lemma MainKClean()
    ensures FuncClean(M, K)
  {
    hide Clean, AllNew, Visible, Outer;
    MainKSites();
  }

  lemma PassClean()
    ensures FuncClean(H0, K)
  {
    hide SiteOf, NamesClean, NewNames, Visible;
    assert "ev" !in Outer(K);
    SiteKClean();
    GuardSites();
    PassSites();
    var taken := {"ev", "k"};
    var site := SiteOf(K, [Var("ev")], taken, true);
    assert H0.body[1..] == [PASS] && [PASS][1..] == [];
    assert Clean([], K, taken + NewNames(K, site), true) && AllNew([], K, taken + NewNames(K, site), true) == {};
    assert Clean([PASS], K, taken, true) && AllNew([PASS], K, taken, true) == NewNames(K, site) + {};
    assert Clean(H0.body, K, taken, true) && AllNew(H0.body, K, taken, true) == {TEMP};
  }

  lemma MainUnclean()
    ensures !FuncClean(M, H)
  {
    hide SiteOf, NamesClean, NewNames;
    MainSites();
    CapturesTemp();
  }

  lemma NoGuardsSafe(w: World)
    ensures SafeGuards(w, [])
  {
  }

  lemma SiteKClean()
    ensures var site := SiteOf(K, [Var("ev")], {"ev", "k"}, true);
            NamesClean(K, site) && NewNames(K, site) == {TEMP} && TEMP !in {"ev"} && GuardsClean(K)
  {
    hide SiteOf, SiteSubst;
    TempIsLong("ev");
    TempIsLong("last");
    KShape();
    KSite();
    KSubst();
    var site := Site([Hoist(TEMP, Var("ev"))], map[]);
    var c := K.body[0];
    OneName(c, SiteSubst(K, site), K, {});
    assert K.body == [c] && Free(K.body) == {"last", "ev"};
    assert site.plans[1..] == [] && Temps([]) == {} && Temps(site.plans) == {TEMP} && site.ren.Values == {};
  }

  lemma ChainRuns(w: World, g: Globals, tr: Trace, n: nat)
    ensures Invoke(w, TableOf([K, H0, M]), M, [], g, tr, n + 2) == Ok(Undefined, State(g["last" := Num(1)], map[], tr))
  {
    var p := TableOf([K, H0, M]);
    TableHas([K, H0, M], 1);
    HelperCalls(w, g, tr, n);
    var args := [Lit(Num(1))];
    var s0 := State(g, Frame([], [], M.body), tr);
    assert args[1..] == [];
    assert EvalArgs(w, p, [], s0, n + 2) == Ok([], s0);
    assert Eval(w, p, args[0], s0, n + 2) == Ok(Num(1), s0);
    assert EvalArgs(w, p, args, s0, n + 2) == Ok([Num(1)] + [], s0);
    CallStmt(w, p, H0, args, s0, n + 2);
    SingleStmt(w, p, M.body[0], s0, n + 2);
    assert M.body == [M.body[0]];
  }

  lemma HelperCalls(w: World, g: Globals, tr: Trace, n: nat)
    ensures Invoke(w, TableOf([K, H0, M]), H0, [Num(1)], g, tr, n + 1)
            == Ok(Undefined, State(g["last" := Num(1)], map[], tr))
  {
    hide Exec, AllFalse, TableOf;
    var p := TableOf([K, H0, M]);
    BindAt(["ev"], [Num(1)], 0);
    var s0 := State(g, Frame(["ev"], [Num(1)], H0.body), tr);
    PassRuns(w, s0, n);
    GuardFalse(w, p, s0, n + 1);
    assert H0.body[1..] == [PASS] && Guards([PASS]) == [] && Tail([PASS]) == [PASS];
    assert Guards(H0.body) == [Not(Var("ev"))] + [] == [Not(Var("ev"))] && Tail(H0.body) == [PASS];
    BodyRun(w, p, H0.body, s0, n + 1);
  }

  lemma PassRuns(w: World, s: State, n: nat)
    requires "ev" in s.l && s.l["ev"] == Some(Num(1))
    ensures ExecSeq(w, TableOf([K, H0, M]), [PASS], s, n + 1) == Ok(Next, State(s.g["last" := Num(1)], s.l, s.tr))
  {
    var p := TableOf([K, H0, M]);
    TableHas([K, H0, M], 0);
    KStores(w, p, s.g, s.tr, n);
    var args := [Var("ev")];
    assert args[1..] == [] && EvalArgs(w, p, [], s, n + 1) == Ok([], s);
    assert EvalArgs(w, p, args, s, n + 1) == Ok([Num(1)] + [], s) && [Num(1)] + [] == [Num(1)];
    CallStmt(w, p, K, args, s, n + 1);
    SingleStmt(w, p, PASS, s, n + 1);
  }

  lemma KStores(w: World, p: Table, g: Globals, tr: Trace, n: nat)
    ensures Invoke(w, p, K, [Num(1)], g, tr, n) == Ok(Undefined, State(g["last" := Num(1)], map[], tr))
  {
    var s0 := State(g, Frame(["ev"], [Num(1)], K.body), tr);
    var c := K.body[0];
    OneStmt(c, NoSubst, K);
    assert K.body == [c] && Decls(K.body) == {};
    BindAt(["ev"], [Num(1)], 0);
    BindKeys(["ev"], [Num(1)]);
    assert Eval(w, p, Var("ev"), s0, n) == Ok(Num(1), s0) && "last" !in s0.l;
    SingleStmt(w, p, c, s0, n);
  }

  lemma RewritesMain()
    ensures Rewritten([H, M], H, true) == [M2]
  {
    hide Replacement, SiteOf;
    InlineH();
    MainSites();
    assert [H, M][1..] == [M] && [M][1..] == [];
    var site := SiteOf(H, [Lit(Num(1))], {"h"}, true);
    assert M.body[1..] == [];
    assert TSeq([], H, {"h"} + NewNames(H, site), true) == [];
    assert TSeq(M.body, H, {"h"}, true) == M2.body + [];
    assert TFunc(M, H, true) == M2;
    assert Rewritten([M], H, true) == [M2] + Rewritten([], H, true);
  }

  // ----- a caller's local captures a name the helper reads from the module -----

  /** `function h() { { const x = 1; } last = x; }`: the last `x` is the module's. */
  const H2 := Func("h", false, [], [INNER, USE])

  const INNER := Block([ONE])

  const ONE := Const("x", Lit(Num(1)))

  const USE := Do(Assign("last", Var("x")))

  const TWO := Const("x", Lit(Num(2)))

  const CALL := Do(Call("h", []))

  /** `export function main() { const x = 2; h(); }` */
  const N := Func("main", true, [], [TWO, CALL])

  const N2 := Func("main", true, [], [TWO, INNER, USE])

  lemma InnerFacts(h: Func)
    ensures Decls([ONE]) == {"x"} && Writes([ONE]) == {"x"} && Binders([ONE]) == {"x"} && Names([ONE]) == {"x"}
    ensures Sites([ONE], h) == 0 && RefsOk([ONE], h) && NoEscapes([ONE], false)
  {
    OneStmt(ONE, NoSubst, h);
    assert [ONE][1..] == [];
    assert Names([]) == {};
  }

  lemma H2Shape()
    ensures Accepted(H2) && Guards(H2.body) == [] && RefsOk(H2.body, H2) && Sites(H2.body, H2) == 0
    ensures Decls(H2.body) == {} && "x" in Binders(H2.body) && Names(H2.body) == {"x", "last"}
    ensures forall z: Subst :: z.arg == map[] && z.ren == map[] ==> Substs(H2.body, z) == H2.body
  {
    InnerFacts(H2);
    TwoStmts(INNER, USE, NoSubst, H2);
    assert Guards(H2.body) == [] && Tail(H2.body) == H2.body;
    assert NoCall(USE.e, H2) && !IsSite(USE, H2) && NoCall(Lit(Num(1)), H2);
    assert SRefsOk(INNER, H2) && SRefsOk(USE, H2);
    assert SWrites(INNER) == {"x"} - {"x"};
    assert [INNER, USE][1..] == [USE] && [USE][1..] == [];
    assert Names([USE]) == {"x", "last"} by { assert Names([]) == {}; }
    forall z: Subst | z.arg == map[] && z.ren == map[] ensures Substs(H2.body, z) == H2.body {
      TwoStmts(INNER, USE, z, H2);
      assert Hide(z, {"x"}).arg == map[] && Hide(z, {"x"}).ren == map[];
      OneStmt(ONE, Hide(z, {"x"}), H2);
      assert BSubst([ONE], z) == [ONE];
    }
  }

  lemma InlineH2(taken: set<Name>)
    ensures var site := SiteOf(H2, [], taken, true);
            Replacement(H2, site) == H2.body && NewNames(H2, site) == {}
  {
    H2Shape();
    var site := SiteOf(H2, [], taken, true);
    assert Plans([], [], H2.body, taken, true) == [];
    assert [INNER, USE][1..] == [USE] && [USE][1..] == [];
    assert Temps([]) == {} && taken + {} == taken;
    assert RenameLocals([], taken) == map[] && RenameLocals([USE], taken) == map[];
    assert RenameLocals(H2.body, taken) == map[];
    assert site.plans == [] && site.ren == map[];
    assert ArgMap([], []) == map[];
    var z := SiteSubst(H2, site);
    assert z.arg == map[] && z.ren == map[];
    assert Prefix([]) == [];
  }

  lemma NShape()
    ensures RefsOk(N.body, H2) && Sites(N.body, H2) == 1 && Visible(N, H2, CodeFree(H2)) && Names(N.body) == {"x", "h"}
    ensures Decls(N.body) == {"x"}
  {
    TwoStmts(TWO, CALL, NoSubst, H2);
    H2Shape();
    assert NoCalls([], H2) && ANames([]) == {} && NoCall(Lit(Num(2)), H2);
    assert N.body[1..] == [CALL] && [CALL][1..] == [] && Names([]) == {};
    assert SNames(CALL) == {"h"} && SNames(TWO) == {"x"} && Names([CALL]) == {"h"};
    assert Decls(N.body) == {"x"} && "x" !in CodeFree(H2);
    var names := CodeFree(H2);
    assert UnshadowedIn([], H2, names) && UnshadowedIn([CALL], H2, names);
  }

  lemma RunTail(w: World, p: Table, s: State, n: nat, v: Value)
    requires "last" !in s.l && Read("x", s) == Ok(v, s)
    ensures ExecSeq(w, p, H2.body, s, n) == Ok(Next, s.(g := s.g["last" := v]))
  {
    var s1 := Enter(s, {"x"});
    InnerFacts(H2);
    SingleStmt(w, p, ONE, s1, n);
    var s2 := s1.(l := s1.l["x" := Some(Num(1))]);
    assert Exec(w, p, ONE, s1, n) == Ok(Next, s2);
    assert ExecBlock(w, p, [ONE], s, n) == Ok(Next, Leave(s, {"x"}, s2));
    assert Leave(s, {"x"}, s2).l == s.l;
    TwoRun(w, p, INNER, USE, s, n);
    assert Eval(w, p, Var("x"), s, n) == Ok(v, s);
  }

  /** The check for shadowed names takes `x` for the helper's own and misses the caller's. */
  lemma ScopeCheckMisses(w: World, g: Globals, tr: Trace, n: nat)
    requires "x" in g
    ensures Candidate([H2, N], H2, Opts) && !Visible(N, H2, Outer(H2))
    ensures Rewritten([H2, N], H2, true) == [N2]
    ensures Invoke(w, TableOf([H2, N]), N, [], g, tr, n + 1) == Ok(Undefined, State(g["last" := g["x"]], map[], tr))
    ensures Invoke(w, TableOf([N2]), N2, [], g, tr, n + 1) == Ok(Undefined, State(g["last" := Num(2)], map[], tr))
  {
    hide Candidate, Replacement, SiteOf, Visible;
    H2Accepted();
    RewritesN();
    NRuns(w, g, tr, n);
    N2Runs(w, g, tr, n);
  }

  lemma H2Accepted()
    ensures Candidate([H2, N], H2, Opts) && !Visible(N, H2, Outer(H2))
  {
    hide Accepted;
    H2Shape();
    NShape();
    PairAccepted(H2, N);
    TwoNames(INNER, USE, NoSubst, H2, {});
    assert "x" in SFree(USE) && "x" in Free(H2.body);
    assert "x" in Outer(H2);
  }

  lemma RewritesN()
    ensures Rewritten([H2, N], H2, true) == [N2]
  {
    hide Replacement, SiteOf, NewNames;
    NShape();
    InlineH2({"x", "h"});
    assert [H2, N][1..] == [N] && [N][1..] == [];
    assert N.body[1..] == [CALL] && [CALL][1..] == [];
    var site := SiteOf(H2, [], {"x", "h"}, true);
    assert TSeq([], H2, {"x", "h"} + NewNames(H2, site), true) == [];
    assert TSeq([CALL], H2, {"x", "h"}, true) == H2.body + [];
    assert !IsSite(TWO, H2) && TStmt(TWO, H2, true) == TWO;
    assert TSeq(N.body, H2, {"x", "h"}, true) == [TWO] + H2.body == N2.body;
    assert Rewritten([N], H2, true) == [N2] + Rewritten([], H2, true);
  }

  lemma NRuns(w: World, g: Globals, tr: Trace, n: nat)
    requires "x" in g
    ensures Invoke(w, TableOf([H2, N]), N, [], g, tr, n + 1) == Ok(Undefined, State(g["last" := g["x"]], map[], tr))
  {
    var p := TableOf([H2, N]);
    TableHas([H2, N], 0);
    TwoStmts(TWO, CALL, NoSubst, H2);
    var s0 := State(g, Frame([], [], N.body), tr);
    var s1 := s0.(l := s0.l["x" := Some(Num(2))]);
    H2Stores(w, p, g, tr, n);
    CallStmt(w, p, H2, [], s1, n + 1);
    assert EvalArgs(w, p, [], s1, n + 1) == Ok([], s1);
    TwoRun(w, p, TWO, CALL, s0, n + 1);
    assert Exec(w, p, TWO, s0, n + 1) == Ok(Next, s1);
  }

  lemma H2Stores(w: World, p: Table, g: Globals, tr: Trace, n: nat)
    requires "x" in g
    ensures Invoke(w, p, H2, [], g, tr, n) == Ok(Undefined, State(g["last" := g["x"]], map[], tr))
  {
    var sh := State(g, Frame([], [], H2.body), tr);
    H2Shape();
    assert sh.l == map[];
    RunTail(w, p, sh, n, g["x"]);
  }

  lemma N2Runs(w: World, g: Globals, tr: Trace, n: nat)
    ensures Invoke(w, TableOf([N2]), N2, [], g, tr, n + 1) == Ok(Undefined, State(g["last" := Num(2)], map[], tr))
  {
    var p := TableOf([N2]);
    TwoStmts(INNER, USE, NoSubst, H2);
    assert N2.body[1..] == H2.body && Decls(N2.body) == {"x"} + Decls(H2.body);
    H2Shape();
    var s0 := State(g, Frame([], [], N2.body), tr);
    var s1 := s0.(l := s0.l["x" := Some(Num(2))]);
    assert Exec(w, p, TWO, s0, n + 1) == Ok(Next, s1);
    RunTail(w, p, s1, n + 1, Num(2));
    assert ExecSeq(w, p, N2.body, s0, n + 1) == ExecSeq(w, p, H2.body, s1, n + 1);
  }

  // ----- a guard that reads a local of the tail -----

  /** `function h() { if (x) return; const x = 1; last = x; }`: every call throws. */
  const H4 := Func("h", false, [], [EARLY, ONE, USE])

  const EARLY := If(Var("x"), [Return], [])

  /** `export function main() { h(); }` */
  const Q := Func("main", true, [], [CALL])

  /** `export function main() { if (!(x)) { const x = 1; last = x; } }`: this condition reads the module's. */
  const Q2 := Func("main", true, [], [If(Not(Paren(Var("x"))), [ONE, USE], [])])

  /** The condition lands outside the block that declares the local, and reads another variable. */
  lemma GuardLeavesScope(w: World, g: Globals, tr: Trace, n: nat)
    requires "x" in g
    ensures Candidate([H4, Q], H4, Opts) && !GuardsClean(H4)
    ensures Rewritten([H4, Q], H4, true) == [Q2]
    ensures Invoke(w, TableOf([H4, Q]), Q, [], g, tr, n + 1) == Exc(Undefined, g, tr)
    ensures Invoke(w, TableOf([Q2]), Q2, [], g, tr, n + 1)
            == Ok(Undefined, State(if Truthy(g["x"]) then g else g["last" := Num(1)], map[], tr))
  {
    hide Candidate, Replacement, SiteOf, GuardsClean, Rewritten;
    H4Accepted();
    RewritesQ();
    QRuns(w, g, tr, n);
    Q2Runs(w, TableOf([Q2]), g, tr, n + 1);
  }

  lemma TailParts(h: Func)
    ensures Decls([ONE, USE]) == {"x"} && Binders([ONE, USE]) == {"x"} && Writes([ONE, USE]) == {"x", "last"}
    ensures NoEscapes([ONE, USE], false)
    ensures Names([ONE, USE]) == {"x", "last"} && Free([ONE, USE]) == {"x", "last"}
    ensures h.name == "h" ==> RefsOk([ONE, USE], h) && Sites([ONE, USE], h) == 0
  {
    TwoStmts(ONE, USE, NoSubst, h);
    TwoNames(ONE, USE, NoSubst, h, {});
    assert h.name == "h" ==> NoCall(USE.e, h) && !IsSite(USE, h) && NoCall(ONE.e, h);
  }

  lemma H4Shape()
    ensures Guards(H4.body) == [Var("x")] && Tail(H4.body) == [ONE, USE]
    ensures Decls(H4.body) == {"x"} && Writes(H4.body) == {"x", "last"} && !GuardsClean(H4)
  {
    TailParts(H4);
    assert H4.body[1..] == [ONE, USE];
    assert Guards([ONE, USE]) == [] && Guards(H4.body) == [Var("x")] + [];
    BodyParts(H4.body);
    OneArg(Var("x"), NoSubst, H4);
    assert "x" in ANames(Guards(H4.body)) * Decls(H4.body);
  }

  lemma H4Refs()
    ensures RefsOk(H4.body, H4) && Sites(H4.body, H4) == 0 && DistinctDecls(H4.body)
    ensures CodeFree(H4) == {"last"}
  {
    TailParts(H4);
    OneStmt(Return, NoSubst, H4);
    OneName(Return, NoSubst, H4, {});
    var none: seq<Stmt> := [];
    assert H4.body[1..] == [ONE, USE];
    assert RefsOk(none, H4) && Sites(none, H4) == 0 && Names(none) == {} && Binders(none) == {};
    assert SRefsOk(EARLY, H4) && SSites(EARLY, H4) == 0 && SNames(EARLY) == {"x"} && SBinders(EARLY) == {};
  }

  lemma H4Accepted()
    ensures Candidate([H4, Q], H4, Opts) && !GuardsClean(H4)
  {
    H4Shape();
    H4Refs();
    TailParts(H4);
    QShape();
    PairAccepted(H4, Q);
  }

  lemma QShape()
    ensures RefsOk(Q.body, H4) && Sites(Q.body, H4) == 1 && Names(Q.body) == {"h"} && forall names :: Visible(Q, H4, names)
  {
    OneStmt(CALL, NoSubst, H4);
    OneName(CALL, NoSubst, H4, {});
    assert NoCalls([], H4) && ANames([]) == {};
    forall names ensures Visible(Q, H4, names) {
      OneName(CALL, NoSubst, H4, names);
    }
  }

  lemma PlainGuard(z: Subst)
    requires z.arg == map[] && z.ren == map[]
    ensures Condition([Var("x")], z) == Not(Paren(Var("x")))
  {
  }

  lemma InlineH4()
    ensures Replacement(H4, SiteOf(H4, [], {"h"}, true)) == Q2.body
  {
    H4Shape();
    var site := SiteOf(H4, [], {"h"}, true);
    assert Plans([], [], H4.body, {"h"}, true) == [];
    assert site.plans == [] && site.ren == map[] && ArgMap([], []) == map[] && Prefix([]) == [];
    var z := SiteSubst(H4, site);
    assert z == NoSubst;
    PlainGuard(NoSubst);
    var z' := Hide(NoSubst, {"x"});
    TailParts(H4);
    TwoStmts(ONE, USE, z', H4);
    assert z' == NoSubst;
    assert BSubst([ONE, USE], NoSubst) == [ONE, USE];
  }

  lemma RewritesQ()
    ensures Rewritten([H4, Q], H4, true) == [Q2]
  {
    hide Replacement, SiteOf, NewNames;
    QShape();
    InlineH4();
    assert [H4, Q][1..] == [Q] && [Q][1..] == [] && Q.body[1..] == [];
    var site := SiteOf(H4, [], {"h"}, true);
    assert TSeq([], H4, {"h"} + NewNames(H4, site), true) == [];
    assert TSeq(Q.body, H4, {"h"}, true) == Q2.body + [];
    assert TFunc(Q, H4, true) == Q2;
    assert Rewritten([Q], H4, true) == [Q2] + Rewritten([], H4, true);
  }

  lemma QRuns(w: World, g: Globals, tr: Trace, n: nat)
    ensures Invoke(w, TableOf([H4, Q]), Q, [], g, tr, n + 1) == Exc(Undefined, g, tr)
  {
    var p := TableOf([H4, Q]);
    TableHas([H4, Q], 0);
    H4Shape();
    var sh := State(g, Frame([], [], H4.body), tr);
    assert sh.l["x"] == None;
    assert Exec(w, p, EARLY, sh, n) == Exc(Undefined, g, tr);
    assert Invoke(w, p, H4, [], g, tr, n) == Exc(Undefined, g, tr);
    var s0 := State(g, Frame(Q.params, [], Q.body), tr);
    assert EvalArgs(w, p, [], s0, n + 1) == Ok([], s0);
    CallStmt(w, p, H4, [], s0, n + 1);
    SingleStmt(w, p, CALL, s0, n + 1);
  }

  lemma Q2Runs(w: World, p: Table, g: Globals, tr: Trace, n: nat)
    requires "x" in g
    ensures Invoke(w, p, Q2, [], g, tr, n)
            == Ok(Undefined, State(if Truthy(g["x"]) then g else g["last" := Num(1)], map[], tr))
  {
    var c := Q2.body[0];
    OneStmt(c, NoSubst, H4);
    var s0 := State(g, Frame([], [], Q2.body), tr);
    assert Q2.body == [c] && s0.l == map[];
    assert Eval(w, p, Paren(Var("x")), s0, n) == Ok(g["x"], s0);
    assert Eval(w, p, c.c, s0, n) == Ok(Bool(!Truthy(g["x"])), s0);
    SingleStmt(w, p, c, s0, n);
    TrivialBlocks(w, p, s0, n);
    if !Truthy(g["x"]) {
      TailStores(w, p, s0, n);
    }
  }

  lemma TailStores(w: World, p: Table, s: State, n: nat)
    requires s.l == map[]
    ensures ExecBlock(w, p, [ONE, USE], s, n) == Ok(Next, s.(g := s.g["last" := Num(1)]))
  {
    TailParts(H4);
    var s1 := Enter(s, {"x"});
    var s2 := s1.(l := s1.l["x" := Some(Num(1))]);
    TwoRun(w, p, ONE, USE, s1, n);
    assert Exec(w, p, ONE, s1, n) == Ok(Next, s2);
    assert Eval(w, p, Var("x"), s2, n) == Ok(Num(1), s2);
    var s3 := s2.(g := s2.g["last" := Num(1)]);
    assert Exec(w, p, USE, s2, n) == Ok(Next, s3);
    assert Leave(s, {"x"}, s3).l == s.l;
  }

  // ----- an added local that is a parameter of the caller -----

  /** What `analyze` does not look at: an added name that is a parameter of the caller makes the
      result redeclare it, and nothing else does. */
  lemma RedeclaresIff(f: Func, h: Func)
    requires WellScoped(f) && WellScoped(h) && RefsOk(f.body, h)
    ensures Decls(TFunc(f, h, true).body) !! (set x | x in f.params)
            <==> AllNew(f.body, h, Names(f.body), true) !! (set x | x in f.params)
  {
    TDecls(f.body, h, Names(f.body));
  }

  /** `function h() { g(x); const x = 1; }` */
  const H3 := Func("h", false, [], [SEND, ONE])

  const SEND := Do(Call("g", [Var("x")]))

  /** `export function main(x) { h(); }` */
  const P := Func("main", true, ["x"], [CALL])

  /** `export function main(x) { g(x); const x = 1; }`, which no longer loads. */
  const P2 := Func("main", true, ["x"], [SEND, ONE])

  /** A parameter the caller never mentions is not reserved: the file `h`, `main` is accepted, and
      rewritten to a `main` that declares its own parameter again. The call used to throw; block by
      block, the result sends the argument to `g`. */
  lemma ParameterClash(w: World, v: Value, g: Globals, tr: Trace, n: nat)
    ensures Candidate([H3, P], H3, Opts)
    ensures GuardsClean(H3) && Visible(P, H3, Outer(H3)) && Clean(P.body, H3, Names(P.body), true)
    ensures Rewritten([H3, P], H3, true) == [P2] && WellScoped(P) && !WellScoped(P2)
    ensures Invoke(w, TableOf([H3, P]), P, [v], g, tr, n + 1) == Exc(Undefined, g, tr)
    ensures var ef := w.call("g", [v], g, tr);
            Invoke(w, TableOf([P2]), P2, [v], g, tr, n + 1)
            == if ef.throws then Exc(ef.v, ef.g, tr + ef.tr) else Ok(Undefined, State(ef.g, map[], tr + ef.tr))
  {
    hide Candidate, Replacement, SiteOf, GuardsClean, Rewritten, WellScoped, Visible;
    H3Accepted();
    RewritesP();
    PRuns(w, v, g, tr, n);
    P2Runs(w, v, g, tr, n + 1);
  }

  lemma H3Shape()
    ensures Accepted(H3) && Guards(H3.body) == [] && Tail(H3.body) == H3.body
    ensures RefsOk(H3.body, H3) && Sites(H3.body, H3) == 0
    ensures Decls(H3.body) == {"x"} && Binders(H3.body) == {"x"} && CodeFree(H3) == {"g"} && Outer(H3) == {"g"}
    ensures forall z: Subst :: z.arg == map[] && z.ren == map[] ==> Substs(H3.body, z) == H3.body && CaptureFree(H3.body, z)
  {
    TwoStmts(SEND, ONE, NoSubst, H3);
    TwoNames(SEND, ONE, NoSubst, H3, {});
    OneArg(Var("x"), NoSubst, H3);
    forall z: Subst | z.arg == map[] && z.ren == map[]
      ensures Substs(H3.body, z) == H3.body && CaptureFree(H3.body, z)
    {
      TwoStmts(SEND, ONE, z, H3);
      TwoNames(SEND, ONE, z, H3, {});
      OneArg(Var("x"), z, H3);
    }
  }

  lemma InlineH3()
    ensures var site := SiteOf(H3, [], {"h"}, true);
            && Replacement(H3, site) == H3.body && NewNames(H3, site) == {"x"} && NamesClean(H3, site)
  {
    H3Shape();
    var site := SiteOf(H3, [], {"h"}, true);
    assert Plans([], [], H3.body, {"h"}, true) == [];
    assert [SEND, ONE][1..] == [ONE] && [ONE][1..] == [];
    assert Temps([]) == {} && {"h"} + {} == {"h"};
    assert RenameLocals([], {"h", "x"}) == map[] && RenameLocals([ONE], {"h"}) == map[];
    assert RenameLocals(H3.body, {"h"}) == map[];
    assert site.plans == [] && site.ren == map[] && site.ren.Values == {};
    assert ArgMap([], []) == map[];
    var z := SiteSubst(H3, site);
    assert z.arg == map[] && z.ren == map[];
    assert Prefix([]) == [];
  }

  lemma PShape()
    ensures RefsOk(P.body, H3) && Sites(P.body, H3) == 1 && Names(P.body) == {"h"} && Decls(P.body) == {}
    ensures Visible(P, H3, {"g"})
  {
    OneStmt(CALL, NoSubst, H3);
    assert NoCalls([], H3) && ANames([]) == {};
    assert P.body[1..] == [] && Names([]) == {} && SNames(CALL) == {"h"};
    assert UnshadowedIn([], H3, {"g"});
  }

  lemma H3Accepted()
    ensures Candidate([H3, P], H3, Opts)
    ensures GuardsClean(H3) && Visible(P, H3, Outer(H3)) && Clean(P.body, H3, Names(P.body), true)
    ensures WellScoped(P) && !WellScoped(P2)
  {
    hide Accepted, CodeFree, Outer, Clean;
    H3Shape();
    PShape();
    PairAccepted(H3, P);
    PClean();
    assert "x" in Decls(P2.body) && "x" in P2.params;
  }

  lemma PClean()
    ensures Clean(P.body, H3, Names(P.body), true)
  {
    hide SiteOf, NamesClean, NewNames;
    PShape();
    InlineH3();
    var site := SiteOf(H3, [], {"h"}, true);
    assert P.body[1..] == [] && Clean([], H3, {"h"} + NewNames(H3, site), true);
  }

  lemma RewritesP()
    ensures Rewritten([H3, P], H3, true) == [P2]
  {
    hide Replacement, SiteOf, NewNames;
    PShape();
    InlineH3();
    assert [H3, P][1..] == [P] && [P][1..] == [] && P.body[1..] == [];
    var site := SiteOf(H3, [], {"h"}, true);
    assert TSeq([], H3, {"h"} + NewNames(H3, site), true) == [];
    assert TSeq(P.body, H3, {"h"}, true) == H3.body + [];
    assert TFunc(P, H3, true) == P2;
    assert Rewritten([P], H3, true) == [P2] + Rewritten([], H3, true);
  }

  lemma PRuns(w: World, v: Value, g: Globals, tr: Trace, n: nat)
    ensures Invoke(w, TableOf([H3, P]), P, [v], g, tr, n + 1) == Exc(Undefined, g, tr)
  {
    var p := TableOf([H3, P]);
    TableHas([H3, P], 0);
    H3Shape();
    var sh := State(g, Frame([], [], H3.body), tr);
    assert sh.l["x"] == None;
    var args := [Var("x")];
    assert Eval(w, p, Var("x"), sh, n) == Exc(Undefined, g, tr);
    assert EvalArgs(w, p, args, sh, n) == Exc(Undefined, g, tr);
    assert Exec(w, p, SEND, sh, n) == Exc(Undefined, g, tr);
    assert Invoke(w, p, H3, [], g, tr, n) == Exc(Undefined, g, tr);
    var s0 := State(g, Frame(P.params, [v], P.body), tr);
    assert EvalArgs(w, p, [], s0, n + 1) == Ok([], s0);
    CallStmt(w, p, H3, [], s0, n + 1);
    SingleStmt(w, p, CALL, s0, n + 1);
  }

  lemma P2Runs(w: World, v: Value, g: Globals, tr: Trace, n: nat)
    ensures var ef := w.call("g", [v], g, tr);
            Invoke(w, TableOf([P2]), P2, [v], g, tr, n)
            == if ef.throws then Exc(ef.v, ef.g, tr + ef.tr) else Ok(Undefined, State(ef.g, map[], tr + ef.tr))
  {
    var p := TableOf([P2]);
    assert [P2][1..] == [] && TableOf([]) == map[] && "g" !in p;
    BindAt(["x"], [v], 0);
    var s0 := State(g, Frame(P2.params, [v], P2.body), tr);
    var args := [Var("x")];
    assert args[1..] == [] && EvalArgs(w, p, [], s0, n) == Ok([], s0);
    assert Eval(w, p, Var("x"), s0, n) == Ok(v, s0);
    assert EvalArgs(w, p, args, s0, n) == Ok([v] + [], s0);
    assert [v] + [] == [v];
    assert Eval(w, p, SEND.e, s0, n) == Foreign(w.call("g", [v], g, tr), s0);
    TwoRun(w, p, SEND, ONE, s0, n);
  }

  // ----- default mode: a number under a field read -----

  /** `function h(n) { if (n.foo) return; last = n; }` */
  const H5 := Func("h", false, ["n"], [FIELD, KEEP])

  const FIELD := If(Get(Var("n"), "foo"), [Return], [])

  const KEEP := Do(Assign("last", Var("n")))

  const FIVE := Lit(Num(5))

  /** `export function main() { h(5); }` */
  const R := Func("main", true, [], [Do(Call("h", [FIVE]))])

  /** Default mode prints `if (!(5.foo)) { last = 5; }`, which is no program. Strict mode hoists the 5. */
  lemma NumberLosesDot()
    ensures Candidate([H5, R], H5, Opts)
    ensures var site := SiteOf(H5, [FIVE], {"h"}, false);
            var text := CombineGuards(Guards(H5.body), SiteSubst(H5, site));
            && Rewritten([H5, R], H5, false) == [R.(body := Replacement(H5, site))]
            && text == [TNot, TOpen, TLit(Num(5)), TDot("foo"), TClose]
            && Parse(text) == None
            && !Readable(Replacement(H5, site))
    ensures Readable(Replacement(H5, SiteOf(H5, [FIVE], {"h"}, true)))
  {
    hide Candidate, Rewritten, Replacement, SiteOf, Parse, Readable, CombineGuards, Reads, Accepted, NumberParams, Exprs,
      AnyReadsFrom, SiteSubst, AllParsed;
    H5Accepted();
    RewritesR();
    H5Reads();
    OneParsed(FIVE);
    SiteText(H5, [FIVE], {"h"}, false);
    SiteText(H5, [FIVE], {"h"}, true);
    NumberText();
  }

  lemma OneParsed(e: Expr)
    ensures AllParsed([e]) <==> Parsed(e)
  {
    hide Parsed;
    assert [e][0] == e;
  }

  lemma H5Shape()
    ensures Guards(H5.body) == [Get(Var("n"), "foo")] && Tail(H5.body) == [KEEP]
    ensures Decls(H5.body) == {} && Writes(H5.body) == {"last"} && NoEscapes(Tail(H5.body), false)
  {
    OneStmt(KEEP, NoSubst, H5);
    assert H5.body[1..] == [KEEP] && Guards([KEEP]) == [] && Tail([KEEP]) == [KEEP];
    assert Guards(H5.body) == [Get(Var("n"), "foo")] + [];
    BodyParts(H5.body);
    OneArg(Get(Var("n"), "foo"), NoSubst, H5);
  }

  lemma H5Refs()
    ensures RefsOk(H5.body, H5) && Sites(H5.body, H5) == 0 && DistinctDecls(H5.body)
    ensures Uses("n", H5.body) > 0
  {
    OneStmt(Return, NoSubst, H5);
    var none: seq<Stmt> := [];
    assert RefsOk(none, H5) && Sites(none, H5) == 0;
    assert FIELD.thn == [Return] && FIELD.els == none && NoCall(FIELD.c, H5);
    assert SSites(FIELD, H5) == Sites(FIELD.thn, H5) + Sites(FIELD.els, H5);
    assert NoCall(KEEP.e, H5) && !IsSite(KEEP, H5);
    TwoStmts(FIELD, KEEP, NoSubst, H5);
    assert SUses("n", FIELD) >= 1;
  }

  lemma H5Accepted()
    ensures Candidate([H5, R], H5, Opts) && WellScoped(H5)
  {
    hide CodeFree;
    H5Shape();
    H5Refs();
    RShape();
    PairAccepted(H5, R);
  }

  lemma RShape()
    ensures RefsOk(R.body, H5) && Sites(R.body, H5) == 1 && Names(R.body) == {"h"} && forall names :: Visible(R, H5, names)
  {
    var c := R.body[0];
    OneArg(FIVE, NoSubst, H5);
    OneStmt(c, NoSubst, H5);
    OneName(c, NoSubst, H5, {});
    assert R.body == [c];
    forall names ensures Visible(R, H5, names) {
      OneName(c, NoSubst, H5, names);
    }
  }

  lemma RewritesR()
    ensures Rewritten([H5, R], H5, false) == [R.(body := Replacement(H5, SiteOf(H5, [FIVE], {"h"}, false)))]
  {
    hide Replacement, Plans, NewNames;
    RShape();
    assert [H5, R][1..] == [R] && [R][1..] == [] && R.body[1..] == [];
    var site := SiteOf(H5, [FIVE], {"h"}, false);
    assert TSeq([], H5, {"h"} + NewNames(H5, site), false) == [];
    assert TSeq(R.body, H5, {"h"}, false) == Replacement(H5, site) + [] == Replacement(H5, site);
    assert TFunc(R, H5, false) == R.(body := Replacement(H5, site));
    assert Rewritten([R], H5, false) == [TFunc(R, H5, false)] + Rewritten([], H5, false);
  }

  lemma H5Reads()
    ensures AllParsed(Exprs(H5.body)) && NumberParams(H5, [FIVE]) == {"n"}
    ensures Reads(H5.body, {"n"}) && AnyReadsFrom(Guards(H5.body), {"n"}) && Guards(H5.body) != []
  {
    hide Exprs, Uses;
    H5Shape();
    H5Refs();
    H5Exprs();
    assert H5.params[0] == "n";
    BodyReads(H5.body, {"n"});
  }

  lemma H5Exprs()
    ensures AllParsed(Exprs(H5.body))
  {
    var a, b := Get(Var("n"), "foo"), KEEP.e;
    var none: seq<Stmt> := [];
    assert H5.body[1..] == [KEEP] && [KEEP][1..] == none && [Return][1..] == none && Exprs(none) == [];
    assert FIELD.thn == [Return] && FIELD.els == none && Exprs(FIELD.thn) == SExprs(Return) + Exprs(none) == [];
    assert Exprs([KEEP]) == [b] + Exprs(none) && SExprs(FIELD) == [a] + Exprs(FIELD.thn) + Exprs(none);
    assert Exprs(H5.body) == SExprs(FIELD) + Exprs([KEEP]) == [a, b];
    assert Parsed(a) && Parsed(b);
  }

  lemma NumberText()
    ensures CombineGuards(Guards(H5.body), SiteSubst(H5, SiteOf(H5, [FIVE], {"h"}, false)))
            == [TNot, TOpen, TLit(Num(5)), TDot("foo"), TClose]
  {
    H5Shape();
    H5Refs();
    var site := SiteOf(H5, [FIVE], {"h"}, false);
    assert H5.params[1..] == [] && [FIVE][1..] == [];
    assert Plans([], [], H5.body, {"h"} + Temps([Inline(FIVE)]), false) == [];
    assert site.plans == [Inline(FIVE)] + [] == [Inline(FIVE)];
    assert [Inline(FIVE)][1..] == [] && ArgMap([], []) == map[];
    var z := SiteSubst(H5, site);
    assert z.arg == map["n" := FIVE];
    var g := Get(Var("n"), "foo");
    assert ESubst(g, z) == Get(FIVE, "foo") && Render(FIVE) == [TLit(Num(5))];
    assert Render(ESubst(g, z)) == [TLit(Num(5)), TDot("foo")];
    assert CombineGuards([g], z) == Negate(g, z).text == [TNot, TOpen] + [TLit(Num(5)), TDot("foo")] + [TClose];
  }
}
