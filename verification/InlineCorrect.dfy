/**
 * Removing a helper keeps the meaning of the program, in both directions: a run of
 * one program that finishes is matched by a finishing run of the other.
 */
module InlineCorrect {
  import opened Wrappers
  import opened Script
  import opened ScriptFacts
  import opened FreshNames
  import opened GuardInversion
  import opened Inliner
  import opened InlineSim
  import opened InlineSite
  import opened InlineCall
  import opened InlineProgram
  import opened InlineFresh

  // ----- code without call sites is not rewritten -----

  lemma {:induction false} NoSitesStmt(c: Stmt, h: Func)
    requires SSites(c, h) == 0
    ensures TStmt(c, h, true) == c && SClean(c, h, true)
    decreases c, 0
  {
    match c
    case If(_, t, f) => NoSites(t, h, Names(t)); NoSites(f, h, Names(f));
    case Block(ss) => NoSites(ss, h, Names(ss));
    case While(_, b) => NoSites(b, h, Names(b));
    case _ =>
  }

  lemma {:induction false} NoSites(ss: seq<Stmt>, h: Func, taken: set<Name>)
    requires Sites(ss, h) == 0
    ensures TSeq(ss, h, taken, true) == ss && AllNew(ss, h, taken, true) == {} && Clean(ss, h, taken, true)
    decreases ss, 0
  {
    if ss != [] {
      NoSitesStmt(ss[0], h);
      NoSites(ss[1..], h, taken);
    }
  }

  /** Where nothing is called, nothing hides a name from a call. */
  lemma {:induction false} NoneHiddenStmt(c: Stmt, h: Func, names: set<Name>)
    requires SSites(c, h) == 0
    ensures SUnshadowed(c, h, names)
    decreases c, 0
  {
    match c
    case If(_, t, f) => NoneHidden(t, h, names); NoneHidden(f, h, names);
    case Block(ss) => NoneHidden(ss, h, names);
    case While(_, b) => NoneHidden(b, h, names);
    case _ =>
  }

  lemma {:induction false} NoneHidden(ss: seq<Stmt>, h: Func, names: set<Name>)
    requires Sites(ss, h) == 0
    ensures UnshadowedIn(ss, h, names)
    decreases ss, 0
  {
    if ss != [] {
      NoneHiddenStmt(ss[0], h, names);
      NoneHidden(ss[1..], h, names);
    }
  }

  // ----- declarations of a rewritten block -----

  lemma {:induction false} DeclsAppend(a: seq<Stmt>, b: seq<Stmt>)
    ensures Decls(a + b) == Decls(a) + Decls(b)
  {
    if a == [] {
      assert a + b == b;
    } else {
      assert (a + b)[1..] == a[1..] + b;
      DeclsAppend(a[1..], b);
    }
  }

  lemma {:induction false} PrefixDecls(plans: seq<Plan>)
    ensures Decls(Prefix(plans)) == Temps(plans)
  {
    if plans != [] {
      var here := match plans[0]
        case Keep(e) => [Do(e)]
        case Hoist(t, e) => [Const(t, e)]
        case _ => [];
      DeclsAppend(here, Prefix(plans[1..]));
      PrefixDecls(plans[1..]);
      assert here != [] ==> here[1..] == [];
    }
  }

  lemma ReplacementDecls(h: Func, site: Site)
    requires |site.plans| == |h.params| && SiteNames(h, site) && Decls(h.body) !! (set x | x in h.params)
    ensures Decls(Replacement(h, site)) == NewNames(h, site)
  {
    var z := SiteSubst(h, site);
    PrefixDecls(site.plans);
    var rest := if Guards(h.body) == [] then Substs(h.body, z)
                else [If(Condition(Guards(h.body), z), BSubst(Tail(h.body), z), [])];
    DeclsAppend(Prefix(site.plans), rest);
    if Guards(h.body) == [] {
      DeclsSubst(h.body, z);
    } else {
      assert rest[1..] == [];
    }
  }

  lemma {:induction false} TDecls(ss: seq<Stmt>, h: Func, taken: set<Name>)
    requires WellScoped(h) && RefsOk(ss, h)
    ensures Decls(TSeq(ss, h, taken, true)) == Decls(ss) + AllNew(ss, h, taken, true)
    decreases ss
  {
    if ss != [] {
      if IsSite(ss[0], h) {
        var site := SiteOf(h, ss[0].e.args, taken, true);
        SiteFresh(h, ss[0].e.args, taken, true);
        ReplacementDecls(h, site);
        DeclsAppend(Replacement(h, site), TSeq(ss[1..], h, taken + NewNames(h, site), true));
        TDecls(ss[1..], h, taken + NewNames(h, site));
      } else {
        var c := TStmt(ss[0], h, true);
        DeclsAppend([c], TSeq(ss[1..], h, taken, true));
        assert [c][1..] == [];
        TDecls(ss[1..], h, taken);
      }
    }
  }

  lemma {:induction false} AllNewOuter(ss: seq<Stmt>, h: Func, taken: set<Name>)
    requires WellScoped(h) && GuardsClean(h) && RefsOk(ss, h) && Clean(ss, h, taken, true)
    ensures AllNew(ss, h, taken, true) !! Outer(h)
    decreases ss
  {
    if ss != [] {
      if IsSite(ss[0], h) {
        var site := SiteOf(h, ss[0].e.args, taken, true);
        DeclsBinders(h.body);
        forall x | x in Decls(h.body)
          ensures Target(site, x) !in Outer(h)
        {
          if x in site.ren { assert site.ren[x] in site.ren.Values; }
        }
        AllNewOuter(ss[1..], h, taken + NewNames(h, site));
      } else {
        AllNewOuter(ss[1..], h, taken);
      }
    }
  }

  lemma {:induction false} FreeNames(ss: seq<Stmt>)
    ensures Free(ss) <= Names(ss)
  {
    if ss != [] {
      SFreeNames(ss[0]);
      FreeNames(ss[1..]);
    }
  }

  lemma {:induction false} SFreeNames(c: Stmt)
    ensures SFree(c) <= SNames(c)
  {
    match c
    case If(_, t, f) => FreeNames(t); FreeNames(f);
    case Block(ss) => FreeNames(ss);
    case While(_, b) => FreeNames(b);
    case _ =>
  }

  // ----- strict plans leave nothing lazy but literals -----

  lemma {:induction false} UnwrapLit(w: World, e: Expr, s: State)
    requires Unwrap(e).Lit?
    ensures ENames(e) == {} && Settled(w, e, s)
  {
    if e.Paren? {
      UnwrapLit(w, e.e, s);
    }
  }

  lemma {:induction false} StrictPlans(w: World, ps: seq<Name>, args: seq<Expr>, body: seq<Stmt>, taken: set<Name>,
                                       s: State, ws: set<Name>)
    ensures var plans := Plans(ps, args, body, taken, true);
            LazyOk(w, plans, s, ws, {}) && LazyNames(plans) == {}
  {
    if ps != [] {
      var plans := Plans(ps, args, body, taken, true);
      if plans[0].Lazy() {
        UnwrapLit(w, plans[0].e, s);
      }
      var rest := plans[1..];
      StrictPlans(w, ps[1..], if args == [] then [] else args[1..], body, taken + Temps([plans[0]]), s, ws);
      forall i | 0 <= i < |plans| && plans[i].Lazy()
        ensures Settled(w, plans[i].e, s) && ENames(plans[i].e) == {}
      {
        if i > 0 {
          assert plans[i] == rest[i - 1];
          LazyNamesAt(rest, i - 1);
        }
      }
    }
  }

  // ----- programs that may be rewritten -----

  /** Every reference is a call that can be replaced, and the name conditions hold. */
  predicate FuncOk(f: Func, h: Func) {
    RefsOk(f.body, h) && FuncClean(f, h)
  }

  ghost predicate Inlinable(w: World, p: Table, h: Func) {
    && h.name in p && p[h.name] == h
    && Accepted(h) && GuardsClean(h) && SafeGuards(w, Guards(h.body))
    && RefsOk(h.body, h) && Sites(h.body, h) == 0
    && (forall f :: f in p ==> FuncOk(p[f], h))
  }

  // ----- relating a run of the old program to a run of the new -----

  ghost predicate Agree(ns: set<Name>, so: State, sn: State) {
    && so.g == sn.g && so.tr == sn.tr
    && (forall x :: x in ns ==> (x in so.l <==> x in sn.l) && (x in so.l ==> so.l[x] == sn.l[x]))
  }

  ghost predicate KeptOutside(ns: set<Name>, s: State, t: State) {
    && t.l.Keys == s.l.Keys
    && (forall x :: x in s.l && x !in ns ==> t.l[x] == s.l[x])
  }

  ghost predicate Tied<T(!new)>(ns: set<Name>, touched: set<Name>, sn: State, ro: Outcome<T>, rn: Outcome<T>) {
    match ro
    case Div => false
    case Exc(v, g, tr) => rn == Exc(v, g, tr)
    case Ok(v, s) => rn.Ok? && rn.val == v && Agree(ns, s, rn.st) && KeptOutside(touched, sn, rn.st)
  }

  lemma KeptThen(n1: set<Name>, n2: set<Name>, s: State, t: State, u: State)
    requires KeptOutside(n1, s, t) && KeptOutside(n2, t, u)
    ensures KeptOutside(n1 + n2, s, u)
  {
  }

  lemma KeptMore(n1: set<Name>, n2: set<Name>, s: State, t: State)
    requires KeptOutside(n1, s, t) && n1 <= n2
    ensures KeptOutside(n2, s, t)
  {
  }

  /** Both sides take the same step on globals and trace. */
  lemma TiedForeign(ns: set<Name>, so: State, sn: State, ef: Effect)
    requires Agree(ns, so, sn)
    ensures Tied(ns, {}, sn, Foreign(ef, so), Foreign(ef, sn))
  {
  }

  lemma TiedWrite(ns: set<Name>, so: State, sn: State, x: Name, v: Value)
    requires Agree(ns, so, sn) && x in ns
    ensures Tied(ns, {x}, sn, Write(x, v, so), Write(x, v, sn))
  {
  }

  lemma TiedRead(ns: set<Name>, so: State, sn: State, x: Name)
    requires Agree(ns, so, sn) && x in ns
    ensures Tied(ns, {}, sn, Read(x, so), Read(x, sn))
  {
  }

  lemma SameGlobals(ns: set<Name>, so: State, sn: State)
    requires Agree(ns, so, sn)
    ensures so.g == sn.g && so.tr == sn.tr
  {
  }

  lemma TiedGlobals(ns: set<Name>, so: State, sn: State, g: Globals, tr: Trace)
    requires Agree(ns, so, sn)
    ensures Agree(ns, State(g, so.l, tr), State(g, sn.l, tr))
    ensures KeptOutside({}, sn, State(g, sn.l, tr))
  {
  }

  lemma KeptNothing(s: State)
    ensures KeptOutside({}, s, s)
  {
  }

  /** The direction of the argument: forwards a finished old run is given, backwards a
      finished new one. */
  predicate Finished<T>(back: bool, ro: Outcome<T>, rn: Outcome<T>) {
    if back then !rn.Div? else !ro.Div?
  }

  /** The other run needs at most this much fuel: none extra forwards; backwards, one
      more call level for every level that may contain a removed call. */
  predicate Fuels(back: bool, fo: nat, fn: nat, sites: nat) {
    if back then fo >= 2 * fn + (if sites > 0 then 1 else 0) else fn >= fo
  }

  lemma {:induction false} CarryExpr(w: World, p: Table, h: Func, back: bool, e: Expr, ns: set<Name>,
                                     so: State, sn: State, fo: nat, fn: nat)
    requires Inlinable(w, p, h) && NoCall(e, h) && ENames(e) <= ns && Agree(ns, so, sn) && Fuels(back, fo, fn, 0)
    requires Finished(back, Eval(w, p, e, so, fo), Eval(w, TTable(p, h, true), e, sn, fn))
    ensures Tied(ns, ENames(e), sn, Eval(w, p, e, so, fo), Eval(w, TTable(p, h, true), e, sn, fn))
    decreases if back then fn else fo, 0, e, 1
  {
    hide Inlinable, FuncOk, TFunc, Invoke, Agree, KeptOutside, Read, Write, Foreign;
    var q := TTable(p, h, true);
    match e
    case Lit(_) => KeptNothing(sn); KeptMore({}, ENames(e), sn, sn);
    case Var(x) =>
      TiedRead(ns, so, sn, x);
      var a, b := Read(x, so), Read(x, sn);
      if a.Ok? { KeptMore({}, ENames(e), sn, b.st); }
    case Paren(a) => CarryUnary(w, p, h, back, e, a, ns, so, sn, fo, fn);
    case Get(a, _) => CarryUnary(w, p, h, back, e, a, ns, so, sn, fo, fn);
    case Not(a) => CarryUnary(w, p, h, back, e, a, ns, so, sn, fo, fn);
    case Assign(_, a) => CarryUnary(w, p, h, back, e, a, ns, so, sn, fo, fn);
    case Call(f, args) => CarryCall(w, p, h, back, e, ns, so, sn, fo, fn);
    case And(l, r) => CarryPair(w, p, h, back, e, l, r, ns, so, sn, fo, fn);
    case Or(l, r) => CarryPair(w, p, h, back, e, l, r, ns, so, sn, fo, fn);
    case Cmp(_, l, r) => CarryPair(w, p, h, back, e, l, r, ns, so, sn, fo, fn);
  }

  lemma {:induction false} CarryUnary(w: World, p: Table, h: Func, back: bool, e: Expr, a: Expr, ns: set<Name>,
                                      so: State, sn: State, fo: nat, fn: nat)
    requires (e.Paren? && e.e == a) || (e.Not? && e.e == a) || (e.Get? && e.o == a) || (e.Assign? && e.e == a)
    requires Inlinable(w, p, h) && NoCall(e, h) && ENames(e) <= ns && Agree(ns, so, sn) && Fuels(back, fo, fn, 0)
    requires Finished(back, Eval(w, p, e, so, fo), Eval(w, TTable(p, h, true), e, sn, fn))
    ensures Tied(ns, ENames(e), sn, Eval(w, p, e, so, fo), Eval(w, TTable(p, h, true), e, sn, fn))
    decreases if back then fn else fo, 0, e, 0
  {
    hide Inlinable, FuncOk, TFunc, Invoke, Agree, KeptOutside, Read, Write, Foreign;
    CarryExpr(w, p, h, back, a, ns, so, sn, fo, fn);
    var r, r' := Eval(w, p, a, so, fo), Eval(w, TTable(p, h, true), a, sn, fn);
    if r.Ok? {
      KeptMore(ENames(a), ENames(e), sn, r'.st);
      SameGlobals(ns, r.st, r'.st);
      if e.Get? {
        var ef := w.get(r.val, e.field, r.st.g, r.st.tr);
        TiedForeign(ns, r.st, r'.st, ef);
        var u := Foreign(ef, r'.st);
        if u.Ok? { KeptThen(ENames(a), {}, sn, r'.st, u.st); KeptMore(ENames(a) + {}, ENames(e), sn, u.st); }
      } else if e.Assign? {
        TiedWrite(ns, r.st, r'.st, e.x, r.val);
        var u := Write(e.x, r.val, r'.st);
        if u.Ok? { KeptThen(ENames(a), {e.x}, sn, r'.st, u.st); KeptMore(ENames(a) + {e.x}, ENames(e), sn, u.st); }
      }
    }
  }

  lemma {:induction false} CarryCall(w: World, p: Table, h: Func, back: bool, e: Expr, ns: set<Name>,
                                     so: State, sn: State, fo: nat, fn: nat)
    requires e.Call?
    requires Inlinable(w, p, h) && NoCall(e, h) && ENames(e) <= ns && Agree(ns, so, sn) && Fuels(back, fo, fn, 0)
    requires Finished(back, Eval(w, p, e, so, fo), Eval(w, TTable(p, h, true), e, sn, fn))
    ensures Tied(ns, ENames(e), sn, Eval(w, p, e, so, fo), Eval(w, TTable(p, h, true), e, sn, fn))
    decreases if back then fn else fo, 0, e, 0
  {
    hide Inlinable, FuncOk, TFunc, Invoke, Agree, KeptOutside, Read, Write, Foreign;
    var q := TTable(p, h, true);
    var f, args := e.f, e.args;
    CarryArgs(w, p, h, back, args, ns, so, sn, fo, fn);
    var a, b := EvalArgs(w, p, args, so, fo), EvalArgs(w, q, args, sn, fn);
    if a.Ok? {
      SameGlobals(ns, a.st, b.st);
      KeptMore(ANames(args), ENames(e), sn, b.st);
      if f !in p {
        var ef := w.call(f, a.val, a.st.g, a.st.tr);
        TiedForeign(ns, a.st, b.st, ef);
        var u := Foreign(ef, b.st);
        if u.Ok? { KeptThen(ENames(e), {}, sn, b.st, u.st); KeptMore(ENames(e) + {}, ENames(e), sn, u.st); }
      } else if (if back then fn else fo) > 0 {
        FuncsOk(w, p, h, f);
        CarryInvoke(w, p, h, back, p[f], a.val, a.st.g, a.st.tr, fo - 1, fn - 1);
        var r := Invoke(w, p, p[f], a.val, a.st.g, a.st.tr, fo - 1);
        if r.Ok? {
          TiedGlobals(ns, a.st, b.st, r.st.g, r.st.tr);
          KeptThen(ENames(e), {}, sn, b.st, State(r.st.g, b.st.l, r.st.tr));
          KeptMore(ENames(e) + {}, ENames(e), sn, State(r.st.g, b.st.l, r.st.tr));
        }
      }
    }
  }

  lemma FuncsOk(w: World, p: Table, h: Func, f: Name)
    requires Inlinable(w, p, h) && f in p
    ensures FuncOk(p[f], h)
  {
  }

  lemma {:induction false} CarryPair(w: World, p: Table, h: Func, back: bool, e: Expr, l: Expr, r: Expr, ns: set<Name>,
                                     so: State, sn: State, fo: nat, fn: nat)
    requires (e.And? || e.Or? || e.Cmp?) && e.l == l && e.r == r
    requires Inlinable(w, p, h) && NoCall(e, h) && ENames(e) <= ns && Agree(ns, so, sn) && Fuels(back, fo, fn, 0)
    requires Finished(back, Eval(w, p, e, so, fo), Eval(w, TTable(p, h, true), e, sn, fn))
    ensures Tied(ns, ENames(e), sn, Eval(w, p, e, so, fo), Eval(w, TTable(p, h, true), e, sn, fn))
    decreases if back then fn else fo, 0, e, 0
  {
    hide Inlinable, FuncOk, TFunc, Invoke, Agree, KeptOutside, Read, Write, Foreign;
    var q := TTable(p, h, true);
    CarryExpr(w, p, h, back, l, ns, so, sn, fo, fn);
    var a, b := Eval(w, p, l, so, fo), Eval(w, q, l, sn, fn);
    if a.Ok? {
      KeptMore(ENames(l), ENames(e), sn, b.st);
      if e.Cmp? || Truthy(a.val) == e.And? {
        CarryExpr(w, p, h, back, r, ns, a.st, b.st, fo, fn);
        var u := Eval(w, q, r, b.st, fn);
        if u.Ok? { KeptThen(ENames(l), ENames(r), sn, b.st, u.st); }
      }
    }
  }

  lemma {:induction false} CarryArgs(w: World, p: Table, h: Func, back: bool, args: seq<Expr>, ns: set<Name>,
                                     so: State, sn: State, fo: nat, fn: nat)
    requires Inlinable(w, p, h) && NoCalls(args, h) && ANames(args) <= ns && Agree(ns, so, sn) && Fuels(back, fo, fn, 0)
    requires Finished(back, EvalArgs(w, p, args, so, fo), EvalArgs(w, TTable(p, h, true), args, sn, fn))
    ensures Tied(ns, ANames(args), sn, EvalArgs(w, p, args, so, fo), EvalArgs(w, TTable(p, h, true), args, sn, fn))
    decreases if back then fn else fo, 0, args, 0
  {
    hide Inlinable, FuncOk, TFunc, Invoke, Agree, KeptOutside, Read, Write, Foreign;
    if args == [] {
      KeptNothing(sn);
    } else {
      CarryExpr(w, p, h, back, args[0], ns, so, sn, fo, fn);
      var a, b := Eval(w, p, args[0], so, fo), Eval(w, TTable(p, h, true), args[0], sn, fn);
      if a.Ok? {
        CarryArgs(w, p, h, back, args[1..], ns, a.st, b.st, fo, fn);
        var u := EvalArgs(w, TTable(p, h, true), args[1..], b.st, fn);
        if u.Ok? { KeptThen(ENames(args[0]), ANames(args[1..]), sn, b.st, u.st); }
      }
    }
  }

  function Rank(sites: nat): nat {
    if sites > 0 then 1 else 0
  }

  lemma {:induction false} CarryInvoke(w: World, p: Table, h: Func, back: bool, f: Func, vs: seq<Value>, g: Globals, tr: Trace,
                                       fo: nat, fn: nat)
    requires Inlinable(w, p, h) && FuncOk(f, h) && Fuels(back, fo, fn, Sites(f.body, h))
    requires Finished(back, Invoke(w, p, f, vs, g, tr, fo), Invoke(w, TTable(p, h, true), TFunc(f, h, true), vs, g, tr, fn))
    ensures Invoke(w, p, f, vs, g, tr, fo) == Invoke(w, TTable(p, h, true), TFunc(f, h, true), vs, g, tr, fn)
    decreases if back then fn else fo, Rank(Sites(f.body, h)), f, 0
  {
    hide Inlinable, ListOk, Agree;
    var ns := Names(f.body);
    var so := State(g, Frame(f.params, vs, f.body), tr);
    var sn := State(g, Frame(f.params, vs, TBlock(f.body, h, true)), tr);
    WellScopedHelper(w, p, h);
    FrameOk(h, f, vs, g, tr);
    CarrySeq(w, p, h, back, f.body, ns, ns, so, sn, fo, fn);
    var a, b := ExecSeq(w, p, f.body, so, fo), ExecSeq(w, TTable(p, h, true), TBlock(f.body, h, true), sn, fn);
    if a.Ok? {
      SameGlobals(ns, a.st, b.st);
    }
  }

  lemma FrameOk(h: Func, f: Func, vs: seq<Value>, g: Globals, tr: Trace)
    requires WellScoped(h) && GuardsClean(h) && FuncOk(f, h)
    ensures var ns := Names(f.body);
            var sn := State(g, Frame(f.params, vs, TBlock(f.body, h, true)), tr);
            && Agree(ns, State(g, Frame(f.params, vs, f.body), tr), sn)
            && ListOk(h, f.body, ns, ns, sn)
  {
    var ns := Names(f.body);
    TDecls(f.body, h, ns);
    AllNewFresh(f.body, h, ns, true);
    AllNewOuter(f.body, h, ns);
    BindKeys(f.params, vs);
  }

  /** What holds of a list about to be rewritten inside its block. `taken`: reserved so far. */
  ghost predicate ListOk(h: Func, ss: seq<Stmt>, taken: set<Name>, ns: set<Name>, sn: State) {
    && RefsOk(ss, h) && UnshadowedIn(ss, h, Outer(h)) && Clean(ss, h, taken, true)
    && Names(ss) <= taken && Names(ss) <= ns
    && ns !! AllNew(ss, h, taken, true)
    && (forall x :: x in AllNew(ss, h, taken, true) ==> x in sn.l && sn.l[x] == None)
    && (Sites(ss, h) > 0 ==> Outer(h) !! sn.l.Keys)
    && Decls(ss) <= sn.l.Keys
  }

  lemma {:induction false} CarrySeq(w: World, p: Table, h: Func, back: bool, ss: seq<Stmt>, taken: set<Name>, ns: set<Name>,
                                    so: State, sn: State, fo: nat, fn: nat)
    requires Inlinable(w, p, h) && ListOk(h, ss, taken, ns, sn) && Agree(ns, so, sn) && Fuels(back, fo, fn, Sites(ss, h))
    requires Finished(back, ExecSeq(w, p, ss, so, fo), ExecSeq(w, TTable(p, h, true), TSeq(ss, h, taken, true), sn, fn))
    ensures Tied(ns, Names(ss) + AllNew(ss, h, taken, true), sn,
                 ExecSeq(w, p, ss, so, fo), ExecSeq(w, TTable(p, h, true), TSeq(ss, h, taken, true), sn, fn))
    decreases if back then fn else fo, Rank(Sites(ss, h)), ss, 2
  {
    hide Inlinable, ListOk, Agree, KeptOutside, SiteOf, Replacement, NewNames, Exec, TStmt, Names;
    var q := TTable(p, h, true);
    WellScopedHelper(w, p, h);
    if ss == [] {
      KeptNothing(sn);
      KeptMore({}, Names(ss) + AllNew(ss, h, taken, true), sn, sn);
    } else {
      var c, rest := ss[0], ss[1..];
      HeadOk(h, ss, taken, ns, sn);
      if IsSite(c, h) {
        CarrySeqSite(w, p, h, back, ss, taken, ns, so, sn, fo, fn);
      } else {
        ExecAppend(w, q, [TStmt(c, h, true)], TSeq(rest, h, taken, true), sn, fn);
        SingleStmt(w, q, TStmt(c, h, true), sn, fn);
        CarryStmt(w, p, h, back, c, ns, so, sn, fo, fn);
        var a, b := Exec(w, p, c, so, fo), Exec(w, q, TStmt(c, h, true), sn, fn);
        var all := Names(ss) + AllNew(ss, h, taken, true);
        SplitNames(ss, h, taken);
        if a.Ok? {
          KeptMore(SNames(c), all, sn, b.st);
          if a.val.Next? {
            RestOkStmt(h, ss, taken, ns, sn, b.st);
            CarrySeq(w, p, h, back, rest, taken, ns, a.st, b.st, fo, fn);
            var u := ExecSeq(w, q, TSeq(rest, h, taken, true), b.st, fn);
            if u.Ok? {
              KeptMore(Names(rest) + AllNew(rest, h, taken, true), all, b.st, u.st);
              KeptThen(all, all, sn, b.st, u.st);
              KeptMore(all + all, all, sn, u.st);
            }
          }
        }
      }
    }
  }

  lemma SplitNames(ss: seq<Stmt>, h: Func, taken: set<Name>)
    requires ss != []
    ensures Names(ss) == SNames(ss[0]) + Names(ss[1..])
    ensures !IsSite(ss[0], h) ==> AllNew(ss, h, taken, true) == AllNew(ss[1..], h, taken, true)
    ensures IsSite(ss[0], h) ==>
              var new' := NewNames(h, SiteOf(h, ss[0].e.args, taken, true));
              AllNew(ss, h, taken, true) == new' + AllNew(ss[1..], h, taken + new', true)
  {
  }

  lemma {:induction false} CarrySeqSite(w: World, p: Table, h: Func, back: bool, ss: seq<Stmt>, taken: set<Name>, ns: set<Name>,
                                        so: State, sn: State, fo: nat, fn: nat)
    requires ss != [] && IsSite(ss[0], h)
    requires Inlinable(w, p, h) && ListOk(h, ss, taken, ns, sn) && Agree(ns, so, sn) && Fuels(back, fo, fn, Sites(ss, h))
    requires Finished(back, ExecSeq(w, p, ss, so, fo), ExecSeq(w, TTable(p, h, true), TSeq(ss, h, taken, true), sn, fn))
    ensures Tied(ns, Names(ss) + AllNew(ss, h, taken, true), sn,
                 ExecSeq(w, p, ss, so, fo), ExecSeq(w, TTable(p, h, true), TSeq(ss, h, taken, true), sn, fn))
    decreases if back then fn else fo, 1, ss, 1
  {
    hide Inlinable, ListOk, Agree, KeptOutside, SiteOf, Replacement, NewNames, Exec, Names, AllNew;
    var q := TTable(p, h, true);
    var c, rest := ss[0], ss[1..];
    var site := SiteOf(h, c.e.args, taken, true);
    SiteLength(h, c.e.args, taken);
    var taken' := taken + NewNames(h, site);
    WellScopedHelper(w, p, h);
    ExecAppend(w, q, Replacement(h, site), TSeq(rest, h, taken', true), sn, fn);
    CarrySite(w, p, h, back, ss, taken, ns, so, sn, fo, fn);
    var a, b := Exec(w, p, c, so, fo), ExecSeq(w, q, Replacement(h, site), sn, fn);
    var all := Names(ss) + AllNew(ss, h, taken, true);
    SplitNames(ss, h, taken);
    if a.Ok? {
      RestOkSite(h, ss, taken, ns, sn, b.st);
      CarrySeq(w, p, h, back, rest, taken', ns, a.st, b.st, fo, fn);
      var u := ExecSeq(w, q, TSeq(rest, h, taken', true), b.st, fn);
      KeptMore(SNames(c) + NewNames(h, site), all, sn, b.st);
      if u.Ok? {
        KeptMore(Names(rest) + AllNew(rest, h, taken', true), all, b.st, u.st);
        KeptThen(all, all, sn, b.st, u.st);
        KeptMore(all + all, all, sn, u.st);
      }
    }
  }

  lemma SiteLength(h: Func, args: seq<Expr>, taken: set<Name>)
    ensures |SiteOf(h, args, taken, true).plans| == |h.params|
  {
  }

  lemma HeadOk(h: Func, ss: seq<Stmt>, taken: set<Name>, ns: set<Name>, sn: State)
    requires ss != [] && ListOk(h, ss, taken, ns, sn)
    ensures SRefsOk(ss[0], h) && SUnshadowed(ss[0], h, Outer(h)) && SNames(ss[0]) <= ns
    ensures IsSite(ss[0], h) || SClean(ss[0], h, true)
    ensures SSites(ss[0], h) > 0 ==> Outer(h) !! sn.l.Keys
    ensures ss[0].Const? ==> ss[0].x in sn.l
  {
  }

  lemma RestOkSite(h: Func, ss: seq<Stmt>, taken: set<Name>, ns: set<Name>, sn: State, sn1: State)
    requires WellScoped(h) && ss != [] && IsSite(ss[0], h) && ListOk(h, ss, taken, ns, sn)
    requires KeptOutside(SNames(ss[0]) + NewNames(h, SiteOf(h, ss[0].e.args, taken, true)), sn, sn1)
    ensures ListOk(h, ss[1..], taken + NewNames(h, SiteOf(h, ss[0].e.args, taken, true)), ns, sn1)
  {
    SiteRefs(ss, h);
    var taken' := taken + NewNames(h, SiteOf(h, ss[0].e.args, taken, true));
    AllNewFresh(ss[1..], h, taken', true);
  }

  lemma RestOkStmt(h: Func, ss: seq<Stmt>, taken: set<Name>, ns: set<Name>, sn: State, sn1: State)
    requires WellScoped(h) && ss != [] && !IsSite(ss[0], h) && ListOk(h, ss, taken, ns, sn)
    requires KeptOutside(SNames(ss[0]), sn, sn1)
    ensures ListOk(h, ss[1..], taken, ns, sn1)
  {
    AllNewFresh(ss[1..], h, taken, true);
  }

  lemma SiteRefs(ss: seq<Stmt>, h: Func)
    requires ss != [] && IsSite(ss[0], h) && RefsOk(ss, h)
    ensures NoCalls(ss[0].e.args, h) && |ss[0].e.args| <= |h.params|
    ensures SNames(ss[0]) == {h.name} + ANames(ss[0].e.args) && SNames(ss[0]) <= Names(ss)
  {
    assert SRefsOk(ss[0], h);
  }

  lemma WellScopedHelper(w: World, p: Table, h: Func)
    requires Inlinable(w, p, h)
    ensures WellScoped(h) && GuardsClean(h)
  {
  }

  lemma SingleStmt(w: World, p: Table, c: Stmt, s: State, n: nat)
    ensures ExecSeq(w, p, [c], s, n) == Exec(w, p, c, s, n)
  {
    assert [c][1..] == [];
    var r := Exec(w, p, c, s, n);
    if r.Ok? && r.val.Next? {
      assert ExecSeq(w, p, [], r.st, n) == Ok(Next, r.st);
    }
  }

  lemma {:induction false} CarryStmt(w: World, p: Table, h: Func, back: bool, c: Stmt, ns: set<Name>,
                                     so: State, sn: State, fo: nat, fn: nat)
    requires Inlinable(w, p, h) && !IsSite(c, h) && SRefsOk(c, h) && SUnshadowed(c, h, Outer(h)) && SClean(c, h, true)
    requires SNames(c) <= ns && Agree(ns, so, sn) && Fuels(back, fo, fn, SSites(c, h))
    requires SSites(c, h) > 0 ==> Outer(h) !! sn.l.Keys
    requires c.Const? ==> c.x in sn.l
    requires Finished(back, Exec(w, p, c, so, fo), Exec(w, TTable(p, h, true), TStmt(c, h, true), sn, fn))
    ensures Tied(ns, SNames(c), sn, Exec(w, p, c, so, fo), Exec(w, TTable(p, h, true), TStmt(c, h, true), sn, fn))
    decreases if back then fn else fo, Rank(SSites(c, h)), c, 1

  {
    hide Inlinable, FuncOk, TFunc, Invoke, Agree, KeptOutside, Read, Write, Foreign;
    var q := TTable(p, h, true);
    match c
    case Do(e) => CarryExprStmt(w, p, h, back, c, e, ns, so, sn, fo, fn);
    case Const(_, e) => CarryExprStmt(w, p, h, back, c, e, ns, so, sn, fo, fn);
    case ReturnVal(e) => CarryExprStmt(w, p, h, back, c, e, ns, so, sn, fo, fn);
    case If(e, t, f) => CarryIf(w, p, h, back, c, ns, so, sn, fo, fn);
    case Block(ss) => CarryBlock(w, p, h, back, ss, ns, so, sn, fo, fn);
    case While(e, body) => CarryWhile(w, p, h, back, c, ns, so, sn, fo, fn);
    case _ => KeptNothing(sn);
  }

  lemma TiedInit(ns: set<Name>, so: State, sn: State, x: Name, v: Value)
    requires Agree(ns, so, sn) && x in ns && x in sn.l
    ensures Agree(ns, so.(l := so.l[x := Some(v)]), sn.(l := sn.l[x := Some(v)]))
    ensures KeptOutside({x}, sn, sn.(l := sn.l[x := Some(v)]))
  {
  }

  lemma {:induction false} CarryExprStmt(w: World, p: Table, h: Func, back: bool, c: Stmt, e: Expr, ns: set<Name>,
                                         so: State, sn: State, fo: nat, fn: nat)
    requires (c.Do? || c.Const? || c.ReturnVal?) && c.e == e
    requires Inlinable(w, p, h) && !IsSite(c, h) && SRefsOk(c, h)
    requires SNames(c) <= ns && Agree(ns, so, sn) && Fuels(back, fo, fn, SSites(c, h))
    requires c.Const? ==> c.x in sn.l
    requires Finished(back, Exec(w, p, c, so, fo), Exec(w, TTable(p, h, true), TStmt(c, h, true), sn, fn))
    ensures Tied(ns, SNames(c), sn, Exec(w, p, c, so, fo), Exec(w, TTable(p, h, true), TStmt(c, h, true), sn, fn))
    decreases if back then fn else fo, Rank(SSites(c, h)), c, 0
  {
    hide Inlinable, FuncOk, TFunc, Invoke, Agree, Read, Write, Foreign;
    CarryExpr(w, p, h, back, e, ns, so, sn, fo, fn);
    var a, b := Eval(w, p, e, so, fo), Eval(w, TTable(p, h, true), e, sn, fn);
    if a.Ok? && c.Const? {
      TiedInit(ns, a.st, b.st, c.x, a.val);
    }
  }

  lemma {:induction false} CarryIf(w: World, p: Table, h: Func, back: bool, c: Stmt, ns: set<Name>,
                                   so: State, sn: State, fo: nat, fn: nat)
    requires c.If?
    requires Inlinable(w, p, h) && SRefsOk(c, h) && SUnshadowed(c, h, Outer(h)) && SClean(c, h, true)
    requires SNames(c) <= ns && Agree(ns, so, sn) && Fuels(back, fo, fn, SSites(c, h))
    requires SSites(c, h) > 0 ==> Outer(h) !! sn.l.Keys
    requires Finished(back, Exec(w, p, c, so, fo), Exec(w, TTable(p, h, true), TStmt(c, h, true), sn, fn))
    ensures Tied(ns, SNames(c), sn, Exec(w, p, c, so, fo), Exec(w, TTable(p, h, true), TStmt(c, h, true), sn, fn))
    decreases if back then fn else fo, Rank(SSites(c, h)), c, 0
  {
    hide Inlinable, FuncOk, TFunc, Invoke, Agree, KeptOutside, ExecBlock, TBlock;
    var q := TTable(p, h, true);
    CarryExpr(w, p, h, back, c.c, ns, so, sn, fo, fn);
    var a, b := Eval(w, p, c.c, so, fo), Eval(w, q, c.c, sn, fn);
    if a.Ok? {
      SameKeys(ENames(c.c), sn, b.st);
      KeptMore(ENames(c.c), SNames(c), sn, b.st);
      var ss := if Truthy(a.val) then c.thn else c.els;
      CarryBlock(w, p, h, back, ss, ns, a.st, b.st, fo, fn);
      var u := ExecBlock(w, q, TBlock(ss, h, true), b.st, fn);
      if u.Ok? {
        KeptThen(ENames(c.c), Names(ss), sn, b.st, u.st);
        KeptMore(ENames(c.c) + Names(ss), SNames(c), sn, u.st);
      }
    }
  }

  lemma SameKeys(ns: set<Name>, s: State, t: State)
    requires KeptOutside(ns, s, t)
    ensures t.l.Keys == s.l.Keys
  {
  }

  lemma {:induction false} CarryWhile(w: World, p: Table, h: Func, back: bool, c: Stmt, ns: set<Name>,
                                      so: State, sn: State, fo: nat, fn: nat)
    requires c.While?
    requires Inlinable(w, p, h) && SRefsOk(c, h) && SUnshadowed(c, h, Outer(h)) && SClean(c, h, true)
    requires SNames(c) <= ns && Agree(ns, so, sn) && Fuels(back, fo, fn, SSites(c, h))
    requires SSites(c, h) > 0 ==> Outer(h) !! sn.l.Keys
    requires Finished(back, Exec(w, p, c, so, fo), Exec(w, TTable(p, h, true), TStmt(c, h, true), sn, fn))
    ensures Tied(ns, SNames(c), sn, Exec(w, p, c, so, fo), Exec(w, TTable(p, h, true), TStmt(c, h, true), sn, fn))
    decreases if back then fn else fo, Rank(SSites(c, h)), c, 0
  {
    hide Inlinable, FuncOk, TFunc, Invoke, Agree, KeptOutside, ExecBlock, TBlock;
    var q := TTable(p, h, true);
    CarryExpr(w, p, h, back, c.c, ns, so, sn, fo, fn);
    var a, b := Eval(w, p, c.c, so, fo), Eval(w, q, c.c, sn, fn);
    if a.Ok? {
      SameKeys(ENames(c.c), sn, b.st);
      KeptMore(ENames(c.c), SNames(c), sn, b.st);
      if Truthy(a.val) {
        CarryBlock(w, p, h, back, c.body, ns, a.st, b.st, fo, fn);
        var a', b' := ExecBlock(w, p, c.body, a.st, fo), ExecBlock(w, q, TBlock(c.body, h, true), b.st, fn);
        if a'.Ok? {
          KeptThen(ENames(c.c), Names(c.body), sn, b.st, b'.st);
          SameKeys(Names(c.body), b.st, b'.st);
          if !a'.val.Brk? && !a'.val.Ret? && (if back then fn else fo) > 0 {
            CarryWhile(w, p, h, back, c, ns, a'.st, b'.st, fo - 1, fn - 1);
            var u := Exec(w, q, TStmt(c, h, true), b'.st, fn - 1);
            if u.Ok? {
              KeptThen(SNames(c), SNames(c), sn, b'.st, u.st);
              KeptMore(SNames(c) + SNames(c), SNames(c), sn, u.st);
            }
          }
        }
      }
    }
  }

  lemma {:induction false} CarryBlock(w: World, p: Table, h: Func, back: bool, ss: seq<Stmt>, ns: set<Name>,
                                      so: State, sn: State, fo: nat, fn: nat)
    requires Inlinable(w, p, h) && RefsOk(ss, h) && Unshadowed(ss, h, Outer(h)) && Clean(ss, h, Names(ss), true)
    requires Names(ss) <= ns && Agree(ns, so, sn) && Fuels(back, fo, fn, Sites(ss, h))
    requires Sites(ss, h) > 0 ==> Outer(h) !! sn.l.Keys
    requires Finished(back, ExecBlock(w, p, ss, so, fo), ExecBlock(w, TTable(p, h, true), TBlock(ss, h, true), sn, fn))
    ensures Tied(ns, Names(ss), sn, ExecBlock(w, p, ss, so, fo), ExecBlock(w, TTable(p, h, true), TBlock(ss, h, true), sn, fn))
    decreases if back then fn else fo, Rank(Sites(ss, h)), ss, 3
  {
    hide Inlinable, ListOk;
    var q := TTable(p, h, true);
    var added := AllNew(ss, h, Names(ss), true);
    var d, d' := Decls(ss), Decls(TBlock(ss, h, true));
    var so', sn' := Enter(so, d), Enter(sn, d');
    WellScopedHelper(w, p, h);
    BlockOk(h, ss, ns, so, sn);
    CarrySeq(w, p, h, back, ss, Names(ss), ns - added, so', sn', fo, fn);
    NoStable(w, p, Writes(ss), so');
    FrameSeq(w, p, ss, so', fo, {});
    WritesFree(ss);
    FreeNames(ss);
    var a, b := ExecSeq(w, p, ss, so', fo), ExecSeq(w, q, TSeq(ss, h, Names(ss), true), sn', fn);
    if a.Ok? {
      LeaveTied(ss, ns, added, so, sn, a.st, b.st, d, d');
    }
  }

  lemma BlockOk(h: Func, ss: seq<Stmt>, ns: set<Name>, so: State, sn: State)
    requires WellScoped(h) && GuardsClean(h)
    requires RefsOk(ss, h) && Unshadowed(ss, h, Outer(h)) && Clean(ss, h, Names(ss), true)
    requires Names(ss) <= ns && Agree(ns, so, sn)
    requires Sites(ss, h) > 0 ==> Outer(h) !! sn.l.Keys
    ensures var added := AllNew(ss, h, Names(ss), true);
            var d' := Decls(TBlock(ss, h, true));
            && d' == Decls(ss) + added && Decls(ss) <= Names(ss) && Names(ss) !! added
            && ListOk(h, ss, Names(ss), ns - added, Enter(sn, d'))
            && Agree(ns - added, Enter(so, Decls(ss)), Enter(sn, d'))
  {
    TDecls(ss, h, Names(ss));
    AllNewFresh(ss, h, Names(ss), true);
    AllNewOuter(ss, h, Names(ss));
    DeclsNames(ss);
  }

  lemma {:induction false} DeclsNames(ss: seq<Stmt>)
    ensures Decls(ss) <= Names(ss)
  {
    if ss != [] {
      DeclsNames(ss[1..]);
    }
  }

  lemma LeaveTied(ss: seq<Stmt>, ns: set<Name>, added: set<Name>, so: State, sn: State, so1: State, sn1: State,
                  d: set<Name>, d': set<Name>)
    requires d' == d + added && d <= Names(ss) <= ns && Names(ss) !! added && Agree(ns, so, sn)
    requires Agree(ns - added, so1, sn1) && KeptOutside(Names(ss) + added, Enter(sn, d'), sn1)
    requires KeptOutside(Names(ss), Enter(so, d), so1)
    ensures Agree(ns, Leave(so, d, so1), Leave(sn, d', sn1))
    ensures KeptOutside(Names(ss), sn, Leave(sn, d', sn1))
  {
    var so2, sn2 := Leave(so, d, so1), Leave(sn, d', sn1);
    forall x | x in ns && x in so.l
      ensures so2.l[x] == sn2.l[x]
    {
      if x in d {
      } else if x in added {
        assert x in Enter(so, d).l && so1.l[x] == so.l[x];
      } else {
        assert x in so1.l && x in sn1.l;
      }
    }
  }

  /** One call site: the call in the old program against the replacement in the new. */
  lemma {:induction false} CarrySite(w: World, p: Table, h: Func, back: bool, ss: seq<Stmt>, taken: set<Name>, ns: set<Name>,
                                     so: State, sn: State, fo: nat, fn: nat)
    requires Inlinable(w, p, h) && ss != [] && IsSite(ss[0], h) && ListOk(h, ss, taken, ns, sn) && Agree(ns, so, sn)
    requires Fuels(back, fo, fn, 1)
    requires var site := SiteOf(h, ss[0].e.args, taken, true);
             Finished(back, Exec(w, p, ss[0], so, fo), ExecSeq(w, TTable(p, h, true), Replacement(h, site), sn, fn))
    ensures var site := SiteOf(h, ss[0].e.args, taken, true);
            var ro, rn := Exec(w, p, ss[0], so, fo), ExecSeq(w, TTable(p, h, true), Replacement(h, site), sn, fn);
            && Tied(ns, SNames(ss[0]) + NewNames(h, site), sn, ro, rn)
            && (ro.Ok? ==> ro.val.Next?)
    decreases if back then fn else fo, 1, ss, 0
  {
    hide Inlinable, ListOk, SiteOf, Replacement, NewNames, Names, TFunc, Agree, KeptOutside, CallOutcome, Exec, Invoke;
    var q := TTable(p, h, true);
    var args := ss[0].e.args;
    var site := SiteOf(h, args, taken, true);
    SiteOutcome(w, p, h, ss, taken, ns, sn, fn);
    var a, b := EvalArgs(w, p, args, so, fo), EvalArgs(w, q, args, sn, fn);
    var rn := ExecSeq(w, q, Replacement(h, site), sn, fn);
    SiteHead(h, ss, taken, ns, sn);
    HelperOk(w, p, h);
    CallStmt(w, p, h, args, so, fo);
    CallDiverges(h, site, b, CallResult(w, q, h, b, fn), rn);
    CarryArgs(w, p, h, back, args, ns, so, sn, fo, fn);
    if a.Ok? {
      if fo > 0 {
        SameGlobals(ns, a.st, b.st);
        NoSites(h.body, h, Names(h.body));
        SameFunc(h);
        CarryInvoke(w, p, h, back, h, a.val, a.st.g, a.st.tr, fo - 1, fn);
        var r := Invoke(w, p, h, a.val, a.st.g, a.st.tr, fo - 1);
        SiteTied(h, site, args, ns, sn, a, b, r, rn);
      }
    } else {
      SiteThrows(h, site, b, CallResult(w, q, h, b, fn), rn);
    }
  }

  lemma SameFunc(h: Func)
    requires TSeq(h.body, h, Names(h.body), true) == h.body
    ensures TFunc(h, h, true) == h
  {
  }

  lemma CallDiverges(h: Func, site: Site, b: Outcome<seq<Value>>, r: Outcome<Value>, rn: Outcome<Signal>)
    requires CallOutcome(h, site, b, r, rn)
    ensures b.Div? || (b.Ok? && r.Div?) ==> rn.Div?
  {
  }

  lemma SiteThrows(h: Func, site: Site, b: Outcome<seq<Value>>, r: Outcome<Value>, rn: Outcome<Signal>)
    requires CallOutcome(h, site, b, r, rn) && b.Exc?
    ensures rn == Exc(b.thrown, b.g, b.tr)
  {
  }

  lemma SiteTied(h: Func, site: Site, args: seq<Expr>, ns: set<Name>, sn: State,
                 a: Outcome<seq<Value>>, b: Outcome<seq<Value>>, r: Outcome<Value>, rn: Outcome<Signal>)
    requires a.Ok? && !r.Div? && Tied(ns, ANames(args), sn, a, b) && CallOutcome(h, site, b, r, rn)
    requires NewNames(h, site) !! ns
    ensures if r.Ok?
            then Tied(ns, {h.name} + ANames(args) + NewNames(h, site), sn, Ok(Next, State(r.st.g, a.st.l, r.st.tr)), rn)
            else rn == Exc(r.thrown, r.g, r.tr)
  {
    hide NewNames;
  }

  /** What `ListOk` says about a site at the head of the list. */
  lemma SiteHead(h: Func, ss: seq<Stmt>, taken: set<Name>, ns: set<Name>, sn: State)
    requires ss != [] && IsSite(ss[0], h) && ListOk(h, ss, taken, ns, sn)
    ensures var args := ss[0].e.args;
            var site := SiteOf(h, args, taken, true);
            && NoCalls(args, h) && |args| <= |h.params| && ANames(args) <= taken && ANames(args) <= ns
            && SNames(ss[0]) == {h.name} + ANames(args)
            && Outer(h) !! sn.l.Keys
            && (forall x :: x in NewNames(h, site) ==> x in sn.l && sn.l[x] == None)
            && NewNames(h, site) !! ns
            && NamesClean(h, site)
  {
    hide NewNames, SiteOf;
    SiteRefs(ss, h);
    SplitNames(ss, h, taken);
    assert SSites(ss[0], h) == 1;
    assert Clean(ss, h, taken, true);
  }

  lemma HelperOk(w: World, p: Table, h: Func)
    requires Inlinable(w, p, h)
    ensures h.name in p && p[h.name] == h && FuncOk(h, h) && Sites(h.body, h) == 0
  {
  }

  /** The replacement at a site of a list being rewritten, in the new program. */
  lemma SiteOutcome(w: World, p: Table, h: Func, ss: seq<Stmt>, taken: set<Name>, ns: set<Name>, sn: State, fn: nat)
    requires Inlinable(w, p, h) && ss != [] && IsSite(ss[0], h) && ListOk(h, ss, taken, ns, sn)
    ensures var q, args := TTable(p, h, true), ss[0].e.args;
            var site := SiteOf(h, args, taken, true);
            var a := EvalArgs(w, q, args, sn, fn);
            && |site.plans| == |h.params|
            && CallOutcome(h, site, a, CallResult(w, q, h, a, fn), ExecSeq(w, q, Replacement(h, site), sn, fn))
            && NewNames(h, site) !! ns
  {
    hide CallReady, SiteNames, FuncOk, NamesReady, SiteOf, Replacement, NewNames, SafeGuards, AllNew;
    SplitNames(ss, h, taken);
    var args := ss[0].e.args;
    var site := SiteOf(h, args, taken, true);
    SiteHead(h, ss, taken, ns, sn);
    SiteFresh(h, args, taken, true);
    SiteNamesReady(h, args, taken, site, sn);
    SiteReady(w, p, h, args, taken, site, sn);
    CallSite(w, TTable(p, h, true), h, args, site, sn, fn, {});
  }

  lemma CallStmt(w: World, p: Table, h: Func, args: seq<Expr>, s: State, n: nat)
    requires h.name in p && p[h.name] == h
    ensures Exec(w, p, Do(Call(h.name, args)), s, n) ==
            var (vs, s1) :- EvalArgs(w, p, args, s, n);
            if n == 0 then Div
            else
              var (v, s2) :- Invoke(w, p, h, vs, s1.g, s1.tr, n - 1);
              Ok(Next, State(s2.g, s1.l, s2.tr))
  {
    var e := Call(h.name, args);
    assert Exec(w, p, Do(e), s, n) == var (_, s1) :- Eval(w, p, e, s, n); Ok(Next, s1);
  }

  lemma SiteNamesReady(h: Func, args: seq<Expr>, taken: set<Name>, site: Site, sn: State)
    requires WellScoped(h) && site == SiteOf(h, args, taken, true) && |args| <= |h.params|
    requires ANames(args) <= taken && Outer(h) !! sn.l.Keys
    requires forall x :: x in NewNames(h, site) ==> x in sn.l && sn.l[x] == None
    ensures NamesReady(h, args, site, sn)
  {
    hide SiteNames, SiteOf, NewNames, ForArgs, Outer;
    SiteFresh(h, args, taken, true);
    TargetsNew(h, site);
  }

  lemma SiteReady(w: World, p: Table, h: Func, args: seq<Expr>, taken: set<Name>, site: Site, sn: State)
    requires Inlinable(w, p, h) && site == SiteOf(h, args, taken, true) && NamesReady(h, args, site, sn)
    ensures CallReady(w, TTable(p, h, true), h, args, site, sn, {})
  {
    hide LazyOk, Stable, SafeGuards, Guarded, GuardsClean, FuncOk, Accepted, NamesReady;
    StrictPlans(w, h.params, args, h.body, taken, sn, AWrites(args));
    NoStable(w, TTable(p, h, true), AWrites(args), sn);
  }

  lemma TargetsNew(h: Func, site: Site)
    ensures Guards(h.body) == [] ==> forall x :: x in Decls(h.body) ==> Target(site, x) in NewNames(h, site)
  {
  }
}
