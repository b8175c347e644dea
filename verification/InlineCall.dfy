/**
 * A helper call and its replacement: same effects, same exceptions, same globals,
 * and the caller's own locals end up the same.
 */
module InlineCall {
  import opened Wrappers
  import opened Script
  import opened ScriptText
  import opened ScriptFacts
  import opened GuardInversion
  import opened Inliner
  import opened InlineSim
  import opened InlineSite

  // ----- the shape `analyze` accepts, and what it leaves to the caller -----

  /** `analyze` on the helper alone: parameters never written, no jump out of the tail. */
  predicate Accepted(h: Func) {
    && WellScoped(h)
    && Tail(h.body) != []
    && NoEscapes(Tail(h.body), false)
    && Writes(h.body) !! (set x | x in h.params)
  }

  predicate FlipsRelation(e: Expr) {
    match e
    case Paren(a) => FlipsRelation(a)
    case Cmp(op, _, _) => Relational(op)
    case And(l, r) => FlipsRelation(l) || FlipsRelation(r)
    case Or(l, r) => FlipsRelation(l) || FlipsRelation(r)
    case _ => false
  }

  /** Relational flips need a total order on the values; other guards need nothing. */
  ghost predicate SafeGuards(w: World, gs: seq<Expr>) {
    || (forall u, v :: !w.order(u, v).Unordered?)
    || (forall i :: 0 <= i < |gs| ==> !FlipsRelation(gs[i]))
  }

  /** Facts about the names of a site that hold by construction. */
  ghost predicate SiteNames(h: Func, site: Site) {
    && |site.plans| == |h.params|
    && DistinctTemps(site.plans)
    && site.ren.Keys <= Decls(h.body)
    && (Guards(h.body) != [] ==> site.ren == map[])
    && (forall x, y :: x in site.ren && y in site.ren && x != y ==> site.ren[x] != site.ren[y])
    && site.ren.Values !! Temps(site.plans)
    && (Guards(h.body) == [] ==> Decls(h.body) - site.ren.Keys !! Temps(site.plans) + site.ren.Values)
    && (forall i :: 0 <= i < |h.params| && (site.plans[i].Skip? || site.plans[i].Drop? || site.plans[i].Keep?) ==>
          Uses(h.params[i], h.body) == 0)
  }

  /** The block of the call: the names a replacement adds are declared there, still
      uninitialised, unmentioned by the arguments, and the helper's module names are visible. */
  ghost predicate NamesReady(h: Func, args: seq<Expr>, site: Site, s: State) {
    && ForArgs(site.plans, args)
    && NewNames(h, site) <= s.l.Keys
    && NewNames(h, site) !! ANames(args)
    && (Guards(h.body) == [] ==> forall x :: x in Decls(h.body) ==> s.l[Target(site, x)] == None)
    && Outer(h) !! s.l.Keys
  }

  /** The caller's state at the call. `gs`: globals the lazily evaluated arguments read;
      nothing may write those, nor any local such an argument reads. */
  ghost predicate CallReady(w: World, p: Table, h: Func, args: seq<Expr>, site: Site, s: State, gs: set<Name>) {
    && NamesReady(h, args, site, s)
    && Stable(w, p, gs)
    && Guarded(AWrites(args), gs, s)
    && LazyOk(w, site.plans, s, AWrites(args), gs)
    && LazyNames(site.plans) !! Binders(h.body)
    && gs !! Writes(h.body)
    && SafeGuards(w, Guards(h.body))
  }

  /** The name a direct local of a guardless helper has in the caller's block. */
  function Target(site: Site, x: Name): Name {
    if x in site.ren then site.ren[x] else x
  }

  function LazyNames(plans: seq<Plan>): set<Name> {
    if plans == [] then {}
    else (if plans[0].Lazy() then ENames(plans[0].e) else {}) + LazyNames(plans[1..])
  }

  lemma {:induction false} LazyNamesAt(plans: seq<Plan>, i: nat)
    requires i < |plans| && plans[i].Lazy()
    ensures ENames(plans[i].e) <= LazyNames(plans)
  {
    if i > 0 {
      LazyNamesAt(plans[1..], i - 1);
    }
  }

  lemma {:induction false} TempsAt(plans: seq<Plan>, i: nat)
    requires i < |plans| && plans[i].Hoist?
    ensures plans[i].temp in Temps(plans)
  {
    if i > 0 {
      TempsAt(plans[1..], i - 1);
    }
  }

  // ----- guards, then tail -----

  lemma TrivialBlocks(w: World, p: Table, s: State, n: nat)
    ensures ExecBlock(w, p, [Return], s, n) == Ok(Ret(Undefined), s)
    ensures ExecBlock(w, p, [], s, n) == Ok(Next, s)
  {
    assert Decls([Return]) == {} && Decls([]) == {};
    assert Enter(s, {}) == s by { assert Enter(s, {}).l == s.l; }
    assert Leave(s, {}, s) == s by { assert Leave(s, {}, s).l == s.l; }
    assert Exec(w, p, Return, s, n) == Ok(Ret(Undefined), s);
    assert ExecSeq(w, p, [Return], s, n) == Ok(Ret(Undefined), s);
  }

  /** A body runs its guards in order; if none holds it runs its tail. */
  lemma {:induction false} BodyRun(w: World, p: Table, body: seq<Stmt>, s: State, n: nat)
    ensures var r := AllFalse(w, p, Guards(body), NoSubst, s, n);
            ExecSeq(w, p, body, s, n) ==
            match r
            case Ok(true, s1) => ExecSeq(w, p, Tail(body), s1, n)
            case Ok(false, s1) => Ok(Ret(Undefined), s1)
            case Exc(v, g, tr) => Exc(v, g, tr)
            case Div => Div
  {
    if body != [] && IsGuard(body[0]) {
      var g := body[0].c;
      ESubstNone(g);
      var r := Eval(w, p, g, s, n);
      assert Guards(body)[1..] == Guards(body[1..]);
      if r.Ok? {
        TrivialBlocks(w, p, r.st, n);
        BodyRun(w, p, body[1..], r.st, n);
      }
    }
  }

  lemma {:induction false} BodyParts(body: seq<Stmt>)
    ensures Free(body) == ANames(Guards(body)) + Free(Tail(body))
    ensures Writes(body) == AWrites(Guards(body)) + Writes(Tail(body))
    ensures Decls(body) == Decls(Tail(body))
    ensures Binders(body) == Binders(Tail(body))
  {
    if body != [] && IsGuard(body[0]) {
      BodyParts(body[1..]);
      assert Guards(body)[1..] == Guards(body[1..]);
      var c := body[0];
      assert Free([Return]) == {} && Writes([Return]) == {} && Binders([Return]) == {};
    }
  }

  lemma {:induction false} SimGuards(w: World, p: Table, env: Env, gs: seq<Expr>, sh: State, sc: State, n: nat)
    requires Good(w, p, env) && Match(env, sh, sc) && Fits(env, ANames(gs), AWrites(gs), sh)
    ensures SameOutcome(env, sh, sc, AllFalse(w, p, gs, NoSubst, sh, n), AllFalse(w, p, gs, env.z, sc, n))
  {
    hide Good, Match;
    if gs != [] {
      ESubstNone(gs[0]);
      SimExpr(w, p, env, gs[0], sh, sc, n);
      var a, b := Eval(w, p, gs[0], sh, n), Eval(w, p, ESubst(gs[0], env.z), sc, n);
      if a.Ok? && !Truthy(a.val) {
        SimGuards(w, p, env, gs[1..], a.st, b.st, n);
      }
    }
  }

  lemma {:induction false} GuardsKeep(w: World, p: Table, gs: seq<Expr>, z: Subst, s: State, n: nat)
    ensures var r := AllFalse(w, p, gs, z, s, n);
            r.Ok? ==> Kept(s, r.st, AWrites(ASubst(gs, z)), {})
  {
    if gs != [] {
      FrameExpr(w, p, ESubst(gs[0], z), s, n, {});
      var a := Eval(w, p, ESubst(gs[0], z), s, n);
      if a.Ok? && !Truthy(a.val) {
        GuardsKeep(w, p, gs[1..], z, a.st, n);
      }
    }
  }

  lemma {:induction false} NoFlipNoUnordered(w: World, p: Table, e: Expr, z: Subst, s: State, n: nat)
    requires (forall u, v :: !w.order(u, v).Unordered?) || !FlipsRelation(e)
    ensures !MeetsUnordered(w, p, e, z, s, n)
  {
    match e
    case Paren(a) => NoFlipNoUnordered(w, p, a, z, s, n);
    case And(l, r) =>
      NoFlipNoUnordered(w, p, l, z, s, n);
      var a := Test(w, p, ESubst(l, z), s, n);
      if a.Ok? { NoFlipNoUnordered(w, p, r, z, a.st, n); }
    case Or(l, r) =>
      NoFlipNoUnordered(w, p, l, z, s, n);
      var a := Test(w, p, ESubst(l, z), s, n);
      if a.Ok? { NoFlipNoUnordered(w, p, r, z, a.st, n); }
    case _ =>
  }

  lemma {:induction false} SafeNoUnordered(w: World, p: Table, gs: seq<Expr>, z: Subst, s: State, n: nat)
    requires SafeGuards(w, gs)
    ensures !AnyUnordered(w, p, gs, z, s, n)
  {
    if gs != [] {
      NoFlipNoUnordered(w, p, gs[0], z, s, n);
      var a := Test(w, p, ESubst(gs[0], z), s, n);
      if a.Ok? {
        assert forall i :: 0 <= i < |gs[1..]| ==> gs[1..][i] == gs[i + 1];
        SafeNoUnordered(w, p, gs[1..], z, a.st, n);
      }
    }
  }

  // ----- what substitution does to written and declared names -----

  ghost predicate QuietArgs(z: Subst) {
    forall x :: x in z.arg ==> EWrites(z.arg[x]) == {}
  }

  lemma {:induction false} EWritesSubst(e: Expr, z: Subst, y: Name)
    requires QuietArgs(z) && y in EWrites(ESubst(e, z))
    ensures exists x :: x in EWrites(e) && y == Renamed(x, z)
  {
    match e
    case Var(_) =>
    case Paren(a) => EWritesSubst(a, z, y);
    case Get(o, _) => EWritesSubst(o, z, y);
    case Call(_, args) => AWritesSubst(args, z, y);
    case Not(a) => EWritesSubst(a, z, y);
    case And(l, r) => if y in EWrites(ESubst(l, z)) { EWritesSubst(l, z, y); } else { EWritesSubst(r, z, y); }
    case Or(l, r) => if y in EWrites(ESubst(l, z)) { EWritesSubst(l, z, y); } else { EWritesSubst(r, z, y); }
    case Cmp(_, l, r) => if y in EWrites(ESubst(l, z)) { EWritesSubst(l, z, y); } else { EWritesSubst(r, z, y); }
    case Assign(x, a) =>
      if y == Renamed(x, z) {
        assert x in EWrites(e);
      } else {
        EWritesSubst(a, z, y);
      }
  }

  lemma {:induction false} AWritesSubst(args: seq<Expr>, z: Subst, y: Name)
    requires QuietArgs(z) && y in AWrites(ASubst(args, z))
    ensures exists x :: x in AWrites(args) && y == Renamed(x, z)
  {
    if args != [] {
      if y in EWrites(ESubst(args[0], z)) {
        EWritesSubst(args[0], z, y);
      } else {
        AWritesSubst(args[1..], z, y);
      }
    }
  }

  lemma {:induction false} SWritesSubst(c: Stmt, z: Subst, y: Name)
    requires QuietArgs(z) && y in SWrites(SSubst(c, z))
    ensures exists x :: x in SWrites(c) && y == Renamed(x, z)
    decreases c, 0
  {
    match c
    case Do(e) => EWritesSubst(e, z, y);
    case ReturnVal(e) => EWritesSubst(e, z, y);
    case Const(x, e) => if y == Renamed(x, z) { assert x in SWrites(c); } else { EWritesSubst(e, z, y); }
    case If(e, t, f) =>
      if y in EWrites(ESubst(e, z)) { EWritesSubst(e, z, y); }
      else if y in Writes(BSubst(t, z)) - Decls(BSubst(t, z)) { BWritesSubst(t, z, y); }
      else { BWritesSubst(f, z, y); }
    case Block(ss) => BWritesSubst(ss, z, y);
    case While(e, b) => if y in EWrites(ESubst(e, z)) { EWritesSubst(e, z, y); } else { BWritesSubst(b, z, y); }
    case _ =>
  }

  lemma {:induction false} WritesSubst(ss: seq<Stmt>, z: Subst, y: Name)
    requires QuietArgs(z) && y in Writes(Substs(ss, z))
    ensures exists x :: x in Writes(ss) && y == Renamed(x, z)
    decreases ss, 0
  {
    if ss != [] {
      if y in SWrites(SSubst(ss[0], z)) {
        SWritesSubst(ss[0], z, y);
      } else {
        WritesSubst(ss[1..], z, y);
      }
    }
  }

  lemma {:induction false} BWritesSubst(ss: seq<Stmt>, z: Subst, y: Name)
    requires QuietArgs(z) && y in Writes(BSubst(ss, z)) - Decls(BSubst(ss, z))
    ensures exists x :: x in Writes(ss) - Decls(ss) && y == Renamed(x, z)
    decreases ss, 1
  {
    var z' := Hide(z, Decls(ss));
    HiddenDecls(ss, z');
    WritesSubst(ss, z', y);
    var x :| x in Writes(ss) && y == Renamed(x, z');
    assert x !in Decls(ss) && y == Renamed(x, z);
  }

  lemma {:induction false} DeclsSubst(ss: seq<Stmt>, z: Subst)
    ensures Decls(Substs(ss, z)) == set x | x in Decls(ss) :: Renamed(x, z)
  {
    if ss != [] {
      DeclsSubst(ss[1..], z);
    }
  }

  lemma {:induction false} PureWritesNothing(e: Expr, strict: bool)
    requires IsPure(e, strict)
    ensures EWrites(e) == {}
  {
    match e
    case Paren(a) => PureWritesNothing(a, strict);
    case Get(o, _) => PureWritesNothing(o, strict);
    case Not(a) => PureWritesNothing(a, strict);
    case And(l, r) => PureWritesNothing(l, strict); PureWritesNothing(r, strict);
    case Or(l, r) => PureWritesNothing(l, strict); PureWritesNothing(r, strict);
    case Cmp(_, l, r) => PureWritesNothing(l, strict); PureWritesNothing(r, strict);
    case _ =>
  }

  // ----- parameters, arguments and values -----

  lemma {:induction false} BindAt(ps: seq<Name>, vs: seq<Value>, i: nat)
    requires i < |ps| && DistinctNames(ps)
    ensures ps[i] in Bind(ps, vs) && Bind(ps, vs)[ps[i]] == Some(if i < |vs| then vs[i] else Undefined)
  {
    if i > 0 {
      assert forall j :: 0 <= j < |ps[1..]| ==> ps[1..][j] == ps[j + 1];
      BindAt(ps[1..], if vs == [] then [] else vs[1..], i - 1);
    }
  }

  lemma {:induction false} ArgMapKeys(ps: seq<Name>, plans: seq<Plan>)
    requires |ps| == |plans|
    ensures ArgMap(ps, plans).Keys <= set x | x in ps
  {
    if ps != [] {
      ArgMapKeys(ps[1..], plans[1..]);
    }
  }

  /** What a used parameter is replaced by. */
  function Stand(plan: Plan): Expr
    requires plan.Missing? || plan.Hoist? || plan.Inline?
  {
    match plan
    case Missing => Lit(Undefined)
    case Hoist(t, _) => Var(t)
    case Inline(e) => if NeedsParens(e) then Paren(e) else e
  }

  lemma {:induction false} ArgMapAt(ps: seq<Name>, plans: seq<Plan>, i: nat)
    requires |ps| == |plans| && i < |ps| && DistinctNames(ps)
    ensures var used := plans[i].Missing? || plans[i].Hoist? || plans[i].Inline?;
            (ps[i] in ArgMap(ps, plans) <==> used) && (used ==> ArgMap(ps, plans)[ps[i]] == Stand(plans[i]))
  {
    assert forall j :: 0 <= j < |ps[1..]| ==> ps[1..][j] == ps[j + 1];
    if i > 0 {
      ArgMapAt(ps[1..], plans[1..], i - 1);
    } else {
      ArgMapKeys(ps[1..], plans[1..]);
    }
  }

  // ----- the simulation environment of a call site -----

  ghost function Unused(h: Func): set<Name> {
    set x | x in h.params && Uses(x, h.body) == 0
  }

  ghost function Vals(h: Func, vs: seq<Value>): map<Name, Value> {
    map x | x in Bind(h.params, vs) && Bind(h.params, vs)[x].Some? :: Bind(h.params, vs)[x].value
  }

  /** `t`: the state after the prefix. */
  ghost function SiteEnv(h: Func, site: Site, vs: seq<Value>, t: State, dead: set<Name>): Env
    requires |site.plans| == |h.params|
  {
    Env(SiteSubst(h, site), Vals(h, vs), Unused(h) + dead,
        map x | x in Temps(site.plans) + LazyNames(site.plans) && x in t.l :: t.l[x],
        map x | x in LazyNames(site.plans) && x !in t.l && x in t.g :: t.g[x],
        Binders(h.body), Outer(h), map[])
  }

  lemma StandWorth(w: World, p: Table, h: Func, args: seq<Expr>, site: Site, vs: seq<Value>, a: State, t: State, dead: set<Name>, i: nat)
    requires SiteNames(h, site) && ForArgs(site.plans, args) && |vs| == |args| && i < |h.params|
    requires DistinctNames(h.params) && NewNames(h, site) !! ANames(args)
    requires Off(NewNames(h, site), a, t) && Computed(w, p, site.plans, vs, a, t)
    requires site.plans[i].Missing? || site.plans[i].Hoist? || site.plans[i].Inline?
    requires h.params[i] in Vals(h, vs)
    ensures Worth(w, p, SiteEnv(h, site, vs, t, dead), Stand(site.plans[i]), Vals(h, vs)[h.params[i]])
  {
    var env := SiteEnv(h, site, vs, t, dead);
    var plan := site.plans[i];
    BindAt(h.params, vs, i);
    forall s, n: nat | ProtOn(env, ENames(Stand(plan)), s)
      ensures Eval(w, p, Stand(plan), s, n) == Ok(Vals(h, vs)[h.params[i]], s)
    {
      if plan.Hoist? {
        TempsAt(site.plans, i);
        assert plan.temp in env.pl;
      } else if plan.Inline? {
        LazyNamesAt(site.plans, i);
        ArgNames(args, i);
        assert WorthAt(w, p, plan.e, vs[i], a);
        assert Eval(w, p, plan.e, a, n) == Ok(vs[i], a);
        ProtAgrees(w, env, plan.e, NewNames(h, site), a, t, s);
        SettledValue(w, p, plan.e, a, s, n, n);
      }
    }
  }

  lemma {:induction false} ArgNames(args: seq<Expr>, i: nat)
    requires i < |args|
    ensures ENames(args[i]) <= ANames(args) && EWrites(args[i]) <= AWrites(args)
  {
    if i > 0 {
      ArgNames(args[1..], i - 1);
    }
  }

  lemma ProtAgrees(w: World, env: Env, e: Expr, ts: set<Name>, a: State, t: State, s: State)
    requires Settled(w, e, a) && Off(ts, a, t) && ENames(e) !! ts && ProtOn(env, ENames(e), s)
    requires forall x :: x in ENames(e) && x in t.l ==> x in env.pl && env.pl[x] == t.l[x]
    requires forall x :: x in ENames(e) && x !in t.l && x in t.g ==> x in env.pg && env.pg[x] == t.g[x]
    ensures AgreeOn(ENames(e), a, s)
  {
  }

  /** The environment at the start of the helper's body is a valid simulation. */
  lemma SiteGood(w: World, p: Table, h: Func, args: seq<Expr>, site: Site, vs: seq<Value>,
                 s: State, a: State, t: State, dead: set<Name>, gs: set<Name>)
    requires Accepted(h) && GuardsClean(h) && NamesClean(h, site) && SiteNames(h, site)
    requires CallReady(w, p, h, args, site, s, gs) && |vs| == |args|
    requires a.l.Keys == s.l.Keys && Off(NewNames(h, site), a, t) && Computed(w, p, site.plans, vs, a, t)
    requires dead == {} || Guards(h.body) != []
    ensures Good(w, p, SiteEnv(h, site, vs, t, dead))
  {
    hide Worth, Computed, LazyOk, Stable;
    var env := SiteEnv(h, site, vs, t, dead);
    SiteArgs(w, p, h, args, site, vs, s, a, t, dead, gs);
    SiteProtected(w, p, h, args, site, vs, s, t, dead, gs);
    ArgMapKeys(h.params, site.plans);
    DeclsBinders(h.body);
    StableSubset(w, p, gs, env.pg.Keys);
  }

  lemma SiteArgs(w: World, p: Table, h: Func, args: seq<Expr>, site: Site, vs: seq<Value>,
                 s: State, a: State, t: State, dead: set<Name>, gs: set<Name>)
    requires Accepted(h) && SiteNames(h, site)
    requires CallReady(w, p, h, args, site, s, gs) && |vs| == |args|
    requires Off(NewNames(h, site), a, t) && Computed(w, p, site.plans, vs, a, t)
    ensures var env := SiteEnv(h, site, vs, t, dead);
            forall x :: x in env.z.arg ==> x in env.val && Worth(w, p, env, env.z.arg[x], env.val[x])
  {
    hide Worth, Computed, Off, LazyOk, Stable;
    var env := SiteEnv(h, site, vs, t, dead);
    ArgMapKeys(h.params, site.plans);
    forall x | x in env.z.arg
      ensures x in env.val && Worth(w, p, env, env.z.arg[x], env.val[x])
    {
      var i :| 0 <= i < |h.params| && h.params[i] == x;
      ArgMapAt(h.params, site.plans, i);
      BindAt(h.params, vs, i);
      StandWorth(w, p, h, args, site, vs, a, t, dead, i);
    }
  }

  /** What must not change: never a name of the helper, and only stable globals. */
  lemma SiteProtected(w: World, p: Table, h: Func, args: seq<Expr>, site: Site, vs: seq<Value>,
                      s: State, t: State, dead: set<Name>, gs: set<Name>)
    requires SiteNames(h, site) && CallReady(w, p, h, args, site, s, gs)
    requires t.l.Keys == s.l.Keys && (dead == {} || Guards(h.body) != [])
    ensures var env := SiteEnv(h, site, vs, t, dead);
            && env.pg.Keys !! env.binders
            && env.pg.Keys <= gs
            && (forall x :: x in env.z.ren ==> env.z.ren[x] !in env.pl && env.z.ren[x] !in env.pg)
  {
    hide LazyOk, Stable;
    var env := SiteEnv(h, site, vs, t, dead);
    forall x | x in env.pg
      ensures x in gs
    {
      LazyGlobal(w, site.plans, s, AWrites(args), gs, x);
    }
    LazyNamesArgs(site.plans, args);
    forall x | x in site.ren
      ensures site.ren[x] !in LazyNames(site.plans)
    {
      assert Target(site, x) in NewNames(h, site);
    }
  }

  lemma {:induction false} LazyNamesArgs(plans: seq<Plan>, args: seq<Expr>)
    requires ForArgs(plans, args)
    ensures LazyNames(plans) <= ANames(args)
  {
    if args == [] {
      NoLazyNames(plans);
    } else {
      LazyNamesArgs(plans[1..], args[1..]);
    }
  }

  lemma {:induction false} NoLazyNames(plans: seq<Plan>)
    requires forall i :: 0 <= i < |plans| ==> plans[i].Skip? || plans[i].Missing?
    ensures LazyNames(plans) == {}
  {
    if plans != [] {
      NoLazyNames(plans[1..]);
    }
  }

  lemma StableSubset(w: World, p: Table, gs: set<Name>, hs: set<Name>)
    requires Stable(w, p, gs) && hs <= gs
    ensures Stable(w, p, hs)
  {
    forall f, vs, g, tr
      ensures GlobalsKept(hs, g, w.call(f, vs, g, tr).g)
    {
      assert GlobalsKept(gs, g, w.call(f, vs, g, tr).g);
    }
    forall v, field, g, tr
      ensures GlobalsKept(hs, g, w.get(v, field, g, tr).g)
    {
      assert GlobalsKept(gs, g, w.get(v, field, g, tr).g);
    }
  }

  lemma {:induction false} LazyGlobal(w: World, plans: seq<Plan>, s: State, ws: set<Name>, gs: set<Name>, x: Name)
    requires LazyOk(w, plans, s, ws, gs) && x in LazyNames(plans) && x !in s.l
    ensures x in gs
  {
    if !(plans[0].Lazy() && x in ENames(plans[0].e)) {
      assert forall j :: 0 <= j < |plans[1..]| ==> plans[1..][j] == plans[j + 1];
      LazyGlobal(w, plans[1..], s, ws, gs, x);
    }
  }

  /** A local that keeps its name is no temporary, no fresh name and no name of a late argument. */
  lemma SiteApart(w: World, p: Table, h: Func, args: seq<Expr>, site: Site, vs: seq<Value>,
                  s: State, t: State, dead: set<Name>, gs: set<Name>)
    requires Accepted(h) && SiteNames(h, site) && CallReady(w, p, h, args, site, s, gs)
    requires dead == if Guards(h.body) == [] then {} else Decls(h.body)
    ensures Apart(SiteEnv(h, site, vs, t, dead), Frame(h.params, vs, h.body).Keys)
  {
    hide LazyOk, Stable, ForArgs, SafeGuards;
    var env := SiteEnv(h, site, vs, t, dead);
    var locals := Frame(h.params, vs, h.body).Keys;
    BindKeys(h.params, vs);
    DeclsBinders(h.body);
    forall u | Plainly(env, u, locals)
      ensures u !in env.pl && u !in env.pg && forall x :: x in env.z.ren && x !in env.dead ==> env.z.ren[x] != u
    {
      if u in h.params {
        var i :| 0 <= i < |h.params| && h.params[i] == u;
        ArgMapAt(h.params, site.plans, i);
      }
      assert u in Decls(h.body) && Guards(h.body) == [];
      forall x | x in site.ren ensures site.ren[x] != u {
        assert site.ren[x] in site.ren.Values;
      }
    }
  }

  lemma SiteMatch(w: World, p: Table, h: Func, args: seq<Expr>, site: Site, vs: seq<Value>,
                  s: State, a: State, t: State, dead: set<Name>, gs: set<Name>)
    requires Accepted(h) && GuardsClean(h) && SiteNames(h, site)
    requires CallReady(w, p, h, args, site, s, gs) && |vs| == |args|
    requires a.l.Keys == s.l.Keys && Off(NewNames(h, site), a, t)
    requires dead == if Guards(h.body) == [] then {} else Decls(h.body)
    requires Guards(h.body) == [] ==> forall x :: x in Decls(h.body) ==> t.l[Target(site, x)] == None
    ensures Match(SiteEnv(h, site, vs, t, dead), State(t.g, Frame(h.params, vs, h.body), t.tr), t)
  {
    hide Apart, Matched, Accepted, SafeGuards, LazyOk, Stable, Guarded, ForArgs, Frame, Outer, ArgMap, NewNames;
    var env := SiteEnv(h, site, vs, t, dead);
    var sh := State(t.g, Frame(h.params, vs, h.body), t.tr);
    FrameKeys(h, vs);
    OuterUnbound(h);
    SiteApart(w, p, h, args, site, vs, s, t, dead, gs);
    forall x | x in sh.l
      ensures x in env.binders + env.z.arg.Keys + env.dead
      ensures x !in env.dead ==> Matched(env, x, sh, t)
    {
      SiteMatched(w, p, h, args, site, vs, s, t, dead, gs, x);
    }
  }

  lemma OuterUnbound(h: Func)
    ensures Outer(h) !! (set x | x in h.params) + Decls(h.body)
  {
  }

  lemma FrameKeys(h: Func, vs: seq<Value>)
    ensures Frame(h.params, vs, h.body).Keys == (set x | x in h.params) + Decls(h.body)
  {
    BindKeys(h.params, vs);
  }

  lemma SiteMatched(w: World, p: Table, h: Func, args: seq<Expr>, site: Site, vs: seq<Value>,
                    s: State, t: State, dead: set<Name>, gs: set<Name>, x: Name)
    requires Accepted(h) && SiteNames(h, site) && CallReady(w, p, h, args, site, s, gs)
    requires t.l.Keys == s.l.Keys && x in Frame(h.params, vs, h.body)
    requires dead == if Guards(h.body) == [] then {} else Decls(h.body)
    requires Guards(h.body) == [] ==> forall x :: x in Decls(h.body) ==> t.l[Target(site, x)] == None
    ensures var env := SiteEnv(h, site, vs, t, dead);
            && x in env.binders + env.z.arg.Keys + env.dead
            && (x !in env.dead ==> Matched(env, x, State(t.g, Frame(h.params, vs, h.body), t.tr), t))
  {
    hide SafeGuards, LazyOk, Stable, Guarded, ForArgs, Matched, SiteEnv;
    FrameKeys(h, vs);
    if x in h.params {
      ParamMatched(h, site, vs, t, dead, x);
    } else {
      assert Guards(h.body) == [] ==> Target(site, x) in NewNames(h, site);
      LocalMatched(h, site, vs, t, dead, x);
    }
  }

  lemma ParamMatched(h: Func, site: Site, vs: seq<Value>, t: State, dead: set<Name>, x: Name)
    requires WellScoped(h) && SiteNames(h, site) && x in h.params
    ensures var env := SiteEnv(h, site, vs, t, dead);
            && x in Frame(h.params, vs, h.body)
            && x in env.z.arg.Keys + env.dead
            && (x !in env.dead ==> Matched(env, x, State(t.g, Frame(h.params, vs, h.body), t.tr), t))
  {
    BindKeys(h.params, vs);
    var i :| 0 <= i < |h.params| && h.params[i] == x;
    ArgMapAt(h.params, site.plans, i);
    BindAt(h.params, vs, i);
  }

  lemma LocalMatched(h: Func, site: Site, vs: seq<Value>, t: State, dead: set<Name>, x: Name)
    requires WellScoped(h) && SiteNames(h, site) && x in Decls(h.body)
    requires dead == if Guards(h.body) == [] then {} else Decls(h.body)
    requires Guards(h.body) == [] ==> Target(site, x) in t.l && t.l[Target(site, x)] == None
    ensures var env := SiteEnv(h, site, vs, t, dead);
            && x in Frame(h.params, vs, h.body)
            && x in env.binders + env.dead
            && (x !in env.dead ==> Matched(env, x, State(t.g, Frame(h.params, vs, h.body), t.tr), t))
  {
    BindKeys(h.params, vs);
    ArgMapKeys(h.params, site.plans);
    DeclsBinders(h.body);
  }

  // ----- the theorem -----

  /** The call evaluates its arguments, then runs the helper's body in its own frame. */
  ghost predicate CallOutcome(h: Func, site: Site, a: Outcome<seq<Value>>, r: Outcome<Value>, b: Outcome<Signal>) {
    match a
    case Div => b.Div?
    case Exc(v, g, tr) => b == Exc(v, g, tr)
    case Ok(_, sa) =>
      match r
      case Div => b.Div?
      case Exc(v, g, tr) => b == Exc(v, g, tr)
      case Ok(_, sr) =>
        && b.Ok? && b.val.Next? && b.st.g == sr.g && b.st.tr == sr.tr
        && b.st.l.Keys == sa.l.Keys
        && (forall x :: x in sa.l && x !in NewNames(h, site) ==> b.st.l[x] == sa.l[x])
  }

  function CallResult(w: World, p: Table, h: Func, a: Outcome<seq<Value>>, n: nat): Outcome<Value> {
    if a.Ok? then Invoke(w, p, h, a.val, a.st.g, a.st.tr, n) else a.PropagateFailure()
  }

  /** The fields of `h` not named by the substitution: all writes stay inside the new
      names, or reach the module. */
  lemma SiteQuiet(h: Func, site: Site, args: seq<Expr>)
    requires Accepted(h) && SiteNames(h, site) && ForArgs(site.plans, args)
    requires forall i :: 0 <= i < |site.plans| && site.plans[i].Lazy() ==> IsPure(site.plans[i].e, false)
    ensures QuietArgs(SiteSubst(h, site))
  {
    var z := SiteSubst(h, site);
    ArgMapKeys(h.params, site.plans);
    forall x | x in z.arg
      ensures EWrites(z.arg[x]) == {}
    {
      var i :| 0 <= i < |h.params| && h.params[i] == x;
      ArgMapAt(h.params, site.plans, i);
      if site.plans[i].Inline? {
        PureWritesNothing(site.plans[i].e, false);
      }
    }
  }

  /** What a matched outcome says without the environment. */
  lemma OutcomeParts<T(!new)>(env: Env, sh: State, sc: State, a: Outcome<T>, b: Outcome<T>)
    requires SameOutcome(env, sh, sc, a, b)
    ensures match a
            case Div => b.Div?
            case Exc(v, g, tr) => b == Exc(v, g, tr)
            case Ok(v, s) =>
              && b.Ok? && b.val == v && b.st.g == s.g && b.st.tr == s.tr
              && s.l.Keys == sh.l.Keys && b.st.l.Keys == sc.l.Keys
  {
  }

  lemma LazyPure(w: World, plans: seq<Plan>, s: State, ws: set<Name>, gs: set<Name>)
    requires LazyOk(w, plans, s, ws, gs)
    ensures forall i :: 0 <= i < |plans| && plans[i].Lazy() ==> IsPure(plans[i].e, false)
  {
  }

  /** The substituted body of a guardless helper only writes new names and module names. */
  lemma GuardlessWrites(h: Func, site: Site, x: Name)
    requires Accepted(h) && SiteNames(h, site) && QuietArgs(SiteSubst(h, site)) && Guards(h.body) == []
    requires x in Writes(Substs(h.body, SiteSubst(h, site)))
    ensures x in NewNames(h, site) || x in Outer(h)
  {
    WritesSubst(h.body, SiteSubst(h, site), x);
    WrittenNames(h, site);
  }

  lemma SiteCaptures(h: Func, site: Site)
    requires NamesClean(h, site)
    ensures if Guards(h.body) == [] then CaptureFree(h.body, SiteSubst(h, site))
            else BCaptureFree(Tail(h.body), SiteSubst(h, site))
  {
  }

  lemma GuardlessCall(w: World, p: Table, h: Func, args: seq<Expr>, site: Site, vs: seq<Value>,
                      s: State, a: State, t: State, n: nat, gs: set<Name>)
    requires Accepted(h) && GuardsClean(h) && NamesClean(h, site) && SiteNames(h, site)
    requires CallReady(w, p, h, args, site, s, gs) && |vs| == |args| && Guards(h.body) == []
    requires a.l.Keys == s.l.Keys && Off(NewNames(h, site), a, t) && Computed(w, p, site.plans, vs, a, t)
    requires forall x :: x in Decls(h.body) ==> t.l[Target(site, x)] == None
    ensures CallOutcome(h, site, Ok(vs, a), Invoke(w, p, h, vs, a.g, a.tr, n),
                        ExecSeq(w, p, Substs(h.body, SiteSubst(h, site)), t, n))
  {
    hide Good, Match, SameOutcome, Stable, LazyOk, Computed, Fits, SafeGuards, NamesClean, ForArgs, Guarded, QuietArgs;
    var env := SiteEnv(h, site, vs, t, {});
    var sh := State(t.g, Frame(h.params, vs, h.body), t.tr);
    var z := env.z;
    SiteCaptures(h, site);
    SiteGood(w, p, h, args, site, vs, s, a, t, {}, gs);
    SiteMatch(w, p, h, args, site, vs, s, a, t, {}, gs);
    BodyFits(w, p, h, args, site, vs, s, t, {}, gs, Free(h.body), Writes(h.body));
    BindKeys(h.params, vs);
    SimSeq(w, p, env, h.body, sh, t, n);
    OutcomeParts(env, sh, t, ExecSeq(w, p, h.body, sh, n), ExecSeq(w, p, Substs(h.body, z), t, n));
    EndsNormally(w, p, h.body, sh, n, false);
    LazyPure(w, site.plans, s, AWrites(args), gs);
    SiteQuiet(h, site, args);
    DeclsSubst(h.body, z);
    NoStable(w, p, Writes(Substs(h.body, z)), t);
    FrameSeq(w, p, Substs(h.body, z), t, n, {});
    forall x | x in s.l && x !in NewNames(h, site)
      ensures x !in Writes(Substs(h.body, z))
    {
      if x in Writes(Substs(h.body, z)) {
        GuardlessWrites(h, site, x);
      }
    }
  }

  lemma NoStable(w: World, p: Table, ws: set<Name>, s: State)
    ensures Stable(w, p, {}) && Guarded(ws, {}, s)
  {
  }

  lemma BodyFits(w: World, p: Table, h: Func, args: seq<Expr>, site: Site, vs: seq<Value>,
                 s: State, t: State, dead: set<Name>, gs: set<Name>, names: set<Name>, writes: set<Name>)
    requires Accepted(h) && SiteNames(h, site) && CallReady(w, p, h, args, site, s, gs)
    requires names <= Free(h.body) && names !! dead && writes <= Writes(h.body) && t.l.Keys == s.l.Keys
    ensures Fits(SiteEnv(h, site, vs, t, dead), names, writes, State(t.g, Frame(h.params, vs, h.body), t.tr))
  {
    var env := SiteEnv(h, site, vs, t, dead);
    BindKeys(h.params, vs);
    ArgMapKeys(h.params, site.plans);
    forall x | x in names
      ensures (x in Frame(h.params, vs, h.body) || x in env.outer) && x !in env.dead
    {
      UsesFree(x, h.body);
    }
    forall x | x in writes
      ensures x !in env.pg
    {
      if x in env.pg {
        LazyGlobal(w, site.plans, s, AWrites(args), gs, x);
      }
    }
  }

  /** Everything the body writes is one of its own locals or a module name. */
  lemma WrittenNames(h: Func, site: Site)
    requires Accepted(h)
    ensures forall x :: x in Writes(h.body) ==> x in Decls(h.body) || x in Outer(h)
  {
    WritesFree(h.body);
  }

  lemma GuardedCall(w: World, p: Table, h: Func, args: seq<Expr>, site: Site, vs: seq<Value>,
                    s: State, a: State, t: State, n: nat, gs: set<Name>)
    requires Accepted(h) && GuardsClean(h) && NamesClean(h, site) && SiteNames(h, site)
    requires CallReady(w, p, h, args, site, s, gs) && |vs| == |args| && Guards(h.body) != []
    requires a.l.Keys == s.l.Keys && Off(NewNames(h, site), a, t) && Computed(w, p, site.plans, vs, a, t)
    ensures var z := SiteSubst(h, site);
            CallOutcome(h, site, Ok(vs, a), Invoke(w, p, h, vs, a.g, a.tr, n),
                        ExecSeq(w, p, [If(Condition(Guards(h.body), z), BSubst(Tail(h.body), z), [])], t, n))
  {
    hide Good, Match, SameOutcome, Stable, LazyOk, Computed, Fits, SafeGuards, NamesClean, ForArgs, Guarded, QuietArgs;
    var d, gds, tail := Decls(h.body), Guards(h.body), Tail(h.body);
    SiteCaptures(h, site);
    var env := SiteEnv(h, site, vs, t, d);
    var sh := State(t.g, Frame(h.params, vs, h.body), t.tr);
    var z := env.z;
    var r, r' := AllFalse(w, p, gds, NoSubst, sh, n), AllFalse(w, p, gds, z, t, n);
    GuardsOutcome(w, p, h, args, site, vs, s, a, t, n, gs);
    OutcomeParts(env, sh, t, r, r');
    BodyRun(w, p, h.body, sh, n);
    SingleIf(w, p, Condition(gds, z), BSubst(tail, z), t, n);
    if r.Ok? && r.val {
      GuardsKeepDecls(w, p, h, vs, sh, n);
      SameMatch(env, sh, t, r, r');
      TailCall(w, p, h, args, site, vs, s, t, r.st, r'.st, n, gs);
    }
  }

  lemma GuardsOutcome(w: World, p: Table, h: Func, args: seq<Expr>, site: Site, vs: seq<Value>,
                      s: State, a: State, t: State, n: nat, gs: set<Name>)
    requires Accepted(h) && GuardsClean(h) && NamesClean(h, site) && SiteNames(h, site)
    requires CallReady(w, p, h, args, site, s, gs) && |vs| == |args| && Guards(h.body) != []
    requires a.l.Keys == s.l.Keys && Off(NewNames(h, site), a, t) && Computed(w, p, site.plans, vs, a, t)
    ensures var z, gds := SiteSubst(h, site), Guards(h.body);
            var env := SiteEnv(h, site, vs, t, Decls(h.body));
            var sh := State(t.g, Frame(h.params, vs, h.body), t.tr);
            var r, r' := AllFalse(w, p, gds, NoSubst, sh, n), AllFalse(w, p, gds, z, t, n);
            && Good(w, p, env)
            && SameOutcome(env, sh, t, r, r')
            && Test(w, p, Condition(gds, z), t, n) == r'
            && (r'.Ok? ==> r'.st.l == t.l)
  {
    hide Good, Match, SameOutcome, Stable, LazyOk, Computed, Fits, SafeGuards, NamesClean, Guarded, QuietArgs;
    var d, gds := Decls(h.body), Guards(h.body);
    var env := SiteEnv(h, site, vs, t, d);
    var sh := State(t.g, Frame(h.params, vs, h.body), t.tr);
    BodyParts(h.body);
    SiteGood(w, p, h, args, site, vs, s, a, t, d, gs);
    SiteMatch(w, p, h, args, site, vs, s, a, t, d, gs);
    BodyFits(w, p, h, args, site, vs, s, t, d, gs, ANames(gds), AWrites(gds));
    SimGuards(w, p, env, gds, sh, t, n);
    SafeNoUnordered(w, p, gds, env.z, t, n);
    ConditionTest(w, p, gds, env.z, t, n);
    LazyPure(w, site.plans, s, AWrites(args), gs);
    SiteQuiet(h, site, args);
    GuardsKeepLocals(w, p, h, site, s, t, n);
  }

  lemma SameMatch<T(!new)>(env: Env, sh: State, sc: State, a: Outcome<T>, b: Outcome<T>)
    requires SameOutcome(env, sh, sc, a, b) && a.Ok?
    ensures b.Ok? && Match(env, a.st, b.st)
  {
    hide Match;
  }

  /** Guards leave the caller's locals alone … */
  lemma GuardsKeepLocals(w: World, p: Table, h: Func, site: Site, s: State, t: State, n: nat)
    requires Accepted(h) && GuardsClean(h) && SiteNames(h, site) && QuietArgs(SiteSubst(h, site)) && Guards(h.body) != []
    requires Outer(h) !! s.l.Keys && t.l.Keys == s.l.Keys
    ensures var r := AllFalse(w, p, Guards(h.body), SiteSubst(h, site), t, n);
            r.Ok? ==> r.st.l == t.l
  {
    var gds, z := Guards(h.body), SiteSubst(h, site);
    GuardsKeep(w, p, gds, z, t, n);
    BodyParts(h.body);
    forall x | x in s.l
      ensures x !in AWrites(ASubst(gds, z))
    {
      if x in AWrites(ASubst(gds, z)) {
        AWritesSubst(gds, z, x);
        WrittenNames(h, site);
        AWritesNames(gds);
      }
    }
    var r := AllFalse(w, p, gds, z, t, n);
    if r.Ok? {
      assert r.st.l == t.l;
    }
  }

  /** … and the helper's locals, still uninitialised. */
  lemma GuardsKeepDecls(w: World, p: Table, h: Func, vs: seq<Value>, sh: State, n: nat)
    requires GuardsClean(h) && sh.l == Frame(h.params, vs, h.body) && WellScoped(h)
    ensures var r := AllFalse(w, p, Guards(h.body), NoSubst, sh, n);
            r.Ok? ==> r.st.l.Keys == sh.l.Keys && forall x :: x in Decls(h.body) ==> r.st.l[x] == None
  {
    GuardsKeep(w, p, Guards(h.body), NoSubst, sh, n);
    ASubstNone(Guards(h.body));
    AWritesNames(Guards(h.body));
    BindKeys(h.params, vs);
  }

  lemma SingleIf(w: World, p: Table, c: Expr, thn: seq<Stmt>, s: State, n: nat)
    ensures ExecSeq(w, p, [If(c, thn, [])], s, n) ==
            var (go, s1) :- Test(w, p, c, s, n);
            if go then ExecBlock(w, p, thn, s1, n) else Ok(Next, s1)
  {
    var i := If(c, thn, []);
    assert [i][1..] == [];
    var r := Test(w, p, c, s, n);
    if r.Ok? {
      TrivialBlocks(w, p, r.st, n);
    }
  }

  lemma TailCall(w: World, p: Table, h: Func, args: seq<Expr>, site: Site, vs: seq<Value>,
                 s: State, t: State, sh: State, sc: State, n: nat, gs: set<Name>)
    requires Accepted(h) && GuardsClean(h) && SiteNames(h, site)
    requires CallReady(w, p, h, args, site, s, gs) && |vs| == |args| && Guards(h.body) != []
    requires BCaptureFree(Tail(h.body), SiteSubst(h, site))
    requires t.l.Keys == s.l.Keys == sc.l.Keys
    requires var env := SiteEnv(h, site, vs, t, Decls(h.body)); Good(w, p, env) && Match(env, sh, sc)
    requires sh.l.Keys == Frame(h.params, vs, h.body).Keys
    requires forall x :: x in Decls(h.body) ==> sh.l[x] == None
    ensures var r, b := ExecSeq(w, p, Tail(h.body), sh, n), ExecBlock(w, p, BSubst(Tail(h.body), SiteSubst(h, site)), sc, n);
            match r
            case Div => b.Div?
            case Exc(v, g, tr) => b == Exc(v, g, tr)
            case Ok(sig, s1) =>
              && sig.Next? && b.Ok? && b.val.Next? && b.st.g == s1.g && b.st.tr == s1.tr
              && b.st.l.Keys == sc.l.Keys
              && (forall x :: x in sc.l ==> b.st.l[x] == sc.l[x])
  {
    hide Good, Match, SameOutcome, SiteEnv, CallReady, BCaptureFree;
    var d, tail := Decls(h.body), Tail(h.body);
    var z := SiteSubst(h, site);
    BodyParts(h.body);
    TailSim(w, p, h, args, site, vs, s, t, sh, sc, n, gs);
    EndsNormally(w, p, tail, sh, n, false);
    HiddenDecls(tail, Hide(z, d));
    TailTouchesNone(w, p, h, args, site, s, sc, n, gs);
  }

  lemma TailSim(w: World, p: Table, h: Func, args: seq<Expr>, site: Site, vs: seq<Value>,
                s: State, t: State, sh: State, sc: State, n: nat, gs: set<Name>)
    requires Accepted(h) && GuardsClean(h) && SiteNames(h, site)
    requires CallReady(w, p, h, args, site, s, gs) && |vs| == |args| && Guards(h.body) != []
    requires BCaptureFree(Tail(h.body), SiteSubst(h, site))
    requires t.l.Keys == s.l.Keys == sc.l.Keys
    requires var env := SiteEnv(h, site, vs, t, Decls(h.body)); Good(w, p, env) && Match(env, sh, sc)
    requires sh.l.Keys == Frame(h.params, vs, h.body).Keys
    requires forall x :: x in Decls(h.body) ==> sh.l[x] == None
    ensures var d, tail := Decls(h.body), Tail(h.body);
            var a := ExecSeq(w, p, tail, sh, n);
            var b := ExecSeq(w, p, Substs(tail, Hide(SiteSubst(h, site), d)), Enter(sc, d), n);
            match a
            case Div => b.Div?
            case Exc(v, g, tr) => b == Exc(v, g, tr)
            case Ok(sig, s1) => b.Ok? && b.val == sig && b.st.g == s1.g && b.st.tr == s1.tr
  {
    hide Good, Match, SameOutcome, Stable, LazyOk, Fits, Writes, Free, CallReady, Inside, SiteEnv, ExecSeq, Substs;
    var d, tail := Decls(h.body), Tail(h.body);
    var env := SiteEnv(h, site, vs, t, d);
    TailEnv(h, site, vs, t, sh, sc);
    BodyParts(h.body);
    DeclsBinders(h.body);
    var env1 := Inside(env, d, sh, sc);
    EnterGood(w, p, env, d, sh, sc);
    EnterMatch(w, p, env, d, sh, sc);
    assert Enter(sh, d) == sh by { assert Enter(sh, d).l == sh.l; }
    var sc1 := Enter(sc, d);
    TailFits(w, p, h, args, site, vs, s, t, sh, sc, gs);
    SimSeq(w, p, env1, tail, sh, sc1, n);
    OutcomeParts(env1, sh, sc1, ExecSeq(w, p, tail, sh, n), ExecSeq(w, p, Substs(tail, env1.z), sc1, n));
  }

  lemma TailEnv(h: Func, site: Site, vs: seq<Value>, t: State, sh: State, sc: State)
    requires |site.plans| == |h.params|
    ensures var d := Decls(h.body);
            var env := SiteEnv(h, site, vs, t, d);
            var env1 := Inside(env, d, sh, sc);
            && env.z == SiteSubst(h, site) && env1.z == Hide(env.z, d)
            && env.binders == env1.binders == Binders(h.body)
  {
  }

  /** The spliced tail writes no local of the caller. */
  lemma TailTouchesNone(w: World, p: Table, h: Func, args: seq<Expr>, site: Site, s: State, sc: State, n: nat, gs: set<Name>)
    requires Accepted(h) && SiteNames(h, site) && CallReady(w, p, h, args, site, s, gs) && Guards(h.body) != []
    requires sc.l.Keys == s.l.Keys
    ensures var b := ExecBlock(w, p, BSubst(Tail(h.body), SiteSubst(h, site)), sc, n);
            b.Ok? ==> b.st.l.Keys == sc.l.Keys && forall x :: x in sc.l ==> b.st.l[x] == sc.l[x]
  {
    hide Good, Match, SameOutcome, Stable, LazyOk, Fits;
    var tail, z := Tail(h.body), SiteSubst(h, site);
    BodyParts(h.body);
    LazyPure(w, site.plans, s, AWrites(args), gs);
    SiteQuiet(h, site, args);
    NoStable(w, p, Writes(BSubst(tail, z)) - Decls(BSubst(tail, z)), sc);
    FrameBlock(w, p, BSubst(tail, z), sc, n, {});
    forall x | x in sc.l
      ensures x !in Writes(BSubst(tail, z)) - Decls(BSubst(tail, z))
    {
      if x in Writes(BSubst(tail, z)) - Decls(BSubst(tail, z)) {
        BWritesSubst(tail, z, x);
        WrittenNames(h, site);
      }
    }
  }

  lemma TailFits(w: World, p: Table, h: Func, args: seq<Expr>, site: Site, vs: seq<Value>,
                 s: State, t: State, sh: State, sc: State, gs: set<Name>)
    requires Accepted(h) && SiteNames(h, site) && CallReady(w, p, h, args, site, s, gs)
    requires NoneCaptured(Decls(Tail(h.body)), Free(Tail(h.body)), SiteSubst(h, site))
    requires t.l.Keys == s.l.Keys && sh.l.Keys == Frame(h.params, vs, h.body).Keys
    ensures Fits(Inside(SiteEnv(h, site, vs, t, Decls(h.body)), Decls(h.body), sh, sc), Free(Tail(h.body)), Writes(Tail(h.body)), sh)
  {
    var d := Decls(h.body);
    BodyParts(h.body);
    BodyFits(w, p, h, args, site, vs, s, t, {}, gs, Free(Tail(h.body)), Writes(Tail(h.body)));
    var e0, e1 := SiteEnv(h, site, vs, t, {}), SiteEnv(h, site, vs, t, d);
    assert e0.pg == e1.pg && e0.outer == e1.outer && e0.z == e1.z;
  }

  /** A call in statement position and its replacement have the same outcome. */
  lemma CallSite(w: World, p: Table, h: Func, args: seq<Expr>, site: Site, s: State, n: nat, gs: set<Name>)
    requires Accepted(h) && GuardsClean(h) && NamesClean(h, site) && SiteNames(h, site)
    requires CallReady(w, p, h, args, site, s, gs)
    ensures var a := EvalArgs(w, p, args, s, n);
            CallOutcome(h, site, a, CallResult(w, p, h, a, n), ExecSeq(w, p, Replacement(h, site), s, n))
  {
    var ts := NewNames(h, site);
    PrefixRun(w, p, site.plans, args, s, s, n, ts, AWrites(args), gs);
    FrameArgs(w, p, args, s, n, gs);
    var a, b := EvalArgs(w, p, args, s, n), ExecSeq(w, p, Prefix(site.plans), s, n);
    var z := SiteSubst(h, site);
    var rest := if Guards(h.body) == [] then Substs(h.body, z)
                else [If(Condition(Guards(h.body), z), BSubst(Tail(h.body), z), [])];
    ExecAppend(w, p, Prefix(site.plans), rest, s, n);
    if a.Ok? {
      if Guards(h.body) == [] {
        forall x | x in Decls(h.body)
          ensures b.st.l[Target(site, x)] == None
        {
          DeclsBinders(h.body);
          assert Target(site, x) in ts && Target(site, x) !in Temps(site.plans);
        }
        GuardlessCall(w, p, h, args, site, a.val, s, a.st, b.st, n, gs);
      } else {
        GuardedCall(w, p, h, args, site, a.val, s, a.st, b.st, n, gs);
      }
    }
  }
}
