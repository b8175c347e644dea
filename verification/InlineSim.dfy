/**
 * Running code in the helper's own frame and running its substituted copy inside
 * the caller's frame give the same outcome: the simulation behind inlining.
 */
module InlineSim {
  import opened Wrappers
  import opened Script
  import opened ScriptFacts
  import opened GuardInversion
  import opened Inliner

  /** `val`: what each substituted parameter is worth. `dead`: helper names that do
      not occur in the code at hand. `pl`, `pg`: locals and globals of the caller
      that must keep these values. `binders`: names the helper declares. `outer`:
      names the helper takes from the module. `kept`: dead helper locals and their values. */
  datatype Env = Env(z: Subst, val: map<Name, Value>, dead: set<Name>,
                     pl: map<Name, Option<Value>>, pg: map<Name, Value>,
                     binders: set<Name>, outer: set<Name>, kept: map<Name, Option<Value>>)

  ghost predicate Prot(env: Env, s: State) {
    && (forall x :: x in env.pl ==> x in s.l && s.l[x] == env.pl[x])
    && (forall x :: x in env.pg ==> x !in s.l && x in s.g && s.g[x] == env.pg[x])
  }

  /** The protected values of some names. */
  ghost predicate ProtOn(env: Env, names: set<Name>, s: State) {
    && (forall x :: x in names && x in env.pl ==> x in s.l && s.l[x] == env.pl[x])
    && (forall x :: x in names && x in env.pg ==> x !in s.l && x in s.g && s.g[x] == env.pg[x])
  }

  /** A substituted argument is worth the parameter in every state that protects its names. */
  ghost predicate Worth(w: World, p: Table, env: Env, e: Expr, v: Value) {
    forall s, n :: ProtOn(env, ENames(e), s) ==> Eval(w, p, e, s, n) == Ok(v, s)
  }

  ghost predicate Good(w: World, p: Table, env: Env) {
    && env.z.arg.Keys !! env.z.ren.Keys
    && env.z.arg.Keys <= env.val.Keys
    && (forall x, y :: x in env.z.ren && y in env.z.ren && x != y ==> env.z.ren[x] != env.z.ren[y])
    && (forall x :: x in env.z.ren && x !in env.dead ==> env.z.ren[x] !in env.pl && env.z.ren[x] !in env.pg)
    && env.pg.Keys !! env.binders
    && env.outer !! env.z.arg.Keys + env.z.ren.Keys
    && (forall x :: x in env.z.arg && x !in env.dead ==> Worth(w, p, env, env.z.arg[x], env.val[x]))
    && env.kept.Keys <= env.dead
    && Stable(w, p, env.pg.Keys)
  }

  /** A helper local at hand that has kept its name. */
  predicate Plainly(env: Env, u: Name, locals: set<Name>) {
    u in locals && u !in env.dead && u !in env.z.arg && u !in env.z.ren
  }

  /** Such a local is none of the names that stand for others. */
  ghost predicate Apart(env: Env, locals: set<Name>) {
    forall u :: Plainly(env, u, locals) ==>
      u !in env.pl && u !in env.pg && forall x :: x in env.z.ren && x !in env.dead ==> env.z.ren[x] != u
  }

  /** `sh`: the helper's frame; `sc`: the caller's. */
  ghost predicate Match(env: Env, sh: State, sc: State) {
    && sh.g == sc.g && sh.tr == sc.tr
    && Prot(env, sc)
    && sh.l.Keys <= env.binders + env.z.arg.Keys + env.dead
    && env.z.ren.Keys <= sh.l.Keys
    && (forall x :: x in env.outer ==> x !in sh.l && x !in sc.l)
    && (forall x :: x in sh.l && x !in env.dead ==> Matched(env, x, sh, sc))
    && (forall x :: x in env.kept ==> x in sh.l && sh.l[x] == env.kept[x])
    && Apart(env, sh.l.Keys)
  }

  ghost predicate Matched(env: Env, x: Name, sh: State, sc: State)
    requires x in sh.l
  {
    if x in env.z.arg then x in env.val && sh.l[x] == Some(env.val[x])
    else Renamed(x, env.z) in sc.l && sc.l[Renamed(x, env.z)] == sh.l[x]
  }

  ghost predicate SameOutcome<T(!new)>(env: Env, sh: State, sc: State, a: Outcome<T>, b: Outcome<T>) {
    match a
    case Div => b.Div?
    case Exc(v, g, tr) => b == Exc(v, g, tr)
    case Ok(v, s) =>
      && b.Ok? && b.val == v && Match(env, s, b.st)
      && s.l.Keys == sh.l.Keys && b.st.l.Keys == sc.l.Keys
  }

  /** The names used and written are ones the two frames treat alike. */
  ghost predicate Fits(env: Env, names: set<Name>, writes: set<Name>, sh: State) {
    && (forall x :: x in names ==> (x in sh.l || x in env.outer) && x !in env.dead)
    && (forall x :: x in writes ==> x !in env.z.arg && x !in env.pg)
  }

  lemma {:induction false} SimExpr(w: World, p: Table, env: Env, e: Expr, sh: State, sc: State, n: nat)
    requires Good(w, p, env) && Match(env, sh, sc) && Fits(env, ENames(e), EWrites(e), sh)
    ensures SameOutcome(env, sh, sc, Eval(w, p, e, sh, n), Eval(w, p, ESubst(e, env.z), sc, n))
    decreases e, 1
  {
    hide Good, Match;
    match e
    case Lit(_) =>
    case Var(x) => SimVar(w, p, env, x, sh, sc, n);
    case Paren(_) => SimWrap(w, p, env, e, sh, sc, n);
    case Not(_) => SimWrap(w, p, env, e, sh, sc, n);
    case Get(_, _) => SimField(w, p, env, e, sh, sc, n);
    case Assign(_, _) => SimAssign(w, p, env, e, sh, sc, n);
    case Call(f, args) =>
      SimArgs(w, p, env, args, sh, sc, n);
      var r, r' := EvalArgs(w, p, args, sh, n), EvalArgs(w, p, ASubst(args, env.z), sc, n);
      if r.Ok? {
        SimCall(w, p, env, f, r.val, r.st, r'.st, n);
      }
    case And(l, r) => SimChoice(w, p, env, e, l, r, sh, sc, n);
    case Or(l, r) => SimChoice(w, p, env, e, l, r, sh, sc, n);
    case Cmp(_, l, r) => SimCmp(w, p, env, e, sh, sc, n);
  }

  lemma {:induction false} SimWrap(w: World, p: Table, env: Env, e: Expr, sh: State, sc: State, n: nat)
    requires e.Paren? || e.Not?
    requires Good(w, p, env) && Match(env, sh, sc) && Fits(env, ENames(e), EWrites(e), sh)
    ensures SameOutcome(env, sh, sc, Eval(w, p, e, sh, n), Eval(w, p, ESubst(e, env.z), sc, n))
    decreases e, 0
  {
    hide Good, Match;
    SimExpr(w, p, env, e.e, sh, sc, n);
  }

  lemma {:induction false} SimField(w: World, p: Table, env: Env, e: Expr, sh: State, sc: State, n: nat)
    requires e.Get?
    requires Good(w, p, env) && Match(env, sh, sc) && Fits(env, ENames(e), EWrites(e), sh)
    ensures SameOutcome(env, sh, sc, Eval(w, p, e, sh, n), Eval(w, p, ESubst(e, env.z), sc, n))
    decreases e, 0
  {
    hide Good, Match;
    SimExpr(w, p, env, e.o, sh, sc, n);
    var r, r' := Eval(w, p, e.o, sh, n), Eval(w, p, ESubst(e.o, env.z), sc, n);
    if r.Ok? {
      SimGet(w, p, env, r.val, e.field, r.st, r'.st);
    }
  }

  lemma {:induction false} SimAssign(w: World, p: Table, env: Env, e: Expr, sh: State, sc: State, n: nat)
    requires e.Assign?
    requires Good(w, p, env) && Match(env, sh, sc) && Fits(env, ENames(e), EWrites(e), sh)
    ensures SameOutcome(env, sh, sc, Eval(w, p, e, sh, n), Eval(w, p, ESubst(e, env.z), sc, n))
    decreases e, 0
  {
    hide Good, Match;
    SimExpr(w, p, env, e.e, sh, sc, n);
    var r, r' := Eval(w, p, e.e, sh, n), Eval(w, p, ESubst(e.e, env.z), sc, n);
    if r.Ok? {
      SimWrite(w, p, env, e.x, r.val, r.st, r'.st);
    }
  }

  lemma {:induction false} SimChoice(w: World, p: Table, env: Env, e: Expr, l: Expr, r: Expr, sh: State, sc: State, n: nat)
    requires (e.And? || e.Or?) && e.l == l && e.r == r
    requires Good(w, p, env) && Match(env, sh, sc) && Fits(env, ENames(e), EWrites(e), sh)
    ensures SameOutcome(env, sh, sc, Eval(w, p, e, sh, n), Eval(w, p, ESubst(e, env.z), sc, n))
    decreases e, 0
  {
    hide Good, Match;
    SimExpr(w, p, env, l, sh, sc, n);
    var a, b := Eval(w, p, l, sh, n), Eval(w, p, ESubst(l, env.z), sc, n);
    if a.Ok? {
      SimExpr(w, p, env, r, a.st, b.st, n);
    }
  }

  lemma {:induction false} SimCmp(w: World, p: Table, env: Env, e: Expr, sh: State, sc: State, n: nat)
    requires e.Cmp?
    requires Good(w, p, env) && Match(env, sh, sc) && Fits(env, ENames(e), EWrites(e), sh)
    ensures SameOutcome(env, sh, sc, Eval(w, p, e, sh, n), Eval(w, p, ESubst(e, env.z), sc, n))
    decreases e, 0
  {
    hide Good, Match;
    SimExpr(w, p, env, e.l, sh, sc, n);
    var a, b := Eval(w, p, e.l, sh, n), Eval(w, p, ESubst(e.l, env.z), sc, n);
    if a.Ok? {
      SimExpr(w, p, env, e.r, a.st, b.st, n);
    }
  }

  /** Only globals and the trace move; protected globals stay. */
  lemma SimGlobals(w: World, p: Table, env: Env, g: Globals, tr: Trace, sh: State, sc: State)
    requires Match(env, sh, sc) && GlobalsKept(env.pg.Keys, sc.g, g)
    ensures Match(env, State(g, sh.l, tr), State(g, sc.l, tr))
  {
    hide Apart;
    var sh', sc' := State(g, sh.l, tr), State(g, sc.l, tr);
    forall x | x in sh'.l && x !in env.dead
      ensures Matched(env, x, sh', sc')
    {
      assert Matched(env, x, sh, sc);
    }
  }

  lemma SimForeign(w: World, p: Table, env: Env, ef: Effect, sh: State, sc: State)
    requires Match(env, sh, sc) && GlobalsKept(env.pg.Keys, sc.g, ef.g)
    ensures SameOutcome(env, sh, sc, Foreign(ef, sh), Foreign(ef, sc))
  {
    SimGlobals(w, p, env, ef.g, sh.tr + ef.tr, sh, sc);
  }

  /** What evaluating `f(…)` does once its arguments are known. */
  function CallValues(w: World, p: Table, f: Name, vs: seq<Value>, s: State, n: nat): Outcome<Value> {
    if f !in p then Foreign(w.call(f, vs, s.g, s.tr), s)
    else if n == 0 then Div
    else
      var (v, s2) :- Invoke(w, p, p[f], vs, s.g, s.tr, n - 1);
      Ok(v, State(s2.g, s.l, s2.tr))
  }

  lemma SimCall(w: World, p: Table, env: Env, f: Name, vs: seq<Value>, sh: State, sc: State, n: nat)
    requires Good(w, p, env) && Match(env, sh, sc)
    ensures SameOutcome(env, sh, sc, CallValues(w, p, f, vs, sh, n), CallValues(w, p, f, vs, sc, n))
  {
    if f !in p {
      SimForeign(w, p, env, w.call(f, vs, sh.g, sh.tr), sh, sc);
    } else if n > 0 {
      FrameInvoke(w, p, f, vs, sh.g, sh.tr, n - 1, env.pg.Keys);
      var r := Invoke(w, p, p[f], vs, sh.g, sh.tr, n - 1);
      if r.Ok? {
        SimGlobals(w, p, env, r.st.g, r.st.tr, sh, sc);
      }
    }
  }

  lemma SimGet(w: World, p: Table, env: Env, v: Value, field: Name, sh: State, sc: State)
    requires Good(w, p, env) && Match(env, sh, sc)
    ensures SameOutcome(env, sh, sc, Foreign(w.get(v, field, sh.g, sh.tr), sh), Foreign(w.get(v, field, sc.g, sc.tr), sc))
  {
    SimForeign(w, p, env, w.get(v, field, sh.g, sh.tr), sh, sc);
  }

  lemma SimVar(w: World, p: Table, env: Env, x: Name, sh: State, sc: State, n: nat)
    requires Good(w, p, env) && Match(env, sh, sc) && Fits(env, {x}, {}, sh)
    ensures SameOutcome(env, sh, sc, Eval(w, p, Var(x), sh, n), Eval(w, p, ESubst(Var(x), env.z), sc, n))
  {
    hide Stable, Apart;
    if x in sh.l {
      assert Matched(env, x, sh, sc);
      if x in env.z.arg {
        assert Worth(w, p, env, env.z.arg[x], env.val[x]);
      }
    }
  }

  lemma SimWrite(w: World, p: Table, env: Env, x: Name, v: Value, sh: State, sc: State)
    requires Good(w, p, env) && Match(env, sh, sc) && Fits(env, {x}, {x}, sh)
    ensures SameOutcome(env, sh, sc, Write(x, v, sh), Write(Renamed(x, env.z), v, sc))
  {
    if x in sh.l {
      assert Matched(env, x, sh, sc);
      var sh', sc' := sh.(l := sh.l[x := Some(v)]), sc.(l := sc.l[Renamed(x, env.z) := Some(v)]);
      SimStore(w, p, env, x, v, sh, sc);
    }
  }

  lemma SimStore(w: World, p: Table, env: Env, x: Name, v: Value, sh: State, sc: State)
    requires Good(w, p, env) && Match(env, sh, sc) && Fits(env, {x}, {x}, sh) && x in sh.l
    ensures var sc' := sc.(l := sc.l[Renamed(x, env.z) := Some(v)]);
            && Match(env, sh.(l := sh.l[x := Some(v)]), sc')
            && sc'.l.Keys == sc.l.Keys
  {
    hide Worth, Stable, Apart;
    var y := Renamed(x, env.z);
    var sh', sc' := sh.(l := sh.l[x := Some(v)]), sc.(l := sc.l[y := Some(v)]);
    assert Matched(env, x, sh, sc);
    assert sc'.l.Keys == sc.l.Keys && sh'.l.Keys == sh.l.Keys;
    StoresApart(w, p, env, x, sh, sc);
    forall u | u in sh'.l && u !in env.dead
      ensures Matched(env, u, sh', sc')
    {
      assert Matched(env, u, sh, sc);
    }
  }

  /** The variable that a write reaches is no protected one, and stands for no other. */
  lemma StoresApart(w: World, p: Table, env: Env, x: Name, sh: State, sc: State)
    requires Good(w, p, env) && Match(env, sh, sc) && x in sh.l && x !in env.dead && x !in env.z.arg
    ensures var y := Renamed(x, env.z);
            y !in env.pl && forall u :: u in sh.l && u !in env.dead && u !in env.z.arg && u != x ==> Renamed(u, env.z) != y
  {
    hide Worth, Stable, Matched, Prot;
    var keys := sh.l.Keys;
    if x !in env.z.ren { assert Plainly(env, x, keys); }
    forall u | u in sh.l && u !in env.dead && u !in env.z.arg && u != x ensures Renamed(u, env.z) != Renamed(x, env.z) {
      if u !in env.z.ren { assert Plainly(env, u, keys); }
    }
  }

  lemma {:induction false} SimArgs(w: World, p: Table, env: Env, args: seq<Expr>, sh: State, sc: State, n: nat)
    requires Good(w, p, env) && Match(env, sh, sc) && Fits(env, ANames(args), AWrites(args), sh)
    ensures SameOutcome(env, sh, sc, EvalArgs(w, p, args, sh, n), EvalArgs(w, p, ASubst(args, env.z), sc, n))
    decreases args, 0
  {
    hide Good, Match;
    if args != [] {
      SimExpr(w, p, env, args[0], sh, sc, n);
      var a, b := Eval(w, p, args[0], sh, n), Eval(w, p, ESubst(args[0], env.z), sc, n);
      if a.Ok? {
        SimArgs(w, p, env, args[1..], a.st, b.st, n);
      }
    }
  }

  // ----- blocks -----

  /** Names that occur nowhere in a block because the block declares what stands for them. */
  function Taken(env: Env, d: set<Name>): set<Name> {
    set x | x in env.z.arg.Keys + env.z.ren.Keys && x !in d && x !in env.dead && Captures(d, x, env.z)
  }

  /** The environment inside a block that declares `d`: what it shadows is hidden, and
      the caller's copy of a shadowed renamed local is protected until the block ends. A name whose
      replacement the block declares is dead there, and keeps its value. */
  ghost function Inside(env: Env, d: set<Name>, sh: State, sc: State): Env {
    env.(z := Hide(env.z, d), outer := env.outer - d, dead := env.dead - d + Taken(env, d),
         pl := (env.pl - d)
               + (map t | t in (set x | x in d && x in env.z.ren && x !in env.dead :: env.z.ren[x]) && t in sc.l && t !in d
                  :: sc.l[t]),
         kept := (env.kept - d) + (map x | x in Taken(env, d) && x in sh.l :: sh.l[x]))
  }

  lemma EnterGood(w: World, p: Table, env: Env, d: set<Name>, sh: State, sc: State)
    requires Good(w, p, env) && Match(env, sh, sc) && d <= env.binders
    ensures Good(w, p, Inside(env, d, sh, sc))
  {
    hide Worth, Stable, Match, Matched, Prot, Apart;
    var env' := Inside(env, d, sh, sc);
    forall x | x in env'.z.ren && x !in env'.dead
      ensures env'.z.ren[x] !in env'.pl && env'.z.ren[x] !in env'.pg
    {
      assert x !in env.dead && x !in Taken(env, d);
    }
    forall x | x in env'.z.arg && x !in env'.dead
      ensures Worth(w, p, env', env'.z.arg[x], env'.val[x])
    {
      assert x !in env.dead && x !in Taken(env, d) && !Captures(d, x, env.z);
      WorthInside(w, p, env, d, sh, sc, x);
    }
  }

  lemma WorthInside(w: World, p: Table, env: Env, d: set<Name>, sh: State, sc: State, x: Name)
    requires Good(w, p, env) && x in env.z.arg && x !in env.dead && ENames(env.z.arg[x]) !! d
    ensures Worth(w, p, Inside(env, d, sh, sc), env.z.arg[x], env.val[x])
  {
    var env', e := Inside(env, d, sh, sc), env.z.arg[x];
    assert Worth(w, p, env, e, env.val[x]);
    forall s, n: nat | ProtOn(env', ENames(e), s)
      ensures Eval(w, p, e, s, n) == Ok(env.val[x], s)
    {
      forall y | y in ENames(e) && y in env.pl ensures y in s.l && s.l[y] == env.pl[y] {
        assert y in env'.pl && env'.pl[y] == env.pl[y];
      }
      assert ProtOn(env, ENames(e), s);
    }
  }

  lemma EnterMatch(w: World, p: Table, env: Env, d: set<Name>, sh: State, sc: State)
    requires Good(w, p, env) && Match(env, sh, sc) && d <= env.binders
    ensures Match(Inside(env, d, sh, sc), Enter(sh, d), Enter(sc, d))
  {
    hide Worth, Stable, Apart, Taken, Matched, Prot, Good, Inside;
    var env' := Inside(env, d, sh, sc);
    var sh', sc' := Enter(sh, d), Enter(sc, d);
    GoodNames(w, p, env);
    EnterProt(env, d, sh, sc);
    EnterKeys(env, d, sh, sc);
    EnterKept(env, d, sh, sc);
    forall x | x in sh'.l && x !in env'.dead
      ensures Matched(env', x, sh', sc')
    {
      EnterMatched(env, d, sh, sc, x);
    }
    EnterApart(env, d, sh, sc);
    assert sh'.l.Keys == sh.l.Keys + d;
  }

  lemma EnterKeys(env: Env, d: set<Name>, sh: State, sc: State)
    requires Match(env, sh, sc) && d <= env.binders
    ensures var env', sh', sc' := Inside(env, d, sh, sc), Enter(sh, d), Enter(sc, d);
            && sh'.l.Keys <= env'.binders + env'.z.arg.Keys + env'.dead
            && env'.z.ren.Keys <= sh'.l.Keys
            && (forall x :: x in env'.outer ==> x !in sh'.l && x !in sc'.l)
  {
    hide Apart, Taken, Matched, Prot;
    TakenNames(env, d);
    var env', sh' := Inside(env, d, sh, sc), Enter(sh, d);
    forall x | x in sh'.l ensures x in env'.binders + env'.z.arg.Keys + env'.dead {
      if x !in d { assert x in sh.l; }
    }
  }

  lemma EnterKept(env: Env, d: set<Name>, sh: State, sc: State)
    requires Match(env, sh, sc)
    ensures forall x :: x in Inside(env, d, sh, sc).kept ==>
              x in Enter(sh, d).l && Enter(sh, d).l[x] == Inside(env, d, sh, sc).kept[x]
  {
    hide Apart, Taken, Matched, Prot;
    TakenNames(env, d);
  }

  lemma GoodNames(w: World, p: Table, env: Env)
    requires Good(w, p, env)
    ensures env.pg.Keys !! env.binders && env.kept.Keys <= env.dead
    ensures env.z.arg.Keys !! env.z.ren.Keys
  {
    hide Worth, Stable;
  }

  lemma EnterProt(env: Env, d: set<Name>, sh: State, sc: State)
    requires Prot(env, sc) && d <= env.binders && env.pg.Keys !! env.binders
    ensures Prot(Inside(env, d, sh, sc), Enter(sc, d))
  {
    hide Taken;
  }

  lemma TakenNames(env: Env, d: set<Name>)
    ensures Taken(env, d) !! d && Taken(env, d) !! env.dead && Taken(env, d) <= env.z.arg.Keys + env.z.ren.Keys
    ensures forall x :: x in env.z.arg.Keys + env.z.ren.Keys && x !in d && x !in env.dead && x !in Taken(env, d) ==>
              !Captures(d, x, env.z)
  {
  }

  lemma EnterMatched(env: Env, d: set<Name>, sh: State, sc: State, x: Name)
    requires Match(env, sh, sc) && x in Enter(sh, d).l && x !in Inside(env, d, sh, sc).dead
    ensures Matched(Inside(env, d, sh, sc), x, Enter(sh, d), Enter(sc, d))
  {
    hide Prot, Apart;
    if x !in d { assert Matched(env, x, sh, sc) && x !in Taken(env, d); }
  }

  lemma EnterApart(env: Env, d: set<Name>, sh: State, sc: State)
    requires Match(env, sh, sc) && d <= env.binders && env.pg.Keys !! env.binders
    ensures Apart(Inside(env, d, sh, sc), sh.l.Keys + d)
  {
    hide Matched, Prot, Taken;
    var env' := Inside(env, d, sh, sc);
    TakenNames(env, d);
    forall u | Plainly(env', u, sh.l.Keys + d)
      ensures u !in env'.pl && u !in env'.pg
      ensures forall x :: x in env'.z.ren && x !in env'.dead ==> env'.z.ren[x] != u
    {
      if u !in d { assert Plainly(env, u, sh.l.Keys); }
    }
  }

  lemma LeaveBlock(w: World, p: Table, env: Env, d: set<Name>, sh: State, sc: State, sh1: State, sc1: State)
    requires Good(w, p, env) && Match(env, sh, sc) && d <= env.binders
    requires Match(Inside(env, d, sh, sc), sh1, sc1)
    requires sh1.l.Keys == sh.l.Keys + d && sc1.l.Keys == sc.l.Keys + d
    ensures Match(env, Leave(sh, d, sh1), Leave(sc, d, sc1))
  {
    hide Worth, Stable, Apart, Taken, Matched, Prot, Inside;
    var sh', sc' := Leave(sh, d, sh1), Leave(sc, d, sc1);
    assert sh'.l.Keys == sh.l.Keys && sc'.l.Keys == sc.l.Keys;
    LeaveProt(w, p, env, d, sh, sc, sc1);
    forall x | x in sh'.l && x !in env.dead
      ensures Matched(env, x, sh', sc')
    {
      LeaveMatched(w, p, env, d, sh, sc, sh1, sc1, x);
    }
    forall x | x in env.kept ensures x in sh'.l && sh'.l[x] == env.kept[x] {
      LeaveKept(w, p, env, d, sh, sc, sh1, sc1, x);
    }
  }

  lemma LeaveProt(w: World, p: Table, env: Env, d: set<Name>, sh: State, sc: State, sc1: State)
    requires Good(w, p, env) && Prot(env, sc) && Prot(Inside(env, d, sh, sc), sc1)
    requires sc1.l.Keys == sc.l.Keys + d
    ensures Prot(env, Leave(sc, d, sc1))
  {
    hide Worth, Stable, Taken;
    var env' := Inside(env, d, sh, sc);
    forall x | x in env.pl ensures x in sc.l && Leave(sc, d, sc1).l[x] == env.pl[x] {
      if x !in d { assert x in env'.pl && env'.pl[x] == env.pl[x]; }
    }
  }

  lemma LeaveKept(w: World, p: Table, env: Env, d: set<Name>, sh: State, sc: State, sh1: State, sc1: State, x: Name)
    requires Good(w, p, env) && Match(env, sh, sc) && Match(Inside(env, d, sh, sc), sh1, sc1)
    requires sh1.l.Keys == sh.l.Keys + d && x in env.kept
    ensures x in sh.l && Leave(sh, d, sh1).l[x] == env.kept[x]
  {
    hide Worth, Stable, Taken, Matched, Prot, Apart;
    TakenNames(env, d);
    var env' := Inside(env, d, sh, sc);
    if x !in d { assert x in env'.kept && env'.kept[x] == env.kept[x]; }
  }

  /** A helper local the block shadows. */
  lemma LeaveShadowed(w: World, p: Table, env: Env, d: set<Name>, sh: State, sc: State, sh1: State, sc1: State, x: Name)
    requires x in sh.l && x !in env.dead && x in d
    requires Good(w, p, env) && Matched(env, x, sh, sc) && Prot(Inside(env, d, sh, sc), sc1)
    requires sh1.l.Keys == sh.l.Keys + d && sc1.l.Keys == sc.l.Keys + d
    ensures Matched(env, x, Leave(sh, d, sh1), Leave(sc, d, sc1))
  {
    hide Worth, Stable, Taken;
    var env' := Inside(env, d, sh, sc);
    if x in env.z.ren && x !in env.z.arg && env.z.ren[x] !in d {
      var t := env.z.ren[x];
      assert t in env'.pl && env'.pl[t] == sc.l[t];
    }
  }

  /** A helper local whose replacement the block declares. */
  lemma LeaveTaken(w: World, p: Table, env: Env, d: set<Name>, sh: State, sc: State, sh1: State, sc1: State, x: Name)
    requires x in sh.l && x !in env.dead && x in Taken(env, d)
    requires Matched(env, x, sh, sc) && (forall y :: y in Inside(env, d, sh, sc).kept ==>
                                           y in sh1.l && sh1.l[y] == Inside(env, d, sh, sc).kept[y])
    requires sh1.l.Keys == sh.l.Keys + d && sc1.l.Keys == sc.l.Keys + d && env.z.arg.Keys !! env.z.ren.Keys
    ensures Matched(env, x, Leave(sh, d, sh1), Leave(sc, d, sc1))
  {
    var env' := Inside(env, d, sh, sc);
    assert x in env'.kept && env'.kept[x] == sh.l[x];
  }

  /** Any other helper local. */
  lemma LeaveLive(w: World, p: Table, env: Env, d: set<Name>, sh: State, sc: State, sh1: State, sc1: State, x: Name)
    requires x in sh.l && x !in env.dead && x !in d && x !in Taken(env, d)
    requires Matched(env, x, sh, sc) && x in sh1.l && Matched(Inside(env, d, sh, sc), x, sh1, sc1)
    requires sh1.l.Keys == sh.l.Keys + d && sc1.l.Keys == sc.l.Keys + d
    ensures Matched(env, x, Leave(sh, d, sh1), Leave(sc, d, sc1))
  {
  }

  lemma LeaveMatched(w: World, p: Table, env: Env, d: set<Name>, sh: State, sc: State, sh1: State, sc1: State, x: Name)
    requires Good(w, p, env) && Match(env, sh, sc) && Match(Inside(env, d, sh, sc), sh1, sc1)
    requires sh1.l.Keys == sh.l.Keys + d && sc1.l.Keys == sc.l.Keys + d
    requires x in sh.l && x !in env.dead
    ensures Matched(env, x, Leave(sh, d, sh1), Leave(sc, d, sc1))
  {
    hide Worth, Stable, Apart, Taken, Matched, Prot;
    var env' := Inside(env, d, sh, sc);
    TakenNames(env, d);
    assert Matched(env, x, sh, sc);
    if x in d {
      LeaveShadowed(w, p, env, d, sh, sc, sh1, sc1, x);
    } else if x in Taken(env, d) {
      LeaveTaken(w, p, env, d, sh, sc, sh1, sc1, x);
    } else {
      LeaveLive(w, p, env, d, sh, sc, sh1, sc1, x);
    }
  }

  lemma {:induction false} SimStmt(w: World, p: Table, env: Env, c: Stmt, sh: State, sc: State, n: nat)
    requires Good(w, p, env) && Match(env, sh, sc) && Fits(env, SFree(c), SWrites(c), sh)
    requires SBinders(c) <= env.binders && (c.Const? ==> c.x in sh.l) && SCaptureFree(c, env.z)
    ensures SameOutcome(env, sh, sc, Exec(w, p, c, sh, n), Exec(w, p, SSubst(c, env.z), sc, n))
    decreases n, c, 1
  {
    hide Good, Match;
    match c
    case Do(e) => SimExpr(w, p, env, e, sh, sc, n);
    case ReturnVal(e) => SimExpr(w, p, env, e, sh, sc, n);
    case Const(x, e) =>
      SimExpr(w, p, env, e, sh, sc, n);
      var r, r' := Eval(w, p, e, sh, n), Eval(w, p, ESubst(e, env.z), sc, n);
      if r.Ok? {
        SimStore(w, p, env, x, r.val, r.st, r'.st);
      }
    case If(e, t, f) => SimIf(w, p, env, c, sh, sc, n);
    case Block(ss) => SimBlock(w, p, env, ss, sh, sc, n);
    case While(e, b) => SimWhile(w, p, env, c, sh, sc, n);
    case _ =>
  }

  lemma {:induction false} SimIf(w: World, p: Table, env: Env, c: Stmt, sh: State, sc: State, n: nat)
    requires c.If?
    requires Good(w, p, env) && Match(env, sh, sc) && Fits(env, SFree(c), SWrites(c), sh)
    requires SBinders(c) <= env.binders && SCaptureFree(c, env.z)
    ensures SameOutcome(env, sh, sc, Exec(w, p, c, sh, n), Exec(w, p, SSubst(c, env.z), sc, n))
    decreases n, c, 0
  {
    hide Good, Match, Fits, SFree, SWrites, BCaptureFree, BSubst, ExecBlock;
    IfParts(env, c, sh);
    SimExpr(w, p, env, c.c, sh, sc, n);
    var r, r' := Eval(w, p, c.c, sh, n), Eval(w, p, ESubst(c.c, env.z), sc, n);
    if r.Ok? {
      IfParts(env, c, r.st);
      if Truthy(r.val) {
        SimBlock(w, p, env, c.thn, r.st, r'.st, n);
      } else {
        SimBlock(w, p, env, c.els, r.st, r'.st, n);
      }
    }
  }

  lemma IfParts(env: Env, c: Stmt, sh: State)
    requires c.If?
    ensures Fits(env, SFree(c), SWrites(c), sh) ==>
              Fits(env, ENames(c.c), EWrites(c.c), sh)
              && Fits(env, Free(c.thn) - Decls(c.thn), Writes(c.thn) - Decls(c.thn), sh)
              && Fits(env, Free(c.els) - Decls(c.els), Writes(c.els) - Decls(c.els), sh)
    ensures SBinders(c) == Binders(c.thn) + Binders(c.els)
    ensures forall sh': State :: sh'.l.Keys == sh.l.Keys && Fits(env, SFree(c), SWrites(c), sh) ==>
              Fits(env, SFree(c), SWrites(c), sh')
  {
  }

  lemma WhileParts(env: Env, c: Stmt, sh: State)
    requires c.While?
    ensures Fits(env, SFree(c), SWrites(c), sh) ==>
              Fits(env, ENames(c.c), EWrites(c.c), sh)
              && Fits(env, Free(c.body) - Decls(c.body), Writes(c.body) - Decls(c.body), sh)
    ensures SBinders(c) == Binders(c.body)
    ensures forall sh': State :: sh'.l.Keys == sh.l.Keys && Fits(env, SFree(c), SWrites(c), sh) ==>
              Fits(env, SFree(c), SWrites(c), sh')
  {
  }

  lemma {:induction false} SimWhile(w: World, p: Table, env: Env, c: Stmt, sh: State, sc: State, n: nat)
    requires c.While?
    requires Good(w, p, env) && Match(env, sh, sc) && Fits(env, SFree(c), SWrites(c), sh)
    requires SBinders(c) <= env.binders && SCaptureFree(c, env.z)
    ensures SameOutcome(env, sh, sc, Exec(w, p, c, sh, n), Exec(w, p, SSubst(c, env.z), sc, n))
    decreases n, c, 0
  {
    hide Good, Match, Fits, SFree, SWrites, BCaptureFree, BSubst, ExecBlock;
    var e, b := c.c, c.body;
    WhileParts(env, c, sh);
    SimExpr(w, p, env, e, sh, sc, n);
    var r, r' := Eval(w, p, e, sh, n), Eval(w, p, ESubst(e, env.z), sc, n);
    if r.Ok? && Truthy(r.val) {
      WhileParts(env, c, r.st);
      SimBlock(w, p, env, b, r.st, r'.st, n);
      var q, q' := ExecBlock(w, p, b, r.st, n), ExecBlock(w, p, BSubst(b, env.z), r'.st, n);
      if q.Ok? && !q.val.Brk? && !q.val.Ret? && n > 0 {
        SimWhile(w, p, env, c, q.st, q'.st, n - 1);
      }
    }
  }

  lemma {:induction false} SimSeq(w: World, p: Table, env: Env, ss: seq<Stmt>, sh: State, sc: State, n: nat)
    requires Good(w, p, env) && Match(env, sh, sc) && Fits(env, Free(ss), Writes(ss), sh)
    requires Binders(ss) <= env.binders && Decls(ss) <= sh.l.Keys && CaptureFree(ss, env.z)
    ensures SameOutcome(env, sh, sc, ExecSeq(w, p, ss, sh, n), ExecSeq(w, p, Substs(ss, env.z), sc, n))
    decreases n, ss, 0
  {
    hide Good, Match;
    if ss != [] {
      SimStmt(w, p, env, ss[0], sh, sc, n);
      var a, b := Exec(w, p, ss[0], sh, n), Exec(w, p, SSubst(ss[0], env.z), sc, n);
      if a.Ok? && a.val.Next? {
        SimSeq(w, p, env, ss[1..], a.st, b.st, n);
      }
    }
  }

  lemma {:induction false} DeclsBinders(ss: seq<Stmt>)
    ensures Decls(ss) <= Binders(ss)
  {
    if ss != [] {
      DeclsBinders(ss[1..]);
    }
  }

  lemma {:induction false} HiddenDecls(ss: seq<Stmt>, z: Subst)
    requires Decls(ss) !! z.ren.Keys
    ensures Decls(Substs(ss, z)) == Decls(ss)
  {
    if ss != [] {
      HiddenDecls(ss[1..], z);
    }
  }

  lemma FitsInside(env: Env, names: set<Name>, writes: set<Name>, d: set<Name>, sh: State, sc: State)
    requires Fits(env, names - d, writes - d, sh) && d <= env.binders && env.pg.Keys !! env.binders
    requires NoneCaptured(d, names, env.z)
    ensures Fits(Inside(env, d, sh, sc), names, writes, Enter(sh, d))
  {
  }

  lemma LeaveOutcome(w: World, p: Table, env: Env, d: set<Name>, sh: State, sc: State,
                     a: Outcome<Signal>, b: Outcome<Signal>)
    requires Good(w, p, env) && Match(env, sh, sc) && d <= env.binders
    requires SameOutcome(Inside(env, d, sh, sc), Enter(sh, d), Enter(sc, d), a, b)
    ensures a.Ok? ==> b.Ok? && b.val == a.val && Match(env, Leave(sh, d, a.st), Leave(sc, d, b.st))
  {
    if a.Ok? {
      LeaveBlock(w, p, env, d, sh, sc, a.st, b.st);
    }
  }

  lemma {:induction false} SimBlock(w: World, p: Table, env: Env, ss: seq<Stmt>, sh: State, sc: State, n: nat)
    requires Good(w, p, env) && Match(env, sh, sc) && Fits(env, Free(ss) - Decls(ss), Writes(ss) - Decls(ss), sh)
    requires Binders(ss) <= env.binders && BCaptureFree(ss, env.z)
    ensures SameOutcome(env, sh, sc, ExecBlock(w, p, ss, sh, n), ExecBlock(w, p, BSubst(ss, env.z), sc, n))
    decreases n, ss, 1
  {
    hide Good, Match;
    var d := Decls(ss);
    DeclsBinders(ss);
    HiddenDecls(ss, Hide(env.z, d));
    GoodNames(w, p, env);
    var env' := Inside(env, d, sh, sc);
    EnterGood(w, p, env, d, sh, sc);
    EnterMatch(w, p, env, d, sh, sc);
    FitsInside(env, Free(ss), Writes(ss), d, sh, sc);
    var sh', sc' := Enter(sh, d), Enter(sc, d);
    SimSeq(w, p, env', ss, sh', sc', n);
    LeaveOutcome(w, p, env, d, sh, sc, ExecSeq(w, p, ss, sh', n), ExecSeq(w, p, Substs(ss, env'.z), sc', n));
  }

  lemma {:induction false} EWritesNames(e: Expr)
    ensures EWrites(e) <= ENames(e)
  {
    match e
    case Paren(a) => EWritesNames(a);
    case Get(o, _) => EWritesNames(o);
    case Call(_, args) => AWritesNames(args);
    case Not(a) => EWritesNames(a);
    case And(l, r) => EWritesNames(l); EWritesNames(r);
    case Or(l, r) => EWritesNames(l); EWritesNames(r);
    case Cmp(_, l, r) => EWritesNames(l); EWritesNames(r);
    case Assign(_, a) => EWritesNames(a);
    case _ =>
  }

  lemma {:induction false} AWritesNames(args: seq<Expr>)
    ensures AWrites(args) <= ANames(args)
  {
    if args != [] {
      EWritesNames(args[0]);
      AWritesNames(args[1..]);
    }
  }

  lemma {:induction false} SWritesFree(c: Stmt)
    ensures SWrites(c) <= SFree(c)
  {
    match c
    case Do(e) => EWritesNames(e);
    case Const(_, e) => EWritesNames(e);
    case ReturnVal(e) => EWritesNames(e);
    case If(e, t, f) => EWritesNames(e); WritesFree(t); WritesFree(f);
    case Block(ss) => WritesFree(ss);
    case While(e, b) => EWritesNames(e); WritesFree(b);
    case _ =>
  }

  lemma {:induction false} WritesFree(ss: seq<Stmt>)
    ensures Writes(ss) <= Free(ss)
  {
    if ss != [] {
      SWritesFree(ss[0]);
      WritesFree(ss[1..]);
    }
  }
}
