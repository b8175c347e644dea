/**
 * One call site: the replacement statements do exactly what the call does.
 */
module InlineSite {
  import opened Wrappers
  import opened Script
  import opened ScriptFacts
  import opened FreshNames
  import opened GuardInversion
  import opened Inliner
  import opened InlineSim

  // ----- the empty substitution -----

  const NoSubst := Subst(map[], map[])

  lemma {:induction false} ESubstNone(e: Expr)
    ensures ESubst(e, NoSubst) == e
  {
    match e
    case Paren(a) => ESubstNone(a);
    case Get(o, _) => ESubstNone(o);
    case Call(_, args) => ASubstNone(args);
    case Not(a) => ESubstNone(a);
    case And(l, r) => ESubstNone(l); ESubstNone(r);
    case Or(l, r) => ESubstNone(l); ESubstNone(r);
    case Cmp(_, l, r) => ESubstNone(l); ESubstNone(r);
    case Assign(_, a) => ESubstNone(a);
    case _ =>
  }

  lemma {:induction false} ASubstNone(args: seq<Expr>)
    ensures ASubst(args, NoSubst) == args
  {
    if args != [] {
      ESubstNone(args[0]);
      ASubstNone(args[1..]);
    }
  }

  // ----- names the code never mentions do not matter -----

  /** Equal states, except for the values of the locals in `ts`. */
  ghost predicate Off(ts: set<Name>, s: State, t: State) {
    && s.g == t.g && s.tr == t.tr && s.l.Keys == t.l.Keys
    && (forall x :: x in s.l && x !in ts ==> t.l[x] == s.l[x])
  }

  ghost predicate SameOff<T(!new)>(ts: set<Name>, a: Outcome<T>, b: Outcome<T>) {
    match a
    case Div => b.Div?
    case Exc(v, g, tr) => b == Exc(v, g, tr)
    case Ok(v, s) => b.Ok? && b.val == v && Off(ts, s, b.st)
  }

  lemma UnmentionedLocals(w: World, p: Table, e: Expr, s: State, t: State, n: nat, ts: set<Name>)
    requires Off(ts, s, t) && ENames(e) !! ts
    ensures SameOff(ts, Eval(w, p, e, s, n), Eval(w, p, e, t, n))
    ensures Eval(w, p, e, s, n).Ok? ==> Eval(w, p, e, s, n).st.l.Keys == s.l.Keys
  {
    var env := Env(NoSubst, map[], ts, map[], map[], s.l.Keys, ENames(e) - s.l.Keys, map[]);
    ESubstNone(e);
    SimExpr(w, p, env, e, s, t, n);
    var a, b := Eval(w, p, e, s, n), Eval(w, p, e, t, n);
    if a.Ok? {
      forall x | x in a.st.l && x !in ts
        ensures b.st.l[x] == a.st.l[x]
      {
        assert Matched(env, x, a.st, b.st);
      }
    }
  }

  // ----- arguments that may be evaluated late -----

  /** Every property read is a plain field: no getter, no failure, no change over time. */
  ghost predicate Plain(w: World, e: Expr) {
    match e
    case Get(o, field) =>
      && Plain(w, o)
      && (forall v, g, tr :: w.get(v, field, g, tr) == Effect.Effect(false, w.get(v, field, map[], []).v, g, []))
    case Paren(a) => Plain(w, a)
    case Not(a) => Plain(w, a)
    case And(l, r) => Plain(w, l) && Plain(w, r)
    case Or(l, r) => Plain(w, l) && Plain(w, r)
    case Cmp(_, l, r) => Plain(w, l) && Plain(w, r)
    case _ => true
  }

  /** Effect-free, and all its variables are initialised. */
  ghost predicate Settled(w: World, e: Expr, s: State) {
    && IsPure(e, false) && Plain(w, e)
    && forall x :: x in ENames(e) ==> if x in s.l then s.l[x].Some? else x in s.g
  }

  ghost predicate AgreeOn(names: set<Name>, s: State, t: State) {
    forall x :: x in names ==>
      && (x in s.l <==> x in t.l)
      && (x in s.l ==> t.l[x] == s.l[x])
      && (x !in s.l && x in s.g ==> x in t.g && t.g[x] == s.g[x])
  }

  lemma {:induction false} SettledValue(w: World, p: Table, e: Expr, s: State, t: State, n: nat, m: nat)
    requires Settled(w, e, s) && AgreeOn(ENames(e), s, t)
    ensures Eval(w, p, e, s, n).Ok? && Eval(w, p, e, s, n).st == s
    ensures Eval(w, p, e, t, m) == Ok(Eval(w, p, e, s, n).val, t)
    decreases e, 1
  {
    match e
    case Lit(_) =>
    case Var(_) =>
    case Paren(a) => SettledValue(w, p, a, s, t, n, m);
    case Get(o, _) => SettledValue(w, p, o, s, t, n, m); assert s.tr + [] == s.tr; assert t.tr + [] == t.tr;
    case Not(a) => SettledValue(w, p, a, s, t, n, m);
    case And(l, r) => SettledPair(w, p, e, l, r, s, t, n, m);
    case Or(l, r) => SettledPair(w, p, e, l, r, s, t, n, m);
    case Cmp(_, l, r) => SettledPair(w, p, e, l, r, s, t, n, m);
  }

  lemma {:induction false} SettledPair(w: World, p: Table, e: Expr, l: Expr, r: Expr, s: State, t: State, n: nat, m: nat)
    requires (e.And? || e.Or? || e.Cmp?) && e.l == l && e.r == r
    requires Settled(w, e, s) && AgreeOn(ENames(e), s, t)
    ensures Eval(w, p, e, s, n).Ok? && Eval(w, p, e, s, n).st == s
    ensures Eval(w, p, e, t, m) == Ok(Eval(w, p, e, s, n).val, t)
    decreases e, 0
  {
    SettledValue(w, p, l, s, t, n, m);
    SettledValue(w, p, r, s, t, n, m);
  }

  ghost predicate WorthAt(w: World, p: Table, e: Expr, v: Value, s: State) {
    forall m: nat :: Eval(w, p, e, s, m) == Ok(v, s)
  }

  // ----- running the hoisted prefix -----

  /** Plan `i` is a plan for argument `i`. */
  ghost predicate ForArgs(plans: seq<Plan>, args: seq<Expr>) {
    && |args| <= |plans|
    && (forall i :: 0 <= i < |args| ==>
          (plans[i].Drop? || plans[i].Keep? || plans[i].Hoist? || plans[i].Inline?) && plans[i].e == args[i])
    && (forall i :: |args| <= i < |plans| ==> plans[i].Skip? || plans[i].Missing?)
  }

  ghost predicate DistinctTemps(plans: seq<Plan>) {
    plans == [] ||
    (&& DistinctTemps(plans[1..])
     && (plans[0].Hoist? ==> plans[0].temp !in Temps(plans[1..])))
  }

  /** Every argument not evaluated up front is settled now, reads only locals and
      globals in `gs`, and nothing the other arguments write. */
  ghost predicate LazyOk(w: World, plans: seq<Plan>, s: State, writes: set<Name>, gs: set<Name>) {
    forall i :: 0 <= i < |plans| && plans[i].Lazy() ==>
      && Settled(w, plans[i].e, s)
      && ENames(plans[i].e) !! writes
      && forall x :: x in ENames(plans[i].e) && x !in s.l ==> x in gs
  }

  ghost predicate Computed(w: World, p: Table, plans: seq<Plan>, vs: seq<Value>, s: State, t: State)
    requires |vs| <= |plans|
  {
    forall i :: 0 <= i < |vs| ==>
      && (plans[i].Hoist? ==> plans[i].temp in t.l && t.l[plans[i].temp] == Some(vs[i]))
      && (plans[i].Lazy() ==> Settled(w, plans[i].e, s) && WorthAt(w, p, plans[i].e, vs[i], s))
  }

  lemma KeptAgrees(w: World, e: Expr, s: State, t: State, ws: set<Name>, gs: set<Name>)
    requires Settled(w, e, s) && Kept(s, t, ws, gs) && ENames(e) !! ws
    requires forall x :: x in ENames(e) && x !in s.l ==> x in gs
    ensures AgreeOn(ENames(e), s, t) && Settled(w, e, t)
  {
  }

  lemma LazyKept(w: World, plans: seq<Plan>, s: State, t: State, ws: set<Name>, ws': set<Name>, gs: set<Name>)
    requires LazyOk(w, plans, s, ws, gs) && Kept(s, t, ws', gs) && ws' <= ws
    ensures LazyOk(w, plans, t, ws, gs)
    ensures plans != [] ==> LazyOk(w, plans[1..], t, ws, gs)
  {
    forall i | 0 <= i < |plans| && plans[i].Lazy()
      ensures Settled(w, plans[i].e, t)
    {
      KeptAgrees(w, plans[i].e, s, t, ws', gs);
    }
  }

  lemma LazyHead(w: World, p: Table, plans: seq<Plan>, s: State, ws: set<Name>, gs: set<Name>, n: nat)
    requires plans != [] && plans[0].Lazy() && LazyOk(w, plans, s, ws, gs)
    ensures Eval(w, p, plans[0].e, s, n).Ok? && Eval(w, p, plans[0].e, s, n).st == s
  {
    SettledValue(w, p, plans[0].e, s, s, n, n);
  }

  ghost predicate PrefixOutcome(w: World, p: Table, plans: seq<Plan>, args: seq<Expr>, ts: set<Name>, sc: State,
                                a: Outcome<seq<Value>>, b: Outcome<Signal>)
    requires |args| <= |plans|
  {
    match a
    case Div => b.Div?
    case Exc(v, g, tr) => b == Exc(v, g, tr)
    case Ok(vs, s) =>
      && |vs| == |args| && b.Ok? && b.val.Next? && Off(ts, s, b.st)
      && (forall x :: x in sc.l && x in ts && x !in Temps(plans) ==> x in b.st.l && b.st.l[x] == sc.l[x])
      && Computed(w, p, plans, vs, s, b.st)
  }

  /** The state once the prefix has dealt with the first argument, of value `v`. `b`: where evaluating it ends. */
  function AfterHead(plan: Plan, sc: State, b: State, v: Value): State {
    if plan.Lazy() then sc else if plan.Hoist? then b.(l := b.l[plan.temp := Some(v)]) else b
  }

  lemma HeadRun(w: World, p: Table, plans: seq<Plan>, args: seq<Expr>,
                s: State, sc: State, n: nat, ts: set<Name>, ws: set<Name>, gs: set<Name>)
    requires ForArgs(plans, args) && DistinctTemps(plans) && args != []
    requires Off(ts, s, sc) && Temps(plans) <= ts <= s.l.Keys && ANames(args) !! ts
    requires AWrites(args) <= ws && Guarded(ws, gs, s) && Stable(w, p, gs) && LazyOk(w, plans, s, ws, gs)
    ensures var a, b := Eval(w, p, args[0], s, n), Eval(w, p, args[0], sc, n);
            && SameOff(ts, a, b)
            && (plans[0].Lazy() ==> a.Ok? && a.st == s)
            && (a.Ok? ==>
                  var sc1 := AfterHead(plans[0], sc, b.st, a.val);
                  && Off(ts, a.st, sc1) && LazyOk(w, plans[1..], a.st, ws, gs) && LazyOk(w, plans, a.st, ws, gs)
                  && a.st.l.Keys == s.l.Keys && Guarded(ws, gs, a.st)
                  && (forall x :: x in sc.l && x in ts && x !in Temps(plans) ==> x in sc1.l && sc1.l[x] == sc.l[x]))
  {
    hide Stable, LazyOk;
    FrameExpr(w, p, args[0], s, n, gs);
    UnmentionedLocals(w, p, args[0], s, sc, n, ts);
    UnmentionedKept(w, p, args[0], sc, n, ts);
    var a := Eval(w, p, args[0], s, n);
    if plans[0].Lazy() {
      LazyHead(w, p, plans, s, ws, gs, n);
    }
    if a.Ok? {
      LazyKept(w, plans, s, a.st, ws, EWrites(args[0]), gs);
    }
  }

  /** The prefix evaluates what the call evaluates, in the same order, and leaves each
      value where the substituted body will find it. */
  lemma {:induction false} PrefixRun(w: World, p: Table, plans: seq<Plan>, args: seq<Expr>,
                                     s: State, sc: State, n: nat, ts: set<Name>, ws: set<Name>, gs: set<Name>)
    requires ForArgs(plans, args) && DistinctTemps(plans)
    requires Off(ts, s, sc) && Temps(plans) <= ts <= s.l.Keys && ANames(args) !! ts
    requires AWrites(args) <= ws && Guarded(ws, gs, s) && Stable(w, p, gs) && LazyOk(w, plans, s, ws, gs)
    ensures PrefixOutcome(w, p, plans, args, ts, sc, EvalArgs(w, p, args, s, n), ExecSeq(w, p, Prefix(plans), sc, n))
    decreases |plans|
  {
    hide Stable, LazyOk, Computed, Off, Prefix;
    if args == [] {
      NoArgsPrefix(plans);
      NothingComputed(w, p, plans, s, sc);
    } else {
      HeadRun(w, p, plans, args, s, sc, n, ts, ws, gs);
      var a, b := Eval(w, p, args[0], s, n), Eval(w, p, args[0], sc, n);
      if a.Ok? {
        var sc1 := AfterHead(plans[0], sc, b.st, a.val);
        PrefixRun(w, p, plans[1..], args[1..], a.st, sc1, n, ts, ws, gs);
        FrameArgs(w, p, args[1..], a.st, n, gs);
        PrefixStep(w, p, plans, args, s, sc, sc1, n, ts);
        var c, d := EvalArgs(w, p, args[1..], a.st, n), ExecSeq(w, p, Prefix(plans[1..]), sc1, n);
        if c.Ok? {
          ComputedStep(w, p, plans, a.val, c.val, a.st, c.st, d.st, sc1, ts, ws, AWrites(args[1..]), gs, n);
        }
        PrefixCons(w, p, plans, args, ts, sc, sc1, a.val, c, d);
      } else {
        PrefixFails(w, p, plans, args, s, sc, n);
      }
    }
  }

  lemma UnmentionedKept(w: World, p: Table, e: Expr, s: State, n: nat, ts: set<Name>)
    requires ENames(e) !! ts
    ensures Eval(w, p, e, s, n).Ok? ==>
              forall x :: x in s.l && x in ts ==> x in Eval(w, p, e, s, n).st.l && Eval(w, p, e, s, n).st.l[x] == s.l[x]
  {
    EWritesNames(e);
    FrameExpr(w, p, e, s, n, {});
  }

  lemma PrefixCons(w: World, p: Table, plans: seq<Plan>, args: seq<Expr>, ts: set<Name>, sc: State, sc1: State,
                   v: Value, c: Outcome<seq<Value>>, d: Outcome<Signal>)
    requires 0 < |args| <= |plans| && PrefixOutcome(w, p, plans[1..], args[1..], ts, sc1, c, d)
    requires forall x :: x in sc.l && x in ts && x !in Temps(plans) ==> x in sc1.l && sc1.l[x] == sc.l[x]
    requires c.Ok? ==> Computed(w, p, plans, [v] + c.val, c.st, d.st)
    ensures PrefixOutcome(w, p, plans, args, ts, sc, if c.Ok? then Ok([v] + c.val, c.st) else c, d)
  {
    hide Computed;
  }

  lemma NothingComputed(w: World, p: Table, plans: seq<Plan>, s: State, t: State)
    ensures Computed(w, p, plans, [], s, t)
  {
  }

  lemma {:induction false} NoArgsPrefix(plans: seq<Plan>)
    requires forall i :: 0 <= i < |plans| ==> plans[i].Skip? || plans[i].Missing?
    ensures Prefix(plans) == [] && Temps(plans) == {}
  {
    if plans != [] {
      NoArgsPrefix(plans[1..]);
    }
  }

  lemma PrefixStep(w: World, p: Table, plans: seq<Plan>, args: seq<Expr>, s: State, sc: State, sc1: State, n: nat, ts: set<Name>)
    requires ForArgs(plans, args) && args != [] && Eval(w, p, args[0], s, n).Ok?
    requires var b := Eval(w, p, args[0], sc, n);
             if plans[0].Lazy() then sc1 == sc
             else b.Ok? && sc1 == if plans[0].Hoist? then b.st.(l := b.st.l[plans[0].temp := Some(b.val)]) else b.st
    ensures ExecSeq(w, p, Prefix(plans), sc, n) == ExecSeq(w, p, Prefix(plans[1..]), sc1, n)
  {
    var here := if plans[0].Keep? then [Do(plans[0].e)]
                else if plans[0].Hoist? then [Const(plans[0].temp, plans[0].e)] else [];
    assert Prefix(plans) == here + Prefix(plans[1..]);
    ExecAppend(w, p, here, Prefix(plans[1..]), sc, n);
    if here != [] {
      assert here[1..] == [];
    }
  }

  lemma PrefixFails(w: World, p: Table, plans: seq<Plan>, args: seq<Expr>, s: State, sc: State, n: nat)
    requires ForArgs(plans, args) && args != [] && !plans[0].Lazy()
    requires !Eval(w, p, args[0], sc, n).Ok?
    ensures ExecSeq(w, p, Prefix(plans), sc, n) == Eval(w, p, args[0], sc, n).PropagateFailure()
  {
    var here := if plans[0].Keep? then [Do(plans[0].e)] else [Const(plans[0].temp, plans[0].e)];
    assert Prefix(plans) == here + Prefix(plans[1..]);
    ExecAppend(w, p, here, Prefix(plans[1..]), sc, n);
  }

  lemma ComputedStep(w: World, p: Table, plans: seq<Plan>, v: Value, vs: seq<Value>, s1: State, s2: State, t: State, sc1: State,
                     ts: set<Name>, ws: set<Name>, ws': set<Name>, gs: set<Name>, n: nat)
    requires |vs| < |plans| && Computed(w, p, plans[1..], vs, s2, t) && DistinctTemps(plans)
    requires Temps(plans) <= ts && Kept(s1, s2, ws', gs) && ws' <= ws && LazyOk(w, plans, s1, ws, gs)
    requires forall x :: x in sc1.l && x in ts && x !in Temps(plans[1..]) ==> x in t.l && t.l[x] == sc1.l[x]
    requires plans[0].Hoist? ==> plans[0].temp in sc1.l && sc1.l[plans[0].temp] == Some(v)
    requires plans[0].Lazy() ==> Eval(w, p, plans[0].e, s1, n) == Ok(v, s1)
    ensures Computed(w, p, plans, [v] + vs, s2, t)
  {
    if plans[0].Lazy() {
      KeptAgrees(w, plans[0].e, s1, s2, ws', gs);
      forall m: nat
        ensures Eval(w, p, plans[0].e, s2, m) == Ok(v, s2)
      {
        SettledValue(w, p, plans[0].e, s1, s2, n, m);
      }
    }
    forall i | 0 <= i < |[v] + vs|
      ensures plans[i].Hoist? ==> plans[i].temp in t.l && t.l[plans[i].temp] == Some(([v] + vs)[i])
      ensures plans[i].Lazy() ==> Settled(w, plans[i].e, s2) && WorthAt(w, p, plans[i].e, ([v] + vs)[i], s2)
    {
      if i > 0 {
        assert plans[1..][i - 1] == plans[i];
      }
    }
  }
}
