/** Facts about every program of the `Script` language: what more fuel changes, and what a run may write. */
module ScriptFacts {
  import opened Script

  // ----- more fuel never changes a finished run -----

  lemma {:induction false} MoreFuelExpr(w: World, p: Table, e: Expr, s: State, n: nat, m: nat)
    requires n <= m && !Eval(w, p, e, s, n).Div?
    ensures Eval(w, p, e, s, m) == Eval(w, p, e, s, n)
    decreases n, e, 1
  {
    match e
    case Lit(_) =>
    case Var(_) =>
    case Paren(a) => MoreFuelExpr(w, p, a, s, n, m);
    case Get(a, _) => MoreFuelExpr(w, p, a, s, n, m);
    case Not(a) => MoreFuelExpr(w, p, a, s, n, m);
    case Assign(_, a) => MoreFuelExpr(w, p, a, s, n, m);
    case Call(f, args) =>
      MoreFuelArgs(w, p, args, s, n, m);
      var r := EvalArgs(w, p, args, s, n);
      if r.Ok? && f in p && n > 0 {
        MoreFuelInvoke(w, p, p[f], r.val, r.st.g, r.st.tr, n - 1, m - 1);
      }
    case And(l, r) => MoreFuelPair(w, p, e, l, r, s, n, m);
    case Or(l, r) => MoreFuelPair(w, p, e, l, r, s, n, m);
    case Cmp(_, l, r) => MoreFuelPair(w, p, e, l, r, s, n, m);
  }

  lemma {:induction false} MoreFuelPair(w: World, p: Table, e: Expr, l: Expr, r: Expr, s: State, n: nat, m: nat)
    requires l < e && r < e && n <= m && !Eval(w, p, l, s, n).Div?
    ensures Eval(w, p, l, s, m) == Eval(w, p, l, s, n)
    ensures Eval(w, p, l, s, n).Ok? && !Eval(w, p, r, Eval(w, p, l, s, n).st, n).Div? ==>
              Eval(w, p, r, Eval(w, p, l, s, n).st, m) == Eval(w, p, r, Eval(w, p, l, s, n).st, n)
    decreases n, e, 0
  {
    MoreFuelExpr(w, p, l, s, n, m);
    var a := Eval(w, p, l, s, n);
    if a.Ok? && !Eval(w, p, r, a.st, n).Div? {
      MoreFuelExpr(w, p, r, a.st, n, m);
    }
  }

  lemma {:induction false} MoreFuelArgs(w: World, p: Table, args: seq<Expr>, s: State, n: nat, m: nat)
    requires n <= m && !EvalArgs(w, p, args, s, n).Div?
    ensures EvalArgs(w, p, args, s, m) == EvalArgs(w, p, args, s, n)
    decreases n, args, 0
  {
    if args != [] {
      MoreFuelExpr(w, p, args[0], s, n, m);
      var a := Eval(w, p, args[0], s, n);
      if a.Ok? {
        MoreFuelArgs(w, p, args[1..], a.st, n, m);
      }
    }
  }

  lemma {:induction false} MoreFuelInvoke(w: World, p: Table, f: Func, vs: seq<Value>, g: Globals, tr: Trace, n: nat, m: nat)
    requires n <= m && !Invoke(w, p, f, vs, g, tr, n).Div?
    ensures Invoke(w, p, f, vs, g, tr, m) == Invoke(w, p, f, vs, g, tr, n)
    decreases n, f, 0
  {
    MoreFuelSeq(w, p, f.body, State(g, Frame(f.params, vs, f.body), tr), n, m);
  }

  lemma {:induction false} MoreFuelStmt(w: World, p: Table, c: Stmt, s: State, n: nat, m: nat)
    requires n <= m && !Exec(w, p, c, s, n).Div?
    ensures Exec(w, p, c, s, m) == Exec(w, p, c, s, n)
    decreases n, c, 0
  {
    match c
    case Do(e) => MoreFuelExpr(w, p, e, s, n, m);
    case Const(_, e) => MoreFuelExpr(w, p, e, s, n, m);
    case ReturnVal(e) => MoreFuelExpr(w, p, e, s, n, m);
    case If(e, t, f) =>
      MoreFuelExpr(w, p, e, s, n, m);
      var a := Eval(w, p, e, s, n);
      if a.Ok? {
        if Truthy(a.val) {
          MoreFuelSeq(w, p, t, Enter(a.st, Decls(t)), n, m);
        } else {
          MoreFuelSeq(w, p, f, Enter(a.st, Decls(f)), n, m);
        }
      }
    case Block(ss) => MoreFuelSeq(w, p, ss, Enter(s, Decls(ss)), n, m);
    case While(e, b) =>
      MoreFuelExpr(w, p, e, s, n, m);
      var a := Eval(w, p, e, s, n);
      if a.Ok? && Truthy(a.val) {
        MoreFuelSeq(w, p, b, Enter(a.st, Decls(b)), n, m);
        var r := ExecBlock(w, p, b, a.st, n);
        if r.Ok? && !r.val.Brk? && !r.val.Ret? {
          MoreFuelStmt(w, p, c, r.st, n - 1, m - 1);
        }
      }
    case _ =>
  }

  lemma {:induction false} MoreFuelSeq(w: World, p: Table, ss: seq<Stmt>, s: State, n: nat, m: nat)
    requires n <= m && !ExecSeq(w, p, ss, s, n).Div?
    ensures ExecSeq(w, p, ss, s, m) == ExecSeq(w, p, ss, s, n)
    decreases n, ss, 0
  {
    if ss != [] {
      MoreFuelStmt(w, p, ss[0], s, n, m);
      var a := Exec(w, p, ss[0], s, n);
      if a.Ok? && a.val.Next? {
        MoreFuelSeq(w, p, ss[1..], a.st, n, m);
      }
    }
  }

  // ----- what a run leaves alone -----

  /** Foreign code and the program's functions never change the globals `gs`. */
  ghost predicate Stable(w: World, p: Table, gs: set<Name>) {
    && (forall f, vs, g, tr :: GlobalsKept(gs, g, w.call(f, vs, g, tr).g))
    && (forall v, field, g, tr :: GlobalsKept(gs, g, w.get(v, field, g, tr).g))
    && (forall f :: f in p ==> gs !! Writes(p[f].body) - Decls(p[f].body) - (set x | x in p[f].params))
  }

  ghost predicate GlobalsKept(gs: set<Name>, g: Globals, g': Globals) {
    forall x :: x in gs && x in g ==> x in g' && g'[x] == g[x]
  }

  /** The run from `s` to `t` kept the set of locals, changed only locals in `ws`
      and no global in `gs`. */
  ghost predicate Kept(s: State, t: State, ws: set<Name>, gs: set<Name>) {
    && t.l.Keys == s.l.Keys
    && (forall x :: x in s.l && x !in ws ==> t.l[x] == s.l[x])
    && GlobalsKept(gs, s.g, t.g)
  }

  /** Writes to a name in `gs` only ever reach a local. */
  ghost predicate Guarded(ws: set<Name>, gs: set<Name>, s: State) {
    forall x :: x in ws && x in gs ==> x in s.l
  }

  lemma {:induction false} FrameExpr(w: World, p: Table, e: Expr, s: State, n: nat, gs: set<Name>)
    requires Stable(w, p, gs) && Guarded(EWrites(e), gs, s)
    ensures Eval(w, p, e, s, n).Ok? ==> Kept(s, Eval(w, p, e, s, n).st, EWrites(e), gs)
    decreases n, e, 1
  {
    match e
    case Lit(_) =>
    case Var(_) =>
    case Paren(a) => FrameExpr(w, p, a, s, n, gs);
    case Get(a, _) => FrameExpr(w, p, a, s, n, gs);
    case Not(a) => FrameExpr(w, p, a, s, n, gs);
    case Assign(_, a) => FrameExpr(w, p, a, s, n, gs);
    case Call(_, _) => FrameCall(w, p, e, s, n, gs);
    case And(l, r) => FramePair(w, p, e, l, r, s, n, gs);
    case Or(l, r) => FramePair(w, p, e, l, r, s, n, gs);
    case Cmp(_, l, r) => FramePair(w, p, e, l, r, s, n, gs);
  }

  lemma {:induction false} FrameCall(w: World, p: Table, e: Expr, s: State, n: nat, gs: set<Name>)
    requires e.Call? && Stable(w, p, gs) && Guarded(EWrites(e), gs, s)
    ensures Eval(w, p, e, s, n).Ok? ==> Kept(s, Eval(w, p, e, s, n).st, EWrites(e), gs)
    decreases n, e, 0
  {
    FrameArgs(w, p, e.args, s, n, gs);
    var r := EvalArgs(w, p, e.args, s, n);
    if r.Ok? && e.f in p && n > 0 {
      FrameInvoke(w, p, e.f, r.val, r.st.g, r.st.tr, n - 1, gs);
    }
  }

  lemma {:induction false} FramePair(w: World, p: Table, e: Expr, l: Expr, r: Expr, s: State, n: nat, gs: set<Name>)
    requires l < e && r < e && Stable(w, p, gs) && Guarded(EWrites(l) + EWrites(r), gs, s)
    ensures var a := Eval(w, p, l, s, n);
            a.Ok? ==>
              && Kept(s, a.st, EWrites(l) + EWrites(r), gs)
              && (Eval(w, p, r, a.st, n).Ok? ==> Kept(s, Eval(w, p, r, a.st, n).st, EWrites(l) + EWrites(r), gs))
    decreases n, e, 0
  {
    hide Stable;
    FrameExpr(w, p, l, s, n, gs);
    var a := Eval(w, p, l, s, n);
    if a.Ok? {
      FrameExpr(w, p, r, a.st, n, gs);
    }
  }

  lemma {:induction false} FrameArgs(w: World, p: Table, args: seq<Expr>, s: State, n: nat, gs: set<Name>)
    requires Stable(w, p, gs) && Guarded(AWrites(args), gs, s)
    ensures EvalArgs(w, p, args, s, n).Ok? ==> Kept(s, EvalArgs(w, p, args, s, n).st, AWrites(args), gs)
    decreases n, args, 0
  {
    if args != [] {
      FrameExpr(w, p, args[0], s, n, gs);
      var a := Eval(w, p, args[0], s, n);
      if a.Ok? {
        FrameArgs(w, p, args[1..], a.st, n, gs);
      }
    }
  }

  lemma BindKeys(ps: seq<Name>, vs: seq<Value>)
    ensures Bind(ps, vs).Keys == set x | x in ps
  {
    if ps != [] {
      BindKeys(ps[1..], if vs == [] then [] else vs[1..]);
    }
  }

  lemma {:induction false} FrameInvoke(w: World, p: Table, f: Name, vs: seq<Value>, g: Globals, tr: Trace, n: nat, gs: set<Name>)
    requires f in p && Stable(w, p, gs)
    ensures var r := Invoke(w, p, p[f], vs, g, tr, n); r.Ok? ==> GlobalsKept(gs, g, r.st.g)
    decreases n, p[f], 0
  {
    var fn := p[f];
    var s := State(g, Frame(fn.params, vs, fn.body), tr);
    BindKeys(fn.params, vs);
    FrameSeq(w, p, fn.body, s, n, gs);
  }

  lemma {:induction false} FrameStmt(w: World, p: Table, c: Stmt, s: State, n: nat, gs: set<Name>)
    requires Stable(w, p, gs) && Guarded(SWrites(c), gs, s)
    requires c.Const? ==> c.x in s.l
    ensures Exec(w, p, c, s, n).Ok? ==> Kept(s, Exec(w, p, c, s, n).st, SWrites(c), gs)
    decreases n, c, 1
  {
    hide Stable;
    match c
    case Do(e) => FrameExpr(w, p, e, s, n, gs);
    case Const(_, e) => FrameExpr(w, p, e, s, n, gs);
    case ReturnVal(e) => FrameExpr(w, p, e, s, n, gs);
    case If(e, t, f) =>
      FrameExpr(w, p, e, s, n, gs);
      var a := Eval(w, p, e, s, n);
      if a.Ok? {
        if Truthy(a.val) {
          FrameBlock(w, p, t, a.st, n, gs);
        } else {
          FrameBlock(w, p, f, a.st, n, gs);
        }
      }
    case Block(ss) => FrameBlock(w, p, ss, s, n, gs);
    case While(_, _) => FrameWhile(w, p, c, s, n, gs);
    case _ =>
  }

  lemma {:induction false} FrameWhile(w: World, p: Table, c: Stmt, s: State, n: nat, gs: set<Name>)
    requires c.While? && Stable(w, p, gs) && Guarded(SWrites(c), gs, s)
    ensures Exec(w, p, c, s, n).Ok? ==> Kept(s, Exec(w, p, c, s, n).st, SWrites(c), gs)
    decreases n, c, 0
  {
    hide Stable;
    FrameExpr(w, p, c.c, s, n, gs);
    var a := Eval(w, p, c.c, s, n);
    if a.Ok? && Truthy(a.val) {
      FrameBlock(w, p, c.body, a.st, n, gs);
      var r := ExecBlock(w, p, c.body, a.st, n);
      if r.Ok? && !r.val.Brk? && !r.val.Ret? && n > 0 {
        FrameWhile(w, p, c, r.st, n - 1, gs);
      }
    }
  }

  lemma {:induction false} FrameSeq(w: World, p: Table, ss: seq<Stmt>, s: State, n: nat, gs: set<Name>)
    requires Stable(w, p, gs) && Guarded(Writes(ss), gs, s) && Decls(ss) <= s.l.Keys
    ensures ExecSeq(w, p, ss, s, n).Ok? ==> Kept(s, ExecSeq(w, p, ss, s, n).st, Writes(ss), gs)
    decreases n, ss, 0
  {
    if ss != [] {
      FrameStmt(w, p, ss[0], s, n, gs);
      var a := Exec(w, p, ss[0], s, n);
      if a.Ok? && a.val.Next? {
        FrameSeq(w, p, ss[1..], a.st, n, gs);
      }
    }
  }

  lemma {:induction false} FrameBlock(w: World, p: Table, ss: seq<Stmt>, s: State, n: nat, gs: set<Name>)
    requires Stable(w, p, gs) && Guarded(Writes(ss) - Decls(ss), gs, s)
    ensures ExecBlock(w, p, ss, s, n).Ok? ==> Kept(s, ExecBlock(w, p, ss, s, n).st, Writes(ss) - Decls(ss), gs)
    decreases n, ss, 1
  {
    FrameSeq(w, p, ss, Enter(s, Decls(ss)), n, gs);
  }

  // ----- control never escapes code without jumps -----

  /** No `return` anywhere, and no `break` or `continue` outside a loop (unless `loop`). */
  predicate NoEscape(c: Stmt, loop: bool) {
    match c
    case If(_, t, f) => NoEscapes(t, loop) && NoEscapes(f, loop)
    case Block(ss) => NoEscapes(ss, loop)
    case While(_, b) => NoEscapes(b, true)
    case Return => false
    case ReturnVal(_) => false
    case Break => loop
    case Continue => loop
    case _ => true
  }

  predicate NoEscapes(ss: seq<Stmt>, loop: bool) {
    ss == [] || (NoEscape(ss[0], loop) && NoEscapes(ss[1..], loop))
  }

  lemma {:induction false} EndsNormallyStmt(w: World, p: Table, c: Stmt, s: State, n: nat, loop: bool)
    requires NoEscape(c, loop)
    ensures var r := Exec(w, p, c, s, n); r.Ok? ==> !r.val.Ret? && (!loop ==> r.val.Next?)
    decreases n, c, 0
  {
    match c
    case If(e, t, f) =>
      var a := Eval(w, p, e, s, n);
      if a.Ok? {
        if Truthy(a.val) {
          EndsNormally(w, p, t, Enter(a.st, Decls(t)), n, loop);
        } else {
          EndsNormally(w, p, f, Enter(a.st, Decls(f)), n, loop);
        }
      }
    case Block(ss) => EndsNormally(w, p, ss, Enter(s, Decls(ss)), n, loop);
    case While(e, b) =>
      var a := Eval(w, p, e, s, n);
      if a.Ok? && Truthy(a.val) {
        EndsNormally(w, p, b, Enter(a.st, Decls(b)), n, true);
        var r := ExecBlock(w, p, b, a.st, n);
        if r.Ok? && !r.val.Brk? && n > 0 {
          EndsNormallyStmt(w, p, c, r.st, n - 1, loop);
        }
      }
    case _ =>
  }

  lemma {:induction false} EndsNormally(w: World, p: Table, ss: seq<Stmt>, s: State, n: nat, loop: bool)
    requires NoEscapes(ss, loop)
    ensures var r := ExecSeq(w, p, ss, s, n); r.Ok? ==> !r.val.Ret? && (!loop ==> r.val.Next?)
    decreases n, ss, 0
  {
    if ss != [] {
      EndsNormallyStmt(w, p, ss[0], s, n, loop);
      var a := Exec(w, p, ss[0], s, n);
      if a.Ok? && a.val.Next? {
        EndsNormally(w, p, ss[1..], a.st, n, loop);
      }
    }
  }

  // ----- running one list after another -----

  lemma {:induction false} ExecAppend(w: World, p: Table, a: seq<Stmt>, b: seq<Stmt>, s: State, n: nat)
    ensures ExecSeq(w, p, a + b, s, n) ==
            var r := ExecSeq(w, p, a, s, n);
            if r.Ok? && r.val.Next? then ExecSeq(w, p, b, r.st, n) else r
    decreases a
  {
    if a == [] {
      assert a + b == b;
    } else {
      assert (a + b)[1..] == a[1..] + b;
      var r := Exec(w, p, a[0], s, n);
      if r.Ok? && r.val.Next? {
        ExecAppend(w, p, a[1..], b, r.st, n);
      }
    }
  }
}
