/** Exactly when guard inversion fails. */
module GuardExactness {
  import opened Wrappers
  import opened Script
  import opened ScriptText
  import opened GuardInversion

  // Against a world that reports every operation, a guard built from distinct observable
  // operations keeps its meaning under inversion if and only if no flipped relational
  // comparison is reached on unordered operands.

  /** Every foreign call answers, changes no global and is logged under its name. */
  ghost predicate Logging(w: World) {
    forall f, vs, g, tr :: var ef := w.call(f, vs, g, tr);
      !ef.throws && ef.g == g && ef.tr == [Event(f, vs)]
  }

  /** Logic and comparisons over foreign operations without arguments. */
  predicate Observable(p: Table, e: Expr) {
    match e
    case Call(f, args) => args == [] && f !in p
    case Paren(a) => Observable(p, a)
    case Not(a) => Observable(p, a)
    case And(l, r) => Observable(p, l) && Observable(p, r)
    case Or(l, r) => Observable(p, l) && Observable(p, r)
    case Cmp(_, l, r) => Observable(p, l) && Observable(p, r)
    case _ => false
  }

  /** No operation occurs on both sides of an operator. */
  predicate Distinct(e: Expr) {
    match e
    case Paren(a) => Distinct(a)
    case Not(a) => Distinct(a)
    case And(l, r) => Distinct(l) && Distinct(r) && ENames(l) !! ENames(r)
    case Or(l, r) => Distinct(l) && Distinct(r) && ENames(l) !! ENames(r)
    case Cmp(_, l, r) => Distinct(l) && Distinct(r) && ENames(l) !! ENames(r)
    case _ => true
  }

  predicate From(log: Trace, names: set<Name>) {
    forall i :: 0 <= i < |log| ==> log[i].what in names
  }

  /** The run only appends to the log, at least one entry, all by the code's own operations. */
  lemma {:induction false} RunLogs(w: World, p: Table, e: Expr, s: State, n: nat) returns (log: Trace)
    requires Logging(w) && Observable(p, e)
    ensures var r := Eval(w, p, e, s, n);
            r.Ok? && r.st == s.(tr := s.tr + log) && log != [] && From(log, ENames(e))
    decreases e, 1
  {
    match e
    case Call(f, args) =>
      log := [Event(f, [])];
      assert EvalArgs(w, p, args, s, n) == Ok([], s);
    case Paren(a) => log := RunLogs(w, p, a, s, n);
    case Not(a) => log := RunLogs(w, p, a, s, n);
    case And(l, r) => log := RunLogsPair(w, p, e, l, r, s, n);
    case Or(l, r) => log := RunLogsPair(w, p, e, l, r, s, n);
    case Cmp(_, l, r) =>
      var a := RunLogs(w, p, l, s, n);
      var b := RunLogs(w, p, r, Eval(w, p, l, s, n).st, n);
      log := a + b;
      assert s.tr + a + b == s.tr + (a + b);
  }

  lemma {:induction false} RunLogsPair(w: World, p: Table, e: Expr, l: Expr, r: Expr, s: State, n: nat)
    returns (log: Trace)
    requires Logging(w) && Observable(p, l) && Observable(p, r) && (e == And(l, r) || e == Or(l, r))
    ensures var t := Eval(w, p, e, s, n);
            t.Ok? && t.st == s.(tr := s.tr + log) && log != [] && From(log, ENames(l) + ENames(r))
    decreases e, 0
  {
    log := RunLogs(w, p, l, s, n);
    var a := Eval(w, p, l, s, n);
    if Truthy(a.val) == e.And? {
      var b := RunLogs(w, p, r, a.st, n);
      assert s.tr + log + b == s.tr + (log + b);
      log := log + b;
    }
  }

  lemma {:induction false} ObservableSubst(p: Table, e: Expr, z: Subst)
    requires Observable(p, e)
    ensures ESubst(e, z) == e
  {
    match e
    case Call(f, args) => assert ASubst(args, z) == [];
    case Paren(a) => ObservableSubst(p, a, z);
    case Not(a) => ObservableSubst(p, a, z);
    case And(l, r) => ObservableSubst(p, l, z); ObservableSubst(p, r, z);
    case Or(l, r) => ObservableSubst(p, l, z); ObservableSubst(p, r, z);
    case Cmp(_, l, r) => ObservableSubst(p, l, z); ObservableSubst(p, r, z);
  }

  lemma {:induction false} ObservableJoinOr(p: Table, a: Expr, b: Expr)
    requires Observable(p, a) && Observable(p, b)
    ensures Observable(p, JoinOr(a, b)) && ENames(JoinOr(a, b)) == ENames(a) + ENames(b)
    decreases b
  {
    if b.Or? {
      ObservableJoinOr(p, a, b.l);
    }
  }

  lemma {:induction false} ObservableJoinAnd(p: Table, a: Expr, b: Expr)
    requires Observable(p, a) && Observable(p, b)
    ensures Observable(p, JoinAnd(a, b)) && ENames(JoinAnd(a, b)) == ENames(a) + ENames(b)
    decreases b
  {
    if b.And? {
      ObservableJoinAnd(p, a, b.l);
    }
  }

  lemma {:induction false} ObservableNeg(p: Table, e: Expr, z: Subst)
    requires Observable(p, e)
    ensures Observable(p, Neg(e, z)) && ENames(Neg(e, z)) == ENames(e)
  {
    ObservableSubst(p, e, z);
    match e
    case Paren(a) => ObservableNeg(p, a, z);
    case Not(a) => ObservableSubst(p, a, z);
    case And(l, r) =>
      ObservableNeg(p, l, z);
      ObservableNeg(p, r, z);
      ObservableJoinOr(p, Neg(l, z), Neg(r, z));
    case Or(l, r) =>
      ObservableNeg(p, l, z);
      ObservableNeg(p, r, z);
      ObservableJoinAnd(p, NegWrapped(l, z), NegWrapped(r, z));
    case Cmp(_, l, r) => ObservableSubst(p, l, z); ObservableSubst(p, r, z);
    case _ =>
  }

  /** Logs by disjoint sets of operations split at the same place. */
  lemma SplitLogs(a: Trace, b: Trace, c: Trace, d: Trace, ls: set<Name>, rs: set<Name>)
    requires From(a, ls) && From(c, ls) && From(b, rs) && From(d, rs) && ls !! rs
    requires a + b == c + d
    ensures a == c && b == d
  {
    var m := a + b;
    forall i | 0 <= i < |m|
      ensures m[i].what in ls <==> i < |a|
      ensures m[i].what in ls <==> i < |c|
    {
      assert m[i] == if i < |a| then a[i] else b[i - |a|];
      assert m[i] == if i < |c| then c[i] else d[i - |c|];
    }
    assert |a| < |m| ==> m[|a|].what !in ls;
    assert |c| < |m| ==> m[|c|].what !in ls;
    assert a == m[..|a|] == c;
    assert b == m[|a|..] == d;
  }

  lemma SplitTraces(t: Trace, a: Trace, b: Trace, c: Trace, d: Trace, ls: set<Name>, rs: set<Name>)
    requires From(a, ls) && From(c, ls) && From(b, rs) && From(d, rs) && ls !! rs
    ensures t + a + b == t + c + d ==> a == c && b == d
  {
    if t + a + b == t + c + d {
      assert (t + a + b)[|t|..] == a + b;
      assert (t + c + d)[|t|..] == c + d;
      SplitLogs(a, b, c, d, ls, rs);
    }
  }

  /** Reaching an unordered flipped comparison makes inversion observably wrong. */
  lemma {:induction false} UnorderedBreaks(w: World, p: Table, e: Expr, z: Subst, s: State, n: nat)
    requires Logging(w) && Observable(p, e) && Distinct(e) && MeetsUnordered(w, p, e, z, s, n)
    ensures Test(w, p, Neg(e, z), s, n) != Flip(Test(w, p, e, s, n))
    decreases e, 1
  {
    match e
    case Paren(a) => UnorderedBreaks(w, p, a, z, s, n);
    case Cmp(_, l, r) =>
      ObservableSubst(p, l, z);
      ObservableSubst(p, r, z);
    case And(l, r) =>
      UnorderedBreaksPair(w, p, e, l, r, z, s, n);
      JoinOrTest(w, p, Neg(l, z), Neg(r, z), s, n);
    case Or(l, r) =>
      UnorderedBreaksPair(w, p, e, l, r, z, s, n);
      JoinAndTest(w, p, NegWrapped(l, z), NegWrapped(r, z), s, n);
  }

  lemma {:induction false} UnorderedBreaksPair(w: World, p: Table, e: Expr, l: Expr, r: Expr, z: Subst, s: State, n: nat)
    requires Logging(w) && Observable(p, e) && Distinct(e) && MeetsUnordered(w, p, e, z, s, n)
    requires e == And(l, r) || e == Or(l, r)
    ensures var e' := if e.And? then Or(Neg(l, z), Neg(r, z)) else And(NegWrapped(l, z), NegWrapped(r, z));
            Test(w, p, e', s, n) != Flip(Test(w, p, e, s, n))
    decreases e, 0
  {
    ObservableSubst(p, l, z);
    ObservableSubst(p, r, z);
    ObservableNeg(p, l, z);
    ObservableNeg(p, r, z);
    var x := RunLogs(w, p, l, s, n);
    var y := RunLogs(w, p, Neg(l, z), s, n);
    var a := Test(w, p, l, s, n);
    var b := Test(w, p, Neg(l, z), s, n);
    var x' := RunLogs(w, p, r, a.st, n);
    var y' := RunLogs(w, p, Neg(r, z), b.st, n);
    TestLogic(w, p, l, r, s, n);
    TestLogic(w, p, Neg(l, z), Neg(r, z), s, n);
    WrapTest(w, p, l, z, s, n);
    WrapTest(w, p, r, z, b.st, n);
    TestLogic(w, p, NegWrapped(l, z), NegWrapped(r, z), s, n);
    if MeetsUnordered(w, p, l, z, s, n) {
      UnorderedBreaks(w, p, l, z, s, n);
      var u := if a.val == e.And? then x' else [];
      var v := if b.val != e.And? then y' else [];
      SplitTraces(s.tr, x, u, y, v, ENames(l), ENames(r));
    } else {
      NegTest(w, p, l, z, s, n);
      UnorderedBreaks(w, p, r, z, a.st, n);
    }
  }

  /** The exact condition, for one guard. */
  lemma InversionExactIff(w: World, p: Table, e: Expr, z: Subst, s: State, n: nat)
    requires Logging(w) && Observable(p, e) && Distinct(e)
    ensures Test(w, p, Neg(e, z), s, n) == Flip(Test(w, p, e, s, n)) <==> !MeetsUnordered(w, p, e, z, s, n)
  {
    ObservableSubst(p, e, z);
    if MeetsUnordered(w, p, e, z, s, n) {
      UnorderedBreaks(w, p, e, z, s, n);
    } else {
      NegTest(w, p, e, z, s, n);
    }
  }

  // ----- a run of guards -----

  /** Guards over distinct operations. */
  predicate DistinctRun(p: Table, gs: seq<Expr>) {
    gs == []
    || (Observable(p, gs[0]) && Distinct(gs[0]) && ENames(gs[0]) !! ANames(gs[1..]) && DistinctRun(p, gs[1..]))
  }

  lemma {:induction false} ObservableNegAll(p: Table, gs: seq<Expr>, z: Subst)
    requires gs != [] && DistinctRun(p, gs)
    ensures Observable(p, NegAll(gs, z)) && ENames(NegAll(gs, z)) == ANames(gs)
    decreases |gs|
  {
    ObservableNeg(p, gs[0], z);
    if |gs| > 1 {
      ObservableNegAll(p, gs[1..], z);
      ObservableJoinAnd(p, NegWrapped(gs[0], z), NegAll(gs[1..], z));
    } else {
      assert gs[1..] == [] && ANames([]) == {};
    }
  }

  /** Testing the guards in order only appends to the log. */
  lemma {:induction false} RunAllLogs(w: World, p: Table, gs: seq<Expr>, z: Subst, s: State, n: nat) returns (log: Trace)
    requires Logging(w) && DistinctRun(p, gs)
    ensures var r := AllFalse(w, p, gs, z, s, n);
            r.Ok? && r.st == s.(tr := s.tr + log) && From(log, ANames(gs)) && (gs != [] ==> log != [])
    decreases |gs|
  {
    if gs == [] {
      log := [];
      assert s.tr + log == s.tr;
    } else {
      ObservableSubst(p, gs[0], z);
      log := RunLogs(w, p, gs[0], s, n);
      var a := Test(w, p, gs[0], s, n);
      if !a.val {
        var more := RunAllLogs(w, p, gs[1..], z, a.st, n);
        assert s.tr + log + more == s.tr + (log + more);
        log := log + more;
      }
    }
  }

  /** Logs of two runs that end alike agree guard by guard. */
  lemma FirstGuardBreaks(w: World, p: Table, gs: seq<Expr>, z: Subst, s: State, n: nat)
    requires Logging(w) && |gs| > 1 && DistinctRun(p, gs) && MeetsUnordered(w, p, gs[0], z, s, n)
    ensures Test(w, p, And(NegWrapped(gs[0], z), NegAll(gs[1..], z)), s, n) != AllFalse(w, p, gs, z, s, n)
  {
    var g, rest := gs[0], gs[1..];
    ObservableSubst(p, g, z);
    ObservableNeg(p, g, z);
    ObservableNegAll(p, rest, z);
    UnorderedBreaks(w, p, g, z, s, n);
    WrapTest(w, p, g, z, s, n);
    TestLogic(w, p, NegWrapped(g, z), NegAll(rest, z), s, n);
    var x := RunLogs(w, p, g, s, n);
    var y := RunLogs(w, p, Neg(g, z), s, n);
    var a, b := Test(w, p, g, s, n), Test(w, p, Neg(g, z), s, n);
    var x' := RunAllLogs(w, p, rest, z, a.st, n);
    var y' := RunLogs(w, p, NegAll(rest, z), b.st, n);
    var u, v := if a.val then [] else x', if b.val then y' else [];
    SplitTraces(s.tr, x, u, y, v, ENames(g), ANames(rest));
    assert s.tr + x + [] == s.tr + x && s.tr + y + [] == s.tr + y;
  }

  /** Some guard of the run reaches an unordered flipped comparison: the condition is wrong. */
  lemma {:induction false} UnorderedRunBreaks(w: World, p: Table, gs: seq<Expr>, z: Subst, s: State, n: nat)
    requires Logging(w) && gs != [] && DistinctRun(p, gs) && AnyUnordered(w, p, gs, z, s, n)
    ensures Test(w, p, NegAll(gs, z), s, n) != AllFalse(w, p, gs, z, s, n)
    decreases |gs|
  {
    var g := gs[0];
    ObservableSubst(p, g, z);
    WrapTest(w, p, g, z, s, n);
    if |gs| == 1 {
      assert gs[1..] == [];
      UnorderedBreaks(w, p, g, z, s, n);
      OneGuard(w, p, gs, z, s, n);
    } else {
      TestLogic(w, p, NegWrapped(g, z), NegAll(gs[1..], z), s, n);
      JoinAndTest(w, p, NegWrapped(g, z), NegAll(gs[1..], z), s, n);
      if MeetsUnordered(w, p, g, z, s, n) {
        FirstGuardBreaks(w, p, gs, z, s, n);
      } else {
        NegTest(w, p, g, z, s, n);
        UnorderedRunBreaks(w, p, gs[1..], z, Test(w, p, g, s, n).st, n);
      }
    }
  }

  lemma OneGuard(w: World, p: Table, gs: seq<Expr>, z: Subst, s: State, n: nat)
    requires |gs| == 1
    ensures AllFalse(w, p, gs, z, s, n) == Flip(Test(w, p, ESubst(gs[0], z), s, n))
  {
    var a := Test(w, p, ESubst(gs[0], z), s, n);
    assert gs[1..] == [];
    if a.Ok? { assert AllFalse(w, p, gs[1..], z, a.st, n) == Ok(true, a.st); }
  }

  /**
   * The exact condition, for a run of guards: the combined condition tests like the guards in turn if
   * and only if no flipped relational comparison is reached on unordered operands.
   */
  lemma ConditionExactIff(w: World, p: Table, gs: seq<Expr>, z: Subst, s: State, n: nat)
    requires Logging(w) && gs != [] && DistinctRun(p, gs)
    ensures Test(w, p, Condition(gs, z), s, n) == AllFalse(w, p, gs, z, s, n) <==> !AnyUnordered(w, p, gs, z, s, n)
  {
    if AnyUnordered(w, p, gs, z, s, n) {
      UnorderedRunBreaks(w, p, gs, z, s, n);
      if |gs| == 1 { WrapTest(w, p, gs[0], z, s, n); }
    } else {
      ConditionTest(w, p, gs, z, s, n);
    }
  }

  /** A concrete failure: with NaN on one side, `if (a() < b()) return;` runs the
      tail, the inverted `if (a() >= b())` does not. */
  lemma NaNGuardFails(w: World, p: Table, s: State, n: nat)
    requires Logging(w) && "a" !in p && "b" !in p && forall u, v :: w.order(u, v).Unordered?
    ensures var none := Subst(map[], map[]);
            var guard := Cmp(Lt, Call("a", []), Call("b", []));
            var t := Test(w, p, guard, s, n);
            && Parse(CombineGuards([guard], none)) == Some(Cmp(Ge, Call("a", []), Call("b", [])))
            && t.Ok? && !t.val
            && Test(w, p, Cmp(Ge, Call("a", []), Call("b", [])), s, n) == t
  {
    var z := Subst(map[], map[]);
    var g := Cmp(Lt, Call("a", []), Call("b", []));
    hide Parse, CombineGuards, AllParsed, Test;
    NaNText();
    OrderedNowhere(w, p, Lt, "a", "b", s, n);
    OrderedNowhere(w, p, Ge, "a", "b", s, n);
  }

  lemma NaNText()
    ensures Parse(CombineGuards([Cmp(Lt, Call("a", []), Call("b", []))], Subst(map[], map[])))
            == Some(Cmp(Ge, Call("a", []), Call("b", [])))
  {
    hide Parse, CombineGuards;
    var z, g := Subst(map[], map[]), Cmp(Lt, Call("a", []), Call("b", []));
    assert Parsed(g) && AllParsed([g]);
    assert !AnyReadsFrom([], NumberArgs(z)) && !ReadsFrom(g, NumberArgs(z));
    assert [g][1..] == [] && !AnyReadsFrom([g], NumberArgs(z));
    ConditionText([g], z);
    assert ESubst(g.l, z) == g.l && ESubst(g.r, z) == g.r;
    assert Condition([g], z) == Neg(g, z) == Cmp(Ge, g.l, g.r);
  }

  lemma OrderedNowhere(w: World, p: Table, op: CmpOp, a: Name, b: Name, s: State, n: nat)
    requires Logging(w) && a !in p && b !in p && Relational(op) && forall u, v :: w.order(u, v).Unordered?
    ensures var t := Test(w, p, Cmp(op, Call(a, []), Call(b, [])), s, n);
            t == Ok(false, s.(tr := s.tr + [Event(a, []), Event(b, [])]))
  {
    OpRuns(w, p, a, s, n);
    var s1 := s.(tr := s.tr + [Event(a, [])]);
    OpRuns(w, p, b, s1, n);
    assert s.tr + [Event(a, [])] + [Event(b, [])] == s.tr + [Event(a, []), Event(b, [])];
  }

  lemma OpRuns(w: World, p: Table, f: Name, s: State, n: nat)
    requires Logging(w) && f !in p
    ensures Eval(w, p, Call(f, []), s, n) ==
            Ok(w.call(f, [], s.g, s.tr).v, s.(tr := s.tr + [Event(f, [])]))
  {
    assert EvalArgs(w, p, [], s, n) == Ok([], s);
  }
}
