/** The text of a replacement: when it can be read back. */
module InlineText {
  import opened Wrappers
  import opened Script
  import opened ScriptText
  import opened FreshNames
  import opened GuardInversion
  import opened Inliner
  import opened InlineCall

  // Arguments are pasted as text. Parentheses are added where an operator needs them, but none around
  // a number, and no field can be read from a bare number.

  // ----- the expressions of a statement list -----

  function SExprs(c: Stmt): seq<Expr> {
    match c
    case Do(e) => [e]
    case Const(_, e) => [e]
    case If(e, t, f) => [e] + Exprs(t) + Exprs(f)
    case Block(ss) => Exprs(ss)
    case While(e, b) => [e] + Exprs(b)
    case ReturnVal(e) => [e]
    case _ => []
  }

  function Exprs(ss: seq<Stmt>): seq<Expr> {
    if ss == [] then [] else SExprs(ss[0]) + Exprs(ss[1..])
  }

  /** Every expression is read back from its text. */
  predicate Readable(ss: seq<Stmt>) {
    forall e :: e in Exprs(ss) ==> Parse(Render(e)) == Some(e)
  }

  /** Some statement reads a field from one of these names; a block hides what it declares. */
  predicate SReads(c: Stmt, xs: set<Name>)
    decreases c, 0
  {
    match c
    case Do(e) => ReadsFrom(e, xs)
    case Const(_, e) => ReadsFrom(e, xs)
    case If(e, t, f) => ReadsFrom(e, xs) || BReads(t, xs) || BReads(f, xs)
    case Block(ss) => BReads(ss, xs)
    case While(e, b) => ReadsFrom(e, xs) || BReads(b, xs)
    case ReturnVal(e) => ReadsFrom(e, xs)
    case _ => false
  }

  predicate Reads(ss: seq<Stmt>, xs: set<Name>)
    decreases ss, 0
  {
    ss != [] && (SReads(ss[0], xs) || Reads(ss[1..], xs))
  }

  predicate BReads(ss: seq<Stmt>, xs: set<Name>)
    decreases ss, 1
  {
    Reads(ss, xs - Decls(ss))
  }

  lemma ParsedAppend(a: seq<Expr>, b: seq<Expr>)
    ensures AllParsed(a + b) <==> AllParsed(a) && AllParsed(b)
  {
    hide Parsed;
    var c := a + b;
    if AllParsed(c) {
      forall i | 0 <= i < |a| ensures Parsed(a[i]) { assert c[i] == a[i]; }
      forall i | 0 <= i < |b| ensures Parsed(b[i]) { assert c[|a| + i] == b[i]; }
    }
  }

  lemma ParsedFirst(e: Expr, more: seq<Expr>)
    ensures AllParsed([e] + more) <==> Parsed(e) && AllParsed(more)
  {
    hide Parsed;
    ParsedAppend([e], more);
    assert [e][0] == e;
  }

  lemma ReadableIsParsed(ss: seq<Stmt>)
    ensures Readable(ss) <==> AllParsed(Exprs(ss))
  {
    hide Parsed, Parse, Exprs;
    forall e | e in Exprs(ss) ensures Parse(Render(e)) == Some(e) <==> Parsed(e) {
      ParseExact(Render(e), e);
    }
  }

  // ----- substitution -----

  lemma ExprReadable(e: Expr, z: Subst)
    requires Parsed(e) && Tight(z)
    ensures Parsed(ESubst(e, z)) <==> !ReadsFrom(e, NumberArgs(z))
  {
    hide Parsed, ReadsFrom, NumberArgs, Tight, NoNumberDot;
    if ReadsFrom(e, NumberArgs(z)) {
      SubstDots(e, z);
      if Parsed(ESubst(e, z)) { ParsedIsClean(ESubst(e, z)); }
    } else {
      SubstParsed(e, z);
    }
  }

  lemma HiddenNumbers(z: Subst, d: set<Name>)
    requires Tight(z)
    ensures Tight(Hide(z, d)) && NumberArgs(Hide(z, d)) == NumberArgs(z) - d
  {
    hide Parsed, Level;
  }

  lemma {:induction false} StmtReadable(c: Stmt, z: Subst)
    requires AllParsed(SExprs(c)) && Tight(z)
    ensures AllParsed(SExprs(SSubst(c, z))) <==> !SReads(c, NumberArgs(z))
    decreases c, 0
  {
    hide Parsed, AllParsed, ReadsFrom, NumberArgs, Tight, ESubst;
    match c
    case Do(e) => OneReadable(e, z);
    case Const(_, e) => OneReadable(e, z);
    case ReturnVal(e) => OneReadable(e, z);
    case If(e, t, f) =>
      Parts(e, Exprs(t), Exprs(f));
      ExprReadable(e, z);
      BlockReadable(t, z);
      BlockReadable(f, z);
      Parts(ESubst(e, z), Exprs(BSubst(t, z)), Exprs(BSubst(f, z)));
    case Block(ss) => BlockReadable(ss, z);
    case While(e, b) =>
      ParsedFirst(e, Exprs(b));
      ExprReadable(e, z);
      BlockReadable(b, z);
      ParsedFirst(ESubst(e, z), Exprs(BSubst(b, z)));
    case _ => assert AllParsed([]) by { NoneParsed(); }
  }

  lemma NoneParsed()
    ensures AllParsed([])
  {
  }

  lemma Parts(e: Expr, a: seq<Expr>, b: seq<Expr>)
    ensures AllParsed([e] + a + b) <==> Parsed(e) && AllParsed(a) && AllParsed(b)
  {
    hide Parsed, AllParsed;
    ParsedAppend([e] + a, b);
    ParsedFirst(e, a);
  }

  lemma OneReadable(e: Expr, z: Subst)
    requires AllParsed([e]) && Tight(z)
    ensures AllParsed([ESubst(e, z)]) <==> !ReadsFrom(e, NumberArgs(z))
  {
    hide Parsed, AllParsed, ReadsFrom, NumberArgs, Tight, ESubst;
    var none: seq<Expr> := [];
    ParsedFirst(e, none);
    ParsedFirst(ESubst(e, z), none);
    assert [e] + none == [e] && [ESubst(e, z)] + none == [ESubst(e, z)];
    NoneParsed();
    ExprReadable(e, z);
  }

  lemma {:induction false} BlockReadable(ss: seq<Stmt>, z: Subst)
    requires AllParsed(Exprs(ss)) && Tight(z)
    ensures AllParsed(Exprs(BSubst(ss, z))) <==> !BReads(ss, NumberArgs(z))
    decreases ss, 1
  {
    HiddenNumbers(z, Decls(ss));
    ListReadable(ss, Hide(z, Decls(ss)));
  }

  /** Pasting arguments into a list keeps every expression readable exactly when no field is then read
      from a number. */
  lemma {:induction false} ListReadable(ss: seq<Stmt>, z: Subst)
    requires AllParsed(Exprs(ss)) && Tight(z)
    ensures AllParsed(Exprs(Substs(ss, z))) <==> !Reads(ss, NumberArgs(z))
    decreases ss, 0
  {
    hide Parsed, AllParsed, NumberArgs, Tight, SSubst, SExprs, SReads;
    if ss == [] {
      NoneParsed();
    } else {
      ParsedAppend(SExprs(ss[0]), Exprs(ss[1..]));
      StmtReadable(ss[0], z);
      ListReadable(ss[1..], z);
      ParsedAppend(SExprs(SSubst(ss[0], z)), Exprs(Substs(ss[1..], z)));
      assert Substs(ss, z)[1..] == Substs(ss[1..], z);
    }
  }

  // ----- what a site puts in place of a parameter -----

  lemma {:induction false} PlanAt(ps: seq<Name>, args: seq<Expr>, body: seq<Stmt>, taken: set<Name>, strict: bool, i: nat)
    returns (temp: Name)
    requires i < |ps|
    ensures Plans(ps, args, body, taken, strict)[i]
            == PlanOf(Uses(ps[i], body), if i < |args| then Some(args[i]) else None, temp, strict)
  {
    if i == 0 {
      temp := Fresh(TempBase(ps[0]), taken);
    } else {
      var plan := PlanOf(Uses(ps[0], body), if args == [] then None else Some(args[0]), Fresh(TempBase(ps[0]), taken), strict);
      temp := PlanAt(ps[1..], if args == [] then [] else args[1..], body, taken + Temps([plan]), strict, i - 1);
    }
  }

  /** What replaces a parameter binds as tightly as a name, and is a bare number only if the argument is. */
  lemma StandTight(uses: nat, arg: Option<Expr>, temp: Name, strict: bool)
    requires arg.Some? ==> Parsed(arg.value)
    ensures var plan := PlanOf(uses, arg, temp, strict);
            plan.Missing? || plan.Hoist? || plan.Inline? ==>
              Parsed(Stand(plan)) && Level(Stand(plan)) == 6 && uses > 0
              && (IsNumber(Stand(plan)) <==> !strict && arg.Some? && IsNumber(arg.value))
  {
    if arg.Some? && NeedsParens(arg.value) { assert Level(Paren(arg.value)) == 6; }
  }

  lemma NumbersUsed(uses: nat, arg: Expr, temp: Name)
    requires IsNumber(arg) && uses > 0
    ensures PlanOf(uses, Some(arg), temp, false).Inline?
  {
  }

  /** Whatever is substituted at a site binds as tightly as the name it stands for. */
  lemma SiteTight(h: Func, args: seq<Expr>, taken: set<Name>, strict: bool)
    requires WellScoped(h) && AllParsed(args)
    ensures Tight(SiteSubst(h, SiteOf(h, args, taken, strict)))
  {
    hide Plans, ArgMap, Parsed, Level, Stand;
    var site := SiteOf(h, args, taken, strict);
    var z := SiteSubst(h, site);
    ArgMapKeys(h.params, site.plans);
    forall x | x in z.arg ensures Parsed(z.arg[x]) && Level(z.arg[x]) == 6 {
      var i :| 0 <= i < |h.params| && h.params[i] == x;
      ArgMapAt(h.params, site.plans, i);
      var temp := PlanAt(h.params, args, h.body, taken, strict, i);
      StandTight(Uses(x, h.body), if i < |args| then Some(args[i]) else None, temp, strict);
    }
  }

  /** The used parameters whose argument is a bare number. */
  function NumberParams(h: Func, args: seq<Expr>): set<Name> {
    set i | 0 <= i < |h.params| && i < |args| && IsNumber(args[i]) && Uses(h.params[i], h.body) > 0 :: h.params[i]
  }

  /** In default mode a bare number replaces just those; in strict mode it replaces none. */
  lemma SiteNumbers(h: Func, args: seq<Expr>, taken: set<Name>, strict: bool)
    requires WellScoped(h) && AllParsed(args)
    ensures NumberArgs(SiteSubst(h, SiteOf(h, args, taken, strict))) == if strict then {} else NumberParams(h, args)
  {
    hide Plans, ArgMap, Parsed, Level, Stand, Uses;
    var site := SiteOf(h, args, taken, strict);
    var z := SiteSubst(h, site);
    ArgMapKeys(h.params, site.plans);
    forall i | 0 <= i < |h.params|
      ensures h.params[i] in NumberArgs(z)
              <==> !strict && i < |args| && IsNumber(args[i]) && Uses(h.params[i], h.body) > 0
    {
      ArgMapAt(h.params, site.plans, i);
      var temp := PlanAt(h.params, args, h.body, taken, strict, i);
      var arg := if i < |args| then Some(args[i]) else None;
      StandTight(Uses(h.params[i], h.body), arg, temp, strict);
      if arg.Some? && IsNumber(arg.value) && Uses(h.params[i], h.body) > 0 && !strict {
        NumbersUsed(Uses(h.params[i], h.body), arg.value, temp);
      }
    }
    NumberSets(h, args, z, strict);
  }

  lemma NumberSets(h: Func, args: seq<Expr>, z: Subst, strict: bool)
    requires z.arg.Keys <= set x | x in h.params
    requires DistinctNames(h.params)
    requires forall i :: 0 <= i < |h.params| ==>
               (h.params[i] in NumberArgs(z)
                <==> !strict && i < |args| && IsNumber(args[i]) && Uses(h.params[i], h.body) > 0)
    ensures NumberArgs(z) == if strict then {} else NumberParams(h, args)
  {
    hide IsNumber, Uses;
    forall x ensures x in NumberArgs(z) <==> !strict && x in NumberParams(h, args) {
      if x in NumberArgs(z) {
        var i :| 0 <= i < |h.params| && h.params[i] == x;
      }
    }
  }

  // ----- guards and tail -----

  lemma {:induction false} BodyExprs(body: seq<Stmt>)
    requires AllParsed(Exprs(body))
    ensures AllParsed(Guards(body)) && AllParsed(Exprs(Tail(body)))
  {
    hide Parsed, AllParsed;
    if body != [] && IsGuard(body[0]) {
      ParsedAppend(SExprs(body[0]), Exprs(body[1..]));
      Parts(body[0].c, Exprs([Return]), Exprs([]));
      BodyExprs(body[1..]);
      ParsedFirst(body[0].c, Guards(body[1..]));
    } else {
      NoneParsed();
    }
  }

  lemma {:induction false} BodyReads(body: seq<Stmt>, xs: set<Name>)
    ensures Reads(body, xs) <==> AnyReadsFrom(Guards(body), xs) || Reads(Tail(body), xs)
  {
    hide ReadsFrom;
    if body != [] && IsGuard(body[0]) {
      BodyReads(body[1..], xs);
      assert Guards(body)[1..] == Guards(body[1..]);
      assert !BReads([Return], xs) && !BReads([], xs);
    }
  }

  lemma {:induction false} ExprsAppend(a: seq<Stmt>, b: seq<Stmt>)
    ensures Exprs(a + b) == Exprs(a) + Exprs(b)
  {
    hide SExprs;
    if a == [] {
      assert a + b == b;
    } else {
      ExprsAppend(a[1..], b);
      assert (a + b)[0] == a[0] && (a + b)[1..] == a[1..] + b;
      assert SExprs(a[0]) + (Exprs(a[1..]) + Exprs(b)) == (SExprs(a[0]) + Exprs(a[1..])) + Exprs(b);
    }
  }

  lemma {:induction false} PrefixParsed(plans: seq<Plan>)
    requires forall i :: 0 <= i < |plans| && (plans[i].Keep? || plans[i].Hoist?) ==> Parsed(plans[i].e)
    ensures AllParsed(Exprs(Prefix(plans)))
  {
    hide Parsed;
    if plans != [] {
      var here := if plans[0].Keep? then [Do(plans[0].e)]
                  else if plans[0].Hoist? then [Const(plans[0].temp, plans[0].e)] else [];
      PrefixParsed(plans[1..]);
      assert Prefix(plans) == here + Prefix(plans[1..]);
      ExprsAppend(here, Prefix(plans[1..]));
      if here != [] {
        assert here[1..] == [] && Exprs(here) == [plans[0].e] + [] == [plans[0].e];
      }
      ParsedAppend(Exprs(here), Exprs(Prefix(plans[1..])));
    }
  }

  /**
   * The replacement at a site can be read back if and only if, in default mode, the helper reads no field
   * from a parameter whose argument is a bare number; in strict mode it always can. The printed
   * condition is the text of the condition of the `if`, and fails to parse in just those cases.
   */
  lemma SiteText(h: Func, args: seq<Expr>, taken: set<Name>, strict: bool)
    requires WellScoped(h) && AllParsed(args) && AllParsed(Exprs(h.body))
    ensures var site := SiteOf(h, args, taken, strict);
            var z, ns := SiteSubst(h, site), NumberParams(h, args);
            && (Readable(Replacement(h, site)) <==> strict || !Reads(h.body, ns))
            && (Guards(h.body) != [] ==>
                  Parse(CombineGuards(Guards(h.body), z))
                  == if !strict && AnyReadsFrom(Guards(h.body), ns) then None
                     else Some(Condition(Guards(h.body), z)))
  {
    hide Plans, ArgMap, Parsed, Prefix, Exprs, Reads, Guards, Tail, Replacement, NumberParams, CombineGuards, Condition, Parse,
         NumberArgs, AllParsed, AnyReadsFrom, SiteSubst, Tight;
    var site := SiteOf(h, args, taken, strict);
    var z, ns := SiteSubst(h, site), if strict then {} else NumberParams(h, args);
    SiteTight(h, args, taken, strict);
    SiteNumbers(h, args, taken, strict);
    BodyExprs(h.body);
    NoReads(h.body);
    NoGuardReads(Guards(h.body));
    ReadableIsParsed(Replacement(h, site));
    if Guards(h.body) == [] {
      ListReadable(h.body, z);
      GuardlessText(h, args, taken, strict);
    } else {
      ConditionText(Guards(h.body), z);
      GuardedText(h, args, taken, strict);
    }
  }

  lemma {:induction false} NoReads(ss: seq<Stmt>)
    ensures !Reads(ss, {})
    decreases ss, 0
  {
    if ss != [] {
      NoReadsStmt(ss[0]);
      NoReads(ss[1..]);
    }
  }

  lemma {:induction false} NoReadsStmt(c: Stmt)
    ensures !SReads(c, {})
    decreases c, 1
  {
    match c
    case Do(e) => NoExprReads(e);
    case Const(_, e) => NoExprReads(e);
    case ReturnVal(e) => NoExprReads(e);
    case If(e, t, f) => NoExprReads(e); NoReads(t); NoReads(f); assert {} - Decls(t) == {} && {} - Decls(f) == {};
    case Block(ss) => NoReads(ss); assert {} - Decls(ss) == {};
    case While(e, b) => NoExprReads(e); NoReads(b); assert {} - Decls(b) == {};
    case _ =>
  }

  lemma {:induction false} NoExprReads(e: Expr)
    ensures !ReadsFrom(e, {})
  {
    match e
    case Paren(a) => NoExprReads(a);
    case Get(o, _) => NoExprReads(o);
    case Call(_, args) => NoGuardReads(args);
    case Not(a) => NoExprReads(a);
    case And(l, r) => NoExprReads(l); NoExprReads(r);
    case Or(l, r) => NoExprReads(l); NoExprReads(r);
    case Cmp(_, l, r) => NoExprReads(l); NoExprReads(r);
    case Assign(_, a) => NoExprReads(a);
    case _ =>
  }

  lemma {:induction false} NoGuardReads(es: seq<Expr>)
    ensures !AnyReadsFrom(es, {})
  {
    if es != [] {
      NoExprReads(es[0]);
      NoGuardReads(es[1..]);
    }
  }

  lemma SitePrefix(h: Func, args: seq<Expr>, taken: set<Name>, strict: bool)
    requires AllParsed(args)
    ensures AllParsed(Exprs(Prefix(SiteOf(h, args, taken, strict).plans)))
  {
    hide Parsed, Prefix, Exprs, Plans;
    var plans := SiteOf(h, args, taken, strict).plans;
    forall i | 0 <= i < |plans| && (plans[i].Keep? || plans[i].Hoist?) ensures Parsed(plans[i].e) {
      var temp := PlanAt(h.params, args, h.body, taken, strict, i);
    }
    PrefixParsed(plans);
  }

  lemma GuardlessText(h: Func, args: seq<Expr>, taken: set<Name>, strict: bool)
    requires AllParsed(args) && Guards(h.body) == []
    ensures var site := SiteOf(h, args, taken, strict);
            AllParsed(Exprs(Replacement(h, site))) <==> AllParsed(Exprs(Substs(h.body, SiteSubst(h, site))))
  {
    hide Parsed, Prefix, Exprs, Plans, Substs, AllParsed, SiteSubst;
    var site := SiteOf(h, args, taken, strict);
    var z := SiteSubst(h, site);
    SitePrefix(h, args, taken, strict);
    ExprsAppend(Prefix(site.plans), Substs(h.body, z));
    ParsedAppend(Exprs(Prefix(site.plans)), Exprs(Substs(h.body, z)));
  }

  lemma GuardedText(h: Func, args: seq<Expr>, taken: set<Name>, strict: bool)
    requires WellScoped(h) && AllParsed(args) && AllParsed(Exprs(h.body)) && Guards(h.body) != []
    ensures var site := SiteOf(h, args, taken, strict);
            AllParsed(Exprs(Replacement(h, site))) <==> !Reads(h.body, NumberArgs(SiteSubst(h, site)))
  {
    hide Parsed, Prefix, Exprs, Plans, AllParsed, Condition, Guards, Tail, Reads, AnyReadsFrom, NumberArgs, Tight, BSubst, BReads,
         SiteSubst;
    var site := SiteOf(h, args, taken, strict);
    var z, tail, gs := SiteSubst(h, site), Tail(h.body), Guards(h.body);
    SiteTight(h, args, taken, strict);
    SitePrefix(h, args, taken, strict);
    BodyExprs(h.body);
    ConditionParsed(gs, z);
    BlockReadable(tail, z);
    SiteKeys(h, site);
    TailReads(h, z);
    var last := If(Condition(gs, z), BSubst(tail, z), []);
    ExprsAppend(Prefix(site.plans), [last]);
    ParsedAppend(Exprs(Prefix(site.plans)), Exprs([last]));
    LastExprs(Condition(gs, z), BSubst(tail, z));
  }

  lemma LastExprs(c: Expr, thn: seq<Stmt>)
    ensures AllParsed(Exprs([If(c, thn, [])])) <==> Parsed(c) && AllParsed(Exprs(thn))
  {
    hide Parsed, AllParsed;
    var last := If(c, thn, []);
    assert [last][1..] == [] && Exprs([]) == [];
    assert Exprs([last]) == SExprs(last) + [] == [c] + Exprs(thn) + [];
    Parts(c, Exprs(thn), []);
    NoneParsed();
  }

  lemma SiteKeys(h: Func, site: Site)
    requires |site.plans| == |h.params|
    ensures SiteSubst(h, site).arg.Keys <= set x | x in h.params
  {
    ArgMapKeys(h.params, site.plans);
  }

  lemma TailReads(h: Func, z: Subst)
    requires WellScoped(h) && z.arg.Keys <= set x | x in h.params
    ensures var ns := NumberArgs(z);
            Reads(h.body, ns) <==> AnyReadsFrom(Guards(h.body), ns) || BReads(Tail(h.body), ns)
  {
    BodyReads(h.body, NumberArgs(z));
    BodyParts(h.body);
    assert NumberArgs(z) - Decls(Tail(h.body)) == NumberArgs(z);
  }
}
