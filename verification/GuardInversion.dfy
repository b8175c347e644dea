/** Guard inversion, from printed text back to meaning. */
module GuardInversion {
  import opened Wrappers
  import opened Script
  import opened ScriptText

  // `negate`, `wrap`, `combineGuards`: the text of the positive condition, the expression a
  // parser reads back from that text, and the proof that testing it is the same as finding
  // every guard false.

  // ----- parameter substitution inside an expression -----

  /** `arg`: parameters and what replaces them; `ren`: renamed locals. */
  datatype Subst = Subst(ren: map<Name, Name>, arg: map<Name, Expr>)

  function ESubst(e: Expr, z: Subst): Expr {
    match e
    case Lit(_) => e
    case Var(x) => if x in z.arg then z.arg[x] else if x in z.ren then Var(z.ren[x]) else e
    case Paren(a) => Paren(ESubst(a, z))
    case Get(o, field) => Get(ESubst(o, z), field)
    case Call(f, args) => Call(f, ASubst(args, z))
    case Not(a) => Not(ESubst(a, z))
    case And(l, r) => And(ESubst(l, z), ESubst(r, z))
    case Or(l, r) => Or(ESubst(l, z), ESubst(r, z))
    case Cmp(op, l, r) => Cmp(op, ESubst(l, z), ESubst(r, z))
    case Assign(x, a) => Assign(if x in z.ren then z.ren[x] else x, ESubst(a, z))
  }

  function ASubst(args: seq<Expr>, z: Subst): (r: seq<Expr>)
    ensures |r| == |args|
  {
    if args == [] then [] else [ESubst(args[0], z)] + ASubst(args[1..], z)
  }

  // ----- negation as text -----

  const PREC_OR: nat := 1
  const PREC_AND: nat := 2
  const PREC_ATOM: nat := 3

  datatype Negated = Negated(text: seq<Token>, prec: nat)

  function Flipped(op: CmpOp): CmpOp {
    match op
    case StrictEq => StrictNe
    case StrictNe => StrictEq
    case LooseEq => LooseNe
    case LooseNe => LooseEq
    case Lt => Ge
    case Gt => Le
    case Le => Gt
    case Ge => Lt
  }

  function LogicalPrec(e: Expr): nat {
    match e
    case Paren(a) => LogicalPrec(a)
    case Or(_, _) => PREC_OR
    case And(_, _) => PREC_AND
    case _ => PREC_ATOM
  }

  function Negate(e: Expr, z: Subst): Negated {
    match e
    case Paren(a) => Negate(a, z)
    case Not(a) => Negated(Render(ESubst(a, z)), LogicalPrec(a))
    case Cmp(op, l, r) => Negated(Render(ESubst(l, z)) + [TCmp(Flipped(op))] + Render(ESubst(r, z)), PREC_ATOM)
    case And(l, r) => Negated(Negate(l, z).text + [TOr] + Negate(r, z).text, PREC_OR)
    case Or(l, r) => Negated(Wrap(Negate(l, z)) + [TAnd] + Wrap(Negate(r, z)), PREC_AND)
    case _ => Negated([TNot, TOpen] + Render(ESubst(e, z)) + [TClose], PREC_ATOM)
  }

  /** Parenthesised when it binds less tightly than `&&`. */
  function Wrap(part: Negated): seq<Token> {
    if part.prec < PREC_AND then [TOpen] + part.text + [TClose] else part.text
  }

  function JoinParts(gs: seq<Expr>, z: Subst): seq<Token>
    requires gs != []
  {
    if |gs| == 1 then Wrap(Negate(gs[0], z))
    else Wrap(Negate(gs[0], z)) + [TAnd] + JoinParts(gs[1..], z)
  }

  function CombineGuards(gs: seq<Expr>, z: Subst): seq<Token>
    requires gs != []
  {
    if |gs| == 1 then Negate(gs[0], z).text else JoinParts(gs, z)
  }

  // ----- the expression that text stands for -----

  /** `a || b` written without parentheses: `||` chains re-associate to the left. */
  function JoinOr(a: Expr, b: Expr): Expr {
    if b.Or? then Or(JoinOr(a, b.l), b.r) else Or(a, b)
  }

  function JoinAnd(a: Expr, b: Expr): Expr {
    if b.And? then And(JoinAnd(a, b.l), b.r) else And(a, b)
  }

  function Neg(e: Expr, z: Subst): Expr
    decreases e, 0
  {
    match e
    case Paren(a) => Neg(a, z)
    case Not(a) => ESubst(a, z)
    case Cmp(op, l, r) => Cmp(Flipped(op), ESubst(l, z), ESubst(r, z))
    case And(l, r) => JoinOr(Neg(l, z), Neg(r, z))
    case Or(l, r) => JoinAnd(NegWrapped(l, z), NegWrapped(r, z))
    case _ => Not(Paren(ESubst(e, z)))
  }

  function NegWrapped(e: Expr, z: Subst): Expr
    decreases e, 1
  {
    if Negate(e, z).prec < PREC_AND then Paren(Neg(e, z)) else Neg(e, z)
  }

  function NegAll(gs: seq<Expr>, z: Subst): Expr
    requires gs != []
  {
    if |gs| == 1 then NegWrapped(gs[0], z) else JoinAnd(NegWrapped(gs[0], z), NegAll(gs[1..], z))
  }

  function Condition(gs: seq<Expr>, z: Subst): Expr
    requires gs != []
  {
    if |gs| == 1 then Neg(gs[0], z) else NegAll(gs, z)
  }

  /** Every substituted argument is parsed and parenthesised down to a primary. */
  ghost predicate Tight(z: Subst) {
    forall x :: x in z.arg ==> Parsed(z.arg[x]) && Level(z.arg[x]) == 6
  }

  // ----- numbers under a field read -----

  /** A field is read from one of these names. */
  predicate ReadsFrom(e: Expr, xs: set<Name>) {
    match e
    case Lit(_) => false
    case Var(_) => false
    case Paren(a) => ReadsFrom(a, xs)
    case Get(o, _) => (o.Var? && o.x in xs) || ReadsFrom(o, xs)
    case Call(_, args) => AnyReadsFrom(args, xs)
    case Not(a) => ReadsFrom(a, xs)
    case And(l, r) => ReadsFrom(l, xs) || ReadsFrom(r, xs)
    case Or(l, r) => ReadsFrom(l, xs) || ReadsFrom(r, xs)
    case Cmp(_, l, r) => ReadsFrom(l, xs) || ReadsFrom(r, xs)
    case Assign(_, a) => ReadsFrom(a, xs)
  }

  predicate AnyReadsFrom(es: seq<Expr>, xs: set<Name>) {
    es != [] && (ReadsFrom(es[0], xs) || AnyReadsFrom(es[1..], xs))
  }

  /** The parameters that a bare number replaces. */
  function NumberArgs(z: Subst): set<Name> {
    set x | x in z.arg && IsNumber(z.arg[x])
  }

  lemma {:induction false} SubstLevel(e: Expr, z: Subst)
    requires Tight(z)
    ensures Level(ESubst(e, z)) >= Level(e)
    ensures IsNumber(ESubst(e, z)) <==> IsNumber(e) || (e.Var? && e.x in NumberArgs(z))
  {
  }

  /** The substituted expression is one the parser builds, unless a field is read from a number. */
  lemma {:induction false} SubstParsed(e: Expr, z: Subst)
    requires Parsed(e) && Tight(z) && !ReadsFrom(e, NumberArgs(z))
    ensures Parsed(ESubst(e, z))
    decreases e, 1
  {
    hide Tight, NumberArgs;
    match e
    case Lit(_) =>
    case Var(x) => VarParsed(x, z);
    case Paren(a) => SubstParsed(a, z);
    case Get(o, _) => SubstParsed(o, z); SubstLevel(o, z);
    case Call(_, args) => ArgsParsed(args, z);
    case Not(a) => SubstParsed(a, z); SubstLevel(a, z);
    case And(l, r) => PairParsed(e, l, r, z);
    case Or(l, r) => PairParsed(e, l, r, z);
    case Cmp(_, l, r) => PairParsed(e, l, r, z);
    case Assign(_, a) => SubstParsed(a, z);
  }

  lemma VarParsed(x: Name, z: Subst)
    requires Tight(z)
    ensures Parsed(ESubst(Var(x), z))
  {
  }

  lemma {:induction false} PairParsed(e: Expr, l: Expr, r: Expr, z: Subst)
    requires l < e && r < e && Parsed(l) && Parsed(r) && Tight(z)
    requires !ReadsFrom(l, NumberArgs(z)) && !ReadsFrom(r, NumberArgs(z))
    ensures Parsed(ESubst(l, z)) && Level(ESubst(l, z)) >= Level(l)
    ensures Parsed(ESubst(r, z)) && Level(ESubst(r, z)) >= Level(r)
    decreases e, 0
  {
    SubstParsed(l, z);
    SubstParsed(r, z);
    SubstLevel(l, z);
    SubstLevel(r, z);
  }

  lemma {:induction false} ArgsParsed(args: seq<Expr>, z: Subst)
    requires AllParsed(args) && Tight(z) && !AnyReadsFrom(args, NumberArgs(z))
    ensures AllParsed(ASubst(args, z))
    decreases args
  {
    hide Tight, NumberArgs, Parsed, ReadsFrom;
    if args != [] {
      SubstParsed(args[0], z);
      ArgsParsed(args[1..], z);
    }
  }

  /** Its text has a dot behind a number exactly in that case. */
  lemma {:induction false} SubstDots(e: Expr, z: Subst)
    requires Parsed(e) && Tight(z)
    ensures NoNumberDot(Render(ESubst(e, z))) <==> !ReadsFrom(e, NumberArgs(z))
    decreases e, 1
  {
    hide NoNumberDot, NumberArgs, Tight;
    match e
    case Lit(_) => LeafDots(e, z);
    case Var(_) => LeafDots(e, z);
    case Paren(a) => SubstDots(a, z); DotsWrapped(Render(ESubst(a, z)));
    case Get(o, field) => ReadDots(o, field, z);
    case Call(f, args) => ArgsDots(args, z); DotsCall(f, RenderArgs(ASubst(args, z)));
    case Not(a) => SubstDots(a, z); DotsBehind(TNot, Render(ESubst(a, z)));
    case And(l, r) => SubstDots(l, z); SubstDots(r, z); DotsAround(Render(ESubst(l, z)), TAnd, Render(ESubst(r, z)));
    case Or(l, r) => SubstDots(l, z); SubstDots(r, z); DotsAround(Render(ESubst(l, z)), TOr, Render(ESubst(r, z)));
    case Cmp(op, l, r) =>
      SubstDots(l, z);
      SubstDots(r, z);
      DotsAround(Render(ESubst(l, z)), TCmp(op), Render(ESubst(r, z)));
    case Assign(x, a) => SubstDots(a, z); DotsAssign(if x in z.ren then z.ren[x] else x, Render(ESubst(a, z)));
  }

  lemma LeafDots(e: Expr, z: Subst)
    requires (e.Lit? || e.Var?) && Parsed(e) && Tight(z)
    ensures NoNumberDot(Render(ESubst(e, z)))
  {
    hide NoNumberDot;
    ParsedIsClean(ESubst(e, z));
  }

  lemma {:induction false} ReadDots(o: Expr, field: Name, z: Subst)
    requires Parsed(Get(o, field)) && Tight(z)
    ensures NoNumberDot(Render(Get(ESubst(o, z), field))) <==> !ReadsFrom(Get(o, field), NumberArgs(z))
    decreases o, 2
  {
    hide NoNumberDot;
    var o' := ESubst(o, z);
    SubstDots(o, z);
    SubstLevel(o, z);
    DotsJoin(Render(o'), [TDot(field)]);
    SingleDot(TDot(field));
    if !IsNumber(o') { LastToken(o'); }
  }

  lemma {:induction false} ArgsDots(args: seq<Expr>, z: Subst)
    requires AllParsed(args) && Tight(z)
    ensures NoNumberDot(RenderArgs(ASubst(args, z))) <==> !AnyReadsFrom(args, NumberArgs(z))
    decreases args
  {
    hide NoNumberDot, NumberArgs, Tight;
    if args == [] {
      SingleDot(TOpen);
    } else {
      SubstDots(args[0], z);
      ArgsDots(args[1..], z);
      var first, rest := ESubst(args[0], z), ASubst(args[1..], z);
      assert ASubst(args, z) == [first] + rest && ([first] + rest)[1..] == rest;
      if |args| > 1 {
        DotsAround(Render(first), TComma, RenderArgs(rest));
      } else {
        assert rest == [] && RenderArgs(rest) == [];
      }
    }
  }

  // ----- the text of the condition -----

  lemma {:induction false} JoinOrText(a: Expr, b: Expr)
    ensures Render(JoinOr(a, b)) == Render(a) + [TOr] + Render(b)
    ensures Parsed(a) && Parsed(b) && Level(a) >= 1 && Level(b) >= 1 ==> Parsed(JoinOr(a, b))
    ensures Level(JoinOr(a, b)) == 1
    decreases b
  {
    if b.Or? {
      JoinOrText(a, b.l);
    }
  }

  lemma {:induction false} JoinAndText(a: Expr, b: Expr)
    ensures Render(JoinAnd(a, b)) == Render(a) + [TAnd] + Render(b)
    ensures Parsed(a) && Parsed(b) && Level(a) >= 2 && Level(b) >= 2 ==> Parsed(JoinAnd(a, b))
    ensures Level(JoinAnd(a, b)) == 2
    decreases b
  {
    if b.And? {
      JoinAndText(a, b.l);
    }
  }

  /** The negated text renders the negated tree. */
  lemma {:induction false} NegRender(e: Expr, z: Subst)
    ensures Render(Neg(e, z)) == Negate(e, z).text
    ensures Render(NegWrapped(e, z)) == Wrap(Negate(e, z))
  {
    match e
    case Paren(a) => NegRender(a, z);
    case And(l, r) => NegRender(l, z); NegRender(r, z); JoinOrText(Neg(l, z), Neg(r, z));
    case Or(l, r) => NegRender(l, z); NegRender(r, z); JoinAndText(NegWrapped(l, z), NegWrapped(r, z));
    case _ =>
  }

  /** The negated tree is one the parser builds, at the level that was reported for its text. */
  lemma {:induction false} NegText(e: Expr, z: Subst)
    requires Parsed(e) && Tight(z) && !ReadsFrom(e, NumberArgs(z))
    ensures Render(Neg(e, z)) == Negate(e, z).text
    ensures Parsed(Neg(e, z)) && Level(Neg(e, z)) >= 1
    ensures Negate(e, z).prec >= PREC_AND ==> Level(Neg(e, z)) >= 2
    decreases e, 1
  {
    hide Tight, NumberArgs, Render;
    NegRender(e, z);
    match e
    case Paren(a) => NegText(a, z);
    case Not(a) => SubstParsed(a, z); SubstLevel(a, z);
    case Cmp(op, l, r) => SubstParsed(l, z); SubstParsed(r, z); SubstLevel(l, z); SubstLevel(r, z);
    case And(l, r) =>
      NegText(l, z);
      NegText(r, z);
      JoinOrText(Neg(l, z), Neg(r, z));
    case Or(l, r) =>
      NegWrappedText(l, z);
      NegWrappedText(r, z);
      JoinAndText(NegWrapped(l, z), NegWrapped(r, z));
    case _ => SubstParsed(e, z);
  }

  lemma {:induction false} NegWrappedText(e: Expr, z: Subst)
    requires Parsed(e) && Tight(z) && !ReadsFrom(e, NumberArgs(z))
    ensures Parsed(NegWrapped(e, z)) && Level(NegWrapped(e, z)) >= 2
    decreases e, 2
  {
    NegText(e, z);
  }

  lemma {:induction false} NegDots(e: Expr, z: Subst)
    requires Parsed(e) && Tight(z)
    ensures NoNumberDot(Negate(e, z).text) <==> !ReadsFrom(e, NumberArgs(z))
    ensures NoNumberDot(Wrap(Negate(e, z))) <==> !ReadsFrom(e, NumberArgs(z))
  {
    hide NoNumberDot, NumberArgs, Tight, Render;
    DotsWrapped(Negate(e, z).text);
    match e
    case Paren(a) => NegDots(a, z);
    case Not(a) => SubstDots(a, z);
    case Cmp(op, l, r) =>
      SubstDots(l, z);
      SubstDots(r, z);
      DotsAround(Render(ESubst(l, z)), TCmp(Flipped(op)), Render(ESubst(r, z)));
    case And(l, r) => NegDots(l, z); NegDots(r, z); DotsAround(Negate(l, z).text, TOr, Negate(r, z).text);
    case Or(l, r) => NegDots(l, z); NegDots(r, z); DotsAround(Wrap(Negate(l, z)), TAnd, Wrap(Negate(r, z)));
    case _ => SubstDots(e, z); NotDots(Render(ESubst(e, z)));
  }

  lemma NotDots(a: seq<Token>)
    ensures NoNumberDot([TNot, TOpen] + a + [TClose]) <==> NoNumberDot(a)
  {
    hide NoNumberDot;
    assert [TNot, TOpen] + a + [TClose] == [TNot] + ([TOpen] + a + [TClose]);
    DotsBehind(TNot, [TOpen] + a + [TClose]);
    DotsWrapped(a);
  }

  lemma {:induction false} NegAllText(gs: seq<Expr>, z: Subst)
    requires gs != [] && Tight(z) && AllParsed(gs)
    ensures Render(NegAll(gs, z)) == JoinParts(gs, z)
    ensures !AnyReadsFrom(gs, NumberArgs(z)) ==> Parsed(NegAll(gs, z)) && Level(NegAll(gs, z)) >= 2
    ensures NoNumberDot(JoinParts(gs, z)) <==> !AnyReadsFrom(gs, NumberArgs(z))
  {
    hide NoNumberDot, NumberArgs, Tight, ReadsFrom, NegWrapped, Wrap, Negate, Render, Parsed;
    NegRender(gs[0], z);
    NegDots(gs[0], z);
    if !ReadsFrom(gs[0], NumberArgs(z)) { NegWrappedText(gs[0], z); }
    if |gs| > 1 {
      NegAllText(gs[1..], z);
      JoinAndText(NegWrapped(gs[0], z), NegAll(gs[1..], z));
      DotsAround(Wrap(Negate(gs[0], z)), TAnd, JoinParts(gs[1..], z));
    }
  }

  /** The text is the rendering of `Condition`, which the parser builds unless a number is read from. */
  lemma ConditionParsed(gs: seq<Expr>, z: Subst)
    requires gs != [] && Tight(z) && AllParsed(gs)
    ensures Render(Condition(gs, z)) == CombineGuards(gs, z)
    ensures Parsed(Condition(gs, z)) <==> !AnyReadsFrom(gs, NumberArgs(z))
    ensures NoNumberDot(CombineGuards(gs, z)) <==> !AnyReadsFrom(gs, NumberArgs(z))
  {
    hide NoNumberDot, NumberArgs, Tight, ReadsFrom, Parsed, Render;
    if |gs| == 1 {
      NegRender(gs[0], z);
      NegDots(gs[0], z);
      if !ReadsFrom(gs[0], NumberArgs(z)) { NegText(gs[0], z); }
      assert !AnyReadsFrom(gs[1..], NumberArgs(z));
    } else {
      NegAllText(gs, z);
    }
    if Parsed(Condition(gs, z)) { ParsedIsClean(Condition(gs, z)); }
  }

  /** The minimally parenthesised text parses to exactly `Condition`, unless a field is read from a
      parameter that a bare number replaces; then it does not parse. */
  lemma ConditionText(gs: seq<Expr>, z: Subst)
    requires gs != [] && Tight(z) && AllParsed(gs)
    ensures Parse(CombineGuards(gs, z)) == if AnyReadsFrom(gs, NumberArgs(z)) then None else Some(Condition(gs, z))
  {
    hide NoNumberDot, NumberArgs, Tight, Parsed, Render, AnyReadsFrom, Parse;
    ConditionParsed(gs, z);
    if AnyReadsFrom(gs, NumberArgs(z)) {
      NumberDotFails(CombineGuards(gs, z));
    } else {
      ParseExact(CombineGuards(gs, z), Condition(gs, z));
    }
  }

  // ----- meaning -----

  function Test(w: World, p: Table, e: Expr, s: State, n: nat): Outcome<bool> {
    var (v, s1) :- Eval(w, p, e, s, n);
    Ok(Truthy(v), s1)
  }

  function Flip(r: Outcome<bool>): Outcome<bool> {
    if r.Ok? then Ok(!r.val, r.st) else r
  }

  /** Testing the guard reaches a relational comparison that negation flips,
      on operands the order leaves unordered (NaN in JavaScript). */
  predicate MeetsUnordered(w: World, p: Table, e: Expr, z: Subst, s: State, n: nat) {
    match e
    case Paren(a) => MeetsUnordered(w, p, a, z, s, n)
    case Cmp(op, l, r) =>
      && Relational(op)
      && var a := Eval(w, p, ESubst(l, z), s, n);
      && a.Ok?
      && var b := Eval(w, p, ESubst(r, z), a.st, n);
      && b.Ok? && w.order(a.val, b.val).Unordered?
    case And(l, r) =>
      || MeetsUnordered(w, p, l, z, s, n)
      || (var a := Test(w, p, ESubst(l, z), s, n); a.Ok? && a.val && MeetsUnordered(w, p, r, z, a.st, n))
    case Or(l, r) =>
      || MeetsUnordered(w, p, l, z, s, n)
      || (var a := Test(w, p, ESubst(l, z), s, n); a.Ok? && !a.val && MeetsUnordered(w, p, r, z, a.st, n))
    case _ => false
  }

  /** A flipped comparator is the complement exactly on ordered operands;
      equality flips need nothing. */
  lemma FlipExact(w: World, op: CmpOp, a: Value, b: Value)
    ensures Compare(w, Flipped(op), a, b) == !Compare(w, op, a, b) <==>
            !(Relational(op) && w.order(a, b).Unordered?)
  {
  }

  lemma TestLogic(w: World, p: Table, a: Expr, b: Expr, s: State, n: nat)
    ensures Test(w, p, Paren(a), s, n) == Test(w, p, a, s, n)
    ensures Test(w, p, Not(a), s, n) == Flip(Test(w, p, a, s, n))
    ensures var r := Test(w, p, a, s, n);
            && Test(w, p, And(a, b), s, n) == (if r.Ok? && r.val then Test(w, p, b, r.st, n) else r)
            && Test(w, p, Or(a, b), s, n) == (if r.Ok? && !r.val then Test(w, p, b, r.st, n) else r)
  {
  }

  lemma {:induction false} JoinOrTest(w: World, p: Table, a: Expr, b: Expr, s: State, n: nat)
    ensures Test(w, p, JoinOr(a, b), s, n) == Test(w, p, Or(a, b), s, n)
    decreases b
  {
    TestLogic(w, p, a, b, s, n);
    if b.Or? {
      JoinOrTest(w, p, a, b.l, s, n);
      TestLogic(w, p, a, b.l, s, n);
      TestLogic(w, p, JoinOr(a, b.l), b.r, s, n);
      var r := Test(w, p, a, s, n);
      if r.Ok? {
        TestLogic(w, p, b.l, b.r, r.st, n);
      }
    }
  }

  lemma {:induction false} JoinAndTest(w: World, p: Table, a: Expr, b: Expr, s: State, n: nat)
    ensures Test(w, p, JoinAnd(a, b), s, n) == Test(w, p, And(a, b), s, n)
    decreases b
  {
    TestLogic(w, p, a, b, s, n);
    if b.And? {
      JoinAndTest(w, p, a, b.l, s, n);
      TestLogic(w, p, a, b.l, s, n);
      TestLogic(w, p, JoinAnd(a, b.l), b.r, s, n);
      var r := Test(w, p, a, s, n);
      if r.Ok? {
        TestLogic(w, p, b.l, b.r, r.st, n);
      }
    }
  }

  /** Negation flips the outcome of the test and nothing else: same state, same
      trace, same exceptions. */
  lemma {:induction false} NegTest(w: World, p: Table, e: Expr, z: Subst, s: State, n: nat)
    requires !MeetsUnordered(w, p, e, z, s, n)
    ensures Test(w, p, Neg(e, z), s, n) == Flip(Test(w, p, ESubst(e, z), s, n))
    decreases e, 1
  {
    var e' := ESubst(e, z);
    match e
    case Paren(a) =>
      NegTest(w, p, a, z, s, n);
      TestLogic(w, p, ESubst(a, z), e', s, n);
    case Not(a) =>
      TestLogic(w, p, ESubst(a, z), e', s, n);
    case And(l, r) =>
      NegTestPair(w, p, e, l, r, z, s, n, true);
      TestLogic(w, p, ESubst(l, z), ESubst(r, z), s, n);
      TestLogic(w, p, Neg(l, z), Neg(r, z), s, n);
      JoinOrTest(w, p, Neg(l, z), Neg(r, z), s, n);
    case Or(l, r) =>
      NegTestPair(w, p, e, l, r, z, s, n, false);
      TestLogic(w, p, ESubst(l, z), ESubst(r, z), s, n);
      WrapTest(w, p, l, z, s, n);
      TestLogic(w, p, NegWrapped(l, z), NegWrapped(r, z), s, n);
      var a := Test(w, p, ESubst(l, z), s, n);
      if a.Ok? {
        WrapTest(w, p, r, z, a.st, n);
      }
      JoinAndTest(w, p, NegWrapped(l, z), NegWrapped(r, z), s, n);
    case Cmp(_, _, _) =>
    case _ =>
      TestLogic(w, p, e', e', s, n);
      TestLogic(w, p, Paren(e'), e', s, n);
  }

  lemma WrapTest(w: World, p: Table, e: Expr, z: Subst, s: State, n: nat)
    ensures Test(w, p, NegWrapped(e, z), s, n) == Test(w, p, Neg(e, z), s, n)
  {
    TestLogic(w, p, Neg(e, z), e, s, n);
  }

  /** Both operands of a junction whose right one runs when the left is `go`. */
  lemma {:induction false} NegTestPair(w: World, p: Table, e: Expr, l: Expr, r: Expr, z: Subst, s: State, n: nat, go: bool)
    requires l < e && r < e && !MeetsUnordered(w, p, l, z, s, n)
    requires var a := Test(w, p, ESubst(l, z), s, n);
             a.Ok? && a.val == go ==> !MeetsUnordered(w, p, r, z, a.st, n)
    ensures Test(w, p, Neg(l, z), s, n) == Flip(Test(w, p, ESubst(l, z), s, n))
    ensures var a := Test(w, p, ESubst(l, z), s, n);
            a.Ok? && a.val == go ==>
              Test(w, p, Neg(r, z), a.st, n) == Flip(Test(w, p, ESubst(r, z), a.st, n))
    decreases e, 0
  {
    NegTest(w, p, l, z, s, n);
    var a := Test(w, p, ESubst(l, z), s, n);
    if a.Ok? && a.val == go {
      NegTest(w, p, r, z, a.st, n);
    }
  }

  /** Testing the guards in order, stopping at the first that holds: `Ok(true, …)`
      when all are false. */
  function AllFalse(w: World, p: Table, gs: seq<Expr>, z: Subst, s: State, n: nat): Outcome<bool> {
    if gs == [] then Ok(true, s)
    else
      var (hit, s1) :- Test(w, p, ESubst(gs[0], z), s, n);
      if hit then Ok(false, s1) else AllFalse(w, p, gs[1..], z, s1, n)
  }

  predicate AnyUnordered(w: World, p: Table, gs: seq<Expr>, z: Subst, s: State, n: nat) {
    gs != [] &&
    (|| MeetsUnordered(w, p, gs[0], z, s, n)
     || (var a := Test(w, p, ESubst(gs[0], z), s, n); a.Ok? && !a.val && AnyUnordered(w, p, gs[1..], z, a.st, n)))
  }

  lemma {:induction false} NegAllTest(w: World, p: Table, gs: seq<Expr>, z: Subst, s: State, n: nat)
    requires gs != [] && !AnyUnordered(w, p, gs, z, s, n)
    ensures Test(w, p, NegAll(gs, z), s, n) == AllFalse(w, p, gs, z, s, n)
  {
    NegTest(w, p, gs[0], z, s, n);
    WrapTest(w, p, gs[0], z, s, n);
    var a := Test(w, p, ESubst(gs[0], z), s, n);
    if |gs| == 1 {
      assert gs[1..] == [];
      if a.Ok? {
        assert AllFalse(w, p, gs[1..], z, a.st, n) == Ok(true, a.st);
      }
    } else {
      if a.Ok? && !a.val {
        NegAllTest(w, p, gs[1..], z, a.st, n);
      }
      TestLogic(w, p, NegWrapped(gs[0], z), NegAll(gs[1..], z), s, n);
      JoinAndTest(w, p, NegWrapped(gs[0], z), NegAll(gs[1..], z), s, n);
    }
  }

  /** The parsed-back condition is truthy exactly when every guard is falsy, with the
      same evaluations in the same order. */
  lemma ConditionTest(w: World, p: Table, gs: seq<Expr>, z: Subst, s: State, n: nat)
    requires gs != [] && !AnyUnordered(w, p, gs, z, s, n)
    ensures Test(w, p, Condition(gs, z), s, n) == AllFalse(w, p, gs, z, s, n)
  {
    if |gs| == 1 {
      NegTest(w, p, gs[0], z, s, n);
      assert gs[1..] == [];
    } else {
      NegAllTest(w, p, gs, z, s, n);
    }
  }
}
