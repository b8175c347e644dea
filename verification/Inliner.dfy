/** The rewriting of one call: `buildReplacement`. */
module Inliner {
  import opened Wrappers
  import opened Script
  import opened ScriptText
  import opened FreshNames
  import opened GuardInversion

  // Which arguments are hoisted, the temporaries and renamed locals, and the statements that
  // replace the call.

  // ----- substitution in statements, scope by scope -----

  function Hide(z: Subst, d: set<Name>): Subst {
    Subst(z.ren - d, z.arg - d)
  }

  function Renamed(x: Name, z: Subst): Name {
    if x in z.ren then z.ren[x] else x
  }

  function SSubst(c: Stmt, z: Subst): Stmt {
    match c
    case Do(e) => Do(ESubst(e, z))
    case Const(x, e) => Const(Renamed(x, z), ESubst(e, z))
    case If(e, t, f) => If(ESubst(e, z), BSubst(t, z), BSubst(f, z))
    case Block(ss) => Block(BSubst(ss, z))
    case While(e, b) => While(ESubst(e, z), BSubst(b, z))
    case ReturnVal(e) => ReturnVal(ESubst(e, z))
    case _ => c
  }

  function Substs(ss: seq<Stmt>, z: Subst): (r: seq<Stmt>)
    ensures |r| == |ss|
    decreases ss, 0
  {
    if ss == [] then [] else [SSubst(ss[0], z)] + Substs(ss[1..], z)
  }

  /** A nested block hides what it declares. */
  function BSubst(ss: seq<Stmt>, z: Subst): seq<Stmt>
    decreases ss, 1
  {
    Substs(ss, Hide(z, Decls(ss)))
  }

  // ----- guards and tail -----

  predicate IsGuard(c: Stmt) {
    c.If? && c.thn == [Return] && c.els == []
  }

  function Guards(body: seq<Stmt>): seq<Expr> {
    if body != [] && IsGuard(body[0]) then [body[0].c] + Guards(body[1..]) else []
  }

  function Tail(body: seq<Stmt>): seq<Stmt> {
    if body != [] && IsGuard(body[0]) then Tail(body[1..]) else body
  }

  // ----- occurrences of a parameter -----

  function EUses(x: Name, e: Expr): nat {
    match e
    case Lit(_) => 0
    case Var(y) => if x == y then 1 else 0
    case Paren(a) => EUses(x, a)
    case Get(o, _) => EUses(x, o)
    case Call(f, args) => (if x == f then 1 else 0) + AUses(x, args)
    case Not(a) => EUses(x, a)
    case And(l, r) => EUses(x, l) + EUses(x, r)
    case Or(l, r) => EUses(x, l) + EUses(x, r)
    case Cmp(_, l, r) => EUses(x, l) + EUses(x, r)
    case Assign(y, a) => (if x == y then 1 else 0) + EUses(x, a)
  }

  function AUses(x: Name, args: seq<Expr>): nat {
    if args == [] then 0 else EUses(x, args[0]) + AUses(x, args[1..])
  }

  function SUses(x: Name, c: Stmt): nat
    decreases c, 0
  {
    match c
    case Do(e) => EUses(x, e)
    case Const(y, e) => (if x == y then 1 else 0) + EUses(x, e)
    case If(e, t, f) => EUses(x, e) + BUses(x, t) + BUses(x, f)
    case Block(ss) => BUses(x, ss)
    case While(e, b) => EUses(x, e) + BUses(x, b)
    case ReturnVal(e) => EUses(x, e)
    case _ => 0
  }

  function Uses(x: Name, ss: seq<Stmt>): nat
    decreases ss, 0
  {
    if ss == [] then 0 else SUses(x, ss[0]) + Uses(x, ss[1..])
  }

  function BUses(x: Name, ss: seq<Stmt>): nat
    decreases ss, 1
  {
    if x in Decls(ss) then 0 else Uses(x, ss)
  }

  lemma {:induction false} EUsesName(x: Name, e: Expr)
    ensures EUses(x, e) > 0 <==> x in ENames(e)
  {
    match e
    case Paren(a) => EUsesName(x, a);
    case Get(o, _) => EUsesName(x, o);
    case Call(_, args) => AUsesName(x, args);
    case Not(a) => EUsesName(x, a);
    case And(l, r) => EUsesName(x, l); EUsesName(x, r);
    case Or(l, r) => EUsesName(x, l); EUsesName(x, r);
    case Cmp(_, l, r) => EUsesName(x, l); EUsesName(x, r);
    case Assign(_, a) => EUsesName(x, a);
    case _ =>
  }

  lemma {:induction false} AUsesName(x: Name, args: seq<Expr>)
    ensures AUses(x, args) > 0 <==> x in ANames(args)
  {
    if args != [] {
      EUsesName(x, args[0]);
      AUsesName(x, args[1..]);
    }
  }

  lemma {:induction false} SUsesFree(x: Name, c: Stmt)
    ensures SUses(x, c) > 0 <==> x in SFree(c)
  {
    match c
    case Do(e) => EUsesName(x, e);
    case Const(_, e) => EUsesName(x, e);
    case ReturnVal(e) => EUsesName(x, e);
    case If(e, t, f) => EUsesName(x, e); UsesFree(x, t); UsesFree(x, f);
    case Block(ss) => UsesFree(x, ss);
    case While(e, b) => EUsesName(x, e); UsesFree(x, b);
    case _ =>
  }

  /** The reference count is positive exactly for the names that occur free. */
  lemma {:induction false} UsesFree(x: Name, ss: seq<Stmt>)
    ensures Uses(x, ss) > 0 <==> x in Free(ss)
  {
    if ss != [] {
      SUsesFree(x, ss[0]);
      UsesFree(x, ss[1..]);
    }
  }

  // ----- classification of arguments -----

  /** No effects; strict mode counts a property read as an effect. */
  predicate IsPure(e: Expr, strict: bool) {
    match e
    case Lit(_) => true
    case Var(_) => true
    case Paren(a) => IsPure(a, strict)
    case Get(o, _) => !strict && IsPure(o, strict)
    case Not(a) => IsPure(a, strict)
    case And(l, r) => IsPure(l, strict) && IsPure(r, strict)
    case Or(l, r) => IsPure(l, strict) && IsPure(r, strict)
    case Cmp(_, l, r) => IsPure(l, strict) && IsPure(r, strict)
    case Assign(_, _) => false
    case Call(_, _) => false
  }

  predicate IsDuplicable(e: Expr, strict: bool) {
    match e
    case Lit(_) => true
    case Var(_) => true
    case Paren(a) => IsDuplicable(a, strict)
    case Get(o, _) => !strict && IsDuplicable(o, strict)
    case _ => false
  }

  function Unwrap(e: Expr): Expr {
    if e.Paren? then Unwrap(e.e) else e
  }

  predicate NeedsParens(e: Expr) {
    Level(e) < 6
  }

  // ----- the plan for one call -----

  /** What becomes of one parameter. `Lazy` arguments are not evaluated up front. */
  datatype Plan =
    | Skip                          // unused, no argument
    | Drop(e: Expr)                 // unused, argument dropped
    | Keep(e: Expr)                 // unused, argument kept for its effects
    | Missing                       // used, no argument: `undefined`
    | Hoist(temp: Name, e: Expr)    // used, evaluated into a temporary
    | Inline(e: Expr)               // used, substituted as it stands
  {
    predicate Lazy() { Drop? || Inline? }
  }

  function PlanOf(uses: nat, arg: Option<Expr>, temp: Name, strict: bool): Plan {
    match arg
    case None => if uses == 0 then Skip else Missing
    case Some(e) =>
      if uses == 0 then
        if !IsPure(e, strict) then Keep(e)
        else if strict && !Unwrap(e).Lit? then Keep(e)
        else Drop(e)
      else if strict || !IsPure(e, strict) || (uses >= 2 && !IsDuplicable(e, strict)) then Hoist(temp, e)
      else Inline(e)
  }

  function TempBase(x: Name): Name {
    "__inl_" + x
  }

  function Plans(ps: seq<Name>, args: seq<Expr>, body: seq<Stmt>, taken: set<Name>, strict: bool): (r: seq<Plan>)
    ensures |r| == |ps|
  {
    if ps == [] then []
    else
      var plan := PlanOf(Uses(ps[0], body), if args == [] then None else Some(args[0]),
                         Fresh(TempBase(ps[0]), taken), strict);
      [plan] + Plans(ps[1..], if args == [] then [] else args[1..], body, taken + Temps([plan]), strict)
  }

  function Temps(plans: seq<Plan>): set<Name> {
    if plans == [] then {}
    else (if plans[0].Hoist? then {plans[0].temp} else {}) + Temps(plans[1..])
  }

  function Prefix(plans: seq<Plan>): seq<Stmt> {
    if plans == [] then []
    else
      (match plans[0]
       case Keep(e) => [Do(e)]
       case Hoist(t, e) => [Const(t, e)]
       case _ => []) + Prefix(plans[1..])
  }

  function ArgMap(ps: seq<Name>, plans: seq<Plan>): map<Name, Expr>
    requires |ps| == |plans|
  {
    if ps == [] then map[]
    else
      var rest := ArgMap(ps[1..], plans[1..]);
      match plans[0]
      case Missing => rest[ps[0] := Lit(Undefined)]
      case Hoist(t, _) => rest[ps[0] := Var(t)]
      case Inline(e) => rest[ps[0] := if NeedsParens(e) then Paren(e) else e]
      case _ => rest
  }

  /** Direct locals of a guardless tail that are already taken get fresh names. */
  function RenameLocals(tail: seq<Stmt>, taken: set<Name>): map<Name, Name> {
    if tail == [] then map[]
    else if tail[0].Const? then
      var x := tail[0].x;
      if x in taken then
        var y := Fresh(x, taken);
        RenameLocals(tail[1..], taken + {y})[x := y]
      else RenameLocals(tail[1..], taken + {x})
    else RenameLocals(tail[1..], taken)
  }

  datatype Site = Site(plans: seq<Plan>, ren: map<Name, Name>)

  function SiteOf(h: Func, args: seq<Expr>, taken: set<Name>, strict: bool): Site {
    var plans := Plans(h.params, args, h.body, taken, strict);
    Site(plans, if Guards(h.body) == [] then RenameLocals(h.body, taken + Temps(plans)) else map[])
  }

  function SiteSubst(h: Func, site: Site): Subst
    requires |site.plans| == |h.params|
  {
    Subst(site.ren, ArgMap(h.params, site.plans))
  }

  /** The statements that replace the call. */
  function Replacement(h: Func, site: Site): seq<Stmt>
    requires |site.plans| == |h.params|
  {
    var z := SiteSubst(h, site);
    Prefix(site.plans) +
    if Guards(h.body) == [] then Substs(h.body, z)
    else [If(Condition(Guards(h.body), z), BSubst(Tail(h.body), z), [])]
  }

  /** The names a replacement declares in the block it lands in. */
  function NewNames(h: Func, site: Site): set<Name> {
    Temps(site.plans) +
    if Guards(h.body) == [] then set x | x in Decls(h.body) :: (if x in site.ren then site.ren[x] else x) else {}
  }

  // ----- what the helper must look like -----

  function Outer(h: Func): set<Name> {
    Free(h.body) - Decls(h.body) - (set x | x in h.params)
  }

  /** `computeFreeNames`: identifiers of the body that nothing in the body declares. */
  function CodeFree(h: Func): set<Name> {
    Names(h.body) - Binders(h.body) - (set x | x in h.params)
  }

  predicate DistinctNames(xs: seq<Name>) {
    forall i, j :: 0 <= i < j < |xs| ==> xs[i] != xs[j]
  }

  predicate DistinctDecls(ss: seq<Stmt>) {
    forall i, j :: 0 <= i < j < |ss| && ss[i].Const? && ss[j].Const? ==> ss[i].x != ss[j].x
  }

  /** What the language itself demands of a function with block-scoped locals. */
  predicate WellScoped(h: Func) {
    && DistinctNames(h.params)
    && DistinctDecls(h.body)
    && Decls(h.body) !! (set x | x in h.params)
  }

  /** No guard reads a local of the tail. `analyze` does not check this. */
  predicate GuardsClean(h: Func) {
    ANames(Guards(h.body)) !! Decls(h.body)
  }

  /** A block that declares `d` would take over what stands for `x`. */
  predicate Captures(d: set<Name>, x: Name, z: Subst) {
    (x in z.arg && !(ENames(z.arg[x]) !! d)) || (x in z.ren && z.ren[x] in d)
  }

  predicate NoneCaptured(d: set<Name>, names: set<Name>, z: Subst) {
    forall x :: x in names - d ==> !Captures(d, x, z)
  }

  /** No occurrence is replaced where an inner block declares the replacement. */
  predicate SCaptureFree(c: Stmt, z: Subst)
    decreases c, 0
  {
    match c
    case If(_, t, f) => BCaptureFree(t, z) && BCaptureFree(f, z)
    case Block(ss) => BCaptureFree(ss, z)
    case While(_, b) => BCaptureFree(b, z)
    case _ => true
  }

  predicate CaptureFree(ss: seq<Stmt>, z: Subst)
    decreases ss, 0
  {
    ss == [] || (SCaptureFree(ss[0], z) && CaptureFree(ss[1..], z))
  }

  predicate BCaptureFree(ss: seq<Stmt>, z: Subst)
    decreases ss, 1
  {
    NoneCaptured(Decls(ss), Free(ss), z) && CaptureFree(ss, Hide(z, Decls(ss)))
  }

  /** The chosen temporaries and fresh local names capture no module name the helper uses, and no
      replaced occurrence is captured by a local of the helper. `analyze` does not check this either. */
  predicate NamesClean(h: Func, site: Site) {
    && |site.plans| == |h.params|
    && Temps(site.plans) + site.ren.Values !! Outer(h)
    && if Guards(h.body) == [] then CaptureFree(h.body, SiteSubst(h, site))
       else BCaptureFree(Tail(h.body), SiteSubst(h, site))
  }
}
