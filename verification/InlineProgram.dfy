/**
 * Inlining one helper into a whole program: every call site of every function is
 * replaced and the helper removed. Strict mode.
 */
module InlineProgram {
  import opened Script
  import opened FreshNames
  import opened Inliner

  // ----- rewriting statement lists -----

  predicate IsSite(c: Stmt, h: Func) {
    c.Do? && c.e.Call? && c.e.f == h.name
  }

  /** `taken`: the names reserved in the block so far. */
  function TSeq(ss: seq<Stmt>, h: Func, taken: set<Name>, strict: bool): seq<Stmt>
    decreases ss, 0
  {
    if ss == [] then []
    else if IsSite(ss[0], h) then
      var site := SiteOf(h, ss[0].e.args, taken, strict);
      Replacement(h, site) + TSeq(ss[1..], h, taken + NewNames(h, site), strict)
    else [TStmt(ss[0], h, strict)] + TSeq(ss[1..], h, taken, strict)
  }

  function TStmt(c: Stmt, h: Func, strict: bool): Stmt
    decreases c, 0
  {
    match c
    case If(e, t, f) => If(e, TBlock(t, h, strict), TBlock(f, h, strict))
    case Block(ss) => Block(TBlock(ss, h, strict))
    case While(e, b) => While(e, TBlock(b, h, strict))
    case _ => c
  }

  /** A block's reserved names start as all its identifiers. */
  function TBlock(ss: seq<Stmt>, h: Func, strict: bool): seq<Stmt>
    decreases ss, 1
  {
    TSeq(ss, h, Names(ss), strict)
  }

  function TFunc(f: Func, h: Func, strict: bool): Func {
    f.(body := TBlock(f.body, h, strict))
  }

  function TTable(p: Table, h: Func, strict: bool): Table {
    map f | f in p && f != h.name :: TFunc(p[f], h, strict)
  }

  /** The names all replacements in the list add to its block. */
  function AllNew(ss: seq<Stmt>, h: Func, taken: set<Name>, strict: bool): set<Name> {
    if ss == [] then {}
    else if IsSite(ss[0], h) then
      var added := NewNames(h, SiteOf(h, ss[0].e.args, taken, strict));
      added + AllNew(ss[1..], h, taken + added, strict)
    else AllNew(ss[1..], h, taken, strict)
  }

  // ----- references to the helper -----

  predicate NoCall(e: Expr, h: Func) {
    match e
    case Paren(a) => NoCall(a, h)
    case Get(o, _) => NoCall(o, h)
    case Call(f, args) => f != h.name && NoCalls(args, h)
    case Not(a) => NoCall(a, h)
    case And(l, r) => NoCall(l, h) && NoCall(r, h)
    case Or(l, r) => NoCall(l, h) && NoCall(r, h)
    case Cmp(_, l, r) => NoCall(l, h) && NoCall(r, h)
    case Assign(_, a) => NoCall(a, h)
    case _ => true
  }

  predicate NoCalls(args: seq<Expr>, h: Func) {
    args == [] || (NoCall(args[0], h) && NoCalls(args[1..], h))
  }

  /** Every reference is a call in statement position with no more arguments than parameters. */
  predicate SRefsOk(c: Stmt, h: Func) {
    match c
    case Do(e) =>
      if IsSite(c, h) then NoCalls(e.args, h) && |e.args| <= |h.params| else NoCall(e, h)
    case Const(_, e) => NoCall(e, h)
    case If(e, t, f) => NoCall(e, h) && RefsOk(t, h) && RefsOk(f, h)
    case Block(ss) => RefsOk(ss, h)
    case While(e, b) => NoCall(e, h) && RefsOk(b, h)
    case ReturnVal(e) => NoCall(e, h)
    case _ => true
  }

  predicate RefsOk(ss: seq<Stmt>, h: Func) {
    ss == [] || (SRefsOk(ss[0], h) && RefsOk(ss[1..], h))
  }

  function SSites(c: Stmt, h: Func): nat {
    match c
    case Do(_) => if IsSite(c, h) then 1 else 0
    case If(_, t, f) => Sites(t, h) + Sites(f, h)
    case Block(ss) => Sites(ss, h)
    case While(_, b) => Sites(b, h)
    case _ => 0
  }

  /** Number of call sites. */
  function Sites(ss: seq<Stmt>, h: Func): nat {
    if ss == [] then 0 else SSites(ss[0], h) + Sites(ss[1..], h)
  }

  /** No scope between a call and the module declares one of these names (`callSiteShadows`). */
  predicate SUnshadowed(c: Stmt, h: Func, names: set<Name>)
    decreases c, 0
  {
    match c
    case If(_, t, f) => Unshadowed(t, h, names) && Unshadowed(f, h, names)
    case Block(ss) => Unshadowed(ss, h, names)
    case While(_, b) => Unshadowed(b, h, names)
    case _ => true
  }

  predicate Unshadowed(ss: seq<Stmt>, h: Func, names: set<Name>)
    decreases ss, 1
  {
    (Sites(ss, h) > 0 ==> Decls(ss) !! names) && UnshadowedIn(ss, h, names)
  }

  predicate UnshadowedIn(ss: seq<Stmt>, h: Func, names: set<Name>)
    decreases ss, 0
  {
    ss == [] || (SUnshadowed(ss[0], h, names) && UnshadowedIn(ss[1..], h, names))
  }

  /** The same for the parameters of the function around the calls. */
  predicate Visible(f: Func, h: Func, names: set<Name>) {
    Unshadowed(f.body, h, names) && (Sites(f.body, h) > 0 ==> (set x | x in f.params) !! names)
  }

  /** At every site the chosen names are clean. */
  predicate SClean(c: Stmt, h: Func, strict: bool)
    decreases c, 0
  {
    match c
    case If(_, t, f) => Clean(t, h, Names(t), strict) && Clean(f, h, Names(f), strict)
    case Block(ss) => Clean(ss, h, Names(ss), strict)
    case While(_, b) => Clean(b, h, Names(b), strict)
    case _ => true
  }

  predicate Clean(ss: seq<Stmt>, h: Func, taken: set<Name>, strict: bool)
    decreases ss, 0
  {
    ss == [] ||
    if IsSite(ss[0], h) then
      var site := SiteOf(h, ss[0].e.args, taken, strict);
      NamesClean(h, site) && Clean(ss[1..], h, taken + NewNames(h, site), strict)
    else SClean(ss[0], h, strict) && Clean(ss[1..], h, taken, strict)
  }

  /** The name conditions of one function of the file: the helper's free names are visible at the calls,
      no name clashes at a site, and no added name is a parameter. */
  predicate FuncClean(f: Func, h: Func) {
    && Visible(f, h, Outer(h))
    && Clean(f.body, h, Names(f.body), true)
    && AllNew(f.body, h, Names(f.body), true) !! (set x | x in f.params)
  }
}
