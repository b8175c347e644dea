/**
 * A small JavaScript-like language: the programs that `scripts/inline-functions.ts`
 * reads and writes. Functions see module globals and their own block-scoped
 * locals; a local read before its declaration throws, as `const` does. Foreign
 * calls and property reads go to a `World`, which may do anything to the globals,
 * may throw, may depend on the whole history and reports its effects as events.
 *
 * Evaluation takes a fuel `n`, spent by calls of the program's own functions and
 * by loop iterations; `Div` means that the fuel ran out.
 */
module Script {
  import opened Wrappers

  type Name = string


  datatype Value = Undefined | Bool(b: bool) | Num(n: int) | Obj(id: nat)

  datatype CmpOp = StrictEq | StrictNe | LooseEq | LooseNe | Lt | Le | Gt | Ge

  datatype Expr =
    | Lit(v: Value)
    | Var(x: Name)
    | Paren(e: Expr)
    | Get(o: Expr, field: Name)
    | Call(f: Name, args: seq<Expr>)
    | Not(e: Expr)
    | And(l: Expr, r: Expr)
    | Or(l: Expr, r: Expr)
    | Cmp(op: CmpOp, l: Expr, r: Expr)
    | Assign(x: Name, e: Expr)

  datatype Stmt =
    | Do(e: Expr)
    | Const(x: Name, e: Expr)
    | If(c: Expr, thn: seq<Stmt>, els: seq<Stmt>)
    | Block(body: seq<Stmt>)
    | While(c: Expr, body: seq<Stmt>)
    | Return
    | ReturnVal(e: Expr)
    | Break
    | Continue

  datatype Func = Func(name: Name, exported: bool, params: seq<Name>, body: seq<Stmt>)

  type Table = map<Name, Func>

  // ----- state and outcomes -----

  datatype Event = Event(what: Name, vs: seq<Value>)

  type Globals = map<Name, Value>
  type Locals = map<Name, Option<Value>>   // None: declared, not yet initialised
  type Trace = seq<Event>

  datatype State = State(g: Globals, l: Locals, tr: Trace)

  datatype Outcome<+T> =
    | Ok(val: T, st: State)
    | Exc(thrown: Value, g: Globals, tr: Trace)
    | Div
  {
    predicate IsFailure() { !Ok? }
    function PropagateFailure<U>(): Outcome<U>
      requires !Ok?
    {
      match this
      case Exc(v, g, tr) => Exc(v, g, tr)
      case Div => Div
    }
    function Extract(): (T, State)
      requires Ok?
    {
      (val, st)
    }
  }

  datatype Signal = Next | Brk | Cont | Ret(v: Value)

  datatype Ordering = Less | Equal | Greater | Unordered

  datatype Effect = Effect(throws: bool, v: Value, g: Globals, tr: Trace)

  /** Everything the program does not define. Relational operators see `order`,
      which answers `Unordered` where JavaScript compares with NaN. */
  datatype World = World(
    call: (Name, seq<Value>, Globals, Trace) -> Effect,
    get: (Value, Name, Globals, Trace) -> Effect,
    strictEq: (Value, Value) -> bool,
    looseEq: (Value, Value) -> bool,
    order: (Value, Value) -> Ordering)

  function Truthy(v: Value): bool {
    match v
    case Undefined => false
    case Bool(b) => b
    case Num(n) => n != 0
    case Obj(_) => true
  }

  function Compare(w: World, op: CmpOp, a: Value, b: Value): bool {
    match op
    case StrictEq => w.strictEq(a, b)
    case StrictNe => !w.strictEq(a, b)
    case LooseEq => w.looseEq(a, b)
    case LooseNe => !w.looseEq(a, b)
    case Lt => w.order(a, b) == Less
    case Le => w.order(a, b) == Less || w.order(a, b) == Equal
    case Gt => w.order(a, b) == Greater
    case Ge => w.order(a, b) == Greater || w.order(a, b) == Equal
  }

  function Foreign(ef: Effect, s: State): Outcome<Value> {
    if ef.throws then Exc(ef.v, ef.g, s.tr + ef.tr)
    else Ok(ef.v, State(ef.g, s.l, s.tr + ef.tr))
  }

  function Read(x: Name, s: State): Outcome<Value> {
    if x in s.l then
      if s.l[x].Some? then Ok(s.l[x].value, s) else Exc(Undefined, s.g, s.tr)
    else if x in s.g then Ok(s.g[x], s)
    else Exc(Undefined, s.g, s.tr)
  }

  function Write(x: Name, v: Value, s: State): Outcome<Value> {
    if x in s.l then
      if s.l[x].Some? then Ok(v, s.(l := s.l[x := Some(v)])) else Exc(Undefined, s.g, s.tr)
    else Ok(v, s.(g := s.g[x := v]))
  }

  /** Names declared directly in a statement list. */
  function Decls(ss: seq<Stmt>): set<Name> {
    if ss == [] then {}
    else (if ss[0].Const? then {ss[0].x} else {}) + Decls(ss[1..])
  }

  function Enter(s: State, d: set<Name>): State {
    s.(l := s.l + (map x | x in d :: None))
  }

  function Leave(s: State, d: set<Name>, t: State): State {
    t.(l := map x | x in s.l :: if x in d || x !in t.l then s.l[x] else t.l[x])
  }

  function Bind(ps: seq<Name>, vs: seq<Value>): Locals {
    if ps == [] then map[]
    else Bind(ps[1..], if vs == [] then [] else vs[1..])[ps[0] := Some(if vs == [] then Undefined else vs[0])]
  }

  function Frame(ps: seq<Name>, vs: seq<Value>, body: seq<Stmt>): Locals {
    (map x | x in Decls(body) :: None) + Bind(ps, vs)
  }

  // ----- evaluation -----

  function Eval(w: World, p: Table, e: Expr, s: State, n: nat): Outcome<Value>
    decreases n, e, 0
  {
    match e
    case Lit(v) => Ok(v, s)
    case Var(x) => Read(x, s)
    case Paren(a) => Eval(w, p, a, s, n)
    case Get(o, field) =>
      var (v, s1) :- Eval(w, p, o, s, n);
      Foreign(w.get(v, field, s1.g, s1.tr), s1)
    case Call(f, args) =>
      var (vs, s1) :- EvalArgs(w, p, args, s, n);
      if f !in p then Foreign(w.call(f, vs, s1.g, s1.tr), s1)
      else if n == 0 then Div
      else
        var (v, s2) :- Invoke(w, p, p[f], vs, s1.g, s1.tr, n - 1);
        Ok(v, State(s2.g, s1.l, s2.tr))
    case Not(a) =>
      var (v, s1) :- Eval(w, p, a, s, n);
      Ok(Bool(!Truthy(v)), s1)
    case And(l, r) =>
      var (v, s1) :- Eval(w, p, l, s, n);
      if Truthy(v) then Eval(w, p, r, s1, n) else Ok(v, s1)
    case Or(l, r) =>
      var (v, s1) :- Eval(w, p, l, s, n);
      if Truthy(v) then Ok(v, s1) else Eval(w, p, r, s1, n)
    case Cmp(op, l, r) =>
      var (a, s1) :- Eval(w, p, l, s, n);
      var (b, s2) :- Eval(w, p, r, s1, n);
      Ok(Bool(Compare(w, op, a, b)), s2)
    case Assign(x, a) =>
      var (v, s1) :- Eval(w, p, a, s, n);
      Write(x, v, s1)
  }

  function EvalArgs(w: World, p: Table, args: seq<Expr>, s: State, n: nat): (r: Outcome<seq<Value>>)
    ensures r.Ok? ==> |r.val| == |args|
    decreases n, args, 0
  {
    if args == [] then Ok([], s)
    else
      var (v, s1) :- Eval(w, p, args[0], s, n);
      var (vs, s2) :- EvalArgs(w, p, args[1..], s1, n);
      Ok([v] + vs, s2)
  }

  /** One call of a program function; the result carries no locals. */
  function Invoke(w: World, p: Table, f: Func, vs: seq<Value>, g: Globals, tr: Trace, n: nat): Outcome<Value>
    decreases n, f, 0
  {
    var (sig, s) :- ExecSeq(w, p, f.body, State(g, Frame(f.params, vs, f.body), tr), n);
    Ok(if sig.Ret? then sig.v else Undefined, State(s.g, map[], s.tr))
  }

  function Exec(w: World, p: Table, c: Stmt, s: State, n: nat): Outcome<Signal>
    decreases n, c, 0
  {
    match c
    case Do(e) =>
      var (_, s1) :- Eval(w, p, e, s, n);
      Ok(Next, s1)
    case Const(x, e) =>
      var (v, s1) :- Eval(w, p, e, s, n);
      Ok(Next, s1.(l := s1.l[x := Some(v)]))
    case If(e, t, f) =>
      var (v, s1) :- Eval(w, p, e, s, n);
      ExecBlock(w, p, if Truthy(v) then t else f, s1, n)
    case Block(ss) => ExecBlock(w, p, ss, s, n)
    case While(e, b) =>
      var (v, s1) :- Eval(w, p, e, s, n);
      if !Truthy(v) then Ok(Next, s1)
      else
        var (sig, s2) :- ExecBlock(w, p, b, s1, n);
        if sig.Brk? then Ok(Next, s2)
        else if sig.Ret? then Ok(sig, s2)
        else if n == 0 then Div
        else Exec(w, p, c, s2, n - 1)
    case Return => Ok(Ret(Undefined), s)
    case ReturnVal(e) =>
      var (v, s1) :- Eval(w, p, e, s, n);
      Ok(Ret(v), s1)
    case Break => Ok(Brk, s)
    case Continue => Ok(Cont, s)
  }

  function ExecSeq(w: World, p: Table, ss: seq<Stmt>, s: State, n: nat): Outcome<Signal>
    decreases n, ss, 0
  {
    if ss == [] then Ok(Next, s)
    else
      var (sig, s1) :- Exec(w, p, ss[0], s, n);
      if sig.Next? then ExecSeq(w, p, ss[1..], s1, n) else Ok(sig, s1)
  }

  function ExecBlock(w: World, p: Table, ss: seq<Stmt>, s: State, n: nat): Outcome<Signal>
    decreases n, ss, 1
  {
    var (sig, s1) :- ExecSeq(w, p, ss, Enter(s, Decls(ss)), n);
    Ok(sig, Leave(s, Decls(ss), s1))
  }

  // ----- identifiers -----

  /** Every identifier of an expression, callees included. */
  function ENames(e: Expr): set<Name> {
    match e
    case Lit(_) => {}
    case Var(x) => {x}
    case Paren(a) => ENames(a)
    case Get(o, _) => ENames(o)
    case Call(f, args) => {f} + ANames(args)
    case Not(a) => ENames(a)
    case And(l, r) => ENames(l) + ENames(r)
    case Or(l, r) => ENames(l) + ENames(r)
    case Cmp(_, l, r) => ENames(l) + ENames(r)
    case Assign(x, a) => {x} + ENames(a)
  }

  function ANames(args: seq<Expr>): set<Name> {
    if args == [] then {} else ENames(args[0]) + ANames(args[1..])
  }

  /** Variables an expression assigns. */
  function EWrites(e: Expr): set<Name> {
    match e
    case Lit(_) => {}
    case Var(x) => {}
    case Paren(a) => EWrites(a)
    case Get(o, _) => EWrites(o)
    case Call(f, args) => AWrites(args)
    case Not(a) => EWrites(a)
    case And(l, r) => EWrites(l) + EWrites(r)
    case Or(l, r) => EWrites(l) + EWrites(r)
    case Cmp(_, l, r) => EWrites(l) + EWrites(r)
    case Assign(x, a) => {x} + EWrites(a)
  }

  function AWrites(args: seq<Expr>): set<Name> {
    if args == [] then {} else EWrites(args[0]) + AWrites(args[1..])
  }

  /** Every identifier of a statement, declared names included. */
  function SNames(c: Stmt): set<Name> {
    match c
    case Do(e) => ENames(e)
    case Const(x, e) => {x} + ENames(e)
    case If(e, t, f) => ENames(e) + Names(t) + Names(f)
    case Block(ss) => Names(ss)
    case While(e, b) => ENames(e) + Names(b)
    case Return => {}
    case ReturnVal(e) => ENames(e)
    case Break => {}
    case Continue => {}
  }

  function Names(ss: seq<Stmt>): set<Name> {
    if ss == [] then {} else SNames(ss[0]) + Names(ss[1..])
  }

  /** Names declared anywhere inside. */
  function SBinders(c: Stmt): set<Name> {
    match c
    case Const(x, _) => {x}
    case If(_, t, f) => Binders(t) + Binders(f)
    case Block(ss) => Binders(ss)
    case While(_, b) => Binders(b)
    case _ => {}
  }

  function Binders(ss: seq<Stmt>): set<Name> {
    if ss == [] then {} else SBinders(ss[0]) + Binders(ss[1..])
  }

  /** Identifiers with an occurrence that no enclosing block of the code declares. */
  function SFree(c: Stmt): set<Name> {
    match c
    case Do(e) => ENames(e)
    case Const(x, e) => {x} + ENames(e)
    case If(e, t, f) => ENames(e) + (Free(t) - Decls(t)) + (Free(f) - Decls(f))
    case Block(ss) => Free(ss) - Decls(ss)
    case While(e, b) => ENames(e) + (Free(b) - Decls(b))
    case Return => {}
    case ReturnVal(e) => ENames(e)
    case Break => {}
    case Continue => {}
  }

  function Free(ss: seq<Stmt>): set<Name> {
    if ss == [] then {} else SFree(ss[0]) + Free(ss[1..])
  }

  /** Variables the code assigns or declares at its own level. */
  function SWrites(c: Stmt): set<Name> {
    match c
    case Do(e) => EWrites(e)
    case Const(x, e) => {x} + EWrites(e)
    case If(e, t, f) => EWrites(e) + (Writes(t) - Decls(t)) + (Writes(f) - Decls(f))
    case Block(ss) => Writes(ss) - Decls(ss)
    case While(e, b) => EWrites(e) + (Writes(b) - Decls(b))
    case Return => {}
    case ReturnVal(e) => EWrites(e)
    case Break => {}
    case Continue => {}
  }

  function Writes(ss: seq<Stmt>): set<Name> {
    if ss == [] then {} else SWrites(ss[0]) + Writes(ss[1..])
  }
}
