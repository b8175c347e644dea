/** Source text of expressions, and the parser that reads it. */
module ScriptText {
  import opened Wrappers
  import opened Script

  // ----- from trees to text -----

  datatype Token =
    | TName(x: Name) | TLit(v: Value) | TDot(field: Name) | TOpen | TClose | TComma
    | TNot | TAnd | TOr | TCmp(op: CmpOp) | TSet

  function Render(e: Expr): seq<Token> {
    match e
    case Lit(v) => [TLit(v)]
    case Var(x) => [TName(x)]
    case Paren(a) => [TOpen] + Render(a) + [TClose]
    case Get(o, field) => Render(o) + [TDot(field)]
    case Call(f, args) => [TName(f), TOpen] + (RenderArgs(args) + [TClose])
    case Not(a) => [TNot] + Render(a)
    case And(l, r) => Render(l) + [TAnd] + Render(r)
    case Or(l, r) => Render(l) + [TOr] + Render(r)
    case Cmp(op, l, r) => Render(l) + [TCmp(op)] + Render(r)
    case Assign(x, a) => [TName(x), TSet] + Render(a)
  }

  function RenderArgs(args: seq<Expr>): seq<Token> {
    if args == [] then []
    else if |args| == 1 then Render(args[0])
    else Render(args[0]) + [TComma] + RenderArgs(args[1..])
  }

  predicate Relational(op: CmpOp) {
    op.Lt? || op.Le? || op.Gt? || op.Ge?
  }

  /** Binding strength: assignment 0, `||` 1, `&&` 2, equality 3, relational 4, `!` 5, primary 6. */
  function Level(e: Expr): nat {
    match e
    case Assign(_, _) => 0
    case Or(_, _) => 1
    case And(_, _) => 2
    case Cmp(op, _, _) => if Relational(op) then 4 else 3
    case Not(_) => 5
    case _ => 6
  }

  /** Values that have a literal: negative numbers and objects have none. */
  predicate HasLiteral(v: Value) {
    match v
    case Num(n) => n >= 0
    case Obj(_) => false
    case _ => true
  }

  predicate IsNumber(e: Expr) {
    e.Lit? && e.v.Num?
  }

  /** The trees the parser builds: every operand binds tightly enough for its place, and no field is
      read from a bare number, whose last digit would take the dot. */
  predicate Parsed(e: Expr) {
    match e
    case Lit(v) => HasLiteral(v)
    case Var(_) => true
    case Paren(a) => Parsed(a)
    case Get(o, _) => Parsed(o) && Level(o) == 6 && !IsNumber(o)
    case Call(_, args) => AllParsed(args)
    case Not(a) => Parsed(a) && Level(a) >= 5
    case And(l, r) => Parsed(l) && Parsed(r) && Level(l) >= 2 && Level(r) >= 3
    case Or(l, r) => Parsed(l) && Parsed(r) && Level(l) >= 1 && Level(r) >= 2
    case Cmp(_, l, r) => Parsed(l) && Parsed(r) && Level(l) >= Level(e) && Level(r) > Level(e)
    case Assign(_, a) => Parsed(a)
  }

  predicate AllParsed(es: seq<Expr>) {
    forall i :: 0 <= i < |es| ==> Parsed(es[i])
  }

  // ----- from text to trees -----

  function OpLevel(t: Token): nat {
    match t
    case TOr => 1
    case TAnd => 2
    case TCmp(op) => if Relational(op) then 4 else 3
    case _ => 0
  }

  function Combine(t: Token, l: Expr, r: Expr): Expr
    requires OpLevel(t) > 0
  {
    match t
    case TOr => Or(l, r)
    case TAnd => And(l, r)
    case TCmp(op) => Cmp(op, l, r)
  }

  /** Precedence-climbing parser of the operator grammar, from level `k` up. */
  function ParseAt(k: nat, ts: seq<Token>): (r: Option<(Expr, seq<Token>)>)
    requires k <= 5
    ensures r.Some? ==> |r.value.1| < |ts|
    decreases |ts|, 6 - k
  {
    if ts == [] then None
    else if k == 0 then
      if |ts| > 1 && ts[0].TName? && ts[1].TSet? then
        var a := ParseAt(0, ts[2..]);
        if a.Some? then Some((Assign(ts[0].x, a.value.0), a.value.1)) else None
      else ParseAt(1, ts)
    else if k < 5 then
      var a := ParseAt(k + 1, ts);
      if a.Some? then ParseMore(k, a.value.0, a.value.1) else None
    else if ts[0].TNot? then
      var a := ParseAt(5, ts[1..]);
      if a.Some? then Some((Not(a.value.0), a.value.1)) else None
    else ParsePrimary(ts)
  }

  function ParseMore(k: nat, acc: Expr, ts: seq<Token>): (r: Option<(Expr, seq<Token>)>)
    requires 0 < k < 5
    ensures r.Some? ==> |r.value.1| <= |ts|
    decreases |ts|, 0
  {
    if ts != [] && OpLevel(ts[0]) == k then
      var a := ParseAt(k + 1, ts[1..]);
      if a.Some? then ParseMore(k, Combine(ts[0], acc, a.value.0), a.value.1) else None
    else Some((acc, ts))
  }

  function ParsePrimary(ts: seq<Token>): (r: Option<(Expr, seq<Token>)>)
    ensures r.Some? ==> |r.value.1| < |ts|
    decreases |ts|, 0
  {
    if ts == [] then None
    else if ts[0].TLit? then if HasLiteral(ts[0].v) then ParseDots(Lit(ts[0].v), ts[1..]) else None
    else if ts[0].TName? then
      if |ts| > 1 && ts[1].TOpen? then
        var a := ParseArgs(ts[2..]);
        if a.Some? then ParseDots(Call(ts[0].x, a.value.0), a.value.1) else None
      else ParseDots(Var(ts[0].x), ts[1..])
    else if ts[0].TOpen? then
      var a := ParseAt(0, ts[1..]);
      if a.Some? && a.value.1 != [] && a.value.1[0].TClose? then ParseDots(Paren(a.value.0), a.value.1[1..]) else None
    else None
  }

  /** Field reads; the dot behind a bare number belongs to the number, and no name can follow. */
  function ParseDots(acc: Expr, ts: seq<Token>): (r: Option<(Expr, seq<Token>)>)
    ensures r.Some? ==> |r.value.1| <= |ts|
    decreases |ts|
  {
    if ts != [] && ts[0].TDot? then
      if IsNumber(acc) then None else ParseDots(Get(acc, ts[0].field), ts[1..])
    else Some((acc, ts))
  }

  /** What follows the opening parenthesis of a call. */
  function ParseArgs(ts: seq<Token>): (r: Option<(seq<Expr>, seq<Token>)>)
    ensures r.Some? ==> |r.value.1| < |ts|
    decreases |ts|, 8
  {
    if ts != [] && ts[0].TClose? then Some(([], ts[1..])) else ParseList(ts)
  }

  function ParseList(ts: seq<Token>): (r: Option<(seq<Expr>, seq<Token>)>)
    ensures r.Some? ==> |r.value.1| < |ts|
    decreases |ts|, 7
  {
    var a := ParseAt(0, ts);
    if a.None? || a.value.1 == [] then None
    else if a.value.1[0].TClose? then Some(([a.value.0], a.value.1[1..]))
    else if a.value.1[0].TComma? then
      var b := ParseList(a.value.1[1..]);
      if b.Some? then Some(([a.value.0] + b.value.0, b.value.1)) else None
    else None
  }

  function Parse(ts: seq<Token>): Option<Expr> {
    var r := ParseAt(0, ts);
    if r.Some? && r.value.1 == [] then Some(r.value.0) else None
  }

  // ----- every parsed tree is read back -----

  /** A token list that cannot extend an expression of level `k` to its left. */
  predicate Stops(k: nat, ts: seq<Token>) {
    ts == [] || ts[0].TClose? || ts[0].TComma? || 0 < OpLevel(ts[0]) < k
  }

  lemma {:induction false} NoLeadingSet(e: Expr, rest: seq<Token>)
    requires Parsed(e) && Level(e) > 0 && (rest == [] || !rest[0].TSet?)
    ensures var ts := Render(e) + rest;
            |ts| > 1 && ts[0].TName? ==> !ts[1].TSet?
    decreases e, 0
  {
    match e
    case Get(o, field) =>
      NoLeadingSet(o, [TDot(field)] + rest);
      assert Render(e) + rest == Render(o) + ([TDot(field)] + rest);
    case And(l, r) => NoLeadingSetOp(l, TAnd, r, rest);
    case Or(l, r) => NoLeadingSetOp(l, TOr, r, rest);
    case Cmp(op, l, r) => NoLeadingSetOp(l, TCmp(op), r, rest);
    case _ =>
  }

  lemma {:induction false} NoLeadingSetOp(l: Expr, t: Token, r: Expr, rest: seq<Token>)
    requires Parsed(l) && Level(l) > 0 && !t.TSet?
    ensures var ts := (Render(l) + [t] + Render(r)) + rest;
            |ts| > 1 && ts[0].TName? ==> !ts[1].TSet?
    decreases l, 1
  {
    NoLeadingSet(l, [t] + Render(r) + rest);
    assert (Render(l) + [t] + Render(r)) + rest == Render(l) + ([t] + Render(r) + rest);
  }

  /** Reading back a rendered tree in any context gives the same tree. */
  lemma {:induction false} ParseRender(e: Expr, k: nat, rest: seq<Token>)
    requires Parsed(e) && Level(e) >= k && k <= 5 && Stops(k, rest)
    ensures ParseAt(k, Render(e) + rest) == Some((e, rest))
    decreases e, 6 - k, 2
  {
    RenderNotEmpty(e);
    if k == 0 {
      if e.Assign? {
        ParseRender(e.e, 0, rest);
        var ts := Render(e) + rest;
        assert ts[2..] == Render(e.e) + rest;
      } else {
        NoLeadingSet(e, rest);
        ParseRender(e, 1, rest);
      }
    } else if k < 5 {
      ParseSpine(e, k, rest);
    } else {
      ParseUnary(e, rest);
    }
  }

  lemma {:induction false} RenderNotEmpty(e: Expr)
    ensures Render(e) != []
  {
  }

  lemma {:induction false} ParseUnary(e: Expr, rest: seq<Token>)
    requires Parsed(e) && Level(e) >= 5 && Stops(5, rest)
    ensures ParseAt(5, Render(e) + rest) == Some((e, rest))
    decreases e, 0, 2
  {
    var ts := Render(e) + rest;
    if e.Not? {
      ParseRender(e.e, 5, rest);
      assert ts[1..] == Render(e.e) + rest;
    } else {
      PrimaryStart(e, rest);
      ParseTight(e, rest);
    }
  }

  lemma {:induction false} PrimaryStart(e: Expr, rest: seq<Token>)
    requires Parsed(e) && Level(e) == 6
    ensures var ts := Render(e) + rest; ts != [] && !ts[0].TNot?
    decreases e
  {
    if e.Get? {
      PrimaryStart(e.o, [TDot(e.field)] + rest);
      assert Render(e) + rest == Render(e.o) + ([TDot(e.field)] + rest);
    }
  }

  /** A primary is read up to the field reads that follow it. */
  lemma {:induction false} ParseTight(e: Expr, rest: seq<Token>)
    requires Parsed(e) && Level(e) == 6 && (rest == [] || !rest[0].TOpen?)
    ensures ParsePrimary(Render(e) + rest) == ParseDots(e, rest)
    decreases e, 0, 1
  {
    match e
    case Lit(_) => PrimaryAt(e, rest);
    case Var(_) => PrimaryAt(e, rest);
    case Paren(a) =>
      ParseRender(a, 0, [TClose] + rest);
      PrimaryAt(e, rest);
    case Get(o, field) =>
      var more := [TDot(field)] + rest;
      ParseTight(o, more);
      assert Render(e) + rest == Render(o) + more && more[1..] == rest;
    case Call(_, args) =>
      ParseRenderArgs(e, args, rest);
      PrimaryAt(e, rest);
  }

  /** The first step of reading a primary that is no field read. */
  lemma {:induction false} PrimaryAt(e: Expr, rest: seq<Token>)
    requires Parsed(e) && Level(e) == 6 && !e.Get? && (rest == [] || !rest[0].TOpen?)
    requires e.Paren? ==> ParseAt(0, Render(e.e) + ([TClose] + rest)) == Some((e.e, [TClose] + rest))
    requires e.Call? ==> ParseArgs(RenderArgs(e.args) + ([TClose] + rest)) == Some((e.args, rest))
    ensures ParsePrimary(Render(e) + rest) == ParseDots(e, rest)
  {
    hide ParseAt, ParseArgs, ParseDots, AllParsed;
    var ts := Render(e) + rest;
    match e
    case Lit(_) => assert ts[1..] == rest;
    case Var(_) => assert ts[1..] == rest;
    case Paren(a) => assert ts[1..] == Render(a) + ([TClose] + rest);
    case Call(_, args) => assert ts[2..] == RenderArgs(args) + ([TClose] + rest);
  }

  lemma {:induction false} ParseRenderArgs(e: Expr, args: seq<Expr>, rest: seq<Token>)
    requires e.Call? && e.args == args && AllParsed(args)
    ensures ParseArgs(RenderArgs(args) + ([TClose] + rest)) == Some((args, rest))
    decreases e, 0, 0
  {
    var ts := RenderArgs(args) + ([TClose] + rest);
    if args == [] {
      assert ts == [TClose] + rest && ts[1..] == rest;
    } else {
      ParseRenderList(args, rest);
      ArgsStart(args, [TClose] + rest);
    }
  }

  lemma {:induction false} ParseRenderList(args: seq<Expr>, rest: seq<Token>)
    requires args != [] && AllParsed(args)
    ensures ParseList(RenderArgs(args) + ([TClose] + rest)) == Some((args, rest))
    decreases args
  {
    hide ParseAt, ParseList, Render, RenderArgs, Parsed, AllParsed, Level;
    var end := [TClose] + rest;
    ArgsSplit(args, end);
    if |args| == 1 {
      ParseRender(args[0], 0, end);
      LastArg(args[0], rest);
      assert [args[0]] == args;
    } else {
      var after := RenderArgs(args[1..]) + end;
      ParseRender(args[0], 0, [TComma] + after);
      ParseRenderList(args[1..], rest);
      NextArg(args[0], after, args[1..], rest);
      assert [args[0]] + args[1..] == args;
    }
  }

  lemma LastArg(e: Expr, rest: seq<Token>)
    requires var end := [TClose] + rest; ParseAt(0, Render(e) + end) == Some((e, end))
    ensures ParseList(Render(e) + ([TClose] + rest)) == Some(([e], rest))
  {
    hide ParseAt, Render;
    assert ([TClose] + rest)[1..] == rest;
  }

  lemma NextArg(e: Expr, after: seq<Token>, args: seq<Expr>, rest: seq<Token>)
    requires var more := [TComma] + after; ParseAt(0, Render(e) + more) == Some((e, more))
    requires ParseList(after) == Some((args, rest))
    ensures ParseList(Render(e) + ([TComma] + after)) == Some(([e] + args, rest))
  {
    hide ParseAt, Render;
    assert ([TComma] + after)[1..] == after;
  }

  lemma ArgsSplit(args: seq<Expr>, end: seq<Token>)
    requires args != [] && AllParsed(args)
    ensures Parsed(args[0]) && AllParsed(args[1..])
    ensures RenderArgs(args) + end
            == Render(args[0]) + if |args| == 1 then end else [TComma] + (RenderArgs(args[1..]) + end)
  {
    hide Render, Parsed;
    if |args| > 1 {
      assert RenderArgs(args) == Render(args[0]) + [TComma] + RenderArgs(args[1..]);
    }
  }

  /** No expression starts with a closing parenthesis. */
  lemma {:induction false} ArgsStart(args: seq<Expr>, rest: seq<Token>)
    requires args != []
    ensures var ts := RenderArgs(args) + rest; ts != [] && !ts[0].TClose?
  {
    StartsNoClose(args[0]);
  }

  lemma {:induction false} StartsNoClose(e: Expr)
    ensures Render(e) != [] && !Render(e)[0].TClose?
  {
    match e
    case Get(o, _) => StartsNoClose(o);
    case And(l, _) => StartsNoClose(l);
    case Or(l, _) => StartsNoClose(l);
    case Cmp(_, l, _) => StartsNoClose(l);
    case _ =>
  }

  lemma {:induction false} ParseSpine(e: Expr, k: nat, rest: seq<Token>)
    requires Parsed(e) && Level(e) >= k && 0 < k < 5 && Stops(k + 1, rest)
    ensures ParseAt(k, Render(e) + rest) == ParseMore(k, e, rest)
    decreases e, 6 - k, 1
  {
    RenderNotEmpty(e);
    if Level(e) > k {
      ParseRender(e, k + 1, rest);
    } else {
      match e
      case Or(l, r) => ParseSpineOp(e, k, l, TOr, r, rest);
      case And(l, r) => ParseSpineOp(e, k, l, TAnd, r, rest);
      case Cmp(op, l, r) => ParseSpineOp(e, k, l, TCmp(op), r, rest);
    }
  }

  lemma {:induction false} ParseSpineOp(e: Expr, k: nat, l: Expr, t: Token, r: Expr, rest: seq<Token>)
    requires l < e && r < e && 0 < k < 5 && Stops(k + 1, rest) && OpLevel(t) == k
    requires Parsed(l) && Parsed(r) && Level(l) >= k && Level(r) > k
    ensures ParseAt(k, (Render(l) + [t] + Render(r)) + rest) == ParseMore(k, Combine(t, l, r), rest)
    decreases e, 6 - k, 0
  {
    hide Render, Parsed, Level, Combine, OpLevel;
    var more := [t] + (Render(r) + rest);
    assert Stops(k + 1, more);
    ParseSpine(l, k, more);
    ParseRender(r, k + 1, rest);
    assert (Render(l) + [t] + Render(r)) + rest == Render(l) + more;
    assert more[1..] == Render(r) + rest;
  }

  // ----- nothing else is read -----

  /** What the parser reads is the rendering of what it returns. */
  lemma {:induction false} ParsedAt(k: nat, ts: seq<Token>)
    requires k <= 5 && ParseAt(k, ts).Some?
    ensures var (e, rest) := ParseAt(k, ts).value;
            ts == Render(e) + rest && Parsed(e) && Level(e) >= k
    decreases |ts|, 6 - k
  {
    if k == 0 {
      if |ts| > 1 && ts[0].TName? && ts[1].TSet? {
        ParsedAt(0, ts[2..]);
      } else {
        ParsedAt(1, ts);
      }
    } else if k < 5 {
      ParsedAt(k + 1, ts);
      var a := ParseAt(k + 1, ts).value;
      ParsedMore(k, a.0, a.1);
    } else if ts[0].TNot? {
      ParsedAt(5, ts[1..]);
    } else {
      ParsedPrimary(ts);
    }
  }

  lemma {:induction false} ParsedMore(k: nat, acc: Expr, ts: seq<Token>)
    requires 0 < k < 5 && Parsed(acc) && Level(acc) >= k && ParseMore(k, acc, ts).Some?
    ensures var (e, rest) := ParseMore(k, acc, ts).value;
            Render(acc) + ts == Render(e) + rest && Parsed(e) && Level(e) >= k
    decreases |ts|, 0
  {
    hide ParseAt, Render, Parsed, Level, Combine, OpLevel;
    if ts != [] && OpLevel(ts[0]) == k {
      ParsedAt(k + 1, ts[1..]);
      var a := ParseAt(k + 1, ts[1..]).value;
      var joined := Combine(ts[0], acc, a.0);
      Combined(ts[0], acc, a.0);
      ParsedMore(k, joined, a.1);
      assert ts == [ts[0]] + ts[1..];
      assert Render(acc) + ts == Render(joined) + a.1;
    }
  }

  lemma Combined(t: Token, l: Expr, r: Expr)
    requires OpLevel(t) > 0 && Parsed(l) && Parsed(r) && Level(l) >= OpLevel(t) && Level(r) > OpLevel(t)
    ensures var e := Combine(t, l, r);
            Parsed(e) && Level(e) == OpLevel(t) && Render(e) == Render(l) + [t] + Render(r)
  {
    match t
    case TOr => assert Parsed(Or(l, r));
    case TAnd => assert Parsed(And(l, r));
    case TCmp(op) => assert Parsed(Cmp(op, l, r));
  }

  lemma {:induction false} ParsedPrimary(ts: seq<Token>)
    requires ParsePrimary(ts).Some?
    ensures var (e, rest) := ParsePrimary(ts).value;
            ts == Render(e) + rest && Parsed(e) && Level(e) == 6
    decreases |ts|, 0
  {
    hide ParseAt, ParseArgs, ParseDots, Render, Parsed, Level;
    assert ts == [ts[0]] + ts[1..];
    if ts[0].TLit? {
      Leaves(ts[0]);
      ParsedDots(Lit(ts[0].v), ts[1..]);
    } else if ts[0].TName? {
      if |ts| > 1 && ts[1].TOpen? {
        ParsedArgs(ts[2..]);
        var a := ParseArgs(ts[2..]).value;
        Called(ts[0].x, a.0);
        ParsedDots(Call(ts[0].x, a.0), a.1);
        assert ts == [ts[0], TOpen] + ts[2..];
      } else {
        Leaves(ts[0]);
        ParsedDots(Var(ts[0].x), ts[1..]);
      }
    } else {
      ParsedAt(0, ts[1..]);
      var a := ParseAt(0, ts[1..]).value;
      Wrapped(a.0);
      ParsedDots(Paren(a.0), a.1[1..]);
      assert a.1 == [TClose] + a.1[1..];
    }
  }

  lemma Leaves(t: Token)
    ensures t.TLit? && HasLiteral(t.v) ==> Parsed(Lit(t.v)) && Level(Lit(t.v)) == 6 && Render(Lit(t.v)) == [t]
    ensures t.TName? ==> Parsed(Var(t.x)) && Level(Var(t.x)) == 6 && Render(Var(t.x)) == [t]
  {
  }

  lemma Called(f: Name, args: seq<Expr>)
    requires AllParsed(args)
    ensures var e := Call(f, args);
            Parsed(e) && Level(e) == 6 && Render(e) == [TName(f), TOpen] + (RenderArgs(args) + [TClose])
  {
  }

  lemma Wrapped(a: Expr)
    requires Parsed(a)
    ensures Parsed(Paren(a)) && Level(Paren(a)) == 6 && Render(Paren(a)) == [TOpen] + Render(a) + [TClose]
  {
  }

  lemma {:induction false} ParsedDots(acc: Expr, ts: seq<Token>)
    requires Parsed(acc) && Level(acc) == 6 && ParseDots(acc, ts).Some?
    ensures var (e, rest) := ParseDots(acc, ts).value;
            Render(acc) + ts == Render(e) + rest && Parsed(e) && Level(e) == 6
    decreases |ts|
  {
    if ts != [] && ts[0].TDot? {
      var read := Get(acc, ts[0].field);
      ParsedDots(read, ts[1..]);
      assert Render(acc) + ts == Render(read) + ts[1..];
    }
  }

  lemma {:induction false} ParsedArgs(ts: seq<Token>)
    requires ParseArgs(ts).Some?
    ensures var (args, rest) := ParseArgs(ts).value;
            ts == RenderArgs(args) + ([TClose] + rest) && AllParsed(args)
    decreases |ts|, 8
  {
    if ts != [] && ts[0].TClose? {
    } else {
      ParsedList(ts);
    }
  }

  lemma {:induction false} ParsedList(ts: seq<Token>)
    requires ParseList(ts).Some?
    ensures var (args, rest) := ParseList(ts).value;
            args != [] && ts == RenderArgs(args) + ([TClose] + rest) && AllParsed(args)
    decreases |ts|, 7
  {
    ParsedAt(0, ts);
    var a := ParseAt(0, ts).value;
    if a.1[0].TComma? {
      ParsedList(a.1[1..]);
      var b := ParseList(a.1[1..]).value;
      assert ([a.0] + b.0)[1..] == b.0;
    }
  }

  /** The parser accepts exactly the texts of parsed trees, and gives back the tree. */
  lemma ParseExact(ts: seq<Token>, e: Expr)
    ensures Parse(ts) == Some(e) <==> Parsed(e) && Render(e) == ts
  {
    if Parse(ts) == Some(e) {
      ParsedAt(0, ts);
      assert Render(e) + [] == Render(e);
    }
    if Parsed(e) && Render(e) == ts {
      ParseRender(e, 0, []);
      assert Render(e) + [] == Render(e);
    }
  }

  // ----- the dot behind a number -----

  predicate NumberDot(a: Token, b: Token) {
    a.TLit? && a.v.Num? && b.TDot?
  }

  predicate DotAt(ts: seq<Token>, j: nat)
    requires 0 < j < |ts|
  {
    NumberDot(ts[j - 1], ts[j])
  }

  /** No number is followed by a dot. */
  predicate NoNumberDot(ts: seq<Token>) {
    forall j :: 0 < j < |ts| ==> !DotAt(ts, j)
  }

  lemma DotsJoin(a: seq<Token>, b: seq<Token>)
    ensures NoNumberDot(a + b)
            <==> NoNumberDot(a) && NoNumberDot(b) && (a == [] || b == [] || !NumberDot(a[|a| - 1], b[0]))
  {
    var c := a + b;
    if NoNumberDot(c) {
      forall j | 0 < j < |a| ensures !DotAt(a, j) { assert !DotAt(c, j); }
      forall j | 0 < j < |b| ensures !DotAt(b, j) {
        var m := |a| + j;
        assert !DotAt(c, m) && c[m] == b[j] && c[m - 1] == b[j - 1];
      }
      if a != [] && b != [] { assert !DotAt(c, |a|); }
    }
    if NoNumberDot(a) && NoNumberDot(b) && (a == [] || b == [] || !NumberDot(a[|a| - 1], b[0])) {
      forall j | 0 < j < |c| ensures !DotAt(c, j) {
        if j < |a| {
          assert !DotAt(a, j);
        } else if j > |a| {
          assert !DotAt(b, j - |a|);
        }
      }
    }
  }

  /** The same around a token that is neither. */
  lemma DotsAround(a: seq<Token>, t: Token, b: seq<Token>)
    requires !t.TDot? && !t.TLit?
    ensures NoNumberDot(a + [t] + b) <==> NoNumberDot(a) && NoNumberDot(b)
  {
    hide NoNumberDot;
    DotsJoin(a + [t], b);
    DotsJoin(a, [t]);
    SingleDot(t);
  }

  lemma SingleDot(t: Token)
    ensures NoNumberDot([t]) && NoNumberDot([])
  {
  }

  lemma DotsBehind(t: Token, b: seq<Token>)
    requires !t.TDot? && !t.TLit?
    ensures NoNumberDot([t] + b) <==> NoNumberDot(b)
  {
    hide NoNumberDot;
    DotsAround([], t, b);
    SingleDot(t);
    assert [] + [t] + b == [t] + b;
  }

  lemma DotsWrapped(a: seq<Token>)
    ensures NoNumberDot([TOpen] + a + [TClose]) <==> NoNumberDot(a)
  {
    hide NoNumberDot;
    DotsJoin([TOpen] + a, [TClose]);
    DotsBehind(TOpen, a);
    SingleDot(TClose);
  }

  lemma DotsCall(f: Name, a: seq<Token>)
    ensures NoNumberDot([TName(f), TOpen] + (a + [TClose])) <==> NoNumberDot(a)
  {
    hide NoNumberDot;
    assert [TName(f), TOpen] + (a + [TClose]) == [TName(f)] + ([TOpen] + a + [TClose]);
    DotsBehind(TName(f), [TOpen] + a + [TClose]);
    DotsWrapped(a);
  }

  lemma DotsAssign(x: Name, a: seq<Token>)
    ensures NoNumberDot([TName(x), TSet] + a) <==> NoNumberDot(a)
  {
    hide NoNumberDot;
    assert [TName(x), TSet] + a == [TName(x)] + ([TSet] + a);
    DotsBehind(TName(x), [TSet] + a);
    DotsBehind(TSet, a);
  }

  lemma LastToken(e: Expr)
    requires Level(e) == 6 && !IsNumber(e)
    ensures Render(e) != [] && !NumberDot(Render(e)[|Render(e)| - 1], TDot(""))
  {
  }

  lemma {:induction false} ParsedIsClean(e: Expr)
    requires Parsed(e)
    ensures NoNumberDot(Render(e))
  {
    hide NoNumberDot;
    match e
    case Lit(v) => SingleDot(TLit(v));
    case Var(x) => SingleDot(TName(x));
    case Paren(a) => ParsedIsClean(a); DotsWrapped(Render(a));
    case Get(o, field) =>
      ParsedIsClean(o);
      LastToken(o);
      SingleDot(TDot(field));
      DotsJoin(Render(o), [TDot(field)]);
    case Call(f, args) => ArgsAreClean(args); DotsCall(f, RenderArgs(args));
    case Not(a) => ParsedIsClean(a); DotsBehind(TNot, Render(a));
    case And(l, r) => ParsedIsClean(l); ParsedIsClean(r); DotsAround(Render(l), TAnd, Render(r));
    case Or(l, r) => ParsedIsClean(l); ParsedIsClean(r); DotsAround(Render(l), TOr, Render(r));
    case Cmp(op, l, r) => ParsedIsClean(l); ParsedIsClean(r); DotsAround(Render(l), TCmp(op), Render(r));
    case Assign(x, a) => ParsedIsClean(a); DotsAssign(x, Render(a));
  }

  lemma {:induction false} ArgsAreClean(args: seq<Expr>)
    requires AllParsed(args)
    ensures NoNumberDot(RenderArgs(args))
  {
    hide NoNumberDot;
    if args == [] {
      SingleDot(TOpen);
    } else {
      ParsedIsClean(args[0]);
      if |args| > 1 {
        ArgsAreClean(args[1..]);
        DotsAround(Render(args[0]), TComma, RenderArgs(args[1..]));
      }
    }
  }

  /** A text with a dot behind a number does not parse. */
  lemma NumberDotFails(ts: seq<Token>)
    requires !NoNumberDot(ts)
    ensures Parse(ts) == None
  {
    if Parse(ts).Some? {
      var e := Parse(ts).value;
      ParseExact(ts, e);
      ParsedIsClean(e);
    }
  }
}
