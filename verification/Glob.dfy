/** The glob compiler of the sync policy. */
module Glob {
  import opened Text

  // Strings are sequences of Unicode scalar values; below U+10000 they are UTF-16 code units.

  // ---------------------------------------------------------------- regular expressions

  datatype Class = Exactly(c: char) | Except(c: char) | Dot

  /** JavaScript's `.` matches anything but a line terminator. */
  predicate IsLineEnd(c: char) {
    c == '\n' || c == '\r' || c as int == 0x2028 || c as int == 0x2029
  }

  predicate InClass(k: Class, c: char) {
    match k
    case Exactly(d) => c == d
    case Except(d) => c != d
    case Dot => !IsLineEnd(c)
  }

  datatype Re = Empty | Sym(k: Class) | Cat(a: Re, b: Re) | Star(a: Re) | Opt(a: Re)

  /** The language of a regular expression. */
  predicate Accepts(re: Re, s: string)
    decreases re, |s|
  {
    match re
    case Empty => s == ""
    case Sym(k) => |s| == 1 && InClass(k, s[0])
    case Cat(a, b) => exists i :: 0 <= i <= |s| && Accepts(a, s[..i]) && Accepts(b, s[i..])
    case Star(a) => s == "" || exists i :: 0 < i <= |s| && Accepts(a, s[..i]) && Accepts(re, s[i..])
    case Opt(a) => s == "" || Accepts(a, s)
  }

  datatype Parsed = Failed | Parsed(re: Re, rest: string)

  const SYNTAX := "\\^$+.()|{}[]"

  predicate IsSyntax(c: char) {
    c in SYNTAX
  }

  /** A regular-expression source text, up to its end or an unopened `)`. */
  function ParseSeq(text: string): (r: Parsed)
    ensures r.Parsed? ==> |r.rest| <= |text|
    decreases |text|, 1
  {
    if text == "" || text[0] == ')' then Parsed(Empty, text)
    else
      var atom := ParseAtom(text);
      if atom.Failed? then Failed
      else
        var starred := atom.rest != "" && atom.rest[0] == '*';
        var optional := atom.rest != "" && atom.rest[0] == '?';
        var re := if starred then Star(atom.re) else if optional then Opt(atom.re) else atom.re;
        var more := ParseSeq(if starred || optional then atom.rest[1..] else atom.rest);
        if more.Failed? then Failed else Parsed(Cat(re, more.re), more.rest)
  }

  function ParseAtom(text: string): (r: Parsed)
    requires text != ""
    ensures r.Parsed? ==> |r.rest| < |text|
    decreases |text|, 0
  {
    var c := text[0];
    if c == '\\' then
      if |text| > 1 then Parsed(Sym(Exactly(text[1])), text[2..]) else Failed
    else if c == '.' then Parsed(Sym(Dot), text[1..])
    else if "[^" <= text && |text| > 3 && text[3] == ']' && text[2] != ']' && text[2] != '\\' then
      Parsed(Sym(Except(text[2])), text[4..])
    else if "(?:" <= text then
      var inner := ParseSeq(text[3..]);
      if inner.Failed? || inner.rest == "" then Failed else Parsed(inner.re, inner.rest[1..])
    else if c == '*' || c == '?' || IsSyntax(c) then Failed
    else Parsed(Sym(Exactly(c)), text[1..])
  }

  /** `new RegExp(text).test(path)` for an anchored text. */
  predicate Test(text: string, path: string) {
    |text| >= 2 && text[0] == '^' && text[|text| - 1] == '$'
    && var r := ParseSeq(text[1..|text| - 1]);
       r.Parsed? && r.rest == "" && Accepts(r.re, path)
  }

  // ---------------------------------------------------------------- the compiler

  const DIRS := "(?:.*/)?"
  const ANY := ".*"
  const SEGMENT := "[^/]*"
  const ONE := "[^/]"

  /** Number of pattern characters the next step consumes. */
  function Width(p: string): (n: nat)
    requires p != ""
    ensures 0 < n <= |p|
  {
    if "**/" <= p then 3 else if "**" <= p then 2 else 1
  }

  function Emit(p: string): string
    requires p != ""
  {
    if "**/" <= p then DIRS
    else if "**" <= p then ANY
    else if p[0] == '*' then SEGMENT
    else if p[0] == '?' then ONE
    else if IsSyntax(p[0]) then ['\\', p[0]]
    else [p[0]]
  }

  function Body(p: string): string {
    if p == "" then "" else Emit(p) + Body(p[Width(p)..])
  }

  lemma EmitAt(pattern: string, index: nat)
    requires index < |pattern|
    ensures var rest, c := pattern[index..], pattern[index];
            var two := c == '*' && index + 1 < |pattern| && pattern[index + 1] == '*';
            var three := two && index + 2 < |pattern| && pattern[index + 2] == '/';
            Width(rest) == (if three then 3 else if two then 2 else 1)
            && Emit(rest) == if three then DIRS else if two then ANY else if c == '*' then SEGMENT
                             else if c == '?' then ONE else if IsSyntax(c) then ['\\', c] else [c]
  {
    hide IsSyntax;
    var rest := pattern[index..];
    assert |rest| > 1 ==> rest[1] == pattern[index + 1];
    assert |rest| > 2 ==> rest[2] == pattern[index + 2];
  }

  lemma BodyAt(pattern: string, index: nat, source: string)
    requires index < |pattern|
    ensures var rest := pattern[index..];
            source + Body(rest) == source + Emit(rest) + Body(pattern[index + Width(rest)..])
  {
    hide Emit;
    var rest := pattern[index..];
    assert rest[Width(rest)..] == pattern[index + Width(rest)..];
    assert source + (Emit(rest) + Body(rest[Width(rest)..])) == source + Emit(rest) + Body(rest[Width(rest)..]);
  }

  method GlobToRegExp(pattern: string) returns (source: string)
    ensures source == "^" + Body(pattern) + "$"
  {
    hide IsSyntax, Emit, Body, Width;
    source := "^";
    var index := 0;
    assert pattern[0..] == pattern;
    while index < |pattern|
      invariant 0 <= index <= |pattern|
      invariant "^" + Body(pattern) == source + Body(pattern[index..])
    {
      EmitAt(pattern, index);
      BodyAt(pattern, index, source);
      var character := pattern[index];
      if character == '*' {
        if index + 1 < |pattern| && pattern[index + 1] == '*' {
          if index + 2 < |pattern| && pattern[index + 2] == '/' {
            source := source + DIRS;
            index := index + 3;
          } else {
            source := source + ANY;
            index := index + 2;
          }
        } else {
          source := source + SEGMENT;
          index := index + 1;
        }
      } else if character == '?' {
        source := source + ONE;
        index := index + 1;
      } else {
        source := source + if IsSyntax(character) then ['\\', character] else [character];
        index := index + 1;
      }
    }
    EmptyBody();
    assert pattern[index..] == "" && source + "" == source;
    source := source + "$";
  }

  lemma EmptyBody()
    ensures Body("") == ""
  {
  }

  // ---------------------------------------------------------------- the direct matcher

  predicate NoSlash(s: string) {
    '/' !in s
  }

  predicate NoLineEnd(s: string) {
    forall c :: c in s ==> !IsLineEnd(c)
  }

  /** What a glob pattern means. */
  predicate Matches(p: string, s: string)
    decreases |p|
  {
    if p == "" then s == ""
    else
      var rest := p[Width(p)..];
      if "**/" <= p then
        Matches(rest, s)
        || exists i :: 0 <= i < |s| && s[i] == '/' && NoLineEnd(s[..i]) && Matches(rest, s[i + 1..])
      else if "**" <= p then exists i :: 0 <= i <= |s| && NoLineEnd(s[..i]) && Matches(rest, s[i..])
      else if p[0] == '*' then exists i :: 0 <= i <= |s| && NoSlash(s[..i]) && Matches(rest, s[i..])
      else s != "" && (if p[0] == '?' then s[0] != '/' else s[0] == p[0]) && Matches(rest, s[1..])
  }

  function ReEmit(p: string): Re
    requires p != ""
  {
    if "**/" <= p then Opt(Cat(Star(Sym(Dot)), Cat(Sym(Exactly('/')), Empty)))
    else if "**" <= p then Star(Sym(Dot))
    else if p[0] == '*' then Star(Sym(Except('/')))
    else if p[0] == '?' then Sym(Except('/'))
    else Sym(Exactly(p[0]))
  }

  function ReOf(p: string): Re {
    if p == "" then Empty else Cat(ReEmit(p), ReOf(p[Width(p)..]))
  }

  // ---------------------------------------------------------------- parsing what was compiled

  predicate Plain(text: string) {
    text == "" || (text[0] != '*' && text[0] != '?' && text[0] != ')')
  }

  lemma BodyStart(p: string)
    ensures Plain(Body(p))
  {
    if p != "" { EmitStart(p); }
  }

  lemma EmitStart(p: string)
    requires p != ""
    ensures |Emit(p)| > 0 && Emit(p)[0] != '*' && Emit(p)[0] != '?' && Emit(p)[0] != ')'
  {
  }

  function Then(re: Re, more: Parsed): Parsed {
    if more.Failed? then Failed else Parsed(Cat(re, more.re), more.rest)
  }

  lemma StepPlain(text: string, atom: Re, after: string)
    requires text != "" && text[0] != ')' && ParseAtom(text) == Parsed(atom, after)
    requires after == "" || (after[0] != '*' && after[0] != '?')
    ensures ParseSeq(text) == Then(atom, ParseSeq(after))
  {
    hide ParseAtom;
  }

  lemma StepPostfix(text: string, atom: Re, rest: string, c: char)
    requires c == '*' || c == '?'
    requires text != "" && text[0] != ')' && ParseAtom(text) == Parsed(atom, [c] + rest)
    ensures ParseSeq(text) == Then(if c == '*' then Star(atom) else Opt(atom), ParseSeq(rest))
  {
    hide ParseAtom;
    assert ([c] + rest)[1..] == rest;
  }

  lemma AtomDot(rest: string)
    ensures ParseAtom("." + rest) == Parsed(Sym(Dot), rest)
  {
    assert ("." + rest)[1..] == rest;
  }

  lemma AtomGroup(inner: string, re: Re, rest: string)
    requires ParseSeq(inner) == Parsed(re, ")" + rest)
    ensures ParseAtom("(?:" + inner) == Parsed(re, rest)
  {
    hide ParseSeq;
    var text := "(?:" + inner;
    assert text[..3] == "(?:" && text[3..] == inner;
    assert (")" + rest)[1..] == rest;
  }

  lemma AtomOne(rest: string)
    ensures ParseAtom(ONE + rest) == Parsed(Sym(Except('/')), rest)
  {
    var text := ONE + rest;
    assert text[..2] == "[^" && text[2] == '/' && text[3] == ']' && text[4..] == rest;
  }

  lemma CloseParen(rest: string)
    ensures ParseSeq(")" + rest) == Parsed(Empty, ")" + rest)
  {
  }

  /** The text of `**` followed by a slash is a group of `.*` and `/`, made optional. */
  lemma ParseDirs(rest: string)
    ensures ParseSeq(DIRS + rest)
            == Then(Opt(Cat(Star(Sym(Dot)), Cat(Sym(Exactly('/')), Empty))), ParseSeq(rest))
  {
    hide ParseSeq, ParseAtom, IsSyntax;
    var tail := ")" + ("?" + rest);
    CloseParen("?" + rest);
    ParseLiteral('/', tail);
    SlashIsPlain();
    StepPlain("/" + tail, Sym(Exactly('/')), tail);
    AtomDot("*" + ("/" + tail));
    StepPostfix("." + ("*" + ("/" + tail)), Sym(Dot), "/" + tail, '*');
    AtomGroup("." + ("*" + ("/" + tail)), Cat(Star(Sym(Dot)), Cat(Sym(Exactly('/')), Empty)), "?" + rest);
    assert DIRS + rest == "(?:" + ("." + ("*" + ("/" + tail)));
    StepPostfix(DIRS + rest, Cat(Star(Sym(Dot)), Cat(Sym(Exactly('/')), Empty)), rest, '?');
  }

  lemma SlashIsPlain()
    ensures !IsSyntax('/')
  {
  }

  lemma ParseEmitted(p: string, rest: string)
    requires p != "" && Plain(rest)
    ensures ParseSeq(Emit(p) + rest) == Then(ReEmit(p), ParseSeq(rest))
  {
    hide ParseSeq, ParseAtom, IsSyntax;
    if "**/" <= p {
      ParseDirs(rest);
    } else if "**" <= p {
      assert ANY + rest == "." + ("*" + rest);
      AtomDot("*" + rest);
      StepPostfix("." + ("*" + rest), Sym(Dot), rest, '*');
    } else if p[0] == '*' {
      assert SEGMENT + rest == ONE + ("*" + rest);
      AtomOne("*" + rest);
      StepPostfix(ONE + ("*" + rest), Sym(Except('/')), rest, '*');
    } else if p[0] == '?' {
      AtomOne(rest);
      StepPlain(ONE + rest, Sym(Except('/')), rest);
    } else {
      ParseLiteral(p[0], rest);
      StepPlain(Emit(p) + rest, Sym(Exactly(p[0])), rest);
    }
  }

  lemma ParseLiteral(c: char, rest: string)
    requires c != '*' && c != '?'
    ensures var text := (if IsSyntax(c) then ['\\', c] else [c]) + rest;
            ParseAtom(text) == Parsed(Sym(Exactly(c)), rest) && text[0] != ')'
  {
    var text := (if IsSyntax(c) then ['\\', c] else [c]) + rest;
    if IsSyntax(c) {
      assert text[2..] == rest;
    } else {
      assert text[1..] == rest;
      assert '[' in SYNTAX && '(' in SYNTAX && '.' in SYNTAX && ')' in SYNTAX && '\\' in SYNTAX;
    }
  }

  /** The emitted text parses to the expression it was meant to be. */
  lemma {:induction false} BodyParses(p: string)
    ensures ParseSeq(Body(p)) == Parsed(ReOf(p), "")
    decreases |p|
  {
    hide Emit, ReEmit, ParseSeq;
    if p == "" {
      ParseNothing();
    } else {
      var rest := p[Width(p)..];
      BodyParses(rest);
      BodyStart(rest);
      ParseEmitted(p, Body(rest));
    }
  }

  lemma ParseNothing()
    ensures ParseSeq("") == Parsed(Empty, "")
  {
  }

  // ---------------------------------------------------------------- languages

  predicate AllIn(k: Class, s: string) {
    forall i :: 0 <= i < |s| ==> InClass(k, s[i])
  }

  lemma {:induction false} StarOfClass(k: Class, s: string)
    ensures Accepts(Star(Sym(k)), s) <==> AllIn(k, s)
    decreases |s|
  {
    var re := Star(Sym(k));
    if s != "" {
      forall i | 0 < i <= |s| ensures Accepts(re, s[i..]) <==> AllIn(k, s[i..]) { StarOfClass(k, s[i..]); }
      if AllIn(k, s) {
        assert |s[..1]| == 1 && Accepts(Sym(k), s[..1]) && AllIn(k, s[1..]);
      }
      if Accepts(re, s) {
        var i :| 0 < i <= |s| && Accepts(Sym(k), s[..i]) && Accepts(re, s[i..]);
        assert i == 1 && s[0] == s[..1][0];
        assert forall j :: 1 <= j < |s| ==> s[j] == s[1..][j - 1];
      }
    }
  }

  /** Splitting after a one-character expression. */
  lemma CatOfSym(k: Class, b: Re, s: string)
    ensures Accepts(Cat(Sym(k), b), s) <==> s != "" && InClass(k, s[0]) && Accepts(b, s[1..])
  {
    if s != "" && InClass(k, s[0]) && Accepts(b, s[1..]) {
      assert |s[..1]| == 1 && Accepts(Sym(k), s[..1]);
    }
  }

  lemma CatOfStar(k: Class, b: Re, s: string)
    ensures Accepts(Cat(Star(Sym(k)), b), s)
            <==> exists i :: 0 <= i <= |s| && AllIn(k, s[..i]) && Accepts(b, s[i..])
  {
    forall i | 0 <= i <= |s| ensures Accepts(Star(Sym(k)), s[..i]) <==> AllIn(k, s[..i]) { StarOfClass(k, s[..i]); }
  }

  /** The group accepts runs without line terminators that end in a slash. */
  lemma DirsAccepts(s: string)
    ensures Accepts(Cat(Star(Sym(Dot)), Cat(Sym(Exactly('/')), Empty)), s)
            <==> s != "" && s[|s| - 1] == '/' && AllIn(Dot, s[..|s| - 1])
  {
    var tail := Cat(Sym(Exactly('/')), Empty);
    CatOfStar(Dot, tail, s);
    forall i | 0 <= i <= |s| ensures Accepts(tail, s[i..]) <==> i == |s| - 1 && s[i] == '/' {
      CatOfSym(Exactly('/'), Empty, s[i..]);
    }
  }

  lemma ClassesAre(s: string)
    ensures AllIn(Dot, s) <==> NoLineEnd(s)
    ensures AllIn(Except('/'), s) <==> NoSlash(s)
  {
  }

  lemma OptDirs(s: string)
    ensures Accepts(Opt(Cat(Star(Sym(Dot)), Cat(Sym(Exactly('/')), Empty))), s)
            <==> s == "" || (s[|s| - 1] == '/' && NoLineEnd(s[..|s| - 1]))
  {
    DirsAccepts(s);
    if s != "" { ClassesAre(s[..|s| - 1]); }
  }

  lemma CatOfDirs(b: Re, s: string)
    ensures Accepts(Cat(Opt(Cat(Star(Sym(Dot)), Cat(Sym(Exactly('/')), Empty))), b), s)
            <==> Accepts(b, s)
                 || exists i :: 0 <= i < |s| && s[i] == '/' && NoLineEnd(s[..i]) && Accepts(b, s[i + 1..])
  {
    var opt := Opt(Cat(Star(Sym(Dot)), Cat(Sym(Exactly('/')), Empty)));
    CatIsSplit(opt, b, s);
    hide Accepts;
    assert s[0..] == s && s[..0] == "";
    OptDirs("");
    forall i | 0 <= i < |s| && s[i] == '/' && NoLineEnd(s[..i]) && Accepts(b, s[i + 1..])
      ensures Accepts(opt, s[..i + 1])
    {
      OptDirs(s[..i + 1]);
      assert s[..i + 1][..i] == s[..i];
    }
    if i :| 0 <= i <= |s| && Accepts(opt, s[..i]) && Accepts(b, s[i..]) {
      OptDirs(s[..i]);
      if i > 0 {
        var j := i - 1;
        assert s[..i][..j] == s[..j];
        assert s[j] == '/' && NoLineEnd(s[..j]) && Accepts(b, s[j + 1..]);
      }
    }
  }

  lemma CatIsSplit(a: Re, b: Re, s: string)
    ensures Accepts(Cat(a, b), s) <==> exists i :: 0 <= i <= |s| && Accepts(a, s[..i]) && Accepts(b, s[i..])
  {
  }

  /** The compiled expression accepts exactly what the glob matches. */
  lemma {:induction false} ReMeansGlob(p: string, s: string)
    ensures Accepts(ReOf(p), s) <==> Matches(p, s)
    decreases |p|
  {
    if p != "" {
      hide Accepts;
      var rest := p[Width(p)..];
      forall t ensures Accepts(ReOf(rest), t) <==> Matches(rest, t) { ReMeansGlob(rest, t); }
      if "**/" <= p {
        CatOfDirs(ReOf(rest), s);
      } else if "**" <= p {
        CatOfStar(Dot, ReOf(rest), s);
        forall i | 0 <= i <= |s| ensures AllIn(Dot, s[..i]) <==> NoLineEnd(s[..i]) { ClassesAre(s[..i]); }
      } else if p[0] == '*' {
        CatOfStar(Except('/'), ReOf(rest), s);
        forall i | 0 <= i <= |s| ensures AllIn(Except('/'), s[..i]) <==> NoSlash(s[..i]) { ClassesAre(s[..i]); }
      } else {
        CatOfSym(if p[0] == '?' then Except('/') else Exactly(p[0]), ReOf(rest), s);
      }
    } else {
      assert Accepts(Empty, s) <==> s == "";
    }
  }

  /** The regular expression built from a pattern tests exactly what the glob matches. */
  lemma RegExpIsGlob(pattern: string, path: string)
    ensures Test("^" + Body(pattern) + "$", path) <==> Matches(pattern, path)
  {
    hide ParseSeq, Accepts, Matches, ReOf, Body;
    var text := "^" + Body(pattern) + "$";
    assert text[1..|text| - 1] == Body(pattern);
    BodyParses(pattern);
    ReMeansGlob(pattern, path);
  }

  // ---------------------------------------------------------------- segments

  /** Position of the first slash, or the length. */
  function FirstSlash(s: string): nat {
    IndexOf(s, '/')
  }

  lemma {:induction false} SlashAt(s: string, k: nat)
    requires k <= |s| && NoSlash(s[..k]) && (k < |s| ==> s[k] == '/')
    ensures FirstSlash(s) == k
  {
    if k > 0 {
      assert s[0] == s[..k][0] && s[1..][..k - 1] == s[..k][1..];
      SlashAt(s[1..], k - 1);
    }
  }

  function Segments(s: string): (r: seq<string>)
    ensures r != []
  {
    var k := FirstSlash(s);
    if k == |s| then [s] else [s[..k]] + Segments(s[k + 1..])
  }

  predicate NoDoubleStar(p: string) {
    forall i :: 0 < i < |p| ==> !(p[i - 1] == '*' && p[i] == '*')
  }

  lemma Tail(p: string)
    requires p != "" && NoDoubleStar(p)
    ensures Width(p) == 1 && NoDoubleStar(p[1..])
  {
    var t := p[1..];
    forall i | 0 < i < |t| ensures !(t[i - 1] == '*' && t[i] == '*') {
      assert t[i - 1] == p[i] && t[i] == p[i + 1];
    }
    if |p| > 1 { assert !(p[0] == '*' && p[1] == '*'); }
  }

  /** One step of a pattern without `**`. */
  lemma Step(p: string, s: string)
    requires p != "" && NoDoubleStar(p)
    ensures p[0] == '*' ==>
              (Matches(p, s) <==> exists i :: 0 <= i <= |s| && NoSlash(s[..i]) && Matches(p[1..], s[i..]))
    ensures p[0] != '*' ==>
              (Matches(p, s) <==> s != "" && (if p[0] == '?' then s[0] != '/' else s[0] == p[0])
                                  && Matches(p[1..], s[1..]))
  {
    Tail(p);
  }

  lemma {:induction false} SegmentOnly(p: string, s: string)
    requires NoSlash(p) && NoDoubleStar(p) && Matches(p, s)
    ensures NoSlash(s)
    decreases |p|
  {
    hide Matches, NoDoubleStar;
    if p == "" {
      EmptyPattern(p, s);
    } else {
      Step(p, s);
      Tail(p);
      if p[0] == '*' {
        var i :| 0 <= i <= |s| && NoSlash(s[..i]) && Matches(p[1..], s[i..]);
        SegmentOnly(p[1..], s[i..]);
        assert s == s[..i] + s[i..];
      } else {
        SegmentOnly(p[1..], s[1..]);
        assert s == [s[0]] + s[1..];
      }
    }
  }

  /** A slash in the pattern can only meet the first slash of the path. */
  lemma {:induction false} SlashSplit(p: string, k: nat, s: string)
    requires k < |p| && NoDoubleStar(p) && NoSlash(p[..k]) && p[k] == '/'
    ensures var j := FirstSlash(s);
            Matches(p, s) <==> j < |s| && Matches(p[..k], s[..j]) && Matches(p[k + 1..], s[j + 1..])
    decreases k
  {
    hide Matches, NoDoubleStar;
    var j := FirstSlash(s);
    Step(p, s);
    if k == 0 {
      EmptyPattern(p[..0], s[..j]);
    } else {
      Shift(p, k);
      Prefix(p, k);
      Step(p[..k], s[..j]);
      if p[0] == '*' {
        StarSplit(p, k, s, j);
      } else if s != "" && s[0] != '/' {
        SlashSplit(p[1..], k - 1, s[1..]);
        assert s[..j][1..] == s[1..][..j - 1];
        if j < |s| { assert s[1..][j..] == s[j + 1..]; }
      }
    }
  }

  lemma Shift(p: string, k: nat)
    requires 0 < k < |p| && NoDoubleStar(p) && NoSlash(p[..k]) && p[k] == '/'
    ensures p[1..][..k - 1] == p[..k][1..] && p[1..][k..] == p[k + 1..] && p[1..][k - 1] == '/' && p[0] == p[..k][0]
    ensures p[0] != '/' && NoSlash(p[1..][..k - 1]) && NoDoubleStar(p[1..])
  {
    Tail(p);
    assert p[..k] == [p[0]] + p[..k][1..];
  }

  lemma EmptyPattern(p: string, s: string)
    requires p == ""
    ensures Matches(p, s) <==> s == ""
  {
  }

  lemma Prefix(p: string, k: nat)
    requires k <= |p| && NoDoubleStar(p)
    ensures NoDoubleStar(p[..k])
  {
    var q := p[..k];
    forall i | 0 < i < |q| ensures !(q[i - 1] == '*' && q[i] == '*') {
      assert q[i - 1] == p[i - 1] && q[i] == p[i];
    }
  }

  lemma {:induction false} StarSplit(p: string, k: nat, s: string, j: nat)
    requires 0 < k < |p| && NoDoubleStar(p) && NoSlash(p[..k]) && p[k] == '/' && p[0] == '*' && j == FirstSlash(s)
    ensures Matches(p, s) <==> j < |s| && Matches(p[..k], s[..j]) && Matches(p[k + 1..], s[j + 1..])
    decreases k, 0
  {
    hide Matches, NoDoubleStar;
    Step(p, s);
    Shift(p, k);
    Prefix(p, k);
    var q, t := p[..k], s[..j];
    Step(q, t);
    forall i | 0 <= i <= j
      ensures Matches(p[1..], s[i..]) <==> j < |s| && Matches(q[1..], t[i..]) && Matches(p[k + 1..], s[j + 1..])
      ensures NoSlash(s[..i]) && NoSlash(t[..i])
    {
      SlashSplit(p[1..], k - 1, s[i..]);
      RestSlash(s, i, j);
    }
    forall i | j < i <= |s| ensures !NoSlash(s[..i]) { assert s[..i][j] == '/'; }
  }

  lemma RestSlash(s: string, i: nat, j: nat)
    requires i <= j == FirstSlash(s)
    ensures FirstSlash(s[i..]) == j - i && s[i..][..j - i] == s[..j][i..]
    ensures j < |s| ==> s[i..][j - i + 1..] == s[j + 1..]
    ensures NoSlash(s[..i]) && NoSlash(s[..j][..i])
  {
    assert s[..j] == s[..i] + s[i..j] && s[i..][..j - i] == s[i..j] && s[..j][..i] == s[..i];
    SlashAt(s[i..], j - i);
  }

  predicate SegmentWise(ps: seq<string>, ss: seq<string>) {
    |ps| == |ss| && forall k :: 0 <= k < |ps| ==> Matches(ps[k], ss[k])
  }

  lemma ConsWise(p: string, ps: seq<string>, s: string, ss: seq<string>)
    ensures SegmentWise([p] + ps, [s] + ss) <==> Matches(p, s) && SegmentWise(ps, ss)
  {
    hide Matches;
    var a, b := [p] + ps, [s] + ss;
    if SegmentWise(a, b) {
      assert Matches(a[0], b[0]);
      forall k | 0 <= k < |ps| ensures Matches(ps[k], ss[k]) { assert Matches(a[k + 1], b[k + 1]); }
    }
    if Matches(p, s) && SegmentWise(ps, ss) {
      forall k | 0 <= k < |a| ensures Matches(a[k], b[k]) {
        if k > 0 { assert Matches(ps[k - 1], ss[k - 1]); }
      }
    }
  }

  /** Without `**` a pattern matches segment by segment, and only paths with as many segments. */
  lemma {:induction false} MatchesBySegment(p: string, s: string)
    requires NoDoubleStar(p)
    ensures Matches(p, s) <==> SegmentWise(Segments(p), Segments(s))
    decreases |p|
  {
    hide Matches;
    var k, j := FirstSlash(p), FirstSlash(s);
    if k == |p| {
      assert p[..k] == p;
      if Matches(p, s) {
        SegmentOnly(p, s);
        assert s[..|s|] == s;
        SlashAt(s, |s|);
      }
      if j == |s| { assert Segments(s)[0] == s; }
    } else {
      SlashSplit(p, k, s);
      SegmentsNonEmpty(p[k + 1..]);
      if j < |s| {
        assert NoDoubleStar(p[k + 1..]) by { Suffix(p, k + 1); }
        MatchesBySegment(p[k + 1..], s[j + 1..]);
        ConsWise(p[..k], Segments(p[k + 1..]), s[..j], Segments(s[j + 1..]));
      }
    }
  }

  lemma Suffix(p: string, k: nat)
    requires k <= |p| && NoDoubleStar(p)
    ensures NoDoubleStar(p[k..])
  {
    var q := p[k..];
    forall i | 0 < i < |q| ensures !(q[i - 1] == '*' && q[i] == '*') {
      assert q[i - 1] == p[k + i - 1] && q[i] == p[k + i];
    }
  }

  lemma SegmentsNonEmpty(s: string)
    ensures |Segments(s)| > 0
  {
  }

  /** The path below its first `n` segments. */
  function Below(s: string, n: nat): string
    requires n < |Segments(s)|
    decreases n
  {
    if n == 0 then s else Below(s[FirstSlash(s) + 1..], n - 1)
  }

  predicate NoLineEnds(segs: seq<string>, n: nat)
    requires n <= |segs|
  {
    forall k :: 0 <= k < n ==> NoLineEnd(segs[k])
  }

  lemma ConsLineEnds(s: string, n: nat)
    requires 0 < n < |Segments(s)|
    ensures var k := FirstSlash(s);
            k < |s| && n <= |Segments(s[k + 1..])|
            && (NoLineEnds(Segments(s), n) <==> NoLineEnd(s[..k]) && NoLineEnds(Segments(s[k + 1..]), n - 1))
            && Below(s, n) == Below(s[k + 1..], n - 1)
  {
    hide NoLineEnd;
    var k := FirstSlash(s);
    var segs, rest := Segments(s), Segments(s[k + 1..]);
    assert segs == [s[..k]] + rest;
    if NoLineEnds(segs, n) {
      assert NoLineEnd(segs[0]);
      forall x | 0 <= x < n - 1 ensures NoLineEnd(rest[x]) { assert NoLineEnd(segs[x + 1]); }
    }
    if NoLineEnd(s[..k]) && NoLineEnds(rest, n - 1) {
      forall x | 0 <= x < n ensures NoLineEnd(segs[x]) {
        if x > 0 { assert NoLineEnd(rest[x - 1]); }
      }
    }
  }

  lemma ConsSegments(s: string)
    requires FirstSlash(s) < |s|
    ensures |Segments(s)| == 1 + |Segments(s[FirstSlash(s) + 1..])|
  {
  }

  lemma {:induction false} FirstIsFirst(s: string, i: nat)
    requires i < |s| && s[i] == '/'
    ensures FirstSlash(s) <= i
  {
    if i > 0 && s[0] != '/' { FirstIsFirst(s[1..], i - 1); }
  }

  lemma NoLineEndJoin(s: string, k: nat, i: nat)
    requires k < i <= |s| && s[k] == '/'
    ensures s[k + 1..][..i - k - 1] == s[k + 1..i]
    ensures NoLineEnd(s[..i]) <==> NoLineEnd(s[..k]) && NoLineEnd(s[k + 1..][..i - k - 1])
  {
    assert s[..i] == s[..k] + [s[k]] + s[k + 1..i] && !IsLineEnd('/');
  }

  lemma {:induction false} BelowAt(s: string, i: nat) returns (n: nat)
    requires i < |s| && s[i] == '/' && NoLineEnd(s[..i])
    ensures 0 < n < |Segments(s)| && NoLineEnds(Segments(s), n) && Below(s, n) == s[i + 1..]
    decreases i
  {
    hide NoLineEnds, Below, NoLineEnd, Segments;
    var k := FirstSlash(s);
    FirstIsFirst(s, i);
    var rest := s[k + 1..];
    if k == i {
      n := 1;
      BelowNone(rest);
    } else {
      NoLineEndJoin(s, k, i);
      assert rest[i - k - 1] == s[i];
      var m := BelowAt(rest, i - k - 1);
      n := m + 1;
      assert rest[i - k..] == s[i + 1..];
    }
    if k == i { assert s[..k] == s[..i]; }
    ConsSegments(s);
    ConsLineEnds(s, n);
  }

  lemma BelowNone(s: string)
    ensures |Segments(s)| > 0 && NoLineEnds(Segments(s), 0) && Below(s, 0) == s
  {
  }

  lemma {:induction false} BelowIsSuffix(s: string, n: nat) returns (i: nat)
    requires 0 < n < |Segments(s)| && NoLineEnds(Segments(s), n)
    ensures i < |s| && s[i] == '/' && NoLineEnd(s[..i]) && Below(s, n) == s[i + 1..]
    decreases n
  {
    hide NoLineEnds, Below, NoLineEnd, Segments;
    var k := FirstSlash(s);
    ConsLineEnds(s, n);
    var rest := s[k + 1..];
    if n == 1 {
      i := k;
      BelowNone(rest);
    } else {
      var j := BelowIsSuffix(rest, n - 1);
      i := k + 1 + j;
      assert rest[j + 1..] == s[i + 1..];
      NoLineEndJoin(s, k, i);
    }
  }

  /** A leading `**` with its slash absorbs zero or more whole leading segments, and nothing else. */
  lemma DirsAbsorb(rest: string, s: string)
    ensures Matches("**/" + rest, s)
            <==> exists n: nat :: n < |Segments(s)| && NoLineEnds(Segments(s), n) && Matches(rest, Below(s, n))
  {
    hide Segments;
    var p := "**/" + rest;
    DirsStep(p, rest, s);
    hide Matches;
    if Matches(rest, s) {
      SegmentsNonEmpty(s);
      var zero: nat := 0;
      assert Below(s, zero) == s && NoLineEnds(Segments(s), zero);
    }
    forall i | 0 <= i < |s| && s[i] == '/' && NoLineEnd(s[..i]) && Matches(rest, s[i + 1..])
      ensures exists n: nat :: n < |Segments(s)| && NoLineEnds(Segments(s), n) && Matches(rest, Below(s, n))
    {
      var n := BelowAt(s, i);
    }
    if n: nat :| n < |Segments(s)| && NoLineEnds(Segments(s), n) && Matches(rest, Below(s, n)) {
      if n > 0 {
        var i := BelowIsSuffix(s, n);
      } else {
        assert Below(s, n) == s;
      }
    }
  }

  lemma DirsStep(p: string, rest: string, s: string)
    requires p == "**/" + rest
    ensures Matches(p, s)
            <==> Matches(rest, s)
                 || exists i :: 0 <= i < |s| && s[i] == '/' && NoLineEnd(s[..i]) && Matches(rest, s[i + 1..])
  {
    assert p[..3] == "**/" && p[3..] == rest;
  }

  // ---------------------------------------------------------------- classification

  function Slashes(path: string): string {
    seq(|path|, i requires 0 <= i < |path| => if path[i] == '\\' then '/' else path[i])
  }

  function StripDots(path: string): string {
    if "./" <= path then StripDots(path[2..]) else path
  }

  function NormalizePath(raw: string): string {
    StripDots(Slashes(raw))
  }

  lemma {:induction false} StripDotsDone(path: string)
    ensures !("./" <= StripDots(path))
    ensures forall c :: c in StripDots(path) ==> c in path
  {
    if "./" <= path { StripDotsDone(path[2..]); }
  }

  /** Normalising twice changes nothing, so a path may be normalised on both levels. */
  lemma NormalizeIsIdempotent(raw: string)
    ensures NormalizePath(NormalizePath(raw)) == NormalizePath(raw)
  {
    var s := NormalizePath(raw);
    StripDotsDone(Slashes(raw));
    assert forall i :: 0 <= i < |Slashes(raw)| ==> Slashes(raw)[i] != '\\';
    assert forall i :: 0 <= i < |s| ==> s[i] in s;
    assert Slashes(s) == s;
  }

  datatype Rule = Rule(id: string, sync: string, patterns: seq<string>)

  const MANUAL := "manual-review"
  const MANUAL_RULE := "manual-review-unknown"

  /** Some pattern of the rule matches the path, as globs. */
  predicate Applies(rule: Rule, path: string) {
    exists k :: 0 <= k < |rule.patterns| && Matches(NormalizePath(rule.patterns[k]), NormalizePath(path))
  }

  method MatchesPolicyPattern(path: string, pattern: string) returns (r: bool)
    ensures r <==> Matches(NormalizePath(pattern), NormalizePath(path))
  {
    var source := GlobToRegExp(NormalizePath(pattern));
    RegExpIsGlob(NormalizePath(pattern), NormalizePath(path));
    r := Test(source, NormalizePath(path));
  }

  /** The first rule in policy order that applies, or manual review. */
  method ClassifyPath(path: string, rules: seq<Rule>) returns (sync: string, id: string)
    ensures if n :| 0 <= n < |rules| && Applies(rules[n], path) && forall m :: 0 <= m < n ==> !Applies(rules[m], path)
            then sync == rules[n].sync && id == rules[n].id
            else sync == MANUAL && id == MANUAL_RULE
  {
    hide Matches, NormalizePath;
    var normalized := NormalizePath(path);
    NormalizeIsIdempotent(path);
    var n := 0;
    while n < |rules|
      invariant 0 <= n <= |rules| && forall m :: 0 <= m < n ==> !Applies(rules[m], path)
    {
      var k := 0;
      while k < |rules[n].patterns|
        invariant 0 <= k <= |rules[n].patterns|
        invariant forall j :: 0 <= j < k ==> !Matches(NormalizePath(rules[n].patterns[j]), NormalizePath(path))
      {
        var hit := MatchesPolicyPattern(normalized, rules[n].patterns[k]);
        if hit { return rules[n].sync, rules[n].id; }
        k := k + 1;
      }
      n := n + 1;
    }
    return MANUAL, MANUAL_RULE;
  }
}
