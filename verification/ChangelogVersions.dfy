/** The order of releases by version. */
module ChangelogVersions {
  import opened Wrappers
  import opened Text
  import opened Numerals

  /** `split(".")` */
  function Dotted(s: string): (r: seq<string>)
    ensures r != []
  {
    if s == "" then [""]
    else
      var rest := Dotted(s[1..]);
      if s[0] == '.' then [""] + rest else [[s[0]] + rest[0]] + rest[1..]
  }

  /** `parseInt(s, 10)`, `None` standing for NaN. */
  function ParseInt(s: string): Option<int> {
    var t := TrimStart(s);
    var signed := t != "" && (t[0] == '-' || t[0] == '+');
    var u := if signed then t[1..] else t;
    var k := Digits(u);
    if k == 0 then None
    else Some(if signed && t[0] == '-' then -ValueOf(10, u[..k]) else ValueOf(10, u[..k]))
  }

  function Numbers(parts: seq<string>): seq<Option<int>> {
    seq(|parts|, i requires 0 <= i < |parts| => ParseInt(parts[i]))
  }

  function Parts(title: string): seq<Option<int>> {
    Numbers(Dotted(title))
  }

  function First(ps: seq<Option<int>>): Option<int> {
    if ps == [] then Some(0) else ps[0]
  }

  function Rest(ps: seq<Option<int>>): seq<Option<int>> {
    if ps == [] then [] else ps[1..]
  }

  /** `compareVersionTitlesDesc` on the parsed parts; a difference that is NaN ends the comparison. */
  function Compare(left: seq<Option<int>>, right: seq<Option<int>>): Option<int>
    decreases |left| + |right|
  {
    if left == [] && right == [] then Some(0)
    else if First(left).None? || First(right).None? then None
    else
      var difference := First(right).value - First(left).value;
      if difference != 0 then Some(difference) else Compare(Rest(left), Rest(right))
  }

  /** The sort puts `left` before `right`; it takes NaN for a tie. */
  predicate Precedes(left: string, right: string) {
    var c := Compare(Parts(left), Parts(right));
    c.Some? && c.value < 0
  }

  predicate IsVersion(title: string) {
    AllNumbers(Parts(title))
  }

  predicate AllNumbers(ps: seq<Option<int>>) {
    forall i :: 0 <= i < |ps| ==> ps[i].Some?
  }

  /** A strict weak order among the given titles. */
  ghost predicate WeakOrder(precedes: (string, string) -> bool, among: string -> bool) {
    (forall a, b :: among(a) && among(b) && precedes(a, b) ==> !precedes(b, a))
    && forall a, b, c :: among(a) && among(b) && among(c) && !precedes(b, a) && !precedes(c, b) ==> !precedes(c, a)
  }

  lemma {:induction false} CompareFlips(a: seq<Option<int>>, b: seq<Option<int>>)
    requires AllNumbers(a) && AllNumbers(b)
    ensures Compare(a, b).Some? && Compare(b, a) == Some(-Compare(a, b).value)
    decreases |a| + |b|
  {
    if a != [] || b != [] { CompareFlips(Rest(a), Rest(b)); }
  }

  lemma {:induction false} CompareChains(a: seq<Option<int>>, b: seq<Option<int>>, c: seq<Option<int>>)
    requires AllNumbers(a) && AllNumbers(b) && AllNumbers(c)
    requires Compare(a, b).Some? && Compare(b, c).Some? && Compare(a, b).value <= 0 && Compare(b, c).value <= 0
    ensures Compare(a, c).Some? && Compare(a, c).value <= 0
    decreases |a| + |b| + |c|
  {
    CompareFlips(a, c);
    if First(a) == First(b) == First(c) && (a != [] || b != [] || c != []) {
      CompareFlips(Rest(a), Rest(b));
      CompareFlips(Rest(b), Rest(c));
      Tails(a, b);
      Tails(b, c);
      Tails(a, c);
      CompareChains(Rest(a), Rest(b), Rest(c));
    }
  }

  lemma Tails(a: seq<Option<int>>, b: seq<Option<int>>)
    requires First(a) == First(b) && First(a).Some?
    ensures Compare(a, b) == Compare(Rest(a), Rest(b))
  {
  }

  /** Version numbers are ordered. */
  lemma VersionsAreOrdered()
    ensures WeakOrder(Precedes, IsVersion)
  {
    hide Parts, Compare, AllNumbers;
    forall a, b | IsVersion(a) && IsVersion(b) && Precedes(a, b) ensures !Precedes(b, a) {
      CompareFlips(Parts(a), Parts(b));
    }
    forall a, b, c | IsVersion(a) && IsVersion(b) && IsVersion(c) && !Precedes(b, a) && !Precedes(c, b)
      ensures !Precedes(c, a)
    {
      CompareFlips(Parts(a), Parts(b));
      CompareFlips(Parts(b), Parts(c));
      CompareFlips(Parts(a), Parts(c));
      CompareChains(Parts(a), Parts(b), Parts(c));
    }
  }

  // ----- titles that are no version numbers -----

  /** The parts joined by dots. */
  function Undotted(ps: seq<string>): string {
    if ps == [] then "" else if |ps| == 1 then ps[0] else ps[0] + "." + Undotted(ps[1..])
  }

  predicate DotFree(ps: seq<string>) {
    forall i :: 0 <= i < |ps| ==> '.' !in ps[i]
  }

  lemma {:induction false} DottedIsDotFree(s: string)
    ensures DotFree(Dotted(s))
  {
    if s != "" {
      DottedIsDotFree(s[1..]);
      var rest := Dotted(s[1..]);
      assert forall i :: 0 <= i < |rest[1..]| ==> rest[1..][i] == rest[i + 1];
    }
  }

  lemma {:induction false} DottedStep(p: string, more: string)
    requires '.' !in p
    ensures Dotted(p + "." + more) == [p] + Dotted(more)
  {
    var s := p + "." + more;
    if p == "" {
      assert s[0] == '.' && s[1..] == more;
    } else {
      DottedStep(p[1..], more);
      assert s[0] == p[0] && s[1..] == p[1..] + "." + more;
      assert [p[0]] + p[1..] == p;
      assert ([p[1..]] + Dotted(more))[1..] == Dotted(more);
    }
  }

  lemma {:induction false} DottedOne(p: string)
    requires '.' !in p
    ensures Dotted(p) == [p]
  {
    if p != "" {
      DottedOne(p[1..]);
      assert [p[0]] + p[1..] == p && [p[1..]][1..] == [];
    }
  }

  /** Splitting undoes joining. */
  lemma {:induction false} DottedUndotted(ps: seq<string>)
    requires ps != [] && DotFree(ps)
    ensures Dotted(Undotted(ps)) == ps
  {
    if |ps| == 1 {
      DottedOne(ps[0]);
    } else {
      assert forall i :: 0 <= i < |ps[1..]| ==> ps[1..][i] == ps[i + 1];
      DottedUndotted(ps[1..]);
      DottedStep(ps[0], Undotted(ps[1..]));
      assert [ps[0]] + ps[1..] == ps;
    }
  }

  /** Where the first part without a number stands. */
  function FirstNaN(ps: seq<Option<int>>): (k: nat)
    requires !AllNumbers(ps)
    ensures k < |ps| && ps[k].None? && AllNumbers(ps[..k])
  {
    if ps[0].None? then 0
    else
      assert !AllNumbers(ps[1..]) by { if AllNumbers(ps[1..]) { AllNumbersCons(ps); } }
      var k := FirstNaN(ps[1..]);
      assert forall i :: 0 <= i < 1 + k ==> ps[i].Some? by {
        assert forall i :: 0 < i < 1 + k ==> ps[i] == ps[1..][..k][i - 1];
      }
      1 + k
  }

  lemma AllNumbersCons(ps: seq<Option<int>>)
    requires ps != [] && ps[0].Some? && AllNumbers(ps[1..])
    ensures AllNumbers(ps)
  {
    forall i | 0 <= i < |ps| ensures ps[i].Some? {
      if i > 0 { assert ps[i] == ps[1..][i - 1]; }
    }
  }

  /** Equal parts in front decide nothing. */
  lemma {:induction false} CompareBehind(pre: seq<Option<int>>, a: seq<Option<int>>, b: seq<Option<int>>)
    requires AllNumbers(pre) && a != [] && b != []
    ensures Compare(pre + a, pre + b) == Compare(a, b)
  {
    if pre == [] {
      assert pre + a == a && pre + b == b;
    } else {
      CompareBehind(pre[1..], a, b);
      assert (pre + a)[0] == pre[0] == (pre + b)[0];
      assert (pre + a)[1..] == pre[1..] + a && (pre + b)[1..] == pre[1..] + b;
    }
  }

  /** The parts of `t` before the first that is no number, and one number behind them. */
  function Sibling(t: string, n: nat): string
    requires !IsVersion(t)
  {
    Undotted(Dotted(t)[..FirstNaN(Parts(t))] + [Decimal(n)])
  }

  lemma SiblingParts(t: string, n: nat)
    requires !IsVersion(t)
    ensures Parts(Sibling(t, n)) == Parts(t)[..FirstNaN(Parts(t))] + [Some(n)] && IsVersion(Sibling(t, n))
  {
    hide Dotted, ParseInt, Undotted, Decimal;
    var k := FirstNaN(Parts(t));
    var ps := Dotted(t)[..k] + [Decimal(n)];
    DottedIsDotFree(t);
    DecimalParses(n);
    DottedUndotted(ps);
    assert Parts(Sibling(t, n)) == Numbers(ps) == Parts(t)[..k] + [Some(n)];
  }

  lemma DecimalParses(n: nat)
    ensures ParseInt(Decimal(n)) == Some(n) && '.' !in Decimal(n)
  {
    var d := Decimal(n);
    DecimalReads(n);
    DecimalNonEmpty(n);
    assert IsDigit(d[0]);
    assert TrimStart(d) == d;
    AllDigits(d);
    assert d[..|d|] == d;
  }

  lemma {:induction false} AllDigits(s: string)
    requires forall i :: 0 <= i < |s| ==> IsDigit(s[i])
    ensures Digits(s) == |s|
  {
    if s != "" { AllDigits(s[1..]); }
  }

  /** A title that is no version number ties with two versions that do not tie. */
  lemma TiesWithBoth(t: string)
    requires !IsVersion(t)
    ensures var one, two := Sibling(t, 1), Sibling(t, 2);
            && IsVersion(one) && IsVersion(two) && Precedes(two, one) && !Precedes(one, two)
            && !Precedes(t, one) && !Precedes(one, t) && !Precedes(t, two) && !Precedes(two, t)
  {
    hide Parts, Sibling;
    var ps := Parts(t);
    var k := FirstNaN(ps);
    SiblingParts(t, 1);
    SiblingParts(t, 2);
    assert ps == ps[..k] + ps[k..] && ps[k..][0].None?;
    CompareBehind(ps[..k], ps[k..], [Some(1)]);
    CompareBehind(ps[..k], [Some(1)], ps[k..]);
    CompareBehind(ps[..k], ps[k..], [Some(2)]);
    CompareBehind(ps[..k], [Some(2)], ps[k..]);
    CompareBehind(ps[..k], [Some(1)], [Some(2)]);
    CompareBehind(ps[..k], [Some(2)], [Some(1)]);
  }

  /** Beside the version numbers, the comparison orders a title if and only if it is one. */
  lemma OrderedIff(t: string)
    ensures WeakOrder(Precedes, s => IsVersion(s) || s == t) <==> IsVersion(t)
  {
    var among := s => IsVersion(s) || s == t;
    if IsVersion(t) {
      assert forall s :: among(s) <==> IsVersion(s);
      VersionsAreOrdered();
    }
    OrderedAmong(among);
  }

  /** The version numbers are the largest set of titles, among those that contain them, that it orders. */
  lemma OrderedAmong(among: string -> bool)
    requires forall s :: IsVersion(s) ==> among(s)
    ensures WeakOrder(Precedes, among) <==> forall s :: among(s) ==> IsVersion(s)
  {
    hide Precedes, IsVersion;
    if forall s :: among(s) ==> IsVersion(s) {
      VersionsAreOrdered();
      assert WeakOrder(Precedes, among);
    }
    if !forall t :: among(t) ==> IsVersion(t) {
      var t :| among(t) && !IsVersion(t);
      NoOrderWith(among, t);
    }
  }

  lemma NoOrderWith(among: string -> bool, t: string)
    requires (forall s :: IsVersion(s) ==> among(s)) && among(t) && !IsVersion(t)
    ensures !WeakOrder(Precedes, among)
  {
    hide Precedes, IsVersion, Sibling;
    TiesWithBoth(t);
    var one, two := Sibling(t, 1), Sibling(t, 2);
    assert among(one) && among(two) && !Precedes(t, one) && !Precedes(two, t) && Precedes(two, one);
  }

  /** The smallest case: `x` ties with `1` and with `2`. */
  lemma OtherTitlesAreNot()
    ensures !IsVersion("x") && Sibling("x", 1) == "1" && Sibling("x", 2) == "2"
    ensures Precedes("2", "1") && !Precedes("2", "x") && !Precedes("x", "1")
  {
    hide Precedes, Compare;
    DottedOne("x");
    assert ParseInt("x") == None by { assert TrimStart("x") == "x"; }
    assert Parts("x") == [None] && Parts("x")[0].None? && !IsVersion("x");
    assert Dotted("x")[..0] + [Decimal(1)] == [Decimal(1)] && Dotted("x")[..0] + [Decimal(2)] == [Decimal(2)];
    TiesWithBoth("x");
  }
}
