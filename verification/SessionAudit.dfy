/** Result accounting of `audit.ts`. */
module SessionAudit {
  import opened Wrappers

  // Of `scripts/session-stats/audit.ts`: the largest results and context residency.

  const LARGE: nat := 2000
  const KEEP: nat := 12
  const PRUNE: nat := 24

  datatype Top = Top(tool: string, summary: string, toks: nat)

  // ---------------------------------------------------------------- a stable descending sort

  /** `x` goes behind everything at least as large. */
  function Insert(s: seq<Top>, x: Top): seq<Top> {
    if s == [] || s[0].toks < x.toks then [x] + s else [s[0]] + Insert(s[1..], x)
  }

  function Sorted(xs: seq<Top>): seq<Top> {
    if xs == [] then [] else Insert(Sorted(xs[..|xs| - 1]), xs[|xs| - 1])
  }

  predicate Falling(s: seq<Top>) {
    forall i, j :: 0 <= i < j < |s| ==> s[i].toks >= s[j].toks
  }

  /** The elements of one size, in order. */
  function OfSize(s: seq<Top>, t: nat): seq<Top> {
    if s == [] then []
    else
      var rest := OfSize(s[1..], t);
      if s[0].toks == t then [s[0]] + rest else rest
  }

  lemma {:induction false} InsertFalls(s: seq<Top>, x: Top)
    requires Falling(s)
    ensures Falling(Insert(s, x))
    ensures forall y :: y in Insert(s, x) ==> y in s || y == x
  {
    if s != [] && s[0].toks >= x.toks {
      var rest := Insert(s[1..], x);
      assert Falling(s[1..]);
      InsertFalls(s[1..], x);
      forall y | y in s[1..] ensures y in s && y.toks <= s[0].toks {
        var k :| 0 <= k < |s| - 1 && s[1..][k] == y;
        assert s[k + 1] == y;
      }
      FrontFalls(s[0], rest);
    }
  }

  lemma FrontFalls(x: Top, s: seq<Top>)
    requires Falling(s) && forall y :: y in s ==> y.toks <= x.toks
    ensures Falling([x] + s)
  {
  }

  lemma {:induction false} InsertIsPermutation(s: seq<Top>, x: Top)
    ensures multiset(Insert(s, x)) == multiset(s) + multiset{x}
  {
    if s != [] && s[0].toks >= x.toks {
      InsertIsPermutation(s[1..], x);
      assert s == [s[0]] + s[1..];
    }
  }

  lemma {:induction false} InsertOfSize(s: seq<Top>, x: Top, t: nat)
    requires Falling(s)
    ensures OfSize(Insert(s, x), t) == OfSize(s, t) + if x.toks == t then [x] else []
  {
    if s == [] {
      assert [x] + s == [x] && [x][1..] == [];
    } else if s[0].toks < x.toks {
      assert ([x] + s)[1..] == s;
      if x.toks == t { NoneOfSize(s, t); }
    } else {
      InsertOfSize(s[1..], x, t);
      var rest := Insert(s[1..], x);
      assert ([s[0]] + rest)[1..] == rest;
    }
  }

  lemma {:induction false} NoneOfSize(s: seq<Top>, t: nat)
    requires forall i :: 0 <= i < |s| ==> s[i].toks < t
    ensures OfSize(s, t) == []
  {
    if s != [] { NoneOfSize(s[1..], t); }
  }

  lemma {:induction false} OfSizeAppend(s: seq<Top>, x: Top, t: nat)
    ensures OfSize(s + [x], t) == OfSize(s, t) + if x.toks == t then [x] else []
  {
    if s == [] {
      assert s + [x] == [x] && [x][1..] == [];
    } else {
      OfSizeAppend(s[1..], x, t);
      assert (s + [x])[1..] == s[1..] + [x];
    }
  }

  /** The sort is the stable descending one: falling, a permutation, equal sizes in their order. */
  lemma {:induction false} SortIsStable(xs: seq<Top>, t: nat)
    ensures Falling(Sorted(xs)) && multiset(Sorted(xs)) == multiset(xs)
    ensures OfSize(Sorted(xs), t) == OfSize(xs, t)
    decreases |xs|
  {
    if xs != [] {
      var n := |xs| - 1;
      SortIsStable(xs[..n], t);
      hide Insert, OfSize, Falling;
      InsertFalls(Sorted(xs[..n]), xs[n]);
      InsertIsPermutation(Sorted(xs[..n]), xs[n]);
      InsertOfSize(Sorted(xs[..n]), xs[n], t);
      OfSizeAppend(xs[..n], xs[n], t);
      assert xs == xs[..n] + [xs[n]];
    }
  }

  // ---------------------------------------------------------------- pruning

  function First(s: seq<Top>, k: nat): seq<Top> {
    if |s| <= k then s else s[..k]
  }

  lemma FirstCons(h: Top, t: seq<Top>, k: nat)
    requires k > 0
    ensures First([h] + t, k) == [h] + First(t, k - 1)
  {
    if |t| > k - 1 { assert ([h] + t)[..k] == [h] + t[..k - 1]; }
  }

  lemma FirstTwice(s: seq<Top>, j: nat, k: nat)
    requires j <= k
    ensures First(First(s, k), j) == First(s, j)
  {
    if |s| > k { assert s[..k][..j] == s[..j]; }
  }

  /** Inserting into a truncated list gives the same front as inserting into the whole one. */
  lemma {:induction false} InsertFirst(s: seq<Top>, x: Top, k: nat)
    ensures First(Insert(First(s, k), x), k) == First(Insert(s, x), k)
    decreases |s|
  {
    if |s| > k > 0 {
      var h, t := s[0], s[1..];
      assert s == [h] + t;
      FirstCons(h, t, k);
      var cut := First(s, k);
      assert cut[0] == h && cut[1..] == First(t, k - 1);
      if h.toks < x.toks {
        FirstCons(x, s, k);
        FirstCons(x, cut, k);
        FirstTwice(s, k - 1, k);
      } else {
        InsertFirst(t, x, k - 1);
        FirstCons(h, Insert(t, x), k);
        FirstCons(h, Insert(First(t, k - 1), x), k);
      }
    }
  }

  lemma {:induction false} SortOfFalling(s: seq<Top>)
    requires Falling(s)
    ensures Sorted(s) == s
    decreases |s|
  {
    if s != [] {
      var n := |s| - 1;
      SortOfFalling(s[..n]);
      InsertLast(s[..n], s[n]);
      assert s == s[..n] + [s[n]];
    }
  }

  lemma {:induction false} InsertLast(s: seq<Top>, x: Top)
    requires forall i :: 0 <= i < |s| ==> s[i].toks >= x.toks
    ensures Insert(s, x) == s + [x]
  {
    if s != [] {
      InsertLast(s[1..], x);
      assert s == [s[0]] + s[1..];
    }
  }

  /** The front of `top` sorted is the front of all large results sorted. */
  predicate Fronts(top: seq<Top>, all: seq<Top>) {
    First(Sorted(top), KEEP) == First(Sorted(all), KEEP)
  }

  lemma PushKeeps(top: seq<Top>, all: seq<Top>, x: Top)
    requires Fronts(top, all)
    ensures Fronts(top + [x], all + [x])
  {
    assert (top + [x])[..|top|] == top && (all + [x])[..|all|] == all;
    InsertFirst(Sorted(top), x, KEEP);
    InsertFirst(Sorted(all), x, KEEP);
  }

  lemma PruneKeeps(top: seq<Top>, all: seq<Top>)
    requires Fronts(top, all)
    ensures Fronts(First(Sorted(top), KEEP), all)
  {
    SortIsStable(top, 0);
    SortOfFalling(First(Sorted(top), KEEP));
  }

  // ---------------------------------------------------------------- the session log

  /** A tool call; `path` is the normalised path of a read. */
  datatype Call = Call(id: string, tool: string, path: Option<string>)

  /** An assistant message with its calls, or a tool result. */
  datatype Event = Request(calls: seq<Call>) | Result(callId: string, toolName: string, summary: string, toks: nat)

  datatype PendingCall = PendingCall(tool: string, path: Option<string>, requestIndex: nat)

  /** A logged result: the request it is charged from, and how many requests had been made on arrival. */
  datatype Logged = Logged(tool: string, path: Option<string>, toks: nat, requestIndex: nat, arrival: nat)

  datatype Scan = Scan(requests: nat, pending: map<string, PendingCall>, log: seq<Logged>, large: seq<Top>)

  function AddCalls(pending: map<string, PendingCall>, calls: seq<Call>, request: nat): map<string, PendingCall>
    decreases |calls|
  {
    if calls == [] then pending
    else
      AddCalls(pending[calls[0].id := PendingCall(calls[0].tool, calls[0].path, request)], calls[1..], request)
  }

  function Step(s: Scan, e: Event): Scan {
    match e
    case Request(calls) => s.(requests := s.requests + 1, pending := AddCalls(s.pending, calls, s.requests + 1))
    case Result(id, toolName, summary, toks) =>
      var known := id in s.pending;
      var tool := if known then s.pending[id].tool else toolName;
      var entry := Logged(tool, if known then s.pending[id].path else None, toks,
                          if known then s.pending[id].requestIndex else s.requests, s.requests);
      Scan(s.requests, s.pending - {id}, s.log + [entry],
           s.large + if toks > LARGE then [Top(tool, summary, toks)] else [])
  }

  function ScanOf(events: seq<Event>): Scan {
    if events == [] then Scan(0, map[], [], []) else Step(ScanOf(events[..|events| - 1]), events[|events| - 1])
  }

  // ---------------------------------------------------------------- residency

  function Later(requests: nat, index: nat): nat {
    if requests >= index then requests - index else 0
  }

  datatype Group = ByTool(tool: string) | ByPath(path: string)

  predicate Belongs(l: Logged, g: Group) {
    match g
    case ByTool(tool) => l.tool == tool
    case ByPath(path) => l.path == Some(path)
  }

  /** What the audit adds up. */
  function Residency(log: seq<Logged>, requests: nat, g: Group): nat {
    if log == [] then 0
    else
      var l := log[|log| - 1];
      Residency(log[..|log| - 1], requests, g) + if Belongs(l, g) then l.toks * Later(requests, l.requestIndex) else 0
  }

  /** Result tokens in the context of request `k`, when a result counts from the request after its call. */
  function Context(log: seq<Logged>, k: nat, g: Group): nat {
    if log == [] then 0
    else
      var l := log[|log| - 1];
      Context(log[..|log| - 1], k, g) + if Belongs(l, g) && l.requestIndex < k then l.toks else 0
  }

  function ContextSum(log: seq<Logged>, requests: nat, g: Group): nat {
    if requests == 0 then 0 else ContextSum(log, requests - 1, g) + Context(log, requests, g)
  }

  lemma {:induction false} OneMoreRequest(log: seq<Logged>, requests: nat, g: Group)
    ensures Residency(log, requests + 1, g) == Residency(log, requests, g) + Context(log, requests + 1, g)
    decreases |log|
  {
    if log != [] {
      var l := log[|log| - 1];
      OneMoreRequest(log[..|log| - 1], requests, g);
      if l.requestIndex < requests + 1 {
        assert l.toks * (Later(requests, l.requestIndex) + 1) == l.toks * Later(requests, l.requestIndex) + l.toks;
      }
    }
  }

  /** Residency is the sum, over the requests, of the result tokens then in context. */
  lemma {:induction false} ResidencyIsContext(log: seq<Logged>, requests: nat, g: Group)
    ensures Residency(log, requests, g) == ContextSum(log, requests, g)
  {
    if requests == 0 {
      NoRequests(log, g);
    } else {
      ResidencyIsContext(log, requests - 1, g);
      OneMoreRequest(log, requests - 1, g);
    }
  }

  lemma {:induction false} NoRequests(log: seq<Logged>, g: Group)
    ensures Residency(log, 0, g) == 0
    decreases |log|
  {
    if log != [] { NoRequests(log[..|log| - 1], g); }
  }

  /** The log with every result charged from its arrival instead of its call. */
  function FromArrival(log: seq<Logged>): seq<Logged> {
    seq(|log|, i requires 0 <= i < |log| => log[i].(requestIndex := log[i].arrival))
  }

  predicate Timely(log: seq<Logged>, g: Group) {
    forall i :: 0 <= i < |log| && Belongs(log[i], g) && log[i].toks > 0 ==> log[i].requestIndex == log[i].arrival
  }

  predicate Ordered(log: seq<Logged>, requests: nat) {
    forall i :: 0 <= i < |log| ==> log[i].requestIndex <= log[i].arrival <= requests
  }

  /**
   * Charging from the call never undercounts what the requests really carried, and is exact just when
   * no non-empty result arrived after a later request had already been made.
   */
  lemma {:induction false} ChargedFromCall(log: seq<Logged>, requests: nat, g: Group)
    requires Ordered(log, requests)
    ensures Residency(FromArrival(log), requests, g) <= Residency(log, requests, g)
    ensures Residency(FromArrival(log), requests, g) == Residency(log, requests, g) <==> Timely(log, g)
    decreases |log|
  {
    if log != [] {
      var n := |log| - 1;
      var l := log[n];
      ChargedFromCall(log[..n], requests, g);
      assert FromArrival(log)[..n] == FromArrival(log[..n]);
      Charge(l.toks, requests - l.arrival, requests - l.requestIndex);
      assert Timely(log, g) <==> Timely(log[..n], g) && (Belongs(l, g) && l.toks > 0 ==> l.requestIndex == l.arrival);
    }
  }

  lemma Charge(toks: nat, a: nat, b: nat)
    requires a <= b
    ensures toks * a <= toks * b
    ensures toks * a == toks * b <==> toks == 0 || a == b
  {
    assert toks * b == toks * a + toks * (b - a);
    if toks > 0 && a < b { assert toks * (b - a) >= 1; }
  }

  predicate PendingBelow(pending: map<string, PendingCall>, n: nat) {
    forall id :: id in pending ==> pending[id].requestIndex <= n
  }

  lemma {:induction false} AddCallsBelow(pending: map<string, PendingCall>, calls: seq<Call>, n: nat)
    requires PendingBelow(pending, n)
    ensures PendingBelow(AddCalls(pending, calls, n), n)
    decreases |calls|
  {
    if calls != [] {
      AddCallsBelow(pending[calls[0].id := PendingCall(calls[0].tool, calls[0].path, n)], calls[1..], n);
    }
  }

  /** No result is charged from a request after its arrival, so the audit's `max(0, …)` never cuts. */
  lemma {:induction false} ScanIsOrdered(events: seq<Event>)
    ensures var s := ScanOf(events);
            Ordered(s.log, s.requests) && PendingBelow(s.pending, s.requests)
    decreases |events|
  {
    if events != [] {
      var n := |events| - 1;
      ScanIsOrdered(events[..n]);
      var s := ScanOf(events[..n]);
      if events[n].Request? {
        AddCallsBelow(s.pending, events[n].calls, s.requests + 1);
      }
    }
  }

  /** Every total is what the requests carried, and overcounts what they carried since the arrivals
      unless all its results came in time. */
  ghost predicate Charged(s: Scan) {
    forall g :: Residency(s.log, s.requests, g) == ContextSum(s.log, s.requests, g)
                && Residency(FromArrival(s.log), s.requests, g) <= Residency(s.log, s.requests, g)
                && (Residency(FromArrival(s.log), s.requests, g) == Residency(s.log, s.requests, g) <==> Timely(s.log, g))
  }

  lemma ScanIsCharged(events: seq<Event>)
    ensures Ordered(ScanOf(events).log, ScanOf(events).requests) && Charged(ScanOf(events))
  {
    var s := ScanOf(events);
    ScanIsOrdered(events);
    forall g
      ensures Residency(s.log, s.requests, g) == ContextSum(s.log, s.requests, g)
      ensures Residency(FromArrival(s.log), s.requests, g) <= Residency(s.log, s.requests, g)
      ensures Residency(FromArrival(s.log), s.requests, g) == Residency(s.log, s.requests, g) <==> Timely(s.log, g)
    {
      ResidencyIsContext(s.log, s.requests, g);
      ChargedFromCall(s.log, s.requests, g);
    }
  }

  // ---------------------------------------------------------------- the scan

  function Count(m: map<string, nat>, k: string): nat {
    if k in m then m[k] else 0
  }

  method ScanFile(events: seq<Event>)
    returns (top: seq<Top>, byTool: map<string, nat>, byPath: map<string, nat>)
    ensures var s := ScanOf(events);
            top == First(Sorted(s.large), KEEP)
            && (forall t :: Count(byTool, t) == Residency(s.log, s.requests, ByTool(t)))
            && (forall p :: Count(byPath, p) == Residency(s.log, s.requests, ByPath(p)))
            && Ordered(s.log, s.requests) && Charged(s)
  {
    hide Sorted, Residency, Charged, Ordered;
    var requestCount: nat := 0;
    var pending: map<string, PendingCall> := map[];
    var log: seq<Logged> := [];
    top := [];
    ghost var s := ScanOf([]);
    var n := 0;
    assert events[..0] == [];
    while n < |events|
      invariant 0 <= n <= |events| && s == ScanOf(events[..n])
      invariant requestCount == s.requests && pending == s.pending && log == s.log
      invariant |top| <= PRUNE && Fronts(top, s.large)
    {
      assert events[..n + 1][..n] == events[..n];
      var e := events[n];
      ghost var was := s;
      s := Step(s, e);
      match e {
        case Request(calls) =>
          requestCount := requestCount + 1;
          pending := AddCalls(pending, calls, requestCount);
        case Result(id, toolName, summary, toks) =>
          var known := id in pending;
          var tool := if known then pending[id].tool else toolName;
          log := log + [Logged(tool, if known then pending[id].path else None, toks,
                               if known then pending[id].requestIndex else requestCount, requestCount)];
          if toks > LARGE {
            PushKeeps(top, was.large, Top(tool, summary, toks));
            top := top + [Top(tool, summary, toks)];
            if |top| > PRUNE {
              PruneKeeps(top, s.large);
              top := First(Sorted(top), KEEP);
            }
          } else {
            assert was.large + [] == was.large;
          }
          pending := pending - {id};
      }
      n := n + 1;
    }
    assert events[..n] == events;
    ScanIsCharged(events);
    byTool, byPath := AddResidency(log, requestCount);
    top := First(Sorted(top), KEEP);
  }

  method AddResidency(log: seq<Logged>, requestCount: nat) returns (byTool: map<string, nat>, byPath: map<string, nat>)
    ensures forall t :: Count(byTool, t) == Residency(log, requestCount, ByTool(t))
    ensures forall p :: Count(byPath, p) == Residency(log, requestCount, ByPath(p))
  {
    byTool, byPath := map[], map[];
    var n := 0;
    while n < |log|
      invariant 0 <= n <= |log|
      invariant forall t :: Count(byTool, t) == Residency(log[..n], requestCount, ByTool(t))
      invariant forall p :: Count(byPath, p) == Residency(log[..n], requestCount, ByPath(p))
    {
      var l := log[n];
      assert log[..n + 1][..n] == log[..n];
      var more := l.toks * Later(requestCount, l.requestIndex);
      byTool := byTool[l.tool := Count(byTool, l.tool) + more];
      if l.path.Some? {
        byPath := byPath[l.path.value := Count(byPath, l.path.value) + more];
      }
      n := n + 1;
    }
    assert log[..n] == log;
  }
}
