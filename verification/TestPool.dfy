/** The worker pool of `scripts/ci-test-ts.ts`. */
module TestPool {
  import opened Wrappers

  // A shared queue, bounded retries, collected failures.

  const MAX_ATTEMPTS: nat := 3

  /** Exit codes of a runtime that died of a fatal signal; SIGKILL (137) is not among them. */
  predicate IsCrash(code: int) {
    code in {132, 133, 134, 135, 136, 138, 139}
  }

  datatype Exit = Exit(code: int, timedOut: bool)

  predicate Retryable(e: Exit) {
    !e.timedOut && IsCrash(e.code)
  }

  predicate Failed(e: Exit) {
    e.code != 0 || e.timedOut
  }

  /** A finished command with the exits of all its attempts. */
  datatype Outcome = Outcome(command: nat, exits: seq<Exit>)

  datatype Worker = Ready | Running(command: nat, earlier: seq<Exit>) | Returned

  datatype State = State(
    queue: seq<nat>, workers: seq<Worker>, completed: nat, failures: seq<Outcome>, finished: seq<Outcome>)

  // ---------------------------------------------------------------- the steps

  datatype Event = Take(worker: nat) | Exits(worker: nat, exit: Exit)

  predicate Enabled(st: State, ev: Event) {
    ev.worker < |st.workers|
    && match ev
       case Take(w) => st.workers[w].Ready?
       case Exits(w, _) => st.workers[w].Running?
  }

  /** One step of one worker; any interleaving of the workers is a sequence of such steps. */
  function Apply(st: State, ev: Event): State
    requires Enabled(st, ev)
  {
    match ev
    case Take(w) =>
      if st.queue == [] then st.(workers := st.workers[w := Returned])
      else st.(queue := st.queue[1..], workers := st.workers[w := Running(st.queue[0], [])])
    case Exits(w, e) =>
      var run := st.workers[w];
      var exits := run.earlier + [e];
      if Retryable(e) && |exits| < MAX_ATTEMPTS then st.(workers := st.workers[w := Running(run.command, exits)])
      else
        var outcome := Outcome(run.command, exits);
        State(st.queue, st.workers[w := Ready], st.completed + 1,
              st.failures + (if Failed(e) then [outcome] else []), st.finished + [outcome])
  }

  predicate Possible(st: State, evs: seq<Event>)
    decreases |evs|
  {
    evs == [] || (Enabled(st, evs[0]) && Possible(Apply(st, evs[0]), evs[1..]))
  }

  function Run(st: State, evs: seq<Event>): State
    requires Possible(st, evs)
    decreases |evs|
  {
    if evs == [] then st else Run(Apply(st, evs[0]), evs[1..])
  }

  function Commands(n: nat): seq<nat> {
    seq(n, i requires 0 <= i < n => i)
  }

  function Start(total: nat, concurrency: nat): State {
    State(Commands(total), seq(concurrency, _ => Ready), 0, [], [])
  }

  // ---------------------------------------------------------------- what every interleaving keeps

  function CommandOf(w: Worker): multiset<nat> {
    if w.Running? then multiset{w.command} else multiset{}
  }

  function RunningCommands(ws: seq<Worker>): multiset<nat> {
    if ws == [] then multiset{} else RunningCommands(ws[..|ws| - 1]) + CommandOf(ws[|ws| - 1])
  }

  function FinishedCommands(os: seq<Outcome>): multiset<nat> {
    if os == [] then multiset{} else FinishedCommands(os[..|os| - 1]) + multiset{os[|os| - 1].command}
  }

  function OnlyFailed(os: seq<Outcome>): seq<Outcome> {
    if os == [] then []
    else
      var o := os[|os| - 1];
      OnlyFailed(os[..|os| - 1]) + if o.exits != [] && Failed(o.exits[|o.exits| - 1]) then [o] else []
  }

  /** One to three attempts; each one but the last ended in a crash that was no timeout. */
  predicate Attempts(exits: seq<Exit>) {
    1 <= |exits| <= MAX_ATTEMPTS && forall i :: 0 <= i < |exits| - 1 ==> Retryable(exits[i])
  }

  /** A finished command was not given up early: its last attempt needed no retry, or was the third. */
  predicate Settled(o: Outcome) {
    Attempts(o.exits) && (!Retryable(o.exits[|o.exits| - 1]) || |o.exits| == MAX_ATTEMPTS)
  }

  predicate Busy(w: Worker) {
    w.Running? ==> |w.earlier| < MAX_ATTEMPTS && forall i :: 0 <= i < |w.earlier| ==> Retryable(w.earlier[i])
  }

  ghost predicate Inv(total: nat, concurrency: nat, st: State) {
    |st.workers| == concurrency
    && multiset(st.queue) + RunningCommands(st.workers) + FinishedCommands(st.finished) == multiset(Commands(total))
    && (forall w :: 0 <= w < concurrency ==> Busy(st.workers[w]))
    && (forall k :: 0 <= k < |st.finished| ==> Settled(st.finished[k]))
    && st.completed == |st.finished| && st.failures == OnlyFailed(st.finished)
    && ((exists w :: 0 <= w < concurrency && st.workers[w].Returned?) ==> st.queue == [])
  }

  lemma {:induction false} RunningUpdate(ws: seq<Worker>, w: nat, v: Worker)
    requires w < |ws|
    ensures RunningCommands(ws[w := v]) + CommandOf(ws[w]) == RunningCommands(ws) + CommandOf(v)
    decreases |ws|
  {
    hide CommandOf;
    var n := |ws| - 1;
    if w < n {
      RunningUpdate(ws[..n], w, v);
      assert ws[w := v][..n] == ws[..n][w := v] && ws[w := v][n] == ws[n];
      var a, b, c := RunningCommands(ws[..n]), RunningCommands(ws[..n][w := v]), CommandOf(ws[n]);
      assert (b + c) + CommandOf(ws[w]) == (b + CommandOf(ws[w])) + c;
      assert (a + c) + CommandOf(v) == (a + CommandOf(v)) + c;
    } else {
      assert ws[w := v][..n] == ws[..n];
    }
  }

  lemma {:induction false} NoneRunning(ws: seq<Worker>)
    requires forall w :: 0 <= w < |ws| ==> !ws[w].Running?
    ensures RunningCommands(ws) == multiset{}
    decreases |ws|
  {
    if ws != [] { NoneRunning(ws[..|ws| - 1]); }
  }

  lemma StartInv(total: nat, concurrency: nat)
    ensures Inv(total, concurrency, Start(total, concurrency))
  {
    NoneRunning(Start(total, concurrency).workers);
  }

  lemma FinishOne(os: seq<Outcome>, o: Outcome)
    ensures FinishedCommands(os + [o]) == FinishedCommands(os) + multiset{o.command}
    ensures OnlyFailed(os + [o])
            == OnlyFailed(os) + if o.exits != [] && Failed(o.exits[|o.exits| - 1]) then [o] else []
  {
    assert (os + [o])[..|os|] == os;
  }

  lemma StepInv(total: nat, concurrency: nat, st: State, ev: Event)
    requires Inv(total, concurrency, st) && Enabled(st, ev)
    ensures Inv(total, concurrency, Apply(st, ev))
  {
    match ev
    case Take(w) => TakeInv(total, concurrency, st, w);
    case Exits(w, e) => ExitInv(total, concurrency, st, w, e);
  }

  lemma TakeInv(total: nat, concurrency: nat, st: State, w: nat)
    requires Inv(total, concurrency, st) && Enabled(st, Take(w))
    ensures Inv(total, concurrency, Apply(st, Take(w)))
  {
    hide RunningCommands, FinishedCommands, OnlyFailed, IsCrash, Settled;
    var next := Apply(st, Take(w));
    RunningUpdate(st.workers, w, next.workers[w]);
    if st.queue != [] {
      var head, rest := st.queue[0], st.queue[1..];
      assert st.queue == [head] + rest;
      assert RunningCommands(next.workers) == RunningCommands(st.workers) + multiset{head};
      assert forall v :: 0 <= v < concurrency ==> !next.workers[v].Returned?;
    }
  }

  lemma ExitInv(total: nat, concurrency: nat, st: State, w: nat, e: Exit)
    requires Inv(total, concurrency, st) && Enabled(st, Exits(w, e))
    ensures Inv(total, concurrency, Apply(st, Exits(w, e)))
  {
    hide Inv, Apply;
    if Retryable(e) && |st.workers[w].earlier| + 1 < MAX_ATTEMPTS {
      RetryInv(total, concurrency, st, w, e);
    } else {
      RecordInv(total, concurrency, st, w, e);
    }
  }

  lemma RetryInv(total: nat, concurrency: nat, st: State, w: nat, e: Exit)
    requires Inv(total, concurrency, st) && Enabled(st, Exits(w, e))
    requires Retryable(e) && |st.workers[w].earlier| + 1 < MAX_ATTEMPTS
    ensures Inv(total, concurrency, Apply(st, Exits(w, e)))
  {
    hide RunningCommands, FinishedCommands, OnlyFailed, IsCrash, Failed, Retryable, Settled;
    var was := st.workers[w];
    var exits := was.earlier + [e];
    var again := Running(was.command, exits);
    var next := Apply(st, Exits(w, e));
    assert next == st.(workers := st.workers[w := again]);
    RunningUpdate(st.workers, w, again);
    Cancel(RunningCommands(next.workers), RunningCommands(st.workers), CommandOf(was));
    assert Busy(was);
    assert Busy(again);
    forall v | 0 <= v < concurrency ensures Busy(next.workers[v]) && next.workers[v].Returned? == st.workers[v].Returned? {
      if v != w { assert next.workers[v] == st.workers[v]; }
    }
  }

  lemma RecordInv(total: nat, concurrency: nat, st: State, w: nat, e: Exit)
    requires Inv(total, concurrency, st) && Enabled(st, Exits(w, e))
    requires !Retryable(e) || |st.workers[w].earlier| + 1 >= MAX_ATTEMPTS
    ensures Inv(total, concurrency, Apply(st, Exits(w, e)))
  {
    hide RunningCommands, FinishedCommands, OnlyFailed, IsCrash, Failed, Retryable;
    var was := st.workers[w];
    var exits := was.earlier + [e];
    var outcome := Outcome(was.command, exits);
    var next := Apply(st, Exits(w, e));
    assert exits[|exits| - 1] == e;
    assert next.workers == st.workers[w := Ready] && next.finished == st.finished + [outcome] && next.queue == st.queue;
    RunningUpdate(st.workers, w, Ready);
    FinishOne(st.finished, outcome);
    var q, r, f, c := multiset(st.queue), RunningCommands(next.workers), FinishedCommands(st.finished), multiset{was.command};
    assert q + r + (f + c) == q + (r + c) + f;
    assert Busy(was);
    AttemptsEnd(was, e);
    forall v | 0 <= v < concurrency
      ensures Busy(next.workers[v]) && (next.workers[v].Returned? ==> st.workers[v].Returned?)
    {
      if v != w { assert next.workers[v] == st.workers[v]; }
    }
    forall k | 0 <= k < |next.finished| ensures Settled(next.finished[k]) {
      if k < |st.finished| { assert next.finished[k] == st.finished[k]; }
    }
  }

  lemma AttemptsEnd(was: Worker, e: Exit)
    requires was.Running? && Busy(was) && (!Retryable(e) || |was.earlier| + 1 >= MAX_ATTEMPTS)
    ensures Settled(Outcome(was.command, was.earlier + [e]))
  {
    hide Retryable;
    var exits := was.earlier + [e];
    assert forall i :: 0 <= i < |exits| - 1 ==> exits[i] == was.earlier[i];
  }

  lemma Cancel(a: multiset<nat>, b: multiset<nat>, c: multiset<nat>)
    requires a + c == b + c
    ensures a == b
  {
    forall k ensures a[k] == b[k] {
      assert (a + c)[k] == (b + c)[k];
    }
  }

  /** The invariant holds in every state any interleaving reaches. */
  lemma {:induction false} RunInv(total: nat, concurrency: nat, st: State, evs: seq<Event>)
    requires Inv(total, concurrency, st) && Possible(st, evs)
    ensures Inv(total, concurrency, Run(st, evs))
    decreases |evs|
  {
    hide Inv;
    if evs != [] {
      StepInv(total, concurrency, st, evs[0]);
      RunInv(total, concurrency, Apply(st, evs[0]), evs[1..]);
    }
  }

  // ---------------------------------------------------------------- termination

  function Weight(w: Worker): nat {
    match w
    case Ready => 1
    case Running(_, earlier) => if |earlier| < MAX_ATTEMPTS then 2 + MAX_ATTEMPTS - |earlier| else 2
    case Returned => 0
  }

  function Weights(ws: seq<Worker>): nat {
    if ws == [] then 0 else Weights(ws[..|ws| - 1]) + Weight(ws[|ws| - 1])
  }

  function Work(st: State): nat {
    6 * |st.queue| + Weights(st.workers)
  }

  lemma {:induction false} WeightsUpdate(ws: seq<Worker>, w: nat, v: Worker)
    requires w < |ws|
    ensures Weights(ws[w := v]) + Weight(ws[w]) == Weights(ws) + Weight(v)
    decreases |ws|
  {
    var n := |ws| - 1;
    if w < n {
      WeightsUpdate(ws[..n], w, v);
      assert ws[w := v][..n] == ws[..n][w := v];
    } else {
      assert ws[w := v][..n] == ws[..n];
    }
  }

  /** Every step uses up work, so every run ends. */
  lemma StepWorks(total: nat, concurrency: nat, st: State, ev: Event)
    requires Inv(total, concurrency, st) && Enabled(st, ev)
    ensures Work(Apply(st, ev)) < Work(st)
  {
    hide Weights, RunningCommands, FinishedCommands, OnlyFailed, IsCrash;
    WeightsUpdate(st.workers, ev.worker, Apply(st, ev).workers[ev.worker]);
    assert Busy(st.workers[ev.worker]);
  }

  lemma {:induction false} RunsEnd(total: nat, concurrency: nat, st: State, evs: seq<Event>)
    requires Inv(total, concurrency, st) && Possible(st, evs)
    ensures |evs| <= Work(st)
    decreases |evs|
  {
    hide Inv, Work;
    if evs != [] {
      StepInv(total, concurrency, st, evs[0]);
      StepWorks(total, concurrency, st, evs[0]);
      RunsEnd(total, concurrency, Apply(st, evs[0]), evs[1..]);
    }
  }

  predicate Over(st: State) {
    forall w :: 0 <= w < |st.workers| ==> st.workers[w].Returned?
  }

  /** No interleaving gets stuck: until all workers have returned, each of the others can step. */
  lemma NeverStuck(st: State, exit: Exit)
    requires !Over(st)
    ensures exists ev :: Enabled(st, ev)
  {
    var w :| 0 <= w < |st.workers| && !st.workers[w].Returned?;
    if st.workers[w].Ready? {
      assert Enabled(st, Take(w));
    } else {
      assert Enabled(st, Exits(w, exit));
    }
  }

  // ---------------------------------------------------------------- the result

  /** At the end every command has exactly one outcome, and `failures` holds exactly the failed ones. */
  lemma Complete(total: nat, concurrency: nat, evs: seq<Event>)
    requires concurrency >= 1 && Possible(Start(total, concurrency), evs)
    requires Over(Run(Start(total, concurrency), evs))
    ensures var st := Run(Start(total, concurrency), evs);
            FinishedCommands(st.finished) == multiset(Commands(total))
            && st.completed == total && |st.finished| == total
            && (forall k :: 0 <= k < total ==> Settled(st.finished[k]))
            && st.failures == OnlyFailed(st.finished)
  {
    hide OnlyFailed, Settled;
    StartInv(total, concurrency);
    RunInv(total, concurrency, Start(total, concurrency), evs);
    var st := Run(Start(total, concurrency), evs);
    NoneRunning(st.workers);
    assert st.workers[0].Returned?;
    FinishedSize(st.finished);
  }

  lemma {:induction false} FinishedSize(os: seq<Outcome>)
    ensures |FinishedCommands(os)| == |os|
    decreases |os|
  {
    if os != [] { FinishedSize(os[..|os| - 1]); }
  }

  // ---------------------------------------------------------------- the shared file budget

  const FILE_OVERSUBSCRIBE: nat := 2

  function Max(a: int, b: int): int {
    if a >= b then a else b
  }

  function Min(a: int, b: int): int {
    if a <= b then a else b
  }

  function Budget(cores: int): int {
    Max(1, cores) * FILE_OVERSUBSCRIBE
  }

  function BudgetedParallel(requested: int, poolWidth: int, cores: int): int
    requires poolWidth >= 1
  {
    Max(1, Min(requested, Budget(cores) / poolWidth))
  }

  /** Equal shares never exceed the budget, unless one file per process already does. */
  lemma SharesFit(requested: int, poolWidth: int, cores: int)
    requires poolWidth >= 1
    ensures var granted := BudgetedParallel(requested, poolWidth, cores);
            1 <= granted && poolWidth * granted <= Max(poolWidth, Budget(cores))
            && (granted <= requested || granted == 1)
            && (granted < requested ==> poolWidth * (granted + 1) > Budget(cores))
  {
    var share := Budget(cores) / poolWidth;
    assert poolWidth * share <= Budget(cores) < poolWidth * (share + 1);
    var granted := BudgetedParallel(requested, poolWidth, cores);
    if granted > 1 {
      assert granted <= share;
      Monotone(poolWidth, granted, share);
    }
    if granted < requested {
      assert granted >= share;
      Monotone(poolWidth, share + 1, granted + 1);
    }
  }

  lemma Monotone(w: int, a: int, b: int)
    requires w >= 0 && a <= b
    ensures w * a <= w * b
  {
  }

  /** `parallel` is the width a command asks for; `None` for one that is no `bun test` run. */
  datatype TestCommand = TestCommand(name: string, parallel: Option<int>)
  function ApplyChunkBudget(commands: seq<TestCommand>, poolWidth: int, cores: int): seq<TestCommand>
    requires poolWidth >= 1
  {
    seq(|commands|, i requires 0 <= i < |commands| =>
      if commands[i].parallel.None? then commands[i]
      else commands[i].(parallel := Some(BudgetedParallel(commands[i].parallel.value, poolWidth, cores))))
  }

  /** Test files the running commands work on at once. */
  function FilesInFlight(ws: seq<Worker>, commands: seq<TestCommand>): int {
    if ws == [] then 0
    else
      var n := |ws| - 1;
      FilesInFlight(ws[..n], commands)
      + if ws[n].Running? && ws[n].command < |commands| && commands[ws[n].command].parallel.Some?
        then commands[ws[n].command].parallel.value else 0
  }

  /** Whatever the pool is doing, the files in flight stay within the budget. */
  lemma {:induction false} FilesFit(ws: seq<Worker>, commands: seq<TestCommand>, poolWidth: int, cores: int)
    requires poolWidth >= 1 && |ws| <= poolWidth
    ensures FilesInFlight(ws, ApplyChunkBudget(commands, poolWidth, cores)) <= Max(poolWidth, Budget(cores))
  {
    hide FilesInFlight, ApplyChunkBudget, Budget;
    var share := Max(1, Budget(cores) / poolWidth);
    FilesByShare(ws, commands, poolWidth, cores, share);
    Monotone(share, |ws|, poolWidth);
    ShareFits(poolWidth, Budget(cores));
  }

  lemma ShareFits(poolWidth: int, budget: int)
    requires poolWidth >= 1
    ensures Max(1, budget / poolWidth) * poolWidth <= Max(poolWidth, budget)
  {
    assert poolWidth * (budget / poolWidth) <= budget;
  }

  lemma {:induction false} FilesByShare(
      ws: seq<Worker>, commands: seq<TestCommand>, poolWidth: int, cores: int, share: int)
    requires poolWidth >= 1 && share == Max(1, Budget(cores) / poolWidth)
    ensures FilesInFlight(ws, ApplyChunkBudget(commands, poolWidth, cores)) <= share * |ws|
    decreases |ws|
  {
    hide Budget;
    if ws != [] {
      var n := |ws| - 1;
      FilesByShare(ws[..n], commands, poolWidth, cores, share);
      assert share * (n + 1) == share * n + share;
    }
  }

  // ---------------------------------------------------------------- the imperative pool

  /** The closure's variables; each method is what a worker does between two awaits. */
  class Pool {
    var queue: seq<nat>
    var completed: nat
    var failures: seq<Outcome>
    var workers: seq<Worker>
    ghost var finished: seq<Outcome>

    ghost function Abs(): State
      reads this
    {
      State(queue, workers, completed, failures, finished)
    }

    constructor (total: nat, concurrency: nat)
      ensures Abs() == Start(total, concurrency)
    {
      queue, completed, failures, finished := Commands(total), 0, [], [];
      workers := seq(concurrency, _ => Ready);
    }

    /** `queue.shift()`, and the first attempt of the command it gives. */
    method TakeNext(w: nat)
      requires Enabled(Abs(), Take(w))
      modifies this
      ensures Abs() == Apply(old(Abs()), Take(w))
    {
      if queue == [] {
        workers := workers[w := Returned];
      } else {
        var command := queue[0];
        queue := queue[1..];
        workers := workers[w := Running(command, [])];
      }
    }

    /** An attempt has ended: retry after a crash, or record the outcome. */
    method AttemptExits(w: nat, exit: Exit)
      requires Enabled(Abs(), Exits(w, exit))
      modifies this
      ensures Abs() == Apply(old(Abs()), Exits(w, exit))
    {
      var run := workers[w];
      var attempt := |run.earlier| + 1;
      if !exit.timedOut && IsCrash(exit.code) && attempt < MAX_ATTEMPTS {
        workers := workers[w := Running(run.command, run.earlier + [exit])];
      } else {
        completed := completed + 1;
        var outcome := Outcome(run.command, run.earlier + [exit]);
        if exit.code != 0 || exit.timedOut {
          failures := failures + [outcome];
        }
        finished := finished + [outcome];
        workers := workers[w := Ready];
      }
    }
  }
}
