/**
  Retrying a graph run: with a checkpointer, every attempt after the first
  resumes, and no completed task is executed again; without one, every attempt
  starts over from the input.

  The graph is abstract: its next superstep is any function of what has been
  committed so far, so it may branch and loop. Which tasks complete in which
  attempt, what an attempt raises and how long it takes are arbitrary.
 */
module Retry {
  import opened Wrappers
  import opened Policy
  import opened Basics
  import opened Engine
  import opened Exceptions

  // One execution of a node; a node that runs again is another task.
  type Task = nat

  datatype Payload<+I> = Input(input: I) | Resume

  function PayloadAt<I>(input: I, checkpointed: bool, attempt: nat): Payload<I> {
    if attempt == 0 || !checkpointed then Input(input) else Resume
  }

  // The closure handed to the engine: counts its calls.
  class RetryPayload<I> {
    const input: I
    const checkpointed: bool
    var attempt: nat

    constructor (input: I, checkpointed: bool)
      ensures this.input == input && this.checkpointed == checkpointed && attempt == 0
    {
      this.input, this.checkpointed, attempt := input, checkpointed, 0;
    }

    method Next() returns (p: Payload<I>)
      modifies this
      ensures p == PayloadAt(input, checkpointed, old(attempt)) && attempt == old(attempt) + 1
    {
      var first := attempt == 0;
      attempt := attempt + 1;
      p := if first || !checkpointed then Input(input) else Resume;
    }
  }

  // The payloads of `n` attempts are the input and then only Resume; without a checkpointer, only the input.
  method Payloads<I>(input: I, checkpointed: bool, n: nat) returns (ps: seq<Payload<I>>)
    ensures |ps| == n
    ensures forall i :: 0 <= i < n ==> ps[i].Input? == (i == 0 || !checkpointed)
    ensures forall i :: 0 <= i < n && ps[i].Input? ==> ps[i].input == input
  {
    var source := new RetryPayload(input, checkpointed);
    ps := [];
    while |ps| < n
      invariant |ps| <= n && source.attempt == |ps|
      invariant source.input == input && source.checkpointed == checkpointed
      invariant forall i :: 0 <= i < |ps| ==> ps[i] == PayloadAt(input, checkpointed, i)
    {
      var p := source.Next();
      ps := ps + [p];
    }
  }

  // ---------------------------------------------------------------------------
  // A graph run

  // What a thread's checkpoint knows: the tasks of the finished supersteps, and those of the current
  // one whose results are saved. `log` is every completion that ever happened.
  datatype Thread = Thread(committed: set<Task>, partial: set<Task>, log: seq<Task>)

  type Next = set<Task> -> seq<Task>

  function Completing(step: seq<Task>, saved: set<Task>, ok: Task -> bool): seq<Task> {
    if step == [] then []
    else (if step[0] !in saved && ok(step[0]) then [step[0]] else []) + Completing(step[1..], saved, ok)
  }

  ghost function SetOf(s: seq<Task>): set<Task> {
    set t | t in s
  }

  function Save(th: Thread, finished: seq<Task>): Thread {
    Thread(th.committed, th.partial + (set t | t in finished), th.log + finished)
  }

  function Commit(th: Thread): Thread {
    Thread(th.committed + th.partial, {}, th.log)
  }

  // Runs superstep after superstep, at most `limit` of them. A superstep with an unfinished task
  // fails the run, and the tasks of it that did finish are saved.
  function RunSteps(next: Next, limit: nat, ok: Task -> bool, th: Thread): (Thread, bool) {
    var step := next(th.committed);
    if step == [] then (th, true)
    else if limit == 0 then (th, false)
    else
      var th' := Save(th, Completing(step, th.partial, ok));
      if forall t | t in step :: t in th'.partial then RunSteps(next, limit - 1, ok, Commit(th')) else (th', false)
  }

  // `next` may also depend on the attempt when every attempt starts over.
  datatype Graph = Graph(
    next: (nat, set<Task>) -> seq<Task>,
    limit: nat,
    checkpointed: bool,
    completes: (nat, Task) -> bool,
    error: nat -> Exc,
    seconds: nat -> real)

  function NextAt(g: Graph, n: nat): Next {
    (c: set<Task>) => g.next(if g.checkpointed then 0 else n, c)
  }

  function OkAt(g: Graph, n: nat): Task -> bool {
    (t: Task) => g.completes(n, t)
  }

  function FromInput(log: seq<Task>): Thread {
    Thread({}, {}, log)
  }

  // One attempt: an input starts from nothing, Resume continues from the checkpoint.
  function Attempt(g: Graph, th: Thread, n: nat): (Thread, TimedOutcome<()>) {
    var start := if PayloadAt((), g.checkpointed, n).Input? then FromInput(th.log) else th;
    var (th', finished) := RunSteps(NextAt(g, n), g.limit, OkAt(g, n), start);
    (th', if finished then Returns((), g.seconds(n)) else Raises(g.error(n), g.seconds(n)))
  }

  function BodyOf(g: Graph): (Thread, nat) -> (Thread, TimedOutcome<()>) {
    (th: Thread, n: nat) => Attempt(g, th, n)
  }

  function Execute(sync: bool, p: ExecutionPolicy, g: Graph, wait: nat -> real, th: Thread, n: nat): Run<Thread, ()> {
    Loop(sync, p, BodyOf(g), wait, th, n)
  }

  // ---------------------------------------------------------------------------
  // With a checkpointer

  // A superstep lists new tasks, each once.
  ghost predicate WellFormed(next: Next) {
    forall c :: NoDup(next(c)) && SetOf(next(c)) !! c
  }

  // What is committed after `k` supersteps of a run that nothing interrupts.
  ghost function Path(next: Next, k: nat): set<Task> {
    if k == 0 then {} else Path(next, k - 1) + SetOf(next(Path(next, k - 1)))
  }

  ghost predicate OnPath(next: Next, c: set<Task>) {
    exists k: nat :: c == Path(next, k)
  }

  // What such a run has committed when it ends.
  ghost predicate Whole(next: Next, c: set<Task>) {
    OnPath(next, c) && next(c) == []
  }

  // The log records each completed task once, and the checkpoint stands on the uninterrupted path.
  ghost predicate Consistent(next: Next, th: Thread) {
    && NoDup(th.log) && SetOf(th.log) == th.committed + th.partial
    && OnPath(next, th.committed)
    && th.partial <= SetOf(next(th.committed))
  }

  lemma {:induction false} CompletingIsNew(step: seq<Task>, saved: set<Task>, ok: Task -> bool)
    requires NoDup(step)
    ensures NoDup(Completing(step, saved, ok))
    ensures forall t :: t in Completing(step, saved, ok) <==> t in step && t !in saved && ok(t)
  {
    if step != [] {
      CompletingIsNew(step[1..], saved, ok);
      assert step == [step[0]] + step[1..];
    }
  }

  lemma AppendNoDup(a: seq<Task>, b: seq<Task>)
    requires NoDup(a) && NoDup(b) && forall t | t in b :: t !in a
    ensures NoDup(a + b) && SetOf(a + b) == SetOf(a) + SetOf(b)
  {
    forall i, j | 0 <= i < j < |a + b|
      ensures (a + b)[i] != (a + b)[j]
    {
      if i < |a| <= j {
        assert b[j - |a|] in b && a[i] in a;
      }
    }
  }

  lemma SaveKeeps(next: Next, ok: Task -> bool, th: Thread)
    requires WellFormed(next) && Consistent(next, th)
    ensures Consistent(next, Save(th, Completing(next(th.committed), th.partial, ok)))
  {
    var step := next(th.committed);
    var finished := Completing(step, th.partial, ok);
    CompletingIsNew(step, th.partial, ok);
    forall t | t in finished
      ensures t !in th.log
    {
      assert t in SetOf(step);
      assert t in th.log ==> t in SetOf(th.log);
    }
    AppendNoDup(th.log, finished);
    assert SetOf(finished) <= SetOf(step);
  }

  lemma CommitKeeps(next: Next, th: Thread)
    requires Consistent(next, th) && SetOf(next(th.committed)) <= th.partial
    ensures Consistent(next, Commit(th))
  {
    var k: nat :| th.committed == Path(next, k);
    assert Commit(th).committed == Path(next, k + 1);
  }

  // One superstep saves what finished, and commits it once nothing is missing.
  lemma StepKeeps(next: Next, ok: Task -> bool, th: Thread)
    requires WellFormed(next) && Consistent(next, th)
    ensures var step := next(th.committed);
      var th' := Save(th, Completing(step, th.partial, ok));
      && Consistent(next, th')
      && ((forall t | t in step :: t in th'.partial) ==> Consistent(next, Commit(th')))
  {
    var step := next(th.committed);
    var th' := Save(th, Completing(step, th.partial, ok));
    SaveKeeps(next, ok, th);
    if forall t | t in step :: t in th'.partial {
      CommitKeeps(next, th');
    }
  }

  lemma NothingLeftToDo(next: Next, th: Thread)
    requires Consistent(next, th) && next(th.committed) == []
    ensures Whole(next, th.committed) && th.partial == {}
  {
    assert SetOf([]) == {};
  }

  lemma {:induction false} RunStepsKeeps(next: Next, limit: nat, ok: Task -> bool, th: Thread)
    requires WellFormed(next) && Consistent(next, th)
    ensures var (th', finished) := RunSteps(next, limit, ok, th);
      && Consistent(next, th')
      && (finished ==> Whole(next, th'.committed) && th'.partial == {})
  {
    var step := next(th.committed);
    if step == [] {
      NothingLeftToDo(next, th);
    } else if limit > 0 {
      var th' := Save(th, Completing(step, th.partial, ok));
      StepKeeps(next, ok, th);
      if forall t | t in step :: t in th'.partial {
        RunStepsKeeps(next, limit - 1, ok, Commit(th'));
      }
    }
  }

  // What holds before attempt `n` of a checkpointed graph.
  ghost predicate Ready(g: Graph, th: Thread, n: nat) {
    Consistent(NextAt(g, 0), th) && (n == 0 ==> th.log == [])
  }

  lemma StartIsConsistent(next: Next)
    ensures Consistent(next, FromInput([]))
  {
    assert Path(next, 0) == {};
  }

  // A thread that has reached the end of the path.
  ghost predicate Complete(g: Graph, th: Thread) {
    Whole(NextAt(g, 0), th.committed) && th.partial == {}
  }

  lemma AttemptKeepsReady(g: Graph, th: Thread, n: nat)
    requires g.checkpointed && WellFormed(NextAt(g, 0)) && Ready(g, th, n)
    ensures var (th', o) := Attempt(g, th, n);
      && Ready(g, th', n + 1)
      && (o.Returns? ==> Complete(g, th'))
  {
    StartIsConsistent(NextAt(g, 0));
    SameNext(g, n);
    RunStepsKeeps(NextAt(g, 0), g.limit, OkAt(g, n), if n == 0 then FromInput([]) else th);
  }

  lemma SameNext(g: Graph, n: nat)
    requires g.checkpointed
    ensures forall limit, ok, th ::
      RunSteps(NextAt(g, n), limit, ok, th) == RunSteps(NextAt(g, 0), limit, ok, th)
  {
    forall limit, ok, th
      ensures RunSteps(NextAt(g, n), limit, ok, th) == RunSteps(NextAt(g, 0), limit, ok, th)
    {
      NextDecides(NextAt(g, n), NextAt(g, 0), limit, ok, th);
    }
  }

  lemma {:induction false} NextDecides(a: Next, b: Next, limit: nat, ok: Task -> bool, th: Thread)
    requires forall c :: a(c) == b(c)
    ensures RunSteps(a, limit, ok, th) == RunSteps(b, limit, ok, th)
  {
    var step := a(th.committed);
    if step != [] && limit > 0 {
      NextDecides(a, b, limit - 1, ok, Commit(Save(th, Completing(step, th.partial, ok))));
    }
  }

  lemma RunKeepsReady(sync: bool, p: ExecutionPolicy, g: Graph, wait: nat -> real)
    requires g.checkpointed && WellFormed(NextAt(g, 0))
    ensures var run := Execute(sync, p, g, wait, FromInput([]), 0);
      && Ready(g, run.state, |run.swallowed| + 1)
      && (run.exit.Returned? ==> Complete(g, run.state))
  {
    var inv := (th: Thread, n: nat) => Ready(g, th, n);
    var body := BodyOf(g);
    forall th: Thread, n: nat | inv(th, n)
      ensures inv(body(th, n).0, n + 1)
    {
      AttemptKeepsReady(g, th, n);
    }
    StartIsConsistent(NextAt(g, 0));
    assert inv(FromInput([]), 0);
    var last := LastAttempt(sync, p, body, wait, FromInput([]), 0, inv);
    AttemptKeepsReady(g, last, |Execute(sync, p, g, wait, FromInput([]), 0).swallowed|);
  }

  // Over any pattern of failures and retries, each task of a checkpointed graph completes at most
  // once, and a run that succeeds has completed exactly the tasks of an uninterrupted run.
  lemma CompletedTasksAreNotRepeated(sync: bool, p: ExecutionPolicy, g: Graph, wait: nat -> real)
    requires g.checkpointed && WellFormed(NextAt(g, 0))
    ensures var run := Execute(sync, p, g, wait, FromInput([]), 0);
      && NoDup(run.state.log)
      && (run.exit.Returned? ==> Whole(NextAt(g, 0), SetOf(run.state.log)))
  {
    RunKeepsReady(sync, p, g, wait);
    var th := Execute(sync, p, g, wait, FromInput([]), 0).state;
    assert th.partial == {} ==> SetOf(th.log) == th.committed;
  }

  lemma {:induction false} PathStops(next: Next, k: nat, m: nat)
    requires k <= m && next(Path(next, k)) == []
    ensures Path(next, m) == Path(next, k)
    decreases m - k
  {
    if k < m {
      PathStops(next, k, m - 1);
    }
  }

  // There is one uninterrupted result.
  lemma WholeIsUnique(next: Next, a: set<Task>, b: set<Task>)
    requires Whole(next, a) && Whole(next, b)
    ensures a == b
  {
    var k: nat :| a == Path(next, k);
    var m: nat :| b == Path(next, m);
    if k <= m {
      PathStops(next, k, m);
    } else {
      PathStops(next, m, k);
    }
  }

  // Two runs of one graph that both succeed complete the same tasks, each once, whatever failed on
  // the way and under whatever policies.
  lemma SuccessesAgree(sync: bool, p: ExecutionPolicy, g: Graph, wait: nat -> real,
                       sync': bool, p': ExecutionPolicy, g': Graph, wait': nat -> real)
    requires g.checkpointed && g'.checkpointed && WellFormed(NextAt(g, 0)) && NextAt(g, 0) == NextAt(g', 0)
    requires Execute(sync, p, g, wait, FromInput([]), 0).exit.Returned?
    requires Execute(sync', p', g', wait', FromInput([]), 0).exit.Returned?
    ensures multiset(Execute(sync, p, g, wait, FromInput([]), 0).state.log) ==
      multiset(Execute(sync', p', g', wait', FromInput([]), 0).state.log)
  {
    CompletedTasksAreNotRepeated(sync, p, g, wait);
    CompletedTasksAreNotRepeated(sync', p', g', wait');
    var a := Execute(sync, p, g, wait, FromInput([]), 0).state.log;
    var b := Execute(sync', p', g', wait', FromInput([]), 0).state.log;
    WholeIsUnique(NextAt(g, 0), SetOf(a), SetOf(b));
    OnceEach(a);
    OnceEach(b);
  }

  lemma {:induction false} OnceEach(s: seq<Task>)
    requires NoDup(s)
    ensures multiset(s) == multiset(SetOf(s))
  {
    if s != [] {
      var front, last := s[..|s| - 1], s[|s| - 1];
      OnceEach(front);
      assert s == front + [last];
      assert last !in front;
      assert SetOf(s) == SetOf(front) + {last};
    }
  }

  // A task of the current superstep does not complete, and every one that does is saved.
  ghost predicate Stuck(next: Next, ok: Task -> bool, th: Thread) {
    && (exists t :: t in next(th.committed) && !ok(t) && t !in th.partial)
    && (forall t | t in next(th.committed) :: ok(t) ==> t in th.partial)
  }

  lemma FullStepIsCommitted(next: Next, th: Thread, th': Thread, j: nat)
    requires th'.committed == th.committed == Path(next, j) && th'.partial <= SetOf(next(th.committed))
    requires forall t | t in next(th.committed) :: t in th'.partial
    ensures Commit(th').committed == Path(next, j + 1)
  {
    assert th'.partial == SetOf(next(th.committed));
  }

  // A run that does not finish used up its supersteps, or got stuck in one of them, with all saved that
  // did complete there.
  lemma {:induction false} WhyARunStops(next: Next, limit: nat, ok: Task -> bool, th: Thread, j: nat)
      returns (i: nat)
    requires WellFormed(next) && th.committed == Path(next, j) && th.partial <= SetOf(next(th.committed))
    requires !RunSteps(next, limit, ok, th).1
    ensures var th' := RunSteps(next, limit, ok, th).0;
      && i <= limit && th'.committed == Path(next, j + i) && next(th'.committed) != []
      && (i < limit ==> Stuck(next, ok, th'))
    decreases limit
  {
    var step := next(th.committed);
    i := 0;
    if limit > 0 {
      var th' := Save(th, Completing(step, th.partial, ok));
      CompletingIsNew(step, th.partial, ok);
      if forall t | t in step :: t in th'.partial {
        FullStepIsCommitted(next, th, th', j);
        i := WhyARunStops(next, limit - 1, ok, Commit(th'), j + 1);
        i := i + 1;
      } else {
        var t :| t in step && t !in th'.partial;
        assert t in next(th'.committed) && !ok(t);
      }
    }
  }

  lemma AllComplete(step: seq<Task>, saved: set<Task>, ok: Task -> bool)
    requires NoDup(step) && forall t | t in step :: ok(t)
    ensures forall t | t in step :: t in saved || t in Completing(step, saved, ok)
  {
    CompletingIsNew(step, saved, ok);
  }

  // A run in which every task completes ends where an uninterrupted run does, if it may take as many
  // supersteps as that still needs.
  lemma {:induction false} CleanRunFinishes(next: Next, limit: nat, ok: Task -> bool, th: Thread, j: nat, k: nat)
    requires WellFormed(next) && forall t :: ok(t)
    requires th.committed == Path(next, j) && next(Path(next, k)) == [] && j <= k <= j + limit
    requires th.partial <= SetOf(next(th.committed))
    ensures RunSteps(next, limit, ok, th).1
    ensures RunSteps(next, limit, ok, th).0.committed == Path(next, k)
    decreases limit
  {
    var step := next(th.committed);
    if step == [] {
      PathStops(next, j, k);
    } else {
      assert j < k;
      var th' := Save(th, Completing(step, th.partial, ok));
      AllComplete(step, th.partial, ok);
      CompletingIsNew(step, th.partial, ok);
      assert th'.partial == SetOf(step);
      assert Commit(th').committed == Path(next, j + 1);
      CleanRunFinishes(next, limit - 1, ok, Commit(th'), j + 1, k);
    }
  }

  // ---------------------------------------------------------------------------
  // Without a checkpointer

  // What one attempt completes when it starts from nothing.
  function FreshLog(g: Graph, n: nat): seq<Task> {
    RunSteps(NextAt(g, n), g.limit, OkAt(g, n), FromInput([])).0.log
  }

  // What the first `attempts` attempts complete, each from nothing.
  function FreshLogs(g: Graph, attempts: nat): seq<Task> {
    if attempts == 0 then [] else FreshLogs(g, attempts - 1) + FreshLog(g, attempts - 1)
  }

  lemma {:induction false} LogIsAppended(next: Next, limit: nat, ok: Task -> bool, th: Thread, log: seq<Task>)
    ensures var scratch := RunSteps(next, limit, ok, th);
      RunSteps(next, limit, ok, th.(log := log + th.log)) == (scratch.0.(log := log + scratch.0.log), scratch.1)
  {
    var step := next(th.committed);
    if step != [] && limit > 0 {
      var finished := Completing(step, th.partial, ok);
      var th' := Save(th, finished);
      assert (log + th.log) + finished == log + th'.log;
      assert Save(th.(log := log + th.log), finished) == th'.(log := log + th'.log);
      if forall t | t in step :: t in th'.partial {
        LogIsAppended(next, limit - 1, ok, Commit(th'), log);
      }
    }
  }

  lemma AttemptAppends(g: Graph, th: Thread, n: nat)
    requires !g.checkpointed
    ensures Attempt(g, th, n).0.log == th.log + FreshLog(g, n)
  {
    LogIsAppended(NextAt(g, n), g.limit, OkAt(g, n), FromInput([]), th.log);
    assert th.log + [] == th.log;
  }

  ghost predicate Restarted(g: Graph, th: Thread, n: nat) {
    th.log == FreshLogs(g, n)
  }

  // Every attempt restarts from the input: the run completes, attempt after attempt, all that
  // each attempt completes from scratch.
  lemma EveryAttemptRestarts(sync: bool, p: ExecutionPolicy, g: Graph, wait: nat -> real)
    requires !g.checkpointed
    ensures var run := Execute(sync, p, g, wait, FromInput([]), 0);
      run.state.log == FreshLogs(g, |run.swallowed| + 1)
  {
    var inv := (th: Thread, n: nat) => Restarted(g, th, n);
    var body := BodyOf(g);
    forall th: Thread, n: nat | inv(th, n)
      ensures inv(body(th, n).0, n + 1)
    {
      AttemptAppends(g, th, n);
    }
    assert Restarted(g, FromInput([]), 0);
    var last := LastAttempt(sync, p, body, wait, FromInput([]), 0, inv);
    AttemptAppends(g, last, |Execute(sync, p, g, wait, FromInput([]), 0).swallowed|);
  }
}
