/**
  The supervisor template: a router picks a worker, the worker's output is
  merged into the results and its name appended to the history, and control
  returns to the router, until it says FINISH or the step budget is used up.
 */
module Supervisor {
  import opened Basics
  import opened Wrappers

  type Name = string

  const FINISH: Name := "FINISH"

  datatype State<Out> = State(task: string, next: Name, results: map<Name, Out>, history: seq<Name>)

  // Router and workers may look at the whole state, which is never the same twice in one run.
  datatype Team<!Out> = Team(router: State<Out> -> Name, workers: map<Name, State<Out> -> Out>, maxSteps: int)

  // The constructor refuses a worker with the reserved name.
  function MakeTeam<Out>(router: State<Out> -> Name, workers: map<Name, State<Out> -> Out>,
      maxSteps: int): Result<Team<Out>, Name>
  {
    if FINISH in workers then Err(FINISH) else Ok(Team(router, workers, maxSteps))
  }

  // The two node bodies with the reducers of the state: `next` is replaced, `results` merged with
  // the newer value winning, `history` appended to.
  function Route<Out>(t: Team<Out>, s: State<Out>): State<Out> {
    s.(next := if |s.history| >= t.maxSteps then FINISH else t.router(s))
  }

  function Work<Out>(t: Team<Out>, s: State<Out>): State<Out>
    requires s.next in t.workers
  {
    s.(results := s.results + map[s.next := t.workers[s.next](s)], history := s.history + [s.next])
  }

  // A worker call: the state it saw and what it returned.
  datatype Call<Out> = Call(seen: State<Out>, name: Name, out: Out)

  // The worker calls of a run, and the final state or the name the router made up.
  datatype Run<Out> = Run(calls: seq<Call<Out>>, exit: Result<State<Out>, Name>)

  function Supervise<Out>(t: Team<Out>, s: State<Out>): Run<Out>
    decreases if t.maxSteps > |s.history| then t.maxSteps - |s.history| else 0
  {
    var routed := Route(t, s);
    if routed.next == FINISH then Run([], Ok(routed))
    else if routed.next !in t.workers then Run([], Err(routed.next))
    else
      var rest := Supervise(t, Work(t, routed));
      Run([Call(routed, routed.next, t.workers[routed.next](routed))] + rest.calls, rest.exit)
  }

  function Names<Out>(calls: seq<Call<Out>>): (r: seq<Name>)
    ensures |r| == |calls|
  {
    if calls == [] then [] else [calls[0].name] + Names(calls[1..])
  }

  // The last output of each worker, on top of what was there.
  function Latest<Out>(results: map<Name, Out>, calls: seq<Call<Out>>): map<Name, Out>
    decreases |calls|
  {
    if calls == [] then results else Latest(results + map[calls[0].name := calls[0].out], calls[1..])
  }

  // Every call was made by a known worker, on the history and results of the calls before it.
  ghost predicate Faithful<Out(!new)>(t: Team<Out>, s: State<Out>, calls: seq<Call<Out>>) {
    forall i :: 0 <= i < |calls| ==> FaithfulAt(t, s, calls, i)
  }

  ghost predicate FaithfulAt<Out(!new)>(t: Team<Out>, s: State<Out>, calls: seq<Call<Out>>, i: nat)
    requires i < |calls|
  {
    var c := calls[i];
    && c.name in t.workers && c.out == t.workers[c.name](c.seen)
    && c.name == t.router(c.seen.(next := if i == 0 then s.next else calls[i - 1].name))
    && c.seen.next == c.name && c.seen.task == s.task
    && c.seen.history == s.history + Names(calls[..i])
    && c.seen.results == Latest(s.results, calls[..i])
  }

  // Whatever the router and the workers do, a run ends, every step of it is faithful, and the
  // final history and results are those of its calls.
  lemma {:induction false} RunIsFaithful<Out(!new)>(t: Team<Out>, s: State<Out>)
    ensures var run := Supervise(t, s);
      && Faithful(t, s, run.calls)
      && (run.exit.Ok? ==>
            && run.exit.value.task == s.task && run.exit.value.next == FINISH
            && run.exit.value.history == s.history + Names(run.calls)
            && run.exit.value.results == Latest(s.results, run.calls))
    decreases if t.maxSteps > |s.history| then t.maxSteps - |s.history| else 0
  {
    var routed := Route(t, s);
    if routed.next != FINISH && routed.next in t.workers {
      var next := Work(t, routed);
      RunIsFaithful(t, next);
      var first, rest := Call(routed, routed.next, t.workers[routed.next](routed)), Supervise(t, next).calls;
      FaithfulGrows(t, s, first, next, rest);
      assert ([first] + rest)[1..] == rest;
    }
  }

  lemma FaithfulGrows<Out(!new)>(t: Team<Out>, s: State<Out>, first: Call<Out>, next: State<Out>, rest: seq<Call<Out>>)
    requires |s.history| < t.maxSteps && first.seen == Route(t, s) && first.name == first.seen.next
    requires first.name in t.workers && first.out == t.workers[first.name](first.seen) && next == Work(t, first.seen)
    requires Faithful(t, next, rest)
    ensures Faithful(t, s, [first] + rest)
  {
    var calls := [first] + rest;
    forall i | 0 <= i < |calls|
      ensures FaithfulAt(t, s, calls, i)
    {
      if i == 0 {
        assert first.seen.(next := s.next) == s;
      } else {
        assert FaithfulAt(t, next, rest, i - 1);
        assert calls[..i][1..] == rest[..i - 1];
      }
    }
  }

  // ---------------------------------------------------------------------------
  // Termination within the step budget

  // The history never grows past the step budget, unless it started there.
  lemma {:induction false} HistoryIsBounded<Out>(t: Team<Out>, s: State<Out>)
    ensures |s.history| + |Supervise(t, s).calls| <= Max(t.maxSteps, |s.history|)
    decreases if t.maxSteps > |s.history| then t.maxSteps - |s.history| else 0
  {
    var routed := Route(t, s);
    if routed.next != FINISH && routed.next in t.workers {
      HistoryIsBounded(t, Work(t, routed));
    }
  }

  // A run ends before its budget is used up only because the router said so.
  lemma {:induction false} EndsEarlyOnFinish<Out(!new)>(t: Team<Out>, s: State<Out>)
    ensures var run := Supervise(t, s);
      run.exit.Ok? && |run.exit.value.history| < t.maxSteps ==>
        exists before: State<Out> :: run.exit.value == before.(next := FINISH) && t.router(before) == FINISH
    decreases if t.maxSteps > |s.history| then t.maxSteps - |s.history| else 0
  {
    var routed := Route(t, s);
    if routed.next == FINISH {
      assert routed == s.(next := FINISH);
    } else if routed.next in t.workers {
      EndsEarlyOnFinish(t, Work(t, routed));
    }
  }

  // A router that returns only worker names or FINISH.
  ghost predicate Known<Out(!new)>(t: Team<Out>) {
    forall s :: t.router(s) in t.workers || t.router(s) == FINISH
  }

  // With such a router every run reaches FINISH, within the budget, and before the budget is used
  // up only because the router said so.
  lemma {:induction false} KnownRouterFinishes<Out(!new)>(t: Team<Out>, s: State<Out>)
    requires Known(t)
    ensures var run := Supervise(t, s);
      && run.exit.Ok?
      && |run.exit.value.history| <= Max(t.maxSteps, |s.history|)
      && (|run.exit.value.history| < t.maxSteps ==>
            exists before: State<Out> :: run.exit.value == before.(next := FINISH) && t.router(before) == FINISH)
    decreases if t.maxSteps > |s.history| then t.maxSteps - |s.history| else 0
  {
    var routed := Route(t, s);
    if routed.next == FINISH {
      assert routed == s.(next := FINISH);
    } else {
      KnownRouterFinishes(t, Work(t, routed));
    }
  }

  // A run fails only on a router answer that is neither a worker nor FINISH.
  lemma {:induction false} FailsOnUnknownNames<Out(!new)>(t: Team<Out>, s: State<Out>)
    requires FINISH !in t.workers
    ensures var run := Supervise(t, s);
      run.exit.Err? ==>
        && run.exit.error !in t.workers && run.exit.error != FINISH
        && exists before: State<Out> :: t.router(before) == run.exit.error
    decreases if t.maxSteps > |s.history| then t.maxSteps - |s.history| else 0
  {
    var routed := Route(t, s);
    if routed.next != FINISH {
      assert t.router(s) == routed.next;
      if routed.next in t.workers {
        FailsOnUnknownNames(t, Work(t, routed));
      }
    }
  }

  // What the constructor lets through runs on known workers only: FINISH is never one of them, and
  // a run that fails does so on a name that is neither.
  lemma ConstructedTeams<Out(!new)>(router: State<Out> -> Name, workers: map<Name, State<Out> -> Out>, maxSteps: int,
                                    s: State<Out>)
    ensures MakeTeam(router, workers, maxSteps).Err? <==> FINISH in workers
    ensures MakeTeam(router, workers, maxSteps).Ok? ==>
      var run := Supervise(MakeTeam(router, workers, maxSteps).value, s);
      && |s.history| + |run.calls| <= Max(maxSteps, |s.history|)
      && (run.exit.Ok? && |run.exit.value.history| < maxSteps ==>
            exists before: State<Out> :: run.exit.value == before.(next := FINISH) && router(before) == FINISH)
      && FINISH !in Names(run.calls)
      && (forall n :: n in Names(run.calls) ==> n in workers)
      && (run.exit.Err? ==> run.exit.error !in workers && run.exit.error != FINISH)
  {
    if FINISH !in workers {
      var t := MakeTeam(router, workers, maxSteps).value;
      var calls := Supervise(t, s).calls;
      RunIsFaithful(t, s);
      FailsOnUnknownNames(t, s);
      HistoryIsBounded(t, s);
      EndsEarlyOnFinish(t, s);
      forall n | n in Names(calls)
        ensures n in workers
      {
        var i :| 0 <= i < |calls| && Names(calls)[i] == n;
        NameAt(calls, i);
        assert FaithfulAt(t, s, calls, i);
      }
    }
  }

  // ---------------------------------------------------------------------------
  // Results

  // `i` is the last call of worker `n`.
  ghost predicate LastCall<Out(!new)>(calls: seq<Call<Out>>, n: Name, i: nat) {
    && i < |calls| && calls[i].name == n
    && (forall j :: i < j < |calls| ==> calls[j].name != n)
  }

  lemma {:induction false} LatestIsLast<Out(!new)>(results: map<Name, Out>, calls: seq<Call<Out>>, n: Name, i: nat)
    requires LastCall(calls, n, i)
    ensures n in Latest(results, calls) && Latest(results, calls)[n] == calls[i].out
    decreases |calls|
  {
    if i > 0 {
      assert LastCall(calls[1..], n, i - 1) by {
        forall j | i - 1 < j < |calls[1..]|
          ensures calls[1..][j].name != n
        {
          assert calls[1..][j] == calls[j + 1];
        }
      }
      LatestIsLast(results + map[calls[0].name := calls[0].out], calls[1..], n, i - 1);
    } else {
      forall j | 0 <= j < |calls[1..]|
        ensures calls[1..][j].name != n
      {
        assert calls[1..][j] == calls[j + 1];
      }
      UncalledIsKept(results + map[n := calls[0].out], calls[1..], n);
    }
  }

  lemma {:induction false} UncalledIsKept<Out(!new)>(results: map<Name, Out>, calls: seq<Call<Out>>, n: Name)
    requires forall j :: 0 <= j < |calls| ==> calls[j].name != n
    ensures n in Latest(results, calls) <==> n in results
    ensures n in results ==> Latest(results, calls)[n] == results[n]
    decreases |calls|
  {
    if calls != [] {
      UncalledIsKept(results + map[calls[0].name := calls[0].out], calls[1..], n);
    }
  }

  lemma {:induction false} NameAt<Out>(calls: seq<Call<Out>>, i: nat)
    requires i < |calls|
    ensures Names(calls)[i] == calls[i].name
  {
    if i > 0 {
      NameAt(calls[1..], i - 1);
    }
  }

  lemma {:induction false} FindLastCall<Out(!new)>(calls: seq<Call<Out>>, n: Name) returns (i: nat)
    requires n in Names(calls)
    ensures LastCall(calls, n, i)
  {
    var k :| 0 <= k < |calls| && Names(calls)[k] == n;
    NameAt(calls, k);
    i := |calls| - 1;
    while calls[i].name != n
      invariant k <= i < |calls|
      invariant forall j :: i < j < |calls| ==> calls[j].name != n
      decreases i
    {
      i := i - 1;
    }
  }

  // From an empty start, the results have an entry for exactly the workers in the history, and
  // each is what that worker returned the last time it was called.
  lemma ResultsAreTheLastOutputs<Out(!new)>(t: Team<Out>, s: State<Out>, n: Name)
    requires s.results == map[] && s.history == [] && Supervise(t, s).exit.Ok?
    ensures var run := Supervise(t, s);
      var final := run.exit.value;
      && (n in final.results <==> n in final.history)
      && |final.history| == |run.calls|
      && (n in final.history ==> exists i: nat :: LastCall(run.calls, n, i) && final.results[n] == run.calls[i].out)
  {
    RunIsFaithful(t, s);
    var calls := Supervise(t, s).calls;
    if n in Names(calls) {
      var i := FindLastCall(calls, n);
      LatestIsLast(s.results, calls, n, i);
    } else {
      forall j | 0 <= j < |calls|
        ensures calls[j].name != n
      {
        NameAt(calls, j);
      }
      UncalledIsKept(s.results, calls, n);
    }
  }
}
