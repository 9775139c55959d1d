/**
  One invocation of an agent: the before_agent hooks transform the input outside
  the try, the graph runs between its own pipelines, the after_agent hooks
  transform the result, and failures are classified before the finally hooks.
 */
module Agent {
  import opened Wrappers
  import opened Exceptions
  import opened Hooks
  import opened Node

  datatype AgentSignal<I> = AgentError(input: I, exc: Exc) | FinallyAgent(input: I)

  type AgentHook<!I> = Hook<AgentSignal<I>>

  // What the boundary methods of a hook do to the input, and, knowing the input, to the result.
  datatype Boundary<!I, !V> = Boundary(before: (AgentHook<I>, I) -> Step<I>, after: I -> (AgentHook<I>, V) -> Step<V>)

  // `execute` is the engine around the compiled graph.
  datatype Graph<!I, !V> = Graph(
    before: seq<Item<I>>,
    execute: I -> Outcome<V>,
    after: seq<Item<V>>,
    onError: seq<Middleware<I>>)

  // What the failure handler writes into the state of the execution.
  datatype Mark = Unmarked | CANCELLED | WAITING_APPROVAL

  // A graph middleware observed a failure: Inside((input, exception)).
  type AgentTrace<I> = seq<Event<AgentSignal<I>, (I, Exc)>>

  datatype AgentRun<I, V> = AgentRun(trace: AgentTrace<I>, mark: Mark, exit: Outcome<V>)

  // The try block: the input the handlers will see, and how the block ends.
  function Attempt<I, V>(g: Graph<I, V>, hooks: seq<AgentHook<I>>, b: Boundary<I, V>, input: I): (I, Outcome<V>) {
    match Apply(g.before, input).exit
    case Raised(e) => (input, Raised(e))
    case Returned(entered) =>
      match g.execute(entered)
      case Raised(e) => (entered, Raised(e))
      case Returned(result) =>
        match Apply(g.after, result).exit
        case Raised(e) => (entered, Raised(e))
        case Returned(checked) => (entered, Transform(Reversed(hooks), b.after(entered), checked))
  }

  function Repeated<X>(n: nat, x: X): seq<X> {
    if n == 0 then [] else [x] + Repeated(n - 1, x)
  }

  // The failure handler; an exception of a graph middleware skips the error hooks.
  function OnFailure<I, V>(g: Graph<I, V>, hooks: seq<AgentHook<I>>, input: I, e: Exc): AgentRun<I, V> {
    if e.cls == Cancelled then AgentRun([], CANCELLED, Raised(e))
    else if IsControlFlow(e) then AgentRun([], WAITING_APPROVAL, Raised(e))
    else
      var (k, raised) := Observe(g.onError, input, e);
      var observed: AgentTrace<I> := Insides(Repeated(k, (input, e)));
      if raised.Some? then AgentRun(observed, Unmarked, Raised(raised.value))
      else
        var r := Sweep(hooks, AgentError(input, e), true);
        AgentRun(observed + Fires(r.fired, AgentError(input, e)), Unmarked, Raised(Or(r.exc, e)))
  }

  // The try and except blocks.
  function Body<I, V>(g: Graph<I, V>, hooks: seq<AgentHook<I>>, b: Boundary<I, V>, input: I): AgentRun<I, V> {
    var (seen, out) := Attempt(g, hooks, b, input);
    match out
    case Returned(v) => AgentRun([], Unmarked, Returned(v))
    case Raised(e) => OnFailure(g, hooks, seen, e)
  }

  function Invoke<I, V>(g: Graph<I, V>, hooks: seq<AgentHook<I>>, b: Boundary<I, V>, input: I): AgentRun<I, V> {
    match Transform(hooks, b.before, input)
    case Raised(e) => AgentRun([], Unmarked, Raised(e))
    case Returned(value) =>
      var body := Body(g, hooks, b, value);
      var m := FinallyAgent(Attempt(g, hooks, b, value).0);
      var f := Sweep(Reversed(hooks), m, true);
      AgentRun(body.trace + Fires(f.fired, m), body.mark, if f.exc.Some? then Raised(f.exc.value) else body.exit)
  }

  // ---------------------------------------------------------------------------
  // Which hooks fire

  predicate AtTheEnd<I>(final: bool, m: AgentSignal<I>) {
    m.FinallyAgent? == final
  }

  // The hooks that fired at an error, or at the end, in order.
  function Select<I>(final: bool, trace: AgentTrace<I>): seq<nat> {
    FiredFor(trace, (m: AgentSignal<I>) => AtTheEnd(final, m))
  }

  lemma SelectConcat<I>(final: bool, a: AgentTrace<I>, b: AgentTrace<I>)
    ensures Select(final, a + b) == Select(final, a) + Select(final, b)
  {
    FiredForConcat(a, b, (m: AgentSignal<I>) => AtTheEnd(final, m));
  }

  lemma SelectFires<I>(final: bool, ids: seq<nat>, m: AgentSignal<I>)
    ensures Select<I>(final, Fires(ids, m)) == if m.FinallyAgent? == final then ids else []
  {
    FiredForFires<AgentSignal<I>, (I, Exc)>(ids, m, (m: AgentSignal<I>) => AtTheEnd(final, m));
  }

  lemma SelectInsides<I>(final: bool, steps: seq<(I, Exc)>)
    ensures Select<I>(final, Insides(steps)) == []
  {
    FiredForInsides(steps, (m: AgentSignal<I>) => AtTheEnd(final, m));
  }

  // A failure that error hooks are for.
  predicate Reported<I, V>(g: Graph<I, V>, out: Outcome<V>, seen: I) {
    out.Raised? && !IsControlFlow(out.exc) && Observe(g.onError, seen, out.exc).1.None?
  }

  lemma SelectBody<I, V>(g: Graph<I, V>, hooks: seq<AgentHook<I>>, b: Boundary<I, V>, input: I, final: bool)
    ensures var (seen, out) := Attempt(g, hooks, b, input);
      Select(final, Body(g, hooks, b, input).trace) ==
        if !final && Reported(g, out, seen) then Sweep(hooks, AgentError(seen, out.exc), true).fired else []
  {
    var (seen, out) := Attempt(g, hooks, b, input);
    if out.Raised? && !IsControlFlow(out.exc) {
      var (k, raised) := Observe(g.onError, seen, out.exc);
      var steps := Repeated(k, (seen, out.exc));
      SelectInsides<I>(final, steps);
      if raised.None? {
        var m := AgentError(seen, out.exc);
        var ids := Sweep(hooks, m, true).fired;
        SelectConcat<I>(final, Insides(steps), Fires(ids, m));
        SelectFires(final, ids, m);
      }
    }
  }

  // The before_agent hooks stand outside the try: finally hooks hear of a run exactly when all of
  // those let it in. Otherwise nothing hears of it, and the run is the same for every graph.
  lemma FinallyHearsOfEnteredRuns<I, V>(g: Graph<I, V>, hooks: seq<AgentHook<I>>, b: Boundary<I, V>, input: I,
      other: Graph<I, V>)
    requires hooks != []
    ensures var run := Invoke(g, hooks, b, input);
      && (Select(true, run.trace) != [] <==> Transform(hooks, b.before, input).Returned?)
      && (Transform(hooks, b.before, input).Raised? ==>
            run.trace == [] && run.exit.Raised? && Invoke(other, hooks, b, input) == run)
  {
    var start := Transform(hooks, b.before, input);
    if start.Returned? {
      var m := FinallyAgent(Attempt(g, hooks, b, start.value).0);
      var ids := Sweep(Reversed(hooks), m, true).fired;
      SelectConcat(true, Body(g, hooks, b, start.value).trace, Fires(ids, m));
      SelectFires(true, ids, m);
      SelectBody(g, hooks, b, start.value, true);
      FiredIsPrefix(Reversed(hooks), m, true);
    }
  }

  // ---------------------------------------------------------------------------
  // How the try block ends, step by step

  // With the input `value` the graph was entered with `seen`: every item of its before pipeline passed.
  // Then it executed, every item of its after pipeline passed and every after_agent hook took the result on.
  ghost predicate TryReturns<I(!new), V(!new)>(g: Graph<I, V>, hooks: seq<AgentHook<I>>, b: Boundary<I, V>, value: I,
      seen: I, out: V)
  {
    Passed(g.before, value, seen) &&
    exists result :: g.execute(seen) == Returned(result) && LeavingReturns(g, hooks, b, seen, result, out)
  }

  // The try block fails with `e`: in the before pipeline, and the handlers see the input as it came; or in
  // the execution, in the after pipeline or in an after_agent hook, and they see what entered the graph.
  ghost predicate TryFails<I(!new), V(!new)>(g: Graph<I, V>, hooks: seq<AgentHook<I>>, b: Boundary<I, V>, value: I,
      seen: I, e: Exc)
  {
    || (Stopped(g.before, value, e) && seen == value)
    || (Passed(g.before, value, seen) && g.execute(seen) == Raised(e))
    || (Passed(g.before, value, seen) &&
          exists result :: g.execute(seen) == Returned(result) && LeavingFails(g, hooks, b, seen, result, e))
  }

  ghost predicate LeavingFails<I(!new), V(!new)>(g: Graph<I, V>, hooks: seq<AgentHook<I>>, b: Boundary<I, V>, seen: I,
      result: V, e: Exc)
  {
    || Stopped(g.after, result, e)
    || exists checked, k: nat ::
         Passed(g.after, result, checked) && StoppedAt(Reversed(hooks), b.after(seen), checked, e, k)
  }

  ghost predicate TryEnds<I(!new), V(!new)>(g: Graph<I, V>, hooks: seq<AgentHook<I>>, b: Boundary<I, V>, value: I,
      seen: I, out: Outcome<V>)
  {
    match out
    case Returned(v) => TryReturns(g, hooks, b, value, seen, v)
    case Raised(e) => TryFails(g, hooks, b, value, seen, e)
  }

  ghost predicate LeavingReturns<I(!new), V(!new)>(g: Graph<I, V>, hooks: seq<AgentHook<I>>, b: Boundary<I, V>, seen: I,
      result: V, out: V)
  {
    exists checked :: Passed(g.after, result, checked) && Leads(Reversed(hooks), b.after(seen), checked, out)
  }

  // From the result of the graph on.
  function LeaveGraph<I, V>(g: Graph<I, V>, hooks: seq<AgentHook<I>>, b: Boundary<I, V>, seen: I,
      result: V): Outcome<V>
  {
    var checked := Apply(g.after, result).exit;
    if checked.Raised? then checked else Transform(Reversed(hooks), b.after(seen), checked.value)
  }

  lemma LeavingIff<I(!new), V(!new)>(g: Graph<I, V>, hooks: seq<AgentHook<I>>, b: Boundary<I, V>, seen: I, result: V,
      v: V, e: Exc)
    ensures LeaveGraph(g, hooks, b, seen, result) == Returned(v) <==> LeavingReturns(g, hooks, b, seen, result, v)
    ensures LeaveGraph(g, hooks, b, seen, result) == Raised(e) <==> LeavingFails(g, hooks, b, seen, result, e)
  {
    var checked := Apply(g.after, result).exit;
    forall c
      ensures Passed(g.after, result, c) <==> checked == Returned(c)
    {
      PassedIff(g.after, result, c);
    }
    StoppedIff(g.after, result, e);
    if checked.Returned? {
      TransformIff(Reversed(hooks), b.after(seen), checked.value, v, e);
    }
  }

  lemma TransformFails<M, V(!new)>(hooks: seq<Hook<M>>, act: (Hook<M>, V) -> Step<V>, v: V, e: Exc)
    ensures Transform(hooks, act, v) == Raised(e) <==> exists k: nat :: StoppedAt(hooks, act, v, e, k)
  {
    TransformIff(hooks, act, v, v, e);
  }

  // The try block ends in exactly one way, and this is it.
  lemma AttemptIff<I(!new), V(!new)>(g: Graph<I, V>, hooks: seq<AgentHook<I>>, b: Boundary<I, V>, value: I, seen: I,
      out: Outcome<V>)
    ensures Attempt(g, hooks, b, value) == (seen, out) <==> TryEnds(g, hooks, b, value, seen, out)
  {
    var entered := Apply(g.before, value).exit;
    PassedIff(g.before, value, seen);
    if out.Raised? {
      StoppedIff(g.before, value, out.exc);
    }
    if entered == Returned(seen) && g.execute(seen).Returned? {
      var result := g.execute(seen).value;
      assert Attempt(g, hooks, b, value) == (seen, LeaveGraph(g, hooks, b, seen, result));
      match out
      case Returned(v) => LeavingIff(g, hooks, b, seen, result, v, Exc(Ordinary, 0));
      case Raised(e) => LeavingIff(g, hooks, b, seen, result, result, e);
    }
  }

  // The input got past the before_agent hooks as `value`, and the try block ended in `out` with the
  // handlers looking at `seen`.
  ghost predicate Went<I(!new), V(!new)>(g: Graph<I, V>, hooks: seq<AgentHook<I>>, b: Boundary<I, V>, input: I,
      seen: I, out: Outcome<V>)
  {
    exists value :: Leads(hooks, b.before, input, value) && TryEnds(g, hooks, b, value, seen, out)
  }

  lemma WentIff<I(!new), V(!new)>(g: Graph<I, V>, hooks: seq<AgentHook<I>>, b: Boundary<I, V>, input: I, seen: I,
      out: Outcome<V>)
    ensures Went(g, hooks, b, input, seen, out) <==>
      var start := Transform(hooks, b.before, input);
      start.Returned? && Attempt(g, hooks, b, start.value) == (seen, out)
  {
    var start := Transform(hooks, b.before, input);
    forall value
      ensures Leads(hooks, b.before, input, value) <==> start == Returned(value)
    {
      TransformIff(hooks, b.before, input, value, Exc(Ordinary, 0));
    }
    if start.Returned? {
      AttemptIff(g, hooks, b, start.value, seen, out);
    }
  }

  // An invocation returns `out` exactly when every before_agent hook took the input on, every item of the
  // before pipeline passed, the graph returned, every item of the after pipeline passed, every after_agent
  // hook took the result on to `out`, and no finally hook raises a BaseException.
  lemma AgentReturnsExactlyWhen<I(!new), V(!new)>(g: Graph<I, V>, hooks: seq<AgentHook<I>>, b: Boundary<I, V>,
      input: I, out: V)
    ensures Invoke(g, hooks, b, input).exit == Returned(out) <==>
      exists seen :: Went(g, hooks, b, input, seen, Returned(out)) && NoneRaisesBase(hooks, FinallyAgent(seen))
  {
    var start := Transform(hooks, b.before, input);
    forall seen
      ensures Went(g, hooks, b, input, seen, Returned(out)) <==>
        start.Returned? && Attempt(g, hooks, b, start.value) == (seen, Returned(out))
    {
      WentIff(g, hooks, b, input, seen, Returned(out));
    }
    if start.Returned? {
      FinallyIsQuiet(hooks, Attempt(g, hooks, b, start.value).0);
    }
  }

  lemma FinallyIsQuiet<I>(hooks: seq<AgentHook<I>>, seen: I)
    ensures Sweep(Reversed(hooks), FinallyAgent(seen), true).exc == None <==> NoneRaisesBase(hooks, FinallyAgent(seen))
  {
    NothingOutIff(Reversed(hooks), FinallyAgent(seen), true);
    NoneEscapesReversed(hooks, FinallyAgent(seen), true);
    NoneRaisesBaseIff(hooks, FinallyAgent(seen));
  }

  // A failure `f` of the try block leaves the failure handler as `e`: control flow and cancellation as
  // they are; otherwise as what the first graph middleware raises that raises, or, if none does, as what
  // the error hooks leave of it.
  ghost predicate ReportedAs<I, V>(g: Graph<I, V>, hooks: seq<AgentHook<I>>, seen: I, f: Exc, e: Exc) {
    if f.cls in {ControlFlow, Cancelled} then e == f
    else
      || FirstRaises(g.onError, seen, f, e)
      || (NoneRaises(g.onError, seen, f) && HandledAs(hooks, AgentError(seen, f), f, e))
  }

  lemma ReportedIff<I, V>(g: Graph<I, V>, hooks: seq<AgentHook<I>>, seen: I, f: Exc, e: Exc)
    ensures OnFailure(g, hooks, seen, f).exit == Raised(e) <==> ReportedAs(g, hooks, seen, f, e)
  {
    if f.cls !in {ControlFlow, Cancelled} {
      FirstRaisingMiddlewareWins(g.onError, seen, f);
      var (k, raised) := Observe(g.onError, seen, f);
      if raised.Some? {
        ObservedIff(g.onError, seen, f, e);
      } else {
        assert forall j :: 0 <= j < |g.onError| ==> g.onError[j] in g.onError;
        var r := Sweep(hooks, AgentError(seen, f), true);
        FirstOutIff(hooks, AgentError(seen, f), true, e);
        FirstOutIff(hooks, AgentError(seen, f), true, Or(r.exc, f));
      }
    }
  }

  // Which exception leaves a failing invocation: that of the before_agent hook that stopped the input; or
  // that of the first finally hook that raises a BaseException; or the failure of the try block as the
  // graph middlewares and the error hooks leave it.
  lemma WhichExceptionLeavesAgent<I(!new), V(!new)>(g: Graph<I, V>, hooks: seq<AgentHook<I>>, b: Boundary<I, V>,
      input: I, e: Exc)
    ensures Invoke(g, hooks, b, input).exit == Raised(e) <==>
      || (exists k: nat :: StoppedAt(hooks, b.before, input, e, k))
      || (exists seen, out ::
            Went(g, hooks, b, input, seen, out) && FirstOut(Reversed(hooks), FinallyAgent(seen), true, e))
      || (exists seen, f ::
            && Went(g, hooks, b, input, seen, Raised(f)) && NoneRaisesBase(hooks, FinallyAgent(seen))
            && ReportedAs(g, hooks, seen, f, e))
  {
    var start := Transform(hooks, b.before, input);
    TransformFails(hooks, b.before, input, e);
    forall seen, out
      ensures Went(g, hooks, b, input, seen, out) <==>
        start.Returned? && Attempt(g, hooks, b, start.value) == (seen, out)
    {
      WentIff(g, hooks, b, input, seen, out);
    }
    if start.Returned? {
      var (seen, out) := Attempt(g, hooks, b, start.value);
      assert Went(g, hooks, b, input, seen, out);
      FinallyIsQuiet(hooks, seen);
      FirstOutIff(Reversed(hooks), FinallyAgent(seen), true, e);
      if out.Raised? {
        ReportedIff(g, hooks, seen, out.exc, e);
      }
    }
  }

  // The first `k` middlewares ran: all of them, or those up to the first that raises.
  ghost predicate ObservedBy<I>(mws: seq<Middleware<I>>, seen: I, e: Exc, k: nat) {
    && k <= |mws|
    && if NoneRaises(mws, seen, e) then k == |mws|
       else k > 0 && mws[k - 1](seen, e).Some? && NoneRaises(mws[..k - 1], seen, e)
  }

  // What the handlers hear of, in order: the graph middlewares and then the error hooks, of the failure
  // and the input of the moment; then the finally hooks, of that input. And the state that is recorded.
  lemma WhatIsHeard<I(!new), V(!new)>(g: Graph<I, V>, hooks: seq<AgentHook<I>>, b: Boundary<I, V>, input: I, seen: I,
      out: Outcome<V>)
    requires Went(g, hooks, b, input, seen, out)
    ensures var run := Invoke(g, hooks, b, input);
      && run.mark == (if out.Returned? then Unmarked
                      else if out.exc.cls == Cancelled then CANCELLED
                      else if out.exc.cls == ControlFlow then WAITING_APPROVAL
                      else Unmarked)
      && var last := Fires(Sweep(Reversed(hooks), FinallyAgent(seen), true).fired, FinallyAgent(seen));
      && (if out.Raised? && out.exc.cls !in {ControlFlow, Cancelled} then
            exists k: nat, ids ::
              && ObservedBy(g.onError, seen, out.exc, k) && ids <= IdsOf(hooks)
              && (ids != [] ==> NoneRaises(g.onError, seen, out.exc))
              && run.trace == Insides(Repeated(k, (seen, out.exc))) + Fires(ids, AgentError(seen, out.exc)) + last
          else run.trace == last)
  {
    WentIff(g, hooks, b, input, seen, out);
    var last := Fires(Sweep(Reversed(hooks), FinallyAgent(seen), true).fired, FinallyAgent(seen));
    var run := Invoke(g, hooks, b, input);
    if out.Raised? && out.exc.cls !in {ControlFlow, Cancelled} {
      var f := out.exc;
      FirstRaisingMiddlewareWins(g.onError, seen, f);
      var (k, raised) := Observe(g.onError, seen, f);
      var ids := if raised.Some? then [] else Sweep(hooks, AgentError(seen, f), true).fired;
      FiredIsPrefix(hooks, AgentError(seen, f), true);
      assert [] <= IdsOf(hooks);
      var observed: AgentTrace<I> := Insides(Repeated(k, (seen, f)));
      assert observed + [] == observed;
      assert run.trace == observed + Fires(ids, AgentError(seen, f)) + last;
    } else {
      assert [] + last == last;
    }
  }

  // The error hooks of an agent fire exactly when an exception that is not control flow leaves the
  // try block and no on_error middleware of the graph raises.
  lemma AgentErrorHooksFireExactlyWhen<I(!new), V(!new)>(g: Graph<I, V>, hooks: seq<AgentHook<I>>, b: Boundary<I, V>,
      input: I, seen: I, out: Outcome<V>)
    requires hooks != [] && Went(g, hooks, b, input, seen, out)
    ensures Select(false, Invoke(g, hooks, b, input).trace) != [] <==>
      out.Raised? && out.exc.cls !in {ControlFlow, Cancelled} && NoneRaises(g.onError, seen, out.exc)
  {
    WentIff(g, hooks, b, input, seen, out);
    var value := Transform(hooks, b.before, input).value;
    var m := FinallyAgent(seen);
    var ids := Sweep(Reversed(hooks), m, true).fired;
    SelectConcat(false, Body(g, hooks, b, value).trace, Fires(ids, m));
    SelectFires(false, ids, m);
    SelectBody(g, hooks, b, value, false);
    if out.Raised? && !IsControlFlow(out.exc) {
      FirstRaisingMiddlewareWins(g.onError, seen, out.exc);
      FiredIsPrefix(hooks, AgentError(seen, out.exc), true);
    }
  }

  // A failing graph whose middleware raises: the failure is replaced, and the error hook stays silent.
  lemma RaisingMiddlewareSilencesErrorHooks()
    ensures var hook: AgentHook<nat> := Hook(0, 1, true, true, (m: AgentSignal<nat>) => None);
      var b := Boundary((h: AgentHook<nat>, i: nat) => Keep, (i: nat) => (h: AgentHook<nat>, v: nat) => Keep);
      var g := Graph([], (i: nat) => Raised(Exc(Ordinary, 0)), [], [(i: nat, e: Exc) => Some(Exc(Ordinary, 1))]);
      var run := Invoke(g, [hook], b, 7);
      && Went(g, [hook], b, 7, 7, Raised(Exc(Ordinary, 0)))
      && run.exit == Raised(Exc(Ordinary, 1))
      && Select(false, run.trace) == []
  {
    var hook: AgentHook<nat> := Hook(0, 1, true, true, (m: AgentSignal<nat>) => None);
    var b := Boundary((h: AgentHook<nat>, i: nat) => Keep, (i: nat) => (h: AgentHook<nat>, v: nat) => Keep);
    var mw: Middleware<nat> := (i: nat, e: Exc) => Some(Exc(Ordinary, 1));
    var g := Graph([], (i: nat) => Raised(Exc(Ordinary, 0)), [], [mw]);
    assert Apply(g.before, 7).exit == Returned(7);
    assert Transform([hook], b.before, 7) == Returned(7);
    WentIff(g, [hook], b, 7, 7, Raised(Exc(Ordinary, 0)));
    AgentErrorHooksFireExactlyWhen(g, [hook], b, 7, 7, Raised(Exc(Ordinary, 0)));
    assert mw in g.onError && mw(7, Exc(Ordinary, 0)).Some?;
    assert Sweep(Reversed([hook]), FinallyAgent(7), true).exc == None;
  }

  // Once the input is transformed, every finally hook fires exactly once, in reverse order, if and
  // only if none but the outermost raises a BaseException there.
  lemma AgentFinallyFiresOnceIff<I(!new), V(!new)>(g: Graph<I, V>, hooks: seq<AgentHook<I>>, b: Boundary<I, V>,
      input: I, seen: I, out: Outcome<V>)
    requires Went(g, hooks, b, input, seen, out)
    ensures Select(true, Invoke(g, hooks, b, input).trace) == Reversed(IdsOf(hooks)) <==>
      NoneRaisesBase(ButFirst(hooks), FinallyAgent(seen))
  {
    WentIff(g, hooks, b, input, seen, out);
    var value := Transform(hooks, b.before, input).value;
    var m := FinallyAgent(seen);
    var ids := Sweep(Reversed(hooks), m, true).fired;
    SelectConcat(true, Body(g, hooks, b, value).trace, Fires(ids, m));
    SelectFires(true, ids, m);
    SelectBody(g, hooks, b, value, true);
    IdsOfReversed(hooks);
    EveryoneFiresIff(Reversed(hooks), m, true);
    ButLastReversed(hooks);
    NoneEscapesReversed(ButFirst(hooks), m, true);
    NoneRaisesBaseIff(ButFirst(hooks), m);
  }

  // ---------------------------------------------------------------------------
  // Deleting hooks

  // At both boundaries the hook keeps the value or fails open.
  ghost predicate Passive<I(!new), V(!new)>(h: AgentHook<I>, b: Boundary<I, V>) {
    && Observer(h)
    && Watcher(h, b.before)
    && (forall i :: Watcher(h, b.after(i)))
  }

  ghost predicate OnlyPassiveGo<I(!new), V(!new)>(hooks: seq<AgentHook<I>>, keep: seq<bool>, b: Boundary<I, V>) {
    && |hooks| == |keep|
    && (forall i :: 0 <= i < |hooks| && !keep[i] ==> Passive(hooks[i], b))
  }

  lemma {:induction false} PassiveReversed<I(!new), V(!new)>(hooks: seq<AgentHook<I>>, keep: seq<bool>,
      b: Boundary<I, V>)
    requires OnlyPassiveGo(hooks, keep, b)
    ensures OnlyPassiveGo(Reversed(hooks), Reversed(keep), b)
  {
    if hooks != [] {
      PassiveReversed(hooks[1..], keep[1..], b);
    }
  }

  lemma AttemptWithoutPassive<I(!new), V(!new)>(g: Graph<I, V>, hooks: seq<AgentHook<I>>, keep: seq<bool>,
      b: Boundary<I, V>, input: I)
    requires OnlyPassiveGo(hooks, keep, b)
    ensures Attempt(g, Kept(hooks, keep), b, input) == Attempt(g, hooks, b, input)
  {
    PassiveReversed(hooks, keep, b);
    KeptReversed(hooks, keep);
    var entered := Apply(g.before, input).exit;
    if entered.Returned? {
      var result := g.execute(entered.value);
      if result.Returned? {
        var checked := Apply(g.after, result.value).exit;
        if checked.Returned? {
          WatchersAreInvisible(Reversed(hooks), Reversed(keep), b.after(entered.value), checked.value);
        }
      }
    }
  }

  lemma OnFailureWithoutPassive<I(!new), V(!new)>(g: Graph<I, V>, hooks: seq<AgentHook<I>>, keep: seq<bool>,
      b: Boundary<I, V>, input: I, e: Exc)
    requires OnlyPassiveGo(hooks, keep, b)
    ensures var kept, all := OnFailure(g, Kept(hooks, keep), input, e), OnFailure(g, hooks, input, e);
      kept.exit == all.exit && kept.mark == all.mark
  {
    SweepWithoutObservers(hooks, keep, AgentError(input, e), true);
  }

  // Deleting any set of passive hooks changes neither the result nor the exception of an
  // invocation, nor the state it records.
  lemma PassiveHooksAreInvisible<I(!new), V(!new)>(g: Graph<I, V>, hooks: seq<AgentHook<I>>, keep: seq<bool>,
      b: Boundary<I, V>, input: I)
    requires OnlyPassiveGo(hooks, keep, b)
    ensures var kept, all := Invoke(g, Kept(hooks, keep), b, input), Invoke(g, hooks, b, input);
      kept.exit == all.exit && kept.mark == all.mark
  {
    WatchersAreInvisible(hooks, keep, b.before, input);
    var start := Transform(hooks, b.before, input);
    if start.Returned? {
      AttemptWithoutPassive(g, hooks, keep, b, start.value);
      var (seen, out) := Attempt(g, hooks, b, start.value);
      SweepsWithoutObservers(hooks, keep, FinallyAgent(seen), true);
      if out.Raised? {
        OnFailureWithoutPassive(g, hooks, keep, b, seen, out.exc);
      }
    }
  }
}
