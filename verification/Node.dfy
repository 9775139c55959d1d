/**
  A node function inside its own pipelines, and inside the hooks of the graph.

  The before pipeline replaces the state, the output contract and the after
  pipeline replace the result, and the on_error middlewares observe the failures
  of the node function itself.
 */
module Node {
  import opened Wrappers
  import opened Exceptions
  import opened Hooks

  // One element of a pipeline: a guardrail, or a callable on the whole value.
  datatype Item<!V> = Guard(enforce: V -> Outcome<V>) | Callable(f: V -> Step<V>)

  function Act<V>(it: Item<V>, v: V): Outcome<V> {
    match it
    case Guard(enforce) => enforce(v)
    case Callable(f) =>
      match f(v)
      case Keep => Returned(v)
      case Replace(w) => Returned(w)
      case Raise(e) => Raised(e)
  }

  // What a pipeline does: the value each item received, and how it ended.
  datatype Applied<V> = Applied(seen: seq<V>, exit: Outcome<V>)

  function Apply<V>(items: seq<Item<V>>, v: V): Applied<V> {
    if items == [] then Applied([], Returned(v))
    else
      match Act(items[0], v)
      case Raised(e) => Applied([v], Raised(e))
      case Returned(w) =>
        var rest := Apply(items[1..], w);
        Applied([v] + rest.seen, rest.exit)
  }

  // An item takes `v` to `w`: a guardrail returns it, a callable returns it or keeps the value.
  predicate Accepts<V(==)>(it: Item<V>, v: V, w: V) {
    match it
    case Guard(enforce) => enforce(v) == Returned(w)
    case Callable(f) => f(v) == Replace(w) || (f(v) == Keep && w == v)
  }

  predicate Refuses<V(==)>(it: Item<V>, v: V, e: Exc) {
    match it
    case Guard(enforce) => enforce(v) == Raised(e)
    case Callable(f) => f(v) == Raise(e)
  }

  lemma ActIff<V>(it: Item<V>, v: V, w: V, e: Exc)
    ensures Act(it, v) == Returned(w) <==> Accepts(it, v, w)
    ensures Act(it, v) == Raised(e) <==> Refuses(it, v, e)
  {}

  // Every item accepts what the item before it returned.
  ghost predicate Chain<V>(items: seq<Item<V>>, values: seq<V>) {
    && |values| == |items| + 1
    && (forall i :: 0 <= i < |items| ==> Accepts(items[i], values[i], values[i + 1]))
  }

  // A pipeline returns a value exactly when every one of its items ran and accepted, in order.
  lemma {:induction false} ReturnsThroughAChain<V>(items: seq<Item<V>>, v: V, out: V)
    ensures Apply(items, v).exit == Returned(out) <==>
      var values := Apply(items, v).seen + [out];
      Chain(items, values) && values[0] == v
  {
    if items != [] {
      var first := Act(items[0], v);
      if first.Returned? {
        var w := first.value;
        var rest := Apply(items[1..], w).seen + [out];
        ActIff(items[0], v, w, Exc(Ordinary, 0));
        ReturnsThroughAChain(items[1..], w, out);
        assert Apply(items, v).seen + [out] == [v] + rest;
        ChainSplits(items, v, rest);
      } else {
        assert [v] + [out] == Apply(items, v).seen + [out];
        ChainSplits(items, v, [out]);
      }
    }
  }

  lemma ChainSplits<V>(items: seq<Item<V>>, v: V, rest: seq<V>)
    requires items != [] && rest != []
    ensures Chain(items, [v] + rest) <==> Accepts(items[0], v, rest[0]) && Chain(items[1..], rest)
  {
    var values := [v] + rest;
    if Accepts(items[0], v, rest[0]) && Chain(items[1..], rest) {
      forall i | 0 <= i < |items|
        ensures Accepts(items[i], values[i], values[i + 1])
      {
        if i > 0 {
          assert items[1..][i - 1] == items[i];
        }
      }
    }
    if Chain(items, values) {
      assert Accepts(items[0], values[0], values[1]);
      forall i | 0 <= i < |items[1..]|
        ensures Accepts(items[1..][i], rest[i], rest[i + 1])
      {
        assert Accepts(items[i + 1], values[i + 1], values[i + 2]);
      }
    }
  }

  // The items take `v` to `w`.
  ghost predicate Passed<V(!new)>(items: seq<Item<V>>, v: V, w: V) {
    exists values :: Chain(items, values) && values[0] == v && values[|items|] == w
  }

  // Item `k` raises `e` on what the items before it made of `v`.
  ghost predicate StopsAt<V(!new)>(items: seq<Item<V>>, v: V, e: Exc, k: nat) {
    k < |items| && exists w :: Passed(items[..k], v, w) && Refuses(items[k], w, e)
  }

  ghost predicate Stopped<V(!new)>(items: seq<Item<V>>, v: V, e: Exc) {
    exists k: nat :: StopsAt(items, v, e, k)
  }

  lemma {:induction false} ChainsAgree<V>(items: seq<Item<V>>, a: seq<V>, b: seq<V>)
    requires Chain(items, a) && Chain(items, b) && a[0] == b[0]
    ensures a == b
  {
    if items != [] {
      assert a == [a[0]] + a[1..] && b == [b[0]] + b[1..];
      ChainSplits(items, a[0], a[1..]);
      ChainSplits(items, b[0], b[1..]);
      ChainsAgree(items[1..], a[1..], b[1..]);
    }
  }

  lemma PassedIff<V(!new)>(items: seq<Item<V>>, v: V, w: V)
    ensures Passed(items, v, w) <==> Apply(items, v).exit == Returned(w)
  {
    var r := Apply(items, v);
    ReturnsThroughAChain(items, v, w);
    if r.exit == Returned(w) {
      assert Chain(items, r.seen + [w]) && (r.seen + [w])[|items|] == w;
    }
    if Passed(items, v, w) {
      var values :| Chain(items, values) && values[0] == v && values[|items|] == w;
      ChainReturns(items, values);
    }
  }

  lemma {:induction false} ChainReturns<V>(items: seq<Item<V>>, values: seq<V>)
    requires Chain(items, values)
    ensures Apply(items, values[0]).exit == Returned(values[|items|])
  {
    if items != [] {
      assert values == [values[0]] + values[1..];
      ChainSplits(items, values[0], values[1..]);
      ChainReturns(items[1..], values[1..]);
      ActIff(items[0], values[0], values[1], Exc(Ordinary, 0));
    }
  }

  // A pipeline ends at the first item that raises, with its exception.
  lemma StoppedIff<V(!new)>(items: seq<Item<V>>, v: V, e: Exc)
    ensures Stopped(items, v, e) <==> Apply(items, v).exit == Raised(e)
  {
    if Stopped(items, v, e) {
      var k: nat :| StopsAt(items, v, e, k);
      var w :| Passed(items[..k], v, w) && Refuses(items[k], w, e);
      PassedIff(items[..k], v, w);
      ActIff(items[k], w, w, e);
      assert items == items[..k] + items[k..] && items[k..][0] == items[k];
      ApplySplits(items[..k], items[k..], v);
    }
    if Apply(items, v).exit == Raised(e) {
      var k := RaisingItem(items, v, e);
    }
  }

  lemma {:induction false} RaisingItem<V(!new)>(items: seq<Item<V>>, v: V, e: Exc) returns (k: nat)
    requires Apply(items, v).exit == Raised(e)
    ensures StopsAt(items, v, e, k)
  {
    var first := Act(items[0], v);
    if first.Raised? {
      k := 0;
      ActIff(items[0], v, v, e);
      assert items[..0] == [] && Chain(items[..0], [v]) && [v][0] == v;
      assert Passed(items[..0], v, v);
    } else {
      k := RaisingItem(items[1..], first.value, e);
      var w :| Passed(items[1..][..k], first.value, w) && Refuses(items[1..][k], w, e);
      assert items[..k + 1] == [items[0]] + items[1..][..k];
      PassedIff(items[1..][..k], first.value, w);
      PassedIff(items[..k + 1], v, w);
      k := k + 1;
    }
  }

  lemma {:induction false} ApplySplits<V>(a: seq<Item<V>>, b: seq<Item<V>>, v: V)
    ensures var first := Apply(a, v);
      Apply(a + b, v) ==
        if first.exit.Raised? then first
        else
          var second := Apply(b, first.exit.value);
          Applied(first.seen + second.seen, second.exit)
  {
    if a == [] {
      assert a + b == b;
    } else {
      assert (a + b)[1..] == a[1..] + b;
      var out := Act(a[0], v);
      if out.Returned? {
        ApplySplits(a[1..], b, out.value);
      }
    }
  }

  datatype NodeStep<S, V> =
    | Entering(state: S)
    | Body(state: S)
    | Leaving(result: V)
    | Observed(state: S, exc: Exc)

  type Middleware<!S> = (S, Exc) -> Option<Exc>

  datatype KlafiNode<!S, !V> = KlafiNode(
    before: seq<Item<S>>,
    body: S -> Outcome<V>,
    coerce: V -> Outcome<V>,
    after: seq<Item<V>>,
    onError: seq<Middleware<S>>)

  // How many middlewares observe a failure, and what the last of them raises: nothing swallows it.
  function Observe<S>(mws: seq<Middleware<S>>, s: S, e: Exc): (nat, Option<Exc>) {
    if mws == [] || IsControlFlow(e) then (0, None)
    else
      match mws[0](s, e)
      case Some(raised) => (1, Some(raised))
      case None =>
        var (n, out) := Observe(mws[1..], s, e);
        (n + 1, out)
  }

  function Or(raised: Option<Exc>, e: Exc): Exc {
    if raised.Some? then raised.value else e
  }

  function Steps<S, V>(n: nat, step: NodeStep<S, V>): seq<NodeStep<S, V>> {
    if n == 0 then [] else Steps(n - 1, step) + [step]
  }

  function Entered<S, V>(seen: seq<S>): seq<NodeStep<S, V>> {
    if seen == [] then [] else [Entering(seen[0])] + Entered(seen[1..])
  }

  function Left<S, V>(seen: seq<V>): seq<NodeStep<S, V>> {
    if seen == [] then [] else [Leaving(seen[0])] + Left(seen[1..])
  }

  // From the node function on, with the state that left the before pipeline.
  function Inside<S, V>(n: KlafiNode<S, V>, s: S): Inner<NodeStep<S, V>, V> {
    match n.body(s)
    case Raised(e) =>
      var (k, out) := Observe(n.onError, s, e);
      Inner([Body(s)] + Steps(k, Observed(s, e)), Raised(Or(out, e)))
    case Returned(v) =>
      match n.coerce(v)
      case Raised(e) => Inner([Body(s)], Raised(e))
      case Returned(w) =>
        var a := Apply(n.after, w);
        Inner([Body(s)] + Left(a.seen), a.exit)
  }

  function RunNode<S, V>(n: KlafiNode<S, V>, s: S): Inner<NodeStep<S, V>, V> {
    var b := Apply(n.before, s);
    match b.exit
    case Raised(e) => Inner(Entered(b.seen), Raised(e))
    case Returned(state) =>
      var rest := Inside(n, state);
      Inner(Entered(b.seen) + rest.steps, rest.exit)
  }

  // ---------------------------------------------------------------------------
  // The on_error middlewares

  function CountObserved<S, V>(steps: seq<NodeStep<S, V>>): nat {
    if steps == [] then 0 else (if steps[0].Observed? then 1 else 0) + CountObserved(steps[1..])
  }

  lemma {:induction false} CountConcat<S, V>(a: seq<NodeStep<S, V>>, b: seq<NodeStep<S, V>>)
    ensures CountObserved(a + b) == CountObserved(a) + CountObserved(b)
  {
    if a == [] {
      assert a + b == b;
    } else {
      assert (a + b)[1..] == a[1..] + b;
      CountConcat(a[1..], b);
    }
  }

  lemma {:induction false} CountEntered<S, V>(seen: seq<S>)
    ensures CountObserved(Entered<S, V>(seen)) == 0
  {
    if seen != [] {
      CountEntered<S, V>(seen[1..]);
    }
  }

  lemma {:induction false} CountLeft<S, V>(seen: seq<V>)
    ensures CountObserved(Left<S, V>(seen)) == 0
  {
    if seen != [] {
      CountLeft<S, V>(seen[1..]);
    }
  }

  lemma {:induction false} CountSteps<S, V>(n: nat, step: NodeStep<S, V>)
    requires step.Observed?
    ensures CountObserved(Steps(n, step)) == n
  {
    if n > 0 {
      CountSteps(n - 1, step);
      CountConcat(Steps(n - 1, step), [step]);
    }
  }

  lemma SomeObserve<S>(mws: seq<Middleware<S>>, s: S, e: Exc)
    ensures Observe(mws, s, e).0 > 0 <==> mws != [] && !IsControlFlow(e)
  {
    if mws != [] && !IsControlFlow(e) {
      var (n, out) := Observe(mws[1..], s, e);
      assert Observe(mws, s, e).0 == if mws[0](s, e).Some? then 1 else n + 1;
    }
  }

  // The middlewares observe a failure of the node function that is not control flow, and nothing
  // else: not one of the before pipeline, of the output contract or of the after pipeline.
  lemma MiddlewaresObserveTheBodyOnly<S, V>(n: KlafiNode<S, V>, s: S)
    ensures var state := Apply(n.before, s).exit;
      CountObserved(RunNode(n, s).steps) > 0 <==>
        && n.onError != []
        && state.Returned?
        && n.body(state.value).Raised?
        && n.body(state.value).exc.cls !in {ControlFlow, Cancelled}
  {
    var b := Apply(n.before, s);
    CountEntered<S, V>(b.seen);
    if b.exit.Returned? {
      var state := b.exit.value;
      var rest := Inside(n, state).steps;
      CountConcat(Entered(b.seen), rest);
      CountConcat([Body(state)], rest[1..]);
      assert CountObserved([rest[0]]) == 0;
      assert rest == [Body(state)] + rest[1..];
      match n.body(state)
      case Raised(e) =>
        var k := Observe(n.onError, state, e).0;
        assert rest[1..] == Steps(k, Observed(state, e));
        SomeObserve(n.onError, state, e);
        CountSteps<S, V>(k, Observed(state, e));
      case Returned(v) =>
        var out := n.coerce(v);
        if out.Returned? {
          var seen := Apply(n.after, out.value).seen;
          assert rest[1..] == Left(seen);
          CountLeft<S, V>(seen);
        }
    }
  }

  ghost predicate NoneRaises<S>(mws: seq<Middleware<S>>, s: S, e: Exc) {
    forall mw :: mw in mws ==> mw(s, e).None?
  }

  // Unless it is control flow, a failure is replaced exactly when some middleware raises, and then
  // by what the first of those raises; the middlewares after it do not run.
  lemma {:induction false} FirstRaisingMiddlewareWins<S>(mws: seq<Middleware<S>>, s: S, e: Exc)
    requires e.cls !in {ControlFlow, Cancelled}
    ensures var (k, out) := Observe(mws, s, e);
      && k <= |mws|
      && (out.None? <==> NoneRaises(mws, s, e))
      && (out.None? ==> k == |mws|)
      && (out.Some? ==> k > 0 && NoneRaises(mws[..k - 1], s, e) && mws[k - 1](s, e) == out)
  {
    if mws != [] {
      assert mws == [mws[0]] + mws[1..];
      if mws[0](s, e).None? {
        FirstRaisingMiddlewareWins(mws[1..], s, e);
        var (k, out) := Observe(mws[1..], s, e);
        if out.Some? {
          assert mws[..k] == [mws[0]] + mws[1..][..k - 1];
        }
      }
    }
  }

  // ---------------------------------------------------------------------------
  // The whole onion

  // Nothing leaves a node unchecked: a returned result passed the contract and every after item,
  // and the node ran on the state that passed every before item.
  lemma OnlyCheckedResultsLeave<S, V>(n: KlafiNode<S, V>, s: S, out: V)
    ensures RunNode(n, s).exit == Returned(out) <==>
      var b := Apply(n.before, s);
      && b.exit.Returned?
      && Chain(n.before, b.seen + [b.exit.value]) && (b.seen + [b.exit.value])[0] == s
      && n.body(b.exit.value).Returned?
      && var coerced := n.coerce(n.body(b.exit.value).value);
      && coerced.Returned?
      && var values := Apply(n.after, coerced.value).seen + [out];
      && Chain(n.after, values) && values[0] == coerced.value
  {
    var b := Apply(n.before, s);
    if b.exit.Returned? {
      ReturnsThroughAChain(n.before, s, b.exit.value);
      var r := n.body(b.exit.value);
      if r.Returned? && n.coerce(r.value).Returned? {
        ReturnsThroughAChain(n.after, n.coerce(r.value).value, out);
      }
    }
  }

  // The first middleware that raises anything raises `e`.
  ghost predicate FirstRaises<S>(mws: seq<Middleware<S>>, s: S, f: Exc, e: Exc) {
    exists k :: 0 <= k < |mws| && mws[k](s, f) == Some(e) && NoneRaises(mws[..k], s, f)
  }

  // A failure `f` leaves the middlewares as `e`: control flow and cancellation as they are, anything
  // else as what the first of them raises that raises, or as it is.
  ghost predicate ObservedAs<S>(mws: seq<Middleware<S>>, s: S, f: Exc, e: Exc) {
    if f.cls in {ControlFlow, Cancelled} then e == f
    else FirstRaises(mws, s, f, e) || (NoneRaises(mws, s, f) && e == f)
  }

  lemma ObservedIff<S>(mws: seq<Middleware<S>>, s: S, f: Exc, e: Exc)
    ensures Or(Observe(mws, s, f).1, f) == e <==> ObservedAs(mws, s, f, e)
  {
    if f.cls !in {ControlFlow, Cancelled} {
      FirstRaisingMiddlewareWins(mws, s, f);
      var (k, out) := Observe(mws, s, f);
      if FirstRaises(mws, s, f, e) {
        var j :| 0 <= j < |mws| && mws[j](s, f) == Some(e) && NoneRaises(mws[..j], s, f);
        assert mws[j] in mws;
      } else if out.Some? {
        assert mws[k - 1](s, f) == out && NoneRaises(mws[..k - 1], s, f);
      }
    }
  }

  // What leaves a node when it fails: the exception of the pipeline item that raised it, unchanged; that
  // of the output contract, unchanged; or that of the node function, as the middlewares leave it.
  lemma WhichFailureLeaves<S(!new), V(!new)>(n: KlafiNode<S, V>, s: S, e: Exc)
    ensures RunNode(n, s).exit == Raised(e) <==>
      || Stopped(n.before, s, e)
      || (exists state, f ::
            Passed(n.before, s, state) && n.body(state) == Raised(f) && ObservedAs(n.onError, state, f, e))
      || (exists state, v ::
            Passed(n.before, s, state) && n.body(state) == Returned(v) && RefusedAfter(n, v, e))
  {
    StoppedIff(n.before, s, e);
    var entered := Apply(n.before, s).exit;
    forall state
      ensures Passed(n.before, s, state) <==> entered == Returned(state)
    {
      PassedIff(n.before, s, state);
    }
    if entered.Returned? {
      match n.body(entered.value)
      case Raised(f) => ObservedIff(n.onError, entered.value, f, e);
      case Returned(v) =>
        if n.coerce(v).Returned? {
          StoppedIff(n.after, n.coerce(v).value, e);
        }
    }
  }

  // A pipeline that is stopped showed each item up to the one that raised what the items before it made.
  lemma {:induction false} StoppedSeen<V>(items: seq<Item<V>>, v: V)
    requires Apply(items, v).exit.Raised?
    ensures var r := Apply(items, v);
      var n := |r.seen| - 1;
      && 0 <= n < |items| && Chain(items[..n], r.seen) && r.seen[0] == v
      && Refuses(items[n], r.seen[n], r.exit.exc)
  {
    var first := Act(items[0], v);
    if first.Returned? {
      StoppedSeen(items[1..], first.value);
      var rest := Apply(items[1..], first.value).seen;
      var n := |rest|;
      assert items[..n] == [items[0]] + items[1..][..n - 1];
      ActIff(items[0], v, first.value, Exc(Ordinary, 0));
      ChainSplits(items[..n], v, rest);
      assert items[..n][1..] == items[1..][..n - 1];
    }
  }

  // The whole order of a node, failing or not: its before items, the node function if they passed, and
  // then the middlewares if it failed, or its after items if the output contract accepted its result.
  lemma StepsInOrder<S, V>(n: KlafiNode<S, V>, s: S)
    ensures var b := Apply(n.before, s);
      var steps := RunNode(n, s).steps;
      if b.exit.Raised? then steps == Entered(b.seen)
      else
        var out := n.body(b.exit.value);
        var rest :=
          if out.Raised? then Steps(Observe(n.onError, b.exit.value, out.exc).0, Observed(b.exit.value, out.exc))
          else if n.coerce(out.value).Raised? then []
          else Left(Apply(n.after, n.coerce(out.value).value).seen);
        steps == Entered(b.seen) + ([Body(b.exit.value)] + rest)
  {
    var b := Apply(n.before, s);
    if b.exit.Returned? {
      var body: seq<NodeStep<S, V>> := [Body(b.exit.value)];
      assert body + [] == body;
    }
  }

  // The output contract or an item of the after pipeline raises `e`.
  ghost predicate RefusedAfter<S, V(!new)>(n: KlafiNode<S, V>, v: V, e: Exc) {
    n.coerce(v) == Raised(e) || (n.coerce(v).Returned? && Stopped(n.after, n.coerce(v).value, e))
  }

  function Call<S, V>(n: KlafiNode<S, V>): S -> Inner<NodeStep<S, V>, V> {
    (s: S) => RunNode(n, s)
  }

  // The order of a run that returns: before-hooks from the outside in, the before pipeline, the
  // node, the after pipeline, after-hooks and then finally-hooks from the inside out. The hooks
  // see the state from before the pipeline, and the result from after it.
  lemma OnionOfAReturn<S, V>(hooks: seq<NodeHook<S, V>>, n: KlafiNode<S, V>, s: S)
    requires RunHooked(hooks, s, Call(n)).exit.Returned?
    ensures var run := RunHooked(hooks, s, Call(n));
      var b := Apply(n.before, s);
      && b.exit.Returned?
      && n.body(b.exit.value).Returned?
      && n.coerce(n.body(b.exit.value).value).Returned?
      && var a := Apply(n.after, n.coerce(n.body(b.exit.value).value).value);
      && a.exit == run.exit
      && run.trace ==
           Fires(IdsOf(hooks), BeforeNode(s)) +
           (Insides(Entered(b.seen) + ([Body(b.exit.value)] + Left(a.seen))) +
            Fires(Reversed(IdsOf(hooks)), AfterNode(s, run.exit.value)) +
            Fires(Reversed(IdsOf(hooks)), FinallyNode(s)))
  {
    ReturnsExactlyWhen(hooks, s, Call(n));
    var v := RunNode(n, s).exit.value;
    EveryHookFires(hooks, BeforeNode(s), false);
    NoneEscapesReversed(hooks, AfterNode(s, v), false);
    EveryHookFires(Reversed(hooks), AfterNode(s, v), false);
    NoneRaisesBaseIff(hooks, FinallyNode(s));
    NoneEscapesReversed(hooks, FinallyNode(s), true);
    EveryHookFires(Reversed(hooks), FinallyNode(s), true);
    IdsOfReversed(hooks);
  }

  lemma EveryHookFires<M>(hooks: seq<Hook<M>>, m: M, swallow: bool)
    requires NoneEscapes(hooks, m, swallow)
    ensures Sweep(hooks, m, swallow) == SweepResult(IdsOf(hooks), None)
  {
    NothingOutIff(hooks, m, swallow);
    FiredIsPrefix(hooks, m, swallow);
  }

  // ---------------------------------------------------------------------------
  // The loops of the source

  // `seen` are the values of the items before `i`, and `value` is what item `i` will receive.
  ghost predicate AppliedSoFar<V>(items: seq<Item<V>>, v: V, seen: seq<V>, value: V, i: nat)
    requires i <= |items|
  {
    var rest := Apply(items[i..], value);
    Apply(items, v) == Applied(seen + rest.seen, rest.exit)
  }

  lemma ApplyStep<V>(items: seq<Item<V>>, v: V, seen: seq<V>, value: V, i: nat)
    requires i < |items| && AppliedSoFar(items, v, seen, value, i)
    ensures var out := Act(items[i], value);
      if out.Raised? then Apply(items, v) == Applied(seen + [value], Raised(out.exc))
      else AppliedSoFar(items, v, seen + [value], out.value, i + 1)
  {
    var tail := items[i..];
    assert tail[0] == items[i] && tail[1..] == items[i + 1..];
    var out := Act(items[i], value);
    if out.Returned? {
      var rest := Apply(items[i + 1..], out.value).seen;
      assert seen + ([value] + rest) == (seen + [value]) + rest;
    }
  }

  method ApplyItem<V>(it: Item<V>, v: V) returns (out: Outcome<V>)
    ensures out == Act(it, v)
  {
    if it.Guard? {
      out := it.enforce(v);
    } else {
      var step := it.f(v);
      match step
      case Keep => out := Returned(v);
      case Replace(w) => out := Returned(w);
      case Raise(e) => out := Raised(e);
    }
  }

  method ApplyItems<V>(items: seq<Item<V>>, v: V) returns (r: Applied<V>)
    ensures r == Apply(items, v)
  {
    var seen, value := [], v;
    for i := 0 to |items|
      invariant AppliedSoFar(items, v, seen, value, i)
    {
      ApplyStep(items, v, seen, value, i);
      var out := ApplyItem(items[i], value);
      seen := seen + [value];
      if out.Raised? {
        return Applied(seen, out);
      }
      value := out.value;
    }
    r := Applied(seen, Returned(value));
  }

  method FireError<S>(mws: seq<Middleware<S>>, s: S, e: Exc) returns (fired: nat, out: Option<Exc>)
    ensures (fired, out) == Observe(mws, s, e)
  {
    fired, out := 0, None;
    if IsControlFlow(e) {
      return;
    }
    while fired < |mws|
      invariant fired <= |mws|
      invariant var (n, x) := Observe(mws[fired..], s, e); Observe(mws, s, e) == (fired + n, x)
    {
      assert mws[fired..][0] == mws[fired] && mws[fired..][1..] == mws[fired + 1..];
      var raised := mws[fired](s, e);
      fired := fired + 1;
      if raised.Some? {
        return fired, raised;
      }
    }
  }

  method Wrapped<S, V>(n: KlafiNode<S, V>, s: S) returns (r: Inner<NodeStep<S, V>, V>)
    ensures r == RunNode(n, s)
  {
    var entered := ApplyItems(n.before, s);
    if entered.exit.Raised? {
      return Inner(Entered(entered.seen), Raised(entered.exit.exc));
    }
    var state := entered.exit.value;
    var result := n.body(state);
    if result.Raised? {
      var fired, out := FireError(n.onError, state, result.exc);
      return Inner(Entered(entered.seen) + ([Body(state)] + Steps(fired, Observed(state, result.exc))),
                   Raised(Or(out, result.exc)));
    }
    result := n.coerce(result.value);
    if result.Raised? {
      return Inner(Entered(entered.seen) + [Body(state)], result);
    }
    var left := ApplyItems(n.after, result.value);
    r := Inner(Entered(entered.seen) + ([Body(state)] + Left(left.seen)), left.exit);
  }
}
