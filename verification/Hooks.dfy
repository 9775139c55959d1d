/**
  The hook engine: resolving the hooks of a run, firing them around a node, and
  transforming a value at a boundary.

  A hook is a priority, two flags and an arbitrary reaction: what it raises, if
  anything, for each signal it receives. A run is the trace of everything that
  fired together with how it ended.
 */
module Hooks {
  import opened Wrappers
  import opened Exceptions

  datatype Hook<!M> = Hook(id: nat, priority: int, enabled: bool, failOpen: bool, react: M -> Option<Exc>)

  // ---------------------------------------------------------------------------
  // Resolution: enabled hooks, global ones first, stably sorted by priority

  function Enabled<M>(hooks: seq<Hook<M>>): seq<Hook<M>> {
    if hooks == [] then []
    else (if hooks[0].enabled then [hooks[0]] else []) + Enabled(hooks[1..])
  }

  function Insert<M>(h: Hook<M>, hooks: seq<Hook<M>>): seq<Hook<M>> {
    if hooks == [] || h.priority <= hooks[0].priority then [h] + hooks
    else [hooks[0]] + Insert(h, hooks[1..])
  }

  function Sort<M>(hooks: seq<Hook<M>>): seq<Hook<M>> {
    if hooks == [] then [] else Insert(hooks[0], Sort(hooks[1..]))
  }

  function ResolveHooks<M>(globalHooks: seq<Hook<M>>, agentHooks: seq<Hook<M>>): seq<Hook<M>> {
    Sort(Enabled(globalHooks + agentHooks))
  }

  ghost predicate Sorted<M>(hooks: seq<Hook<M>>) {
    forall i, j :: 0 <= i < j < |hooks| ==> hooks[i].priority <= hooks[j].priority
  }

  // The hooks of one priority, in order.
  function AtPriority<M>(hooks: seq<Hook<M>>, p: int): seq<Hook<M>> {
    if hooks == [] then []
    else (if hooks[0].priority == p then [hooks[0]] else []) + AtPriority(hooks[1..], p)
  }

  ghost predicate SameAtEveryPriority<M>(a: seq<Hook<M>>, b: seq<Hook<M>>) {
    forall p :: AtPriority(a, p) == AtPriority(b, p)
  }

  lemma {:induction false} InsertKeepsOrder<M>(h: Hook<M>, hooks: seq<Hook<M>>)
    requires Sorted(hooks)
    ensures Sorted(Insert(h, hooks))
    ensures |Insert(h, hooks)| == |hooks| + 1
    ensures Insert(h, hooks)[0] == h ||
      (hooks != [] && Insert(h, hooks)[0] == hooks[0] && hooks[0].priority < h.priority)
  {
    if hooks != [] && h.priority > hooks[0].priority {
      InsertKeepsOrder(h, hooks[1..]);
      var rest := Insert(h, hooks[1..]);
      forall j | 0 <= j < |rest|
        ensures hooks[0].priority <= rest[j].priority
      {
        assert rest[0].priority <= rest[j].priority;
      }
    }
  }

  lemma {:induction false} InsertAtPriority<M>(h: Hook<M>, hooks: seq<Hook<M>>, p: int)
    requires Sorted(hooks)
    ensures AtPriority(Insert(h, hooks), p) == (if h.priority == p then [h] else []) + AtPriority(hooks, p)
  {
    if hooks == [] || h.priority <= hooks[0].priority {
      assert ([h] + hooks)[1..] == hooks;
    } else {
      InsertAtPriority(h, hooks[1..], p);
      assert Insert(h, hooks)[1..] == Insert(h, hooks[1..]);
      if h.priority == p {
        NoneBelow(hooks[0], p);
      }
    }
  }

  lemma NoneBelow<M>(h: Hook<M>, p: int)
    requires h.priority < p
    ensures AtPriority([h], p) == []
  {}

  lemma {:induction false} SortIsStable<M>(hooks: seq<Hook<M>>)
    ensures Sorted(Sort(hooks))
    ensures SameAtEveryPriority(Sort(hooks), hooks)
  {
    if hooks != [] {
      SortIsStable(hooks[1..]);
      InsertKeepsOrder(hooks[0], Sort(hooks[1..]));
      forall p
        ensures AtPriority(Sort(hooks), p) == AtPriority(hooks, p)
      {
        InsertAtPriority(hooks[0], Sort(hooks[1..]), p);
      }
    }
  }

  lemma {:induction false} PriorityOccurs<M>(hooks: seq<Hook<M>>, p: int)
    requires Sorted(hooks) && AtPriority(hooks, p) != []
    ensures hooks != [] && hooks[0].priority <= p
  {
    if hooks[0].priority != p {
      PriorityOccurs(hooks[1..], p);
      assert hooks[0].priority <= hooks[1].priority;
    }
  }

  lemma DropHead<M>(hooks: seq<Hook<M>>, p: int)
    requires hooks != []
    ensures AtPriority(hooks[1..], p) == AtPriority(hooks, p)[if hooks[0].priority == p then 1 else 0..]
  {}

  lemma BothNonEmpty<M>(a: seq<Hook<M>>, b: seq<Hook<M>>)
    requires SameAtEveryPriority(a, b) || SameAtEveryPriority(b, a)
    requires b != []
    ensures a != []
  {
    var p := b[0].priority;
    assert AtPriority(b, p) != [];
    assert AtPriority(a, p) == AtPriority(b, p);
  }

  // The order is unique: sorted, and stable at every priority.
  lemma {:induction false} StableOrderIsUnique<M>(a: seq<Hook<M>>, b: seq<Hook<M>>)
    requires Sorted(a) && Sorted(b) && SameAtEveryPriority(a, b)
    ensures a == b
  {
    if b != [] {
      BothNonEmpty(a, b);
    }
    if a != [] {
      BothNonEmpty(b, a);
      assert AtPriority(a, a[0].priority)[0] == a[0];
      PriorityOccurs(b, a[0].priority);
      assert AtPriority(b, b[0].priority)[0] == b[0];
      PriorityOccurs(a, b[0].priority);
      assert a[0] == b[0];
      forall p
        ensures AtPriority(a[1..], p) == AtPriority(b[1..], p)
      {
        assert AtPriority(a, p) == AtPriority(b, p);
        DropHead(a, p);
        DropHead(b, p);
      }
      StableOrderIsUnique(a[1..], b[1..]);
    }
  }

  // The enabled hooks of one priority, in order.
  function EnabledAt<M>(hooks: seq<Hook<M>>, p: int): seq<Hook<M>> {
    if hooks == [] then []
    else (if hooks[0].enabled && hooks[0].priority == p then [hooks[0]] else []) + EnabledAt(hooks[1..], p)
  }

  // At every priority `r` has the enabled global hooks in registration order, and then those of the agent.
  ghost predicate KeepsRegistration<M>(r: seq<Hook<M>>, globalHooks: seq<Hook<M>>, agentHooks: seq<Hook<M>>) {
    forall p :: AtPriority(r, p) == EnabledAt(globalHooks, p) + EnabledAt(agentHooks, p)
  }

  lemma {:induction false} EnabledAtPriority<M>(hooks: seq<Hook<M>>, p: int)
    ensures AtPriority(Enabled(hooks), p) == EnabledAt(hooks, p)
  {
    if hooks != [] {
      EnabledAtPriority(hooks[1..], p);
      var rest := Enabled(hooks[1..]);
      assert Enabled(hooks) == if hooks[0].enabled then [hooks[0]] + rest else rest;
      assert ([hooks[0]] + rest)[1..] == rest;
    }
  }

  lemma {:induction false} EnabledAtConcat<M>(a: seq<Hook<M>>, b: seq<Hook<M>>, p: int)
    ensures EnabledAt(a + b, p) == EnabledAt(a, p) + EnabledAt(b, p)
  {
    if a == [] {
      assert a + b == b;
    } else {
      assert (a + b)[1..] == a[1..] + b;
      EnabledAtConcat(a[1..], b, p);
    }
  }

  // The resolved list is the one list that is sorted and keeps, at every priority, the enabled
  // global hooks in registration order followed by the enabled hooks of the agent.
  lemma ResolvedOrder<M>(globalHooks: seq<Hook<M>>, agentHooks: seq<Hook<M>>, r: seq<Hook<M>>)
    ensures r == ResolveHooks(globalHooks, agentHooks) <==>
      Sorted(r) && KeepsRegistration(r, globalHooks, agentHooks)
  {
    var enabled := Enabled(globalHooks + agentHooks);
    var resolved := ResolveHooks(globalHooks, agentHooks);
    SortIsStable(enabled);
    forall p
      ensures AtPriority(resolved, p) == EnabledAt(globalHooks, p) + EnabledAt(agentHooks, p)
    {
      EnabledAtPriority(globalHooks + agentHooks, p);
      EnabledAtConcat(globalHooks, agentHooks, p);
      assert AtPriority(resolved, p) == AtPriority(enabled, p);
    }
    if Sorted(r) && KeepsRegistration(r, globalHooks, agentHooks) {
      forall p
        ensures AtPriority(r, p) == AtPriority(resolved, p)
      {
        assert AtPriority(r, p) == EnabledAt(globalHooks, p) + EnabledAt(agentHooks, p);
      }
      StableOrderIsUnique(r, resolved);
    }
  }

  // ---------------------------------------------------------------------------
  // Sequences

  function Reversed<T>(s: seq<T>): (r: seq<T>)
    ensures |r| == |s|
  {
    if s == [] then [] else Reversed(s[1..]) + [s[0]]
  }

  lemma {:induction false} SameElements<T>(s: seq<T>, x: T)
    ensures x in Reversed(s) <==> x in s
  {
    if s != [] {
      SameElements(s[1..], x);
    }
  }

  function ButFirst<T>(s: seq<T>): seq<T> {
    if s == [] then [] else s[1..]
  }

  function ButLast<T>(s: seq<T>): seq<T> {
    if s == [] then [] else s[..|s| - 1]
  }

  lemma ButLastReversed<T>(s: seq<T>)
    ensures ButLast(Reversed(s)) == Reversed(ButFirst(s))
  {}

  function IdsOf<M>(hooks: seq<Hook<M>>): (r: seq<nat>)
    ensures |r| == |hooks|
  {
    if hooks == [] then [] else [hooks[0].id] + IdsOf(hooks[1..])
  }

  lemma {:induction false} IdsOfAppend<M>(hooks: seq<Hook<M>>, h: Hook<M>)
    ensures IdsOf(hooks + [h]) == IdsOf(hooks) + [h.id]
  {
    if hooks != [] {
      assert (hooks + [h])[1..] == hooks[1..] + [h];
      IdsOfAppend(hooks[1..], h);
    }
  }

  lemma {:induction false} IdsOfReversed<M>(hooks: seq<Hook<M>>)
    ensures IdsOf(Reversed(hooks)) == Reversed(IdsOf(hooks))
  {
    if hooks != [] {
      IdsOfReversed(hooks[1..]);
      IdsOfAppend(Reversed(hooks[1..]), hooks[0]);
    }
  }

  // ---------------------------------------------------------------------------
  // One sweep over the hooks

  // What gets out of one hook.
  function Escape<M>(h: Hook<M>, m: M, swallow: bool): Option<Exc> {
    var raised := h.react(m);
    if raised.Some? && IsException(raised.value) && (swallow || h.failOpen) then None else raised
  }

  datatype SweepResult = SweepResult(fired: seq<nat>, exc: Option<Exc>)

  // Hooks fire in order until one lets an exception out.
  function Sweep<M>(hooks: seq<Hook<M>>, m: M, swallow: bool): SweepResult {
    if hooks == [] then SweepResult([], None)
    else
      var out := Escape(hooks[0], m, swallow);
      if out.Some? then SweepResult([hooks[0].id], out)
      else
        var rest := Sweep(hooks[1..], m, swallow);
        SweepResult([hooks[0].id] + rest.fired, rest.exc)
  }

  lemma {:induction false} FiredIsPrefix<M>(hooks: seq<Hook<M>>, m: M, swallow: bool)
    ensures var r := Sweep(hooks, m, swallow);
      && r.fired <= IdsOf(hooks)
      && (r.exc.None? ==> r.fired == IdsOf(hooks))
      && (hooks != [] ==> r.fired != [])
  {
    if hooks != [] {
      FiredIsPrefix(hooks[1..], m, swallow);
    }
  }

  // `done` has fired, and hook `i` is next.
  ghost predicate Swept<M>(hooks: seq<Hook<M>>, m: M, swallow: bool, done: seq<nat>, i: nat)
    requires i <= |hooks|
  {
    var rest := Sweep(hooks[i..], m, swallow);
    Sweep(hooks, m, swallow) == SweepResult(done + rest.fired, rest.exc)
  }

  lemma SweepStep<M>(hooks: seq<Hook<M>>, m: M, swallow: bool, done: seq<nat>, i: nat)
    requires i < |hooks| && Swept(hooks, m, swallow, done, i)
    ensures var out := Escape(hooks[i], m, swallow);
      var more := done + [hooks[i].id];
      if out.Some? then Sweep(hooks, m, swallow) == SweepResult(more, out) else Swept(hooks, m, swallow, more, i + 1)
  {
    var tail := hooks[i..];
    assert tail[0] == hooks[i] && tail[1..] == hooks[i + 1..];
    var rest := Sweep(hooks[i + 1..], m, swallow).fired;
    assert done + ([hooks[i].id] + rest) == (done + [hooks[i].id]) + rest;
  }

  lemma SweepEnds<M>(hooks: seq<Hook<M>>, m: M, swallow: bool, done: seq<nat>)
    requires Swept(hooks, m, swallow, done, |hooks|)
    ensures Sweep(hooks, m, swallow) == SweepResult(done, None)
  {}

  ghost predicate NoneEscapes<M>(hooks: seq<Hook<M>>, m: M, swallow: bool) {
    forall h :: h in hooks ==> Escape(h, m, swallow).None?
  }

  // A hook raises a BaseException, which nothing swallows.
  predicate RaisesBase<M>(h: Hook<M>, m: M) {
    h.react(m).Some? && h.react(m).value.cls in {Cancelled, Fatal}
  }

  // A hook lets `e` out: it raised it, and neither the sweep nor the hook itself may swallow it.
  predicate LetsOut<M>(h: Hook<M>, m: M, swallow: bool, e: Exc) {
    h.react(m) == Some(e) && (e.cls in {Cancelled, Fatal} || !(swallow || h.failOpen))
  }

  ghost predicate Quiet<M>(hooks: seq<Hook<M>>, m: M, swallow: bool) {
    forall h, e :: h in hooks ==> !LetsOut(h, m, swallow, e)
  }

  // The first hook that lets something out, number `k`, lets out `e`.
  ghost predicate FirstOutAt<M>(hooks: seq<Hook<M>>, m: M, swallow: bool, e: Exc, k: nat) {
    k < |hooks| && LetsOut(hooks[k], m, swallow, e) && Quiet(hooks[..k], m, swallow)
  }

  ghost predicate FirstOut<M>(hooks: seq<Hook<M>>, m: M, swallow: bool, e: Exc) {
    exists k: nat :: FirstOutAt(hooks, m, swallow, e, k)
  }

  lemma EscapeIff<M>(h: Hook<M>, m: M, swallow: bool, e: Exc)
    ensures Escape(h, m, swallow) == Some(e) <==> LetsOut(h, m, swallow, e)
  {}

  // A sweep ends with what the first hook lets out that lets anything out; the hooks up to that one
  // fire, and no other. If none does, all fire and nothing gets out.
  lemma {:induction false} SweepStopsAtTheFirst<M>(hooks: seq<Hook<M>>, m: M, swallow: bool)
    ensures var r := Sweep(hooks, m, swallow);
      && (r.exc.None? ==> Quiet(hooks, m, swallow) && r.fired == IdsOf(hooks))
      && (r.exc.Some? ==> |r.fired| > 0 && FirstOutAt(hooks, m, swallow, r.exc.value, |r.fired| - 1))
      && r.fired <= IdsOf(hooks)
  {
    if hooks != [] {
      SweepStopsAtTheFirst(hooks[1..], m, swallow);
      var rest := Sweep(hooks[1..], m, swallow);
      assert hooks == [hooks[0]] + hooks[1..];
      if Escape(hooks[0], m, swallow).Some? {
        EscapeIff(hooks[0], m, swallow, Escape(hooks[0], m, swallow).value);
        assert hooks[..0] == [];
      } else if rest.exc.Some? {
        assert hooks[..|rest.fired|] == [hooks[0]] + hooks[1..][..|rest.fired| - 1];
      }
    }
  }

  // Which exception gets out of a sweep, if any.
  lemma FirstOutIff<M>(hooks: seq<Hook<M>>, m: M, swallow: bool, e: Exc)
    ensures Sweep(hooks, m, swallow).exc == Some(e) <==> FirstOut(hooks, m, swallow, e)
    ensures Sweep(hooks, m, swallow).exc == None <==> Quiet(hooks, m, swallow)
  {
    SweepStopsAtTheFirst(hooks, m, swallow);
    var r := Sweep(hooks, m, swallow);
    if FirstOut(hooks, m, swallow, e) {
      var k: nat :| FirstOutAt(hooks, m, swallow, e, k);
      assert hooks[k] in hooks;
      var j := |r.fired| - 1;
      assert FirstOutAt(hooks, m, swallow, r.exc.value, j);
    } else if r.exc.Some? {
      assert FirstOutAt(hooks, m, swallow, r.exc.value, |r.fired| - 1);
    }
    if r.exc.Some? {
      assert hooks[|r.fired| - 1] in hooks;
    }
  }

  ghost predicate NoneRaisesBase<M>(hooks: seq<Hook<M>>, m: M) {
    forall h :: h in hooks ==> !RaisesBase(h, m)
  }

  lemma NoneRaisesBaseIff<M>(hooks: seq<Hook<M>>, m: M)
    ensures NoneRaisesBase(hooks, m) <==> NoneEscapes(hooks, m, true)
  {
    forall h | h in hooks
      ensures RaisesBase(h, m) <==> Escape(h, m, true).Some?
    {}
  }

  lemma NoneEscapesReversed<M>(hooks: seq<Hook<M>>, m: M, swallow: bool)
    ensures NoneEscapes(Reversed(hooks), m, swallow) <==> NoneEscapes(hooks, m, swallow)
  {
    forall h | h in hooks || h in Reversed(hooks)
      ensures h in Reversed(hooks) <==> h in hooks
    {
      SameElements(hooks, h);
    }
  }

  lemma NoneEscapesSplits<M>(hooks: seq<Hook<M>>, m: M, swallow: bool)
    requires hooks != []
    ensures NoneEscapes(hooks, m, swallow) <==>
      Escape(hooks[0], m, swallow).None? && NoneEscapes(hooks[1..], m, swallow)
  {
    assert hooks == [hooks[0]] + hooks[1..];
  }

  lemma {:induction false} NothingOutIff<M>(hooks: seq<Hook<M>>, m: M, swallow: bool)
    ensures Sweep(hooks, m, swallow).exc.None? <==> NoneEscapes(hooks, m, swallow)
  {
    if hooks != [] {
      NothingOutIff(hooks[1..], m, swallow);
      NoneEscapesSplits(hooks, m, swallow);
    }
  }

  // All hooks fire exactly when none but the last one lets an exception out.
  lemma {:induction false} EveryoneFiresIff<M>(hooks: seq<Hook<M>>, m: M, swallow: bool)
    ensures Sweep(hooks, m, swallow).fired == IdsOf(hooks) <==> NoneEscapes(ButLast(hooks), m, swallow)
  {
    if |hooks| > 1 {
      EveryoneFiresIff(hooks[1..], m, swallow);
      assert ButLast(hooks)[1..] == ButLast(hooks[1..]);
      NoneEscapesSplits(ButLast(hooks), m, swallow);
      if Escape(hooks[0], m, swallow).Some? {
        assert |Sweep(hooks, m, swallow).fired| == 1;
      } else {
        assert Sweep(hooks, m, swallow).fired[1..] == Sweep(hooks[1..], m, swallow).fired;
        assert IdsOf(hooks)[1..] == IdsOf(hooks[1..]);
      }
    }
  }

  // ---------------------------------------------------------------------------
  // Traces

  // A hook that fired with its signal, or a step of what the hooks surround.
  datatype Event<M, X> = Fired(hook: nat, signal: M) | Inside(step: X)

  function Fires<M, X>(ids: seq<nat>, m: M): seq<Event<M, X>> {
    if ids == [] then [] else [Fired(ids[0], m)] + Fires(ids[1..], m)
  }

  lemma {:induction false} FiresAppend<M, X>(ids: seq<nat>, id: nat, m: M)
    ensures Fires<M, X>(ids + [id], m) == Fires<M, X>(ids, m) + [Fired(id, m)]
  {
    if ids != [] {
      assert (ids + [id])[1..] == ids[1..] + [id];
      FiresAppend<M, X>(ids[1..], id, m);
    }
  }

  lemma OneMoreFired<M, X>(trace: seq<Event<M, X>>, ids: seq<nat>, id: nat, m: M)
    ensures trace + Fires(ids + [id], m) == trace + Fires(ids, m) + [Fired(id, m)]
  {
    FiresAppend<M, X>(ids, id, m);
  }

  function Insides<M, X>(steps: seq<X>): seq<Event<M, X>> {
    if steps == [] then [] else [Inside(steps[0])] + Insides(steps[1..])
  }

  // The hooks that fired for the signals of one kind, in order.
  function FiredFor<M, X>(trace: seq<Event<M, X>>, kind: M -> bool): seq<nat> {
    if trace == [] then []
    else (if trace[0].Fired? && kind(trace[0].signal) then [trace[0].hook] else []) + FiredFor(trace[1..], kind)
  }

  lemma {:induction false} FiredForConcat<M, X>(a: seq<Event<M, X>>, b: seq<Event<M, X>>, kind: M -> bool)
    ensures FiredFor(a + b, kind) == FiredFor(a, kind) + FiredFor(b, kind)
  {
    if a == [] {
      assert a + b == b;
    } else {
      assert (a + b)[1..] == a[1..] + b;
      FiredForConcat(a[1..], b, kind);
    }
  }

  lemma {:induction false} FiredForFires<M, X>(ids: seq<nat>, m: M, kind: M -> bool)
    ensures FiredFor<M, X>(Fires(ids, m), kind) == if kind(m) then ids else []
  {
    if ids != [] {
      FiredForFires<M, X>(ids[1..], m, kind);
    }
  }

  lemma {:induction false} FiredForInsides<M, X>(steps: seq<X>, kind: M -> bool)
    ensures FiredFor<M, X>(Insides(steps), kind) == []
  {
    if steps != [] {
      FiredForInsides<M, X>(steps[1..], kind);
    }
  }

  // ---------------------------------------------------------------------------
  // Running a node inside its hooks

  datatype Signal<S, V> =
    | BeforeNode(state: S)
    | AfterNode(state: S, result: V)
    | NodeError(state: S, exc: Exc)
    | FinallyNode(state: S)

  datatype Phase = Before | After | Error | Finally

  function PhaseOf<S, V>(m: Signal<S, V>): Phase {
    match m
    case BeforeNode(_) => Before
    case AfterNode(_, _) => After
    case NodeError(_, _) => Error
    case FinallyNode(_) => Finally
  }

  type NodeHook<!S, !V> = Hook<Signal<S, V>>

  type Trace<S, V, X> = seq<Event<Signal<S, V>, X>>

  // What the node function does inside the hooks.
  datatype Inner<X, V> = Inner(steps: seq<X>, exit: Outcome<V>)

  datatype Run<S, V, X> = Run(trace: Trace<S, V, X>, exit: Outcome<V>)

  // The except block: control flow passes through, for anything else the error hooks fire.
  function Handle<S, V, X>(hooks: seq<NodeHook<S, V>>, s: S, e: Exc): Run<S, V, X> {
    if IsControlFlow(e) then Run([], Raised(e))
    else
      var r := Sweep(hooks, NodeError(s, e), true);
      Run(Fires(r.fired, NodeError(s, e)), Raised(if r.exc.Some? then r.exc.value else e))
  }

  // The after-hooks of a node that returned, and the except block if one of them raises.
  function Leave<S, V, X>(hooks: seq<NodeHook<S, V>>, s: S, v: V): Run<S, V, X> {
    var a := Sweep(Reversed(hooks), AfterNode(s, v), false);
    var fired: Trace<S, V, X> := Fires(a.fired, AfterNode(s, v));
    if a.exc.None? then Run(fired, Returned(v))
    else
      var handled: Run<S, V, X> := Handle(hooks, s, a.exc.value);
      Run(fired + handled.trace, handled.exit)
  }

  // The try and except blocks: the node, its after-hooks, and the error hooks.
  function Guarded<S, V, X>(hooks: seq<NodeHook<S, V>>, s: S, inner: Inner<X, V>): Run<S, V, X> {
    var rest: Run<S, V, X> :=
      if inner.exit.Returned? then Leave(hooks, s, inner.exit.value) else Handle(hooks, s, inner.exit.exc);
    Run(Insides(inner.steps) + rest.trace, rest.exit)
  }

  // With the finally block.
  function Protected<S, V, X>(hooks: seq<NodeHook<S, V>>, s: S, inner: Inner<X, V>): Run<S, V, X> {
    var body := Guarded(hooks, s, inner);
    var f := Sweep(Reversed(hooks), FinallyNode(s), true);
    Run(body.trace + Fires(f.fired, FinallyNode(s)), if f.exc.Some? then Raised(f.exc.value) else body.exit)
  }

  function RunHooked<S, V, X>(hooks: seq<NodeHook<S, V>>, s: S, call: S -> Inner<X, V>): Run<S, V, X> {
    var b := Sweep(hooks, BeforeNode(s), false);
    var opening: Trace<S, V, X> := Fires(b.fired, BeforeNode(s));
    if b.exc.Some? then Run(opening, Raised(b.exc.value))
    else
      var rest := Protected(hooks, s, call(s));
      Run(opening + rest.trace, rest.exit)
  }

  predicate InPhase<S, V>(phase: Phase, m: Signal<S, V>) {
    PhaseOf(m) == phase
  }

  // The hooks that fired in one phase, in order.
  function Of<S, V, X>(phase: Phase, trace: Trace<S, V, X>): seq<nat> {
    FiredFor(trace, (m: Signal<S, V>) => InPhase(phase, m))
  }

  lemma OfConcat<S, V, X>(phase: Phase, a: Trace<S, V, X>, b: Trace<S, V, X>)
    ensures Of(phase, a + b) == Of(phase, a) + Of(phase, b)
  {
    FiredForConcat(a, b, (m: Signal<S, V>) => InPhase(phase, m));
  }

  lemma OfFires<S, V, X>(phase: Phase, ids: seq<nat>, m: Signal<S, V>)
    ensures Of<S, V, X>(phase, Fires(ids, m)) == if PhaseOf(m) == phase then ids else []
  {
    FiredForFires<Signal<S, V>, X>(ids, m, (m: Signal<S, V>) => InPhase(phase, m));
  }

  lemma OfInsides<S, V, X>(phase: Phase, steps: seq<X>)
    ensures Of<S, V, X>(phase, Insides(steps)) == []
  {
    FiredForInsides(steps, (m: Signal<S, V>) => InPhase(phase, m));
  }

  // The exception, if any, that leaves the node or one of its after-hooks.
  function Failure<S, V, X>(hooks: seq<NodeHook<S, V>>, s: S, inner: Inner<X, V>): Option<Exc> {
    match inner.exit
    case Returned(v) => Sweep(Reversed(hooks), AfterNode(s, v), false).exc
    case Raised(e) => Some(e)
  }

  // The after-hooks and the error hooks that fire, in order.
  function AfterFired<S, V, X>(hooks: seq<NodeHook<S, V>>, s: S, inner: Inner<X, V>): seq<nat> {
    match inner.exit
    case Returned(v) => Sweep(Reversed(hooks), AfterNode(s, v), false).fired
    case Raised(_) => []
  }

  function ErrorFired<S, V>(hooks: seq<NodeHook<S, V>>, s: S, failure: Option<Exc>): seq<nat> {
    if failure.None? || IsControlFlow(failure.value) then [] else Sweep(hooks, NodeError(s, failure.value), true).fired
  }

  lemma HandlePhases<S, V, X>(hooks: seq<NodeHook<S, V>>, s: S, e: Exc, phase: Phase)
    ensures Of(phase, Handle<S, V, X>(hooks, s, e).trace) ==
      if phase == Error then ErrorFired(hooks, s, Some(e)) else []
  {
    if !IsControlFlow(e) {
      OfFires<S, V, X>(phase, Sweep(hooks, NodeError(s, e), true).fired, NodeError(s, e));
    }
  }

  lemma LeavePhases<S, V, X>(hooks: seq<NodeHook<S, V>>, s: S, v: V, phase: Phase)
    ensures var a := Sweep(Reversed(hooks), AfterNode(s, v), false);
      Of(phase, Leave<S, V, X>(hooks, s, v).trace) ==
        match phase
        case After => a.fired
        case Error => ErrorFired(hooks, s, a.exc)
        case _ => []
  {
    var m := AfterNode(s, v);
    var a := Sweep(Reversed(hooks), m, false);
    OfFires<S, V, X>(phase, a.fired, m);
    if a.exc.Some? {
      OfConcat(phase, Fires(a.fired, m), Handle<S, V, X>(hooks, s, a.exc.value).trace);
      HandlePhases<S, V, X>(hooks, s, a.exc.value, phase);
    }
  }

  lemma GuardedPhases<S, V, X>(hooks: seq<NodeHook<S, V>>, s: S, inner: Inner<X, V>, phase: Phase)
    ensures Of(phase, Guarded(hooks, s, inner).trace) ==
      match phase
      case After => AfterFired(hooks, s, inner)
      case Error => ErrorFired(hooks, s, Failure(hooks, s, inner))
      case _ => []
  {
    OfInsides<S, V, X>(phase, inner.steps);
    if inner.exit.Returned? {
      LeavePhases<S, V, X>(hooks, s, inner.exit.value, phase);
      OfConcat(phase, Insides(inner.steps), Leave<S, V, X>(hooks, s, inner.exit.value).trace);
    } else {
      HandlePhases<S, V, X>(hooks, s, inner.exit.exc, phase);
      OfConcat(phase, Insides(inner.steps), Handle<S, V, X>(hooks, s, inner.exit.exc).trace);
    }
  }

  ghost predicate BeforePasses<S, V>(hooks: seq<NodeHook<S, V>>, s: S) {
    NoneEscapes(hooks, BeforeNode(s), false)
  }

  // The before-hooks stand outside the try: when one of them lets an exception out, that exception
  // leaves the run, the node does not run and no after-, error- or finally-hook fires.
  lemma BeforeFailureFiresNothingElse<S, V, X>(hooks: seq<NodeHook<S, V>>, s: S, call: S -> Inner<X, V>)
    requires !BeforePasses(hooks, s)
    ensures var run := RunHooked(hooks, s, call);
      && run.exit.Raised?
      && (exists h :: h in hooks && Escape(h, BeforeNode(s), false) == Some(run.exit.exc))
      && run.trace == Fires(Of(Before, run.trace), BeforeNode(s))
      && Of(Before, run.trace) <= IdsOf(hooks)
      && Of(After, run.trace) == [] && Of(Error, run.trace) == [] && Of(Finally, run.trace) == []
  {
    NothingOutIff(hooks, BeforeNode(s), false);
    FiredIsPrefix(hooks, BeforeNode(s), false);
    OutOfSome(hooks, BeforeNode(s), false);
    var ids := Sweep(hooks, BeforeNode(s), false).fired;
    OfFires<S, V, X>(Before, ids, BeforeNode(s));
    OfFires<S, V, X>(After, ids, BeforeNode(s));
    OfFires<S, V, X>(Error, ids, BeforeNode(s));
    OfFires<S, V, X>(Finally, ids, BeforeNode(s));
  }

  lemma {:induction false} OutOfSome<M>(hooks: seq<Hook<M>>, m: M, swallow: bool)
    requires Sweep(hooks, m, swallow).exc.Some?
    ensures exists h :: h in hooks && Escape(h, m, swallow) == Sweep(hooks, m, swallow).exc
  {
    if Escape(hooks[0], m, swallow).None? {
      OutOfSome(hooks[1..], m, swallow);
    } else {
      assert hooks[0] in hooks;
    }
  }

  lemma ProtectedPhases<S, V, X>(hooks: seq<NodeHook<S, V>>, s: S, inner: Inner<X, V>, phase: Phase)
    ensures Of(phase, Protected(hooks, s, inner).trace) ==
      match phase
      case Before => []
      case After => AfterFired(hooks, s, inner)
      case Error => ErrorFired(hooks, s, Failure(hooks, s, inner))
      case Finally => Sweep(Reversed(hooks), FinallyNode(s), true).fired
  {
    var ids := Sweep(Reversed(hooks), FinallyNode(s), true).fired;
    OfConcat(phase, Guarded(hooks, s, inner).trace, Fires(ids, FinallyNode(s)));
    GuardedPhases(hooks, s, inner, phase);
    OfFires<S, V, X>(phase, ids, FinallyNode(s));
  }

  // Past the before-hooks, every phase is determined: before-hooks in resolved order, after and
  // finally from the innermost hook outwards, error hooks in resolved order.
  lemma PhasesOfRun<S, V, X>(hooks: seq<NodeHook<S, V>>, s: S, call: S -> Inner<X, V>, phase: Phase)
    requires BeforePasses(hooks, s)
    ensures Of(phase, RunHooked(hooks, s, call).trace) ==
      match phase
      case Before => IdsOf(hooks)
      case After => AfterFired(hooks, s, call(s))
      case Error => ErrorFired(hooks, s, Failure(hooks, s, call(s)))
      case Finally => Sweep(Reversed(hooks), FinallyNode(s), true).fired
  {
    NothingOutIff(hooks, BeforeNode(s), false);
    FiredIsPrefix(hooks, BeforeNode(s), false);
    OfConcat(phase, Fires(IdsOf(hooks), BeforeNode(s)), Protected(hooks, s, call(s)).trace);
    OfFires<S, V, X>(phase, IdsOf(hooks), BeforeNode(s));
    ProtectedPhases(hooks, s, call(s), phase);
  }

  // The whole trace of a run past its before-hooks, in order: those, the node, its after-hooks if it
  // returned, the error hooks if it failed, and the finally-hooks, each with the signal of its phase.
  lemma RunInOrder<S, V, X>(hooks: seq<NodeHook<S, V>>, s: S, call: S -> Inner<X, V>)
    requires BeforePasses(hooks, s)
    ensures var inner := call(s);
      var failure := Failure(hooks, s, inner);
      var left: Trace<S, V, X> :=
        if inner.exit.Returned? then Fires(AfterFired(hooks, s, inner), AfterNode(s, inner.exit.value)) else [];
      var failed: Trace<S, V, X> :=
        if failure.Some? then Fires(ErrorFired(hooks, s, failure), NodeError(s, failure.value)) else [];
      RunHooked(hooks, s, call).trace ==
        Fires(IdsOf(hooks), BeforeNode(s)) +
        (Insides(inner.steps) + (left + failed) +
         Fires(Sweep(Reversed(hooks), FinallyNode(s), true).fired, FinallyNode(s)))
  {
    NothingOutIff(hooks, BeforeNode(s), false);
    FiredIsPrefix(hooks, BeforeNode(s), false);
    var inner := call(s);
    if inner.exit.Returned? {
      var a: Trace<S, V, X> := Fires(AfterFired(hooks, s, inner), AfterNode(s, inner.exit.value));
      assert a + [] == a;
    } else {
      var h := Handle<S, V, X>(hooks, s, inner.exit.exc).trace;
      assert [] + h == h;
    }
  }

  // The onion: before-hooks fire in resolved order, after- and finally-hooks in the reverse of it.
  lemma OnionOrder<S, V, X>(hooks: seq<NodeHook<S, V>>, s: S, call: S -> Inner<X, V>)
    requires BeforePasses(hooks, s)
    ensures var t := RunHooked(hooks, s, call).trace;
      && Of(Before, t) == IdsOf(hooks)
      && Of(After, t) <= Reversed(IdsOf(hooks))
      && Of(Error, t) <= IdsOf(hooks)
      && Of(Finally, t) <= Reversed(IdsOf(hooks))
  {
    PhasesOfRun(hooks, s, call, Before);
    PhasesOfRun(hooks, s, call, After);
    PhasesOfRun(hooks, s, call, Error);
    PhasesOfRun(hooks, s, call, Finally);
    IdsOfReversed(hooks);
    FiredIsPrefix(Reversed(hooks), FinallyNode(s), true);
    var inner := call(s);
    if inner.exit.Returned? {
      FiredIsPrefix(Reversed(hooks), AfterNode(s, inner.exit.value), false);
    }
    if Failure(hooks, s, inner).Some? {
      FiredIsPrefix(hooks, NodeError(s, Failure(hooks, s, inner).value), true);
    }
  }

  // Every finally-hook fires exactly once, in reverse order, on every exit, if and only if none
  // but the outermost raises a BaseException there: _finally swallows only Exceptions.
  lemma FinallyFiresOnceIff<S, V, X>(hooks: seq<NodeHook<S, V>>, s: S, call: S -> Inner<X, V>)
    requires BeforePasses(hooks, s)
    ensures Of(Finally, RunHooked(hooks, s, call).trace) == Reversed(IdsOf(hooks)) <==>
      NoneRaisesBase(ButFirst(hooks), FinallyNode(s))
  {
    PhasesOfRun(hooks, s, call, Finally);
    IdsOfReversed(hooks);
    EveryoneFiresIff(Reversed(hooks), FinallyNode(s), true);
    ButLastReversed(hooks);
    NoneEscapesReversed(ButFirst(hooks), FinallyNode(s), true);
    NoneRaisesBaseIff(ButFirst(hooks), FinallyNode(s));
  }

  // The property that every finally-hook fires fails here: the inner hook is interrupted, and the
  // outer one never fires.
  lemma InterruptedFinally(s: nat)
    ensures var quiet := Hook(0, 1, true, true, (m: Signal<nat, nat>) => None);
      var interrupted := Hook(1, 2, true, true,
        (m: Signal<nat, nat>) => if m.FinallyNode? then Some(Exc(Fatal, 0)) else None);
      var run := RunHooked([quiet, interrupted], s, (x: nat) => Inner<nat, nat>.Inner([], Returned(x)));
      Of(Finally, run.trace) == [1] && run.exit == Raised(Exc(Fatal, 0))
  {
    var quiet := Hook(0, 1, true, true, (m: Signal<nat, nat>) => None);
    var interrupted := Hook(1, 2, true, true,
        (m: Signal<nat, nat>) => if m.FinallyNode? then Some(Exc(Fatal, 0)) else None);
    var hooks := [quiet, interrupted];
    var call := (x: nat) => Inner<nat, nat>.Inner([], Returned(x));
    PhasesOfRun(hooks, s, call, Finally);
    NothingOutIff(hooks, BeforeNode(s), false);
    assert Reversed(hooks) == [interrupted, quiet];
  }

  // The node fails with `f`: it raises it itself, or returns and an after-hook lets it out.
  ghost predicate Fails<S, V, X>(hooks: seq<NodeHook<S, V>>, s: S, inner: Inner<X, V>, f: Exc) {
    match inner.exit
    case Raised(e) => f == e
    case Returned(v) => FirstOut(Reversed(hooks), AfterNode(s, v), false, f)
  }

  lemma FailsIff<S, V, X>(hooks: seq<NodeHook<S, V>>, s: S, inner: Inner<X, V>, f: Exc)
    ensures Fails(hooks, s, inner, f) <==> Failure(hooks, s, inner) == Some(f)
  {
    if inner.exit.Returned? {
      FirstOutIff(Reversed(hooks), AfterNode(s, inner.exit.value), false, f);
    }
  }

  // A failure `f` under handling leaves as `e`: control flow and cancellation as they are, anything
  // else as what the first error hook lets out that lets anything out, or as it is.
  ghost predicate HandledAs<M>(hooks: seq<Hook<M>>, m: M, f: Exc, e: Exc) {
    if f.cls in {ControlFlow, Cancelled} then e == f
    else FirstOut(hooks, m, true, e) || (Quiet(hooks, m, true) && e == f)
  }

  // Which exception leaves a run: that of the first before-hook, or of the first finally-hook, or the
  // failure of the node as the error hooks leave it; in that order of precedence.
  ghost predicate LeavesWith<S, V, X>(hooks: seq<NodeHook<S, V>>, s: S, inner: Inner<X, V>, e: Exc) {
    || FirstOut(hooks, BeforeNode(s), false, e)
    || (Quiet(hooks, BeforeNode(s), false) && FirstOut(Reversed(hooks), FinallyNode(s), true, e))
    || (&& Quiet(hooks, BeforeNode(s), false) && Quiet(Reversed(hooks), FinallyNode(s), true)
        && exists f :: Fails(hooks, s, inner, f) && HandledAs(hooks, NodeError(s, f), f, e))
  }

  lemma HandledIff<S, V, X>(hooks: seq<NodeHook<S, V>>, s: S, f: Exc, e: Exc)
    ensures Handle<S, V, X>(hooks, s, f).exit == Raised(e) <==> HandledAs(hooks, NodeError(s, f), f, e)
  {
    FirstOutIff(hooks, NodeError(s, f), true, e);
    if Sweep(hooks, NodeError(s, f), true).exc.Some? {
      FirstOutIff(hooks, NodeError(s, f), true, Sweep(hooks, NodeError(s, f), true).exc.value);
    }
  }

  // The exception that leaves a failing run, for every node and all hooks.
  lemma WhichExceptionLeaves<S, V, X>(hooks: seq<NodeHook<S, V>>, s: S, call: S -> Inner<X, V>, e: Exc)
    ensures RunHooked(hooks, s, call).exit == Raised(e) <==> LeavesWith(hooks, s, call(s), e)
  {
    var inner := call(s);
    var before, after := Sweep(hooks, BeforeNode(s), false).exc, Sweep(Reversed(hooks), FinallyNode(s), true).exc;
    FirstOutIff(hooks, BeforeNode(s), false, e);
    FirstOutIff(Reversed(hooks), FinallyNode(s), true, e);
    if before.Some? {
      FirstOutIff(hooks, BeforeNode(s), false, before.value);
    } else if after.Some? {
      FirstOutIff(Reversed(hooks), FinallyNode(s), true, after.value);
    } else {
      var failure := Failure(hooks, s, inner);
      forall f | Fails(hooks, s, inner, f)
        ensures failure == Some(f)
      {
        FailsIff(hooks, s, inner, f);
      }
      if failure.Some? {
        FailsIff(hooks, s, inner, failure.value);
        HandledIff<S, V, X>(hooks, s, failure.value, e);
      }
    }
  }

  // Error hooks fire exactly when an exception that is not control flow leaves the node or an
  // after-hook.
  lemma ErrorHooksFireExactlyWhen<S, V, X>(hooks: seq<NodeHook<S, V>>, s: S, call: S -> Inner<X, V>)
    requires BeforePasses(hooks, s) && hooks != []
    ensures Of(Error, RunHooked(hooks, s, call).trace) != [] <==>
      exists f :: Fails(hooks, s, call(s), f) && f.cls !in {ControlFlow, Cancelled}
  {
    PhasesOfRun(hooks, s, call, Error);
    var failure := Failure(hooks, s, call(s));
    if failure.Some? {
      FiredIsPrefix(hooks, NodeError(s, failure.value), true);
      FailsIff(hooks, s, call(s), failure.value);
    }
    forall f | Fails(hooks, s, call(s), f)
      ensures failure == Some(f)
    {
      FailsIff(hooks, s, call(s), f);
    }
  }

  // All of them do, in resolved order, unless one but the last raises a BaseException.
  lemma EveryErrorHookFiresIff<S, V, X>(hooks: seq<NodeHook<S, V>>, s: S, call: S -> Inner<X, V>, e: Exc)
    requires BeforePasses(hooks, s) && Fails(hooks, s, call(s), e) && e.cls !in {ControlFlow, Cancelled}
    ensures Of(Error, RunHooked(hooks, s, call).trace) == IdsOf(hooks) <==>
      NoneRaisesBase(ButLast(hooks), NodeError(s, e))
  {
    FailsIff(hooks, s, call(s), e);
    PhasesOfRun(hooks, s, call, Error);
    EveryoneFiresIff(hooks, NodeError(s, e), true);
    NoneRaisesBaseIff(ButLast(hooks), NodeError(s, e));
  }

  // A run returns exactly when nothing lets an exception out, and then returns what the node did.
  lemma ReturnsExactlyWhen<S, V, X>(hooks: seq<NodeHook<S, V>>, s: S, call: S -> Inner<X, V>)
    ensures var run := RunHooked(hooks, s, call);
      var exit := call(s).exit;
      && (run.exit.Returned? <==>
            && BeforePasses(hooks, s)
            && exit.Returned?
            && NoneEscapes(hooks, AfterNode(s, exit.value), false)
            && NoneRaisesBase(hooks, FinallyNode(s)))
      && (run.exit.Returned? ==> run.exit == exit)
  {
    NothingOutIff(hooks, BeforeNode(s), false);
    var exit := call(s).exit;
    if exit.Returned? {
      NothingOutIff(Reversed(hooks), AfterNode(s, exit.value), false);
      NoneEscapesReversed(hooks, AfterNode(s, exit.value), false);
    }
    NothingOutIff(Reversed(hooks), FinallyNode(s), true);
    NoneEscapesReversed(hooks, FinallyNode(s), true);
    NoneRaisesBaseIff(hooks, FinallyNode(s));
  }

  // ---------------------------------------------------------------------------
  // Deleting hooks

  // The hooks kept by a mask.
  function Kept<M>(hooks: seq<Hook<M>>, keep: seq<bool>): seq<Hook<M>>
    requires |hooks| == |keep|
  {
    if hooks == [] then []
    else (if keep[0] then [hooks[0]] else []) + Kept(hooks[1..], keep[1..])
  }

  // Fail-open, and raises nothing but Exceptions.
  ghost predicate Observer<M(!new)>(h: Hook<M>) {
    h.failOpen && forall m :: h.react(m).Some? ==> IsException(h.react(m).value)
  }

  ghost predicate OnlyObserversGo<M(!new)>(hooks: seq<Hook<M>>, keep: seq<bool>) {
    && |hooks| == |keep|
    && (forall i :: 0 <= i < |hooks| && !keep[i] ==> Observer(hooks[i]))
  }

  lemma {:induction false} SweepWithoutObservers<M(!new)>(hooks: seq<Hook<M>>, keep: seq<bool>, m: M, swallow: bool)
    requires OnlyObserversGo(hooks, keep)
    ensures Sweep(Kept(hooks, keep), m, swallow).exc == Sweep(hooks, m, swallow).exc
  {
    if hooks != [] {
      SweepWithoutObservers(hooks[1..], keep[1..], m, swallow);
      if keep[0] {
        assert Kept(hooks, keep)[1..] == Kept(hooks[1..], keep[1..]);
      } else {
        assert Observer(hooks[0]);
        assert Kept(hooks, keep) == Kept(hooks[1..], keep[1..]);
      }
    }
  }

  lemma {:induction false} KeptAppend<M>(hooks: seq<Hook<M>>, keep: seq<bool>, h: Hook<M>, k: bool)
    requires |hooks| == |keep|
    ensures Kept(hooks + [h], keep + [k]) == Kept(hooks, keep) + if k then [h] else []
  {
    var more, flags := hooks + [h], keep + [k];
    if hooks == [] {
      assert more[1..] == [] && flags[1..] == [];
    } else {
      assert more[1..] == hooks[1..] + [h] && flags[1..] == keep[1..] + [k];
      KeptAppend(hooks[1..], keep[1..], h, k);
    }
  }

  lemma {:induction false} KeptReversed<M>(hooks: seq<Hook<M>>, keep: seq<bool>)
    requires |hooks| == |keep|
    ensures Reversed(Kept(hooks, keep)) == Kept(Reversed(hooks), Reversed(keep))
  {
    if hooks != [] {
      var rest := Kept(hooks[1..], keep[1..]);
      KeptReversed(hooks[1..], keep[1..]);
      assert ([hooks[0]] + rest)[1..] == rest;
      assert Kept(hooks, keep) == if keep[0] then [hooks[0]] + rest else rest;
      KeptAppend(Reversed(hooks[1..]), Reversed(keep[1..]), hooks[0], keep[0]);
    }
  }

  lemma ObserversReversed<M(!new)>(hooks: seq<Hook<M>>, keep: seq<bool>)
    requires OnlyObserversGo(hooks, keep)
    ensures OnlyObserversGo(Reversed(hooks), Reversed(keep))
  {
    if hooks != [] {
      ObserversReversed(hooks[1..], keep[1..]);
    }
  }

  lemma SweepsWithoutObservers<M(!new)>(hooks: seq<Hook<M>>, keep: seq<bool>, m: M, swallow: bool)
    requires OnlyObserversGo(hooks, keep)
    ensures Sweep(Kept(hooks, keep), m, swallow).exc == Sweep(hooks, m, swallow).exc
    ensures Sweep(Reversed(Kept(hooks, keep)), m, swallow).exc == Sweep(Reversed(hooks), m, swallow).exc
  {
    SweepWithoutObservers(hooks, keep, m, swallow);
    KeptReversed(hooks, keep);
    ObserversReversed(hooks, keep);
    SweepWithoutObservers(Reversed(hooks), Reversed(keep), m, swallow);
  }

  // Deleting any set of observers changes neither the value nor the exception of any run.
  lemma ObserversAreInvisible<S(!new), V(!new), X>(hooks: seq<NodeHook<S, V>>, keep: seq<bool>, s: S,
      call: S -> Inner<X, V>)
    requires OnlyObserversGo(hooks, keep)
    ensures RunHooked(Kept(hooks, keep), s, call).exit == RunHooked(hooks, s, call).exit
  {
    SweepsWithoutObservers(hooks, keep, BeforeNode(s), false);
    SweepsWithoutObservers(hooks, keep, FinallyNode(s), true);
    var inner := call(s);
    var failure := Failure(hooks, s, inner);
    if inner.exit.Returned? {
      SweepsWithoutObservers(hooks, keep, AfterNode(s, inner.exit.value), false);
    }
    if failure.Some? {
      SweepsWithoutObservers(hooks, keep, NodeError(s, failure.value), true);
    }
  }

  // ---------------------------------------------------------------------------
  // Transforming a value at a boundary

  datatype Step<+V> = Keep | Replace(value: V) | Raise(exc: Exc)

  function Transform<M, V>(hooks: seq<Hook<M>>, act: (Hook<M>, V) -> Step<V>, value: V): Outcome<V> {
    if hooks == [] then Returned(value)
    else
      match act(hooks[0], value)
      case Keep => Transform(hooks[1..], act, value)
      case Replace(v) => Transform(hooks[1..], act, v)
      case Raise(e) =>
        if IsException(e) && hooks[0].failOpen then Transform(hooks[1..], act, value) else Raised(e)
  }

  lemma {:induction false} TransformSplits<M, V>(a: seq<Hook<M>>, b: seq<Hook<M>>, act: (Hook<M>, V) -> Step<V>,
      value: V)
    ensures var first := Transform(a, act, value);
      Transform(a + b, act, value) == if first.Raised? then first else Transform(b, act, first.value)
  {
    if a == [] {
      assert a + b == b;
    } else {
      assert (a + b)[1..] == a[1..] + b;
      match act(a[0], value)
      case Keep => TransformSplits(a[1..], b, act, value);
      case Replace(v) => TransformSplits(a[1..], b, act, v);
      case Raise(e) =>
        if IsException(e) && a[0].failOpen {
          TransformSplits(a[1..], b, act, value);
        }
    }
  }

  // A hook takes the value on: it keeps it, replaces it, or fails open and leaves it as it was.
  ghost predicate Takes<M, V>(h: Hook<M>, act: (Hook<M>, V) -> Step<V>, v: V, w: V) {
    match act(h, v)
    case Keep => w == v
    case Replace(x) => w == x
    case Raise(e) => h.failOpen && e.cls !in {Cancelled, Fatal} && w == v
  }

  // A hook stops the value: it raises, and does not fail open or raises a BaseException.
  ghost predicate Stops<M, V>(h: Hook<M>, act: (Hook<M>, V) -> Step<V>, v: V, e: Exc) {
    act(h, v) == Raise(e) && (!h.failOpen || e.cls in {Cancelled, Fatal})
  }

  // Hook after hook, the value goes through `values`.
  ghost predicate Passage<M, V>(hooks: seq<Hook<M>>, act: (Hook<M>, V) -> Step<V>, values: seq<V>) {
    && |values| == |hooks| + 1
    && (forall i :: 0 <= i < |hooks| ==> Takes(hooks[i], act, values[i], values[i + 1]))
  }

  // The hooks take `v` to `w`.
  ghost predicate Leads<M, V(!new)>(hooks: seq<Hook<M>>, act: (Hook<M>, V) -> Step<V>, v: V, w: V) {
    exists values :: Passage(hooks, act, values) && values[0] == v && values[|hooks|] == w
  }

  // Hook `k` is the first that stops the value, with `e`.
  ghost predicate StoppedAt<M, V(!new)>(hooks: seq<Hook<M>>, act: (Hook<M>, V) -> Step<V>, v: V, e: Exc, k: nat) {
    k < |hooks| && exists w :: Leads(hooks[..k], act, v, w) && Stops(hooks[k], act, w, e)
  }

  lemma LeadsOn<M, V(!new)>(hooks: seq<Hook<M>>, act: (Hook<M>, V) -> Step<V>, v: V, x: V, w: V)
    requires hooks != [] && Takes(hooks[0], act, v, x) && Leads(hooks[1..], act, x, w)
    ensures Leads(hooks, act, v, w)
  {
    var rest :| Passage(hooks[1..], act, rest) && rest[0] == x && rest[|hooks[1..]|] == w;
    var values := [v] + rest;
    forall i | 0 <= i < |hooks|
      ensures Takes(hooks[i], act, values[i], values[i + 1])
    {
      if i > 0 {
        assert hooks[1..][i - 1] == hooks[i];
      }
    }
    assert Passage(hooks, act, values);
  }

  lemma StoppedLater<M, V(!new)>(hooks: seq<Hook<M>>, act: (Hook<M>, V) -> Step<V>, v: V, x: V, e: Exc, k: nat)
    requires hooks != [] && Takes(hooks[0], act, v, x) && StoppedAt(hooks[1..], act, x, e, k)
    ensures StoppedAt(hooks, act, v, e, k + 1)
  {
    var w :| Leads(hooks[1..][..k], act, x, w) && Stops(hooks[1..][k], act, w, e);
    assert hooks[..k + 1][1..] == hooks[1..][..k];
    LeadsOn(hooks[..k + 1], act, v, x, w);
  }

  lemma StoppedAtOnce<M, V(!new)>(hooks: seq<Hook<M>>, act: (Hook<M>, V) -> Step<V>, v: V, e: Exc)
    requires hooks != [] && Stops(hooks[0], act, v, e)
    ensures StoppedAt(hooks, act, v, e, 0)
  {
    assert hooks[..0] == [] && Passage(hooks[..0], act, [v]) && [v][0] == v;
    assert Leads(hooks[..0], act, v, v);
  }

  // Transforming follows one passage to its end, or to the first hook that stops the value there.
  lemma {:induction false} TransformFollows<M, V(!new)>(hooks: seq<Hook<M>>, act: (Hook<M>, V) -> Step<V>, v: V)
    ensures var out := Transform(hooks, act, v);
      if out.Returned? then Leads(hooks, act, v, out.value)
      else exists k: nat :: StoppedAt(hooks, act, v, out.exc, k)
  {
    if hooks == [] {
      assert Passage(hooks, act, [v]) && [v][0] == v;
    } else if exists x :: Takes(hooks[0], act, v, x) {
      var x :| Takes(hooks[0], act, v, x);
      assert Transform(hooks, act, v) == Transform(hooks[1..], act, x);
      TransformFollows(hooks[1..], act, x);
      var rest := Transform(hooks[1..], act, x);
      if rest.Returned? {
        LeadsOn(hooks, act, v, x, rest.value);
      } else {
        var k: nat :| StoppedAt(hooks[1..], act, x, rest.exc, k);
        StoppedLater(hooks, act, v, x, rest.exc, k);
      }
    } else {
      TakesOrStops(hooks[0], act, v);
      var e :| Stops(hooks[0], act, v, e);
      assert Transform(hooks, act, v) == Raised(e);
      StoppedAtOnce(hooks, act, v, e);
    }
  }

  lemma TakesOrStops<M, V(!new)>(h: Hook<M>, act: (Hook<M>, V) -> Step<V>, v: V)
    ensures (exists x :: Takes(h, act, v, x)) || (exists e :: Stops(h, act, v, e))
  {
    match act(h, v)
    case Keep => assert Takes(h, act, v, v);
    case Replace(x) => assert Takes(h, act, v, x);
    case Raise(e) => assert Takes(h, act, v, v) || Stops(h, act, v, e);
  }

  lemma {:induction false} PassagesAgree<M, V>(hooks: seq<Hook<M>>, act: (Hook<M>, V) -> Step<V>, a: seq<V>, b: seq<V>)
    requires Passage(hooks, act, a) && Passage(hooks, act, b) && a[0] == b[0]
    ensures a == b
  {
    if hooks != [] {
      var n := |hooks| - 1;
      PassagesAgree(hooks[..n], act, a[..n + 1], b[..n + 1]);
      assert a[n] == a[..n + 1][n] == b[..n + 1][n] == b[n];
      assert Takes(hooks[n], act, a[n], a[n + 1]) && Takes(hooks[n], act, b[n], b[n + 1]);
      assert a == a[..n + 1] + [a[n + 1]] && b == b[..n + 1] + [b[n + 1]];
    }
  }

  lemma LeadsToOne<M, V(!new)>(hooks: seq<Hook<M>>, act: (Hook<M>, V) -> Step<V>, v: V, w: V, w': V)
    requires Leads(hooks, act, v, w) && Leads(hooks, act, v, w')
    ensures w == w'
  {
    var a :| Passage(hooks, act, a) && a[0] == v && a[|hooks|] == w;
    var b :| Passage(hooks, act, b) && b[0] == v && b[|hooks|] == w';
    PassagesAgree(hooks, act, a, b);
  }

  lemma StoppedOnTheWay<M, V(!new)>(hooks: seq<Hook<M>>, act: (Hook<M>, V) -> Step<V>, v: V, w: V, k: nat)
      returns (x: V)
    requires Leads(hooks, act, v, w) && k < |hooks|
    ensures Leads(hooks[..k], act, v, x) && exists y :: Takes(hooks[k], act, x, y)
  {
    var values :| Passage(hooks, act, values) && values[0] == v && values[|hooks|] == w;
    x := values[k];
    var front := values[..k + 1];
    assert Passage(hooks[..k], act, front) && front[0] == v && front[k] == x;
    assert Takes(hooks[k], act, values[k], values[k + 1]);
  }

  // A value leaves the boundary exactly at the end of a passage through all hooks, each taking on what
  // the one before left; an exception leaves it exactly from the first hook that stops the value.
  lemma TransformIff<M, V(!new)>(hooks: seq<Hook<M>>, act: (Hook<M>, V) -> Step<V>, v: V, w: V, e: Exc)
    ensures Transform(hooks, act, v) == Returned(w) <==> Leads(hooks, act, v, w)
    ensures Transform(hooks, act, v) == Raised(e) <==> exists k: nat :: StoppedAt(hooks, act, v, e, k)
  {
    TransformFollows(hooks, act, v);
    match Transform(hooks, act, v)
    case Returned(x) =>
      if Leads(hooks, act, v, w) {
        LeadsToOne(hooks, act, v, x, w);
      }
      forall k: nat
        ensures !StoppedAt(hooks, act, v, e, k)
      {
        if StoppedAt(hooks, act, v, e, k) {
          StopsOrLeads(hooks, act, v, x, e, k);
        }
      }
    case Raised(f) =>
      var j: nat :| StoppedAt(hooks, act, v, f, j);
      StopsOrLeads(hooks, act, v, w, f, j);
      forall k: nat | StoppedAt(hooks, act, v, e, k)
        ensures e == f
      {
        StopsOnce(hooks, act, v, e, k, f, j);
      }
  }

  lemma StopsOrLeads<M, V(!new)>(hooks: seq<Hook<M>>, act: (Hook<M>, V) -> Step<V>, v: V, w: V, e: Exc, k: nat)
    requires StoppedAt(hooks, act, v, e, k)
    ensures !Leads(hooks, act, v, w)
  {
    if Leads(hooks, act, v, w) {
      var x := StoppedOnTheWay(hooks, act, v, w, k);
      var y :| Leads(hooks[..k], act, v, y) && Stops(hooks[k], act, y, e);
      LeadsToOne(hooks[..k], act, v, x, y);
    }
  }

  lemma StopsOnce<M, V(!new)>(hooks: seq<Hook<M>>, act: (Hook<M>, V) -> Step<V>, v: V, e: Exc, k: nat, f: Exc, j: nat)
    requires StoppedAt(hooks, act, v, e, k) && StoppedAt(hooks, act, v, f, j)
    ensures k == j && e == f
  {
    var x :| Leads(hooks[..k], act, v, x) && Stops(hooks[k], act, x, e);
    var y :| Leads(hooks[..j], act, v, y) && Stops(hooks[j], act, y, f);
    if k < j {
      assert hooks[..j][..k] == hooks[..k];
      var z := StoppedOnTheWay(hooks[..j], act, v, y, k);
      LeadsToOne(hooks[..k], act, v, x, z);
    } else if j < k {
      assert hooks[..k][..j] == hooks[..j];
      var z := StoppedOnTheWay(hooks[..k], act, v, x, j);
      LeadsToOne(hooks[..j], act, v, y, z);
    } else {
      LeadsToOne(hooks[..k], act, v, x, y);
    }
  }

  // A hook that never changes the value: it keeps it, or fails open.
  ghost predicate Watcher<M, V(!new)>(h: Hook<M>, act: (Hook<M>, V) -> Step<V>) {
    forall v :: act(h, v).Keep? || (act(h, v).Raise? && h.failOpen && IsException(act(h, v).exc))
  }

  // Deleting any set of watchers changes neither the value nor the exception: a hook that fails
  // open leaves the value as it was before that hook.
  lemma {:induction false} WatchersAreInvisible<M, V(!new)>(hooks: seq<Hook<M>>, keep: seq<bool>,
      act: (Hook<M>, V) -> Step<V>, value: V)
    requires |hooks| == |keep|
    requires forall i :: 0 <= i < |hooks| && !keep[i] ==> Watcher(hooks[i], act)
    ensures Transform(Kept(hooks, keep), act, value) == Transform(hooks, act, value)
  {
    if hooks != [] {
      var step := act(hooks[0], value);
      WatchersAreInvisible(hooks[1..], keep[1..], act, if step.Replace? then step.value else value);
      if keep[0] {
        assert Kept(hooks, keep)[1..] == Kept(hooks[1..], keep[1..]);
      } else {
        assert Watcher(hooks[0], act);
        assert Kept(hooks, keep) == Kept(hooks[1..], keep[1..]);
      }
    }
  }

  method TransformValue<M, V>(hooks: seq<Hook<M>>, act: (Hook<M>, V) -> Step<V>, value: V, reverse: bool)
      returns (r: Outcome<V>)
    ensures r == Transform(if reverse then Reversed(hooks) else hooks, act, value)
  {
    var order := if reverse then Reversed(hooks) else hooks;
    var current := value;
    for i := 0 to |order|
      invariant Transform(order[i..], act, current) == Transform(order, act, value)
    {
      assert order[i..][1..] == order[i + 1..];
      var out := act(order[i], current);
      match out
      case Keep =>
      case Replace(v) => current := v;
      case Raise(e) =>
        if !(IsException(e) && order[i].failOpen) {
          return Raised(e);
        }
    }
    r := Returned(current);
  }

  // ---------------------------------------------------------------------------
  // The engine of the source

  class HookRegistry<!M> {
    var hooks: seq<Hook<M>>

    constructor ()
      ensures hooks == []
    {
      hooks := [];
    }

    method Register(h: Hook<M>)
      modifies this
      ensures hooks == old(hooks) + [h]
    {
      hooks := hooks + [h];
    }

    method Clear()
      modifies this
      ensures hooks == []
    {
      hooks := [];
    }

    method Resolve(agentHooks: seq<Hook<M>>) returns (r: seq<Hook<M>>)
      ensures Sorted(r) && KeepsRegistration(r, hooks, agentHooks)
    {
      r := ResolveHooks(hooks, agentHooks);
      ResolvedOrder(hooks, agentHooks, r);
    }
  }

  class NodeRunner<!S, !V, X> {
    var trace: Trace<S, V, X>

    constructor ()
      ensures trace == []
    {
      trace := [];
    }

    method Fire(h: NodeHook<S, V>, m: Signal<S, V>, swallow: bool) returns (exc: Option<Exc>)
      modifies this
      ensures trace == old(trace) + [Fired(h.id, m)]
      ensures exc == Escape(h, m, swallow)
    {
      trace := trace + [Fired(h.id, m)];
      exc := h.react(m);
      if exc.Some? && IsException(exc.value) {
        if swallow || h.failOpen {
          exc := None;
        }
      }
    }

    // The loop of all four phases; `swallow` while an exception is being handled.
    method FireAll(hooks: seq<NodeHook<S, V>>, m: Signal<S, V>, swallow: bool) returns (exc: Option<Exc>)
      modifies this
      ensures var r := Sweep(hooks, m, swallow);
        exc == r.exc && trace == old(trace) + Fires(r.fired, m)
    {
      ghost var done: seq<nat> := [];
      for i := 0 to |hooks|
        invariant Swept(hooks, m, swallow, done, i)
        invariant trace == old(trace) + Fires(done, m)
      {
        SweepStep(hooks, m, swallow, done, i);
        OneMoreFired(old(trace), done, hooks[i].id, m);
        exc := Fire(hooks[i], m, swallow);
        done := done + [hooks[i].id];
        if exc.Some? {
          return;
        }
      }
      SweepEnds(hooks, m, swallow, done);
      exc := None;
    }

    method OnError(hooks: seq<NodeHook<S, V>>, s: S, e: Exc) returns (exit: Outcome<V>)
      modifies this
      ensures var r: Run<S, V, X> := Handle(hooks, s, e);
        trace == old(trace) + r.trace && exit == r.exit
    {
      exit := Raised(e);
      if !IsControlFlow(e) {
        var raised := FireAll(hooks, NodeError(s, e), true);
        if raised.Some? {
          exit := Raised(raised.value);
        }
      }
    }

    method AfterHooks(hooks: seq<NodeHook<S, V>>, s: S, v: V) returns (exit: Outcome<V>)
      modifies this
      ensures var r: Run<S, V, X> := Leave(hooks, s, v);
        trace == old(trace) + r.trace && exit == r.exit
    {
      exit := Returned(v);
      var raised := FireAll(Reversed(hooks), AfterNode(s, v), false);
      if raised.Some? {
        exit := OnError(hooks, s, raised.value);
      }
    }

    // The try and except blocks.
    method Try(hooks: seq<NodeHook<S, V>>, s: S, call: S -> Inner<X, V>) returns (exit: Outcome<V>)
      modifies this
      ensures var r := Guarded(hooks, s, call(s));
        trace == old(trace) + r.trace && exit == r.exit
    {
      var inner := call(s);
      trace := trace + Insides(inner.steps);
      exit := inner.exit;
      if exit.Returned? {
        exit := AfterHooks(hooks, s, exit.value);
      } else {
        exit := OnError(hooks, s, exit.exc);
      }
    }

    method TryFinally(hooks: seq<NodeHook<S, V>>, s: S, call: S -> Inner<X, V>) returns (exit: Outcome<V>)
      modifies this
      ensures var r := Protected(hooks, s, call(s));
        trace == old(trace) + r.trace && exit == r.exit
    {
      exit := Try(hooks, s, call);
      var raised := FireAll(Reversed(hooks), FinallyNode(s), true);
      if raised.Some? {
        exit := Raised(raised.value);
      }
    }

    method RunNode(hooks: seq<NodeHook<S, V>>, s: S, call: S -> Inner<X, V>) returns (exit: Outcome<V>)
      modifies this
      ensures var r := RunHooked(hooks, s, call);
        trace == old(trace) + r.trace && exit == r.exit
    {
      var raised := FireAll(hooks, BeforeNode(s), false);
      if raised.Some? {
        return Raised(raised.value);
      }
      exit := TryFinally(hooks, s, call);
    }
  }
}
