/**
  The model gateway: aliases with a provider and a fallback, called through the
  before_model and after_model hooks.

  `Invoke` is the recursive call of the source and `ChatFallbacks` its iterative
  twin. Both are compared with one reference, a fallback chain: the aliases from
  one alias along fallbacks, without repetition, as far as they go.
 */
module Gateway {
  import opened Wrappers
  import opened Exceptions
  import opened Basics
  import opened Hooks

  type Alias = string
  type Prompt = string
  type Text = string

  // What a provider call does under its policy.
  datatype Answer = Answered(text: Text, tokens: nat) | Failed(exc: Exc)

  // `chat` says whether the provider offers a chat model.
  datatype Entry = Entry(provider: Prompt -> Answer, chat: bool, fallback: Option<Alias>)

  type Entries = map<Alias, Entry>

  // An empty fallback name is no fallback.
  function Next(e: Entry): Option<Alias> {
    if e.fallback == Some("") then None else e.fallback
  }

  // Guardrail and policy blocks must not be got round, and a BaseException is not caught; any other
  // exception, control flow included, leads to the fallback.
  predicate AllowsFallback(e: Exc) {
    IsException(e) && !IsBlock(e)
  }

  // ---------------------------------------------------------------------------
  // The reference: fallback chains

  // Each alias is registered, and its fallback is the next one.
  ghost predicate Linked(es: Entries, chain: seq<Alias>) {
    forall i :: 0 <= i < |chain| - 1 ==> chain[i] in es && LeadsTo(es[chain[i]], chain[i + 1])
  }

  // `next` is the declared fallback of an entry.
  predicate LeadsTo(e: Entry, next: Alias) {
    e.fallback == Some(next) && next != ""
  }

  // The chain cannot go on: no entry, no fallback, or a fallback it has been through.
  ghost predicate Ended(es: Entries, chain: seq<Alias>, last: Alias) {
    last in es ==> forall next :: LeadsTo(es[last], next) ==> next in chain
  }

  ghost predicate FallbackChain(es: Entries, alias: Alias, chain: seq<Alias>) {
    && chain != [] && chain[0] == alias
    && NoDup(chain) && Linked(es, chain) && Ended(es, chain, chain[|chain| - 1])
  }

  // Two chains of one alias are equal, so "the" chain is well defined.
  lemma {:induction false} ChainsAgree(es: Entries, alias: Alias, a: seq<Alias>, b: seq<Alias>, k: nat)
    requires FallbackChain(es, alias, a) && FallbackChain(es, alias, b)
    requires k <= |a| && k <= |b| && a[..k] == b[..k]
    ensures a == b
    decreases |a| - k
  {
    if k == 0 {
      assert a[..1] == b[..1];
      ChainsAgree(es, alias, a, b, 1);
    } else if k < |a| && k < |b| {
      assert a[k - 1] == a[..k][k - 1] == b[k - 1];
      assert LeadsTo(es[a[k - 1]], a[k]) && LeadsTo(es[b[k - 1]], b[k]);
      assert a[..k + 1] == b[..k + 1];
      ChainsAgree(es, alias, a, b, k + 1);
    } else if k < |a| {
      Revisits(es, b, a);
    } else if k < |b| {
      Revisits(es, a, b);
    }
  }

  // Going on past the end of a chain repeats an alias.
  lemma Revisits(es: Entries, short: seq<Alias>, long: seq<Alias>)
    requires 0 < |short| < |long| && short == long[..|short|]
    requires Linked(es, long) && Ended(es, short, short[|short| - 1])
    ensures !NoDup(long)
  {
    var k := |short|;
    assert long[k - 1] == short[k - 1];
    assert LeadsTo(es[long[k - 1]], long[k]);
    var j :| 0 <= j < k && short[j] == long[k];
    assert long[j] == long[k];
  }

  // The chain from one alias on, when the aliases in `seen` are behind it.
  function Visit(es: Entries, alias: Alias, seen: set<Alias>): seq<Alias>
    requires alias !in seen
    decreases es.Keys - seen
  {
    if alias in es && Next(es[alias]).Some? && Next(es[alias]).value !in seen + {alias}
    then [alias] + Visit(es, Next(es[alias]).value, seen + {alias})
    else [alias]
  }

  ghost predicate Avoids(chain: seq<Alias>, seen: set<Alias>) {
    forall i :: 0 <= i < |chain| ==> chain[i] !in seen
  }

  lemma {:induction false} VisitIsAChain(es: Entries, alias: Alias, seen: set<Alias>)
    requires alias !in seen
    ensures var chain := Visit(es, alias, seen);
      var last := chain[|chain| - 1];
      && chain[0] == alias && NoDup(chain) && Linked(es, chain) && Avoids(chain, seen)
      && (last in es && Next(es[last]).Some? ==> Next(es[last]).value in chain || Next(es[last]).value in seen)
    decreases es.Keys - seen
  {
    if alias in es && Next(es[alias]).Some? && Next(es[alias]).value !in seen + {alias} {
      VisitIsAChain(es, Next(es[alias]).value, seen + {alias});
      var rest, chain := Visit(es, Next(es[alias]).value, seen + {alias}), Visit(es, alias, seen);
      assert chain == [alias] + rest;
      forall i | 0 <= i < |chain| - 1
        ensures chain[i] in es && LeadsTo(es[chain[i]], chain[i + 1])
      {
        if i > 0 {
          assert chain[i] == rest[i - 1] && chain[i + 1] == rest[i];
        }
      }
    }
  }

  // Every alias graph, cyclic or not, has exactly one chain from each alias.
  lemma TheChain(es: Entries, alias: Alias, chain: seq<Alias>)
    ensures FallbackChain(es, alias, chain) <==> chain == Visit(es, alias, {})
  {
    VisitIsAChain(es, alias, {});
    if FallbackChain(es, alias, chain) {
      ChainsAgree(es, alias, chain, Visit(es, alias, {}), 0);
    }
  }

  // ---------------------------------------------------------------------------
  // The recursive call

  type ModelHook = Hook<()>

  datatype Boundary = Boundary(
    before: Alias -> ((ModelHook, Prompt) -> Step<Prompt>),
    after: (Alias, Prompt) -> ((ModelHook, Text) -> Step<Text>))

  datatype Event =
    | BeforeModel(alias: Alias, prompt: Prompt)
    | Tried(alias: Alias, prompt: Prompt)
    | AfterModel(alias: Alias, prompt: Prompt, text: Text)
    | ModelCalled(alias: Alias, tokens: nat)

  datatype Exit =
    | Replied(text: Text)
    | ModelNotFound(alias: Alias)
    | ProviderFailed(exc: Exc)
    | BeforeRaised(exc: Exc)
    | AfterRaised(exc: Exc)

  datatype Invocation = Invocation(trace: seq<Event>, exit: Exit)

  // The hooks on the way out of a provider that answered.
  function Deliver(hooks: seq<ModelHook>, b: Boundary, alias: Alias, prompt: Prompt, text: Text,
      tokens: nat): Invocation
  {
    match Transform(Reversed(hooks), b.after(alias, prompt), text)
    case Raised(e) => Invocation([AfterModel(alias, prompt, text)], AfterRaised(e))
    case Returned(t) => Invocation([AfterModel(alias, prompt, text), ModelCalled(alias, tokens)], Replied(t))
  }

  // From the provider on, with the prompt the before-hooks left.
  function Answering(es: Entries, hooks: seq<ModelHook>, b: Boundary, alias: Alias, p: Prompt,
      seen: set<Alias>): Invocation
    requires alias in es && alias !in seen
    decreases es.Keys - seen, 0
  {
    match es[alias].provider(p)
    case Answered(text, tokens) => Deliver(hooks, b, alias, p, text, tokens)
    case Failed(f) =>
      var next := Next(es[alias]);
      if AllowsFallback(f) && next.Some? && next.value !in seen && next.value != alias
      then Invoke(es, hooks, b, next.value, p, seen + {alias})
      else Invocation([], ProviderFailed(f))
  }

  function Invoke(es: Entries, hooks: seq<ModelHook>, b: Boundary, alias: Alias, prompt: Prompt,
      seen: set<Alias>): Invocation
    requires alias !in seen
    decreases es.Keys - seen, 1
  {
    if alias !in es then Invocation([], ModelNotFound(alias))
    else
      match Transform(hooks, b.before(alias), prompt)
      case Raised(e) => Invocation([BeforeModel(alias, prompt)], BeforeRaised(e))
      case Returned(p) =>
        var rest := Answering(es, hooks, b, alias, p, seen);
        Invocation([BeforeModel(alias, prompt), Tried(alias, p)] + rest.trace, rest.exit)
  }

  // The prompt after the before-hooks of every alias of a chain, in order.
  function Masked(hooks: seq<ModelHook>, b: Boundary, chain: seq<Alias>, prompt: Prompt): Outcome<Prompt> {
    if chain == [] then Returned(prompt)
    else
      var p := Transform(hooks, b.before(chain[0]), prompt);
      if p.Raised? then p else Masked(hooks, b, chain[1..], p.value)
  }

  // Provider calls, aliases whose before-hooks ran, aliases whose after-hooks ran.
  function Calls(trace: seq<Event>): seq<(Alias, Prompt)> {
    if trace == [] then []
    else (if trace[0].Tried? then [(trace[0].alias, trace[0].prompt)] else []) + Calls(trace[1..])
  }

  function Befores(trace: seq<Event>): seq<Alias> {
    if trace == [] then []
    else (if trace[0].BeforeModel? then [trace[0].alias] else []) + Befores(trace[1..])
  }

  function Afters(trace: seq<Event>): seq<Alias> {
    if trace == [] then []
    else (if trace[0].AfterModel? then [trace[0].alias] else []) + Afters(trace[1..])
  }

  function Aliases(calls: seq<(Alias, Prompt)>): (r: seq<Alias>)
    ensures |r| == |calls|
  {
    if calls == [] then [] else [calls[0].0] + Aliases(calls[1..])
  }

  // The i-th call is to the i-th alias of the chain, on the prompt masked by all hooks so far.
  ghost predicate CallsFollow(hooks: seq<ModelHook>, b: Boundary, chain: seq<Alias>, prompt: Prompt,
      calls: seq<(Alias, Prompt)>)
  {
    && |calls| <= |chain|
    && (forall i :: 0 <= i < |calls| ==>
          calls[i].0 == chain[i] && Masked(hooks, b, chain[..i + 1], prompt) == Returned(calls[i].1))
  }

  function AnswerTo(es: Entries, call: (Alias, Prompt)): Answer
    requires call.0 in es
  {
    es[call.0].provider(call.1)
  }

  predicate FallsBack(es: Entries, call: (Alias, Prompt)) {
    call.0 in es && AnswerTo(es, call).Failed? && AllowsFallback(AnswerTo(es, call).exc)
  }

  // Every call but the last failed in a way that is no block.
  ghost predicate OnlyFallbacks(es: Entries, calls: seq<(Alias, Prompt)>) {
    forall i :: 0 <= i < |calls| - 1 ==> FallsBack(es, calls[i])
  }

  // How the run ended, from the last call and the rest of the chain.
  ghost predicate ExitFollows(es: Entries, hooks: seq<ModelHook>, b: Boundary, chain: seq<Alias>, prompt: Prompt,
                              calls: seq<(Alias, Prompt)>, exit: Exit)
    requires |calls| <= |chain|
  {
    var n := |calls|;
    match exit
    case Replied(text) =>
      && n > 0 && calls[n - 1].0 in es && AnswerTo(es, calls[n - 1]).Answered?
      && Transform(Reversed(hooks), b.after(calls[n - 1].0, calls[n - 1].1), AnswerTo(es, calls[n - 1]).text) ==
           Returned(text)
    case AfterRaised(e) =>
      && n > 0 && calls[n - 1].0 in es && AnswerTo(es, calls[n - 1]).Answered?
      && Transform(Reversed(hooks), b.after(calls[n - 1].0, calls[n - 1].1), AnswerTo(es, calls[n - 1]).text) ==
           Raised(e)
    case ProviderFailed(f) =>
      && n > 0 && calls[n - 1].0 in es && AnswerTo(es, calls[n - 1]) == Failed(f)
      && (AllowsFallback(f) ==> n == |chain|)
    case ModelNotFound(a) =>
      n == |chain| - 1 && a == chain[n] && a !in es && (n > 0 ==> FallsBack(es, calls[n - 1]))
    case BeforeRaised(e) =>
      && n < |chain| && chain[n] in es && Masked(hooks, b, chain[..n + 1], prompt) == Raised(e)
      && (n > 0 ==> FallsBack(es, calls[n - 1]))
  }

  // The aliases whose before-hooks ran when `n` were called, and those whose after-hooks ran.
  function Masking(chain: seq<Alias>, n: nat, exit: Exit): seq<Alias>
    requires n <= |chain| && (exit.BeforeRaised? ==> n < |chain|)
  {
    chain[..if exit.BeforeRaised? then n + 1 else n]
  }

  function Delivering(chain: seq<Alias>, n: nat, exit: Exit): seq<Alias>
    requires n <= |chain| && (exit.Replied? || exit.AfterRaised? ==> n > 0)
  {
    if exit.Replied? || exit.AfterRaised? then [chain[n - 1]] else []
  }

  // What a run shows: its calls, the aliases whose hooks ran, and its exit.
  datatype View = View(calls: seq<(Alias, Prompt)>, befores: seq<Alias>, afters: seq<Alias>, exit: Exit)

  function Show(run: Invocation): View {
    View(Calls(run.trace), Befores(run.trace), Afters(run.trace), run.exit)
  }

  ghost predicate Followed(es: Entries, hooks: seq<ModelHook>, b: Boundary, chain: seq<Alias>, prompt: Prompt,
      v: View)
  {
    && CallsFollow(hooks, b, chain, prompt, v.calls)
    && OnlyFallbacks(es, v.calls)
    && ExitFollows(es, hooks, b, chain, prompt, v.calls, v.exit)
    && v.befores == Masking(chain, |v.calls|, v.exit)
    && v.afters == Delivering(chain, |v.calls|, v.exit)
  }

  // Putting one alias in front of a run.
  function Grown(alias: Alias, p: Prompt, v: View): View {
    View([(alias, p)] + v.calls, [alias] + v.befores, v.afters, v.exit)
  }

  lemma FollowedGrows(es: Entries, hooks: seq<ModelHook>, b: Boundary, chain: seq<Alias>, prompt: Prompt, p: Prompt,
      v: View)
    requires chain != [] && chain[0] in es && Transform(hooks, b.before(chain[0]), prompt) == Returned(p)
    requires FallsBack(es, (chain[0], p))
    requires Followed(es, hooks, b, chain[1..], p, v)
    ensures Followed(es, hooks, b, chain, prompt, Grown(chain[0], p, v))
  {
    CallsGrow(hooks, b, chain, prompt, p, v.calls);
    OnlyFallbacksGrow(es, (chain[0], p), v.calls);
    ExitGrows(es, hooks, b, chain, prompt, p, v.calls, v.exit);
    HooksGrow(chain, |v.calls|, v.exit);
  }

  lemma HooksGrow(chain: seq<Alias>, n: nat, exit: Exit)
    requires n < |chain| && (exit.BeforeRaised? ==> n + 1 < |chain|) && (exit.Replied? || exit.AfterRaised? ==> n > 0)
    ensures Masking(chain, n + 1, exit) == [chain[0]] + Masking(chain[1..], n, exit)
    ensures Delivering(chain, n + 1, exit) == Delivering(chain[1..], n, exit)
  {}

  lemma ShowGrows(alias: Alias, prompt: Prompt, p: Prompt, rest: Invocation)
    ensures Show(Invocation([BeforeModel(alias, prompt), Tried(alias, p)] + rest.trace, rest.exit)) ==
      Grown(alias, p, Show(rest))
  {
    var later := [Tried(alias, p)] + rest.trace;
    assert [BeforeModel(alias, prompt), Tried(alias, p)] + rest.trace == [BeforeModel(alias, prompt)] + later;
    ShowOneMore(BeforeModel(alias, prompt), later);
    ShowOneMore(Tried(alias, p), rest.trace);
  }

  lemma ShowOneMore(e: Event, rest: seq<Event>)
    ensures Calls([e] + rest) == (if e.Tried? then [(e.alias, e.prompt)] else []) + Calls(rest)
    ensures Befores([e] + rest) == (if e.BeforeModel? then [e.alias] else []) + Befores(rest)
    ensures Afters([e] + rest) == (if e.AfterModel? then [e.alias] else []) + Afters(rest)
  {
    assert ([e] + rest)[1..] == rest;
  }

  lemma ShowLast(e: Event)
    ensures Calls([e]) == if e.Tried? then [(e.alias, e.prompt)] else []
    ensures Befores([e]) == if e.BeforeModel? then [e.alias] else []
    ensures Afters([e]) == if e.AfterModel? then [e.alias] else []
  {
    assert [e] + [] == [e];
    ShowOneMore(e, []);
  }

  lemma MaskedGrows(hooks: seq<ModelHook>, b: Boundary, chain: seq<Alias>, prompt: Prompt, p: Prompt, i: nat)
    requires chain != [] && i < |chain| - 1 && Transform(hooks, b.before(chain[0]), prompt) == Returned(p)
    ensures Masked(hooks, b, chain[..i + 2], prompt) == Masked(hooks, b, chain[1..][..i + 1], p)
  {
    var longer := chain[..i + 2];
    assert longer[1..] == chain[1..][..i + 1];
  }

  lemma CallsGrow(hooks: seq<ModelHook>, b: Boundary, chain: seq<Alias>, prompt: Prompt, p: Prompt,
      calls: seq<(Alias, Prompt)>)
    requires chain != [] && Transform(hooks, b.before(chain[0]), prompt) == Returned(p)
    requires CallsFollow(hooks, b, chain[1..], p, calls)
    ensures CallsFollow(hooks, b, chain, prompt, [(chain[0], p)] + calls)
  {
    var some := [(chain[0], p)] + calls;
    forall i | 0 <= i < |some|
      ensures some[i].0 == chain[i] && Masked(hooks, b, chain[..i + 1], prompt) == Returned(some[i].1)
    {
      if i == 0 {
        assert chain[..1] == [chain[0]];
        assert Masked(hooks, b, [chain[0]], prompt) == Masked(hooks, b, [], p);
      } else {
        assert some[i] == calls[i - 1];
        MaskedGrows(hooks, b, chain, prompt, p, i - 1);
      }
    }
  }

  lemma OnlyFallbacksGrow(es: Entries, call: (Alias, Prompt), calls: seq<(Alias, Prompt)>)
    requires FallsBack(es, call) && OnlyFallbacks(es, calls)
    ensures OnlyFallbacks(es, [call] + calls)
  {
    var some := [call] + calls;
    forall i | 0 <= i < |some| - 1
      ensures FallsBack(es, some[i])
    {
      if i > 0 {
        assert some[i] == calls[i - 1];
      }
    }
  }

  lemma ExitGrows(es: Entries, hooks: seq<ModelHook>, b: Boundary, chain: seq<Alias>, prompt: Prompt, p: Prompt,
                  calls: seq<(Alias, Prompt)>, exit: Exit)
    requires chain != [] && |calls| < |chain| && Transform(hooks, b.before(chain[0]), prompt) == Returned(p)
    requires FallsBack(es, (chain[0], p))
    requires ExitFollows(es, hooks, b, chain[1..], p, calls, exit)
    ensures ExitFollows(es, hooks, b, chain, prompt, [(chain[0], p)] + calls, exit)
  {
    if exit.BeforeRaised? {
      MaskedGrows(hooks, b, chain, prompt, p, |calls|);
    }
  }

  lemma DeliverShape(es: Entries, hooks: seq<ModelHook>, b: Boundary, chain: seq<Alias>, prompt: Prompt, p: Prompt)
    requires chain != [] && chain[0] in es && Transform(hooks, b.before(chain[0]), prompt) == Returned(p)
    requires es[chain[0]].provider(p).Answered?
    ensures var answer := es[chain[0]].provider(p);
      Followed(es, hooks, b, chain, prompt,
               Grown(chain[0], p, Show(Deliver(hooks, b, chain[0], p, answer.text, answer.tokens))))
  {
    var answer := es[chain[0]].provider(p);
    var rest := Deliver(hooks, b, chain[0], p, answer.text, answer.tokens);
    ShowDeliver(hooks, b, chain[0], p, answer.text, answer.tokens);
    OneCall(hooks, b, chain, prompt, p);
  }

  lemma ShowDeliver(hooks: seq<ModelHook>, b: Boundary, alias: Alias, p: Prompt, text: Text, tokens: nat)
    ensures var rest := Deliver(hooks, b, alias, p, text, tokens);
      Show(rest) == View([], [], [alias], rest.exit)
  {
    var first, last := AfterModel(alias, p, text), ModelCalled(alias, tokens);
    ShowLast(first);
    ShowLast(last);
    ShowOneMore(first, [last]);
    var trace := Deliver(hooks, b, alias, p, text, tokens).trace;
    assert trace == [first] || trace == [first] + [last];
  }

  lemma OneCall(hooks: seq<ModelHook>, b: Boundary, chain: seq<Alias>, prompt: Prompt, p: Prompt)
    requires chain != [] && Transform(hooks, b.before(chain[0]), prompt) == Returned(p)
    ensures CallsFollow(hooks, b, chain, prompt, [(chain[0], p)]) && chain[..1] == [chain[0]]
  {
    assert CallsFollow(hooks, b, chain[1..], p, []);
    CallsGrow(hooks, b, chain, prompt, p, []);
    assert [(chain[0], p)] + [] == [(chain[0], p)];
  }

  lemma {:induction false} InvokeFollows(es: Entries, hooks: seq<ModelHook>, b: Boundary, alias: Alias,
      prompt: Prompt, seen: set<Alias>)
    requires alias !in seen
    ensures Followed(es, hooks, b, Visit(es, alias, seen), prompt, Show(Invoke(es, hooks, b, alias, prompt, seen)))
    decreases es.Keys - seen, 1
  {
    var chain := Visit(es, alias, seen);
    if alias !in es {
      assert chain == [alias] && chain[..0] == [];
    } else {
      var masked := Transform(hooks, b.before(alias), prompt);
      if masked.Raised? {
        RefusedShape(es, hooks, b, chain, prompt);
      } else {
        ShowGrows(alias, prompt, masked.value, Answering(es, hooks, b, alias, masked.value, seen));
        AnsweringFollows(es, hooks, b, alias, prompt, masked.value, seen);
      }
    }
  }

  lemma {:induction false} AnsweringFollows(es: Entries, hooks: seq<ModelHook>, b: Boundary, alias: Alias,
      prompt: Prompt, p: Prompt, seen: set<Alias>)
    requires alias in es && alias !in seen && Transform(hooks, b.before(alias), prompt) == Returned(p)
    ensures Followed(es, hooks, b, Visit(es, alias, seen), prompt,
                     Grown(alias, p, Show(Answering(es, hooks, b, alias, p, seen))))
    decreases es.Keys - seen, 0
  {
    var chain := Visit(es, alias, seen);
    match es[alias].provider(p)
    case Answered(_, _) =>
      DeliverShape(es, hooks, b, chain, prompt, p);
    case Failed(f) =>
      var next := Next(es[alias]);
      if AllowsFallback(f) && next.Some? && next.value !in seen && next.value != alias {
        InvokeFollows(es, hooks, b, next.value, p, seen + {alias});
        assert chain[1..] == Visit(es, next.value, seen + {alias});
        FollowedGrows(es, hooks, b, chain, prompt, p, Show(Invoke(es, hooks, b, next.value, p, seen + {alias})));
      } else {
        OneCall(hooks, b, chain, prompt, p);
      }
  }

  lemma RefusedShape(es: Entries, hooks: seq<ModelHook>, b: Boundary, chain: seq<Alias>, prompt: Prompt)
    requires chain != [] && chain[0] in es && Transform(hooks, b.before(chain[0]), prompt).Raised?
    ensures Followed(es, hooks, b, chain, prompt,
                     Show(Invocation([BeforeModel(chain[0], prompt)],
                                     BeforeRaised(Transform(hooks, b.before(chain[0]), prompt).exc))))
  {
    ShowLast(BeforeModel(chain[0], prompt));
    assert chain[..1] == [chain[0]];
    assert Masked(hooks, b, [chain[0]], prompt) == Transform(hooks, b.before(chain[0]), prompt);
  }

  // ---------------------------------------------------------------------------
  // What a call does, for every alias graph

  // A whole call follows the chain of its alias: the aliases tried are a prefix of the chain, each
  // is called once on the prompt masked by the hooks of every alias so far, and every one but the
  // last failed in a way that is no guardrail or policy block.
  lemma CallsFollowTheChain(es: Entries, hooks: seq<ModelHook>, b: Boundary, alias: Alias, prompt: Prompt,
      chain: seq<Alias>)
    requires FallbackChain(es, alias, chain)
    ensures var run := Invoke(es, hooks, b, alias, prompt, {});
      && Followed(es, hooks, b, chain, prompt, Show(run))
      && Aliases(Calls(run.trace)) <= chain
      && NoDup(Aliases(Calls(run.trace)))
  {
    TheChain(es, alias, chain);
    InvokeFollows(es, hooks, b, alias, prompt, {});
    AliasesOfPrefix(Calls(Invoke(es, hooks, b, alias, prompt, {}).trace), chain);
  }

  lemma {:induction false} AliasesOfPrefix(calls: seq<(Alias, Prompt)>, chain: seq<Alias>)
    requires |calls| <= |chain| && forall i :: 0 <= i < |calls| ==> calls[i].0 == chain[i]
    ensures Aliases(calls) == chain[..|calls|]
  {
    if calls != [] {
      forall i | 0 <= i < |calls[1..]|
        ensures calls[1..][i].0 == chain[1..][i]
      {
        assert calls[i + 1].0 == chain[i + 1];
      }
      AliasesOfPrefix(calls[1..], chain[1..]);
    }
  }

  // The classes of exception that no fallback may get round.
  const STOPPING: set<ExcClass> := {GuardrailBlock, PolicyBlock, Cancelled, Fatal}

  // A guardrail block, a policy block or a BaseException stops the call at the alias that raised
  // it, however much of the chain is left; any other failure leaves only when the chain is used up.
  lemma BlocksStopTheChain(es: Entries, hooks: seq<ModelHook>, b: Boundary, alias: Alias, prompt: Prompt,
      chain: seq<Alias>, i: nat)
    requires FallbackChain(es, alias, chain)
    requires i < |Calls(Invoke(es, hooks, b, alias, prompt, {}).trace)|
    ensures var run := Invoke(es, hooks, b, alias, prompt, {});
      var calls := Calls(run.trace);
      && calls[i].0 in es
      && (AnswerTo(es, calls[i]).Failed? && AnswerTo(es, calls[i]).exc.cls in STOPPING ==>
            i == |calls| - 1 && run.exit == ProviderFailed(AnswerTo(es, calls[i]).exc))
      && (run.exit.ProviderFailed? && run.exit.exc.cls !in STOPPING ==> |calls| == |chain|)
  {
    CallsFollowTheChain(es, hooks, b, alias, prompt, chain);
    var run := Invoke(es, hooks, b, alias, prompt, {});
    var calls := Calls(run.trace);
    if i < |calls| - 1 {
      assert FallsBack(es, calls[i]);
    } else {
      LastCall(es, hooks, b, chain, prompt, calls, run.exit);
    }
  }

  // A block decides the exit.
  lemma LastCall(es: Entries, hooks: seq<ModelHook>, b: Boundary, chain: seq<Alias>, prompt: Prompt,
                 calls: seq<(Alias, Prompt)>, exit: Exit)
    requires calls != [] && CallsFollow(hooks, b, chain, prompt, calls)
    requires ExitFollows(es, hooks, b, chain, prompt, calls, exit)
    ensures var last := calls[|calls| - 1];
      && last.0 in es
      && (AnswerTo(es, last).Failed? && !AllowsFallback(AnswerTo(es, last).exc) ==>
            exit == ProviderFailed(AnswerTo(es, last).exc))
  {}

  // The prompt with which alias `i` of the chain would be called fails in no blocking way.
  predicate WouldFallBack(es: Entries, hooks: seq<ModelHook>, b: Boundary, chain: seq<Alias>, prompt: Prompt, i: nat)
    requires i < |chain|
  {
    var p := Masked(hooks, b, chain[..i + 1], prompt);
    p.Returned? && FallsBack(es, (chain[i], p.value))
  }

  ghost predicate EveryoneButTheLastFails(es: Entries, hooks: seq<ModelHook>, b: Boundary, chain: seq<Alias>,
      prompt: Prompt)
  {
    && (forall i :: 0 <= i < |chain| - 1 ==> WouldFallBack(es, hooks, b, chain, prompt, i))
    && chain != [] && chain[|chain| - 1] in es && Masked(hooks, b, chain, prompt).Returned?
  }

  // With `visited` the aliases the iterative form goes through, the recursive form tries exactly
  // the alias and then all of those, if and only if they are registered, no before-hook stops the
  // call and every provider but the last fails without a block.
  lemma TriesWhatChatFallbacksVisits(es: Entries, hooks: seq<ModelHook>, b: Boundary, alias: Alias, prompt: Prompt,
      visited: seq<Alias>)
    requires FallbackChain(es, alias, [alias] + visited)
    ensures Aliases(Calls(Invoke(es, hooks, b, alias, prompt, {}).trace)) == [alias] + visited <==>
      EveryoneButTheLastFails(es, hooks, b, [alias] + visited, prompt)
  {
    var chain := [alias] + visited;
    var run := Invoke(es, hooks, b, alias, prompt, {});
    CallsFollowTheChain(es, hooks, b, alias, prompt, chain);
    assert chain[..|chain|] == chain;
    var calls := Calls(run.trace);
    if |calls| == |chain| {
      AliasesOfPrefix(calls, chain);
      forall i | 0 <= i < |chain| - 1
        ensures WouldFallBack(es, hooks, b, chain, prompt, i)
      {
        assert FallsBack(es, calls[i]);
        assert calls[i] == (chain[i], calls[i].1);
      }
    } else if EveryoneButTheLastFails(es, hooks, b, chain, prompt) {
      StopsShort(es, hooks, b, chain, prompt, calls, run.exit);
    }
  }

  lemma StopsShort(es: Entries, hooks: seq<ModelHook>, b: Boundary, chain: seq<Alias>, prompt: Prompt,
                   calls: seq<(Alias, Prompt)>, exit: Exit)
    requires |calls| < |chain| && CallsFollow(hooks, b, chain, prompt, calls)
    requires ExitFollows(es, hooks, b, chain, prompt, calls, exit)
    ensures !EveryoneButTheLastFails(es, hooks, b, chain, prompt)
  {
    var n := |calls|;
    if exit.ModelNotFound? {
      assert chain[|chain| - 1] !in es;
    } else if exit.BeforeRaised? {
      if n < |chain| - 1 {
        assert !WouldFallBack(es, hooks, b, chain, prompt, n);
      } else {
        assert chain[..n + 1] == chain;
      }
    } else {
      assert calls[n - 1] == (chain[n - 1], calls[n - 1].1);
      assert !WouldFallBack(es, hooks, b, chain, prompt, n - 1);
    }
  }

  // A provider failure of any other class, control flow included, reaches the caller from the i-th
  // call if and only if that alias is the last of the chain.
  lemma FallbackFailureLeavesIff(es: Entries, hooks: seq<ModelHook>, b: Boundary, alias: Alias, prompt: Prompt,
                                 chain: seq<Alias>, i: nat)
    requires FallbackChain(es, alias, chain)
    requires i < |Calls(Invoke(es, hooks, b, alias, prompt, {}).trace)|
    requires var call := Calls(Invoke(es, hooks, b, alias, prompt, {}).trace)[i];
      call.0 in es && AnswerTo(es, call).Failed? && AnswerTo(es, call).exc.cls !in STOPPING
    ensures var run := Invoke(es, hooks, b, alias, prompt, {});
      var calls := Calls(run.trace);
      (i == |calls| - 1 && run.exit == ProviderFailed(AnswerTo(es, calls[i]).exc)) <==> i == |chain| - 1
  {
    CallsFollowTheChain(es, hooks, b, alias, prompt, chain);
  }

  // A control-flow signal is an exception like any other here: it leads to the fallback, and the
  // caller never sees it.
  lemma ControlFlowReachesTheFallback(b: Boundary, prompt: Prompt)
    ensures var es: Entries := map[
        "a" := Entry((p: Prompt) => Failed(Exc(ControlFlow, 0)), false, Some("b")),
        "b" := Entry((p: Prompt) => Answered("ok", 1), false, None)];
      var run := Invoke(es, [], b, "a", prompt, {});
      run.exit == Replied("ok") && Calls(run.trace) == [("a", prompt), ("b", prompt)]
  {
    var es: Entries := map[
      "a" := Entry((p: Prompt) => Failed(Exc(ControlFlow, 0)), false, Some("b")),
      "b" := Entry((p: Prompt) => Answered("ok", 1), false, None)];
    var second := Answering(es, [], b, "b", prompt, {"a"});
    assert second == Deliver([], b, "b", prompt, "ok", 1);
    ShowDeliver([], b, "b", prompt, "ok", 1);
    ShowGrows("b", prompt, prompt, second);
    var rest := Invoke(es, [], b, "b", prompt, {"a"});
    assert Answering(es, [], b, "a", prompt, {}) == rest;
    ShowGrows("a", prompt, prompt, rest);
    assert [("a", prompt)] + [("b", prompt)] == [("a", prompt), ("b", prompt)];
  }

  // The before-hooks run once per alias tried, and once more only for the alias whose prompt they
  // refuse; the after-hooks run at most once in the whole call, for the alias that answered.
  lemma HooksPerAlias(es: Entries, hooks: seq<ModelHook>, b: Boundary, alias: Alias, prompt: Prompt)
    ensures var run := Invoke(es, hooks, b, alias, prompt, {});
      var tried, befores, afters := Aliases(Calls(run.trace)), Befores(run.trace), Afters(run.trace);
      && NoDup(befores) && tried <= befores
      && |befores| == |tried| + (if run.exit.BeforeRaised? then 1 else 0)
      && (run.exit.Replied? || run.exit.AfterRaised? ==> tried != [] && afters == [tried[|tried| - 1]])
      && (!(run.exit.Replied? || run.exit.AfterRaised?) ==> afters == [])
  {
    var chain := Visit(es, alias, {});
    var run := Invoke(es, hooks, b, alias, prompt, {});
    TheChain(es, alias, chain);
    CallsFollowTheChain(es, hooks, b, alias, prompt, chain);
    AliasesOfPrefix(Calls(run.trace), chain);
  }

  // The model calls reported to the event bus, with their tokens.
  function Reports(trace: seq<Event>): seq<(Alias, nat)> {
    if trace == [] then []
    else (if trace[0].ModelCalled? then [(trace[0].alias, trace[0].tokens)] else []) + Reports(trace[1..])
  }

  lemma ReportsOneMore(e: Event, rest: seq<Event>)
    ensures Reports([e] + rest) == (if e.ModelCalled? then [(e.alias, e.tokens)] else []) + Reports(rest)
  {
    assert ([e] + rest)[1..] == rest;
  }

  lemma ReportsBehind(alias: Alias, prompt: Prompt, p: Prompt, rest: seq<Event>)
    ensures var trace := [BeforeModel(alias, prompt), Tried(alias, p)] + rest;
      Reports(trace) == Reports(rest) && Calls(trace) == [(alias, p)] + Calls(rest)
  {
    var later := [Tried(alias, p)] + rest;
    assert [BeforeModel(alias, prompt), Tried(alias, p)] + rest == [BeforeModel(alias, prompt)] + later;
    ReportsOneMore(BeforeModel(alias, prompt), later);
    ReportsOneMore(Tried(alias, p), rest);
    ShowOneMore(BeforeModel(alias, prompt), later);
    ShowOneMore(Tried(alias, p), rest);
  }

  lemma ReportsOfDeliver(hooks: seq<ModelHook>, b: Boundary, alias: Alias, p: Prompt, text: Text, tokens: nat)
    ensures var rest := Deliver(hooks, b, alias, p, text, tokens);
      Reports(rest.trace) == if rest.exit.Replied? then [(alias, tokens)] else []
  {
    var first, last := AfterModel(alias, p, text), ModelCalled(alias, tokens);
    assert [last] + [] == [last] && [first] + [] == [first] && [first] + [last] == [first, last];
    ReportsOneMore(last, []);
    ReportsOneMore(first, [last]);
    ReportsOneMore(first, []);
  }

  // A call is reported exactly when it replies: once, under the alias that answered last and with the
  // tokens of that answer, whatever failed before.
  lemma {:induction false} RepliesAreReportedOnce(es: Entries, hooks: seq<ModelHook>, b: Boundary, alias: Alias,
      prompt: Prompt, seen: set<Alias>)
    requires alias !in seen
    ensures var run := Invoke(es, hooks, b, alias, prompt, seen);
      var calls := Calls(run.trace);
      if run.exit.Replied? then
        && calls != [] && var last := calls[|calls| - 1];
        && last.0 in es && AnswerTo(es, last).Answered?
        && Reports(run.trace) == [(last.0, AnswerTo(es, last).tokens)]
      else Reports(run.trace) == []
    decreases es.Keys - seen
  {
    if alias in es {
      var masked := Transform(hooks, b.before(alias), prompt);
      if masked.Raised? {
        ReportsOneMore(BeforeModel(alias, prompt), []);
        assert [BeforeModel(alias, prompt)] + [] == [BeforeModel(alias, prompt)];
      } else {
        var p := masked.value;
        ReportsBehind(alias, prompt, p, Answering(es, hooks, b, alias, p, seen).trace);
        match es[alias].provider(p)
        case Answered(text, tokens) =>
          ReportsOfDeliver(hooks, b, alias, p, text, tokens);
          ShowDeliver(hooks, b, alias, p, text, tokens);
        case Failed(f) =>
          var next := Next(es[alias]);
          if AllowsFallback(f) && next.Some? && next.value !in seen && next.value != alias {
            RepliesAreReportedOnce(es, hooks, b, next.value, p, seen + {alias});
          }
      }
    }
  }

  // ---------------------------------------------------------------------------
  // The gateway of the source

  // The visited aliases whose provider has a chat model.
  function WithChat(es: Entries, aliases: seq<Alias>): seq<Alias> {
    if aliases == [] then []
    else
      var last := aliases[|aliases| - 1];
      WithChat(es, aliases[..|aliases| - 1]) + if last in es && es[last].chat then [last] else []
  }

  lemma {:induction false} WithChatIff(es: Entries, aliases: seq<Alias>)
    ensures forall a :: a in WithChat(es, aliases) <==> a in aliases && a in es && es[a].chat
  {
    if aliases != [] {
      WithChatIff(es, aliases[..|aliases| - 1]);
      assert aliases == aliases[..|aliases| - 1] + [aliases[|aliases| - 1]];
    }
  }

  class ModelGateway {
    var entries: Entries
    var log: seq<Event>

    constructor ()
      ensures entries == map[] && log == []
    {
      entries, log := map[], [];
    }

    method Register(alias: Alias, entry: Entry)
      modifies this`entries
      ensures entries == old(entries)[alias := entry]
    {
      entries := entries[alias := entry];
    }

    // The chat models of the fallbacks on the chain, or the alias on it that is not registered.
    method ChatFallbacks(alias: Alias) returns (r: Result<seq<Alias>, Alias>)
      ensures FallbackChain(entries, alias, Visit(entries, alias, {}))
      ensures var chain := Visit(entries, alias, {});
        && (r.Ok? <==> forall a :: a in chain ==> a in entries)
        && (r.Ok? ==> r.value == WithChat(entries, chain[1..]))
        && (r.Ok? ==> forall a :: a in r.value <==> a in chain[1..] && entries[a].chat)
        && (r.Err? ==> r.error in chain && r.error !in entries)
    {
      ghost var visited: seq<Alias> := [];
      TheChain(entries, alias, Visit(entries, alias, {}));
      if alias !in entries {
        return Err(alias);
      }
      var out, seen, cur := [], {alias}, Next(entries[alias]);
      ghost var chain := [alias];
      while cur.Some? && cur.value !in seen
        invariant chain == [alias] + visited
        invariant NoDup(chain) && Linked(entries, chain)
        invariant forall a :: a in chain <==> a in seen
        invariant forall a :: a in chain ==> a in entries
        invariant cur == Next(entries[chain[|chain| - 1]])
        invariant out == WithChat(entries, visited)
        decreases entries.Keys - seen
      {
        var a := cur.value;
        seen := seen + {a};
        ghost var before := visited;
        ChainExtends(entries, chain, a);
        visited := visited + [a];
        chain := chain + [a];
        assert visited[..|visited| - 1] == before;
        assert chain == [alias] + visited;
        if a !in entries {
          TheChain(entries, alias, chain);
          return Err(a);
        }
        if entries[a].chat {
          out := out + [a];
        }
        cur := Next(entries[a]);
      }
      TheChain(entries, alias, chain);
      assert chain[1..] == visited;
      WithChatIff(entries, visited);
      r := Ok(out);
    }

    method Transmit(hooks: seq<ModelHook>, b: Boundary, alias: Alias, prompt: Prompt, text: Text, tokens: nat)
        returns (exit: Exit)
      modifies this`log
      ensures var run := Deliver(hooks, b, alias, prompt, text, tokens);
        log == old(log) + run.trace && exit == run.exit
    {
      log := log + [AfterModel(alias, prompt, text)];
      var out := TransformValue(hooks, b.after(alias, prompt), text, true);
      if out.Raised? {
        return AfterRaised(out.exc);
      }
      log := log + [ModelCalled(alias, tokens)];
      exit := Replied(out.value);
    }

    method Answer(hooks: seq<ModelHook>, b: Boundary, alias: Alias, prompt: Prompt, seen: set<Alias>)
        returns (exit: Exit)
      requires alias in entries && alias !in seen
      modifies this`log
      ensures var run := Answering(entries, hooks, b, alias, prompt, seen);
        log == old(log) + run.trace && exit == run.exit
      decreases entries.Keys - seen, 0
    {
      var entry := entries[alias];
      var answer := entry.provider(prompt);
      if answer.Answered? {
        exit := Transmit(hooks, b, alias, prompt, answer.text, answer.tokens);
        return;
      }
      if AllowsFallback(answer.exc) {
        var next := Next(entry);
        if next.Some? && next.value !in seen && next.value != alias {
          exit := Call(hooks, b, next.value, prompt, seen + {alias});
          return;
        }
      }
      exit := ProviderFailed(answer.exc);
    }

    method Call(hooks: seq<ModelHook>, b: Boundary, alias: Alias, prompt: Prompt, seen: set<Alias>) returns (exit: Exit)
      requires alias !in seen
      modifies this`log
      ensures var run := Invoke(entries, hooks, b, alias, prompt, seen);
        log == old(log) + run.trace && exit == run.exit
      decreases entries.Keys - seen, 1
    {
      if alias !in entries {
        return ModelNotFound(alias);
      }
      log := log + [BeforeModel(alias, prompt)];
      var masked := TransformValue(hooks, b.before(alias), prompt, false);
      if masked.Raised? {
        return BeforeRaised(masked.exc);
      }
      log := log + [Tried(alias, masked.value)];
      exit := Answer(hooks, b, alias, masked.value, seen);
    }
  }

  lemma ChainExtends(es: Entries, chain: seq<Alias>, a: Alias)
    requires chain != [] && NoDup(chain) && Linked(es, chain) && a !in chain
    requires chain[|chain| - 1] in es && Next(es[chain[|chain| - 1]]) == Some(a)
    ensures NoDup(chain + [a]) && Linked(es, chain + [a])
  {}
}
