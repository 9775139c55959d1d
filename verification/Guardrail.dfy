/**
  Guardrails: string policies with a verdict, enforced on the visited leaves of
  a value. The main result is coverage over a run: every message of a history
  was checked, although each check looks only at the tail.
 */
module Guardrail {
  import opened Basics
  import opened Wrappers
  import opened Binding

  // `warn` is severity "warn"; any other severity blocks. A replacement masks instead.
  datatype Verdict<+T> = Verdict(allowed: bool, warn: bool, replacement: Option<T>) {
    predicate Masks() {
      replacement.Some?
    }

    predicate Blocking() {
      !allowed && !Masks() && !warn
    }
  }

  datatype Guard =
    | TextGuard(name: string, check: string -> Verdict<string>)
    | RawGuard(name: string, checkRaw: Value -> Verdict<Value>)

  // _check_leaf: pass, block, warn or substitute.
  function CheckLeaf<T>(name: string, verdict: Verdict<T>, leaf: T): Result<T, Error> {
    if verdict.allowed && !verdict.Masks() then Ok(leaf)
    else if verdict.Blocking() then Err(Blocked(name))
    else if verdict.Masks() then Ok(verdict.replacement.value)
    else Ok(leaf)
  }

  function PolicyOf(name: string, check: string -> Verdict<string>): Policy {
    s => CheckLeaf(name, check(s), s)
  }

  function EnforceOne(g: Guard, v: Value): Result<Value, Error> {
    match g
    case RawGuard(name, check) => CheckLeaf(name, check(v), v)
    case TextGuard(name, check) =>
      if v.Str? then (var t :- CheckLeaf(name, check(v.s), v.s); Ok(Str(t)))
      else Bind(v, PolicyOf(name, check))
  }

  function EnforceAll(guards: seq<Guard>, v: Value): Result<Value, Error> {
    if guards == [] then Ok(v)
    else
      var next :- EnforceOne(guards[0], v);
      EnforceAll(guards[1..], next)
  }

  method Enforce(guards: seq<Guard>, v: Value) returns (r: Result<Value, Error>)
    ensures r == EnforceAll(guards, v)
  {
    var value := v;
    var i := 0;
    assert guards[0..] == guards;
    while i < |guards|
      invariant 0 <= i <= |guards|
      invariant EnforceAll(guards, v) == EnforceAll(guards[i..], value)
    {
      assert guards[i..][1..] == guards[i + 1..];
      var next := EnforceOne(guards[i], value);
      if next.Err? {
        return next;
      }
      value := next.value;
      i := i + 1;
    }
    r := Ok(value);
  }

  lemma EnforceTextIsBind(name: string, check: string -> Verdict<string>, v: Value)
    ensures EnforceOne(TextGuard(name, check), v) == Bind(v, PolicyOf(name, check))
  {}

  // ---------------------------------------------------------------------------
  // What a guard does to a value

  // The check refuses the text: not allowed, with no replacement, and not merely warned about.
  predicate RefusesText(g: Guard, s: string)
    requires g.TextGuard?
  {
    var r := g.check(s);
    !r.allowed && r.replacement == None && !r.warn
  }

  // What stands in place of the text: a replacement whenever there is one.
  function Shown(g: Guard, s: string): string
    requires g.TextGuard?
  {
    if g.check(s).replacement.Some? then g.check(s).replacement.value else s
  }

  function ShownLeaves(g: Guard, leaves: seq<Leaf>): (r: seq<Leaf>)
    requires g.TextGuard?
    ensures |r| == |leaves|
  {
    if leaves == [] then []
    else [if leaves[0].Text? then Text(Shown(g, leaves[0].s)) else leaves[0]] + ShownLeaves(g, leaves[1..])
  }

  // A leaf that stops the guard: a refused text, or an opaque object that would have to be replaced.
  predicate StopsAt(g: Guard, l: Leaf)
    requires g.TextGuard?
  {
    RefusesText(g, l.s) || (l.OpaqueText? && Shown(g, l.s) != l.s)
  }

  predicate FirstStopAt(g: Guard, leaves: seq<Leaf>, k: nat)
    requires g.TextGuard?
  {
    k < |leaves| && StopsAt(g, leaves[k]) && forall j :: 0 <= j < k ==> !StopsAt(g, leaves[j])
  }

  // What the guard raises at a leaf that stops it.
  function StopError(g: Guard, s: string): Error
    requires g.TextGuard?
  {
    if RefusesText(g, s) then Blocked(g.name) else CannotSubstitute(s)
  }

  lemma PolicyShows(g: Guard, s: string)
    requires g.TextGuard?
    ensures PolicyOf(g.name, g.check)(s) == if RefusesText(g, s) then Err(Blocked(g.name)) else Ok(Shown(g, s))
  {}

  lemma {:induction false} FirstStop(g: Guard, leaves: seq<Leaf>)
    requires g.TextGuard?
    ensures var e := FirstError(PolicyOf(g.name, g.check), leaves);
      && (e.None? <==> forall l | l in leaves :: !StopsAt(g, l))
      && (e.Some? ==> exists k: nat :: FirstStopAt(g, leaves, k) && e.value == StopError(g, leaves[k].s))
  {
    if leaves != [] {
      PolicyShows(g, leaves[0].s);
      FirstStop(g, leaves[1..]);
      assert leaves == [leaves[0]] + leaves[1..];
      if StopsAt(g, leaves[0]) {
        assert leaves[0] in leaves && FirstStopAt(g, leaves, 0);
      } else if FirstError(PolicyOf(g.name, g.check), leaves[1..]).Some? {
        var k: nat :| FirstStopAt(g, leaves[1..], k) &&
          FirstError(PolicyOf(g.name, g.check), leaves[1..]).value == StopError(g, leaves[1..][k].s);
        assert forall j :: 0 < j < |leaves| ==> leaves[j] == leaves[1..][j - 1];
        assert FirstStopAt(g, leaves, k + 1);
      }
    }
  }

  lemma {:induction false} MappedAsShown(g: Guard, leaves: seq<Leaf>)
    requires g.TextGuard? && forall l | l in leaves :: !StopsAt(g, l)
    ensures MapLeaves(PolicyOf(g.name, g.check), leaves) == ShownLeaves(g, leaves)
  {
    if leaves != [] {
      PolicyShows(g, leaves[0].s);
      assert leaves == [leaves[0]] + leaves[1..];
      MappedAsShown(g, leaves[1..]);
    }
  }

  // A guard lets a value through exactly when no visited leaf stops it, and raises what the first one
  // that does says. What it lets through shows every visited text as the guard shows it, in order.
  lemma GuardDecides(g: Guard, v: Value)
    requires g.TextGuard?
    ensures EnforceOne(g, v).Ok? <==> forall l | l in Leaves(v) :: !StopsAt(g, l)
    ensures EnforceOne(g, v).Err? ==>
      exists k: nat :: FirstStopAt(g, Leaves(v), k) && EnforceOne(g, v).error == StopError(g, Leaves(v)[k].s)
    ensures EnforceOne(g, v).Ok? && (ToolStable(PolicyOf(g.name, g.check)) || ObjectMessages(v)) ==>
      Leaves(EnforceOne(g, v).value) == ShownLeaves(g, Leaves(v))
  {
    var f := PolicyOf(g.name, g.check);
    EnforceTextIsBind(g.name, g.check, v);
    BindRaisesTheFirst(v, f);
    FirstStop(g, Leaves(v));
    if EnforceOne(g, v).Ok? && (ToolStable(f) || ObjectMessages(v)) {
      LeavesAreMapped(v, f);
      MappedAsShown(g, Leaves(v));
    }
  }

  // A guard on the whole value: a replacement stands in for it whenever there is one, and a refusal
  // raises unless it is only a warning.
  lemma RawGuardDecides(g: Guard, v: Value)
    requires g.RawGuard?
    ensures EnforceOne(g, v) ==
      var r := g.checkRaw(v);
      if r.replacement.Some? then Ok(r.replacement.value)
      else if r.allowed || r.warn then Ok(v)
      else Err(Blocked(g.name))
  {}

  // ---------------------------------------------------------------------------
  // warn_only

  function WarnVerdict<T>(r: Verdict<T>): Verdict<T> {
    if r.allowed || r.Masks() then r else Verdict(false, true, None)
  }

  function WarnOnly(g: Guard): Guard {
    match g
    case TextGuard(name, check) => TextGuard(name, s => WarnVerdict(check(s)))
    case RawGuard(name, check) => RawGuard(name, v => WarnVerdict(check(v)))
  }

  // A warn-only guard raises on no text, and acts as the guard wherever that one does not block.
  lemma WarnOnlyLeaf<T>(name: string, r: Verdict<T>, leaf: T)
    ensures CheckLeaf(name, WarnVerdict(r), leaf) == if r.Blocking() then Ok(leaf) else CheckLeaf(name, r, leaf)
  {}

  // On a whole value: the warn-only guard succeeds unless an opaque object would be substituted,
  // and where the guard itself succeeds both return the same value.
  lemma WarnOnlyNeverBlocks(g: Guard, v: Value)
    requires g.TextGuard?
    ensures EnforceOne(WarnOnly(g), v).Ok? <==>
      forall l | l in Leaves(v) && l.OpaqueText? :: !g.check(l.s).Masks() || g.check(l.s).replacement == Some(l.s)
    ensures EnforceOne(g, v).Ok? ==> EnforceOne(WarnOnly(g), v) == EnforceOne(g, v)
  {
    var p, q := PolicyOf(g.name, g.check), PolicyOf(g.name, WarnOnly(g).check);
    EnforceTextIsBind(g.name, g.check, v);
    EnforceTextIsBind(g.name, WarnOnly(g).check, v);
    forall l: Leaf
      ensures q(l.s) == if g.check(l.s).Blocking() then Ok(l.s) else p(l.s)
    {
      WarnOnlyLeaf(g.name, g.check(l.s), l.s);
    }
    forall l: Leaf
      ensures Passes(q, l) <==> l.Text? || !g.check(l.s).Masks() || g.check(l.s).replacement == Some(l.s)
    {}
    BindSucceedsIff(v, q);
    if EnforceOne(g, v).Ok? {
      BindSucceedsIff(v, p);
      forall l | l in Leaves(v)
        ensures p(l.s) == q(l.s)
      {
        assert Passes(p, l);
      }
      BindDependsOnLeaves(v, p, q);
    }
  }

  // ---------------------------------------------------------------------------
  // Coverage over a run

  predicate Allows(g: Guard, l: Leaf) {
    g.TextGuard? && g.check(l.s).allowed
  }

  // A guard that only allows or blocks.
  ghost predicate Strict(g: Guard) {
    g.TextGuard? && forall s :: !g.check(s).warn && !g.check(s).Masks()
  }

  // A guard that allows, blocks or warns, but substitutes nothing.
  ghost predicate Checks(g: Guard) {
    g.TextGuard? && forall s :: !g.check(s).Masks()
  }

  lemma CheckKeepsValue(g: Guard, v: Value)
    requires Checks(g) && EnforceOne(g, v).Ok?
    ensures EnforceOne(g, v) == Ok(v)
    ensures Strict(g) ==> forall l | l in Leaves(v) :: Allows(g, l)
  {
    var f := PolicyOf(g.name, g.check);
    EnforceTextIsBind(g.name, g.check, v);
    BindSucceedsIff(v, f);
    forall l | l in Leaves(v)
      ensures f(l.s) == Ok(l.s)
      ensures Strict(g) ==> Allows(g, l)
    {
      assert Passes(f, l);
    }
  }

  // A list of checking guards that raises nothing changed nothing, and its blocking guards allowed
  // every visited leaf.
  lemma {:induction false} ChecksKeepValue(guards: seq<Guard>, v: Value)
    requires (forall g | g in guards :: Checks(g)) && EnforceAll(guards, v).Ok?
    ensures EnforceAll(guards, v) == Ok(v)
    ensures forall g, l | g in guards && Strict(g) && l in Leaves(v) :: Allows(g, l)
  {
    if guards != [] {
      CheckKeepsValue(guards[0], v);
      ChecksKeepValue(guards[1..], v);
    }
  }

  // What one step may append: one message, or a block of tool messages.
  predicate OneStep(block: seq<Value>) {
    block != [] && (|block| == 1 || forall m | m in block :: IsTool(m))
  }

  lemma {:induction false} RunStartReaches(msgs: seq<Value>, i: nat, bound: nat)
    requires bound <= i < |msgs|
    requires forall k :: bound <= k <= i ==> IsTool(msgs[k])
    ensures RunStart(msgs, i) <= bound
  {
    if i > bound {
      RunStartReaches(msgs, i - 1, bound);
    }
  }

  lemma {:induction false} RunStartIsTools(msgs: seq<Value>, i: nat)
    requires i < |msgs| && RunStart(msgs, i) < i
    ensures forall k :: RunStart(msgs, i) <= k <= i ==> IsTool(msgs[k])
  {
    if RunStart(msgs, i - 1) < i - 1 {
      RunStartIsTools(msgs, i - 1);
    }
  }

  // The tail covers everything a step appended, exactly for the admissible steps.
  lemma TailCoversBlock(history: seq<Value>, block: seq<Value>)
    requires block != []
    ensures TailStart(history + block) <= |history| <==> OneStep(block)
    ensures OneStep(block) ==> forall m | m in block :: m in (history + block)[TailStart(history + block)..]
  {
    var msgs := history + block;
    var last := |msgs| - 1;
    if OneStep(block) {
      if |block| > 1 {
        assert forall k :: |history| <= k <= last ==> msgs[k] == block[k - |history|];
        RunStartReaches(msgs, last, |history|);
      }
      var start := TailStart(msgs);
      forall m | m in block
        ensures m in msgs[start..]
      {
        var k :| 0 <= k < |block| && block[k] == m;
        assert msgs[start..][|history| + k - start] == m;
      }
    }
    if TailStart(msgs) <= |history| && |block| > 1 {
      RunStartIsTools(msgs, last);
      forall m | m in block
        ensures IsTool(m)
      {
        var k :| 0 <= k < |block| && block[k] == m;
        assert msgs[|history| + k] == m;
      }
    }
  }

  // The state a step is checked in: other fields around the message list.
  function StateWith(before: seq<(string, Value)>, history: seq<Value>, after: seq<(string, Value)>): Value {
    Dict(before + [(MESSAGES, List(history))] + after)
  }

  datatype RunStep = RunStep(block: seq<Value>, before: seq<(string, Value)>, after: seq<(string, Value)>)

  function History(steps: seq<RunStep>): seq<Value> {
    if steps == [] then [] else History(steps[..|steps| - 1]) + steps[|steps| - 1].block
  }

  // No check of the run raised: after each step the guards passed the state of that moment.
  ghost predicate NothingRaised(guards: seq<Guard>, steps: seq<RunStep>) {
    steps == [] ||
    var last := steps[|steps| - 1];
    && NothingRaised(guards, steps[..|steps| - 1])
    && EnforceAll(guards, StateWith(last.before, History(steps), last.after)).Ok?
  }

  lemma {:induction false} EntryLeavesOfState(before: seq<(string, Value)>, e: (string, Value),
      after: seq<(string, Value)>)
    ensures forall l | l in LeavesOfEntry(e) :: l in EntryLeaves(before + [e] + after)
  {
    if before == [] {
      assert ([] + [e] + after)[0] == e;
    } else {
      assert (before + [e] + after)[0] == before[0];
      assert (before + [e] + after)[1..] == before[1..] + [e] + after;
      EntryLeavesOfState(before[1..], e, after);
    }
  }

  lemma {:induction false} LeavesOfMember(items: seq<Value>, m: Value)
    requires m in items
    ensures forall l | l in Leaves(m) :: l in AllLeaves(items)
  {
    if items[0] != m {
      assert items == [items[0]] + items[1..];
      LeavesOfMember(items[1..], m);
    }
  }

  // The messages of a checked state are visited from the tail on.
  lemma TailLeavesAreVisited(before: seq<(string, Value)>, msgs: seq<Value>, after: seq<(string, Value)>, m: Value)
    requires msgs != [] && m in msgs[TailStart(msgs)..]
    ensures forall l | l in Leaves(m) :: l in Leaves(StateWith(before, msgs, after))
  {
    var e := (MESSAGES, List(msgs));
    EntryLeavesOfState(before, e, after);
    LeavesOfMember(msgs[TailStart(msgs)..], m);
    assert IsMessageList(e.0, e.1);
  }

  // In every run that has not raised, every leaf of every message of the history was checked and
  // allowed by every blocking guard, among guards that block or warn.
  lemma {:induction false} EveryMessageWasChecked(guards: seq<Guard>, steps: seq<RunStep>)
    requires forall g | g in guards :: Checks(g)
    requires forall i :: 0 <= i < |steps| ==> OneStep(steps[i].block)
    requires NothingRaised(guards, steps)
    ensures forall m, l, g | m in History(steps) && l in Leaves(m) && g in guards && Strict(g) :: Allows(g, l)
  {
    if steps != [] {
      var front, last := steps[..|steps| - 1], steps[|steps| - 1];
      EveryMessageWasChecked(guards, front);
      var history := History(steps);
      ChecksKeepValue(guards, StateWith(last.before, history, last.after));
      TailCoversBlock(History(front), last.block);
      forall m, l, g | m in history && l in Leaves(m) && g in guards && Strict(g)
        ensures Allows(g, l)
      {
        if m in last.block {
          TailLeavesAreVisited(last.before, history, last.after, m);
        }
      }
    }
  }

  // ---------------------------------------------------------------------------
  // Coverage when guards also rewrite

  // A step whose check rewrites: `update` says that only the new block is in the checked value, as
  // after a node, and not the whole history, as before one.
  datatype RewriteStep = RewriteStep(
    block: seq<Value>,
    update: bool,
    before: seq<(string, Value)>,
    after: seq<(string, Value)>)

  function MessagesAt(v: Value, k: nat): seq<Value> {
    if v.Dict? && k < |v.entries| && v.entries[k].1.List? then v.entries[k].1.items else []
  }

  // The history as the guards rewrote it, or None once one of them raised.
  function Rewritten(guards: seq<Guard>, steps: seq<RewriteStep>): Option<seq<Value>> {
    if steps == [] then Some([])
    else
      var last := steps[|steps| - 1];
      match Rewritten(guards, steps[..|steps| - 1])
      case None => None
      case Some(history) => Append(guards, history, last)
  }

  function Append(guards: seq<Guard>, history: seq<Value>, step: RewriteStep): Option<seq<Value>> {
    var shown, kept := if step.update then [] else history, if step.update then history else [];
    match EnforceAll(guards, StateWith(step.before, shown + step.block, step.after))
    case Err(_) => None
    case Ok(v) => Some(kept + MessagesAt(v, |step.before|))
  }

  ghost predicate NoDicts(msgs: seq<Value>) {
    forall m | m in msgs :: !m.Dict?
  }

  // The policy does not rename the role of tool messages.
  ghost predicate KeepsTool(f: Policy) {
    f(TOOL).Ok? ==> f(TOOL).value == TOOL
  }

  // Rewriting cannot turn tool messages into others.
  ghost predicate KeepsRoles(masks: seq<Guard>, msgs: seq<Value>) {
    NoDicts(msgs) || forall g | g in masks :: g.TextGuard? && KeepsTool(PolicyOf(g.name, g.check))
  }

  lemma {:induction false} EntriesSplit(a: seq<(string, Value)>, e: (string, Value), c: seq<(string, Value)>, f: Policy)
      returns (a': seq<(string, Value)>, x: Value, c': seq<(string, Value)>)
    requires BindEntries(a + [e] + c, f).Ok?
    ensures BindEntry(e, f) == Ok(x) && |a'| == |a|
    ensures BindEntries(a + [e] + c, f) == Ok(a' + [(e.0, x)] + c')
  {
    var all := a + [e] + c;
    if a == [] {
      assert all[0] == e && all[1..] == c;
      a', x, c' := [], BindEntry(e, f).value, BindEntries(c, f).value;
      assert [] + [(e.0, x)] + c' == [(e.0, x)] + c';
    } else {
      assert all[0] == a[0] && all[1..] == a[1..] + [e] + c;
      var rest;
      rest, x, c' := EntriesSplit(a[1..], e, c, f);
      a' := [(a[0].0, BindEntry(a[0], f).value)] + rest;
      assert a' + [(e.0, x)] + c' == [a'[0]] + (rest + [(e.0, x)] + c');
    }
  }

  // As long as before, with a tail at least as long and the same messages before that, and no
  // dict-shaped ones if there were none.
  ghost predicate SameFront(msgs: seq<Value>, msgs': seq<Value>) {
    && msgs != [] && |msgs'| == |msgs| && TailStart(msgs') <= TailStart(msgs)
    && msgs'[..TailStart(msgs')] == msgs[..TailStart(msgs')]
    && (NoDicts(msgs) ==> NoDicts(msgs'))
  }

  lemma ToolStaysTool(m: Value, f: Policy)
    requires IsTool(m) && Bind(m, f).Ok? && (KeepsTool(f) || !m.Dict?)
    ensures IsTool(Bind(m, f).value)
  {
    if m.Dict? {
      BoundRole(m.entries, f);
    }
  }

  // Binding the tail can make the tail longer, but not shorter.
  lemma TailOnlyGrows(msgs: seq<Value>, f: Policy)
    requires msgs != [] && (NoDicts(msgs) || KeepsTool(f)) && BindAll(msgs[TailStart(msgs)..], f).Ok?
    ensures TailStart(msgs[..TailStart(msgs)] + BindAll(msgs[TailStart(msgs)..], f).value) <= TailStart(msgs)
  {
    var i, last := TailStart(msgs), |msgs| - 1;
    var tail := BindAll(msgs[i..], f).value;
    var bound := msgs[..i] + tail;
    if i < last {
      RunStartIsTools(msgs, last);
      forall k | i <= k <= last
        ensures IsTool(bound[k])
      {
        BindAllAt(msgs[i..], f, k - i);
        assert msgs[k] in msgs;
        ToolStaysTool(msgs[k], f);
      }
      RunStartReaches(bound, last, i);
    }
  }

  lemma {:induction false} BindKeepsNoDicts(items: seq<Value>, f: Policy)
    requires NoDicts(items) && BindAll(items, f).Ok?
    ensures NoDicts(BindAll(items, f).value)
  {
    if items != [] {
      BindKeepsNoDicts(items[1..], f);
    }
  }

  // Binding rewrites the tail of a message list and nothing before it.
  lemma BoundList(msgs: seq<Value>, f: Policy) returns (msgs': seq<Value>)
    requires msgs != [] && (NoDicts(msgs) || KeepsTool(f)) && BindEntry((MESSAGES, List(msgs)), f).Ok?
    ensures BindEntry((MESSAGES, List(msgs)), f) == Ok(List(msgs'))
    ensures SameFront(msgs, msgs')
  {
    var i := TailStart(msgs);
    var tail := BindAll(msgs[i..], f).value;
    msgs' := msgs[..i] + tail;
    TailOnlyGrows(msgs, f);
    if NoDicts(msgs) {
      BindKeepsNoDicts(msgs[i..], f);
    }
  }

  lemma GuardKeepsState(g: Guard, before: seq<(string, Value)>, msgs: seq<Value>, after: seq<(string, Value)>)
      returns (before': seq<(string, Value)>, msgs': seq<Value>, after': seq<(string, Value)>)
    requires g.TextGuard? && msgs != [] && KeepsRoles([g], msgs)
    requires EnforceOne(g, StateWith(before, msgs, after)).Ok?
    ensures EnforceOne(g, StateWith(before, msgs, after)) == Ok(StateWith(before', msgs', after'))
    ensures |before'| == |before| && SameFront(msgs, msgs')
  {
    var f := PolicyOf(g.name, g.check);
    var x;
    before', x, after' := EntriesSplit(before, (MESSAGES, List(msgs)), after, f);
    assert g in [g];
    msgs' := BoundList(msgs, f);
  }

  lemma {:induction false} MasksKeepState(masks: seq<Guard>, before: seq<(string, Value)>, msgs: seq<Value>,
      after: seq<(string, Value)>)
      returns (before': seq<(string, Value)>, msgs': seq<Value>, after': seq<(string, Value)>)
    requires (forall g | g in masks :: g.TextGuard?) && msgs != [] && KeepsRoles(masks, msgs)
    requires EnforceAll(masks, StateWith(before, msgs, after)).Ok?
    ensures EnforceAll(masks, StateWith(before, msgs, after)) == Ok(StateWith(before', msgs', after'))
    ensures |before'| == |before| && SameFront(msgs, msgs')
  {
    before', msgs', after' := before, msgs, after;
    if masks != [] {
      var first, middle, rest := GuardKeepsState(masks[0], before, msgs, after);
      before', msgs', after' := MasksKeepState(masks[1..], first, middle, rest);
      assert msgs'[..TailStart(msgs')] == middle[..TailStart(middle)][..TailStart(msgs')];
    }
  }

  lemma {:induction false} EnforceAllSplits(a: seq<Guard>, b: seq<Guard>, v: Value)
    ensures EnforceAll(a + b, v) == match EnforceAll(a, v) case Err(e) => Err(e) case Ok(w) => EnforceAll(b, w)
  {
    if a == [] {
      assert a + b == b;
    } else {
      assert (a + b)[0] == a[0] && (a + b)[1..] == a[1..] + b;
      var next := EnforceOne(a[0], v);
      if next.Ok? {
        EnforceAllSplits(a[1..], b, next.value);
      }
    }
  }

  // Every leaf of every message was allowed by every blocking guard of the list.
  ghost predicate Cleared(checks: seq<Guard>, msgs: seq<Value>) {
    forall m, l, g | m in msgs && l in Leaves(m) && g in checks && Strict(g) :: Allows(g, l)
  }

  // What one step adds was checked as it was stored, and what was stored before stays as it was.
  lemma RewriteStepClears(masks: seq<Guard>, checks: seq<Guard>, shown: seq<Value>, step: RewriteStep)
      returns (msgs: seq<Value>)
    requires (forall g | g in masks :: g.TextGuard?) && (forall g | g in checks :: Checks(g))
    requires OneStep(step.block) && KeepsRoles(masks, shown + step.block) && Cleared(checks, shown)
    requires EnforceAll(masks + checks, StateWith(step.before, shown + step.block, step.after)).Ok?
    ensures var state := StateWith(step.before, shown + step.block, step.after);
      msgs == MessagesAt(EnforceAll(masks + checks, state).value, |step.before|)
    ensures Cleared(checks, msgs) && (NoDicts(shown + step.block) ==> NoDicts(msgs))
  {
    var all := shown + step.block;
    var before', after';
    EnforceAllSplits(masks, checks, StateWith(step.before, all, step.after));
    before', msgs, after' := MasksKeepState(masks, step.before, all, step.after);
    ChecksKeepValue(checks, StateWith(before', msgs, after'));
    assert StateWith(before', msgs, after').entries[|before'|] == (MESSAGES, List(msgs));
    TailCoversBlock(shown, step.block);
    var i := TailStart(msgs);
    forall m, l, g | m in msgs && l in Leaves(m) && g in checks && Strict(g)
      ensures Allows(g, l)
    {
      var k :| 0 <= k < |msgs| && msgs[k] == m;
      if k < i {
        assert msgs[..i][k] == all[..i][k] == shown[k];
      } else {
        assert msgs[i..][k - i] == m;
        TailLeavesAreVisited(before', msgs, after', m);
      }
    }
  }

  // With guards of any kind first, and behind the last masking one only guards that block or warn:
  // in every run that has not raised, every leaf of every message of the rewritten history was
  // allowed by every blocking guard among the latter.
  lemma {:induction false} EveryRewrittenMessageWasChecked(masks: seq<Guard>, checks: seq<Guard>,
      steps: seq<RewriteStep>)
    requires (forall g | g in masks :: g.TextGuard?) && (forall g | g in checks :: Checks(g))
    requires forall i :: 0 <= i < |steps| ==> OneStep(steps[i].block) && KeepsRoles(masks, steps[i].block)
    requires Rewritten(masks + checks, steps).Some?
    ensures KeepsRoles(masks, Rewritten(masks + checks, steps).value)
    ensures Cleared(checks, Rewritten(masks + checks, steps).value)
  {
    if steps != [] {
      var front, last := steps[..|steps| - 1], steps[|steps| - 1];
      EveryRewrittenMessageWasChecked(masks, checks, front);
      var history := Rewritten(masks + checks, front).value;
      var shown, kept := if last.update then [] else history, if last.update then history else [];
      var msgs := RewriteStepClears(masks, checks, shown, last);
      assert Rewritten(masks + checks, steps).value == kept + msgs;
    }
  }

  // ---------------------------------------------------------------------------
  // A renamed role

  function TextMessage(role: string, text: string): Value {
    Dict([("role", Str(role)), ("text", Str(text))])
  }

  lemma TextMessageBound(role: string, text: string, f: Policy)
    requires f(role).Ok? && f(text).Ok?
    ensures Bind(TextMessage(role, text), f) == Ok(TextMessage(f(role).value, f(text).value))
  {
    var entries := [("role", Str(role)), ("text", Str(text))];
    assert entries[1..] == [("text", Str(text))];
    assert BindEntry(entries[0], f) == Ok(Str(f(role).value)) && BindEntry(entries[1], f) == Ok(Str(f(text).value));
    OneEntry(entries[1], f);
    var bound := [("role", Str(f(role).value)), ("text", Str(f(text).value))];
    assert bound == [bound[0]] + [bound[1]];
    assert BindEntries(entries, f) == Ok(bound);
  }

  lemma TextIsVisited(role: string, text: string)
    ensures Text(text) in Leaves(TextMessage(role, text))
  {
    var entries := [("role", Str(role)), ("text", Str(text))];
    assert entries[1..] == [("text", Str(text))];
    assert EntryLeaves(entries) == LeavesOfEntry(entries[0]) + EntryLeaves(entries[1..]);
    assert EntryLeaves(entries[1..]) == LeavesOfEntry(entries[1]) + EntryLeaves(entries[1..][1..]);
    assert LeavesOfEntry(entries[1]) == [Text(text)];
  }

  function RenameTool(s: string): Verdict<string> {
    Verdict(true, false, if s == TOOL then Some("t") else None)
  }

  function RefuseBad(s: string): Verdict<string> {
    Verdict(s != "bad", false, None)
  }

  lemma RenamePolicy()
    ensures var f, g := PolicyOf("rename", RenameTool), PolicyOf("no bad", RefuseBad);
      && f(TOOL) == Ok("t") && f("bad") == Ok("bad") && f("ok") == Ok("ok")
      && g("t") == Ok("t") && g("ok") == Ok("ok")
  {
    assert "bad"[0] == 'b' && "ok"[0] == 'o' && TOOL[0] == 't' && |"t"| == 1 && |TOOL| == 4;
    PolicyAt("rename", RenameTool, TOOL);
    PolicyAt("rename", RenameTool, "bad");
    PolicyAt("rename", RenameTool, "ok");
    PolicyAt("no bad", RefuseBad, "t");
    PolicyAt("no bad", RefuseBad, "ok");
  }

  lemma PolicyAt(name: string, check: string -> Verdict<string>, s: string)
    ensures PolicyOf(name, check)(s) == CheckLeaf(name, check(s), s)
  {}

  // A mask that renames the tool role, before a guard that blocks "bad": the mask sees both messages
  // of the step, the guard only the last, and "bad" is stored.
  lemma RenamedRoleEscapesTheCheck()
    ensures var mask := TextGuard("rename", RenameTool);
      var guard := TextGuard("no bad", RefuseBad);
      var step := RewriteStep([TextMessage(TOOL, "bad"), TextMessage(TOOL, "ok")], true, [], []);
      && Checks(guard) && Strict(guard) && OneStep(step.block)
      && Rewritten([mask, guard], [step]) == Some([TextMessage("t", "bad"), TextMessage("t", "ok")])
      && !Allows(guard, Text("bad")) && Text("bad") in Leaves(TextMessage("t", "bad"))
  {
    var mask := TextGuard("rename", RenameTool);
    var guard := TextGuard("no bad", RefuseBad);
    var block := [TextMessage(TOOL, "bad"), TextMessage(TOOL, "ok")];
    var stored := [TextMessage("t", "bad"), TextMessage("t", "ok")];
    var f, g := PolicyOf(mask.name, mask.check), PolicyOf(guard.name, guard.check);
    RenamePolicy();
    TextIsVisited("t", "bad");
    TextMessageBound(TOOL, "bad", f);
    TextMessageBound(TOOL, "ok", f);
    TextMessageBound("t", "ok", g);
    MaskSeesBoth(block, stored, f);
    GuardSeesTheLast(stored, g);
    EnforceTwo(mask, guard, StateWith([], block, []), StateWith([], stored, []));
    OneRewrite([mask, guard], block, stored);
  }

  // A run of one update that carries nothing but messages.
  lemma OneRewrite(guards: seq<Guard>, block: seq<Value>, stored: seq<Value>)
    requires EnforceAll(guards, StateWith([], block, [])) == Ok(StateWith([], stored, []))
    ensures Rewritten(guards, [RewriteStep(block, true, [], [])]) == Some(stored)
  {
    var step := RewriteStep(block, true, [], []);
    assert [] + block == block && [] + stored == stored && [step][..0] == [];
    JustMessages(stored);
    assert Append(guards, [], step) == Some(stored);
  }

  lemma EnforceTwo(mask: Guard, guard: Guard, v: Value, w: Value)
    requires EnforceOne(mask, v) == Ok(w) && EnforceOne(guard, w) == Ok(w)
    ensures EnforceAll([mask, guard], v) == Ok(w)
  {
    var both, one := [mask, guard], [guard];
    assert both[1..] == one && one[1..] == [];
    assert EnforceAll([], w) == Ok(w);
    assert EnforceAll(one, w) == Ok(w);
  }

  lemma JustMessages(msgs: seq<Value>)
    ensures StateWith([], msgs, []) == Dict([(MESSAGES, List(msgs))])
  {
    assert [] + [(MESSAGES, List(msgs))] + [] == [(MESSAGES, List(msgs))];
  }

  lemma MaskSeesBoth(block: seq<Value>, stored: seq<Value>, f: Policy)
    requires |block| == |stored| == 2 && IsTool(block[0]) && IsTool(block[1])
    requires Bind(block[0], f) == Ok(stored[0]) && Bind(block[1], f) == Ok(stored[1])
    ensures Bind(StateWith([], block, []), f) == Ok(StateWith([], stored, []))
  {
    assert block[1..] == [block[1]] && block[0..] == block && block[..0] == [];
    OneItem(block[1], f);
    assert stored == [stored[0]] + [stored[1]];
    assert BindAll(block, f) == Ok(stored);
    assert TailStart(block) == 0 && [] + stored == stored;
    OneEntry((MESSAGES, List(block)), f);
    JustMessages(block);
    JustMessages(stored);
  }

  lemma GuardSeesTheLast(stored: seq<Value>, g: Policy)
    requires |stored| == 2 && !IsTool(stored[0]) && Bind(stored[1], g) == Ok(stored[1])
    ensures Bind(StateWith([], stored, []), g) == Ok(StateWith([], stored, []))
  {
    assert stored[1..] == [stored[1]];
    OneItem(stored[1], g);
    assert stored[..1] + [stored[1]] == stored;
    assert TailStart(stored) == 1;
    OneEntry((MESSAGES, List(stored)), g);
    JustMessages(stored);
  }

  // ---------------------------------------------------------------------------
  // Exactly when masks leave coverage intact

  function PolicyOfGuard(g: Guard): Policy
    requires g.TextGuard?
  {
    PolicyOf(g.name, g.check)
  }

  // A run of admissible steps that nothing stopped stores only what the checks behind the masks allow.
  ghost predicate CoversRun(masks: seq<Guard>, checks: seq<Guard>, steps: seq<RewriteStep>) {
    (forall g | g in checks :: Checks(g)) && (forall i :: 0 <= i < |steps| ==> OneStep(steps[i].block)) &&
    Rewritten(masks + checks, steps).Some? ==>
      Cleared(checks, Rewritten(masks + checks, steps).value)
  }

  ghost predicate CoversEveryRun(masks: seq<Guard>) {
    forall checks: seq<Guard>, steps: seq<RewriteStep> :: CoversRun(masks, checks, steps)
  }

  ghost predicate AllText(masks: seq<Guard>) {
    forall g | g in masks :: g.TextGuard?
  }

  ghost predicate AllKeepTool(masks: seq<Guard>)
    requires AllText(masks)
  {
    forall g | g in masks :: KeepsTool(PolicyOfGuard(g))
  }

  // Every mask in front of the first one that renames the tool role lets that role through: no mask
  // refuses the text, or there is only one mask.
  ghost predicate Reached(masks: seq<Guard>)
    requires AllText(masks)
  {
    masks == [] || !KeepsTool(PolicyOfGuard(masks[0])) || AllKeepTool(masks)
    || (PolicyOfGuard(masks[0])(TOOL).Ok? && Reached(masks[1..]))
  }

  lemma {:induction false} NoRefusalIsReached(masks: seq<Guard>)
    requires AllText(masks)
    requires |masks| == 1 || forall g | g in masks :: PolicyOfGuard(g)(TOOL).Ok?
    ensures Reached(masks)
  {
    if |masks| > 1 {
      NoRefusalIsReached(masks[1..]);
    }
  }

  // A message that no text policy touches.
  const EMPTY_TOOL := Msg(TOOL, None, Plain(""))

  function ToolPair(role: string): seq<Value> {
    [RoleDict(role), EMPTY_TOOL]
  }

  lemma ToolPairRoles(role: string)
    ensures IsTool(ToolPair(role)[1]) && (IsTool(ToolPair(role)[0]) <==> role == TOOL)
  {
    assert Get([("role", Str(role))], "role") == Some(Str(role));
  }

  // Masks that leave the tool role as it is leave the pair as it is, and the first that renames it
  // is the last to see the dict-shaped message.
  lemma {:induction false} PairIsRenamed(masks: seq<Guard>) returns (t: string)
    requires AllText(masks) && Reached(masks) && !AllKeepTool(masks)
    ensures t != TOOL
    ensures EnforceAll(masks, StateWith([], ToolPair(TOOL), [])) == Ok(StateWith([], ToolPair(t), []))
  {
    var g, f := masks[0], PolicyOfGuard(masks[0]);
    EnforceTextIsBind(g.name, g.check, StateWith([], ToolPair(TOOL), []));
    ToolPairRoles(TOOL);
    t := f(TOOL).value;
    RoleDictBound(TOOL, f);
    MaskSeesBoth(ToolPair(TOOL), ToolPair(t), f);
    if t != TOOL {
      PairStaysRenamed(masks[1..], t);
    } else {
      assert masks == [g] + masks[1..];
      t := PairIsRenamed(masks[1..]);
    }
  }

  lemma {:induction false} PairStaysRenamed(guards: seq<Guard>, t: string)
    requires AllText(guards) && t != TOOL
    ensures EnforceAll(guards, StateWith([], ToolPair(t), [])) == Ok(StateWith([], ToolPair(t), []))
  {
    if guards != [] {
      var g := guards[0];
      EnforceTextIsBind(g.name, g.check, StateWith([], ToolPair(t), []));
      ToolPairRoles(t);
      GuardSeesTheLast(ToolPair(t), PolicyOfGuard(g));
      PairStaysRenamed(guards[1..], t);
    }
  }

  // A guard that blocks exactly one text.
  function RefuseOnly(t: string): Guard {
    TextGuard("refuse", (s: string) => Verdict(s != t, false, None))
  }

  lemma RenamedPairEscapes(masks: seq<Guard>)
    requires AllText(masks) && Reached(masks) && !AllKeepTool(masks)
    ensures !CoversEveryRun(masks)
  {
    var t := PairIsRenamed(masks);
    var guard := RefuseOnly(t);
    var checks := [guard];
    EnforceAllSplits(masks, checks, StateWith([], ToolPair(TOOL), []));
    PairStaysRenamed(checks, t);
    OneRewrite(masks + checks, ToolPair(TOOL), ToolPair(t));
    ToolPairRoles(TOOL);
    var steps := [RewriteStep(ToolPair(TOOL), true, [], [])];
    assert forall m | m in ToolPair(TOOL) :: m == ToolPair(TOOL)[0] || m == ToolPair(TOOL)[1];
    assert OneStep(steps[0].block);
    assert Checks(guard) && Strict(guard) && guard in checks;
    RoleDictBound(t, PolicyOfGuard(guard));
    var m, l := ToolPair(t)[0], Text(t);
    assert m in ToolPair(t) && l in Leaves(m) && !Allows(guard, l);
    assert !Cleared(checks, ToolPair(t));
    assert !CoversRun(masks, checks, steps);
  }

  // Masks leave coverage intact, for all checks behind them and all runs, if and only if none of
  // them renames the role of tool messages.
  lemma MasksCoverIff(masks: seq<Guard>)
    requires AllText(masks) && Reached(masks)
    ensures CoversEveryRun(masks) <==> AllKeepTool(masks)
  {
    if AllKeepTool(masks) {
      forall checks: seq<Guard>, steps: seq<RewriteStep>
        ensures CoversRun(masks, checks, steps)
      {
        if (forall g | g in checks :: Checks(g)) && (forall i :: 0 <= i < |steps| ==> OneStep(steps[i].block))
           && Rewritten(masks + checks, steps).Some? {
          EveryRewrittenMessageWasChecked(masks, checks, steps);
        }
      }
    } else {
      RenamedPairEscapes(masks);
    }
  }

  // For a single mask there is no other condition.
  lemma MaskCoversIff(mask: Guard)
    requires mask.TextGuard?
    ensures CoversEveryRun([mask]) <==> KeepsTool(PolicyOf(mask.name, mask.check))
  {
    NoRefusalIsReached([mask]);
    MasksCoverIff([mask]);
  }
}
