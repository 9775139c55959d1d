/**
  The stream gate: holds back the raw tokens of guarded nodes, hides internal
  nodes, and releases one finished message per held node when it updates.

  `Next` and `Emitted` are the gate's step on values; `StreamGate.Feed` is the
  in-place form. The main results compare two upstream runs (non-interference)
  and replace the hold table by the run's own history.
 */
module StreamGate {
  import opened Basics
  import opened Wrappers

  type Mode = string
  type NodeName = string

  const VALUES: Mode := "values"
  const UPDATES: Mode := "updates"
  const MESSAGES: Mode := "messages"
  const STRUCTURED: Mode := "structured"
  const INTERRUPT: NodeName := "__interrupt__"
  const WAITING_APPROVAL := "WAITING_APPROVAL"

  // An LLM token chunk, or a finished message rendered as one.
  datatype Chunk = Chunk(content: string, id: Option<string>)

  datatype Meta = Meta(node: Option<NodeName>, rest: string)

  // Message objects carry a type; dict-shaped messages have no `type` attribute.
  datatype Message = MessageObject(kind: string, content: string, id: Option<string>) | MessageDict(fields: string)

  datatype Field =
    | MessageList(msgs: seq<Message>)
    | OneMessage(msg: Message)
    | Model(data: string)
    | Truthy(data: string)
    | Falsy(data: string)
  {
    // hasattr(v, "model_dump")
    predicate Dumpable() {
      Model? || (OneMessage? && msg.MessageObject?)
    }
  }

  predicate DistinctKeys<V>(s: seq<(string, V)>) {
    forall i, j :: 0 <= i < j < |s| ==> s[i].0 != s[j].0
  }

  // Python dicts: ordered, and no key twice.
  type Dict<V> = s: seq<(string, V)> | DistinctKeys(s) witness []

  predicate HasKey<V>(d: seq<(string, V)>, k: string) {
    exists i :: 0 <= i < |d| && d[i].0 == k
  }

  datatype Update = Fields(fields: Dict<Field>) | OtherUpdate(truthy: bool, data: string) {
    predicate IsTruthy() {
      if Fields? then fields != [] else truthy
    }
  }

  datatype Payload =
    | Token(chunk: Chunk, meta: Option<Meta>)
    | Entries(entries: Dict<Update>)
    | StructuredData(node: NodeName, key: string, field: Option<Field>)
    | Other(data: string)

  datatype Item = Item(mode: Mode, payload: Payload)

  datatype Output = Passed(item: Item) | Bare(payload: Payload) | Tagged(mode: Mode, payload: Payload)

  // `stream_mode` as the caller gave it.
  datatype Requested = Unspecified | One(mode: Mode) | Many(modes: seq<Mode>)

  datatype Gate = Gate(
    single: bool,
    requested: set<Mode>,
    guarded: set<NodeName>,
    internal: set<NodeName>,
    structured: map<NodeName, Option<string>>,
    passthrough: bool)

  function Modes(requested: Requested, default: Mode): seq<Mode> {
    match requested
    case Unspecified => [default]
    case One(m) => [m]
    case Many(ms) => ms
  }

  function MakeGate(requested: Requested, default: Mode, guarded: set<NodeName>, passthrough: bool,
                    internal: set<NodeName>, structured: map<NodeName, Option<string>>): Gate
  {
    Gate(!requested.Many?, set m | m in Modes(requested, default),
         if passthrough then {} else guarded, if passthrough then {} else internal,
         if passthrough then map[] else structured, passthrough)
  }

  // What the constructor guarantees of its fields.
  ghost predicate Built(g: Gate) {
    && (g.single ==> forall a, b | a in g.requested && b in g.requested :: a == b)
    && (g.passthrough ==> g.guarded == {} && g.internal == {} && g.structured == map[])
  }

  // The fields of a gate: the requested modes, single unless a list was given; the declared nodes, unless
  // everything passes through.
  ghost predicate MadeFrom(g: Gate, requested: Requested, default: Mode, guarded: set<NodeName>, passthrough: bool,
                           internal: set<NodeName>, structured: map<NodeName, Option<string>>)
  {
    && g.passthrough == passthrough
    && (g.single <==> requested.Unspecified? || requested.One?)
    && (forall m :: m in g.requested <==>
          (requested.Unspecified? && m == default) || requested == One(m) || (requested.Many? && m in requested.modes))
    && (passthrough ==> g.guarded == {} && g.internal == {} && g.structured == map[])
    && (!passthrough ==> g.guarded == guarded && g.internal == internal && g.structured == structured)
  }

  lemma MakeGateIsBuilt(requested: Requested, default: Mode, guarded: set<NodeName>, passthrough: bool,
                        internal: set<NodeName>, structured: map<NodeName, Option<string>>)
    ensures Built(MakeGate(requested, default, guarded, passthrough, internal, structured))
    ensures MadeFrom(MakeGate(requested, default, guarded, passthrough, internal, structured),
                     requested, default, guarded, passthrough, internal, structured)
  {}

  datatype GateState = GateState(values: Option<Payload>, hold: map<NodeName, Meta>, ctxState: string)

  function Emit(g: Gate, mode: Mode, payload: Payload): Output {
    if g.single then Bare(payload) else Tagged(mode, payload)
  }

  function NodeOf(p: Payload): Option<NodeName> {
    if p.Token? && p.meta.Some? then p.meta.value.node else None
  }

  predicate IsTokenOf(item: Item, nodes: set<NodeName>) {
    item.mode == MESSAGES && NodeOf(item.payload).Some? && NodeOf(item.payload).value in nodes
  }

  predicate IsUpdate(item: Item) {
    item.mode == UPDATES && item.payload.Entries?
  }

  // Drops the entries of internal nodes.
  function Visible(internal: set<NodeName>, d: seq<(NodeName, Update)>): (r: seq<(NodeName, Update)>)
    ensures forall i :: 0 <= i < |r| ==> r[i] in d && r[i].0 !in internal
    ensures DistinctKeys(d) ==> DistinctKeys(r)
  {
    if d == [] then []
    else
      var rest := Visible(internal, d[1..]);
      if d[0].0 in internal then rest
      else
        assert DistinctKeys(d) ==> forall i :: 0 <= i < |rest| ==> rest[i].0 != d[0].0;
        [d[0]] + rest
  }

  // The last AI message of an update, as one chunk.
  function FinalChunk(u: Update): Option<Chunk> {
    if !u.Fields? then None
    else
      match Get<Field>(u.fields, "messages")
      case Some(MessageList(msgs)) => if msgs == [] then None else AsChunk(msgs[|msgs| - 1])
      case Some(OneMessage(m)) => AsChunk(m)
      case _ => None
  }

  function AsChunk(m: Message): Option<Chunk> {
    if m.MessageObject? && m.kind == "ai" then Some(Chunk(m.content, m.id)) else None
  }

  function FirstDumpable(fields: seq<(string, Field)>): Option<string> {
    if fields == [] then None
    else if fields[0].0 != "messages" && fields[0].1.Dumpable() then Some(fields[0].0)
    else FirstDumpable(fields[1..])
  }

  // The state key of a structured node: the declared one, or the first model-valued field.
  function StructuredKey(g: Gate, n: NodeName, u: Update): Option<string>
    requires n in g.structured && u.Fields?
  {
    if g.structured[n].Some? && g.structured[n].value != "" then g.structured[n] else FirstDumpable(u.fields)
  }

  // What one update entry releases, given the metadata held for its node.
  function Released(g: Gate, held: Option<Meta>, n: NodeName, u: Update): seq<Output> {
    (if held.Some? && MESSAGES in g.requested && FinalChunk(u).Some?
     then [Emit(g, MESSAGES, Token(FinalChunk(u).value, held))] else [])
    +
    (if n in g.structured && !g.single && u.Fields? && StructuredKey(g, n, u).Some?
     then [Tagged(STRUCTURED, StructuredData(n, StructuredKey(g, n, u).value,
                                             Get(u.fields, StructuredKey(g, n, u).value)))]
     else [])
  }

  function HeldFor(hold: map<NodeName, Meta>, n: NodeName): Option<Meta> {
    if n in hold then Some(hold[n]) else None
  }

  function AllReleased(g: Gate, hold: map<NodeName, Meta>, d: seq<(NodeName, Update)>): seq<Output> {
    if d == [] then []
    else Released(g, HeldFor(hold, d[0].0), d[0].0, d[0].1) + AllReleased(g, hold - {d[0].0}, d[1..])
  }

  function HoldAfter(hold: map<NodeName, Meta>, d: seq<(NodeName, Update)>): map<NodeName, Meta> {
    if d == [] then hold else HoldAfter(hold - {d[0].0}, d[1..])
  }

  function Interrupted(item: Item): bool {
    && IsUpdate(item)
    && Get(item.payload.entries, INTERRUPT).Some?
    && Get(item.payload.entries, INTERRUPT).value.IsTruthy()
  }

  // The state after one item.
  function Next(g: Gate, st: GateState, item: Item): GateState {
    if g.passthrough then st
    else
      var st1 := st.(
        values := if item.mode == VALUES then Some(item.payload) else st.values,
        ctxState := if Interrupted(item) then WAITING_APPROVAL else st.ctxState);
      if IsTokenOf(item, g.internal) then st1
      else if IsTokenOf(item, g.guarded) then
        st1.(hold := st.hold[NodeOf(item.payload).value := item.payload.meta.value])
      else if IsUpdate(item) then st1.(hold := HoldAfter(st.hold, Visible(g.internal, item.payload.entries)))
      else st1
  }

  // The outputs of one item.
  function Emitted(g: Gate, st: GateState, item: Item): seq<Output> {
    if g.passthrough then [Passed(item)]
    else if IsTokenOf(item, g.internal) || IsTokenOf(item, g.guarded) then []
    else if IsUpdate(item) then
      var vis := Visible(g.internal, item.payload.entries);
      if g.internal != {} && vis == [] then []
      else AllReleased(g, st.hold, vis) + if UPDATES in g.requested then [Emit(g, UPDATES, Entries(vis))] else []
    else if item.mode in g.requested then [Emit(g, item.mode, item.payload)]
    else []
  }

  function StateAfter(g: Gate, st: GateState, run: seq<Item>): GateState {
    if run == [] then st
    else Next(g, StateAfter(g, st, run[..|run| - 1]), run[|run| - 1])
  }

  function Stream(g: Gate, st: GateState, run: seq<Item>): seq<Output> {
    if run == [] then []
    else
      var front := run[..|run| - 1];
      Stream(g, st, front) + Emitted(g, StateAfter(g, st, front), run[|run| - 1])
  }

  function Init(ctxState: string): GateState {
    GateState(None, map[], ctxState)
  }

  // ---------------------------------------------------------------------------
  // What the gate keeps for the end of the stream

  // Item `i` is the last of the run that carries the whole state.
  predicate LastState(run: seq<Item>, i: nat) {
    i < |run| && run[i].mode == "values" && forall j :: i < j < |run| ==> run[j].mode != "values"
  }

  // Item `i` is an update with a truthy entry under the reserved key of interrupts.
  ghost predicate ReportsInterrupt(run: seq<Item>, i: nat) {
    && i < |run| && run[i].mode == "updates" && run[i].payload.Entries?
    && exists k :: 0 <= k < |run[i].payload.entries| &&
         run[i].payload.entries[k].0 == "__interrupt__" && run[i].payload.entries[k].1.IsTruthy()
  }

  lemma {:induction false} GetAt<V>(d: seq<(string, V)>, k: nat)
    requires DistinctKeys(d) && k < |d|
    ensures Get(d, d[k].0) == Some(d[k].1)
  {
    if k > 0 {
      assert d[0].0 != d[k].0;
      GetAt(d[1..], k - 1);
    }
  }

  lemma {:induction false} GetIsEntry<V>(d: seq<(string, V)>, n: string)
    requires Get(d, n).Some?
    ensures exists k :: 0 <= k < |d| && d[k] == (n, Get(d, n).value)
  {
    if d[0].0 != n {
      GetIsEntry(d[1..], n);
      var k :| 0 <= k < |d[1..]| && d[1..][k] == (n, Get(d[1..], n).value);
      assert d[k + 1] == (n, Get(d, n).value);
    } else {
      assert d[0] == (n, Get(d, n).value);
    }
  }

  lemma InterruptedIff(run: seq<Item>, i: nat)
    requires i < |run|
    ensures Interrupted(run[i]) <==> ReportsInterrupt(run, i)
  {
    if IsUpdate(run[i]) {
      var d: seq<(NodeName, Update)> := run[i].payload.entries;
      if Get(d, INTERRUPT).Some? {
        GetIsEntry(d, INTERRUPT);
        var k :| 0 <= k < |d| && d[k] == (INTERRUPT, Get(d, INTERRUPT).value);
        assert Get(d, INTERRUPT).value.IsTruthy() ==> d[k].0 == "__interrupt__" && d[k].1.IsTruthy();
      }
      if ReportsInterrupt(run, i) {
        var k :| 0 <= k < |d| && d[k].0 == "__interrupt__" && d[k].1.IsTruthy();
        GetAt(d, k);
      }
    }
  }

  // What the output guardrails will be run on at the end of the stream is the last state the graph
  // showed, whether the caller asked for states or not; and the context waits for approval exactly
  // when some update reported an interrupt. A gate that passes everything through records neither.
  ghost predicate Recorded(g: Gate, st: GateState, run: seq<Item>, after: GateState) {
    && (g.passthrough ==> after == st)
    && (!g.passthrough ==>
          && (forall i: nat :: LastState(run, i) ==> after.values == Some(run[i].payload))
          && ((forall i :: 0 <= i < |run| ==> run[i].mode != "values") ==> after.values == st.values)
          && (if exists i: nat :: ReportsInterrupt(run, i) then after.ctxState == "WAITING_APPROVAL"
              else after.ctxState == st.ctxState))
  }

  lemma {:induction false} PassthroughRecordsNothing(g: Gate, st: GateState, run: seq<Item>)
    requires g.passthrough
    ensures StateAfter(g, st, run) == st
  {
    if run != [] {
      PassthroughRecordsNothing(g, st, run[..|run| - 1]);
    }
  }

  lemma LastStateInFront(run: seq<Item>, i: nat)
    requires run != [] && run[|run| - 1].mode != "values" && LastState(run, i)
    ensures LastState(run[..|run| - 1], i)
  {}

  lemma {:induction false} GateRecordsStates(g: Gate, st: GateState, run: seq<Item>)
    requires !g.passthrough
    ensures forall i: nat :: LastState(run, i) ==> StateAfter(g, st, run).values == Some(run[i].payload)
    ensures (forall i :: 0 <= i < |run| ==> run[i].mode != "values") ==> StateAfter(g, st, run).values == st.values
  {
    if run != [] {
      var front, last := run[..|run| - 1], run[|run| - 1];
      GateRecordsStates(g, st, front);
      if last.mode != "values" {
        forall i: nat | LastState(run, i)
          ensures StateAfter(g, st, run).values == Some(run[i].payload)
        {
          LastStateInFront(run, i);
        }
      }
    }
  }

  lemma {:induction false} GateRecordsInterrupts(g: Gate, st: GateState, run: seq<Item>)
    requires !g.passthrough
    ensures StateAfter(g, st, run).ctxState ==
      if exists i: nat :: ReportsInterrupt(run, i) then "WAITING_APPROVAL" else st.ctxState
  {
    if run != [] {
      var front := run[..|run| - 1];
      GateRecordsInterrupts(g, st, front);
      InterruptedIff(run, |front|);
      forall i: nat | i < |front|
        ensures ReportsInterrupt(run, i) <==> ReportsInterrupt(front, i)
      {
        assert run[i] == front[i];
      }
      assert ReportsInterrupt(run, |front|) ==> exists i: nat :: ReportsInterrupt(run, i);
    }
  }

  lemma GateRecordsTheLastState(g: Gate, st: GateState, run: seq<Item>)
    ensures Recorded(g, st, run, StateAfter(g, st, run))
  {
    if g.passthrough {
      PassthroughRecordsNothing(g, st, run);
    } else {
      GateRecordsStates(g, st, run);
      GateRecordsInterrupts(g, st, run);
    }
  }

  // A gate that passes everything through hands out the run itself.
  lemma {:induction false} PassthroughPasses(g: Gate, st: GateState, run: seq<Item>)
    requires g.passthrough
    ensures |Stream(g, st, run)| == |run|
    ensures forall i :: 0 <= i < |run| ==> Stream(g, st, run)[i] == Passed(run[i])
  {
    if run != [] {
      PassthroughPasses(g, st, run[..|run| - 1]);
    }
  }

  // ---------------------------------------------------------------------------
  // Non-interference

  // What the caller is allowed to depend on: no text of guarded tokens, nothing of internal nodes.
  function Erase(g: Gate, item: Item): seq<Item> {
    if IsTokenOf(item, g.internal) then []
    else if IsTokenOf(item, g.guarded) then [Item(MESSAGES, Token(Chunk("", None), item.payload.meta))]
    else if IsUpdate(item) && g.internal != {} then
      var vis := Visible(g.internal, item.payload.entries);
      if vis == [] then [] else [Item(UPDATES, Entries(vis))]
    else [item]
  }

  function EraseAll(g: Gate, run: seq<Item>): seq<Item> {
    if run == [] then [] else EraseAll(g, run[..|run| - 1]) + Erase(g, run[|run| - 1])
  }

  lemma {:induction false} VisibleTwice(internal: set<NodeName>, d: seq<(NodeName, Update)>)
    ensures Visible(internal, Visible(internal, d)) == Visible(internal, d)
  {
    if d != [] {
      VisibleTwice(internal, d[1..]);
    }
  }

  lemma {:induction false} VisibleKeepsOthers(internal: set<NodeName>, d: seq<(NodeName, Update)>, n: NodeName)
    requires n !in internal
    ensures Get(Visible(internal, d), n) == Get(d, n)
  {
    if d != [] {
      VisibleKeepsOthers(internal, d[1..], n);
    }
  }

  lemma {:induction false} NothingInternal(d: seq<(NodeName, Update)>)
    ensures Visible({}, d) == d
  {
    if d != [] {
      NothingInternal(d[1..]);
    }
  }

  // An item and its erasure take the gate to the same state with the same output.
  lemma ErasureIsInvisible(g: Gate, st: GateState, item: Item)
    requires Built(g) && INTERRUPT !in g.internal
    ensures |Erase(g, item)| <= 1
    ensures Erase(g, item) == [] ==> Next(g, st, item) == st && Emitted(g, st, item) == []
    ensures |Erase(g, item)| == 1 ==>
      Next(g, st, Erase(g, item)[0]) == Next(g, st, item) && Emitted(g, st, Erase(g, item)[0]) == Emitted(g, st, item)
  {
    if IsUpdate(item) && g.internal != {} {
      var d := item.payload.entries;
      VisibleTwice(g.internal, d);
      VisibleKeepsOthers(g.internal, d, INTERRUPT);
    }
  }

  lemma {:induction false} ErasedRunIsEquivalent(g: Gate, st: GateState, run: seq<Item>)
    requires Built(g) && INTERRUPT !in g.internal
    ensures StateAfter(g, st, EraseAll(g, run)) == StateAfter(g, st, run)
    ensures Stream(g, st, EraseAll(g, run)) == Stream(g, st, run)
  {
    if run != [] {
      var front, last := run[..|run| - 1], run[|run| - 1];
      var erased := EraseAll(g, front);
      ErasedRunIsEquivalent(g, st, front);
      ErasureIsInvisible(g, StateAfter(g, st, front), last);
      if Erase(g, last) == [] {
        assert EraseAll(g, run) == erased;
      } else {
        var x := Erase(g, last)[0];
        assert EraseAll(g, run) == erased + [x];
        assert (erased + [x])[..|erased|] == erased;
      }
    }
  }

  ghost predicate SameObservation(g: Gate, a: seq<Item>, b: seq<Item>, ctxState: string) {
    && Stream(g, Init(ctxState), a) == Stream(g, Init(ctxState), b)
    && StateAfter(g, Init(ctxState), a) == StateAfter(g, Init(ctxState), b)
  }

  ghost predicate NonInterferent(g: Gate) {
    forall a, b, ctxState :: EraseAll(g, a) == EraseAll(g, b) ==> SameObservation(g, a, b, ctxState)
  }

  // Two upstream runs that agree after erasure give the same stream, the same final
  // values and the same ctx.state, exactly when the reserved interrupt key is not
  // itself declared internal.
  lemma NonInterference(g: Gate)
    requires Built(g)
    ensures NonInterferent(g) <==> INTERRUPT !in g.internal
  {
    if INTERRUPT in g.internal {
      var entries: Dict<Update> := [(INTERRUPT, OtherUpdate(true, ""))];
      var item := Item(UPDATES, Entries(entries));
      var a: seq<Item> := [item];
      assert a[..0] == [];
      assert entries[1..] == [];
      assert Visible(g.internal, entries) == [];
      assert Interrupted(item);
      assert EraseAll(g, a) == EraseAll(g, []);
      assert StateAfter(g, Init("CREATED"), a).ctxState == WAITING_APPROVAL;
      assert !SameObservation(g, a, [], "CREATED");
    } else {
      forall a, b, ctxState | EraseAll(g, a) == EraseAll(g, b)
        ensures SameObservation(g, a, b, ctxState)
      {
        ErasedRunIsEquivalent(g, Init(ctxState), a);
        ErasedRunIsEquivalent(g, Init(ctxState), b);
      }
    }
  }

  // A gate as the library constructs it is non-interferent if and only if it passes everything
  // through or the reserved key of interrupts is not one of its internal nodes.
  lemma ConstructedGatesAreNonInterferent(requested: Requested, default: Mode, guarded: set<NodeName>,
      passthrough: bool,
                                          internal: set<NodeName>, structured: map<NodeName, Option<string>>)
    ensures NonInterferent(MakeGate(requested, default, guarded, passthrough, internal, structured)) <==>
      passthrough || INTERRUPT !in internal
  {
    MakeGateIsBuilt(requested, default, guarded, passthrough, internal, structured);
    NonInterference(MakeGate(requested, default, guarded, passthrough, internal, structured));
  }

  // ---------------------------------------------------------------------------
  // The hold table is the run's history

  // The metadata of the last guarded token of `n` since the last update of `n`.
  function LastHeld(g: Gate, run: seq<Item>, n: NodeName): Option<Meta> {
    if run == [] then None
    else
      var front, last := run[..|run| - 1], run[|run| - 1];
      if IsTokenOf(last, {n}) && n in g.guarded - g.internal then last.payload.meta
      else if IsUpdate(last) && n !in g.internal && HasKey(last.payload.entries, n) then None
      else LastHeld(g, front, n)
  }

  lemma {:induction false} HoldAfterRemoves(hold: map<NodeName, Meta>, d: seq<(NodeName, Update)>, n: NodeName)
    ensures HeldFor(HoldAfter(hold, d), n) == if HasKey(d, n) then None else HeldFor(hold, n)
  {
    if d != [] {
      HoldAfterRemoves(hold - {d[0].0}, d[1..], n);
      assert HasKey(d, n) <==> d[0].0 == n || HasKey(d[1..], n) by {
        if HasKey(d, n) {
          var i :| 0 <= i < |d| && d[i].0 == n;
          if i > 0 { assert d[1..][i - 1].0 == n; }
        }
        if HasKey(d[1..], n) {
          var i :| 0 <= i < |d[1..]| && d[1..][i].0 == n;
          assert d[i + 1].0 == n;
        }
      }
    }
  }

  lemma {:induction false} GetIffHasKey<V>(d: seq<(string, V)>, n: string)
    ensures Get(d, n).Some? <==> HasKey(d, n)
  {
    if d != [] {
      GetIffHasKey(d[1..], n);
      if HasKey(d, n) {
        var i :| 0 <= i < |d| && d[i].0 == n;
        if i > 0 { assert d[1..][i - 1].0 == n; }
      }
      if HasKey(d[1..], n) {
        var i :| 0 <= i < |d[1..]| && d[1..][i].0 == n;
        assert d[i + 1].0 == n;
      }
      assert d[0].0 == n ==> HasKey(d, n);
    }
  }

  lemma VisibleHasKey(internal: set<NodeName>, d: seq<(NodeName, Update)>, n: NodeName)
    ensures HasKey(Visible(internal, d), n) <==> n !in internal && HasKey(d, n)
  {
    if n !in internal {
      VisibleKeepsOthers(internal, d, n);
      GetIffHasKey(d, n);
      GetIffHasKey(Visible(internal, d), n);
    }
  }

  // The table holds exactly what the history says, so it stays within guarded minus internal.
  lemma {:induction false} HoldIsHistory(g: Gate, ctxState: string, run: seq<Item>, n: NodeName)
    requires !g.passthrough
    ensures HeldFor(StateAfter(g, Init(ctxState), run).hold, n) == LastHeld(g, run, n)
    ensures LastHeld(g, run, n).Some? ==> n in g.guarded - g.internal && LastHeld(g, run, n).value.node == Some(n)
  {
    if run != [] {
      var front, last := run[..|run| - 1], run[|run| - 1];
      HoldIsHistory(g, ctxState, front, n);
      var st := StateAfter(g, Init(ctxState), front);
      if IsUpdate(last) {
        var vis := Visible(g.internal, last.payload.entries);
        HoldAfterRemoves(st.hold, vis, n);
        VisibleHasKey(g.internal, last.payload.entries, n);
      }
    }
  }

  function HistoryReleased(g: Gate, before: seq<Item>, d: seq<(NodeName, Update)>): seq<Output> {
    if d == [] then []
    else Released(g, LastHeld(g, before, d[0].0), d[0].0, d[0].1) + HistoryReleased(g, before, d[1..])
  }

  // The outputs of `item` after the items `before`, with no table: a reference definition.
  function HistoryEmitted(g: Gate, before: seq<Item>, item: Item): seq<Output> {
    if IsTokenOf(item, g.internal + g.guarded) then []
    else if IsUpdate(item) then
      var vis := Visible(g.internal, item.payload.entries);
      if g.internal != {} && vis == [] then []
      else HistoryReleased(g, before, vis) + if UPDATES in g.requested then [Emit(g, UPDATES, Entries(vis))] else []
    else if item.mode in g.requested then [Emit(g, item.mode, item.payload)]
    else []
  }

  function HistoryStream(g: Gate, run: seq<Item>): seq<Output> {
    if run == [] then []
    else HistoryStream(g, run[..|run| - 1]) + HistoryEmitted(g, run[..|run| - 1], run[|run| - 1])
  }

  lemma {:induction false} TableAgreesWithHistory(g: Gate, hold: map<NodeName, Meta>, before: seq<Item>,
      d: seq<(NodeName, Update)>)
    requires DistinctKeys(d)
    requires forall i :: 0 <= i < |d| ==> HeldFor(hold, d[i].0) == LastHeld(g, before, d[i].0)
    ensures AllReleased(g, hold, d) == HistoryReleased(g, before, d)
  {
    if d != [] {
      forall i | 0 <= i < |d[1..]|
        ensures HeldFor(hold - {d[0].0}, d[1..][i].0) == LastHeld(g, before, d[1..][i].0)
      {
        assert d[1..][i] == d[i + 1];
      }
      TableAgreesWithHistory(g, hold - {d[0].0}, before, d[1..]);
    }
  }

  lemma ItemMatchesHistory(g: Gate, ctxState: string, before: seq<Item>, item: Item)
    requires !g.passthrough
    ensures Emitted(g, StateAfter(g, Init(ctxState), before), item) == HistoryEmitted(g, before, item)
  {
    if IsUpdate(item) {
      var st := StateAfter(g, Init(ctxState), before);
      var vis := Visible(g.internal, item.payload.entries);
      forall i | 0 <= i < |vis|
        ensures HeldFor(st.hold, vis[i].0) == LastHeld(g, before, vis[i].0)
      {
        HoldIsHistory(g, ctxState, before, vis[i].0);
      }
      TableAgreesWithHistory(g, st.hold, before, vis);
    }
  }

  // The stateful gate refines the table-free definition, on every upstream run.
  lemma {:induction false} GateMatchesHistory(g: Gate, ctxState: string, run: seq<Item>)
    requires !g.passthrough
    ensures Stream(g, Init(ctxState), run) == HistoryStream(g, run)
  {
    if run != [] {
      GateMatchesHistory(g, ctxState, run[..|run| - 1]);
      ItemMatchesHistory(g, ctxState, run[..|run| - 1], run[|run| - 1]);
    }
  }

  // ---------------------------------------------------------------------------
  // No raw guarded token

  // `chunk` is the finished message of an update of `n`, released for metadata held at that point.
  ghost predicate IsReplacement(g: Gate, run: seq<Item>, n: NodeName, chunk: Chunk, meta: Meta) {
    exists j, k ::
      && 0 <= j < |run| && IsUpdate(run[j]) && 0 <= k < |run[j].payload.entries|
      && run[j].payload.entries[k].0 == n
      && FinalChunk(run[j].payload.entries[k].1) == Some(chunk)
      && LastHeld(g, run[..j], n) == Some(meta)
  }

  // The token at `i` put the metadata in the table, and no later update of the node took it out.
  ghost predicate HeldSince(run: seq<Item>, n: NodeName, meta: Option<Meta>, i: nat) {
    && i < |run| && IsTokenOf(run[i], {n}) && run[i].payload.meta == meta
    && (forall j :: i < j < |run| && IsUpdate(run[j]) ==> !HasKey(run[j].payload.entries, n))
  }

  // Held metadata comes from a guarded token of that node, and no update of the node followed it.
  lemma {:induction false} HeldComesFromToken(g: Gate, run: seq<Item>, n: NodeName)
    requires LastHeld(g, run, n).Some?
    ensures exists i :: HeldSince(run, n, LastHeld(g, run, n), i)
    ensures n in g.guarded - g.internal
  {
    var front, last := run[..|run| - 1], run[|run| - 1];
    if IsTokenOf(last, {n}) && n in g.guarded - g.internal {
      assert HeldSince(run, n, LastHeld(g, run, n), |run| - 1);
    } else {
      HeldComesFromToken(g, front, n);
      var i :| HeldSince(front, n, LastHeld(g, front, n), i);
      assert run == front + [last];
      assert HeldSince(run, n, LastHeld(g, run, n), i);
    }
  }

  lemma {:induction false} FindRelease(g: Gate, before: seq<Item>, d: seq<(NodeName, Update)>, o: Output)
    requires o in HistoryReleased(g, before, d)
    ensures exists k :: 0 <= k < |d| && o in Released(g, LastHeld(g, before, d[k].0), d[k].0, d[k].1)
  {
    if o !in Released(g, LastHeld(g, before, d[0].0), d[0].0, d[0].1) {
      FindRelease(g, before, d[1..], o);
      var k :| 0 <= k < |d[1..]| && o in Released(g, LastHeld(g, before, d[1..][k].0), d[1..][k].0, d[1..][k].1);
      assert d[k + 1] == d[1..][k];
    }
  }

  lemma VisibleEntry(internal: set<NodeName>, d: seq<(NodeName, Update)>, k: nat) returns (m: nat)
    requires k < |Visible(internal, d)|
    ensures m < |d| && d[m] == Visible(internal, d)[k]
  {
    assert Visible(internal, d)[k] in d;
    m :| 0 <= m < |d| && d[m] == Visible(internal, d)[k];
  }

  lemma ItemReplaces(g: Gate, run: seq<Item>, j: nat, n: NodeName, chunk: Chunk, meta: Meta)
    requires Built(g) && MESSAGES in g.requested && j < |run|
    requires meta.node == Some(n) && n in g.guarded + g.internal
    requires Emit(g, MESSAGES, Token(chunk, Some(meta))) in HistoryEmitted(g, run[..j], run[j])
    ensures n in g.guarded - g.internal
    ensures IsReplacement(g, run, n, chunk, meta)
  {
    var o := Emit(g, MESSAGES, Token(chunk, Some(meta)));
    var vis := Visible(g.internal, run[j].payload.entries);
    FindRelease(g, run[..j], vis, o);
    var k :| 0 <= k < |vis| && o in Released(g, LastHeld(g, run[..j], vis[k].0), vis[k].0, vis[k].1);
    ReleasedMessage(g, LastHeld(g, run[..j], vis[k].0), vis[k].0, vis[k].1, chunk, meta);
    HeldComesFromToken(g, run[..j], vis[k].0);
    var m := VisibleEntry(g.internal, run[j].payload.entries, k);
    assert run[j].payload.entries[m].0 == n;
  }

  lemma ReleasedMessage(g: Gate, held: Option<Meta>, n: NodeName, u: Update, chunk: Chunk, meta: Meta)
    requires Emit(g, MESSAGES, Token(chunk, Some(meta))) in Released(g, held, n, u)
    ensures held == Some(meta) && FinalChunk(u) == Some(chunk)
  {}

  // Every output of a run is an output of one of its items.
  lemma {:induction false} OutputOrigin(g: Gate, ctxState: string, run: seq<Item>, o: Output) returns (j: nat)
    requires !g.passthrough && o in Stream(g, Init(ctxState), run)
    ensures j < |run| && o in HistoryEmitted(g, run[..j], run[j])
  {
    var front, last := run[..|run| - 1], run[|run| - 1];
    if o in Stream(g, Init(ctxState), front) {
      j := OutputOrigin(g, ctxState, front, o);
      assert run[..j] == front[..j];
    } else {
      j := |front|;
      ItemMatchesHistory(g, ctxState, front, last);
    }
  }

  // Over a whole stream, every message of a guarded or internal node that gets out is the
  // finished message of a guarded, non-internal one, standing in for a token held before it.
  lemma NoRawTokenEscapes(g: Gate, ctxState: string, run: seq<Item>, n: NodeName, chunk: Chunk, meta: Meta)
    requires Built(g) && !g.passthrough && MESSAGES in g.requested
    requires meta.node == Some(n) && n in g.guarded + g.internal
    requires Emit(g, MESSAGES, Token(chunk, Some(meta))) in Stream(g, Init(ctxState), run)
    ensures n in g.guarded - g.internal
    ensures IsReplacement(g, run, n, chunk, meta)
  {
    var j := OutputOrigin(g, ctxState, run, Emit(g, MESSAGES, Token(chunk, Some(meta))));
    ItemReplaces(g, run, j, n, chunk, meta);
  }

  // ---------------------------------------------------------------------------
  // Everything that gets out

  // `o` is a payload of mode `m` in the shape the caller asked for: bare for one mode, tagged for a list.
  predicate SentAs(g: Gate, o: Output, m: Mode, p: Payload) {
    if g.single then o == Bare(p) else o == Tagged(m, p)
  }

  function PayloadOf(o: Output): Payload {
    match o case Passed(item) => item.payload case Bare(p) => p case Tagged(_, p) => p
  }

  // Item `i` is a message of node `n`.
  predicate MessageOf(run: seq<Item>, i: nat, n: NodeName) {
    && i < |run| && run[i].mode == "messages" && run[i].payload.Token?
    && run[i].payload.meta.Some? && run[i].payload.meta.value.node == Some(n)
  }

  // The token at `i` is the last of its node, and no update of the node came after it.
  ghost predicate LastTokenOf(run: seq<Item>, n: NodeName, meta: Meta, i: nat) {
    && MessageOf(run, i, n) && run[i].payload.meta == Some(meta)
    && (forall j :: i < j < |run| ==> !MessageOf(run, j, n))
    && (forall j :: i < j < |run| && run[j].mode == "updates" && run[j].payload.Entries? ==>
          !HasKey(run[j].payload.entries, n))
  }

  // A token of a guarded node is held exactly until the next update of its node, and a later token
  // of the node takes its place.
  lemma {:induction false} HeldIff(g: Gate, run: seq<Item>, n: NodeName, meta: Meta)
    ensures LastHeld(g, run, n) == Some(meta) <==>
      n in g.guarded && n !in g.internal && exists i: nat :: LastTokenOf(run, n, meta, i)
  {
    if run != [] {
      var front, last := run[..|run| - 1], run[|run| - 1];
      assert run == front + [last];
      HeldIff(g, front, n, meta);
      forall i: nat | i < |front|
        ensures LastTokenOf(run, n, meta, i) <==>
          && LastTokenOf(front, n, meta, i) && !MessageOf(run, |front|, n)
          && !(IsUpdate(last) && HasKey(last.payload.entries, n))
      {
        assert forall j: nat :: j < |front| ==> run[j] == front[j];
        assert forall j: nat :: j < |front| ==> (MessageOf(run, j, n) <==> MessageOf(front, j, n));
      }
      assert LastTokenOf(run, n, meta, |front|) <==> IsTokenOf(last, {n}) && last.payload.meta == Some(meta);
      if exists i: nat :: LastTokenOf(run, n, meta, i) {
        var i: nat :| LastTokenOf(run, n, meta, i);
        assert i == |front| || LastTokenOf(front, n, meta, i);
      }
      if exists i: nat :: LastTokenOf(front, n, meta, i) {
        var i: nat :| LastTokenOf(front, n, meta, i);
        assert LastTokenOf(run, n, meta, i) || IsTokenOf(last, {n}) ||
          (IsUpdate(last) && HasKey(last.payload.entries, n));
      }
    }
  }

  // The update ends in the AI message that `chunk` renders.
  ghost predicate EndsIn(u: Update, chunk: Chunk) {
    u.Fields? && exists k :: 0 <= k < |u.fields| && u.fields[k].0 == "messages" && LastIs(u.fields[k].1, chunk)
  }

  predicate LastIs(f: Field, chunk: Chunk) {
    var m := MessageObject("ai", chunk.content, chunk.id);
    match f
    case MessageList(msgs) => msgs != [] && msgs[|msgs| - 1] == m
    case OneMessage(single) => single == m
    case _ => false
  }

  lemma FinalChunkIff(u: Update, chunk: Chunk)
    ensures FinalChunk(u) == Some(chunk) <==> EndsIn(u, chunk)
  {
    if u.Fields? {
      var d: seq<(string, Field)> := u.fields;
      if Get(d, "messages").Some? {
        GetIsEntry(d, "messages");
      }
      forall k | 0 <= k < |d| && d[k].0 == "messages"
        ensures Get(d, "messages") == Some(d[k].1)
      {
        GetAt(d, k);
      }
    }
  }

  // A value with `model_dump`, under another key than the messages.
  predicate HoldsModel(e: (string, Field)) {
    e.0 != "messages" && (e.1.Model? || (e.1.OneMessage? && e.1.msg.MessageObject?))
  }

  // Field `k` is the first model of an update.
  predicate FirstModel(d: seq<(string, Field)>, k: nat) {
    k < |d| && HoldsModel(d[k]) && forall j :: 0 <= j < k ==> !HoldsModel(d[j])
  }

  // The key under which node `n` declared its output, or that of its first model if it declared none.
  ghost predicate OutputKey(g: Gate, n: NodeName, u: Update, key: string) {
    && n in g.structured && u.Fields?
    && if g.structured[n].Some? && g.structured[n].value != "" then g.structured[n] == Some(key)
       else exists k: nat :: FirstModel(u.fields, k) && u.fields[k].0 == key
  }

  lemma {:induction false} FirstDumpableIff(d: seq<(string, Field)>, key: string)
    ensures FirstDumpable(d) == Some(key) <==> exists k: nat :: FirstModel(d, k) && d[k].0 == key
  {
    if d != [] {
      FirstDumpableIff(d[1..], key);
      if d[0].0 != "messages" && d[0].1.Dumpable() {
        assert FirstModel(d, 0);
        forall k: nat | FirstModel(d, k)
          ensures k == 0
        {}
      } else {
        forall k: nat | k < |d[1..]|
          ensures FirstModel(d[1..], k) <==> FirstModel(d, k + 1)
        {
          assert forall j: nat :: j < |d[1..]| ==> d[1..][j] == d[j + 1];
          assert forall j: nat :: 0 < j < |d| ==> d[j] == d[1..][j - 1];
        }
        forall k: nat | FirstModel(d, k)
          ensures k > 0 && FirstModel(d[1..], k - 1) && d[1..][k - 1] == d[k]
        {}
      }
    }
  }

  // What entry `e` of an update hands out in place of the tokens of its node: its final AI message,
  // with the metadata of the last token.
  ghost predicate StandsIn(g: Gate, before: seq<Item>, e: (NodeName, Update), o: Output) {
    && MESSAGES in g.requested && e.0 in g.guarded && e.0 !in g.internal
    && var p := PayloadOf(o);
    && p.Token? && p.meta.Some? && SentAs(g, o, "messages", p) && EndsIn(e.1, p.chunk)
    && exists i: nat :: LastTokenOf(before, e.0, p.meta.value, i)
  }

  // What it hands out besides, to callers that asked for a list of modes: the value of the declared key.
  ghost predicate IsExtra(g: Gate, e: (NodeName, Update), o: Output) {
    && !g.single && o.Tagged? && o.mode == "structured" && o.payload.StructuredData? && e.1.Fields?
    && o.payload.node == e.0 && OutputKey(g, e.0, e.1, o.payload.key)
    && if o.payload.field.Some?
       then exists k :: 0 <= k < |e.1.fields| && e.1.fields[k] == (o.payload.key, o.payload.field.value)
       else !HasKey(e.1.fields, o.payload.key)
  }

  lemma StandsInIff(g: Gate, before: seq<Item>, e: (NodeName, Update), o: Output)
    requires e.0 !in g.internal
    ensures StandsIn(g, before, e, o) <==>
      var held := LastHeld(g, before, e.0);
      && held.Some? && MESSAGES in g.requested && FinalChunk(e.1).Some?
      && o == Emit(g, MESSAGES, Token(FinalChunk(e.1).value, held))
  {
    var p := PayloadOf(o);
    if p.Token? && p.meta.Some? {
      HeldIff(g, before, e.0, p.meta.value);
      FinalChunkIff(e.1, p.chunk);
    }
    if LastHeld(g, before, e.0).Some? && FinalChunk(e.1).Some? {
      HeldIff(g, before, e.0, LastHeld(g, before, e.0).value);
      FinalChunkIff(e.1, FinalChunk(e.1).value);
    }
  }

  lemma IsExtraIff(g: Gate, e: (NodeName, Update), o: Output)
    ensures IsExtra(g, e, o) <==>
      && e.0 in g.structured && !g.single && e.1.Fields? && StructuredKey(g, e.0, e.1).Some?
      && var key := StructuredKey(g, e.0, e.1).value;
         o == Tagged(STRUCTURED, StructuredData(e.0, key, Get(e.1.fields, key)))
  {
    if e.0 in g.structured && e.1.Fields? {
      var d: seq<(string, Field)> := e.1.fields;
      forall key
        ensures OutputKey(g, e.0, e.1, key) <==> StructuredKey(g, e.0, e.1) == Some(key)
      {
        FirstDumpableIff(d, key);
      }
      forall key
        ensures Get(d, key).Some? <==> HasKey(d, key)
        ensures forall k :: 0 <= k < |d| && d[k].0 == key ==> Get(d, key) == Some(d[k].1)
        ensures Get(d, key).Some? ==> exists k :: 0 <= k < |d| && d[k] == (key, Get(d, key).value)
      {
        GetIffHasKey(d, key);
        forall k | 0 <= k < |d| && d[k].0 == key
          ensures Get(d, key) == Some(d[k].1)
        {
          GetAt(d, k);
        }
        if Get(d, key).Some? {
          GetIsEntry(d, key);
        }
      }
    }
  }

  // Entry `e` of an update hands out `o`.
  ghost predicate FromEntry(g: Gate, before: seq<Item>, e: (NodeName, Update), o: Output) {
    e.0 !in g.internal && (StandsIn(g, before, e, o) || IsExtra(g, e, o))
  }

  // The item after `before` hands out `o`: nothing for a token of a guarded or internal node, the
  // visible entries of an update behind what they release, anything else as it came, if it was asked for.
  ghost predicate GoesOut(g: Gate, before: seq<Item>, item: Item, o: Output) {
    if item.mode == "updates" && item.payload.Entries? then
      var d, vis := item.payload.entries, Visible(g.internal, item.payload.entries);
      || (exists k :: 0 <= k < |d| && FromEntry(g, before, d[k], o))
      || ("updates" in g.requested && (g.internal == {} || vis != []) && SentAs(g, o, "updates", Entries(vis)))
    else
      && !(exists n: NodeName :: (n in g.guarded || n in g.internal) && MessageOf([item], 0, n))
      && item.mode in g.requested && SentAs(g, o, item.mode, item.payload)
  }

  lemma {:induction false} ReleaseIsFound(g: Gate, before: seq<Item>, d: seq<(NodeName, Update)>, k: nat, o: Output)
    requires k < |d| && o in Released(g, LastHeld(g, before, d[k].0), d[k].0, d[k].1)
    ensures o in HistoryReleased(g, before, d)
  {
    if k > 0 {
      ReleaseIsFound(g, before, d[1..], k - 1, o);
    }
  }

  lemma {:induction false} VisibleEntryOf(internal: set<NodeName>, d: seq<(NodeName, Update)>, m: nat) returns (k: nat)
    requires m < |d| && d[m].0 !in internal
    ensures k < |Visible(internal, d)| && Visible(internal, d)[k] == d[m]
  {
    if m == 0 {
      k := 0;
    } else {
      k := VisibleEntryOf(internal, d[1..], m - 1);
      k := if d[0].0 in internal then k else k + 1;
    }
  }

  // The visible entries stand in the order of the update.
  lemma {:induction false} VisibleKeepsOrder(internal: set<NodeName>, d: seq<(NodeName, Update)>, i: nat, j: nat)
      returns (a: nat, b: nat)
    requires i < j < |Visible(internal, d)|
    ensures a < b < |d| && d[a] == Visible(internal, d)[i] && d[b] == Visible(internal, d)[j]
  {
    if d[0].0 in internal {
      a, b := VisibleKeepsOrder(internal, d[1..], i, j);
      a, b := a + 1, b + 1;
    } else if i > 0 {
      a, b := VisibleKeepsOrder(internal, d[1..], i - 1, j - 1);
      a, b := a + 1, b + 1;
    } else {
      b := VisibleEntry(internal, d[1..], j - 1);
      a, b := 0, b + 1;
    }
  }

  lemma ReleasedIff(g: Gate, before: seq<Item>, e: (NodeName, Update), o: Output)
    requires e.0 !in g.internal
    ensures o in Released(g, LastHeld(g, before, e.0), e.0, e.1) <==> FromEntry(g, before, e, o)
  {
    StandsInIff(g, before, e, o);
    IsExtraIff(g, e, o);
  }

  lemma UpdateOutputsIff(g: Gate, before: seq<Item>, d: seq<(NodeName, Update)>, o: Output)
    ensures o in HistoryReleased(g, before, Visible(g.internal, d)) <==>
      exists k :: 0 <= k < |d| && FromEntry(g, before, d[k], o)
  {
    var vis := Visible(g.internal, d);
    if o in HistoryReleased(g, before, vis) {
      FindRelease(g, before, vis, o);
      var k :| 0 <= k < |vis| && o in Released(g, LastHeld(g, before, vis[k].0), vis[k].0, vis[k].1);
      ReleasedIff(g, before, vis[k], o);
      var m := VisibleEntry(g.internal, d, k);
      assert FromEntry(g, before, d[m], o);
    }
    if exists k :: 0 <= k < |d| && FromEntry(g, before, d[k], o) {
      var m :| 0 <= m < |d| && FromEntry(g, before, d[m], o);
      ReleasedIff(g, before, d[m], o);
      var k := VisibleEntryOf(g.internal, d, m);
      ReleaseIsFound(g, before, vis, k, o);
    }
  }

  lemma ItemOutputsIff(g: Gate, before: seq<Item>, item: Item, o: Output)
    ensures o in HistoryEmitted(g, before, item) <==> GoesOut(g, before, item, o)
  {
    if IsUpdate(item) {
      UpdateOutputsIff(g, before, item.payload.entries, o);
      var vis := Visible(g.internal, item.payload.entries);
      if g.internal != {} && vis == [] {
        assert HistoryReleased(g, before, vis) == [];
      }
    } else {
      assert forall n :: IsTokenOf(item, {n}) <==> MessageOf([item], 0, n);
      assert IsTokenOf(item, g.internal + g.guarded) <==>
        exists n: NodeName :: (n in g.guarded || n in g.internal) && MessageOf([item], 0, n) by {
        if IsTokenOf(item, g.internal + g.guarded) {
          assert MessageOf([item], 0, NodeOf(item.payload).value);
        }
      }
    }
  }

  // Item `j` of a run hands out `o`.
  ghost predicate OutAt(g: Gate, run: seq<Item>, o: Output, j: nat) {
    j < |run| && GoesOut(g, run[..j], run[j], o)
  }

  lemma {:induction false} OutputIsFound(g: Gate, ctxState: string, run: seq<Item>, o: Output, j: nat)
    requires !g.passthrough && j < |run| && o in HistoryEmitted(g, run[..j], run[j])
    ensures o in Stream(g, Init(ctxState), run)
  {
    var front, last := run[..|run| - 1], run[|run| - 1];
    if j < |front| {
      assert run[..j] == front[..j];
      OutputIsFound(g, ctxState, front, o, j);
    } else {
      ItemMatchesHistory(g, ctxState, front, last);
    }
  }

  // Exactly this gets out of a gate, over every run: item by item, the finished AI messages that stand
  // in for held tokens, the declared values, and what the caller asked for, without internal entries.
  lemma StreamOutputsIff(g: Gate, ctxState: string, run: seq<Item>, o: Output)
    requires !g.passthrough
    ensures o in Stream(g, Init(ctxState), run) <==> exists j: nat :: OutAt(g, run, o, j)
  {
    if o in Stream(g, Init(ctxState), run) {
      var j := OutputOrigin(g, ctxState, run, o);
      ItemOutputsIff(g, run[..j], run[j], o);
      assert OutAt(g, run, o, j);
    }
    if exists j: nat :: OutAt(g, run, o, j) {
      var j: nat :| OutAt(g, run, o, j);
      ItemOutputsIff(g, run[..j], run[j], o);
      OutputIsFound(g, ctxState, run, o, j);
    }
  }

  lemma {:induction false} ReleasesSplit(g: Gate, before: seq<Item>, a: seq<(NodeName, Update)>,
      b: seq<(NodeName, Update)>)
    ensures HistoryReleased(g, before, a + b) == HistoryReleased(g, before, a) + HistoryReleased(g, before, b)
  {
    if a == [] {
      assert a + b == b;
    } else {
      assert (a + b)[0] == a[0] && (a + b)[1..] == a[1..] + b;
      ReleasesSplit(g, before, a[1..], b);
    }
  }

  // An entry hands out at most two outputs: the message, then the declared value.
  ghost predicate MessageThenExtra(g: Gate, before: seq<Item>, e: (NodeName, Update), outs: seq<Output>) {
    && |outs| <= 2
    && (|outs| == 2 ==> StandsIn(g, before, e, outs[0]) && IsExtra(g, e, outs[1]))
    && (forall o :: o in outs <==> FromEntry(g, before, e, o))
  }

  // What an entry hands out, in order: the message that stands in for its tokens, then the declared value.
  lemma EntryInOrder(g: Gate, before: seq<Item>, e: (NodeName, Update))
    requires e.0 !in g.internal
    ensures MessageThenExtra(g, before, e, Released(g, LastHeld(g, before, e.0), e.0, e.1))
  {
    var outs := Released(g, LastHeld(g, before, e.0), e.0, e.1);
    forall o
      ensures o in outs <==> FromEntry(g, before, e, o)
    {
      ReleasedIff(g, before, e, o);
    }
    if |outs| == 2 {
      StandsInIff(g, before, e, outs[0]);
      IsExtraIff(g, e, outs[1]);
    }
  }

  lemma ReleasesOfOne(g: Gate, before: seq<Item>, e: (NodeName, Update))
    ensures HistoryReleased(g, before, [e]) == Released(g, LastHeld(g, before, e.0), e.0, e.1)
  {
    var out := Released(g, LastHeld(g, before, e.0), e.0, e.1);
    assert [e][1..] == [];
    assert HistoryReleased(g, before, [e]) == out + [] == out;
  }

  lemma ReleasesAround(g: Gate, before: seq<Item>, a: seq<(NodeName, Update)>, e: (NodeName, Update),
      b: seq<(NodeName, Update)>)
    ensures HistoryReleased(g, before, a + [e] + b) ==
      HistoryReleased(g, before, a) + Released(g, LastHeld(g, before, e.0), e.0, e.1) + HistoryReleased(g, before, b)
  {
    ReleasesSplit(g, before, a + [e], b);
    ReleasesSplit(g, before, a, [e]);
    ReleasesOfOne(g, before, e);
  }

  // The outputs of an update in order: what its visible entries hand out, entry by entry, and last the
  // update itself.
  lemma UpdateInOrder(g: Gate, ctxState: string, before: seq<Item>, item: Item, a: seq<(NodeName, Update)>,
      e: (NodeName, Update), b: seq<(NodeName, Update)>)
    requires !g.passthrough && IsUpdate(item) && Visible(g.internal, item.payload.entries) == a + [e] + b
    ensures Emitted(g, StateAfter(g, Init(ctxState), before), item) ==
      HistoryReleased(g, before, a) + Released(g, LastHeld(g, before, e.0), e.0, e.1) + HistoryReleased(g, before, b) +
      if "updates" in g.requested then [Emit(g, UPDATES, Entries(a + [e] + b))] else []
  {
    ItemMatchesHistory(g, ctxState, before, item);
    var vis: seq<(NodeName, Update)> := Visible(g.internal, item.payload.entries);
    ReleasesAround(g, before, a, e, b);
    assert vis != [];
    assert HistoryEmitted(g, before, item) ==
      HistoryReleased(g, before, vis) + if UPDATES in g.requested then [Emit(g, UPDATES, Entries(vis))] else [];
  }

  // ---------------------------------------------------------------------------
  // At most one replacement per update

  // How many of `outs` are messages of node `n`.
  function MessagesOf(outs: seq<Output>, n: NodeName): nat {
    if outs == [] then 0
    else (if NodeOf(PayloadOf(outs[0])) == Some(n) then 1 else 0) + MessagesOf(outs[1..], n)
  }

  lemma {:induction false} MessagesOfConcat(a: seq<Output>, b: seq<Output>, n: NodeName)
    ensures MessagesOf(a + b, n) == MessagesOf(a, n) + MessagesOf(b, n)
  {
    if a == [] {
      assert a + b == b;
    } else {
      assert (a + b)[1..] == a[1..] + b;
      MessagesOfConcat(a[1..], b, n);
    }
  }

  // An entry of node `n` releases one message exactly when a token is held for it, messages
  // were requested, and the update ends in an AI message.
  predicate Releases(g: Gate, before: seq<Item>, n: NodeName, u: Update) {
    LastHeld(g, before, n).Some? && MESSAGES in g.requested && FinalChunk(u).Some?
  }

  lemma CountOne(g: Gate, before: seq<Item>, k: NodeName, u: Update, n: NodeName)
    ensures MessagesOf(Released(g, LastHeld(g, before, k), k, u), n) ==
      if k == n && Releases(g, before, k, u) then 1 else 0
  {
    var held := LastHeld(g, before, k);
    var out := Released(g, held, k, u);
    if held.Some? {
      HeldComesFromToken(g, before, k);
    }
    var first := if held.Some? && MESSAGES in g.requested && FinalChunk(u).Some?
                 then [Emit(g, MESSAGES, Token(FinalChunk(u).value, held))] else [];
    var rest := out[|first|..];
    assert out == first + rest;
    MessagesOfConcat(first, rest, n);
    assert |rest| <= 1 && (|rest| == 1 ==> NodeOf(PayloadOf(rest[0])) == None);
  }

  lemma {:induction false} CountReleased(g: Gate, before: seq<Item>, d: seq<(NodeName, Update)>, n: NodeName)
    requires DistinctKeys(d)
    ensures MessagesOf(HistoryReleased(g, before, d), n) ==
      if Get(d, n).Some? && Releases(g, before, n, Get(d, n).value) then 1 else 0
  {
    if d != [] {
      var (k, u) := d[0];
      CountOne(g, before, k, u, n);
      CountReleased(g, before, d[1..], n);
      MessagesOfConcat(Released(g, LastHeld(g, before, k), k, u), HistoryReleased(g, before, d[1..]), n);
      if k == n {
        GetIffHasKey(d[1..], n);
        assert !HasKey(d[1..], n);
      }
    }
  }

  // Each update item releases at most one message per node, and exactly when a token was
  // held since that node's previous update.
  lemma OneReplacementPerUpdate(g: Gate, ctxState: string, before: seq<Item>, item: Item, n: NodeName)
    requires !g.passthrough && IsUpdate(item)
    ensures var d := item.payload.entries;
      MessagesOf(Emitted(g, StateAfter(g, Init(ctxState), before), item), n) ==
      if n !in g.internal && Get(d, n).Some? && Releases(g, before, n, Get(d, n).value) then 1 else 0
  {
    ItemMatchesHistory(g, ctxState, before, item);
    var vis: seq<(NodeName, Update)> := Visible(g.internal, item.payload.entries);
    CountReleased(g, before, vis, n);
    var tail := if UPDATES in g.requested then [Emit(g, UPDATES, Entries(vis))] else [];
    MessagesOfConcat(HistoryReleased(g, before, vis), tail, n);
    assert MessagesOf(tail, n) == 0;
    if n !in g.internal {
      VisibleKeepsOthers(g.internal, item.payload.entries, n);
    } else {
      VisibleHasKey(g.internal, item.payload.entries, n);
      GetIffHasKey(vis, n);
    }
  }

  // ---------------------------------------------------------------------------
  // Degenerate gates

  function Project(g: Gate, run: seq<Item>): seq<Output> {
    if run == [] then []
    else
      var last := run[|run| - 1];
      Project(g, run[..|run| - 1]) + (if last.mode in g.requested then [Emit(g, last.mode, last.payload)] else [])
  }

  lemma {:induction false} ReleasesNothing(g: Gate, before: seq<Item>, d: seq<(NodeName, Update)>)
    requires g.guarded == {} && g.structured == map[]
    ensures HistoryReleased(g, before, d) == []
  {
    if d != [] {
      if LastHeld(g, before, d[0].0).Some? {
        HeldComesFromToken(g, before, d[0].0);
      }
      ReleasesNothing(g, before, d[1..]);
    }
  }

  // With nothing declared, the gate is exactly the projection to the requested modes.
  lemma {:induction false} PlainGateProjects(g: Gate, ctxState: string, run: seq<Item>)
    requires !g.passthrough && g.guarded == {} && g.internal == {} && g.structured == map[]
    ensures Stream(g, Init(ctxState), run) == Project(g, run)
  {
    if run != [] {
      var front, last := run[..|run| - 1], run[|run| - 1];
      PlainGateProjects(g, ctxState, front);
      GateMatchesHistory(g, ctxState, front);
      GateMatchesHistory(g, ctxState, run);
      if IsUpdate(last) {
        NothingInternal(last.payload.entries);
        ReleasesNothing(g, front, last.payload.entries);
      }
    }
  }

  // `p` is what item `i`, of the requested mode, hands out: its payload without internal entries.
  ghost predicate FromItem(g: Gate, run: seq<Item>, m: Mode, p: Payload, i: nat) {
    && i < |run| && run[i].mode == m
    && p == (if IsUpdate(run[i]) then Entries(Visible(g.internal, run[i].payload.entries)) else run[i].payload)
  }

  // A payload that single mode may hand out: an item of the requested mode, or a finished
  // message when that mode is `messages`.
  ghost predicate BarePayload(g: Gate, run: seq<Item>, m: Mode, p: Payload) {
    || (exists i: nat :: FromItem(g, run, m, p, i))
    || (m == MESSAGES && p.Token? && p.meta.Some? && p.meta.value.node.Some?
          && IsReplacement(g, run, p.meta.value.node.value, p.chunk, p.meta.value))
  }

  lemma ItemIsBare(g: Gate, run: seq<Item>, j: nat, m: Mode, o: Output)
    requires Built(g) && g.single && g.requested == {m} && j < |run|
    requires o in HistoryEmitted(g, run[..j], run[j])
    ensures o.Bare? && BarePayload(g, run, m, o.payload)
  {
    if IsUpdate(run[j]) && o in HistoryReleased(g, run[..j], Visible(g.internal, run[j].payload.entries)) {
      var vis := Visible(g.internal, run[j].payload.entries);
      FindRelease(g, run[..j], vis, o);
      var k :| 0 <= k < |vis| && o in Released(g, LastHeld(g, run[..j], vis[k].0), vis[k].0, vis[k].1);
      HeldComesFromToken(g, run[..j], vis[k].0);
      ItemReplaces(g, run, j, vis[k].0, o.payload.chunk, o.payload.meta.value);
    } else {
      assert FromItem(g, run, m, o.payload, j);
    }
  }

  // In single mode every output is a bare payload of the one requested mode.
  lemma SingleModeIsBare(g: Gate, ctxState: string, run: seq<Item>, m: Mode, o: Output)
    requires Built(g) && !g.passthrough && g.single && g.requested == {m}
    requires o in Stream(g, Init(ctxState), run)
    ensures o.Bare? && BarePayload(g, run, m, o.payload)
  {
    var j := OutputOrigin(g, ctxState, run, o);
    ItemIsBare(g, run, j, m, o);
  }

  // ---------------------------------------------------------------------------
  // The gate in place

  class ExecutionContext {
    var state: string

    constructor (state: string)
      ensures this.state == state
    {
      this.state := state;
    }
  }

  class StreamGate {
    const gate: Gate
    const internalModes: seq<Mode>
    var values: Option<Payload>
    var hold: map<NodeName, Meta>

    ghost function View(ctx: ExecutionContext): GateState
      reads this, ctx
    {
      GateState(values, hold, ctx.state)
    }

    constructor (requested: Requested, default: Mode, guarded: set<NodeName>, passthrough: bool,
                 internal: set<NodeName>, structured: map<NodeName, Option<string>>)
      ensures gate == MakeGate(requested, default, guarded, passthrough, internal, structured)
      ensures MadeFrom(gate, requested, default, guarded, passthrough, internal, structured)
      ensures values == None && hold == map[]
      ensures Modes(requested, default) <= internalModes
      ensures forall m :: m in internalModes <==> m in gate.requested || (!passthrough && m in {VALUES, UPDATES})
    {
      var modes := Modes(requested, default);
      gate := MakeGate(requested, default, guarded, passthrough, internal, structured);
      if passthrough {
        internalModes := modes;
      } else {
        internalModes := modes +
          (if VALUES in modes then [] else [VALUES]) + (if UPDATES in modes then [] else [UPDATES]);
      }
      values := None;
      hold := map[];
    }

    method Feed(item: Item, ctx: ExecutionContext) returns (out: seq<Output>)
      modifies this, ctx
      ensures View(ctx) == Next(gate, old(View(ctx)), item)
      ensures out == Emitted(gate, old(View(ctx)), item)
    {
      if gate.passthrough {
        return [Passed(item)];
      }
      if item.mode == VALUES {
        values := Some(item.payload);
      }
      if Interrupted(item) {
        ctx.state := WAITING_APPROVAL;
      }
      out := [];
      var payload := item.payload;
      if item.mode == MESSAGES && NodeOf(payload).Some? {
        var node := NodeOf(payload).value;
        if node in gate.internal {
          return;
        }
        if node in gate.guarded {
          hold := hold[node := payload.meta.value];
          return;
        }
      }
      if item.mode == UPDATES && payload.Entries? {
        NothingInternal(payload.entries);
        var entries := Visible(gate.internal, payload.entries);
        if gate.internal != {} && entries == [] {
          return;
        }
        payload := Entries(entries);
        out := ReleaseHeld(entries);
      }
      if item.mode in gate.requested {
        out := out + [Emit(gate, item.mode, payload)];
      }
    }

    // One entry of an update: pops its node from the table and releases what is due.
    method ReleaseEntry(node: NodeName, upd: Update) returns (out: seq<Output>)
      modifies `hold
      ensures hold == old(hold) - {node}
      ensures out == Released(gate, HeldFor(old(hold), node), node, upd)
    {
      out := [];
      if node in hold && MESSAGES in gate.requested {
        var meta := hold[node];
        var final := FinalChunk(upd);
        if final.Some? {
          out := [Emit(gate, MESSAGES, Token(final.value, Some(meta)))];
        }
      }
      hold := hold - {node};
      if node in gate.structured && !gate.single && upd.Fields? {
        var key := StructuredKey(gate, node, upd);
        if key.Some? {
          out := out + [Tagged(STRUCTURED, StructuredData(node, key.value, Get(upd.fields, key.value)))];
        }
      }
    }

    method ReleaseHeld(entries: seq<(NodeName, Update)>) returns (out: seq<Output>)
      modifies `hold
      ensures hold == HoldAfter(old(hold), entries)
      ensures out == AllReleased(gate, old(hold), entries)
    {
      out := [];
      var i := 0;
      ghost var hold0 := hold;
      while i < |entries|
        invariant 0 <= i <= |entries|
        invariant HoldAfter(hold, entries[i..]) == HoldAfter(hold0, entries)
        invariant out + AllReleased(gate, hold, entries[i..]) == AllReleased(gate, hold0, entries)
      {
        ghost var before, rest := hold, entries[i..];
        var more := ReleaseEntry(entries[i].0, entries[i].1);
        assert rest[0] == entries[i] && rest[1..] == entries[i + 1..];
        assert AllReleased(gate, before, rest) == more + AllReleased(gate, hold, rest[1..]);
        assert out + (more + AllReleased(gate, hold, rest[1..])) == (out + more) + AllReleased(gate, hold, rest[1..]);
        out := out + more;
        i := i + 1;
      }
    }

    // Feeds a whole upstream run.
    method FeedAll(run: seq<Item>, ctx: ExecutionContext) returns (out: seq<Output>)
      modifies this, ctx
      ensures View(ctx) == StateAfter(gate, old(View(ctx)), run)
      ensures Recorded(gate, old(View(ctx)), run, View(ctx))
      ensures out == Stream(gate, old(View(ctx)), run)
    {
      GateRecordsTheLastState(gate, View(ctx), run);
      out := [];
      var i := 0;
      ghost var st := View(ctx);
      while i < |run|
        invariant 0 <= i <= |run|
        invariant View(ctx) == StateAfter(gate, st, run[..i])
        invariant out == Stream(gate, st, run[..i])
      {
        var more := Feed(run[i], ctx);
        assert run[..i + 1][..i] == run[..i];
        out := out + more;
        i := i + 1;
      }
      assert run[..i] == run;
    }
  }
}
