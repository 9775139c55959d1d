/**
  The execution recorder: a bounded, insertion-ordered store of runs, written by
  hooks and events from any thread, one locked action at a time.

  A `ModelCalled` event takes the lock twice: it first tries to fill a pending
  row, and appends a row if there was none. Other actions may come in between,
  so the theorems quantify over every schedule of locked actions.
 */
module Recorder {
  import opened Wrappers
  import opened Basics
  import opened BoundedFifo

  type Eid = string

  datatype Kind = NodeRow | ToolRow | ModelRow | GuardrailRow | ApprovalRow

  datatype Row = Row(seqNo: nat, kind: Kind, name: string, tokens: Option<nat>, cost: Option<real>)

  // `state` is None until the run has ended.
  datatype Record = Record(eid: Eid, rows: seq<Row>, error: Option<string>, state: Option<string>)

  // What a ModelCalled event carries.
  datatype Call = Call(eid: Eid, model: string, tokens: Option<nat>, cost: Option<real>)

  // The locked actions. `Append(i)` is the second half of the i-th event still waiting for it.
  datatype Action =
    | Touch(eid: Eid)
    | AgentError(eid: Eid, message: string)
    | AgentEnd(eid: Eid, ctxState: string)
    | Add(eid: Eid, kind: Kind, name: string)
    | Fill(call: Call)
    | Append(i: nat)

  function OrZero(tokens: Option<nat>): nat {
    if tokens.Some? then tokens.value else 0
  }

  // The tokens of all model rows; a row without a count adds nothing.
  function Total(rows: seq<Row>): nat {
    if rows == [] then 0
    else
      var last := rows[|rows| - 1];
      Total(rows[..|rows| - 1]) + if last.kind == ModelRow then OrZero(last.tokens) else 0
  }

  predicate IsPending(row: Row, model: string) {
    row.kind == ModelRow && row.name == model && row.tokens.None?
  }

  // The last pending row of a model.
  function PendingIndex(rows: seq<Row>, model: string): (r: Option<nat>)
    ensures r.Some? ==> r.value < |rows| && IsPending(rows[r.value], model)
    ensures r.Some? ==> forall j :: r.value < j < |rows| ==> !IsPending(rows[j], model)
    ensures r.None? ==> forall j :: 0 <= j < |rows| ==> !IsPending(rows[j], model)
  {
    if rows == [] then None
    else if IsPending(rows[|rows| - 1], model) then Some(|rows| - 1)
    else PendingIndex(rows[..|rows| - 1], model)
  }

  function FillRow(rows: seq<Row>, c: Call): seq<Row> {
    var j := PendingIndex(rows, c.model);
    if j.None? then rows else rows[j.value := rows[j.value].(tokens := c.tokens, cost := c.cost)]
  }

  function AddRow(rows: seq<Row>, kind: Kind, name: string, tokens: Option<nat>, cost: Option<real>): seq<Row> {
    rows + [Row(|rows|, kind, name, tokens, cost)]
  }

  // The state shown at the end: without a policy the context never left CREATED.
  function FinalState(ctxState: string, error: Option<string>): string {
    if ctxState == "CREATED" then (if error.Some? then "FAILED" else "COMPLETED") else ctxState
  }

  function Update(r: Record, a: Action, appended: Option<Call>): Record {
    match a
    case Touch(_) => r
    case AgentError(_, message) => r.(error := Some(message))
    case AgentEnd(_, ctxState) => r.(state := Some(FinalState(ctxState, r.error)))
    case Add(_, kind, name) => r.(rows := AddRow(r.rows, kind, name, None, None))
    case Fill(c) => r.(rows := FillRow(r.rows, c))
    case Append(_) =>
      if appended.Some?
      then r.(rows := AddRow(r.rows, ModelRow, appended.value.model, appended.value.tokens, appended.value.cost))
      else r
  }

  // ---------------------------------------------------------------------------
  // The store

  type Store = seq<Record>

  function Keys(store: Store): (r: seq<Eid>)
    ensures |r| == |store|
  {
    if store == [] then [] else Keys(store[..|store| - 1]) + [store[|store| - 1].eid]
  }

  lemma {:induction false} KeyAt(store: Store, i: nat)
    requires i < |store|
    ensures Keys(store)[i] == store[i].eid
  {
    if i < |store| - 1 {
      KeyAt(store[..|store| - 1], i);
    }
  }

  ghost predicate Has(store: Store, eid: Eid) {
    exists r :: r in store && r.eid == eid
  }

  lemma {:induction false} HasIsKey(store: Store, eid: Eid)
    ensures eid in Keys(store) <==> Has(store, eid)
  {
    if eid in Keys(store) {
      var i :| 0 <= i < |store| && Keys(store)[i] == eid;
      KeyAt(store, i);
      assert store[i] in store;
    }
    if Has(store, eid) {
      var r :| r in store && r.eid == eid;
      var i :| 0 <= i < |store| && store[i] == r;
      KeyAt(store, i);
    }
  }

  function IndexOf(store: Store, eid: Eid): (r: Option<nat>)
    ensures r.Some? ==> r.value < |store| && store[r.value].eid == eid
    ensures r.None? ==> forall i :: 0 <= i < |store| ==> store[i].eid != eid
  {
    if store == [] then None
    else if store[|store| - 1].eid == eid then Some(|store| - 1)
    else IndexOf(store[..|store| - 1], eid)
  }

  // The record of an execution is created on its first action; the oldest records go first.
  function Open(cap: nat, store: Store, eid: Eid): Store {
    if eid in Keys(store) then store else LastN(cap, store + [Record(eid, [], None, None)])
  }

  datatype State = State(store: Store, waiting: seq<Call>)

  predicate Enabled(st: State, a: Action) {
    a.Append? ==> a.i < |st.waiting|
  }

  function EidOf(st: State, a: Action): Eid
    requires Enabled(st, a)
  {
    match a
    case Fill(c) => c.eid
    case Append(i) => st.waiting[i].eid
    case _ => a.eid
  }

  // The record an action writes to; an empty one if the store has no room for it.
  function Target(cap: nat, store: Store, eid: Eid): Record {
    var runs := Open(cap, store, eid);
    var i := IndexOf(runs, eid);
    if i.Some? then runs[i.value] else Record(eid, [], None, None)
  }

  function Write(cap: nat, store: Store, eid: Eid, a: Action, appended: Option<Call>): Store {
    var runs := Open(cap, store, eid);
    var i := IndexOf(runs, eid);
    if i.None? then runs else runs[i.value := Update(runs[i.value], a, appended)]
  }

  function Appended(st: State, a: Action): Option<Call>
    requires Enabled(st, a)
  {
    if a.Append? then Some(st.waiting[a.i]) else None
  }

  // A fill that finds no pending row leaves its event waiting for the append.
  function NextWaiting(cap: nat, st: State, a: Action): seq<Call>
    requires Enabled(st, a)
  {
    match a
    case Fill(c) =>
      if PendingIndex(Target(cap, st.store, c.eid).rows, c.model).None? then st.waiting + [c] else st.waiting
    case Append(i) => st.waiting[..i] + st.waiting[i + 1..]
    case _ => st.waiting
  }

  function Step(cap: nat, st: State, a: Action): State
    requires Enabled(st, a)
  {
    State(Write(cap, st.store, EidOf(st, a), a, Appended(st, a)), NextWaiting(cap, st, a))
  }

  const INITIAL := State([], [])

  // A schedule is any interleaving of locked actions in which no append comes before its fill.
  ghost predicate Schedule(cap: nat, actions: seq<Action>)
    decreases |actions|, 0
  {
    actions == [] ||
    (var before := actions[..|actions| - 1];
     Schedule(cap, before) && Enabled(After(cap, before), actions[|actions| - 1]))
  }

  function After(cap: nat, actions: seq<Action>): State
    requires Schedule(cap, actions)
    decreases |actions|, 1
  {
    if actions == [] then INITIAL
    else Step(cap, After(cap, actions[..|actions| - 1]), actions[|actions| - 1])
  }

  // The execution of each action of a schedule.
  function Eids(cap: nat, actions: seq<Action>): (r: seq<Eid>)
    requires Schedule(cap, actions)
    ensures |r| == |actions|
  {
    if actions == [] then []
    else
      var before := actions[..|actions| - 1];
      Eids(cap, before) + [EidOf(After(cap, before), actions[|actions| - 1])]
  }

  // ---------------------------------------------------------------------------
  // Capacity and order

  lemma {:induction false} KeysAppend(store: Store, r: Record)
    ensures Keys(store + [r]) == Keys(store) + [r.eid]
  {
    assert (store + [r])[..|store|] == store;
  }

  lemma {:induction false} KeysDropFirst(store: Store)
    requires store != []
    ensures Keys(store[1..]) == Keys(store)[1..]
  {
    if |store| > 1 {
      var n := |store| - 1;
      KeysDropFirst(store[..n]);
      assert store[1..][..n - 1] == store[..n][1..];
    }
  }

  // The store is never over its capacity by more than the new record.
  lemma KeysLastN(cap: nat, store: Store)
    requires |store| <= cap + 1
    ensures Keys(LastN(cap, store)) == LastN(cap, Keys(store))
  {
    if |store| == cap + 1 {
      KeysDropFirst(store);
    }
  }

  // Opening a record is one offer to a bounded FIFO.
  lemma OpenIsOffer(cap: nat, store: Store, eid: Eid)
    requires cap > 0 && |store| <= cap
    ensures Keys(Open(cap, store, eid)) == Offer(cap, Keys(store), eid)
  {
    if eid !in Keys(store) {
      KeysAppend(store, Record(eid, [], None, None));
      KeysLastN(cap, store + [Record(eid, [], None, None)]);
      OfferSlides(cap, Keys(store), eid);
    }
  }

  lemma {:induction false} SameKeys(a: Store, b: Store)
    requires |a| == |b| && forall i :: 0 <= i < |a| ==> a[i].eid == b[i].eid
    ensures Keys(a) == Keys(b)
  {
    if a != [] {
      SameKeys(a[..|a| - 1], b[..|b| - 1]);
    }
  }

  lemma WriteKeepsKeys(cap: nat, store: Store, eid: Eid, a: Action, appended: Option<Call>)
    ensures Keys(Write(cap, store, eid, a, appended)) == Keys(Open(cap, store, eid))
  {
    SameKeys(Write(cap, store, eid, a, appended), Open(cap, store, eid));
  }

  // Whatever the schedule, the runs are the last `cap` executions whose record was created, in
  // creation order; with capacity 0 the store stays empty.
  lemma {:induction false} RunsAreTheLastCreated(cap: nat, actions: seq<Action>)
    requires Schedule(cap, actions)
    ensures cap > 0 ==> Keys(After(cap, actions).store) == Table(cap, Eids(cap, actions))
    ensures cap > 0 ==> Keys(After(cap, actions).store) == LastN(cap, Log(cap, Eids(cap, actions)))
    ensures |After(cap, actions).store| <= cap && NoDup(Keys(After(cap, actions).store))
  {
    if actions != [] {
      var before, a := actions[..|actions| - 1], actions[|actions| - 1];
      RunsAreTheLastCreated(cap, before);
      var st := After(cap, before);
      WriteKeepsKeys(cap, st.store, EidOf(st, a), a, Appended(st, a));
      if cap > 0 {
        OpenIsOffer(cap, st.store, EidOf(st, a));
        var ids := Eids(cap, actions);
        assert ids[..|ids| - 1] == Eids(cap, before);
      }
    }
    if cap > 0 {
      TableIsWindow(cap, Eids(cap, actions));
    }
  }

  // The record of an execution is dropped exactly when `cap` other records were created after it.
  lemma DroppedAtTheCapthCreation(cap: nat, actions: seq<Action>, eid: Eid)
    requires cap > 0 && Schedule(cap, actions)
    ensures var log := Log(cap, Eids(cap, actions));
      eid !in Keys(After(cap, actions).store) <==>
        forall i :: 0 <= i < |log| && log[i] == eid ==> |log| - 1 - i >= cap
  {
    RunsAreTheLastCreated(cap, actions);
    MissesExactlyWhenEvicted(cap, Eids(cap, actions), eid);
  }

  // ---------------------------------------------------------------------------
  // One action

  ghost predicate Distinct(store: Store) {
    forall i, j :: 0 <= i < j < |store| ==> store[i].eid != store[j].eid
  }

  lemma DistinctFromKeys(store: Store)
    requires NoDup(Keys(store))
    ensures Distinct(store)
  {
    forall i, j | 0 <= i < j < |store|
      ensures store[i].eid != store[j].eid
    {
      KeyAt(store, i);
      KeyAt(store, j);
    }
  }

  lemma OpenStaysDistinct(cap: nat, store: Store, eid: Eid)
    requires Distinct(store)
    ensures Distinct(Open(cap, store, eid))
    ensures forall r :: r in Open(cap, store, eid) ==> r in store || r == Record(eid, [], None, None)
    ensures Has(store, eid) ==> Open(cap, store, eid) == store
  {
    HasIsKey(store, eid);
    if !Has(store, eid) {
      forall i | 0 <= i < |store|
        ensures store[i].eid != eid
      {
        assert store[i] in store;
      }
      var more := store + [Record(eid, [], None, None)];
      forall r | r in LastN(cap, more)
        ensures r in more
      {}
    }
  }

  // The target is the stored record, or a new one.
  lemma TargetIs(cap: nat, store: Store, eid: Eid)
    requires Distinct(store)
    ensures Has(store, eid) ==> Target(cap, store, eid) in store
    ensures !Has(store, eid) ==> Target(cap, store, eid) == Record(eid, [], None, None)
    ensures Target(cap, store, eid).eid == eid
  {
    OpenStaysDistinct(cap, store, eid);
    var runs := Open(cap, store, eid);
    var i := IndexOf(runs, eid);
    if i.Some? {
      assert runs[i.value] in runs;
    }
  }

  // After an action every record is either untouched or the updated target.
  lemma OneRecordChanges(cap: nat, store: Store, eid: Eid, a: Action, appended: Option<Call>, r: Record)
    requires Distinct(store) && r in Write(cap, store, eid, a, appended)
    ensures if r.eid == eid then r == Update(Target(cap, store, eid), a, appended) else r in store
  {
    var runs := Open(cap, store, eid);
    OpenStaysDistinct(cap, store, eid);
    var after := Write(cap, store, eid, a, appended);
    var k :| 0 <= k < |after| && after[k] == r;
    assert runs[k].eid == r.eid;
    if r.eid != eid {
      assert runs[k] in runs;
    }
  }

  // ---------------------------------------------------------------------------
  // Rows

  ghost predicate Numbered(rows: seq<Row>) {
    forall i :: 0 <= i < |rows| ==> rows[i].seqNo == i
  }

  ghost predicate AllNumbered(store: Store) {
    forall r :: r in store ==> Numbered(r.rows)
  }

  // Rows are only added, and a recorded token count never changes.
  ghost predicate RowsKept(before: seq<Row>, after: seq<Row>) {
    && |before| <= |after|
    && (forall i :: 0 <= i < |before| ==>
          && after[i].seqNo == before[i].seqNo && after[i].kind == before[i].kind && after[i].name == before[i].name
          && (before[i].tokens.Some? ==> after[i] == before[i]))
  }

  lemma UpdateKeepsRows(r: Record, a: Action, appended: Option<Call>)
    ensures RowsKept(r.rows, Update(r, a, appended).rows)
    ensures Numbered(r.rows) ==> Numbered(Update(r, a, appended).rows)
    ensures Update(r, a, appended).eid == r.eid
  {}

  // Whatever the schedule, the number of every row is its index.
  lemma {:induction false} RowsAreNumbered(cap: nat, actions: seq<Action>)
    requires Schedule(cap, actions)
    ensures AllNumbered(After(cap, actions).store)
  {
    if actions != [] {
      var before, a := actions[..|actions| - 1], actions[|actions| - 1];
      RowsAreNumbered(cap, before);
      RunsAreTheLastCreated(cap, before);
      var st := After(cap, before);
      DistinctFromKeys(st.store);
      TargetIs(cap, st.store, EidOf(st, a));
      forall r | r in After(cap, actions).store
        ensures Numbered(r.rows)
      {
        OneRecordChanges(cap, st.store, EidOf(st, a), a, Appended(st, a), r);
        UpdateKeepsRows(Target(cap, st.store, EidOf(st, a)), a, Appended(st, a));
      }
    }
  }

  function RowsOf(store: Store, eid: Eid): seq<Row> {
    var i := IndexOf(store, eid);
    if i.Some? then store[i.value].rows else []
  }

  lemma RowsOfMember(store: Store, r: Record)
    requires Distinct(store) && r in store
    ensures RowsOf(store, r.eid) == r.rows
  {
    var k :| 0 <= k < |store| && store[k] == r;
    var i := IndexOf(store, r.eid);
    assert store[i.value].eid == store[k].eid;
  }

  lemma WriteKeepsRows(cap: nat, store: Store, eid: Eid, a: Action, appended: Option<Call>, x: Eid)
    requires Distinct(store) && Has(store, x) && Has(Write(cap, store, eid, a, appended), x)
    requires Distinct(Write(cap, store, eid, a, appended))
    ensures RowsKept(RowsOf(store, x), RowsOf(Write(cap, store, eid, a, appended), x))
  {
    var r :| r in Write(cap, store, eid, a, appended) && r.eid == x;
    RowsOfMember(Write(cap, store, eid, a, appended), r);
    OneRecordChanges(cap, store, eid, a, appended, r);
    if x == eid {
      TargetIs(cap, store, eid);
      RowsOfMember(store, Target(cap, store, eid));
      UpdateKeepsRows(Target(cap, store, eid), a, appended);
    } else {
      RowsOfMember(store, r);
    }
  }

  lemma {:induction false} PrefixIsSchedule(cap: nat, actions: seq<Action>, n: nat)
    requires Schedule(cap, actions) && n <= |actions|
    ensures Schedule(cap, actions[..n])
    decreases |actions|
  {
    if n == |actions| {
      assert actions[..n] == actions;
    } else {
      PrefixIsSchedule(cap, actions[..|actions| - 1], n);
      assert actions[..|actions| - 1][..n] == actions[..n];
    }
  }

  // The record is in the store after action `n` and ever since.
  ghost predicate StoredSince(cap: nat, actions: seq<Action>, n: nat, eid: Eid)
    requires Schedule(cap, actions)
  {
    && n <= |actions| && Has(After(cap, actions).store, eid)
    && (n < |actions| ==> StoredSince(cap, actions[..|actions| - 1], n, eid))
  }

  // While a run is stored, no action of any thread removes, renumbers or renames a row of it, or
  // changes a token count that was recorded.
  lemma {:induction false} RowsOnlyGrow(cap: nat, actions: seq<Action>, n: nat, eid: Eid)
    requires Schedule(cap, actions) && StoredSince(cap, actions, n, eid)
    ensures Schedule(cap, actions[..n])
    ensures RowsKept(RowsOf(After(cap, actions[..n]).store, eid), RowsOf(After(cap, actions).store, eid))
    decreases |actions|
  {
    PrefixIsSchedule(cap, actions, n);
    if n == |actions| {
      assert actions[..n] == actions;
    } else {
      var before, a := actions[..|actions| - 1], actions[|actions| - 1];
      RowsOnlyGrow(cap, before, n, eid);
      assert before[..n] == actions[..n];
      var st := After(cap, before);
      RunsAreTheLastCreated(cap, before);
      RunsAreTheLastCreated(cap, actions);
      DistinctFromKeys(st.store);
      DistinctFromKeys(After(cap, actions).store);
      var _ := StoredSince(cap, before, n, eid);
      WriteKeepsRows(cap, st.store, EidOf(st, a), a, Appended(st, a), eid);
      KeptTransitive(RowsOf(After(cap, before[..n]).store, eid), RowsOf(st.store, eid),
                     RowsOf(After(cap, actions).store, eid));
    }
  }

  lemma KeptTransitive(a: seq<Row>, b: seq<Row>, c: seq<Row>)
    requires RowsKept(a, b) && RowsKept(b, c)
    ensures RowsKept(a, c)
  {}

  // ---------------------------------------------------------------------------
  // Conservation of tokens

  lemma {:induction false} FillTotal(rows: seq<Row>, j: nat, tokens: Option<nat>, cost: Option<real>)
    requires j < |rows| && rows[j].kind == ModelRow && rows[j].tokens.None?
    ensures Total(rows[j := rows[j].(tokens := tokens, cost := cost)]) == Total(rows) + OrZero(tokens)
  {
    var filled := rows[j := rows[j].(tokens := tokens, cost := cost)];
    var n := |rows| - 1;
    if j < n {
      FillTotal(rows[..n], j, tokens, cost);
      assert filled[..n] == rows[..n][j := rows[j].(tokens := tokens, cost := cost)];
    } else {
      assert filled[..n] == rows[..n];
    }
  }

  lemma AddTotal(rows: seq<Row>, kind: Kind, name: string, tokens: Option<nat>, cost: Option<real>)
    ensures Total(AddRow(rows, kind, name, tokens, cost)) ==
      Total(rows) + if kind == ModelRow then OrZero(tokens) else 0
  {
    var more := AddRow(rows, kind, name, tokens, cost);
    assert more[..|more| - 1] == rows;
  }

  // The tokens an action books on its target: a fill that finds a pending row, or an append.
  function Credit(target: Record, a: Action, appended: Option<Call>): nat {
    match a
    case Fill(c) => if PendingIndex(target.rows, c.model).Some? then OrZero(c.tokens) else 0
    case Append(_) => if appended.Some? then OrZero(appended.value.tokens) else 0
    case _ => 0
  }

  lemma UpdateBooks(r: Record, a: Action, appended: Option<Call>)
    ensures Total(Update(r, a, appended).rows) == Total(r.rows) + Credit(r, a, appended)
  {
    match a
    case Fill(c) =>
      var j := PendingIndex(r.rows, c.model);
      if j.Some? {
        FillTotal(r.rows, j.value, c.tokens, c.cost);
      }
    case Append(_) =>
      if appended.Some? {
        AddTotal(r.rows, ModelRow, appended.value.model, appended.value.tokens, appended.value.cost);
      }
    case Add(_, kind, name) => AddTotal(r.rows, kind, name, None, None);
    case _ =>
  }

  // The tokens booked for an execution since its record was created.
  ghost function Earned(cap: nat, actions: seq<Action>, eid: Eid): nat
    requires Schedule(cap, actions)
  {
    if actions == [] then 0
    else
      var before, a := actions[..|actions| - 1], actions[|actions| - 1];
      var st := After(cap, before);
      (if eid in Keys(st.store) then Earned(cap, before, eid) else 0) +
      (if EidOf(st, a) == eid then Credit(Target(cap, st.store, eid), a, Appended(st, a)) else 0)
  }

  // Whatever the schedule, the token total of every run is what was booked for it since its record
  // was created, whether an event filled a row or appended one.
  lemma {:induction false} TotalsAreEarned(cap: nat, actions: seq<Action>, r: Record)
    requires Schedule(cap, actions) && r in After(cap, actions).store
    ensures Total(r.rows) == Earned(cap, actions, r.eid)
  {
    var before, a := actions[..|actions| - 1], actions[|actions| - 1];
    var st := After(cap, before);
    var eid := EidOf(st, a);
    RunsAreTheLastCreated(cap, before);
    DistinctFromKeys(st.store);
    HasIsKey(st.store, r.eid);
    WriteBooks(cap, st.store, eid, a, Appended(st, a), r);
    if r.eid != eid {
      TotalsAreEarned(cap, before, r);
    } else if Has(st.store, eid) {
      TotalsAreEarned(cap, before, Target(cap, st.store, eid));
    }
  }

  // One write books its credit on the target, and nothing elsewhere.
  lemma WriteBooks(cap: nat, store: Store, eid: Eid, a: Action, appended: Option<Call>, r: Record)
    requires Distinct(store) && r in Write(cap, store, eid, a, appended)
    ensures r.eid != eid ==> r in store && Has(store, r.eid)
    ensures r.eid == eid ==>
      var target := Target(cap, store, eid);
      && target.eid == eid
      && (if Has(store, eid) then target in store else target.rows == [])
      && Total(r.rows) == Total(target.rows) + Credit(target, a, appended)
  {
    OneRecordChanges(cap, store, eid, a, appended, r);
    TargetIs(cap, store, eid);
    UpdateBooks(Target(cap, store, eid), a, appended);
  }

  // The tokens of every ModelCalled event of an execution, and of those still waiting.
  function Reported(actions: seq<Action>, eid: Eid): nat {
    if actions == [] then 0
    else
      var last := actions[|actions| - 1];
      Reported(actions[..|actions| - 1], eid) +
      if last.Fill? && last.call.eid == eid then OrZero(last.call.tokens) else 0
  }

  function Outstanding(waiting: seq<Call>, eid: Eid): nat {
    if waiting == [] then 0
    else (if waiting[0].eid == eid then OrZero(waiting[0].tokens) else 0) + Outstanding(waiting[1..], eid)
  }

  lemma {:induction false} OutstandingConcat(a: seq<Call>, b: seq<Call>, eid: Eid)
    ensures Outstanding(a + b, eid) == Outstanding(a, eid) + Outstanding(b, eid)
  {
    if a == [] {
      assert a + b == b;
    } else {
      assert (a + b)[1..] == a[1..] + b;
      OutstandingConcat(a[1..], b, eid);
    }
  }

  lemma OutstandingWithout(waiting: seq<Call>, i: nat, eid: Eid)
    requires i < |waiting|
    ensures Outstanding(waiting, eid) ==
      Outstanding(waiting[..i] + waiting[i + 1..], eid) + if waiting[i].eid == eid then OrZero(waiting[i].tokens) else 0
  {
    assert waiting == waiting[..i] + ([waiting[i]] + waiting[i + 1..]);
    OutstandingConcat(waiting[..i], [waiting[i]] + waiting[i + 1..], eid);
    OutstandingConcat([waiting[i]], waiting[i + 1..], eid);
    OutstandingConcat(waiting[..i], waiting[i + 1..], eid);
  }

  // One action moves tokens from reported to waiting, or from waiting to booked.
  lemma WaitingBalances(cap: nat, st: State, a: Action, eid: Eid)
    requires Enabled(st, a)
    ensures Outstanding(NextWaiting(cap, st, a), eid) +
      (if EidOf(st, a) == eid then Credit(Target(cap, st.store, eid), a, Appended(st, a)) else 0) ==
      Outstanding(st.waiting, eid) + if a.Fill? && a.call.eid == eid then OrZero(a.call.tokens) else 0
  {
    match a
    case Fill(c) => OutstandingConcat(st.waiting, [c], eid);
    case Append(i) => OutstandingWithout(st.waiting, i, eid);
    case _ =>
  }

  // The tokens reported for an execution since its current record was created.
  ghost function Since(cap: nat, actions: seq<Action>, eid: Eid): nat
    requires Schedule(cap, actions)
  {
    if actions == [] then 0
    else
      var before, a := actions[..|actions| - 1], actions[|actions| - 1];
      (if eid in Keys(After(cap, before).store) then Since(cap, before, eid) else 0) +
      (if a.Fill? && a.call.eid == eid then OrZero(a.call.tokens) else 0)
  }

  // The tokens that were between the two halves of their event when that record was created.
  ghost function Carried(cap: nat, actions: seq<Action>, eid: Eid): nat
    requires Schedule(cap, actions)
  {
    if actions == [] then 0
    else
      var before := actions[..|actions| - 1];
      if eid in Keys(After(cap, before).store) then Carried(cap, before, eid)
      else Outstanding(After(cap, before).waiting, eid)
  }

  // No token is lost or counted twice, whatever the schedule: what was booked since the record was
  // created and what is still waiting add up to what was reported since, and what was waiting then.
  lemma {:induction false} TokensAreConserved(cap: nat, actions: seq<Action>, eid: Eid)
    requires Schedule(cap, actions)
    ensures Earned(cap, actions, eid) + Outstanding(After(cap, actions).waiting, eid) ==
      Since(cap, actions, eid) + Carried(cap, actions, eid)
  {
    if actions != [] {
      var before, a := actions[..|actions| - 1], actions[|actions| - 1];
      TokensAreConserved(cap, before, eid);
      WaitingBalances(cap, After(cap, before), a, eid);
    }
  }

  // The total every stored run shows, whatever the schedule.
  lemma RunTotals(cap: nat, actions: seq<Action>, r: Record)
    requires Schedule(cap, actions) && r in After(cap, actions).store
    ensures Total(r.rows) + Outstanding(After(cap, actions).waiting, r.eid) ==
      Since(cap, actions, r.eid) + Carried(cap, actions, r.eid)
  {
    TotalsAreEarned(cap, actions, r);
    TokensAreConserved(cap, actions, r.eid);
  }

  // With no event of its own half-way, a run shows exactly the tokens reported since its record was
  // created, if and only if none was half-way when the record was created.
  lemma SettledTotals(cap: nat, actions: seq<Action>, r: Record)
    requires Schedule(cap, actions) && r in After(cap, actions).store
    requires forall c :: c in After(cap, actions).waiting ==> c.eid != r.eid
    ensures Total(r.rows) == Since(cap, actions, r.eid) <==> Carried(cap, actions, r.eid) == 0
  {
    RunTotals(cap, actions, r);
    NothingOutstanding(After(cap, actions).waiting, r.eid);
  }

  lemma {:induction false} NothingOutstanding(waiting: seq<Call>, eid: Eid)
    requires forall c :: c in waiting ==> c.eid != eid
    ensures Outstanding(waiting, eid) == 0
  {
    if waiting != [] {
      NothingOutstanding(waiting[1..], eid);
    }
  }

  // Read off the schedule: when action `n` created the record that is stored ever since, `Since` is
  // what was reported from that action on, and `Carried` what was waiting just before it.
  lemma {:induction false} SinceCreation(cap: nat, actions: seq<Action>, n: nat, eid: Eid)
    requires Schedule(cap, actions) && n < |actions| && StoredSince(cap, actions, n + 1, eid)
    requires Schedule(cap, actions[..n]) && !Has(After(cap, actions[..n]).store, eid)
    ensures Since(cap, actions, eid) == Reported(actions, eid) - Reported(actions[..n], eid)
    ensures Carried(cap, actions, eid) == Outstanding(After(cap, actions[..n]).waiting, eid)
    decreases |actions|
  {
    var before := actions[..|actions| - 1];
    HasIsKey(After(cap, before).store, eid);
    if n == |actions| - 1 {
      assert actions[..n] == before;
    } else {
      assert before[..n] == actions[..n];
      SinceCreation(cap, before, n, eid);
    }
  }

  // An event between its two halves outlives the record it looked at: the run shows 5 tokens
  // although none were reported since its record was created.
  lemma LateAppendIsCarried()
    ensures var actions := [Fill(Call("A", "m", Some(5), None)), Touch("B"), Append(0)];
      && Schedule(1, actions)
      && After(1, actions) == State([Record("A", [Row(0, ModelRow, "m", Some(5), None)], None, None)], [])
      && Since(1, actions, "A") == 0 && Carried(1, actions, "A") == 5
  {
    var c := Call("A", "m", Some(5), None);
    var a, b := Record("A", [], None, None), Record("B", [], None, None);
    var two := [Fill(c), Touch("B")];
    DroppedBetweenHalves(c, b);
    OneMore(1, two, Append(0), "A");
    assert two + [Append(0)] == [Fill(c), Touch("B"), Append(0)];
    Replaces(b, a, Append(0), Some(c));
    assert AddRow([], ModelRow, "m", Some(5), None) == [Row(0, ModelRow, "m", Some(5), None)];
    assert [c][..0] + [c][1..] == [];
    OnlyRecord(b);
  }

  // The first half of an event of an unknown execution opens its record and waits.
  lemma FirstHalf(c: Call)
    ensures Schedule(1, [Fill(c)]) && After(1, [Fill(c)]) == State([Record(c.eid, [], None, None)], [c])
  {
    var a := Record(c.eid, [], None, None);
    OneMore(1, [], Fill(c), c.eid);
    assert [] + [Fill(c)] == [Fill(c)] && [] + [a] == [a] && [] + [c] == [c];
    OnlyRecord(a);
  }

  lemma DroppedBetweenHalves(c: Call, b: Record)
    requires b == Record(b.eid, [], None, None) && c.eid != b.eid
    ensures var two := [Fill(c), Touch(b.eid)];
      && Schedule(1, two) && After(1, two) == State([b], [c])
      && Outstanding([c], c.eid) == OrZero(c.tokens)
  {
    FirstHalf(c);
    OneMore(1, [Fill(c)], Touch(b.eid), c.eid);
    assert [Fill(c)] + [Touch(b.eid)] == [Fill(c), Touch(b.eid)];
    Replaces(Record(c.eid, [], None, None), b, Touch(b.eid), None);
    assert [c][1..] == [];
  }

  lemma OneMore(cap: nat, actions: seq<Action>, a: Action, eid: Eid)
    requires Schedule(cap, actions) && Enabled(After(cap, actions), a)
    ensures Schedule(cap, actions + [a])
    ensures After(cap, actions + [a]) == Step(cap, After(cap, actions), a)
    ensures eid !in Keys(After(cap, actions).store) ==>
      && Since(cap, actions + [a], eid) == (if a.Fill? && a.call.eid == eid then OrZero(a.call.tokens) else 0)
      && Carried(cap, actions + [a], eid) == Outstanding(After(cap, actions).waiting, eid)
  {
    assert (actions + [a])[..|actions|] == actions;
  }

  lemma OnlyRecord(r: Record)
    ensures Keys([r]) == [r.eid] && IndexOf([r], r.eid) == Some(0)
  {
    assert [r][..0] == [];
  }

  // In a store of one record, the record of another execution takes its place.
  lemma Replaces(stored: Record, blank: Record, a: Action, appended: Option<Call>)
    requires blank == Record(blank.eid, [], None, None) && stored.eid != blank.eid
    ensures Write(1, [stored], blank.eid, a, appended) == [Update(blank, a, appended)]
  {
    OnlyRecord(stored);
    OnlyRecord(blank);
    assert LastN(1, [stored] + [blank]) == [blank];
  }

  // From its first action on, the record of the execution has always been in the store.
  ghost predicate NeverDropped(cap: nat, actions: seq<Action>, eid: Eid)
    requires Schedule(cap, actions)
  {
    actions == [] ||
    (NeverDropped(cap, actions[..|actions| - 1], eid) &&
     (eid in Eids(cap, actions) ==> eid in Keys(After(cap, actions).store)))
  }

  lemma {:induction false} UnseenHasNothing(cap: nat, actions: seq<Action>, eid: Eid)
    requires Schedule(cap, actions) && eid !in Eids(cap, actions)
    ensures Reported(actions, eid) == 0 && Outstanding(After(cap, actions).waiting, eid) == 0
  {
    if actions != [] {
      var before, a := actions[..|actions| - 1], actions[|actions| - 1];
      var ids := Eids(cap, actions);
      assert ids[|ids| - 1] == EidOf(After(cap, before), a);
      assert ids == Eids(cap, before) + [ids[|ids| - 1]];
      UnseenHasNothing(cap, before, eid);
      WaitingBalances(cap, After(cap, before), a, eid);
    }
  }

  // A run that was never dropped carries nothing: it shows what was reported in all, less what is
  // still waiting.
  lemma {:induction false} UndroppedCarriesNothing(cap: nat, actions: seq<Action>, eid: Eid)
    requires Schedule(cap, actions) && NeverDropped(cap, actions, eid)
    ensures Carried(cap, actions, eid) == 0 && Since(cap, actions, eid) == Reported(actions, eid)
  {
    if actions != [] {
      var before := actions[..|actions| - 1];
      UndroppedCarriesNothing(cap, before, eid);
      if eid !in Keys(After(cap, before).store) {
        NotSeenYet(cap, before, eid);
        UnseenHasNothing(cap, before, eid);
      }
    }
  }

  lemma NotSeenYet(cap: nat, actions: seq<Action>, eid: Eid)
    requires Schedule(cap, actions) && NeverDropped(cap, actions, eid)
    requires eid !in Keys(After(cap, actions).store)
    ensures eid !in Eids(cap, actions)
  {
    if actions == [] {
      assert Eids(cap, actions) == [];
    }
  }

  // Every run of a recorder that has seen no more executions than its capacity shows exactly the
  // tokens reported for it, once its own events are through.
  lemma FewExecutionsShowEverything(cap: nat, actions: seq<Action>, r: Record)
    requires cap > 0 && Schedule(cap, actions) && r in After(cap, actions).store
    requires |set x | x in Eids(cap, actions)| <= cap
    requires forall c :: c in After(cap, actions).waiting ==> c.eid != r.eid
    ensures Total(r.rows) == Reported(actions, r.eid)
  {
    FewExecutionsAreNeverDropped(cap, actions, r.eid);
    UndroppedCarriesNothing(cap, actions, r.eid);
    SettledTotals(cap, actions, r);
  }

  // A recorder that has seen no more executions than its capacity has dropped none.
  lemma {:induction false} FewExecutionsAreNeverDropped(cap: nat, actions: seq<Action>, eid: Eid)
    requires cap > 0 && Schedule(cap, actions)
    requires |set x | x in Eids(cap, actions)| <= cap
    ensures NeverDropped(cap, actions, eid)
  {
    if actions != [] {
      var before := actions[..|actions| - 1];
      var ids := Eids(cap, actions);
      assert ids[..|ids| - 1] == Eids(cap, before);
      SubsetCount(set x | x in Eids(cap, before), set x | x in ids);
      FewExecutionsAreNeverDropped(cap, before, eid);
      RunsAreTheLastCreated(cap, actions);
      if eid in ids {
        FewKeysStay(cap, ids, eid);
      }
    }
  }

  // ---------------------------------------------------------------------------
  // How a run ended

  // The error of an execution after an action, and its state: a reported error; at an end the state of the
  // context, unless that never left CREATED. Then a run with a reported error failed, and one without
  // completed.
  function ErrorAfter(a: Action, eid: Eid, error: Option<string>): Option<string> {
    if a.AgentError? && a.eid == eid then Some(a.message) else error
  }

  function StateAfter(a: Action, eid: Eid, error: Option<string>, state: Option<string>): Option<string> {
    if a.AgentEnd? && a.eid == eid then
      Some(if a.ctxState != "CREATED" then a.ctxState else if error.Some? then "FAILED" else "COMPLETED")
    else state
  }

  // The last error reported for an execution since its record was created.
  ghost function LastError(cap: nat, actions: seq<Action>, eid: Eid): Option<string>
    requires Schedule(cap, actions)
  {
    if actions == [] then None
    else
      var before := actions[..|actions| - 1];
      var stored := eid in Keys(After(cap, before).store);
      ErrorAfter(actions[|actions| - 1], eid, if stored then LastError(cap, before, eid) else None)
  }

  // The state its last end left since then.
  ghost function LastState(cap: nat, actions: seq<Action>, eid: Eid): Option<string>
    requires Schedule(cap, actions)
  {
    if actions == [] then None
    else
      var before := actions[..|actions| - 1];
      if eid in Keys(After(cap, before).store)
      then StateAfter(actions[|actions| - 1], eid, LastError(cap, before, eid), LastState(cap, before, eid))
      else StateAfter(actions[|actions| - 1], eid, None, None)
  }

  // `r` is what an action makes of the record `t` of its execution.
  predicate Follows(a: Action, t: Record, r: Record) {
    && t.eid == r.eid
    && r.error == ErrorAfter(a, r.eid, t.error) && r.state == StateAfter(a, r.eid, t.error, t.state)
  }

  lemma UpdateEnds(target: Record, a: Action, appended: Option<Call>)
    requires (a.AgentError? || a.AgentEnd?) ==> a.eid == target.eid
    ensures Follows(a, target, Update(target, a, appended))
  {}

  // One action reports an error or an end in its own execution, and nothing elsewhere.
  lemma StepEnds(cap: nat, st: State, a: Action, r: Record) returns (t: Record)
    requires Distinct(st.store) && Enabled(st, a) && r in Step(cap, st, a).store
    ensures Follows(a, t, r)
    ensures if Has(st.store, r.eid) then t in st.store else t == Record(r.eid, [], None, None)
  {
    var eid := EidOf(st, a);
    OneRecordChanges(cap, st.store, eid, a, Appended(st, a), r);
    TargetIs(cap, st.store, eid);
    t := if r.eid == eid then Target(cap, st.store, eid) else r;
    UpdateEnds(Target(cap, st.store, eid), a, Appended(st, a));
  }

  // Under every interleaving a stored run shows the error and the state that its own events report.
  lemma {:induction false} RunsEndAsReported(cap: nat, actions: seq<Action>, r: Record)
    requires Schedule(cap, actions) && r in After(cap, actions).store
    ensures r.error == LastError(cap, actions, r.eid) && r.state == LastState(cap, actions, r.eid)
  {
    var before, a := actions[..|actions| - 1], actions[|actions| - 1];
    var st := After(cap, before);
    RunsAreTheLastCreated(cap, before);
    DistinctFromKeys(st.store);
    HasIsKey(st.store, r.eid);
    var t := StepEnds(cap, st, a, r);
    if Has(st.store, r.eid) {
      RunsEndAsReported(cap, before, t);
    }
  }

  // No action behind the first `n` ends the execution.
  predicate NotEndedSince(actions: seq<Action>, n: nat, eid: Eid) {
    |actions| <= n ||
    (var a := actions[|actions| - 1];
     !(a.AgentEnd? && a.eid == eid) && NotEndedSince(actions[..|actions| - 1], n, eid))
  }

  lemma {:induction false} ErrorStays(cap: nat, actions: seq<Action>, m: nat, eid: Eid)
    requires Schedule(cap, actions) && m < |actions| && actions[m].AgentError? && actions[m].eid == eid
    requires StoredSince(cap, actions, m + 1, eid)
    ensures LastError(cap, actions, eid).Some?
    decreases |actions|
  {
    var before := actions[..|actions| - 1];
    if m < |before| {
      ErrorStays(cap, before, m, eid);
      HasIsKey(After(cap, before).store, eid);
      var _ := StoredSince(cap, before, m + 1, eid);
    }
  }

  lemma StoredBefore(cap: nat, actions: seq<Action>, n: nat, eid: Eid)
    requires Schedule(cap, actions) && n < |actions| && StoredSince(cap, actions, n, eid)
    ensures Schedule(cap, actions[..|actions| - 1]) && StoredSince(cap, actions[..|actions| - 1], n, eid)
    ensures eid in Keys(After(cap, actions[..|actions| - 1]).store)
  {
    HasIsKey(After(cap, actions[..|actions| - 1]).store, eid);
  }

  // While a run is stored, only its own end changes the state it shows.
  lemma StateStays(cap: nat, actions: seq<Action>, eid: Eid)
    requires actions != [] && Schedule(cap, actions) && eid in Keys(After(cap, actions[..|actions| - 1]).store)
    ensures var a := actions[|actions| - 1];
      LastState(cap, actions, eid) ==
        if a.AgentEnd? && a.eid == eid
        then Some(if a.ctxState != "CREATED" then a.ctxState
                  else if LastError(cap, actions[..|actions| - 1], eid).Some? then "FAILED" else "COMPLETED")
        else LastState(cap, actions[..|actions| - 1], eid)
  {}

  // Action `m` reports an error of the execution, whose record is stored ever since, and action `n` ends it
  // for the last time, in a context that never left CREATED.
  ghost predicate ErrorThenEnd(cap: nat, actions: seq<Action>, m: nat, n: nat, eid: Eid) {
    && Schedule(cap, actions) && m < n < |actions|
    && actions[n] == AgentEnd(eid, "CREATED") && NotEndedSince(actions, n + 1, eid)
    && actions[m].AgentError? && actions[m].eid == eid && StoredSince(cap, actions, m + 1, eid)
  }

  ghost predicate ShowsFailed(cap: nat, actions: seq<Action>, eid: Eid) {
    Schedule(cap, actions) && LastState(cap, actions, eid) == Some("FAILED")
  }

  lemma ErrorBefore(cap: nat, actions: seq<Action>, m: nat, eid: Eid)
    requires Schedule(cap, actions) && StoredSince(cap, actions, m + 1, eid)
    requires m < |actions| - 1 && actions[m].AgentError? && actions[m].eid == eid
    ensures Schedule(cap, actions[..|actions| - 1]) && LastError(cap, actions[..|actions| - 1], eid).Some?
    ensures eid in Keys(After(cap, actions[..|actions| - 1]).store)
  {
    var before := actions[..|actions| - 1];
    StoredBefore(cap, actions, m + 1, eid);
    assert before[m] == actions[m];
    ErrorStays(cap, before, m, eid);
  }

  lemma EndsFailed(cap: nat, actions: seq<Action>, m: nat, n: nat, eid: Eid)
    requires ErrorThenEnd(cap, actions, m, n, eid) && n == |actions| - 1
    ensures ShowsFailed(cap, actions, eid)
  {
    ErrorBefore(cap, actions, m, eid);
    StateStays(cap, actions, eid);
  }

  lemma ErrorThenEndBefore(cap: nat, actions: seq<Action>, m: nat, n: nat, eid: Eid)
    requires ErrorThenEnd(cap, actions, m, n, eid) && n < |actions| - 1
    ensures ErrorThenEnd(cap, actions[..|actions| - 1], m, n, eid)
  {
    var before := actions[..|actions| - 1];
    StoredBefore(cap, actions, m + 1, eid);
    assert before[m] == actions[m] && before[n] == actions[n];
  }

  lemma StaysFailed(cap: nat, actions: seq<Action>, m: nat, n: nat, eid: Eid)
    requires ErrorThenEnd(cap, actions, m, n, eid) && n < |actions| - 1
    requires ShowsFailed(cap, actions[..|actions| - 1], eid)
    ensures ShowsFailed(cap, actions, eid)
  {
    StoredBefore(cap, actions, m + 1, eid);
    StateStays(cap, actions, eid);
  }

  lemma {:induction false} FailureIsFinal(cap: nat, actions: seq<Action>, m: nat, n: nat, eid: Eid)
    requires ErrorThenEnd(cap, actions, m, n, eid)
    ensures ShowsFailed(cap, actions, eid)
    decreases |actions|
  {
    if n == |actions| - 1 {
      EndsFailed(cap, actions, m, n, eid);
    } else {
      ErrorThenEndBefore(cap, actions, m, n, eid);
      FailureIsFinal(cap, actions[..|actions| - 1], m, n, eid);
      StaysFailed(cap, actions, m, n, eid);
    }
  }

  // A run whose error was reported before its end shows FAILED when its context never left CREATED,
  // whatever other threads do in between and afterwards.
  lemma ReportedErrorsEndFailed(cap: nat, actions: seq<Action>, m: nat, n: nat, r: Record)
    requires ErrorThenEnd(cap, actions, m, n, r.eid) && r in After(cap, actions).store
    ensures r.state == Some("FAILED")
  {
    FailureIsFinal(cap, actions, m, n, r.eid);
    RunsEndAsReported(cap, actions, r);
  }

  // ---------------------------------------------------------------------------
  // The recorder of the source

  function CountKind(rows: seq<Row>, kind: Kind): nat {
    if rows == [] then 0
    else CountKind(rows[..|rows| - 1], kind) + if rows[|rows| - 1].kind == kind then 1 else 0
  }

  datatype Totals = Totals(nodes: nat, tools: nat, models: nat, tokens: nat, violations: nat)

  function TotalsOf(rows: seq<Row>): Totals {
    Totals(CountKind(rows, NodeRow), CountKind(rows, ToolRow), CountKind(rows, ModelRow), Total(rows),
           CountKind(rows, GuardrailRow))
  }

  // The rows of a kind.
  function OfKind(rows: seq<Row>, kind: Kind): set<nat> {
    set i: nat | i < |rows| && rows[i].kind == kind
  }

  lemma OfKindGrows(front: seq<Row>, row: Row, kind: Kind)
    ensures OfKind(front + [row], kind) == OfKind(front, kind) + if row.kind == kind then {|front|} else {}
  {
    var rows := front + [row];
    assert forall i: nat :: i < |front| ==> rows[i] == front[i];
    assert rows[|front|] == row;
  }

  lemma {:induction false} CountIsRows(rows: seq<Row>, kind: Kind)
    ensures CountKind(rows, kind) == |OfKind(rows, kind)|
  {
    if rows != [] {
      var front, last := rows[..|rows| - 1], rows[|rows| - 1];
      CountIsRows(front, kind);
      OfKindGrows(front, last, kind);
      assert rows == front + [last] && |front| !in OfKind(front, kind);
    }
  }

  // The totals of a run are the numbers of its node, tool, model and guardrail rows, and its tokens.
  lemma TotalsCountRows(rows: seq<Row>)
    ensures var t := TotalsOf(rows);
      && t.nodes == |OfKind(rows, NodeRow)| && t.tools == |OfKind(rows, ToolRow)|
      && t.models == |OfKind(rows, ModelRow)| && t.violations == |OfKind(rows, GuardrailRow)|
      && t.tokens == Total(rows)
  {
    CountIsRows(rows, NodeRow);
    CountIsRows(rows, ToolRow);
    CountIsRows(rows, ModelRow);
    CountIsRows(rows, GuardrailRow);
  }

  // The store after both halves of one ModelCalled event with nothing in between.
  function Called(cap: nat, store: Store, c: Call): Store {
    var filled := Write(cap, store, c.eid, Fill(c), None);
    if PendingIndex(Target(cap, store, c.eid).rows, c.model).Some? then filled
    else Write(cap, filled, c.eid, Append(0), Some(c))
  }

  // The rows an action leaves for its own execution, when the store has room for a record.
  lemma RowsOfTarget(cap: nat, store: Store, eid: Eid, a: Action, appended: Option<Call>)
    requires cap > 0 && |store| <= cap && Distinct(store)
    ensures var after := Write(cap, store, eid, a, appended);
      && |after| <= cap && Distinct(after) && Has(after, eid)
      && RowsOf(after, eid) == Update(Target(cap, store, eid), a, appended).rows
      && Target(cap, store, eid).rows == RowsOf(store, eid)
  {
    var runs, after := Open(cap, store, eid), Write(cap, store, eid, a, appended);
    OpenStaysDistinct(cap, store, eid);
    OpenHasRoom(cap, store, eid);
    var i := IndexOf(runs, eid);
    assert after[i.value] in after;
    var j := IndexOf(after, eid);
    assert j.Some? && after[j.value] in after;
    OneRecordChanges(cap, store, eid, a, appended, after[j.value]);
    HasIsKey(store, eid);
    TargetIs(cap, store, eid);
    if IndexOf(store, eid).Some? {
      assert store[IndexOf(store, eid).value] in store;
    }
  }

  lemma OpenHasRoom(cap: nat, store: Store, eid: Eid)
    requires cap > 0 && |store| <= cap
    ensures |Open(cap, store, eid)| <= cap && IndexOf(Open(cap, store, eid), eid).Some?
  {
    var runs := Open(cap, store, eid);
    HasIsKey(store, eid);
    if Has(store, eid) {
      var r :| r in store && r.eid == eid;
      assert r in runs;
    } else {
      assert runs[|runs| - 1].eid == eid;
    }
  }

  // Uninterrupted, a ModelCalled event adds exactly its tokens to its own run, in either half.
  lemma OneCallAddsItsTokens(cap: nat, store: Store, c: Call)
    requires cap > 0 && |store| <= cap && Distinct(store)
    ensures Total(RowsOf(Called(cap, store, c), c.eid)) == Total(RowsOf(store, c.eid)) + OrZero(c.tokens)
  {
    RowsOfTarget(cap, store, c.eid, Fill(c), None);
    UpdateBooks(Target(cap, store, c.eid), Fill(c), None);
    var filled := Write(cap, store, c.eid, Fill(c), None);
    RowsOfTarget(cap, filled, c.eid, Append(0), Some(c));
    UpdateBooks(Target(cap, filled, c.eid), Append(0), Some(c));
  }

  // Row `j` is the last of the model that has no count yet.
  predicate LastPendingAt(rows: seq<Row>, model: string, j: nat) {
    && j < |rows| && rows[j].kind == ModelRow && rows[j].name == model && rows[j].tokens == None
    && forall k :: j < k < |rows| ==> !(rows[k].kind == ModelRow && rows[k].name == model && rows[k].tokens == None)
  }

  // What an action makes of the rows of its execution: an addition or an append is a new last row; a fill
  // completes the last pending row of its model, and none if there is none; the others change no row.
  ghost predicate RowsFollow(rows: seq<Row>, a: Action, appended: Option<Call>, now: seq<Row>) {
    match a
    case Add(_, kind, name) => now == rows + [Row(|rows|, kind, name, None, None)]
    case Append(_) =>
      appended.Some? &&
      now == rows + [Row(|rows|, ModelRow, appended.value.model, appended.value.tokens, appended.value.cost)]
    case Fill(c) =>
      && (forall j: nat :: LastPendingAt(rows, c.model, j) ==>
            now == rows[j := Row(rows[j].seqNo, ModelRow, c.model, c.tokens, c.cost)])
      && ((forall j: nat :: !LastPendingAt(rows, c.model, j)) ==> now == rows)
    case _ => now == rows
  }

  lemma UpdateFollows(r: Record, a: Action, appended: Option<Call>)
    requires a.Append? ==> appended.Some?
    ensures RowsFollow(r.rows, a, appended, Update(r, a, appended).rows)
  {
    if a.Fill? {
      var j := PendingIndex(r.rows, a.call.model);
      if j.Some? {
        assert LastPendingAt(r.rows, a.call.model, j.value);
      }
    }
  }

  // Under every interleaving each action writes exactly its own row, in its own execution.
  lemma ActionsWriteTheirRows(cap: nat, actions: seq<Action>)
    requires cap > 0 && actions != [] && Schedule(cap, actions)
    ensures var st, a := After(cap, actions[..|actions| - 1]), actions[|actions| - 1];
      var eid := EidOf(st, a);
      RowsFollow(RowsOf(st.store, eid), a, if a.Append? then Some(st.waiting[a.i]) else None,
                 RowsOf(After(cap, actions).store, eid))
  {
    var before, a := actions[..|actions| - 1], actions[|actions| - 1];
    var st := After(cap, before);
    RunsAreTheLastCreated(cap, before);
    DistinctFromKeys(st.store);
    RowsOfTarget(cap, st.store, EidOf(st, a), a, Appended(st, a));
    UpdateFollows(Target(cap, st.store, EidOf(st, a)), a, Appended(st, a));
  }

  class ExecutionRecorder {
    const capacity: nat
    var runs: Store

    ghost predicate Valid()
      reads this
    {
      |runs| <= capacity && Distinct(runs)
    }

    constructor (capacity: nat)
      ensures Valid() && this.capacity == capacity && runs == []
    {
      this.capacity, runs := capacity, [];
    }

    // The index of the record of an execution, created if need be; None if it was dropped at once.
    method Run(eid: Eid) returns (i: Option<nat>)
      requires Valid()
      modifies this
      ensures Valid() && runs == Open(capacity, old(runs), eid) && i == IndexOf(runs, eid)
    {
      OpenStaysDistinct(capacity, runs, eid);
      HasIsKey(runs, eid);
      i := IndexOf(runs, eid);
      if i.Some? {
        assert runs[i.value] in runs;
        return;
      }
      var more := runs + [Record(eid, [], None, None)];
      runs := more;
      while |runs| > capacity
        invariant |runs| <= |more| && runs == more[|more| - |runs|..]
        invariant |runs| < capacity ==> runs == more
      {
        runs := runs[1..];
      }
      assert runs == LastN(capacity, more);
      i := IndexOf(runs, eid);
    }

    // One locked action; an action without an execution does nothing.
    method Do(ctx: Option<Eid>, a: Action, appended: Option<Call>)
      requires Valid()
      modifies this
      ensures Valid()
      ensures runs == if ctx.Some? then Write(capacity, old(runs), ctx.value, a, appended) else old(runs)
    {
      if ctx.None? {
        return;
      }
      var i := Run(ctx.value);
      if i.Some? {
        runs := runs[i.value := Update(runs[i.value], a, appended)];
      }
    }

    // The first half of a ModelCalled event: looks for a pending row from the end.
    method FillPending(c: Call) returns (done: bool)
      requires Valid()
      modifies this
      ensures Valid()
      ensures runs == Write(capacity, old(runs), c.eid, Fill(c), None)
      ensures done <==> PendingIndex(Target(capacity, old(runs), c.eid).rows, c.model).Some?
    {
      var i := Run(c.eid);
      if i.None? {
        return false;
      }
      var rows := runs[i.value].rows;
      var j := |rows|;
      while j > 0
        invariant 0 <= j <= |rows|
        invariant forall k :: j <= k < |rows| ==> !IsPending(rows[k], c.model)
      {
        j := j - 1;
        if IsPending(rows[j], c.model) {
          LastPending(rows, c.model, j);
          rows := rows[j := rows[j].(tokens := c.tokens, cost := c.cost)];
          runs := runs[i.value := runs[i.value].(rows := rows)];
          return true;
        }
      }
      assert PendingIndex(rows, c.model).None?;
      assert runs[i.value := runs[i.value]] == runs;
      done := false;
    }

    method OnModelCalled(c: Call)
      requires Valid()
      modifies this
      ensures Valid() && runs == Called(capacity, old(runs), c)
      ensures capacity > 0 ==> Total(RowsOf(runs, c.eid)) == Total(RowsOf(old(runs), c.eid)) + OrZero(c.tokens)
    {
      if capacity > 0 {
        OneCallAddsItsTokens(capacity, runs, c);
      }
      var done := FillPending(c);
      if !done {
        Do(Some(c.eid), Append(0), Some(c));
      }
    }

    method Get(eid: Eid) returns (r: Option<(Record, Totals)>)
      ensures r.None? <==> !Has(runs, eid)
      ensures r.Some? ==> r.value.0 in runs && r.value.0.eid == eid && r.value.1 == TotalsOf(r.value.0.rows)
    {
      var i := IndexOf(runs, eid);
      if i.None? {
        return None;
      }
      assert runs[i.value] in runs;
      var rows := runs[i.value].rows;
      var t := Totals(0, 0, 0, 0, 0);
      for k := 0 to |rows|
        invariant t == TotalsOf(rows[..k])
      {
        var row := rows[k];
        assert rows[..k + 1][..k] == rows[..k];
        match row.kind
        case NodeRow => t := t.(nodes := t.nodes + 1);
        case ToolRow => t := t.(tools := t.tools + 1);
        case ModelRow => t := t.(models := t.models + 1, tokens := t.tokens + OrZero(row.tokens));
        case GuardrailRow => t := t.(violations := t.violations + 1);
        case ApprovalRow =>
      }
      assert rows[..|rows|] == rows;
      r := Some((runs[i.value], t));
    }
  }

  lemma LastPending(rows: seq<Row>, model: string, j: nat)
    requires j < |rows| && IsPending(rows[j], model)
    requires forall k :: j < k < |rows| ==> !IsPending(rows[k], model)
    ensures PendingIndex(rows, model) == Some(j)
  {}
}
