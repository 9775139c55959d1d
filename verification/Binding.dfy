/**
  Leaf binding: a policy on strings is applied to the visited string leaves of a
  nested value, and everything else of the value is kept.

  A "messages" list is special: only its tail is visited, which is the last
  message, or the whole trailing run of tool messages.
 */
module Binding {
  import opened Basics
  import opened Wrappers

  datatype Value =
    | Str(s: string)
    | Dict(entries: seq<(string, Value)>)
    | List(items: seq<Value>)
    | Tuple(items: seq<Value>)
    | Msg(kind: string, id: Option<string>, content: Value)
    | Plain(data: string)   // None, numbers, booleans
    | Opaque(repr: string)  // any other object, seen through str()

  datatype Error = Blocked(guard: string) | CannotSubstitute(repr: string)

  type Policy = string -> Result<string, Error>

  const MESSAGES := "messages"
  const TOOL := "tool"

  // The role of a message: the "role" entry of a dict, the type of a message object.
  function Role(m: Value): Option<Value> {
    match m
    case Dict(entries) => Get(entries, "role")
    case Msg(kind, _, _) => Some(Str(kind))
    case _ => None
  }

  predicate IsTool(m: Value) {
    Role(m) == Some(Str(TOOL))
  }

  function RunStart(msgs: seq<Value>, i: nat): (start: nat)
    requires i < |msgs|
    ensures start <= i
  {
    if i > 0 && IsTool(msgs[i]) && IsTool(msgs[i - 1]) then RunStart(msgs, i - 1) else i
  }

  // Where the visited tail of a non-empty message list starts.
  function TailStart(msgs: seq<Value>): (start: nat)
    requires msgs != []
    ensures start < |msgs|
  {
    RunStart(msgs, |msgs| - 1)
  }

  // A message with the role of tool results: a message object of that type, or a dict whose "role" says so.
  ghost predicate ToolMessage(m: Value) {
    (m.Msg? && m.kind == "tool") || (m.Dict? && exists k: nat :: FirstEntry(m.entries, "role", Str("tool"), k))
  }

  // Entry `k` is the first with its key, and has the value `x`.
  predicate FirstEntry(entries: seq<(string, Value)>, key: string, x: Value, k: nat) {
    k < |entries| && entries[k] == (key, x) && forall j :: 0 <= j < k ==> entries[j].0 != key
  }

  lemma {:induction false} GetIsFirst(entries: seq<(string, Value)>, key: string, x: Value)
    ensures Get(entries, key) == Some(x) <==> exists k: nat :: FirstEntry(entries, key, x, k)
  {
    if entries != [] {
      var rest := entries[1..];
      GetIsFirst(rest, key, x);
      assert forall j :: 0 < j < |entries| ==> entries[j] == rest[j - 1];
      assert FirstEntry(entries, key, x, 0) <==> entries[0] == (key, x);
      if entries[0].0 != key {
        forall k: nat
          ensures k > 0 ==> (FirstEntry(entries, key, x, k) <==> FirstEntry(rest, key, x, k - 1))
        {}
        if Get(rest, key) == Some(x) {
          var k: nat :| FirstEntry(rest, key, x, k);
          assert FirstEntry(entries, key, x, k + 1);
        }
      }
    }
  }

  lemma IsToolIff(m: Value)
    ensures IsTool(m) <==> ToolMessage(m)
  {
    if m.Dict? {
      GetIsFirst(m.entries, "role", Str(TOOL));
    }
  }

  lemma {:induction false} RunStartIs(msgs: seq<Value>, i: nat)
    requires i < |msgs|
    ensures var start := RunStart(msgs, i);
      && (start < i ==> forall k :: start <= k <= i ==> ToolMessage(msgs[k]))
      && (start > 0 ==> !(ToolMessage(msgs[start - 1]) && ToolMessage(msgs[start])))
  {
    IsToolIff(msgs[i]);
    if i > 0 {
      IsToolIff(msgs[i - 1]);
      if IsTool(msgs[i]) && IsTool(msgs[i - 1]) {
        RunStartIs(msgs, i - 1);
      }
    }
  }

  // The visited tail is the last message alone, or the longest run of tool messages at the end.
  lemma TailIs(msgs: seq<Value>, start: nat)
    requires start < |msgs|
    ensures start == TailStart(msgs) <==>
      && (start < |msgs| - 1 ==> forall k :: start <= k < |msgs| ==> ToolMessage(msgs[k]))
      && (start > 0 ==> !(ToolMessage(msgs[start - 1]) && ToolMessage(msgs[start])))
  {
    RunStartIs(msgs, |msgs| - 1);
  }

  predicate IsMessageList(k: string, x: Value) {
    k == MESSAGES && x.List? && x.items != []
  }

  function Bind(v: Value, f: Policy): Result<Value, Error>
    decreases v, 1
  {
    match v
    case Str(s) => var t :- f(s); Ok(Str(t))
    case Dict(entries) => var bound :- BindEntries(entries, f); Ok(Dict(bound))
    case List(items) => var bound :- BindAll(items, f); Ok(List(bound))
    case Tuple(items) => var bound :- BindAll(items, f); Ok(Tuple(bound))
    case Msg(kind, id, content) => var c :- Bind(content, f); Ok(Msg(kind, id, c))
    case Plain(_) => Ok(v)
    case Opaque(repr) => var t :- f(repr); if t == repr then Ok(v) else Err(CannotSubstitute(repr))
  }

  function BindAll(items: seq<Value>, f: Policy): (r: Result<seq<Value>, Error>)
    ensures r.Ok? ==> |r.value| == |items|
    decreases items, 0
  {
    if items == [] then Ok([])
    else
      var first :- Bind(items[0], f);
      var rest :- BindAll(items[1..], f);
      Ok([first] + rest)
  }

  function BindEntries(entries: seq<(string, Value)>, f: Policy): (r: Result<seq<(string, Value)>, Error>)
    ensures r.Ok? ==> |r.value| == |entries|
    decreases entries, 0
  {
    if entries == [] then Ok([])
    else
      var first :- BindEntry(entries[0], f);
      var rest :- BindEntries(entries[1..], f);
      Ok([(entries[0].0, first)] + rest)
  }

  function BindEntry(e: (string, Value), f: Policy): Result<Value, Error>
    decreases e
  {
    var (k, x) := e;
    if IsMessageList(k, x) then
      var i := TailStart(x.items);
      var tail :- BindAll(x.items[i..], f);
      Ok(List(x.items[..i] + tail))
    else Bind(x, f)
  }

  // ---------------------------------------------------------------------------
  // What is visited

  datatype Leaf = Text(s: string) | OpaqueText(s: string)

  function Leaves(v: Value): seq<Leaf>
    decreases v, 1
  {
    match v
    case Str(s) => [Text(s)]
    case Dict(entries) => EntryLeaves(entries)
    case List(items) => AllLeaves(items)
    case Tuple(items) => AllLeaves(items)
    case Msg(_, _, content) => Leaves(content)
    case Plain(_) => []
    case Opaque(repr) => [OpaqueText(repr)]
  }

  function AllLeaves(items: seq<Value>): seq<Leaf>
    decreases items, 0
  {
    if items == [] then [] else Leaves(items[0]) + AllLeaves(items[1..])
  }

  function EntryLeaves(entries: seq<(string, Value)>): seq<Leaf>
    decreases entries, 0
  {
    if entries == [] then [] else LeavesOfEntry(entries[0]) + EntryLeaves(entries[1..])
  }

  function LeavesOfEntry(e: (string, Value)): seq<Leaf>
    decreases e
  {
    var (k, x) := e;
    if IsMessageList(k, x) then AllLeaves(x.items[TailStart(x.items)..]) else Leaves(x)
  }

  // The policy lets a leaf through: any text it answers, and opaque objects it leaves alone.
  predicate Passes(f: Policy, leaf: Leaf) {
    match leaf
    case Text(s) => f(s).Ok?
    case OpaqueText(s) => f(s) == Ok(s)
  }

  predicate AllPass(f: Policy, leaves: seq<Leaf>) {
    forall l | l in leaves :: Passes(f, l)
  }

  predicate AllFixed(f: Policy, leaves: seq<Leaf>) {
    forall l | l in leaves :: f(l.s) == Ok(l.s)
  }

  // Bind succeeds exactly when every visited leaf passes, and returns the value unchanged
  // exactly when the policy fixes every visited leaf.
  lemma {:induction false} BindSucceedsIff(v: Value, f: Policy)
    ensures Bind(v, f).Ok? <==> AllPass(f, Leaves(v))
    ensures Bind(v, f) == Ok(v) <==> AllFixed(f, Leaves(v))
    decreases v, 1
  {
    match v
    case Dict(entries) => EntriesSucceedIff(entries, f);
    case List(items) => AllSucceedIff(items, f);
    case Tuple(items) => AllSucceedIff(items, f);
    case Msg(_, _, content) => BindSucceedsIff(content, f);
    case Str(s) => assert Text(s) in Leaves(v);
    case Opaque(s) => assert OpaqueText(s) in Leaves(v);
    case Plain(_) =>
  }

  lemma {:induction false} AllSucceedIff(items: seq<Value>, f: Policy)
    ensures BindAll(items, f).Ok? <==> AllPass(f, AllLeaves(items))
    ensures BindAll(items, f) == Ok(items) <==> AllFixed(f, AllLeaves(items))
    decreases items, 0
  {
    if items != [] {
      BindSucceedsIff(items[0], f);
      AllSucceedIff(items[1..], f);
      assert items == [items[0]] + items[1..];
    }
  }

  lemma {:induction false} EntriesSucceedIff(entries: seq<(string, Value)>, f: Policy)
    ensures BindEntries(entries, f).Ok? <==> AllPass(f, EntryLeaves(entries))
    ensures BindEntries(entries, f) == Ok(entries) <==> AllFixed(f, EntryLeaves(entries))
    decreases entries, 0
  {
    if entries != [] {
      EntrySucceedsIff(entries[0], f);
      EntriesSucceedIff(entries[1..], f);
      assert entries == [entries[0]] + entries[1..];
    }
  }

  lemma {:induction false} EntrySucceedsIff(e: (string, Value), f: Policy)
    ensures BindEntry(e, f).Ok? <==> AllPass(f, LeavesOfEntry(e))
    ensures BindEntry(e, f) == Ok(e.1) <==> AllFixed(f, LeavesOfEntry(e))
    decreases e
  {
    var (k, x) := e;
    if IsMessageList(k, x) {
      var i := TailStart(x.items);
      AllSucceedIff(x.items[i..], f);
      assert x.items == x.items[..i] + x.items[i..];
      if BindEntry(e, f) == Ok(x) {
        var tail := BindAll(x.items[i..], f).value;
        assert (x.items[..i] + tail)[i..] == tail;
      }
    } else {
      BindSucceedsIff(x, f);
    }
  }

  // ---------------------------------------------------------------------------
  // Which error is raised

  // The error of one leaf: that of the policy, or that an opaque object cannot be substituted.
  function LeafError(f: Policy, leaf: Leaf): Option<Error> {
    if f(leaf.s).Err? then Some(f(leaf.s).error)
    else if leaf.OpaqueText? && f(leaf.s).value != leaf.s then Some(CannotSubstitute(leaf.s))
    else None
  }

  function FirstError(f: Policy, leaves: seq<Leaf>): Option<Error> {
    if leaves == [] then None
    else if LeafError(f, leaves[0]).Some? then LeafError(f, leaves[0])
    else FirstError(f, leaves[1..])
  }

  function ErrorOf<T>(r: Result<T, Error>): Option<Error> {
    if r.Ok? then None else Some(r.error)
  }

  lemma {:induction false} FirstErrorConcat(f: Policy, a: seq<Leaf>, b: seq<Leaf>)
    ensures FirstError(f, a + b) == if FirstError(f, a).Some? then FirstError(f, a) else FirstError(f, b)
  {
    if a == [] {
      assert a + b == b;
    } else {
      assert (a + b)[0] == a[0] && (a + b)[1..] == a[1..] + b;
      FirstErrorConcat(f, a[1..], b);
    }
  }

  // Binding raises the error of the first visited leaf that has one, in the order of the value.
  lemma {:induction false} BindRaisesTheFirst(v: Value, f: Policy)
    ensures ErrorOf(Bind(v, f)) == FirstError(f, Leaves(v))
    decreases v, 1
  {
    match v
    case Dict(entries) => EntriesRaiseTheFirst(entries, f);
    case List(items) => AllRaiseTheFirst(items, f);
    case Tuple(items) => AllRaiseTheFirst(items, f);
    case Msg(_, _, content) => BindRaisesTheFirst(content, f);
    case _ =>
  }

  lemma {:induction false} AllRaiseTheFirst(items: seq<Value>, f: Policy)
    ensures ErrorOf(BindAll(items, f)) == FirstError(f, AllLeaves(items))
    decreases items, 0
  {
    if items != [] {
      BindRaisesTheFirst(items[0], f);
      AllRaiseTheFirst(items[1..], f);
      FirstErrorConcat(f, Leaves(items[0]), AllLeaves(items[1..]));
    }
  }

  lemma {:induction false} EntriesRaiseTheFirst(entries: seq<(string, Value)>, f: Policy)
    ensures ErrorOf(BindEntries(entries, f)) == FirstError(f, EntryLeaves(entries))
    decreases entries, 0
  {
    if entries != [] {
      EntryRaisesTheFirst(entries[0], f);
      EntriesRaiseTheFirst(entries[1..], f);
      FirstErrorConcat(f, LeavesOfEntry(entries[0]), EntryLeaves(entries[1..]));
    }
  }

  lemma {:induction false} EntryRaisesTheFirst(e: (string, Value), f: Policy)
    ensures ErrorOf(BindEntry(e, f)) == FirstError(f, LeavesOfEntry(e))
    decreases e
  {
    var (k, x) := e;
    if IsMessageList(k, x) {
      AllRaiseTheFirst(x.items[TailStart(x.items)..], f);
    } else {
      BindRaisesTheFirst(x, f);
    }
  }

  // ---------------------------------------------------------------------------
  // What is kept

  // `r` has the structure of `v`: constructors, keys, lengths, message ids and types, opaque
  // and plain values, and every message before the visited tail.
  ghost predicate SameShape(v: Value, r: Value)
    decreases v, 1
  {
    match v
    case Str(_) => r.Str?
    case Dict(entries) => r.Dict? && SameEntries(entries, r.entries)
    case List(items) => r.List? && SameAll(items, r.items)
    case Tuple(items) => r.Tuple? && SameAll(items, r.items)
    case Msg(kind, id, content) => r.Msg? && r.kind == kind && r.id == id && SameShape(content, r.content)
    case Plain(_) => r == v
    case Opaque(_) => r == v
  }

  ghost predicate SameAll(items: seq<Value>, rs: seq<Value>)
    decreases items, 0
  {
    && |items| == |rs|
    && (items != [] ==> SameShape(items[0], rs[0]) && SameAll(items[1..], rs[1..]))
  }

  ghost predicate SameEntries(entries: seq<(string, Value)>, rs: seq<(string, Value)>)
    decreases entries, 0
  {
    && |entries| == |rs|
    && (entries != [] ==>
      rs[0].0 == entries[0].0 && SameEntry(entries[0], rs[0].1) && SameEntries(entries[1..], rs[1..]))
  }

  ghost predicate SameEntry(e: (string, Value), r: Value)
    decreases e
  {
    var (k, x) := e;
    if IsMessageList(k, x) then
      var i := TailStart(x.items);
      r.List? && |r.items| == |x.items| && r.items[..i] == x.items[..i] && SameAll(x.items[i..], r.items[i..])
    else SameShape(x, r)
  }

  lemma {:induction false} BindKeepsShape(v: Value, f: Policy)
    requires Bind(v, f).Ok?
    ensures SameShape(v, Bind(v, f).value)
    decreases v, 1
  {
    match v
    case Dict(entries) => EntriesKeepShape(entries, f);
    case List(items) => AllKeepShape(items, f);
    case Tuple(items) => AllKeepShape(items, f);
    case Msg(_, _, content) => BindKeepsShape(content, f);
    case _ =>
  }

  lemma {:induction false} AllKeepShape(items: seq<Value>, f: Policy)
    requires BindAll(items, f).Ok?
    ensures SameAll(items, BindAll(items, f).value)
    decreases items, 0
  {
    if items != [] {
      BindKeepsShape(items[0], f);
      AllKeepShape(items[1..], f);
    }
  }

  lemma {:induction false} EntriesKeepShape(entries: seq<(string, Value)>, f: Policy)
    requires BindEntries(entries, f).Ok?
    ensures SameEntries(entries, BindEntries(entries, f).value)
    decreases entries, 0
  {
    if entries != [] {
      EntryKeepsShape(entries[0], f);
      EntriesKeepShape(entries[1..], f);
    }
  }

  lemma {:induction false} EntryKeepsShape(e: (string, Value), f: Policy)
    requires BindEntry(e, f).Ok?
    ensures SameEntry(e, BindEntry(e, f).value)
    decreases e
  {
    var (k, x) := e;
    if IsMessageList(k, x) {
      var i := TailStart(x.items);
      AllKeepShape(x.items[i..], f);
      var tail := BindAll(x.items[i..], f).value;
      assert (x.items[..i] + tail)[..i] == x.items[..i] && (x.items[..i] + tail)[i..] == tail;
    } else {
      BindKeepsShape(x, f);
    }
  }

  // ---------------------------------------------------------------------------
  // The visited leaves of the result

  function MapLeaves(f: Policy, leaves: seq<Leaf>): (r: seq<Leaf>)
    ensures |r| == |leaves|
  {
    if leaves == [] then []
    else
      [if leaves[0].Text? && f(leaves[0].s).Ok? then Text(f(leaves[0].s).value) else leaves[0]] +
      MapLeaves(f, leaves[1..])
  }

  lemma {:induction false} MapLeavesConcat(f: Policy, a: seq<Leaf>, b: seq<Leaf>)
    ensures MapLeaves(f, a + b) == MapLeaves(f, a) + MapLeaves(f, b)
  {
    if a == [] {
      assert a + b == b;
    } else {
      assert (a + b)[1..] == a[1..] + b;
      MapLeavesConcat(f, a[1..], b);
    }
  }

  // The policy neither makes nor unmakes the role string "tool".
  ghost predicate ToolStable(f: Policy) {
    forall s :: f(s).Ok? ==> (f(s).value == TOOL <==> s == TOOL)
  }

  // Message lists hold message objects, whose type is never visited, and no dict-shaped messages.
  ghost predicate ObjectMessages(v: Value) {
    match v
    case Dict(entries) =>
      forall i | 0 <= i < |entries| ::
        && ObjectMessages(entries[i].1)
        && (IsMessageList(entries[i].0, entries[i].1) ==>
              forall j | 0 <= j < |entries[i].1.items| :: !entries[i].1.items[j].Dict?)
    case List(items) => forall i | 0 <= i < |items| :: ObjectMessages(items[i])
    case Tuple(items) => forall i | 0 <= i < |items| :: ObjectMessages(items[i])
    case Msg(_, _, content) => ObjectMessages(content)
    case _ => true
  }

  ghost predicate AllObject(items: seq<Value>) {
    forall i | 0 <= i < |items| :: ObjectMessages(items[i])
  }

  ghost predicate ObjectEntry(e: (string, Value)) {
    && ObjectMessages(e.1)
    && (IsMessageList(e.0, e.1) ==> forall j | 0 <= j < |e.1.items| :: !e.1.items[j].Dict?)
  }

  ghost predicate ObjectEntries(entries: seq<(string, Value)>) {
    forall i | 0 <= i < |entries| :: ObjectEntry(entries[i])
  }

  lemma {:induction false} BindAllAt(items: seq<Value>, f: Policy, k: nat)
    requires BindAll(items, f).Ok? && k < |items|
    ensures Bind(items[k], f) == Ok(BindAll(items, f).value[k])
  {
    if k > 0 {
      BindAllAt(items[1..], f, k - 1);
    }
  }

  lemma {:induction false} BoundRole(entries: seq<(string, Value)>, f: Policy)
    requires BindEntries(entries, f).Ok?
    ensures match Get(entries, "role")
      case None => Get(BindEntries(entries, f).value, "role") == None
      case Some(x) => Bind(x, f).Ok? && Get(BindEntries(entries, f).value, "role") == Some(Bind(x, f).value)
  {
    if entries != [] {
      var bound := BindEntries(entries, f).value;
      assert bound[1..] == BindEntries(entries[1..], f).value;
      BoundRole(entries[1..], f);
    }
  }

  lemma RoleIsKept(m: Value, f: Policy)
    requires Bind(m, f).Ok? && (ToolStable(f) || !m.Dict?)
    ensures IsTool(Bind(m, f).value) <==> IsTool(m)
  {
    if m.Dict? {
      BoundRole(m.entries, f);
    }
  }

  lemma {:induction false} RunStartDependsOnRoles(a: seq<Value>, b: seq<Value>, i: nat)
    requires |a| == |b| && i < |a|
    requires forall k | 0 <= k < |a| :: IsTool(a[k]) <==> IsTool(b[k])
    ensures RunStart(a, i) == RunStart(b, i)
  {
    if i > 0 && IsTool(a[i]) && IsTool(a[i - 1]) {
      RunStartDependsOnRoles(a, b, i - 1);
    }
  }

  // Binding the tail does not move where the tail starts.
  lemma TailIsKept(items: seq<Value>, f: Policy)
    requires items != [] && BindAll(items[TailStart(items)..], f).Ok?
    requires ToolStable(f) || forall j | 0 <= j < |items| :: !items[j].Dict?
    ensures var i := TailStart(items);
      var bound := items[..i] + BindAll(items[i..], f).value;
      && |bound| == |items| && TailStart(bound) == i
      && bound[..i] == items[..i] && bound[i..] == BindAll(items[i..], f).value
  {
    var i := TailStart(items);
    var tail := BindAll(items[i..], f).value;
    var bound := items[..i] + tail;
    forall k | 0 <= k < |items|
      ensures IsTool(bound[k]) <==> IsTool(items[k])
    {
      if k >= i {
        BindAllAt(items[i..], f, k - i);
        RoleIsKept(items[k], f);
      }
    }
    RunStartDependsOnRoles(items, bound, |items| - 1);
    assert bound[..i] == items[..i] && bound[i..] == tail;
  }

  // The visited leaves of the bound value are the policy mapped over the visited leaves.
  lemma {:induction false} LeavesAreMapped(v: Value, f: Policy)
    requires Bind(v, f).Ok? && (ToolStable(f) || ObjectMessages(v))
    ensures Leaves(Bind(v, f).value) == MapLeaves(f, Leaves(v))
    decreases v, 1
  {
    match v
    case Dict(entries) => EntryLeavesAreMapped(entries, f);
    case List(items) => AllLeavesAreMapped(items, f);
    case Tuple(items) => AllLeavesAreMapped(items, f);
    case Msg(_, _, content) => LeavesAreMapped(content, f);
    case _ =>
  }

  lemma {:induction false} AllLeavesAreMapped(items: seq<Value>, f: Policy)
    requires BindAll(items, f).Ok? && (ToolStable(f) || AllObject(items))
    ensures AllLeaves(BindAll(items, f).value) == MapLeaves(f, AllLeaves(items))
    decreases items, 0
  {
    if items != [] {
      LeavesAreMapped(items[0], f);
      AllLeavesAreMapped(items[1..], f);
      assert BindAll(items, f).value[1..] == BindAll(items[1..], f).value;
      MapLeavesConcat(f, Leaves(items[0]), AllLeaves(items[1..]));
    }
  }

  lemma {:induction false} EntryLeavesAreMapped(entries: seq<(string, Value)>, f: Policy)
    requires BindEntries(entries, f).Ok? && (ToolStable(f) || ObjectEntries(entries))
    ensures EntryLeaves(BindEntries(entries, f).value) == MapLeaves(f, EntryLeaves(entries))
    decreases entries, 0
  {
    if entries != [] {
      LeavesOfEntryAreMapped(entries[0], f);
      EntryLeavesAreMapped(entries[1..], f);
      var bound := BindEntries(entries, f).value;
      assert bound[1..] == BindEntries(entries[1..], f).value;
      assert bound[0] == (entries[0].0, BindEntry(entries[0], f).value);
      MapLeavesConcat(f, LeavesOfEntry(entries[0]), EntryLeaves(entries[1..]));
    }
  }

  lemma {:induction false} LeavesOfEntryAreMapped(e: (string, Value), f: Policy)
    requires BindEntry(e, f).Ok? && (ToolStable(f) || ObjectEntry(e))
    ensures LeavesOfEntry((e.0, BindEntry(e, f).value)) == MapLeaves(f, LeavesOfEntry(e))
    decreases e
  {
    var (k, x) := e;
    if IsMessageList(k, x) {
      var i := TailStart(x.items);
      TailIsKept(x.items, f);
      assert ToolStable(f) || AllObject(x.items[i..]);
      AllLeavesAreMapped(x.items[i..], f);
    } else {
      LeavesAreMapped(x, f);
      NotMessageListAfter(k, x, f);
    }
  }

  lemma NotMessageListAfter(k: string, x: Value, f: Policy)
    requires !IsMessageList(k, x) && Bind(x, f).Ok?
    ensures !IsMessageList(k, Bind(x, f).value)
  {}

  ghost predicate MapsLeaves(f: Policy) {
    forall v :: Bind(v, f).Ok? ==> Leaves(Bind(v, f).value) == MapLeaves(f, Leaves(v))
  }

  function RoleDict(role: string): Value {
    Dict([("role", Str(role))])
  }

  lemma OneEntry(e: (string, Value), f: Policy)
    ensures EntryLeaves([e]) == LeavesOfEntry(e)
    ensures BindEntry(e, f).Ok? ==> BindEntries([e], f) == Ok([(e.0, BindEntry(e, f).value)])
  {
    var rest := [e][1..];
    assert rest == [];
    assert BindEntries(rest, f) == Ok([]) && EntryLeaves(rest) == [];
    assert LeavesOfEntry(e) + [] == LeavesOfEntry(e);
    if BindEntry(e, f).Ok? {
      var one := [(e.0, BindEntry(e, f).value)];
      assert BindEntries([e], f) == Ok(one + []);
      assert one + [] == one;
    }
  }

  lemma OneItem(x: Value, f: Policy)
    ensures AllLeaves([x]) == Leaves(x)
    ensures Bind(x, f).Ok? ==> BindAll([x], f) == Ok([Bind(x, f).value])
  {
    var rest := [x][1..];
    assert rest == [];
    assert BindAll(rest, f) == Ok([]) && AllLeaves(rest) == [];
    assert Leaves(x) + [] == Leaves(x);
    if Bind(x, f).Ok? {
      var one := [Bind(x, f).value];
      assert BindAll([x], f) == Ok(one + []);
      assert one + [] == one;
    }
  }

  lemma RoleDictBound(role: string, f: Policy)
    ensures Leaves(RoleDict(role)) == [Text(role)]
    ensures f(role).Ok? ==> Bind(RoleDict(role), f) == Ok(RoleDict(f(role).value))
  {
    var e := ("role", Str(role));
    assert f(role).Ok? ==> BindEntry(e, f) == Ok(Str(f(role).value));
    OneEntry(e, f);
  }

  function TwoMessages(a: string, b: string): Value {
    Dict([(MESSAGES, List([RoleDict(a), RoleDict(b)]))])
  }

  // With two dict-shaped messages, the roles decide which of them are visited.
  lemma TwoMessagesLeaves(a: string, b: string, f: Policy)
    ensures Leaves(TwoMessages(a, b)) == if a == TOOL && b == TOOL then [Text(a), Text(b)] else [Text(b)]
  {
    var items := [RoleDict(a), RoleDict(b)];
    RoleDictBound(a, f);
    RoleDictBound(b, f);
    OneEntry((MESSAGES, List(items)), f);
    OneItem(RoleDict(b), f);
    assert items[1..] == [RoleDict(b)] && items[0..] == items;
    assert AllLeaves(items) == [Text(a)] + AllLeaves(items[1..]);
  }

  lemma TwoMessagesBound(a: string, b: string, f: Policy)
    requires f(b).Ok? && (a == TOOL && b == TOOL ==> f(a).Ok?)
    ensures Bind(TwoMessages(a, b), f) ==
      Ok(TwoMessages(if a == TOOL && b == TOOL then f(a).value else a, f(b).value))
  {
    var items := [RoleDict(a), RoleDict(b)];
    var e := (MESSAGES, List(items));
    RoleDictBound(a, f);
    RoleDictBound(b, f);
    OneItem(RoleDict(b), f);
    assert items[1..] == [RoleDict(b)] && items[0..] == items && items[..1] == [RoleDict(a)] && items[..0] == [];
    var bound := [RoleDict(if a == TOOL && b == TOOL then f(a).value else a), RoleDict(f(b).value)];
    if a == TOOL && b == TOOL {
      assert BindAll(items, f).value == bound;
    }
    assert BindEntry(e, f).value.items == bound;
    OneEntry(e, f);
  }

  // For a policy, "the leaves of the result are the mapped leaves" holds of every value
  // exactly when the policy leaves the role string "tool" alone.
  lemma MapsLeavesIff(f: Policy)
    ensures MapsLeaves(f) <==> ToolStable(f)
  {
    if ToolStable(f) {
      forall v | Bind(v, f).Ok?
        ensures Leaves(Bind(v, f).value) == MapLeaves(f, Leaves(v))
      {
        LeavesAreMapped(v, f);
      }
    } else {
      var s :| f(s).Ok? && !(f(s).value == TOOL <==> s == TOOL);
      var v := TwoMessages(TOOL, s);
      TwoMessagesLeaves(TOOL, s, f);
      TwoMessagesBound(TOOL, s, f);
      TwoMessagesLeaves(if s == TOOL then f(s).value else TOOL, f(s).value, f);
      assert |Leaves(Bind(v, f).value)| != |Leaves(v)|;
    }
  }

  // Two dict-shaped tool messages under a policy that renames the role: two leaves were visited, and
  // the result has one, because its tail is shorter.
  lemma RenamedRoleMovesTheTail()
    ensures var rename: Policy := s => Ok(if s == TOOL then "t" else s);
      var v := TwoMessages(TOOL, TOOL);
      && Bind(v, rename) == Ok(TwoMessages("t", "t"))
      && MapLeaves(rename, Leaves(v)) == [Text("t"), Text("t")]
      && Leaves(Bind(v, rename).value) == [Text("t")]
  {
    var rename: Policy := s => Ok(if s == TOOL then "t" else s);
    TwoMessagesBound(TOOL, TOOL, rename);
    TwoMessagesLeaves(TOOL, TOOL, rename);
    TwoMessagesLeaves("t", "t", rename);
    var one := [Text(TOOL)];
    assert [Text(TOOL), Text(TOOL)] == one + one && MapLeaves(rename, one) == [Text("t")] + MapLeaves(rename, []);
    MapLeavesConcat(rename, one, one);
  }

  // Only the visited leaves matter to the result.
  lemma {:induction false} BindDependsOnLeaves(v: Value, f: Policy, g: Policy)
    requires forall l | l in Leaves(v) :: f(l.s) == g(l.s)
    ensures Bind(v, f) == Bind(v, g)
    decreases v, 1
  {
    match v
    case Str(_) => assert Text(v.s) in Leaves(v);
    case Dict(entries) => EntriesDependOnLeaves(entries, f, g);
    case List(items) => AllDependOnLeaves(items, f, g);
    case Tuple(items) => AllDependOnLeaves(items, f, g);
    case Msg(_, _, content) => BindDependsOnLeaves(content, f, g);
    case Plain(_) =>
    case Opaque(_) => assert OpaqueText(v.repr) in Leaves(v);
  }

  lemma {:induction false} AllDependOnLeaves(items: seq<Value>, f: Policy, g: Policy)
    requires forall l | l in AllLeaves(items) :: f(l.s) == g(l.s)
    ensures BindAll(items, f) == BindAll(items, g)
    decreases items, 0
  {
    if items != [] {
      BindDependsOnLeaves(items[0], f, g);
      AllDependOnLeaves(items[1..], f, g);
    }
  }

  lemma {:induction false} EntriesDependOnLeaves(entries: seq<(string, Value)>, f: Policy, g: Policy)
    requires forall l | l in EntryLeaves(entries) :: f(l.s) == g(l.s)
    ensures BindEntries(entries, f) == BindEntries(entries, g)
    decreases entries, 0
  {
    if entries != [] {
      EntryDependsOnLeaves(entries[0], f, g);
      EntriesDependOnLeaves(entries[1..], f, g);
    }
  }

  lemma {:induction false} EntryDependsOnLeaves(e: (string, Value), f: Policy, g: Policy)
    requires forall l | l in LeavesOfEntry(e) :: f(l.s) == g(l.s)
    ensures BindEntry(e, f) == BindEntry(e, g)
    decreases e
  {
    var (k, x) := e;
    if IsMessageList(k, x) {
      AllDependOnLeaves(x.items[TailStart(x.items)..], f, g);
    } else {
      BindDependsOnLeaves(x, f, g);
    }
  }

  // ---------------------------------------------------------------------------
  // Two policies in a row

  function Compose(f: Policy, g: Policy): Policy {
    s => match f(s) case Err(e) => Err(e) case Ok(t) => g(t)
  }

  // Both fail, or both return the same value.
  ghost predicate Agree<T>(a: Result<T, Error>, b: Result<T, Error>) {
    (a.Err? && b.Err?) || a == b
  }

  // Opaque objects, whose substitution is an error, are left alone; vacuous without opaque leaves.
  predicate KeepsOpaque(f: Policy, leaves: seq<Leaf>) {
    forall l | l in leaves && l.OpaqueText? :: f(l.s) == Ok(l.s)
  }

  ghost function BindTwice(v: Value, f: Policy, g: Policy): Result<Value, Error> {
    match Bind(v, f) case Err(e) => Err(e) case Ok(r) => Bind(r, g)
  }

  ghost function BindAllTwice(items: seq<Value>, f: Policy, g: Policy): Result<seq<Value>, Error> {
    match BindAll(items, f) case Err(e) => Err(e) case Ok(r) => BindAll(r, g)
  }

  ghost function BindEntriesTwice(entries: seq<(string, Value)>, f: Policy,
      g: Policy): Result<seq<(string, Value)>, Error>
  {
    match BindEntries(entries, f) case Err(e) => Err(e) case Ok(r) => BindEntries(r, g)
  }

  ghost function BindEntryTwice(e: (string, Value), f: Policy, g: Policy): Result<Value, Error> {
    match BindEntry(e, f) case Err(x) => Err(x) case Ok(r) => BindEntry((e.0, r), g)
  }

  // Binding one policy and then another is binding their composition.
  lemma {:induction false} BindFusion(v: Value, f: Policy, g: Policy)
    requires KeepsOpaque(f, Leaves(v)) && (ToolStable(f) || ObjectMessages(v))
    ensures Agree(BindTwice(v, f, g), Bind(v, Compose(f, g)))
    decreases v, 1
  {
    match v
    case Dict(entries) => EntriesFusion(entries, f, g);
    case List(items) => AllFusion(items, f, g);
    case Tuple(items) => AllFusion(items, f, g);
    case Msg(_, _, content) => BindFusion(content, f, g);
    case Opaque(repr) => assert OpaqueText(repr) in Leaves(v);
    case Str(_) =>
    case Plain(_) =>
  }

  lemma {:induction false} AllFusion(items: seq<Value>, f: Policy, g: Policy)
    requires KeepsOpaque(f, AllLeaves(items)) && (ToolStable(f) || AllObject(items))
    ensures Agree(BindAllTwice(items, f, g), BindAll(items, Compose(f, g)))
    decreases items, 0
  {
    if items != [] {
      BindFusion(items[0], f, g);
      AllFusion(items[1..], f, g);
      if BindAll(items, f).Ok? {
        assert BindAll(items, f).value[1..] == BindAll(items[1..], f).value;
      }
    }
  }

  lemma {:induction false} EntriesFusion(entries: seq<(string, Value)>, f: Policy, g: Policy)
    requires KeepsOpaque(f, EntryLeaves(entries)) && (ToolStable(f) || ObjectEntries(entries))
    ensures Agree(BindEntriesTwice(entries, f, g), BindEntries(entries, Compose(f, g)))
    decreases entries, 0
  {
    if entries != [] {
      EntryFusion(entries[0], f, g);
      EntriesFusion(entries[1..], f, g);
      if BindEntries(entries, f).Ok? {
        assert BindEntries(entries, f).value[1..] == BindEntries(entries[1..], f).value;
      }
    }
  }

  lemma {:induction false} EntryFusion(e: (string, Value), f: Policy, g: Policy)
    requires KeepsOpaque(f, LeavesOfEntry(e)) && (ToolStable(f) || ObjectEntry(e))
    ensures Agree(BindEntryTwice(e, f, g), BindEntry(e, Compose(f, g)))
    decreases e
  {
    var (k, x) := e;
    if IsMessageList(k, x) {
      var i := TailStart(x.items);
      assert ToolStable(f) || AllObject(x.items[i..]);
      AllFusion(x.items[i..], f, g);
      if BindAll(x.items[i..], f).Ok? {
        TailIsKept(x.items, f);
      }
    } else {
      BindFusion(x, f, g);
      if Bind(x, f).Ok? {
        NotMessageListAfter(k, x, f);
      }
    }
  }

  // ---------------------------------------------------------------------------
  // The loops of the source

  method FindTail(msgs: seq<Value>) returns (i: nat)
    requires msgs != []
    ensures i == TailStart(msgs)
  {
    i := |msgs| - 1;
    while i > 0 && IsTool(msgs[i]) && IsTool(msgs[i - 1])
      invariant i < |msgs| && RunStart(msgs, i) == TailStart(msgs)
    {
      i := i - 1;
    }
  }

  // Rebuilds a dict entry by entry, stopping at the first policy that raises.
  method BindDict(entries: seq<(string, Value)>, f: Policy) returns (r: Result<seq<(string, Value)>, Error>)
    ensures r == BindEntries(entries, f)
  {
    var out: seq<(string, Value)> := [];
    var k := 0;
    assert entries[0..] == entries;
    PrependNothing(BindEntries(entries, f));
    while k < |entries|
      invariant 0 <= k <= |entries|
      invariant BindEntries(entries, f) == Prepend(out, BindEntries(entries[k..], f))
    {
      var (key, x) := entries[k];
      ghost var rest := entries[k..];
      assert rest[0] == entries[k] && rest[1..] == entries[k + 1..];
      var bound: Result<Value, Error>;
      if IsMessageList(key, x) {
        var i := FindTail(x.items);
        var tail := BindAll(x.items[i..], f);
        bound := if tail.Ok? then Ok(List(x.items[..i] + tail.value)) else Err(tail.error);
      } else {
        bound := Bind(x, f);
      }
      assert bound == BindEntry(entries[k], f);
      if bound.Err? {
        return Err(bound.error);
      }
      PrependAssoc(out, (key, bound.value), BindEntries(entries[k + 1..], f));
      out := out + [(key, bound.value)];
      k := k + 1;
    }
    assert entries[k..] == [] && out + [] == out;
    r := Ok(out);
  }

  lemma PrependNothing<T>(r: Result<seq<T>, Error>)
    ensures Prepend([], r) == r
  {
    if r.Ok? {
      assert [] + r.value == r.value;
    }
  }

  ghost function Prepend<T>(front: seq<T>, r: Result<seq<T>, Error>): Result<seq<T>, Error> {
    if r.Err? then r else Ok(front + r.value)
  }

  lemma PrependAssoc<T>(front: seq<T>, x: T, r: Result<seq<T>, Error>)
    ensures Prepend(front, Prepend([x], r)) == Prepend(front + [x], r)
  {
    if r.Ok? {
      assert front + ([x] + r.value) == (front + [x]) + r.value;
    }
  }
}
