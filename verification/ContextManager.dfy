/**
  History compression: drop or summarise old turns, keep important and recent
  messages in their original order, and cut only at a human turn.

  Messages are objects with an identity (`uid`), because `reduce` selects the
  survivors by identity. Results that need identities to be distinct say so.
 */
module ContextManager {
  import opened Wrappers
  import opened Basics
  import opened BoundedFifo

  datatype Message = Message(uid: nat, isDict: bool, role: string, content: string, important: bool, id: Option<string>)

  predicate IsImportant(m: Message) {
    m.role == "system" || m.important
  }

  predicate IsHuman(m: Message) {
    m.role == "human" || m.role == "user"
  }

  // The important messages (`wanted`) or the others, in order.
  function Pick(ms: seq<Message>, wanted: bool): (r: seq<Message>)
    ensures forall m | m in r :: m in ms && IsImportant(m) == wanted
    ensures forall m | m in ms && IsImportant(m) == wanted :: m in r
  {
    if ms == [] then []
    else if IsImportant(ms[0]) == wanted then [ms[0]] + Pick(ms[1..], wanted)
    else Pick(ms[1..], wanted)
  }

  function Others(ms: seq<Message>): seq<Message> {
    Pick(ms, false)
  }

  // ---------------------------------------------------------------------------
  // The cut

  function FirstCut(n: nat, keep: int): nat {
    if keep == 0 then n else if n - keep > 0 then n - keep else 0
  }

  function Rewind(cut: nat, others: seq<Message>): nat {
    if 0 < cut < |others| && !IsHuman(others[cut]) then Rewind(cut - 1, others) else cut
  }

  // How many of the other messages are old. A slice bound past the end is the end.
  function Cut(others: seq<Message>, keep: int): (c: nat)
    ensures c <= |others|
  {
    var c := Rewind(FirstCut(|others|, keep), others);
    if c <= |others| then c else |others|
  }

  lemma {:induction false} RewindStopsAtHuman(cut: nat, others: seq<Message>)
    ensures var c := Rewind(cut, others);
      && c <= cut
      && (cut >= |others| ==> c == cut)
      && (0 < c < |others| ==> IsHuman(others[c]))
      && (forall j :: c < j <= cut && cut < |others| ==> !IsHuman(others[j]))
  {
    if 0 < cut < |others| && !IsHuman(others[cut]) {
      RewindStopsAtHuman(cut - 1, others);
    }
  }

  // The last `keep` others survive, and what survives is empty, everything, or starts at a
  // human turn; no later human turn would have done.
  lemma CutIsSafe(others: seq<Message>, keep: int)
    ensures var c := Cut(others, keep);
      && (keep > 0 ==> |others| - c >= keep || c == 0)
      && (keep <= 0 ==> c == |others|)
      && (c == 0 || c == |others| || others[c].role in {"human", "user"})
      && (forall j :: c < j < |others| && j <= |others| - keep ==> others[j].role !in {"human", "user"})
  {
    RewindStopsAtHuman(FirstCut(|others|, keep), others);
  }

  // Messages of one turn stay together: with no human turn between them (or at the second),
  // both are old or both are recent.
  lemma TurnIsNotSplit(others: seq<Message>, keep: int, i: nat, j: nat)
    requires i < j < |others|
    requires forall k :: i < k <= j ==> others[k].role !in {"human", "user"}
    ensures i < Cut(others, keep) <==> j < Cut(others, keep)
  {
    CutIsSafe(others, keep);
  }

  // A second cut of what the first one left removes nothing.
  lemma CutTwice(others: seq<Message>, keep: int)
    ensures Cut(others[Cut(others, keep)..], keep) == 0
  {
    var c := Cut(others, keep);
    var recent := others[c..];
    CutIsSafe(others, keep);
    CutIsSafe(recent, keep);
    RewindStopsAtHuman(FirstCut(|recent|, keep), recent);
    var c2 := Cut(recent, keep);
    assert c2 < |recent| ==> recent[c2] == others[c + c2];
  }

  // ---------------------------------------------------------------------------
  // Who survives

  function Uids(ms: seq<Message>): set<nat> {
    set m | m in ms :: m.uid
  }

  function KeepIds(ms: seq<Message>, uids: set<nat>): seq<Message> {
    if ms == [] then []
    else if ms[0].uid in uids then [ms[0]] + KeepIds(ms[1..], uids)
    else KeepIds(ms[1..], uids)
  }

  // Reference definition: the input without its first `c` non-important messages.
  function WithoutOld(ms: seq<Message>, c: nat): seq<Message> {
    if ms == [] then []
    else if IsImportant(ms[0]) then [ms[0]] + WithoutOld(ms[1..], c)
    else if c > 0 then WithoutOld(ms[1..], c - 1)
    else [ms[0]] + WithoutOld(ms[1..], 0)
  }

  predicate DistinctIds(ms: seq<Message>) {
    forall i, j :: 0 <= i < j < |ms| ==> ms[i].uid != ms[j].uid
  }

  // One identity, one object.
  predicate Coherent(ms: seq<Message>) {
    forall a, b | a in ms && b in ms :: a.uid == b.uid ==> a == b
  }

  // No object occurs both before and after the cut.
  predicate NotShared(others: seq<Message>, c: nat)
    requires c <= |others|
  {
    forall i, j :: 0 <= i < c <= j < |others| ==> others[i].uid != others[j].uid
  }

  lemma OthersTail(ms: seq<Message>)
    requires ms != [] && !IsImportant(ms[0])
    ensures Others(ms) == [ms[0]] + Others(ms[1..])
    ensures forall i :: 0 < i < |Others(ms)| ==> Others(ms)[i] == Others(ms[1..])[i - 1]
    ensures forall i :: 0 <= i < |Others(ms[1..])| ==> Others(ms)[i + 1] == Others(ms[1..])[i]
  {}

  // Keeping every important and every recent message, and no old one, drops the old prefix.
  lemma {:induction false} KeepIdsDropsOld(ms: seq<Message>, c: nat, uids: set<nat>)
    requires c <= |Others(ms)|
    requires forall m | m in ms && IsImportant(m) :: m.uid in uids
    requires forall i :: c <= i < |Others(ms)| ==> Others(ms)[i].uid in uids
    requires forall i :: 0 <= i < c ==> Others(ms)[i].uid !in uids
    ensures KeepIds(ms, uids) == WithoutOld(ms, c)
  {
    if ms != [] {
      if IsImportant(ms[0]) {
        KeepIdsDropsOld(ms[1..], c, uids);
      } else {
        OthersTail(ms);
        assert Others(ms)[0] == ms[0];
        KeepIdsDropsOld(ms[1..], if c > 0 then c - 1 else 0, uids);
      }
    }
  }

  // In any case nothing that should stay is dropped; an old message whose identity is kept makes the result longer.
  lemma {:induction false} KeepIdsIsLonger(ms: seq<Message>, c: nat, uids: set<nat>, shared: int)
    requires c <= |Others(ms)| && shared < c
    requires forall m | m in ms && IsImportant(m) :: m.uid in uids
    requires forall i :: c <= i < |Others(ms)| ==> Others(ms)[i].uid in uids
    requires shared >= 0 ==> Others(ms)[shared].uid in uids
    ensures |KeepIds(ms, uids)| >= |WithoutOld(ms, c)| + if shared >= 0 then 1 else 0
  {
    if ms != [] {
      if IsImportant(ms[0]) {
        KeepIdsIsLonger(ms[1..], c, uids, shared);
      } else {
        OthersTail(ms);
        if c > 0 {
          KeepIdsIsLonger(ms[1..], c - 1, uids, if shared > 0 then shared - 1 else -1);
        } else {
          KeepIdsIsLonger(ms[1..], 0, uids, -1);
        }
      }
    }
  }

  function SurvivorIds(ms: seq<Message>, keep: int): set<nat> {
    Uids(Pick(ms, true)) + Uids(Others(ms)[Cut(Others(ms), keep)..])
  }

  // Selecting by identity removes exactly the old prefix, in the original order, exactly when
  // no object is listed on both sides of the cut.
  lemma ReduceRemovesOldPrefix(ms: seq<Message>, keep: int)
    requires Coherent(ms)
    ensures KeepIds(ms, SurvivorIds(ms, keep)) == WithoutOld(ms, Cut(Others(ms), keep))
       <==> NotShared(Others(ms), Cut(Others(ms), keep))
  {
    var os := Others(ms);
    var c := Cut(os, keep);
    var uids := SurvivorIds(ms, keep);
    forall i | c <= i < |os|
      ensures os[i].uid in uids
    {
      assert os[c..][i - c] == os[i];
    }
    if NotShared(os, c) {
      OldIdsAreDropped(ms, keep);
      KeepIdsDropsOld(ms, c, uids);
    } else {
      var i, j :| 0 <= i < c <= j < |os| && os[i].uid == os[j].uid;
      KeepIdsIsLonger(ms, c, uids, i);
    }
  }

  lemma OldIdsAreDropped(ms: seq<Message>, keep: int)
    requires Coherent(ms) && NotShared(Others(ms), Cut(Others(ms), keep))
    ensures forall i :: 0 <= i < Cut(Others(ms), keep) ==> Others(ms)[i].uid !in SurvivorIds(ms, keep)
  {
    var os := Others(ms);
    var c := Cut(os, keep);
    var recent := os[c..];
    forall i | 0 <= i < c
      ensures os[i].uid !in SurvivorIds(ms, keep)
    {
      assert os[i] in os;
      forall m | m in recent
        ensures m.uid != os[i].uid
      {
        var j :| 0 <= j < |recent| && recent[j] == m;
        assert os[c + j] == m;
      }
    }
  }

  lemma {:induction false} DistinctPick(ms: seq<Message>, wanted: bool)
    requires DistinctIds(ms)
    ensures DistinctIds(Pick(ms, wanted))
  {
    if ms != [] {
      var rest := Pick(ms[1..], wanted);
      DistinctPick(ms[1..], wanted);
      forall m | m in rest
        ensures m.uid != ms[0].uid
      {
        var i :| 0 <= i < |ms[1..]| && ms[1..][i] == m;
        assert ms[i + 1] == m;
      }
    }
  }

  lemma {:induction false} WithoutOldKeeps(ms: seq<Message>, c: nat)
    requires c <= |Others(ms)|
    ensures Others(WithoutOld(ms, c)) == Others(ms)[c..]
    ensures Pick(WithoutOld(ms, c), true) == Pick(ms, true)
    ensures |WithoutOld(ms, c)| == |ms| - c
  {
    if ms != [] {
      var rest := ms[1..];
      if IsImportant(ms[0]) {
        WithoutOldKeeps(rest, c);
      } else if c > 0 {
        WithoutOldKeeps(rest, c - 1);
        assert Others(ms) == [ms[0]] + Others(rest);
      } else {
        WithoutOldKeeps(rest, 0);
      }
    }
  }

  // ---------------------------------------------------------------------------
  // Reduce

  const SUMMARY_TITLE := "[이전 대화 요약] "
  const SUMMARY_REQUEST := "다음 대화를 간결히 요약:\n"

  // The line of a message in a transcript.
  function Line(m: Message): string {
    m.role + ": " + m.content
  }

  function Transcript(ms: seq<Message>): string {
    if ms == [] then ""
    else if |ms| == 1 then Line(ms[0])
    else Line(ms[0]) + "\n" + Transcript(ms[1..])
  }

  type Summarizer = string -> string

  function Summary(summarize: Summarizer, past: seq<Message>): string {
    summarize(SUMMARY_REQUEST + Transcript(past))
  }

  function SummaryMessage(uid: nat, text: string): Message {
    Message(uid, true, "system", SUMMARY_TITLE + text, false, None)
  }

  // The length of the leading block of system messages.
  function SystemBlock(ms: seq<Message>): (at: nat)
    ensures at <= |ms|
    ensures forall i :: 0 <= i < at ==> ms[i].role == "system"
    ensures at < |ms| ==> ms[at].role != "system"
  {
    if ms == [] || ms[0].role != "system" then 0 else 1 + SystemBlock(ms[1..])
  }

  function Insert(ms: seq<Message>, at: nat, m: Message): seq<Message>
    requires at <= |ms|
  {
    ms[..at] + [m] + ms[at..]
  }

  // `text` is the summary of the old messages, or None without a summariser; `uid` is the
  // identity of the message created for it.
  ghost function Reduced(ms: seq<Message>, keep: int, text: Option<string>, uid: nat): seq<Message> {
    if Cut(Others(ms), keep) == 0 then ms
    else
      var kept := KeepIds(ms, SurvivorIds(ms, keep));
      match text
      case None => kept
      case Some(t) => Insert(kept, SystemBlock(kept), SummaryMessage(uid, t))
  }

  lemma {:induction false} OthersAfterInsert(ms: seq<Message>, at: nat, m: Message)
    requires at <= |ms| && IsImportant(m)
    ensures Others(Insert(ms, at, m)) == Others(ms)
  {
    if at == 0 {
      assert Insert(ms, at, m)[1..] == ms;
    } else {
      assert Insert(ms, at, m)[1..] == Insert(ms[1..], at - 1, m);
      OthersAfterInsert(ms[1..], at - 1, m);
    }
  }

  lemma {:induction false} OthersOfKept(ms: seq<Message>, uids: set<nat>)
    ensures Others(KeepIds(ms, uids)) == KeepIds(Others(ms), uids)
  {
    if ms != [] {
      OthersOfKept(ms[1..], uids);
    }
  }

  lemma {:induction false} KeepIdsSplits(a: seq<Message>, b: seq<Message>, uids: set<nat>)
    ensures KeepIds(a + b, uids) == KeepIds(a, uids) + KeepIds(b, uids)
    ensures forall m :: m in KeepIds(a, uids) <==> m in a && m.uid in uids
  {
    if a == [] {
      assert a + b == b;
    } else {
      assert (a + b)[1..] == a[1..] + b;
      KeepIdsSplits(a[1..], b, uids);
    }
  }

  // The old messages that survive because the same object is also listed after the cut.
  ghost function Doubles(ms: seq<Message>, keep: int): seq<Message> {
    KeepIds(Others(ms)[..Cut(Others(ms), keep)], SurvivorIds(ms, keep))
  }

  lemma DoublesSurvive(ms: seq<Message>, keep: int)
    ensures Others(KeepIds(ms, SurvivorIds(ms, keep))) == Doubles(ms, keep) + Others(ms)[Cut(Others(ms), keep)..]
  {
    var os, uids := Others(ms), SurvivorIds(ms, keep);
    var past, recent := os[..Cut(os, keep)], os[Cut(os, keep)..];
    OthersOfKept(ms, uids);
    assert os == past + recent;
    KeepIdsSplits(past, recent, uids);
    AllKept(recent, uids);
  }

  lemma DoublesAreRecent(ms: seq<Message>, keep: int, m: Message)
    requires Coherent(ms) && m in Doubles(ms, keep)
    ensures m.uid in Uids(Others(ms)[Cut(Others(ms), keep)..])
  {
    var os := Others(ms);
    var past := os[..Cut(os, keep)];
    KeepIdsSplits(past, [], SurvivorIds(ms, keep));
    assert m in past && m in os;
    forall p | p in Pick(ms, true)
      ensures p.uid != m.uid
    {
      assert p in ms && m in ms;
    }
  }

  lemma DoublesExist(ms: seq<Message>, keep: int)
    requires !NotShared(Others(ms), Cut(Others(ms), keep))
    ensures Doubles(ms, keep) != []
  {
    var os := Others(ms);
    var c := Cut(os, keep);
    var past, recent := os[..c], os[c..];
    var i, j :| 0 <= i < c <= j < |os| && os[i].uid == os[j].uid;
    assert past[i] == os[i] && recent[j - c] == os[j];
    assert os[j].uid in Uids(recent);
    KeepIdsSplits(past, [], SurvivorIds(ms, keep));
    assert os[i] in past;
  }

  // Where a cut stopped at a human turn, it stops there again, whatever stands before it.
  lemma CutStaysAtTheTurn(os: seq<Message>, keep: int, before: seq<Message>)
    requires 0 < Cut(os, keep) < |os|
    ensures Cut(before + os[Cut(os, keep)..], keep) == |before|
  {
    var c := Cut(os, keep);
    CutIsSafe(os, keep);
    var f := FirstCut(|os|, keep);
    RewindStopsAtHuman(f, os);
    var again := before + os[c..];
    assert FirstCut(|again|, keep) == f - c + |before|;
    RewindStopsAtHuman(f - c + |before|, again);
    assert again[|before|] == os[c];
    forall j | |before| < j <= f - c + |before|
      ensures !IsHuman(again[j])
    {
      assert again[j] == os[j - |before| + c];
    }
  }

  lemma SecondPassKeepsAll(ms: seq<Message>, keep: int, text: Option<string>, uid: nat)
    requires Coherent(ms) && !NotShared(Others(ms), Cut(Others(ms), keep))
    ensures var once := Reduced(ms, keep, text, uid);
      Cut(Others(once), keep) > 0 && KeepIds(once, SurvivorIds(once, keep)) == once
  {
    var os := Others(ms);
    var c := Cut(os, keep);
    var kept := KeepIds(ms, SurvivorIds(ms, keep));
    var once := Reduced(ms, keep, text, uid);
    DoublesSurvive(ms, keep);
    DoublesExist(ms, keep);
    if text.Some? {
      OthersAfterInsert(kept, SystemBlock(kept), SummaryMessage(uid, text.value));
    }
    var doubles, recent := Doubles(ms, keep), os[c..];
    CutStaysAtTheTurn(os, keep, doubles);
    assert Others(once) == doubles + recent && (doubles + recent)[|doubles|..] == recent;
    forall m | m in once
      ensures m.uid in SurvivorIds(once, keep)
    {
      if !IsImportant(m) {
        assert m in Others(once);
        if m in doubles {
          DoublesAreRecent(ms, keep, m);
        }
      }
    }
    AllKept(once, SurvivorIds(once, keep));
  }

  // Compressing twice is compressing once, for every keep_recent, exactly when the second pass
  // has no summariser or no object is listed on both sides of the cut.
  lemma ReduceIsIdempotentIff(ms: seq<Message>, keep: int, text: Option<string>, uid: nat, text2: Option<string>,
      uid2: nat)
    requires Coherent(ms)
    ensures var once := Reduced(ms, keep, text, uid);
      Reduced(once, keep, text2, uid2) == once <==> text2 == None || NotShared(Others(ms), Cut(Others(ms), keep))
  {
    var os := Others(ms);
    var c := Cut(os, keep);
    if c != 0 {
      if NotShared(os, c) {
        ReduceRemovesOldPrefix(ms, keep);
        WithoutOldKeeps(ms, c);
        var kept := WithoutOld(ms, c);
        if text.Some? {
          OthersAfterInsert(kept, SystemBlock(kept), SummaryMessage(uid, text.value));
        }
        CutTwice(os, keep);
      } else {
        SecondPassKeepsAll(ms, keep, text, uid);
      }
    }
  }

  // Messages that are all different objects are never on both sides.
  lemma DistinctIsNotShared(ms: seq<Message>, keep: int)
    requires DistinctIds(ms)
    ensures Coherent(ms) && NotShared(Others(ms), Cut(Others(ms), keep))
  {
    DistinctPick(ms, false);
  }

  // A history that lists no object twice is compressed once and for all.
  lemma DistinctHistoriesAreReducedOnce(ms: seq<Message>, keep: int, text: Option<string>, uid: nat,
                                        text2: Option<string>, uid2: nat)
    requires DistinctIds(ms)
    ensures Reduced(Reduced(ms, keep, text, uid), keep, text2, uid2) == Reduced(ms, keep, text, uid)
  {
    DistinctIsNotShared(ms, keep);
    ReduceIsIdempotentIff(ms, keep, text, uid, text2, uid2);
  }

  // The summary follows the leading system block directly, and moves nothing else.
  ghost predicate SummaryInPlace(kept: seq<Message>, out: seq<Message>, summary: Message) {
    var at := SystemBlock(kept);
    && |out| == |kept| + 1
    && out[at] == summary
    && (forall i :: 0 <= i < at ==> out[i] == kept[i] && out[i].role == "system")
    && (forall i :: at < i < |out| ==> out[i] == kept[i - 1])
    && (at + 1 < |out| ==> out[at + 1].role != "system")
  }

  lemma InsertIsInPlace(kept: seq<Message>, summary: Message)
    ensures SummaryInPlace(kept, Insert(kept, SystemBlock(kept), summary), summary)
  {
    var at := SystemBlock(kept);
    var out := Insert(kept, at, summary);
    assert out[..at] == kept[..at] && out[at + 1..] == kept[at..];
    assert forall i :: 0 <= i < at ==> out[i] == out[..at][i];
    assert forall i :: at < i < |out| ==> out[i] == out[at + 1..][i - at - 1];
  }

  // The whole output: the input in order without the old prefix, plus the summary after the
  // leading system block.
  lemma ReduceOutput(ms: seq<Message>, keep: int, text: Option<string>, uid: nat)
    requires Coherent(ms) && NotShared(Others(ms), Cut(Others(ms), keep))
    ensures var c := Cut(Others(ms), keep);
      var kept := WithoutOld(ms, c);
      var out := Reduced(ms, keep, text, uid);
      && |kept| == |ms| - c
      && Others(out) == Others(ms)[c..]
      && Pick(kept, true) == Pick(ms, true)
      && (forall m | m in ms && (m.role == "system" || m.important) :: m in out)
      && (c == 0 ==> out == ms)
      && (c > 0 && text == None ==> out == kept)
      && (c > 0 && text.Some? ==> SummaryInPlace(kept, out, SummaryMessage(uid, text.value)))
  {
    var c := Cut(Others(ms), keep);
    var kept := WithoutOld(ms, c);
    ReduceRemovesOldPrefix(ms, keep);
    WithoutOldKeeps(ms, c);
    if c > 0 && text.Some? {
      OthersAfterInsert(kept, SystemBlock(kept), SummaryMessage(uid, text.value));
      InsertIsInPlace(kept, SummaryMessage(uid, text.value));
    }
  }

  // An object listed on both sides of the cut is kept twice, and compressing again inserts another summary.
  lemma SharedMessagesBreakIdempotence(x: Message)
    requires IsHuman(x) && !IsImportant(x)
    ensures var once := Reduced([x, x], 1, Some("s"), x.uid + 1);
      Reduced(once, 1, Some("s"), x.uid + 2) != once
  {
    var ms := [x, x];
    AllAlike(ms, false);
    assert Cut(ms, 1) == 1 && ms[0].uid == ms[1].uid;
    ReduceIsIdempotentIff(ms, 1, Some("s"), x.uid + 1, Some("s"), x.uid + 2);
  }

  lemma {:induction false} AllAlike(ms: seq<Message>, wanted: bool)
    requires forall m | m in ms :: IsImportant(m) == wanted
    ensures Pick(ms, wanted) == ms && Pick(ms, !wanted) == []
  {
    if ms != [] {
      AllAlike(ms[1..], wanted);
    }
  }

  lemma {:induction false} AllKept(ms: seq<Message>, uids: set<nat>)
    requires forall m | m in ms :: m.uid in uids
    ensures KeepIds(ms, uids) == ms
  {
    if ms != [] {
      AllKept(ms[1..], uids);
    }
  }

  // ---------------------------------------------------------------------------
  // The summary cache

  type CacheKey = seq<string>
  type Hash = string -> string

  const SUMMARY_CAPACITY: nat := 32

  // A message object is known by its id; anything else by a digest of role and content.
  function Key(hash: Hash, m: Message): string {
    if !m.isDict && m.id.Some? && m.id.value != "" then m.id.value else hash(m.role + ":" + m.content)
  }

  function Keys(hash: Hash, ms: seq<Message>): CacheKey {
    seq(|ms|, i requires 0 <= i < |ms| => Key(hash, ms[i]))
  }

  datatype Cache = Cache(keys: seq<CacheKey>, vals: map<CacheKey, string>)

  // One call of `_summary_for`: the new cache and the answer.
  function Ask(hash: Hash, summarize: Summarizer, cache: Cache, past: seq<Message>): (Cache, string) {
    var k := Keys(hash, past);
    if k in cache.vals then (cache, cache.vals[k])
    else
      var text := Summary(summarize, past);
      var full := |cache.keys| >= SUMMARY_CAPACITY && cache.keys != [];
      var vals := if full then cache.vals - {cache.keys[0]} else cache.vals;
      (Cache(Offer(SUMMARY_CAPACITY, cache.keys, k), vals[k := text]), text)
  }

  type Calls = seq<seq<Message>>

  function CacheAfter(hash: Hash, summarize: Summarizer, calls: Calls): Cache {
    if calls == [] then Cache([], map[])
    else Ask(hash, summarize, CacheAfter(hash, summarize, calls[..|calls| - 1]), calls[|calls| - 1]).0
  }

  function Answers(hash: Hash, summarize: Summarizer, calls: Calls): seq<string> {
    if calls == [] then []
    else
      var front := calls[..|calls| - 1];
      Answers(hash, summarize, front) + [Ask(hash, summarize, CacheAfter(hash, summarize, front), calls[|calls| - 1]).1]
  }

  function Uncached(summarize: Summarizer, calls: Calls): seq<string> {
    if calls == [] then []
    else Uncached(summarize, calls[..|calls| - 1]) + [Summary(summarize, calls[|calls| - 1])]
  }

  function KeyRun(hash: Hash, calls: Calls): seq<CacheKey> {
    if calls == [] then [] else KeyRun(hash, calls[..|calls| - 1]) + [Keys(hash, calls[|calls| - 1])]
  }

  // Over any run of calls the cache is a bounded FIFO over the calls' keys, so it never holds
  // more than 32 summaries and a summary is dropped at exactly the 32nd later miss.
  lemma {:induction false} CacheIsBoundedFifo(hash: Hash, summarize: Summarizer, calls: Calls)
    ensures var cache := CacheAfter(hash, summarize, calls);
      && cache.keys == Table(SUMMARY_CAPACITY, KeyRun(hash, calls))
      && |cache.keys| <= SUMMARY_CAPACITY
      && (forall k :: k in cache.keys <==> k in cache.vals)
  {
    TableIsWindow(SUMMARY_CAPACITY, KeyRun(hash, calls));
    if calls != [] {
      var front, last := calls[..|calls| - 1], calls[|calls| - 1];
      CacheIsBoundedFifo(hash, summarize, front);
      TableIsWindow(SUMMARY_CAPACITY, KeyRun(hash, front));
      AskIsOffer(hash, summarize, CacheAfter(hash, summarize, front), last);
      var run := KeyRun(hash, calls);
      assert run[..|run| - 1] == KeyRun(hash, front);
    }
  }

  lemma AskIsOffer(hash: Hash, summarize: Summarizer, cache: Cache, past: seq<Message>)
    requires NoDup(cache.keys)
    requires forall k :: k in cache.keys <==> k in cache.vals
    ensures var after := Ask(hash, summarize, cache, past).0;
      && after.keys == Offer(SUMMARY_CAPACITY, cache.keys, Keys(hash, past))
      && (forall k :: k in after.keys <==> k in after.vals)
  {
    if cache.keys != [] {
      assert cache.keys == [cache.keys[0]] + cache.keys[1..];
    }
  }

  // Call `i` is the one that produced `text` for the key `k`.
  ghost predicate IsSource(hash: Hash, summarize: Summarizer, calls: Calls, text: string, k: CacheKey, i: nat) {
    i < |calls| && Keys(hash, calls[i]) == k && text == Summary(summarize, calls[i])
  }

  ghost predicate Sourced(hash: Hash, summarize: Summarizer, calls: Calls, vals: map<CacheKey, string>) {
    forall k | k in vals :: exists i: nat :: IsSource(hash, summarize, calls, vals[k], k, i)
  }

  // Every cached text, and every answer, is the summary of this or an earlier call with the same keys.
  lemma AskKeepsSources(hash: Hash, summarize: Summarizer, calls: Calls, cache: Cache, past: seq<Message>)
    requires Sourced(hash, summarize, calls, cache.vals)
    ensures var (after, text) := Ask(hash, summarize, cache, past);
      && Sourced(hash, summarize, calls + [past], after.vals)
      && Keys(hash, past) in after.vals && after.vals[Keys(hash, past)] == text
  {
    var (after, text) := Ask(hash, summarize, cache, past);
    forall k | k in after.vals
      ensures exists i: nat :: IsSource(hash, summarize, calls + [past], after.vals[k], k, i)
    {
      if k in cache.vals && after.vals[k] == cache.vals[k] {
        var i: nat :| IsSource(hash, summarize, calls, cache.vals[k], k, i);
        assert IsSource(hash, summarize, calls + [past], after.vals[k], k, i);
      } else {
        assert IsSource(hash, summarize, calls + [past], after.vals[k], k, |calls|);
      }
    }
  }

  ghost predicate Over(universe: set<Message>, ms: seq<Message>) {
    forall m | m in ms :: m in universe
  }

  ghost predicate AllOver(universe: set<Message>, calls: Calls) {
    forall i :: 0 <= i < |calls| ==> Over(universe, calls[i])
  }

  ghost predicate Transparent(hash: Hash, summarize: Summarizer, universe: set<Message>) {
    forall calls :: AllOver(universe, calls) ==> Answers(hash, summarize, calls) == Uncached(summarize, calls)
  }

  ghost predicate KeysFixSummary(hash: Hash, summarize: Summarizer, universe: set<Message>) {
    forall a, b :: Over(universe, a) && Over(universe, b) && Keys(hash, a) == Keys(hash, b) ==>
      Summary(summarize, a) == Summary(summarize, b)
  }

  lemma {:induction false} CachedAnswersAreRight(hash: Hash, summarize: Summarizer, universe: set<Message>,
      calls: Calls)
    requires KeysFixSummary(hash, summarize, universe) && AllOver(universe, calls)
    ensures Answers(hash, summarize, calls) == Uncached(summarize, calls)
    ensures Sourced(hash, summarize, calls, CacheAfter(hash, summarize, calls).vals)
  {
    if calls != [] {
      var front, last := calls[..|calls| - 1], calls[|calls| - 1];
      CachedAnswersAreRight(hash, summarize, universe, front);
      var cache := CacheAfter(hash, summarize, front);
      AskKeepsSources(hash, summarize, front, cache, last);
      assert calls == front + [last];
      var (after, text) := Ask(hash, summarize, cache, last);
      var i: nat :| IsSource(hash, summarize, calls, text, Keys(hash, last), i);
      assert Over(universe, calls[i]) && Over(universe, last);
    }
  }

  // Caching changes no answer of any run of calls, exactly when histories with equal keys have equal summaries.
  lemma CacheIsTransparentIff(hash: Hash, summarize: Summarizer, universe: set<Message>)
    ensures Transparent(hash, summarize, universe) <==> KeysFixSummary(hash, summarize, universe)
  {
    if KeysFixSummary(hash, summarize, universe) {
      forall calls | AllOver(universe, calls)
        ensures Answers(hash, summarize, calls) == Uncached(summarize, calls)
      {
        CachedAnswersAreRight(hash, summarize, universe, calls);
      }
    }
    if Transparent(hash, summarize, universe) {
      forall a, b | Over(universe, a) && Over(universe, b) && Keys(hash, a) == Keys(hash, b)
        ensures Summary(summarize, a) == Summary(summarize, b)
      {
        SecondAnswerIsFirst(hash, summarize, a, b);
        assert AllOver(universe, [a, b]);
      }
    }
  }

  // A second history with the keys of the first gets the first one's summary, even if an
  // edited message kept its id.
  lemma SecondAnswerIsFirst(hash: Hash, summarize: Summarizer, a: seq<Message>, b: seq<Message>)
    requires Keys(hash, a) == Keys(hash, b)
    ensures Answers(hash, summarize, [a, b]) == [Summary(summarize, a), Summary(summarize, a)]
    ensures Uncached(summarize, [a, b]) == [Summary(summarize, a), Summary(summarize, b)]
  {
    var one: Calls := [a];
    assert one[..0] == [];
    assert CacheAfter(hash, summarize, one).vals == map[Keys(hash, a) := Summary(summarize, a)];
    assert Answers(hash, summarize, one) == [Summary(summarize, a)];
    assert Uncached(summarize, one) == [Summary(summarize, a)];
    assert [a, b][..1] == one;
  }

  // The edit a cache cannot see: the message "x" was answered for, its new text "y" is not.
  lemma EditedMessageKeepsItsSummary(hash: Hash)
    ensures var before := [Message(0, false, "human", "x", false, Some("m1"))];
      var after := [Message(1, false, "human", "y", false, Some("m1"))];
      var echo := (s: string) => s;
      && Uncached(echo, [before, after]) == [SUMMARY_REQUEST + "human: x", SUMMARY_REQUEST + "human: y"]
      && Answers(hash, echo, [before, after]) == [SUMMARY_REQUEST + "human: x", SUMMARY_REQUEST + "human: x"]
  {
    var before := [Message(0, false, "human", "x", false, Some("m1"))];
    var after := [Message(1, false, "human", "y", false, Some("m1"))];
    var echo := (s: string) => s;
    assert Keys(hash, before) == Keys(hash, after) == ["m1"];
    assert Transcript(before) == "human" + ": " + "x" == "human: x";
    assert Transcript(after) == "human" + ": " + "y" == "human: y";
    SecondAnswerIsFirst(hash, echo, before, after);
  }

  // ---------------------------------------------------------------------------
  // What the summariser is told

  // The summariser that answers with what it was asked.
  const ECHO: Summarizer := (s: string) => s

  lemma {:induction false} LinesJoin(a: seq<Message>, b: seq<Message>)
    requires a != [] && b != []
    ensures Transcript(a + b) == Transcript(a) + "\n" + Transcript(b)
  {
    assert (a + b)[0] == a[0] && (a + b)[1..] == a[1..] + b;
    if |a| == 1 {
      assert a[1..] + b == b;
    } else {
      LinesJoin(a[1..], b);
      assert Line(a[0]) + "\n" + (Transcript(a[1..]) + "\n" + Transcript(b)) ==
        Line(a[0]) + "\n" + Transcript(a[1..]) + "\n" + Transcript(b);
    }
  }

  // A request is a title and one line per message, in order: for one message its role and content,
  // for more the request for the first ones followed by the lines of the others.
  lemma RequestsJoin(m: Message, a: seq<Message>, b: seq<Message>)
    requires a != [] && b != []
    ensures Summary(ECHO, [m]) == SUMMARY_REQUEST + (m.role + ": " + m.content)
    ensures Summary(ECHO, a + b) == Summary(ECHO, a) + "\n" + Summary(ECHO, b)[|SUMMARY_REQUEST|..]
  {
    LinesJoin(a, b);
    TitledJoin(SUMMARY_REQUEST, Transcript(a), Transcript(b));
  }

  lemma TitledJoin(title: string, x: string, y: string)
    ensures title + (x + "\n" + y) == title + x + "\n" + (title + y)[|title|..]
  {}

  // `text` has the role and the content of `m` at `at`.
  predicate Tells(text: string, m: Message, at: nat) {
    var line := m.role + ": " + m.content;
    at + |line| <= |text| && text[at..at + |line|] == line
  }

  lemma TellsInside(title: string, front: string, m: Message, back: string)
    ensures Tells(title + (front + Line(m) + back), m, |title| + |front|)
  {
    var line := Line(m);
    assert title + (front + line + back) == (title + front) + line + back;
  }

  // Where the line of message `i` starts in a transcript.
  function LineStart(ms: seq<Message>, i: nat): nat
    requires i < |ms|
  {
    if i == 0 then 0 else |Transcript(ms[..i])| + 1
  }

  // The transcript around one line.
  lemma TranscriptAround(ms: seq<Message>, i: nat) returns (front: string, back: string)
    requires i < |ms|
    ensures Transcript(ms) == front + Line(ms[i]) + back && |front| == LineStart(ms, i)
  {
    var rest := ms[i..];
    assert ms == ms[..i] + rest;
    front := if i == 0 then "" else Transcript(ms[..i]) + "\n";
    back := if i + 1 == |ms| then "" else "\n" + Transcript(rest[1..]);
    assert Transcript(rest) == Line(ms[i]) + back;
    if i > 0 {
      LinesJoin(ms[..i], rest);
    }
    assert Transcript(ms) == front + (Line(ms[i]) + back);
  }

  lemma LineIsTold(ms: seq<Message>, i: nat)
    requires i < |ms|
    ensures Tells(Summary(ECHO, ms), ms[i], |SUMMARY_REQUEST| + LineStart(ms, i))
  {
    var front, back := TranscriptAround(ms, i);
    TellsInside(SUMMARY_REQUEST, front, ms[i], back);
  }

  // Every message of a history is told, with role and content, in the order of the history.
  lemma EveryMessageIsTold(ms: seq<Message>, i: nat, j: nat) returns (first: nat, second: nat)
    requires i < j < |ms|
    ensures Tells(Summary(ECHO, ms), ms[i], first) && Tells(Summary(ECHO, ms), ms[j], second)
    ensures first + |Line(ms[i])| < second
  {
    first, second := |SUMMARY_REQUEST| + LineStart(ms, i), |SUMMARY_REQUEST| + LineStart(ms, j);
    LineIsTold(ms, i);
    LineIsTold(ms, j);
    var told := ms[..j];
    var front, back := TranscriptAround(told, i);
    assert told[..i] == ms[..i];
  }

  // The message that a compression inserts stands in for everything it removed: with a summariser
  // that repeats what it is told, its content has every old message, in order.
  lemma SummaryTellsTheOldMessages(ms: seq<Message>, keep: int, uid: nat, i: nat, j: nat)
      returns (first: nat, second: nat)
    requires i <= j < Cut(Others(ms), keep)
    ensures var past := Others(ms)[..Cut(Others(ms), keep)];
      var out := Reduced(ms, keep, Some(Summary(ECHO, past)), uid);
      var at := SystemBlock(KeepIds(ms, SurvivorIds(ms, keep)));
      && at < |out| && out[at].role == "system" && out[at].uid == uid
      && Tells(out[at].content, Others(ms)[i], first) && Tells(out[at].content, Others(ms)[j], second)
      && (i < j ==> first + |Line(Others(ms)[i])| < second)
  {
    var past := Others(ms)[..Cut(Others(ms), keep)];
    if i < j {
      first, second := EveryMessageIsTold(past, i, j);
    } else {
      first, second := |SUMMARY_REQUEST| + LineStart(past, i), |SUMMARY_REQUEST| + LineStart(past, i);
      LineIsTold(past, i);
    }
    TellsBehind(SUMMARY_TITLE, Summary(ECHO, past), past[i], first);
    TellsBehind(SUMMARY_TITLE, Summary(ECHO, past), past[j], second);
    first, second := |SUMMARY_TITLE| + first, |SUMMARY_TITLE| + second;
  }

  lemma TellsBehind(title: string, text: string, m: Message, at: nat)
    requires Tells(text, m, at)
    ensures Tells(title + text, m, |title| + at)
  {}

  // What a caller can check: messages with equal keys read the same.
  ghost predicate KeysFixLines(hash: Hash, universe: set<Message>) {
    forall a, b | a in universe && b in universe :: Key(hash, a) == Key(hash, b) ==> Line(a) == Line(b)
  }

  lemma {:induction false} SameKeysSameTranscript(hash: Hash, universe: set<Message>, a: seq<Message>, b: seq<Message>)
    requires KeysFixLines(hash, universe) && Over(universe, a) && Over(universe, b)
    requires Keys(hash, a) == Keys(hash, b)
    ensures Transcript(a) == Transcript(b)
  {
    assert |a| == |Keys(hash, a)| == |b|;
    if a != [] {
      assert Key(hash, a[0]) == Keys(hash, a)[0] == Keys(hash, b)[0];
      assert Line(a[0]) == Line(b[0]);
      forall i | 0 <= i < |a| - 1
        ensures Keys(hash, a[1..])[i] == Keys(hash, b[1..])[i]
      {
        assert Keys(hash, a)[i + 1] == Keys(hash, b)[i + 1];
      }
      SameKeysSameTranscript(hash, universe, a[1..], b[1..]);
    }
  }

  ghost predicate TransparentForAll(hash: Hash, universe: set<Message>) {
    forall summarize: Summarizer :: Transparent(hash, summarize, universe)
  }

  // The cache is invisible for every summariser if and only if messages with equal keys have equal
  // transcript lines.
  lemma CacheIsAlwaysTransparentIff(hash: Hash, universe: set<Message>)
    ensures TransparentForAll(hash, universe) <==> KeysFixLines(hash, universe)
  {
    if KeysFixLines(hash, universe) {
      forall summarize: Summarizer
        ensures Transparent(hash, summarize, universe)
      {
        LinesFixSummaries(hash, summarize, universe);
      }
    }
    if TransparentForAll(hash, universe) {
      var echo: Summarizer := (s: string) => s;
      CacheIsTransparentIff(hash, echo, universe);
      forall a, b | a in universe && b in universe && Key(hash, a) == Key(hash, b)
        ensures Line(a) == Line(b)
      {
        assert Keys(hash, [a]) == Keys(hash, [b]);
        assert Over(universe, [a]) && Over(universe, [b]);
        assert Summary(echo, [a]) == Summary(echo, [b]);
        assert Summary(echo, [a])[|SUMMARY_REQUEST|..] == Line(a);
        assert Summary(echo, [b])[|SUMMARY_REQUEST|..] == Line(b);
      }
    }
  }

  lemma LinesFixSummaries(hash: Hash, summarize: Summarizer, universe: set<Message>)
    requires KeysFixLines(hash, universe)
    ensures Transparent(hash, summarize, universe)
  {
    forall a, b | Over(universe, a) && Over(universe, b) && Keys(hash, a) == Keys(hash, b)
      ensures Summary(summarize, a) == Summary(summarize, b)
    {
      SameKeysSameTranscript(hash, universe, a, b);
    }
    CacheIsTransparentIff(hash, summarize, universe);
  }

  // Equal keys mean equal role and content.
  ghost predicate KeyFaithful(hash: Hash, universe: set<Message>) {
    forall a, b | a in universe && b in universe ::
      Key(hash, a) == Key(hash, b) ==> a.role == b.role && a.content == b.content
  }

  // When keys are faithful the cache is invisible.
  lemma FaithfulKeysAreTransparent(hash: Hash, summarize: Summarizer, universe: set<Message>)
    requires KeyFaithful(hash, universe)
    ensures Transparent(hash, summarize, universe)
  {
    LinesFixSummaries(hash, summarize, universe);
  }

  // A digest that tells texts apart.
  ghost predicate Injective(hash: Hash) {
    forall a, b :: hash(a) == hash(b) ==> a == b
  }

  // A message that is known by its digest: dict-shaped, or an object without an id.
  predicate Digested(m: Message) {
    m.isDict || m.id == None || m.id == Some("")
  }

  lemma ColonSplits(r: string, c: string, r': string, c': string)
    requires ':' !in r && ':' !in r' && r + ":" + c == r' + ":" + c'
    ensures r == r' && c == c'
  {
    var text := r + ":" + c;
    assert text[|r|] == ':' && text[|r'|] == ':';
    assert forall i :: 0 <= i < |r| ==> text[i] == r[i];
    assert forall i :: 0 <= i < |r'| ==> text[i] == r'[i];
    assert text[..|r|] == r && text[..|r'|] == r';
    assert text[|r| + 1..] == c && text[|r'| + 1..] == c';
  }

  // Messages without ids never mislead the cache, whatever is edited in them, as long as the digest tells
  // texts apart and no role has a colon: then it is invisible for every summariser.
  lemma DigestsAreTransparent(hash: Hash, universe: set<Message>)
    requires Injective(hash) && forall m | m in universe :: Digested(m) && ':' !in m.role
    ensures TransparentForAll(hash, universe)
  {
    forall a, b | a in universe && b in universe && Key(hash, a) == Key(hash, b)
      ensures Line(a) == Line(b)
    {
      ColonSplits(a.role, a.content, b.role, b.content);
    }
    CacheIsAlwaysTransparentIff(hash, universe);
  }

  // A colon in a role misleads it, whatever the digest: these two messages read differently, and the
  // second is answered with the summary of the first.
  lemma ColonInRoleMisleads(hash: Hash)
    ensures var first := [Message(0, true, "a", ":b", false, None)];
      var second := [Message(1, true, "a:", "b", false, None)];
      && Uncached(ECHO, [first, second]) == [SUMMARY_REQUEST + "a: :b", SUMMARY_REQUEST + "a:: b"]
      && Answers(hash, ECHO, [first, second]) == [SUMMARY_REQUEST + "a: :b", SUMMARY_REQUEST + "a: :b"]
  {
    var first := [Message(0, true, "a", ":b", false, None)];
    var second := [Message(1, true, "a:", "b", false, None)];
    assert "a" + ":" + ":b" == "a:" + ":" + "b" == "a::b";
    assert Keys(hash, first) == Keys(hash, second);
    assert Transcript(first) == "a" + ": " + ":b" == "a: :b";
    assert Transcript(second) == "a:" + ": " + "b" == "a:: b";
    SecondAnswerIsFirst(hash, ECHO, first, second);
  }

  // One history to compress, and the identity of a summary message made for it.
  datatype Input = Input(messages: seq<Message>, uid: nat)

  function Past(keep: int, input: Input): seq<Message> {
    Others(input.messages)[..Cut(Others(input.messages), keep)]
  }

  ghost function ReducedWith(keep: int, input: Input, text: string): seq<Message> {
    Reduced(input.messages, keep, if Past(keep, input) == [] then None else Some(text), input.uid)
  }

  // The summaries a run of compressions asks for.
  function Requests(keep: int, inputs: seq<Input>): Calls {
    if inputs == [] then []
    else
      var last := Past(keep, inputs[|inputs| - 1]);
      Requests(keep, inputs[..|inputs| - 1]) + if last == [] then [] else [last]
  }

  ghost function CachedRun(hash: Hash, summarize: Summarizer, keep: int, inputs: seq<Input>): seq<seq<Message>> {
    if inputs == [] then []
    else
      var front, last := inputs[..|inputs| - 1], inputs[|inputs| - 1];
      var cache := CacheAfter(hash, summarize, Requests(keep, front));
      CachedRun(hash, summarize, keep, front) +
      [ReducedWith(keep, last, Ask(hash, summarize, cache, Past(keep, last)).1)]
  }

  ghost function PlainRun(summarize: Summarizer, keep: int, inputs: seq<Input>): seq<seq<Message>> {
    if inputs == [] then []
    else
      var front, last := inputs[..|inputs| - 1], inputs[|inputs| - 1];
      PlainRun(summarize, keep, front) + [ReducedWith(keep, last, Summary(summarize, Past(keep, last)))]
  }

  ghost predicate AllFrom(universe: set<Message>, inputs: seq<Input>) {
    forall input, m :: input in inputs && m in input.messages ==> m in universe
  }

  lemma {:induction false} RequestsAreOver(keep: int, universe: set<Message>, inputs: seq<Input>)
    requires AllFrom(universe, inputs)
    ensures AllOver(universe, Requests(keep, inputs))
  {
    if inputs != [] {
      RequestsAreOver(keep, universe, inputs[..|inputs| - 1]);
      assert inputs[|inputs| - 1] in inputs;
    }
  }

  // A manager that compresses any run of histories through its cache produces what one without a
  // cache produces, when equal keys mean equal role and content.
  lemma {:induction false} CachedReduceIsPlain(hash: Hash, summarize: Summarizer, keep: int, universe: set<Message>,
      inputs: seq<Input>)
    requires KeyFaithful(hash, universe) && AllFrom(universe, inputs)
    ensures CachedRun(hash, summarize, keep, inputs) == PlainRun(summarize, keep, inputs)
  {
    if inputs != [] {
      var front, last := inputs[..|inputs| - 1], inputs[|inputs| - 1];
      CachedReduceIsPlain(hash, summarize, keep, universe, front);
      var before, past := Requests(keep, front), Past(keep, last);
      if past != [] {
        var calls := Requests(keep, inputs);
        assert calls == before + [past] && calls[..|calls| - 1] == before;
        RequestsAreOver(keep, universe, inputs);
        FaithfulKeysAreTransparent(hash, summarize, universe);
        assert Answers(hash, summarize, calls) == Uncached(summarize, calls);
        assert Answers(hash, summarize, calls)[|Answers(hash, summarize, before)|] ==
          Ask(hash, summarize, CacheAfter(hash, summarize, before), past).1;
        SameLength(hash, summarize, before);
      }
    }
  }

  lemma {:induction false} SameLength(hash: Hash, summarize: Summarizer, calls: Calls)
    ensures |Answers(hash, summarize, calls)| == |Uncached(summarize, calls)| == |calls|
  {
    if calls != [] {
      SameLength(hash, summarize, calls[..|calls| - 1]);
    }
  }

  // ---------------------------------------------------------------------------
  // The manager in place

  class ContextManager {
    const keep: int
    const summarizer: Option<Summarizer>
    const hash: Hash
    const cache: FifoMap<CacheKey, string>

    ghost predicate Valid()
      reads this, cache
    {
      cache.Valid() && cache.cap == SUMMARY_CAPACITY
    }

    ghost function View(): Cache
      reads this, cache
    {
      Cache(cache.keys, cache.vals)
    }

    constructor (keep: int, summarizer: Option<Summarizer>, hash: Hash)
      ensures Valid() && fresh(cache) && View() == Cache([], map[])
      ensures this.keep == keep && this.summarizer == summarizer && this.hash == hash
    {
      this.keep, this.summarizer, this.hash := keep, summarizer, hash;
      cache := new FifoMap(SUMMARY_CAPACITY);
    }

    method SummaryFor(past: seq<Message>) returns (text: string)
      requires Valid() && summarizer.Some?
      modifies cache
      ensures Valid()
      ensures (View(), text) == Ask(hash, summarizer.value, old(View()), past)
    {
      var key := Keys(hash, past);
      if key in cache.vals {
        return cache.vals[key];
      }
      text := Summary(summarizer.value, past);
      cache.Put(key, text);
    }

    // The loop that rewinds the cut to a human turn.
    method FindCut(others: seq<Message>) returns (cut: nat)
      ensures cut == Cut(others, keep)
    {
      cut := FirstCut(|others|, keep);
      ghost var start := cut;
      while 0 < cut < |others| && !IsHuman(others[cut])
        invariant Rewind(cut, others) == Rewind(start, others)
        decreases cut
      {
        cut := cut - 1;
      }
      if cut > |others| {
        cut := |others|;
      }
    }

    // Puts the summary right after the leading system messages.
    method InsertSummary(kept: seq<Message>, summary: Message) returns (result: seq<Message>)
      ensures result == Insert(kept, SystemBlock(kept), summary)
    {
      var at := 0;
      while at < |kept| && kept[at].role == "system"
        invariant 0 <= at <= SystemBlock(kept)
      {
        at := at + 1;
      }
      result := Insert(kept, at, summary);
    }

    method Reduce(messages: seq<Message>, uid: nat) returns (result: seq<Message>)
      requires Valid()
      modifies cache
      ensures Valid()
      ensures var past := Others(messages)[..Cut(Others(messages), keep)];
        var text :=
          if summarizer.Some? && past != [] then Some(Ask(hash, summarizer.value, old(View()), past).1) else None;
        && result == Reduced(messages, keep, text, uid)
        && View() == if text.Some? then Ask(hash, summarizer.value, old(View()), past).0 else old(View())
    {
      var others := Others(messages);
      var cut := FindCut(others);
      if cut == 0 {
        return messages;
      }
      result := KeepIds(messages, Uids(Pick(messages, true)) + Uids(others[cut..]));
      if summarizer.Some? {
        var text := SummaryFor(others[..cut]);
        result := InsertSummary(result, SummaryMessage(uid, text));
      }
    }
  }
}
