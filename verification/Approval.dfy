/**
  Human approval: a node asks, is interrupted, and on resume runs again from
  its start and asks again. The request is announced through a bounded dedupe
  table, so that re-execution does not announce it twice.
 */
module Approval {
  import opened Wrappers
  import opened Basics
  import opened BoundedFifo

  type ApprovalId = string

  const ANNOUNCED_CAPACITY: nat := 1024

  datatype Decision = Decision(approved: bool, comment: Option<string>, decidedBy: Option<string>)

  // Any Python value, with its truth value.
  datatype Loose = Loose(truthy: bool, data: string)

  // What a resume command carries.
  datatype Raw =
    | RawDecision(decision: Decision)
    | RawBool(approved: bool)
    | RawDict(approvedKey: Option<Loose>, comment: Option<string>, decidedBy: Option<string>)
    | RawOther(value: Loose)

  function Normalize(raw: Raw): Decision {
    match raw
    case RawDecision(d) => d
    case RawBool(b) => Decision(b, None, None)
    case RawDict(approved, comment, decider) => Decision(approved.Some? && approved.value.truthy, comment, decider)
    case RawOther(value) => Decision(value.truthy, None, None)
  }

  datatype Effect = Requested(id: ApprovalId) | Decided(id: ApprovalId, decision: Decision)

  // One execution of the asking node: `answer` is None when the interrupt stops it, and
  // `adapterRaises` says what the adapter does if it is called.
  datatype Call = Call(id: ApprovalId, adapterRaises: bool, answer: Option<Raw>)

  // The adapter stops the execution before the interrupt; it is called only with an announcement.
  predicate Stopped(announced: seq<ApprovalId>, c: Call) {
    c.id !in announced && c.adapterRaises
  }

  // The answer an execution gets to see.
  function Heard(announced: seq<ApprovalId>, c: Call): Option<Decision> {
    if c.answer.Some? && !Stopped(announced, c) then Some(Normalize(c.answer.value)) else None
  }

  function DecisionOf(id: ApprovalId, decision: Option<Decision>): seq<Effect> {
    if decision.Some? then [Decided(id, decision.value)] else []
  }

  function Ids(calls: seq<Call>): seq<ApprovalId> {
    if calls == [] then [] else Ids(calls[..|calls| - 1]) + [calls[|calls| - 1].id]
  }

  function CallEffects(announced: seq<ApprovalId>, c: Call): seq<Effect> {
    (if c.id in announced then [] else [Requested(c.id)]) + DecisionOf(c.id, Heard(announced, c))
  }

  function Effects(calls: seq<Call>): seq<Effect> {
    if calls == [] then []
    else
      var before := calls[..|calls| - 1];
      Effects(before) + CallEffects(Table(ANNOUNCED_CAPACITY, Ids(before)), calls[|calls| - 1])
  }

  function Announcements(effects: seq<Effect>): seq<ApprovalId> {
    if effects == [] then []
    else if effects[0].Requested? then [effects[0].id] + Announcements(effects[1..])
    else Announcements(effects[1..])
  }

  function Decisions(effects: seq<Effect>): seq<Effect> {
    if effects == [] then []
    else if effects[0].Decided? then [effects[0]] + Decisions(effects[1..])
    else Decisions(effects[1..])
  }

  lemma {:induction false} EffectsConcat(a: seq<Effect>, b: seq<Effect>)
    ensures Announcements(a + b) == Announcements(a) + Announcements(b)
    ensures Decisions(a + b) == Decisions(a) + Decisions(b)
  {
    if a == [] {
      assert a + b == b;
    } else {
      assert (a + b)[1..] == a[1..] + b;
      EffectsConcat(a[1..], b);
    }
  }

  lemma CallEffectsSplit(announced: seq<ApprovalId>, c: Call)
    ensures Announcements(CallEffects(announced, c)) == if c.id in announced then [] else [c.id]
    ensures Decisions(CallEffects(announced, c)) == DecisionOf(c.id, Heard(announced, c))
  {
    EffectsConcat(if c.id in announced then [] else [Requested(c.id)], DecisionOf(c.id, Heard(announced, c)));
  }

  lemma {:induction false} AnnouncementsAreTheLog(calls: seq<Call>)
    ensures Announcements(Effects(calls)) == Log(ANNOUNCED_CAPACITY, Ids(calls))
  {
    if calls != [] {
      var before, last := calls[..|calls| - 1], calls[|calls| - 1];
      AnnouncementsAreTheLog(before);
      var ids := Ids(calls);
      assert ids[..|ids| - 1] == Ids(before);
      var announced := Table(ANNOUNCED_CAPACITY, Ids(before));
      CallEffectsSplit(announced, last);
      EffectsConcat(Effects(before), CallEffects(announced, last));
    }
  }

  // The call announces its approval: none of the last 1024 announcements was for it.
  predicate Announces(announcements: seq<ApprovalId>, c: Call) {
    c.id !in LastN(ANNOUNCED_CAPACITY, announcements)
  }

  // The decisions of a run, told from its calls and announcements alone: every answered call leaves
  // its own, in order, except one that announces through an adapter that raises.
  function AnsweredCalls(calls: seq<Call>): seq<Effect> {
    if calls == [] then []
    else
      var before, last := calls[..|calls| - 1], calls[|calls| - 1];
      var lost := last.adapterRaises && Announces(Announcements(Effects(before)), last);
      AnsweredCalls(before) +
      if last.answer.Some? && !lost then [Decided(last.id, Normalize(last.answer.value))] else []
  }

  lemma {:induction false} EveryAnswerIsRecorded(calls: seq<Call>)
    ensures Decisions(Effects(calls)) == AnsweredCalls(calls)
  {
    if calls != [] {
      var before, last := calls[..|calls| - 1], calls[|calls| - 1];
      EveryAnswerIsRecorded(before);
      var announced := Table(ANNOUNCED_CAPACITY, Ids(before));
      CallEffectsSplit(announced, last);
      EffectsConcat(Effects(before), CallEffects(announced, last));
      AnnouncementsAreTheLog(before);
      TableIsWindow(ANNOUNCED_CAPACITY, Ids(before));
    }
  }

  // `d` is what an answer decides: a decision as it is; anything else by its truth value, where a dict
  // counts by its "approved" entry and a dict without one is a refusal. Only a dict brings a comment.
  predicate Decides(raw: Raw, d: Decision) {
    match raw
    case RawDecision(given) => d == given
    case RawBool(b) => d.approved == b && d.comment == None && d.decidedBy == None
    case RawDict(key, comment, decider) =>
      && (key.None? ==> !d.approved) && (key.Some? ==> d.approved == key.value.truthy)
      && d.comment == comment && d.decidedBy == decider
    case RawOther(value) => d.approved == value.truthy && d.comment == None && d.decidedBy == None
  }

  // Call `i` asked for approval `id` and was answered with `d`.
  predicate Answered(calls: seq<Call>, id: ApprovalId, d: Decision, i: nat) {
    i < |calls| && calls[i].id == id && calls[i].answer.Some? && Decides(calls[i].answer.value, d)
  }

  lemma {:induction false} EffectsAppear(a: seq<Effect>, e: Effect)
    requires e in a && e.Decided?
    ensures e in Decisions(a)
  {
    if a[0] != e {
      EffectsAppear(a[1..], e);
    }
  }

  lemma {:induction false} AnsweredIsAnswered(calls: seq<Call>, id: ApprovalId, d: Decision)
    requires Decided(id, d) in AnsweredCalls(calls)
    ensures exists i: nat :: Answered(calls, id, d, i)
  {
    var before, last := calls[..|calls| - 1], calls[|calls| - 1];
    if Decided(id, d) in AnsweredCalls(before) {
      AnsweredIsAnswered(before, id, d);
      var i: nat :| Answered(before, id, d, i);
      assert Answered(calls, id, d, i);
    } else {
      assert Answered(calls, id, d, |before|);
    }
  }

  // No approval is made up: over any sequence of executions, every recorded decision is what somebody
  // answered to that very request, and a refusal is recorded as a refusal.
  lemma DecisionsAreAnswers(calls: seq<Call>, id: ApprovalId, d: Decision)
    requires Decided(id, d) in Effects(calls)
    ensures exists i: nat :: Answered(calls, id, d, i)
  {
    EffectsAppear(Effects(calls), Decided(id, d));
    EveryAnswerIsRecorded(calls);
    AnsweredIsAnswered(calls, id, d);
  }

  lemma {:induction false} AnnouncedIsRequested(effects: seq<Effect>, id: ApprovalId)
    ensures id in Announcements(effects) <==> Requested(id) in effects
  {
    if effects != [] {
      AnnouncedIsRequested(effects[1..], id);
      assert effects == [effects[0]] + effects[1..];
    }
  }

  // A decision comes after the request for it: over any sequence of executions, no approval is decided
  // that was not announced before.
  lemma {:induction false} NoDecisionWithoutRequest(calls: seq<Call>, j: nat)
    requires j < |Effects(calls)| && Effects(calls)[j].Decided?
    ensures Requested(Effects(calls)[j].id) in Effects(calls)[..j]
  {
    var before, last := calls[..|calls| - 1], calls[|calls| - 1];
    var done, all := Effects(before), Effects(calls);
    var announced := Table(ANNOUNCED_CAPACITY, Ids(before));
    if j < |done| {
      NoDecisionWithoutRequest(before, j);
      assert all[..j] == done[..j];
    } else if last.id in announced {
      AnnouncementsAreTheLog(before);
      TableIsWindow(ANNOUNCED_CAPACITY, Ids(before));
      AnnouncedIsRequested(done, last.id);
      assert Requested(last.id) in done && done <= all[..j];
    } else {
      assert all[|done|] == Requested(last.id) && all[..j][|done|] == Requested(last.id);
    }
  }

  function AllAnswers(calls: seq<Call>): seq<Effect> {
    if calls == [] then []
    else
      (if calls[0].answer.Some? then [Decided(calls[0].id, Normalize(calls[0].answer.value))] else []) +
      AllAnswers(calls[1..])
  }

  lemma {:induction false} AllAnswersAppend(calls: seq<Call>, c: Call)
    ensures AllAnswers(calls + [c]) == AllAnswers(calls) + AllAnswers([c])
  {
    if calls == [] {
      assert calls + [c] == [c];
    } else {
      assert (calls + [c])[1..] == calls[1..] + [c];
      AllAnswersAppend(calls[1..], c);
    }
  }

  // With an adapter that never raises, the decisions are exactly the answers, in order, whatever was
  // announced and evicted in between.
  lemma {:induction false} QuietAdapterRecordsAllAnswers(calls: seq<Call>)
    requires forall i :: 0 <= i < |calls| ==> !calls[i].adapterRaises
    ensures Decisions(Effects(calls)) == AllAnswers(calls)
  {
    if calls != [] {
      var before, last := calls[..|calls| - 1], calls[|calls| - 1];
      QuietAdapterRecordsAllAnswers(before);
      EveryAnswerIsRecorded(calls);
      EveryAnswerIsRecorded(before);
      AllAnswersAppend(before, last);
      assert calls == before + [last];
    }
  }

  // However often nodes re-run: two announcements of one id have more than 1023 others between
  // them, and a run over at most 1024 approvals announces each exactly once.
  lemma AnnouncedOnceBetweenEvictions(calls: seq<Call>)
    ensures var log := Announcements(Effects(calls));
      && (forall i, j :: 0 <= i < j < |log| && log[i] == log[j] ==> j - i > ANNOUNCED_CAPACITY)
      && (|set id | id in Ids(calls)| <= ANNOUNCED_CAPACITY ==>
            NoDup(log) && forall id :: id in Ids(calls) <==> id in log)
  {
    AnnouncementsAreTheLog(calls);
    InsertionsAreFarApart(ANNOUNCED_CAPACITY, Ids(calls));
    if |set id | id in Ids(calls)| <= ANNOUNCED_CAPACITY {
      FewKeysInsertOnce(ANNOUNCED_CAPACITY, Ids(calls));
    }
  }

  // A call announces exactly when its id was never announced, or 1024 announcements followed its last one.
  lemma AnnouncesExactlyWhenForgotten(calls: seq<Call>, c: Call)
    ensures var log := Announcements(Effects(calls));
      Announcements(CallEffects(Table(ANNOUNCED_CAPACITY, Ids(calls)), c)) ==
        if forall i :: 0 <= i < |log| && log[i] == c.id ==> |log| - 1 - i >= ANNOUNCED_CAPACITY then [c.id] else []
  {
    AnnouncementsAreTheLog(calls);
    CallEffectsSplit(Table(ANNOUNCED_CAPACITY, Ids(calls)), c);
    MissesExactlyWhenEvicted(ANNOUNCED_CAPACITY, Ids(calls), c.id);
  }

  // An adapter that raised is not called again for its approval while the id is remembered: the
  // re-execution announces nothing.
  lemma FailedPushIsNotRepeated(calls: seq<Call>, c: Call, again: Call)
    requires Stopped(Table(ANNOUNCED_CAPACITY, Ids(calls)), c) && again.id == c.id
    ensures Announcements(CallEffects(Table(ANNOUNCED_CAPACITY, Ids(calls + [c])), again)) == []
  {
    var more := calls + [c];
    assert more[..|more| - 1] == calls;
    var ids := Ids(more);
    assert ids[..|ids| - 1] == Ids(calls);
    CallEffectsSplit(Table(ANNOUNCED_CAPACITY, ids), again);
  }

  class ApprovalDesk {
    const announced: FifoMap<ApprovalId, ()>
    var effects: seq<Effect>

    ghost predicate Valid()
      reads this, announced
    {
      announced.Valid() && announced.cap == ANNOUNCED_CAPACITY
    }

    constructor ()
      ensures Valid() && fresh(announced) && announced.keys == [] && effects == []
    {
      announced := new FifoMap(ANNOUNCED_CAPACITY);
      effects := [];
    }

    // Runs the request up to the interrupt, and past it when an answer has arrived.
    method RequestApproval(c: Call) returns (decision: Option<Decision>)
      requires Valid()
      modifies this, announced
      ensures Valid()
      ensures announced.keys == Offer(ANNOUNCED_CAPACITY, old(announced.keys), c.id)
      ensures effects == old(effects) + CallEffects(old(announced.keys), c)
      ensures decision == Heard(old(announced.keys), c)
    {
      if c.id !in announced.vals {
        announced.Put(c.id, ());
        effects := effects + [Requested(c.id)];
        if c.adapterRaises {
          return None;
        }
      }
      if c.answer.None? {
        return None;
      }
      var d := Normalize(c.answer.value);
      effects := effects + [Decided(c.id, d)];
      decision := Some(d);
    }

    // Any sequence of executions and re-executions.
    method Serve(calls: seq<Call>)
      requires Valid() && announced.keys == [] && effects == []
      modifies this, announced
      ensures Valid() && |announced.keys| <= ANNOUNCED_CAPACITY
      ensures effects == Effects(calls)
      ensures announced.keys == Table(ANNOUNCED_CAPACITY, Ids(calls))
    {
      var i := 0;
      while i < |calls|
        invariant 0 <= i <= |calls|
        invariant Valid() && effects == Effects(calls[..i])
        invariant announced.keys == Table(ANNOUNCED_CAPACITY, Ids(calls[..i]))
      {
        var _ := RequestApproval(calls[i]);
        assert calls[..i + 1][..i] == calls[..i];
        var ids := Ids(calls[..i + 1]);
        assert ids[..|ids| - 1] == Ids(calls[..i]);
        i := i + 1;
      }
      assert calls[..i] == calls;
    }
  }
}
