/**
  Two-level admission: a request runs while it holds a slot of the global
  semaphore and a slot of its agent's semaphore.

  `Step` is the interleaving semantics. Each request has its own program
  counter and one step runs one atomic piece of one request: a single
  non-blocking acquire, a single release, or the setting of the `released`
  flag. A schedule picks any request at any time, so a theorem over all
  schedules covers every interleaving of any number of requests.
 */
module Concurrency {
  import opened Basics
  import opened Wrappers

  type AgentId = string
  type RequestId = nat

  datatype Sem = GlobalSem | AgentSem(agent: AgentId)

  datatype Config = Config(globalMax: Option<int>, perAgent: map<AgentId, int>) {
    // The slots of a semaphore; 0 means that it was never created.
    function Limit(sem: Sem): nat {
      match sem
      case GlobalSem => if globalMax.Some? && globalMax.value > 0 then globalMax.value else 0
      case AgentSem(a) => if a in perAgent && perAgent[a] > 0 then perAgent[a] else 0
    }

    predicate Exists(sem: Sem) {
      Limit(sem) > 0
    }
  }

  datatype AfterRelease = BackToApp | Leave

  datatype Outcome = Rejected | Served | PassedThrough

  datatype Pc =
    | Start
    | TryAgent
    | RollingBack(next: nat)
    | Rejecting(scope: Sem)
    | InApp
    | Releasing(next: nat, after: AfterRelease)
    | Passing
    | Done(outcome: Outcome)

  datatype Request = Request(counted: bool, agent: Option<AgentId>, acquired: seq<Sem>, released: bool, pc: Pc)

  // What the environment makes of a request when it is scheduled.
  datatype Event = Proceed | AppSends(finalBody: bool) | AppEnds

  datatype State = State(free: map<Sem, nat>, requests: map<RequestId, Request>, overReleased: bool)

  predicate IsFresh(q: Request) {
    q.pc == Start && q.acquired == [] && !q.released
  }

  function AgentOf(q: Request): Option<Sem> {
    match q.agent case None => None case Some(a) => Some(AgentSem(a))
  }

  ghost predicate IsInit(c: Config, s: State) {
    && (forall sem :: sem in s.free <==> c.Exists(sem))
    && (forall sem | sem in s.free :: s.free[sem] == c.Limit(sem))
    && (forall r | r in s.requests :: IsFresh(s.requests[r]))
    && !s.overReleased
  }

  // BoundedSemaphore.release: giving back more than was taken is an error.
  function Release(c: Config, s: State, sem: Sem): State {
    if sem in s.free && s.free[sem] < c.Limit(sem) then s.(free := s.free[sem := s.free[sem] + 1])
    else s.(overReleased := true)
  }

  function Put(s: State, r: RequestId, q: Request): State {
    s.(requests := s.requests[r := q])
  }

  // The global level: one non-blocking acquire, or a 429.
  function EnterGlobal(s: State, r: RequestId, q: Request): State {
    if !q.counted then Put(s, r, q.(pc := Passing))
    else if GlobalSem !in s.free then Put(s, r, q.(pc := TryAgent))
    else if s.free[GlobalSem] == 0 then Put(s, r, q.(pc := Rejecting(GlobalSem)))
    else
      Put(s.(free := s.free[GlobalSem := s.free[GlobalSem] - 1]), r,
          q.(pc := TryAgent, acquired := q.acquired + [GlobalSem]))
  }

  // The agent level: one non-blocking acquire, or the start of the rollback.
  function EnterAgent(s: State, r: RequestId, q: Request): State {
    match AgentOf(q)
    case None => Put(s, r, q.(pc := InApp))
    case Some(sem) =>
      if sem !in s.free then Put(s, r, q.(pc := InApp))
      else if s.free[sem] == 0 then Put(s, r, q.(pc := RollingBack(0)))
      else Put(s.(free := s.free[sem := s.free[sem] - 1]), r, q.(pc := InApp, acquired := q.acquired + [sem]))
  }

  // The agent level refused: give back what was acquired, one semaphore a step, then answer 429.
  function RollBack(c: Config, s: State, r: RequestId, q: Request, i: nat): State {
    if i < |q.acquired| then Put(Release(c, s, q.acquired[i]), r, q.(pc := RollingBack(i + 1)))
    else if AgentOf(q).Some? then Put(s, r, q.(pc := Rejecting(AgentOf(q).value)))
    else s
  }

  // A call of the closure `release`: only the first one sets the flag and enters the loop.
  function CallRelease(s: State, r: RequestId, q: Request, after: AfterRelease): State {
    if !q.released then Put(s, r, q.(released := true, pc := Releasing(0, after)))
    else if after == BackToApp then s
    else Put(s, r, q.(pc := Done(Served)))
  }

  // One turn of the loop in `release`.
  function ReleaseOne(c: Config, s: State, r: RequestId, q: Request, i: nat, after: AfterRelease): State {
    if i < |q.acquired| then Put(Release(c, s, q.acquired[i]), r, q.(pc := Releasing(i + 1, after)))
    else Put(s, r, q.(pc := if after == BackToApp then InApp else Done(Served)))
  }

  function Step(c: Config, s: State, r: RequestId, e: Event): State {
    if r !in s.requests then s else
    var q := s.requests[r];
    match q.pc
    case Start => if e == Proceed then EnterGlobal(s, r, q) else s
    case TryAgent => if e == Proceed then EnterAgent(s, r, q) else s
    case RollingBack(i) => if e == Proceed then RollBack(c, s, r, q, i) else s
    case Rejecting(_) => if e == Proceed then Put(s, r, q.(pc := Done(Rejected))) else s
    case InApp =>
      if e == AppSends(true) then CallRelease(s, r, q, BackToApp)
      else if e == AppEnds then CallRelease(s, r, q, Leave)
      else s
    case Releasing(i, after) => if e == Proceed then ReleaseOne(c, s, r, q, i, after) else s
    case Passing => if e == AppEnds then Put(s, r, q.(pc := Done(PassedThrough))) else s
    case Done(_) => s
  }

  type Schedule = seq<(RequestId, Event)>

  function Run(c: Config, s: State, schedule: Schedule): State {
    if schedule == [] then s
    else
      var last := schedule[|schedule| - 1];
      Step(c, Run(c, s, schedule[..|schedule| - 1]), last.0, last.1)
  }

  // The slots a request holds, read off its program counter.
  function Held(q: Request): seq<Sem> {
    match q.pc
    case TryAgent => q.acquired
    case RollingBack(i) => if i <= |q.acquired| then q.acquired[i..] else []
    case InApp => if q.released then [] else q.acquired
    case Releasing(i, _) => if i <= |q.acquired| then q.acquired[i..] else []
    case _ => []
  }

  ghost function Holders(s: State, sem: Sem): set<RequestId> {
    set r | r in s.requests && sem in Held(s.requests[r])
  }

  // The slots the protocol asks for, in its fixed order.
  function FirstLevel(c: Config): seq<Sem> {
    if c.Exists(GlobalSem) then [GlobalSem] else []
  }

  function BothLevels(c: Config, q: Request): seq<Sem> {
    FirstLevel(c) + if AgentOf(q).Some? && c.Exists(AgentOf(q).value) then [AgentOf(q).value] else []
  }

  // A level that can have refused a request, and what the request had acquired by then.
  ghost predicate RefusedBy(c: Config, q: Request, sem: Sem) {
    && c.Exists(sem)
    && if sem == GlobalSem then q.acquired == [] else AgentOf(q) == Some(sem) && q.acquired == FirstLevel(c)
  }

  ghost predicate LocalInv(c: Config, q: Request) {
    match q.pc
    case Start => IsFresh(q)
    case Passing => !q.counted && q.acquired == [] && !q.released
    case TryAgent => q.counted && q.acquired == FirstLevel(c) && !q.released
    case RollingBack(i) =>
      && q.counted && q.acquired == FirstLevel(c) && !q.released && i <= |q.acquired|
      && AgentOf(q).Some? && c.Exists(AgentOf(q).value)
    case Rejecting(sem) => q.counted && !q.released && RefusedBy(c, q, sem)
    case InApp => q.counted && q.acquired == BothLevels(c, q)
    case Releasing(i, _) => q.counted && q.acquired == BothLevels(c, q) && q.released && i <= |q.acquired|
    case Done(Rejected) => q.counted && !q.released
    case Done(Served) => q.counted && q.released && q.acquired == BothLevels(c, q)
    case Done(PassedThrough) => !q.counted && q.acquired == [] && !q.released
  }

  ghost predicate Inv(c: Config, s: State) {
    && (forall sem :: sem in s.free <==> c.Exists(sem))
    && (forall r | r in s.requests :: LocalInv(c, s.requests[r]))
    && (forall sem | sem in s.free :: s.free[sem] + |Holders(s, sem)| == c.Limit(sem))
    && !s.overReleased
  }

  function Slots(q: Request, sem: Sem): nat {
    if sem in Held(q) then 1 else 0
  }

  lemma CountWithOne(rest: set<RequestId>, r: RequestId, all: set<RequestId>, holds: bool)
    requires r !in rest && all == if holds then rest + {r} else rest
    ensures |all| == |rest| + if holds then 1 else 0
  {}

  // Without request `r`, the holders are those among the others.
  lemma OtherHolders(s: State, r: RequestId, sem: Sem)
    requires r in s.requests
    ensures Holders(s, sem) == (Holders(s, sem) - {r}) + if sem in Held(s.requests[r]) then {r} else {}
  {
    assert r in Holders(s, sem) <==> sem in Held(s.requests[r]);
  }

  // Replacing one request moves each holder count by what that request gained or lost.
  lemma HoldersAfterPut(s: State, s': State, r: RequestId, q: Request, sem: Sem)
    requires r in s.requests && s'.requests == s.requests[r := q]
    ensures |Holders(s', sem)| == |Holders(s, sem)| + Slots(q, sem) - Slots(s.requests[r], sem)
  {
    var rest := Holders(s, sem) - {r};
    forall x | x != r
      ensures x in Holders(s', sem) <==> x in Holders(s, sem)
    {}
    OtherHolders(s, r, sem);
    OtherHolders(s', r, sem);
    assert Holders(s', sem) - {r} == rest;
    CountWithOne(rest, r, Holders(s, sem), sem in Held(s.requests[r]));
    CountWithOne(rest, r, Holders(s', sem), sem in Held(q));
  }

  // As long as one request holds a slot, giving one back cannot overflow the semaphore.
  lemma HolderBlocksOverRelease(c: Config, s: State, r: RequestId, sem: Sem)
    requires Inv(c, s) && r in s.requests && sem in Held(s.requests[r]) && sem in s.free
    ensures s.free[sem] < c.Limit(sem)
  {
    assert r in Holders(s, sem);
  }

  // What one step of request `r` may do: replace that request by another locally
  // consistent one, and move slots between it and the semaphores.
  ghost predicate GoodStep(c: Config, s: State, r: RequestId, s': State)
    requires r in s.requests
  {
    && r in s'.requests
    && s'.requests == s.requests[r := s'.requests[r]]
    && LocalInv(c, s'.requests[r])
    && s'.free.Keys == s.free.Keys
    && !s'.overReleased
    && (forall sem | sem in s.free ::
      s'.free[sem] + Slots(s'.requests[r], sem) == s.free[sem] + Slots(s.requests[r], sem))
  }

  lemma EnterGlobalIsGood(c: Config, s: State, r: RequestId)
    requires Inv(c, s) && r in s.requests && s.requests[r].pc == Start
    ensures GoodStep(c, s, r, EnterGlobal(s, r, s.requests[r]))
  {}

  lemma EnterAgentIsGood(c: Config, s: State, r: RequestId)
    requires Inv(c, s) && r in s.requests && s.requests[r].pc == TryAgent
    ensures GoodStep(c, s, r, EnterAgent(s, r, s.requests[r]))
  {}

  lemma TailLosesItsHead(s: seq<Sem>, i: nat)
    requires i < |s| && (forall k :: i < k < |s| ==> s[k] != s[i])
    ensures var tail := s[i + 1..]; forall sem :: sem in tail <==> sem in s[i..] && sem != s[i]
  {
    var tail := s[i + 1..];
    assert s[i..] == [s[i]] + tail;
    forall sem | sem in tail
      ensures sem != s[i]
    {
      var k :| 0 <= k < |tail| && tail[k] == sem;
      assert s[i + 1 + k] == sem;
    }
  }

  // No semaphore is acquired twice by one request.
  lemma AcquiredOnce(c: Config, q: Request)
    requires LocalInv(c, q) && (q.pc.RollingBack? || q.pc.Releasing?)
    ensures forall sem | sem in q.acquired :: c.Exists(sem)
    ensures forall i, j :: 0 <= i < j < |q.acquired| ==> q.acquired[i] != q.acquired[j]
  {}

  // The slot a release loop gives back next is held, and its semaphore has room for it.
  lemma NextSlotHasRoom(c: Config, s: State, r: RequestId)
    requires Inv(c, s) && r in s.requests && (s.requests[r].pc.RollingBack? || s.requests[r].pc.Releasing?)
    requires s.requests[r].pc.next < |s.requests[r].acquired|
    ensures var sem := s.requests[r].acquired[s.requests[r].pc.next];
      sem in s.free && s.free[sem] < c.Limit(sem)
  {
    var q := s.requests[r];
    var sem := q.acquired[q.pc.next];
    assert LocalInv(c, q);
    AcquiredOnce(c, q);
    assert q.acquired[q.pc.next..][0] == sem;
    HolderBlocksOverRelease(c, s, r, sem);
  }

  // One turn of either release loop: the slot that goes back stops being held, and no other does.
  lemma NextSlotIsDropped(c: Config, q: Request)
    requires LocalInv(c, q) && (q.pc.RollingBack? || q.pc.Releasing?) && q.pc.next < |q.acquired|
    ensures var tail := q.acquired[q.pc.next + 1..];
      forall sem :: sem in tail <==> sem in q.acquired[q.pc.next..] && sem != q.acquired[q.pc.next]
  {
    AcquiredOnce(c, q);
    TailLosesItsHead(q.acquired, q.pc.next);
  }

  // The slot given back moves from the request to the semaphore, and no other slot moves.
  lemma SlotMoves(c: Config, s: State, r: RequestId, q': Request)
    requires Inv(c, s) && r in s.requests && (s.requests[r].pc.RollingBack? || s.requests[r].pc.Releasing?)
    requires var q := s.requests[r]; q.pc.next < |q.acquired| && Held(q') == q.acquired[q.pc.next + 1..]
    ensures var q := s.requests[r];
      var s' := Release(c, s, q.acquired[q.pc.next]);
      && s'.requests == s.requests && s'.free.Keys == s.free.Keys && !s'.overReleased
      && (forall sem | sem in s.free :: s'.free[sem] + Slots(q', sem) == s.free[sem] + Slots(q, sem))
  {
    var q := s.requests[r];
    var i := q.pc.next;
    NextSlotHasRoom(c, s, r);
    NextSlotIsDropped(c, q);
    assert Held(q) == q.acquired[i..];
    assert q.acquired[i..][0] == q.acquired[i];
  }

  lemma RollBackIsGood(c: Config, s: State, r: RequestId)
    requires Inv(c, s) && r in s.requests && s.requests[r].pc.RollingBack?
    ensures GoodStep(c, s, r, RollBack(c, s, r, s.requests[r], s.requests[r].pc.next))
  {
    var q := s.requests[r];
    if q.pc.next < |q.acquired| {
      SlotMoves(c, s, r, q.(pc := RollingBack(q.pc.next + 1)));
    }
  }

  lemma ReleaseOneIsGood(c: Config, s: State, r: RequestId)
    requires Inv(c, s) && r in s.requests && s.requests[r].pc.Releasing?
    ensures GoodStep(c, s, r, ReleaseOne(c, s, r, s.requests[r], s.requests[r].pc.next, s.requests[r].pc.after))
  {
    var q := s.requests[r];
    if q.pc.next < |q.acquired| {
      SlotMoves(c, s, r, q.(pc := Releasing(q.pc.next + 1, q.pc.after)));
    }
  }

  lemma CallReleaseIsGood(c: Config, s: State, r: RequestId, after: AfterRelease)
    requires Inv(c, s) && r in s.requests && s.requests[r].pc == InApp
    ensures GoodStep(c, s, r, CallRelease(s, r, s.requests[r], after))
  {
    assert s.requests[r].acquired[0..] == s.requests[r].acquired;
  }

  lemma StepKeepsInv(c: Config, s: State, r: RequestId, e: Event)
    requires Inv(c, s)
    ensures Inv(c, Step(c, s, r, e))
  {
    if r in s.requests {
      var s' := Step(c, s, r, e);
      assert GoodStep(c, s, r, s') by {
        match s.requests[r].pc
        case Start => EnterGlobalIsGood(c, s, r);
        case TryAgent => EnterAgentIsGood(c, s, r);
        case RollingBack(_) => RollBackIsGood(c, s, r);
        case InApp => CallReleaseIsGood(c, s, r, BackToApp); CallReleaseIsGood(c, s, r, Leave);
        case Releasing(_, _) => ReleaseOneIsGood(c, s, r);
        case _ =>
      }
      forall sem | sem in s'.free
        ensures s'.free[sem] + |Holders(s', sem)| == c.Limit(sem)
      {
        HoldersAfterPut(s, s', r, s'.requests[r], sem);
      }
    }
  }

  lemma {:induction false} RunKeepsInv(c: Config, s: State, schedule: Schedule)
    requires Inv(c, s)
    ensures Inv(c, Run(c, s, schedule))
  {
    if schedule != [] {
      var last := schedule[|schedule| - 1];
      RunKeepsInv(c, s, schedule[..|schedule| - 1]);
      StepKeepsInv(c, Run(c, s, schedule[..|schedule| - 1]), last.0, last.1);
    }
  }

  lemma InitIsInv(c: Config, s: State)
    requires IsInit(c, s)
    ensures Inv(c, s)
  {
    forall sem | sem in s.free
      ensures |Holders(s, sem)| == 0
    {
      assert Holders(s, sem) == {};
    }
  }

  // Conservation over every interleaving: free slots plus holders is the limit, at both
  // levels, and no semaphore is ever released past its limit.
  lemma SlotsAreConserved(c: Config, s: State, schedule: Schedule)
    requires IsInit(c, s)
    ensures var s' := Run(c, s, schedule);
      && !s'.overReleased
      && (forall sem :: sem in s'.free <==> c.Exists(sem))
      && (forall sem | sem in s'.free :: s'.free[sem] + |Holders(s', sem)| == c.Limit(sem))
  {
    InitIsInv(c, s);
    RunKeepsInv(c, s, schedule);
  }

  // Requests whose app is running and whose final body has not been sent.
  ghost function Active(s: State): set<RequestId> {
    set r | r in s.requests && s.requests[r].pc == InApp && !s.requests[r].released
  }

  ghost function ActiveFor(s: State, a: AgentId): set<RequestId> {
    set r | r in Active(s) && s.requests[r].agent == Some(a)
  }

  lemma ActiveHoldSlots(c: Config, s: State)
    requires Inv(c, s)
    ensures c.Exists(GlobalSem) ==> Active(s) <= Holders(s, GlobalSem)
    ensures forall a :: c.Exists(AgentSem(a)) ==> ActiveFor(s, a) <= Holders(s, AgentSem(a))
  {
    forall r | r in Active(s)
      ensures c.Exists(GlobalSem) ==> r in Holders(s, GlobalSem)
      ensures forall a :: s.requests[r].agent == Some(a) && c.Exists(AgentSem(a)) ==> r in Holders(s, AgentSem(a))
    {
      var q := s.requests[r];
      assert LocalInv(c, q) && Held(q) == BothLevels(c, q);
      if c.Exists(GlobalSem) {
        assert Held(q)[0] == GlobalSem;
      }
      if q.agent.Some? && c.Exists(AgentSem(q.agent.value)) {
        assert Held(q)[|Held(q)| - 1] == AgentSem(q.agent.value);
      }
    }
  }

  // Neither cap is ever exceeded by the requests that are being served; a cap of 0 or less is none.
  lemma CapsNeverExceeded(c: Config, s: State, schedule: Schedule)
    requires IsInit(c, s)
    ensures var s' := Run(c, s, schedule);
      && (c.globalMax.Some? && c.globalMax.value > 0 ==> |Active(s')| <= c.globalMax.value)
      && (forall a :: a in c.perAgent && c.perAgent[a] > 0 ==> |ActiveFor(s', a)| <= c.perAgent[a])
  {
    InitIsInv(c, s);
    RunKeepsInv(c, s, schedule);
    CapsInState(c, Run(c, s, schedule));
    forall a | a in c.perAgent && c.perAgent[a] > 0
      ensures |ActiveFor(Run(c, s, schedule), a)| <= c.perAgent[a]
    {
      assert c.Exists(AgentSem(a));
    }
  }

  lemma CapsInState(c: Config, s: State)
    requires Inv(c, s)
    ensures c.Exists(GlobalSem) ==> |Active(s)| <= c.Limit(GlobalSem)
    ensures forall a :: c.Exists(AgentSem(a)) ==> |ActiveFor(s, a)| <= c.Limit(AgentSem(a))
  {
    ActiveHoldSlots(c, s);
    if c.Exists(GlobalSem) {
      SubsetCount(Active(s), Holders(s, GlobalSem));
      assert GlobalSem in s.free;
    }
    forall a | c.Exists(AgentSem(a))
      ensures |ActiveFor(s, a)| <= c.Limit(AgentSem(a))
    {
      SubsetCount(ActiveFor(s, a), Holders(s, AgentSem(a)));
      assert AgentSem(a) in s.free;
    }
  }

  ghost predicate AllDone(s: State) {
    forall r | r in s.requests :: s.requests[r].pc.Done?
  }

  // Once every request has ended, both levels are full again.
  lemma AllSlotsReturn(c: Config, s: State, schedule: Schedule)
    requires IsInit(c, s)
    ensures AllDone(Run(c, s, schedule)) ==> Run(c, s, schedule).free == s.free
  {
    var s' := Run(c, s, schedule);
    SlotsAreConserved(c, s, schedule);
    if AllDone(s') {
      forall sem | sem in s'.free ensures s'.free[sem] == s.free[sem] {
        assert Holders(s', sem) == {};
      }
      assert s'.free.Keys == s.free.Keys;
    }
  }

  predicate ReachedApp(q: Request) {
    q.pc == InApp || q.pc.Releasing? || q.pc == Done(Served)
  }

  predicate Refused(q: Request) {
    q.pc.RollingBack? || q.pc.Rejecting? || q.pc == Done(Rejected)
  }

  // Program counters only move forward: out of the app or out of a refusal there is no way back.
  lemma PhasesPersist(c: Config, s: State, r: RequestId, e: Event, x: RequestId)
    requires x in s.requests
    ensures x in Step(c, s, r, e).requests
    ensures ReachedApp(s.requests[x]) ==> ReachedApp(Step(c, s, r, e).requests[x])
    ensures Refused(s.requests[x]) ==> Refused(Step(c, s, r, e).requests[x])
  {
    if r in s.requests {
      var q := s.requests[r];
      match q.pc
      case Start =>
      case TryAgent =>
      case RollingBack(i) => assert i < |q.acquired| ==> Release(c, s, q.acquired[i]).requests == s.requests;
      case Rejecting(_) =>
      case InApp =>
      case Releasing(i, _) => assert i < |q.acquired| ==> Release(c, s, q.acquired[i]).requests == s.requests;
      case Passing =>
      case Done(_) =>
    }
  }

  // A request that is ever refused was never in the app, before or after: no prefix of
  // the run shows it there, and the refusal leaves it without a slot.
  lemma {:induction false} RefusedNeverReachesApp(c: Config, s: State, schedule: Schedule, x: RequestId, n: nat)
    requires IsInit(c, s) && x in s.requests && n <= |schedule|
    ensures x in Run(c, s, schedule).requests && x in Run(c, s, schedule[..n]).requests
    ensures Refused(Run(c, s, schedule).requests[x]) ==> !ReachedApp(Run(c, s, schedule[..n]).requests[x])
    ensures Run(c, s, schedule).requests[x].pc == Done(Rejected) ==> Held(Run(c, s, schedule).requests[x]) == []
    ensures ReachedApp(Run(c, s, schedule[..n]).requests[x]) ==> ReachedApp(Run(c, s, schedule).requests[x])
    decreases |schedule|
  {
    if n == |schedule| {
      assert schedule[..n] == schedule;
      if schedule != [] {
        RefusedNeverReachesApp(c, s, schedule[..n - 1], x, n - 1);
      }
    } else {
      var front, last := schedule[..|schedule| - 1], schedule[|schedule| - 1];
      RefusedNeverReachesApp(c, s, front, x, n);
      assert front[..n] == schedule[..n];
    }
    if schedule != [] {
      var front, last := schedule[..|schedule| - 1], schedule[|schedule| - 1];
      InitIsInv(c, s);
      RunKeepsInv(c, s, front);
      RefusedNeverReachesApp(c, s, front, x, |front|);
      PhasesPersist(c, Run(c, s, front), last.0, last.1, x);
    }
  }

  // A 429 is never spurious: a level refuses exactly when every slot of it is held at that moment.
  lemma RefusedExactlyWhenFull(c: Config, s: State, schedule: Schedule, r: RequestId)
    requires IsInit(c, s) && r in Run(c, s, schedule).requests
    ensures var now := Run(c, s, schedule);
      var q, q' := now.requests[r], Step(c, now, r, Proceed).requests[r];
      && (q.pc == Start && q.counted ==>
        (q'.pc == Rejecting(GlobalSem) <==>
          c.globalMax.Some? && c.globalMax.value > 0 && |Holders(now, GlobalSem)| == c.globalMax.value))
      && (q.pc == TryAgent ==>
        (q'.pc == RollingBack(0) <==>
          && q.agent.Some? && q.agent.value in c.perAgent && c.perAgent[q.agent.value] > 0
          && |Holders(now, AgentSem(q.agent.value))| == c.perAgent[q.agent.value]))
  {
    SlotsAreConserved(c, s, schedule);
  }

  // The level a 429 names is the one that refused: the global one with nothing acquired, or the
  // request's own agent behind the global one.
  lemma RefusalNamesItsLevel(c: Config, s: State, schedule: Schedule, r: RequestId)
    requires IsInit(c, s) && r in Run(c, s, schedule).requests
    requires Run(c, s, schedule).requests[r].pc.Rejecting?
    ensures var q := Run(c, s, schedule).requests[r];
      && (q.pc.scope == GlobalSem ==> c.globalMax.Some? && c.globalMax.value > 0 && q.acquired == [])
      && (q.pc.scope.AgentSem? ==>
            && q.agent == Some(q.pc.scope.agent)
            && q.pc.scope.agent in c.perAgent && c.perAgent[q.pc.scope.agent] > 0
            && q.acquired == if c.Exists(GlobalSem) then [GlobalSem] else [])
  {
    InitIsInv(c, s);
    RunKeepsInv(c, s, schedule);
  }

  // ---------------------------------------------------------------------------
  // The final body gives the slots back

  // The events of one request, in order.
  function Own(schedule: Schedule, r: RequestId): seq<Event> {
    if schedule == [] then []
    else
      var last := schedule[|schedule| - 1];
      Own(schedule[..|schedule| - 1], r) + if last.0 == r then [last.1] else []
  }

  // How often a request is scheduled to go on by itself.
  function Turns(schedule: Schedule, r: RequestId): nat {
    if schedule == [] then 0
    else
      var last := schedule[|schedule| - 1];
      Turns(schedule[..|schedule| - 1], r) + if last == (r, Proceed) then 1 else 0
  }

  lemma {:induction false} RunSplits(c: Config, s: State, a: Schedule, b: Schedule)
    ensures Run(c, s, a + b) == Run(c, Run(c, s, a), b)
  {
    if b == [] {
      assert a + b == a;
    } else {
      assert (a + b)[..|a + b| - 1] == a + b[..|b| - 1];
      RunSplits(c, s, a, b[..|b| - 1]);
    }
  }

  // A step of one request leaves the others as they are.
  lemma OthersAreUntouched(c: Config, s: State, r: RequestId, e: Event, x: RequestId)
    requires x in s.requests
    ensures x in Step(c, s, r, e).requests
    ensures r != x ==> Step(c, s, r, e).requests[x] == s.requests[x]
  {
    if r in s.requests {
      var q := s.requests[r];
      match q.pc
      case RollingBack(i) => assert i < |q.acquired| ==> Release(c, s, q.acquired[i]).requests == s.requests;
      case Releasing(i, _) => assert i < |q.acquired| ==> Release(c, s, q.acquired[i]).requests == s.requests;
      case _ =>
    }
  }

  // `turns` turns after its final body a request has given back as many of the slots `had`, one a
  // turn in the order of acquisition, and its app goes on as long as it does not end.
  ghost predicate GaveBack(q: Request, had: seq<Sem>, turns: nat) {
    && q.released && q.acquired == had
    && match q.pc
       case Releasing(i, after) => i == turns <= |had| && after == BackToApp
       case InApp => turns > |had|
       case Done(outcome) => turns > |had| && outcome == Served
       case _ => false
  }

  lemma {:induction false} GivesBackOneATurn(c: Config, s: State, after: Schedule, r: RequestId, had: seq<Sem>)
    requires r in s.requests && GaveBack(s.requests[r], had, 0)
    ensures r in Run(c, s, after).requests
    ensures GaveBack(Run(c, s, after).requests[r], had, Turns(after, r))
    ensures AppEnds !in Own(after, r) ==> !Run(c, s, after).requests[r].pc.Done?
  {
    if after != [] {
      var front, last := after[..|after| - 1], after[|after| - 1];
      GivesBackOneATurn(c, s, front, r, had);
      OthersAreUntouched(c, Run(c, s, front), last.0, last.1, r);
    }
  }

  // In every run: once the app of a request sends its final body the request no longer counts as
  // being served, and it gives one slot back with each of its own turns, whatever the other requests
  // do in between. After as many turns as it holds slots it holds none, while its app still runs.
  lemma FinalBodyGivesSlotsBack(c: Config, s: State, before: Schedule, after: Schedule, r: RequestId)
    requires IsInit(c, s) && r in Active(Run(c, s, before))
    ensures var sending, now := Run(c, s, before), Run(c, s, before + [(r, AppSends(true))] + after);
      && r in now.requests && r !in Active(now)
      && var had, turns := sending.requests[r].acquired, Turns(after, r);
      && Held(now.requests[r]) == (if turns <= |had| then had[turns..] else [])
      && (turns >= |had| ==> forall sem :: r !in Holders(now, sem))
      && (AppEnds !in Own(after, r) ==> !now.requests[r].pc.Done?)
  {
    var sending := Run(c, s, before);
    var sent: Schedule := [(r, AppSends(true))];
    RunSplits(c, s, before + sent, after);
    RunSplits(c, s, before, sent);
    assert sent[..0] == [];
    assert Run(c, sending, sent) == Step(c, sending, r, AppSends(true));
    GivesBackOneATurn(c, Step(c, sending, r, AppSends(true)), after, r, sending.requests[r].acquired);
  }

  // Until then a request that is being served keeps its slots: neither a chunk with more to come nor
  // a turn of its own changes anything.
  lemma ServedRequestsKeepTheirSlots(c: Config, s: State, schedule: Schedule, r: RequestId)
    requires IsInit(c, s) && r in Active(Run(c, s, schedule))
    ensures var now := Run(c, s, schedule);
      && Held(now.requests[r]) == BothLevels(c, now.requests[r])
      && Step(c, now, r, AppSends(false)) == now
      && Step(c, now, r, Proceed) == now
  {
    InitIsInv(c, s);
    RunKeepsInv(c, s, schedule);
  }

  // ---------------------------------------------------------------------------
  // Every request ends

  // Turns until a request is with the app or has ended.
  function TurnsLeft(q: Request): nat {
    match q.pc
    case Start => 5
    case TryAgent => 4
    case RollingBack(i) => if i <= |q.acquired| <= 1 then 2 + |q.acquired| - i else 3
    case Rejecting(_) => 1
    case Releasing(i, _) => if i <= |q.acquired| <= 2 then 1 + |q.acquired| - i else 3
    case _ => 0
  }

  // What every sequence of own events up to `k` of a full serving leaves of a request.
  ghost predicate Progress(q: Request, k: nat) {
    if k <= 5 then TurnsLeft(q) <= 5 - k && !(q.pc.Releasing? && q.pc.after == Leave)
    else TurnsLeft(q) <= 9 - k && (q.pc.Releasing? ==> q.pc.after == Leave) && q.pc != Passing && q.pc != InApp
  }

  // The longest way through: five turns to get in or be refused, the end of the app, three turns out.
  const FULL_SERVING: seq<Event> :=
    [Proceed, Proceed, Proceed, Proceed, Proceed, AppEnds, Proceed, Proceed, Proceed]

  // A turn of a request that is on its way takes it one further.
  lemma TurnMakesProgress(c: Config, s: State, r: RequestId)
    requires r in s.requests && LocalInv(c, s.requests[r])
    ensures var s' := Step(c, s, r, Proceed);
      && r in s'.requests
      && TurnsLeft(s'.requests[r]) <= Max(TurnsLeft(s.requests[r]) - 1, 0)
      && (s'.requests[r].pc == s.requests[r].pc || s.requests[r].pc.Releasing? || !s'.requests[r].pc.Releasing?)
      && (s.requests[r].pc.Releasing? ==>
            match s'.requests[r].pc
            case Releasing(_, after) => after == s.requests[r].pc.after
            case InApp => s.requests[r].pc.after == BackToApp
            case Done(_) => s.requests[r].pc.after == Leave
            case _ => false)
  {
    match s.requests[r].pc
    case Start =>
    case TryAgent =>
    case RollingBack(_) =>
    case Releasing(_, _) =>
    case _ =>
  }

  lemma StepMakesProgress(c: Config, s: State, r: RequestId, e: Event, k: nat)
    requires r in s.requests && LocalInv(c, s.requests[r]) && Progress(s.requests[r], k)
    requires k < 9 && e == if k == 5 then AppEnds else Proceed
    ensures r in Step(c, s, r, e).requests && Progress(Step(c, s, r, e).requests[r], k + 1)
  {
    if k != 5 {
      TurnMakesProgress(c, s, r);
    }
  }

  lemma {:induction false} RunMakesProgress(c: Config, s: State, schedule: Schedule, r: RequestId)
    requires IsInit(c, s) && r in s.requests && Own(schedule, r) <= FULL_SERVING
    ensures r in Run(c, s, schedule).requests
    ensures Progress(Run(c, s, schedule).requests[r], |Own(schedule, r)|)
  {
    if schedule != [] {
      var front, last := schedule[..|schedule| - 1], schedule[|schedule| - 1];
      RunMakesProgress(c, s, front, r);
      InitIsInv(c, s);
      RunKeepsInv(c, s, front);
      OthersAreUntouched(c, Run(c, s, front), last.0, last.1, r);
      if last.0 == r {
        assert Own(schedule, r)[|Own(front, r)|] == last.1 == FULL_SERVING[|Own(front, r)|];
        StepMakesProgress(c, Run(c, s, front), r, last.1, |Own(front, r)|);
      }
    }
  }

  // No request gets stuck: five turns, the end of its app and three turns more end every request,
  // refused, served or passed through, whatever the others do in between.
  lemma EveryRequestEnds(c: Config, s: State, schedule: Schedule, r: RequestId)
    requires IsInit(c, s) && r in s.requests && Own(schedule, r) == FULL_SERVING
    ensures r in Run(c, s, schedule).requests
    ensures var q := Run(c, s, schedule).requests[r];
      q.pc.Done? && (q.pc.outcome == PassedThrough <==> !q.counted)
  {
    RunMakesProgress(c, s, schedule, r);
    InitIsInv(c, s);
    RunKeepsInv(c, s, schedule);
  }

  // threading.BoundedSemaphore, non-blocking.
  class BoundedSemaphore {
    const limit: nat
    var value: nat

    constructor (limit: nat)
      ensures this.limit == limit && value == limit
    {
      this.limit := limit;
      value := limit;
    }

    method Acquire() returns (ok: bool)
      modifies this
      ensures ok == (old(value) > 0)
      ensures value == if ok then old(value) - 1 else old(value)
    {
      ok := value > 0;
      if ok {
        value := value - 1;
      }
    }

    method Release() returns (ok: bool)
      modifies this
      ensures ok == (old(value) < limit)
      ensures value == if ok then old(value) + 1 else old(value)
    {
      ok := value < limit;
      if ok {
        value := value + 1;
      }
    }
  }

  class ConcurrencyLimiter {
    const cfg: Config
    const sems: map<Sem, BoundedSemaphore>
    var requests: map<RequestId, Request>
    var overReleased: bool

    // One semaphore object per configured level, none of them shared.
    ghost predicate Wired() {
      && (forall sem :: sem in sems <==> cfg.Exists(sem))
      && (forall sem | sem in sems :: sems[sem].limit == cfg.Limit(sem))
      && (forall a, b | a in sems && b in sems && a != b :: sems[a] != sems[b])
    }

    ghost function View(): State
      reads this, sems.Values
    {
      State(map sem | sem in sems :: sems[sem].value, requests, overReleased)
    }

    ghost predicate Valid()
      reads this, sems.Values
    {
      Wired() && Inv(cfg, View())
    }

    constructor (cfg: Config, requests: map<RequestId, Request>)
      requires forall r | r in requests :: IsFresh(requests[r])
      ensures Valid() && IsInit(cfg, View()) && this.cfg == cfg && this.requests == requests
      ensures forall sem | sem in sems :: fresh(sems[sem])
    {
      var made: map<Sem, BoundedSemaphore> := map[];
      if cfg.Exists(GlobalSem) {
        var sem := new BoundedSemaphore(cfg.Limit(GlobalSem));
        made := made[GlobalSem := sem];
      }
      var todo := cfg.perAgent.Keys;
      while todo != {}
        invariant todo <= cfg.perAgent.Keys
        invariant forall sem :: sem in made <==> cfg.Exists(sem) && (sem.AgentSem? ==> sem.agent !in todo)
        invariant forall sem | sem in made :: made[sem].limit == made[sem].value == cfg.Limit(sem)
        invariant forall a, b | a in made && b in made && a != b :: made[a] != made[b]
        invariant forall sem | sem in made :: fresh(made[sem])
        decreases todo
      {
        var a :| a in todo;
        todo := todo - {a};
        if cfg.perAgent[a] > 0 {
          var sem := new BoundedSemaphore(cfg.perAgent[a]);
          made := made[AgentSem(a) := sem];
        }
      }
      this.cfg := cfg;
      this.sems := made;
      this.requests := requests;
      this.overReleased := false;
      new;
      InitIsInv(cfg, View());
    }

    // Runs the next atomic piece of request `r`.
    method Advance(r: RequestId, e: Event)
      requires Valid()
      modifies this, sems.Values
      ensures Valid() && View() == Step(cfg, old(View()), r, e)
    {
      StepKeepsInv(cfg, View(), r, e);
      if r !in requests {
        return;
      }
      if e == Proceed {
        Continue(r, requests[r]);
      } else {
        HearFromApp(r, requests[r], e);
      }
    }

    // What the limiter does of its own.
    method Continue(r: RequestId, q: Request)
      requires Valid() && r in requests && requests[r] == q
      modifies this, sems.Values
      ensures View() == Step(cfg, old(View()), r, Proceed)
    {
      match q.pc {
        case Start => TakeGlobal(r, q);
        case TryAgent => TakeAgent(r, q);
        case RollingBack(_) =>
          AcquiredOnce(cfg, q);
          GiveBackOrReject(r, q);
        case Rejecting(_) => SetRequest(r, q.(pc := Done(Rejected)));
        case Releasing(_, _) =>
          AcquiredOnce(cfg, q);
          GiveBackOrLeave(r, q);
        case _ =>
      }
    }

    // What it does when the app sends a body or returns.
    method HearFromApp(r: RequestId, q: Request, e: Event)
      requires Valid() && r in requests && requests[r] == q && e != Proceed
      modifies `requests
      ensures View() == Step(cfg, old(View()), r, e)
    {
      if q.pc == InApp {
        if e == AppSends(true) {
          CloseOnce(r, q, BackToApp);
        } else if e == AppEnds {
          CloseOnce(r, q, Leave);
        }
      } else if q.pc == Passing && e == AppEnds {
        SetRequest(r, q.(pc := Done(PassedThrough)));
      }
    }

    method SetRequest(r: RequestId, q: Request)
      modifies `requests
      ensures View() == Put(old(View()), r, q)
    {
      requests := requests[r := q];
      assert View().free == old(View()).free;
    }

    method TakeSem(sem: Sem) returns (ok: bool)
      requires Wired() && sem in sems
      modifies sems[sem]
      ensures ok == (old(sems[sem].value) > 0)
      ensures View() ==
        if ok then old(View()).(free := old(View()).free[sem := old(sems[sem].value) - 1]) else old(View())
    {
      assert forall x | x in sems && x != sem :: sems[x] != sems[sem];
      ok := sems[sem].Acquire();
      assert View().free == if ok then old(View()).free[sem := old(sems[sem].value) - 1] else old(View()).free;
    }

    method TakeGlobal(r: RequestId, q: Request)
      requires Wired() && r in requests && requests[r] == q
      modifies `requests, sems.Values
      ensures View() == EnterGlobal(old(View()), r, q)
    {
      var next := TryAgent;
      var acquired := q.acquired;
      if !q.counted {
        next := Passing;
      } else if GlobalSem in sems {
        var ok := TakeSem(GlobalSem);
        if ok {
          acquired := acquired + [GlobalSem];
        } else {
          next := Rejecting(GlobalSem);
        }
      }
      SetRequest(r, q.(pc := next, acquired := acquired));
    }

    method TakeAgent(r: RequestId, q: Request)
      requires Wired() && r in requests && requests[r] == q
      modifies `requests, sems.Values
      ensures View() == EnterAgent(old(View()), r, q)
    {
      var next := InApp;
      var acquired := q.acquired;
      if q.agent.Some? && AgentSem(q.agent.value) in sems {
        var sem := AgentSem(q.agent.value);
        var ok := TakeSem(sem);
        if ok {
          acquired := acquired + [sem];
        } else {
          next := RollingBack(0);
        }
      }
      SetRequest(r, q.(pc := next, acquired := acquired));
    }

    method ReleaseSem(sem: Sem)
      requires Wired() && sem in sems
      modifies `overReleased, sems[sem]
      ensures View() == Release(cfg, old(View()), sem)
    {
      assert forall x | x in sems && x != sem :: sems[x] != sems[sem];
      var ok := sems[sem].Release();
      if !ok {
        overReleased := true;
      }
      ghost var free := Release(cfg, old(View()), sem).free;
      assert View().free.Keys == free.Keys;
      assert forall x | x in sems :: View().free[x] == free[x];
    }

    method GiveBackOrReject(r: RequestId, q: Request)
      requires Wired() && r in requests && requests[r] == q && q.pc.RollingBack? && AgentOf(q).Some?
      requires forall sem | sem in q.acquired :: sem in sems
      modifies this, sems.Values
      ensures View() == RollBack(cfg, old(View()), r, q, q.pc.next)
    {
      var i := q.pc.next;
      if i < |q.acquired| {
        ReleaseSem(q.acquired[i]);
        SetRequest(r, q.(pc := RollingBack(i + 1)));
      } else {
        SetRequest(r, q.(pc := Rejecting(AgentOf(q).value)));
      }
    }

    // The closure `release`, up to its loop.
    method CloseOnce(r: RequestId, q: Request, after: AfterRelease)
      requires Wired() && r in requests && requests[r] == q
      modifies `requests
      ensures View() == CallRelease(old(View()), r, q, after)
    {
      if !q.released {
        SetRequest(r, q.(released := true, pc := Releasing(0, after)));
      } else if after == Leave {
        SetRequest(r, q.(pc := Done(Served)));
      }
    }

    method GiveBackOrLeave(r: RequestId, q: Request)
      requires Wired() && r in requests && requests[r] == q && q.pc.Releasing?
      requires forall sem | sem in q.acquired :: sem in sems
      modifies this, sems.Values
      ensures View() == ReleaseOne(cfg, old(View()), r, q, q.pc.next, q.pc.after)
    {
      var i := q.pc.next;
      if i < |q.acquired| {
        ReleaseSem(q.acquired[i]);
        SetRequest(r, q.(pc := Releasing(i + 1, q.pc.after)));
      } else {
        SetRequest(r, q.(pc := if q.pc.after == BackToApp then InApp else Done(Served)));
      }
    }

    // Runs a whole schedule.
    method Serve(schedule: Schedule)
      requires Valid() && IsInit(cfg, View())
      modifies this, sems.Values
      ensures Valid() && View() == Run(cfg, old(View()), schedule)
      ensures AllDone(View()) ==> forall sem | sem in sems :: sems[sem].value == sems[sem].limit
    {
      ghost var s0 := View();
      var i := 0;
      while i < |schedule|
        invariant 0 <= i <= |schedule|
        invariant Valid() && View() == Run(cfg, s0, schedule[..i])
      {
        Advance(schedule[i].0, schedule[i].1);
        assert schedule[..i + 1][..i] == schedule[..i];
        i := i + 1;
      }
      assert schedule[..i] == schedule;
      AllSlotsReturn(cfg, s0, schedule);
      assert AllDone(View()) ==> forall sem | sem in sems :: View().free[sem] == cfg.Limit(sem);
    }
  }
}
