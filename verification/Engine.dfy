/**
  The execution engine: a retry loop around a timeout, recording the state of
  the execution as it goes.

  `Loop` is the loop on values, for the sync and the async engine; the methods
  are the loops of the source. A body is any function of its own state and the
  attempt number, so the theorems hold for every pattern of failures.
 */
module Engine {
  import opened Basics
  import opened Wrappers
  import opened Policy
  import opened Exceptions

  datatype ExecState = RUNNING | WAITING_APPROVAL | COMPLETED | FAILED | TIMEOUT

  // What one attempt does, after `seconds`.
  datatype TimedOutcome<+V> = Returns(value: V, seconds: real) | Raises(exc: Exc, seconds: real)

  const EXPIRED := Exc(Timeout, 0)

  // A limit turns a late result, and Python's own TimeoutError, into a TimeoutException.
  function Limit<V>(timeout: Option<real>, o: TimedOutcome<V>): TimedOutcome<V> {
    match timeout
    case None => o
    case Some(t) =>
      if o.seconds > t then Raises(EXPIRED, t)
      else if o.Raises? && o.exc.cls == BuiltinTimeout then Raises(EXPIRED, o.seconds)
      else o
  }

  datatype Run<S, V> = Run(
    state: S,
    swallowed: seq<Exc>,
    sleeps: seq<real>,
    elapsed: real,
    states: seq<ExecState>,
    exit: Outcome<V>)

  predicate Retried(sync: bool, p: ExecutionPolicy, e: Exc, attempt: nat) {
    && IsException(e)
    && e.cls != ControlFlow
    && !(sync && e.cls == Timeout)
    && ShouldRetry(p, e, attempt)
  }

  // The state recorded when an exception leaves the loop; a BaseException leaves none.
  function FinalStates(e: Exc): seq<ExecState> {
    match e.cls
    case Cancelled => []
    case Fatal => []
    case ControlFlow => [WAITING_APPROVAL]
    case Timeout => [TIMEOUT]
    case _ => [FAILED]
  }

  // The waits of a policy, one random number per attempt.
  function Waits(p: ExecutionPolicy, draw: nat -> real): nat -> real {
    (n: nat) => BackoffDelay(p, n, draw(n))
  }

  // The loop from attempt `n` on; `wait` is the delay after each failed attempt.
  function Loop<S, V>(sync: bool, p: ExecutionPolicy, body: (S, nat) -> (S, TimedOutcome<V>), wait: nat -> real,
      s: S, n: nat): Run<S, V>
    decreases if p.maxRetries > n then p.maxRetries - n else 0
  {
    var (s', raw) := body(s, n);
    match Limit(p.timeout, raw)
    case Returns(v, d) => Run(s', [], [], d, [COMPLETED], Returned(v))
    case Raises(e, d) =>
      if Retried(sync, p, e, n) then
        var delay := wait(n);
        Before(e, delay, d, Loop(sync, p, body, wait, s', n + 1))
      else Run(s', [], [], d, FinalStates(e), Raised(e))
  }

  function Before<S, V>(e: Exc, delay: real, d: real, rest: Run<S, V>): Run<S, V> {
    rest.(swallowed := [e] + rest.swallowed, sleeps := [delay] + rest.sleeps, elapsed := d + delay + rest.elapsed)
  }

  // ---------------------------------------------------------------------------
  // Shape of a run

  // The body is called once more than it is retried, and at most max_retries + 1 times in all;
  // every failure but the last was retryable, and sync never retries a timeout.
  lemma {:induction false} AttemptsAreBounded<S, V>(sync: bool, p: ExecutionPolicy,
      body: (S, nat) -> (S, TimedOutcome<V>), wait: nat -> real, s: S, n: nat)
    ensures var run := Loop(sync, p, body, wait, s, n);
      && |run.swallowed| <= Max(p.maxRetries - n, 0)
      && AllRetried(sync, p, wait, n, run)
      && (run.exit.Raised? ==> !MayRetry(sync, p, run.exit.exc, n + |run.swallowed|))
    decreases if p.maxRetries > n then p.maxRetries - n else 0
  {
    var (s', raw) := body(s, n);
    var o := Limit(p.timeout, raw);
    if o.Raises? && Retried(sync, p, o.exc, n) {
      AttemptsAreBounded(sync, p, body, wait, s', n + 1);
      var rest := Loop(sync, p, body, wait, s', n + 1);
      var delay := wait(n);
      assert Loop(sync, p, body, wait, s, n) == Before(o.exc, delay, o.seconds, rest);
      SwallowedBefore(sync, p, wait, n, o.exc, delay, o.seconds, rest);
    }
  }

  // A policy lets failure `e` of an attempt be retried: retries are left; it is no control flow, no
  // BaseException and, in the sync engine, no timeout; and it is a connection error, or the policy names
  // it as one to retry and not as one never to retry.
  predicate MayRetry(sync: bool, p: ExecutionPolicy, e: Exc, attempt: nat) {
    && attempt < p.maxRetries
    && e.cls !in {ControlFlow, Cancelled, Fatal}
    && (sync ==> e.cls != Timeout)
    && (e.cls == Connection || (p.retryOn(e) && !p.noRetryOn(e)))
  }

  // Every failure of the run was retried at its attempt number, after its own delay.
  ghost predicate AllRetried<S, V>(sync: bool, p: ExecutionPolicy, wait: nat -> real, n: nat, run: Run<S, V>) {
    && |run.sleeps| == |run.swallowed|
    && (forall i :: 0 <= i < |run.swallowed| ==>
          MayRetry(sync, p, run.swallowed[i], n + i) && run.sleeps[i] == wait(n + i))
  }

  lemma SwallowedBefore<S, V>(sync: bool, p: ExecutionPolicy, wait: nat -> real, n: nat, e: Exc, delay: real,
      d: real, rest: Run<S, V>)
    requires MayRetry(sync, p, e, n) && delay == wait(n)
    requires AllRetried(sync, p, wait, n + 1, rest)
    ensures AllRetried(sync, p, wait, n, Before(e, delay, d, rest))
  {
    var run := Before(e, delay, d, rest);
    forall i | 0 <= i < |run.swallowed|
      ensures MayRetry(sync, p, run.swallowed[i], n + i) && run.sleeps[i] == wait(n + i)
    {
      if i > 0 {
        assert run.swallowed[i] == rest.swallowed[i - 1] && run.sleeps[i] == rest.sleeps[i - 1];
        assert n + 1 + (i - 1) == n + i;
      }
    }
  }

  // The recorded states end in exactly one terminal state, and it matches the outcome;
  // a BaseException records none.
  lemma {:induction false} OneTerminalState<S, V>(sync: bool, p: ExecutionPolicy,
      body: (S, nat) -> (S, TimedOutcome<V>), wait: nat -> real, s: S, n: nat)
    ensures var run := Loop(sync, p, body, wait, s, n);
      && |run.states| == (if run.exit.Raised? && run.exit.exc.cls in {Cancelled, Fatal} then 0 else 1)
      && (run.exit.Returned? ==> run.states == [COMPLETED])
      && (run.exit.Raised? && run.exit.exc.cls == ControlFlow ==> run.states == [WAITING_APPROVAL])
      && (run.exit.Raised? && run.exit.exc.cls == Timeout ==> run.states == [TIMEOUT])
      && (run.exit.Raised? && run.exit.exc.cls !in {ControlFlow, Timeout, Cancelled, Fatal} ==> run.states == [FAILED])
    decreases if p.maxRetries > n then p.maxRetries - n else 0
  {
    var (s', raw) := body(s, n);
    var o := Limit(p.timeout, raw);
    if o.Raises? && Retried(sync, p, o.exc, n) {
      OneTerminalState(sync, p, body, wait, s', n + 1);
    }
  }

  // How the last attempt ends a run: with its value or its exception, if it was in time; a late one, and
  // Python's own timeout under a limit, with a TimeoutException.
  predicate Delivers<V(==)>(timeout: Option<real>, o: TimedOutcome<V>, exit: Outcome<V>) {
    if timeout.Some? && (o.seconds > timeout.value || (o.Raises? && o.exc.cls == BuiltinTimeout))
    then exit.Raised? && exit.exc.cls == Timeout
    else match o case Returns(v, _) => exit == Returned(v) case Raises(e, _) => exit == Raised(e)
  }

  // Induction over the attempts of a run: what every attempt keeps holds when the last attempt
  // starts, and the run ends as that attempt does.
  lemma {:induction false} LastAttempt<S(!new), V>(sync: bool, p: ExecutionPolicy,
      body: (S, nat) -> (S, TimedOutcome<V>), wait: nat -> real, s: S, n: nat,
                                                   inv: (S, nat) -> bool) returns (last: S)
    requires inv(s, n)
    requires forall x: S, i: nat {:trigger body(x, i)} :: inv(x, i) ==> inv(body(x, i).0, i + 1)
    ensures var run := Loop(sync, p, body, wait, s, n);
      var k := n + |run.swallowed|;
      && inv(last, k)
      && run.state == body(last, k).0
      && Delivers(p.timeout, body(last, k).1, run.exit)
    decreases if p.maxRetries > n then p.maxRetries - n else 0
  {
    var (s', raw) := body(s, n);
    var o := Limit(p.timeout, raw);
    last := s;
    if o.Raises? && Retried(sync, p, o.exc, n) {
      last := LastAttempt(sync, p, body, wait, s', n + 1, inv);
    }
  }

  // The body with a counter of its own calls, and a clock of the time they take at most `timeout` each.
  datatype Counted<S> = Counted(state: S, calls: int, clock: real)

  function Spent(timeout: Option<real>, seconds: real): real {
    if timeout.Some? && seconds > timeout.value then timeout.value else seconds
  }

  function Sum(waits: seq<real>): real {
    if waits == [] then 0.0 else waits[0] + Sum(waits[1..])
  }

  function Counting<S, V>(timeout: Option<real>, body: (S, nat) -> (S, TimedOutcome<V>))
      : (Counted<S>, nat) -> (Counted<S>, TimedOutcome<V>)
  {
    (s: Counted<S>, n: nat) =>
      var (after, o) := body(s.state, n);
      (Counted(after, s.calls + 1, s.clock + Spent(timeout, o.seconds)), o)
  }

  // A run as it looks with the counter and the clock, started at `calls` and `clock`.
  function WithCounts<S, V>(run: Run<S, V>, calls: int, clock: real): Run<Counted<S>, V> {
    Run(Counted(run.state, calls + |run.swallowed| + 1, clock + run.elapsed - Sum(run.sleeps)),
        run.swallowed, run.sleeps, run.elapsed, run.states, run.exit)
  }

  lemma CountsBefore<S, V>(e: Exc, delay: real, d: real, rest: Run<S, V>, calls: int, clock: real)
    ensures WithCounts(Before(e, delay, d, rest), calls, clock) ==
      Before(e, delay, d, WithCounts(rest, calls + 1, clock + d))
  {
    assert ([delay] + rest.sleeps)[1..] == rest.sleeps;
  }

  lemma {:induction false} CountingChangesNothingElse<S, V>(sync: bool, p: ExecutionPolicy,
      body: (S, nat) -> (S, TimedOutcome<V>), wait: nat -> real, s: S, n: nat, calls: int, clock: real)
    ensures Loop(sync, p, Counting(p.timeout, body), wait, Counted(s, calls, clock), n) ==
      WithCounts(Loop(sync, p, body, wait, s, n), calls, clock)
    decreases if p.maxRetries > n then p.maxRetries - n else 0
  {
    var (s', raw) := body(s, n);
    var o := Limit(p.timeout, raw);
    var clock' := clock + o.seconds;
    assert Counting(p.timeout, body)(Counted(s, calls, clock), n) == (Counted(s', calls + 1, clock'), raw);
    if o.Raises? && Retried(sync, p, o.exc, n) {
      CountingChangesNothingElse(sync, p, body, wait, s', n + 1, calls + 1, clock');
      CountsBefore(o.exc, wait(n), o.seconds, Loop(sync, p, body, wait, s', n + 1), calls, clock);
    }
  }

  // A run calls the body once more than it retries, and at most max_retries + 1 times; it takes the time
  // of those calls, each cut off at the limit, and of the waits between them.
  lemma BodyCallsAreBounded<S, V>(sync: bool, p: ExecutionPolicy, body: (S, nat) -> (S, TimedOutcome<V>),
                                  wait: nat -> real, s: S)
    ensures var run := Loop(sync, p, body, wait, s, 0);
      var counted := Loop(sync, p, Counting(p.timeout, body), wait, Counted(s, 0, 0.0), 0);
      && counted.exit == run.exit && counted.state.state == run.state
      && counted.state.calls == |run.sleeps| + 1 <= MaxAttempts(p)
      && run.elapsed == counted.state.clock + Sum(run.sleeps)
  {
    CountingChangesNothingElse(sync, p, body, wait, s, 0, 0, 0.0);
    AttemptsAreBounded(sync, p, body, wait, s, 0);
  }

  // ---------------------------------------------------------------------------
  // Time

  // The longest possible waits before attempts `n + 1` up to `last`.
  function WorstWaits(p: ExecutionPolicy, n: nat, last: nat): real
    decreases last - n
  {
    if n >= last then 0.0
    else PlainDelay(p, n) + Min(PlainDelay(p, n), 1.0) + WorstWaits(p, n + 1, last)
  }

  ghost predicate Timed<S(!new), V>(body: (S, nat) -> (S, TimedOutcome<V>)) {
    forall s, n :: body(s, n).1.seconds >= 0.0
  }

  ghost predicate Draws(draw: nat -> real) {
    forall n :: 0.0 <= draw(n) <= 1.0
  }

  // `k` timeouts, one after the other.
  function Timeouts(k: nat, t: real): real {
    if k == 0 then 0.0 else t + Timeouts(k - 1, t)
  }

  lemma {:induction false} TimeoutsIsProduct(k: nat, t: real)
    requires t >= 0.0
    ensures Timeouts(k, t) == k as real * t >= 0.0
  {
    if k > 0 {
      TimeoutsIsProduct(k - 1, t);
      assert k as real == (k - 1) as real + 1.0;
      assert ((k - 1) as real + 1.0) * t == (k - 1) as real * t + t;
    }
  }

  // One timeout per attempt that is left, and the worst waits between them.
  function TimeBudget(p: ExecutionPolicy, n: nat): real
    requires p.timeout.Some?
  {
    var retries := Max(p.maxRetries - n, 0);
    Timeouts(retries + 1, p.timeout.value) + WorstWaits(p, n, n + retries)
  }

  // Under a timeout the whole run stays within its budget.
  lemma {:induction false} TotalTimeIsBounded<S(!new), V>(sync: bool, p: ExecutionPolicy,
      body: (S, nat) -> (S, TimedOutcome<V>), draw: nat -> real, wait: nat -> real, s: S, n: nat)
    requires Sane(p) && p.timeout.Some? && p.timeout.value >= 0.0 && Timed(body)
    requires Draws(draw) && wait == Waits(p, draw)
    ensures Loop(sync, p, body, wait, s, n).elapsed <= TimeBudget(p, n)
    decreases if p.maxRetries > n then p.maxRetries - n else 0
  {
    var (s', raw) := body(s, n);
    assert raw.seconds >= 0.0;
    var o := Limit(p.timeout, raw);
    var retries := Max(p.maxRetries - n, 0);
    if o.Raises? && Retried(sync, p, o.exc, n) {
      TotalTimeIsBounded(sync, p, body, draw, wait, s', n + 1);
      DelayBounds(p, n, draw(n));
      assert Max(p.maxRetries - (n + 1), 0) == retries - 1;
    } else {
      WaitsAreDurations(p, n, n + retries);
      TimeoutsIsProduct(retries, p.timeout.value);
    }
  }

  function MaxAttempts(p: ExecutionPolicy): nat {
    Max(p.maxRetries, 0) + 1
  }

  // The budget of a whole run: (R + 1) * timeout plus d_i + min(d_i, 1) for every i below R.
  lemma TimeBudgetOfRun(p: ExecutionPolicy)
    requires p.timeout.Some? && p.timeout.value >= 0.0
    ensures TimeBudget(p, 0) == MaxAttempts(p) as real * p.timeout.value + WorstWaits(p, 0, MaxAttempts(p) - 1)
  {
    TimeoutsIsProduct(MaxAttempts(p), p.timeout.value);
  }

  lemma {:induction false} WaitsAreDurations(p: ExecutionPolicy, n: nat, last: nat)
    requires Sane(p)
    ensures WorstWaits(p, n, last) >= 0.0
    decreases last - n
  {
    if n < last {
      DelayBounds(p, n, 0.0);
      WaitsAreDurations(p, n + 1, last);
    }
  }

  // ---------------------------------------------------------------------------
  // The waits of a run

  ghost predicate Ascending(waits: seq<real>) {
    forall i, j :: 0 <= i < j < |waits| ==> waits[i] <= waits[j]
  }

  ghost predicate AtMost(waits: seq<real>, bound: real) {
    forall i :: 0 <= i < |waits| ==> waits[i] <= bound
  }

  function Sleeps<S, V>(sync: bool, p: ExecutionPolicy, body: (S, nat) -> (S, TimedOutcome<V>),
      draw: nat -> real, s: S): seq<real>
  {
    Loop(sync, p, body, Waits(p, draw), s, 0).sleeps
  }

  // Whatever the body and the draws, the waits are those of the first attempts below max_retries.
  lemma SleepsAreWaits<S, V>(sync: bool, p: ExecutionPolicy, body: (S, nat) -> (S, TimedOutcome<V>),
      draw: nat -> real, s: S)
    ensures |Sleeps(sync, p, body, draw, s)| <= Max(p.maxRetries, 0)
    ensures forall i :: 0 <= i < |Sleeps(sync, p, body, draw, s)| ==>
      Sleeps(sync, p, body, draw, s)[i] == BackoffDelay(p, i, draw(i))
  {
    AttemptsAreBounded(sync, p, body, Waits(p, draw), s, 0);
  }

  lemma {:induction false} WaitsAscend(p: ExecutionPolicy, draw: nat -> real, i: nat, j: nat)
    requires RunWaitsNeverShrink(p) && Draws(draw) && i <= j && (i < j ==> j < p.maxRetries)
    ensures BackoffDelay(p, i, draw(i)) <= BackoffDelay(p, j, draw(j))
    decreases j - i
  {
    if i < j {
      WaitsAscend(p, draw, i, j - 1);
      assert 0.0 <= draw(j - 1) <= 1.0 && 0.0 <= draw(j) <= 1.0;
      assert NoShorter(p, j - 1, draw(j - 1), draw(j));
    }
  }

  lemma SleepsAscend<S, V>(sync: bool, p: ExecutionPolicy, body: (S, nat) -> (S, TimedOutcome<V>),
      draw: nat -> real, s: S)
    requires RunWaitsNeverShrink(p) && Draws(draw)
    ensures Ascending(Sleeps(sync, p, body, draw, s))
  {
    SleepsAreWaits(sync, p, body, draw, s);
    var waits := Sleeps(sync, p, body, draw, s);
    forall i, j | 0 <= i < j < |waits|
      ensures waits[i] <= waits[j]
    {
      WaitsAscend(p, draw, i, j);
    }
  }

  lemma SleepsFit<S, V>(sync: bool, p: ExecutionPolicy, body: (S, nat) -> (S, TimedOutcome<V>),
      draw: nat -> real, s: S)
    requires RunWaitsWithinMax(p) && Draws(draw)
    ensures AtMost(Sleeps(sync, p, body, draw, s), p.backoffMax)
  {
    SleepsAreWaits(sync, p, body, draw, s);
    var waits := Sleeps(sync, p, body, draw, s);
    forall i | 0 <= i < |waits|
      ensures waits[i] <= p.backoffMax
    {
      assert 0.0 <= draw(i) <= 1.0;
    }
  }

  // A service that is down: every attempt fails at once with a connection error.
  function Down(): ((), nat) -> ((), TimedOutcome<()>) {
    (s: (), n: nat) => ((), Raises(Exc(Connection, 0), 0.0))
  }

  predicate Patient(p: ExecutionPolicy) {
    p.timeout.Some? ==> p.timeout.value >= 0.0
  }

  lemma {:induction false} DownIsAlwaysRetried(sync: bool, p: ExecutionPolicy, wait: nat -> real, n: nat)
    requires Patient(p)
    ensures |Loop(sync, p, Down(), wait, (), n).sleeps| == Max(p.maxRetries - n, 0)
    decreases if p.maxRetries > n then p.maxRetries - n else 0
  {
    var o := Limit(p.timeout, Down()((), n).1);
    assert o == Raises(Exc(Connection, 0), 0.0);
    if n < p.maxRetries {
      DownIsAlwaysRetried(sync, p, wait, n + 1);
    }
  }

  // Whatever the body and the draws, the waits of a run never shrink.
  ghost predicate SleepsNeverShrink(sync: bool, p: ExecutionPolicy) {
    forall body: ((), nat) -> ((), TimedOutcome<()>), draw: nat -> real ::
      Draws(draw) ==> Ascending(Sleeps(sync, p, body, draw, ()))
  }

  ghost predicate SleepsWithinMax(sync: bool, p: ExecutionPolicy) {
    forall body: ((), nat) -> ((), TimedOutcome<()>), draw: nat -> real ::
      Draws(draw) ==> AtMost(Sleeps(sync, p, body, draw, ()), p.backoffMax)
  }

  // The waits the engine makes never shrink, whatever fails and whatever is drawn, if and only if
  // at most one retry is allowed, or the first attempt and the last but one are steady.
  lemma SleepsNeverShrinkIff(sync: bool, p: ExecutionPolicy)
    requires Sane(p) && Patient(p)
    ensures SleepsNeverShrink(sync, p) <==> p.maxRetries < 2 || (Steady(p, 0) && Steady(p, p.maxRetries - 2))
  {
    RunWaitsNeverShrinkIff(p);
    if RunWaitsNeverShrink(p) {
      forall body: ((), nat) -> ((), TimedOutcome<()>), draw: nat -> real | Draws(draw)
        ensures Ascending(Sleeps(sync, p, body, draw, ()))
      {
        SleepsAscend(sync, p, body, draw, ());
      }
    } else if SleepsNeverShrink(sync, p) {
      SleepsShowWaits(sync, p, 0);
      SleepsShowWaits(sync, p, p.maxRetries - 2);
    }
  }

  // A run of a service that is down makes the wait at `n` with a full draw, and the next with none.
  lemma SleepsShowWaits(sync: bool, p: ExecutionPolicy, n: nat)
    requires Patient(p) && n + 1 < p.maxRetries && SleepsNeverShrink(sync, p)
    ensures Steady(p, n)
  {
    var draw := (i: nat) => if i == n then 1.0 else 0.0;
    assert Draws(draw);
    var waits := Sleeps(sync, p, Down(), draw, ());
    DownIsAlwaysRetried(sync, p, Waits(p, draw), 0);
    SleepsAreWaits(sync, p, Down(), draw, ());
    assert waits[n] <= waits[n + 1];
    WaitWithoutDraw(p, n + 1);
  }

  // The waits the engine makes stay within the maximum if and only if there are none, or the first
  // and the last possible one do with a full draw.
  lemma SleepsWithinMaxIff(sync: bool, p: ExecutionPolicy)
    requires Sane(p) && Patient(p)
    ensures SleepsWithinMax(sync, p) <==> p.maxRetries < 1 || (Fits(p, 0) && Fits(p, p.maxRetries - 1))
  {
    RunWaitsWithinMaxIff(p);
    if RunWaitsWithinMax(p) {
      forall body: ((), nat) -> ((), TimedOutcome<()>), draw: nat -> real | Draws(draw)
        ensures AtMost(Sleeps(sync, p, body, draw, ()), p.backoffMax)
      {
        SleepsFit(sync, p, body, draw, ());
      }
    } else if SleepsWithinMax(sync, p) {
      SleepsShowFit(sync, p, 0);
      SleepsShowFit(sync, p, p.maxRetries - 1);
    }
  }

  lemma SleepsShowFit(sync: bool, p: ExecutionPolicy, n: nat)
    requires Patient(p) && n < p.maxRetries && SleepsWithinMax(sync, p)
    ensures Fits(p, n)
  {
    var draw := (i: nat) => 1.0;
    assert Draws(draw);
    var waits := Sleeps(sync, p, Down(), draw, ());
    DownIsAlwaysRetried(sync, p, Waits(p, draw), 0);
    SleepsAreWaits(sync, p, Down(), draw, ());
    assert waits[n] <= p.backoffMax;
  }

  // ---------------------------------------------------------------------------
  // The loops of the source

  class ExecutionContext {
    var states: seq<ExecState>

    constructor ()
      ensures states == []
    {
      states := [];
    }

    method SetState(state: ExecState)
      modifies this
      ensures states == old(states) + [state]
    {
      states := states + [state];
    }
  }

  // `rest` is what is left of `run` after the waits `slept`.
  ghost predicate Continues<S, V>(slept: seq<real>, rest: Run<S, V>, run: Run<S, V>) {
    run.exit == rest.exit && run.state == rest.state && run.states == rest.states && run.sleeps == slept + rest.sleeps
  }

  // How a settled attempt ends the run: its exit and the state it records.
  function Settled<V>(o: TimedOutcome<V>): (Outcome<V>, seq<ExecState>) {
    match o
    case Returns(v, _) => (Returned(v), [COMPLETED])
    case Raises(e, _) => (Raised(e), FinalStates(e))
  }

  // The loop is at attempt `n` in state `s`, after the waits `slept`.
  ghost predicate Underway<S, V>(sync: bool, p: ExecutionPolicy, body: (S, nat) -> (S, TimedOutcome<V>),
      wait: nat -> real, s0: S,
                                 slept: seq<real>, s: S, n: nat)
  {
    Continues(slept, Loop(sync, p, body, wait, s, n), Loop(sync, p, body, wait, s0, 0))
  }

  // One turn of the loop: the run ends here, or goes on after one wait.
  lemma LoopTurn<S, V>(sync: bool, p: ExecutionPolicy, body: (S, nat) -> (S, TimedOutcome<V>), wait: nat -> real, s0: S,
                       slept: seq<real>, s: S, n: nat)
    requires Underway(sync, p, body, wait, s0, slept, s, n)
    ensures var o := Limit(p.timeout, body(s, n).1);
      var run := Loop(sync, p, body, wait, s0, 0);
      if o.Raises? && Retried(sync, p, o.exc, n)
      then Underway(sync, p, body, wait, s0, slept + [wait(n)], body(s, n).0, n + 1)
      else run.state == body(s, n).0 && run.sleeps == slept && run.exit == Settled(o).0 && run.states == Settled(o).1
  {
    var o := Limit(p.timeout, body(s, n).1);
    if o.Raises? && Retried(sync, p, o.exc, n) {
      var rest := Loop(sync, p, body, wait, body(s, n).0, n + 1);
      assert slept + ([wait(n)] + rest.sleeps) == slept + [wait(n)] + rest.sleeps;
    }
  }

  lemma LoopStarts<S, V>(sync: bool, p: ExecutionPolicy, body: (S, nat) -> (S, TimedOutcome<V>), wait: nat -> real,
      s0: S)
    ensures Underway(sync, p, body, wait, s0, [], s0, 0)
  {}

  // The body of the sync loop after an attempt: None means "wait and try again".
  method SettleSync<V>(o: TimedOutcome<V>, p: ExecutionPolicy, attempt: nat, ctx: ExecutionContext)
      returns (exit: Option<Outcome<V>>)
    modifies ctx
    ensures exit.None? <==> o.Raises? && Retried(true, p, o.exc, attempt)
    ensures exit.Some? ==> exit.value == Settled(o).0 && ctx.states == old(ctx.states) + Settled(o).1
    ensures exit.None? ==> ctx.states == old(ctx.states)
  {
    if o.Returns? {
      ctx.SetState(COMPLETED);
      return Some(Returned(o.value));
    }
    var e := o.exc;
    if !IsException(e) {
      return Some(Raised(e));
    }
    if e.cls == ControlFlow {
      ctx.SetState(WAITING_APPROVAL);
      return Some(Raised(e));
    }
    if e.cls == Timeout {
      ctx.SetState(TIMEOUT);
      return Some(Raised(e));
    }
    if ShouldRetry(p, e, attempt) {
      return None;
    }
    ctx.SetState(FAILED);
    exit := Some(Raised(e));
  }

  // The body of the async loop after an attempt: timeouts are retried like other failures.
  method SettleAsync<V>(o: TimedOutcome<V>, p: ExecutionPolicy, attempt: nat, ctx: ExecutionContext)
      returns (exit: Option<Outcome<V>>)
    modifies ctx
    ensures exit.None? <==> o.Raises? && Retried(false, p, o.exc, attempt)
    ensures exit.Some? ==> exit.value == Settled(o).0 && ctx.states == old(ctx.states) + Settled(o).1
    ensures exit.None? ==> ctx.states == old(ctx.states)
  {
    if o.Returns? {
      ctx.SetState(COMPLETED);
      return Some(Returned(o.value));
    }
    var e := o.exc;
    if !IsException(e) {
      return Some(Raised(e));
    }
    if e.cls == ControlFlow {
      ctx.SetState(WAITING_APPROVAL);
      return Some(Raised(e));
    }
    if ShouldRetry(p, e, attempt) {
      return None;
    }
    ctx.SetState(if e.cls == Timeout then TIMEOUT else FAILED);
    exit := Some(Raised(e));
  }

  method RunSync<S, V>(body: (S, nat) -> (S, TimedOutcome<V>), p: ExecutionPolicy, wait: nat -> real, s0: S,
      ctx: ExecutionContext)
    returns (exit: Outcome<V>, s: S, slept: seq<real>)
    modifies ctx
    ensures var run := Loop(true, p, body, wait, s0, 0);
      && exit == run.exit && s == run.state && slept == run.sleeps
      && ctx.states == old(ctx.states) + [RUNNING] + run.states
  {
    ctx.SetState(RUNNING);
    var attempt: nat := 0;
    s, slept := s0, [];
    LoopStarts(true, p, body, wait, s0);
    while true
      invariant Underway(true, p, body, wait, s0, slept, s, attempt)
      invariant ctx.states == old(ctx.states) + [RUNNING]
      decreases if p.maxRetries > attempt then p.maxRetries - attempt else 0
    {
      LoopTurn(true, p, body, wait, s0, slept, s, attempt);
      var turn := body(s, attempt);
      s := turn.0;
      var settled := SettleSync(Limit(p.timeout, turn.1), p, attempt, ctx);
      if settled.Some? {
        return settled.value, s, slept;
      }
      slept := slept + [wait(attempt)];
      attempt := attempt + 1;
    }
  }

  method RunAsync<S, V>(body: (S, nat) -> (S, TimedOutcome<V>), p: ExecutionPolicy, wait: nat -> real, s0: S,
      ctx: ExecutionContext)
    returns (exit: Outcome<V>, s: S, slept: seq<real>)
    modifies ctx
    ensures var run := Loop(false, p, body, wait, s0, 0);
      && exit == run.exit && s == run.state && slept == run.sleeps
      && ctx.states == old(ctx.states) + [RUNNING] + run.states
  {
    ctx.SetState(RUNNING);
    var attempt: nat := 0;
    s, slept := s0, [];
    LoopStarts(false, p, body, wait, s0);
    while true
      invariant Underway(false, p, body, wait, s0, slept, s, attempt)
      invariant ctx.states == old(ctx.states) + [RUNNING]
      decreases if p.maxRetries > attempt then p.maxRetries - attempt else 0
    {
      LoopTurn(false, p, body, wait, s0, slept, s, attempt);
      var turn := body(s, attempt);
      s := turn.0;
      var settled := SettleAsync(Limit(p.timeout, turn.1), p, attempt, ctx);
      if settled.Some? {
        return settled.value, s, slept;
      }
      slept := slept + [wait(attempt)];
      attempt := attempt + 1;
    }
  }
}
