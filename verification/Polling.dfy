/** Waiting for another task's result: a polling loop with exponential backoff, an optional timeout and a
    heartbeat before each sleep. Times are real milliseconds, which covers both the integer clock of the
    TypeScript SDK and the floating one of the Python SDK. */
module Polling {
  import opened Prelude

  datatype TaskState = Pending | Claimed | Sleeping | Finished | Failed | Cancelled

  predicate Terminal(state: TaskState) {
    state.Finished? || state.Failed? || state.Cancelled?
  }

  /** What one poll sees: the snapshot, if the task exists, and the clock after the query. */
  datatype Observation = Observation(snapshot: Option<TaskState>, now: real)

  datatype Outcome = NotFound | Done(state: TaskState) | TimedOut | StillPolling

  /** How a wait went: its outcome, how many polls it made and how long it asked to sleep after each. */
  datatype Trace = Trace(outcome: Outcome, polls: nat, sleeps: seq<real>)

  /** The delay after the first poll, in milliseconds. */
  const FIRST_DELAY := 50.0

  function MinReal(a: real, b: real): real {
    if a <= b then a else b
  }

  /** One evaluation of a poll: an outcome, or the time to sleep. */
  function Evaluate(timeout: Option<real>, startedAt: real, delay: real, o: Observation): Result<real, Outcome> {
    if o.snapshot.None? then Err(NotFound)
    else if Terminal(o.snapshot.value) then Err(Done(o.snapshot.value))
    else if timeout.None? then Ok(delay)
    else
      var remaining := timeout.value - (o.now - startedAt);
      if remaining <= 0.0 then Err(TimedOut) else Ok(MinReal(delay, remaining))
  }

  /** The wait as a whole, over the observations it gets to make. */
  function Wait(timeout: Option<real>, startedAt: real, delay: real, observations: seq<Observation>): Trace
    decreases |observations|
  {
    if observations == [] then Trace(StillPolling, 0, [])
    else
      match Evaluate(timeout, startedAt, delay, observations[0])
      case Err(outcome) => Trace(outcome, 1, [])
      case Ok(sleep) =>
        var rest := Wait(timeout, startedAt, MinReal(sleep * 2.0, 1000.0), observations[1..]);
        Trace(rest.outcome, rest.polls + 1, [sleep] + rest.sleeps)
  }

  /** The heartbeats sent before sleeps, given the clock at each of them. */
  function Beats(next: real, interval: real, clock: seq<real>): seq<real>
    decreases |clock|
  {
    if clock == [] then []
    else if clock[0] >= next then [clock[0]] + Beats(clock[0] + interval, interval, clock[1..])
    else Beats(next, interval, clock[1..])
  }

  function Clock(observations: seq<Observation>): seq<real> {
    seq(|observations|, i requires 0 <= i < |observations| => observations[i].now)
  }

  /** When the next heartbeat is due after some sleeps. */
  function DueNext(next: real, interval: real, clock: seq<real>): real
    decreases |clock|
  {
    if clock == [] then next
    else DueNext(if clock[0] >= next then clock[0] + interval else next, interval, clock[1..])
  }

  lemma {:induction false} BeatsExtend(next: real, interval: real, clock: seq<real>, now: real)
    ensures
      var due := DueNext(next, interval, clock);
      && Beats(next, interval, clock + [now]) == Beats(next, interval, clock) + (if now >= due then [now] else [])
      && DueNext(next, interval, clock + [now]) == if now >= due then now + interval else due
    decreases |clock|
  {
    if clock != [] {
      assert (clock + [now])[1..] == clock[1..] + [now];
      BeatsExtend(if clock[0] >= next then clock[0] + interval else next, interval, clock[1..], now);
    }
  }

  lemma BeatsAdvance(first: real, interval: real, observations: seq<Observation>, k: nat)
    requires k < |observations|
    ensures
      var before, after, now := Clock(observations[..k]), Clock(observations[..k + 1]), observations[k].now;
      var due := DueNext(first, interval, before);
      && Beats(first, interval, after) == Beats(first, interval, before) + (if now >= due then [now] else [])
      && DueNext(first, interval, after) == if now >= due then now + interval else due
  {
    BeatsExtend(first, interval, Clock(observations[..k]), observations[k].now);
    assert Clock(observations[..k + 1]) == Clock(observations[..k]) + [observations[k].now];
  }

  /** The whole wait, seen after some sleeps. */
  function After(sleeps: seq<real>, rest: Trace): Trace {
    Trace(rest.outcome, |sleeps| + rest.polls, sleeps + rest.sleeps)
  }

  /** A wait that has slept so far and continues with a given delay. */
  ghost predicate WaitSoFar(timeout: Option<real>, startedAt: real, observations: seq<Observation>, sleeps: seq<real>,
                            delay: real)
    requires |sleeps| <= |observations|
  {
    Wait(timeout, startedAt, FIRST_DELAY, observations)
      == After(sleeps, Wait(timeout, startedAt, delay, observations[|sleeps|..]))
  }

  lemma WaitSleeps(timeout: Option<real>, startedAt: real, observations: seq<Observation>, sleeps: seq<real>,
                   delay: real, sleep: real)
    requires |sleeps| < |observations| && WaitSoFar(timeout, startedAt, observations, sleeps, delay)
    requires Evaluate(timeout, startedAt, delay, observations[|sleeps|]) == Ok(sleep)
    ensures WaitSoFar(timeout, startedAt, observations, sleeps + [sleep], MinReal(sleep * 2.0, 1000.0))
  {
    var from := observations[|sleeps|..];
    assert from[0] == observations[|sleeps|] && from[1..] == observations[|sleeps| + 1..];
    var rest := Wait(timeout, startedAt, MinReal(sleep * 2.0, 1000.0), from[1..]);
    assert sleeps + ([sleep] + rest.sleeps) == sleeps + [sleep] + rest.sleeps;
  }

  /** The heartbeats sent during some sleeps, and when the next one is due. */
  ghost predicate BeatsSoFar(first: real, interval: real, clock: seq<real>, beats: seq<real>, next: real) {
    beats == Beats(first, interval, clock) && next == DueNext(first, interval, clock)
  }

  /** The heartbeat callback. */
  method OnBeforeSleep(first: real, interval: real, observations: seq<Observation>, k: nat, beats: seq<real>,
                       nextHeartbeatAt: real)
    returns (moreBeats: seq<real>, next: real)
    requires k < |observations| && BeatsSoFar(first, interval, Clock(observations[..k]), beats, nextHeartbeatAt)
    ensures BeatsSoFar(first, interval, Clock(observations[..k + 1]), moreBeats, next)
  {
    BeatsAdvance(first, interval, observations, k);
    moreBeats, next := beats, nextHeartbeatAt;
    var now := observations[k].now;
    if now >= nextHeartbeatAt {
      moreBeats := beats + [now];
      next := now + interval;
    }
  }

  /** The polling loop, with the heartbeat before each sleep. */
  method AwaitTaskResultWithBackoff(timeout: Option<real>, startedAt: real, interval: real,
                                    observations: seq<Observation>)
    returns (trace: Trace, beats: seq<real>)
    ensures trace == Wait(timeout, startedAt, FIRST_DELAY, observations)
    ensures |trace.sleeps| <= |observations|
    ensures beats == Beats(startedAt + interval, interval, Clock(observations[..|trace.sleeps|]))
  {
    var delay, nextHeartbeatAt := FIRST_DELAY, startedAt + interval;
    var sleeps: seq<real> := [];
    beats := [];
    assert observations[0..] == observations;
    while |sleeps| < |observations|
      invariant |sleeps| <= |observations|
      invariant WaitSoFar(timeout, startedAt, observations, sleeps, delay)
      invariant BeatsSoFar(startedAt + interval, interval, Clock(observations[..|sleeps|]), beats, nextHeartbeatAt)
      decreases |observations| - |sleeps|
    {
      var poll := Evaluate(timeout, startedAt, delay, observations[|sleeps|]);
      if poll.Err? {
        trace := Trace(poll.error, |sleeps| + 1, sleeps);
        return;
      }
      beats, nextHeartbeatAt :=
        OnBeforeSleep(startedAt + interval, interval, observations, |sleeps|, beats, nextHeartbeatAt);
      WaitSleeps(timeout, startedAt, observations, sleeps, delay, poll.value);
      sleeps := sleeps + [poll.value];
      delay := MinReal(poll.value * 2.0, 1000.0);
    }
    trace := Trace(StillPolling, |sleeps|, sleeps);
  }

  // ----- Bounded polling -----

  function Sum(xs: seq<real>): real {
    if xs == [] then 0.0 else xs[0] + Sum(xs[1..])
  }

  /** The clock never runs backwards and advances at least as far as each requested sleep. */
  ghost predicate ClockAdvances(from: real, sleeps: seq<real>, observations: seq<Observation>)
    decreases |observations|
  {
    observations != [] ==>
      && from <= observations[0].now
      && (sleeps != [] ==> ClockAdvances(observations[0].now + sleeps[0], sleeps[1..], observations[1..]))
  }

  /** The delays of a wait that is never cut short by its timeout. */
  function Delay(rung: nat): real {
    if rung == 0 then 50.0 else if rung == 1 then 100.0 else if rung == 2 then 200.0
    else if rung == 3 then 400.0 else if rung == 4 then 800.0 else 1000.0
  }

  function NextRung(rung: nat): nat {
    if rung < 5 then rung + 1 else 5
  }

  /** How many polls a given remaining time allows from a given rung of the backoff. */
  function PollsLeft(rung: nat, remaining: real): int
    decreases if remaining <= 0.0 then 0 else remaining.Floor + 1
  {
    if remaining <= 0.0 then 1 else 1 + PollsLeft(NextRung(rung), remaining - Delay(rung))
  }

  lemma {:induction false} PollsLeftMonotone(rung: nat, a: real, b: real)
    requires a <= b
    ensures 1 <= PollsLeft(rung, a) <= PollsLeft(rung, b)
    decreases if b <= 0.0 then 0 else b.Floor + 1
  {
    if b > 0.0 { PollsLeftMonotone(NextRung(rung), a - Delay(rung), b - Delay(rung)); }
  }

  /** A wait stays within the time and the polls that it has left. */
  ghost predicate WithinBudget(trace: Trace, rung: nat, remaining: real) {
    && trace.polls <= PollsLeft(rung, remaining)
    && (if remaining <= 0.0 then trace.sleeps == [] else Sum(trace.sleeps) <= remaining)
  }

  lemma FullSleepWithinBudget(rest: Trace, rung: nat, left: real, remaining: real)
    requires Delay(rung) <= left <= remaining && WithinBudget(rest, NextRung(rung), left - Delay(rung))
    ensures WithinBudget(Trace(rest.outcome, rest.polls + 1, [Delay(rung)] + rest.sleeps), rung, remaining)
  {
    PollsLeftMonotone(rung, left, remaining);
    assert ([Delay(rung)] + rest.sleeps)[1..] == rest.sleeps;
  }

  lemma LastSleepWithinBudget(rest: Trace, rung: nat, left: real, remaining: real)
    requires 0.0 < left <= remaining && left < Delay(rung) && rest.polls <= 1 && rest.sleeps == []
    ensures WithinBudget(Trace(rest.outcome, rest.polls + 1, [left] + rest.sleeps), rung, remaining)
  {
    PollsLeftMonotone(rung, left, remaining);
    PollsLeftMonotone(NextRung(rung), left - Delay(rung), left - Delay(rung));
    assert [left] + rest.sleeps == [left] && [left][1..] == [];
    assert Sum([left]) == left;
  }

  lemma SleepWithinBudget(timeout: real, startedAt: real, rung: nat, from: real, o: Observation, sleep: real,
                          rest: Trace)
    requires Evaluate(Some(timeout), startedAt, Delay(rung), o) == Ok(sleep) && from <= o.now
    requires
      if sleep == Delay(rung) then WithinBudget(rest, NextRung(rung), timeout - (o.now + sleep - startedAt))
      else rest.polls <= 1 && rest.sleeps == []
    ensures WithinBudget(Trace(rest.outcome, rest.polls + 1, [sleep] + rest.sleeps), rung, timeout - (from - startedAt))
  {
    var left := timeout - (o.now - startedAt);
    if sleep == Delay(rung) {
      assert timeout - (o.now + sleep - startedAt) == left - sleep;
      FullSleepWithinBudget(rest, rung, left, timeout - (from - startedAt));
    } else {
      LastSleepWithinBudget(rest, rung, left, timeout - (from - startedAt));
    }
  }

  /** Once the time is up, one more poll is the last. */
  lemma SpentWait(timeout: real, startedAt: real, delay: real, from: real, observations: seq<Observation>)
    requires timeout - (from - startedAt) <= 0.0
    requires ClockAdvances(from, Wait(Some(timeout), startedAt, delay, observations).sleeps, observations)
    ensures
      var trace := Wait(Some(timeout), startedAt, delay, observations);
      trace.polls <= 1 && trace.sleeps == []
  {
  }

  lemma {:induction false} WaitBounded(timeout: real, startedAt: real, rung: nat, from: real,
                                       observations: seq<Observation>)
    requires ClockAdvances(from, Wait(Some(timeout), startedAt, Delay(rung), observations).sleeps, observations)
    ensures WithinBudget(Wait(Some(timeout), startedAt, Delay(rung), observations), rung, timeout - (from - startedAt))
    decreases |observations|
  {
    if observations == [] || Evaluate(Some(timeout), startedAt, Delay(rung), observations[0]).Err? {
      PollsLeftMonotone(rung, timeout - (from - startedAt), timeout - (from - startedAt));
    } else {
      var o := observations[0];
      var sleep := Evaluate(Some(timeout), startedAt, Delay(rung), o).value;
      var rest := Wait(Some(timeout), startedAt, MinReal(sleep * 2.0, 1000.0), observations[1..]);
      assert ([sleep] + rest.sleeps)[1..] == rest.sleeps;
      if sleep == Delay(rung) {
        assert MinReal(sleep * 2.0, 1000.0) == Delay(NextRung(rung));
        WaitBounded(timeout, startedAt, NextRung(rung), o.now + sleep, observations[1..]);
      } else {
        SpentWait(timeout, startedAt, MinReal(sleep * 2.0, 1000.0), o.now + sleep, observations[1..]);
      }
      SleepWithinBudget(timeout, startedAt, rung, from, o, sleep, rest);
    }
  }

  lemma {:induction false} PollsAtFullDelay(remaining: real)
    requires remaining > 0.0
    ensures PollsLeft(5, remaining) <= 2 + (remaining / 1000.0).Floor
    decreases remaining.Floor
  {
    if remaining > 1000.0 {
      PollsAtFullDelay(remaining - 1000.0);
      assert (remaining - 1000.0) / 1000.0 == remaining / 1000.0 - 1.0;
    } else {
      assert PollsLeft(5, remaining - 1000.0) == 1;
      assert remaining / 1000.0 >= 0.0;
    }
  }

  lemma PollsOverall(timeout: real)
    requires timeout >= 0.0
    ensures PollsLeft(0, timeout) <= 6 + (timeout / 1000.0).Floor
  {
    assert timeout / 1000.0 >= 0.0;
    var late := timeout - 1550.0;
    assert PollsLeft(4, timeout - 750.0) <= 1 + PollsLeft(5, late);
    assert PollsLeft(2, timeout - 150.0) <= 2 + PollsLeft(4, timeout - 750.0);
    assert PollsLeft(0, timeout) <= 2 + PollsLeft(2, timeout - 150.0);
    if late > 0.0 {
      PollsAtFullDelay(late);
      assert late / 1000.0 == timeout / 1000.0 - 1.55;
      assert (late / 1000.0).Floor <= (timeout / 1000.0).Floor - 1;
    }
  }

  /** With a timeout of M ms, a wait polls at most 6 + floor(M / 1000) times and asks to sleep at most M ms. */
  lemma BoundedPolling(timeout: real, startedAt: real, observations: seq<Observation>)
    requires timeout >= 0.0
    requires ClockAdvances(startedAt, Wait(Some(timeout), startedAt, FIRST_DELAY, observations).sleeps, observations)
    ensures
      var trace := Wait(Some(timeout), startedAt, FIRST_DELAY, observations);
      trace.polls <= 6 + (timeout / 1000.0).Floor && Sum(trace.sleeps) <= timeout
  {
    WaitBounded(timeout, startedAt, 0, startedAt, observations);
    PollsOverall(timeout);
  }

  /** A wait ends for the reason its last poll saw, and every earlier poll saw a live task in time. */
  lemma {:induction false} WaitEndsRightly(timeout: Option<real>, startedAt: real, delay: real,
                                           observations: seq<Observation>)
    ensures
      var trace := Wait(timeout, startedAt, delay, observations);
      && trace.polls <= |observations|
      && (forall i :: 0 <= i < trace.polls - 1 ==>
            observations[i].snapshot.Some? && !Terminal(observations[i].snapshot.value) &&
            (timeout.Some? ==> observations[i].now - startedAt < timeout.value))
      && (trace.outcome.StillPolling? ==> trace.polls == |observations| == |trace.sleeps|)
      && (!trace.outcome.StillPolling? ==>
            trace.polls > 0 && |trace.sleeps| == trace.polls - 1 &&
            var last := observations[trace.polls - 1];
            match trace.outcome
            case NotFound => last.snapshot == None
            case Done(state) => last.snapshot == Some(state) && Terminal(state)
            case TimedOut =>
              timeout.Some? && last.now - startedAt >= timeout.value && last.snapshot.Some? &&
              !Terminal(last.snapshot.value)
            case StillPolling => false)
    decreases |observations|
  {
    if observations != [] {
      var poll := Evaluate(timeout, startedAt, delay, observations[0]);
      if poll.Ok? {
        WaitEndsRightly(timeout, startedAt, MinReal(poll.value * 2.0, 1000.0), observations[1..]);
      }
    }
  }

  /** Three states end a wait and three do not. */
  lemma TerminalTold()
    ensures Terminal(Finished) && Terminal(Failed) && Terminal(Cancelled)
    ensures !Terminal(Pending) && !Terminal(Claimed) && !Terminal(Sleeping)
  {
  }

  /** What a wait asks to sleep after its k-th poll: the delay, 50 ms at first and then twice the last sleep up to one
      second, but no more than what is left of the timeout. */
  ghost predicate SleepTold(timeout: Option<real>, startedAt: real, observations: seq<Observation>,
                            sleeps: seq<real>, first: real, k: nat)
    requires k < |sleeps| <= |observations|
  {
    var delay := if k == 0 then first else if sleeps[k - 1] * 2.0 <= 1000.0 then sleeps[k - 1] * 2.0 else 1000.0;
    if timeout.None? then sleeps[k] == delay
    else
      var left := timeout.value - (observations[k].now - startedAt);
      sleeps[k] <= delay && sleeps[k] <= left && (sleeps[k] == delay || sleeps[k] == left)
  }

  lemma {:induction false} SleepsTold(timeout: Option<real>, startedAt: real, first: real,
                                      observations: seq<Observation>)
    ensures
      var sleeps := Wait(timeout, startedAt, first, observations).sleeps;
      |sleeps| <= |observations| &&
      forall k :: 0 <= k < |sleeps| ==> SleepTold(timeout, startedAt, observations, sleeps, first, k)
    decreases |observations|
  {
    if observations != [] {
      var poll := Evaluate(timeout, startedAt, first, observations[0]);
      if poll.Ok? {
        var next := MinReal(poll.value * 2.0, 1000.0);
        SleepsTold(timeout, startedAt, next, observations[1..]);
        var sleeps := Wait(timeout, startedAt, first, observations).sleeps;
        var later := Wait(timeout, startedAt, next, observations[1..]).sleeps;
        forall k | 0 <= k < |sleeps|
          ensures SleepTold(timeout, startedAt, observations, sleeps, first, k)
        {
          if k > 0 {
            assert sleeps[k] == later[k - 1] && observations[k] == observations[1..][k - 1];
            assert SleepTold(timeout, startedAt, observations[1..], later, next, k - 1);
          }
        }
      }
    }
  }

  /** The first delay is 50 ms. */
  lemma FirstSleepTold(startedAt: real, o: Observation)
    requires o.snapshot == Some(Pending)
    ensures Wait(None, startedAt, FIRST_DELAY, [o]).sleeps == [50.0]
  {
    assert [o][1..] == [];
  }

  // ----- Heartbeat spacing -----

  lemma {:induction false} SleepsAreShort(timeout: Option<real>, startedAt: real, delay: real,
                                          observations: seq<Observation>)
    requires 0.0 < delay <= 1000.0
    ensures forall i :: 0 <= i < |Wait(timeout, startedAt, delay, observations).sleeps| ==>
      0.0 < Wait(timeout, startedAt, delay, observations).sleeps[i] <= 1000.0
    decreases |observations|
  {
    if observations != [] {
      var poll := Evaluate(timeout, startedAt, delay, observations[0]);
      if poll.Ok? { SleepsAreShort(timeout, startedAt, MinReal(poll.value * 2.0, 1000.0), observations[1..]); }
    }
  }

  /** The clock at each sleep when queries take no time and sleeps are exact. */
  function ExactClock(from: real, sleeps: seq<real>): seq<real>
    decreases |sleeps|
  {
    if sleeps == [] then [] else [from] + ExactClock(from + sleeps[0], sleeps[1..])
  }

  /** Each heartbeat, and the end of the wait, comes less than `bound` after the previous renewal. */
  ghost predicate Spaced(renewed: real, beats: seq<real>, end: real, bound: real)
    decreases |beats|
  {
    if beats == [] then end - renewed < bound
    else beats[0] - renewed < bound && Spaced(beats[0], beats[1..], end, bound)
  }

  lemma {:induction false} BeatsAreSpaced(renewed: real, interval: real, now: real, sleeps: seq<real>)
    requires interval > 0.0 && forall i :: 0 <= i < |sleeps| ==> 0.0 < sleeps[i] <= 1000.0
    requires now - renewed < interval + 1000.0
    ensures Spaced(renewed, Beats(renewed + interval, interval, ExactClock(now, sleeps)),
                   now + Sum(sleeps), interval + 1000.0)
    decreases |sleeps|
  {
    if sleeps != [] {
      assert ExactClock(now, sleeps)[1..] == ExactClock(now + sleeps[0], sleeps[1..]);
      if now >= renewed + interval {
        BeatsAreSpaced(now, interval, now + sleeps[0], sleeps[1..]);
        assert Beats(renewed + interval, interval, ExactClock(now, sleeps))[1..]
            == Beats(now + interval, interval, ExactClock(now + sleeps[0], sleeps[1..]));
      } else {
        BeatsAreSpaced(renewed, interval, now + sleeps[0], sleeps[1..]);
      }
    }
  }

  /** Heartbeats are sent no earlier than due, and at least an interval apart. */
  lemma {:induction false} BeatsApart(next: real, interval: real, clock: seq<real>)
    ensures
      var beats := Beats(next, interval, clock);
      && (beats != [] ==> beats[0] >= next)
      && forall i :: 0 <= i < |beats| - 1 ==> beats[i + 1] >= beats[i] + interval
    decreases |clock|
  {
    if clock != [] {
      BeatsApart(if clock[0] >= next then clock[0] + interval else next, interval, clock[1..]);
    }
  }

  /** The heartbeat interval for a claim timeout in seconds. */
  function HeartbeatInterval(claimTimeout: real): real {
    var half := (claimTimeout * 1000.0 / 2.0).Floor as real;
    if half >= 500.0 then half else 500.0
  }

  /** Queries take no time and sleeps are exact: each poll reads the clock where the sleeps have led it. */
  ghost predicate ExactlyTimed(timeout: Option<real>, startedAt: real, observations: seq<Observation>) {
    var sleeps := Wait(timeout, startedAt, FIRST_DELAY, observations).sleeps;
    |sleeps| <= |observations| && Clock(observations[..|sleeps|]) == ExactClock(startedAt, sleeps)
  }

  /** The heartbeats that the loop sends, and the end of its wait, come less than `bound` after each other. */
  ghost predicate RenewsWithin(claimTimeout: real, timeout: Option<real>, startedAt: real,
                               observations: seq<Observation>, bound: real) {
    var sleeps := Wait(timeout, startedAt, FIRST_DELAY, observations).sleeps;
    var interval := HeartbeatInterval(claimTimeout);
    && |sleeps| <= |observations|
    && Spaced(startedAt, Beats(startedAt + interval, interval, Clock(observations[..|sleeps|])),
              startedAt + Sum(sleeps), bound)
  }

  /** Heartbeats, and the end of the wait, are less than the interval plus one second apart. */
  lemma HeartbeatSpacing(claimTimeout: real, timeout: Option<real>, startedAt: real, observations: seq<Observation>)
    requires ExactlyTimed(timeout, startedAt, observations)
    ensures RenewsWithin(claimTimeout, timeout, startedAt, observations, HeartbeatInterval(claimTimeout) + 1000.0)
  {
    SleepsAreShort(timeout, startedAt, FIRST_DELAY, observations);
    BeatsAreSpaced(startedAt, HeartbeatInterval(claimTimeout), startedAt,
                   Wait(timeout, startedAt, FIRST_DELAY, observations).sleeps);
  }

  lemma {:induction false} SpacedWithin(renewed: real, beats: seq<real>, end: real, bound: real, wider: real)
    requires Spaced(renewed, beats, end, bound) && bound <= wider
    ensures Spaced(renewed, beats, end, wider)
    decreases |beats|
  {
    if beats != [] { SpacedWithin(beats[0], beats[1..], end, bound, wider); }
  }

  /** A wait that renews the lease in time, from its start to its end. A claim timeout that is not positive
      gives no lease, and so none to renew. */
  ghost predicate KeepsLease(claimTimeout: real, timeout: Option<real>, startedAt: real,
                             observations: seq<Observation>) {
    claimTimeout > 0.0 ==> RenewsWithin(claimTimeout, timeout, startedAt, observations, claimTimeout * 1000.0)
  }

  /** No exactly timed wait lets a lease of the given length lapse between renewals. */
  ghost predicate LeaseNeverLapses(claimTimeout: real) {
    forall timeout, startedAt, observations ::
      ExactlyTimed(timeout, startedAt, observations) ==> KeepsLease(claimTimeout, timeout, startedAt, observations)
  }

  lemma LongLeasesNeverLapse(claimTimeout: real)
    requires claimTimeout >= 2.0
    ensures LeaseNeverLapses(claimTimeout)
  {
    var interval := HeartbeatInterval(claimTimeout);
    forall timeout, startedAt, observations | ExactlyTimed(timeout, startedAt, observations)
      ensures KeepsLease(claimTimeout, timeout, startedAt, observations)
    {
      var sleeps := Wait(timeout, startedAt, FIRST_DELAY, observations).sleeps;
      HeartbeatSpacing(claimTimeout, timeout, startedAt, observations);
      SpacedWithin(startedAt, Beats(startedAt + interval, interval, Clock(observations[..|sleeps|])),
                   startedAt + Sum(sleeps), interval + 1000.0, claimTimeout * 1000.0);
    }
  }

  function AlwaysPending(n: nat): seq<Observation> {
    if n == 0 then [] else [Observation(Some(Pending), 0.0)] + AlwaysPending(n - 1)
  }

  lemma BeatsStep(now: real, renewed: real, sleep: real, more: seq<real>)
    ensures
      var clock := ExactClock(now, [sleep] + more);
      Beats(renewed + 500.0, 500.0, clock) ==
        if now >= renewed + 500.0 then [now] + Beats(now + 500.0, 500.0, ExactClock(now + sleep, more))
        else Beats(renewed + 500.0, 500.0, ExactClock(now + sleep, more))
    ensures Sum([sleep] + more) == sleep + Sum(more)
  {
    assert ([sleep] + more)[1..] == more;
    assert ExactClock(now, [sleep] + more)[1..] == ExactClock(now + sleep, more);
  }

  lemma PendingWait()
    ensures Wait(None, 0.0, FIRST_DELAY, AlwaysPending(6)).sleeps
         == [50.0] + ([100.0] + ([200.0] + ([400.0] + ([800.0] + ([1000.0] + [])))))
  {
  }

  lemma LateBeats(sleeps: seq<real>)
    requires sleeps == [400.0] + ([800.0] + ([1000.0] + []))
    ensures Beats(500.0, 500.0, ExactClock(350.0, sleeps)) == [750.0, 1550.0] && Sum(sleeps) == 2200.0
  {
    BeatsStep(1550.0, 750.0, 1000.0, []);
    BeatsStep(750.0, 0.0, 800.0, [1000.0] + []);
    BeatsStep(350.0, 0.0, 400.0, [800.0] + ([1000.0] + []));
  }

  lemma EarlyBeats(late: seq<real>)
    ensures
      var sleeps := [50.0] + ([100.0] + ([200.0] + late));
      Beats(500.0, 500.0, ExactClock(0.0, sleeps)) == Beats(500.0, 500.0, ExactClock(350.0, late)) &&
      Sum(sleeps) == 350.0 + Sum(late)
  {
    BeatsStep(150.0, 0.0, 200.0, late);
    BeatsStep(50.0, 0.0, 100.0, [200.0] + late);
    BeatsStep(0.0, 0.0, 50.0, [100.0] + ([200.0] + late));
  }

  lemma LateRenewal(bound: real)
    requires bound <= 1000.0
    ensures !Spaced(0.0, [750.0, 1550.0], 2550.0, bound)
  {
    assert [750.0, 1550.0][1..] == [1550.0] && [1550.0][1..] == [];
    assert !Spaced(1550.0, [], 2550.0, bound);
    assert !Spaced(750.0, [1550.0], 2550.0, bound);
  }

  lemma PendingBeats(sleeps: seq<real>)
    requires sleeps == [50.0] + ([100.0] + ([200.0] + ([400.0] + ([800.0] + ([1000.0] + [])))))
    ensures Beats(500.0, 500.0, ExactClock(0.0, sleeps)) == [750.0, 1550.0] && Sum(sleeps) == 2550.0
  {
    var late := [400.0] + ([800.0] + ([1000.0] + []));
    LateBeats(late);
    EarlyBeats(late);
  }

  function Snapshots(observations: seq<Observation>): seq<Option<TaskState>> {
    seq(|observations|, i requires 0 <= i < |observations| => observations[i].snapshot)
  }

  /** Without a timeout, what a wait does depends on the states it sees only. */
  lemma {:induction false} WaitIgnoresClock(startedAt: real, delay: real, a: seq<Observation>, b: seq<Observation>)
    requires Snapshots(a) == Snapshots(b)
    ensures Wait(None, startedAt, delay, a) == Wait(None, startedAt, delay, b)
    decreases |a|
  {
    assert |Snapshots(a)| == |Snapshots(b)|;
    if a != [] {
      assert a[0].snapshot == Snapshots(a)[0] == Snapshots(b)[0] == b[0].snapshot;
      assert Snapshots(a[1..]) == Snapshots(a)[1..] == Snapshots(b)[1..] == Snapshots(b[1..]);
      WaitIgnoresClock(startedAt, MinReal(delay * 2.0, 1000.0), a[1..], b[1..]);
    }
  }

  /** Any states can be seen by an exactly timed wait. */
  lemma {:induction false} ExactTimingExists(startedAt: real, delay: real, states: seq<Option<TaskState>>, now: real)
    returns (observations: seq<Observation>)
    ensures Snapshots(observations) == states
    ensures
      var sleeps := Wait(None, startedAt, delay, observations).sleeps;
      |sleeps| <= |observations| && Clock(observations[..|sleeps|]) == ExactClock(now, sleeps)
    decreases |states|
  {
    if states == [] {
      observations := [];
    } else {
      var rest := ExactTimingExists(startedAt, MinReal(delay * 2.0, 1000.0), states[1..], now + delay);
      observations := [Observation(states[0], now)] + rest;
      assert observations[1..] == rest;
      assert |Snapshots(rest)| == |states| - 1;
      assert Snapshots(observations) == [states[0]] + Snapshots(rest);
      var sleeps := Wait(None, startedAt, delay, observations).sleeps;
      if sleeps != [] {
        var later := Wait(None, startedAt, MinReal(delay * 2.0, 1000.0), rest).sleeps;
        assert sleeps == [delay] + later && sleeps[1..] == later;
        assert Clock(observations[..|sleeps|]) == [now] + Clock(rest[..|later|]);
      }
    }
  }

  /** With a lease of one second, an exactly timed wait ends a full second after its last renewal. */
  lemma ShortLeaseLapses() returns (observations: seq<Observation>)
    ensures ExactlyTimed(None, 0.0, observations) && !KeepsLease(1.0, None, 0.0, observations)
  {
    var pending := AlwaysPending(6);
    observations := ExactTimingExists(0.0, FIRST_DELAY, Snapshots(pending), 0.0);
    WaitIgnoresClock(0.0, FIRST_DELAY, observations, pending);
    PendingWait();
    PendingBeats(Wait(None, 0.0, FIRST_DELAY, observations).sleeps);
    assert HeartbeatInterval(1.0) == 500.0;
    LateRenewal(1000.0);
  }

  /** For a claim timeout in whole seconds, waiting keeps the lease alive exactly from two seconds on. */
  lemma LeaseNeverLapsesIff(claimTimeout: nat)
    requires claimTimeout >= 1
    ensures LeaseNeverLapses(claimTimeout as real) <==> claimTimeout >= 2
  {
    if claimTimeout >= 2 {
      LongLeasesNeverLapse(claimTimeout as real);
    } else {
      var observations := ShortLeaseLapses();
    }
  }

  /** The heartbeat interval is half the claim timeout in whole milliseconds, but at least half a second. */
  lemma HeartbeatIntervalTold(claimTimeout: real)
    ensures
      var interval := HeartbeatInterval(claimTimeout);
      && interval >= 500.0
      && (claimTimeout * 500.0 < 500.0 ==> interval == 500.0)
      && (claimTimeout * 500.0 >= 500.0 ==>
            interval == interval.Floor as real && interval <= claimTimeout * 500.0 < interval + 1.0)
  {
    assert claimTimeout * 1000.0 / 2.0 == claimTimeout * 500.0;
  }

  /** A heartbeat is sent at the first poll where it is due, and not before. */
  lemma {:induction false} BeatTold(next: real, interval: real, clock: seq<real>, k: nat)
    requires k < |clock| && clock[k] >= next && forall i :: 0 <= i < k ==> clock[i] < next
    ensures Beats(next, interval, clock) == [clock[k]] + Beats(clock[k] + interval, interval, clock[k + 1..])
    decreases |clock|
  {
    if k > 0 {
      BeatTold(next, interval, clock[1..], k - 1);
      assert clock[1..][k..] == clock[k + 1..];
    }
  }
}
