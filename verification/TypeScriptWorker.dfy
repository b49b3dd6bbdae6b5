/** The worker loop of the TypeScript SDK. Between two awaits the loop runs without interruption, so its
    life is a sequence of atomic events: the loop resumes, a claim answers, an execution settles, the poll
    timer fires, the worker is closed. A claim returns at most as many messages as it asked for. */
module TypeScriptWorker {
  import opened Prelude
  import opened Ledgers

  datatype Place =
    | Top
    // Awaiting the availability promise, which may have been resolved already.
    | Waiting(resolved: bool)
    | Claiming(asked: nat)
    // Awaiting all executions after the loop has ended.
    | Draining
    | Ended

  datatype State = State(
    place: Place,
    running: bool,
    availabilityPromise: bool,
    availabilityResolve: bool,
    sleepTimer: bool,
    ledger: Ledger)

  const INITIAL := State(Top, true, false, false, false, Ledgers.EMPTY)

  datatype Event =
    | Resume
    | ClaimAnswers(messages: seq<string>)
    | ClaimFails
    | ExecutionSettles(execution: nat)
    | TimerFires
    | Close
    | DrainCompletes

  datatype Options = Options(concurrency: int, batchSize: int)

  predicate Enabled(s: State, e: Event) {
    match e
    case Resume => s.place.Top? || s.place == Waiting(true)
    case ClaimAnswers(messages) => s.place.Claiming? && |messages| <= s.place.asked
    case ClaimFails => s.place.Claiming?
    case ExecutionSettles(execution) => execution in s.ledger.executing
    case TimerFires => s.sleepTimer
    case Close => true
    case DrainCompletes => s.place.Draining? && s.ledger.executing == {}
  }

  function Resolved(s: State): State {
    s.(availabilityResolve := false, availabilityPromise := false,
       place := if s.place.Waiting? then Waiting(true) else s.place)
  }

  /** `notifyAvailability`: stop the timer and resolve the promise, if any. */
  function Notified(s: State): State {
    var quiet := s.(sleepTimer := false);
    if s.availabilityResolve
    then Resolved(quiet)
    else quiet
  }

  /** `waitForAvailability`: arm promise, resolver and timer unless a promise is pending. */
  function Awaiting(s: State): State {
    s.(place := Waiting(false), availabilityPromise := true,
       availabilityResolve := s.availabilityResolve || !s.availabilityPromise,
       sleepTimer := s.sleepTimer || !s.availabilityPromise)
  }

  function Next(o: Options, s: State, e: Event): State
    requires Enabled(s, e)
  {
    match e
    case Resume =>
      if !s.running then s.(place := Draining)
      else if |s.ledger.executing| >= o.concurrency then Awaiting(s)
      else
        var toClaim := Min(o.batchSize, Max(o.concurrency - |s.ledger.executing|, 0));
        if toClaim <= 0 then Awaiting(s) else s.(place := Claiming(toClaim))
    case ClaimAnswers(messages) =>
      if messages == [] then Awaiting(s) else s.(place := Top, ledger := BeginAll(Claim(s.ledger, messages), messages))
    case ClaimFails => Awaiting(s)
    case ExecutionSettles(execution) => Notified(s.(ledger := Settle(s.ledger, execution)))
    case TimerFires => Resolved(s.(sleepTimer := false))
    case Close => s.(running := false)
    case DrainCompletes => s.(place := Ended)
  }

  /** A run of the worker: events that are not enabled do not happen. */
  function After(o: Options, s: State, events: seq<Event>): State
    decreases |events|
  {
    if events == [] then s
    else After(o, if Enabled(s, events[0]) then Next(o, s, events[0]) else s, events[1..])
  }

  // ----- The loop as the SDK writes it -----

  class Worker {
    const options: Options
    var running: bool
    var executing: set<nat>
    var availabilityPromise: bool
    var availabilityResolve: bool
    var sleepTimer: bool
    // Where the loop stands, and what has been claimed, started and settled.
    ghost var place: Place
    ghost var claimed: seq<string>
    var started: seq<string>
    ghost var settled: set<nat>

    ghost function View(): State
      reads this
    {
      State(place, running, availabilityPromise, availabilityResolve, sleepTimer, Books())
    }

    constructor (options: Options)
      ensures View() == INITIAL && this.options == options
    {
      this.options := options;
      running := true;
      executing := {};
      availabilityPromise, availabilityResolve, sleepTimer := false, false, false;
      place, claimed, started, settled := Top, [], [], {};
    }

    method NotifyAvailability()
      modifies this`sleepTimer, this`availabilityResolve, this`availabilityPromise, this`place
      ensures View() == Notified(old(View()))
    {
      if sleepTimer {
        sleepTimer := false;
      }
      if availabilityResolve {
        place := if place.Waiting? then Waiting(true) else place;
        availabilityResolve := false;
        availabilityPromise := false;
      }
    }

    method WaitForAvailability()
      modifies this`sleepTimer, this`availabilityResolve, this`availabilityPromise, this`place
      ensures View() == Awaiting(old(View()))
    {
      if !availabilityPromise {
        availabilityPromise := true;
        availabilityResolve := true;
        sleepTimer := true;
      }
      place := Waiting(false);
    }

    /** The timer callback. */
    method OnTimer()
      requires Enabled(View(), TimerFires)
      modifies this`sleepTimer, this`availabilityResolve, this`availabilityPromise, this`place
      ensures View() == Next(options, old(View()), TimerFires)
    {
      sleepTimer := false;
      availabilityResolve := false;
      availabilityPromise := false;
      place := if place.Waiting? then Waiting(true) else place;
    }

    /** The loop from its head to its next await. */
    method ResumeLoop() returns (toClaim: int)
      requires Enabled(View(), Resume)
      modifies this
      ensures View() == Next(options, old(View()), Resume)
      ensures place.Claiming? ==> toClaim == place.asked
    {
      toClaim := 0;
      if !running {
        place := Draining;
        return;
      }
      if |executing| >= options.concurrency {
        WaitForAvailability();
        return;
      }
      var availableCapacity := Max(options.concurrency - |executing|, 0);
      toClaim := Min(options.batchSize, availableCapacity);
      if toClaim <= 0 {
        WaitForAvailability();
        return;
      }
      place := Claiming(toClaim);
    }

    ghost function Books(): Ledger
      reads this
    {
      Ledger(claimed, started, executing, settled)
    }

    /** Starts one execution per claimed message. */
    method StartAll(messages: seq<string>)
      modifies this`executing, this`started
      ensures Books() == BeginAll(old(Books()), messages)
    {
      assert messages[0..] == messages;
      for k := 0 to |messages|
        invariant claimed == old(claimed) && settled == old(settled)
        invariant BeginAll(Books(), messages[k..]) == BeginAll(old(Books()), messages)
      {
        assert messages[k..][0] == messages[k] && messages[k..][1..] == messages[k + 1..];
        executing := executing + {|started|};
        started := started + [messages[k]];
      }
    }

    /** The loop from a claim's answer to its next await or its head. */
    method OnClaimed(messages: seq<string>)
      requires Enabled(View(), ClaimAnswers(messages))
      modifies this
      ensures View() == Next(options, old(View()), ClaimAnswers(messages))
    {
      if |messages| == 0 {
        WaitForAvailability();
        return;
      }
      claimed := claimed + messages;
      StartAll(messages);
      place := Top;
    }

    /** The catch block of the loop. */
    method OnClaimFailed()
      requires Enabled(View(), ClaimFails)
      modifies this
      ensures View() == Next(options, old(View()), ClaimFails)
    {
      WaitForAvailability();
    }

    /** The `finally` of an execution. */
    method OnSettled(execution: nat)
      requires Enabled(View(), ExecutionSettles(execution))
      modifies this
      ensures View() == Next(options, old(View()), ExecutionSettles(execution))
    {
      executing := executing - {execution};
      settled := settled + {execution};
      NotifyAvailability();
    }

    /** The end of `Promise.allSettled` over the executions. */
    method OnDrained()
      requires Enabled(View(), DrainCompletes)
      modifies this`place
      ensures View() == Next(options, old(View()), DrainCompletes)
    {
      place := Ended;
    }

    method Stop()
      modifies this`running
      ensures View() == Next(options, old(View()), Close)
    {
      running := false;
    }
  }

  // ----- Safety in every reachable state -----

  ghost predicate Safe(o: Options, s: State) {
    // Running executions, with those a pending claim may add, stay within the concurrency.
    && |s.ledger.executing| + (if s.place.Claiming? then s.place.asked else 0) <= Max(o.concurrency, 0)
    && Balanced(s.ledger, [])
    // Promise, resolver and timer are set together, exactly while the loop waits for a wake-up.
    && s.availabilityPromise == s.availabilityResolve == s.sleepTimer == (s.place == Waiting(false))
    && (s.place.Draining? || s.place.Ended? ==> !s.running)
    && (s.place.Ended? ==> s.ledger.executing == {})
  }

  lemma NextIsSafe(o: Options, s: State, e: Event)
    requires Safe(o, s) && Enabled(s, e)
    ensures Safe(o, Next(o, s, e))
  {
    match e
    case ClaimAnswers(messages) =>
      ClaimBalances(s.ledger, messages);
      BeginAllBalances(Claim(s.ledger, messages), messages);
    case ExecutionSettles(execution) => SettleBalances(s.ledger, [], execution);
    case _ =>
  }

  lemma {:induction false} AfterIsSafe(o: Options, s: State, events: seq<Event>)
    requires Safe(o, s)
    ensures Safe(o, After(o, s, events))
    decreases |events|
  {
    if events != [] {
      if Enabled(s, events[0]) { NextIsSafe(o, s, events[0]); }
      AfterIsSafe(o, if Enabled(s, events[0]) then Next(o, s, events[0]) else s, events[1..]);
    }
  }

  /** In every reachable state running executions stay within the concurrency, claimed messages are handed
      out one to one, a waiting loop has its wake-up armed, and an ended loop has settled all it claimed. */
  lemma EveryStateIsSafe(o: Options, events: seq<Event>)
    ensures
      var s := After(o, INITIAL, events);
      && |s.ledger.executing| <= Max(o.concurrency, 0)
      && Balanced(s.ledger, [])
      && (s.place == Waiting(false) ==> s.sleepTimer && s.availabilityResolve && s.availabilityPromise)
      && (s.sleepTimer ==> s.place == Waiting(false))
      && (s.place.Ended? ==> AllSettled(s.ledger))
  {
    AfterIsSafe(o, INITIAL, events);
    var s := After(o, INITIAL, events);
    if s.place.Ended? { NoneExecuting(s.ledger); }
  }

  // ----- What each event does -----

  ghost predicate Armed(s: State) {
    s.place == Waiting(false) && s.availabilityPromise && s.availabilityResolve && s.sleepTimer
  }

  ghost predicate Disarmed(s: State) {
    s.place != Waiting(false) && !s.availabilityPromise && !s.availabilityResolve && !s.sleepTimer
  }

  /** At its head a closed loop drains; a running one with free capacity claims the smaller of that and the batch
      size, and otherwise waits with its wake-up armed. */
  lemma ResumeTold(o: Options, s: State)
    requires Safe(o, s) && Enabled(s, Resume)
    ensures
      var next := Next(o, s, Resume);
      var free := o.concurrency - |s.ledger.executing|;
      && next.ledger == s.ledger && next.running == s.running
      && (next.place.Draining? <==> !s.running)
      && (Armed(next) <==> s.running && (free <= 0 || o.batchSize <= 0))
      && (next.place.Claiming? <==> s.running && free > 0 && o.batchSize > 0)
      && (next.place.Claiming? ==>
            next.place.asked <= free && next.place.asked <= o.batchSize &&
            (next.place.asked == free || next.place.asked == o.batchSize))
  {
  }

  /** A claim that fails or answers nothing makes the loop wait; any other starts an execution for each message and
      sends the loop back to its head. */
  lemma {:induction false} ClaimTold(o: Options, s: State, messages: seq<string>)
    requires Safe(o, s) && Enabled(s, ClaimAnswers(messages))
    ensures
      var next := Next(o, s, ClaimAnswers(messages));
      && next.running == s.running
      && next.ledger.claimed == s.ledger.claimed + messages && next.ledger.started == s.ledger.started + messages
      && |next.ledger.executing| == |s.ledger.executing| + |messages| && next.ledger.settled == s.ledger.settled
      && (if messages == [] then Armed(next) else next.place == Top && Disarmed(next))
    ensures
      var failed := Next(o, s, ClaimFails);
      Armed(failed) && failed.running == s.running && failed.ledger == s.ledger
  {
    ClaimBalances(s.ledger, messages);
    BeginAllBalances(Claim(s.ledger, messages), messages);
    BeginAllTold(Claim(s.ledger, messages), messages);
  }

  /** The end of an execution takes it off the running ones and wakes a waiting loop, which can then take its turn
      with nothing armed any more. */
  lemma SettlingWakes(o: Options, s: State, execution: nat)
    requires Safe(o, s) && Enabled(s, ExecutionSettles(execution))
    ensures
      var next := Next(o, s, ExecutionSettles(execution));
      && Disarmed(next) && next.running == s.running
      && next.ledger.executing == s.ledger.executing - {execution}
      && next.ledger.settled == s.ledger.settled + {execution}
      && next.ledger.claimed == s.ledger.claimed && next.ledger.started == s.ledger.started
      && (s.place.Waiting? ==> Enabled(next, Resume))
      && (!s.place.Waiting? ==> next.place == s.place)
  {
  }

  lemma {:induction false} AfterExtend(o: Options, s: State, events: seq<Event>, e: Event)
    ensures
      var before := After(o, s, events);
      After(o, s, events + [e]) == if Enabled(before, e) then Next(o, before, e) else before
    decreases |events|
  {
    if events == [] {
      assert [e][1..] == [];
    } else {
      assert (events + [e])[1..] == events[1..] + [e];
      AfterExtend(o, if Enabled(s, events[0]) then Next(o, s, events[0]) else s, events[1..], e);
    }
  }

  /** So in any run, a loop that waits when an execution settles can resume at once, without its timer. */
  lemma SettlingWakesLoop(o: Options, events: seq<Event>, execution: nat)
    requires
      var s := After(o, INITIAL, events);
      Enabled(s, ExecutionSettles(execution)) && s.place.Waiting?
    ensures
      var woken := After(o, INITIAL, events + [ExecutionSettles(execution)]);
      Enabled(woken, Resume) && Disarmed(woken)
  {
    AfterIsSafe(o, INITIAL, events);
    AfterExtend(o, INITIAL, events, ExecutionSettles(execution));
    SettlingWakes(o, After(o, INITIAL, events), execution);
  }

  /** The timer wakes the loop; closing and the end of the drain change nothing else. */
  lemma OtherEventsTold(o: Options, s: State)
    requires Safe(o, s)
    ensures
      Enabled(s, TimerFires) ==>
        var next := Next(o, s, TimerFires);
        Disarmed(next) && Enabled(next, Resume) && next.ledger == s.ledger && next.running == s.running
    ensures Next(o, s, Close) == s.(running := false)
    ensures Enabled(s, DrainCompletes) ==> Next(o, s, DrainCompletes) == s.(place := Ended) && s.ledger.executing == {}
  {
  }

  // ----- Closing drains -----

  /** How far a closed worker is from its end. */
  function Distance(s: State): nat {
    |s.ledger.executing| +
    match s.place
    case Claiming(asked) => 4 + asked
    case Waiting(resolved) => if resolved then 2 else 3
    case Top => 2
    case Draining => 1
    case Ended => 0
  }

  /** A closed worker that has not ended can always take a step of its own. */
  lemma ClosedIsNotStuck(o: Options, s: State)
    requires Safe(o, s) && !s.running && !s.place.Ended?
    ensures exists e :: Enabled(s, e) && !e.Close?
  {
    match s.place
    case Top => assert Enabled(s, Resume);
    case Waiting(resolved) => if resolved { assert Enabled(s, Resume); } else { assert Enabled(s, TimerFires); }
    case Claiming(_) => assert Enabled(s, ClaimFails);
    case Draining =>
      if s.ledger.executing == {} {
        assert Enabled(s, DrainCompletes);
      } else {
        var execution :| execution in s.ledger.executing;
        assert Enabled(s, ExecutionSettles(execution));
      }
    case Ended =>
  }

  /** Each step of a closed worker brings it closer to its end, so it cannot put it off forever; it claims
      nothing more, apart from the answer to a claim that was already under way. */
  lemma ClosedMakesProgress(o: Options, s: State, e: Event)
    requires Safe(o, s) && !s.running && Enabled(s, e) && !e.Close?
    ensures
      var next := Next(o, s, e);
      && Distance(next) < Distance(s)
      && !next.running
      && (!s.place.Claiming? ==> !next.place.Claiming? && next.ledger.claimed == s.ledger.claimed)
  {
    match e
    case ClaimAnswers(messages) =>
      ClaimBalances(s.ledger, messages);
      BeginAllBalances(Claim(s.ledger, messages), messages);
    case ExecutionSettles(execution) => SettleBalances(s.ledger, [], execution);
    case _ =>
  }

  /** Every event happens when its turn comes, and none is a further close. */
  ghost predicate Effective(o: Options, s: State, events: seq<Event>)
    decreases |events|
  {
    events != [] ==>
      Enabled(s, events[0]) && !events[0].Close? && Effective(o, Next(o, s, events[0]), events[1..])
  }

  /** A closed worker drains: it takes a bounded number of steps, and when it can take no more it has ended with
      everything it claimed settled. */
  lemma {:induction false} ClosedRunsDrain(o: Options, s: State, events: seq<Event>)
    requires Safe(o, s) && !s.running && Effective(o, s, events)
    ensures |events| <= Distance(s)
    ensures
      var last := After(o, s, events);
      (last.place.Ended? && AllSettled(last.ledger)) || exists e :: Enabled(last, e) && !e.Close?
    decreases |events|
  {
    if events != [] {
      NextIsSafe(o, s, events[0]);
      ClosedMakesProgress(o, s, events[0]);
      ClosedRunsDrain(o, Next(o, s, events[0]), events[1..]);
    } else if s.place.Ended? {
      NoneExecuting(s.ledger);
    } else {
      ClosedIsNotStuck(o, s);
    }
  }
}
