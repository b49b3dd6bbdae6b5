/** The worker loop of the Effect SDK. Executions are fibers in a fiber set; claimed tasks are forked one by
    one while earlier fibers already run. A finishing fiber first offers a token to the availability queue and
    then leaves the set. The loop waits for a token, the poll timer or the stop signal, whichever comes first.
    A failed claim counts as an empty one. */
module EffectWorker {
  import opened Prelude
  import opened Ledgers

  datatype Place =
    | Top
    | Waiting
    | Claiming(asked: int)
    // Forking the claimed tasks, of which these are left.
    | Handing(rest: seq<string>)
    | Draining
    | Ended

  /** `tokens` is the length of the availability queue, `offered` the fibers about to leave the set. */
  datatype State = State(place: Place, stopped: bool, tokens: nat, offered: set<nat>, ledger: Ledger)

  const INITIAL := State(Top, false, 0, {}, Ledgers.EMPTY)

  datatype Event =
    | Resume
    | ClaimAnswers(messages: seq<string>)
    | ForkNext
    | TokenOffered(execution: nat)
    | FiberLeaves(execution: nat)
    | TokenTaken
    | TimerFires
    | StopSeen
    | Close
    | DrainCompletes

  datatype Options = Options(concurrency: int, batchSize: int)

  predicate Enabled(s: State, e: Event) {
    match e
    case Resume => s.place.Top?
    case ClaimAnswers(messages) => s.place.Claiming? && |messages| <= Max(s.place.asked, 0)
    case ForkNext => s.place.Handing?
    case TokenOffered(execution) => execution in s.ledger.executing && execution !in s.offered
    case FiberLeaves(execution) => execution in s.ledger.executing && execution in s.offered
    case TokenTaken => s.place.Waiting? && s.tokens > 0
    case TimerFires => s.place.Waiting?
    case StopSeen => s.place.Waiting? && s.stopped
    case Close => true
    case DrainCompletes => s.place.Draining? && s.ledger.executing == {}
  }

  function Next(o: Options, s: State, e: Event): State
    requires Enabled(s, e)
  {
    match e
    case Resume =>
      if s.stopped then s.(place := Draining)
      else
        var availableCapacity := o.concurrency - |s.ledger.executing|;
        if availableCapacity <= 0 then s.(place := Waiting)
        else s.(place := Claiming(Min(o.batchSize, availableCapacity)))
    case ClaimAnswers(messages) =>
      s.(place := if messages == [] then Waiting else Handing(messages), ledger := Claim(s.ledger, messages))
    case ForkNext =>
      if s.place.rest == [] then s.(place := Top)
      else s.(place := Handing(s.place.rest[1..]), ledger := Begin(s.ledger, s.place.rest[0]))
    case TokenOffered(execution) => s.(tokens := s.tokens + 1, offered := s.offered + {execution})
    case FiberLeaves(execution) => s.(offered := s.offered - {execution}, ledger := Settle(s.ledger, execution))
    case TokenTaken => s.(tokens := s.tokens - 1, place := Top)
    case TimerFires => s.(place := Top)
    case StopSeen => s.(place := Top)
    case Close => s.(stopped := true)
    case DrainCompletes => s.(place := Ended)
  }

  function After(o: Options, s: State, events: seq<Event>): State
    decreases |events|
  {
    if events == [] then s
    else After(o, if Enabled(s, events[0]) then Next(o, s, events[0]) else s, events[1..])
  }

  // ----- The loop as the SDK writes it -----

  class Worker {
    const options: Options
    var stopped: bool
    var availability: nat
    var executions: set<nat>
    var started: seq<string>
    // Where the loop stands, what has been claimed and settled, and which fibers are about to leave.
    ghost var place: Place
    ghost var claimed: seq<string>
    ghost var settled: set<nat>
    ghost var offered: set<nat>

    ghost function View(): State
      reads this
    {
      State(place, stopped, availability, offered, Ledger(claimed, started, executions, settled))
    }

    constructor (options: Options)
      ensures View() == INITIAL && this.options == options
    {
      this.options := options;
      stopped, availability, executions, started := false, 0, {}, [];
      place, claimed, settled, offered := Top, [], {}, {};
    }

    /** The head of the loop: drain, wait, or ask for a number of tasks. */
    method LoopHead() returns (asked: int)
      requires Enabled(View(), Resume)
      modifies this`place
      ensures View() == Next(options, old(View()), Resume)
      ensures place.Claiming? ==> asked == place.asked
    {
      asked := 0;
      if stopped {
        place := Draining;
        return;
      }
      var availableCapacity := options.concurrency - |executions|;
      if availableCapacity <= 0 {
        place := Waiting;
        return;
      }
      asked := Min(options.batchSize, availableCapacity);
      place := Claiming(asked);
    }

    /** The loop when its claim answers; a failed claim answers with nothing. */
    method OnClaimed(tasks: seq<string>)
      requires Enabled(View(), ClaimAnswers(tasks))
      modifies this`place, this`claimed
      ensures View() == Next(options, old(View()), ClaimAnswers(tasks))
    {
      if |tasks| == 0 {
        assert claimed + tasks == claimed;
        place := Waiting;
        return;
      }
      claimed := claimed + tasks;
      place := Handing(tasks);
    }

    /** One turn of the fork loop over the claimed tasks. */
    method Fork(rest: seq<string>)
      requires place == Handing(rest)
      modifies this`place, this`executions, this`started
      ensures View() == Next(options, old(View()), ForkNext)
    {
      if |rest| == 0 {
        place := Top;
        return;
      }
      executions := executions + {|started|};
      started := started + [rest[0]];
      place := Handing(rest[1..]);
    }

    /** The finalizer of an execution. */
    method OfferAvailability(execution: nat)
      requires Enabled(View(), TokenOffered(execution))
      modifies this`availability, this`offered
      ensures View() == Next(options, old(View()), TokenOffered(execution))
    {
      availability := availability + 1;
      offered := offered + {execution};
    }

    /** The fiber set drops a finished fiber. */
    method OnFiberDone(execution: nat)
      requires Enabled(View(), FiberLeaves(execution))
      modifies this`executions, this`settled, this`offered
      ensures View() == Next(options, old(View()), FiberLeaves(execution))
    {
      executions := executions - {execution};
      settled := settled + {execution};
      offered := offered - {execution};
    }

    method TakeAvailability()
      requires Enabled(View(), TokenTaken)
      modifies this`place, this`availability
      ensures View() == Next(options, old(View()), TokenTaken)
    {
      availability := availability - 1;
      place := Top;
    }

    /** A wait that ends with the poll interval or with the stop signal. */
    method StopWaiting(e: Event)
      requires Enabled(View(), e) && (e.TimerFires? || e.StopSeen?)
      modifies this`place
      ensures View() == Next(options, old(View()), e)
    {
      place := Top;
    }

    /** The fiber set is empty. */
    method OnDrained()
      requires Enabled(View(), DrainCompletes)
      modifies this`place
      ensures View() == Next(options, old(View()), DrainCompletes)
    {
      place := Ended;
    }

    method Stop()
      modifies this`stopped
      ensures View() == Next(options, old(View()), Close)
    {
      stopped := true;
    }
  }

  // ----- Safety in every reachable state -----

  /** The claimed tasks that are still to be forked. */
  function InHand(s: State): seq<string> {
    if s.place.Handing? then s.place.rest else []
  }

  /** How many more executions the loop may be about to start. */
  function Pending(s: State): int {
    if s.place.Claiming? then Max(s.place.asked, 0) else |InHand(s)|
  }

  ghost predicate Safe(o: Options, s: State) {
    && |s.ledger.executing| + Pending(s) <= Max(o.concurrency, 0)
    && Balanced(s.ledger, InHand(s)) && s.offered <= s.ledger.executing
    && (s.place.Draining? || s.place.Ended? ==> s.stopped)
    && (s.place.Ended? ==> s.ledger.executing == {})
  }

  lemma NextIsSafe(o: Options, s: State, e: Event)
    requires Safe(o, s) && Enabled(s, e)
    ensures Safe(o, Next(o, s, e))
  {
    match e
    case ClaimAnswers(messages) => ClaimBalances(s.ledger, messages);
    case ForkNext => if s.place.rest != [] { BeginBalances(s.ledger, s.place.rest); }
    case FiberLeaves(execution) => SettleBalances(s.ledger, InHand(s), execution);
    case _ =>
  }

  lemma {:induction false} AfterIsSafe(o: Options, s: State, events: seq<Event>)
    requires Safe(o, s)
    ensures Safe(o, After(o, s, events))
    decreases |events|
  {
    if events != [] {
      if Enabled(s, events[0]) { NextIsSafe(o, s, events[0]); }
      AfterIsSafe(o, if Enabled(s, events[0]) then Next(o, s, events[0]) else s, events[1..]);
    }
  }

  /** In every reachable state the fiber set stays within the concurrency, every claimed task has been forked
      once, in order, or is still in the hands of the loop, and an ended loop has settled all it claimed. */
  lemma EveryStateIsSafe(o: Options, events: seq<Event>)
    ensures
      var s := After(o, INITIAL, events);
      && |s.ledger.executing| <= Max(o.concurrency, 0)
      && Balanced(s.ledger, InHand(s))
      && (s.place.Ended? ==> AllSettled(s.ledger))
  {
    AfterIsSafe(o, INITIAL, events);
    var s := After(o, INITIAL, events);
    if s.place.Ended? { NoneExecuting(s.ledger); }
  }

  // ----- What each event does -----

  /** At its head a stopped loop drains; a running one with free capacity claims the smaller of that and the batch
      size, and otherwise waits. */
  lemma ResumeTold(o: Options, s: State)
    requires Enabled(s, Resume)
    ensures
      var next := Next(o, s, Resume);
      var free := o.concurrency - |s.ledger.executing|;
      && next == s.(place := next.place)
      && (next.place.Draining? <==> s.stopped)
      && (next.place.Waiting? <==> !s.stopped && free <= 0)
      && (next.place.Claiming? <==> !s.stopped && free > 0)
      && (next.place.Claiming? ==>
            next.place.asked <= free && next.place.asked <= o.batchSize &&
            (next.place.asked == free || next.place.asked == o.batchSize))
  {
  }

  /** A claim that answers nothing makes the loop wait; any other puts its tasks in hand, and forking takes them up
      one by one, each with one new fiber, before the loop is back at its head. */
  lemma HandingTold(o: Options, s: State, messages: seq<string>)
    requires Safe(o, s)
    ensures
      Enabled(s, ClaimAnswers(messages)) ==>
        var next := Next(o, s, ClaimAnswers(messages));
        && next.ledger == s.ledger.(claimed := s.ledger.claimed + messages)
        && InHand(next) == messages && (messages == [] ==> next.place.Waiting?)
    ensures
      Enabled(s, ForkNext) ==>
        var next := Next(o, s, ForkNext);
        if InHand(s) == [] then next == s.(place := Top)
        else
          && InHand(s) == [InHand(s)[0]] + InHand(next) && next.place.Handing?
          && next.ledger.started == s.ledger.started + [InHand(s)[0]]
          && next.ledger.executing == s.ledger.executing + {|s.ledger.started|}
  {
  }

  /** A fiber that finishes while the loop waits gives it a token to go on with, and one that leaves frees its slot. */
  lemma FinishingWakes(o: Options, s: State, execution: nat)
    requires Safe(o, s)
    ensures
      Enabled(s, TokenOffered(execution)) ==>
        var next := Next(o, s, TokenOffered(execution));
        && next.place == s.place && next.ledger == s.ledger && next.stopped == s.stopped
        && Enabled(next, FiberLeaves(execution))
        && (s.place.Waiting? ==> Enabled(next, TokenTaken) && Next(o, next, TokenTaken).place == Top)
    ensures
      Enabled(s, FiberLeaves(execution)) ==>
        var next := Next(o, s, FiberLeaves(execution));
        && next.place == s.place && next.tokens == s.tokens && next.stopped == s.stopped
        && next.ledger.executing == s.ledger.executing - {execution}
        && next.ledger.settled == s.ledger.settled + {execution}
  {
  }

  /** Whatever ends a wait sends the loop back to its head; closing and the end of the drain change nothing else. */
  lemma OtherEventsTold(o: Options, s: State, e: Event)
    requires Enabled(s, e)
    ensures e.TokenTaken? ==> Next(o, s, e) == s.(place := Top, tokens := s.tokens - 1)
    ensures e.TimerFires? || e.StopSeen? ==> Next(o, s, e) == s.(place := Top)
    ensures e.Close? ==> Next(o, s, e) == s.(stopped := true)
    ensures e.DrainCompletes? ==> Next(o, s, e) == s.(place := Ended) && s.ledger.executing == {}
  {
  }

  // ----- Closing drains -----

  /** How far a stopped worker is from its end; a finishing fiber takes two steps. */
  function Distance(s: State): int {
    2 * |s.ledger.executing| - |s.offered| +
    match s.place
    case Claiming(asked) => 4 + 3 * Max(asked, 0)
    case Handing(rest) => 3 + 3 * |rest|
    case Waiting => 3
    case Top => 2
    case Draining => 1
    case Ended => 0
  }

  /** A stopped worker that has not ended can always take a step of its own. A waiting one need not wait for
      its timer: the stop signal wakes it. */
  lemma StoppedIsNotStuck(o: Options, s: State)
    requires Safe(o, s) && s.stopped && !s.place.Ended?
    ensures exists e :: Enabled(s, e) && !e.Close? && !e.TimerFires?
  {
    match s.place
    case Top => assert Enabled(s, Resume);
    case Waiting => assert Enabled(s, StopSeen);
    case Claiming(_) => assert Enabled(s, ClaimAnswers([]));
    case Handing(_) => assert Enabled(s, ForkNext);
    case Draining =>
      if s.ledger.executing == {} {
        assert Enabled(s, DrainCompletes);
      } else {
        var execution :| execution in s.ledger.executing;
        assert Enabled(s, TokenOffered(execution)) || Enabled(s, FiberLeaves(execution));
      }
    case Ended =>
  }

  lemma FiberMakesProgress(o: Options, s: State, e: Event)
    requires Safe(o, s) && Enabled(s, e) && (e.TokenOffered? || e.FiberLeaves?)
    ensures Distance(Next(o, s, e)) < Distance(s)
  {
    if e.FiberLeaves? {
      SettleBalances(s.ledger, InHand(s), e.execution);
      assert |s.offered - {e.execution}| == |s.offered| - 1;
    } else {
      assert |s.offered + {e.execution}| == |s.offered| + 1;
    }
  }

  /** Each step of a stopped worker brings it closer to its end; it starts no new claim. */
  lemma StoppedMakesProgress(o: Options, s: State, e: Event)
    requires Safe(o, s) && s.stopped && Enabled(s, e) && !e.Close?
    ensures
      var next := Next(o, s, e);
      && 0 <= Distance(next) < Distance(s)
      && next.stopped
      && (!s.place.Claiming? ==> !next.place.Claiming? && next.ledger.claimed == s.ledger.claimed)
  {
    NextIsSafe(o, s, e);
    SubsetSize(Next(o, s, e).offered, Next(o, s, e).ledger.executing);
    match e
    case ForkNext => if s.place.rest != [] { BeginBalances(s.ledger, s.place.rest); }
    case TokenOffered(_) => FiberMakesProgress(o, s, e);
    case FiberLeaves(_) => FiberMakesProgress(o, s, e);
    case _ =>
  }

  /** Every event happens when its turn comes, and none is a further close. */
  ghost predicate Effective(o: Options, s: State, events: seq<Event>)
    decreases |events|
  {
    events != [] ==>
      Enabled(s, events[0]) && !events[0].Close? && Effective(o, Next(o, s, events[0]), events[1..])
  }

  /** A stopped worker drains: it takes a bounded number of steps, and when it can take no more it has ended with
      everything it claimed settled. */
  lemma {:induction false} StoppedRunsDrain(o: Options, s: State, events: seq<Event>)
    requires Safe(o, s) && s.stopped && Effective(o, s, events)
    ensures |events| <= Distance(s)
    ensures
      var last := After(o, s, events);
      (last.place.Ended? && AllSettled(last.ledger)) || exists e :: Enabled(last, e) && !e.Close?
    decreases |events|
  {
    SubsetSize(s.offered, s.ledger.executing);
    if events != [] {
      NextIsSafe(o, s, events[0]);
      StoppedMakesProgress(o, s, events[0]);
      StoppedRunsDrain(o, Next(o, s, events[0]), events[1..]);
    } else if s.place.Ended? {
      NoneExecuting(s.ledger);
    } else {
      StoppedIsNotStuck(o, s);
    }
  }

  /** A run takes its events in order; an event that is not enabled changes nothing. */
  lemma {:induction false} AfterExtend(o: Options, s: State, events: seq<Event>, e: Event)
    ensures
      var before := After(o, s, events);
      After(o, s, events + [e]) == if Enabled(before, e) then Next(o, before, e) else before
    ensures After(o, s, []) == s
    decreases |events|
  {
    if events == [] {
      assert [e][1..] == [];
    } else {
      assert (events + [e])[1..] == events[1..] + [e];
      AfterExtend(o, if Enabled(s, events[0]) then Next(o, s, events[0]) else s, events[1..], e);
    }
  }
}
