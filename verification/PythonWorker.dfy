/** The synchronous worker of the Python SDK. With a concurrency above one it submits tasks to a thread pool,
    one by one while earlier ones already run, and drains finished futures from its `executing` set; a future
    that raised ends the loop, after which leaving the pool waits for every thread. With a concurrency of one
    it runs each claimed task in turn. */
module PythonWorker {
  import opened Prelude
  import opened Ledgers

  datatype Place =
    | Top
    | Waiting
    | Claiming(asked: int)
    // Submitting the claimed tasks, of which these are left.
    | Handing(rest: seq<string>)
    | Draining
    // An exception has left the loop and the pool is waiting for its threads.
    | Aborting
    | Ended

  /** In the ledger a task settles when its thread finishes it. `executing` here is the loop's own set of
      futures, which also holds finished ones that have not been drained yet. */
  datatype State = State(place: Place, running: bool, executing: set<nat>, raised: set<nat>, ledger: Ledger)

  const INITIAL := State(Top, true, {}, {}, Ledgers.EMPTY)

  /** A drain keeps the futures that it has not reached when one raises, in an order that is not determined. */
  datatype Event =
    | Resume(kept: set<nat>)
    | ClaimAnswers(messages: seq<string>)
    | ClaimFails
    | SubmitNext
    | TaskFinishes(execution: nat, raises: bool)
    | ProgressOrPoll(kept: set<nat>)
    | Stop
    | DrainCompletes

  datatype Options = Options(concurrency: int, batchSize: int)

  /** Futures of the loop that are done. */
  function Done(s: State): set<nat> {
    s.executing * s.ledger.settled
  }

  /** A drain that reaches all done futures but these: all when none raised, else one that raised and those
      before it. */
  predicate CanKeep(s: State, kept: set<nat>) {
    kept <= Done(s) && (if Done(s) * s.raised == {} then kept == {} else (Done(s) - kept) * s.raised != {})
  }

  predicate Enabled(s: State, e: Event) {
    match e
    case Resume(kept) => s.place.Top? && CanKeep(s, kept)
    case ClaimAnswers(messages) => s.place.Claiming? && |messages| <= Max(s.place.asked, 0)
    case ClaimFails => s.place.Claiming?
    case SubmitNext => s.place.Handing?
    case TaskFinishes(execution, _) => execution in s.ledger.executing
    case ProgressOrPoll(kept) => s.place.Waiting? && CanKeep(s, kept)
    case Stop => true
    case DrainCompletes => (s.place.Draining? || s.place.Aborting?) && s.ledger.executing == {}
  }

  /** Drops done futures; the first that raised re-raises and leaves the loop. */
  function Drained(s: State, kept: set<nat>, otherwise: Place): State {
    s.(executing := s.executing - (Done(s) - kept), place := if Done(s) * s.raised != {} then Aborting else otherwise)
  }

  /** Where the loop goes with its capacity: it waits when there is none, else it asks for tasks. */
  function Asking(o: Options, s: State): Place {
    var availableCapacity := o.concurrency - |s.executing|;
    if availableCapacity <= 0 then Waiting else Claiming(Min(o.batchSize, availableCapacity))
  }

  function Next(o: Options, s: State, e: Event): State
    requires Enabled(s, e)
  {
    match e
    case Resume(kept) =>
      if !s.running then Drained(s, kept, Draining)
      else
        var drained := Drained(s, kept, Top);
        if drained.place.Aborting? then drained else drained.(place := Asking(o, drained))
    case ClaimAnswers(messages) =>
      s.(place := if messages == [] then Waiting else Handing(messages), ledger := Claim(s.ledger, messages))
    case ClaimFails => s.(place := Aborting)
    case SubmitNext =>
      if s.place.rest == [] then s.(place := Top)
      else
        s.(place := Handing(s.place.rest[1..]), executing := s.executing + {|s.ledger.started|},
           ledger := Begin(s.ledger, s.place.rest[0]))
    case TaskFinishes(execution, raises) =>
      s.(raised := if raises then s.raised + {execution} else s.raised, ledger := Settle(s.ledger, execution))
    case ProgressOrPoll(kept) => Drained(s, kept, Top)
    case Stop => s.(running := false)
    case DrainCompletes => s.(place := Ended)
  }

  function After(o: Options, s: State, events: seq<Event>): State
    decreases |events|
  {
    if events == [] then s
    else After(o, if Enabled(s, events[0]) then Next(o, s, events[0]) else s, events[1..])
  }

  // ----- The loop as the SDK writes it -----

  class Worker {
    const options: Options
    var running: bool
    var executing: set<nat>
    var started: seq<string>
    // The futures that are done, and those of them whose result raises.
    var finished: set<nat>
    var raised: set<nat>
    // Where the loop stands, what has been claimed, and which tasks the threads have not finished.
    ghost var place: Place
    ghost var claimed: seq<string>
    ghost var busy: set<nat>

    ghost function View(): State
      reads this
    {
      State(place, running, executing, raised, Ledger(claimed, started, busy, finished))
    }

    constructor (options: Options)
      ensures View() == INITIAL && this.options == options
    {
      this.options := options;
      running, executing, started, finished, raised := true, {}, [], {}, {};
      place, claimed, busy := Top, [], {};
    }

    /** Discards done futures one by one, in any order, until one raises. */
    method DrainDone() returns (failed: bool, ghost kept: set<nat>)
      modifies this`executing
      ensures CanKeep(old(View()), kept) && executing == old(executing) - (Done(old(View())) - kept)
      ensures failed <==> Done(old(View())) * raised != {}
    {
      var done := executing * finished;
      var left := done;
      while left != {}
        invariant left <= done && executing == old(executing) - (done - left)
        invariant (done - left) * raised == {}
        decreases |left|
      {
        var completed :| completed in left;
        left := left - {completed};
        executing := executing - {completed};
        if completed in raised {
          assert completed in done * raised && completed in (done - left) * raised;
          return true, left;
        }
      }
      assert done - left == done;
      return false, {};
    }

    /** The head of the loop: drain, then leave, wait, or ask for a number of tasks. */
    method LoopHead() returns (toClaim: int, ghost kept: set<nat>)
      requires place.Top?
      modifies this`executing, this`place
      ensures Enabled(old(View()), Resume(kept)) && View() == Next(options, old(View()), Resume(kept))
      ensures place.Claiming? ==> toClaim == place.asked
    {
      toClaim := 0;
      var failed;
      failed, kept := DrainDone();
      if failed {
        place := Aborting;
        return;
      }
      if !running {
        place := Draining;
        return;
      }
      var availableCapacity := options.concurrency - |executing|;
      if availableCapacity <= 0 {
        place := Waiting;
        return;
      }
      toClaim := Min(options.batchSize, availableCapacity);
      place := Claiming(toClaim);
    }

    /** The end of a wait, for a finished future or for the poll interval. */
    method OnProgress() returns (ghost kept: set<nat>)
      requires place.Waiting?
      modifies this`executing, this`place
      ensures Enabled(old(View()), ProgressOrPoll(kept)) && View() == Next(options, old(View()), ProgressOrPoll(kept))
    {
      var failed;
      failed, kept := DrainDone();
      place := if failed then Aborting else Top;
    }

    method OnClaimed(tasks: seq<string>)
      requires Enabled(View(), ClaimAnswers(tasks))
      modifies this`place, this`claimed
      ensures View() == Next(options, old(View()), ClaimAnswers(tasks))
    {
      if |tasks| == 0 {
        assert claimed + tasks == claimed;
        place := Waiting;
        return;
      }
      claimed := claimed + tasks;
      place := Handing(tasks);
    }

    /** One turn of the submit loop over the claimed tasks. */
    method Submit(rest: seq<string>)
      requires place == Handing(rest)
      modifies this`place, this`executing, this`started, this`busy
      ensures View() == Next(options, old(View()), SubmitNext)
    {
      if |rest| == 0 {
        place := Top;
        return;
      }
      executing := executing + {|started|};
      busy := busy + {|started|};
      started := started + [rest[0]];
      place := Handing(rest[1..]);
    }

    /** A pool thread finishes a task. */
    method OnFinished(execution: nat, raises: bool)
      requires Enabled(View(), TaskFinishes(execution, raises))
      modifies this`finished, this`raised, this`busy
      ensures View() == Next(options, old(View()), TaskFinishes(execution, raises))
    {
      finished := finished + {execution};
      busy := busy - {execution};
      if raises {
        raised := raised + {execution};
      }
    }

    /** An exception of the claim leaves the loop. */
    method OnClaimFailed()
      requires Enabled(View(), ClaimFails)
      modifies this`place
      ensures View() == Next(options, old(View()), ClaimFails)
    {
      place := Aborting;
    }

    /** The pool has been left. */
    method OnDrained()
      requires Enabled(View(), DrainCompletes)
      modifies this`place
      ensures View() == Next(options, old(View()), DrainCompletes)
    {
      place := Ended;
    }

    method StopWorker()
      modifies this`running
      ensures View() == Next(options, old(View()), Stop)
    {
      running := false;
    }
  }

  // ----- Safety in every reachable state -----

  /** The claimed tasks that are still to be submitted. */
  function InHand(s: State): seq<string> {
    if s.place.Handing? then s.place.rest else []
  }

  /** How many more executions the loop may be about to start. */
  function Pending(s: State): int {
    if s.place.Claiming? then Max(s.place.asked, 0) else |InHand(s)|
  }

  ghost predicate Safe(o: Options, s: State) {
    && |s.executing| + Pending(s) <= Max(o.concurrency, 0)
    && Balanced(s.ledger, InHand(s))
    // Every running task is one of the loop's futures.
    && s.ledger.executing <= s.executing <= s.ledger.executing + s.ledger.settled
    && (s.place.Draining? ==> !s.running)
    && (s.place.Ended? ==> s.ledger.executing == {})
  }

  lemma DrainIsSafe(o: Options, s: State, kept: set<nat>, otherwise: Place)
    requires Safe(o, s) && InHand(s) == [] && (otherwise.Top? || (otherwise.Draining? && !s.running))
    ensures Safe(o, Drained(s, kept, otherwise))
  {
    SubsetSize(Drained(s, kept, otherwise).executing, s.executing);
  }

  lemma SubmitIsSafe(o: Options, s: State)
    requires Safe(o, s) && s.place.Handing?
    ensures Safe(o, Next(o, s, SubmitNext))
  {
    if s.place.rest != [] {
      BeginBalances(s.ledger, s.place.rest);
      assert |s.ledger.started| !in s.executing;
      assert |s.executing + {|s.ledger.started|}| == |s.executing| + 1;
    }
  }

  lemma FinishIsSafe(o: Options, s: State, execution: nat, raises: bool)
    requires Safe(o, s) && Enabled(s, TaskFinishes(execution, raises))
    ensures Safe(o, Next(o, s, TaskFinishes(execution, raises)))
  {
    SettleBalances(s.ledger, InHand(s), execution);
  }

  lemma AskIsSafe(o: Options, s: State, place: Place)
    requires Safe(o, s) && s.place.Top?
    requires place == Asking(o, s)
    ensures Safe(o, s.(place := place))
  {
  }

  lemma ResumeIsSafe(o: Options, s: State, kept: set<nat>)
    requires Safe(o, s) && Enabled(s, Resume(kept))
    ensures Safe(o, Next(o, s, Resume(kept)))
  {
    if s.running {
      var drained := Drained(s, kept, Top);
      DrainIsSafe(o, s, kept, Top);
      if drained.place.Top? { AskIsSafe(o, drained, Asking(o, drained)); }
    } else {
      DrainIsSafe(o, s, kept, Draining);
    }
  }

  lemma NextIsSafe(o: Options, s: State, e: Event)
    requires Safe(o, s) && Enabled(s, e)
    ensures Safe(o, Next(o, s, e))
  {
    match e
    case Resume(kept) => ResumeIsSafe(o, s, kept);
    case ClaimAnswers(messages) => ClaimBalances(s.ledger, messages);
    case SubmitNext => SubmitIsSafe(o, s);
    case TaskFinishes(execution, raises) => FinishIsSafe(o, s, execution, raises);
    case ProgressOrPoll(kept) => DrainIsSafe(o, s, kept, Top);
    case _ =>
  }

  lemma {:induction false} AfterIsSafe(o: Options, s: State, events: seq<Event>)
    requires Safe(o, s)
    ensures Safe(o, After(o, s, events))
    decreases |events|
  {
    if events != [] {
      if Enabled(s, events[0]) { NextIsSafe(o, s, events[0]); }
      AfterIsSafe(o, if Enabled(s, events[0]) then Next(o, s, events[0]) else s, events[1..]);
    }
  }

  /** In every reachable state running tasks stay within the concurrency, every claimed task has been submitted
      once, in order, or is still in the hands of the loop, and the worker ends, normally or with an exception,
      only when all it claimed has finished. */
  lemma EveryStateIsSafe(o: Options, events: seq<Event>)
    ensures
      var s := After(o, INITIAL, events);
      && |s.ledger.executing| <= Max(o.concurrency, 0)
      && Balanced(s.ledger, InHand(s))
      && (s.place.Ended? ==> AllSettled(s.ledger))
  {
    AfterIsSafe(o, INITIAL, events);
    var s := After(o, INITIAL, events);
    SubsetSize(s.ledger.executing, s.executing);
    if s.place.Ended? { NoneExecuting(s.ledger); }
  }

  // ----- What each event does -----

  /** Some finished future of the loop raised. */
  ghost predicate Broken(s: State) {
    exists f :: f in s.executing && f in s.ledger.settled && f in s.raised
  }

  /** A drain that meets no raised future drops all that are done; one that does ends the loop. */
  lemma DrainTold(s: State, kept: set<nat>, otherwise: Place)
    requires CanKeep(s, kept) && !otherwise.Aborting?
    ensures
      var next := Drained(s, kept, otherwise);
      && (next.place.Aborting? <==> Broken(s))
      && (!next.place.Aborting? ==>
            next.place == otherwise &&
            forall f :: f in next.executing <==> f in s.executing && f !in s.ledger.settled)
      && next.ledger == s.ledger && next.running == s.running && next.raised == s.raised
  {
    if Broken(s) {
      var f :| f in s.executing && f in s.ledger.settled && f in s.raised;
      assert f in Done(s) * s.raised;
    }
  }

  /** At its head the loop drains first. If nothing raised, a stopped loop goes on draining, and a running one with
      free capacity claims the smaller of that and the batch size, and otherwise waits. */
  lemma ResumeTold(o: Options, s: State, kept: set<nat>)
    requires Enabled(s, Resume(kept))
    ensures
      var next := Next(o, s, Resume(kept));
      var free := o.concurrency - |next.executing|;
      && next.ledger == s.ledger && next.running == s.running
      && (next.place.Aborting? <==> Broken(s))
      && (!next.place.Aborting? ==>
            && (forall f :: f in next.executing <==> f in s.executing && f !in s.ledger.settled)
            && (next.place.Draining? <==> !s.running)
            && (next.place.Waiting? <==> s.running && free <= 0)
            && (next.place.Claiming? <==> s.running && free > 0)
            && (next.place.Claiming? ==>
                  next.place.asked <= free && next.place.asked <= o.batchSize &&
                  (next.place.asked == free || next.place.asked == o.batchSize)))
  {
    DrainTold(s, kept, if s.running then Top else Draining);
  }

  /** A claim that answers nothing makes the loop wait, one that fails ends it; any other puts its tasks in hand, and
      submitting takes them up one by one, each with one new future, before the loop is back at its head. */
  lemma HandingTold(o: Options, s: State, messages: seq<string>)
    requires Safe(o, s)
    ensures
      Enabled(s, ClaimAnswers(messages)) ==>
        var next := Next(o, s, ClaimAnswers(messages));
        && next.ledger == s.ledger.(claimed := s.ledger.claimed + messages) && next.executing == s.executing
        && InHand(next) == messages && (messages == [] ==> next.place.Waiting?)
    ensures Enabled(s, ClaimFails) ==> Next(o, s, ClaimFails) == s.(place := Aborting)
    ensures
      Enabled(s, SubmitNext) ==>
        var next := Next(o, s, SubmitNext);
        if InHand(s) == [] then next == s.(place := Top)
        else
          && InHand(s) == [InHand(s)[0]] + InHand(next) && next.place.Handing?
          && next.ledger.started == s.ledger.started + [InHand(s)[0]]
          && next.ledger.executing == s.ledger.executing + {|s.ledger.started|}
          && next.executing == s.executing + {|s.ledger.started|}
  {
  }

  /** A task that finishes is done, and raised exactly if it says so; the loop notices it at its next drain. */
  lemma FinishingTold(o: Options, s: State, execution: nat, raises: bool)
    requires Safe(o, s) && Enabled(s, TaskFinishes(execution, raises)) && execution !in s.raised
    ensures
      var next := Next(o, s, TaskFinishes(execution, raises));
      && next.place == s.place && next.running == s.running && next.executing == s.executing
      && next.ledger.executing == s.ledger.executing - {execution} && execution in Done(next)
      && (execution in next.raised <==> raises)
  {
  }

  /** The end of a wait sends the loop back to its head unless a future raised; stopping and the end of the drain
      change nothing else. */
  lemma OtherEventsTold(o: Options, s: State, e: Event)
    requires Enabled(s, e)
    ensures e.ProgressOrPoll? ==>
      (Next(o, s, e).place == Top || Next(o, s, e).place == Aborting) &&
      (Next(o, s, e).place == Aborting <==> Broken(s))
    ensures e.Stop? ==> Next(o, s, e) == s.(running := false)
    ensures e.DrainCompletes? ==> Next(o, s, e) == s.(place := Ended) && s.ledger.executing == {}
  {
    if e.ProgressOrPoll? { DrainTold(s, e.kept, Top); }
  }

  // ----- Stopping drains -----

  /** The worker was stopped, or an exception is leaving it. */
  predicate Leaving(s: State) {
    !s.running || s.place.Aborting? || s.place.Ended?
  }

  /** How far a leaving worker is from its end. */
  function Distance(s: State): nat {
    |s.ledger.executing| +
    match s.place
    case Claiming(asked) => 4 + 2 * Max(asked, 0)
    case Handing(rest) => 3 + 2 * |rest|
    case Waiting => 3
    case Top => 2
    case Draining => 1
    case Aborting => 1
    case Ended => 0
  }

  lemma LastStep(s: State)
    requires s.place.Draining? || s.place.Aborting?
    ensures exists e :: Enabled(s, e) && !e.Stop?
  {
    if s.ledger.executing == {} {
      assert Enabled(s, DrainCompletes);
    } else {
      var execution :| execution in s.ledger.executing;
      assert Enabled(s, TaskFinishes(execution, false));
    }
  }

  /** A leaving worker that has not ended can always take a step of its own. */
  lemma LeavingIsNotStuck(o: Options, s: State)
    requires Leaving(s) && !s.place.Ended?
    ensures exists e :: Enabled(s, e) && !e.Stop?
  {
    match s.place
    case Top => assert Enabled(s, Resume({}));
    case Waiting => assert Enabled(s, ProgressOrPoll({}));
    case Claiming(_) => assert Enabled(s, ClaimFails);
    case Handing(_) => assert Enabled(s, SubmitNext);
    case Draining => LastStep(s);
    case Aborting => LastStep(s);
    case Ended =>
  }

  lemma DrainMakesProgress(s: State, kept: set<nat>, otherwise: Place)
    requires s.place.Top? || s.place.Waiting?
    requires otherwise.Draining? || (s.place.Waiting? && otherwise.Top?)
    ensures
      var next := Drained(s, kept, otherwise);
      next.ledger == s.ledger && Distance(next) < Distance(s) && (next.place == otherwise || next.place.Aborting?)
  {
  }

  lemma SubmitMakesProgress(o: Options, s: State)
    requires Safe(o, s) && s.place.Handing?
    ensures Distance(Next(o, s, SubmitNext)) < Distance(s)
  {
    if s.place.rest != [] { BeginBalances(s.ledger, s.place.rest); }
  }

  lemma FinishMakesProgress(o: Options, s: State, execution: nat, raises: bool)
    requires Safe(o, s) && Enabled(s, TaskFinishes(execution, raises))
    ensures Distance(Next(o, s, TaskFinishes(execution, raises))) < Distance(s)
  {
    SettleBalances(s.ledger, InHand(s), execution);
  }

  /** Each step of a leaving worker brings it closer to its end; it starts no new claim. */
  lemma LeavingMakesProgress(o: Options, s: State, e: Event)
    requires Safe(o, s) && Leaving(s) && Enabled(s, e) && !e.Stop?
    ensures
      var next := Next(o, s, e);
      && Distance(next) < Distance(s)
      && Leaving(next)
      && (!s.place.Claiming? ==> !next.place.Claiming? && next.ledger.claimed == s.ledger.claimed)
  {
    match e
    case Resume(kept) => DrainMakesProgress(s, kept, Draining);
    case SubmitNext => SubmitMakesProgress(o, s);
    case TaskFinishes(execution, raises) => FinishMakesProgress(o, s, execution, raises);
    case ProgressOrPoll(kept) => DrainMakesProgress(s, kept, Top);
    case _ =>
  }

  /** Every event happens when its turn comes, and none is a further stop. */
  ghost predicate Effective(o: Options, s: State, events: seq<Event>)
    decreases |events|
  {
    events != [] ==>
      Enabled(s, events[0]) && !events[0].Stop? && Effective(o, Next(o, s, events[0]), events[1..])
  }

  /** A stopped or failed worker drains: it takes a bounded number of steps, and when it can take no more it has
      ended with everything it claimed finished. */
  lemma {:induction false} LeavingRunsDrain(o: Options, s: State, events: seq<Event>)
    requires Safe(o, s) && Leaving(s) && Effective(o, s, events)
    ensures |events| <= Distance(s)
    ensures
      var last := After(o, s, events);
      (last.place.Ended? && AllSettled(last.ledger)) || exists e :: Enabled(last, e) && !e.Stop?
    decreases |events|
  {
    if events != [] {
      NextIsSafe(o, s, events[0]);
      LeavingMakesProgress(o, s, events[0]);
      LeavingRunsDrain(o, Next(o, s, events[0]), events[1..]);
    } else if s.place.Ended? {
      NoneExecuting(s.ledger);
    } else {
      LeavingIsNotStuck(o, s);
    }
  }

  // ----- One task at a time -----

  /** The inner loop with a concurrency of one: the tasks it gets to run before one raises. */
  function RunInTurn(raises: seq<bool>): nat
    ensures RunInTurn(raises) <= |raises|
  {
    if raises == [] then 0 else if raises[0] then 1 else 1 + RunInTurn(raises[1..])
  }

  method ExecuteBatch(batch: seq<string>, raises: seq<bool>) returns (executed: seq<string>, failed: bool)
    requires |raises| == |batch|
    ensures executed == batch[..RunInTurn(raises)]
    ensures failed <==> true in raises
  {
    executed, failed := [], false;
    assert raises[0..] == raises;
    for k := 0 to |batch|
      invariant executed == batch[..k] && !failed
      invariant RunInTurn(raises) == k + RunInTurn(raises[k..])
      invariant true !in raises[..k]
    {
      executed := executed + [batch[k]];
      assert raises[k..][0] == raises[k] && raises[k..][1..] == raises[k + 1..];
      assert raises[..k + 1] == raises[..k] + [raises[k]];
      if raises[k] {
        return executed, true;
      }
    }
    assert raises[..|raises|] == raises;
  }

  /** With a concurrency of one, a claimed batch is executed in full exactly when no task but the last raises. */
  lemma {:induction false} BatchExecutedInFullIff(raises: seq<bool>)
    ensures RunInTurn(raises) == |raises| <==> forall i :: 0 <= i < |raises| - 1 ==> !raises[i]
  {
    if raises != [] {
      BatchExecutedInFullIff(raises[1..]);
      if !raises[0] {
        assert forall i :: 0 <= i < |raises| - 2 ==> raises[1..][i] == raises[i + 1];
        assert (forall i :: 0 <= i < |raises| - 1 ==> !raises[i]) <==>
               (forall i :: 0 <= i < |raises[1..]| - 1 ==> !raises[1..][i]) by {
          if forall i :: 0 <= i < |raises[1..]| - 1 ==> !raises[1..][i] {
            forall i | 0 <= i < |raises| - 1
              ensures !raises[i]
            {
              if i > 0 { assert raises[1..][i - 1] == raises[i]; }
            }
          }
        }
      }
    }
  }

  /** The tasks that run are those up to the first that raises, or all. */
  lemma {:induction false} RunInTurnTold(raises: seq<bool>)
    ensures
      var n := RunInTurn(raises);
      && (forall i :: 0 <= i < n - 1 ==> !raises[i])
      && (n < |raises| ==> n > 0 && raises[n - 1])
  {
    if raises != [] && !raises[0] { RunInTurnTold(raises[1..]); }
  }

  /** A run takes its events in order; an event that is not enabled changes nothing. */
  lemma {:induction false} AfterExtend(o: Options, s: State, events: seq<Event>, e: Event)
    ensures
      var before := After(o, s, events);
      After(o, s, events + [e]) == if Enabled(before, e) then Next(o, before, e) else before
    ensures After(o, s, []) == s
    decreases |events|
  {
    if events == [] {
      assert [e][1..] == [];
    } else {
      assert (events + [e])[1..] == events[1..] + [e];
      AfterExtend(o, if Enabled(s, events[0]) then Next(o, s, events[0]) else s, events[1..], e);
    }
  }
}
