/** Two implementations of the lease watchdog. The TypeScript SDK keeps a warning timer and a fatal timer
    and restarts both at each lease extension. The Effect SDK runs a loop that races a sleep against the
    next extension. Time is real; a lease lasts `lease` time units from its last extension. */
module LeaseWatchdog {
  import opened Prelude

  datatype Event = Warn(at: real) | Terminate(at: real)

  /** What happens next to a waiting task: an extension, or its end. */
  function Upcoming(extensions: seq<real>, finish: real): real {
    if extensions == [] then finish else extensions[0]
  }

  // ----- TypeScript: two timers -----

  datatype Timers = Timers(warn: Option<real>, fatal: Option<real>)

  function Scheduled(now: real, lease: real, fatal: bool): Timers {
    if lease <= 0.0 then Timers(None, None)
    else Timers(Some(now + lease), if fatal then Some(now + lease * 2.0) else None)
  }

  class LeaseTimers {
    var warnTimer: Option<real>
    var fatalTimer: Option<real>

    constructor ()
      ensures warnTimer == None && fatalTimer == None
    {
      warnTimer, fatalTimer := None, None;
    }

    method ClearLeaseTimers()
      modifies this
      ensures warnTimer == None && fatalTimer == None
    {
      if warnTimer.Some? { warnTimer := None; }
      if fatalTimer.Some? { fatalTimer := None; }
    }

    method ScheduleLeaseTimers(now: real, lease: real, fatal: bool)
      modifies this
      ensures Timers(warnTimer, fatalTimer) == Scheduled(now, lease, fatal)
    {
      ClearLeaseTimers();
      if lease <= 0.0 {
        return;
      }
      warnTimer := Some(now + lease);
      if fatal {
        fatalTimer := Some(now + lease * 2.0);
      }
    }
  }

  predicate Due(timer: Option<real>, until: real) {
    timer.Some? && timer.value < until
  }

  /** The timers that fire before a given instant, in order of their deadlines. */
  function Fired(timers: Timers, until: real): seq<Event> {
    (if Due(timers.warn, until) then [Warn(timers.warn.value)] else []) +
    (if Due(timers.fatal, until) then [Terminate(timers.fatal.value)] else [])
  }

  /** The events of a task under the timers: extensions reschedule them, the fatal one ends the process,
      the end of the task clears them. */
  function TimerEvents(timers: Timers, lease: real, fatal: bool, extensions: seq<real>, finish: real): seq<Event>
    decreases |extensions|
  {
    var until := Upcoming(extensions, finish);
    if Due(timers.fatal, until) || extensions == [] then Fired(timers, until)
    else
      Fired(timers, until) +
      TimerEvents(Scheduled(extensions[0], lease, fatal), lease, fatal, extensions[1..], finish)
  }

  // ----- Effect: one loop -----

  /** The events of the watchdog loop from the top of an iteration that starts waiting at `from`. */
  function LoopEvents(from: real, lease: real, fatal: bool, extensions: seq<real>, finish: real): seq<Event>
    decreases |extensions|
  {
    var until := Upcoming(extensions, finish);
    var expiry := from + lease;
    if lease <= 0.0 then []
    else if until <= expiry then
      if extensions == [] then [] else LoopEvents(extensions[0], lease, fatal, extensions[1..], finish)
    else if !fatal then [Warn(expiry)]
    else if until <= expiry + lease then
      [Warn(expiry)] + if extensions == [] then [] else LoopEvents(extensions[0], lease, fatal, extensions[1..], finish)
    else [Warn(expiry), Terminate(expiry + lease)]
  }

  datatype Wait = Expired(at: real) | Extended(at: real) | Closed

  /** `waitForLease`: whichever comes first of the sleep, the next extension and the end of the task. */
  function WaitForLease(from: real, lease: real, extensions: seq<real>, finish: real): Wait {
    if Upcoming(extensions, finish) > from + lease then Expired(from + lease)
    else if extensions == [] then Closed
    else Extended(extensions[0])
  }

  /** What follows a warning in fatal mode. */
  function AfterWarning(warned: real, lease: real, extensions: seq<real>, finish: real): seq<Event> {
    var wait := WaitForLease(warned, lease, extensions, finish);
    if wait.Closed? then []
    else if wait.Extended? then LoopEvents(wait.at, lease, true, extensions[1..], finish)
    else [Terminate(wait.at)]
  }

  /** One turn of the loop. */
  lemma LoopTurn(from: real, lease: real, fatal: bool, extensions: seq<real>, finish: real)
    requires lease > 0.0
    ensures
      var wait := WaitForLease(from, lease, extensions, finish);
      LoopEvents(from, lease, fatal, extensions, finish) ==
        if wait.Closed? then []
        else if wait.Extended? then LoopEvents(wait.at, lease, fatal, extensions[1..], finish)
        else [Warn(wait.at)] + (if fatal then AfterWarning(wait.at, lease, extensions, finish) else [])
  {
  }

  lemma Regroup(before: seq<Event>, event: Event, rest: seq<Event>)
    ensures before + ([event] + rest) == before + [event] + rest
    ensures before + [event] + [] == before + [event]
  {
  }

  method Watchdog(start: real, lease: real, fatal: bool, extensions: seq<real>, finish: real)
    returns (events: seq<Event>)
    ensures events == LoopEvents(start, lease, fatal, extensions, finish)
  {
    events := [];
    if lease <= 0.0 {
      return;
    }
    var from, pending := start, extensions;
    while true
      invariant LoopEvents(start, lease, fatal, extensions, finish)
             == events + LoopEvents(from, lease, fatal, pending, finish)
      decreases |pending|
    {
      LoopTurn(from, lease, fatal, pending, finish);
      var wait := WaitForLease(from, lease, pending, finish);
      if wait.Closed? {
        return;
      }
      if wait.Extended? {
        from, pending := wait.at, pending[1..];
        continue;
      }
      var warned := wait.at;
      Regroup(events, Warn(warned), if fatal then AfterWarning(warned, lease, pending, finish) else []);
      events := events + [Warn(warned)];
      if !fatal {
        return;
      }
      wait := WaitForLease(warned, lease, pending, finish);
      if wait.Closed? {
        return;
      }
      if wait.Extended? {
        from, pending := wait.at, pending[1..];
        continue;
      }
      events := events + [Terminate(wait.at)];
      return;
    }
  }

  // ----- Equivalence -----

  /** In fatal mode both watchdogs warn and terminate at the same instants. Both are taken to let an extension
      win that falls exactly on a deadline. */
  lemma {:induction false} FatalWatchdogsAgree(start: real, lease: real, extensions: seq<real>, finish: real)
    ensures LoopEvents(start, lease, true, extensions, finish)
         == TimerEvents(Scheduled(start, lease, true), lease, true, extensions, finish)
    decreases |extensions|
  {
    if extensions != [] { FatalWatchdogsAgree(extensions[0], lease, extensions[1..], finish); }
  }

  /** Without the fatal mode the loop stops at its first warning, while the timers warn again. */
  lemma {:induction false} LoopWarnsOnce(start: real, lease: real, extensions: seq<real>, finish: real)
    ensures
      var timers := TimerEvents(Scheduled(start, lease, false), lease, false, extensions, finish);
      LoopEvents(start, lease, false, extensions, finish) == timers[..Min(1, |timers|)]
    decreases |extensions|
  {
    if extensions != [] { LoopWarnsOnce(extensions[0], lease, extensions[1..], finish); }
  }

  /** The i-th lease: it starts at the start of the task or at an extension and ends at the next one. */
  function LeaseStart(start: real, extensions: seq<real>, i: nat): real
    requires i <= |extensions|
  {
    if i == 0 then start else extensions[i - 1]
  }

  function LeaseEnd(extensions: seq<real>, finish: real, i: nat): real
    requires i <= |extensions|
  {
    if i == |extensions| then finish else extensions[i]
  }

  /** How many leases run longer than their term. */
  function Overruns(start: real, lease: real, extensions: seq<real>, finish: real): nat
    decreases |extensions|
  {
    (if Upcoming(extensions, finish) > start + lease then 1 else 0) +
    if extensions == [] then 0 else Overruns(extensions[0], lease, extensions[1..], finish)
  }

  lemma {:induction false} TimersWarnPerOverrun(start: real, lease: real, extensions: seq<real>, finish: real)
    requires lease > 0.0
    ensures |TimerEvents(Scheduled(start, lease, false), lease, false, extensions, finish)|
         == Overruns(start, lease, extensions, finish)
    decreases |extensions|
  {
    if extensions != [] { TimersWarnPerOverrun(extensions[0], lease, extensions[1..], finish); }
  }

  /** Without the fatal mode the two watchdogs agree exactly when at most one lease is overrun. */
  lemma WarnOnlyWatchdogsAgreeIff(start: real, lease: real, extensions: seq<real>, finish: real)
    requires lease > 0.0
    ensures LoopEvents(start, lease, false, extensions, finish)
         == TimerEvents(Scheduled(start, lease, false), lease, false, extensions, finish)
       <==> Overruns(start, lease, extensions, finish) <= 1
  {
    LoopWarnsOnce(start, lease, extensions, finish);
    TimersWarnPerOverrun(start, lease, extensions, finish);
    var timers := TimerEvents(Scheduled(start, lease, false), lease, false, extensions, finish);
    if |timers| <= 1 { assert timers[..|timers|] == timers; }
  }

  /** Two overrun leases: the timers warn for both, the loop for the first only. */
  lemma SecondWarningIsMissing(start: real, lease: real)
    requires lease > 0.0
    ensures
      var extensions, finish := [start + lease * 3.0], start + lease * 6.0;
      && TimerEvents(Scheduled(start, lease, false), lease, false, extensions, finish)
           == [Warn(start + lease), Warn(start + lease * 4.0)]
      && LoopEvents(start, lease, false, extensions, finish) == [Warn(start + lease)]
  {
    var extensions, finish := [start + lease * 3.0], start + lease * 6.0;
    assert extensions[1..] == [];
    var second := Scheduled(start + lease * 3.0, lease, false);
    assert TimerEvents(second, lease, false, [], finish) == [Warn(start + lease * 4.0)];
  }

  /** Lease i is the first to go twice its term without an extension. */
  predicate FirstLapse(start: real, lease: real, extensions: seq<real>, finish: real, i: int) {
    && 0 <= i <= |extensions|
    && LeaseEnd(extensions, finish, i) > LeaseStart(start, extensions, i) + lease * 2.0
    && forall j :: 0 <= j < i ==> LeaseEnd(extensions, finish, j) <= LeaseStart(start, extensions, j) + lease * 2.0
  }

  lemma LapseShift(start: real, lease: real, extensions: seq<real>, finish: real, i: int)
    requires extensions != [] && extensions[0] <= start + lease * 2.0 && 0 <= i < |extensions|
    ensures LeaseStart(extensions[0], extensions[1..], i) == LeaseStart(start, extensions, i + 1)
    ensures FirstLapse(extensions[0], lease, extensions[1..], finish, i) <==>
            FirstLapse(start, lease, extensions, finish, i + 1)
  {
    var rest := extensions[1..];
    forall j | 0 <= j <= |rest|
      ensures LeaseEnd(rest, finish, j) == LeaseEnd(extensions, finish, j + 1)
      ensures LeaseStart(extensions[0], rest, j) == LeaseStart(start, extensions, j + 1)
    {
    }
    if FirstLapse(extensions[0], lease, rest, finish, i) {
      forall j | 0 <= j < i + 1
        ensures LeaseEnd(extensions, finish, j) <= LeaseStart(start, extensions, j) + lease * 2.0
      {
        if j > 0 { assert LeaseEnd(rest, finish, j - 1) <= LeaseStart(extensions[0], rest, j - 1) + lease * 2.0; }
      }
    }
  }

  /** Lease i is the first to lapse, and reaches twice its term at this instant. */
  predicate LapsesAt(start: real, lease: real, extensions: seq<real>, finish: real, i: int, at: real) {
    FirstLapse(start, lease, extensions, finish, i) && at == LeaseStart(start, extensions, i) + lease * 2.0
  }

  lemma {:induction false} LoopTerminatesIff(start: real, lease: real, extensions: seq<real>, finish: real, at: real)
    requires lease > 0.0
    ensures
      Terminate(at) in LoopEvents(start, lease, true, extensions, finish) <==>
      exists i :: LapsesAt(start, lease, extensions, finish, i, at)
    decreases |extensions|
  {
    var events := LoopEvents(start, lease, true, extensions, finish);
    if Upcoming(extensions, finish) > start + lease * 2.0 {
      assert events[1] == Terminate(start + lease + lease);
      assert LapsesAt(start, lease, extensions, finish, 0, start + lease * 2.0);
    } else if extensions != [] {
      LoopTerminatesIff(extensions[0], lease, extensions[1..], finish, at);
      assert Terminate(at) in events <==>
        Terminate(at) in LoopEvents(extensions[0], lease, true, extensions[1..], finish);
      forall i | 0 <= i < |extensions|
        ensures LeaseStart(extensions[0], extensions[1..], i) == LeaseStart(start, extensions, i + 1)
        ensures FirstLapse(extensions[0], lease, extensions[1..], finish, i) <==>
                FirstLapse(start, lease, extensions, finish, i + 1)
      {
        LapseShift(start, lease, extensions, finish, i);
      }
      if i :| LapsesAt(start, lease, extensions, finish, i, at) {
        assert LapsesAt(extensions[0], lease, extensions[1..], finish, i - 1, at);
      }
      if i :| LapsesAt(extensions[0], lease, extensions[1..], finish, i, at) {
        assert LapsesAt(start, lease, extensions, finish, i + 1, at);
      }
    }
  }

  /** The process is terminated exactly when some lease goes twice its term without an extension, at the
      instant where the first such lease does: by the timers and by the loop alike. */
  lemma TerminatesIff(start: real, lease: real, extensions: seq<real>, finish: real, at: real)
    requires lease > 0.0
    ensures
      Terminate(at) in TimerEvents(Scheduled(start, lease, true), lease, true, extensions, finish) <==>
      exists i :: LapsesAt(start, lease, extensions, finish, i, at)
    ensures
      Terminate(at) in LoopEvents(start, lease, true, extensions, finish) <==>
      exists i :: LapsesAt(start, lease, extensions, finish, i, at)
  {
    LoopTerminatesIff(start, lease, extensions, finish, at);
    FatalWatchdogsAgree(start, lease, extensions, finish);
  }

  /** A lease that is not positive is watched by neither. */
  lemma {:induction false} NoLeaseNoEvents(start: real, lease: real, fatal: bool, extensions: seq<real>, finish: real)
    requires lease <= 0.0
    ensures LoopEvents(start, lease, fatal, extensions, finish) == []
    ensures TimerEvents(Scheduled(start, lease, fatal), lease, fatal, extensions, finish) == []
    decreases |extensions|
  {
    if extensions != [] { NoLeaseNoEvents(extensions[0], lease, fatal, extensions[1..], finish); }
  }

  /** Lease i runs longer than its term, which ends at this instant. */
  predicate OverrunAt(start: real, lease: real, extensions: seq<real>, finish: real, i: int, at: real) {
    && 0 <= i <= |extensions|
    && LeaseEnd(extensions, finish, i) > LeaseStart(start, extensions, i) + lease
    && at == LeaseStart(start, extensions, i) + lease
  }

  /** Without the fatal mode the timers warn exactly where a lease runs out of its term. */
  lemma {:induction false} TimersWarnIff(start: real, lease: real, extensions: seq<real>, finish: real, at: real)
    requires lease > 0.0
    ensures
      Warn(at) in TimerEvents(Scheduled(start, lease, false), lease, false, extensions, finish) <==>
      exists i :: OverrunAt(start, lease, extensions, finish, i, at)
    decreases |extensions|
  {
    var timers := Scheduled(start, lease, false);
    var here := Fired(timers, Upcoming(extensions, finish));
    assert Warn(at) in here <==> OverrunAt(start, lease, extensions, finish, 0, at);
    if extensions != [] {
      var first, rest := extensions[0], extensions[1..];
      TimersWarnIff(first, lease, rest, finish, at);
      forall i | 0 <= i <= |rest|
        ensures OverrunAt(first, lease, rest, finish, i, at) <==> OverrunAt(start, lease, extensions, finish, i + 1, at)
      {
        assert LeaseStart(first, rest, i) == LeaseStart(start, extensions, i + 1);
        assert LeaseEnd(rest, finish, i) == LeaseEnd(extensions, finish, i + 1);
      }
      var later := TimerEvents(Scheduled(first, lease, false), lease, false, rest, finish);
      assert Warn(at) in here + later <==> Warn(at) in here || Warn(at) in later;
      if i :| OverrunAt(start, lease, extensions, finish, i, at) {
        if i > 0 { assert OverrunAt(first, lease, rest, finish, i - 1, at); }
      }
      if i :| OverrunAt(first, lease, rest, finish, i, at) {
        assert OverrunAt(start, lease, extensions, finish, i + 1, at);
      }
    }
  }
}
