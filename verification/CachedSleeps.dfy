/** Sleeps through the cache of the task context: what they keep, and when they are passed. */
module CachedSleeps {
  import opened Prelude
  import opened CheckpointNames
  import opened Replay
  import opened CommittedStates
  import opened Transparency
  import opened SleepTimes
  import opened TaskContext
  import opened CachedReplay

  // ----- Durable sleep -----

  /** The table holds a wake time, and so does the cache if it has the checkpoint. */
  ghost predicate BothHold(table: Store, cache: Store, checkpoint: string, wake: int) {
    && cache.Keys <= table.Keys && checkpoint in table && table[checkpoint] == Timestamp(wake)
    && (checkpoint in cache ==> cache[checkpoint] == Timestamp(wake))
  }

  lemma PerformHoldsBoth(sdk: Sdk, table: Store, cache: Store, at: string, action: Action, c: Choice,
                         checkpoint: string, wake: int)
    requires (action.Step? || IsSleep(action)) && BothHold(table, cache, checkpoint, wake)
    ensures
      var p := CachedPerform(sdk, table, cache, at, action, c);
      && BothHold(p.outcome.store, p.cache, checkpoint, wake)
      && (at == checkpoint && p.outcome.reply.Answered? && p.outcome.reply.answer.Woke? ==> c.now >= wake)
  {
    var seen := Seen(table, cache, at);
    CachedElsewhere(sdk, table, cache, at, action, c, checkpoint);
    CachedHere(sdk, table, cache, at, action, c);
    OutcomeWakesOnTime(sdk, seen, at, action, Effective(c, at in cache), checkpoint, wake);
  }

  lemma CachedActWakesOnTime(sdk: Sdk, program: Program, s: CachedAttempt, choices: seq<Choice>, checkpoint: string,
                             wake: int)
    requires BothHold(s.attempt.store, s.cache, checkpoint, wake)
    requires s.attempt.status.Running? && |s.attempt.calls| == |s.attempt.answers| < |choices|
    requires WakesOnTime(s.attempt, choices, checkpoint, wake)
    ensures
      var next := CachedAct(sdk, program, s, choices[|s.attempt.answers|]);
      && BothHold(next.attempt.store, next.cache, checkpoint, wake)
      && WakesOnTime(next.attempt, choices, checkpoint, wake)
      && (next.attempt.status.Running? ==>
            |next.attempt.calls| == |next.attempt.answers| == |s.attempt.answers| + 1)
  {
    var c := choices[|s.attempt.answers|];
    var action := program(s.attempt.answers);
    if action.Step? || IsSleep(action) {
      var at := NextName(s.attempt.calls, action.name);
      var o := CachedPerform(sdk, s.attempt.store, s.cache, at, action, c).outcome;
      PerformHoldsBoth(sdk, s.attempt.store, s.cache, at, action, c, checkpoint, wake);
      RecordAppends(s.attempt, action.name, o);
    }
  }

  lemma {:induction false} CachedRunWakesOnTime(sdk: Sdk, program: Program, s: CachedAttempt, choices: seq<Choice>,
                                                checkpoint: string, wake: int)
    requires BothHold(s.attempt.store, s.cache, checkpoint, wake)
    requires s.attempt.status.Running? && |s.attempt.calls| == |s.attempt.answers| <= |choices|
    requires WakesOnTime(s.attempt, choices, checkpoint, wake)
    ensures
      var final := CachedRun(sdk, program, s, choices[|s.attempt.answers|..]);
      && BothHold(final.attempt.store, final.cache, checkpoint, wake)
      && WakesOnTime(final.attempt, choices, checkpoint, wake)
    decreases |choices| - |s.attempt.answers|
  {
    var done := |s.attempt.answers|;
    if done < |choices| {
      CachedActWakesOnTime(sdk, program, s, choices, checkpoint, wake);
      CachedRunNext(sdk, program, s, choices, done);
      var next := CachedAct(sdk, program, s, choices[done]);
      if next.attempt.status.Running? {
        CachedRunWakesOnTime(sdk, program, next, choices, checkpoint, wake);
      } else {
        CachedRunStops(sdk, program, next, choices[done + 1..]);
      }
    }
  }

  lemma LaunchWakesOnTime(sdk: Sdk, program: Program, table: Store, launch: Launch, checkpoint: string, wake: int)
    requires checkpoint in table && table[checkpoint] == Timestamp(wake)
    ensures
      var s := Launched(sdk, program, table, launch);
      && checkpoint in s.store && s.store[checkpoint] == Timestamp(wake)
      && WakesOnTime(s, launch.choices, checkpoint, wake)
  {
    assert launch.choices[0..] == launch.choices;
    CachedRunWakesOnTime(sdk, program, Opened(table, launch), launch.choices, checkpoint, wake);
  }

  /** Over any history of cached attempts, a wake time that is stored before an attempt starts never changes, and
      no attempt passes its sleep before it: even when caches go stale. */
  lemma {:induction false} DurableSleepThroughCache(sdk: Sdk, program: Program, store: Store, launches: seq<Launch>,
                                                    checkpoint: string, wake: int)
    requires checkpoint in store && store[checkpoint] == Timestamp(wake)
    ensures
      var after := CachedStoreAfter(sdk, program, store, launches);
      checkpoint in after && after[checkpoint] == Timestamp(wake)
    ensures forall k :: 0 <= k < |launches| ==>
      WakesOnTime(LaunchedAt(sdk, program, store, launches, k), launches[k].choices, checkpoint, wake)
    decreases |launches|
  {
    if launches != [] {
      var first := Launched(sdk, program, store, launches[0]);
      LaunchWakesOnTime(sdk, program, store, launches[0], checkpoint, wake);
      DurableSleepThroughCache(sdk, program, first.store, launches[1..], checkpoint, wake);
      forall k | 0 <= k < |launches|
        ensures WakesOnTime(LaunchedAt(sdk, program, store, launches, k), launches[k].choices, checkpoint, wake)
      {
        if k > 0 { LaterLaunch(sdk, program, store, launches, k); }
      }
    }
  }

  // ----- When sleeps are passed -----

  /** A cached state that is not the one in the table is a falsy one, with the TypeScript SDK. */
  predicate StaleIsFalsy(sdk: Sdk, table: Store, cache: Store, checkpoint: string) {
    checkpoint in cache ==>
      checkpoint in table && (cache[checkpoint] == table[checkpoint] || (sdk.TypeScript? && !Truthy(cache[checkpoint])))
  }

  ghost predicate StaleAreFalsy(sdk: Sdk, table: Store, cache: Store) {
    forall checkpoint :: StaleIsFalsy(sdk, table, cache, checkpoint)
  }

  lemma StaleStayFalsy(sdk: Sdk, table: Store, cache: Store, at: string, action: Action, c: Choice)
    requires (action.Step? || IsSleep(action)) && StaleAreFalsy(sdk, table, cache)
    ensures
      var p := CachedPerform(sdk, table, cache, at, action, c);
      StaleAreFalsy(sdk, p.outcome.store, p.cache)
  {
    var p := CachedPerform(sdk, table, cache, at, action, c);
    assert forall checkpoint :: checkpoint in cache ==> StaleIsFalsy(sdk, table, cache, checkpoint);
    forall checkpoint
      ensures StaleIsFalsy(sdk, p.outcome.store, p.cache, checkpoint)
    {
      assert StaleIsFalsy(sdk, table, cache, checkpoint);
      if checkpoint == at {
      } else {
        CachedElsewhere(sdk, table, cache, at, action, c, checkpoint);
      }
    }
  }

  /** A sleep through the cache passes and leaves a wake time that its clock has not reached exactly when the
      context sees the empty string there and the sleep stores the time it asked for. */
  lemma CachedPassesEarlyIff(sdk: Sdk, table: Store, cache: Store, at: string, action: Action, c: Choice)
    requires (action.Step? || IsSleep(action)) && StaleIsFalsy(sdk, table, cache, at)
    ensures
      var o := CachedPerform(sdk, table, cache, at, action, c).outcome;
      (o.reply == Answered(Woke) && at in o.store && o.store[at].Timestamp? && o.store[at].at > c.now) <==>
      (IsSleep(action) && FindsEmpty(sdk, Seen(table, cache, at), at, action, c) &&
       (at in cache || c.lookupError.None?) && c.persist.Acknowledged?)
  {
    var seen, effective := Seen(table, cache, at), Effective(c, at in cache);
    OutcomeAnswers(sdk, seen, at, action, effective);
    if Perform(sdk, seen, at, action, effective).reply == Answered(Woke) {
    }
  }

  /** A state that table and cache agree on, and that a TypeScript sleep does not read as falsy, stays. */
  lemma AgreedStays(sdk: Sdk, table: Store, cache: Store, at: string, action: Action, c: Choice, checkpoint: string)
    requires (action.Step? || IsSleep(action)) && StaleAreFalsy(sdk, table, cache)
    requires checkpoint in table && (sdk.TypeScript? ==> Truthy(table[checkpoint]))
    requires checkpoint in cache ==> cache[checkpoint] == table[checkpoint]
    ensures
      var p := CachedPerform(sdk, table, cache, at, action, c);
      && checkpoint in p.outcome.store && p.outcome.store[checkpoint] == table[checkpoint]
      && (checkpoint in p.cache ==> p.cache[checkpoint] == table[checkpoint])
  {
    assert forall other :: other in cache ==> StaleIsFalsy(sdk, table, cache, other);
    CachedElsewhere(sdk, table, cache, at, action, c, checkpoint);
    CachedHere(sdk, table, cache, at, action, c);
    var seen, effective := Seen(table, cache, at), Effective(c, at in cache);
    OutcomeChangesIff(sdk, seen, at, action, effective, checkpoint);
  }

  /** Call i of an attempt is a sleep that sees the empty string; `seen` is what the context saw at each call. */
  ghost predicate SawEmpty(sdk: Sdk, program: Program, choices: seq<Choice>, s: Attempt, seen: Store, i: nat)
    requires i < |s.answers| <= |s.calls| && i < |choices|
  {
    var action := program(s.answers[..i]);
    IsSleep(action) && FindsEmpty(sdk, seen, NameAt(s.calls, i), action, choices[i])
  }

  /** If call i is a sleep that was passed, the later table still holds what it saw or left, and whether it was
      passed early is told by what it saw. */
  ghost predicate Told(sdk: Sdk, program: Program, choices: seq<Choice>, s: Attempt, seen: Store, later: Store, i: nat)
    requires i < |s.answers| <= |s.calls| && |s.answers| <= |choices|
  {
    s.answers[i].Woke? ==>
      && NameAt(s.calls, i) in later && (sdk.TypeScript? ==> Truthy(later[NameAt(s.calls, i)]))
      && (NotReached(s, later, choices, i) <==> SawEmpty(sdk, program, choices, s, seen, i))
  }

  /** And within the attempt the cache agrees there. */
  ghost predicate Settled(sdk: Sdk, program: Program, choices: seq<Choice>, s: CachedAttempt, seen: Store, i: nat)
    requires i < |s.attempt.answers| <= |s.attempt.calls| && |s.attempt.answers| <= |choices|
  {
    && Told(sdk, program, choices, s.attempt, seen, s.attempt.store, i)
    && (s.attempt.answers[i].Woke? ==>
          var checkpoint := NameAt(s.attempt.calls, i);
          checkpoint in s.cache ==> s.cache[checkpoint] == s.attempt.store[checkpoint])
  }

  ghost predicate AllSettled(sdk: Sdk, program: Program, choices: seq<Choice>, s: CachedAttempt, seen: seq<Store>) {
    && StaleAreFalsy(sdk, s.attempt.store, s.cache) && |seen| == |s.attempt.answers|
    && |s.attempt.answers| <= |s.attempt.calls| && |s.attempt.answers| <= |choices|
    && forall i :: 0 <= i < |s.attempt.answers| ==> Settled(sdk, program, choices, s, seen[i], i)
  }

  lemma OldSettled(sdk: Sdk, program: Program, choices: seq<Choice>, s: CachedAttempt, action: Action, o: CachedOutcome,
                   seen: Store, i: nat)
    requires |s.attempt.calls| == |s.attempt.answers| < |choices| && i < |s.attempt.answers|
    requires StaleAreFalsy(sdk, s.attempt.store, s.cache) && Settled(sdk, program, choices, s, seen, i)
    requires action.Step? || IsSleep(action)
    requires
      o == CachedPerform(sdk, s.attempt.store, s.cache, NextName(s.attempt.calls, action.name), action,
                         choices[|s.attempt.answers|])
    ensures
      var next := CachedAttempt(Record(s.attempt, action.name, o.outcome), o.cache);
      && |next.attempt.answers| <= |next.attempt.calls| && |next.attempt.answers| <= |choices|
      && i < |next.attempt.answers| && Settled(sdk, program, choices, next, seen, i)
  {
    var at := NextName(s.attempt.calls, action.name);
    var next := Record(s.attempt, action.name, o.outcome);
    RecordAppends(s.attempt, action.name, o.outcome);
    assert next.answers[..i] == s.attempt.answers[..i];
    if s.attempt.answers[i].Woke? {
      AgreedStays(sdk, s.attempt.store, s.cache, at, action, choices[|s.attempt.answers|], NameAt(s.attempt.calls, i));
    }
  }

  lemma NewSettled(sdk: Sdk, program: Program, choices: seq<Choice>, s: CachedAttempt, action: Action, o: CachedOutcome)
    requires |s.attempt.calls| == |s.attempt.answers| < |choices| && action == program(s.attempt.answers)
    requires StaleAreFalsy(sdk, s.attempt.store, s.cache)
    requires action.Step? || IsSleep(action)
    requires
      o == CachedPerform(sdk, s.attempt.store, s.cache, NextName(s.attempt.calls, action.name), action,
                         choices[|s.attempt.answers|])
    ensures
      var done := |s.attempt.answers|;
      var next := CachedAttempt(Record(s.attempt, action.name, o.outcome), o.cache);
      done < |next.attempt.answers| ==>
        && |next.attempt.answers| <= |next.attempt.calls| && |next.attempt.answers| <= |choices|
        && Settled(sdk, program, choices, next,
                   Seen(s.attempt.store, s.cache, NextName(s.attempt.calls, action.name)), done)
  {
    var done, c := |s.attempt.answers|, choices[|s.attempt.answers|];
    var at := NextName(s.attempt.calls, action.name);
    var seen, effective := Seen(s.attempt.store, s.cache, at), Effective(c, at in s.cache);
    var next := Record(s.attempt, action.name, o.outcome);
    RecordAppends(s.attempt, action.name, o.outcome);
    if done < |next.answers| && next.answers[done].Woke? {
      assert next.answers[..done] == s.attempt.answers;
      assert StaleIsFalsy(sdk, s.attempt.store, s.cache, at);
      CachedPassesEarlyIff(sdk, s.attempt.store, s.cache, at, action, c);
      OutcomeAnswers(sdk, seen, at, action, effective);
      if FindsEmpty(sdk, seen, at, action, c) { PassingWrites(sdk, seen, at, action, effective); }
    }
  }

  /** What the context sees at the next call of an attempt. */
  function SeenNext(program: Program, s: CachedAttempt): Store {
    var action := program(s.attempt.answers);
    if action.Return? || action.Throw? then s.attempt.store
    else Seen(s.attempt.store, s.cache, NextName(s.attempt.calls, action.name))
  }

  /** One more entry of what was seen, if the call was answered. */
  function SeenMore(program: Program, s: CachedAttempt, next: CachedAttempt, seen: seq<Store>): seq<Store> {
    if |next.attempt.answers| > |s.attempt.answers| then seen + [SeenNext(program, s)] else seen
  }

  lemma CallSettles(sdk: Sdk, program: Program, choices: seq<Choice>, s: CachedAttempt, seen: seq<Store>)
    requires s.attempt.status.Running? && |s.attempt.calls| == |s.attempt.answers| < |choices|
    requires AllSettled(sdk, program, choices, s, seen)
    requires program(s.attempt.answers).Step? || IsSleep(program(s.attempt.answers))
    ensures
      var next := CachedAct(sdk, program, s, choices[|s.attempt.answers|]);
      AllSettled(sdk, program, choices, next, SeenMore(program, s, next, seen))
  {
    var c := choices[|s.attempt.answers|];
    var action := program(s.attempt.answers);
    var at := NextName(s.attempt.calls, action.name);
    var o := CachedPerform(sdk, s.attempt.store, s.cache, at, action, c);
    var next := CachedAttempt(Record(s.attempt, action.name, o.outcome), o.cache);
    assert next == CachedAct(sdk, program, s, c);
    StaleStayFalsy(sdk, s.attempt.store, s.cache, at, action, c);
    RecordAppends(s.attempt, action.name, o.outcome);
    NewSettled(sdk, program, choices, s, action, o);
    var more := SeenMore(program, s, next, seen);
    forall i | 0 <= i < |next.attempt.answers|
      ensures Settled(sdk, program, choices, next, more[i], i)
    {
      if i < |s.attempt.answers| { OldSettled(sdk, program, choices, s, action, o, seen[i], i); }
    }
  }

  lemma ActSettles(sdk: Sdk, program: Program, choices: seq<Choice>, s: CachedAttempt, seen: seq<Store>)
    requires s.attempt.status.Running? && |s.attempt.calls| == |s.attempt.answers| < |choices|
    requires AllSettled(sdk, program, choices, s, seen)
    ensures
      var next := CachedAct(sdk, program, s, choices[|s.attempt.answers|]);
      AllSettled(sdk, program, choices, next, SeenMore(program, s, next, seen))
  {
    var action := program(s.attempt.answers);
    if action.Step? || IsSleep(action) {
      CallSettles(sdk, program, choices, s, seen);
    } else {
    }
  }

  lemma {:induction false} CachedRunExtend(sdk: Sdk, program: Program, s: CachedAttempt, choices: seq<Choice>,
                                           c: Choice)
    ensures
      var before := CachedRun(sdk, program, s, choices);
      CachedRun(sdk, program, s, choices + [c]) ==
        if before.attempt.status.Running? then CachedAct(sdk, program, before, c) else before
    decreases |choices|
  {
    if choices != [] && s.attempt.status.Running? {
      assert (choices + [c])[1..] == choices[1..] + [c];
      CachedRunExtend(sdk, program, CachedAct(sdk, program, s, choices[0]), choices[1..], c);
    }
  }

  /** The state of an attempt before its i-th action. */
  function StateBefore(sdk: Sdk, program: Program, table: Store, launch: Launch, i: nat): CachedAttempt
    requires i <= |launch.choices|
  {
    CachedRun(sdk, program, Opened(table, launch), launch.choices[..i])
  }

  lemma NextState(sdk: Sdk, program: Program, table: Store, launch: Launch, i: nat)
    requires i < |launch.choices| && StateBefore(sdk, program, table, launch, i).attempt.status.Running?
    ensures StateBefore(sdk, program, table, launch, i + 1)
         == CachedAct(sdk, program, StateBefore(sdk, program, table, launch, i), launch.choices[i])
  {
    var choices := launch.choices;
    CachedRunExtend(sdk, program, Opened(table, launch), choices[..i], choices[i]);
    assert choices[..i] + [choices[i]] == choices[..i + 1];
  }

  /** These are what the context saw at the calls of an attempt. */
  ghost predicate WereSeen(sdk: Sdk, program: Program, table: Store, launch: Launch, seen: seq<Store>) {
    && |seen| <= |launch.choices|
    && forall i :: 0 <= i < |seen| ==> seen[i] == SeenNext(program, StateBefore(sdk, program, table, launch, i))
  }

  /** An attempt before its i-th action, with what it has seen so far. */
  ghost predicate Underway(sdk: Sdk, program: Program, table: Store, launch: Launch, i: nat, s: CachedAttempt,
                           seen: seq<Store>)
    requires i <= |launch.choices|
  {
    && s == StateBefore(sdk, program, table, launch, i)
    && s.attempt.status.Running? && |s.attempt.calls| == |s.attempt.answers| == i
    && AllSettled(sdk, program, launch.choices, s, seen) && WereSeen(sdk, program, table, launch, seen)
  }

  lemma SeenGrows(sdk: Sdk, program: Program, table: Store, launch: Launch, s: CachedAttempt, next: CachedAttempt,
                  seen: seq<Store>)
    requires WereSeen(sdk, program, table, launch, seen) && |seen| < |launch.choices|
    requires s == StateBefore(sdk, program, table, launch, |seen|)
    ensures WereSeen(sdk, program, table, launch, SeenMore(program, s, next, seen))
  {
    var more := SeenMore(program, s, next, seen);
    forall i | 0 <= i < |more|
      ensures more[i] == SeenNext(program, StateBefore(sdk, program, table, launch, i))
    {
    }
  }

  lemma StepSettles(sdk: Sdk, program: Program, table: Store, launch: Launch, i: nat, s: CachedAttempt,
                    next: CachedAttempt, seen: seq<Store>)
    requires i < |launch.choices| && Underway(sdk, program, table, launch, i, s, seen)
    requires next == CachedAct(sdk, program, s, launch.choices[i])
    ensures
      var more := SeenMore(program, s, next, seen);
      && AllSettled(sdk, program, launch.choices, next, more) && WereSeen(sdk, program, table, launch, more)
      && (next.attempt.status.Running? ==> Underway(sdk, program, table, launch, i + 1, next, more))
  {
    ActSettles(sdk, program, launch.choices, s, seen);
    SeenGrows(sdk, program, table, launch, s, next, seen);
    NextState(sdk, program, table, launch, i);
  }

  /** An attempt from its i-th action on: what it sees, and that all its passed sleeps settle. */
  lemma {:induction false} RunSettles(sdk: Sdk, program: Program, table: Store, launch: Launch, i: nat,
                                      s: CachedAttempt, seen: seq<Store>)
    returns (all: seq<Store>)
    requires i <= |launch.choices| && Underway(sdk, program, table, launch, i, s, seen)
    ensures WereSeen(sdk, program, table, launch, all)
    ensures AllSettled(sdk, program, launch.choices, CachedRun(sdk, program, s, launch.choices[i..]), all)
    decreases |launch.choices| - i
  {
    var choices := launch.choices;
    if i == |choices| {
      CachedRunStops(sdk, program, s, choices[i..]);
      return seen;
    }
    var next := CachedAct(sdk, program, s, choices[i]);
    StepSettles(sdk, program, table, launch, i, s, next, seen);
    CachedRunNext(sdk, program, s, choices, i);
    all := SeenMore(program, s, next, seen);
    if next.attempt.status.Running? {
      all := RunSettles(sdk, program, table, launch, i + 1, next, all);
    } else {
      CachedRunStops(sdk, program, next, choices[i + 1..]);
    }
  }

  lemma LaunchSettles(sdk: Sdk, program: Program, table: Store, launch: Launch) returns (seen: seq<Store>)
    ensures WereSeen(sdk, program, table, launch, seen)
    ensures
      var final := CachedRun(sdk, program, Opened(table, launch), launch.choices);
      AllSettled(sdk, program, launch.choices, final, seen)
  {
    var start := Opened(table, launch);
    assert launch.choices[0..] == launch.choices && launch.choices[..0] == [];
    forall checkpoint
      ensures StaleIsFalsy(sdk, table, start.cache, checkpoint)
    {
    }
    seen := RunSettles(sdk, program, table, launch, 0, start, []);
  }

  /** What the context of an attempt saw at call i, and whether the passed sleep there was early. */
  ghost predicate AllTold(sdk: Sdk, program: Program, table: Store, launch: Launch, s: Attempt, later: Store) {
    && |s.answers| <= |s.calls| && |s.answers| <= |launch.choices|
    && forall i :: 0 <= i < |s.answers| ==>
      Told(sdk, program, launch.choices, s, SeenNext(program, StateBefore(sdk, program, table, launch, i)), later, i)
  }

  /** For every body, any history of cached attempts before and after, and caches that may go stale: a sleep that an
      attempt passed was passed before the wake time that the history ends up with exactly when the SDK is the
      TypeScript one and the context saw the empty string there while the sleep asked for a time still to come. */
  lemma SleepsPassedEarlyThroughCacheIff(sdk: Sdk, program: Program, store: Store, launches: seq<Launch>,
                                         launch: Launch, more: seq<Launch>)
    ensures
      var before := CachedStoreAfter(sdk, program, store, launches);
      var s := Launched(sdk, program, before, launch);
      AllTold(sdk, program, before, launch, s, CachedStoreAfter(sdk, program, s.store, more))
  {
    var before := CachedStoreAfter(sdk, program, store, launches);
    var final := CachedRun(sdk, program, Opened(before, launch), launch.choices);
    var s := Launched(sdk, program, before, launch);
    var later := CachedStoreAfter(sdk, program, s.store, more);
    var seen := LaunchSettles(sdk, program, before, launch);
    CachedHistoryPreserves(sdk, program, s.store, more);
    forall i | 0 <= i < |s.answers|
      ensures
        var saw := SeenNext(program, StateBefore(sdk, program, before, launch, i));
        Told(sdk, program, launch.choices, s, saw, later, i)
    {
      assert Settled(sdk, program, launch.choices, final, seen[i], i);
    }
  }

  /** No sleep of an attempt sees the empty string while it asks for a time still to come. */
  ghost predicate SeesNoEmpty(sdk: Sdk, program: Program, table: Store, launch: Launch, s: Attempt) {
    && |s.answers| <= |s.calls| && |s.answers| <= |launch.choices|
    && forall i :: 0 <= i < |s.answers| ==>
      !SawEmpty(sdk, program, launch.choices, s, SeenNext(program, StateBefore(sdk, program, table, launch, i)), i)
  }

  /** So no attempt of any history of cached attempts passes a sleep before the wake time that the history ends up
      with: with the Python SDK for every body, with the TypeScript SDK whenever no sleep sees the empty string. */
  lemma SleepsArePassedOnTimeThroughCache(sdk: Sdk, program: Program, store: Store, launches: seq<Launch>,
                                          launch: Launch, more: seq<Launch>)
    requires
      var before := CachedStoreAfter(sdk, program, store, launches);
      sdk.Python? || SeesNoEmpty(sdk, program, before, launch, Launched(sdk, program, before, launch))
    ensures
      var s := Launched(sdk, program, CachedStoreAfter(sdk, program, store, launches), launch);
      PassedOnTime(s, CachedStoreAfter(sdk, program, s.store, more), launch.choices)
  {
    var before := CachedStoreAfter(sdk, program, store, launches);
    var s := Launched(sdk, program, before, launch);
    var later := CachedStoreAfter(sdk, program, s.store, more);
    SleepsPassedEarlyThroughCacheIff(sdk, program, store, launches, launch, more);
    forall i | 0 <= i < |s.answers| && s.answers[i].Woke?
      ensures NameAt(s.calls, i) in later && !NotReached(s, later, launch.choices, i)
    {
      var saw := SeenNext(program, StateBefore(sdk, program, before, launch, i));
      assert Told(sdk, program, launch.choices, s, saw, later, i);
    }
  }
}
