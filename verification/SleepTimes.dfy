/** When sleeps are passed: told from what they find. */
module SleepTimes {
  import opened Prelude
  import opened CheckpointNames
  import opened Replay
  import opened CommittedStates
  import opened Transparency
  import opened Apartness

  /** A TypeScript sleep finds the empty string, which is no date, and asks for a time still to come. */
  predicate FindsEmpty(sdk: Sdk, store: Store, at: string, action: Action, c: Choice)
    requires IsSleep(action)
  {
    && sdk.TypeScript? && at in store && store[at].Text? && store[at].text == "" && Requested(action, c) > c.now
  }

  /** A sleep passes and leaves a wake time that its clock has not reached exactly when it finds the empty
      string there and stores the time it asked for. */
  lemma OutcomePassesEarlyIff(sdk: Sdk, store: Store, at: string, action: Action, c: Choice)
    requires action.Step? || IsSleep(action)
    ensures
      var o := Perform(sdk, store, at, action, c);
      (o.reply == Answered(Woke) && at in o.store && o.store[at].Timestamp? && o.store[at].at > c.now) <==>
      (IsSleep(action) && FindsEmpty(sdk, store, at, action, c) && c.lookupError.None? && c.persist.Acknowledged?)
  {
  }

  /** The table holds a wake time at the checkpoint of call i that its clock had not reached. */
  ghost predicate NotReached(s: Attempt, table: Store, choices: seq<Choice>, i: nat)
    requires i < |s.calls| && i < |choices|
  {
    var checkpoint := NameAt(s.calls, i);
    checkpoint in table && table[checkpoint].Timestamp? && table[checkpoint].at > choices[i].now
  }

  /** Call i of an attempt is a sleep that finds the empty string in the table as the calls before left it. */
  ghost predicate FoundEmpty(sdk: Sdk, program: Program, before: Store, s: Attempt, choices: seq<Choice>, i: nat)
    requires i < |s.answers| <= |s.calls| && i < |choices|
  {
    var action := program(s.answers[..i]);
    && IsSleep(action)
    && FindsEmpty(sdk, RunAttempt(sdk, program, before, choices[..i]).store, NameAt(s.calls, i), action, choices[i])
  }

  /** If call i is a sleep that was passed, the table still holds what it found or left, and whether it was
      passed early is told by what it found. */
  ghost predicate PassageTold(sdk: Sdk, program: Program, before: Store, s: Attempt, table: Store, choices: seq<Choice>,
                              i: nat)
    requires i < |s.answers| <= |s.calls| && |s.answers| <= |choices|
  {
    s.answers[i].Woke? ==>
      && NameAt(s.calls, i) in table && (sdk.TypeScript? ==> Truthy(table[NameAt(s.calls, i)]))
      && (NotReached(s, table, choices, i) <==> FoundEmpty(sdk, program, before, s, choices, i))
  }

  ghost predicate PassagesTold(sdk: Sdk, program: Program, before: Store, s: Attempt, table: Store,
                               choices: seq<Choice>) {
    && |s.answers| <= |s.calls| && |s.answers| <= |choices|
    && forall i :: 0 <= i < |s.answers| ==> PassageTold(sdk, program, before, s, table, choices, i)
  }

  /** States that passed sleeps found or left never change again. */
  lemma PassageStaysTold(sdk: Sdk, program: Program, before: Store, s: Attempt, table: Store, later: Store,
                         choices: seq<Choice>, i: nat)
    requires i < |s.answers| <= |s.calls| && |s.answers| <= |choices|
    requires PassageTold(sdk, program, before, s, table, choices, i) && Preserved(sdk, program, table, later)
    ensures PassageTold(sdk, program, before, s, later, choices, i)
  {
    if s.answers[i].Woke? { assert Permanent(sdk, program, NameAt(s.calls, i), table[NameAt(s.calls, i)]); }
  }

  lemma OldPassageTold(sdk: Sdk, program: Program, before: Store, s: Attempt, next: Attempt, table: Store,
                       choices: seq<Choice>, i: nat)
    requires i < |s.answers| == |s.calls| && Appends(s, next) && |next.answers| <= |choices|
    requires PassageTold(sdk, program, before, s, table, choices, i)
    ensures PassageTold(sdk, program, before, next, table, choices, i)
  {
    assert next.answers[..i] == s.answers[..i];
  }

  /** A sleep that finds the empty string passes only when its write is acknowledged. */
  lemma PassingWrites(sdk: Sdk, store: Store, at: string, action: Action, c: Choice)
    requires IsSleep(action) && FindsEmpty(sdk, store, at, action, c)
    requires Perform(sdk, store, at, action, c).reply == Answered(Woke)
    ensures c.lookupError.None? && c.persist.Acknowledged?
  {
  }

  /** The passage of the sleep that one more action passes. */
  lemma NewPassageTold(sdk: Sdk, program: Program, before: Store, s: Attempt, choices: seq<Choice>)
    requires |s.calls| == |s.answers| < |choices| && s == RunAttempt(sdk, program, before, choices[..|s.answers|])
    ensures
      var done, next := |s.answers|, Act(sdk, program, s, choices[|s.answers|]);
      done < |next.answers| <= |next.calls| && |next.answers| <= |choices| ==>
        PassageTold(sdk, program, before, next, next.store, choices, done)
  {
    var done := |s.answers|;
    var action, c := program(s.answers), choices[done];
    var next := Act(sdk, program, s, c);
    ActAppends(sdk, program, s, c);
    ActAnswers(sdk, program, s, c);
    if done < |next.answers| && next.answers[done].Woke? {
      var at := NextName(s.calls, action.name);
      assert next.answers[..done] == s.answers;
      OutcomePassesEarlyIff(sdk, s.store, at, action, c);
      OutcomeAnswers(sdk, s.store, at, action, c);
      if FindsEmpty(sdk, s.store, at, action, c) { PassingWrites(sdk, s.store, at, action, c); }
    }
  }

  lemma ActPassagesTold(sdk: Sdk, program: Program, before: Store, s: Attempt, choices: seq<Choice>)
    requires s.status.Running? && Follows(program, s) && |s.answers| < |choices|
    requires s == RunAttempt(sdk, program, before, choices[..|s.answers|])
    requires PassagesTold(sdk, program, before, s, s.store, choices)
    ensures
      var next := Act(sdk, program, s, choices[|s.answers|]);
      PassagesTold(sdk, program, before, next, next.store, choices)
  {
    var c := choices[|s.answers|];
    var next := Act(sdk, program, s, c);
    ActPreserves(sdk, program, s, c);
    ActAppends(sdk, program, s, c);
    NewPassageTold(sdk, program, before, s, choices);
    forall i | 0 <= i < |s.answers|
      ensures PassageTold(sdk, program, before, next, next.store, choices, i)
    {
      PassageStaysTold(sdk, program, before, s, s.store, next.store, choices, i);
      OldPassageTold(sdk, program, before, s, next, next.store, choices, i);
    }
  }

  lemma AttemptExtends(sdk: Sdk, program: Program, before: Store, choices: seq<Choice>, k: nat)
    requires k < |choices|
    ensures
      var s := RunAttempt(sdk, program, before, choices[..k]);
      s.status.Running? ==> RunAttempt(sdk, program, before, choices[..k + 1]) == Act(sdk, program, s, choices[k])
  {
    assert choices[..k] + [choices[k]] == choices[..k + 1];
    RunExtend(sdk, program, Start(before), choices[..k], choices[k]);
  }

  lemma {:induction false} RunPassagesTold(sdk: Sdk, program: Program, before: Store, s: Attempt, choices: seq<Choice>)
    requires s.status.Running? && Follows(program, s) && |s.answers| <= |choices|
    requires s == RunAttempt(sdk, program, before, choices[..|s.answers|])
    requires PassagesTold(sdk, program, before, s, s.store, choices)
    ensures
      var final := Run(sdk, program, s, choices[|s.answers|..]);
      PassagesTold(sdk, program, before, final, final.store, choices)
    decreases |choices| - |s.answers|
  {
    var done := |s.answers|;
    if done < |choices| {
      assert choices[done..][0] == choices[done] && choices[done..][1..] == choices[done + 1..];
      ActPassagesTold(sdk, program, before, s, choices);
      ActFollows(sdk, program, s, choices[done]);
      ActAppends(sdk, program, s, choices[done]);
      AttemptExtends(sdk, program, before, choices, done);
      var next := Act(sdk, program, s, choices[done]);
      if next.status.Running? { RunPassagesTold(sdk, program, before, next, choices); }
    }
  }

  /** For every body, every history and any further history: a sleep that an attempt passed was passed before the
      wake time that the history ends up with exactly when the SDK is the TypeScript one and the sleep found
      the empty string while it asked for a time still to come. */
  lemma SleepsPassedEarlyIff(sdk: Sdk, program: Program, store: Store, attempts: seq<seq<Choice>>,
                             choices: seq<Choice>, more: seq<seq<Choice>>)
    ensures
      var before := StoreAfter(sdk, program, store, attempts);
      var s := RunAttempt(sdk, program, before, choices);
      PassagesTold(sdk, program, before, s, StoreAfter(sdk, program, s.store, more), choices)
  {
    var before := StoreAfter(sdk, program, store, attempts);
    var s := RunAttempt(sdk, program, before, choices);
    assert choices[0..] == choices && choices[..0] == [];
    RunPassagesTold(sdk, program, before, Start(before), choices);
    HistoryPreserves(sdk, program, s.store, more);
    forall i | 0 <= i < |s.answers|
      ensures PassageTold(sdk, program, before, s, StoreAfter(sdk, program, s.store, more), choices, i)
    {
      PassageStaysTold(sdk, program, before, s, s.store, StoreAfter(sdk, program, s.store, more), choices, i);
    }
  }

  /** No sleep was passed before a wake time that the table holds at its checkpoint. */
  ghost predicate PassedOnTime(s: Attempt, table: Store, choices: seq<Choice>) {
    && |s.answers| <= |s.calls| && |s.answers| <= |choices|
    && forall i :: 0 <= i < |s.answers| && s.answers[i].Woke? ==>
      NameAt(s.calls, i) in table && !NotReached(s, table, choices, i)
  }

  /** No sleep of an attempt finds the empty string while it asks for a time still to come. */
  ghost predicate FindsNoEmpty(sdk: Sdk, program: Program, before: Store, s: Attempt, choices: seq<Choice>) {
    && |s.answers| <= |s.calls| && |s.answers| <= |choices|
    && forall i :: 0 <= i < |s.answers| ==> !FoundEmpty(sdk, program, before, s, choices, i)
  }

  /** No attempt of any history, the one that first asks included, passes a sleep before the wake time that the
      history ends up with: for every body with the Python SDK, and with the TypeScript SDK whenever no sleep
      of the attempt finds the empty string. */
  lemma SleepsArePassedOnTime(sdk: Sdk, program: Program, store: Store, attempts: seq<seq<Choice>>,
                              choices: seq<Choice>, more: seq<seq<Choice>>)
    requires
      var before := StoreAfter(sdk, program, store, attempts);
      var s := RunAttempt(sdk, program, before, choices);
      sdk.Python? || FindsNoEmpty(sdk, program, before, s, choices)
    ensures
      var s := RunAttempt(sdk, program, StoreAfter(sdk, program, store, attempts), choices);
      PassedOnTime(s, StoreAfter(sdk, program, s.store, more), choices)
  {
    var before := StoreAfter(sdk, program, store, attempts);
    var s := RunAttempt(sdk, program, before, choices);
    var table := StoreAfter(sdk, program, s.store, more);
    SleepsPassedEarlyIff(sdk, program, store, attempts, choices, more);
    forall i | 0 <= i < |s.answers| && s.answers[i].Woke?
      ensures NameAt(s.calls, i) in table && !NotReached(s, table, choices, i)
    {
      assert PassageTold(sdk, program, before, s, table, choices, i);
    }
  }

  /** A passed sleep looked at a checkpoint where a sleep of the body looks. */
  lemma SleepsKnown(sdk: Sdk, program: Program, store: Store, choices: seq<Choice>, i: nat)
    ensures
      var s := RunAttempt(sdk, program, store, choices);
      |s.answers| <= |s.calls| && (i < |s.answers| && s.answers[i].Woke? ==> SleepsAt(program, NameAt(s.calls, i)))
  {
    var s := RunAttempt(sdk, program, store, choices);
    AttemptExplained(sdk, program, store, choices);
    if i < |s.answers| && s.answers[i].Woke? {
      assert Fits(sdk, program, s, choices, i);
      CallsPrefix(program, s.answers, i);
      assert s.calls[..i] == s.calls[..|s.answers|][..i];
    }
  }

  /** Where steps and sleeps use different checkpoints, every passed sleep leaves a wake time, and was passed at
      or after it. */
  lemma ApartSleepsArePassedOnTime(sdk: Sdk, program: Program, store: Store, attempts: seq<seq<Choice>>,
                                   choices: seq<Choice>, more: seq<seq<Choice>>, i: nat)
    requires Apart(program) && Clean(program, store)
    requires
      var s := RunAttempt(sdk, program, StoreAfter(sdk, program, store, attempts), choices);
      i < |s.answers| && s.answers[i].Woke?
    ensures
      var s := RunAttempt(sdk, program, StoreAfter(sdk, program, store, attempts), choices);
      var table := StoreAfter(sdk, program, s.store, more);
      && i < |s.calls| && i < |choices|
      && var checkpoint := NameAt(s.calls, i);
         checkpoint in table && table[checkpoint].Timestamp? && table[checkpoint].at <= choices[i].now
  {
    var before := StoreAfter(sdk, program, store, attempts);
    var s := RunAttempt(sdk, program, before, choices);
    SleepsPassedEarlyIff(sdk, program, store, attempts, choices, more);
    SleepsKnown(sdk, program, before, choices, i);
    HistoryStaysClean(sdk, program, store, attempts);
    RunStaysClean(sdk, program, Start(before), choices);
    RunStaysClean(sdk, program, Start(before), choices[..i]);
    HistoryStaysClean(sdk, program, s.store, more);
    assert PassageTold(sdk, program, before, s, StoreAfter(sdk, program, s.store, more), choices, i);
  }
}
