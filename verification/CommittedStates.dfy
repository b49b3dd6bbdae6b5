/** What is committed is final: a committed step never runs again and keeps its value, and a stored wake time
    is kept and respected, over any history of attempts on the table itself. */
module CommittedStates {
  import opened Prelude
  import opened CheckpointNames
  import opened Replay

  /** What can stand at a checkpoint after a value was committed there: the value, or the wake time of a
      TypeScript sleep that read it as falsy. */
  ghost predicate Kept(sdk: Sdk, program: Program, checkpoint: string, value: Json, state: Json) {
    || state == value
    || (sdk.TypeScript? && !Truthy(value) && SleepsAt(program, checkpoint) && state.Timestamp?)
  }

  ghost predicate StillThere(sdk: Sdk, program: Program, store: Store, checkpoint: string, value: Json) {
    checkpoint in store && Kept(sdk, program, checkpoint, value, store[checkpoint])
  }

  /** From one of its calls on, an attempt answers every use of a checkpoint with what can stand there. */
  ghost predicate AnswersFrom(sdk: Sdk, program: Program, s: Attempt, from: nat, checkpoint: string, value: Json) {
    && |s.answers| <= |s.calls|
    && (forall i :: from <= i < |s.answers| && NameAt(s.calls, i) == checkpoint && s.answers[i].Got? ==>
          Kept(sdk, program, checkpoint, value, s.answers[i].value))
  }

  /** One look at any checkpoint, with a value committed at one. */
  lemma OutcomeKeepsCommitted(sdk: Sdk, program: Program, store: Store, at: string, action: Action, c: Choice,
                              checkpoint: string, value: Json)
    requires action.Step? || IsSleep(action)
    requires StillThere(sdk, program, store, checkpoint, value)
    requires at == checkpoint && IsSleep(action) ==> SleepsAt(program, checkpoint)
    ensures
      var o := Perform(sdk, store, at, action, c);
      && StillThere(sdk, program, o.store, checkpoint, value) && (o.ran ==> at != checkpoint)
      && (at == checkpoint && o.reply.Answered? && o.reply.answer.Got? ==>
            Kept(sdk, program, checkpoint, value, o.reply.answer.value))
  {
  }

  lemma AnswersExtend(sdk: Sdk, program: Program, s: Attempt, next: Attempt, from: nat, checkpoint: string, value: Json)
    requires AnswersFrom(sdk, program, s, from, checkpoint, value) && |s.answers| == |s.calls| && Appends(s, next)
    requires
      |next.answers| > |s.answers| && NameAt(next.calls, |s.calls|) == checkpoint && next.answers[|s.calls|].Got? ==>
      Kept(sdk, program, checkpoint, value, next.answers[|s.calls|].value)
    ensures AnswersFrom(sdk, program, next, from, checkpoint, value)
  {
  }

  lemma ActKeepsCommitted(sdk: Sdk, program: Program, s: Attempt, c: Choice, from: nat, checkpoint: string, value: Json)
    requires StillThere(sdk, program, s.store, checkpoint, value)
    requires s.status.Running? && Follows(program, s) && checkpoint !in s.ran
    requires AnswersFrom(sdk, program, s, from, checkpoint, value)
    ensures
      var next := Act(sdk, program, s, c);
      && StillThere(sdk, program, next.store, checkpoint, value)
      && AnswersFrom(sdk, program, next, from, checkpoint, value) && checkpoint !in next.ran
  {
    ActAppends(sdk, program, s, c);
    ActAnswers(sdk, program, s, c);
    var action := program(s.answers);
    if action.Step? || IsSleep(action) {
      if IsSleep(action) { assert SleepsAt(program, NextName(s.calls, action.name)); }
      OutcomeKeepsCommitted(sdk, program, s.store, NextName(s.calls, action.name), action, c, checkpoint, value);
    }
    AnswersExtend(sdk, program, s, Act(sdk, program, s, c), from, checkpoint, value);
  }

  lemma {:induction false} RunKeepsCommitted(sdk: Sdk, program: Program, s: Attempt, choices: seq<Choice>,
                                             from: nat, checkpoint: string, value: Json)
    requires StillThere(sdk, program, s.store, checkpoint, value)
    requires s.status.Running? && Follows(program, s) && checkpoint !in s.ran
    requires AnswersFrom(sdk, program, s, from, checkpoint, value)
    ensures
      var final := Run(sdk, program, s, choices);
      && StillThere(sdk, program, final.store, checkpoint, value)
      && AnswersFrom(sdk, program, final, from, checkpoint, value)
      && checkpoint !in final.ran
    decreases |choices|
  {
    if choices != [] {
      var next := Act(sdk, program, s, choices[0]);
      ActKeepsCommitted(sdk, program, s, choices[0], from, checkpoint, value);
      ActFollows(sdk, program, s, choices[0]);
      if next.status.Running? {
        RunKeepsCommitted(sdk, program, next, choices[1..], from, checkpoint, value);
      }
    }
  }

  /** The k-th attempt of a history. */
  function AttemptOf(sdk: Sdk, program: Program, store: Store, attempts: seq<seq<Choice>>, k: nat): Attempt
    requires k < |attempts|
  {
    RunAttempt(sdk, program, StoreAfter(sdk, program, store, attempts[..k]), attempts[k])
  }

  lemma LaterAttempt(sdk: Sdk, program: Program, store: Store, attempts: seq<seq<Choice>>, k: nat)
    requires 0 < k < |attempts|
    ensures AttemptOf(sdk, program, store, attempts, k)
         == AttemptOf(sdk, program, RunAttempt(sdk, program, store, attempts[0]).store, attempts[1..], k - 1)
  {
    assert attempts[..k][0] == attempts[0] && attempts[..k][1..] == attempts[1..][..k - 1];
    assert attempts[k] == attempts[1..][k - 1];
  }

  lemma {:induction false} HistoryKeepsCommitted(sdk: Sdk, program: Program, store: Store, attempts: seq<seq<Choice>>,
                                                 checkpoint: string, value: Json)
    requires StillThere(sdk, program, store, checkpoint, value)
    ensures checkpoint !in BodiesRun(sdk, program, store, attempts)
    ensures StillThere(sdk, program, StoreAfter(sdk, program, store, attempts), checkpoint, value)
    ensures forall k :: 0 <= k < |attempts| ==>
      AnswersFrom(sdk, program, AttemptOf(sdk, program, store, attempts, k), 0, checkpoint, value)
    decreases |attempts|
  {
    if attempts != [] {
      var first := RunAttempt(sdk, program, store, attempts[0]);
      RunKeepsCommitted(sdk, program, Start(store), attempts[0], 0, checkpoint, value);
      HistoryKeepsCommitted(sdk, program, first.store, attempts[1..], checkpoint, value);
      forall k | 0 <= k < |attempts|
        ensures AnswersFrom(sdk, program, AttemptOf(sdk, program, store, attempts, k), 0, checkpoint, value)
      {
        if k > 0 { LaterAttempt(sdk, program, store, attempts, k); }
      }
    }
  }

  /** In every later attempt of every history, whatever was committed, the body of a committed step does not
      run, and the step answers the committed value, or the wake time of a TypeScript sleep that read that
      value as falsy. */
  lemma CommittedStepIsFinal(sdk: Sdk, program: Program, store: Store, attempts: seq<seq<Choice>>, checkpoint: string)
    requires checkpoint in store
    ensures checkpoint !in BodiesRun(sdk, program, store, attempts)
    ensures forall k :: 0 <= k < |attempts| ==>
      AnswersFrom(sdk, program, AttemptOf(sdk, program, store, attempts, k), 0, checkpoint, store[checkpoint])
  {
    HistoryKeepsCommitted(sdk, program, store, attempts, checkpoint, store[checkpoint]);
  }

  /** Progress never goes back: over any history the table only grows, and permanent states stay. */
  lemma HistoryPreserves(sdk: Sdk, program: Program, store: Store, attempts: seq<seq<Choice>>)
    ensures Preserved(sdk, program, store, StoreAfter(sdk, program, store, attempts))
  {
    forall checkpoint | checkpoint in store
      ensures
        var after := StoreAfter(sdk, program, store, attempts);
        && checkpoint in after
        && (Permanent(sdk, program, checkpoint, store[checkpoint]) ==> after[checkpoint] == store[checkpoint])
    {
      HistoryKeepsCommitted(sdk, program, store, attempts, checkpoint, store[checkpoint]);
    }
  }

  /** A permanent value is what every later use of its checkpoint answers. */
  lemma PermanentValueIsFinal(sdk: Sdk, program: Program, store: Store, attempts: seq<seq<Choice>>, checkpoint: string,
                              k: nat, i: nat)
    requires checkpoint in store && Permanent(sdk, program, checkpoint, store[checkpoint]) && k < |attempts|
    ensures
      var s := AttemptOf(sdk, program, store, attempts, k);
      && |s.answers| <= |s.calls|
      && (i < |s.answers| && NameAt(s.calls, i) == checkpoint && s.answers[i].Got? ==>
            s.answers[i].value == store[checkpoint])
  {
    CommittedStepIsFinal(sdk, program, store, attempts, checkpoint);
    assert AnswersFrom(sdk, program, AttemptOf(sdk, program, store, attempts, k), 0, checkpoint, store[checkpoint]);
  }

  // ----- Durable sleep -----

  /** Once a wake time is stored, no attempt passes that sleep before it. */
  ghost predicate WakesOnTime(s: Attempt, choices: seq<Choice>, checkpoint: string, wake: int) {
    && |s.answers| <= |s.calls| && |s.answers| <= |choices|
    && (forall i :: 0 <= i < |s.answers| && NameAt(s.calls, i) == checkpoint && s.answers[i].Woke? ==>
          choices[i].now >= wake)
  }

  /** One look at a stored wake time. */
  lemma OutcomeWakesOnTime(sdk: Sdk, store: Store, at: string, action: Action, c: Choice, checkpoint: string, wake: int)
    requires action.Step? || IsSleep(action)
    requires checkpoint in store && store[checkpoint] == Timestamp(wake)
    ensures
      var o := Perform(sdk, store, at, action, c);
      && checkpoint in o.store && o.store[checkpoint] == Timestamp(wake)
      && (at == checkpoint && o.reply.Answered? && o.reply.answer.Woke? ==> c.now >= wake)
  {
  }

  lemma ActWakesOnTime(sdk: Sdk, program: Program, s: Attempt, choices: seq<Choice>, checkpoint: string, wake: int)
    requires checkpoint in s.store && s.store[checkpoint] == Timestamp(wake)
    requires s.status.Running? && |s.calls| == |s.answers| < |choices|
    requires WakesOnTime(s, choices, checkpoint, wake)
    ensures
      var next := Act(sdk, program, s, choices[|s.answers|]);
      && checkpoint in next.store && next.store[checkpoint] == Timestamp(wake)
      && WakesOnTime(next, choices, checkpoint, wake)
      && (next.status.Running? ==> |next.calls| == |next.answers| == |s.answers| + 1)
  {
    var c := choices[|s.answers|];
    ActAppends(sdk, program, s, c);
    ActAnswers(sdk, program, s, c);
    var action := program(s.answers);
    if action.Step? || IsSleep(action) {
      OutcomeWakesOnTime(sdk, s.store, NextName(s.calls, action.name), action, c, checkpoint, wake);
    }
  }

  lemma {:induction false} RunWakesOnTime(sdk: Sdk, program: Program, s: Attempt, choices: seq<Choice>, done: nat,
                                          checkpoint: string, wake: int)
    requires checkpoint in s.store && s.store[checkpoint] == Timestamp(wake)
    requires s.status.Running? && done <= |choices| && |s.calls| == |s.answers| == done
    requires WakesOnTime(s, choices, checkpoint, wake)
    ensures
      var final := Run(sdk, program, s, choices[done..]);
      && checkpoint in final.store && final.store[checkpoint] == Timestamp(wake)
      && WakesOnTime(final, choices, checkpoint, wake)
    decreases |choices| - done
  {
    if done < |choices| {
      var next := Act(sdk, program, s, choices[done]);
      ActWakesOnTime(sdk, program, s, choices, checkpoint, wake);
      assert choices[done..][0] == choices[done] && choices[done..][1..] == choices[done + 1..];
      if next.status.Running? {
        RunWakesOnTime(sdk, program, next, choices, done + 1, checkpoint, wake);
      }
    }
  }

  /** Over any history, a stored wake time never changes and is never undercut, although a relative
      sleep computes a new wake time in each attempt. */
  lemma {:induction false} DurableSleep(sdk: Sdk, program: Program, store: Store, attempts: seq<seq<Choice>>,
                                        checkpoint: string, wake: int)
    requires checkpoint in store && store[checkpoint] == Timestamp(wake)
    ensures
      var after := StoreAfter(sdk, program, store, attempts);
      checkpoint in after && after[checkpoint] == Timestamp(wake)
    ensures forall k :: 0 <= k < |attempts| ==>
      WakesOnTime(RunAttempt(sdk, program, StoreAfter(sdk, program, store, attempts[..k]), attempts[k]),
                  attempts[k], checkpoint, wake)
    decreases |attempts|
  {
    if attempts != [] {
      var first := RunAttempt(sdk, program, store, attempts[0]);
      assert attempts[0][0..] == attempts[0];
      RunWakesOnTime(sdk, program, Start(store), attempts[0], 0, checkpoint, wake);
      DurableSleep(sdk, program, first.store, attempts[1..], checkpoint, wake);
      forall k | 0 <= k < |attempts|
        ensures WakesOnTime(RunAttempt(sdk, program, StoreAfter(sdk, program, store, attempts[..k]), attempts[k]),
                            attempts[k], checkpoint, wake)
      {
        if k > 0 {
          assert attempts[..k][0] == attempts[0] && attempts[..k][1..] == attempts[1..][..k - 1];
          assert attempts[k] == attempts[1..][k - 1];
        }
      }
    }
  }
}
