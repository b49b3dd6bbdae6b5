/** Where the states of a checkpoint table come from. */
module StateSources {
  import opened Prelude
  import opened CheckpointNames
  import opened Replay
  import opened Transparency

  /** Call i of an attempt wrote this state: the value its step body returned, or the wake time it asked for. */
  ghost predicate Wrote(program: Program, s: Attempt, choices: seq<Choice>, i: int, checkpoint: string, state: Json) {
    && 0 <= i < |s.calls| && i <= |s.answers| && i < |choices|
    && NameAt(s.calls, i) == checkpoint
    && var action := program(s.answers[..i]);
       (action.Step? && choices[i].body == Returns(state) && checkpoint in s.ran)
       || (IsSleep(action) && state == Timestamp(Requested(action, choices[i])))
  }

  /** What an attempt changed in the table, its own calls wrote. */
  ghost predicate Sourced(program: Program, before: Store, s: Attempt, choices: seq<Choice>) {
    forall checkpoint :: checkpoint in s.store ==>
      (checkpoint in before && before[checkpoint] == s.store[checkpoint])
      || exists i :: Wrote(program, s, choices, i, checkpoint, s.store[checkpoint])
  }

  lemma WroteLater(program: Program, s: Attempt, next: Attempt, choices: seq<Choice>, i: int, checkpoint: string,
                   state: Json)
    requires Wrote(program, s, choices, i, checkpoint, state) && Appends(s, next) && s.ran <= next.ran
    ensures Wrote(program, next, choices, i, checkpoint, state)
  {
    assert next.answers[..i] == s.answers[..i];
  }

  /** What one look at a checkpoint can write. */
  lemma OutcomeSource(sdk: Sdk, store: Store, at: string, action: Action, c: Choice, checkpoint: string)
    requires action.Step? || IsSleep(action)
    ensures
      var o := Perform(sdk, store, at, action, c);
      checkpoint in o.store && !(checkpoint in store && o.store[checkpoint] == store[checkpoint]) ==>
        && checkpoint == at
        && (action.Step? ==> o.ran && c.body == Returns(o.store[checkpoint]))
        && (IsSleep(action) ==> o.store[checkpoint] == Timestamp(Requested(action, c)))
  {
  }

  lemma ActIsSourced(sdk: Sdk, program: Program, before: Store, s: Attempt, choices: seq<Choice>)
    requires s.status.Running? && |s.calls| == |s.answers| < |choices| && Sourced(program, before, s, choices)
    ensures Sourced(program, before, Act(sdk, program, s, choices[|s.answers|]), choices)
  {
    var done := |s.answers|;
    var next := Act(sdk, program, s, choices[done]);
    var action := program(s.answers);
    ActAppends(sdk, program, s, choices[done]);
    ActAnswers(sdk, program, s, choices[done]);
    assert next.answers[..done] == s.answers;
    forall checkpoint | checkpoint in next.store
      ensures (checkpoint in before && before[checkpoint] == next.store[checkpoint])
              || exists i :: Wrote(program, next, choices, i, checkpoint, next.store[checkpoint])
    {
      if checkpoint in s.store && next.store[checkpoint] == s.store[checkpoint] {
        if i :| Wrote(program, s, choices, i, checkpoint, s.store[checkpoint]) {
          WroteLater(program, s, next, choices, i, checkpoint, s.store[checkpoint]);
        }
      } else {
        OutcomeSource(sdk, s.store, NextName(s.calls, action.name), action, choices[done], checkpoint);
        assert Wrote(program, next, choices, done, checkpoint, next.store[checkpoint]);
      }
    }
  }

  lemma {:induction false} RunIsSourced(sdk: Sdk, program: Program, before: Store, s: Attempt, choices: seq<Choice>)
    requires s.status.Running? && |s.calls| == |s.answers| <= |choices| && Sourced(program, before, s, choices)
    ensures Sourced(program, before, Run(sdk, program, s, choices[|s.answers|..]), choices)
    decreases |choices| - |s.answers|
  {
    var done := |s.answers|;
    if done < |choices| {
      assert choices[done..][0] == choices[done] && choices[done..][1..] == choices[done + 1..];
      ActIsSourced(sdk, program, before, s, choices);
      ActAppends(sdk, program, s, choices[done]);
      var next := Act(sdk, program, s, choices[done]);
      if next.status.Running? { RunIsSourced(sdk, program, before, next, choices); }
    }
  }

  /** Whatever an attempt leaves in the table was there before, or is the value that the body of that step
      returned in this attempt, or the wake time that a sleep asked for in this attempt. */
  lemma StatesHaveSources(sdk: Sdk, program: Program, store: Store, choices: seq<Choice>)
    ensures Sourced(program, store, RunAttempt(sdk, program, store, choices), choices)
  {
    assert choices[0..] == choices;
    RunIsSourced(sdk, program, store, Start(store), choices);
  }
}
