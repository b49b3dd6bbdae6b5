/** Bodies whose steps and sleeps use different checkpoints, and how to tell them by their names. */
module Apartness {
  import opened Prelude
  import opened Decimal
  import opened CheckpointNames
  import opened Replay
  import opened Transparency

  /** No checkpoint is looked at both by a step and by a sleep. */
  ghost predicate Apart(program: Program) {
    forall checkpoint :: StepsAt(program, checkpoint) ==> !SleepsAt(program, checkpoint)
  }

  /** Every sleep checkpoint in the table holds a wake time. */
  ghost predicate Clean(program: Program, table: Store) {
    forall checkpoint :: checkpoint in table && SleepsAt(program, checkpoint) ==> table[checkpoint].Timestamp?
  }

  /** An action writes at its own checkpoint only; a sleep writes a wake time. */
  lemma OutcomeWrites(sdk: Sdk, store: Store, at: string, action: Action, c: Choice, checkpoint: string)
    requires action.Step? || IsSleep(action)
    ensures
      var after := Perform(sdk, store, at, action, c).store;
      checkpoint in after && !(checkpoint in store && after[checkpoint] == store[checkpoint]) ==>
        checkpoint == at && (IsSleep(action) ==> after[at].Timestamp?)
  {
  }

  lemma ActStaysClean(sdk: Sdk, program: Program, s: Attempt, c: Choice)
    requires Apart(program) && Clean(program, s.store) && s.status.Running? && Follows(program, s)
    ensures Clean(program, Act(sdk, program, s, c).store)
  {
    var action := program(s.answers);
    ActAnswers(sdk, program, s, c);
    if action.Step? || IsSleep(action) {
      var at := NextName(s.calls, action.name);
      if action.Step? { assert StepsAt(program, at); }
      var after := Perform(sdk, s.store, at, action, c).store;
      forall checkpoint | checkpoint in after && SleepsAt(program, checkpoint)
        ensures after[checkpoint].Timestamp?
      {
        OutcomeWrites(sdk, s.store, at, action, c, checkpoint);
      }
    }
  }

  lemma {:induction false} RunStaysClean(sdk: Sdk, program: Program, s: Attempt, choices: seq<Choice>)
    requires Apart(program) && Clean(program, s.store) && Follows(program, s)
    ensures Clean(program, Run(sdk, program, s, choices).store)
    decreases |choices|
  {
    if choices != [] && s.status.Running? {
      ActStaysClean(sdk, program, s, choices[0]);
      ActFollows(sdk, program, s, choices[0]);
      RunStaysClean(sdk, program, Act(sdk, program, s, choices[0]), choices[1..]);
    }
  }

  lemma {:induction false} HistoryStaysClean(sdk: Sdk, program: Program, store: Store, attempts: seq<seq<Choice>>)
    requires Apart(program) && Clean(program, store)
    ensures Clean(program, StoreAfter(sdk, program, store, attempts))
    decreases |attempts|
  {
    if attempts != [] {
      RunStaysClean(sdk, program, Start(store), attempts[0]);
      HistoryStaysClean(sdk, program, RunAttempt(sdk, program, store, attempts[0]).store, attempts[1..]);
    }
  }

  /** A body whose steps and sleeps use different checkpoints makes secure attempts only. */
  lemma ApartIsSecure(sdk: Sdk, program: Program, store: Store, choices: seq<Choice>)
    requires Apart(program)
    ensures Secure(sdk, program, RunAttempt(sdk, program, store, choices))
  {
    var s := RunAttempt(sdk, program, store, choices);
    AttemptExplained(sdk, program, store, choices);
    forall i | 0 <= i < |s.answers| && s.answers[i].Got?
      ensures Permanent(sdk, program, NameAt(s.calls, i), s.answers[i].value)
    {
      assert Fits(sdk, program, s, choices, i);
      CallsPrefix(program, s.answers, i);
      assert s.calls[..i] == s.calls[..|s.answers|][..i];
      assert StepsAt(program, NameAt(s.calls, i));
    }
  }

  // ----- Sufficient checks on names -----

  lemma NamesWithoutHashApart(a: string, m: nat, b: string, n: nat)
    requires a != b && '#' !in a && '#' !in b && m >= 1 && n >= 1
    ensures CheckpointName(a, m) != CheckpointName(b, n)
  {
    if m >= 2 { assert CheckpointName(a, m)[|a|] == '#'; }
    if n >= 2 { assert CheckpointName(b, n)[|b|] == '#'; }
    if m >= 2 && n >= 2 && a + "#" + Numeral(m) == b + "#" + Numeral(n) { SuffixUnique(a, b, m, n); }
  }

  /** A check on names is enough: steps and sleeps that use different names, none containing `#`. */
  lemma ApartByName(program: Program, sleepNames: set<string>)
    requires forall answers :: var a := program(answers);
      (IsSleep(a) ==> a.name in sleepNames && '#' !in a.name) && (a.Step? ==> a.name !in sleepNames && '#' !in a.name)
    ensures Apart(program)
  {
    forall step, sleep | program(step).Step? && IsSleep(program(sleep))
      ensures NextName(CallsOf(program, step), program(step).name)
           != NextName(CallsOf(program, sleep), program(sleep).name)
    {
      NamesWithoutHashApart(program(step).name, Uses(CallsOf(program, step), program(step).name) + 1,
                            program(sleep).name, Uses(CallsOf(program, sleep), program(sleep).name) + 1);
    }
  }

  /** The i-th call has the same name and kind whatever was answered before. */
  ghost predicate FixedOrder(program: Program) {
    forall a, b :: |a| == |b| ==>
      CallName(program(a)) == CallName(program(b)) && (IsSleep(program(a)) <==> IsSleep(program(b)))
  }

  lemma {:induction false} SameCalls(program: Program, a: seq<Answer>, b: seq<Answer>)
    requires FixedOrder(program) && |a| == |b|
    ensures CallsOf(program, a) == CallsOf(program, b)
    decreases |a|
  {
    if a != [] { SameCalls(program, a[..|a| - 1], b[..|b| - 1]); }
  }

  lemma {:induction false} CallAt(program: Program, answers: seq<Answer>, all: seq<Answer>)
    requires FixedOrder(program) && |answers| < |all|
    ensures
      var calls := CallsOf(program, all);
      && calls[|answers|] == CallName(program(answers))
      && NameAt(calls, |answers|) == NextName(CallsOf(program, answers), CallName(program(answers)))
    decreases |all|
  {
    SameCalls(program, answers, all[..|answers|]);
    CallsPrefix(program, all, |answers|);
    CallsPrefix(program, all, |answers| + 1);
    var upTo := all[..|answers| + 1];
    assert upTo[..|upTo| - 1] == all[..|answers|];
    assert CallsOf(program, all)[|answers|] == CallsOf(program, upTo)[|answers|];
  }

  lemma {:induction false} CallsWithoutHash(program: Program, answers: seq<Answer>)
    requires forall a :: '#' !in CallName(program(a))
    ensures forall name :: name in CallsOf(program, answers) ==> '#' !in name
    decreases |answers|
  {
    if answers != [] { CallsWithoutHash(program, answers[..|answers| - 1]); }
  }

  /** Steps and sleeps may also share names, as long as no name contains `#` and the order of calls is fixed. */
  lemma ApartByOrder(program: Program)
    requires FixedOrder(program) && forall a :: '#' !in CallName(program(a))
    ensures Apart(program)
  {
    forall step, sleep | program(step).Step? && IsSleep(program(sleep))
      ensures NextName(CallsOf(program, step), program(step).name)
           != NextName(CallsOf(program, sleep), program(sleep).name)
    {
      var all := step + sleep + [Woke];
      var calls := CallsOf(program, all);
      CallAt(program, step, all);
      CallAt(program, sleep, all);
      CallsWithoutHash(program, all);
      NamesWithoutHashDistinct(calls);
      assert |step| != |sleep|;
      assert NameAt(calls, |step|) != NameAt(calls, |sleep|);
    }
  }
}
