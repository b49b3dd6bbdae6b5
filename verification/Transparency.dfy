/** Replay is transparent: what a completing attempt saw is what its final checkpoint table says, so
    running the body again on that table, or on any later one, gives the same result and runs no step. */
module Transparency {
  import opened Prelude
  import opened CheckpointNames
  import opened Replay
  import opened CommittedStates

  /** The wake time that a sleep asks for. */
  function Requested(action: Action, c: Choice): int
    requires IsSleep(action)
  {
    if action.SleepUntil? then action.wakeAt else c.calledAt + action.duration
  }

  // ----- What a table says about the answers of an attempt -----

  /** Call j is a sleep that looks at the checkpoint of the earlier call i and whose write would land. */
  ghost predicate Rewrites(program: Program, s: Attempt, choices: seq<Choice>, i: nat, j: int) {
    && i < j < |s.calls| && j <= |s.answers| && j < |choices|
    && NameAt(s.calls, j) == NameAt(s.calls, i)
    && IsSleep(program(s.answers[..j]))
    && choices[j].lookupError.None? && !choices[j].persist.Refused?
  }

  /** Answer i is a falsy value that a later TypeScript sleep replaces by its wake time. */
  ghost predicate Lost(sdk: Sdk, program: Program, s: Attempt, choices: seq<Choice>, i: nat)
    requires i < |s.answers|
  {
    && sdk.TypeScript? && s.answers[i].Got? && !Truthy(s.answers[i].value)
    && exists j :: Rewrites(program, s, choices, i, j)
  }

  /** An answer is a caught failure, or the table holds it at the checkpoint that was looked at, unless it is lost. */
  ghost predicate Fits(sdk: Sdk, program: Program, s: Attempt, choices: seq<Choice>, i: nat)
    requires i < |s.answers| <= |s.calls|
  {
    var action := program(s.answers[..i]);
    var checkpoint := NameAt(s.calls, i);
    && (action.Step? || IsSleep(action)) && action.name == s.calls[i]
    && match s.answers[i]
       case Raised(_) => true
       case Got(v) =>
         action.Step? && checkpoint in s.store &&
         (if Lost(sdk, program, s, choices, i) then s.store[checkpoint].Timestamp? else s.store[checkpoint] == v)
       case Woke =>
         IsSleep(action) && checkpoint in s.store && (sdk.TypeScript? ==> Truthy(s.store[checkpoint]))
  }

  ghost predicate Explained(sdk: Sdk, program: Program, s: Attempt, choices: seq<Choice>) {
    && |s.answers| <= |s.calls|
    && (forall i :: 0 <= i < |s.answers| ==> Fits(sdk, program, s, choices, i))
    && s.calls[..|s.answers|] == CallsOf(program, s.answers)
    && (!s.status.Suspended? ==> |s.calls| == |s.answers|)
    && (s.status.Completed? ==> program(s.answers) == Return(s.status.result))
    && (s.status.Failed? ==> program(s.answers) == Throw(s.status.error))
  }

  lemma RewritesLater(program: Program, s: Attempt, next: Attempt, choices: seq<Choice>, i: nat, j: int)
    requires Appends(s, next) && |s.calls| == |s.answers| && i < |s.calls| && j != |s.calls|
    requires |next.calls| <= |s.calls| + 1
    ensures Rewrites(program, next, choices, i, j) <==> Rewrites(program, s, choices, i, j)
  {
    if i < j < |s.calls| { assert next.answers[..j] == s.answers[..j]; }
  }

  /** The next call rewrites an earlier checkpoint when it is a sleep there. */
  lemma NewRewrites(sdk: Sdk, program: Program, s: Attempt, choices: seq<Choice>, i: nat)
    requires |s.calls| == |s.answers| < |choices| && i < |s.calls|
    ensures
      var action, c := program(s.answers), choices[|s.answers|];
      var next := Act(sdk, program, s, c);
      && |next.calls| <= |s.calls| + 1
      && (Rewrites(program, next, choices, i, |s.calls|) <==>
            IsSleep(action) && NextName(s.calls, action.name) == NameAt(s.calls, i) &&
            c.lookupError.None? && !c.persist.Refused?)
  {
    var next := Act(sdk, program, s, choices[|s.answers|]);
    ActAppends(sdk, program, s, choices[|s.answers|]);
    ActAnswers(sdk, program, s, choices[|s.answers|]);
    assert next.answers[..|s.answers|] == s.answers;
  }

  /** A later action loses an answer exactly when it rewrites its checkpoint. */
  lemma LostLater(sdk: Sdk, program: Program, s: Attempt, choices: seq<Choice>, i: nat)
    requires |s.calls| == |s.answers| < |choices| && i < |s.calls|
    ensures
      var next := Act(sdk, program, s, choices[|s.answers|]);
      i < |next.answers| &&
      (Lost(sdk, program, next, choices, i) <==>
        Lost(sdk, program, s, choices, i) ||
        (sdk.TypeScript? && s.answers[i].Got? && !Truthy(s.answers[i].value) &&
         Rewrites(program, next, choices, i, |s.calls|)))
  {
    var next := Act(sdk, program, s, choices[|s.answers|]);
    ActAppends(sdk, program, s, choices[|s.answers|]);
    NewRewrites(sdk, program, s, choices, i);
    forall j | j != |s.calls|
      ensures Rewrites(program, next, choices, i, j) <==> Rewrites(program, s, choices, i, j)
    {
      RewritesLater(program, s, next, choices, i, j);
    }
  }

  lemma FitsLater(sdk: Sdk, program: Program, s: Attempt, choices: seq<Choice>, i: nat)
    requires |s.calls| == |s.answers| < |choices| && i < |s.calls| && Fits(sdk, program, s, choices, i)
    ensures
      var next := Act(sdk, program, s, choices[|s.answers|]);
      i < |next.answers| <= |next.calls| && Fits(sdk, program, next, choices, i)
  {
    var action, c := program(s.answers), choices[|s.answers|];
    var next := Act(sdk, program, s, c);
    ActAppends(sdk, program, s, c);
    ActAnswers(sdk, program, s, c);
    LostLater(sdk, program, s, choices, i);
    NewRewrites(sdk, program, s, choices, i);
    assert next.answers[..i] == s.answers[..i];
    var checkpoint := NameAt(s.calls, i);
    if !s.answers[i].Raised? && (action.Step? || IsSleep(action)) {
      OutcomeChangesIff(sdk, s.store, NextName(s.calls, action.name), action, c, checkpoint);
    }
  }

  /** What one look at a checkpoint answers, the table holds afterwards. */
  lemma OutcomeAnswers(sdk: Sdk, store: Store, at: string, action: Action, c: Choice)
    requires action.Step? || IsSleep(action)
    ensures
      var o := Perform(sdk, store, at, action, c);
      o.reply.Answered? ==>
        match o.reply.answer
        case Raised(_) => true
        case Got(v) => action.Step? && at in o.store && o.store[at] == v
        case Woke => IsSleep(action) && at in o.store && (sdk.TypeScript? ==> Truthy(o.store[at]))
  {
  }

  /** The answer that one action adds fits. */
  lemma NewAnswerFits(sdk: Sdk, program: Program, s: Attempt, choices: seq<Choice>)
    requires |s.calls| == |s.answers| < |choices|
    ensures
      var next := Act(sdk, program, s, choices[|s.answers|]);
      |s.answers| < |next.answers| <= |next.calls| ==> Fits(sdk, program, next, choices, |s.answers|)
  {
    var done := |s.answers|;
    var action, c := program(s.answers), choices[done];
    var next := Act(sdk, program, s, c);
    ActAppends(sdk, program, s, c);
    ActAnswers(sdk, program, s, c);
    if done < |next.answers| {
      assert next.answers[..done] == s.answers;
      OutcomeAnswers(sdk, s.store, NextName(s.calls, action.name), action, c);
      assert |next.calls| == done + 1;
      assert !Lost(sdk, program, next, choices, done);
    }
  }

  lemma StoppedAdds(sdk: Sdk, program: Program, s: Attempt, c: Choice)
    requires s.status.Running? && !Act(sdk, program, s, c).status.Running?
    ensures Act(sdk, program, s, c).answers == s.answers
  {
  }

  lemma ActCalls(sdk: Sdk, program: Program, s: Attempt, c: Choice)
    requires s.status.Running? && Follows(program, s)
    ensures
      var next := Act(sdk, program, s, c);
      |next.answers| <= |next.calls| && next.calls[..|next.answers|] == CallsOf(program, next.answers)
  {
    var next := Act(sdk, program, s, c);
    ActFollows(sdk, program, s, c);
    ActAppends(sdk, program, s, c);
    if next.status.Running? {
      assert next.calls[..|next.answers|] == next.calls;
    } else {
      StoppedAdds(sdk, program, s, c);
      assert next.calls[..|s.answers|] == s.calls;
    }
  }

  /** What the status of an attempt says after one action. */
  lemma ActStatus(sdk: Sdk, program: Program, s: Attempt, c: Choice)
    requires s.status.Running? && |s.calls| == |s.answers|
    ensures
      var next := Act(sdk, program, s, c);
      && (!next.status.Suspended? ==> |next.calls| == |next.answers|)
      && (next.status.Completed? ==> program(next.answers) == Return(next.status.result))
      && (next.status.Failed? ==> program(next.answers) == Throw(next.status.error))
  {
  }

  lemma ActExplained(sdk: Sdk, program: Program, s: Attempt, choices: seq<Choice>)
    requires s.status.Running? && |s.answers| < |choices| && Explained(sdk, program, s, choices)
    ensures Explained(sdk, program, Act(sdk, program, s, choices[|s.answers|]), choices)
  {
    var c := choices[|s.answers|];
    var next := Act(sdk, program, s, c);
    assert s.calls[..|s.answers|] == s.calls;
    ActAppends(sdk, program, s, c);
    ActCalls(sdk, program, s, c);
    ActStatus(sdk, program, s, c);
    NewAnswerFits(sdk, program, s, choices);
    forall i | 0 <= i < |next.answers|
      ensures Fits(sdk, program, next, choices, i)
    {
      if i < |s.answers| { FitsLater(sdk, program, s, choices, i); }
    }
  }

  lemma {:induction false} RunExplained(sdk: Sdk, program: Program, s: Attempt, choices: seq<Choice>)
    requires s.status.Running? && |s.answers| <= |choices| && Explained(sdk, program, s, choices)
    ensures Explained(sdk, program, Run(sdk, program, s, choices[|s.answers|..]), choices)
    decreases |choices| - |s.answers|
  {
    var done := |s.answers|;
    if done < |choices| {
      assert choices[done..][0] == choices[done] && choices[done..][1..] == choices[done + 1..];
      ActExplained(sdk, program, s, choices);
      ActAppends(sdk, program, s, choices[done]);
      var next := Act(sdk, program, s, choices[done]);
      if next.status.Running? { RunExplained(sdk, program, next, choices); }
    }
  }

  /** Every answer of an attempt, cut off anywhere and with any failures caught, is a caught failure or what
      its table holds at its checkpoint; the values lost to a sleep are told exactly. */
  lemma AttemptExplained(sdk: Sdk, program: Program, store: Store, choices: seq<Choice>)
    ensures Explained(sdk, program, RunAttempt(sdk, program, store, choices), choices)
  {
    assert choices[0..] == choices;
    RunExplained(sdk, program, Start(store), choices);
  }

  /** The table holds answer i at its checkpoint. */
  ghost predicate Held(s: Attempt, table: Store, i: nat)
    requires i < |s.answers| <= |s.calls|
  {
    var checkpoint := NameAt(s.calls, i);
    match s.answers[i]
    case Raised(_) => true
    case Got(v) => checkpoint in table && table[checkpoint] == v
    case Woke => checkpoint in table
  }

  /** A step got a falsy value at a checkpoint where a later sleep passed. */
  ghost predicate FalsyThenSlept(s: Attempt, i: int, j: int) {
    && 0 <= i < j < |s.answers| <= |s.calls| && NameAt(s.calls, i) == NameAt(s.calls, j)
    && s.answers[i].Got? && !Truthy(s.answers[i].value) && s.answers[j].Woke?
  }

  /** An attempt that completes without having caught a failure. */
  ghost predicate CompletesCleanly(s: Attempt) {
    s.status.Completed? && forall i :: 0 <= i < |s.answers| ==> !s.answers[i].Raised?
  }

  ghost predicate AllHeld(s: Attempt, table: Store) {
    |s.answers| <= |s.calls| && forall i :: 0 <= i < |s.answers| ==> Held(s, table, i)
  }

  lemma LostIffSlept(sdk: Sdk, program: Program, s: Attempt, choices: seq<Choice>, i: nat)
    requires Explained(sdk, program, s, choices) && CompletesCleanly(s) && i < |s.answers|
    ensures Lost(sdk, program, s, choices, i) <==> sdk.TypeScript? && exists j :: FalsyThenSlept(s, i, j)
  {
    if Lost(sdk, program, s, choices, i) {
      var j :| Rewrites(program, s, choices, i, j);
      assert Fits(sdk, program, s, choices, j);
      assert FalsyThenSlept(s, i, j);
    }
    if sdk.TypeScript? {
      if j :| FalsyThenSlept(s, i, j) {
        assert Fits(sdk, program, s, choices, i) && Fits(sdk, program, s, choices, j);
      }
    }
  }

  /** The final table of a cleanly completed attempt holds all its answers exactly when, with the TypeScript
      SDK, no sleep passed at the checkpoint of an earlier falsy answer. */
  lemma AnswersHeldIff(sdk: Sdk, program: Program, store: Store, choices: seq<Choice>)
    requires CompletesCleanly(RunAttempt(sdk, program, store, choices))
    ensures
      var s := RunAttempt(sdk, program, store, choices);
      AllHeld(s, s.store) <==> sdk.Python? || !exists i, j :: FalsyThenSlept(s, i, j)
  {
    var s := RunAttempt(sdk, program, store, choices);
    AttemptExplained(sdk, program, store, choices);
    forall i | 0 <= i < |s.answers|
      ensures Held(s, s.store, i) <==> sdk.Python? || !exists j :: FalsyThenSlept(s, i, j)
    {
      assert Fits(sdk, program, s, choices, i);
      LostIffSlept(sdk, program, s, choices, i);
    }
    if sdk.TypeScript? && AllHeld(s, s.store) {
      forall i, j
        ensures !FalsyThenSlept(s, i, j)
      {
        if 0 <= i < |s.answers| { assert Held(s, s.store, i); }
      }
    }
  }

  // ----- Evaluating the body on a table, with no environment at all -----

  /** What an action answers when its checkpoint is found. */
  function Replayed(action: Action, state: Json): Answer {
    if action.Step? then Got(state) else Woke
  }

  /** The body evaluated on a checkpoint table; None when it needs a checkpoint the table lacks, throws,
      or makes more than `fuel` calls. */
  function Evaluate(program: Program, table: Store, answers: seq<Answer>, calls: seq<string>, fuel: nat): Option<Json>
    decreases fuel
  {
    var action := program(answers);
    if action.Return? then Some(action.result)
    else if action.Throw? || fuel == 0 then None
    else
      var checkpoint := NextName(calls, action.name);
      if checkpoint in table
      then Evaluate(program, table, answers + [Replayed(action, table[checkpoint])], calls + [action.name], fuel - 1)
      else None
  }

  /** The i-th answer can be read off the table. */
  ghost predicate ReadsBack(sdk: Sdk, program: Program, s: Attempt, table: Store, i: nat)
    requires i < |s.answers| == |s.calls|
  {
    var action := program(s.answers[..i]);
    && (action.Step? || IsSleep(action)) && action.name == s.calls[i]
    && var checkpoint := NextName(s.calls[..i], action.name);
       checkpoint in table && s.answers[i] == Replayed(action, table[checkpoint])
       && (sdk.TypeScript? && IsSleep(action) ==> Truthy(table[checkpoint]))
  }

  /** A completed attempt whose every answer can be read off the table. */
  ghost predicate Reproducible(sdk: Sdk, program: Program, s: Attempt, table: Store) {
    && s.status.Completed? && |s.calls| == |s.answers|
    && program(s.answers) == Return(s.status.result)
    && forall i :: 0 <= i < |s.answers| ==> ReadsBack(sdk, program, s, table, i)
  }

  /** A sleep that finds this state does not wait. */
  predicate Passes(sdk: Sdk, state: Json, action: Action, c: Choice)
    requires IsSleep(action)
  {
    var wake := StoredWake(state, Requested(action, c));
    if wake.None? then sdk.TypeScript? else wake.value <= c.now
  }

  /** The environment of a replay lets lookups succeed, and its clock has passed what the sleeps find. */
  ghost predicate Quiet(sdk: Sdk, program: Program, s: Attempt, table: Store, choices: seq<Choice>) {
    && |s.calls| == |s.answers| < |choices|
    && forall i :: 0 <= i < |s.answers| ==>
      && choices[i].lookupError.None?
      && var action, checkpoint := program(s.answers[..i]), NameAt(s.calls, i);
      (IsSleep(action) && checkpoint in table ==> Passes(sdk, table[checkpoint], action, choices[i]))
  }

  lemma {:induction false} EvaluateFrom(sdk: Sdk, program: Program, s: Attempt, table: Store, k: nat)
    requires Reproducible(sdk, program, s, table) && k <= |s.answers|
    ensures Evaluate(program, table, s.answers[..k], s.calls[..k], |s.answers| - k) == Some(s.status.result)
    decreases |s.answers| - k
  {
    if k < |s.answers| {
      assert ReadsBack(sdk, program, s, table, k);
      EvaluateFrom(sdk, program, s, table, k + 1);
      assert s.answers[..k] + [s.answers[k]] == s.answers[..k + 1];
      assert s.calls[..k] + [s.calls[k]] == s.calls[..k + 1];
    } else {
      assert s.answers[..k] == s.answers;
    }
  }

  /** The replay of a reproducible attempt after its first k calls. */
  ghost function Midway(s: Attempt, table: Store, k: nat): Attempt
    requires k <= |s.answers| == |s.calls|
  {
    Attempt(table, s.answers[..k], s.calls[..k], [], Running)
  }

  lemma ReplayAct(sdk: Sdk, program: Program, s: Attempt, table: Store, choices: seq<Choice>, k: nat)
    requires Reproducible(sdk, program, s, table) && Quiet(sdk, program, s, table, choices) && k < |s.answers|
    ensures Act(sdk, program, Midway(s, table, k), choices[k]) == Midway(s, table, k + 1)
  {
    assert ReadsBack(sdk, program, s, table, k);
    var action := program(s.answers[..k]);
    var checkpoint := NextName(s.calls[..k], action.name);
    assert checkpoint == NameAt(s.calls, k);
    assert Perform(sdk, table, checkpoint, action, choices[k]) == Outcome(table, false, Answered(s.answers[k]));
    assert s.answers[..k] + [s.answers[k]] == s.answers[..k + 1];
    assert s.calls[..k] + [s.calls[k]] == s.calls[..k + 1];
  }

  lemma ReplayEnd(sdk: Sdk, program: Program, s: Attempt, table: Store, choices: seq<Choice>)
    requires s.status.Completed? && |s.calls| == |s.answers| < |choices|
    requires program(s.answers) == Return(s.status.result)
    ensures Run(sdk, program, Midway(s, table, |s.answers|), choices[|s.answers|..])
         == Attempt(table, s.answers, s.calls, [], s.status)
  {
    var k := |s.answers|;
    assert s.answers[..k] == s.answers && s.calls[..k] == s.calls;
    assert choices[k..] == [choices[k]] + choices[k + 1..];
    var done := Act(sdk, program, Midway(s, table, k), choices[k]);
    assert Run(sdk, program, done, choices[k..][1..]) == done;
  }

  lemma {:induction false} ReplayFrom(sdk: Sdk, program: Program, s: Attempt, table: Store, choices: seq<Choice>,
                                      k: nat)
    requires Reproducible(sdk, program, s, table) && Quiet(sdk, program, s, table, choices) && k <= |s.answers|
    ensures Run(sdk, program, Midway(s, table, k), choices[k..]) == Attempt(table, s.answers, s.calls, [], s.status)
    decreases |s.answers| - k
  {
    var now := Midway(s, table, k);
    assert choices[k..][0] == choices[k] && choices[k..][1..] == choices[k + 1..];
    if k < |s.answers| {
      ReplayAct(sdk, program, s, table, choices, k);
      ReplayFrom(sdk, program, s, table, choices, k + 1);
    } else {
      ReplayEnd(sdk, program, s, table, choices);
    }
  }

  // ----- Replay -----

  lemma {:induction false} CallsPrefix(program: Program, answers: seq<Answer>, k: nat)
    requires k <= |answers|
    ensures CallsOf(program, answers)[..k] == CallsOf(program, answers[..k])
    decreases |answers|
  {
    if k == |answers| {
      assert answers[..k] == answers;
    } else {
      var before := answers[..|answers| - 1];
      CallsPrefix(program, before, k);
      assert before[..k] == answers[..k];
    }
  }

  /** Sleeps that were passed find a truthy state on every later table of a TypeScript task. */
  ghost predicate SleepsKept(sdk: Sdk, s: Attempt, table: Store) {
    |s.answers| <= |s.calls| && forall i :: 0 <= i < |s.answers| && s.answers[i].Woke? ==>
      var checkpoint := NameAt(s.calls, i);
      checkpoint in table && (sdk.TypeScript? ==> Truthy(table[checkpoint]))
  }

  lemma SleepsStayKept(sdk: Sdk, program: Program, s: Attempt, choices: seq<Choice>, later: Store)
    requires Explained(sdk, program, s, choices) && Preserved(sdk, program, s.store, later)
    ensures SleepsKept(sdk, s, later)
  {
    forall i | 0 <= i < |s.answers| && s.answers[i].Woke?
      ensures
        var checkpoint := NameAt(s.calls, i);
        checkpoint in later && (sdk.TypeScript? ==> Truthy(later[checkpoint]))
    {
      assert Fits(sdk, program, s, choices, i);
    }
  }

  lemma HeldIsReproducible(sdk: Sdk, program: Program, s: Attempt, choices: seq<Choice>, table: Store)
    requires Explained(sdk, program, s, choices) && CompletesCleanly(s)
    requires AllHeld(s, table) && SleepsKept(sdk, s, table)
    ensures Reproducible(sdk, program, s, table)
  {
    forall i | 0 <= i < |s.answers|
      ensures ReadsBack(sdk, program, s, table, i)
    {
      assert Fits(sdk, program, s, choices, i) && Held(s, table, i);
    }
  }

  /** A replay on a table gives the same answers and result, runs no step body and writes nothing. */
  ghost predicate Replays(sdk: Sdk, program: Program, s: Attempt, table: Store, replay: seq<Choice>) {
    RunAttempt(sdk, program, table, replay) == Attempt(table, s.answers, s.calls, [], s.status)
  }

  lemma ReproducibleReplays(sdk: Sdk, program: Program, s: Attempt, table: Store, replay: seq<Choice>)
    requires Reproducible(sdk, program, s, table)
    ensures Evaluate(program, table, [], [], |s.answers|) == Some(s.status.result)
    ensures Quiet(sdk, program, s, table, replay) ==> Replays(sdk, program, s, table, replay)
  {
    assert s.answers[..0] == [] && s.calls[..0] == [] && replay[0..] == replay;
    EvaluateFrom(sdk, program, s, table, 0);
    if Quiet(sdk, program, s, table, replay) { ReplayFrom(sdk, program, s, table, replay, 0); }
  }

  /** The result of a cleanly completed attempt, after any history, is the body evaluated on its final table,
      and a quiet replay on that table reproduces it: for every body with the Python SDK, and with the
      TypeScript SDK whenever no sleep passed at the checkpoint of an earlier falsy answer. */
  lemma ResultIsEvaluation(sdk: Sdk, program: Program, store: Store, attempts: seq<seq<Choice>>, last: seq<Choice>,
                           replay: seq<Choice>)
    requires
      var s := RunAttempt(sdk, program, StoreAfter(sdk, program, store, attempts), last);
      CompletesCleanly(s) && (sdk.Python? || !exists i, j :: FalsyThenSlept(s, i, j))
    ensures
      var s := RunAttempt(sdk, program, StoreAfter(sdk, program, store, attempts), last);
      && Evaluate(program, s.store, [], [], |s.answers|) == Some(s.status.result)
      && (Quiet(sdk, program, s, s.store, replay) ==> Replays(sdk, program, s, s.store, replay))
  {
    var before := StoreAfter(sdk, program, store, attempts);
    var s := RunAttempt(sdk, program, before, last);
    AttemptExplained(sdk, program, before, last);
    AnswersHeldIff(sdk, program, before, last);
    SleepsStayKept(sdk, program, s, last, s.store);
    HeldIsReproducible(sdk, program, s, last, s.store);
    ReproducibleReplays(sdk, program, s, s.store, replay);
  }

  /** A step of a replay that neither runs its body nor changes the table has read its answer off the table. */
  lemma ReplayReads(sdk: Sdk, program: Program, s: Attempt, table: Store, replay: seq<Choice>, i: nat)
    requires Replays(sdk, program, s, table, replay) && i < |s.answers|
    ensures |s.answers| <= |s.calls| && Held(s, table, i)
  {
    var r := RunAttempt(sdk, program, table, replay);
    AttemptExplained(sdk, program, table, replay);
    assert Fits(sdk, program, r, replay, i);
    var checkpoint := NameAt(s.calls, i);
    if Lost(sdk, program, r, replay, i) {
      RunKeepsCommitted(sdk, program, Start(table), replay, 0, checkpoint, table[checkpoint]);
      assert r.answers[i].value == table[checkpoint];
    }
  }

  /** On any table that preserves what a cleanly completed attempt left, a quiet replay reproduces the attempt
      exactly when that table holds its answers. */
  lemma ReplayOnLaterTableIff(sdk: Sdk, program: Program, store: Store, last: seq<Choice>, table: Store,
                              replay: seq<Choice>)
    requires
      var s := RunAttempt(sdk, program, store, last);
      CompletesCleanly(s) && Preserved(sdk, program, s.store, table) && Quiet(sdk, program, s, table, replay)
    ensures
      var s := RunAttempt(sdk, program, store, last);
      Replays(sdk, program, s, table, replay) <==> AllHeld(s, table)
  {
    var s := RunAttempt(sdk, program, store, last);
    AttemptExplained(sdk, program, store, last);
    SleepsStayKept(sdk, program, s, last, table);
    if AllHeld(s, table) {
      HeldIsReproducible(sdk, program, s, last, table);
      ReproducibleReplays(sdk, program, s, table, replay);
    }
    if Replays(sdk, program, s, table, replay) {
      forall i | 0 <= i < |s.answers|
        ensures Held(s, table, i)
      {
        ReplayReads(sdk, program, s, table, replay, i);
      }
    }
  }

  /** On the table after any further history, a quiet replay reproduces a cleanly completed attempt exactly
      when that table still holds its answers. */
  lemma ReplayReproducesIff(sdk: Sdk, program: Program, store: Store, last: seq<Choice>, more: seq<seq<Choice>>,
                            replay: seq<Choice>)
    requires
      var s := RunAttempt(sdk, program, store, last);
      CompletesCleanly(s) && Quiet(sdk, program, s, StoreAfter(sdk, program, s.store, more), replay)
    ensures
      var s := RunAttempt(sdk, program, store, last);
      var table := StoreAfter(sdk, program, s.store, more);
      Replays(sdk, program, s, table, replay) <==> AllHeld(s, table)
  {
    var s := RunAttempt(sdk, program, store, last);
    HistoryPreserves(sdk, program, s.store, more);
    ReplayOnLaterTableIff(sdk, program, store, last, StoreAfter(sdk, program, s.store, more), replay);
  }

  /** Every answer of the attempt is permanent: with the TypeScript SDK, no sleep of the body can look at the
      checkpoint of a falsy one. */
  ghost predicate Secure(sdk: Sdk, program: Program, s: Attempt) {
    && |s.answers| <= |s.calls|
    && forall i :: 0 <= i < |s.answers| && s.answers[i].Got? ==>
      Permanent(sdk, program, NameAt(s.calls, i), s.answers[i].value)
  }

  lemma SecureIsNotLost(sdk: Sdk, program: Program, s: Attempt, choices: seq<Choice>, i: nat)
    requires Explained(sdk, program, s, choices) && CompletesCleanly(s) && Secure(sdk, program, s) && i < |s.answers|
    ensures !Lost(sdk, program, s, choices, i)
  {
    if sdk.TypeScript? && s.answers[i].Got? && !Truthy(s.answers[i].value) {
      forall j
        ensures !Rewrites(program, s, choices, i, j)
      {
        if i < j < |s.calls| {
          assert Fits(sdk, program, s, choices, j);
          CallsPrefix(program, s.answers, j);
          assert s.calls[..|s.answers|] == s.calls;
          assert IsSleep(program(s.answers[..j])) ==> SleepsAt(program, NameAt(s.calls, j));
        }
      }
    }
  }

  lemma SecureIsHeld(sdk: Sdk, program: Program, s: Attempt, choices: seq<Choice>, later: Store)
    requires Explained(sdk, program, s, choices) && CompletesCleanly(s) && Secure(sdk, program, s)
    requires Preserved(sdk, program, s.store, later)
    ensures AllHeld(s, later)
  {
    forall i | 0 <= i < |s.answers|
      ensures Held(s, later, i)
    {
      assert Fits(sdk, program, s, choices, i);
      SecureIsNotLost(sdk, program, s, choices, i);
    }
  }

  lemma SecureReplays(sdk: Sdk, program: Program, s: Attempt, choices: seq<Choice>, table: Store, replay: seq<Choice>)
    requires Explained(sdk, program, s, choices) && CompletesCleanly(s) && Secure(sdk, program, s)
    requires Preserved(sdk, program, s.store, table)
    ensures Evaluate(program, table, [], [], |s.answers|) == Some(s.status.result)
    ensures Quiet(sdk, program, s, table, replay) ==> Replays(sdk, program, s, table, replay)
  {
    SecureIsHeld(sdk, program, s, choices, table);
    SleepsStayKept(sdk, program, s, choices, table);
    HeldIsReproducible(sdk, program, s, choices, table);
    ReproducibleReplays(sdk, program, s, table, replay);
  }

  /** After any history of cut-off, failed and suspended attempts, a secure attempt that completes cleanly has
      the result that its body evaluates to on its final table, and a quiet replay reproduces it on that table
      and on the table after any further history. With the Python SDK every attempt is secure. */
  lemma ReplayIsTransparent(sdk: Sdk, program: Program, store: Store, attempts: seq<seq<Choice>>, last: seq<Choice>,
                            more: seq<seq<Choice>>, replay: seq<Choice>)
    requires
      var s := RunAttempt(sdk, program, StoreAfter(sdk, program, store, attempts), last);
      && CompletesCleanly(s) && Secure(sdk, program, s)
      && Quiet(sdk, program, s, StoreAfter(sdk, program, s.store, more), replay)
    ensures
      var s := RunAttempt(sdk, program, StoreAfter(sdk, program, store, attempts), last);
      var table := StoreAfter(sdk, program, s.store, more);
      && Evaluate(program, s.store, [], [], |s.answers|) == Some(s.status.result)
      && Evaluate(program, table, [], [], |s.answers|) == Some(s.status.result)
      && Replays(sdk, program, s, table, replay)
  {
    var before := StoreAfter(sdk, program, store, attempts);
    var s := RunAttempt(sdk, program, before, last);
    var table := StoreAfter(sdk, program, s.store, more);
    AttemptExplained(sdk, program, before, last);
    HistoryPreserves(sdk, program, s.store, more);
    SecureReplays(sdk, program, s, last, s.store, replay);
    SecureReplays(sdk, program, s, last, table, replay);
  }
}
