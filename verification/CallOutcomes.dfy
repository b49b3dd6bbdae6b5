/** What each call of an attempt does, told case by case from what it finds and what the environment decides. */
module CallOutcomes {
  import opened Prelude
  import opened CheckpointNames
  import opened Replay
  import opened Transparency

  /** The values that a TypeScript condition takes for false. */
  predicate Falsy(v: Json) {
    v == Null || v == Boolean(false) || v == Number(0.0) || (v.Text? && v.text == "")
  }

  lemma FalsyIff(v: Json)
    ensures Falsy(v) <==> !Truthy(v)
  {
  }

  /** A sleep that asks for one time and finds this state is due at a wake time. */
  predicate Denotes(state: Json, requested: int, wake: int) {
    || state == Timestamp(wake)
    || (state.Text? && state.text != "" && state.instant == Some(wake))
    || (!state.Timestamp? && !state.Text? && wake == requested)
  }

  predicate IsDue(found: Store, at: string, requested: int, wake: int) {
    if at in found then Denotes(found[at], requested, wake) else wake == requested
  }

  /** A sleep finds a text that is no date, which only the Python SDK refuses. */
  predicate Unreadable(sdk: Sdk, found: Store, at: string) {
    sdk.Python? && at in found && found[at].Text? && (found[at].text == "" || found[at].instant.None?)
  }

  /** The action wants to write a value: a step what its body returned when it finds nothing, a sleep its wake
      time when it finds nothing or, with the TypeScript SDK, something falsy. */
  predicate Commits(sdk: Sdk, found: Store, at: string, action: Action, c: Choice, v: Json)
    requires action.Step? || IsSleep(action)
  {
    c.lookupError.None? &&
    if action.Step? then at !in found && c.body == Returns(v)
    else (at !in found || (sdk.TypeScript? && Falsy(found[at]))) && v == Timestamp(Requested(action, c))
  }

  /** Nothing is in the way of a sleep but its wake time. */
  predicate SleepReady(sdk: Sdk, found: Store, at: string, action: Action, c: Choice)
    requires IsSleep(action)
  {
    && c.lookupError.None? && !Unreadable(sdk, found, at)
    && (Commits(sdk, found, at, action, c, Timestamp(Requested(action, c))) ==> c.persist.Acknowledged?)
  }

  ghost predicate MustWait(found: Store, at: string, action: Action, c: Choice)
    requires IsSleep(action)
  {
    exists wake :: IsDue(found, at, Requested(action, c), wake) && wake > c.now
  }

  /** Exactly these errors reach the body: a failed lookup, what the step's own function throws, a write that is
      not acknowledged, a stored date that the Python SDK cannot read, a failed call to reschedule the run. */
  ghost predicate Raises(sdk: Sdk, found: Store, at: string, action: Action, c: Choice, e: string)
    requires action.Step? || IsSleep(action)
  {
    || c.lookupError == Some(e)
    || (action.Step? && c.lookupError.None? && at !in found && c.body == Throws(e))
    || (IsSleep(action) && c.lookupError.None? && Unreadable(sdk, found, at) && e == "Invalid isoformat string")
    || ((exists v :: Commits(sdk, found, at, action, c, v)) && !c.persist.Acknowledged? && e == c.persist.error)
    || (IsSleep(action) && SleepReady(sdk, found, at, action, c) && MustWait(found, at, action, c) &&
        c.scheduleError == Some(e))
  }

  /** The reply of a call, and whether it ran a step body. */
  ghost predicate ReplyTold(sdk: Sdk, found: Store, at: string, action: Action, c: Choice, reply: Reply, ran: bool)
    requires action.Step? || IsSleep(action)
  {
    && (forall e :: reply == Answered(Raised(e)) <==> Raises(sdk, found, at, action, c, e))
    && (forall v :: reply == Answered(Got(v)) <==>
          action.Step? && c.lookupError.None? &&
          if at in found then found[at] == v else c.body == Returns(v) && c.persist.Acknowledged?)
    && (reply == Answered(Woke) <==>
          IsSleep(action) && SleepReady(sdk, found, at, action, c) && !MustWait(found, at, action, c))
    && (reply == Suspending <==>
          IsSleep(action) && SleepReady(sdk, found, at, action, c) && MustWait(found, at, action, c) &&
          c.scheduleError.None?)
    && (ran <==> action.Step? && c.lookupError.None? && at !in found)
  }

  /** The table after a call: what the action wants to write is there unless the write is refused, and nothing
      else changes. */
  ghost predicate TableTold(sdk: Sdk, found: Store, at: string, action: Action, c: Choice, before: Store, after: Store)
    requires action.Step? || IsSleep(action)
  {
    && (forall v :: Commits(sdk, found, at, action, c, v) && !c.persist.Refused? ==> after == before[at := v])
    && (c.persist.Refused? || (forall v :: !Commits(sdk, found, at, action, c, v)) ==> after == before)
  }

  lemma DueAt(found: Store, at: string, action: Action, c: Choice)
    requires IsSleep(action)
    ensures
      var requested := Requested(action, c);
      var wake := if at in found then StoredWake(found[at], requested) else Some(requested);
      && (MustWait(found, at, action, c) <==> wake.Some? && wake.value > c.now)
      && (wake.None? <==> at in found && found[at].Text? && (found[at].text == "" || found[at].instant.None?))
  {
    var requested := Requested(action, c);
    var wake := if at in found then StoredWake(found[at], requested) else Some(requested);
    if wake.Some? { assert IsDue(found, at, requested, wake.value); }
  }

  lemma StepTold(sdk: Sdk, found: Store, at: string, action: Action, c: Choice)
    requires action.Step?
    ensures
      var o := Perform(sdk, found, at, action, c);
      ReplyTold(sdk, found, at, action, c, o.reply, o.ran) && TableTold(sdk, found, at, action, c, found, o.store)
  {
    if c.lookupError.None? && at !in found && c.body.Returns? {
      assert Commits(sdk, found, at, action, c, c.body.value);
    }
  }

  lemma SleepCommits(sdk: Sdk, found: Store, at: string, action: Action, c: Choice)
    requires IsSleep(action)
    ensures
      var v := Timestamp(Requested(action, c));
      && ((exists w :: Commits(sdk, found, at, action, c, w)) <==> Commits(sdk, found, at, action, c, v))
      && (Commits(sdk, found, at, action, c, v) <==>
            c.lookupError.None? && (at !in found || (sdk.TypeScript? && !Truthy(found[at]))))
  {
    if at in found { FalsyIff(found[at]); }
  }

  lemma SleepReplyTold(sdk: Sdk, found: Store, at: string, action: Action, c: Choice)
    requires IsSleep(action)
    ensures var o := Perform(sdk, found, at, action, c); ReplyTold(sdk, found, at, action, c, o.reply, o.ran)
  {
    DueAt(found, at, action, c);
    SleepCommits(sdk, found, at, action, c);
  }

  lemma SleepTableTold(sdk: Sdk, found: Store, at: string, action: Action, c: Choice)
    requires IsSleep(action)
    ensures TableTold(sdk, found, at, action, c, found, Perform(sdk, found, at, action, c).store)
  {
    SleepCommits(sdk, found, at, action, c);
  }

  /** One look at a checkpoint does exactly this. */
  lemma PerformTold(sdk: Sdk, found: Store, at: string, action: Action, c: Choice)
    requires action.Step? || IsSleep(action)
    ensures
      var o := Perform(sdk, found, at, action, c);
      ReplyTold(sdk, found, at, action, c, o.reply, o.ran) && TableTold(sdk, found, at, action, c, found, o.store)
  {
    if action.Step? {
      StepTold(sdk, found, at, action, c);
    } else {
      SleepReplyTold(sdk, found, at, action, c);
      SleepTableTold(sdk, found, at, action, c);
    }
  }

  // ----- Every call of an attempt -----

  /** The reply that call i of an attempt got: its answer, or none if it suspended the attempt. */
  function ReplyAt(s: Attempt, i: nat): Reply {
    if i < |s.answers| then Answered(s.answers[i]) else Suspending
  }

  /** Call i follows from the answers before it, and does what is told of it on the table as it found it. */
  ghost predicate CallTold(sdk: Sdk, program: Program, store: Store, choices: seq<Choice>, s: Attempt, i: nat)
    requires i < |s.calls| && i <= |s.answers| && i < |choices|
  {
    var before := RunAttempt(sdk, program, store, choices[..i]);
    var after := RunAttempt(sdk, program, store, choices[..i + 1]);
    var action, at := program(s.answers[..i]), NameAt(s.calls, i);
    && (action.Step? || IsSleep(action)) && action.name == s.calls[i]
    && (after.ran == before.ran || after.ran == before.ran + [at])
    && ReplyTold(sdk, before.store, at, action, choices[i], ReplyAt(s, i), after.ran != before.ran)
    && TableTold(sdk, before.store, at, action, choices[i], before.store, after.store)
  }

  /** How an attempt stands: it is suspended exactly when its last call got no answer, it runs only while it has used
      all choices, and when it has made its last call it ends as its body does. */
  ghost predicate StatusTold(program: Program, choices: seq<Choice>, s: Attempt) {
    && |s.answers| <= |s.calls| <= |s.answers| + 1 && |s.calls| <= |choices|
    && (s.status.Suspended? <==> |s.calls| == |s.answers| + 1)
    && (s.status.Running? ==> |s.answers| == |choices|)
    && (forall r :: s.status == Completed(r) <==>
          |s.calls| == |s.answers| < |choices| && program(s.answers) == Return(r))
    && (forall e :: s.status == Failed(e) <==>
          |s.calls| == |s.answers| < |choices| && program(s.answers) == Throw(e))
  }

  ghost predicate AllCallsTold(sdk: Sdk, program: Program, store: Store, choices: seq<Choice>, s: Attempt) {
    StatusTold(program, choices, s) && forall i :: 0 <= i < |s.calls| ==> CallTold(sdk, program, store, choices, s, i)
  }

  /** The new last call of an attempt. */
  lemma LastCallTold(sdk: Sdk, program: Program, store: Store, choices: seq<Choice>, c: Choice)
    requires
      var s := RunAttempt(sdk, program, store, choices);
      && s.status.Running? && StatusTold(program, choices, s)
      && (program(s.answers).Step? || IsSleep(program(s.answers)))
    ensures
      var next := RunAttempt(sdk, program, store, choices + [c]);
      && StatusTold(program, choices + [c], next)
      && |next.calls| == |choices| + 1 && CallTold(sdk, program, store, choices + [c], next, |choices|)
  {
    var s := RunAttempt(sdk, program, store, choices);
    var action := program(s.answers);
    var at := NextName(s.calls, action.name);
    var o := Perform(sdk, s.store, at, action, c);
    RunExtend(sdk, program, Start(store), choices, c);
    var next := Record(s, action.name, o);
    assert next == RunAttempt(sdk, program, store, choices + [c]);
    RecordAppends(s, action.name, o);
    PerformTold(sdk, s.store, at, action, c);
    assert (choices + [c])[..|choices|] == choices && (choices + [c])[..|choices| + 1] == choices + [c];
    assert next.answers[..|choices|] == s.answers;
  }

  lemma EarlierCallTold(sdk: Sdk, program: Program, store: Store, choices: seq<Choice>, c: Choice, s: Attempt,
                        next: Attempt, i: nat)
    requires |s.answers| <= |s.calls| <= |choices| && s.answers <= next.answers && s.calls <= next.calls
    requires i < |s.calls| && i <= |s.answers| && CallTold(sdk, program, store, choices, s, i)
    requires NameAt(next.calls, i) == NameAt(s.calls, i) && ReplyAt(next, i) == ReplyAt(s, i)
    ensures CallTold(sdk, program, store, choices + [c], next, i)
  {
    var longer := choices + [c];
    assert longer[..i] == choices[..i] && longer[..i + 1] == choices[..i + 1] && longer[i] == choices[i];
    assert next.answers[..i] == s.answers[..i];
  }

  /** Everything an attempt does is told: for every body, table and list of choices. */
  lemma {:induction false} AttemptTold(sdk: Sdk, program: Program, store: Store, choices: seq<Choice>)
    ensures AllCallsTold(sdk, program, store, choices, RunAttempt(sdk, program, store, choices))
    decreases |choices|
  {
    if choices != [] {
      var shorter, c := choices[..|choices| - 1], choices[|choices| - 1];
      var s := RunAttempt(sdk, program, store, shorter);
      var next := RunAttempt(sdk, program, store, choices);
      assert choices == shorter + [c];
      AttemptTold(sdk, program, store, shorter);
      RunExtend(sdk, program, Start(store), shorter, c);
      if s.status.Running? && (program(s.answers).Step? || IsSleep(program(s.answers))) {
        LastCallTold(sdk, program, store, shorter, c);
        ActAppends(sdk, program, s, c);
      }
      forall i | 0 <= i < |s.calls|
        ensures CallTold(sdk, program, store, choices, next, i)
      {
        EarlierCallTold(sdk, program, store, shorter, c, s, next, i);
      }
    }
  }

  /** A history is its attempts one after another: the next one starts on the table that the ones before left. */
  lemma {:induction false} HistoryTold(sdk: Sdk, program: Program, store: Store, attempts: seq<seq<Choice>>,
                                       last: seq<Choice>)
    ensures
      var before := StoreAfter(sdk, program, store, attempts);
      var s := RunAttempt(sdk, program, before, last);
      && StoreAfter(sdk, program, store, attempts + [last]) == s.store
      && BodiesRun(sdk, program, store, attempts + [last]) == BodiesRun(sdk, program, store, attempts) + s.ran
    ensures StoreAfter(sdk, program, store, []) == store && BodiesRun(sdk, program, store, []) == []
    decreases |attempts|
  {
    if attempts == [] {
      assert [last][1..] == [];
    } else {
      var first, rest := RunAttempt(sdk, program, store, attempts[0]), attempts[1..];
      assert (attempts + [last])[1..] == rest + [last];
      HistoryTold(sdk, program, first.store, rest, last);
    }
  }
}
