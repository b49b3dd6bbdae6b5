/** Durable execution of one task. The task body is a deterministic function from the answers it has
    received so far to its next action. An attempt runs the body from the top against the durable
    checkpoint table; the environment decides everything else: what a step body returns, whether a
    write lands and is acknowledged, what the clock says, and after how many actions the attempt is
    cut off. A cut between two database effects is an attempt whose last action ends in that state. */
module Replay {
  import opened Prelude
  import opened CheckpointNames

  /** A JSON value. A string written by a sleep is kept as the instant it denotes; any other string
      comes with the instant, if any, that a date parser reads in it. */
  datatype Json =
    | Null
    | Boolean(b: bool)
    | Number(n: real)
    | Timestamp(at: int)
    | Text(text: string, instant: Option<int>)
    | Composite(text: string)

  predicate Truthy(v: Json) {
    match v
    case Null => false
    case Boolean(b) => b
    case Number(n) => n != 0.0
    case Timestamp(_) => true
    case Text(text, _) => text != ""
    case Composite(_) => true
  }

  datatype Sdk = TypeScript | Python

  type Store = map<string, Json>

  datatype Action =
    | Step(name: string)
    | SleepUntil(name: string, wakeAt: int)
    | SleepFor(name: string, duration: int)
    | Return(result: Json)
    | Throw(error: string)

  predicate IsSleep(a: Action) {
    a.SleepUntil? || a.SleepFor?
  }

  datatype Answer = Got(value: Json) | Woke | Raised(error: string)

  type Program = seq<Answer> -> Action

  datatype Body = Returns(value: Json) | Throws(error: string)

  /** A write may land and be acknowledged, fail without effect, or land while the caller sees a failure. */
  datatype Persist = Acknowledged | Refused(error: string) | Unacknowledged(error: string)

  /** What the environment decides during one action. `calledAt` and `now` are its two clock readings. */
  datatype Choice = Choice(lookupError: Option<string>, body: Body, persist: Persist,
                           scheduleError: Option<string>, calledAt: int, now: int)

  datatype Reply = Answered(answer: Answer) | Suspending

  datatype Outcome = Outcome(store: Store, ran: bool, reply: Reply)

  function Written(store: Store, checkpoint: string, value: Json, persist: Persist): Store {
    if persist.Refused? then store else store[checkpoint := value]
  }

  /** `step`: answer from the checkpoint, or run the body and commit its value. */
  function StepOutcome(store: Store, checkpoint: string, c: Choice): Outcome {
    if c.lookupError.Some? then Outcome(store, false, Answered(Raised(c.lookupError.value)))
    else if checkpoint in store then Outcome(store, false, Answered(Got(store[checkpoint])))
    else match c.body
      case Throws(e) => Outcome(store, true, Answered(Raised(e)))
      case Returns(v) =>
        Outcome(Written(store, checkpoint, v, c.persist), true,
                Answered(if c.persist.Acknowledged? then Got(v) else Raised(c.persist.error)))
  }

  /** The instant a stored state makes a sleep wake, if it denotes one. The empty string is no date. */
  function StoredWake(state: Json, wakeAt: int): Option<int> {
    match state
    case Timestamp(at) => Some(at)
    case Text(text, instant) => if text == "" then None else instant
    case _ => Some(wakeAt)
  }

  /** `sleepUntil`. The TypeScript SDK persists its wake time whenever the stored state is falsy, the
      Python SDK only when there is no checkpoint; a date the TypeScript SDK cannot parse never delays. */
  function SleepOutcome(sdk: Sdk, store: Store, checkpoint: string, wakeAt: int, c: Choice): Outcome {
    if c.lookupError.Some? then Outcome(store, false, Answered(Raised(c.lookupError.value)))
    else
      var found := checkpoint in store;
      var wake := if found then StoredWake(store[checkpoint], wakeAt) else Some(wakeAt);
      var keep := found && (sdk.Python? || Truthy(store[checkpoint]));
      var store' := if keep then store else Written(store, checkpoint, Timestamp(wakeAt), c.persist);
      if sdk.Python? && wake.None? then Outcome(store, false, Answered(Raised("Invalid isoformat string")))
      else if !keep && !c.persist.Acknowledged? then Outcome(store', false, Answered(Raised(c.persist.error)))
      else if wake.Some? && wake.value > c.now then
        if c.scheduleError.Some? then Outcome(store', false, Answered(Raised(c.scheduleError.value)))
        else Outcome(store', false, Suspending)
      else Outcome(store', false, Answered(Woke))
  }

  datatype Status = Running | Suspended | Completed(result: Json) | Failed(error: string)

  /** An attempt in progress: the table, the answers and calls so far, the step bodies it has run. */
  datatype Attempt = Attempt(store: Store, answers: seq<Answer>, calls: seq<string>, ran: seq<string>, status: Status)

  function Start(store: Store): Attempt {
    Attempt(store, [], [], [], Running)
  }

  function Perform(sdk: Sdk, store: Store, checkpoint: string, action: Action, c: Choice): Outcome
    requires action.Step? || IsSleep(action)
  {
    match action
    case Step(_) => StepOutcome(store, checkpoint, c)
    case SleepUntil(_, wakeAt) => SleepOutcome(sdk, store, checkpoint, wakeAt, c)
    case SleepFor(_, duration) => SleepOutcome(sdk, store, checkpoint, c.calledAt + duration, c)
  }

  function Record(s: Attempt, name: string, o: Outcome): Attempt {
    Attempt(
      o.store,
      if o.reply.Answered? then s.answers + [o.reply.answer] else s.answers,
      s.calls + [name],
      if o.ran then s.ran + [NextName(s.calls, name)] else s.ran,
      if o.reply.Answered? then Running else Suspended)
  }

  function Act(sdk: Sdk, program: Program, s: Attempt, c: Choice): Attempt {
    var action := program(s.answers);
    match action
    case Return(r) => s.(status := Completed(r))
    case Throw(e) => s.(status := Failed(e))
    case _ => Record(s, action.name, Perform(sdk, s.store, NextName(s.calls, action.name), action, c))
  }

  /** One choice per action, until the attempt ends or is cut off. */
  function Run(sdk: Sdk, program: Program, s: Attempt, choices: seq<Choice>): Attempt
    decreases |choices|
  {
    if choices == [] || !s.status.Running? then s
    else Run(sdk, program, Act(sdk, program, s, choices[0]), choices[1..])
  }

  lemma {:induction false} RunExtend(sdk: Sdk, program: Program, s: Attempt, choices: seq<Choice>, c: Choice)
    ensures
      var before := Run(sdk, program, s, choices);
      Run(sdk, program, s, choices + [c]) == if before.status.Running? then Act(sdk, program, before, c) else before
    decreases |choices|
  {
    if choices != [] && s.status.Running? {
      assert (choices + [c])[1..] == choices[1..] + [c];
      RunExtend(sdk, program, Act(sdk, program, s, choices[0]), choices[1..], c);
    }
  }

  function RunAttempt(sdk: Sdk, program: Program, store: Store, choices: seq<Choice>): Attempt {
    Run(sdk, program, Start(store), choices)
  }

  /** The table after a whole history of attempts. */
  function StoreAfter(sdk: Sdk, program: Program, store: Store, attempts: seq<seq<Choice>>): Store
    decreases |attempts|
  {
    if attempts == [] then store
    else StoreAfter(sdk, program, RunAttempt(sdk, program, store, attempts[0]).store, attempts[1..])
  }

  /** The step bodies run by a whole history of attempts, in order. */
  function BodiesRun(sdk: Sdk, program: Program, store: Store, attempts: seq<seq<Choice>>): seq<string>
    decreases |attempts|
  {
    if attempts == [] then []
    else
      var first := RunAttempt(sdk, program, store, attempts[0]);
      first.ran + BodiesRun(sdk, program, first.store, attempts[1..])
  }

  // ----- Committed checkpoints are permanent -----

  function CallName(action: Action): string {
    if action.Return? || action.Throw? then "" else action.name
  }

  /** The names used by the calls that received some answers. */
  function CallsOf(program: Program, answers: seq<Answer>): (calls: seq<string>)
    ensures |calls| == |answers|
  {
    if answers == [] then []
    else
      var before := answers[..|answers| - 1];
      CallsOf(program, before) + [CallName(program(before))]
  }

  /** After some answers, a sleep of the program looks at this checkpoint. */
  ghost predicate SleepsAt(program: Program, checkpoint: string) {
    exists answers ::
      IsSleep(program(answers)) && NextName(CallsOf(program, answers), program(answers).name) == checkpoint
  }

  /** After some answers, a step of the program looks at this checkpoint. */
  ghost predicate StepsAt(program: Program, checkpoint: string) {
    exists answers ::
      program(answers).Step? && NextName(CallsOf(program, answers), program(answers).name) == checkpoint
  }

  /** A running attempt has made the calls that its answers belong to. */
  ghost predicate Follows(program: Program, s: Attempt) {
    s.status.Running? ==> s.calls == CallsOf(program, s.answers)
  }

  /** The only committed state that can be replaced is a falsy one that a TypeScript sleep finds. */
  ghost predicate Permanent(sdk: Sdk, program: Program, checkpoint: string, value: Json) {
    sdk.Python? || Truthy(value) || !SleepsAt(program, checkpoint)
  }

  ghost predicate Preserved(sdk: Sdk, program: Program, before: Store, after: Store) {
    forall checkpoint :: checkpoint in before ==>
      checkpoint in after &&
      (Permanent(sdk, program, checkpoint, before[checkpoint]) ==> after[checkpoint] == before[checkpoint])
  }

  lemma CallsExtend(program: Program, answers: seq<Answer>, answer: Answer)
    ensures CallsOf(program, answers + [answer]) == CallsOf(program, answers) + [CallName(program(answers))]
  {
    assert (answers + [answer])[..|answers|] == answers;
  }

  lemma RecordFollows(program: Program, s: Attempt, name: string, o: Outcome)
    requires s.status.Running? && Follows(program, s) && CallName(program(s.answers)) == name
    ensures Follows(program, Record(s, name, o))
  {
    if o.reply.Answered? { CallsExtend(program, s.answers, o.reply.answer); }
  }

  lemma ActFollows(sdk: Sdk, program: Program, s: Attempt, c: Choice)
    requires s.status.Running? && Follows(program, s)
    ensures Follows(program, Act(sdk, program, s, c))
  {
    var action := program(s.answers);
    if action.Step? || IsSleep(action) {
      RecordFollows(program, s, action.name, Perform(sdk, s.store, NextName(s.calls, action.name), action, c));
    }
  }

  /** An attempt only appends; while it runs it has one answer per call. */
  ghost predicate Appends(s: Attempt, next: Attempt) {
    && s.calls <= next.calls && s.answers <= next.answers
    && |next.answers| <= |s.answers| + 1 && |next.answers| <= |next.calls|
    && (next.status.Running? ==> |next.calls| == |next.answers| == |s.answers| + 1)
    && forall i :: 0 <= i < |s.calls| ==> NameAt(next.calls, i) == NameAt(s.calls, i)
  }

  lemma RecordAppends(s: Attempt, name: string, o: Outcome)
    requires |s.calls| == |s.answers|
    ensures Appends(s, Record(s, name, o)) && NameAt(Record(s, name, o).calls, |s.calls|) == NextName(s.calls, name)
  {
    var next := Record(s, name, o);
    assert next.calls[..|s.calls|] == s.calls;
    forall i | 0 <= i < |s.calls|
      ensures NameAt(next.calls, i) == NameAt(s.calls, i)
    {
      NamesFollowPrefix(s.calls, next.calls, i);
    }
  }

  lemma ActAppends(sdk: Sdk, program: Program, s: Attempt, c: Choice)
    requires |s.calls| == |s.answers|
    ensures Appends(s, Act(sdk, program, s, c))
  {
    var next := Act(sdk, program, s, c);
    forall i | 0 <= i < |s.calls|
      ensures NameAt(next.calls, i) == NameAt(s.calls, i)
    {
      NamesFollowPrefix(s.calls, next.calls, i);
    }
  }

  /** The next state of an attempt records the outcome of looking at the checkpoint of its next call, if any. */
  ghost predicate ActsOn(sdk: Sdk, program: Program, s: Attempt, c: Choice, next: Attempt) {
    var action := program(s.answers);
    if action.Return? || action.Throw? then next.answers == s.answers && next.ran == s.ran && next.store == s.store
    else
      var at := NextName(s.calls, action.name);
      var o := Perform(sdk, s.store, at, action, c);
      && |s.calls| < |next.calls| && NameAt(next.calls, |s.calls|) == at
      && next.store == o.store
      && next.answers == (if o.reply.Answered? then s.answers + [o.reply.answer] else s.answers)
      && next.ran == (if o.ran then s.ran + [at] else s.ran)
  }

  lemma ActAnswers(sdk: Sdk, program: Program, s: Attempt, c: Choice)
    requires |s.calls| == |s.answers|
    ensures ActsOn(sdk, program, s, c, Act(sdk, program, s, c))
  {
    var action := program(s.answers);
    if action.Step? || IsSleep(action) {
      RecordAppends(s, action.name, Perform(sdk, s.store, NextName(s.calls, action.name), action, c));
    }
  }

  // ----- What one action does to a committed state -----

  /** A look at a checkpoint changes a committed state exactly when a TypeScript sleep reads it as falsy and
      its write lands; it then holds a wake time. */
  lemma OutcomeChangesIff(sdk: Sdk, store: Store, at: string, action: Action, c: Choice, checkpoint: string)
    requires (action.Step? || IsSleep(action)) && checkpoint in store
    ensures
      var after := Perform(sdk, store, at, action, c).store;
      && checkpoint in after
      && (after[checkpoint] != store[checkpoint] <==>
            checkpoint == at && IsSleep(action) && sdk.TypeScript? && c.lookupError.None? &&
            !Truthy(store[checkpoint]) && !c.persist.Refused?)
      && (after[checkpoint] != store[checkpoint] ==> after[checkpoint].Timestamp?)
  {
  }

  lemma ActPreserves(sdk: Sdk, program: Program, s: Attempt, c: Choice)
    requires s.status.Running? && Follows(program, s)
    ensures Preserved(sdk, program, s.store, Act(sdk, program, s, c).store)
  {
    ActAnswers(sdk, program, s, c);
    var action := program(s.answers);
    if action.Step? || IsSleep(action) {
      var at := NextName(s.calls, action.name);
      if IsSleep(action) { assert SleepsAt(program, at); }
      forall checkpoint | checkpoint in s.store
        ensures
          var after := Perform(sdk, s.store, at, action, c).store;
          checkpoint in after &&
          (Permanent(sdk, program, checkpoint, s.store[checkpoint]) ==> after[checkpoint] == s.store[checkpoint])
      {
        OutcomeChangesIff(sdk, s.store, at, action, c, checkpoint);
      }
    }
  }

  /** The one way a committed state changes: a TypeScript sleep reads it as falsy and its write lands. */
  lemma CommittedChangesIff(sdk: Sdk, program: Program, s: Attempt, c: Choice, checkpoint: string)
    requires checkpoint in s.store
    ensures
      var action := program(s.answers);
      var after := Act(sdk, program, s, c).store;
      checkpoint in after &&
      (after[checkpoint] != s.store[checkpoint] <==>
        sdk.TypeScript? && IsSleep(action) && NextName(s.calls, action.name) == checkpoint &&
        c.lookupError.None? && !Truthy(s.store[checkpoint]) && !c.persist.Refused?)
  {
  }
}
