/** Runs of the TypeScript SDK in which a sleep meets a falsy checkpoint, because the second use of one name
    spells another: a committed value is lost, and a stale cache answers differently from the table. */
module FalsyCheckpoints {
  import opened Prelude
  import opened CheckpointNames
  import opened Replay
  import opened TaskContext
  import opened CachedReplay

  /** Nothing fails and the clock stands at zero. */
  const PLAIN := Choice(None, Returns(Boolean(false)), Acknowledged, None, 0, 0)
  const LOOKUP_FAILS := PLAIN.(lookupError := Some("lost"))
  const WRITE_UNACKNOWLEDGED := PLAIN.(persist := Unacknowledged("lost"))

  /** `again` spells the second use of `name`. */
  ghost predicate Clash(again: string, name: string) {
    && NextName([], again) == again && again != name
    && NextName([again], name) == name && NextName([again] + [name], name) == again
  }

  lemma SecondUseClashes(name: string)
    ensures Clash(CheckpointName(name, 2), name)
  {
    var again := CheckpointName(name, 2);
    assert |again| > |name|;
    assert ([again] + [name])[..1] == [again] && [again][..0] == [];
    assert Uses([again], name) == 0 && Uses([again] + [name], name) == 1;
  }

  // ----- One action at a time -----

  lemma RunNext(body: Program, s: Attempt, choices: seq<Choice>, k: nat)
    requires k < |choices| && s.status.Running?
    ensures Run(TypeScript, body, s, choices[k..])
         == Run(TypeScript, body, Act(TypeScript, body, s, choices[k]), choices[k + 1..])
  {
    assert choices[k..][0] == choices[k] && choices[k..][1..] == choices[k + 1..];
  }

  lemma RunFour(body: Program, s: Attempt, choices: seq<Choice>, one: Attempt, two: Attempt, three: Attempt)
    requires |choices| == 4 && s.status.Running? && one.status.Running? && two.status.Running? && three.status.Running?
    requires one == Act(TypeScript, body, s, choices[0]) && two == Act(TypeScript, body, one, choices[1])
    requires three == Act(TypeScript, body, two, choices[2])
    ensures Run(TypeScript, body, s, choices) == Act(TypeScript, body, three, choices[3])
  {
    assert choices[0..] == choices && choices[4..] == [];
    RunNext(body, s, choices, 0);
    RunNext(body, one, choices, 1);
    RunNext(body, two, choices, 2);
    RunNext(body, three, choices, 3);
  }

  lemma ActIs(body: Program, s: Attempt, action: Action, checkpoint: string, c: Choice)
    requires body(s.answers) == action && (action.Step? || IsSleep(action))
    requires NextName(s.calls, action.name) == checkpoint
    ensures Act(TypeScript, body, s, c) == Record(s, action.name, Perform(TypeScript, s.store, checkpoint, action, c))
  {
  }

  /** An attempt that goes on after one more call. */
  ghost predicate GoesOn(s: Attempt, next: Attempt, name: string, answer: Answer) {
    next.answers == s.answers + [answer] && next.calls == s.calls + [name] && next.status.Running?
  }

  /** What a step finds, or commits when nothing fails. */
  function StepValue(table: Store, checkpoint: string): Json {
    if checkpoint in table then table[checkpoint] else Boolean(false)
  }

  lemma PlainStep(body: Program, s: Attempt, name: string, checkpoint: string) returns (next: Attempt)
    requires body(s.answers) == Step(name) && NextName(s.calls, name) == checkpoint
    ensures next == Act(TypeScript, body, s, PLAIN)
    ensures GoesOn(s, next, name, Got(StepValue(s.store, checkpoint)))
    ensures next.store == s.store[checkpoint := StepValue(s.store, checkpoint)]
  {
    ActIs(body, s, Step(name), checkpoint, PLAIN);
    if checkpoint in s.store { assert s.store[checkpoint := s.store[checkpoint]] == s.store; }
    next := Act(TypeScript, body, s, PLAIN);
  }

  ghost predicate FalseOrAwake(table: Store, checkpoint: string) {
    checkpoint in table ==> table[checkpoint] == Boolean(false) || table[checkpoint] == Timestamp(0)
  }

  lemma PlainSleep(body: Program, s: Attempt, name: string, checkpoint: string) returns (next: Attempt)
    requires body(s.answers) == SleepUntil(name, 0) && NextName(s.calls, name) == checkpoint
    requires FalseOrAwake(s.store, checkpoint)
    ensures next == Act(TypeScript, body, s, PLAIN)
    ensures GoesOn(s, next, name, Woke) && next.store == s.store[checkpoint := Timestamp(0)]
  {
    ActIs(body, s, SleepUntil(name, 0), checkpoint, PLAIN);
    assert SleepOutcome(TypeScript, s.store, checkpoint, 0, PLAIN)
        == Outcome(s.store[checkpoint := Timestamp(0)], false, Answered(Woke));
    next := Act(TypeScript, body, s, PLAIN);
  }

  // ----- A committed value is lost -----

  function ClashingAction(again: string, name: string, answers: seq<Answer>): Action {
    if |answers| == 0 then Step(again)
    else if |answers| <= 2 then SleepUntil(name, 0)
    else if answers[0].Got? then Return(answers[0].value)
    else Throw("no value")
  }

  /** A step, then two sleeps of which the second has the step's checkpoint, then the step's value. */
  function ClashingBody(again: string, name: string): Program {
    answers => ClashingAction(again, name, answers)
  }

  lemma ClashingRun(again: string, name: string, table: Store, choices: seq<Choice>)
    requires Clash(again, name) && FalseOrAwake(table, again) && FalseOrAwake(table, name)
    requires |choices| == 4 && forall i :: 0 <= i < 4 ==> choices[i] == PLAIN
    ensures
      var s := RunAttempt(TypeScript, ClashingBody(again, name), table, choices);
      && s.status == Completed(StepValue(table, again))
      && s.store == table[again := StepValue(table, again)][name := Timestamp(0)][again := Timestamp(0)]
  {
    var body, start := ClashingBody(again, name), Start(table);
    var one := PlainStep(body, start, again, again);
    assert one.calls == [again];
    var two := PlainSleep(body, one, name, name);
    var three := PlainSleep(body, two, name, again);
    RunFour(body, start, choices, one, two, three);
    assert body(three.answers) == Return(StepValue(table, again));
  }

  /** Whatever the name, the falsy value that a first attempt commits and returns is replaced by a wake time,
      so the same body replayed on its own final table returns something else. */
  lemma FalsyCheckpointIsLost(name: string, choices: seq<Choice>)
    requires |choices| == 4 && forall i :: 0 <= i < 4 ==> choices[i] == PLAIN
    ensures
      var body := ClashingBody(CheckpointName(name, 2), name);
      var first := RunAttempt(TypeScript, body, map[], choices);
      var second := RunAttempt(TypeScript, body, first.store, choices);
      && first.status == Completed(Boolean(false)) && second.status == Completed(Timestamp(0))
  {
    var again := CheckpointName(name, 2);
    SecondUseClashes(name);
    var first := RunAttempt(TypeScript, ClashingBody(again, name), map[], choices);
    ClashingRun(again, name, map[], choices);
    ClashingRun(again, name, first.store, choices);
  }

  // ----- A sleep passes early -----

  const EMPTY_TEXT := Text("", None)

  /** Nothing fails, step bodies return the empty string and the clock stands at zero. */
  const RETURNS_EMPTY := PLAIN.(body := Returns(EMPTY_TEXT))

  function EarlyAction(again: string, name: string, answers: seq<Answer>): Action {
    if |answers| == 0 then Step(again) else if |answers| == 1 then Step(name)
    else if |answers| == 2 then SleepUntil(name, 5) else Return(Null)
  }

  /** A step, another step, then a sleep that has the checkpoint of the first. */
  function EarlyBody(again: string, name: string): Program {
    answers => EarlyAction(again, name, answers)
  }

  lemma EmptyStep(body: Program, s: Attempt, name: string, checkpoint: string) returns (next: Attempt)
    requires body(s.answers) == Step(name) && NextName(s.calls, name) == checkpoint && checkpoint !in s.store
    ensures next == Act(TypeScript, body, s, RETURNS_EMPTY)
    ensures GoesOn(s, next, name, Got(EMPTY_TEXT)) && next.store == s.store[checkpoint := EMPTY_TEXT]
  {
    ActIs(body, s, Step(name), checkpoint, RETURNS_EMPTY);
    next := Act(TypeScript, body, s, RETURNS_EMPTY);
  }

  lemma EmptySleep(body: Program, s: Attempt, name: string, checkpoint: string) returns (next: Attempt)
    requires body(s.answers) == SleepUntil(name, 5) && NextName(s.calls, name) == checkpoint
    requires checkpoint in s.store && s.store[checkpoint] == EMPTY_TEXT
    ensures next == Act(TypeScript, body, s, RETURNS_EMPTY)
    ensures GoesOn(s, next, name, Woke) && next.store == s.store[checkpoint := Timestamp(5)]
  {
    ActIs(body, s, SleepUntil(name, 5), checkpoint, RETURNS_EMPTY);
    next := Act(TypeScript, body, s, RETURNS_EMPTY);
  }

  lemma EarlyRun(again: string, name: string, table: Store, choices: seq<Choice>)
    requires Clash(again, name) && again !in table && name !in table
    requires |choices| == 3 && forall i :: 0 <= i < 3 ==> choices[i] == RETURNS_EMPTY
    ensures
      var s := RunAttempt(TypeScript, EarlyBody(again, name), table, choices);
      && |s.answers| == 3 && s.calls == [again] + [name] + [name] && s.answers[2] == Woke
      && again in s.store && s.store[again] == Timestamp(5)
  {
    var body, start := EarlyBody(again, name), Start(table);
    assert choices[0..] == choices;
    var one := EmptyStep(body, start, again, again);
    RunNext(body, start, choices, 0);
    assert one.calls == [again];
    var two := EmptyStep(body, one, name, name);
    RunNext(body, one, choices, 1);
    var three := EmptySleep(body, two, name, again);
    RunNext(body, two, choices, 2);
  }

  /** Whatever the name, a sleep that finds the empty string its own body has committed passes at once, and
      leaves a wake time that its clock has not reached. */
  lemma EmptyStringPassesEarly(name: string, choices: seq<Choice>)
    requires |choices| == 3 && forall i :: 0 <= i < 3 ==> choices[i] == RETURNS_EMPTY
    ensures
      var again := CheckpointName(name, 2);
      var s := RunAttempt(TypeScript, EarlyBody(again, name), map[], choices);
      && |s.answers| == 3 && |s.calls| == 3 && s.answers[2] == Woke && NameAt(s.calls, 2) == again
      && again in s.store && s.store[again] == Timestamp(5) && choices[2].now == 0
  {
    var again := CheckpointName(name, 2);
    SecondUseClashes(name);
    EarlyRun(again, name, map[], choices);
    assert ([again] + [name] + [name])[..2] == [again] + [name];
  }

  // ----- A stale cache -----

  function StaleAction(again: string, name: string, answers: seq<Answer>): Action {
    if |answers| == 0 then SleepUntil(again, 0)
    else if |answers| <= 2 then Step(name)
    else Return(if answers[2].Got? then answers[2].value else Null)
  }

  /** A sleep whose failure the body catches, then two steps of which the second has the sleep's checkpoint. */
  function StaleBody(again: string, name: string): Program {
    answers => StaleAction(again, name, answers)
  }

  /** The environment of an attempt: something may fail at the first action, nothing later. */
  ghost predicate FailsFirst(choices: seq<Choice>, c: Choice) {
    |choices| >= 3 && choices[0] == c && forall i :: 1 <= i < |choices| ==> choices[i] == PLAIN
  }

  lemma FailedSleep(body: Program, s: Attempt, name: string, checkpoint: string, c: Choice, o: Outcome)
    returns (next: Attempt)
    requires body(s.answers) == SleepUntil(name, 0) && NextName(s.calls, name) == checkpoint
    requires o == SleepOutcome(TypeScript, s.store, checkpoint, 0, c) && o.reply == Answered(Raised("lost"))
    ensures next == Act(TypeScript, body, s, c)
    ensures GoesOn(s, next, name, Raised("lost")) && next.store == o.store
  {
    ActIs(body, s, SleepUntil(name, 0), checkpoint, c);
    next := Act(TypeScript, body, s, c);
  }

  /** An attempt of the body up to its third answer. */
  lemma ThreeActions(again: string, name: string, table: Store, choices: seq<Choice>, c: Choice, o: Outcome)
    returns (three: Attempt)
    requires Clash(again, name) && FailsFirst(choices, c)
    requires o == SleepOutcome(TypeScript, table, again, 0, c) && o.reply == Answered(Raised("lost"))
    ensures RunAttempt(TypeScript, StaleBody(again, name), table, choices)
         == Run(TypeScript, StaleBody(again, name), three, choices[3..])
    ensures three.status.Running? && |three.answers| == 3 && three.answers[2] == Got(StepValue(o.store, again))
    ensures three.store == o.store[name := StepValue(o.store, name)][again := StepValue(o.store, again)]
  {
    var body, start := StaleBody(again, name), Start(table);
    assert choices[0..] == choices;
    var one := FailedSleep(body, start, again, again, c, o);
    RunNext(body, start, choices, 0);
    assert one.calls == [again];
    var two := PlainStep(body, one, name, name);
    RunNext(body, one, choices, 1);
    three := PlainStep(body, two, name, again);
    RunNext(body, two, choices, 2);
  }

  lemma PlainCachedStep(body: Program, s: CachedAttempt, name: string, checkpoint: string) returns (next: CachedAttempt)
    requires body(s.attempt.answers) == Step(name) && NextName(s.attempt.calls, name) == checkpoint
    requires checkpoint in s.cache
    ensures next == CachedAct(TypeScript, body, s, PLAIN)
    ensures GoesOn(s.attempt, next.attempt, name, Got(s.cache[checkpoint])) && next.cache == s.cache
  {
    var seen := TaskContext.Seen(s.attempt.store, s.cache, checkpoint);
    assert StepOutcome(seen, checkpoint, Effective(PLAIN, true))
        == Outcome(seen, false, Answered(Got(s.cache[checkpoint])));
    assert s.cache[checkpoint := s.cache[checkpoint]] == s.cache;
    next := CachedAct(TypeScript, body, s, PLAIN);
  }

  lemma FailedCachedSleep(body: Program, s: CachedAttempt, name: string, checkpoint: string)
    returns (next: CachedAttempt)
    requires body(s.attempt.answers) == SleepUntil(name, 0) && NextName(s.attempt.calls, name) == checkpoint
    requires checkpoint in s.cache && s.cache[checkpoint] == Boolean(false)
    ensures next == CachedAct(TypeScript, body, s, WRITE_UNACKNOWLEDGED)
    ensures GoesOn(s.attempt, next.attempt, name, Raised("lost")) && next.cache == s.cache
  {
    CachedSleep(TypeScript, s.attempt.store, s.cache, checkpoint, name, 0, WRITE_UNACKNOWLEDGED);
    assert s.cache[checkpoint := s.cache[checkpoint]] == s.cache;
    next := CachedAct(TypeScript, body, s, WRITE_UNACKNOWLEDGED);
  }

  /** Through a cache that holds both checkpoints as false, the body gets and returns false. */
  lemma CachedFourActions(again: string, name: string, table: Store, choices: seq<Choice>)
    requires Clash(again, name) && FailsFirst(choices, WRITE_UNACKNOWLEDGED) && |choices| == 4
    requires table == map[name := Boolean(false)][again := Boolean(false)]
    ensures RunThroughCache(TypeScript, StaleBody(again, name), table, table.Keys, choices).status
         == Completed(Boolean(false))
  {
    var body, start := StaleBody(again, name), CachedAttempt(Start(table), Preloaded(table, table.Keys));
    assert choices[0..] == choices && Preloaded(table, table.Keys) == table;
    var one := FailedCachedSleep(body, start, again, again);
    CachedRunNext(TypeScript, body, start, choices, 0);
    assert one.attempt.calls == [again];
    var two := PlainCachedStep(body, one, name, name);
    CachedRunNext(TypeScript, body, one, choices, 1);
    var three := PlainCachedStep(body, two, name, again);
    CachedRunNext(TypeScript, body, two, choices, 2);
    CachedRunNext(TypeScript, body, three, choices, 3);
    assert body(three.attempt.answers) == Return(Boolean(false));
  }

  /** Directly on the table, the body gets and returns the wake time that its sleep wrote. */
  lemma DirectFourActions(again: string, name: string, table: Store, choices: seq<Choice>)
    requires Clash(again, name) && FailsFirst(choices, WRITE_UNACKNOWLEDGED) && |choices| == 4
    requires table == map[name := Boolean(false)][again := Boolean(false)]
    ensures RunAttempt(TypeScript, StaleBody(again, name), table, choices).status == Completed(Timestamp(0))
  {
    var body := StaleBody(again, name);
    var o := SleepOutcome(TypeScript, table, again, 0, WRITE_UNACKNOWLEDGED);
    assert o.store == table[again := Timestamp(0)];
    var three := ThreeActions(again, name, table, choices, WRITE_UNACKNOWLEDGED, o);
    RunNext(body, three, choices, 3);
    assert body(three.answers) == Return(Timestamp(0));
  }

  /** A history in which the cache matters, whatever the name. The first attempt fails to look at its sleep,
      goes on, commits false twice and is cut off. In the second the sleep loses the acknowledgement of its
      write, and the body then gets false from the cache where the table holds the wake time. No choice of
      failing lookups makes an attempt on the table agree. */
  lemma StaleCacheDiverges(name: string, first: seq<Choice>, second: seq<Choice>)
    requires FailsFirst(first, LOOKUP_FAILS) && |first| == 3
    requires FailsFirst(second, WRITE_UNACKNOWLEDGED) && |second| == 4
    ensures
      var body := StaleBody(CheckpointName(name, 2), name);
      var table := StoreAfter(TypeScript, body, map[], [first]);
      && RunThroughCache(TypeScript, body, table, table.Keys, second).status == Completed(Boolean(false))
      && forall effective :: SparesLookups(second, effective) ==>
           RunAttempt(TypeScript, body, table, effective).status == Completed(Timestamp(0))
  {
    var again := CheckpointName(name, 2);
    var body := StaleBody(again, name);
    SecondUseClashes(name);
    var three := ThreeActions(again, name, map[], first, LOOKUP_FAILS,
        SleepOutcome(TypeScript, map[], again, 0, LOOKUP_FAILS));
    var table := three.store;
    assert [first][1..] == [];
    assert StoreAfter(TypeScript, body, map[], [first]) == StoreAfter(TypeScript, body, table, []) == table;
    DirectFourActions(again, name, table, second);
    CachedFourActions(again, name, table, second);
    forall effective | SparesLookups(second, effective)
      ensures effective == second
    {
    }
  }

  // ----- A wake time is replaced through a stale cache -----

  const NO_LOOKUP := PLAIN.(lookupError := Some("no lookup"))

  /** What a first attempt commits: a falsy value that is no date, or the empty string. */
  predicate FalsyStart(v: Json) {
    v == Boolean(false) || v == EMPTY_TEXT
  }

  function RewritingAction(again: string, name: string, answers: seq<Answer>): Action {
    if |answers| == 0 then SleepUntil(again, 5)
    else if answers[0] == Raised("no lookup") then (if |answers| <= 2 then Step(name) else Return(Null))
    else if |answers| == 1 then SleepUntil(name, 0)
    else if |answers| == 2 then SleepUntil(name, 7)
    else Return(Null)
  }

  /** A sleep whose failure the body catches. If its lookup failed, two steps; if its write did, two sleeps, of which
      the second has the checkpoint of the first sleep. */
  function RewritingBody(again: string, name: string): Program {
    answers => RewritingAction(again, name, answers)
  }

  lemma CachedLookupFails(body: Program, s: CachedAttempt, name: string, checkpoint: string)
    returns (next: CachedAttempt)
    requires body(s.attempt.answers) == SleepUntil(name, 5) && NextName(s.attempt.calls, name) == checkpoint
    requires checkpoint !in s.cache
    ensures next == CachedAct(TypeScript, body, s, NO_LOOKUP)
    ensures GoesOn(s.attempt, next.attempt, name, Raised("no lookup"))
    ensures next.attempt.store == s.attempt.store && next.cache == s.cache
  {
    next := CachedAct(TypeScript, body, s, NO_LOOKUP);
  }

  lemma CachedCommit(body: Program, s: CachedAttempt, name: string, checkpoint: string, v: Json, c: Choice)
    returns (next: CachedAttempt)
    requires body(s.attempt.answers) == Step(name) && NextName(s.attempt.calls, name) == checkpoint
    requires checkpoint !in s.cache && checkpoint !in s.attempt.store && c == PLAIN.(body := Returns(v))
    ensures next == CachedAct(TypeScript, body, s, c)
    ensures GoesOn(s.attempt, next.attempt, name, Got(v))
    ensures next.attempt.store == s.attempt.store[checkpoint := v] && next.cache == s.cache[checkpoint := v]
  {
    assert s.attempt.store[checkpoint := v] != s.attempt.store;
    next := CachedAct(TypeScript, body, s, c);
  }

  /** A sleep that sees a falsy state writes its wake time; the cache follows once the write is acknowledged. */
  lemma CachedRewrite(body: Program, s: CachedAttempt, name: string, wakeAt: int, checkpoint: string, c: Choice)
    returns (next: CachedAttempt)
    requires body(s.attempt.answers) == SleepUntil(name, wakeAt) && NextName(s.attempt.calls, name) == checkpoint
    requires checkpoint in s.cache && FalsyStart(s.cache[checkpoint]) && (c == PLAIN || c == WRITE_UNACKNOWLEDGED)
    ensures next == CachedAct(TypeScript, body, s, c)
    ensures next.attempt.store == s.attempt.store[checkpoint := Timestamp(wakeAt)]
    ensures next.cache == if c == PLAIN then s.cache[checkpoint := Timestamp(wakeAt)] else s.cache
    ensures
      if c == WRITE_UNACKNOWLEDGED then GoesOn(s.attempt, next.attempt, name, Raised("lost"))
      else if s.cache[checkpoint] == EMPTY_TEXT || wakeAt <= 0 then GoesOn(s.attempt, next.attempt, name, Woke)
      else next.attempt.status == Suspended
  {
    CachedSleep(TypeScript, s.attempt.store, s.cache, checkpoint, name, wakeAt, c);
    assert s.cache[checkpoint := s.cache[checkpoint]] == s.cache;
    next := CachedAct(TypeScript, body, s, c);
  }

  lemma RewritingStart(again: string, name: string, v: Json, first: seq<Choice>)
    requires Clash(again, name) && FalsyStart(v)
    requires |first| == 3 && first[0] == NO_LOOKUP && first[1] == first[2] == PLAIN.(body := Returns(v))
    ensures Launched(TypeScript, RewritingBody(again, name), map[], Launch({}, first)).store
         == map[name := v][again := v]
  {
    var body, start := RewritingBody(again, name), Opened(map[], Launch({}, first));
    assert first[0..] == first && start.cache == map[];
    var one := CachedLookupFails(body, start, again, again);
    CachedRunNext(TypeScript, body, start, first, 0);
    assert one.attempt.calls == [again];
    var two := CachedCommit(body, one, name, name, v, first[1]);
    CachedRunNext(TypeScript, body, one, first, 1);
    var three := CachedCommit(body, two, name, again, v, first[2]);
    CachedRunNext(TypeScript, body, two, first, 2);
    CachedRunStops(TypeScript, body, three, first[3..]);
  }

  /** The two sleeps after the first has lost its acknowledgement. */
  lemma RewritingSleeps(again: string, name: string, v: Json, one: CachedAttempt, second: seq<Choice>)
    returns (final: CachedAttempt)
    requires Clash(again, name) && FalsyStart(v)
    requires |second| == 3 && second[1] == second[2] == PLAIN
    requires one.attempt.answers == [Raised("lost")] && one.attempt.calls == [again] && one.attempt.status.Running?
    requires again in one.cache && one.cache[again] == v && name in one.cache && one.cache[name] == v
    ensures final == CachedRun(TypeScript, RewritingBody(again, name), one, second[1..])
    ensures again in final.attempt.store && final.attempt.store[again] == Timestamp(7)
    ensures
      if v == EMPTY_TEXT then |final.attempt.answers| == 3 && final.attempt.answers[2] == Woke
      else final.attempt.status == Suspended
  {
    var body := RewritingBody(again, name);
    var two := CachedRewrite(body, one, name, 0, name, second[1]);
    CachedRunNext(TypeScript, body, one, second, 1);
    final := CachedRewrite(body, two, name, 7, again, second[2]);
    CachedRunNext(TypeScript, body, two, second, 2);
    CachedRunStops(TypeScript, body, final, second[3..]);
  }

  lemma RewritingSecond(again: string, name: string, v: Json, table: Store, second: seq<Choice>)
    requires Clash(again, name) && FalsyStart(v) && table == map[name := v][again := v]
    requires |second| == 3 && second[0] == WRITE_UNACKNOWLEDGED && second[1] == second[2] == PLAIN
    ensures
      var body := RewritingBody(again, name);
      var lost := CachedAct(TypeScript, body, Opened(table, Launch(table.Keys, second)), second[0]).attempt;
      var s := Launched(TypeScript, body, table, Launch(table.Keys, second));
      && lost.store == table[again := Timestamp(5)]
      && again in s.store && s.store[again] == Timestamp(7)
      && (if v == EMPTY_TEXT then |s.answers| == 3 && s.answers[2] == Woke else s.status == Suspended)
  {
    var body, start := RewritingBody(again, name), Opened(table, Launch(table.Keys, second));
    assert second[0..] == second && start.cache == table;
    var one := CachedRewrite(body, start, again, 5, again, second[0]);
    CachedRunNext(TypeScript, body, start, second, 0);
    assert one.attempt.calls == [again];
    var final := RewritingSleeps(again, name, v, one, second);
  }

  /** Whatever the name, a history in which a committed wake time is replaced. The first attempt fails to look at its
      sleep and commits a falsy value twice. In the second the first sleep stores the wake time 5 and loses the
      acknowledgement; its last sleep still sees the falsy value in the cache and replaces 5 by 7. If the value is
      the empty string, that sleep passes at once, with the clock at zero. */
  lemma StaleCacheRewrites(name: string, v: Json, first: seq<Choice>, second: seq<Choice>)
    requires FalsyStart(v)
    requires |first| == 3 && first[0] == NO_LOOKUP && first[1] == first[2] == PLAIN.(body := Returns(v))
    requires |second| == 3 && second[0] == WRITE_UNACKNOWLEDGED && second[1] == second[2] == PLAIN
    ensures
      var again := CheckpointName(name, 2);
      var body := RewritingBody(again, name);
      var table := CachedStoreAfter(TypeScript, body, map[], [Launch({}, first)]);
      var launch := Launch(table.Keys, second);
      var lost := CachedAct(TypeScript, body, Opened(table, launch), second[0]).attempt;
      var s := Launched(TypeScript, body, table, launch);
      && again in lost.store && lost.store[again] == Timestamp(5)
      && again in s.store && s.store[again] == Timestamp(7)
      && (if v == EMPTY_TEXT then |s.answers| == 3 && s.answers[2] == Woke else s.status == Suspended)
      && second[2].now == 0
  {
    var again := CheckpointName(name, 2);
    var body := RewritingBody(again, name);
    SecondUseClashes(name);
    RewritingStart(again, name, v, first);
    var launches := [Launch({}, first)];
    var table := Launched(TypeScript, body, map[], launches[0]).store;
    assert launches[1..] == [];
    assert CachedStoreAfter(TypeScript, body, map[], launches)
        == CachedStoreAfter(TypeScript, body, table, []) == table;
    RewritingSecond(again, name, v, table, second);
  }
}
