/** Replay through the cache of the task context. An attempt starts with a new context, whose cache holds some
    of the table's rows; a history is a sequence of such attempts. The cache makes a difference only once a
    sleep has spoiled it, and what is committed before an attempt is final even then. */
module CachedReplay {
  import opened Prelude
  import opened CheckpointNames
  import opened Replay
  import opened CommittedStates
  import opened Transparency
  import opened Apartness
  import opened TaskContext

  // ----- When the cache makes no difference -----

  /** Every cached state is the state in the table. */
  ghost predicate Agrees(s: CachedAttempt) {
    StaleIn(s.attempt.store, s.cache) == {}
  }

  /** What makes a cache stale: a TypeScript sleep replaces a falsy state and its acknowledgement is lost. */
  ghost predicate Spoils(sdk: Sdk, program: Program, s: CachedAttempt, c: Choice) {
    var action := program(s.attempt.answers);
    && sdk.TypeScript? && IsSleep(action) && c.persist.Unacknowledged?
    && var checkpoint := NextName(s.attempt.calls, action.name);
       && checkpoint in s.attempt.store && !Truthy(s.attempt.store[checkpoint])
       && (checkpoint in s.cache || c.lookupError.None?)
  }

  /** The choice a direct reader faces in the place of one action through the cache. */
  function Spared(program: Program, s: CachedAttempt, c: Choice): Choice {
    var action := program(s.attempt.answers);
    if action.Return? || action.Throw? then c
    else Effective(c, NextName(s.attempt.calls, action.name) in s.cache)
  }

  lemma AgreeingSeen(s: CachedAttempt, checkpoint: string)
    requires Agrees(s)
    ensures Seen(s.attempt.store, s.cache, checkpoint) == s.attempt.store
  {
    assert checkpoint !in StaleIn(s.attempt.store, s.cache);
  }

  /** On an agreeing cache an action through the cache is the action on the table itself. */
  lemma CachedActRefines(sdk: Sdk, program: Program, s: CachedAttempt, c: Choice)
    requires Agrees(s)
    ensures CachedAct(sdk, program, s, c).attempt == Act(sdk, program, s.attempt, Spared(program, s, c))
  {
    var action := program(s.attempt.answers);
    if action.Step? || IsSleep(action) {
      var checkpoint := NextName(s.attempt.calls, action.name);
      AgreeingSeen(s, checkpoint);
    }
  }

  /** What one action does to the cache entry of one checkpoint. */
  lemma PerformedCache(sdk: Sdk, table: Store, cache: Store, at: string, action: Action, c: Choice, checkpoint: string)
    requires (action.Step? || IsSleep(action)) && StaleIn(table, cache) == {}
    ensures
      var o := CachedPerform(sdk, table, cache, at, action, c);
      checkpoint in StaleIn(o.outcome.store, o.cache) <==>
        && checkpoint == at && sdk.TypeScript? && IsSleep(action) && c.persist.Unacknowledged?
        && at in table && !Truthy(table[at]) && (at in cache || c.lookupError.None?)
  {
    assert checkpoint !in StaleIn(table, cache) && at !in StaleIn(table, cache);
    assert Seen(table, cache, at) == table;
  }

  /** An agreeing cache stays so after an action unless, and only unless, the action spoils it. */
  lemma CacheStaysCurrentIff(sdk: Sdk, program: Program, s: CachedAttempt, c: Choice)
    requires Agrees(s)
    ensures Agrees(CachedAct(sdk, program, s, c)) <==> !Spoils(sdk, program, s, c)
  {
    var action := program(s.attempt.answers);
    if action.Step? || IsSleep(action) {
      var at := NextName(s.attempt.calls, action.name);
      AgreeingSeen(s, at);
      var next := CachedAct(sdk, program, s, c);
      forall checkpoint
        ensures checkpoint in StaleIn(next.attempt.store, next.cache) <==>
                checkpoint == at && Spoils(sdk, program, s, c)
      {
        PerformedCache(sdk, s.attempt.store, s.cache, at, action, c, checkpoint);
      }
      var stale := StaleIn(next.attempt.store, next.cache);
      if Spoils(sdk, program, s, c) { assert at in stale; } else { assert stale == {}; }
    }
  }

  /** The choices of a direct reader differ from those of the cached context only in lookups that the
      cache spares it. */
  ghost predicate SparesLookups(choices: seq<Choice>, effective: seq<Choice>) {
    && |effective| == |choices|
    && forall i :: 0 <= i < |choices| ==> effective[i] == choices[i] || effective[i] == choices[i].(lookupError := None)
  }

  /** Some action of a run spoils the cache. */
  ghost predicate EverSpoils(sdk: Sdk, program: Program, s: CachedAttempt, choices: seq<Choice>)
    decreases |choices|
  {
    && choices != [] && s.attempt.status.Running?
    && (Spoils(sdk, program, s, choices[0]) ||
        EverSpoils(sdk, program, CachedAct(sdk, program, s, choices[0]), choices[1..]))
  }

  /** The cache agrees with the table in every state of a run. */
  ghost predicate AgreesThroughout(sdk: Sdk, program: Program, s: CachedAttempt, choices: seq<Choice>) {
    forall k :: 0 <= k <= |choices| ==> Agrees(CachedRun(sdk, program, s, choices[..k]))
  }

  lemma PrefixOfRun(sdk: Sdk, program: Program, s: CachedAttempt, choices: seq<Choice>, k: nat)
    requires choices != [] && s.attempt.status.Running? && k <= |choices| - 1
    ensures CachedRun(sdk, program, s, choices[..k + 1])
         == CachedRun(sdk, program, CachedAct(sdk, program, s, choices[0]), choices[1..][..k])
  {
    assert choices[..k + 1][0] == choices[0] && choices[..k + 1][1..] == choices[1..][..k];
  }

  lemma ThroughoutStep(sdk: Sdk, program: Program, s: CachedAttempt, choices: seq<Choice>)
    requires Agrees(s) && choices != [] && s.attempt.status.Running?
    ensures AgreesThroughout(sdk, program, s, choices) <==>
      AgreesThroughout(sdk, program, CachedAct(sdk, program, s, choices[0]), choices[1..])
  {
    var next, rest := CachedAct(sdk, program, s, choices[0]), choices[1..];
    forall k | 0 <= k <= |rest|
      ensures CachedRun(sdk, program, s, choices[..k + 1]) == CachedRun(sdk, program, next, rest[..k])
    {
      PrefixOfRun(sdk, program, s, choices, k);
    }
    if AgreesThroughout(sdk, program, next, rest) {
      forall k | 0 <= k <= |choices|
        ensures Agrees(CachedRun(sdk, program, s, choices[..k]))
      {
        if k > 0 { assert Agrees(CachedRun(sdk, program, next, rest[..k - 1])); }
      }
    }
    if AgreesThroughout(sdk, program, s, choices) {
      forall k | 0 <= k <= |rest|
        ensures Agrees(CachedRun(sdk, program, next, rest[..k]))
      {
        assert Agrees(CachedRun(sdk, program, s, choices[..k + 1]));
      }
    }
  }

  /** From an agreeing cache, the cache agrees in every state of a run if and only if no action spoils it. */
  lemma {:induction false} AgreesThroughoutIff(sdk: Sdk, program: Program, s: CachedAttempt, choices: seq<Choice>)
    requires Agrees(s)
    ensures AgreesThroughout(sdk, program, s, choices) <==> !EverSpoils(sdk, program, s, choices)
    decreases |choices|
  {
    if choices != [] && s.attempt.status.Running? {
      var next, rest := CachedAct(sdk, program, s, choices[0]), choices[1..];
      CacheStaysCurrentIff(sdk, program, s, choices[0]);
      forall k | 0 <= k <= |rest|
        ensures CachedRun(sdk, program, s, choices[..k + 1]) == CachedRun(sdk, program, next, rest[..k])
      {
        PrefixOfRun(sdk, program, s, choices, k);
      }
      if Agrees(next) {
        AgreesThroughoutIff(sdk, program, next, rest);
        ThroughoutStep(sdk, program, s, choices);
      } else {
        assert CachedRun(sdk, program, s, choices[..0 + 1]) == next;
      }
    }
  }

  /** A run that never spoils its cache is a run on the table itself, with lookups that fail at most as often. */
  lemma {:induction false} UnspoiledRunIsDirect(sdk: Sdk, program: Program, s: CachedAttempt, choices: seq<Choice>)
    returns (effective: seq<Choice>)
    requires Agrees(s) && !EverSpoils(sdk, program, s, choices)
    ensures SparesLookups(choices, effective)
    ensures CachedRun(sdk, program, s, choices).attempt == Run(sdk, program, s.attempt, effective)
    decreases |choices|
  {
    if choices == [] || !s.attempt.status.Running? {
      effective := choices;
    } else {
      CachedActRefines(sdk, program, s, choices[0]);
      CacheStaysCurrentIff(sdk, program, s, choices[0]);
      var rest := UnspoiledRunIsDirect(sdk, program, CachedAct(sdk, program, s, choices[0]), choices[1..]);
      effective := [Spared(program, s, choices[0])] + rest;
      assert effective[1..] == rest;
      assert forall i :: 1 <= i < |choices| ==> choices[i] == choices[1..][i - 1] && effective[i] == rest[i - 1];
    }
  }

  /** One attempt through a new context: the rows that its bulk query returns, and what the environment decides. */
  datatype Launch = Launch(returned: set<string>, choices: seq<Choice>)

  function Opened(table: Store, launch: Launch): CachedAttempt {
    CachedAttempt(Start(table), Preloaded(table, launch.returned))
  }

  function Launched(sdk: Sdk, program: Program, table: Store, launch: Launch): Attempt {
    RunThroughCache(sdk, program, table, launch.returned, launch.choices)
  }

  lemma OpenedAgrees(table: Store, launch: Launch)
    ensures Agrees(Opened(table, launch))
  {
  }

  /** An attempt through a new context that never spoils its cache is an attempt on the table itself. */
  lemma UnspoiledIsDirect(sdk: Sdk, program: Program, table: Store, launch: Launch) returns (effective: seq<Choice>)
    requires !EverSpoils(sdk, program, Opened(table, launch), launch.choices)
    ensures SparesLookups(launch.choices, effective)
    ensures Launched(sdk, program, table, launch) == RunAttempt(sdk, program, table, effective)
  {
    OpenedAgrees(table, launch);
    effective := UnspoiledRunIsDirect(sdk, program, Opened(table, launch), launch.choices);
  }

  /** A caller can tell beforehand that the cache makes no difference: the SDK is the Python one, or no
      acknowledgement is lost, or steps and sleeps use different checkpoints. */
  ghost predicate CacheSafe(sdk: Sdk, program: Program, table: Store, choices: seq<Choice>) {
    || sdk.Python?
    || (forall i :: 0 <= i < |choices| ==> !choices[i].persist.Unacknowledged?)
    || (Apart(program) && Clean(program, table))
  }

  lemma StaysCacheSafe(sdk: Sdk, program: Program, s: CachedAttempt, choices: seq<Choice>)
    requires choices != [] && s.attempt.status.Running? && Follows(program, s.attempt) && Agrees(s)
    requires CacheSafe(sdk, program, s.attempt.store, choices)
    ensures !Spoils(sdk, program, s, choices[0])
    ensures
      var next := CachedAct(sdk, program, s, choices[0]);
      Agrees(next) && Follows(program, next.attempt) && CacheSafe(sdk, program, next.attempt.store, choices[1..])
  {
    var action := program(s.attempt.answers);
    if IsSleep(action) { assert SleepsAt(program, NextName(s.attempt.calls, action.name)); }
    CachedActRefines(sdk, program, s, choices[0]);
    CacheStaysCurrentIff(sdk, program, s, choices[0]);
    ActFollows(sdk, program, s.attempt, Spared(program, s, choices[0]));
    if Apart(program) && Clean(program, s.attempt.store) {
      ActStaysClean(sdk, program, s.attempt, Spared(program, s, choices[0]));
    }
  }

  lemma {:induction false} CacheSafeNeverSpoils(sdk: Sdk, program: Program, s: CachedAttempt, choices: seq<Choice>)
    requires Follows(program, s.attempt) && Agrees(s) && CacheSafe(sdk, program, s.attempt.store, choices)
    ensures !EverSpoils(sdk, program, s, choices)
    decreases |choices|
  {
    if choices != [] && s.attempt.status.Running? {
      StaysCacheSafe(sdk, program, s, choices);
      CacheSafeNeverSpoils(sdk, program, CachedAct(sdk, program, s, choices[0]), choices[1..]);
    }
  }

  /** Where a caller can tell that the cache is safe, an attempt through it is an attempt on the table itself. */
  lemma CacheMakesNoDifference(sdk: Sdk, program: Program, table: Store, returned: set<string>, choices: seq<Choice>)
    requires CacheSafe(sdk, program, table, choices)
    ensures exists effective ::
              && SparesLookups(choices, effective)
              && RunThroughCache(sdk, program, table, returned, choices) == RunAttempt(sdk, program, table, effective)
  {
    var launch := Launch(returned, choices);
    OpenedAgrees(table, launch);
    CacheSafeNeverSpoils(sdk, program, Opened(table, launch), choices);
    var effective := UnspoiledIsDirect(sdk, program, table, launch);
  }

  // ----- What one action through the cache does -----

  /** Cached checkpoints are committed. */
  predicate Backed(s: CachedAttempt) {
    s.cache.Keys <= s.attempt.store.Keys
  }

  lemma PerformWrites(sdk: Sdk, store: Store, at: string, action: Action, c: Choice)
    requires action.Step? || IsSleep(action)
    ensures
      var after := Perform(sdk, store, at, action, c).store;
      after == store || (at in after && after == store[at := after[at]])
  {
  }

  /** An action through the cache touches its own checkpoint only. */
  lemma CachedElsewhere(sdk: Sdk, table: Store, cache: Store, at: string, action: Action, c: Choice, checkpoint: string)
    requires (action.Step? || IsSleep(action)) && cache.Keys <= table.Keys
    ensures
      var p := CachedPerform(sdk, table, cache, at, action, c);
      && p.cache.Keys <= p.outcome.store.Keys
      && (checkpoint in table ==> checkpoint in p.outcome.store)
      && (checkpoint != at ==>
            && (checkpoint in p.outcome.store <==> checkpoint in table)
            && (checkpoint in table ==> p.outcome.store[checkpoint] == table[checkpoint])
            && (checkpoint in p.cache <==> checkpoint in cache)
            && (checkpoint in cache ==> p.cache[checkpoint] == cache[checkpoint]))
  {
    PerformWrites(sdk, Seen(table, cache, at), at, action, Effective(c, at in cache));
  }

  /** At its own checkpoint, the table keeps its state or gets what the action leaves in what the context sees,
      and the cache holds one of what the context saw and what the action left. */
  lemma CachedHere(sdk: Sdk, table: Store, cache: Store, at: string, action: Action, c: Choice)
    requires (action.Step? || IsSleep(action)) && cache.Keys <= table.Keys
    ensures
      var seen := Seen(table, cache, at);
      var o := Perform(sdk, seen, at, action, Effective(c, at in cache));
      var p := CachedPerform(sdk, table, cache, at, action, c);
      && p.outcome.ran == o.ran && p.outcome.reply == o.reply
      && (at in p.outcome.store ==>
            (at in table && p.outcome.store[at] == table[at]) || (at in o.store && p.outcome.store[at] == o.store[at]))
      && (at in p.cache ==>
            (at in seen && p.cache[at] == seen[at]) || (at in o.store && p.cache[at] == o.store[at]))
  {
  }

  /** What replaces a state is the wake time asked for. */
  lemma SleepStores(sdk: Sdk, store: Store, at: string, action: Action, c: Choice)
    requires (action.Step? || IsSleep(action)) && at in store && Perform(sdk, store, at, action, c).store != store
    ensures IsSleep(action) && Perform(sdk, store, at, action, c).store == store[at := Timestamp(Requested(action, c))]
  {
  }

  lemma SeenChangesIff(sdk: Sdk, table: Store, cache: Store, at: string, action: Action, c: Choice)
    requires (action.Step? || IsSleep(action)) && cache.Keys <= table.Keys && at in table
    ensures
      var after := CachedPerform(sdk, table, cache, at, action, c).outcome.store;
      at in after &&
      (after[at] != table[at] <==>
        && sdk.TypeScript? && IsSleep(action) && (at in cache || c.lookupError.None?)
        && !Truthy(Seen(table, cache, at)[at]) && !c.persist.Refused? && table[at] != Timestamp(Requested(action, c)))
  {
    var seen, effective := Seen(table, cache, at), Effective(c, at in cache);
    var o := Perform(sdk, seen, at, action, effective);
    OutcomeChangesIff(sdk, seen, at, action, effective, at);
    PerformWrites(sdk, seen, at, action, effective);
    if o.store != seen {
      SleepStores(sdk, seen, at, action, effective);
      assert o.store[at] != seen[at];
    }
  }

  /** A committed state changes under an action through the cache exactly when a TypeScript sleep sees it as
      falsy, its write lands, and it asks for another time than is already there. */
  lemma CachedChangesIff(sdk: Sdk, program: Program, s: CachedAttempt, c: Choice, checkpoint: string)
    requires Backed(s) && checkpoint in s.attempt.store
    ensures
      var action := program(s.attempt.answers);
      var after := CachedAct(sdk, program, s, c).attempt.store;
      checkpoint in after &&
      (after[checkpoint] != s.attempt.store[checkpoint] <==>
        && sdk.TypeScript? && IsSleep(action) && NextName(s.attempt.calls, action.name) == checkpoint
        && (checkpoint in s.cache || c.lookupError.None?)
        && !Truthy(Seen(s.attempt.store, s.cache, checkpoint)[checkpoint]) && !c.persist.Refused?
        && s.attempt.store[checkpoint] != Timestamp(Requested(action, c)))
  {
    var action := program(s.attempt.answers);
    if action.Step? || IsSleep(action) {
      var at := NextName(s.attempt.calls, action.name);
      CachedElsewhere(sdk, s.attempt.store, s.cache, at, action, c, checkpoint);
      if checkpoint == at { SeenChangesIff(sdk, s.attempt.store, s.cache, at, action, c); }
    }
  }

  // ----- Committed states over histories of cached attempts -----

  function CachedStoreAfter(sdk: Sdk, program: Program, store: Store, launches: seq<Launch>): Store
    decreases |launches|
  {
    if launches == [] then store
    else CachedStoreAfter(sdk, program, Launched(sdk, program, store, launches[0]).store, launches[1..])
  }

  function CachedBodiesRun(sdk: Sdk, program: Program, store: Store, launches: seq<Launch>): seq<string>
    decreases |launches|
  {
    if launches == [] then []
    else
      var first := Launched(sdk, program, store, launches[0]);
      first.ran + CachedBodiesRun(sdk, program, first.store, launches[1..])
  }

  /** The k-th attempt of a history. */
  function LaunchedAt(sdk: Sdk, program: Program, store: Store, launches: seq<Launch>, k: nat): Attempt
    requires k < |launches|
  {
    Launched(sdk, program, CachedStoreAfter(sdk, program, store, launches[..k]), launches[k])
  }

  lemma LaterLaunch(sdk: Sdk, program: Program, store: Store, launches: seq<Launch>, k: nat)
    requires 0 < k < |launches|
    ensures LaunchedAt(sdk, program, store, launches, k)
         == LaunchedAt(sdk, program, Launched(sdk, program, store, launches[0]).store, launches[1..], k - 1)
  {
    assert launches[..k][0] == launches[0] && launches[..k][1..] == launches[1..][..k - 1];
    assert launches[k] == launches[1..][k - 1];
  }

  /** Table and cache both hold what can stand at a checkpoint after a value was committed there. */
  ghost predicate BothKeep(sdk: Sdk, program: Program, table: Store, cache: Store, checkpoint: string, value: Json) {
    && cache.Keys <= table.Keys && StillThere(sdk, program, table, checkpoint, value)
    && (checkpoint in cache ==> Kept(sdk, program, checkpoint, value, cache[checkpoint]))
  }

  lemma PerformKeepsBoth(sdk: Sdk, program: Program, table: Store, cache: Store, at: string, action: Action, c: Choice,
                         checkpoint: string, value: Json)
    requires (action.Step? || IsSleep(action)) && BothKeep(sdk, program, table, cache, checkpoint, value)
    requires at == checkpoint && IsSleep(action) ==> SleepsAt(program, checkpoint)
    ensures
      var p := CachedPerform(sdk, table, cache, at, action, c);
      && BothKeep(sdk, program, p.outcome.store, p.cache, checkpoint, value)
      && (p.outcome.ran ==> at != checkpoint)
      && (at == checkpoint && p.outcome.reply.Answered? && p.outcome.reply.answer.Got? ==>
            Kept(sdk, program, checkpoint, value, p.outcome.reply.answer.value))
  {
    var seen := Seen(table, cache, at);
    CachedElsewhere(sdk, table, cache, at, action, c, checkpoint);
    CachedHere(sdk, table, cache, at, action, c);
    OutcomeKeepsCommitted(sdk, program, seen, at, action, Effective(c, at in cache), checkpoint, value);
  }

  lemma RecordKeepsAnswers(sdk: Sdk, program: Program, s: Attempt, name: string, o: Outcome, from: nat,
                           checkpoint: string, value: Json)
    requires s.status.Running? && Follows(program, s) && CallName(program(s.answers)) == name
    requires AnswersFrom(sdk, program, s, from, checkpoint, value)
    requires
      NextName(s.calls, name) == checkpoint && o.reply.Answered? && o.reply.answer.Got? ==>
        Kept(sdk, program, checkpoint, value, o.reply.answer.value)
    ensures AnswersFrom(sdk, program, Record(s, name, o), from, checkpoint, value)
    ensures Follows(program, Record(s, name, o))
  {
    RecordAppends(s, name, o);
    RecordFollows(program, s, name, o);
    AnswersExtend(sdk, program, s, Record(s, name, o), from, checkpoint, value);
  }

  lemma CachedActKeepsCommitted(sdk: Sdk, program: Program, s: CachedAttempt, c: Choice, from: nat,
                                checkpoint: string, value: Json)
    requires BothKeep(sdk, program, s.attempt.store, s.cache, checkpoint, value)
    requires s.attempt.status.Running? && Follows(program, s.attempt) && checkpoint !in s.attempt.ran
    requires AnswersFrom(sdk, program, s.attempt, from, checkpoint, value)
    ensures
      var next := CachedAct(sdk, program, s, c);
      && BothKeep(sdk, program, next.attempt.store, next.cache, checkpoint, value)
      && AnswersFrom(sdk, program, next.attempt, from, checkpoint, value) && checkpoint !in next.attempt.ran
      && Follows(program, next.attempt)
  {
    var action := program(s.attempt.answers);
    if action.Step? || IsSleep(action) {
      var at := NextName(s.attempt.calls, action.name);
      var o := CachedPerform(sdk, s.attempt.store, s.cache, at, action, c).outcome;
      if IsSleep(action) { assert SleepsAt(program, at); }
      PerformKeepsBoth(sdk, program, s.attempt.store, s.cache, at, action, c, checkpoint, value);
      RecordKeepsAnswers(sdk, program, s.attempt, action.name, o, from, checkpoint, value);
    }
  }

  lemma {:induction false} CachedRunKeepsCommitted(sdk: Sdk, program: Program, s: CachedAttempt, choices: seq<Choice>,
                                                   from: nat, checkpoint: string, value: Json)
    requires BothKeep(sdk, program, s.attempt.store, s.cache, checkpoint, value)
    requires s.attempt.status.Running? && Follows(program, s.attempt) && checkpoint !in s.attempt.ran
    requires AnswersFrom(sdk, program, s.attempt, from, checkpoint, value)
    ensures
      var final := CachedRun(sdk, program, s, choices);
      && BothKeep(sdk, program, final.attempt.store, final.cache, checkpoint, value)
      && AnswersFrom(sdk, program, final.attempt, from, checkpoint, value)
      && checkpoint !in final.attempt.ran
    decreases |choices|
  {
    if choices != [] {
      var next := CachedAct(sdk, program, s, choices[0]);
      CachedActKeepsCommitted(sdk, program, s, choices[0], from, checkpoint, value);
      if next.attempt.status.Running? {
        CachedRunKeepsCommitted(sdk, program, next, choices[1..], from, checkpoint, value);
      }
    }
  }

  lemma LaunchKeepsCommitted(sdk: Sdk, program: Program, table: Store, launch: Launch, checkpoint: string, value: Json)
    requires StillThere(sdk, program, table, checkpoint, value)
    ensures
      var s := Launched(sdk, program, table, launch);
      && StillThere(sdk, program, s.store, checkpoint, value)
      && AnswersFrom(sdk, program, s, 0, checkpoint, value) && checkpoint !in s.ran
  {
    CachedRunKeepsCommitted(sdk, program, Opened(table, launch), launch.choices, 0, checkpoint, value);
  }

  lemma {:induction false} LaunchesKeepCommitted(sdk: Sdk, program: Program, store: Store, launches: seq<Launch>,
                                                 checkpoint: string, value: Json)
    requires StillThere(sdk, program, store, checkpoint, value)
    ensures checkpoint !in CachedBodiesRun(sdk, program, store, launches)
    ensures StillThere(sdk, program, CachedStoreAfter(sdk, program, store, launches), checkpoint, value)
    ensures forall k :: 0 <= k < |launches| ==>
      AnswersFrom(sdk, program, LaunchedAt(sdk, program, store, launches, k), 0, checkpoint, value)
    decreases |launches|
  {
    if launches != [] {
      var first := Launched(sdk, program, store, launches[0]);
      LaunchKeepsCommitted(sdk, program, store, launches[0], checkpoint, value);
      LaunchesKeepCommitted(sdk, program, first.store, launches[1..], checkpoint, value);
      forall k | 0 <= k < |launches|
        ensures AnswersFrom(sdk, program, LaunchedAt(sdk, program, store, launches, k), 0, checkpoint, value)
      {
        if k > 0 { LaterLaunch(sdk, program, store, launches, k); }
      }
    }
  }

  /** In every later attempt of every history, through caches that may go stale, the body of a committed step
      does not run, and the step answers the committed value, or the wake time of a TypeScript sleep that saw
      that value as falsy. */
  lemma CommittedStepIsFinalThroughCache(sdk: Sdk, program: Program, store: Store, launches: seq<Launch>,
                                         checkpoint: string)
    requires checkpoint in store
    ensures checkpoint !in CachedBodiesRun(sdk, program, store, launches)
    ensures forall k :: 0 <= k < |launches| ==>
      AnswersFrom(sdk, program, LaunchedAt(sdk, program, store, launches, k), 0, checkpoint, store[checkpoint])
  {
    LaunchesKeepCommitted(sdk, program, store, launches, checkpoint, store[checkpoint]);
  }

  /** Over any history of cached attempts no checkpoint disappears, and permanent states stay. */
  lemma CachedHistoryPreserves(sdk: Sdk, program: Program, store: Store, launches: seq<Launch>)
    ensures Preserved(sdk, program, store, CachedStoreAfter(sdk, program, store, launches))
  {
    forall checkpoint | checkpoint in store
      ensures
        var after := CachedStoreAfter(sdk, program, store, launches);
        && checkpoint in after
        && (Permanent(sdk, program, checkpoint, store[checkpoint]) ==> after[checkpoint] == store[checkpoint])
    {
      LaunchesKeepCommitted(sdk, program, store, launches, checkpoint, store[checkpoint]);
    }
  }
}
