/** Replay through the cache is transparent too: an attempt that catches no failure never spoils its cache, so
    what is proved of attempts on the table itself holds of it, whatever the attempts before it did. */
module CachedTransparency {
  import opened Prelude
  import opened CheckpointNames
  import opened Replay
  import opened Transparency
  import opened TaskContext
  import opened CachedReplay

  // ----- Spoiling is caught -----

  lemma SpoilingRaises(sdk: Sdk, program: Program, s: CachedAttempt, c: Choice)
    requires Agrees(s) && s.attempt.status.Running? && Spoils(sdk, program, s, c)
    ensures
      var next := CachedAct(sdk, program, s, c).attempt;
      next.answers == s.attempt.answers + [Raised(c.persist.error)]
  {
    CachedActRefines(sdk, program, s, c);
  }

  lemma {:induction false} CachedRunAppends(sdk: Sdk, program: Program, s: CachedAttempt, choices: seq<Choice>)
    ensures s.attempt.answers <= CachedRun(sdk, program, s, choices).attempt.answers
    decreases |choices|
  {
    if choices != [] && s.attempt.status.Running? {
      CachedRunAppends(sdk, program, CachedAct(sdk, program, s, choices[0]), choices[1..]);
    }
  }

  /** Some answer of an attempt is a caught failure. */
  ghost predicate Catches(s: Attempt) {
    exists i :: 0 <= i < |s.answers| && s.answers[i].Raised?
  }

  lemma {:induction false} SpoiledRunCatches(sdk: Sdk, program: Program, s: CachedAttempt, choices: seq<Choice>)
    requires Agrees(s) && EverSpoils(sdk, program, s, choices)
    ensures Catches(CachedRun(sdk, program, s, choices).attempt)
    decreases |choices|
  {
    var next := CachedAct(sdk, program, s, choices[0]);
    if Spoils(sdk, program, s, choices[0]) {
      var final := CachedRun(sdk, program, s, choices).attempt;
      SpoilingRaises(sdk, program, s, choices[0]);
      CachedRunAppends(sdk, program, next, choices[1..]);
      assert final.answers[|s.attempt.answers|].Raised?;
    } else {
      CacheStaysCurrentIff(sdk, program, s, choices[0]);
      SpoiledRunCatches(sdk, program, next, choices[1..]);
    }
  }

  /** An attempt through the cache that completes without a caught failure is an attempt on the table itself,
      with lookups that fail at most as often. */
  lemma CleanIsDirect(sdk: Sdk, program: Program, table: Store, launch: Launch) returns (effective: seq<Choice>)
    requires CompletesCleanly(Launched(sdk, program, table, launch))
    ensures SparesLookups(launch.choices, effective)
    ensures Launched(sdk, program, table, launch) == RunAttempt(sdk, program, table, effective)
  {
    if EverSpoils(sdk, program, Opened(table, launch), launch.choices) {
      SpoiledRunCatches(sdk, program, Opened(table, launch), launch.choices);
      assert false;
    }
    effective := UnspoiledIsDirect(sdk, program, table, launch);
  }

  // ----- Replay through the cache -----

  /** A replay through a new context gives the same answers and result, runs no step body and writes nothing. */
  ghost predicate ReplaysThroughCache(sdk: Sdk, program: Program, s: Attempt, table: Store, launch: Launch) {
    Launched(sdk, program, table, launch) == Attempt(table, s.answers, s.calls, [], s.status)
  }

  /** After any history of cached attempts, the result of a cached attempt that completes without a caught failure is
      the body evaluated on its final table: for every body with the Python SDK, and with the TypeScript SDK
      whenever no sleep passed at the checkpoint of an earlier falsy answer. */
  lemma ResultIsEvaluationThroughCache(sdk: Sdk, program: Program, store: Store, launches: seq<Launch>, last: Launch)
    requires
      var s := Launched(sdk, program, CachedStoreAfter(sdk, program, store, launches), last);
      CompletesCleanly(s) && (sdk.Python? || !exists i, j :: FalsyThenSlept(s, i, j))
    ensures
      var s := Launched(sdk, program, CachedStoreAfter(sdk, program, store, launches), last);
      Evaluate(program, s.store, [], [], |s.answers|) == Some(s.status.result)
  {
    var before := CachedStoreAfter(sdk, program, store, launches);
    var effective := CleanIsDirect(sdk, program, before, last);
    assert StoreAfter(sdk, program, before, []) == before;
    ResultIsEvaluation(sdk, program, before, [], effective, []);
  }

  /** The final table of a cached attempt that completes without a caught failure holds all its answers exactly when,
      with the TypeScript SDK, no sleep passed at the checkpoint of an earlier falsy answer. */
  lemma AnswersHeldThroughCacheIff(sdk: Sdk, program: Program, table: Store, launch: Launch)
    requires CompletesCleanly(Launched(sdk, program, table, launch))
    ensures
      var s := Launched(sdk, program, table, launch);
      AllHeld(s, s.store) <==> sdk.Python? || !exists i, j :: FalsyThenSlept(s, i, j)
  {
    var effective := CleanIsDirect(sdk, program, table, launch);
    AnswersHeldIff(sdk, program, table, effective);
  }

  lemma QuietActSpoilsNothing(sdk: Sdk, program: Program, s: Attempt, table: Store, cache: Store, choices: seq<Choice>,
                              k: nat)
    requires Reproducible(sdk, program, s, table) && Quiet(sdk, program, s, table, choices) && k < |s.answers|
    ensures
      var now := CachedAttempt(Midway(s, table, k), cache);
      !Spoils(sdk, program, now, choices[k]) && Spared(program, now, choices[k]) == choices[k]
  {
    assert ReadsBack(sdk, program, s, table, k);
  }

  /** Where replay on the table goes step by step, replay through an agreeing cache does too. */
  lemma {:induction false} ReplayFromCache(sdk: Sdk, program: Program, s: Attempt, table: Store, cache: Store,
                                           choices: seq<Choice>, k: nat)
    requires Reproducible(sdk, program, s, table) && Quiet(sdk, program, s, table, choices) && k <= |s.answers|
    requires Agrees(CachedAttempt(Midway(s, table, k), cache))
    ensures CachedRun(sdk, program, CachedAttempt(Midway(s, table, k), cache), choices[k..]).attempt
         == Attempt(table, s.answers, s.calls, [], s.status)
    decreases |s.answers| - k
  {
    var now := CachedAttempt(Midway(s, table, k), cache);
    CachedActRefines(sdk, program, now, choices[k]);
    CachedRunNext(sdk, program, now, choices, k);
    var next := CachedAct(sdk, program, now, choices[k]);
    if k < |s.answers| {
      ReplayAct(sdk, program, s, table, choices, k);
      QuietActSpoilsNothing(sdk, program, s, table, cache, choices, k);
      CacheStaysCurrentIff(sdk, program, now, choices[k]);
      assert next == CachedAttempt(Midway(s, table, k + 1), next.cache);
      ReplayFromCache(sdk, program, s, table, next.cache, choices, k + 1);
    } else {
      assert s.answers[..k] == s.answers && s.calls[..k] == s.calls;
      CachedRunStops(sdk, program, next, choices[k + 1..]);
    }
  }

  lemma ReproducibleReplaysThroughCache(sdk: Sdk, program: Program, s: Attempt, table: Store, launch: Launch)
    requires Reproducible(sdk, program, s, table) && Quiet(sdk, program, s, table, launch.choices)
    ensures ReplaysThroughCache(sdk, program, s, table, launch)
  {
    assert s.answers[..0] == [] && s.calls[..0] == [] && launch.choices[0..] == launch.choices;
    assert Opened(table, launch) == CachedAttempt(Midway(s, table, 0), Preloaded(table, launch.returned));
    ReplayFromCache(sdk, program, s, table, Preloaded(table, launch.returned), launch.choices, 0);
  }

  /** On the table after any further history of cached attempts, a quiet replay through a new context reproduces a
      cleanly completed attempt exactly when that table still holds its answers. */
  lemma ReplayReproducesThroughCacheIff(sdk: Sdk, program: Program, store: Store, last: Launch, more: seq<Launch>,
                                        replay: Launch)
    requires
      var s := Launched(sdk, program, store, last);
      && CompletesCleanly(s)
      && Quiet(sdk, program, s, CachedStoreAfter(sdk, program, s.store, more), replay.choices)
    ensures
      var s := Launched(sdk, program, store, last);
      var table := CachedStoreAfter(sdk, program, s.store, more);
      ReplaysThroughCache(sdk, program, s, table, replay) <==> AllHeld(s, table)
  {
    var s := Launched(sdk, program, store, last);
    var table := CachedStoreAfter(sdk, program, s.store, more);
    var effective := CleanIsDirect(sdk, program, store, last);
    AttemptExplained(sdk, program, store, effective);
    CachedHistoryPreserves(sdk, program, s.store, more);
    SleepsStayKept(sdk, program, s, effective, table);
    if AllHeld(s, table) {
      HeldIsReproducible(sdk, program, s, effective, table);
      ReproducibleReplaysThroughCache(sdk, program, s, table, replay);
    }
    if ReplaysThroughCache(sdk, program, s, table, replay) {
      var direct := CleanIsDirect(sdk, program, table, replay);
      forall i | 0 <= i < |s.answers|
        ensures Held(s, table, i)
      {
        ReplayReads(sdk, program, s, table, direct, i);
      }
    }
  }

  /** Attempts whose answers are permanent are reproduced on every later table: with the Python SDK always. */
  lemma ReplayIsTransparentThroughCache(sdk: Sdk, program: Program, store: Store, launches: seq<Launch>, last: Launch,
                                        more: seq<Launch>, replay: Launch)
    requires
      var s := Launched(sdk, program, CachedStoreAfter(sdk, program, store, launches), last);
      && CompletesCleanly(s) && Secure(sdk, program, s)
      && Quiet(sdk, program, s, CachedStoreAfter(sdk, program, s.store, more), replay.choices)
    ensures
      var s := Launched(sdk, program, CachedStoreAfter(sdk, program, store, launches), last);
      var table := CachedStoreAfter(sdk, program, s.store, more);
      && Evaluate(program, table, [], [], |s.answers|) == Some(s.status.result)
      && ReplaysThroughCache(sdk, program, s, table, replay)
  {
    var before := CachedStoreAfter(sdk, program, store, launches);
    var s := Launched(sdk, program, before, last);
    var table := CachedStoreAfter(sdk, program, s.store, more);
    var effective := CleanIsDirect(sdk, program, before, last);
    AttemptExplained(sdk, program, before, effective);
    CachedHistoryPreserves(sdk, program, s.store, more);
    SecureReplays(sdk, program, s, effective, table, replay.choices);
    SecureIsHeld(sdk, program, s, effective, table);
    ReplayReproducesThroughCacheIff(sdk, program, before, last, more, replay);
  }
}
