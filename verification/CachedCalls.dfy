/** What each call of an attempt through the cache does, told case by case from what the context sees. */
module CachedCalls {
  import opened Prelude
  import opened CheckpointNames
  import opened Replay
  import opened Transparency
  import opened CallOutcomes
  import opened TaskContext
  import opened CachedReplay
  import opened CachedSleeps

  /** The cache after a call: a failed lookup leaves it alone, an acknowledged write enters what was written, and
      any other lookup that finds something enters that. */
  ghost predicate CacheTold(sdk: Sdk, seen: Store, at: string, action: Action, c: Choice, before: Store, after: Store)
    requires action.Step? || IsSleep(action)
  {
    if c.lookupError.Some? then after == before
    else
      && (forall v :: Commits(sdk, seen, at, action, c, v) && c.persist.Acknowledged? ==> after == before[at := v])
      && (!c.persist.Acknowledged? || (forall v :: !Commits(sdk, seen, at, action, c, v)) ==>
            after == if at in seen then before[at := seen[at]] else before)
  }

  /** One action through the cache replies as the table would if it held what the context sees, and writes to the
      table itself. */
  lemma CachedPerformTold(sdk: Sdk, table: Store, cache: Store, at: string, action: Action, c: Choice)
    requires action.Step? || IsSleep(action)
    ensures
      var seen, effective := Seen(table, cache, at), Effective(c, at in cache);
      var p := CachedPerform(sdk, table, cache, at, action, c);
      && ReplyTold(sdk, seen, at, action, effective, p.outcome.reply, p.outcome.ran)
      && TableTold(sdk, seen, at, action, effective, table, p.outcome.store)
      && CacheTold(sdk, seen, at, action, effective, cache, p.cache)
  {
    var seen, effective := Seen(table, cache, at), Effective(c, at in cache);
    var o := Perform(sdk, seen, at, action, effective);
    PerformTold(sdk, seen, at, action, effective);
    forall v | Commits(sdk, seen, at, action, effective, v)
      ensures seen[at := v] != seen && seen[at := v] == table[at := v] && seen[at := v][at] == v
    {
      if at in seen { FalsyIff(seen[at]); }
    }
  }

  /** Call i of a cached attempt. */
  ghost predicate CachedCallTold(sdk: Sdk, program: Program, table: Store, launch: Launch, s: Attempt, i: nat)
    requires i < |s.calls| && i <= |s.answers| && i < |launch.choices|
  {
    var before, after := StateBefore(sdk, program, table, launch, i), StateBefore(sdk, program, table, launch, i + 1);
    var action, at := program(s.answers[..i]), NameAt(s.calls, i);
    var seen := Seen(before.attempt.store, before.cache, at);
    var c := Effective(launch.choices[i], at in before.cache);
    && (action.Step? || IsSleep(action)) && action.name == s.calls[i]
    && (after.attempt.ran == before.attempt.ran || after.attempt.ran == before.attempt.ran + [at])
    && ReplyTold(sdk, seen, at, action, c, ReplyAt(s, i), after.attempt.ran != before.attempt.ran)
    && TableTold(sdk, seen, at, action, c, before.attempt.store, after.attempt.store)
    && CacheTold(sdk, seen, at, action, c, before.cache, after.cache)
  }

  ghost predicate AllCachedCallsTold(sdk: Sdk, program: Program, table: Store, launch: Launch, s: Attempt) {
    && StatusTold(program, launch.choices, s)
    && forall i :: 0 <= i < |s.calls| ==> CachedCallTold(sdk, program, table, launch, s, i)
  }

  function Longer(launch: Launch, c: Choice): Launch {
    Launch(launch.returned, launch.choices + [c])
  }

  lemma SameBefore(sdk: Sdk, program: Program, table: Store, launch: Launch, c: Choice, i: nat)
    requires i <= |launch.choices|
    ensures StateBefore(sdk, program, table, Longer(launch, c), i) == StateBefore(sdk, program, table, launch, i)
  {
    assert Longer(launch, c).choices[..i] == launch.choices[..i];
  }

  lemma WholeRun(sdk: Sdk, program: Program, table: Store, launch: Launch)
    ensures StateBefore(sdk, program, table, launch, |launch.choices|).attempt == Launched(sdk, program, table, launch)
  {
    assert launch.choices[..|launch.choices|] == launch.choices;
  }

  lemma RecordStatus(program: Program, choices: seq<Choice>, s: Attempt, name: string, o: Outcome, c: Choice)
    requires s.status.Running? && StatusTold(program, choices, s)
    ensures StatusTold(program, choices + [c], Record(s, name, o))
    ensures |Record(s, name, o).calls| == |choices| + 1
  {
  }

  /** The new last call of a cached attempt. */
  lemma LastCachedCallTold(sdk: Sdk, program: Program, table: Store, launch: Launch, c: Choice)
    requires
      var s := Launched(sdk, program, table, launch);
      && s.status.Running? && StatusTold(program, launch.choices, s)
      && (program(s.answers).Step? || IsSleep(program(s.answers)))
    ensures
      var next := Launched(sdk, program, table, Longer(launch, c));
      && StatusTold(program, Longer(launch, c).choices, next) && Appends(Launched(sdk, program, table, launch), next)
      && |next.calls| == |launch.choices| + 1
      && CachedCallTold(sdk, program, table, Longer(launch, c), next, |launch.choices|)
  {
    var n, longer := |launch.choices|, Longer(launch, c);
    var before := StateBefore(sdk, program, table, launch, n);
    var s := before.attempt;
    WholeRun(sdk, program, table, launch);
    var action := program(s.answers);
    var at := NextName(s.calls, action.name);
    var p := CachedPerform(sdk, s.store, before.cache, at, action, c);
    var next := Record(s, action.name, p.outcome);
    WholeRun(sdk, program, table, longer);
    SameBefore(sdk, program, table, launch, c, n);
    NextState(sdk, program, table, longer, n);
    assert StateBefore(sdk, program, table, longer, n + 1) == CachedAttempt(next, p.cache);
    RecordAppends(s, action.name, p.outcome);
    RecordStatus(program, launch.choices, s, action.name, p.outcome, c);
    CachedPerformTold(sdk, s.store, before.cache, at, action, c);
    assert next.answers[..n] == s.answers;
  }

  lemma EarlierCachedCallTold(sdk: Sdk, program: Program, table: Store, launch: Launch, c: Choice, s: Attempt,
                              next: Attempt, i: nat)
    requires |s.answers| <= |s.calls| <= |launch.choices| && s.answers <= next.answers && s.calls <= next.calls
    requires i < |s.calls| && i <= |s.answers| && CachedCallTold(sdk, program, table, launch, s, i)
    requires NameAt(next.calls, i) == NameAt(s.calls, i) && ReplyAt(next, i) == ReplyAt(s, i)
    ensures CachedCallTold(sdk, program, table, Longer(launch, c), next, i)
  {
    SameBefore(sdk, program, table, launch, c, i);
    SameBefore(sdk, program, table, launch, c, i + 1);
    assert Longer(launch, c).choices[i] == launch.choices[i] && next.answers[..i] == s.answers[..i];
  }

  lemma LongerTold(sdk: Sdk, program: Program, table: Store, launch: Launch, c: Choice)
    requires AllCachedCallsTold(sdk, program, table, launch, Launched(sdk, program, table, launch))
    ensures AllCachedCallsTold(sdk, program, table, Longer(launch, c), Launched(sdk, program, table, Longer(launch, c)))
  {
    var s, next := Launched(sdk, program, table, launch), Launched(sdk, program, table, Longer(launch, c));
    CachedRunExtend(sdk, program, Opened(table, launch), launch.choices, c);
    assert Opened(table, Longer(launch, c)) == Opened(table, launch);
    if s.status.Running? && (program(s.answers).Step? || IsSleep(program(s.answers))) {
      LastCachedCallTold(sdk, program, table, launch, c);
    }
    forall i | 0 <= i < |s.calls|
      ensures CachedCallTold(sdk, program, table, Longer(launch, c), next, i)
    {
      EarlierCachedCallTold(sdk, program, table, launch, c, s, next, i);
    }
  }

  /** Everything an attempt through the cache does is told: for every body, table, preloaded rows and choices. */
  lemma {:induction false} CachedAttemptTold(sdk: Sdk, program: Program, table: Store, launch: Launch)
    ensures AllCachedCallsTold(sdk, program, table, launch, Launched(sdk, program, table, launch))
    decreases |launch.choices|
  {
    var choices := launch.choices;
    if choices != [] {
      var shorter, c := Launch(launch.returned, choices[..|choices| - 1]), choices[|choices| - 1];
      assert launch == Longer(shorter, c);
      CachedAttemptTold(sdk, program, table, shorter);
      LongerTold(sdk, program, table, shorter, c);
    }
  }

  /** A new context holds exactly the returned rows of the table. */
  lemma PreloadedTold(table: Store, returned: set<string>, checkpoint: string)
    ensures checkpoint in Preloaded(table, returned) <==> checkpoint in returned && checkpoint in table
    ensures checkpoint in Preloaded(table, returned) ==> Preloaded(table, returned)[checkpoint] == table[checkpoint]
  {
  }

  /** A history is its attempts one after another: the next one starts on the table that the ones before left. */
  lemma {:induction false} CachedHistoryTold(sdk: Sdk, program: Program, store: Store, launches: seq<Launch>,
                                             last: Launch)
    ensures
      var before := CachedStoreAfter(sdk, program, store, launches);
      var s := Launched(sdk, program, before, last);
      && CachedStoreAfter(sdk, program, store, launches + [last]) == s.store
      && CachedBodiesRun(sdk, program, store, launches + [last])
         == CachedBodiesRun(sdk, program, store, launches) + s.ran
    ensures CachedStoreAfter(sdk, program, store, []) == store && CachedBodiesRun(sdk, program, store, []) == []
    decreases |launches|
  {
    if launches == [] {
      assert [last][1..] == [];
    } else {
      var first, rest := Launched(sdk, program, store, launches[0]), launches[1..];
      assert (launches + [last])[1..] == rest + [last];
      CachedHistoryTold(sdk, program, first.store, rest, last);
    }
  }
}
