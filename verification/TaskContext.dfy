/** The task context of the TypeScript and Python SDKs: it numbers checkpoint names with a counter per
    step name and keeps a cache of checkpoint states in front of the durable table. */
module TaskContext {
  import opened Prelude
  import opened CheckpointNames
  import opened Replay

  /** The durable checkpoint table of one task. */
  class CheckpointTable {
    var rows: Store

    constructor (rows: Store)
      ensures this.rows == rows
    {
      this.rows := rows;
    }
  }

  /** The choice that a direct reader of the table would face: a lookup that the cache answers cannot fail. */
  function Effective(c: Choice, cached: bool): Choice {
    if cached then c.(lookupError := None) else c
  }

  /** The table as a context sees it at one checkpoint: a cached state hides the one in the table. */
  function Seen(table: Store, cache: Store, checkpoint: string): Store {
    if checkpoint in cache then table[checkpoint := cache[checkpoint]] else table
  }

  /** What one action through a cache does to the table and to the cache. */
  datatype CachedOutcome = CachedOutcome(outcome: Outcome, cache: Store)

  /** An action acts on what the context sees. The table changes where the action writes; the cache keeps what
      the lookup found, and what a write left once it is acknowledged. */
  function CachedPerform(sdk: Sdk, table: Store, cache: Store, checkpoint: string, action: Action,
                         c: Choice): CachedOutcome
    requires action.Step? || IsSleep(action)
  {
    var seen := Seen(table, cache, checkpoint);
    var o := Perform(sdk, seen, checkpoint, action, Effective(c, checkpoint in cache));
    var writes := c.persist.Acknowledged? && o.store != seen;
    CachedOutcome(
      o.(store := if o.store == seen then table else o.store),
      if checkpoint !in cache && c.lookupError.Some? then cache
      else if writes then cache[checkpoint := o.store[checkpoint]]
      else if checkpoint in seen then cache[checkpoint := seen[checkpoint]]
      else cache)
  }

  function SleepReply(sdk: Sdk, keep: bool, wake: Option<int>, c: Choice): Reply {
    if sdk.Python? && wake.None? then Answered(Raised("Invalid isoformat string"))
    else if !keep && !c.persist.Acknowledged? then Answered(Raised(c.persist.error))
    else if wake.Some? && wake.value > c.now then
      if c.scheduleError.Some? then Answered(Raised(c.scheduleError.value)) else Suspending
    else Answered(Woke)
  }

  lemma DirectSleep(sdk: Sdk, table: Store, at: string, wakeAt: int, c: Choice)
    requires c.lookupError.None?
    ensures
      var wake := if at in table then StoredWake(table[at], wakeAt) else Some(wakeAt);
      var keep := at in table && (sdk.Python? || Truthy(table[at]));
      SleepOutcome(sdk, table, at, wakeAt, c) ==
        Outcome(if (sdk.Python? && wake.None?) || keep then table else Written(table, at, Timestamp(wakeAt), c.persist),
                false, SleepReply(sdk, keep, wake, c))
  {
  }

  /** What a sleep through the cache does, once its lookup has succeeded. */
  lemma CachedSleep(sdk: Sdk, table: Store, cache: Store, at: string, name: string, wakeAt: int, c: Choice)
    requires at in cache || c.lookupError.None?
    ensures
      var seen := Seen(table, cache, at);
      var wake := if at in seen then StoredWake(seen[at], wakeAt) else Some(wakeAt);
      var keep := at in seen && (sdk.Python? || Truthy(seen[at]));
      var looked := if at in seen then cache[at := seen[at]] else cache;
      var reply := SleepReply(sdk, keep, wake, c);
      CachedPerform(sdk, table, cache, at, SleepUntil(name, wakeAt), c) ==
        if (sdk.Python? && wake.None?) || keep then CachedOutcome(Outcome(table, false, reply), looked)
        else CachedOutcome(
          Outcome(Written(table, at, Timestamp(wakeAt), c.persist), false, reply),
          if c.persist.Acknowledged? then looked[at := Timestamp(wakeAt)] else looked)
  {
    var seen, effective := Seen(table, cache, at), Effective(c, at in cache);
    DirectSleep(sdk, seen, at, wakeAt, effective);
    assert seen[at := Timestamp(wakeAt)] == table[at := Timestamp(wakeAt)];
    var o := Perform(sdk, seen, at, SleepUntil(name, wakeAt), effective);
    assert o == SleepOutcome(sdk, seen, at, wakeAt, effective);
    assert o.store == seen || o.store == seen[at := Timestamp(wakeAt)];
  }

  /** The cached checkpoints whose state in the table is another one. */
  function StaleIn(table: Store, cache: Store): set<string> {
    set checkpoint | checkpoint in cache && !(checkpoint in table && table[checkpoint] == cache[checkpoint])
  }

  /** The rows that the bulk query of a new context returns. */
  function Preloaded(table: Store, returned: set<string>): Store {
    map checkpoint | checkpoint in returned && checkpoint in table :: table[checkpoint]
  }

  datatype StepHandle =
    | Open(name: string, checkpointName: string)
    | Done(name: string, checkpointName: string, state: Json)

  class Context {
    const sdk: Sdk
    const table: CheckpointTable
    var stepNameCounter: map<string, nat>
    var checkpointCache: Store
    ghost var calls: seq<string>

    /** The counter counts the calls, and cached checkpoints are committed. */
    ghost predicate Valid()
      reads this, table
    {
      && (forall name :: Uses(calls, name) == if name in stepNameCounter then stepNameCounter[name] else 0)
      && checkpointCache.Keys <= table.rows.Keys
    }

    /** `TaskContext.create`: preloads the cache with the rows that the bulk query returns. */
    constructor (sdk: Sdk, table: CheckpointTable, returned: set<string>)
      ensures Valid() && this.sdk == sdk && this.table == table && calls == []
      ensures checkpointCache == Preloaded(table.rows, returned) && StaleIn(table.rows, checkpointCache) == {}
    {
      this.sdk := sdk;
      this.table := table;
      stepNameCounter := map[];
      checkpointCache := map checkpoint | checkpoint in returned && checkpoint in table.rows :: table.rows[checkpoint];
      calls := [];
    }

    method GetCheckpointName(name: string) returns (checkpointName: string)
      requires Valid()
      modifies this`stepNameCounter, this`calls
      ensures Valid() && calls == old(calls) + [name]
      ensures checkpointName == NextName(old(calls), name)
    {
      var count := (if name in stepNameCounter then stepNameCounter[name] else 0) + 1;
      stepNameCounter := stepNameCounter[name := count];
      calls := calls + [name];
      assert calls[..|calls| - 1] == old(calls);
      checkpointName := CheckpointName(name, count);
    }

    /** Answers from the cache when it can, otherwise by a query whose row is cached. */
    method LookupCheckpoint(checkpointName: string, queryError: Option<string>)
      returns (state: Result<Option<Json>, string>)
      requires Valid()
      modifies this`checkpointCache
      ensures Valid()
      ensures
        var seen := Seen(table.rows, old(checkpointCache), checkpointName);
        if checkpointName !in old(checkpointCache) && queryError.Some? then
          state == Err(queryError.value) && checkpointCache == old(checkpointCache)
        else if checkpointName in seen then
          state == Ok(Some(seen[checkpointName])) &&
          checkpointCache == old(checkpointCache)[checkpointName := seen[checkpointName]]
        else
          state == Ok(None) && checkpointCache == old(checkpointCache)
      ensures StaleIn(table.rows, checkpointCache) == old(StaleIn(table.rows, checkpointCache))
    {
      if checkpointName in checkpointCache {
        assert checkpointCache[checkpointName := checkpointCache[checkpointName]] == checkpointCache;
        return Ok(Some(checkpointCache[checkpointName]));
      }
      if queryError.Some? {
        return Err(queryError.value);
      }
      if checkpointName in table.rows {
        checkpointCache := checkpointCache[checkpointName := table.rows[checkpointName]];
        return Ok(Some(table.rows[checkpointName]));
      }
      return Ok(None);
    }

    /** Writes through: the cache changes only after the table has acknowledged. The name goes stale exactly
        when it was cached with another value and the write landed without being acknowledged. */
    method PersistCheckpoint(checkpointName: string, value: Json, persist: Persist) returns (failure: Option<string>)
      requires Valid()
      modifies table, this`checkpointCache
      ensures Valid()
      ensures table.rows == Written(old(table.rows), checkpointName, value, persist)
      ensures checkpointCache ==
        if persist.Acknowledged? then old(checkpointCache)[checkpointName := value] else old(checkpointCache)
      ensures failure == if persist.Acknowledged? then None else Some(persist.error)
      ensures
        var before, after := old(StaleIn(table.rows, checkpointCache)), StaleIn(table.rows, checkpointCache);
        && after - {checkpointName} == before - {checkpointName}
        && (checkpointName in after <==>
              || (persist.Refused? && checkpointName in before)
              || (persist.Unacknowledged? && checkpointName in old(checkpointCache) &&
                  old(checkpointCache)[checkpointName] != value))
    {
      table.rows := Written(table.rows, checkpointName, value, persist);
      if !persist.Acknowledged? {
        return Some(persist.error);
      }
      checkpointCache := checkpointCache[checkpointName := value];
      return None;
    }

    method BeginStep(name: string, c: Choice) returns (handle: Result<StepHandle, string>)
      requires Valid()
      modifies this`stepNameCounter, this`calls, this`checkpointCache
      ensures Valid() && calls == old(calls) + [name]
      ensures
        var checkpointName := NextName(old(calls), name);
        var seen := Seen(table.rows, old(checkpointCache), checkpointName);
        if checkpointName !in old(checkpointCache) && c.lookupError.Some? then
          handle == Err(c.lookupError.value) && checkpointCache == old(checkpointCache)
        else if checkpointName in seen then
          handle == Ok(Done(name, checkpointName, seen[checkpointName])) &&
          checkpointCache == old(checkpointCache)[checkpointName := seen[checkpointName]]
        else
          handle == Ok(Open(name, checkpointName)) && checkpointCache == old(checkpointCache)
    {
      var checkpointName := GetCheckpointName(name);
      var state := LookupCheckpoint(checkpointName, c.lookupError);
      match state
      case Err(e) => handle := Err(e);
      case Ok(Some(v)) => handle := Ok(Done(name, checkpointName, v));
      case Ok(None) => handle := Ok(Open(name, checkpointName));
    }

    method CompleteStep(handle: StepHandle, value: Json, persist: Persist) returns (result: Result<Json, string>)
      requires Valid()
      modifies table, this`checkpointCache
      ensures Valid()
      ensures table.rows ==
        if handle.Done? then old(table.rows) else Written(old(table.rows), handle.checkpointName, value, persist)
      ensures checkpointCache ==
        if handle.Done? || !persist.Acknowledged? then old(checkpointCache)
        else old(checkpointCache)[handle.checkpointName := value]
      ensures result ==
        if handle.Done? then Ok(handle.state) else if persist.Acknowledged? then Ok(value) else Err(persist.error)
      ensures handle.Open? && handle.checkpointName !in old(checkpointCache) ==>
        StaleIn(table.rows, checkpointCache) == old(StaleIn(table.rows, checkpointCache))
    {
      if handle.Done? {
        return Ok(handle.state);
      }
      var failure := PersistCheckpoint(handle.checkpointName, value, persist);
      return if failure.None? then Ok(value) else Err(failure.value);
    }

    /** A step through the cache. */
    method Step(name: string, c: Choice) returns (ran: bool, reply: Reply)
      requires Valid()
      modifies table, this`stepNameCounter, this`calls, this`checkpointCache
      ensures Valid() && calls == old(calls) + [name]
      ensures CachedOutcome(Outcome(table.rows, ran, reply), checkpointCache) ==
        CachedPerform(sdk, old(table.rows), old(checkpointCache), NextName(old(calls), name), Replay.Step(name), c)
    {
      ran := false;
      var begun := BeginStep(name, c);
      if begun.Err? {
        return false, Answered(Raised(begun.error));
      }
      if begun.value.Done? {
        return false, Answered(Got(begun.value.state));
      }
      ran := true;
      match c.body
      case Throws(e) => reply := Answered(Raised(e));
      case Returns(v) =>
        var result := CompleteStep(begun.value, v, c.persist);
        reply := Answered(if result.Ok? then Got(result.value) else Raised(result.error));
    }

    /** A sleep through the cache. */
    method Sleep(name: string, wakeAt: int, c: Choice) returns (reply: Reply)
      requires Valid()
      modifies table, this`stepNameCounter, this`calls, this`checkpointCache
      ensures Valid() && calls == old(calls) + [name]
      ensures CachedOutcome(Outcome(table.rows, false, reply), checkpointCache) ==
        CachedPerform(sdk, old(table.rows), old(checkpointCache), NextName(old(calls), name),
                      SleepUntil(name, wakeAt), c)
    {
      var checkpointName := GetCheckpointName(name);
      var looked := LookupCheckpoint(checkpointName, c.lookupError);
      if looked.Err? {
        return Answered(Raised(looked.error));
      }
      CachedSleep(sdk, old(table.rows), old(checkpointCache), checkpointName, name, wakeAt, c);
      var state := looked.value;
      var actualWakeAt := if state.Some? then StoredWake(state.value, wakeAt) else Some(wakeAt);
      if sdk.Python? && actualWakeAt.None? {
        return Answered(Raised("Invalid isoformat string"));
      }
      if state.None? || (sdk.TypeScript? && !Truthy(state.value)) {
        var failure := PersistCheckpoint(checkpointName, Timestamp(wakeAt), c.persist);
        if failure.Some? {
          return Answered(Raised(failure.value));
        }
      }
      if actualWakeAt.Some? && actualWakeAt.value > c.now {
        if c.scheduleError.Some? {
          return Answered(Raised(c.scheduleError.value));
        }
        return Suspending;
      }
      return Answered(Woke);
    }
  }

  // ----- Whole attempts through the cache -----

  datatype CachedAttempt = CachedAttempt(attempt: Attempt, cache: Store)

  function CachedAct(sdk: Sdk, program: Program, s: CachedAttempt, c: Choice): CachedAttempt {
    var action := program(s.attempt.answers);
    match action
    case Return(r) => s.(attempt := s.attempt.(status := Completed(r)))
    case Throw(e) => s.(attempt := s.attempt.(status := Failed(e)))
    case _ =>
      var checkpoint := NextName(s.attempt.calls, action.name);
      var o := CachedPerform(sdk, s.attempt.store, s.cache, checkpoint, action, c);
      CachedAttempt(Record(s.attempt, action.name, o.outcome), o.cache)
  }

  function CachedRun(sdk: Sdk, program: Program, s: CachedAttempt, choices: seq<Choice>): CachedAttempt
    decreases |choices|
  {
    if choices == [] || !s.attempt.status.Running? then s
    else CachedRun(sdk, program, CachedAct(sdk, program, s, choices[0]), choices[1..])
  }

  lemma CachedRunNext(sdk: Sdk, program: Program, s: CachedAttempt, choices: seq<Choice>, k: nat)
    requires k < |choices| && s.attempt.status.Running?
    ensures CachedRun(sdk, program, s, choices[k..])
         == CachedRun(sdk, program, CachedAct(sdk, program, s, choices[k]), choices[k + 1..])
  {
    assert choices[k..][0] == choices[k] && choices[k..][1..] == choices[k + 1..];
  }

  lemma CachedRunStops(sdk: Sdk, program: Program, s: CachedAttempt, choices: seq<Choice>)
    requires choices == [] || !s.attempt.status.Running?
    ensures CachedRun(sdk, program, s, choices) == s
  {
  }

  /** An attempt through a context whose cache was preloaded with the returned rows. */
  function RunThroughCache(sdk: Sdk, program: Program, table: Store, returned: set<string>,
                           choices: seq<Choice>): Attempt {
    CachedRun(sdk, program, CachedAttempt(Start(table), Preloaded(table, returned)), choices).attempt
  }

  /** One step or sleep, carried out by the context. */
  method Carry(context: Context, action: Action, c: Choice) returns (outcome: Outcome)
    requires context.Valid() && (action.Step? || IsSleep(action))
    modifies context, context.table
    ensures context.Valid() && context.calls == old(context.calls) + [action.name]
    ensures outcome.store == context.table.rows
    ensures CachedOutcome(outcome, context.checkpointCache) ==
      CachedPerform(context.sdk, old(context.table.rows), old(context.checkpointCache),
                    NextName(old(context.calls), action.name), action, c)
  {
    var ran, reply := false, Suspending;
    match action {
      case Step(name) => ran, reply := context.Step(name, c);
      case SleepUntil(name, wakeAt) => reply := context.Sleep(name, wakeAt, c);
      case SleepFor(name, duration) => reply := context.Sleep(name, c.calledAt + duration, c);
    }
    outcome := Outcome(context.table.rows, ran, reply);
  }

  /** One action of the body, carried out by the context. */
  method PerformAction(context: Context, program: Program, attempt: Attempt, c: Choice) returns (next: Attempt)
    requires context.Valid() && attempt.calls == context.calls && attempt.store == context.table.rows
    requires attempt.status.Running?
    modifies context, context.table
    ensures context.Valid()
    ensures CachedAttempt(next, context.checkpointCache) ==
      CachedAct(context.sdk, program, CachedAttempt(attempt, old(context.checkpointCache)), c)
    ensures next.store == context.table.rows && (next.status.Running? ==> next.calls == context.calls)
  {
    var action := program(attempt.answers);
    if action.Return? {
      next := attempt.(status := Completed(action.result));
    } else if action.Throw? {
      next := attempt.(status := Failed(action.error));
    } else {
      var outcome := Carry(context, action, c);
      next := Record(attempt, action.name, outcome);
    }
  }

  /** Runs a task body through a context. */
  method ExecuteTask(sdk: Sdk, program: Program, table: CheckpointTable, returned: set<string>, choices: seq<Choice>)
    returns (attempt: Attempt)
    modifies table
    ensures attempt == RunThroughCache(sdk, program, old(table.rows), returned, choices)
    ensures attempt.store == table.rows
  {
    var context := new Context(sdk, table, returned);
    attempt := Start(table.rows);
    ghost var start := CachedAttempt(attempt, context.checkpointCache);
    var k := 0;
    assert choices[0..] == choices;
    while k < |choices| && attempt.status.Running?
      invariant context.Valid() && context.table == table && context.sdk == sdk && fresh(context)
      invariant 0 <= k <= |choices|
      invariant attempt.store == table.rows && (attempt.status.Running? ==> attempt.calls == context.calls)
      invariant CachedRun(sdk, program, start, choices)
             == CachedRun(sdk, program, CachedAttempt(attempt, context.checkpointCache), choices[k..])
      decreases |choices| - k
    {
      CachedRunNext(sdk, program, CachedAttempt(attempt, context.checkpointCache), choices, k);
      attempt := PerformAction(context, program, attempt, choices[k]);
      k := k + 1;
    }
    CachedRunStops(sdk, program, CachedAttempt(attempt, context.checkpointCache), choices[k..]);
  }
}
