/** The in-memory task store for tests. Spawning runs the task's handler at once, and the handler may
    itself spawn, rerun and clear. What a handler does when it runs is given by a finite script. */
module TestTaskStore {
  import opened Prelude
  import opened Decimal

  datatype Request = Request(queue: string, name: string, key: Option<string>, payload: string)

  datatype Status = Pending | Running | Completed(value: string) | Failed(message: string)

  datatype Entry = Entry(id: string, request: Request, status: Status)

  datatype Script = Script(calls: seq<Call>, exit: Result<string, string>)

  datatype Call = Spawning(request: Request, script: Script) | Rerunning(id: string, script: Script) | Clearing

  /** The two tables and the id counter. */
  datatype Tables = Tables(byId: map<string, Entry>, byIdempotencyKey: map<string, string>, nextId: nat)

  const EMPTY := Tables(map[], map[], 1)

  /** A handler that calls nothing. */
  const NOTHING := Script([], Ok(""))

  function TaskId(n: nat): string {
    "test-task-" + Numeral(n)
  }

  function HandlerName(queue: string, name: string): string {
    queue + ":" + name
  }

  function KeyString(queue: string, name: string, key: string): string {
    queue + ":" + name + ":" + key
  }

  function SetStatus(t: Tables, id: string, status: Status): Tables {
    if id in t.byId then t.(byId := t.byId[id := t.byId[id].(status := status)]) else t
  }

  function ExitStatus(exit: Result<string, string>): Status {
    match exit
    case Ok(value) => Completed(value)
    case Err(message) => Failed(message)
  }

  // ----- What the operations do -----

  /** A new entry under the next id, indexed by its key if it has one. */
  function Entered(t: Tables, r: Request): Tables {
    var id := TaskId(t.nextId);
    Tables(
      t.byId[id := Entry(id, r, Pending)],
      if r.key.Some? then t.byIdempotencyKey[KeyString(r.queue, r.name, r.key.value) := id] else t.byIdempotencyKey,
      t.nextId + 1)
  }

  function AfterSpawn(handlers: set<string>, t: Tables, r: Request, script: Script): (Tables, string)
    decreases script, |script.calls| + 2
  {
    if r.key.Some? && KeyString(r.queue, r.name, r.key.value) in t.byIdempotencyKey then
      (t, t.byIdempotencyKey[KeyString(r.queue, r.name, r.key.value)])
    else
      (AfterRun(handlers, Entered(t, r), TaskId(t.nextId), r, script), TaskId(t.nextId))
  }

  function AfterRun(handlers: set<string>, t: Tables, id: string, r: Request, script: Script): Tables
    decreases script, |script.calls| + 1
  {
    if HandlerName(r.queue, r.name) !in handlers then t
    else
      var called := AfterCalls(handlers, SetStatus(t, id, Running), script, 0);
      SetStatus(called, id, ExitStatus(script.exit))
  }

  /** The calls of a script from the k-th on. */
  function AfterCalls(handlers: set<string>, t: Tables, script: Script, k: nat): Tables
    decreases script, if k <= |script.calls| then |script.calls| - k else 0
  {
    if k >= |script.calls| then t
    else
      var next :=
        match script.calls[k]
        case Spawning(request, inner) => AfterSpawn(handlers, t, request, inner).0
        case Rerunning(id, inner) => if id in t.byId then AfterRun(handlers, t, id, t.byId[id].request, inner) else t
        case Clearing => Tables(map[], map[], t.nextId);
      AfterCalls(handlers, next, script, k + 1)
  }

  class Store {
    const handlers: set<string>
    var byId: map<string, Entry>
    var byIdempotencyKey: map<string, string>
    var nextId: nat

    function View(): Tables
      reads this
    {
      Tables(byId, byIdempotencyKey, nextId)
    }

    constructor (handlers: set<string>)
      ensures this.handlers == handlers && View() == EMPTY
    {
      this.handlers := handlers;
      byId, byIdempotencyKey, nextId := map[], map[], 1;
    }

    method Spawn(r: Request, script: Script) returns (id: string)
      modifies this
      ensures (View(), id) == AfterSpawn(handlers, old(View()), r, script)
      decreases script, |script.calls| + 2
    {
      if r.key.Some? {
        var keyString := KeyString(r.queue, r.name, r.key.value);
        if keyString in byIdempotencyKey {
          return byIdempotencyKey[keyString];
        }
      }
      id := TaskId(nextId);
      nextId := nextId + 1;
      byId := byId[id := Entry(id, r, Pending)];
      if r.key.Some? {
        byIdempotencyKey := byIdempotencyKey[KeyString(r.queue, r.name, r.key.value) := id];
      }
      Run(id, r, script);
    }

    method Run(id: string, r: Request, script: Script)
      modifies this
      ensures View() == AfterRun(handlers, old(View()), id, r, script)
      decreases script, |script.calls| + 1
    {
      if HandlerName(r.queue, r.name) !in handlers {
        return;
      }
      if id in byId {
        byId := byId[id := byId[id].(status := Running)];
      }
      ghost var started := View();
      var k := 0;
      while k < |script.calls|
        invariant 0 <= k <= |script.calls|
        invariant AfterCalls(handlers, started, script, 0) == AfterCalls(handlers, View(), script, k)
        decreases |script.calls| - k
      {
        match script.calls[k] {
          case Spawning(request, inner) => var _ := Spawn(request, inner);
          case Rerunning(task, inner) => var _ := Rerun(task, inner);
          case Clearing => Clear();
        }
        k := k + 1;
      }
      if id in byId {
        byId := byId[id := byId[id].(status := ExitStatus(script.exit))];
      }
    }

    method Rerun(id: string, script: Script) returns (found: bool)
      modifies this
      ensures found == (id in old(byId))
      ensures View() ==
        if found then AfterRun(handlers, old(View()), id, old(byId)[id].request, script) else old(View())
      decreases script, |script.calls| + 2
    {
      if id !in byId {
        return false;
      }
      Run(id, byId[id].request, script);
      return true;
    }

    method Clear()
      modifies this
      ensures View() == Tables(map[], map[], old(nextId))
    {
      byId := map[];
      byIdempotencyKey := map[];
    }
  }

  // ----- The tables agree -----

  function EntryKey(r: Request): Option<string> {
    if r.key.Some? then Some(KeyString(r.queue, r.name, r.key.value)) else None
  }

  /** Ids are those handed out so far; the key index and the entries with a key point at each other. */
  ghost predicate Consistent(t: Tables) {
    && (forall id :: id in t.byId ==> t.byId[id].id == id && exists n: nat :: n < t.nextId && id == TaskId(n))
    && (forall keyString :: keyString in t.byIdempotencyKey ==>
          t.byIdempotencyKey[keyString] in t.byId &&
          EntryKey(t.byId[t.byIdempotencyKey[keyString]].request) == Some(keyString))
    && (forall id :: id in t.byId && t.byId[id].request.key.Some? ==>
          var keyString := EntryKey(t.byId[id].request).value;
          keyString in t.byIdempotencyKey && t.byIdempotencyKey[keyString] == id)
  }

  /** What one stretch of operations may change. */
  ghost predicate Continues(t: Tables, next: Tables) {
    && t.nextId <= next.nextId
    // An id handed out before never comes back once it is gone, and its entry keeps its request.
    && (forall n: nat :: n < t.nextId && TaskId(n) in next.byId ==>
          TaskId(n) in t.byId && next.byId[TaskId(n)].request == t.byId[TaskId(n)].request)
  }

  /** As long as nothing is cleared, entries stay and keys keep their ids. */
  ghost predicate Extends(t: Tables, next: Tables) {
    && (forall id :: id in t.byId ==> id in next.byId && next.byId[id].request == t.byId[id].request)
    && (forall keyString :: keyString in t.byIdempotencyKey ==>
          keyString in next.byIdempotencyKey && next.byIdempotencyKey[keyString] == t.byIdempotencyKey[keyString])
  }

  /** What the key strings of a queue and name start with. */
  function Stem(queue: string, name: string): string {
    queue + ":" + name + ":"
  }

  /** Two queues and names are told apart unless they differ and one stem starts the other. */
  predicate ToldApart(r: Request, other: Request) {
    var mine, theirs := Stem(r.queue, r.name), Stem(other.queue, other.name);
    mine <= theirs || theirs <= mine ==> r.queue == other.queue && r.name == other.name
  }

  ghost predicate EntriesToldApart(r: Request, t: Tables) {
    forall id :: id in t.byId ==> ToldApart(r, t.byId[id].request)
  }

  /** Every request of a script, however deep, is told apart from a given one. */
  predicate ScriptToldApart(r: Request, script: Script) {
    forall i :: 0 <= i < |script.calls| ==>
      match script.calls[i]
      case Spawning(other, inner) => ToldApart(r, other) && ScriptToldApart(r, inner)
      case Rerunning(_, inner) => ScriptToldApart(r, inner)
      case Clearing => true
  }

  predicate NoClear(script: Script) {
    forall i :: 0 <= i < |script.calls| ==>
      match script.calls[i]
      case Spawning(_, inner) => NoClear(inner)
      case Rerunning(_, inner) => NoClear(inner)
      case Clearing => false
  }

  lemma TaskIdInjective(m: nat, n: nat)
    requires TaskId(m) == TaskId(n)
    ensures m == n
  {
    assert TaskId(m)[10..] == Numeral(m) && TaskId(n)[10..] == Numeral(n);
    NumeralInjective(m, n);
  }

  lemma StatusKeeps(t: Tables, id: string, status: Status)
    requires Consistent(t)
    ensures
      var next := SetStatus(t, id, status);
      Consistent(next) && Continues(t, next) && Extends(t, next) && next.nextId == t.nextId
  {
  }

  lemma NextIdIsFresh(t: Tables)
    requires Consistent(t)
    ensures TaskId(t.nextId) !in t.byId && forall n: nat :: n < t.nextId ==> TaskId(n) != TaskId(t.nextId)
  {
    forall n: nat | n < t.nextId
      ensures TaskId(n) != TaskId(t.nextId)
    {
      if TaskId(n) == TaskId(t.nextId) { TaskIdInjective(n, t.nextId); }
    }
  }

  lemma EntryIsConsistent(t: Tables, r: Request)
    requires Consistent(t) && (r.key.Some? ==> EntryKey(r).value !in t.byIdempotencyKey)
    requires TaskId(t.nextId) !in t.byId
    ensures Consistent(Entered(t, r))
  {
  }

  lemma EntryKeeps(t: Tables, r: Request)
    requires Consistent(t) && (r.key.Some? ==> EntryKey(r).value !in t.byIdempotencyKey)
    ensures
      var next := Entered(t, r);
      TaskId(t.nextId) !in t.byId && Consistent(next) && Continues(t, next) && Extends(t, next)
  {
    NextIdIsFresh(t);
    EntryIsConsistent(t, r);
  }

  lemma {:induction false} SpawnKeeps(handlers: set<string>, t: Tables, r: Request, script: Script)
    requires Consistent(t)
    ensures
      var (next, id) := AfterSpawn(handlers, t, r, script);
      Consistent(next) && Continues(t, next) && (NoClear(script) ==> Extends(t, next))
    decreases script, |script.calls| + 2
  {
    if r.key.None? || EntryKey(r).value !in t.byIdempotencyKey {
      EntryKeeps(t, r);
      RunKeeps(handlers, Entered(t, r), TaskId(t.nextId), r, script);

    }
  }

  lemma {:induction false} RunKeeps(handlers: set<string>, t: Tables, id: string, r: Request, script: Script)
    requires Consistent(t)
    ensures
      var next := AfterRun(handlers, t, id, r, script);
      Consistent(next) && Continues(t, next) && (NoClear(script) ==> Extends(t, next))
    decreases script, |script.calls| + 1
  {
    if HandlerName(r.queue, r.name) in handlers {
      var running := SetStatus(t, id, Running);
      StatusKeeps(t, id, Running);
      CallsKeep(handlers, running, script, 0);
      StatusKeeps(AfterCalls(handlers, running, script, 0), id, ExitStatus(script.exit));
    }
  }

  /** Over any sequence of operations, nested as deeply as handlers like, the tables stay consistent, no id
      is handed out twice, and without a clear nothing that was entered is lost. */
  lemma {:induction false} CallsKeep(handlers: set<string>, t: Tables, script: Script, k: nat)
    requires Consistent(t)
    ensures
      var next := AfterCalls(handlers, t, script, k);
      Consistent(next) && Continues(t, next) && (NoClear(script) ==> Extends(t, next))
    decreases script, if k <= |script.calls| then |script.calls| - k else 0
  {
    if k < |script.calls| {
      match script.calls[k]
      case Spawning(request, inner) =>
        SpawnKeeps(handlers, t, request, inner);
        CallsKeep(handlers, AfterSpawn(handlers, t, request, inner).0, script, k + 1);
      case Rerunning(id, inner) =>
        var next := if id in t.byId then AfterRun(handlers, t, id, t.byId[id].request, inner) else t;
        if id in t.byId { RunKeeps(handlers, t, id, t.byId[id].request, inner); }
        CallsKeep(handlers, next, script, k + 1);
      case Clearing =>
        CallsKeep(handlers, Tables(map[], map[], t.nextId), script, k + 1);
    }
  }

  /** Queues and names of entries come from the requests made. */
  lemma {:induction false} StaysToldApart(r: Request, handlers: set<string>, t: Tables, script: Script, k: nat)
    requires EntriesToldApart(r, t) && ScriptToldApart(r, script)
    ensures EntriesToldApart(r, AfterCalls(handlers, t, script, k))
    decreases script, if k <= |script.calls| then |script.calls| - k else 0
  {
    if k < |script.calls| {
      match script.calls[k]
      case Spawning(request, inner) =>
        StaysToldApart(r, handlers, SetStatus(Entered(t, request), TaskId(t.nextId), Running), inner, 0);
        assert EntriesToldApart(r, AfterRun(handlers, Entered(t, request), TaskId(t.nextId), request, inner));
        StaysToldApart(r, handlers, AfterSpawn(handlers, t, request, inner).0, script, k + 1);
      case Rerunning(id, inner) =>
        StaysToldApart(r, handlers, SetStatus(t, id, Running), inner, 0);
        var next := if id in t.byId then AfterRun(handlers, t, id, t.byId[id].request, inner) else t;
        StaysToldApart(r, handlers, next, script, k + 1);
      case Clearing =>
        StaysToldApart(r, handlers, Tables(map[], map[], t.nextId), script, k + 1);
    }
  }

  /** At most one live entry has a given queue, name and idempotency key. */
  lemma OneEntryPerKey(handlers: set<string>, script: Script, a: string, b: string)
    requires
      var t := AfterCalls(handlers, EMPTY, script, 0);
      && a in t.byId && b in t.byId && t.byId[a].request.key.Some?
      && t.byId[a].request.queue == t.byId[b].request.queue && t.byId[a].request.name == t.byId[b].request.name
      && t.byId[a].request.key == t.byId[b].request.key
    ensures a == b
  {
    CallsKeep(handlers, EMPTY, script, 0);
  }

  /** A keyed spawn leaves its key in the index, pointing at the id it returned. */
  lemma SpawnIndexesKey(handlers: set<string>, t: Tables, r: Request, script: Script)
    requires Consistent(t) && r.key.Some? && NoClear(script)
    ensures
      var (spawned, id) := AfterSpawn(handlers, t, r, script);
      Consistent(spawned) && EntryKey(r).value in spawned.byIdempotencyKey &&
      spawned.byIdempotencyKey[EntryKey(r).value] == id
  {
    SpawnKeeps(handlers, t, r, script);
    if EntryKey(r).value !in t.byIdempotencyKey {
      EntryKeeps(t, r);
      RunKeeps(handlers, Entered(t, r), TaskId(t.nextId), r, script);
    }
  }

  /** Until a clear, spawning with an equal key returns the same id and changes nothing. */
  lemma SpawnIsIdempotent(handlers: set<string>, t: Tables, r: Request, script: Script, between: Script,
                          again: Request, rerun: Script)
    requires Consistent(t) && r.key.Some? && NoClear(script) && NoClear(between)
    requires again.queue == r.queue && again.name == r.name && again.key == r.key
    ensures
      var (spawned, id) := AfterSpawn(handlers, t, r, script);
      var later := AfterCalls(handlers, spawned, between, 0);
      AfterSpawn(handlers, later, again, rerun) == (later, id)
  {
    SpawnIndexesKey(handlers, t, r, script);
    CallsKeep(handlers, AfterSpawn(handlers, t, r, script).0, between, 0);
  }

  /** A spawn that enters a task uses an id that no earlier spawn of the history returned. */
  lemma NewIdsAreNew(handlers: set<string>, t: Tables, r: Request, script: Script, n: nat)
    requires Consistent(t) && n < t.nextId
    requires r.key.Some? ==> EntryKey(r).value !in t.byIdempotencyKey
    ensures AfterSpawn(handlers, t, r, script).1 != TaskId(n)
    ensures AfterSpawn(handlers, t, r, script).0.nextId > t.nextId
  {
    if TaskId(t.nextId) == TaskId(n) { TaskIdInjective(t.nextId, n); }
    EntryKeeps(t, r);
    RunKeeps(handlers, Entered(t, r), TaskId(t.nextId), r, script);
  }

  // ----- Statuses -----

  /** An entry is pending exactly when it has no handler, and running only while its handler is. */
  predicate EntrySettled(handlers: set<string>, entry: Entry, active: set<string>) {
    && (entry.status.Pending? <==> HandlerName(entry.request.queue, entry.request.name) !in handlers)
    && (entry.status.Running? ==> entry.id in active)
  }

  ghost predicate Settled(handlers: set<string>, t: Tables, active: set<string>) {
    && Consistent(t)
    && forall id :: id in t.byId ==> EntrySettled(handlers, t.byId[id], active)
  }

  lemma StartSettles(handlers: set<string>, t: Tables, id: string, active: set<string>)
    requires Consistent(t) && id in t.byId
    requires HandlerName(t.byId[id].request.queue, t.byId[id].request.name) in handlers
    requires forall other :: other in t.byId && other != id ==> EntrySettled(handlers, t.byId[other], active)
    ensures Settled(handlers, SetStatus(t, id, Running), active + {id})
  {
    StatusKeeps(t, id, Running);
  }

  lemma FinishSettles(handlers: set<string>, t: Tables, id: string, exit: Result<string, string>, active: set<string>)
    requires Settled(handlers, t, active + {id})
    requires id in t.byId ==> HandlerName(t.byId[id].request.queue, t.byId[id].request.name) in handlers
    ensures Settled(handlers, SetStatus(t, id, ExitStatus(exit)), active)
  {
    StatusKeeps(t, id, ExitStatus(exit));
    var next := SetStatus(t, id, ExitStatus(exit));
    forall other | other in next.byId
      ensures EntrySettled(handlers, next.byId[other], active)
    {
      assert EntrySettled(handlers, t.byId[other], active + {id});
    }
  }

  /** An entry keeps its request over any calls. */
  lemma RequestStays(handlers: set<string>, t: Tables, id: string, script: Script)
    requires Consistent(t) && id in t.byId
    ensures
      var called := AfterCalls(handlers, t, script, 0);
      id in called.byId ==> called.byId[id].request == t.byId[id].request
  {
    CallsKeep(handlers, t, script, 0);
  }

  lemma {:induction false} RunSettles(handlers: set<string>, t: Tables, id: string, r: Request, script: Script,
                                      active: set<string>)
    requires Consistent(t) && id in t.byId && t.byId[id].request == r
    requires forall other :: other in t.byId && other != id ==> EntrySettled(handlers, t.byId[other], active)
    requires t.byId[id].status.Pending? || EntrySettled(handlers, t.byId[id], active)
    ensures Settled(handlers, AfterRun(handlers, t, id, r, script), active)
    decreases script, |script.calls| + 1
  {
    if HandlerName(r.queue, r.name) in handlers {
      var running := SetStatus(t, id, Running);
      StartSettles(handlers, t, id, active);
      CallsSettle(handlers, running, script, 0, active + {id});
      RequestStays(handlers, running, id, script);
      FinishSettles(handlers, AfterCalls(handlers, running, script, 0), id, script.exit, active);
    }
  }

  lemma {:induction false} SpawnSettles(handlers: set<string>, t: Tables, r: Request, script: Script,
                                        active: set<string>)
    requires Settled(handlers, t, active)
    ensures Settled(handlers, AfterSpawn(handlers, t, r, script).0, active)
    decreases script, |script.calls| + 2
  {
    if r.key.None? || EntryKey(r).value !in t.byIdempotencyKey {
      EntryKeeps(t, r);
      RunSettles(handlers, Entered(t, r), TaskId(t.nextId), r, script, active);
    }
  }

  /** However handlers nest their calls, only the tasks whose handlers are still under way are running. */
  lemma {:induction false} CallsSettle(handlers: set<string>, t: Tables, script: Script, k: nat, active: set<string>)
    requires Settled(handlers, t, active)
    ensures Settled(handlers, AfterCalls(handlers, t, script, k), active)
    decreases script, if k <= |script.calls| then |script.calls| - k else 0
  {
    if k < |script.calls| {
      match script.calls[k]
      case Spawning(request, inner) =>
        SpawnSettles(handlers, t, request, inner, active);
        CallsSettle(handlers, AfterSpawn(handlers, t, request, inner).0, script, k + 1, active);
      case Rerunning(id, inner) =>
        var next := if id in t.byId then AfterRun(handlers, t, id, t.byId[id].request, inner) else t;
        if id in t.byId { RunSettles(handlers, t, id, t.byId[id].request, inner, active); }
        CallsSettle(handlers, next, script, k + 1, active);
      case Clearing =>
        CallsSettle(handlers, Tables(map[], map[], t.nextId), script, k + 1, active);
    }
  }

  /** After any history each task with a handler has completed or failed, the others are pending, and the
      status a rerun leaves is the exit of that very run. */
  lemma StatusesSettle(handlers: set<string>, history: Script, id: string, script: Script)
    ensures
      var t := AfterCalls(handlers, EMPTY, history, 0);
      && Settled(handlers, t, {})
      && (id in t.byId && HandlerName(t.byId[id].request.queue, t.byId[id].request.name) in handlers ==>
            var next := AfterRun(handlers, t, id, t.byId[id].request, script);
            id in next.byId ==> next.byId[id].status == ExitStatus(script.exit))
  {
    CallsSettle(handlers, EMPTY, history, 0, {});
  }

  // ----- What spawns, reruns and clears leave -----

  /** The status that a finished run leaves: completed with the value its handler returned, or failed with the
      message of its failure. */
  ghost predicate ExitTold(status: Status, exit: Result<string, string>) {
    && (forall value :: status == Completed(value) <==> exit == Ok(value))
    && (forall message :: status == Failed(message) <==> exit == Err(message))
    && status != Pending && status != Running
  }

  /** A run of a task with a handler leaves its exit, if the entry is still there; one without changes nothing. */
  lemma RunTold(handlers: set<string>, t: Tables, id: string, r: Request, script: Script)
    ensures
      var next := AfterRun(handlers, t, id, r, script);
      if r.queue + ":" + r.name in handlers then id in next.byId ==> ExitTold(next.byId[id].status, script.exit)
      else next == t
  {
  }

  /** After any history, a spawn without a known key enters its request under the next id, runs it, and leaves the exit
      of that run; without a handler the task stays pending. */
  lemma SpawnTold(handlers: set<string>, history: Script, r: Request, script: Script)
    requires
      var t := AfterCalls(handlers, EMPTY, history, 0);
      r.key.Some? ==> r.queue + ":" + r.name + ":" + r.key.value !in t.byIdempotencyKey
    ensures
      var t := AfterCalls(handlers, EMPTY, history, 0);
      var (next, id) := AfterSpawn(handlers, t, r, script);
      && id == "test-task-" + Numeral(t.nextId) && next.nextId > t.nextId
      && (id in next.byId ==>
            && next.byId[id].id == id && next.byId[id].request == r
            && (if r.queue + ":" + r.name in handlers then ExitTold(next.byId[id].status, script.exit)
                else next.byId[id].status == Pending))
      && (NoClear(script) ==> id in next.byId)
  {
    var t := AfterCalls(handlers, EMPTY, history, 0);
    CallsKeep(handlers, EMPTY, history, 0);
    EntryKeeps(t, r);
    RunKeeps(handlers, Entered(t, r), TaskId(t.nextId), r, script);
    RunTold(handlers, Entered(t, r), TaskId(t.nextId), r, script);
  }

  /** A rerun of a known task leaves the exit of that very run, whatever was rerun inside it. */
  lemma RerunTold(handlers: set<string>, history: Script, id: string, script: Script)
    requires id in AfterCalls(handlers, EMPTY, history, 0).byId
    ensures
      var t := AfterCalls(handlers, EMPTY, history, 0);
      var r := t.byId[id].request;
      var next := AfterCalls(handlers, t, Script([Rerunning(id, script)], Ok("")), 0);
      && (r.queue + ":" + r.name in handlers ==> id in next.byId ==> ExitTold(next.byId[id].status, script.exit))
      && (r.queue + ":" + r.name !in handlers ==> next == t)
  {
    var t := AfterCalls(handlers, EMPTY, history, 0);
    var call := Script([Rerunning(id, script)], Ok(""));
    var next := AfterRun(handlers, t, id, t.byId[id].request, script);
    RunTold(handlers, t, id, t.byId[id].request, script);
    assert AfterCalls(handlers, next, call, 1) == next;
  }

  /** A rerun of an unknown task changes nothing, and a clear empties both tables. */
  lemma UnknownAndClear(handlers: set<string>, t: Tables, id: string, script: Script)
    ensures id !in t.byId ==> AfterCalls(handlers, t, Script([Rerunning(id, script)], Ok("")), 0) == t
    ensures AfterCalls(handlers, t, Script([Clearing], Ok("")), 0) == Tables(map[], map[], t.nextId)
  {
    var cleared := Tables(map[], map[], t.nextId);
    assert AfterCalls(handlers, cleared, Script([Clearing], Ok("")), 1) == cleared;
    assert AfterCalls(handlers, t, Script([Rerunning(id, script)], Ok("")), 1) == t;
  }

  /** The calls of a handler happen in order: the next one on what the ones before it left. */
  lemma {:induction false} CallsInOrder(handlers: set<string>, t: Tables, calls: seq<Call>, last: Call,
                                        exit: Result<string, string>, k: nat)
    requires k <= |calls|
    ensures
      var before := AfterCalls(handlers, t, Script(calls, exit), k);
      AfterCalls(handlers, t, Script(calls + [last], exit), k) == AfterCalls(handlers, before, Script([last], exit), 0)
    decreases |calls| - k
  {
    var longer, alone := Script(calls + [last], exit), Script([last], exit);
    var call := longer.calls[k];
    var next :=
      match call
      case Spawning(request, inner) => AfterSpawn(handlers, t, request, inner).0
      case Rerunning(id, inner) => if id in t.byId then AfterRun(handlers, t, id, t.byId[id].request, inner) else t
      case Clearing => Tables(map[], map[], t.nextId);
    if k < |calls| {
      assert longer.calls[k] == calls[k];
      CallsInOrder(handlers, next, calls, last, exit, k + 1);
    } else {
      assert AfterCalls(handlers, next, longer, k + 1) == next && AfterCalls(handlers, next, alone, 1) == next;
    }
  }

  // ----- Which keys are told apart -----

  /** The part of a string before its first colon. */
  lemma {:induction false} FirstColon(a: string, b: string, s: string, t: string)
    requires ':' !in a && ':' !in b && a + ":" + s == b + ":" + t
    ensures a == b && s == t
  {
    var all := a + ":" + s;
    assert all[|a|] == ':' && all[|b|] == ':';
    assert forall i :: 0 <= i < |a| ==> all[i] == a[i] && a[i] in a;
    assert forall i :: 0 <= i < |b| ==> all[i] == b[i] && b[i] in b;
    assert |a| == |b|;
    assert all[..|a|] == a && all[..|b|] == b;
    assert all[|a| + 1..] == s && all[|b| + 1..] == t;
  }

  /** Two queues and names have a key string in common exactly when one stem starts the other. */
  lemma KeysCollideIff(queue: string, name: string, queue': string, name': string)
    ensures
      (exists key, key' :: KeyString(queue, name, key) == KeyString(queue', name', key')) <==>
      (Stem(queue, name) <= Stem(queue', name') || Stem(queue', name') <= Stem(queue, name))
  {
    var a, b := Stem(queue, name), Stem(queue', name');
    if a <= b {
      assert KeyString(queue, name, b[|a|..]) == b + "" == KeyString(queue', name', "");
    }
    if b <= a {
      assert KeyString(queue, name, "") == a + "" == KeyString(queue', name', a[|b|..]);
    }
    forall key, key' | KeyString(queue, name, key) == KeyString(queue', name', key')
      ensures a <= b || b <= a
    {
      assert (a + key)[..|a|] == a && (b + key')[..|b|] == b;
    }
  }

  /** Equal key strings mean equal queues, names and keys exactly when queues and names are told apart. */
  lemma KeysToldApartIff(r: Request, other: Request)
    ensures ToldApart(r, other) <==>
      forall key, key' :: KeyString(r.queue, r.name, key) == KeyString(other.queue, other.name, key') ==>
        r.queue == other.queue && r.name == other.name && key == key'
  {
    KeysCollideIff(r.queue, r.name, other.queue, other.name);
    forall key, key' | KeyString(r.queue, r.name, key) == KeyString(r.queue, r.name, key')
      ensures key == key'
    {
      var a := Stem(r.queue, r.name);
      assert (a + key)[|a|..] == key && (a + key')[|a|..] == key';
    }
  }

  lemma StemsToldApart(queue: string, name: string, queue': string, name': string)
    requires ':' !in queue && ':' !in name && ':' !in queue' && ':' !in name'
    ensures Stem(queue, name) <= Stem(queue', name') ==> queue == queue' && name == name'
  {
    var a, b := Stem(queue, name), Stem(queue', name');
    if a <= b {
      var rest := b[|a|..];
      assert b == a + rest;
      assert queue + ":" + (name + ":" + rest) == b == queue' + ":" + (name' + ":" + "");
      FirstColon(queue, queue', name + ":" + rest, name' + ":" + "");
      FirstColon(name, name', rest, "");
    }
  }

  /** Queues and names without a colon are told apart, whatever the idempotency keys. */
  lemma ColonFreeToldApart(r: Request, other: Request)
    requires ':' !in r.queue && ':' !in r.name && ':' !in other.queue && ':' !in other.name
    ensures ToldApart(r, other)
  {
    StemsToldApart(r.queue, r.name, other.queue, other.name);
    StemsToldApart(other.queue, other.name, r.queue, r.name);
  }

  /** So without colons, requests with equal key strings have equal queues, names and keys. */
  lemma KeysToldApart(r: Request, other: Request)
    requires ':' !in r.queue && ':' !in r.name && ':' !in other.queue && ':' !in other.name
    requires r.key.Some? && other.key.Some? && EntryKey(r) == EntryKey(other)
    ensures r.queue == other.queue && r.name == other.name && r.key == other.key
  {
    ColonFreeToldApart(r, other);
    KeysToldApartIff(r, other);
  }

  /** A deduplicated spawn returns a task of its own queue, name and key, as long as its queue and name are told
      apart from those spawned before. */
  lemma SpawnReturnsOwnTask(handlers: set<string>, history: Script, r: Request, script: Script)
    requires ScriptToldApart(r, history)
    requires r.key.Some? && EntryKey(r).value in AfterCalls(handlers, EMPTY, history, 0).byIdempotencyKey
    ensures
      var t := AfterCalls(handlers, EMPTY, history, 0);
      var id := AfterSpawn(handlers, t, r, script).1;
      && id in t.byId && t.byId[id].request.queue == r.queue && t.byId[id].request.name == r.name
      && t.byId[id].request.key == r.key
  {
    CallsKeep(handlers, EMPTY, history, 0);
    StaysToldApart(r, handlers, EMPTY, history, 0);
    var t := AfterCalls(handlers, EMPTY, history, 0);
    var id := t.byIdempotencyKey[EntryKey(r).value];
    KeysToldApartIff(r, t.byId[id].request);
  }

  lemma EmptyIsConsistent()
    ensures Consistent(EMPTY)
  {
  }

  /** Any two queues and names that are not told apart can be confused: with suitable keys the second spawn is
      answered with the id of the first task. */
  lemma SpawnsConfused(handlers: set<string>, r: Request, other: Request) returns (key: string, key': string)
    requires !ToldApart(r, other)
    ensures
      var (t, id) := AfterSpawn(handlers, EMPTY, r.(key := Some(key)), NOTHING);
      AfterSpawn(handlers, t, other.(key := Some(key')), NOTHING) == (t, id)
  {
    KeysCollideIff(r.queue, r.name, other.queue, other.name);
    key, key' :| KeyString(r.queue, r.name, key) == KeyString(other.queue, other.name, key');
    EmptyIsConsistent();
    SpawnIndexesKey(handlers, EMPTY, r.(key := Some(key)), NOTHING);
  }

  /** With colons in names, a spawn can be answered with the id of a different task. */
  lemma ColonsConfuseKeys()
    ensures
      var first := Request("a", "b:c", Some("k"), "");
      var second := Request("a:b", "c", Some("k"), "");
      var (t, id) := AfterSpawn({}, EMPTY, first, NOTHING);
      AfterSpawn({}, t, second, NOTHING) == (t, id)
  {
    assert KeyString("a", "b:c", "k") == "a:b:c:k" == KeyString("a:b", "c", "k");
  }
}
