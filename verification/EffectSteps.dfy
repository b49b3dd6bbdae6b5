/** Durable steps of the Effect SDK. `makeStep` runs a step against a checkpoint runtime; there are two
    runtimes, the in-memory one of the test store and the SQL one of the worker. Step values cross a
    codec: they are encoded when committed and decoded when replayed. */
module EffectSteps {
  import opened Prelude
  import opened CheckpointNames

  /** What an encoder yields. Only the in-memory runtime can keep `undefined`; SQL stores null for it. */
  datatype Encoded = Undefined | Json(text: string)

  const NULL := Json("null")

  function Stored(e: Encoded): Encoded {
    if e.Undefined? then NULL else e
  }

  /** None stands for an encode or decode error. */
  datatype Codec<!V> = Codec(encode: V -> Option<Encoded>, decode: Encoded -> Option<V>)

  datatype Failure =
    | BodyFailed(error: string)
    | EncodeFailed
    | DecodeFailed
    | BeginFailed(error: string)
    | CompleteFailed(error: string)

  datatype Answer<V> = Got(value: V) | Raised(failure: Failure)

  datatype Action<!V> = Step(name: string, codec: Codec<V>) | Return(result: V) | Throw(error: string)

  type Program<!V> = seq<Answer<V>> -> Action<V>

  datatype Body<V> = Returns(value: V) | Throws(error: string)

  datatype Write = Acknowledged | Refused(error: string) | Unacknowledged(error: string)

  /** What the environment decides during one step; the in-memory runtime consults only the body. */
  datatype Choice<V> = Choice(beginError: Option<string>, body: Body<V>, write: Write)

  datatype Runtime = Memory | Sql

  type Rows = map<string, Encoded>

  datatype Outcome<V> = Outcome(rows: Rows, ran: bool, answer: Answer<V>)

  function Decoded<V>(codec: Codec<V>, e: Encoded): Answer<V> {
    match codec.decode(e)
    case Some(v) => Got(v)
    case None => Raised(DecodeFailed)
  }

  function MemoryStep<V>(rows: Rows, checkpoint: string, codec: Codec<V>, body: Body<V>): Outcome<V> {
    if checkpoint in rows then Outcome(rows, false, Decoded(codec, rows[checkpoint]))
    else match body
      case Throws(e) => Outcome(rows, true, Raised(BodyFailed(e)))
      case Returns(v) =>
        match codec.encode(v)
        case None => Outcome(rows, true, Raised(EncodeFailed))
        case Some(e) => Outcome(rows[checkpoint := e], true, Got(v))
  }

  function SqlStep<V>(rows: Rows, checkpoint: string, codec: Codec<V>, c: Choice<V>): Outcome<V> {
    if c.beginError.Some? then Outcome(rows, false, Raised(BeginFailed(c.beginError.value)))
    else if checkpoint in rows then Outcome(rows, false, Decoded(codec, rows[checkpoint]))
    else match c.body
      case Throws(e) => Outcome(rows, true, Raised(BodyFailed(e)))
      case Returns(v) =>
        match codec.encode(v)
        case None => Outcome(rows, true, Raised(EncodeFailed))
        case Some(e) =>
          match c.write
          case Acknowledged => Outcome(rows[checkpoint := Stored(e)], true, Got(v))
          case Refused(error) => Outcome(rows, true, Raised(CompleteFailed(error)))
          case Unacknowledged(error) => Outcome(rows[checkpoint := Stored(e)], true, Raised(CompleteFailed(error)))
  }

  // ----- The runtimes as the SDK writes them -----

  class Checkpoints {
    var rows: Rows
  }

  /** The occurrence counter both runtimes keep for one run. */
  class Occurrences {
    var counts: map<string, nat>
    ghost var calls: seq<string>

    ghost predicate Valid()
      reads this
    {
      forall name :: Uses(calls, name) == if name in counts then counts[name] else 0
    }

    constructor ()
      ensures Valid() && calls == []
    {
      counts := map[];
      calls := [];
    }

    method Next(name: string) returns (checkpointName: string)
      requires Valid()
      modifies this
      ensures Valid() && calls == old(calls) + [name] && checkpointName == NextName(old(calls), name)
    {
      var occurrence := (if name in counts then counts[name] else 0) + 1;
      counts := counts[name := occurrence];
      calls := calls + [name];
      assert calls[..|calls| - 1] == old(calls);
      checkpointName := CheckpointName(name, occurrence);
    }
  }

  /** `makeStep` over `makeMemory`. */
  method StepInMemory<V>(checkpoints: Checkpoints, occurrences: Occurrences, name: string, codec: Codec<V>,
                         body: Body<V>)
    returns (ran: bool, answer: Answer<V>)
    requires occurrences.Valid()
    modifies checkpoints, occurrences
    ensures occurrences.Valid() && occurrences.calls == old(occurrences.calls) + [name]
    ensures Outcome(checkpoints.rows, ran, answer) ==
            MemoryStep(old(checkpoints.rows), NextName(old(occurrences.calls), name), codec, body)
  {
    var checkpointName := occurrences.Next(name);
    ran := false;
    if checkpointName in checkpoints.rows {
      var decoded := codec.decode(checkpoints.rows[checkpointName]);
      return false, if decoded.Some? then Got(decoded.value) else Raised(DecodeFailed);
    }
    ran := true;
    if body.Throws? {
      return true, Raised(BodyFailed(body.error));
    }
    var encoded := codec.encode(body.value);
    if encoded.None? {
      return true, Raised(EncodeFailed);
    }
    checkpoints.rows := checkpoints.rows[checkpointName := encoded.value];
    return true, Got(body.value);
  }

  datatype StepHandle = Done(state: Encoded) | Open(checkpointName: string)

  /** `beginStep` of the SQL task context. */
  method BeginStep(table: Checkpoints, occurrences: Occurrences, name: string, error: Option<string>)
    returns (handle: Result<StepHandle, string>)
    requires occurrences.Valid()
    modifies occurrences
    ensures occurrences.Valid() && occurrences.calls == old(occurrences.calls) + [name]
    ensures
      var checkpointName := NextName(old(occurrences.calls), name);
      handle ==
        if error.Some? then Err(error.value)
        else if checkpointName in table.rows then Ok(Done(table.rows[checkpointName]))
        else Ok(Open(checkpointName))
  {
    var checkpointName := occurrences.Next(name);
    if error.Some? {
      return Err(error.value);
    }
    if checkpointName in table.rows {
      return Ok(Done(table.rows[checkpointName]));
    }
    return Ok(Open(checkpointName));
  }

  /** `complete` of an open handle: undefined is written as null. */
  method Complete(table: Checkpoints, handle: StepHandle, value: Encoded, write: Write)
    returns (failure: Option<string>)
    requires handle.Open?
    modifies table
    ensures table.rows ==
      if write.Refused? then old(table.rows) else old(table.rows)[handle.checkpointName := Stored(value)]
    ensures failure == if write.Acknowledged? then None else Some(write.error)
  {
    if !write.Refused? {
      table.rows := table.rows[handle.checkpointName := if value.Undefined? then NULL else value];
    }
    failure := if write.Acknowledged? then None else Some(write.error);
  }

  /** `makeStep` over the worker's adapter to the SQL task context. */
  method StepOnWorker<V>(table: Checkpoints, occurrences: Occurrences, name: string, codec: Codec<V>, c: Choice<V>)
    returns (ran: bool, answer: Answer<V>)
    requires occurrences.Valid()
    modifies table, occurrences
    ensures occurrences.Valid() && occurrences.calls == old(occurrences.calls) + [name]
    ensures Outcome(table.rows, ran, answer) ==
            SqlStep(old(table.rows), NextName(old(occurrences.calls), name), codec, c)
  {
    ran := false;
    var begun := BeginStep(table, occurrences, name, c.beginError);
    if begun.Err? {
      return false, Raised(BeginFailed(begun.error));
    }
    var handle := begun.value;
    if handle.Done? {
      var decoded := codec.decode(handle.state);
      return false, if decoded.Some? then Got(decoded.value) else Raised(DecodeFailed);
    }
    ran := true;
    if c.body.Throws? {
      return true, Raised(BodyFailed(c.body.error));
    }
    var encoded := codec.encode(c.body.value);
    if encoded.None? {
      return true, Raised(EncodeFailed);
    }
    var failure := Complete(table, handle, encoded.value, c.write);
    return true, if failure.None? then Got(c.body.value) else Raised(CompleteFailed(failure.value));
  }

  // ----- Attempts and histories -----

  datatype Status<V> = Running | Completed(result: V) | Failed(error: string)

  datatype Attempt<V> = Attempt(
    rows: Rows, answers: seq<Answer<V>>, calls: seq<string>, ran: seq<string>, status: Status<V>)

  function Start<V>(rows: Rows): Attempt<V> {
    Attempt(rows, [], [], [], Running)
  }

  function StepOutcome<V>(runtime: Runtime, rows: Rows, checkpoint: string, codec: Codec<V>, c: Choice<V>): Outcome<V> {
    if runtime.Memory? then MemoryStep(rows, checkpoint, codec, c.body) else SqlStep(rows, checkpoint, codec, c)
  }

  function Act<V>(runtime: Runtime, program: Program<V>, s: Attempt<V>, c: Choice<V>): Attempt<V> {
    match program(s.answers)
    case Return(r) => s.(status := Completed(r))
    case Throw(e) => s.(status := Failed(e))
    case Step(name, codec) =>
      var checkpoint := NextName(s.calls, name);
      var o := StepOutcome(runtime, s.rows, checkpoint, codec, c);
      Attempt(o.rows, s.answers + [o.answer], s.calls + [name], if o.ran then s.ran + [checkpoint] else s.ran, Running)
  }

  function Run<V>(runtime: Runtime, program: Program<V>, s: Attempt<V>, choices: seq<Choice<V>>): Attempt<V>
    decreases |choices|
  {
    if choices == [] || !s.status.Running? then s
    else Run(runtime, program, Act(runtime, program, s, choices[0]), choices[1..])
  }

  /** One attempt after another on the same checkpoints. */
  function Reruns<V>(runtime: Runtime, program: Program<V>, rows: Rows,
                     attempts: seq<seq<Choice<V>>>): (all: seq<Attempt<V>>)
    ensures |all| == |attempts|
    decreases |attempts|
  {
    if attempts == [] then []
    else
      var first := Run(runtime, program, Start(rows), attempts[0]);
      [first] + Reruns(runtime, program, first.rows, attempts[1..])
  }

  // ----- Replay -----

  /** Each encoder output survives storage and decoding. */
  ghost predicate RoundTrips<V(!new)>(runtime: Runtime, codec: Codec<V>) {
    forall v :: codec.encode(v).Some? ==>
      codec.decode(if runtime.Memory? then codec.encode(v).value else Stored(codec.encode(v).value)) == Some(v)
  }

  /** What a committed step may answer: its decoded state, or that it could not begin. */
  predicate AnswersFor<V(==)>(codec: Codec<V>, state: Encoded, answer: Answer<V>) {
    answer == Decoded(codec, state) || (answer.Raised? && answer.failure.BeginFailed?)
  }

  /** From where a checkpoint is committed, each use of it answers with its decoded state. */
  ghost predicate AnswersFrom<V>(program: Program<V>, s: Attempt<V>, from: nat, checkpoint: string, state: Encoded) {
    && |s.answers| == |s.calls|
    && forall i :: from <= i < |s.answers| && NameAt(s.calls, i) == checkpoint ==>
      var action := program(s.answers[..i]);
      action.Step? && AnswersFor(action.codec, state, s.answers[i])
  }

  lemma ActKeepsCommitted<V>(runtime: Runtime, program: Program<V>, s: Attempt<V>, c: Choice<V>,
                             from: nat, checkpoint: string, state: Encoded)
    requires checkpoint in s.rows && s.rows[checkpoint] == state && checkpoint !in s.ran
    requires AnswersFrom(program, s, from, checkpoint, state)
    ensures
      var next := Act(runtime, program, s, c);
      && checkpoint in next.rows && next.rows[checkpoint] == state && checkpoint !in next.ran
      && AnswersFrom(program, next, from, checkpoint, state)
  {
    var next := Act(runtime, program, s, c);
    forall i | from <= i < |next.answers| && NameAt(next.calls, i) == checkpoint
      ensures
        var action := program(next.answers[..i]);
        action.Step? && AnswersFor(action.codec, state, next.answers[i])
    {
      if i < |s.answers| {
        NamesFollowPrefix(s.calls, next.calls, i);
        assert next.answers[..i] == s.answers[..i];
      } else {
        assert next.answers[..i] == s.answers && next.calls[..i] == s.calls;
      }
    }
  }

  /** On either runtime, a committed step is decoded from its checkpoint and its body never runs again. */
  lemma {:induction false} RunKeepsCommitted<V>(runtime: Runtime, program: Program<V>, s: Attempt<V>,
                                                choices: seq<Choice<V>>, from: nat, checkpoint: string, state: Encoded)
    requires checkpoint in s.rows && s.rows[checkpoint] == state && checkpoint !in s.ran
    requires AnswersFrom(program, s, from, checkpoint, state)
    ensures
      var final := Run(runtime, program, s, choices);
      && checkpoint in final.rows && final.rows[checkpoint] == state && checkpoint !in final.ran
      && AnswersFrom(program, final, from, checkpoint, state)
    decreases |choices|
  {
    if choices != [] && s.status.Running? {
      ActKeepsCommitted(runtime, program, s, choices[0], from, checkpoint, state);
      RunKeepsCommitted(runtime, program, Act(runtime, program, s, choices[0]), choices[1..], from, checkpoint, state);
    }
  }

  lemma {:induction false} RerunsKeepCommitted<V>(runtime: Runtime, program: Program<V>, rows: Rows,
                                                  attempts: seq<seq<Choice<V>>>, checkpoint: string)
    requires checkpoint in rows
    ensures forall k :: 0 <= k < |attempts| ==>
      var s := Reruns(runtime, program, rows, attempts)[k];
      checkpoint !in s.ran && AnswersFrom(program, s, 0, checkpoint, rows[checkpoint])
    decreases |attempts|
  {
    if attempts != [] {
      var first := Run(runtime, program, Start(rows), attempts[0]);
      RunKeepsCommitted(runtime, program, Start(rows), attempts[0], 0, checkpoint, rows[checkpoint]);
      RerunsKeepCommitted(runtime, program, first.rows, attempts[1..], checkpoint);
    }
  }

  /** With a codec that survives storage, a step without a checkpoint that succeeds has run its body, and
      the value it returns is the value every replay decodes. */
  lemma CommitDecodesBack<V(!new)>(runtime: Runtime, rows: Rows, checkpoint: string, codec: Codec<V>, c: Choice<V>)
    requires RoundTrips(runtime, codec)
    requires checkpoint !in rows && StepOutcome(runtime, rows, checkpoint, codec, c).answer.Got?
    ensures
      var o := StepOutcome(runtime, rows, checkpoint, codec, c);
      && o.ran && c.body == Returns(o.answer.value)
      && checkpoint in o.rows && Decoded(codec, o.rows[checkpoint]) == o.answer
  {
  }

  /** The i-th answer is what its checkpoint decodes to. */
  ghost predicate Recorded<V>(program: Program<V>, s: Attempt<V>, rows: Rows, i: nat)
    requires i < |s.answers| == |s.calls|
  {
    var action := program(s.answers[..i]);
    && action.Step? && action.name == s.calls[i]
    && var checkpoint := NextName(s.calls[..i], action.name);
       checkpoint in rows && Decoded(action.codec, rows[checkpoint]) == s.answers[i]
  }

  /** Every answer is a caught failure or on record, and a result is the program's result on the answers. */
  ghost predicate OnRecord<V>(program: Program<V>, s: Attempt<V>) {
    && |s.answers| == |s.calls|
    && (forall i :: 0 <= i < |s.answers| ==> s.answers[i].Raised? || Recorded(program, s, s.rows, i))
    && (s.status.Completed? ==> program(s.answers) == Return(s.status.result))
  }

  ghost predicate CodecsRoundTrip<V(!new)>(runtime: Runtime, program: Program<V>) {
    forall answers :: program(answers).Step? ==> RoundTrips(runtime, program(answers).codec)
  }

  lemma ActStaysOnRecord<V(!new)>(runtime: Runtime, program: Program<V>, s: Attempt<V>, c: Choice<V>)
    requires CodecsRoundTrip(runtime, program) && OnRecord(program, s) && s.status.Running?
    ensures OnRecord(program, Act(runtime, program, s, c))
    ensures s.rows.Keys <= Act(runtime, program, s, c).rows.Keys
    ensures forall checkpoint :: checkpoint in s.rows ==>
      Act(runtime, program, s, c).rows[checkpoint] == s.rows[checkpoint]
  {
    var next := Act(runtime, program, s, c);
    var action := program(s.answers);
    if action.Step? {
      var checkpoint := NextName(s.calls, action.name);
      var o := StepOutcome(runtime, s.rows, checkpoint, action.codec, c);
      if checkpoint !in s.rows && o.answer.Got? { CommitDecodesBack(runtime, s.rows, checkpoint, action.codec, c); }
      forall i | 0 <= i < |next.answers|
        ensures next.answers[i].Raised? || Recorded(program, next, next.rows, i)
      {
        if i < |s.answers| {
          assert s.answers[i].Raised? || Recorded(program, s, s.rows, i);
          assert next.answers[..i] == s.answers[..i] && next.calls[..i] == s.calls[..i];
        } else {
          assert next.answers[..i] == s.answers && next.calls[..i] == s.calls;
        }
      }
    }
  }

  lemma {:induction false} RunStaysOnRecord<V(!new)>(runtime: Runtime, program: Program<V>, s: Attempt<V>,
                                                     choices: seq<Choice<V>>)
    requires CodecsRoundTrip(runtime, program) && OnRecord(program, s)
    ensures OnRecord(program, Run(runtime, program, s, choices))
    decreases |choices|
  {
    if choices != [] && s.status.Running? {
      ActStaysOnRecord(runtime, program, s, choices[0]);
      RunStaysOnRecord(runtime, program, Act(runtime, program, s, choices[0]), choices[1..]);
    }
  }

  lemma {:induction false} ReplayFrom<V>(runtime: Runtime, program: Program<V>, s: Attempt<V>, rows: Rows,
                                         choices: seq<Choice<V>>, k: nat)
    requires |s.answers| == |s.calls| < |choices| && k <= |s.answers|
    requires forall i :: 0 <= i < |s.answers| ==> Recorded(program, s, rows, i)
    requires s.status.Completed? && program(s.answers) == Return(s.status.result)
    requires forall i :: 0 <= i < |choices| ==> choices[i].beginError.None?
    ensures Run(runtime, program, Attempt(rows, s.answers[..k], s.calls[..k], [], Running), choices[k..])
         == Attempt(rows, s.answers, s.calls, [], s.status)
    decreases |s.answers| - k
  {
    var now := Attempt(rows, s.answers[..k], s.calls[..k], [], Running);
    assert choices[k..][0] == choices[k] && choices[k..][1..] == choices[k + 1..];
    var next := Act(runtime, program, now, choices[k]);
    if k < |s.answers| {
      assert Recorded(program, s, rows, k);
      assert s.answers[..k] + [s.answers[k]] == s.answers[..k + 1];
      assert s.calls[..k] + [s.calls[k]] == s.calls[..k + 1];
      assert next == Attempt(rows, s.answers[..k + 1], s.calls[..k + 1], [], Running);
      ReplayFrom(runtime, program, s, rows, choices, k + 1);
    } else {
      assert s.answers[..k] == s.answers && s.calls[..k] == s.calls;
      assert Run(runtime, program, now, choices[k..]) == Run(runtime, program, next, choices[k + 1..]) == next;
    }
  }

  /** An attempt that completes without a caught failure is reproduced exactly, by either runtime and with
      no body run, from any table that still holds its checkpoints. */
  lemma ReplayIsTransparent<V(!new)>(runtime: Runtime, replayer: Runtime, program: Program<V>, before: Rows,
                                     choices: seq<Choice<V>>, later: Rows, replay: seq<Choice<V>>)
    requires CodecsRoundTrip(runtime, program)
    requires
      var s := Run(runtime, program, Start(before), choices);
      && s.status.Completed? && (forall i :: 0 <= i < |s.answers| ==> s.answers[i].Got?)
      && |s.answers| < |replay| && (forall i :: 0 <= i < |replay| ==> replay[i].beginError.None?)
      && (forall checkpoint :: checkpoint in s.rows ==> checkpoint in later && later[checkpoint] == s.rows[checkpoint])
    ensures
      var s := Run(runtime, program, Start(before), choices);
      Run(replayer, program, Start(later), replay) == Attempt(later, s.answers, s.calls, [], s.status)
  {
    var s := Run(runtime, program, Start(before), choices);
    RunStaysOnRecord(runtime, program, Start(before), choices);
    forall i | 0 <= i < |s.answers|
      ensures Recorded(program, s, later, i)
    {
      assert Recorded(program, s, s.rows, i);
    }
    assert s.answers[..0] == [] && s.calls[..0] == [] && replay[0..] == replay;
    ReplayFrom(replayer, program, s, later, replay, 0);
  }

  // ----- The test runtime agrees with production -----

  predicate Healthy<V>(c: Choice<V>) {
    c.beginError.None? && c.write.Acknowledged?
  }

  predicate AllHealthy<V>(choices: seq<Choice<V>>) {
    forall i :: 0 <= i < |choices| ==> Healthy(choices[i])
  }

  /** On working storage the two runtimes part exactly when a fresh step commits `undefined`. */
  lemma StepsAgreeIff<V>(rows: Rows, checkpoint: string, codec: Codec<V>, c: Choice<V>)
    requires Healthy(c)
    ensures MemoryStep(rows, checkpoint, codec, c.body) == SqlStep(rows, checkpoint, codec, c) <==>
      !(checkpoint !in rows && c.body.Returns? && codec.encode(c.body.value) == Some(Undefined))
  {
    if checkpoint !in rows && c.body.Returns? && codec.encode(c.body.value).Some? {
      var e := codec.encode(c.body.value).value;
      assert rows[checkpoint := e][checkpoint] == e;
      assert rows[checkpoint := Stored(e)][checkpoint] == Stored(e);
    }
  }

  ghost predicate NeverUndefined<V(!new)>(program: Program<V>) {
    forall answers, v :: program(answers).Step? ==> program(answers).codec.encode(v) != Some(Undefined)
  }

  lemma {:induction false} RunsAgree<V(!new)>(program: Program<V>, s: Attempt<V>, choices: seq<Choice<V>>)
    requires NeverUndefined(program)
    requires AllHealthy(choices)
    ensures Run(Memory, program, s, choices) == Run(Sql, program, s, choices)
    decreases |choices|
  {
    if choices != [] && s.status.Running? {
      var action := program(s.answers);
      if action.Step? {
        StepsAgreeIff(s.rows, NextName(s.calls, action.name), action.codec, choices[0]);
        if choices[0].body.Returns? { assert action.codec.encode(choices[0].body.value) != Some(Undefined); }
      }
      assert Act(Memory, program, s, choices[0]) == Act(Sql, program, s, choices[0]);
      RunsAgree(program, Act(Memory, program, s, choices[0]), choices[1..]);
    }
  }

  /** For every program and every sequence of reruns, the test runtime gives the same answers, body runs,
      results and checkpoints as production. */
  lemma {:induction false} TestRuntimeAgrees<V(!new)>(program: Program<V>, rows: Rows, attempts: seq<seq<Choice<V>>>)
    requires NeverUndefined(program)
    requires forall choices :: choices in attempts ==> AllHealthy(choices)
    ensures Reruns(Memory, program, rows, attempts) == Reruns(Sql, program, rows, attempts)
    decreases |attempts|
  {
    if attempts != [] {
      RunsAgree(program, Start(rows), attempts[0]);
      TestRuntimeAgrees(program, Run(Memory, program, Start(rows), attempts[0]).rows, attempts[1..]);
    }
  }

  /** Committed rows are kept and no new row holds `undefined`. */
  ghost predicate NoNewUndefined(before: Rows, after: Rows) {
    forall checkpoint :: checkpoint in after && checkpoint !in before ==> after[checkpoint] != Undefined
  }

  ghost predicate KeepsRows(before: Rows, after: Rows) {
    forall checkpoint :: checkpoint in before ==> checkpoint in after && after[checkpoint] == before[checkpoint]
  }

  /** On working storage, one action of the two runtimes parts exactly when it leaves `undefined` in a new row. */
  lemma ActsAgreeIff<V>(program: Program<V>, s: Attempt<V>, c: Choice<V>)
    requires Healthy(c)
    ensures
      var memory, sql := Act(Memory, program, s, c), Act(Sql, program, s, c);
      && KeepsRows(s.rows, memory.rows) && KeepsRows(s.rows, sql.rows) && NoNewUndefined(s.rows, sql.rows)
      && (memory == sql <==> NoNewUndefined(s.rows, memory.rows))
  {
    var action := program(s.answers);
    if action.Step? {
      var checkpoint := NextName(s.calls, action.name);
      StepsAgreeIff(s.rows, checkpoint, action.codec, c);
    }
  }

  lemma {:induction false} RunKeepsRows<V>(runtime: Runtime, program: Program<V>, s: Attempt<V>,
                                           choices: seq<Choice<V>>)
    requires AllHealthy(choices)
    ensures KeepsRows(s.rows, Run(runtime, program, s, choices).rows)
    ensures runtime.Sql? ==> NoNewUndefined(s.rows, Run(runtime, program, s, choices).rows)
    decreases |choices|
  {
    if choices != [] && s.status.Running? {
      ActsAgreeIff(program, s, choices[0]);
      RunKeepsRows(runtime, program, Act(runtime, program, s, choices[0]), choices[1..]);
    }
  }

  /** On working storage, a whole run of the test runtime equals production if and only if it leaves no new row
      with `undefined`: whether the runtimes part shows in what the tests' own checkpoints hold. */
  lemma {:induction false} RunsAgreeIff<V>(program: Program<V>, s: Attempt<V>, choices: seq<Choice<V>>)
    requires AllHealthy(choices)
    ensures Run(Memory, program, s, choices) == Run(Sql, program, s, choices) <==>
      NoNewUndefined(s.rows, Run(Memory, program, s, choices).rows)
    decreases |choices|
  {
    RunKeepsRows(Memory, program, s, choices);
    RunKeepsRows(Sql, program, s, choices);
    if choices != [] && s.status.Running? {
      var memory := Act(Memory, program, s, choices[0]);
      ActsAgreeIff(program, s, choices[0]);
      RunKeepsRows(Memory, program, memory, choices[1..]);
      if memory == Act(Sql, program, s, choices[0]) {
        RunsAgreeIff(program, memory, choices[1..]);
      }
    }
  }

  lemma {:induction false} RerunsKeepRows<V>(program: Program<V>, rows: Rows, attempts: seq<seq<Choice<V>>>)
    requires forall choices :: choices in attempts ==> AllHealthy(choices)
    ensures forall k :: 0 <= k < |attempts| ==> KeepsRows(rows, Reruns(Memory, program, rows, attempts)[k].rows)
    decreases |attempts|
  {
    if attempts != [] {
      RunKeepsRows(Memory, program, Start(rows), attempts[0]);
      RerunsKeepRows(program, Run(Memory, program, Start(rows), attempts[0]).rows, attempts[1..]);
    }
  }

  /** And so for any sequence of reruns. */
  lemma {:induction false} RerunsAgreeIff<V>(program: Program<V>, rows: Rows, attempts: seq<seq<Choice<V>>>)
    requires forall choices :: choices in attempts ==> AllHealthy(choices)
    ensures Reruns(Memory, program, rows, attempts) == Reruns(Sql, program, rows, attempts) <==>
      forall k :: 0 <= k < |attempts| ==> NoNewUndefined(rows, Reruns(Memory, program, rows, attempts)[k].rows)
    decreases |attempts|
  {
    if attempts != [] {
      var first := Run(Memory, program, Start(rows), attempts[0]);
      RunsAgreeIff(program, Start(rows), attempts[0]);
      RunKeepsRows(Memory, program, Start(rows), attempts[0]);
      var later := Reruns(Memory, program, first.rows, attempts[1..]);
      RerunsAgreeIff(program, first.rows, attempts[1..]);
      RerunsKeepRows(program, first.rows, attempts[1..]);
      var memory, sql := Reruns(Memory, program, rows, attempts), Reruns(Sql, program, rows, attempts);
      assert memory[0] == first && memory[1..] == later;
      assert memory == sql <==> memory[0] == sql[0] && memory[1..] == sql[1..];
      forall k | 0 <= k < |later|
        ensures NoNewUndefined(rows, first.rows) ==>
          (NoNewUndefined(rows, later[k].rows) <==> NoNewUndefined(first.rows, later[k].rows))
      {
      }
      assert forall k :: 0 <= k < |later| ==> later[k] == memory[k + 1];
      if NoNewUndefined(rows, first.rows) {
        assert sql[0] == first && sql[1..] == Reruns(Sql, program, first.rows, attempts[1..]);
        if forall k :: 0 <= k < |later| ==> NoNewUndefined(first.rows, later[k].rows) {
          forall k | 0 <= k < |attempts|
            ensures NoNewUndefined(rows, memory[k].rows)
          {
            if k > 0 { assert memory[k] == later[k - 1]; }
          }
        }
      }
    }
  }

  /** A codec for a value that is not there: it writes `undefined` and reads nothing else. */
  const NOTHING := Codec(encode := (v: int) => Some(Undefined),
                         decode := (e: Encoded) => if e.Undefined? then Some(0) else None)

  /** With such a codec, a step that both runtimes answer alike replays in the test runtime and fails to decode
      in production. */
  lemma UndefinedParts(rows: Rows, checkpoint: string, c: Choice<int>)
    requires Healthy(c) && c.body == Returns(0) && checkpoint !in rows
    ensures
      var memory, sql := MemoryStep(rows, checkpoint, NOTHING, c.body), SqlStep(rows, checkpoint, NOTHING, c);
      && memory.answer == sql.answer == Got(0)
      && MemoryStep(memory.rows, checkpoint, NOTHING, c.body).answer == Got(0)
      && SqlStep(sql.rows, checkpoint, NOTHING, c).answer == Raised(DecodeFailed)
  {
  }

  // ----- Each outcome of a step -----

  /** What a step that runs its body wants to commit. */
  predicate Commits<V(==)>(rows: Rows, checkpoint: string, codec: Codec<V>, body: Body<V>, v: V, e: Encoded) {
    checkpoint !in rows && body == Returns(v) && codec.encode(v) == Some(e)
  }

  /** A step of the in-memory runtime: a committed one decodes its state; any other runs its body, fails with its
      error or with that of the encoder, or commits what the encoder yields and returns the value itself. */
  lemma MemoryStepTold<V(!new)>(rows: Rows, checkpoint: string, codec: Codec<V>, body: Body<V>)
    ensures
      var o := MemoryStep(rows, checkpoint, codec, body);
      && (o.ran <==> checkpoint !in rows)
      && (forall v :: o.answer == Got(v) <==>
            if checkpoint in rows then codec.decode(rows[checkpoint]) == Some(v)
            else body == Returns(v) && codec.encode(v).Some?)
      && (o.answer == Raised(DecodeFailed) <==> checkpoint in rows && codec.decode(rows[checkpoint]).None?)
      && (o.answer == Raised(EncodeFailed) <==>
            checkpoint !in rows && body.Returns? && codec.encode(body.value).None?)
      && (forall e :: o.answer == Raised(BodyFailed(e)) <==> checkpoint !in rows && body == Throws(e))
      && (forall v, e :: Commits(rows, checkpoint, codec, body, v, e) ==> o.rows == rows[checkpoint := e])
      && ((forall v, e :: !Commits(rows, checkpoint, codec, body, v, e)) ==> o.rows == rows)
  {
    if checkpoint !in rows && body.Returns? && codec.encode(body.value).Some? {
      assert Commits(rows, checkpoint, codec, body, body.value, codec.encode(body.value).value);
    }
  }

  /** A step of the worker, where begin and complete can fail too, and where undefined is stored as null. */
  lemma SqlStepTold<V(!new)>(rows: Rows, checkpoint: string, codec: Codec<V>, c: Choice<V>)
    ensures
      var o := SqlStep(rows, checkpoint, codec, c);
      var begun := c.beginError.None?;
      && (o.ran <==> begun && checkpoint !in rows)
      && (forall v :: o.answer == Got(v) <==>
            begun &&
            if checkpoint in rows then codec.decode(rows[checkpoint]) == Some(v)
            else c.body == Returns(v) && codec.encode(v).Some? && c.write.Acknowledged?)
      && (forall e :: o.answer == Raised(BeginFailed(e)) <==> c.beginError == Some(e))
      && (o.answer == Raised(DecodeFailed) <==> begun && checkpoint in rows && codec.decode(rows[checkpoint]).None?)
      && (o.answer == Raised(EncodeFailed) <==>
            begun && checkpoint !in rows && c.body.Returns? && codec.encode(c.body.value).None?)
      && (forall e :: o.answer == Raised(BodyFailed(e)) <==> begun && checkpoint !in rows && c.body == Throws(e))
    ensures
      var o := SqlStep(rows, checkpoint, codec, c);
      var begun := c.beginError.None?;
      && (forall e :: o.answer == Raised(CompleteFailed(e)) <==>
            begun && (exists v, x :: Commits(rows, checkpoint, codec, c.body, v, x)) &&
            !c.write.Acknowledged? && c.write.error == e)
      && (forall v, e :: begun && Commits(rows, checkpoint, codec, c.body, v, e) && !c.write.Refused? ==>
            o.rows == rows[checkpoint := if e == Undefined then Json("null") else e])
      && (!begun || c.write.Refused? ==> o.rows == rows)
      && ((forall v, e :: !Commits(rows, checkpoint, codec, c.body, v, e)) ==> o.rows == rows)
  {
    if checkpoint !in rows && c.body.Returns? && codec.encode(c.body.value).Some? {
      assert Commits(rows, checkpoint, codec, c.body, c.body.value, codec.encode(c.body.value).value);
    }
  }

  // ----- What an attempt does -----

  lemma {:induction false} RunExtend<V>(runtime: Runtime, program: Program<V>, s: Attempt<V>, choices: seq<Choice<V>>,
                                        c: Choice<V>)
    ensures
      var before := Run(runtime, program, s, choices);
      Run(runtime, program, s, choices + [c]) ==
        if before.status.Running? then Act(runtime, program, before, c) else before
    decreases |choices|
  {
    if choices == [] {
      assert choices + [c] == [c] && [c][1..] == [];
    } else if s.status.Running? {
      assert (choices + [c])[1..] == choices[1..] + [c];
      RunExtend(runtime, program, Act(runtime, program, s, choices[0]), choices[1..], c);
    }
  }

  /** Call i follows from the answers before it, and is a step on the rows as it found them. */
  ghost predicate CallTold<V>(runtime: Runtime, program: Program<V>, rows: Rows, choices: seq<Choice<V>>,
                              s: Attempt<V>, i: nat)
    requires i < |s.answers| == |s.calls| <= |choices|
  {
    var before := Run(runtime, program, Start(rows), choices[..i]);
    var after := Run(runtime, program, Start(rows), choices[..i + 1]);
    var action, at := program(s.answers[..i]), NameAt(s.calls, i);
    && action.Step? && action.name == s.calls[i]
    && var o := if runtime.Sql? then SqlStep(before.rows, at, action.codec, choices[i])
                else MemoryStep(before.rows, at, action.codec, choices[i].body);
       && s.answers[i] == o.answer && after.rows == o.rows
       && after.ran == if o.ran then before.ran + [at] else before.ran
  }

  /** How an attempt stands: it runs only while it has used all choices, and ends as its program does. */
  ghost predicate StatusTold<V(!new)>(program: Program<V>, choices: seq<Choice<V>>, s: Attempt<V>) {
    && |s.answers| == |s.calls| <= |choices|
    && (s.status.Running? <==> |s.answers| == |choices|)
    && (forall r :: s.status == Completed(r) <==> |s.answers| < |choices| && program(s.answers) == Return(r))
    && (forall e :: s.status == Failed(e) <==> |s.answers| < |choices| && program(s.answers) == Throw(e))
  }

  lemma EarlierCallTold<V>(runtime: Runtime, program: Program<V>, rows: Rows, choices: seq<Choice<V>>, c: Choice<V>,
                           s: Attempt<V>, next: Attempt<V>, i: nat)
    requires i < |s.answers| == |s.calls| <= |choices| && |next.answers| == |next.calls| <= |choices| + 1
    requires s.answers <= next.answers && s.calls <= next.calls
    requires CallTold(runtime, program, rows, choices, s, i)
    ensures CallTold(runtime, program, rows, choices + [c], next, i)
  {
    var longer := choices + [c];
    assert longer[..i] == choices[..i] && longer[..i + 1] == choices[..i + 1] && longer[i] == choices[i];
    assert next.answers[..i] == s.answers[..i] && next.calls[..i] == s.calls[..i];
  }

  lemma LastCallTold<V(!new)>(runtime: Runtime, program: Program<V>, rows: Rows, choices: seq<Choice<V>>, c: Choice<V>)
    requires
      var s := Run(runtime, program, Start(rows), choices);
      s.status.Running? && StatusTold(program, choices, s) && program(s.answers).Step?
    ensures
      var next := Run(runtime, program, Start(rows), choices + [c]);
      && StatusTold(program, choices + [c], next) && |next.answers| == |choices| + 1
      && CallTold(runtime, program, rows, choices + [c], next, |choices|)
  {
    var s, longer := Run(runtime, program, Start(rows), choices), choices + [c];
    RunExtend(runtime, program, Start(rows), choices, c);
    var next := Act(runtime, program, s, c);
    assert longer[..|choices|] == choices && longer[..|choices| + 1] == longer;
    assert next.answers[..|choices|] == s.answers && next.calls[..|choices|] == s.calls;
  }

  /** On either runtime, for every program, table and list of choices: each answer of an attempt, the rows and the
      bodies run after it are those of a step, in the order of the program, and the attempt ends as the program does. */
  lemma {:induction false} AttemptTold<V(!new)>(runtime: Runtime, program: Program<V>, rows: Rows,
                                                choices: seq<Choice<V>>)
    ensures
      var s := Run(runtime, program, Start(rows), choices);
      StatusTold(program, choices, s) &&
      forall i :: 0 <= i < |s.answers| ==> CallTold(runtime, program, rows, choices, s, i)
    decreases |choices|
  {
    if choices != [] {
      var shorter, c := choices[..|choices| - 1], choices[|choices| - 1];
      var s, next := Run(runtime, program, Start(rows), shorter), Run(runtime, program, Start(rows), choices);
      assert choices == shorter + [c];
      AttemptTold(runtime, program, rows, shorter);
      RunExtend(runtime, program, Start(rows), shorter, c);
      if s.status.Running? && program(s.answers).Step? { LastCallTold(runtime, program, rows, shorter, c); }
      forall i | 0 <= i < |s.answers|
        ensures CallTold(runtime, program, rows, choices, next, i)
      {
        EarlierCallTold(runtime, program, rows, shorter, c, s, next, i);
      }
    }
  }

  /** Each rerun starts on the rows that the one before it left. */
  lemma {:induction false} RerunsTold<V>(runtime: Runtime, program: Program<V>, rows: Rows,
                                         attempts: seq<seq<Choice<V>>>, k: nat)
    requires k < |attempts|
    ensures
      var all := Reruns(runtime, program, rows, attempts);
      all[k] == Run(runtime, program, Start(if k == 0 then rows else all[k - 1].rows), attempts[k])
    decreases |attempts|
  {
    if k > 0 {
      RerunsTold(runtime, program, Run(runtime, program, Start(rows), attempts[0]).rows, attempts[1..], k - 1);
    }
  }
}
