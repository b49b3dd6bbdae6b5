/** Bookkeeping shared by the worker loops: which messages were claimed, which executions they were handed
    to, and which executions have settled. Execution i is the i-th one ever started. */
module Ledgers {
  datatype Ledger = Ledger(claimed: seq<string>, started: seq<string>, executing: set<nat>, settled: set<nat>)

  const EMPTY := Ledger([], [], {}, {})

  /** A claim answers with some messages. */
  function Claim(l: Ledger, messages: seq<string>): Ledger {
    l.(claimed := l.claimed + messages)
  }

  /** One message is handed to a new execution. */
  function Begin(l: Ledger, message: string): Ledger {
    l.(started := l.started + [message], executing := l.executing + {|l.started|})
  }

  function BeginAll(l: Ledger, messages: seq<string>): Ledger
    decreases |messages|
  {
    if messages == [] then l else BeginAll(Begin(l, messages[0]), messages[1..])
  }

  function Settle(l: Ledger, execution: nat): Ledger {
    l.(executing := l.executing - {execution}, settled := l.settled + {execution})
  }

  /** Every claimed message was handed to exactly one execution, in order, except those still in hand, and each
      execution is either running or settled, never both. */
  ghost predicate Balanced(l: Ledger, inHand: seq<string>) {
    && l.started + inHand == l.claimed
    && l.executing !! l.settled
    && forall i :: i in l.executing || i in l.settled <==> 0 <= i < |l.started|
  }

  lemma SubsetSize(a: set<nat>, b: set<nat>)
    requires a <= b
    ensures |a| <= |b|
  {
    assert b == a + (b - a);
  }

  lemma ClaimBalances(l: Ledger, messages: seq<string>)
    requires Balanced(l, [])
    ensures Balanced(Claim(l, messages), messages)
  {
    assert l.started + [] == l.started;
  }

  lemma BeginBalances(l: Ledger, inHand: seq<string>)
    requires Balanced(l, inHand) && inHand != []
    ensures Balanced(Begin(l, inHand[0]), inHand[1..])
    ensures |Begin(l, inHand[0]).executing| == |l.executing| + 1
  {
    assert l.started + [inHand[0]] + inHand[1..] == l.started + inHand;
    assert |l.started| !in l.executing;
  }

  lemma {:induction false} BeginAllBalances(l: Ledger, inHand: seq<string>)
    requires Balanced(l, inHand)
    ensures Balanced(BeginAll(l, inHand), []) && BeginAll(l, inHand).claimed == l.claimed
    ensures |BeginAll(l, inHand).executing| == |l.executing| + |inHand|
    decreases |inHand|
  {
    if inHand != [] {
      BeginBalances(l, inHand);
      BeginAllBalances(Begin(l, inHand[0]), inHand[1..]);
    }
  }

  /** Starting messages appends them to the started ones and touches nothing else but the running executions. */
  lemma {:induction false} BeginAllTold(l: Ledger, messages: seq<string>)
    ensures
      var after := BeginAll(l, messages);
      && after.claimed == l.claimed && after.settled == l.settled && after.started == l.started + messages
      && l.executing <= after.executing
    decreases |messages|
  {
    if messages != [] {
      BeginAllTold(Begin(l, messages[0]), messages[1..]);
      assert l.started + [messages[0]] + messages[1..] == l.started + messages;
    } else {
      assert l.started + messages == l.started;
    }
  }

  lemma SettleBalances(l: Ledger, inHand: seq<string>, execution: nat)
    requires Balanced(l, inHand) && execution in l.executing
    ensures Balanced(Settle(l, execution), inHand) && |Settle(l, execution).executing| == |l.executing| - 1
  {
  }

  /** Every claimed message was handed to an execution, and every execution has settled. */
  ghost predicate AllSettled(l: Ledger) {
    && l.started == l.claimed
    && forall i :: i in l.settled <==> 0 <= i < |l.claimed|
  }

  lemma NoneExecuting(l: Ledger)
    requires Balanced(l, []) && l.executing == {}
    ensures AllSettled(l)
  {
    assert l.started + [] == l.started;
  }
}
