/** Habitat's event log over all queues: it merges the newest events of each queue, sorts them by
    emission time and keeps the newest of those. Events emitted at the same time come in any order. */
module EventLog {
  import opened Prelude

  datatype Event = Event(name: string, payload: string, emittedAt: int)

  predicate NewestFirst(events: seq<Event>) {
    forall i, j :: 0 <= i < j < |events| ==> events[i].emittedAt >= events[j].emittedAt
  }

  ghost predicate OmitsNothingNewer(chosen: seq<Event>, events: seq<Event>) {
    forall out, i :: multiset(events)[out] > multiset(chosen)[out] && 0 <= i < |chosen| ==>
      out.emittedAt <= chosen[i].emittedAt
  }

  /** A selection of the `limit` newest events: newest first, and nothing left out is newer than anything chosen. */
  ghost predicate Newest(chosen: seq<Event>, events: seq<Event>, limit: nat) {
    && |chosen| == Min(limit, |events|)
    && NewestFirst(chosen)
    && multiset(chosen) <= multiset(events)
    && OmitsNothingNewer(chosen, events)
  }

  /** A queue's events, with the selection its query answers, or a failed query. */
  datatype Queue = Answers(events: seq<Event>, selection: seq<Event>) | Fails

  ghost predicate Honest(queue: Queue, limit: nat) {
    queue.Answers? ==> Newest(queue.selection, queue.events, limit)
  }

  function EventsOf(queue: Queue): seq<Event> {
    if queue.Answers? then queue.events else []
  }

  function AllEvents(queues: seq<Queue>): seq<Event> {
    if queues == [] then []
    else AllEvents(queues[..|queues| - 1]) + EventsOf(queues[|queues| - 1])
  }

  function SelectionOf(queue: Queue): seq<Event> {
    if queue.Answers? then queue.selection else []
  }

  function Selections(queues: seq<Queue>): seq<Event> {
    if queues == [] then []
    else Selections(queues[..|queues| - 1]) + SelectionOf(queues[|queues| - 1])
  }

  lemma InsertedInOrder(sorted: seq<Event>, at: nat, event: Event)
    requires NewestFirst(sorted) && at <= |sorted|
    requires forall i :: 0 <= i < at ==> sorted[i].emittedAt >= event.emittedAt
    requires at < |sorted| ==> sorted[at].emittedAt < event.emittedAt
    ensures NewestFirst(sorted[..at] + [event] + sorted[at..])
  {
  }

  lemma InsertedOnce(sorted: seq<Event>, at: nat, event: Event)
    requires at <= |sorted|
    ensures multiset(sorted[..at] + [event] + sorted[at..]) == multiset(sorted) + multiset{event}
  {
    assert sorted == sorted[..at] + sorted[at..];
  }

  method InsertByTime(event: Event, sorted: seq<Event>) returns (longer: seq<Event>)
    requires NewestFirst(sorted)
    ensures multiset(longer) == multiset(sorted) + multiset{event} && NewestFirst(longer)
  {
    var at := 0;
    while at < |sorted| && sorted[at].emittedAt >= event.emittedAt
      invariant 0 <= at <= |sorted|
      invariant forall i :: 0 <= i < at ==> sorted[i].emittedAt >= event.emittedAt
    {
      at := at + 1;
    }
    InsertedInOrder(sorted, at, event);
    InsertedOnce(sorted, at, event);
    longer := sorted[..at] + [event] + sorted[at..];
  }

  /** The library sort: some permutation that is in order. Its contract leaves ties open. */
  method SortByTime(events: seq<Event>) returns (sorted: seq<Event>)
    ensures multiset(sorted) == multiset(events) && NewestFirst(sorted)
  {
    sorted := [];
    for k := 0 to |events|
      invariant multiset(sorted) == multiset(events[..k]) && NewestFirst(sorted)
    {
      assert events[..k + 1] == events[..k] + [events[k]];
      sorted := InsertByTime(events[k], sorted);
    }
    assert events[..|events|] == events;
  }

  /** How many events are at least as new as a given time. */
  function AtLeast(events: seq<Event>, time: int): nat {
    if events == [] then 0 else (if events[0].emittedAt >= time then 1 else 0) + AtLeast(events[1..], time)
  }

  /** The selections together lose nothing unless a full selection outranks it. */
  ghost predicate Covers(chosen: seq<Event>, events: seq<Event>, limit: nat) {
    && multiset(chosen) <= multiset(events)
    && |chosen| <= |events| && (|chosen| < limit ==> |chosen| == |events|)
    && forall out :: multiset(events)[out] > multiset(chosen)[out] ==> AtLeast(chosen, out.emittedAt) >= limit
  }

  lemma {:induction false} AtLeastAll(events: seq<Event>, time: int)
    requires forall i :: 0 <= i < |events| ==> events[i].emittedAt >= time
    ensures AtLeast(events, time) == |events|
  {
    if events != [] { AtLeastAll(events[1..], time); }
  }

  /** A selection leaves something out only when it is full. */
  lemma OmittedOnlyWhenFull(events: seq<Event>, chosen: seq<Event>, limit: nat, out: Event)
    requires Newest(chosen, events, limit) && multiset(events)[out] > multiset(chosen)[out]
    ensures |chosen| == limit
  {
    var rest := multiset(events) - multiset(chosen);
    assert rest[out] > 0;
    assert multiset(events) == multiset(chosen) + rest;
    assert |multiset(events)| == |multiset(chosen)| + |rest|;
    assert |rest| > 0;
  }

  lemma NewestCovers(chosen: seq<Event>, events: seq<Event>, limit: nat)
    requires Newest(chosen, events, limit)
    ensures Covers(chosen, events, limit)
  {
    forall out: Event | multiset(events)[out] > multiset(chosen)[out]
      ensures AtLeast(chosen, out.emittedAt) >= limit
    {
      OmittedOnlyWhenFull(events, chosen, limit, out);
      AtLeastAll(chosen, out.emittedAt);
    }
  }

  lemma {:induction false} AtLeastConcat(a: seq<Event>, b: seq<Event>, time: int)
    ensures AtLeast(a + b, time) == AtLeast(a, time) + AtLeast(b, time)
  {
    if a == [] {
      assert a + b == b;
    } else {
      assert (a + b)[1..] == a[1..] + b;
      AtLeastConcat(a[1..], b, time);
    }
  }

  lemma CoversConcat(a: seq<Event>, as': seq<Event>, b: seq<Event>, bs: seq<Event>, limit: nat)
    requires Covers(a, as', limit) && Covers(b, bs, limit)
    ensures Covers(a + b, as' + bs, limit)
  {
    assert multiset(a + b) == multiset(a) + multiset(b);
    assert multiset(as' + bs) == multiset(as') + multiset(bs);
    forall out: Event | multiset(as' + bs)[out] > multiset(a + b)[out]
      ensures AtLeast(a + b, out.emittedAt) >= limit
    {
      AtLeastConcat(a, b, out.emittedAt);
      assert multiset(as')[out] > multiset(a)[out] || multiset(bs)[out] > multiset(b)[out];
    }
  }

  lemma {:induction false} SelectionsCover(queues: seq<Queue>, limit: nat)
    requires forall i :: 0 <= i < |queues| ==> Honest(queues[i], limit)
    ensures Covers(Selections(queues), AllEvents(queues), limit)
  {
    if queues != [] {
      var others, last := queues[..|queues| - 1], queues[|queues| - 1];
      SelectionsCover(others, limit);
      assert Honest(last, limit);
      if last.Answers? { NewestCovers(last.selection, last.events, limit); }
      CoversConcat(Selections(others), AllEvents(others), SelectionOf(last), EventsOf(last), limit);
    }
  }

  lemma PrefixFacts(sorted: seq<Event>, chosen: seq<Event>, events: seq<Event>, k: nat)
    requires multiset(sorted) == multiset(chosen) && multiset(chosen) <= multiset(events) && k <= |sorted|
    ensures |sorted| == |chosen| && multiset(sorted[..k]) <= multiset(events)
  {
    assert sorted == sorted[..k] + sorted[k..];
    assert |multiset(sorted)| == |sorted| && |multiset(chosen)| == |chosen|;
  }

  lemma TakeOut(a: seq<Event>, i: nat, time: int)
    requires i < |a|
    ensures multiset(a) == multiset(a[..i] + a[i + 1..]) + multiset{a[i]}
    ensures AtLeast(a, time) == AtLeast(a[..i] + a[i + 1..], time) + if a[i].emittedAt >= time then 1 else 0
  {
    assert a == a[..i] + [a[i]] + a[i + 1..];
    AtLeastConcat(a[..i], a[i + 1..], time);
    AtLeastConcat(a[..i] + [a[i]], a[i + 1..], time);
    AtLeastConcat(a[..i], [a[i]], time);
  }

  lemma Locate(a: seq<Event>, b: seq<Event>) returns (i: nat)
    requires a != [] && multiset(a) == multiset(b)
    ensures i < |b| && b[i] == a[0]
  {
    assert a[0] in multiset(b);
    i :| 0 <= i < |b| && b[i] == a[0];
  }

  lemma TakeFirst(a: seq<Event>)
    requires a != []
    ensures multiset(a) == multiset(a[1..]) + multiset{a[0]}
  {
    assert a == [a[0]] + a[1..];
  }

  lemma CancelOne(a: multiset<Event>, b: multiset<Event>, event: Event)
    requires a + multiset{event} == b + multiset{event}
    ensures a == b
  {
    assert a == (a + multiset{event}) - multiset{event};
    assert b == (b + multiset{event}) - multiset{event};
  }

  lemma {:induction false} AtLeastPermutes(a: seq<Event>, b: seq<Event>, time: int)
    requires multiset(a) == multiset(b)
    ensures AtLeast(a, time) == AtLeast(b, time)
    decreases |a|
  {
    if a == [] {
      assert |multiset(b)| == 0;
    } else {
      var i := Locate(a, b);
      TakeOut(b, i, time);
      TakeFirst(a);
      CancelOne(multiset(a[1..]), multiset(b[..i] + b[i + 1..]), a[0]);
      AtLeastPermutes(a[1..], b[..i] + b[i + 1..], time);
    }
  }

  /** In an ordered sequence the events at least as new as a time come first. */
  lemma {:induction false} AtLeastFirst(events: seq<Event>, time: int, i: nat)
    requires NewestFirst(events) && i < AtLeast(events, time)
    ensures i < |events| && events[i].emittedAt >= time
  {
    if events[0].emittedAt >= time {
      if i > 0 { AtLeastFirst(events[1..], time, i - 1); }
    } else {
      AtLeastFirst(events[1..], time, i);
    }
  }

  /** An event that a prefix lacks stands behind it. */
  lemma CutOff(sorted: seq<Event>, k: nat, out: Event) returns (j: nat)
    requires k <= |sorted| && multiset(sorted)[out] > multiset(sorted[..k])[out]
    ensures k <= j < |sorted| && sorted[j] == out
  {
    var rest := sorted[k..];
    assert sorted == sorted[..k] + rest;
    assert multiset(sorted) == multiset(sorted[..k]) + multiset(rest);
    assert out in rest;
    j :| 0 <= j < |rest| && rest[j] == out;
    j := k + j;
  }

  lemma CoveredPrefix(sorted: seq<Event>, chosen: seq<Event>, events: seq<Event>, limit: nat, i: nat, out: Event)
    requires Covers(chosen, events, limit) && multiset(sorted) == multiset(chosen) && NewestFirst(sorted)
    requires i < Min(limit, |sorted|)
    requires multiset(events)[out] > multiset(sorted[..Min(limit, |sorted|)])[out]
    ensures out.emittedAt <= sorted[i].emittedAt
  {
    if multiset(events)[out] > multiset(chosen)[out] {
      AtLeastPermutes(sorted, chosen, out.emittedAt);
      AtLeastFirst(sorted, out.emittedAt, i);
    } else {
      var j := CutOff(sorted, Min(limit, |sorted|), out);
    }
  }

  lemma PrefixOmitsNothingNewer(sorted: seq<Event>, chosen: seq<Event>, events: seq<Event>, limit: nat)
    requires Covers(chosen, events, limit) && multiset(sorted) == multiset(chosen) && NewestFirst(sorted)
    ensures OmitsNothingNewer(sorted[..Min(limit, |sorted|)], events)
  {
    var prefix := sorted[..Min(limit, |sorted|)];
    forall out: Event, i | multiset(events)[out] > multiset(prefix)[out] && 0 <= i < |prefix|
      ensures out.emittedAt <= prefix[i].emittedAt
    {
      CoveredPrefix(sorted, chosen, events, limit, i, out);
    }
  }

  /** The front of the sorted selections is a selection of the newest of all events they cover. */
  lemma PrefixIsNewest(sorted: seq<Event>, chosen: seq<Event>, events: seq<Event>, limit: nat)
    requires Covers(chosen, events, limit) && multiset(sorted) == multiset(chosen) && NewestFirst(sorted)
    ensures Newest(sorted[..Min(limit, |sorted|)], events, limit)
  {
    PrefixFacts(sorted, chosen, events, Min(limit, |sorted|));
    PrefixOmitsNothingNewer(sorted, chosen, events, limit);
  }

  /** The newest of the queues' newest events are the newest of all events. */
  lemma NewestOfNewest(queues: seq<Queue>, limit: nat, sorted: seq<Event>)
    requires forall i :: 0 <= i < |queues| ==> Honest(queues[i], limit)
    requires multiset(sorted) == multiset(Selections(queues)) && NewestFirst(sorted)
    ensures Newest(sorted[..Min(limit, |sorted|)], AllEvents(queues), limit)
  {
    SelectionsCover(queues, limit);
    PrefixIsNewest(sorted, Selections(queues), AllEvents(queues), limit);
  }

  /** The all-queues part of `handleEvents`: the result is a selection of the newest events over all queues
      whose query succeeds. */
  method HandleEvents(queues: seq<Queue>, limit: nat) returns (events: seq<Event>)
    requires forall i :: 0 <= i < |queues| ==> Honest(queues[i], limit)
    ensures Newest(events, AllEvents(queues), limit)
  {
    events := [];
    for k := 0 to |queues|
      invariant events == Selections(queues[..k])
    {
      assert queues[..k + 1][..k] == queues[..k];
      if queues[k].Fails? {
        continue;
      }
      events := events + queues[k].selection;
    }
    assert queues[..|queues|] == queues;
    events := SortByTime(events);
    NewestOfNewest(queues, limit, events);
    if |events| > limit {
      events := events[..limit];
    } else {
      assert events[..|events|] == events;
    }
  }

  /** The events of all queues that answer, queue after queue. */
  lemma {:induction false} AllEventsTold(queues: seq<Queue>, more: seq<Queue>, events: seq<Event>,
                                         selection: seq<Event>)
    ensures AllEvents(queues + more) == AllEvents(queues) + AllEvents(more)
    ensures AllEvents([Answers(events, selection)]) == events && AllEvents([Fails]) == []
    decreases |more|
  {
    assert [Answers(events, selection)][..0] == [] && [Fails][..0] == [];
    if more == [] {
      assert queues + more == queues;
    } else {
      var fewer, last := more[..|more| - 1], more[|more| - 1];
      assert (queues + more)[..|queues + more| - 1] == queues + fewer;
      AllEventsTold(queues, fewer, events, selection);
    }
  }
}
