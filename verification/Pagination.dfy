/** Habitat's task list. The server asks each queue for a bounded window of its newest runs, merges the
    windows, sorts them and cuts out one page. Run ids are ordered like their textual form. */
module Pagination {
  import opened Prelude

  datatype Run = Run(id: int, text: string)

  /** Newest first. */
  predicate Descending(runs: seq<Run>) {
    forall i, j :: 0 <= i < j < |runs| ==> runs[i].id > runs[j].id
  }

  ghost predicate DistinctIds(runs: seq<Run>) {
    forall i, j :: 0 <= i < j < |runs| ==> runs[i].id != runs[j].id
  }

  function Insert(run: Run, sorted: seq<Run>): (r: seq<Run>)
    ensures |r| == |sorted| + 1
  {
    if sorted == [] then [run]
    else if run.id > sorted[0].id then [run] + sorted
    else [sorted[0]] + Insert(run, sorted[1..])
  }

  /** The runs sorted by descending id, as `sort.Slice` leaves them. */
  function Sorted(runs: seq<Run>): (r: seq<Run>)
    ensures |r| == |runs|
  {
    if runs == [] then [] else Insert(runs[0], Sorted(runs[1..]))
  }

  // ----- Sorting -----

  predicate Fresh(id: int, runs: seq<Run>) {
    forall i :: 0 <= i < |runs| ==> runs[i].id != id
  }

  /** How many runs are newer than a given id. */
  function Newer(runs: seq<Run>, id: int): nat {
    if runs == [] then 0 else (if runs[0].id > id then 1 else 0) + Newer(runs[1..], id)
  }

  lemma {:induction false} NewerConcat(a: seq<Run>, b: seq<Run>, id: int)
    ensures Newer(a + b, id) == Newer(a, id) + Newer(b, id)
  {
    if a == [] {
      assert a + b == b;
    } else {
      assert (a + b)[1..] == a[1..] + b;
      NewerConcat(a[1..], b, id);
    }
  }

  lemma {:induction false} InsertAdds(run: Run, s: seq<Run>)
    ensures multiset(Insert(run, s)) == multiset{run} + multiset(s)
  {
    if s != [] {
      assert s == [s[0]] + s[1..];
      InsertAdds(run, s[1..]);
    }
  }

  lemma {:induction false} InsertNewer(run: Run, s: seq<Run>, id: int)
    ensures Newer(Insert(run, s), id) == (if run.id > id then 1 else 0) + Newer(s, id)
  {
    if s != [] && run.id <= s[0].id {
      InsertNewer(run, s[1..], id);
    }
  }

  lemma {:induction false} InsertBelow(run: Run, s: seq<Run>, bound: int)
    requires run.id < bound && forall i :: 0 <= i < |s| ==> s[i].id < bound
    ensures forall i :: 0 <= i < |Insert(run, s)| ==> Insert(run, s)[i].id < bound
  {
    if s != [] { InsertBelow(run, s[1..], bound); }
  }

  lemma {:induction false} InsertDescends(run: Run, s: seq<Run>)
    requires Descending(s) && Fresh(run.id, s)
    ensures Descending(Insert(run, s))
  {
    if s != [] && run.id < s[0].id {
      InsertDescends(run, s[1..]);
      InsertBelow(run, s[1..], s[0].id);
    }
  }

  lemma {:induction false} SortedKeeps(runs: seq<Run>, id: int)
    ensures multiset(Sorted(runs)) == multiset(runs)
    ensures Newer(Sorted(runs), id) == Newer(runs, id)
  {
    if runs != [] {
      SortedKeeps(runs[1..], id);
      InsertAdds(runs[0], Sorted(runs[1..]));
      InsertNewer(runs[0], Sorted(runs[1..]), id);
      assert runs == [runs[0]] + runs[1..];
    }
  }

  lemma SortedStaysFresh(runs: seq<Run>, id: int)
    requires Fresh(id, runs)
    ensures Fresh(id, Sorted(runs))
  {
    SortedKeeps(runs, id);
    forall i | 0 <= i < |runs|
      ensures Sorted(runs)[i].id != id
    {
      assert Sorted(runs)[i] in multiset(Sorted(runs));
    }
  }

  /** Sorting runs with distinct ids puts them in strictly descending order. */
  lemma {:induction false} SortedDescends(runs: seq<Run>)
    requires DistinctIds(runs)
    ensures Descending(Sorted(runs))
  {
    if runs != [] {
      SortedDescends(runs[1..]);
      SortedStaysFresh(runs[1..], runs[0].id);
      InsertDescends(runs[0], Sorted(runs[1..]));
    }
  }

  lemma {:induction false} InsertCommutes(x: Run, y: Run, s: seq<Run>)
    requires x.id != y.id
    ensures Insert(x, Insert(y, s)) == Insert(y, Insert(x, s))
  {
    if s != [] && x.id <= s[0].id && y.id <= s[0].id {
      InsertCommutes(x, y, s[1..]);
      assert ([s[0]] + Insert(x, s[1..]))[1..] == Insert(x, s[1..]);
      assert ([s[0]] + Insert(y, s[1..]))[1..] == Insert(y, s[1..]);
    } else if s != [] {
      if x.id > s[0].id { assert ([x] + s)[1..] == s; }
      if y.id > s[0].id { assert ([y] + s)[1..] == s; }
      if x.id <= s[0].id { assert ([s[0]] + Insert(x, s[1..]))[1..] == Insert(x, s[1..]); }
      if y.id <= s[0].id { assert ([s[0]] + Insert(y, s[1..]))[1..] == Insert(y, s[1..]); }
    }
  }

  lemma {:induction false} SortedPullsOut(before: seq<Run>, x: Run, after: seq<Run>)
    requires Fresh(x.id, before)
    ensures Sorted(before + [x] + after) == Insert(x, Sorted(before + after))
  {
    if before == [] {
      assert before + [x] + after == [x] + after && before + after == after;
    } else {
      assert (before + [x] + after)[1..] == before[1..] + [x] + after;
      assert (before + after)[1..] == before[1..] + after;
      SortedPullsOut(before[1..], x, after);
      InsertCommutes(x, before[0], Sorted(before[1..] + after));
    }
  }

  /** The first k of a sorted sequence. */
  function Top(runs: seq<Run>, k: nat): seq<Run> {
    var sorted := Sorted(runs);
    sorted[..Min(k, |sorted|)]
  }

  lemma {:induction false} NewerZero(s: seq<Run>, id: int)
    requires forall i :: 0 <= i < |s| ==> s[i].id <= id
    ensures Newer(s, id) == 0
  {
    if s != [] { NewerZero(s[1..], id); }
  }

  lemma {:induction false} NoneNewer(s: seq<Run>, id: int)
    requires Descending(s) && Newer(s, id) > 0
    ensures s != [] && s[0].id > id
  {
    if s[0].id <= id { NewerZero(s, id); }
  }

  lemma {:induction false} InsertPast(x: Run, s: seq<Run>, k: nat)
    requires Descending(s) && Newer(s, x.id) >= k
    ensures |s| >= k && Insert(x, s)[..k] == s[..k]
    decreases k
  {
    if k > 0 {
      NoneNewer(s, x.id);
      InsertPast(x, s[1..], k - 1);
      assert Insert(x, s) == [s[0]] + Insert(x, s[1..]);
      assert Insert(x, s)[..k] == [s[0]] + Insert(x, s[1..])[..k - 1];
    }
  }

  lemma {:induction false} NewerAll(s: seq<Run>, id: int)
    requires forall i :: 0 <= i < |s| ==> s[i].id > id
    ensures Newer(s, id) == |s|
  {
    if s != [] { NewerAll(s[1..], id); }
  }

  // ----- The server -----

  /** What a queue's query can answer: its matching runs, newest first, or a failure. */
  datatype Queue = Answers(runs: seq<Run>) | Fails

  datatype Window = Window(runs: seq<Run>, truncated: bool)

  /** `fetchQueueTaskCandidates`: asks for one row more than the limit to notice truncation. */
  method FetchQueueTaskCandidates(runs: seq<Run>, limit: int) returns (window: Window)
    ensures window == if limit > 0 && |runs| > limit then Window(runs[..limit], true) else Window(runs, false)
  {
    var queryLimit := limit;
    var tasks := runs;
    if queryLimit > 0 {
      queryLimit := queryLimit + 1;
      tasks := runs[..Min(queryLimit, |runs|)];
    }
    var truncated := false;
    if limit > 0 && |tasks| > limit {
      tasks := tasks[..limit];
      truncated := true;
    }
    window := Window(tasks, truncated);
  }

  datatype Page = Page(items: seq<Run>, total: int, hasMore: bool)

  /** A query's runs; the list handler skips a queue whose query fails. */
  function Rows(queue: Queue): seq<Run> {
    if queue.Answers? then queue.runs else []
  }

  function AllRuns(queues: seq<Queue>): seq<Run> {
    if queues == [] then [] else AllRuns(queues[..|queues| - 1]) + Rows(queues[|queues| - 1])
  }

  function Windowed(runs: seq<Run>, limit: int): seq<Run> {
    if limit > 0 && |runs| > limit then runs[..limit] else runs
  }

  function Merged(queues: seq<Queue>, limit: int): seq<Run> {
    if queues == [] then [] else Merged(queues[..|queues| - 1], limit) + Windowed(Rows(queues[|queues| - 1]), limit)
  }

  predicate Truncates(queue: Queue, limit: int) {
    limit > 0 && |Rows(queue)| > limit
  }

  predicate AnyTruncated(queues: seq<Queue>, limit: int) {
    exists i :: 0 <= i < |queues| && Truncates(queues[i], limit)
  }

  /** Free-text search keeps the matching runs, in order. */
  function Matching(runs: seq<Run>, search: Option<string -> bool>): seq<Run> {
    if search.None? || runs == [] then runs
    else
      var kept := Matching(runs[..|runs| - 1], search);
      if search.value(runs[|runs| - 1].text) then kept + [runs[|runs| - 1]] else kept
  }

  const MAX_INT := 0x7FFF_FFFF_FFFF_FFFF

  /** 64-bit wrap-around. */
  function Int64(x: int): int {
    (x + MAX_INT + 1) % (2 * MAX_INT + 2) - MAX_INT - 1
  }

  /** The window arithmetic of a page, up to the one extra row of a query, stays within machine integers. */
  predicate NoOverflow(page: int, perPage: int) {
    page >= 1 && perPage >= 1 && page * perPage + 2 <= MAX_INT
  }

  lemma OneMoreTruncated(queues: seq<Queue>, last: Queue, limit: int)
    ensures AnyTruncated(queues + [last], limit) <==> AnyTruncated(queues, limit) || Truncates(last, limit)
  {
    var more := queues + [last];
    if i :| 0 <= i < |queues| && Truncates(queues[i], limit) { assert Truncates(more[i], limit); }
    if Truncates(last, limit) { assert Truncates(more[|queues|], limit); }
  }

  /** The merge loop of `handleTasks`: a queue whose query fails is skipped. */
  method MergeCandidates(queues: seq<Queue>, limitPerQueue: int) returns (merged: seq<Run>, hasWindowTruncation: bool)
    ensures merged == Merged(queues, limitPerQueue)
    ensures hasWindowTruncation == AnyTruncated(queues, limitPerQueue)
  {
    merged := [];
    hasWindowTruncation := false;
    for k := 0 to |queues|
      invariant merged == Merged(queues[..k], limitPerQueue)
      invariant hasWindowTruncation == AnyTruncated(queues[..k], limitPerQueue)
    {
      assert queues[..k + 1][..k] == queues[..k];
      OneMoreTruncated(queues[..k], queues[k], limitPerQueue);
      assert queues[..k] + [queues[k]] == queues[..k + 1];
      if queues[k].Fails? {
        continue;
      }
      var window := FetchQueueTaskCandidates(queues[k].runs, limitPerQueue);
      merged := merged + window.runs;
      if window.truncated {
        hasWindowTruncation := true;
      }
    }
    assert queues[..|queues|] == queues;
  }

  /** A selection of runs in their order. */
  predicate Subsequence(chosen: seq<Run>, runs: seq<Run>)
    decreases |runs|
  {
    || chosen == []
    || (runs != [] && var n, m := |chosen| - 1, |runs| - 1;
        (Subsequence(chosen, runs[..m]) || (chosen[n] == runs[m] && Subsequence(chosen[..n], runs[..m]))))
  }

  /** A search keeps every run that matches, as often as it occurs, no other, and their order. */
  lemma {:induction false} SearchKeeps(runs: seq<Run>, matches: string -> bool, r: Run)
    ensures
      var kept := Matching(runs, Some(matches));
      && multiset(kept)[r] == (if matches(r.text) then multiset(runs)[r] else 0)
      && Subsequence(kept, runs) && |kept| <= |runs|
  {
    if runs != [] {
      var shorter, last := runs[..|runs| - 1], runs[|runs| - 1];
      SearchKeeps(shorter, matches, r);
      assert runs == shorter + [last];
      var kept := Matching(shorter, Some(matches));
      if matches(last.text) { assert (kept + [last])[..|kept|] == kept; }
    }
  }

  method SearchRuns(runs: seq<Run>, matches: string -> bool) returns (searched: seq<Run>)
    ensures searched == Matching(runs, Some(matches))
    ensures forall r :: multiset(searched)[r] == if matches(r.text) then multiset(runs)[r] else 0
    ensures Subsequence(searched, runs)
  {
    searched := [];
    for k := 0 to |runs|
      invariant searched == Matching(runs[..k], Some(matches))
    {
      assert runs[..k + 1][..k] == runs[..k];
      if matches(runs[k].text) {
        searched := searched + [runs[k]];
      }
    }
    assert runs[..|runs|] == runs;
    forall r
      ensures multiset(searched)[r] == if matches(r.text) then multiset(runs)[r] else 0
      ensures Subsequence(searched, runs)
    {
      SearchKeeps(runs, matches, r);
    }
  }

  lemma WindowInRange(page: int, perPage: int)
    requires NoOverflow(page, perPage)
    ensures 0 <= (page - 1) * perPage == Int64((page - 1) * perPage)
    ensures (page - 1) * perPage + perPage + 1 == Int64((page - 1) * perPage + perPage + 1)
  {
    assert (page - 1) * perPage == page * perPage - perPage;
    assert (page - 1) * perPage >= 0;
  }

  /** The end of `handleTasks`: total, page bounds and `hasMore` from the sorted runs. */
  method CutPage(merged: seq<Run>, pageStart: int, perPage: int, searching: bool, hasWindowTruncation: bool)
    returns (response: Page)
    requires pageStart >= 0 && perPage >= 1
    ensures
      var from, to := Min(pageStart, |merged|), Min(pageStart + perPage, |merged|);
      var exact := searching || !hasWindowTruncation;
      response == Page(merged[from..to], if exact then |merged| else -1, |merged| > pageStart + perPage || !exact)
  {
    var start := pageStart;
    var total := -1;
    if searching || !hasWindowTruncation {
      total := |merged|;
    }
    if start > |merged| {
      start := |merged|;
    }
    var end := start + perPage;
    if end > |merged| {
      end := |merged|;
    }
    var hasMore := |merged| > end || hasWindowTruncation;
    if total >= 0 {
      hasMore := end < total;
    }
    response := Page(merged[start..end], total, hasMore);
  }

  // ----- Reference: sort everything, then cut -----

  function LargestQueue(queues: seq<Queue>): nat {
    if queues == [] then 0 else Max(LargestQueue(queues[..|queues| - 1]), |Rows(queues[|queues| - 1])|)
  }

  /** The page of a full sort. The total is withheld when some queue holds more than one run past the page. */
  function ListPage(matching: seq<Run>, start: nat, perPage: nat, largestQueue: nat): Page {
    var n := |matching|;
    Page(
      Sorted(matching)[Min(start, n)..Min(start + perPage, n)],
      if largestQueue > start + perPage + 1 then -1 else n,
      n > start + perPage)
  }

  // ----- What a page is -----

  /** The runs of all queues that answer, queue after queue. */
  lemma {:induction false} AllRunsTold(queues: seq<Queue>, more: seq<Queue>, runs: seq<Run>)
    ensures AllRuns(queues + more) == AllRuns(queues) + AllRuns(more)
    ensures AllRuns([Answers(runs)]) == runs && AllRuns([Fails]) == []
    decreases |more|
  {
    assert [Answers(runs)][..0] == [] && [Fails][..0] == [];
    if more == [] {
      assert queues + more == queues;
    } else {
      var fewer, last := more[..|more| - 1], more[|more| - 1];
      assert (queues + more)[..|queues + more| - 1] == queues + fewer;
      AllRunsTold(queues, fewer, runs);
    }
  }

  lemma {:induction false} NewerAt(sorted: seq<Run>, k: nat)
    requires Descending(sorted) && k < |sorted|
    ensures Newer(sorted, sorted[k].id) == k
  {
    if k == 0 {
      NewerZero(sorted, sorted[0].id);
    } else {
      NewerAt(sorted[1..], k - 1);
    }
  }

  lemma InSorted(runs: seq<Run>, r: Run)
    ensures r in Sorted(runs) <==> r in runs
  {
    SortedKeeps(runs, r.id);
    assert r in runs <==> r in multiset(runs);
    assert r in Sorted(runs) <==> r in multiset(Sorted(runs));
  }

  lemma SliceRank(sorted: seq<Run>, from: nat, to: nat, r: Run)
    requires Descending(sorted) && from <= to <= |sorted| && r in sorted[from..to]
    ensures r in sorted && from <= Newer(sorted, r.id) < to
  {
    var k :| 0 <= k < to - from && sorted[from..to][k] == r;
    assert sorted[from + k] == r;
    NewerAt(sorted, from + k);
  }

  lemma RankSlice(sorted: seq<Run>, from: nat, to: nat, r: Run)
    requires Descending(sorted) && from <= to <= |sorted| && r in sorted && from <= Newer(sorted, r.id) < to
    ensures r in sorted[from..to]
  {
    var k :| 0 <= k < |sorted| && sorted[k] == r;
    NewerAt(sorted, k);
    assert sorted[from..to][k - from] == r;
  }

  /** A slice of the sorted runs holds those with a rank in it. */
  lemma SliceTold(runs: seq<Run>, from: nat, to: nat, r: Run)
    requires DistinctIds(runs) && from <= to <= |runs|
    ensures r in Sorted(runs)[from..to] <==> r in runs && from <= Newer(runs, r.id) < to
  {
    var sorted := Sorted(runs);
    SortedDescends(runs);
    InSorted(runs, r);
    SortedKeeps(runs, r.id);
    if r in sorted[from..to] { SliceRank(sorted, from, to, r); }
    if r in sorted && from <= Newer(sorted, r.id) < to { RankSlice(sorted, from, to, r); }
  }

  /** Each run has a rank below the number of runs. */
  lemma MemberRank(runs: seq<Run>, r: Run)
    requires DistinctIds(runs) && r in runs
    ensures Newer(runs, r.id) < |runs|
  {
    assert Sorted(runs)[0..|runs|] == Sorted(runs);
    InSorted(runs, r);
    SliceTold(runs, 0, |runs|, r);
  }

  lemma ItemTold(runs: seq<Run>, start: nat, perPage: nat, r: Run)
    requires DistinctIds(runs)
    ensures
      r in Sorted(runs)[Min(start, |runs|)..Min(start + perPage, |runs|)] <==>
      r in runs && start <= Newer(runs, r.id) < start + perPage
  {
    var from, to := Min(start, |runs|), Min(start + perPage, |runs|);
    SliceTold(runs, from, to, r);
    if r in runs { MemberRank(runs, r); }
  }

  lemma SliceDescends(sorted: seq<Run>, from: nat, to: nat)
    requires Descending(sorted) && from <= to <= |sorted|
    ensures Descending(sorted[from..to])
  {
  }

  /** A run is on a page exactly when as many runs are newer as the pages before hold, and not as many as this page and
      those; the page is sorted. */
  lemma ItemsTold(matching: seq<Run>, start: nat, perPage: nat)
    requires DistinctIds(matching)
    ensures
      var items := Sorted(matching)[Min(start, |matching|)..Min(start + perPage, |matching|)];
      && Descending(items)
      && (forall r :: r in items <==> r in matching && start <= Newer(matching, r.id) < start + perPage)
  {
    SortedDescends(matching);
    SliceDescends(Sorted(matching), Min(start, |matching|), Min(start + perPage, |matching|));
    forall r
      ensures r in Sorted(matching)[Min(start, |matching|)..Min(start + perPage, |matching|)] <==>
              r in matching && start <= Newer(matching, r.id) < start + perPage
    {
      ItemTold(matching, start, perPage, r);
    }
  }

  // ----- The windows suffice -----

  lemma DistinctParts(a: seq<Run>, b: seq<Run>, c: seq<Run>)
    requires DistinctIds(a + b + c)
    ensures DistinctIds(a + c) && DistinctIds(b)
    ensures forall i :: 0 <= i < |b| ==> Fresh(b[i].id, a) && Fresh(b[i].id, c)
  {
    var all := a + b + c;
    forall i, j | 0 <= i < j < |a + c|
      ensures (a + c)[i].id != (a + c)[j].id
    {
      var at := (k: int) => if k < |a| then k else k + |b|;
      assert (a + c)[i] == all[at(i)] && (a + c)[j] == all[at(j)];
    }
    forall i, j | 0 <= i < j < |b|
      ensures b[i].id != b[j].id
    {
      assert b[i] == all[|a| + i] && b[j] == all[|a| + j];
    }
    forall i, j | 0 <= i < |b| && 0 <= j < |a|
      ensures a[j].id != b[i].id
    {
      assert a[j] == all[j] && b[i] == all[|a| + i];
    }
    forall i, j | 0 <= i < |b| && 0 <= j < |c|
      ensures c[j].id != b[i].id
    {
      assert c[j] == all[|a| + |b| + j] && b[i] == all[|a| + i];
    }
  }

  /** Dropping the oldest run of a queue that still has k newer ones does not change the top k. */
  lemma DropOldest(before: seq<Run>, queue: seq<Run>, after: seq<Run>, k: nat)
    requires |queue| > k && Descending(queue) && DistinctIds(before + queue + after)
    ensures
      var fewer := before + queue[..|queue| - 1] + after;
      DistinctIds(fewer) && Top(before + queue + after, k) == Top(fewer, k)
  {
    var n := |queue| - 1;
    var x, rest := queue[n], queue[..n];
    var prefix := before + rest;
    assert before + queue + after == prefix + [x] + after;
    DistinctParts(prefix, [x], after);
    assert [x][0] == x;
    SortedPullsOut(prefix, x, after);
    var sorted := Sorted(prefix + after);
    SortedDescends(prefix + after);
    SortedKeeps(prefix + after, x.id);
    NewerConcat(prefix, after, x.id);
    NewerConcat(before, rest, x.id);
    NewerAll(rest, x.id);
    InsertPast(x, sorted, k);
  }

  lemma {:induction false} DropTail(before: seq<Run>, queue: seq<Run>, after: seq<Run>, limit: nat, k: nat)
    requires k <= limit <= |queue| && Descending(queue) && DistinctIds(before + queue + after)
    ensures
      var fewer := before + queue[..limit] + after;
      DistinctIds(fewer) && Top(before + queue + after, k) == Top(fewer, k)
    decreases |queue|
  {
    if |queue| == limit {
      assert queue[..limit] == queue;
    } else {
      DropOldest(before, queue, after, k);
      var rest := queue[..|queue| - 1];
      DropTail(before, rest, after, limit, k);
      assert rest[..limit] == queue[..limit];
    }
  }

  /** Keeping only a window of each queue does not change the top of the merged runs. */
  lemma {:induction false} WindowsKeepTop(queues: seq<Queue>, after: seq<Run>, limit: nat, k: nat)
    requires 0 < limit && k <= limit
    requires forall i :: 0 <= i < |queues| ==> Descending(Rows(queues[i]))
    requires DistinctIds(AllRuns(queues) + after)
    ensures Top(AllRuns(queues) + after, k) == Top(Merged(queues, limit) + after, k)
    decreases |queues|
  {
    if queues != [] {
      var others, runs := queues[..|queues| - 1], Rows(queues[|queues| - 1]);
      var window := Windowed(runs, limit);
      if |runs| > limit {
        DropTail(AllRuns(others), runs, after, limit, k);
      }
      assert AllRuns(others) + window + after == AllRuns(others) + (window + after);
      WindowsKeepTop(others, window + after, limit, k);
      assert Merged(others, limit) + (window + after) == Merged(others, limit) + window + after;
    }
  }

  /** Truncation, seen from the queue sizes. */
  lemma {:induction false} TruncationFacts(queues: seq<Queue>, limit: int)
    requires limit >= 0
    ensures AnyTruncated(queues, limit) <==> limit > 0 && LargestQueue(queues) > limit
    ensures !AnyTruncated(queues, limit) ==> Merged(queues, limit) == AllRuns(queues)
    ensures AnyTruncated(queues, limit) ==> |Merged(queues, limit)| >= limit
    ensures |AllRuns(queues)| >= LargestQueue(queues)
    decreases |queues|
  {
    if queues != [] {
      var others, last := queues[..|queues| - 1], queues[|queues| - 1];
      TruncationFacts(others, limit);
      assert AnyTruncated(queues, limit) <==> AnyTruncated(others, limit) || Truncates(last, limit) by {
        assert forall i :: 0 <= i < |others| ==> others[i] == queues[i];
        if AnyTruncated(queues, limit) {
          var i :| 0 <= i < |queues| && Truncates(queues[i], limit);
          if i < |others| { assert Truncates(others[i], limit); }
        }
      }
    }
  }

  /** What a page needs from the merged windows. */
  lemma WindowSuffices(queues: seq<Queue>, limit: int, k: nat)
    requires limit >= 0 && (limit > 0 ==> limit > k)
    requires forall i :: 0 <= i < |queues| ==> Descending(Rows(queues[i]))
    requires DistinctIds(AllRuns(queues))
    ensures AnyTruncated(queues, limit) <==> limit > 0 && LargestQueue(queues) > limit
    ensures !AnyTruncated(queues, limit) ==> Merged(queues, limit) == AllRuns(queues)
    ensures AnyTruncated(queues, limit) ==>
      |AllRuns(queues)| > k && |Merged(queues, limit)| > k && Top(AllRuns(queues), k) == Top(Merged(queues, limit), k)
  {
    TruncationFacts(queues, limit);
    if limit > 0 {
      assert AllRuns(queues) + [] == AllRuns(queues) && Merged(queues, limit) + [] == Merged(queues, limit);
      WindowsKeepTop(queues, [], limit, k);
    }
  }

  /** The page of truncated windows that agree with all runs on the newest k. */
  lemma TruncatedPage(all: seq<Run>, merged: seq<Run>, start: nat, perPage: nat, largestQueue: nat)
    requires
      var k := start + perPage;
      |all| > k && |merged| > k && Top(all, k) == Top(merged, k) && largestQueue > k + 1
    ensures ListPage(all, start, perPage, largestQueue) == Page(Sorted(merged)[start..start + perPage], -1, true)
  {
    var k := start + perPage;
    var ours, theirs := Sorted(merged), Sorted(all);
    assert ours[..k] == theirs[..k];
    assert ours[start..k] == ours[..k][start..] && theirs[start..k] == theirs[..k][start..];
  }

  /** The page when no window was truncated. */
  lemma ExactPage(all: seq<Run>, start: nat, perPage: nat, largestQueue: nat)
    requires largestQueue <= start + perPage + 1
    ensures
      var from, to := Min(start, |all|), Min(start + perPage, |all|);
      ListPage(all, start, perPage, largestQueue) == Page(Sorted(all)[from..to], |all|, |all| > start + perPage)
  {
  }

  /** Without a search, the merged windows give the page of the full sort. */
  lemma BrowsedPage(queues: seq<Queue>, start: nat, perPage: nat)
    requires forall i :: 0 <= i < |queues| ==> Descending(Rows(queues[i]))
    requires DistinctIds(AllRuns(queues))
    ensures
      var merged, truncated := Merged(queues, start + perPage + 1), AnyTruncated(queues, start + perPage + 1);
      var from, to := Min(start, |merged|), Min(start + perPage, |merged|);
      && (truncated ==> |merged| > start + perPage)
      && ListPage(AllRuns(queues), start, perPage, LargestQueue(queues))
           == Page(Sorted(merged)[from..to], if truncated then -1 else |merged|,
                   truncated || |merged| > start + perPage)
  {
    var k := start + perPage;
    WindowSuffices(queues, k + 1, k);
    if AnyTruncated(queues, k + 1) {
      TruncatedPage(AllRuns(queues), Merged(queues, k + 1), start, perPage, LargestQueue(queues));
    } else {
      ExactPage(AllRuns(queues), start, perPage, LargestQueue(queues));
    }
  }

  /** The merged windows, or the searched runs, give the page of the full sort. */
  lemma CutIsPage(queues: seq<Queue>, start: nat, perPage: nat, search: Option<string -> bool>,
                  merged: seq<Run>, truncated: bool)
    requires forall i :: 0 <= i < |queues| ==> Descending(Rows(queues[i]))
    requires DistinctIds(AllRuns(queues))
    requires
      var limit := if search.Some? then 0 else start + perPage + 1;
      merged == Matching(Merged(queues, limit), search) && truncated == AnyTruncated(queues, limit)
    ensures
      var from, to := Min(start, |merged|), Min(start + perPage, |merged|);
      && (truncated ==> |merged| > start + perPage && search.None?)
      && ListPage(Matching(AllRuns(queues), search), start, perPage, if search.Some? then 0 else LargestQueue(queues))
           == Page(Sorted(merged)[from..to], if truncated then -1 else |merged|,
                   truncated || |merged| > start + perPage)
  {
    if search.Some? {
      WindowSuffices(queues, 0, start + perPage);
    } else {
      BrowsedPage(queues, start, perPage);
    }
  }

  lemma {:induction false} MatchingDistinct(runs: seq<Run>, matches: string -> bool)
    requires DistinctIds(runs)
    ensures DistinctIds(Matching(runs, Some(matches)))
    ensures forall r :: r in Matching(runs, Some(matches)) ==> r in runs
  {
    if runs != [] {
      var shorter := runs[..|runs| - 1];
      MatchingDistinct(shorter, matches);
      var kept := Matching(shorter, Some(matches));
      forall i | 0 <= i < |kept|
        ensures kept[i].id != runs[|runs| - 1].id
      {
        assert kept[i] in kept;
        assert kept[i] in shorter;
      }
    }
  }

  /** What a search finds among distinct runs. */
  lemma FoundTold(runs: seq<Run>, search: Option<string -> bool>)
    requires DistinctIds(runs)
    ensures
      var found := Matching(runs, search);
      && DistinctIds(found)
      && forall r :: r in found <==> r in runs && (search.Some? ==> search.value(r.text))
  {
    if search.Some? {
      var found := Matching(runs, search);
      forall r
        ensures r in found <==> r in runs && search.value(r.text)
      {
        SearchKeeps(runs, search.value, r);
        assert r in found <==> multiset(found)[r] > 0;
        assert r in runs <==> multiset(runs)[r] > 0;
      }
      MatchingDistinct(runs, search.value);
    }
  }

  // ----- The task list -----

  /** What a response says of the runs of all queues: its items are the matching runs that have neither fewer newer
      matching runs than the pages before hold nor as many as those and this page, newest first; more follow exactly
      when there are more; the total is the number of matching runs, or is withheld without a search when some
      queue holds more than one run past the page. */
  ghost predicate IsPageOf(response: Page, queues: seq<Queue>, start: nat, perPage: nat,
                           search: Option<string -> bool>) {
    var found := Matching(AllRuns(queues), search);
    && Descending(response.items)
    && (forall r :: r in response.items <==>
          r in AllRuns(queues) && (search.Some? ==> search.value(r.text)) &&
          start <= Newer(found, r.id) < start + perPage)
    && (response.hasMore <==> |found| > start + perPage)
    && (response.total == |found| <==> search.Some? || LargestQueue(queues) <= start + perPage + 1)
    && (response.total == -1 <==> search.None? && LargestQueue(queues) > start + perPage + 1)
  }

  lemma ResponseTold(queues: seq<Queue>, start: nat, perPage: nat, search: Option<string -> bool>)
    requires DistinctIds(AllRuns(queues))
    ensures
      var largestQueue := if search.Some? then 0 else LargestQueue(queues);
      IsPageOf(ListPage(Matching(AllRuns(queues), search), start, perPage, largestQueue), queues, start, perPage,
               search)
  {
    FoundTold(AllRuns(queues), search);
    ItemsTold(Matching(AllRuns(queues), search), start, perPage);
  }

  /** The part of `handleTasks` from the window arithmetic to the response. */
  method HandleTasks(queues: seq<Queue>, page: int, perPage: int, search: Option<string -> bool>)
    returns (response: Page)
    requires NoOverflow(page, perPage)
    requires forall i :: 0 <= i < |queues| ==> Descending(Rows(queues[i]))
    requires DistinctIds(AllRuns(queues))
    ensures (page - 1) * perPage >= 0
    ensures response == ListPage(Matching(AllRuns(queues), search), (page - 1) * perPage, perPage,
                                 if search.Some? then 0 else LargestQueue(queues))
    ensures IsPageOf(response, queues, (page - 1) * perPage, perPage, search)
  {
    WindowInRange(page, perPage);
    var start := Int64((page - 1) * perPage);
    var windowSize := Int64(start + perPage + 1);
    if windowSize < perPage + 1 {
      windowSize := perPage + 1;
    }
    var limitPerQueue := windowSize;
    if search.Some? {
      limitPerQueue := 0;
    }
    var merged, hasWindowTruncation := MergeCandidates(queues, limitPerQueue);
    if search.Some? {
      merged := SearchRuns(merged, search.value);
    }
    CutIsPage(queues, start, perPage, search, merged, hasWindowTruncation);
    response := CutPage(Sorted(merged), start, perPage, search.Some?, hasWindowTruncation);
    ResponseTold(queues, start, perPage, search);
  }
}
