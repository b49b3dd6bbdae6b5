/** The task-run view of habitat: it walks the pages of one task's runs until the server reports no more. */
module TaskRuns {
  import opened Prelude
  import opened Pagination

  const RUNS_PAGE_SIZE := 200
  const MAX_RUNS_PAGE_FETCH := 1000

  datatype WalkError = TooManyPages | Stalled

  function CeilDiv(n: nat, d: nat): nat
    requires d > 0
  {
    (n + d - 1) / d
  }

  /** One more page of a list. */
  lemma PageAppends(all: seq<Run>, page: nat)
    requires page >= 1
    ensures
      var from := Min((page - 1) * RUNS_PAGE_SIZE, |all|);
      var end := Min((page - 1) * RUNS_PAGE_SIZE + RUNS_PAGE_SIZE, |all|);
      0 <= from <= end <= |all| && all[..from] + all[from..end] == all[..Min(page * RUNS_PAGE_SIZE, |all|)]
  {
  }

  /** The view's request for one page of all runs. */
  method FetchTasks(queues: seq<Queue>, page: int) returns (items: seq<Run>, hasMore: bool)
    requires 1 <= page <= MAX_RUNS_PAGE_FETCH
    requires forall i :: 0 <= i < |queues| ==> Descending(Rows(queues[i]))
    requires DistinctIds(AllRuns(queues))
    ensures
      var all := Sorted(AllRuns(queues));
      && items == all[Min((page - 1) * RUNS_PAGE_SIZE, |all|)..Min((page - 1) * RUNS_PAGE_SIZE + RUNS_PAGE_SIZE, |all|)]
      && (hasMore <==> |all| > page * RUNS_PAGE_SIZE)
  {
    var response := HandleTasks(queues, page, RUNS_PAGE_SIZE, None);
    items, hasMore := response.items, response.hasMore;
  }

  /** Walking an unchanging list gives every run once, newest first, in max(1, ceil(n / 200)) requests. The
      walk fails exactly when there are more runs than a thousand pages hold, and never stalls. */
  method FetchRunsForTask(id: string, queues: seq<Queue>) returns (runs: Result<seq<Run>, WalkError>, requests: int)
    requires forall i :: 0 <= i < |queues| ==> Descending(Rows(queues[i]))
    requires DistinctIds(AllRuns(queues))
    ensures id == "" ==> runs == Ok([]) && requests == 0
    ensures id != "" && |AllRuns(queues)| <= 200_000 ==>
      runs == Ok(Sorted(AllRuns(queues))) && requests == Max(1, CeilDiv(|AllRuns(queues)|, 200))
    ensures id != "" && |AllRuns(queues)| > 200_000 ==> runs == Err(TooManyPages) && requests == 1000
  {
    if id == "" {
      return Ok([]), 0;
    }
    ghost var all := Sorted(AllRuns(queues));
    var currentPage := 1;
    var hasMore := true;
    var results: seq<Run> := [];
    while hasMore
      invariant 1 <= currentPage <= MAX_RUNS_PAGE_FETCH + 1
      invariant results == all[..Min((currentPage - 1) * RUNS_PAGE_SIZE, |all|)]
      invariant hasMore <==> currentPage == 1 || |all| > (currentPage - 1) * RUNS_PAGE_SIZE
      invariant currentPage > 2 ==> |all| > (currentPage - 2) * RUNS_PAGE_SIZE
      decreases MAX_RUNS_PAGE_FETCH + 1 - currentPage, hasMore
    {
      if currentPage > MAX_RUNS_PAGE_FETCH {
        return Err(TooManyPages), currentPage - 1;
      }
      var items, more := FetchTasks(queues, currentPage);
      PageAppends(all, currentPage);
      results := results + items;
      hasMore := more;
      if hasMore && |items| == 0 {
        return Err(Stalled), currentPage;
      }
      currentPage := currentPage + 1;
    }
    assert all[..|all|] == all;
    return Ok(results), currentPage - 1;
  }
}
