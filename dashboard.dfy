/**
 * The dashboard (src/pages/dashboard/DashboardPage.tsx): the four statistics computed from
 * the user's most recent requests. The status label and colour lookups of this page are
 * identical to the list page's and are RequestList.StatusText and RequestList.StatusColor.
 */
module Dashboard {
  import opened Wrappers
  import opened Types
  import opened Seqs
  import opened RequestList

  /** The query's `.limit(10)`. */
  const RecentLimit: nat := 10

  /**
   * The rows the query returns: the first ten of the user's requests, newest first. The
   * ordering and the filter by user are done by the data store; `rows` is already in that order.
   */
  function RecentRows(rows: seq<Request>): (r: seq<Request>)
    ensures |r| <= RecentLimit && |r| <= |rows|
    ensures r == rows[..|r|]
    ensures |rows| <= RecentLimit ==> r == rows
    ensures |rows| > RecentLimit ==> |r| == RecentLimit
  {
    if |rows| <= RecentLimit then rows else rows[..RecentLimit]
  }

  datatype DashboardStats = DashboardStats(
    totalRequests: nat, pendingRequests: nat, completedRequests: nat, cancelledRequests: nat)

  /** A status shown as pending: `['new', 'assigned', 'in_progress'].includes(status)`. */
  predicate IsPending(r: Request) {
    r.status in ["new", "assigned", "in_progress"]
  }

  /**
   * The statistics `fetchDashboardData` computes from `requestsData`, which is None when the
   * store returns no data (each `|| 0` then yields 0).
   */
  function ComputeStats(data: Option<seq<Request>>): (s: DashboardStats)
    ensures data.None? ==> s == DashboardStats(0, 0, 0, 0)
    ensures data.Some? ==> s.totalRequests == |data.value|
    ensures data.Some? ==> s.completedRequests == CountStatus(data.value, "completed")
                           && s.cancelledRequests == CountStatus(data.value, "cancelled")
  {
    match data
    case None => DashboardStats(0, 0, 0, 0)
    case Some(rows) =>
      DashboardStats(|rows|, |Filter(IsPending, rows)|,
                     |Filter((r: Request) => r.status == "completed", rows)|,
                     |Filter((r: Request) => r.status == "cancelled", rows)|)
  }

  /** The total shown is never more than the query limit. */
  lemma TotalWithinLimit(rows: seq<Request>)
    ensures ComputeStats(Some(RecentRows(rows))).totalRequests <= RecentLimit
  {
  }

  /** Pending counts exactly the new, assigned and in-progress requests. */
  lemma {:induction false} PendingIsNewAssignedInProgress(rows: seq<Request>)
    ensures ComputeStats(Some(rows)).pendingRequests
            == CountStatus(rows, "new") + CountStatus(rows, "assigned") + CountStatus(rows, "in_progress")
  {
    if rows != [] {
      PendingIsNewAssignedInProgress(rows[1..]);
      CountStatusUnfold(rows, "new");
      CountStatusUnfold(rows, "assigned");
      CountStatusUnfold(rows, "in_progress");
    }
  }

  /** When every status is one of the five tags, pending, completed and cancelled make up the total. */
  lemma StatsPartition(rows: seq<Request>)
    requires forall i :: 0 <= i < |rows| ==> KnownStatus(rows[i].status)
    ensures ComputeStats(Some(rows)).totalRequests
            == ComputeStats(Some(rows)).pendingRequests + ComputeStats(Some(rows)).completedRequests
               + ComputeStats(Some(rows)).cancelledRequests
  {
    PendingIsNewAssignedInProgress(rows);
    StatusCountsPartition(rows);
  }

  /** The "À noter" tile, counted over the page's `requests` state (`requestsData || []`). */
  function ToRateTile(data: Option<seq<Request>>): (n: nat)
    ensures n == ComputeStats(data).completedRequests
  {
    CountStatus(data.GetOr([]), "completed")
  }
}
