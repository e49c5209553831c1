/**
 * The "Mes demandes" page (src/pages/requests/RequestsPage.tsx): the search and filter
 * applied to the user's requests, the per-status counts, the summary tiles, and the status
 * label and colour lookups. DashboardPage.tsx has character-for-character copies of the
 * label and colour lookups, which the Dashboard module reuses from here.
 */
module RequestList {
  import opened Wrappers
  import opened Types
  import opened Documents
  import opened JsText
  import opened Seqs

  /** The search box: an empty term matches everything; otherwise the document name or the city must contain it, ignoring case. */
  predicate MatchesSearch(r: Request, term: string) {
    var needle := ToLower(term);
    || term == ""
    || (match LookupConfig(r.documentType)
        case Some(config) => Includes(ToLower(config.name), needle)
        case None => false)    // `?.` yields undefined, which is falsy
    || Includes(ToLower(r.city), needle)
  }

  /** The predicate `filteredRequests` keeps a request by. */
  predicate Matches(r: Request, term: string, statusFilter: string, documentFilter: string) {
    && MatchesSearch(r, term)
    && (statusFilter == "all" || r.status == statusFilter)
    && (documentFilter == "all" || r.documentType == documentFilter)
  }

  /** `filteredRequests`: the requests that match, in their original order. */
  function FilteredRequests(rs: seq<Request>, term: string, statusFilter: string, documentFilter: string)
    : (out: seq<Request>)
    ensures IsSubsequence(out, rs)
    ensures forall r :: r in out <==> r in rs && Matches(r, term, statusFilter, documentFilter)
    ensures forall r :: multiset(out)[r] == if Matches(r, term, statusFilter, documentFilter) then multiset(rs)[r] else 0
  {
    var keep := (r: Request) => Matches(r, term, statusFilter, documentFilter);
    FilterIsSubsequence(keep, rs);
    FilterMembershipAll(keep, rs);
    FilterMultiplicity(keep, rs);
    Filter(keep, rs)
  }

  /** With an empty search and both filters at 'all', every request is listed. */
  lemma NoFilterListsAll(rs: seq<Request>)
    ensures FilteredRequests(rs, "", "all", "all") == rs
  {
    FilterAllPass((r: Request) => Matches(r, "", "all", "all"), rs);
  }

  /** A request whose document type has no catalog entry is found by its city alone. */
  lemma UnknownDocumentMatchesByCity(r: Request, term: string)
    requires forall d: DocumentType :: DocumentTypeKey(d) != r.documentType
    ensures MatchesSearch(r, term) <==> term == "" || Includes(ToLower(r.city), ToLower(term))
  {
    assert LookupConfig(r.documentType).None?;
  }

  /** `requests.filter(r => r.status === key).length` */
  function CountStatus(rs: seq<Request>, key: string): nat {
    |Filter((r: Request) => r.status == key, rs)|
  }

  lemma CountStatusUnfold(rs: seq<Request>, key: string)
    requires rs != []
    ensures CountStatus(rs, key) == (if rs[0].status == key then 1 else 0) + CountStatus(rs[1..], key)
  {
  }

  datatype StatusCounts = StatusCounts(
    all: nat, newCount: nat, assignedCount: nat, inProgressCount: nat, completedCount: nat,
    cancelledCount: nat)

  /** `statusCounts` */
  function CountsOf(rs: seq<Request>): (c: StatusCounts)
    ensures c.all == |rs|
    ensures c.newCount == CountStatus(rs, "new") && c.assignedCount == CountStatus(rs, "assigned")
    ensures c.inProgressCount == CountStatus(rs, "in_progress")
    ensures c.completedCount == CountStatus(rs, "completed") && c.cancelledCount == CountStatus(rs, "cancelled")
    ensures c.newCount + c.assignedCount + c.inProgressCount + c.completedCount + c.cancelledCount <= c.all
  {
    StatusTallyBound(rs);
    StatusCounts(|rs|, CountStatus(rs, "new"), CountStatus(rs, "assigned"), CountStatus(rs, "in_progress"),
                 CountStatus(rs, "completed"), CountStatus(rs, "cancelled"))
  }

  /** A status count is the length of the list shown when that status is picked in the filter. */
  lemma CountIsFilteredLength(rs: seq<Request>, key: string)
    requires key != "all"
    ensures |FilteredRequests(rs, "", key, "all")| == CountStatus(rs, key)
  {
    FilterAgree((r: Request) => Matches(r, "", key, "all"), (r: Request) => r.status == key, rs);
  }

  /** The number of requests whose status is one of the five tags. */
  function KnownCount(rs: seq<Request>): nat {
    |Filter((r: Request) => KnownStatus(r.status), rs)|
  }

  /** The five per-status counts add up to the number of requests with a known status. */
  lemma {:induction false} StatusTally(rs: seq<Request>)
    ensures CountStatus(rs, "new") + CountStatus(rs, "assigned") + CountStatus(rs, "in_progress")
            + CountStatus(rs, "completed") + CountStatus(rs, "cancelled") == KnownCount(rs)
  {
    if rs != [] {
      StatusTally(rs[1..]);
      CountStatusUnfold(rs, "new");
      CountStatusUnfold(rs, "assigned");
      CountStatusUnfold(rs, "in_progress");
      CountStatusUnfold(rs, "completed");
      CountStatusUnfold(rs, "cancelled");
    }
  }

  lemma StatusTallyBound(rs: seq<Request>)
    ensures CountStatus(rs, "new") + CountStatus(rs, "assigned") + CountStatus(rs, "in_progress")
            + CountStatus(rs, "completed") + CountStatus(rs, "cancelled") <= |rs|
  {
    StatusTally(rs);
  }

  /** When every status is one of the five tags, the per-status counts add up to the total. */
  lemma StatusCountsPartition(rs: seq<Request>)
    requires forall i :: 0 <= i < |rs| ==> KnownStatus(rs[i].status)
    ensures CountsOf(rs).newCount + CountsOf(rs).assignedCount + CountsOf(rs).inProgressCount
            + CountsOf(rs).completedCount + CountsOf(rs).cancelledCount == CountsOf(rs).all
  {
    StatusTally(rs);
    FilterAllPass((r: Request) => KnownStatus(r.status), rs);
  }

  /** A request being worked on: assigned to a delegate or in progress (not merely new). */
  predicate Underway(r: Request) {
    r.status == "assigned" || r.status == "in_progress"
  }

  /** The "En cours" tile: `statusCounts.assigned + statusCounts.in_progress`. */
  function UnderwayTile(rs: seq<Request>): (n: nat)
    ensures n == |Filter(Underway, rs)|
  {
    UnderwayTally(rs);
    CountsOf(rs).assignedCount + CountsOf(rs).inProgressCount
  }

  lemma {:induction false} UnderwayTally(rs: seq<Request>)
    ensures CountStatus(rs, "assigned") + CountStatus(rs, "in_progress") == |Filter(Underway, rs)|
  {
    if rs != [] {
      UnderwayTally(rs[1..]);
      CountStatusUnfold(rs, "assigned");
      CountStatusUnfold(rs, "in_progress");
    }
  }

  /** The amounts of a list of requests, added up. */
  function SumAmounts(rs: seq<Request>): int {
    if rs == [] then 0 else rs[0].totalAmount + SumAmounts(rs[1..])
  }

  lemma {:induction false} SumAmountsAppend(a: seq<Request>, b: seq<Request>)
    ensures SumAmounts(a + b) == SumAmounts(a) + SumAmounts(b)
  {
    if a == [] {
      assert a + b == b;
    } else {
      assert (a + b)[1..] == a[1..] + b;
      SumAmountsAppend(a[1..], b);
    }
  }

  predicate IsCompleted(r: Request) {
    r.status == "completed"
  }

  /**
   * "Total dépensé": `requests.reduce((sum, r) => r.status === 'completed' ? sum + r.total_amount : sum, 0)`,
   * a left fold over the list. It is the sum of the amounts of the completed requests.
   */
  function TotalSpent(rs: seq<Request>): (total: int)
    ensures total == SumAmounts(Filter(IsCompleted, rs))
  {
    if rs == [] then 0
    else
      var last := rs[|rs| - 1];
      var sum := TotalSpent(rs[..|rs| - 1]);
      assert rs == rs[..|rs| - 1] + [last];
      FilterAppend(IsCompleted, rs[..|rs| - 1], [last]);
      SumAmountsAppend(Filter(IsCompleted, rs[..|rs| - 1]), Filter(IsCompleted, [last]));
      if last.status == "completed" then sum + last.totalAmount else sum
  }

  /** Amounts of requests that are not completed never count towards the total spent. */
  lemma TotalSpentIgnoresOthers(rs: seq<Request>, r: Request)
    requires r.status != "completed"
    ensures TotalSpent(rs + [r]) == TotalSpent(rs)
  {
    assert (rs + [r])[..|rs + [r]| - 1] == rs;
  }

  /** The French label of each status. */
  function StatusLabel(s: RequestStatus): string {
    match s
    case New => "Nouvelle"
    case Assigned => "Assignée"
    case InProgress => "En cours"
    case Completed => "Terminée"
    case Cancelled => "Annulée"
  }

  /** `statusMap` inside `getStatusText`, keyed by the raw status tag. */
  const StatusLabels: map<string, string> :=
    map["new" := "Nouvelle", "assigned" := "Assignée", "in_progress" := "En cours",
        "completed" := "Terminée", "cancelled" := "Annulée"]

  /** `getStatusText(status)`: the label of a known status; any other tag is shown as it is. */
  function StatusText(key: string): (text: string)
    ensures ParseStatus(key).Some? ==> text == StatusLabel(ParseStatus(key).value)
    ensures ParseStatus(key).None? ==> text == key
  {
    if key in StatusLabels && StatusLabels[key] != "" then StatusLabels[key] else key
  }

  const GrayBadge: string := "bg-gray-100 text-gray-800"

  /** `getStatusColor(status)`: one badge style per status; 'new' and unknown tags share gray. */
  function StatusColor(key: string): (style: string)
    ensures style == GrayBadge <==> key == "new" || ParseStatus(key).None?
    ensures key == "completed" ==> style == "bg-green-100 text-green-800"
    ensures key == "cancelled" ==> style == "bg-red-100 text-red-800"
    ensures key == "in_progress" ==> style == "bg-blue-100 text-blue-800"
    ensures key == "assigned" ==> style == "bg-yellow-100 text-yellow-800"
  {
    if key == "completed" then "bg-green-100 text-green-800"
    else if key == "cancelled" then "bg-red-100 text-red-800"
    else if key == "in_progress" then "bg-blue-100 text-blue-800"
    else if key == "assigned" then "bg-yellow-100 text-yellow-800"
    else GrayBadge
  }

  /** Distinct known statuses get distinct badges, except that 'new' looks like an unknown tag. */
  lemma StatusColorsDistinct(s: RequestStatus, t: RequestStatus)
    requires s != t
    ensures StatusColor(StatusKey(s)) != StatusColor(StatusKey(t))
  {
  }
}
