/** One listing call (`GetWorkflows` of `store/memory/memory_store.go`): collect, sort, cut out a page. */
module ListingCalls {
  import opened Wrappers
  import opened StateMachines
  import opened WorkflowStore
  import opened Pagination

  const NO_MACHINE := Machine("", map[])

  /** A summary has no jobs and a definition without its machine. */
  function Shown(wf: Workflow, q: Query): Workflow {
    if q.summaryOnly then wf.(jobs := None, machine := NO_MACHINE) else wf
  }

  function IdsOf(s: seq<Workflow>): (ids: seq<Id>)
    ensures |ids| == |s| && forall i :: 0 <= i < |s| ==> ids[i] == s[i].id
  {
    seq(|s|, i requires 0 <= i < |s| => s[i].id)
  }

  predicate KeyedById(ws: Workflows) {
    forall id :: id in ws ==> ws[id].id == id && id != ""
  }

  /** Stored workflows that the query asks for, as it wants them shown, each once. */
  ghost predicate AllShown(ws: Workflows, q: Query, s: seq<Workflow>) {
    && Distinct(IdsOf(s))
    && forall i :: 0 <= i < |s| ==>
         && s[i].id in ws && s[i].definitionName == q.definitionName
         && (q.status == None || q.status == Some(s[i].status))
         && (q.resolvedByUser == None || q.resolvedByUser == Some(s[i].resolvedByUser))
         && s[i] == if q.summaryOnly then ws[s[i].id].(jobs := None, machine := NO_MACHINE) else ws[s[i].id]
  }

  predicate SortedByTime(s: seq<Workflow>, q: Query) {
    forall i, j :: 0 <= i < j < |s| ==>
      && (q.oldestFirst ==> s[i].createdAt <= s[j].createdAt)
      && (!q.oldestFirst ==> s[i].createdAt >= s[j].createdAt)
  }

  method Collect(ws: Workflows, q: Query) returns (workflows: seq<Workflow>)
    requires KeyedById(ws)
    ensures AllShown(ws, q, workflows)
    ensures forall id :: id in Matching(ws, q) ==> id in IdsOf(workflows)
  {
    workflows := [];
    var pending := ws.Keys;
    while pending != {}
      invariant pending <= ws.Keys && AllShown(ws, q, workflows)
      invariant forall i :: 0 <= i < |workflows| ==> workflows[i].id !in pending
      invariant forall id :: id in Matching(ws, q) && id !in pending ==> id in IdsOf(workflows)
      decreases pending
    {
      var id :| id in pending;
      pending := pending - {id};
      if MatchesQuery(ws[id], q) {
        ghost var before := workflows;
        workflows := workflows + [Shown(ws[id], q)];
        assert IdsOf(workflows) == IdsOf(before) + [id];
      }
    }
  }

  /** Puts a workflow behind those that do not come after it. */
  method Insert(sorted: seq<Workflow>, wf: Workflow, q: Query) returns (r: seq<Workflow>)
    requires SortedByTime(sorted, q)
    ensures SortedByTime(r, q)
    ensures exists p :: 0 <= p <= |sorted| && r == sorted[..p] + [wf] + sorted[p..]
  {
    var p := |sorted|;
    while p > 0 && KeyOf(sorted[p - 1], q) > KeyOf(wf, q)
      invariant 0 <= p <= |sorted|
      invariant forall k :: p <= k < |sorted| ==> KeyOf(sorted[k], q) > KeyOf(wf, q)
    {
      p := p - 1;
    }
    r := sorted[..p] + [wf] + sorted[p..];
  }

  /** Where the workflow at position `i` was before the one at `n` moved to `p`. */
  function From(i: nat, p: nat, n: nat): nat {
    if i < p || i > n then i else if i == p then n else i - 1
  }

  lemma InsertMoves(before: seq<Workflow>, wf: Workflow, rest: seq<Workflow>, p: nat)
    requires p <= |before|
    ensures var all, now := before + [wf] + rest, before[..p] + [wf] + before[p..] + rest;
            |now| == |all| && forall i :: 0 <= i < |now| ==> now[i] == all[From(i, p, |before|)]
  {
  }

  lemma MovedIsShown(ws: Workflows, q: Query, all: seq<Workflow>, now: seq<Workflow>, p: nat, n: nat)
    requires AllShown(ws, q, all) && p <= n < |all| == |now|
             && forall i :: 0 <= i < |now| ==> now[i] == all[From(i, p, n)]
    ensures AllShown(ws, q, now)
  {
    forall i, j | 0 <= i < j < |now| ensures IdsOf(now)[i] != IdsOf(now)[j] {
      var a, b := From(i, p, n), From(j, p, n);
      assert a != b && IdsOf(all)[a] == IdsOf(now)[i] && IdsOf(all)[b] == IdsOf(now)[j];
    }
  }

  lemma MovedIsStillThere(all: seq<Workflow>, now: seq<Workflow>, p: nat, n: nat)
    requires p <= n < |all| == |now| && forall i :: 0 <= i < |now| ==> now[i] == all[From(i, p, n)]
    ensures forall id :: id in IdsOf(all) ==> id in IdsOf(now)
  {
    forall id | id in IdsOf(all) ensures id in IdsOf(now) {
      var k :| 0 <= k < |all| && IdsOf(all)[k] == id;
      var i := if k < p || k > n then k else if k == n then p else k + 1;
      assert From(i, p, n) == k && IdsOf(now)[i] == id;
    }
  }

  lemma InsertKeeps(ws: Workflows, q: Query, before: seq<Workflow>, wf: Workflow, rest: seq<Workflow>,
                    r: seq<Workflow>, p: nat)
    requires AllShown(ws, q, before + [wf] + rest) && p <= |before| && r == before[..p] + [wf] + before[p..]
    ensures AllShown(ws, q, r + rest) && forall id :: id in IdsOf(before + [wf] + rest) ==> id in IdsOf(r + rest)
  {
    hide *;
    InsertMoves(before, wf, rest, p);
    MovedIsShown(ws, q, before + [wf] + rest, r + rest, p, |before|);
    MovedIsStillThere(before + [wf] + rest, r + rest, p, |before|);
  }

  method SortByCreatedAt(ghost ws: Workflows, q: Query, workflows: seq<Workflow>) returns (sorted: seq<Workflow>)
    requires AllShown(ws, q, workflows)
    ensures AllShown(ws, q, sorted) && SortedByTime(sorted, q)
    ensures forall id :: id in IdsOf(workflows) ==> id in IdsOf(sorted)
  {
    hide *;
    sorted := [];
    NothingToSort(q);
    Unsorted(sorted, workflows, 0);
    for i := 0 to |workflows|
      invariant AllShown(ws, q, sorted + workflows[i..]) && SortedByTime(sorted, q)
      invariant forall id :: id in IdsOf(workflows) ==> id in IdsOf(sorted + workflows[i..])
    {
      ghost var before := sorted;
      Unsorted(before, workflows, i);
      sorted := Insert(sorted, workflows[i], q);
      ghost var p :| 0 <= p <= |before| && sorted == before[..p] + [workflows[i]] + before[p..];
      InsertKeeps(ws, q, before, workflows[i], workflows[i + 1..], sorted, p);
    }
    Unsorted(sorted, workflows, |workflows|);
  }

  lemma Unsorted(sorted: seq<Workflow>, s: seq<Workflow>, i: nat)
    requires i <= |s|
    ensures i < |s| ==> sorted + s[i..] == sorted + [s[i]] + s[i + 1..]
    ensures i == |s| ==> sorted + s[i..] == sorted
    ensures i == 0 ==> [] + s[i..] == s
  {
  }

  lemma NothingToSort(q: Query)
    ensures SortedByTime([], q)
  {
  }

  lemma SortedIsListing(ws: Workflows, q: Query, s: seq<Workflow>)
    requires KeyedById(ws) && AllShown(ws, q, s) && SortedByTime(s, q)
    requires forall id :: id in Matching(ws, q) ==> id in IdsOf(s)
    ensures IsListing(Matching(ws, q), IdsOf(s))
  {
    forall i | 0 <= i < |s| ensures s[i].id in Matching(ws, q) && Matching(ws, q)[s[i].id] == KeyOf(s[i], q) {
    }
  }

  /** The last index at which the token is found, if any, decides where the page starts. */
  method FindStart(workflows: seq<Workflow>, lastWorkflowID: Id) returns (rangeStart: nat)
    requires Distinct(IdsOf(workflows)) && lastWorkflowID != ""
    ensures rangeStart == RangeStart(IdsOf(workflows), lastWorkflowID) <= |workflows|
  {
    rangeStart := 0;
    var ids := IdsOf(workflows);
    for i := 0 to |workflows|
      invariant if lastWorkflowID in ids[..i] then 1 <= rangeStart <= i && ids[rangeStart - 1] == lastWorkflowID
                else rangeStart == 0
    {
      if workflows[i].id == lastWorkflowID {
        rangeStart := i + 1;
      }
    }
    assert ids[..|workflows|] == ids;
    if lastWorkflowID in ids {
      DistinctIndex(ids, rangeStart - 1);
    }
  }

  /** The page begins right after the workflow that the token names, or at the front if it names none of them;
      it has as many as asked for, or all that are left, and names its last one if more are left. */
  predicate IsPage(listing: seq<Id>, limit: int, token: Id, start: nat, page: seq<Id>, next: Id) {
    && start + |page| <= |listing|
    && (if token != "" && token in listing then start > 0 && listing[start - 1] == token else start == 0)
    && page == listing[start..start + |page|]
    && |page| <= limit
    && (if start + |page| == |listing| then next == ""
        else |page| == limit && page != [] && next == page[|page| - 1])
  }

  /** A page of the store as some order of equal times lists it. */
  ghost predicate Answers(ws: Workflows, q: Query, token: Id, page: seq<Id>, next: Id) {
    exists listing, start :: ListsStore(ws, q, listing) && IsPage(listing, q.limit, token, start, page, next)
  }

  /** `parsed` is the token read as a UUID. */
  method GetWorkflows(store: MemoryStore, q: Query, pageToken: string, parsed: Option<Id>)
    returns (r: Result<(seq<Workflow>, Id), StoreError>)
    requires q.limit >= 1 && KeyedById(store.workflows)
    requires parsed.Some? ==> parsed.value != ""
    ensures r == Failure(InvalidPageToken) <==> pageToken != "" && parsed.None?
    ensures r.Failure? ==> r.error == InvalidPageToken
    ensures r.Success? ==>
              && AllShown(store.workflows, q, r.value.0) && SortedByTime(r.value.0, q)
              && |r.value.0| <= q.limit
              && Answers(store.workflows, q, if pageToken == "" then "" else parsed.value,
                         IdsOf(r.value.0), r.value.1)
  {
    hide KeyedById, AllShown, Answers, SortedByTime, Matching, Distinct, IsListing, ListsStore;
    var collected := Collect(store.workflows, q);
    var workflows := SortByCreatedAt(store.workflows, q, collected);
    SortedIsListing(store.workflows, q, workflows);
    ListsStoreIsListing(store.workflows, q, IdsOf(workflows));
    if pageToken != "" && parsed.None? {
      return Failure(InvalidPageToken);
    }
    var page, next := PageFrom(workflows, q, if pageToken == "" then "" else parsed.value, store.workflows);
    return Success((page, next));
  }

  method PageFrom(workflows: seq<Workflow>, q: Query, token: Id, ghost ws: Workflows)
    returns (page: seq<Workflow>, nextPageToken: Id)
    requires q.limit >= 1 && AllShown(ws, q, workflows) && SortedByTime(workflows, q)
    requires ListsStore(ws, q, IdsOf(workflows))
    ensures AllShown(ws, q, page) && SortedByTime(page, q) && |page| <= q.limit
    ensures Answers(ws, q, token, IdsOf(page), nextPageToken)
  {
    assert Distinct(IdsOf(workflows));
    hide *;
    var rangeStart := 0;
    StartsAtZero(IdsOf(workflows));
    if token != "" {
      rangeStart := FindStart(workflows, token);
    }
    var rangeEnd := rangeStart + q.limit;
    if rangeEnd > |workflows| {
      rangeEnd := |workflows|;
    }
    nextPageToken := "";
    if rangeEnd < |workflows| {
      nextPageToken := workflows[rangeEnd - 1].id;
    }
    page := workflows[rangeStart..rangeEnd];
    IdsOfPart(workflows, rangeStart, rangeEnd);
    AnswersBy(ws, q, token, IdsOf(workflows), rangeStart, rangeEnd);
    PartIsShown(ws, q, workflows, rangeStart, rangeEnd);
  }

  lemma StartsAtZero(listing: seq<Id>)
    ensures RangeStart(listing, "") == 0
  {
  }

  lemma IdsOfPart(s: seq<Workflow>, from: nat, end: nat)
    requires from <= end <= |s|
    ensures IdsOf(s[from..end]) == IdsOf(s)[from..end]
  {
  }

  lemma AnswersBy(ws: Workflows, q: Query, token: Id, listing: seq<Id>, start: nat, end: nat)
    requires q.limit >= 1 && ListsStore(ws, q, listing) && RangeStart(listing, token) == start <= |listing|
    requires end == if start + q.limit > |listing| then |listing| else start + q.limit
    ensures Answers(ws, q, token, listing[start..end], if end < |listing| then listing[end - 1] else "")
  {
    hide ListsStore;
    IsPageBy(listing, q.limit, token, start, end);
  }

  lemma IsPageBy(listing: seq<Id>, limit: int, token: Id, start: nat, end: nat)
    requires limit >= 1 && RangeStart(listing, token) == start <= |listing|
    requires end == if start + limit > |listing| then |listing| else start + limit
    ensures IsPage(listing, limit, token, start, listing[start..end],
                   if end < |listing| then listing[end - 1] else "")
  {
    assert |listing[start..end]| == end - start;
  }

  lemma PartIsShown(ws: Workflows, q: Query, s: seq<Workflow>, from: nat, end: nat)
    requires AllShown(ws, q, s) && SortedByTime(s, q) && from <= end <= |s|
    ensures AllShown(ws, q, s[from..end]) && SortedByTime(s[from..end], q)
  {
    assert forall i :: 0 <= i < end - from ==> IdsOf(s[from..end])[i] == IdsOf(s)[from + i];
  }
}
