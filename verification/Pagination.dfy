/** Listing workflows page by page (`GetWorkflows` of `store/memory/memory_store.go`). Every call sorts
    anew and starts from a map visited in any order, so two calls may order equal creation times
    differently. */
module Pagination {
  import opened Wrappers
  import opened Replay
  import opened StateMachines
  import opened WorkflowStore

  datatype Query = Query(definitionName: string, status: Option<WorkflowStatus>, resolvedByUser: Option<bool>,
                         oldestFirst: bool, summaryOnly: bool, limit: int)

  predicate MatchesQuery(wf: Workflow, q: Query) {
    && wf.definitionName == q.definitionName
    && (q.status.Some? ==> wf.status == q.status.value)
    && (q.resolvedByUser.Some? ==> wf.resolvedByUser == q.resolvedByUser.value)
  }

  /** The matching workflows, each with the place in time that the listing sorts by. */
  type Keys = map<Id, int>

  function KeyOf(wf: Workflow, q: Query): int {
    if q.oldestFirst then wf.createdAt else -wf.createdAt
  }

  function Matching(ws: Workflows, q: Query): Keys {
    map id | id in ws && MatchesQuery(ws[id], q) :: KeyOf(ws[id], q)
  }

  // ---------- listings and pages ----------

  predicate Distinct(s: seq<Id>) {
    forall i, j :: 0 <= i < j < |s| ==> s[i] != s[j]
  }

  predicate InOrder(keys: Keys, s: seq<Id>)
    requires forall id :: id in s ==> id in keys
  {
    forall i, j :: 0 <= i < j < |s| ==> keys[s[i]] <= keys[s[j]]
  }

  /** All matching workflows, each once, in order of time. */
  ghost predicate IsListing(keys: Keys, s: seq<Id>) {
    Distinct(s) && (forall id :: id in s <==> id in keys) && InOrder(keys, s)
  }

  /** The same, on the records' own fields: every stored workflow of the definition asked for, with the status
      and the resolution asked for, each once, the oldest or the newest first. */
  ghost predicate ListsStore(ws: Workflows, q: Query, s: seq<Id>) {
    && Distinct(s)
    && (forall id :: id in s <==>
          && id in ws && ws[id].definitionName == q.definitionName
          && (q.status == None || q.status == Some(ws[id].status))
          && (q.resolvedByUser == None || q.resolvedByUser == Some(ws[id].resolvedByUser)))
    && forall i, j :: 0 <= i < j < |s| && s[i] in ws && s[j] in ws ==>
         && (q.oldestFirst ==> ws[s[i]].createdAt <= ws[s[j]].createdAt)
         && (!q.oldestFirst ==> ws[s[i]].createdAt >= ws[s[j]].createdAt)
  }

  lemma ListsStoreIsListing(ws: Workflows, q: Query, s: seq<Id>)
    ensures ListsStore(ws, q, s) <==> IsListing(Matching(ws, q), s)
  {
    var keys := Matching(ws, q);
    if forall id :: id in s <==> id in keys {
      forall i | 0 <= i < |s| ensures s[i] in ws && keys[s[i]] == KeyOf(ws[s[i]], q) {
        assert s[i] in keys;
      }
    }
  }

  function IndexOf(s: seq<Id>, id: Id): (r: int)
    ensures id !in s ==> r == -1
    ensures id in s ==> 0 <= r < |s| && s[r] == id
  {
    if s == [] then -1
    else if s[|s| - 1] == id then |s| - 1
    else IndexOf(s[..|s| - 1], id)
  }

  /** A token that is not in the listing starts over. */
  function RangeStart(listing: seq<Id>, token: Id): (r: nat)
    ensures r <= |listing|
  {
    if token == "" then 0 else IndexOf(listing, token) + 1
  }

  function RangeEnd(listing: seq<Id>, token: Id, limit: int): (r: nat)
    requires limit >= 1
    ensures RangeStart(listing, token) <= r <= |listing| && (r < |listing| ==> r >= 1)
  {
    var end := RangeStart(listing, token) + limit;
    if end > |listing| then |listing| else end
  }

  function PageOf(listing: seq<Id>, token: Id, limit: int): seq<Id>
    requires limit >= 1
  {
    listing[RangeStart(listing, token)..RangeEnd(listing, token, limit)]
  }

  function NextToken(listing: seq<Id>, token: Id, limit: int): Id
    requires limit >= 1
  {
    var end := RangeEnd(listing, token, limit);
    if end < |listing| then listing[end - 1] else ""
  }

  // ---------- following the page tokens ----------

  /** The pages got by following the tokens, one after the other, when the calls see these listings; and
      the token that is left, empty at the end. */
  function Follow(listings: seq<seq<Id>>, token: Id, limit: int): (r: (seq<Id>, Id))
    requires limit >= 1
  {
    if listings == [] then ([], token)
    else
      var next := NextToken(listings[0], token, limit);
      var page := PageOf(listings[0], token, limit);
      if next == "" then (page, "")
      else
        var rest := Follow(listings[1..], next, limit);
        (page + rest.0, rest.1)
  }

  ghost predicate AllListings(keys: Keys, listings: seq<seq<Id>>) {
    forall i :: 0 <= i < |listings| ==> IsListing(keys, listings[i])
  }

  /** How many workflows `n` full pages hold. */
  function PageEnd(n: nat, limit: int): int {
    n * limit
  }

  lemma PageEndStep(n: nat, limit: int)
    requires limit >= 1
    ensures PageEnd(0, limit) == 0 && PageEnd(n + 1, limit) == PageEnd(n, limit) + limit && PageEnd(n, limit) >= n
  {
  }

  /** However the calls order equal times, enough of them come to an end and give everything once, in
      order. */
  ghost predicate PagesAreComplete(keys: Keys, limit: int)
    requires limit >= 1
  {
    forall listings :: AllListings(keys, listings) && |listings| >= 1 && PageEnd(|listings|, limit) >= |keys|
      ==> var r := Follow(listings, "", limit); r.1 == "" && IsListing(keys, r.0)
  }

  /** No other match has the same place in time. */
  predicate Untied(keys: Keys, id: Id) {
    id in keys && forall other :: other in keys && keys[other] == keys[id] ==> other == id
  }

  /** The last workflow of a page, other than the last page, shares its time with no other match. */
  ghost predicate PageEndsAreUntied(keys: Keys, limit: int)
    requires limit >= 1
  {
    forall s, n: nat :: IsListing(keys, s) && 0 < PageEnd(n, limit) < |s| ==> Untied(keys, s[PageEnd(n, limit) - 1])
  }

  lemma DistinctIndex(s: seq<Id>, i: nat)
    requires Distinct(s) && i < |s|
    ensures IndexOf(s, s[i]) == i
  {
    assert s[IndexOf(s, s[i])] == s[i];
  }

  lemma {:induction false} DistinctCount(s: seq<Id>)
    requires Distinct(s)
    ensures |set id | id in s| == |s|
  {
    if s != [] {
      var last := |s| - 1;
      DistinctCount(s[..last]);
      assert (set id | id in s) == (set id | id in s[..last]) + {s[last]};
    }
  }

  lemma ListingCount(keys: Keys, s: seq<Id>)
    requires IsListing(keys, s)
    ensures |s| == |keys|
  {
    DistinctCount(s);
    assert (set id | id in s) == keys.Keys;
  }

  lemma Position(keys: Keys, s: seq<Id>, id: Id) returns (p: nat)
    requires IsListing(keys, s) && id in keys
    ensures p < |s| && s[p] == id
  {
    assert id in s;
    p :| 0 <= p < |s| && s[p] == id;
  }

  function Earlier(keys: Keys, id: Id): set<Id>
    requires id in keys
  {
    set other | other in keys && keys[other] < keys[id]
  }

  lemma AroundUntied(keys: Keys, s: seq<Id>, p: nat)
    requires IsListing(keys, s) && p < |s| && Untied(keys, s[p])
    ensures forall k :: 0 <= k < p ==> keys[s[k]] < keys[s[p]]
    ensures forall k :: p < k < |s| ==> keys[s[k]] > keys[s[p]]
  {
  }

  /** An untied workflow stands where the number of earlier matches puts it. */
  lemma UntiedPosition(keys: Keys, s: seq<Id>, p: nat)
    requires IsListing(keys, s) && p < |s| && Untied(keys, s[p])
    ensures p == |Earlier(keys, s[p])|
  {
    AroundUntied(keys, s, p);
    DistinctCount(s[..p]);
    var earlier := Earlier(keys, s[p]);
    forall id ensures id in s[..p] <==> id in earlier {
      if id in earlier {
        var k := Position(keys, s, id);
        assert s[..p][k] == id;
      }
    }
    assert (set id | id in s[..p]) == earlier;
  }

  lemma UntiedEverywhere(keys: Keys, s: seq<Id>, t: seq<Id>, p: nat)
    requires IsListing(keys, s) && IsListing(keys, t) && p < |s| && Untied(keys, s[p])
    ensures |t| == |s| && t[p] == s[p]
  {
    ListingCount(keys, s);
    ListingCount(keys, t);
    UntiedPosition(keys, s, p);
    var q := Position(keys, t, s[p]);
    UntiedPosition(keys, t, q);
  }

  /** Two listings can be joined after an untied workflow. */
  lemma Spliced(keys: Keys, s: seq<Id>, t: seq<Id>, p: nat)
    requires IsListing(keys, s) && IsListing(keys, t) && p < |s| && Untied(keys, s[p])
    ensures |t| == |s| && t[p] == s[p] && IsListing(keys, Splice(s, t, p))
  {
    UntiedEverywhere(keys, s, t, p);
    AroundUntied(keys, s, p);
    AroundUntied(keys, t, p);
    SplicedIsComplete(keys, s, t, p);
    hide Untied, IsListing, Splice;
    SplicedInOrder(keys, s, t, p);
  }

  lemma Member(keys: Keys, s: seq<Id>, i: nat)
    requires IsListing(keys, s) && i < |s|
    ensures s[i] in keys
  {
  }

  lemma SplicedIsComplete(keys: Keys, s: seq<Id>, t: seq<Id>, p: nat)
    requires IsListing(keys, s) && IsListing(keys, t) && p < |s| == |t| && t[p] == s[p]
    requires forall k :: 0 <= k < p ==> keys[t[k]] < keys[s[p]]
    requires forall k :: p < k < |s| ==> keys[s[k]] > keys[s[p]]
    ensures forall id :: id in Splice(s, t, p) <==> id in keys
  {
    hide Splice, IsListing;
    var u := Splice(s, t, p);
    forall id | id in keys ensures id in u {
      SplicedHas(keys, s, t, p, id);
    }
    forall i | 0 <= i < |u| ensures u[i] in keys {
      if i <= p { Member(keys, s, i); } else { Member(keys, t, i); }
    }
  }

  lemma SplicedHas(keys: Keys, s: seq<Id>, t: seq<Id>, p: nat, id: Id)
    requires IsListing(keys, s) && IsListing(keys, t) && p < |s| == |t| && t[p] == s[p] && id in keys
    requires forall k :: 0 <= k < p ==> keys[t[k]] < keys[s[p]]
    requires forall k :: p < k < |s| ==> keys[s[k]] > keys[s[p]]
    ensures id in Splice(s, t, p)
  {
    hide Splice, IsListing;
    var i := Position(keys, s, id);
    var j := Position(keys, t, id);
    assert id == Splice(s, t, p)[if i <= p then i else j];
  }

  lemma InOrderPair(keys: Keys, s: seq<Id>, i: nat, j: nat)
    requires IsListing(keys, s) && i < j < |s|
    ensures s[i] in keys && s[j] in keys && s[i] != s[j] && keys[s[i]] <= keys[s[j]]
  {
  }

  function Splice(s: seq<Id>, t: seq<Id>, p: nat): (u: seq<Id>)
    requires p < |s| == |t|
    ensures |u| == |s| && forall i :: 0 <= i < |u| ==> u[i] == if i <= p then s[i] else t[i]
  {
    s[..p + 1] + t[p + 1..]
  }

  lemma SplicedInOrder(keys: Keys, s: seq<Id>, t: seq<Id>, p: nat)
    requires IsListing(keys, s) && IsListing(keys, t) && p < |s| == |t| && t[p] == s[p]
    requires forall k :: p < k < |t| ==> keys[t[k]] > keys[s[p]]
    requires forall id :: id in Splice(s, t, p) <==> id in keys
    ensures IsListing(keys, Splice(s, t, p))
  {
    var u := Splice(s, t, p);
    forall i, j | 0 <= i < j < |u| ensures u[i] in keys && u[j] in keys && u[i] != u[j] && keys[u[i]] <= keys[u[j]] {
      SplicedPair(keys, s, t, p, i, j);
    }
    IsListingByPairs(keys, u);
    hide *;
  }

  lemma IsListingByPairs(keys: Keys, u: seq<Id>)
    requires forall id :: id in u <==> id in keys
    requires forall i, j :: 0 <= i < j < |u| ==>
               u[i] in keys && u[j] in keys && u[i] != u[j] && keys[u[i]] <= keys[u[j]]
    ensures IsListing(keys, u)
  {
  }

  lemma SplicedPair(keys: Keys, s: seq<Id>, t: seq<Id>, p: nat, i: nat, j: nat)
    requires IsListing(keys, s) && IsListing(keys, t) && p < |s| == |t| && t[p] == s[p] && i < j < |s|
    requires forall k :: p < k < |t| ==> keys[t[k]] > keys[s[p]]
    ensures var u := Splice(s, t, p); u[i] in keys && u[j] in keys && u[i] != u[j] && keys[u[i]] <= keys[u[j]]
  {
    hide Splice, IsListing;
    if j <= p {
      InOrderPair(keys, s, i, j);
    } else if i > p {
      InOrderPair(keys, t, i, j);
    } else {
      Member(keys, t, j);
      Member(keys, s, i);
      if i < p { InOrderPair(keys, s, i, p); }
    }
  }

  lemma TokenAt(keys: Keys, s: seq<Id>, p: nat)
    requires IsListing(keys, s) && p < |s| && "" !in keys
    ensures s[p] != "" && RangeStart(s, s[p]) == p + 1
  {
    assert s[p] in keys;
    DistinctIndex(s, p);
  }

  lemma PageAt(listing: seq<Id>, token: Id, start: nat, limit: int)
    requires limit >= 1 && RangeStart(listing, token) == start <= |listing|
    ensures start + limit < |listing| ==> PageOf(listing, token, limit) == listing[start..start + limit]
    ensures start + limit < |listing| ==> NextToken(listing, token, limit) == listing[start + limit - 1]
    ensures start + limit >= |listing| ==> PageOf(listing, token, limit) == listing[start..]
    ensures start + limit >= |listing| ==> NextToken(listing, token, limit) == ""
  {
    hide RangeStart;
  }

  lemma FollowLast(listings: seq<seq<Id>>, token: Id, start: nat, limit: int)
    requires limit >= 1 && listings != [] && RangeStart(listings[0], token) == start <= |listings[0]|
    requires start + limit >= |listings[0]|
    ensures Follow(listings, token, limit) == (listings[0][start..], "")
  {
    PageAt(listings[0], token, start, limit);
    hide RangeStart, PageOf, NextToken;
  }

  lemma FollowOn(listings: seq<seq<Id>>, token: Id, start: nat, limit: int)
    requires limit >= 1 && listings != [] && RangeStart(listings[0], token) == start
    requires start + limit < |listings[0]| && listings[0][start + limit - 1] != ""
    ensures var r, rest := Follow(listings, token, limit), Follow(listings[1..], listings[0][start + limit - 1], limit);
            r.0 == listings[0][start..start + limit] + rest.0 && r.1 == rest.1
  {
    PageAt(listings[0], token, start, limit);
    hide RangeStart, PageOf, NextToken;
  }

  // ---------- complete when page ends are untied ----------

  /** The state of a walk after `n` pages: `x` is a listing that begins with what the pages gave. */
  ghost predicate Reached(keys: Keys, limit: int, x: seq<Id>, n: nat, token: Id) {
    && IsListing(keys, x)
    && if n == 0 then token == "" else 0 < PageEnd(n, limit) < |x| && token == x[PageEnd(n, limit) - 1]
  }

  lemma StartAfter(keys: Keys, o: seq<Id>, x: seq<Id>, p: nat)
    requires "" !in keys && IsListing(keys, o) && IsListing(keys, x) && p < |x| && Untied(keys, x[p])
    ensures |o| == |x| && RangeStart(o, x[p]) == p + 1 && IsListing(keys, x[..p + 1] + o[p + 1..])
  {
    hide IsListing, Untied, RangeStart;
    Spliced(keys, x, o, p);
    TokenAt(keys, o, p);
    assert Splice(x, o, p) == x[..p + 1] + o[p + 1..];
  }

  lemma StartAtFirst(keys: Keys, o: seq<Id>, x: seq<Id>)
    requires IsListing(keys, o)
    ensures RangeStart(o, "") == 0 && IsListing(keys, x[..0] + o[0..])
  {
    hide IsListing;
    assert x[..0] + o[0..] == o;
  }

  lemma ReachedMeans(keys: Keys, limit: int, x: seq<Id>, n: nat, token: Id)
    requires limit >= 1 && Reached(keys, limit, x, n, token) && PageEndsAreUntied(keys, limit)
    ensures IsListing(keys, x) && PageEnd(0, limit) == 0
    ensures if n == 0 then token == ""
            else 0 < PageEnd(n, limit) < |x| && token == x[PageEnd(n, limit) - 1] && Untied(keys, token)
  {
    PageEndStep(n, limit);
    hide IsListing, Untied, PageEnd;
  }

  /** The next call starts where the pages so far end, and the listing it sees continues them. */
  lemma StartOfPage(keys: Keys, limit: int, o: seq<Id>, x: seq<Id>, n: nat, token: Id)
    requires "" !in keys && limit >= 1 && PageEndsAreUntied(keys, limit)
    requires IsListing(keys, o) && Reached(keys, limit, x, n, token)
    ensures var start := PageEnd(n, limit);
            RangeStart(o, token) == start <= |o| == |x| == |keys| && IsListing(keys, x[..start] + o[start..])
  {
    hide *;
    ReachedMeans(keys, limit, x, n, token);
    ListingCount(keys, o);
    ListingCount(keys, x);
    if n == 0 {
      StartAtFirst(keys, o, x);
    } else {
      StartAfter(keys, o, x, PageEnd(n, limit) - 1);
    }
  }

  lemma Regrouped(x: seq<Id>, o: seq<Id>, start: nat, next: nat, rest: seq<Id>)
    requires start <= |x| && start <= next <= |o|
    ensures x[..start] + (o[start..next] + rest) == (x[..start] + o[start..])[..next] + rest
  {
  }

  /** One more page keeps the walk on a listing. */
  lemma ReachedNext(keys: Keys, limit: int, o: seq<Id>, x: seq<Id>, n: nat, token: Id)
    requires "" !in keys && limit >= 1 && PageEndsAreUntied(keys, limit)
    requires IsListing(keys, o) && Reached(keys, limit, x, n, token) && PageEnd(n + 1, limit) < |o|
    ensures 0 <= PageEnd(n, limit) <= |x| && PageEnd(n, limit) <= |o| && PageEnd(n + 1, limit) > 0
    ensures o[PageEnd(n + 1, limit) - 1] != ""
    ensures Reached(keys, limit, x[..PageEnd(n, limit)] + o[PageEnd(n, limit)..], n + 1, o[PageEnd(n + 1, limit) - 1])
  {
    hide *;
    StartOfPage(keys, limit, o, x, n, token);
    PageEndStep(n, limit);
    TokenAt(keys, o, PageEnd(n + 1, limit) - 1);
    ReachedBy(keys, limit, x[..PageEnd(n, limit)] + o[PageEnd(n, limit)..], n + 1);
  }

  lemma ReachedBy(keys: Keys, limit: int, x: seq<Id>, n: nat)
    requires IsListing(keys, x) && n > 0 && 0 < PageEnd(n, limit) < |x|
    ensures Reached(keys, limit, x, n, x[PageEnd(n, limit) - 1])
  {
    hide IsListing, PageEnd;
  }

  /** What the calls from `token` on give completes the first `start` of `x`. */
  ghost predicate Completes(keys: Keys, limit: int, listings: seq<seq<Id>>, x: seq<Id>, start: int, token: Id)
    requires limit >= 1
  {
    var r := Follow(listings, token, limit);
    r.1 == "" && 0 <= start <= |x| && IsListing(keys, x[..start] + r.0)
  }

  lemma CompletesEarlier(keys: Keys, limit: int, listings: seq<seq<Id>>, x: seq<Id>, start: nat, next: nat, token: Id)
    requires limit >= 1 && listings != [] && RangeStart(listings[0], token) == start <= |x|
    requires next == start + limit < |listings[0]| && listings[0][next - 1] != ""
    requires Completes(keys, limit, listings[1..], x[..start] + listings[0][start..], next, listings[0][next - 1])
    ensures Completes(keys, limit, listings, x, start, token)
  {
    hide Follow, IsListing, RangeStart;
    FollowOn(listings, token, start, limit);
    Regrouped(x, listings[0], start, next, Follow(listings[1..], listings[0][next - 1], limit).0);
  }

  lemma CompletesAtLast(keys: Keys, limit: int, listings: seq<seq<Id>>, x: seq<Id>, start: nat, token: Id)
    requires limit >= 1 && listings != [] && RangeStart(listings[0], token) == start <= |x|
    requires start + limit >= |listings[0]| && IsListing(keys, x[..start] + listings[0][start..])
    ensures Completes(keys, limit, listings, x, start, token)
  {
    hide Follow, IsListing, RangeStart;
    FollowLast(listings, token, start, limit);
  }

  lemma ListingsOf(keys: Keys, listings: seq<seq<Id>>)
    requires AllListings(keys, listings) && listings != []
    ensures IsListing(keys, listings[0]) && AllListings(keys, listings[1..])
  {
    hide IsListing;
  }

  lemma {:induction false} FollowCompletes(keys: Keys, limit: int, listings: seq<seq<Id>>,
                                           x: seq<Id>, n: nat, token: Id)
    requires "" !in keys && limit >= 1 && PageEndsAreUntied(keys, limit)
    requires AllListings(keys, listings) && |listings| >= 1 && PageEnd(n + |listings|, limit) >= |keys|
    requires Reached(keys, limit, x, n, token)
    ensures Completes(keys, limit, listings, x, PageEnd(n, limit), token)
    decreases |listings|
  {
    hide *;
    PageEndStep(n, limit);
    ListingsOf(keys, listings);
    StartOfPage(keys, limit, listings[0], x, n, token);
    var next := PageEnd(n + 1, limit);
    if next < |listings[0]| {
      ReachedNext(keys, limit, listings[0], x, n, token);
      FollowCompletes(keys, limit, listings[1..], x[..PageEnd(n, limit)] + listings[0][PageEnd(n, limit)..],
                      n + 1, listings[0][next - 1]);
      CompletesEarlier(keys, limit, listings, x, PageEnd(n, limit), next, token);
    } else {
      CompletesAtLast(keys, limit, listings, x, PageEnd(n, limit), token);
    }
  }

  // ---------- incomplete when one is tied ----------

  function Copies(s: seq<Id>, n: nat): seq<seq<Id>> {
    seq(n, _ => s)
  }

  lemma CopiesStep(s: seq<Id>, n: nat, rest: seq<seq<Id>>)
    requires n >= 1
    ensures var all := Copies(s, n) + rest; all != [] && all[0] == s && all[1..] == Copies(s, n - 1) + rest
    ensures n == 1 ==> (Copies(s, n) + rest)[1..] == rest
  {
  }

  lemma Adjoin(s: seq<Id>, a: nat, b: nat, c: nat, rest: seq<Id>)
    requires a <= b <= c <= |s|
    ensures s[a..b] + (s[b..c] + rest) == s[a..c] + rest
  {
  }

  /** `n` calls that all see `s` give its next range, and then come the calls that see the rest. */
  ghost predicate GoesStraight(s: seq<Id>, n: nat, rest: seq<seq<Id>>, start: nat, end: nat, token: Id, limit: int)
    requires limit >= 1
  {
    start < end <= |s|
    && Follow(Copies(s, n) + rest, token, limit).0 == s[start..end] + Follow(rest, s[end - 1], limit).0
  }

  lemma GoesStraightOn(s: seq<Id>, n: nat, rest: seq<seq<Id>>, start: nat, end: nat, token: Id, limit: int)
    requires limit >= 1 && n >= 1 && RangeStart(s, token) == start && start + limit < |s| && s[start + limit - 1] != ""
    requires if n == 1 then end == start + limit
             else GoesStraight(s, n - 1, rest, start + limit, end, s[start + limit - 1], limit)
    ensures GoesStraight(s, n, rest, start, end, token, limit)
  {
    hide Follow, RangeStart, Copies;
    CopiesStep(s, n, rest);
    FollowOn(Copies(s, n) + rest, token, start, limit);
    if n > 1 {
      Adjoin(s, start, start + limit, end, Follow(rest, s[end - 1], limit).0);
    }
  }

  lemma {:induction false} FollowStraight(keys: Keys, s: seq<Id>, n: nat, rest: seq<seq<Id>>,
                                          start: nat, token: Id, limit: int)
    requires "" !in keys && limit >= 1 && IsListing(keys, s) && n >= 1 && 0 < start + PageEnd(n, limit) < |s|
    requires RangeStart(s, token) == start
    ensures GoesStraight(s, n, rest, start, start + PageEnd(n, limit), token, limit)
    decreases n
  {
    hide *;
    PageEndStep(n - 1, limit);
    TokenAt(keys, s, start + limit - 1);
    if n > 1 {
      FollowStraight(keys, s, n - 1, rest, start + limit, s[start + limit - 1], limit);
    }
    GoesStraightOn(s, n, rest, start, start + PageEnd(n, limit), token, limit);
  }

  lemma FollowNone(s: seq<Id>, token: Id, limit: int)
    requires limit >= 1
    ensures Follow(Copies(s, 0), token, limit) == ([], token)
  {
  }

  lemma PrefixJoin(s: seq<Id>, a: nat, b: nat, rest: seq<Id>)
    requires a <= b <= |s| && rest <= s[b..]
    ensures s[a..b] + rest <= s[a..]
  {
  }

  lemma {:induction false} FollowIsPrefix(keys: Keys, s: seq<Id>, n: nat, token: Id, limit: int)
    requires "" !in keys && limit >= 1 && IsListing(keys, s)
    ensures Follow(Copies(s, n), token, limit).0 <= s[RangeStart(s, token)..]
    decreases n
  {
    hide *;
    var start := RangeStart(s, token);
    var next := start + limit;
    if n == 0 {
      FollowNone(s, token, limit);
    } else if next < |s| {
      CopiesAgain(s, n);
      TokenAt(keys, s, next - 1);
      FollowOn(Copies(s, n), token, start, limit);
      FollowIsPrefix(keys, s, n - 1, s[next - 1], limit);
      PrefixJoin(s, start, next, Follow(Copies(s, n - 1), s[next - 1], limit).0);
    } else {
      CopiesAgain(s, n);
      FollowLast(Copies(s, n), token, start, limit);
    }
  }

  lemma CopiesAgain(s: seq<Id>, n: nat)
    requires n >= 1
    ensures var all := Copies(s, n); all != [] && all[0] == s && all[1..] == Copies(s, n - 1)
  {
  }

  lemma SwapListing(keys: Keys, s: seq<Id>, i: nat)
    requires IsListing(keys, s) && i + 1 < |s| && keys[s[i]] == keys[s[i + 1]]
    ensures IsListing(keys, s[i := s[i + 1]][i + 1 := s[i]])
  {
    var t := s[i := s[i + 1]][i + 1 := s[i]];
    forall id ensures id in t <==> id in keys {
      if id in keys {
        var k := Position(keys, s, id);
        assert t[if k == i then i + 1 else if k == i + 1 then i else k] == id;
      }
    }
    assert forall k :: 0 <= k < |s| ==> keys[t[k]] == keys[s[k]];
  }

  function Swapped(s: seq<Id>, i: nat): seq<Id>
    requires i + 1 < |s|
  {
    s[i := s[i + 1]][i + 1 := s[i]]
  }

  /** One order of two workflows of equal times for the first `n` calls, the other order after that. */
  function TwoOrders(s: seq<Id>, i: nat, n: nat, m: nat): seq<seq<Id>>
    requires i + 1 < |s|
  {
    Copies(s, n) + Copies(Swapped(s, i), m)
  }

  lemma TwoOrdersAreListings(keys: Keys, limit: int, s: seq<Id>, i: nat, n: nat, m: nat)
    requires limit >= 1 && IsListing(keys, s) && i + 1 < |s| && keys[s[i]] == keys[s[i + 1]] && m > |keys|
    ensures IsListing(keys, Swapped(s, i))
    ensures var all := TwoOrders(s, i, n, m);
            AllListings(keys, all) && |all| >= 1 && PageEnd(|all|, limit) >= |keys|
  {
    SwapListing(keys, s, i);
    PageEndStep(n + m, limit);
    hide PageEnd, IsListing;
  }

  lemma TieWalk(keys: Keys, limit: int, s: seq<Id>, n: nat, i: nat, m: nat)
    requires "" !in keys && limit >= 1 && IsListing(keys, s) && 0 < PageEnd(n, limit) < |s| && n >= 1 && i + 1 < |s|
    ensures var end := PageEnd(n, limit);
            Follow(TwoOrders(s, i, n, m), "", limit).0
            == s[..end] + Follow(Copies(Swapped(s, i), m), s[end - 1], limit).0
  {
    hide IsListing, Follow, Copies, PageEnd, Swapped;
    FollowStraight(keys, s, n, Copies(Swapped(s, i), m), 0, "", limit);
    assert s[0..PageEnd(n, limit)] == s[..PageEnd(n, limit)];
  }

  lemma SwappedAt(s: seq<Id>, i: nat)
    requires i + 1 < |s|
    ensures var t := Swapped(s, i); |t| == |s| && t[i] == s[i + 1] && t[i + 1] == s[i]
  {
  }

  lemma TieSpoils(keys: Keys, limit: int, s: seq<Id>, i: nat, end: nat, m: nat)
    requires "" !in keys && limit >= 1 && IsListing(keys, s) && i + 1 < |s| && IsListing(keys, Swapped(s, i))
    requires 0 < end < |s| && m >= 1 && (i == end - 1 || i == end - 2)
    ensures !IsListing(keys, s[..end] + Follow(Copies(Swapped(s, i), m), s[end - 1], limit).0)
  {
    hide *;
    SwappedAt(s, i);
    var t := Swapped(s, i);
    var rest := Follow(Copies(t, m), s[end - 1], limit).0;
    if i == end - 1 {
      TokenAt(keys, t, i + 1);
      FollowIsPrefix(keys, t, m, s[end - 1], limit);
      MissingMatch(keys, s, t, i, rest);
    } else {
      TokenAt(keys, t, i);
      FirstOfRest(t, m, s[end - 1], limit);
      RepeatedMatch(keys, s, i, rest);
    }
  }

  /** The calls after a page that ends on one of the two either miss the other or repeat it. */
  lemma TieMissesOrRepeats(keys: Keys, limit: int, s: seq<Id>, n: nat, i: nat)
    requires "" !in keys && limit >= 1 && IsListing(keys, s) && 0 < PageEnd(n, limit) < |s| && n >= 1
    requires i + 1 < |s| && s[i] in keys && s[i + 1] in keys && keys[s[i]] == keys[s[i + 1]]
    requires i == PageEnd(n, limit) - 1 || i == PageEnd(n, limit) - 2
    ensures !PagesAreComplete(keys, limit)
  {
    hide *;
    var m := |keys| + 1;
    TwoOrdersAreListings(keys, limit, s, i, n, m);
    TieWalk(keys, limit, s, n, i, m);
    TieSpoils(keys, limit, s, i, PageEnd(n, limit), m);
    NotComplete(keys, limit, TwoOrders(s, i, n, m));
  }

  lemma NotComplete(keys: Keys, limit: int, listings: seq<seq<Id>>)
    requires limit >= 1 && AllListings(keys, listings) && |listings| >= 1 && PageEnd(|listings|, limit) >= |keys|
    requires !IsListing(keys, Follow(listings, "", limit).0)
    ensures !PagesAreComplete(keys, limit)
  {
    hide IsListing, Follow, PageEnd, AllListings;
  }

  lemma RepeatedMatch(keys: Keys, s: seq<Id>, i: nat, rest: seq<Id>)
    requires i + 2 <= |s| && rest != [] && rest[0] == s[i]
    ensures !IsListing(keys, s[..i + 2] + rest)
  {
    var all := s[..i + 2] + rest;
    assert all[i] == all[i + 2];
  }

  lemma MissingMatch(keys: Keys, s: seq<Id>, t: seq<Id>, i: nat, rest: seq<Id>)
    requires IsListing(keys, s) && IsListing(keys, t) && i + 1 < |s| == |t| && t[i] == s[i + 1]
    requires rest <= t[i + 2..]
    ensures !IsListing(keys, s[..i + 1] + rest)
  {
    assert s[i + 1] in s;
    assert t[i] !in t[i + 2..];
    assert s[i + 1] !in s[..i + 1];
  }

  lemma FirstOfRest(t: seq<Id>, m: nat, token: Id, limit: int)
    requires limit >= 1 && m >= 1 && RangeStart(t, token) < |t|
    ensures var r := Follow(Copies(t, m), token, limit).0; r != [] && r[0] == t[RangeStart(t, token)]
  {
  }

  /** A tie in a listing is a tie of neighbours. */
  lemma TiedNeighbour(keys: Keys, s: seq<Id>, p: nat) returns (i: nat)
    requires IsListing(keys, s) && p < |s| && !Untied(keys, s[p])
    ensures (i == p || i == p - 1) && i + 1 < |s|
    ensures s[i] in keys && s[i + 1] in keys && keys[s[i]] == keys[s[i + 1]]
  {
    assert s[p] in keys;
    var other :| other in keys && keys[other] == keys[s[p]] && other != s[p];
    var k := Position(keys, s, other);
    if k > p {
      assert keys[s[p]] <= keys[s[p + 1]] <= keys[s[k]];
      i := p;
    } else {
      assert keys[s[k]] <= keys[s[p - 1]] <= keys[s[p]];
      i := p - 1;
    }
  }

  /** Following the tokens gives every match once and in order, whatever the calls make of equal times,
      exactly when no page but the last ends on a workflow that shares its creation time with another
      match. */
  lemma PaginationExact(keys: Keys, limit: int)
    requires "" !in keys && limit >= 1
    ensures PagesAreComplete(keys, limit) <==> PageEndsAreUntied(keys, limit)
  {
    hide IsListing, Untied, PageEnd, Follow;
    if PageEndsAreUntied(keys, limit) {
      hide PageEndsAreUntied;
      forall listings | AllListings(keys, listings) && |listings| >= 1 && PageEnd(|listings|, limit) >= |keys|
        ensures Follow(listings, "", limit).1 == "" && IsListing(keys, Follow(listings, "", limit).0)
      {
        FollowFromStart(keys, limit, listings);
      }
    } else {
      var s, n: nat :| IsListing(keys, s) && 0 < PageEnd(n, limit) < |s| && !Untied(keys, s[PageEnd(n, limit) - 1]);
      var p := PageEnd(n, limit) - 1;
      hide PagesAreComplete;
      var i := TiedNeighbour(keys, s, p);
      PageEndStep(n, limit);
      TieMissesOrRepeats(keys, limit, s, n, i);
    }
  }

  lemma CompletesFromNothing(keys: Keys, limit: int, listings: seq<seq<Id>>, x: seq<Id>)
    requires limit >= 1 && Completes(keys, limit, listings, x, 0, "")
    ensures Follow(listings, "", limit).1 == "" && IsListing(keys, Follow(listings, "", limit).0)
  {
    hide Follow, IsListing;
    assert x[..0] + Follow(listings, "", limit).0 == Follow(listings, "", limit).0;
  }

  lemma NothingReached(keys: Keys, limit: int, x: seq<Id>)
    requires limit >= 1 && IsListing(keys, x)
    ensures Reached(keys, limit, x, 0, "")
  {
    hide IsListing;
  }

  lemma FollowFromStart(keys: Keys, limit: int, listings: seq<seq<Id>>)
    requires "" !in keys && limit >= 1 && PageEndsAreUntied(keys, limit)
    requires AllListings(keys, listings) && |listings| >= 1 && PageEnd(|listings|, limit) >= |keys|
    ensures Follow(listings, "", limit).1 == "" && IsListing(keys, Follow(listings, "", limit).0)
  {
    hide *;
    PageEndStep(0, limit);
    ListingsOf(keys, listings);
    NothingReached(keys, limit, listings[0]);
    FollowCompletes(keys, limit, listings, listings[0], 0, "");
    CompletesFromNothing(keys, limit, listings, listings[0]);
  }

  // ---------- the same of a store ----------

  /** However the calls order equal times, following the tokens ends and lists the store. */
  ghost predicate StorePagesAreComplete(ws: Workflows, q: Query)
    requires q.limit >= 1
  {
    forall listings: seq<seq<Id>> ::
      (forall i :: 0 <= i < |listings| ==> ListsStore(ws, q, listings[i]))
      && |listings| >= 1 && PageEnd(|listings|, q.limit) >= |listings[0]|
      ==> var r := Follow(listings, "", q.limit); r.1 == "" && ListsStore(ws, q, r.0)
  }

  /** No page but the last ends on a workflow created at the same time as another one listed. */
  ghost predicate StorePageEndsAreUntied(ws: Workflows, q: Query)
    requires q.limit >= 1
  {
    forall s, n: nat, other :: ListsStore(ws, q, s) && 0 < PageEnd(n, q.limit) < |s| && other in s
      && other in ws && s[PageEnd(n, q.limit) - 1] in ws
      && ws[other].createdAt == ws[s[PageEnd(n, q.limit) - 1]].createdAt
      ==> other == s[PageEnd(n, q.limit) - 1]
  }

  lemma CompletePagesOfStore(ws: Workflows, q: Query)
    requires q.limit >= 1
    ensures StorePagesAreComplete(ws, q) <==> PagesAreComplete(Matching(ws, q), q.limit)
  {
    hide ListsStore, IsListing, Follow, PageEnd, Matching;
    var keys := Matching(ws, q);
    forall s ensures ListsStore(ws, q, s) <==> IsListing(keys, s) {
      ListsStoreIsListing(ws, q, s);
    }
    forall listings: seq<seq<Id>> | |listings| >= 1 && IsListing(keys, listings[0])
      ensures |listings[0]| == |keys|
    {
      ListingCount(keys, listings[0]);
    }
    if StorePagesAreComplete(ws, q) {
      forall listings | AllListings(keys, listings) && |listings| >= 1 && PageEnd(|listings|, q.limit) >= |keys|
        ensures var r := Follow(listings, "", q.limit); r.1 == "" && IsListing(keys, r.0)
      {
        assert IsListing(keys, listings[0]);
      }
    }
    if PagesAreComplete(keys, q.limit) {
      forall listings: seq<seq<Id>> |
        (forall i :: 0 <= i < |listings| ==> ListsStore(ws, q, listings[i]))
        && |listings| >= 1 && PageEnd(|listings|, q.limit) >= |listings[0]|
        ensures var r := Follow(listings, "", q.limit); r.1 == "" && ListsStore(ws, q, r.0)
      {
        assert AllListings(keys, listings);
      }
    }
  }

  lemma TiedOnFields(ws: Workflows, q: Query, s: seq<Id>, p: nat)
    requires IsListing(Matching(ws, q), s) && p < |s|
    ensures Untied(Matching(ws, q), s[p])
       <==> forall other :: other in s && other in ws && s[p] in ws && ws[other].createdAt == ws[s[p]].createdAt
              ==> other == s[p]
  {
    var keys := Matching(ws, q);
    forall id | id in keys ensures id in ws && keys[id] == KeyOf(ws[id], q) {
    }
  }

  lemma UntiedPageEndsOfStore(ws: Workflows, q: Query)
    requires q.limit >= 1
    ensures StorePageEndsAreUntied(ws, q) <==> PageEndsAreUntied(Matching(ws, q), q.limit)
  {
    hide ListsStore, IsListing, Untied, PageEnd, Matching;
    var keys := Matching(ws, q);
    forall s ensures ListsStore(ws, q, s) <==> IsListing(keys, s) {
      ListsStoreIsListing(ws, q, s);
    }
    forall s, n: nat | IsListing(keys, s) && 0 < PageEnd(n, q.limit) < |s|
      ensures Untied(keys, s[PageEnd(n, q.limit) - 1])
         <==> forall other :: other in s && other in ws && s[PageEnd(n, q.limit) - 1] in ws
                && ws[other].createdAt == ws[s[PageEnd(n, q.limit) - 1]].createdAt
                ==> other == s[PageEnd(n, q.limit) - 1]
    {
      TiedOnFields(ws, q, s, PageEnd(n, q.limit) - 1);
    }
  }

  /** On the records of a store: whatever order each call gives to equal creation times, following the tokens
      ends and gives every workflow asked for, once and in the order asked for, if and only if no page but
      the last ends on a workflow created at the same time as another one. */
  lemma StorePaginationExact(ws: Workflows, q: Query)
    requires "" !in ws && q.limit >= 1
    ensures StorePagesAreComplete(ws, q) <==> StorePageEndsAreUntied(ws, q)
  {
    hide StorePagesAreComplete, StorePageEndsAreUntied, PagesAreComplete, PageEndsAreUntied;
    CompletePagesOfStore(ws, q);
    UntiedPageEndsOfStore(ws, q);
    PaginationExact(Matching(ws, q), q.limit);
  }

  /** Workflows created at different times are listed completely in pages of any size, in both directions. */
  lemma DistinctTimesPageCompletely(ws: Workflows, q: Query)
    requires "" !in ws && q.limit >= 1
    requires forall a, b :: a in ws && b in ws && ws[a].createdAt == ws[b].createdAt ==> a == b
    ensures StorePagesAreComplete(ws, q)
  {
    StorePaginationExact(ws, q);
    hide StorePagesAreComplete;
  }
}
