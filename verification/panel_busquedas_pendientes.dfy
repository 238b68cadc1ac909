/**
 * The reporter's list of open search requests (what the community is
 * looking for and nobody has reported yet), its badge count, and the
 * leaderboard with the reporter's own row highlighted.
 */
module PanelBusquedasPendientes {
  import opened Common
  import opened Firestore
  import opened PanelValidacion
  import opened PanelComunidad
  import opened Ranking

  predicate IsPendingSearch(s: Doc<DocId, SearchRequest>)
  {
    s.data.status == SearchPending
  }

  /** `where('status', '==', 'pendiente'), orderBy('createdAt', 'desc')`. */
  function PendingSearches(rows: seq<Doc<DocId, SearchRequest>>): (r: seq<Doc<DocId, SearchRequest>>)
    ensures forall s :: s in r <==> s in rows && s.data.status == SearchPending
    ensures forall i, j :: 0 <= i < j < |r| ==> r[i].data.createdAt >= r[j].data.createdAt
    ensures multiset(r) == multiset(Filter(rows, IsPendingSearch))
  {
    SortBy(Filter(rows, IsPendingSearch), NewestSearchFirst)
  }

  /** The yellow badge on the collapsed panel. */
  function PendingBadge(rows: seq<Doc<DocId, SearchRequest>>): (n: nat)
    ensures n == |Filter(rows, IsPendingSearch)|
    ensures n <= |rows|
  {
    |PendingSearches(rows)|
  }

  /** A resolved request is never listed. */
  lemma ResolvedNotListed(rows: seq<Doc<DocId, SearchRequest>>, s: Doc<DocId, SearchRequest>)
    requires s.data.status == SearchResolved
    ensures s !in PendingSearches(rows)
  {
  }

  /** After an approval, no listed request asks for the approved name and type. */
  lemma ApprovalClearsMatchingSearches(db: Db, reportId: DocId, report: Report, validator: UserData, spaceId: DocId, now: nat,
                                       rows: seq<Doc<DocId, SearchRequest>>)
    requires Approved(db, reportId, report, validator, spaceId, now).Some?
    requires Lists(rows, Approved(db, reportId, report, validator, spaceId, now).value.searches)
    ensures forall s :: s in PendingSearches(rows) ==>
      !(s.data.searchQuery == report.name && s.data.searchType == report.placeType)
  {
    ApprovalResolvesExactMatches(db, reportId, report, validator, spaceId, now);
  }

  /** A request just published is listed, and the badge counts it. */
  lemma PublishedIsListed(db: Db, id: DocId, user: UserData, query: string, placeType: string, now: nat,
                          rows: seq<Doc<DocId, SearchRequest>>)
    requires Published(db, id, user, query, placeType, now).Some?
    requires Lists(rows, Published(db, id, user, query, placeType, now).value.searches)
    ensures Doc(id, NewSearch(user, query, placeType, now)) in PendingSearches(rows)
    ensures PendingBadge(rows) >= 1
  {
    var searches := Published(db, id, user, query, placeType, now).value.searches;
    var s := Doc(id, NewSearch(user, query, placeType, now));
    assert id in searches && searches[id] == s.data;
    assert s in rows;
    assert s in PendingSearches(rows);
  }

  /**
   * This panel's leaderboard: the signed-in reporter's row, and only that
   * row, is highlighted.
   */
  function ReporterLeaderboard(rows: seq<UserData>, user: Option<UserData>): (v: seq<RankRow>)
    ensures |v| == |Leaderboard(rows)|
    ensures forall i :: 0 <= i < |v| ==>
      (v[i].highlighted <==> user.Some? && user.value.id == Leaderboard(rows)[i].id)
  {
    LeaderboardView(Leaderboard(rows), if user.Some? then Some(user.value.id) else None)
  }
}
