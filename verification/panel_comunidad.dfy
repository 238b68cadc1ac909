/**
 * The community member's panel: search among the validated spaces, publish
 * a search request when nothing matches (+1 point), follow one's own
 * requests, and read the activity feed and the leaderboard.
 */
module PanelComunidad {
  import opened Common
  import opened Firestore
  import opened PanelValidacion
  import opened Ranking

  // ---------------------------------------------------------------------
  // Searching the validated spaces
  // ---------------------------------------------------------------------

  /** The panel's `spaces` subscription: `where('status', '==', 'Validado')`. */
  predicate IsValidatedSpace(s: Doc<DocId, Space>)
  {
    s.data.status == ReportValidated
  }

  function SearchableSpaces(rows: seq<Doc<DocId, Space>>): (r: seq<Doc<DocId, Space>>)
    ensures forall s :: s in r <==> s in rows && s.data.status == ReportValidated
  {
    Filter(rows, IsValidatedSpace)
  }

  /** Case-insensitive substring match on the name and exact match on the type. */
  predicate MatchesQuery(s: Doc<DocId, Space>, query: string, placeType: string)
  {
    Contains(Lower(s.data.name), Lower(query)) && s.data.placeType == placeType
  }

  function MatchesOf(query: string, placeType: string): Doc<DocId, Space> -> bool
  {
    (s: Doc<DocId, Space>) => MatchesQuery(s, query, placeType)
  }

  /** `results`: nothing for an empty query, else the matching spaces in snapshot order. */
  function Results(query: string, placeType: string, spaces: seq<Doc<DocId, Space>>): (r: seq<Doc<DocId, Space>>)
    ensures query == "" ==> r == []
    ensures query != "" ==> forall s :: s in r <==> s in spaces && MatchesQuery(s, query, placeType)
    ensures multiset(r) <= multiset(spaces)
  {
    if query == "" then [] else Filter(spaces, MatchesOf(query, placeType))
  }

  /** Queries that differ only in the case of ASCII letters find the same spaces. */
  lemma ResultsIgnoreCase(q1: string, q2: string, placeType: string, spaces: seq<Doc<DocId, Space>>)
    requires Lower(q1) == Lower(q2)
    ensures Results(q1, placeType, spaces) == Results(q2, placeType, spaces)
  {
    assert |q1| == |Lower(q1)| == |Lower(q2)| == |q2|;
    FilterCongruent(spaces, MatchesOf(q1, placeType), MatchesOf(q2, placeType));
  }

  /** A space is always found by its own non-empty name and type. */
  lemma ResultsFindExactName(s: Doc<DocId, Space>, spaces: seq<Doc<DocId, Space>>)
    requires s in spaces && s.data.name != ""
    ensures s in Results(s.data.name, s.data.placeType, spaces)
  {
    assert OccursAt(Lower(s.data.name), Lower(s.data.name), 0);
  }

  /** "Publicar Búsqueda" appears only for a non-empty query with no results. */
  predicate PublishOffered(query: string, results: seq<Doc<DocId, Space>>)
  {
    query != "" && |results| == 0
  }

  /** Publishing is offered exactly when no validated space matches the query. */
  lemma PublishOfferedIffNoMatch(query: string, placeType: string, spaces: seq<Doc<DocId, Space>>)
    ensures PublishOffered(query, Results(query, placeType, spaces)) <==>
      query != "" && forall s :: s in spaces ==> !MatchesQuery(s, query, placeType)
  {
    var r := Results(query, placeType, spaces);
    if query != "" && |r| != 0 {
      assert r[0] in r;
    }
  }

  // ---------------------------------------------------------------------
  // Publishing a search request
  // ---------------------------------------------------------------------

  function NewSearch(user: UserData, query: string, placeType: string, now: nat): SearchRequest
  {
    SearchRequest(user.id, OrElse(user.data.displayName, "Usuario an\U{F3}nimo"), query, placeType, SearchPending, now)
  }

  /**
   * The store after publishing `query`/`placeType` as request `id`, or None
   * when the commit fails because the requester's account is missing.
   */
  function Published(db: Db, id: DocId, user: UserData, query: string, placeType: string, now: nat): Option<Db>
  {
    if user.id !in db.users then None
    else Some(db.(searches := db.searches[id := NewSearch(user, query, placeType, now)],
                  users := Credit(db.users, user.id, 1)))
  }

  /** The batch `handlePublishSearch` commits: the request, then the +1. */
  function PublishBatch(id: DocId, user: UserData, query: string, placeType: string, now: nat): (b: seq<Write>)
    ensures BatchIdsBelow(b, id + 1)
  {
    [SetSearch(id, NewSearch(user, query, placeType, now)), IncrementPoints(user.id, 1)]
  }

  lemma PublishBatchMeetsSpec(db: Db, id: DocId, user: UserData, query: string, placeType: string, now: nat)
    ensures ApplyBatch(db, PublishBatch(id, user, query, placeType, now)) == Published(db, id, user, query, placeType, now)
  {
    var w1 := SetSearch(id, NewSearch(user, query, placeType, now));
    var w2 := IncrementPoints(user.id, 1);
    assert PublishBatch(id, user, query, placeType, now) == [w1] + [w2];
    ApplyBatchCons(db, w1, [w2]);
    ApplyBatchCons(ApplyWrite(db, w1).value, w2, []);
  }

  datatype PublishOutcome =
    | Skipped     // empty query, a publish in flight, or nobody signed in
    | Posted      // the batch was written and the query cleared
    | Failed      // the commit failed; only logged to the console

  /** The state of the "Buscar" tab. */
  class SearchTab {
    var searchQuery: string
    var searchType: string
    var isPublishing: bool

    constructor ()
      ensures searchQuery == "" && searchType == "Sal\U{F3}n de clase" && !isPublishing
    {
      searchQuery, searchType, isPublishing := "", "Sal\U{F3}n de clase", false;
    }

    /** `handlePublishSearch`, with `now` for `Timestamp.now()` and `accepted` the backend's verdict. */
    method HandlePublishSearch(store: Store, user: Option<UserData>, now: nat, accepted: bool)
      returns (outcome: PublishOutcome)
      requires store.Valid()
      modifies this, store
      ensures store.Valid() && searchType == old(searchType)
      ensures store.nextId == old(store.nextId) + (if old(searchQuery) == "" || old(isPublishing) || user.None? then 0 else 1)
      ensures old(searchQuery) == "" || old(isPublishing) || user.None? ==>
        && outcome == Skipped && store.Snapshot() == old(store.Snapshot())
        && searchQuery == old(searchQuery) && isPublishing == old(isPublishing)
      ensures !(old(searchQuery) == "" || old(isPublishing) || user.None?) ==>
        var id := old(store.nextId);
        var after := Published(old(store.Snapshot()), id, user.value, old(searchQuery), searchType, now);
        && id !in old(store.searches)
        && !isPublishing
        && outcome != Skipped
        && (outcome == Posted <==> accepted && after.Some?)
        && store.Snapshot() == (if outcome == Posted then after.value else old(store.Snapshot()))
        && searchQuery == (if outcome == Posted then "" else old(searchQuery))
    {
      if searchQuery == "" || isPublishing || user.None? {
        return Skipped;
      }
      isPublishing := true;
      var id := store.NewDocId();
      var batch := [SetSearch(id, NewSearch(user.value, searchQuery, searchType, now)),
                    IncrementPoints(user.value.id, 1)];
      assert batch == PublishBatch(id, user.value, searchQuery, searchType, now);
      PublishBatchMeetsSpec(store.Snapshot(), id, user.value, searchQuery, searchType, now);
      var ok := store.Commit(batch, accepted);
      if ok {
        searchQuery := "";
        outcome := Posted;
      } else {
        outcome := Failed;
      }
      isPublishing := false;
    }
  }

  /**
   * Publishing creates exactly one pending request, by the user and under
   * the user's name (or "Usuario anónimo"), with the query and type as typed, and adds exactly one point to the requester;
   * no other account, no report and no space changes.
   */
  lemma PublishCreatesRequestAndCredits(db: Db, id: DocId, user: UserData, query: string, placeType: string, now: nat)
    requires Published(db, id, user, query, placeType, now).Some?
    requires id !in db.searches
    ensures var after := Published(db, id, user, query, placeType, now).value;
      && after.searches.Keys == db.searches.Keys + {id}
      && (forall k :: k in db.searches ==> after.searches[k] == db.searches[k])
      && after.searches[id].status == SearchPending
      && after.searches[id].requestedBy == user.id
      && after.searches[id].requestedByName == (if user.data.displayName == "" then "Usuario an\U{F3}nimo" else user.data.displayName)
      && after.searches[id].searchQuery == query && after.searches[id].searchType == placeType
      && after.searches[id].createdAt == now
      && after.users.Keys == db.users.Keys
      && PointsOf(after.users[user.id]) == PointsOf(db.users[user.id]) + 1
      && (forall u :: u in db.users && u != user.id ==> after.users[u] == db.users[u])
      && after.reports == db.reports && after.spaces == db.spaces && after.log == db.log
  {
  }

  /** Publishing fails, writing nothing, exactly when the requester has no account. */
  lemma PublishNeedsAccount(db: Db, id: DocId, user: UserData, query: string, placeType: string, now: nat)
    ensures Published(db, id, user, query, placeType, now).None? <==> user.id !in db.users
  {
  }

  /**
   * A published request is resolved by a later approval of a report with
   * the same name and type (the "Room 999" scenario).
   */
  lemma LaterApprovalResolvesPublished(db: Db, id: DocId, user: UserData, query: string, placeType: string, now: nat,
                                       reportId: DocId, report: Report, validator: UserData, spaceId: DocId, later: nat)
    requires Published(db, id, user, query, placeType, now).Some?
    requires report.name == query && report.placeType == placeType
    requires Approved(Published(db, id, user, query, placeType, now).value, reportId, report, validator, spaceId, later).Some?
    ensures Approved(Published(db, id, user, query, placeType, now).value, reportId, report, validator, spaceId, later).value.searches[id].status
            == SearchResolved
  {
    var mid := Published(db, id, user, query, placeType, now).value;
    assert MatchesReport(mid.searches[id], report.name, report.placeType);
    ApprovalResolvesExactMatches(mid, reportId, report, validator, spaceId, later);
  }

  /** The space an approval publishes is found by searching its name and type. */
  lemma ApprovedSpaceIsFound(db: Db, reportId: DocId, report: Report, validator: UserData, spaceId: DocId, now: nat,
                             rows: seq<Doc<DocId, Space>>)
    requires Approved(db, reportId, report, validator, spaceId, now).Some?
    requires Lists(rows, Approved(db, reportId, report, validator, spaceId, now).value.spaces)
    requires report.name != ""
    ensures Doc(spaceId, SpaceFor(report, validator.id, now)) in Results(report.name, report.placeType, SearchableSpaces(rows))
  {
    var spaces := Approved(db, reportId, report, validator, spaceId, now).value.spaces;
    var s := Doc(spaceId, SpaceFor(report, validator.id, now));
    assert spaceId in spaces && spaces[spaceId] == s.data;
    assert s in rows;
    assert s in SearchableSpaces(rows);
    ResultsFindExactName(s, SearchableSpaces(rows));
  }

  // ---------------------------------------------------------------------
  // My searches
  // ---------------------------------------------------------------------

  function NewestSearchFirst(s: Doc<DocId, SearchRequest>): int
  {
    -(s.data.createdAt as int)
  }

  function RequestedBy(uid: Uid): Doc<DocId, SearchRequest> -> bool
  {
    (s: Doc<DocId, SearchRequest>) => s.data.requestedBy == uid
  }

  /** `where('requestedBy', '==', uid), orderBy('createdAt', 'desc')`. */
  function MySearches(rows: seq<Doc<DocId, SearchRequest>>, uid: Uid): (r: seq<Doc<DocId, SearchRequest>>)
    ensures forall s :: s in r <==> s in rows && s.data.requestedBy == uid
    ensures forall i, j :: 0 <= i < j < |r| ==> r[i].data.createdAt >= r[j].data.createdAt
    ensures multiset(r) == multiset(Filter(rows, RequestedBy(uid)))
  {
    SortBy(Filter(rows, RequestedBy(uid)), NewestSearchFirst)
  }

  /** The chip on each of my searches. */
  function StatusLabel(s: SearchRequest): (chip: string)
    ensures chip == "Pendiente" <==> s.status == SearchPending
    ensures chip == "Pendiente" || chip == "Resuelta"
  {
    if s.status == SearchPending then "Pendiente" else "Resuelta"
  }

  /** A request just published shows in the requester's own list as pending. */
  lemma PublishedShowsInMySearches(db: Db, id: DocId, user: UserData, query: string, placeType: string, now: nat,
                                   rows: seq<Doc<DocId, SearchRequest>>)
    requires Published(db, id, user, query, placeType, now).Some?
    requires Lists(rows, Published(db, id, user, query, placeType, now).value.searches)
    ensures Doc(id, NewSearch(user, query, placeType, now)) in MySearches(rows, user.id)
    ensures StatusLabel(NewSearch(user, query, placeType, now)) == "Pendiente"
  {
    var searches := Published(db, id, user, query, placeType, now).value.searches;
    assert id in searches && searches[id] == NewSearch(user, query, placeType, now);
    assert Doc(id, searches[id]) in rows;
  }

  // ---------------------------------------------------------------------
  // Activity feed
  // ---------------------------------------------------------------------

  function NewestEntryFirst(e: LogEntry): int
  {
    -(e.timestamp as int)
  }

  const FeedSize: nat := 10

  /** `orderBy('timestamp', 'desc'), limit(10)` over the activity log. */
  function Feed(log: seq<LogEntry>): (f: seq<LogEntry>)
    ensures |f| == if |log| < FeedSize then |log| else FeedSize
    ensures forall i, j :: 0 <= i < j < |f| ==> f[i].timestamp >= f[j].timestamp
    ensures multiset(f) <= multiset(log)
  {
    var sorted := SortBy(log, NewestEntryFirst);
    TakeKeepsSmallest(sorted, NewestEntryFirst, FeedSize);
    Take(sorted, FeedSize)
  }

  /** No entry left out of the feed is newer than an entry in it. */
  lemma FeedShowsNewest(log: seq<LogEntry>)
    ensures forall x, y :: x in multiset(log) - multiset(Feed(log)) && y in Feed(log) ==> y.timestamp >= x.timestamp
  {
    var sorted := SortBy(log, NewestEntryFirst);
    TakeKeepsSmallest(sorted, NewestEntryFirst, FeedSize);
    assert Feed(log) == Take(sorted, FeedSize);
  }

  /** An entry newer than every other entry heads the feed. */
  lemma NewestEntryHeadsFeed(log: seq<LogEntry>, e: LogEntry)
    requires forall x :: x in log ==> x.timestamp < e.timestamp
    ensures Feed(log + [e])[0] == e
  {
    var all := log + [e];
    var sorted := SortBy(all, NewestEntryFirst);
    assert e in all;
    assert e in sorted;
    var k :| 0 <= k < |sorted| && sorted[k] == e;
    assert NewestEntryFirst(sorted[0]) <= NewestEntryFirst(e);
    assert sorted[0] in all;
    assert sorted[0] == e;
  }
}
