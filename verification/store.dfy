/**
 * The document store the panels write to: the five collections of the
 * campus-map application (`users`, `reports`, `spaces`, `searchRequests`,
 * `activity_log`) and the atomic write batch every handler commits.
 *
 * A batch is a list of writes applied in order. `set` creates or replaces a
 * document; `update` (and the `increment` transform) needs the document to
 * exist, and when it does not the whole commit fails and nothing is written.
 */
module Firestore {
  import opened Common

  /** Account ids come from the identity provider; they are opaque strings. */
  type Uid = string
  /** Ids the client generates for new documents (`doc(collection(...))`). */
  type DocId = nat

  /** Map coordinates of a click, as percentages of the map's bounds. */
  datatype Coords = Coords(x: real, y: real)
  datatype Location = Location(mapCoords: Coords)

  // Status, role and action literals exactly as the application stores them.
  const ReportPending: string := "Pendiente"
  const ReportValidated: string := "Validado"
  const SearchPending: string := "pendiente"
  const SearchResolved: string := "resuelta"
  const RoleReporter: string := "Reporter"
  const RoleValidator: string := "Validator"
  const RoleCommunity: string := "Comunidad"
  const ActionValidate: string := "validate"

  /**
   * A `users` document. An absent `displayName` or `role` is the empty
   * string (both are falsy to the panels); `points` may be missing.
   */
  datatype Account = Account(displayName: string, email: string, role: string, points: Option<nat>)

  /** `points || 0`, which is also how `increment` treats a missing field. */
  function PointsOf(a: Account): nat
  {
    if a.points.Some? then a.points.value else 0
  }

  datatype Report = Report(
    name: string,
    placeType: string,
    location: Location,
    status: string,
    reportedBy: Uid,
    reportedAt: nat,
    validatedBy: Option<Uid>,
    validatedAt: Option<nat>)

  datatype Space = Space(
    name: string,
    placeType: string,
    location: Location,
    status: string,
    reportedBy: Uid,
    validatedBy: Uid,
    createdAt: nat,
    validatedAt: nat)

  datatype SearchRequest = SearchRequest(
    requestedBy: Uid,
    requestedByName: string,
    searchQuery: string,
    searchType: string,
    status: string,
    createdAt: nat)

  datatype LogEntry = LogEntry(message: string, timestamp: nat, userId: Uid, action: Option<string>)

  /** The signed-in user's profile as the panels receive it: uid plus the account's fields. */
  type UserData = Doc<Uid, Account>

  /** The contents of the whole store. */
  datatype Db = Db(
    users: map<Uid, Account>,
    reports: map<DocId, Report>,
    spaces: map<DocId, Space>,
    searches: map<DocId, SearchRequest>,
    log: seq<LogEntry>)

  /** One write of a batch. */
  datatype Write =
    | SetAccount(uid: Uid, account: Account)                       // setDoc(users/uid, ...)
    | IncrementPoints(uid: Uid, delta: nat)                        // update(users/uid, {points: increment(delta)})
    | SetReport(id: DocId, report: Report)                         // set(reports/id, ...)
    | MarkReportValidated(id: DocId, validator: Uid, at: nat)      // update(reports/id, {status, validatedBy, validatedAt})
    | SetSpace(id: DocId, space: Space)                            // set(spaces/id, ...)
    | SetSearch(id: DocId, search: SearchRequest)                  // set(searchRequests/id, ...)
    | MarkSearch(id: DocId, newStatus: string)                     // update(searchRequests/id, {status})
    | AppendLog(entry: LogEntry)                                   // set(activity_log/<new id>, ...)

  /** Adds `delta` to an existing account's points, as `increment(delta)` does. */
  function Credit(users: map<Uid, Account>, uid: Uid, delta: nat): (r: map<Uid, Account>)
    requires uid in users
    ensures r.Keys == users.Keys
    ensures PointsOf(r[uid]) == PointsOf(users[uid]) + delta
    ensures forall u :: u in users && u != uid ==> r[u] == users[u]
    ensures r[uid].(points := users[uid].points) == users[uid]
  {
    users[uid := users[uid].(points := Some(PointsOf(users[uid]) + delta))]
  }

  /** The result of one write, or None when an update targets a missing document. */
  function ApplyWrite(db: Db, w: Write): Option<Db>
  {
    match w
    case SetAccount(uid, a) => Some(db.(users := db.users[uid := a]))
    case IncrementPoints(uid, d) =>
      if uid in db.users then Some(db.(users := Credit(db.users, uid, d))) else None
    case SetReport(id, r) => Some(db.(reports := db.reports[id := r]))
    case MarkReportValidated(id, v, at) =>
      if id in db.reports then
        Some(db.(reports := db.reports[id := db.reports[id].(status := ReportValidated, validatedBy := Some(v), validatedAt := Some(at))]))
      else None
    case SetSpace(id, s) => Some(db.(spaces := db.spaces[id := s]))
    case SetSearch(id, s) => Some(db.(searches := db.searches[id := s]))
    case MarkSearch(id, st) =>
      if id in db.searches then Some(db.(searches := db.searches[id := db.searches[id].(status := st)])) else None
    case AppendLog(e) => Some(db.(log := db.log + [e]))
  }

  /** Applies a batch in order: all of it, or None when any write fails. */
  function ApplyBatch(db: Db, batch: seq<Write>): Option<Db>
    decreases |batch|
  {
    if batch == [] then Some(db)
    else
      match ApplyWrite(db, batch[0])
      case None => None
      case Some(db') => ApplyBatch(db', batch[1..])
  }

  /** Applying `a + b` is applying `a`, then `b` to its result. */
  lemma {:induction false} ApplyBatchAppend(db: Db, a: seq<Write>, b: seq<Write>)
    ensures ApplyBatch(db, a).None? ==> ApplyBatch(db, a + b).None?
    ensures ApplyBatch(db, a).Some? ==> ApplyBatch(db, a + b) == ApplyBatch(ApplyBatch(db, a).value, b)
    decreases |a|
  {
    if a == [] {
      assert a + b == b;
    } else {
      assert (a + b)[0] == a[0];
      assert (a + b)[1..] == a[1..] + b;
      match ApplyWrite(db, a[0])
      case None =>
      case Some(d) => ApplyBatchAppend(d, a[1..], b);
    }
  }

  /** Applying a one-write prefix. */
  lemma ApplyBatchCons(db: Db, w: Write, rest: seq<Write>)
    ensures ApplyBatch(db, [w] + rest) ==
      match ApplyWrite(db, w)
      case None => None
      case Some(d) => ApplyBatch(d, rest)
  {
    assert ([w] + rest)[0] == w;
    assert ([w] + rest)[1..] == rest;
  }

  // ---------------------------------------------------------------------
  // Fresh document ids
  // ---------------------------------------------------------------------

  /** Every generated document id in `db` is below `n`. */
  ghost predicate IdsBelow(db: Db, n: nat)
  {
    && (forall id :: id in db.reports ==> id < n)
    && (forall id :: id in db.spaces ==> id < n)
    && (forall id :: id in db.searches ==> id < n)
  }

  /** The document id a write creates, if it creates one. */
  function CreatedId(w: Write): Option<DocId>
  {
    match w
    case SetReport(id, _) => Some(id)
    case SetSpace(id, _) => Some(id)
    case SetSearch(id, _) => Some(id)
    case _ => None
  }

  ghost predicate BatchIdsBelow(batch: seq<Write>, n: nat)
  {
    forall i :: 0 <= i < |batch| && CreatedId(batch[i]).Some? ==> CreatedId(batch[i]).value < n
  }

  /** A batch whose new documents use ids below `n` keeps every id below `n`. */
  lemma {:induction false} ApplyBatchKeepsIdsBelow(db: Db, batch: seq<Write>, n: nat)
    requires IdsBelow(db, n) && BatchIdsBelow(batch, n)
    ensures ApplyBatch(db, batch).Some? ==> IdsBelow(ApplyBatch(db, batch).value, n)
    decreases |batch|
  {
    if batch != [] {
      assert CreatedId(batch[0]).Some? ==> CreatedId(batch[0]).value < n;
      match ApplyWrite(db, batch[0])
      case None =>
      case Some(d) =>
        assert IdsBelow(d, n);
        assert BatchIdsBelow(batch[1..], n) by {
          forall i | 0 <= i < |batch[1..]| && CreatedId(batch[1..][i]).Some?
            ensures CreatedId(batch[1..][i]).value < n
          {
            assert batch[1..][i] == batch[i + 1];
          }
        }
        ApplyBatchKeepsIdsBelow(d, batch[1..], n);
    }
  }

  // ---------------------------------------------------------------------
  // The store
  // ---------------------------------------------------------------------

  class Store {
    var users: map<Uid, Account>
    var reports: map<DocId, Report>
    var spaces: map<DocId, Space>
    var searches: map<DocId, SearchRequest>
    var log: seq<LogEntry>
    /** The next id `doc(collection(...))` hands out; never reused. */
    var nextId: nat

    function Snapshot(): Db
      reads this
    {
      Db(users, reports, spaces, searches, log)
    }

    ghost predicate Valid()
      reads this
    {
      IdsBelow(Snapshot(), nextId)
    }

    /**
     * A store holding the given accounts and nothing else. Roles other than
     * the default are assigned outside the application, so scenarios start
     * from accounts created this way.
     */
    constructor (accounts: map<Uid, Account>)
      ensures Valid()
      ensures Snapshot() == Db(accounts, map[], map[], map[], []) && nextId == 0
    {
      users, reports, spaces, searches, log := accounts, map[], map[], map[], [];
      nextId := 0;
    }

    /** `doc(collection(db, ...))`: a new id, unused in every collection. */
    method NewDocId() returns (id: DocId)
      requires Valid()
      modifies this`nextId
      ensures Valid()
      ensures id == old(nextId) && nextId == id + 1
      ensures id !in reports && id !in spaces && id !in searches
    {
      id := nextId;
      nextId := nextId + 1;
    }

    /**
     * `batch.commit()`. `accepted` is the backend's own verdict (network,
     * security rules); the commit also fails when an update targets a
     * missing document. A failed commit writes nothing.
     */
    method Commit(batch: seq<Write>, accepted: bool) returns (ok: bool)
      requires Valid() && BatchIdsBelow(batch, nextId)
      modifies this
      ensures Valid() && nextId == old(nextId)
      ensures ok <==> accepted && ApplyBatch(old(Snapshot()), batch).Some?
      ensures Snapshot() == if ok then ApplyBatch(old(Snapshot()), batch).value else old(Snapshot())
    {
      var result := ApplyBatch(Snapshot(), batch);
      if accepted && result.Some? {
        ApplyBatchKeepsIdsBelow(Snapshot(), batch, nextId);
        users, reports, spaces, searches, log :=
          result.value.users, result.value.reports, result.value.spaces, result.value.searches, result.value.log;
        ok := true;
      } else {
        ok := false;
      }
    }

    /** The `reports` collection as a snapshot delivers it. */
    function ReportRows(): (rows: seq<Doc<DocId, Report>>)
      reads this
      requires Valid()
      ensures Lists(rows, reports)
    {
      RowsLists(reports, nextId);
      Rows(reports, nextId)
    }

    /** The `spaces` collection as a snapshot delivers it. */
    function SpaceRows(): (rows: seq<Doc<DocId, Space>>)
      reads this
      requires Valid()
      ensures Lists(rows, spaces)
    {
      RowsLists(spaces, nextId);
      Rows(spaces, nextId)
    }

    /** The `searchRequests` collection as a snapshot delivers it. */
    function SearchRows(): (rows: seq<Doc<DocId, SearchRequest>>)
      reads this
      requires Valid()
      ensures Lists(rows, searches)
    {
      RowsLists(searches, nextId);
      Rows(searches, nextId)
    }
  }
}
