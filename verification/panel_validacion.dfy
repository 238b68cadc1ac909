/**
 * The validator's panel: the queue of pending reports and the approval
 * handler. Approving a report commits one batch that marks the report
 * validated, creates the public space, credits the reporter (+5) and the
 * validator (+3), resolves the pending searches asking for exactly that name
 * and type, and appends a `validate` entry to the activity log.
 *
 * The handler does not look at the report's current status: its only guard
 * is the panel's own `isSubmitting` flag. Approving an already validated
 * report therefore succeeds again (see `RepeatedApprovalCreditsAgain`).
 */
module PanelValidacion {
  import opened Common
  import opened Firestore

  // ---------------------------------------------------------------------
  // The pending queue
  // ---------------------------------------------------------------------

  predicate IsPendingReport(r: Doc<DocId, Report>)
  {
    r.data.status == ReportPending
  }

  /** `where('status', '==', 'Pendiente'), orderBy('reportedAt', 'asc')`. */
  function PendingQueue(rows: seq<Doc<DocId, Report>>): (q: seq<Doc<DocId, Report>>)
    ensures forall r :: r in q <==> r in rows && r.data.status == ReportPending
    ensures forall i, j :: 0 <= i < j < |q| ==> q[i].data.reportedAt <= q[j].data.reportedAt
    ensures multiset(q) == multiset(Filter(rows, IsPendingReport))
  {
    SortBy(Filter(rows, IsPendingReport), (r: Doc<DocId, Report>) => r.data.reportedAt as int)
  }

  /** The badge on the collapsed panel. */
  function QueueBadge(rows: seq<Doc<DocId, Report>>): (n: nat)
    ensures n == |Filter(rows, IsPendingReport)|
    ensures Lists(rows, map[]) ==> n == 0
  {
    |PendingQueue(rows)|
  }

  // ---------------------------------------------------------------------
  // Search resolution
  // ---------------------------------------------------------------------

  /** The search query of the approval: pending, same name, same type, compared exactly. */
  predicate MatchesReport(s: SearchRequest, name: string, placeType: string)
  {
    s.status == SearchPending && s.searchQuery == name && s.searchType == placeType
  }

  /** The ids the approval's `getDocs` returns. */
  function MatchingSearchIds(searches: map<DocId, SearchRequest>, name: string, placeType: string): (ids: set<DocId>)
    ensures forall id :: id in ids <==> id in searches && MatchesReport(searches[id], name, placeType)
  {
    set id | id in searches && MatchesReport(searches[id], name, placeType)
  }

  /** Marks the searches with the given ids `resuelta`. */
  function Resolve(searches: map<DocId, SearchRequest>, ids: set<DocId>): (r: map<DocId, SearchRequest>)
    ensures r.Keys == searches.Keys
  {
    map id | id in searches :: if id in ids then searches[id].(status := SearchResolved) else searches[id]
  }

  function ResolveMatching(searches: map<DocId, SearchRequest>, name: string, placeType: string): (r: map<DocId, SearchRequest>)
    ensures r.Keys == searches.Keys
  {
    Resolve(searches, MatchingSearchIds(searches, name, placeType))
  }

  /** The `update(..., {status: "resuelta"})` writes the `forEach` adds, one per id. */
  function ResolveWrites(ids: seq<DocId>): (ws: seq<Write>)
    ensures |ws| == |ids|
    ensures forall i :: 0 <= i < |ids| ==> ws[i] == MarkSearch(ids[i], SearchResolved)
  {
    seq(|ids|, i requires 0 <= i < |ids| => MarkSearch(ids[i], SearchResolved))
  }

  /** Resolving one more id, then the rest, is resolving them all. */
  lemma ResolveStep(searches: map<DocId, SearchRequest>, k: DocId, rest: set<DocId>)
    requires k in searches
    ensures Resolve(searches[k := searches[k].(status := SearchResolved)], rest) == Resolve(searches, rest + {k})
  {
    var a := Resolve(searches[k := searches[k].(status := SearchResolved)], rest);
    var b := Resolve(searches, rest + {k});
    assert a.Keys == b.Keys;
    forall id | id in a ensures a[id] == b[id] {
    }
  }

  /** The store after the first resolve write of `ids`. */
  function AfterFirstResolve(db: Db, ids: seq<DocId>): Db
    requires ids != [] && ids[0] in db.searches
  {
    db.(searches := db.searches[ids[0] := db.searches[ids[0]].(status := SearchResolved)])
  }

  /** The first resolve write succeeds and leaves the rest of the writes to do. */
  lemma ResolveWritesHead(db: Db, ids: seq<DocId>)
    requires ids != [] && ids[0] in db.searches
    ensures ApplyBatch(db, ResolveWrites(ids)) == ApplyBatch(AfterFirstResolve(db, ids), ResolveWrites(ids[1..]))
  {
    var w := MarkSearch(ids[0], SearchResolved);
    assert ResolveWrites(ids) == [w] + ResolveWrites(ids[1..]);
    assert ApplyWrite(db, w) == Some(AfterFirstResolve(db, ids));
    ApplyBatchCons(db, w, ResolveWrites(ids[1..]));
  }

  /** Resolving the tail after the head is resolving the whole list. */
  lemma ResolveHeadThenTail(db: Db, ids: seq<DocId>)
    requires ids != [] && ids[0] in db.searches
    ensures var db1 := AfterFirstResolve(db, ids);
            db1.(searches := Resolve(db1.searches, set j | j in ids[1..])) ==
            db.(searches := Resolve(db.searches, set j | j in ids))
  {
    var later := set j | j in ids[1..];
    ResolveStep(db.searches, ids[0], later);
    assert later + {ids[0]} == set j | j in ids;
  }

  /** Committing the resolve writes marks exactly the listed searches. */
  lemma {:induction false} ApplyResolveWrites(db: Db, ids: seq<DocId>)
    requires forall k :: k in ids ==> k in db.searches
    ensures ApplyBatch(db, ResolveWrites(ids)) == Some(db.(searches := Resolve(db.searches, set k | k in ids)))
    decreases |ids|
  {
    if ids == [] {
      var none := set k | k in ids;
      assert none == {};
      assert Resolve(db.searches, none) == db.searches;
      assert ResolveWrites(ids) == [];
      assert db.(searches := db.searches) == db;
    } else {
      var db1 := AfterFirstResolve(db, ids);
      ResolveWritesHead(db, ids);
      assert forall k :: k in ids[1..] ==> k in db1.searches;
      ApplyResolveWrites(db1, ids[1..]);
      ResolveHeadThenTail(db, ids);
    }
  }

  // ---------------------------------------------------------------------
  // What an approval does
  // ---------------------------------------------------------------------

  /** `${displayName || 'Un validador'} aprobó "${name}".` */
  function ApprovalMessage(displayName: string, name: string): string
  {
    OrElse(displayName, "Un validador") + " aprob\U{F3} \"" + name + "\"."
  }

  function ApprovalEntry(validator: UserData, report: Report, now: nat): LogEntry
  {
    LogEntry(ApprovalMessage(validator.data.displayName, report.name), now, validator.id, Some(ActionValidate))
  }

  /** The space the approval publishes, copied from the report the validator saw. */
  function SpaceFor(report: Report, validator: Uid, now: nat): Space
  {
    Space(report.name, report.placeType, report.location, ReportValidated,
          report.reportedBy, validator, report.reportedAt, now)
  }

  /**
   * The store after the approval's first four writes: the report validated,
   * the space created, the reporter and the validator credited.
   */
  function ValidatedAndCredited(db: Db, reportId: DocId, report: Report, validator: UserData, spaceId: DocId, now: nat): Db
    requires reportId in db.reports && report.reportedBy in db.users && validator.id in db.users
  {
    var stored := db.reports[reportId];
    db.(users := Credit(Credit(db.users, report.reportedBy, 5), validator.id, 3),
        reports := db.reports[reportId := stored.(status := ReportValidated, validatedBy := Some(validator.id), validatedAt := Some(now))],
        spaces := db.spaces[spaceId := SpaceFor(report, validator.id, now)])
  }

  /**
   * The store after approving `report` (the queue's copy of document
   * `reportId`), or None when the commit fails because the report document,
   * the reporter's account or the validator's account is missing.
   */
  function Approved(db: Db, reportId: DocId, report: Report, validator: UserData, spaceId: DocId, now: nat): Option<Db>
  {
    if reportId !in db.reports || report.reportedBy !in db.users || validator.id !in db.users then None
    else
      Some(ValidatedAndCredited(db, reportId, report, validator, spaceId, now).(
        searches := ResolveMatching(db.searches, report.name, report.placeType),
        log := db.log + [ApprovalEntry(validator, report, now)]))
  }

  /** The four writes that precede the search updates in the approval batch. */
  function ApprovalPrefix(reportId: DocId, report: Report, validator: UserData, spaceId: DocId, now: nat): seq<Write>
  {
    [ MarkReportValidated(reportId, validator.id, now),
      SetSpace(spaceId, SpaceFor(report, validator.id, now)),
      IncrementPoints(report.reportedBy, 5),
      IncrementPoints(validator.id, 3) ]
  }

  /** The batch `handleApprove` commits, with the snapshot's search ids in `ids`. */
  function ApprovalBatch(reportId: DocId, report: Report, validator: UserData, spaceId: DocId, now: nat, ids: seq<DocId>): (b: seq<Write>)
    ensures BatchIdsBelow(b, spaceId + 1)
  {
    var b := ApprovalPrefix(reportId, report, validator, spaceId, now)
             + ResolveWrites(ids)
             + [AppendLog(ApprovalEntry(validator, report, now))];
    assert forall i :: 0 <= i < |b| && i != 1 ==> CreatedId(b[i]).None?;
    b
  }

  /** The first four writes: report, space and the two credits. */
  lemma ApplyApprovalPrefix(db: Db, reportId: DocId, report: Report, validator: UserData, spaceId: DocId, now: nat)
    ensures ApplyBatch(db, ApprovalPrefix(reportId, report, validator, spaceId, now)) ==
      if reportId !in db.reports || report.reportedBy !in db.users || validator.id !in db.users then None
      else Some(ValidatedAndCredited(db, reportId, report, validator, spaceId, now))
  {
    var w1 := MarkReportValidated(reportId, validator.id, now);
    var w2 := SetSpace(spaceId, SpaceFor(report, validator.id, now));
    var w3 := IncrementPoints(report.reportedBy, 5);
    var w4 := IncrementPoints(validator.id, 3);
    assert ApprovalPrefix(reportId, report, validator, spaceId, now) == [w1] + [w2, w3, w4];
    ApplyBatchCons(db, w1, [w2, w3, w4]);
    if reportId in db.reports {
      var d1 := ApplyWrite(db, w1).value;
      assert [w2, w3, w4] == [w2] + [w3, w4];
      ApplyBatchCons(d1, w2, [w3, w4]);
      var d2 := ApplyWrite(d1, w2).value;
      assert [w3, w4] == [w3] + [w4];
      ApplyBatchCons(d2, w3, [w4]);
      if report.reportedBy in db.users {
        var d3 := ApplyWrite(d2, w3).value;
        ApplyBatchCons(d3, w4, []);
      }
    }
  }

  /** The writes after the prefix: resolve the listed searches, then log `e`. */
  lemma ApplyResolveAndLog(d: Db, ids: seq<DocId>, e: LogEntry)
    requires forall k :: k in ids ==> k in d.searches
    ensures ApplyBatch(d, ResolveWrites(ids) + [AppendLog(e)]) ==
            Some(d.(searches := Resolve(d.searches, set k | k in ids), log := d.log + [e]))
  {
    var ws := ResolveWrites(ids);
    ApplyBatchAppend(d, ws, [AppendLog(e)]);
    ApplyResolveWrites(d, ids);
    var d5 := d.(searches := Resolve(d.searches, set k | k in ids));
    assert ApplyBatch(d, ws) == Some(d5);
    var d6 := d5.(log := d5.log + [e]);
    assert ApplyWrite(d5, AppendLog(e)) == Some(d6);
    assert ApplyBatch(d5, [AppendLog(e)]) == ApplyBatch(d6, []);
  }

  /** Resolving exactly the matching ids is `ResolveMatching`. */
  lemma ResolveMatchingIs(searches: map<DocId, SearchRequest>, ids: set<DocId>, name: string, placeType: string)
    requires ids == MatchingSearchIds(searches, name, placeType)
    ensures Resolve(searches, ids) == ResolveMatching(searches, name, placeType)
  {
  }

  /** The writes after the prefix take the validated and credited store to `Approved`'s result. */
  lemma ApprovalSuffixMeetsSpec(db: Db, reportId: DocId, report: Report, validator: UserData, spaceId: DocId, now: nat, ids: seq<DocId>)
    requires reportId in db.reports && report.reportedBy in db.users && validator.id in db.users
    requires (set k | k in ids) == MatchingSearchIds(db.searches, report.name, report.placeType)
    ensures ApplyBatch(ValidatedAndCredited(db, reportId, report, validator, spaceId, now),
                       ResolveWrites(ids) + [AppendLog(ApprovalEntry(validator, report, now))]) ==
            Approved(db, reportId, report, validator, spaceId, now)
  {
    var d4 := ValidatedAndCredited(db, reportId, report, validator, spaceId, now);
    var e := ApprovalEntry(validator, report, now);
    assert d4.searches == db.searches && d4.log == db.log;
    assert forall k :: k in ids ==> k in d4.searches by {
      forall k | k in ids ensures k in d4.searches {
        assert k in (set k | k in ids);
      }
    }
    ApplyResolveAndLog(d4, ids, e);
    ResolveMatchingIs(db.searches, (set k | k in ids), report.name, report.placeType);
  }

  /** The approval batch does exactly what `Approved` describes. */
  lemma ApprovalBatchMeetsSpec(db: Db, reportId: DocId, report: Report, validator: UserData, spaceId: DocId, now: nat, ids: seq<DocId>)
    requires (set k | k in ids) == MatchingSearchIds(db.searches, report.name, report.placeType)
    ensures ApplyBatch(db, ApprovalBatch(reportId, report, validator, spaceId, now, ids)) ==
            Approved(db, reportId, report, validator, spaceId, now)
  {
    var prefix := ApprovalPrefix(reportId, report, validator, spaceId, now);
    var rest := ResolveWrites(ids) + [AppendLog(ApprovalEntry(validator, report, now))];
    assert ApprovalBatch(reportId, report, validator, spaceId, now, ids) == prefix + rest;
    ApplyBatchAppend(db, prefix, rest);
    ApplyApprovalPrefix(db, reportId, report, validator, spaceId, now);
    if reportId in db.reports && report.reportedBy in db.users && validator.id in db.users {
      ApprovalSuffixMeetsSpec(db, reportId, report, validator, spaceId, now, ids);
    }
  }

  // ---------------------------------------------------------------------
  // The panel
  // ---------------------------------------------------------------------

  datatype ApprovalOutcome =
    | Ignored     // an approval was already in flight
    | Committed   // the batch was written
    | Alerted     // the commit failed and the panel showed an alert

  class ValidationPanel {
    var isSubmitting: bool

    constructor ()
      ensures !isSubmitting
    {
      isSubmitting := false;
    }

    /**
     * `handleApprove(report)`, where `reportId`/`report` is the queue's copy
     * of the document, `now` is `Timestamp.now()` and `accepted` is the
     * backend's verdict on the commit.
     */
    method HandleApprove(store: Store, user: UserData, reportId: DocId, report: Report, now: nat, accepted: bool)
      returns (outcome: ApprovalOutcome)
      requires store.Valid()
      modifies this, store
      ensures store.Valid()
      ensures store.nextId == old(store.nextId) + (if old(isSubmitting) then 0 else 1)
      ensures old(isSubmitting) ==> outcome == Ignored && isSubmitting && store.Snapshot() == old(store.Snapshot())
      ensures !old(isSubmitting) ==> !isSubmitting && outcome != Ignored
      ensures !old(isSubmitting) ==>
        var spaceId := old(store.nextId);
        var after := Approved(old(store.Snapshot()), reportId, report, user, spaceId, now);
        && spaceId !in old(store.spaces)
        && (outcome == Committed <==> accepted && after.Some?)
        && store.Snapshot() == (if outcome == Committed then after.value else old(store.Snapshot()))
    {
      if isSubmitting {
        return Ignored;
      }
      isSubmitting := true;

      var spaceId := store.NewDocId();
      var batch := [ MarkReportValidated(reportId, user.id, now),
                     SetSpace(spaceId, SpaceFor(report, user.id, now)),
                     IncrementPoints(report.reportedBy, 5),
                     IncrementPoints(user.id, 3) ];
      assert batch == ApprovalPrefix(reportId, report, user, spaceId, now);
      ghost var prefix := batch;

      // getDocs on pending searches with this exact name and type, then forEach.
      var found := MatchingSearchIds(store.searches, report.name, report.placeType);
      var todo := found;
      ghost var picked: seq<DocId> := [];
      while todo != {}
        invariant todo <= found
        invariant forall k :: k in picked <==> k in found && k !in todo
        invariant batch == prefix + ResolveWrites(picked)
        decreases todo
      {
        var id :| id in todo;
        assert ResolveWrites(picked + [id]) == ResolveWrites(picked) + [MarkSearch(id, SearchResolved)];
        batch := batch + [MarkSearch(id, SearchResolved)];
        picked := picked + [id];
        todo := todo - {id};
      }
      batch := batch + [AppendLog(ApprovalEntry(user, report, now))];

      assert (set k | k in picked) == found;
      assert batch == ApprovalBatch(reportId, report, user, spaceId, now, picked);
      ApprovalBatchMeetsSpec(store.Snapshot(), reportId, report, user, spaceId, now, picked);
      var ok := store.Commit(batch, accepted);
      outcome := if ok then Committed else Alerted;
      isSubmitting := false;
    }
  }

  // ---------------------------------------------------------------------
  // Properties of an approval
  // ---------------------------------------------------------------------

  /** An approval commits exactly when the report and both accounts exist. */
  lemma ApprovalNeedsAccounts(db: Db, reportId: DocId, report: Report, validator: UserData, spaceId: DocId, now: nat)
    ensures Approved(db, reportId, report, validator, spaceId, now).Some? <==>
      reportId in db.reports && report.reportedBy in db.users && validator.id in db.users
  {
  }

  /**
   * The reporter gains 5 points and the validator 3 (8 when they are the
   * same account); no other account and no other account field changes.
   */
  lemma ApprovalCreditsPoints(db: Db, reportId: DocId, report: Report, validator: UserData, spaceId: DocId, now: nat)
    requires Approved(db, reportId, report, validator, spaceId, now).Some?
    ensures var after := Approved(db, reportId, report, validator, spaceId, now).value;
      && after.users.Keys == db.users.Keys
      && forall u :: u in db.users ==>
           && PointsOf(after.users[u]) == PointsOf(db.users[u])
                + (if u == report.reportedBy then 5 else 0) + (if u == validator.id then 3 else 0)
           && after.users[u].(points := db.users[u].points) == db.users[u]
  {
  }

  /**
   * The report becomes `Validado`, stamped with the validator and the time;
   * its other fields and every other report are unchanged.
   */
  lemma ApprovalValidatesReport(db: Db, reportId: DocId, report: Report, validator: UserData, spaceId: DocId, now: nat)
    requires Approved(db, reportId, report, validator, spaceId, now).Some?
    ensures var after := Approved(db, reportId, report, validator, spaceId, now).value;
      && after.reports.Keys == db.reports.Keys
      && after.reports[reportId].status == ReportValidated
      && after.reports[reportId].validatedBy == Some(validator.id)
      && after.reports[reportId].validatedAt == Some(now)
      && after.reports[reportId].(status := db.reports[reportId].status,
                                  validatedBy := db.reports[reportId].validatedBy,
                                  validatedAt := db.reports[reportId].validatedAt) == db.reports[reportId]
      && forall id :: id in db.reports && id != reportId ==> after.reports[id] == db.reports[id]
  {
  }

  /** Exactly one new space, copied from the report, with a fresh id. */
  lemma ApprovalCreatesOneSpace(db: Db, reportId: DocId, report: Report, validator: UserData, spaceId: DocId, now: nat)
    requires Approved(db, reportId, report, validator, spaceId, now).Some?
    requires spaceId !in db.spaces
    ensures var after := Approved(db, reportId, report, validator, spaceId, now).value;
      && after.spaces.Keys == db.spaces.Keys + {spaceId}
      && |after.spaces| == |db.spaces| + 1
      && (forall id :: id in db.spaces ==> after.spaces[id] == db.spaces[id])
      && var s := after.spaces[spaceId];
         && s.name == report.name && s.placeType == report.placeType && s.location == report.location
         && s.reportedBy == report.reportedBy && s.createdAt == report.reportedAt
         && s.status == ReportValidated && s.validatedBy == validator.id
  {
  }

  /**
   * Exactly the pending searches whose query and type equal the report's
   * name and type become `resuelta`; nothing else about any search changes.
   */
  lemma ApprovalResolvesExactMatches(db: Db, reportId: DocId, report: Report, validator: UserData, spaceId: DocId, now: nat)
    requires Approved(db, reportId, report, validator, spaceId, now).Some?
    ensures var after := Approved(db, reportId, report, validator, spaceId, now).value;
      && after.searches.Keys == db.searches.Keys
      && (forall id :: id in db.searches ==>
           && after.searches[id].(status := db.searches[id].status) == db.searches[id]
           && (after.searches[id].status != db.searches[id].status ==> after.searches[id].status == SearchResolved)
           && (MatchesReport(db.searches[id], report.name, report.placeType) <==>
                 db.searches[id].status == SearchPending && after.searches[id].status == SearchResolved))
      && forall id :: id in after.searches ==> !MatchesReport(after.searches[id], report.name, report.placeType)
  {
  }

  /** Exactly one log entry is appended, tagged `validate`, by the validator, naming the report. */
  lemma ApprovalLogsOnce(db: Db, reportId: DocId, report: Report, validator: UserData, spaceId: DocId, now: nat)
    requires Approved(db, reportId, report, validator, spaceId, now).Some?
    ensures var after := Approved(db, reportId, report, validator, spaceId, now).value;
      && |after.log| == |db.log| + 1
      && after.log[..|db.log|] == db.log
      && after.log[|db.log|].action == Some(ActionValidate)
      && after.log[|db.log|].userId == validator.id
      && after.log[|db.log|].timestamp == now
      && after.log[|db.log|].message == ApprovalMessage(validator.data.displayName, report.name)
  {
  }

  /** Without a display name the approval message names "Un validador". */
  lemma ApprovalMessageFallback(name: string)
    ensures ApprovalMessage("", name) == "Un validador aprob\U{F3} \"" + name + "\"."
  {
  }

  /** With a display name the approval message starts with it. */
  lemma ApprovalMessageNamesValidator(displayName: string, name: string)
    requires displayName != ""
    ensures ApprovalMessage(displayName, name) == displayName + " aprob\U{F3} \"" + name + "\"."
  {
  }

  /**
   * Nothing stops a second approval of the same report: it succeeds on the
   * already validated document, publishes a second space and credits both
   * accounts again.
   */
  lemma RepeatedApprovalCreditsAgain(db: Db, reportId: DocId, report: Report, validator: UserData,
                                     space1: DocId, space2: DocId, now1: nat, now2: nat)
    requires Approved(db, reportId, report, validator, space1, now1).Some?
    requires space1 !in db.spaces && space2 !in db.spaces && space1 != space2
    requires report.reportedBy != validator.id
    ensures var once := Approved(db, reportId, report, validator, space1, now1).value;
      var twice := Approved(once, reportId, report, validator, space2, now2);
      && once.reports[reportId].status == ReportValidated
      && twice.Some?
      && twice.value.spaces.Keys == db.spaces.Keys + {space1, space2}
      && PointsOf(twice.value.users[report.reportedBy]) == PointsOf(db.users[report.reportedBy]) + 10
      && PointsOf(twice.value.users[validator.id]) == PointsOf(db.users[validator.id]) + 6
  {
    var once := Approved(db, reportId, report, validator, space1, now1).value;
    ApprovalCreditsPoints(db, reportId, report, validator, space1, now1);
    ApprovalCreditsPoints(once, reportId, report, validator, space2, now2);
  }

  /** Once approved, a report is no longer in the validators' queue. */
  lemma ApprovedReportLeavesQueue(db: Db, reportId: DocId, report: Report, validator: UserData, spaceId: DocId, now: nat,
                                  rows: seq<Doc<DocId, Report>>)
    requires Approved(db, reportId, report, validator, spaceId, now).Some?
    requires Lists(rows, Approved(db, reportId, report, validator, spaceId, now).value.reports)
    ensures forall r :: r in PendingQueue(rows) ==> r.id != reportId
  {
  }
}
