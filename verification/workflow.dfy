/**
 * What the four store-changing handlers (submit, approve, publish and
 * sign-up) have in common: nothing they commit
 * ever goes backwards. Accounts keep existing and never lose points, a
 * validated report stays validated, spaces are only added, a resolved
 * search stays resolved, and the activity log only grows at its end.
 */
module Workflow {
  import opened Common
  import opened Firestore
  import opened PanelValidacion
  import opened PanelInteractivo
  import opened PanelComunidad
  import opened AuthContext

  ghost predicate Evolves(db: Db, db': Db)
  {
    && (forall u :: u in db.users ==> u in db'.users && PointsOf(db'.users[u]) >= PointsOf(db.users[u]))
    && (forall id :: id in db.reports ==>
          (id in db'.reports && (db.reports[id].status == ReportValidated ==> db'.reports[id].status == ReportValidated)))
    && (forall id :: id in db.spaces ==> id in db'.spaces && db'.spaces[id] == db.spaces[id])
    && (forall id :: id in db.searches ==>
          (id in db'.searches && (db.searches[id].status == SearchResolved ==> db'.searches[id].status == SearchResolved)))
    && |db.log| <= |db'.log| && db'.log[..|db.log|] == db.log
  }

  lemma EvolvesTransitive(a: Db, b: Db, c: Db)
    requires Evolves(a, b) && Evolves(b, c)
    ensures Evolves(a, c)
  {
    assert c.log[..|a.log|] == c.log[..|b.log|][..|a.log|];
  }

  /** A submit with a fresh report id only adds. */
  lemma SubmitEvolves(db: Db, id: DocId, user: UserData, name: string, placeType: string, coords: Coords, now: nat)
    requires id !in db.reports
    ensures Evolves(db, Submitted(db, id, user, name, placeType, coords, now))
  {
    var after := Submitted(db, id, user, name, placeType, coords, now);
    assert after.log[..|db.log|] == db.log;
  }

  /** An approval with a fresh space id only adds, credits and resolves. */
  lemma ApprovalEvolves(db: Db, reportId: DocId, report: Report, validator: UserData, spaceId: DocId, now: nat)
    requires Approved(db, reportId, report, validator, spaceId, now).Some?
    requires spaceId !in db.spaces
    ensures Evolves(db, Approved(db, reportId, report, validator, spaceId, now).value)
  {
    ApprovalCreditsPoints(db, reportId, report, validator, spaceId, now);
    ApprovalResolvesExactMatches(db, reportId, report, validator, spaceId, now);
    ApprovalLogsOnce(db, reportId, report, validator, spaceId, now);
  }

  /** A publish with a fresh search id only adds and credits. */
  lemma PublishEvolves(db: Db, id: DocId, user: UserData, query: string, placeType: string, now: nat)
    requires Published(db, id, user, query, placeType, now).Some?
    requires id !in db.searches
    ensures Evolves(db, Published(db, id, user, query, placeType, now).value)
  {
    PublishCreatesRequestAndCredits(db, id, user, query, placeType, now);
  }

  /** A sign-up under a uid that has no account yet only adds an account. */
  lemma SignUpEvolves(db: Db, uid: Uid, displayName: string, email: string)
    requires uid !in db.users
    ensures Evolves(db, db.(users := db.users[uid := NewAccount(displayName, email)]))
  {
    var after := db.(users := db.users[uid := NewAccount(displayName, email)]);
    assert after.log[..|db.log|] == db.log;
  }

  /**
   * Whatever the handler and whatever the backend answers, the store evolves.
   * `choice` picks submit (0), approve (1), publish (2) or sign-up (any
   * other); the submitted name is non-empty, as the form requires, and the
   * identity provider issues a uid that has no account yet.
   */
  method Step(store: Store, choice: nat, user: UserData, reportId: DocId, report: Report,
              name: string, placeType: string, coords: Coords, now: nat, accepted: bool)
    requires store.Valid()
    requires choice == 0 ==> name != ""
    requires choice > 2 ==> user.id !in store.users
    modifies store
    ensures store.Valid()
    ensures Evolves(old(store.Snapshot()), store.Snapshot())
  {
    ghost var before := store.Snapshot();
    if choice == 0 {
      var form := new ReportPanel();
      form.formName, form.formType := name, placeType;
      var _ := form.HandleSubmit(store, Some(coords), Some(user), now, accepted);
      if store.Snapshot() != before {
        SubmitEvolves(before, old(store.nextId), user, name, placeType, coords, now);
      }
    } else if choice == 1 {
      var panel := new ValidationPanel();
      var _ := panel.HandleApprove(store, user, reportId, report, now, accepted);
      if store.Snapshot() != before {
        ApprovalEvolves(before, reportId, report, user, old(store.nextId), now);
      }
    } else if choice == 2 {
      var tab := new SearchTab();
      tab.searchQuery, tab.searchType := name, placeType;
      var _ := tab.HandlePublishSearch(store, Some(user), now, accepted);
      if store.Snapshot() != before {
        PublishEvolves(before, old(store.nextId), user, name, placeType, now);
      }
    } else {
      var auth := new AuthProvider();
      var ok := auth.SignUp(store, user.data.email, name, Some(user.id), accepted);
      if ok {
        SignUpEvolves(before, user.id, name, user.data.email);
      }
    }
  }
}
