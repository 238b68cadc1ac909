/**
 * Two end-to-end runs of the workflow on concrete accounts, driven through
 * the panels' handlers with every commit accepted.
 */
module Scenarios {
  import opened Common
  import opened Firestore
  import opened PanelValidacion
  import opened PanelInteractivo
  import opened PanelComunidad

  const Rosa: Uid := "rosa"
  const Victor: Uid := "victor"
  const Carla: Uid := "carla"

  function StartingAccounts(): map<Uid, Account>
  {
    map[Rosa := Account("Rosa", "rosa@example.com", RoleReporter, Some(0)),
        Victor := Account("Victor", "victor@example.com", RoleValidator, Some(0)),
        Carla := Account("Carla", "carla@example.com", RoleCommunity, Some(0))]
  }

  // ---------------------------------------------------------------------
  // One user action each, through a freshly mounted panel
  // ---------------------------------------------------------------------

  /** A Reporter fills in the report form and submits it. */
  method Submit(store: Store, reporter: UserData, name: string, placeType: string, coords: Coords, now: nat)
    returns (id: DocId)
    requires store.Valid() && reporter.data.role == RoleReporter && name != ""
    modifies store
    ensures store.Valid() && id == old(store.nextId) && id !in old(store.reports)
    ensures store.Snapshot() == Submitted(old(store.Snapshot()), id, reporter, name, placeType, coords, now)
  {
    id := store.nextId;
    var form := new ReportPanel();
    form.HandleChange(NameField, name);
    form.HandleChange(TypeField, placeType);
    var _ := form.HandleSubmit(store, Some(coords), Some(reporter), now, true);
  }

  /** A Validator approves a report whose document and accounts exist. */
  method Approve(store: Store, validator: UserData, id: DocId, report: Report, now: nat)
    returns (spaceId: DocId)
    requires store.Valid()
    requires id in store.reports && report.reportedBy in store.users && validator.id in store.users
    modifies store
    ensures store.Valid() && spaceId == old(store.nextId) && spaceId !in old(store.spaces)
    ensures Approved(old(store.Snapshot()), id, report, validator, spaceId, now).Some?
    ensures store.Snapshot() == Approved(old(store.Snapshot()), id, report, validator, spaceId, now).value
  {
    spaceId := store.nextId;
    ApprovalNeedsAccounts(store.Snapshot(), id, report, validator, spaceId, now);
    var panel := new ValidationPanel();
    var _ := panel.HandleApprove(store, validator, id, report, now, true);
  }

  /** A community member types a query, picks a type and publishes the search. */
  method Publish(store: Store, requester: UserData, query: string, placeType: string, now: nat)
    returns (id: DocId)
    requires store.Valid() && query != "" && requester.id in store.users
    modifies store
    ensures store.Valid() && id == old(store.nextId) && id !in old(store.searches)
    ensures Published(old(store.Snapshot()), id, requester, query, placeType, now).Some?
    ensures store.Snapshot() == Published(old(store.Snapshot()), id, requester, query, placeType, now).value
  {
    id := store.nextId;
    var tab := new SearchTab();
    tab.searchQuery, tab.searchType := query, placeType;
    var _ := tab.HandlePublishSearch(store, Some(requester), now, true);
  }

  // ---------------------------------------------------------------------
  // The runs
  // ---------------------------------------------------------------------

  /**
   * A reporter with 0 points reports "Salón 315" at (40, 60); a validator
   * with 0 points approves it. The report ends up validated, one space
   * exists, the reporter has 5 points, the validator 3, and the log holds
   * the submit entry followed by one `validate` entry.
   */
  method ReportAndApprove() returns (status: string, spaceCount: nat, reporterPoints: nat, validatorPoints: nat, actions: seq<Option<string>>)
    ensures status == ReportValidated
    ensures spaceCount == 1
    ensures reporterPoints == 5 && validatorPoints == 3
    ensures actions == [None, Some(ActionValidate)]
  {
    var store := new Store(StartingAccounts());
    var rosa := Doc(Rosa, store.users[Rosa]);
    var victor := Doc(Victor, store.users[Victor]);
    var name, coords := "Sal\U{F3}n 315", Coords(40.0, 60.0);

    ghost var db0 := store.Snapshot();
    var reportId := Submit(store, rosa, name, DefaultPlaceType, coords, 1);
    SubmitLogsOnce(db0, reportId, rosa, name, DefaultPlaceType, coords, 1);
    var report := store.reports[reportId];

    ghost var db1 := store.Snapshot();
    var spaceId := Approve(store, victor, reportId, report, 2);
    ApprovalValidatesReport(db1, reportId, report, victor, spaceId, 2);
    ApprovalLogsOnce(db1, reportId, report, victor, spaceId, 2);

    status := store.reports[reportId].status;
    spaceCount := |store.spaces|;
    reporterPoints := PointsOf(store.users[Rosa]);
    validatorPoints := PointsOf(store.users[Victor]);
    assert store.log[..1] == db1.log;
    actions := [store.log[0].action, store.log[1].action];
  }

  /**
   * A community member searches for "Sala 999" (an office) and, finding
   * nothing, publishes the search (+1 point). A reporter later reports that
   * place and a validator approves it: the search becomes `resuelta`.
   */
  method SearchThenReport() returns (searcherPoints: nat, offered: bool, finalStatus: string)
    ensures offered
    ensures searcherPoints == 1
    ensures finalStatus == SearchResolved
  {
    var store := new Store(StartingAccounts());
    var carla := Doc(Carla, store.users[Carla]);
    var rosa := Doc(Rosa, store.users[Rosa]);
    var victor := Doc(Victor, store.users[Victor]);
    var query, placeType, coords := "Sala 999", "Oficina", Coords(10.0, 20.0);

    var spaces := SearchableSpaces(store.SpaceRows());
    assert spaces == [];
    offered := PublishOffered(query, Results(query, placeType, spaces));

    ghost var db0 := store.Snapshot();
    var searchId := Publish(store, carla, query, placeType, 1);
    PublishCreatesRequestAndCredits(db0, searchId, carla, query, placeType, 1);
    searcherPoints := PointsOf(store.users[Carla]);

    var reportId := Submit(store, rosa, query, placeType, coords, 2);
    var report := store.reports[reportId];

    ghost var db2 := store.Snapshot();
    assert MatchesReport(db2.searches[searchId], report.name, report.placeType);
    var spaceId := Approve(store, victor, reportId, report, 3);
    ApprovalResolvesExactMatches(db2, reportId, report, victor, spaceId, 3);
    finalStatus := store.searches[searchId].status;
  }
}
