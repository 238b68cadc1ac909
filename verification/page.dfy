/**
 * The home page: which panels a signed-in user sees, chosen by role, and the
 * page state behind the report panel (whether it is open and the clicked
 * point waiting to be reported) and the highlighted map pin.
 */
module Page {
  import opened Common
  import opened Firestore
  import opened PanelInteractivo
  import opened AuthContext

  datatype Panel = CommunityPanel | ReportPanelView | PendingSearchesPanel | ValidationPanelView

  datatype Screen =
    | LoadingScreen            // "Cargando LIA..." and nothing else
    | MainScreen(panels: set<Panel>)

  /** The role-specific panels mounted for a profile. */
  function PanelsFor(userData: Option<UserData>): (ps: set<Panel>)
    ensures userData.None? ==> ps == {}
  {
    if userData.None? then {}
    else
      var role := userData.value.data.role;
      if role == RoleCommunity then {CommunityPanel}
      else if role == RoleReporter then {ReportPanelView, PendingSearchesPanel}
      else if role == RoleValidator then {ValidationPanelView}
      else {}
  }

  function ScreenFor(loading: bool, userData: Option<UserData>): (s: Screen)
    ensures loading <==> s.LoadingScreen?
  {
    if loading then LoadingScreen else MainScreen(PanelsFor(userData))
  }

  /**
   * Each panel belongs to exactly one role: a mounted panel determines the
   * role, so no profile sees two roles' panels.
   */
  lemma PanelsDetermineRole(userData: Option<UserData>)
    ensures CommunityPanel in PanelsFor(userData) <==> userData.Some? && userData.value.data.role == RoleCommunity
    ensures ReportPanelView in PanelsFor(userData) <==> userData.Some? && userData.value.data.role == RoleReporter
    ensures PendingSearchesPanel in PanelsFor(userData) <==> userData.Some? && userData.value.data.role == RoleReporter
    ensures ValidationPanelView in PanelsFor(userData) <==> userData.Some? && userData.value.data.role == RoleValidator
    ensures PanelsFor(userData) == {} <==>
      userData.None? || userData.value.data.role !in {RoleCommunity, RoleReporter, RoleValidator}
  {
  }

  /** A freshly signed-up account sees the community panel only, and cannot report. */
  lemma NewAccountIsCommunity(uid: Uid, displayName: string, email: string, coords: Option<Coords>)
    ensures PanelsFor(Some(Doc(uid, NewAccount(displayName, email)))) == {CommunityPanel}
    ensures !MaySubmit(coords, Some(Doc(uid, NewAccount(displayName, email))))
  {
  }

  class Home {
    var isReportPanelOpen: bool
    var newPinCoords: Option<Coords>
    var highlightedPin: Option<DocId>

    constructor ()
      ensures !isReportPanelOpen && newPinCoords.None? && highlightedPin.None?
    {
      isReportPanelOpen, newPinCoords, highlightedPin := false, None, None;
    }

    /** `handleMapClick(coords)`: only a Reporter's click opens the report panel. */
    method HandleMapClick(userData: Option<UserData>, coords: Coords)
      modifies this
      ensures highlightedPin == old(highlightedPin)
      ensures userData.Some? && userData.value.data.role == RoleReporter ==>
        newPinCoords == Some(coords) && isReportPanelOpen
      ensures !(userData.Some? && userData.value.data.role == RoleReporter) ==>
        newPinCoords == old(newPinCoords) && isReportPanelOpen == old(isReportPanelOpen)
    {
      if userData.Some? && userData.value.data.role == RoleReporter {
        newPinCoords := Some(coords);
        isReportPanelOpen := true;
      }
    }

    /** `handleCloseReportPanel`. */
    method HandleCloseReportPanel()
      modifies this
      ensures !isReportPanelOpen && newPinCoords.None? && highlightedPin == old(highlightedPin)
    {
      isReportPanelOpen := false;
      newPinCoords := None;
    }

    /** A click on a search result highlights that space's pin. */
    method OnSearchResultClick(spaceId: DocId)
      modifies this
      ensures highlightedPin == Some(spaceId)
      ensures isReportPanelOpen == old(isReportPanelOpen) && newPinCoords == old(newPinCoords)
    {
      highlightedPin := Some(spaceId);
    }
  }

  /**
   * A Reporter clicks the map and submits the form: the report lands at the
   * clicked point, and a committed submit closes the panel and clears the
   * pending point, while a failed one leaves both in place.
   */
  method ReportFromMap(home: Home, form: ReportPanel, store: Store, userData: UserData, coords: Coords, now: nat, accepted: bool)
    requires store.Valid() && userData.data.role == RoleReporter
    requires home != form as object
    requires form.formName != ""
    modifies home, form, store
    ensures store.Valid()
    ensures accepted ==>
      && store.Snapshot() == Submitted(old(store.Snapshot()), old(store.nextId), userData, old(form.formName), old(form.formType), coords, now)
      && !home.isReportPanelOpen && home.newPinCoords.None?
    ensures !accepted ==>
      && store.Snapshot() == old(store.Snapshot())
      && home.isReportPanelOpen && home.newPinCoords == Some(coords)
  {
    home.HandleMapClick(Some(userData), coords);
    var close := form.HandleSubmit(store, home.newPinCoords, Some(userData), now, accepted);
    if close {
      home.HandleCloseReportPanel();
    }
  }
}
