/**
 * The reporter's panel: a form (place name and type) that, on submit,
 * commits one batch creating a `Pendiente` report at the clicked map
 * coordinates and appending an activity-log entry. Submitting awards no
 * points; the reporter is credited only when a validator approves.
 */
module PanelInteractivo {
  import opened Common
  import opened Firestore
  import opened PanelValidacion

  /** The place type the form starts with and returns to after a submit. */
  const DefaultPlaceType: string := "Sal\U{F3}n de clase"
  const GuardError: string := "Error: No se puede reportar. Faltan permisos o coordenadas."
  const CommitError: string := "No se pudo enviar el reporte. Int\U{E9}ntalo de nuevo."

  /** Only a signed-in Reporter with a clicked point may submit. */
  predicate MaySubmit(coords: Option<Coords>, user: Option<UserData>)
  {
    coords.Some? && user.Some? && user.value.data.role == RoleReporter
  }

  /** `${displayName || 'Un reportero'} reportó un nuevo punto: ${name}` */
  function SubmitMessage(displayName: string, name: string): string
  {
    OrElse(displayName, "Un reportero") + " report\U{F3} un nuevo punto: " + name
  }

  function NewReport(name: string, placeType: string, coords: Coords, reporter: Uid, now: nat): Report
  {
    Report(name, placeType, Location(coords), ReportPending, reporter, now, None, None)
  }

  function SubmitEntry(user: UserData, name: string, now: nat): LogEntry
  {
    LogEntry(SubmitMessage(user.data.displayName, name), now, user.id, None)
  }

  /** The store after a committed submit of the form (`name`, `placeType`) as report `id`. */
  function Submitted(db: Db, id: DocId, user: UserData, name: string, placeType: string, coords: Coords, now: nat): Db
  {
    db.(reports := db.reports[id := NewReport(name, placeType, coords, user.id, now)],
        log := db.log + [SubmitEntry(user, name, now)])
  }

  /** The batch `handleSubmit` commits: the report, then the log entry. */
  function SubmitBatch(id: DocId, user: UserData, name: string, placeType: string, coords: Coords, now: nat): (b: seq<Write>)
    ensures BatchIdsBelow(b, id + 1)
  {
    [SetReport(id, NewReport(name, placeType, coords, user.id, now)), AppendLog(SubmitEntry(user, name, now))]
  }

  /** The submit batch never fails on its own (it only creates documents) and does what `Submitted` says. */
  lemma SubmitBatchMeetsSpec(db: Db, id: DocId, user: UserData, name: string, placeType: string, coords: Coords, now: nat)
    ensures ApplyBatch(db, SubmitBatch(id, user, name, placeType, coords, now)) == Some(Submitted(db, id, user, name, placeType, coords, now))
  {
    var w1 := SetReport(id, NewReport(name, placeType, coords, user.id, now));
    var w2 := AppendLog(SubmitEntry(user, name, now));
    assert SubmitBatch(id, user, name, placeType, coords, now) == [w1] + [w2];
    ApplyBatchCons(db, w1, [w2]);
    ApplyBatchCons(ApplyWrite(db, w1).value, w2, []);
  }

  /** Which form field a change event targets (`e.target.name`). */
  datatype FormField = NameField | TypeField

  class ReportPanel {
    var formName: string
    var formType: string
    var isSubmitting: bool
    var error: Option<string>

    constructor ()
      ensures formName == "" && formType == DefaultPlaceType && !isSubmitting && error.None?
    {
      formName, formType, isSubmitting, error := "", DefaultPlaceType, false, None;
    }

    /** `handleChange`: one field takes the typed or selected value. */
    method HandleChange(field: FormField, value: string)
      modifies this
      ensures field == NameField ==> formName == value && formType == old(formType)
      ensures field == TypeField ==> formType == value && formName == old(formName)
      ensures isSubmitting == old(isSubmitting) && error == old(error)
    {
      match field
      case NameField => formName := value;
      case TypeField => formType := value;
    }

    /**
     * `handleSubmit`, with `coords` and `user` the panel's props, `now` the
     * server timestamp and `accepted` the backend's verdict on the commit.
     * `closePanel` says whether the panel called its `onClose` callback.
     * The name input is `required`, so the browser only submits the form
     * with a non-empty name.
     */
    method HandleSubmit(store: Store, coords: Option<Coords>, user: Option<UserData>, now: nat, accepted: bool)
      returns (closePanel: bool)
      requires store.Valid()
      requires formName != ""
      modifies this, store
      ensures store.Valid()
      ensures store.nextId == old(store.nextId) + (if MaySubmit(coords, user) then 1 else 0)
      ensures !MaySubmit(coords, user) ==>
        && error == Some(GuardError) && !closePanel
        && store.Snapshot() == old(store.Snapshot())
        && formName == old(formName) && formType == old(formType) && isSubmitting == old(isSubmitting)
      ensures MaySubmit(coords, user) ==>
        var id := old(store.nextId);
        && id !in old(store.reports)
        && !isSubmitting
        && closePanel == accepted
        && store.Snapshot() == (if accepted then Submitted(old(store.Snapshot()), id, user.value, old(formName), old(formType), coords.value, now)
                                else old(store.Snapshot()))
        && (accepted ==> formName == "" && formType == DefaultPlaceType && error.None?)
        && (!accepted ==> formName == old(formName) && formType == old(formType) && error == Some(CommitError))
    {
      if !MaySubmit(coords, user) {
        error := Some(GuardError);
        return false;
      }
      isSubmitting := true;
      error := None;

      var id := store.NewDocId();
      var batch := [SetReport(id, NewReport(formName, formType, coords.value, user.value.id, now)),
                    AppendLog(SubmitEntry(user.value, formName, now))];
      assert batch == SubmitBatch(id, user.value, formName, formType, coords.value, now);
      SubmitBatchMeetsSpec(store.Snapshot(), id, user.value, formName, formType, coords.value, now);
      var ok := store.Commit(batch, accepted);
      if ok {
        formName, formType := "", DefaultPlaceType;
        closePanel := true;
      } else {
        error := Some(CommitError);
        closePanel := false;
      }
      isSubmitting := false;
    }
  }

  // ---------------------------------------------------------------------
  // Properties of a submit
  // ---------------------------------------------------------------------

  /**
   * A submit adds exactly one report, `Pendiente`, by the user, with the
   * form's name and type at the clicked point, and one untagged log entry;
   * accounts, spaces and searches are untouched.
   */
  lemma SubmitAddsOneReport(db: Db, id: DocId, user: UserData, name: string, placeType: string, coords: Coords, now: nat)
    requires id !in db.reports
    ensures var after := Submitted(db, id, user, name, placeType, coords, now);
      && after.users == db.users && after.spaces == db.spaces && after.searches == db.searches
      && after.reports.Keys == db.reports.Keys + {id}
      && |after.reports| == |db.reports| + 1
      && (forall r :: r in db.reports ==> after.reports[r] == db.reports[r])
      && var rep := after.reports[id];
         && rep.status == ReportPending && rep.reportedBy == user.id
         && rep.name == name && rep.placeType == placeType && rep.location.mapCoords == coords
         && rep.validatedBy.None? && rep.validatedAt.None?
  {
    var m := db.reports[id := NewReport(name, placeType, coords, user.id, now)];
    assert m.Keys == db.reports.Keys + {id};
    assert |m.Keys| == |db.reports.Keys| + 1;
  }

  /** The log grows by one entry, by the user, with no action tag. */
  lemma SubmitLogsOnce(db: Db, id: DocId, user: UserData, name: string, placeType: string, coords: Coords, now: nat)
    ensures var after := Submitted(db, id, user, name, placeType, coords, now);
      && |after.log| == |db.log| + 1
      && after.log[..|db.log|] == db.log
      && after.log[|db.log|].userId == user.id
      && after.log[|db.log|].action.None?
      && after.log[|db.log|].message == SubmitMessage(user.data.displayName, name)
  {
    var after := Submitted(db, id, user, name, placeType, coords, now);
    assert after.log[..|db.log|] == db.log;
  }

  /** Without a display name the message names "Un reportero". */
  lemma SubmitMessageFallback(name: string)
    ensures SubmitMessage("", name) == "Un reportero report\U{F3} un nuevo punto: " + name
  {
  }

  /** The submitted report enters the validators' queue. */
  lemma SubmittedReportJoinsQueue(db: Db, id: DocId, user: UserData, name: string, placeType: string, coords: Coords, now: nat,
                                  rows: seq<Doc<DocId, Report>>)
    requires Lists(rows, Submitted(db, id, user, name, placeType, coords, now).reports)
    ensures Doc(id, NewReport(name, placeType, coords, user.id, now)) in PendingQueue(rows)
  {
    var reports := Submitted(db, id, user, name, placeType, coords, now).reports;
    assert id in reports && reports[id] == NewReport(name, placeType, coords, user.id, now);
    assert Doc(id, reports[id]) in rows;
  }
}
