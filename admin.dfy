/** The admin page: the list of every report with an editable note per report, the status
    selector, note saving and deletion. Each request's outcome is an input. */
module AdminPage {
  import opened Domain
  import ReportRoutes

  const FetchFailedMessage := "Failed to fetch reports"
  const UpdateFailedMessage := "Failed to update report"
  const DeleteFailedMessage := "Failed to delete report"
  const SaveNoteFailedMessage := "Failed to save note"

  /** The choices of the status selector, in the order they are offered. */
  const StatusOptions: seq<string> := [Pending, InProgress, Completed]

  /** The `initialNotes` object: each report's note (or "") under its id, a later report
      overwriting an earlier one with the same id. */
  function NotesOf(rs: seq<Report>): map<ReportId, string>
  {
    if rs == [] then map[]
    else NotesOf(rs[..|rs| - 1])[rs[|rs| - 1].id := FieldOr(rs[|rs| - 1], Note)]
  }

  /** There is a note entry for exactly the listed ids. */
  lemma {:induction false} NotesOfKeys(rs: seq<Report>)
    ensures forall id :: id in NotesOf(rs) <==> exists i :: 0 <= i < |rs| && rs[i].id == id
  {
    if rs != [] {
      var init := rs[..|rs| - 1];
      NotesOfKeys(init);
      assert forall i :: 0 <= i < |init| ==> init[i] == rs[i];
    }
  }

  /** With distinct ids, each listed report's entry is its own stored note. */
  lemma {:induction false} NotesOfValues(rs: seq<Report>, i: nat)
    requires DistinctIds(rs) && i < |rs|
    ensures rs[i].id in NotesOf(rs) && NotesOf(rs)[rs[i].id] == FieldOr(rs[i], Note)
  {
    var init := rs[..|rs| - 1];
    if i < |rs| - 1 {
      assert init[i] == rs[i];
      assert DistinctIds(init);
      NotesOfValues(init, i);
    }
  }

  /** The body of the status change: the new status, and the note being edited for that report;
      JSON leaves the note out when the page holds none for the id. */
  function StatusBody(notes: map<ReportId, string>, id: ReportId, status: string): (body: map<string, string>)
    ensures Status in body && body[Status] == status
    ensures Note in body <==> id in notes
    ensures id in notes ==> body[Note] == notes[id]
    ensures body.Keys <= {Status, Note}
  {
    if id in notes then map[Status := status, Note := notes[id]] else map[Status := status]
  }

  /** The body of "save note": the note being edited, left out when there is none. */
  function NoteBody(notes: map<ReportId, string>, id: ReportId): (body: map<string, string>)
    ensures Note in body <==> id in notes
    ensures id in notes ==> body[Note] == notes[id]
    ensures body.Keys <= {Note}
  {
    if id in notes then map[Note := notes[id]] else map[]
  }

  /** A status change, applied by the server's general merge, sets the status and the note and
      leaves every other field, the creator included, as it was. */
  lemma StatusChangeTouchesOnlyStatusAndNote(doc: map<string, string>, notes: map<ReportId, string>,
                                             id: ReportId, status: string)
    ensures var r := ReportRoutes.Merge(doc, ReportRoutes.UpdateData(StatusBody(notes, id, status), None));
      && r[Status] == status
      && (id in notes ==> r[Note] == notes[id])
      && (forall k :: k in doc && k != Status && k != Note ==> k in r && r[k] == doc[k])
      && r.Keys == doc.Keys + {Status} + (if id in notes then {Note} else {})
  {
  }

  /** Saving the note shown right after a refresh writes back the note the report already has. */
  lemma {:induction false} SavingUneditedNoteChangesNothing(rs: seq<Report>, i: nat)
    requires DistinctIds(rs) && i < |rs| && Note in rs[i].fields
    ensures ReportRoutes.Merge(rs[i].fields, NoteBody(NotesOf(rs), rs[i].id)) == rs[i].fields
  {
    NotesOfValues(rs, i);
    ReportRoutes.MergeAgreeing(rs[i].fields, NoteBody(NotesOf(rs), rs[i].id));
  }

  class AdminPanel {
    var reports: seq<Report>
    var error: string
    var notes: map<ReportId, string>

    constructor ()
      ensures reports == [] && error == "" && notes == map[]
    {
      reports, error, notes := [], "", map[];
    }

    /** `fetchReports`, run on mount and on every 'newReport', 'updateReport' and 'deleteReport'
        broadcast. A listing replaces the reports and rebuilds every note from them; a failure
        only sets the error. */
    method FetchReports(answer: ListAnswer)
      modifies this
      ensures answer.Listed? ==> reports == answer.data && notes == NotesOf(answer.data) && error == old(error)
      ensures answer.ListFailed? ==> reports == old(reports) && notes == old(notes) && error == FetchFailedMessage
    {
      match answer {
        case ListFailed =>
          error := FetchFailedMessage;
        case Listed(data) =>
          reports := data;
          var initialNotes: map<ReportId, string> := map[];
          var i := 0;
          while i < |data|
            invariant 0 <= i <= |data|
            invariant initialNotes == NotesOf(data[..i])
          {
            assert data[..i + 1][..i] == data[..i];
            initialNotes := initialNotes[data[i].id := FieldOr(data[i], Note)];
            i := i + 1;
          }
          assert data[..|data|] == data;
          notes := initialNotes;
      }
    }

    /** `handleNoteChange`: only the edited report's note changes. */
    method HandleNoteChange(id: ReportId, value: string)
      modifies this`notes
      ensures notes == old(notes)[id := value]
    {
      notes := notes[id := value];
    }

    /** `updateReport`: sends the status change; on success the list is fetched again, on failure
        the error is set. */
    method UpdateReport(id: ReportId, status: string, succeeded: bool, refreshed: ListAnswer)
      returns (sent: map<string, string>)
      modifies this
      ensures sent == StatusBody(old(notes), id, status)
      ensures succeeded && refreshed.Listed? ==>
        reports == refreshed.data && notes == NotesOf(refreshed.data) && error == old(error)
      ensures succeeded && refreshed.ListFailed? ==>
        reports == old(reports) && notes == old(notes) && error == FetchFailedMessage
      ensures !succeeded ==> reports == old(reports) && notes == old(notes) && error == UpdateFailedMessage
    {
      sent := StatusBody(notes, id, status);
      if succeeded {
        FetchReports(refreshed);
      } else {
        error := UpdateFailedMessage;
      }
    }

    /** `deleteReport`: nothing is sent unless the user confirms; then as for a status change. */
    method DeleteReport(id: ReportId, confirmed: bool, succeeded: bool, refreshed: ListAnswer)
      returns (sent: Option<ReportId>)
      modifies this
      ensures sent == (if confirmed then Some(id) else None)
      ensures !confirmed ==> reports == old(reports) && notes == old(notes) && error == old(error)
      ensures confirmed && succeeded && refreshed.Listed? ==>
        reports == refreshed.data && notes == NotesOf(refreshed.data) && error == old(error)
      ensures confirmed && succeeded && refreshed.ListFailed? ==>
        reports == old(reports) && notes == old(notes) && error == FetchFailedMessage
      ensures confirmed && !succeeded ==> reports == old(reports) && notes == old(notes) && error == DeleteFailedMessage
    {
      if !confirmed {
        return None;
      }
      sent := Some(id);
      if succeeded {
        FetchReports(refreshed);
      } else {
        error := DeleteFailedMessage;
      }
    }

    /** `saveNote`: sends the note; the list is not fetched again, and a failure sets the error. */
    method SaveNote(id: ReportId, succeeded: bool) returns (sent: map<string, string>)
      modifies this`error
      ensures sent == NoteBody(notes, id)
      ensures error == if succeeded then old(error) else SaveNoteFailedMessage
    {
      sent := NoteBody(notes, id);
      if !succeeded {
        error := SaveNoteFailedMessage;
      }
    }
  }
}
