/** The edit-report page: the stored report is loaded into the same form the create page uses,
    and a valid form is sent back to the server as a PATCH of that report. */
module EditReportFormPage {
  import opened Text
  import opened Domain
  import opened ReportFields
  import opened ReportFormPage
  import ReportRoutes

  /** The answer of `GET /reports/:id`. */
  datatype FetchAnswer = Fetched(report: Report) | FetchFailed

  /** Where the server publishes uploaded images. */
  const ImageServer := "http://localhost:5000/"

  const ReportDateKey := "reportDate"

  /** The form filled from a stored report: each field under its own key, the date cut at the
      first 'T' so that an ISO timestamp becomes its date part. */
  function FormFromReport(r: Report): (fd: FormData)
    ensures forall f :: f != ReportDate ==> fd.Get(f) == FieldOr(r, Key(f))
    ensures |fd.reportDate| <= |FieldOr(r, ReportDateKey)|
    ensures fd.reportDate == FieldOr(r, ReportDateKey)[..|fd.reportDate|]
    ensures 'T' !in fd.reportDate
    ensures |fd.reportDate| < |FieldOr(r, ReportDateKey)| ==> FieldOr(r, ReportDateKey)[|fd.reportDate|] == 'T'
    ensures 'T' !in FieldOr(r, ReportDateKey) ==> fd.reportDate == FieldOr(r, ReportDateKey)
  {
    FormData(FieldOr(r, "name"), FieldOr(r, "building"), FieldOr(r, "roomNumber"),
             FieldOr(r, "details"), FieldOr(r, "category"),
             BeforeFirst(FieldOr(r, ReportDateKey), 'T'))
  }

  class EditReportForm {
    /** The `:id` route parameter. */
    const id: ReportId
    /** The form state and handlers, which are the create page's. */
    const form: ReportForm
    var loading: bool

    constructor (id: ReportId, today: string)
      ensures this.id == id && loading && fresh(form)
      ensures form.formData == FormData("", "", "", "", "", BeforeFirst(today, 'T'))
      ensures form.image.None? && form.previewUrl.None? && form.errors == map[]
    {
      this.id := id;
      form := new ReportForm(today);
      loading := true;
    }

    /** `fetchReport`, run on mount. A fetched report fills the form, shows its stored image when
        it has one, and ends loading. A failed request, or a report without a date (reading its
        `split` throws), leaves everything as it was and sends the user to the dashboard. */
    method Load(answer: FetchAnswer) returns (toDashboard: bool)
      modifies this`loading, form`formData, form`previewUrl
      ensures toDashboard <==> !(answer.Fetched? && ReportDateKey in answer.report.fields)
      ensures toDashboard ==> loading == old(loading) && form.formData == old(form.formData)
                              && form.previewUrl == old(form.previewUrl)
      ensures !toDashboard ==> !loading && form.formData == FormFromReport(answer.report)
      ensures !toDashboard && HasTruthy(answer.report, ImagePath) ==>
        form.previewUrl == Some(ServerUrl(ImageServer + answer.report.fields[ImagePath]))
      ensures !toDashboard && !HasTruthy(answer.report, ImagePath) ==> form.previewUrl == old(form.previewUrl)
    {
      match answer {
        case FetchFailed =>
          return true;
        case Fetched(report) =>
          if ReportDateKey !in report.fields {
            return true;
          }
          form.formData := FormFromReport(report);
          if ImagePath in report.fields && report.fields[ImagePath] != "" {
            form.previewUrl := Some(ServerUrl(ImageServer + report.fields[ImagePath]));
          }
          loading := false;
          toDashboard := false;
      }
    }

    /** `handleSubmit`: a form that fails `validate` sends nothing; otherwise the form's values and
        any newly chosen image go to `PATCH /reports/:id`. */
    method Submit() returns (request: Option<(ReportId, seq<(string, Part)>)>)
      modifies form`errors
      ensures form.errors == RequiredFieldErrors(form.formData)
      ensures form.errors != map[] ==> request.None?
      ensures form.errors == map[] ==> request == Some((id, PayloadOf(form.formData, form.image)))
    {
      var payload := form.HandleSubmit();
      if payload.Some? {
        request := Some((id, payload.value));
      } else {
        request := None;
      }
    }
  }

  /** The update the server applies for an edit submitted without a new image. */
  function EditUpdate(fd: FormData): map<string, string>
  {
    ReportRoutes.UpdateData(TextFields(PayloadOf(fd, None)), None)
  }

  /** Removing the preview on the edit page sends no instruction to remove the image: an edit
      without a new file leaves the stored image path as it was. */
  lemma {:induction false} EditKeepsStoredImage(doc: map<string, string>, fd: FormData)
    requires ImagePath in doc
    ensures ImagePath in ReportRoutes.Merge(doc, EditUpdate(fd))
    ensures ReportRoutes.Merge(doc, EditUpdate(fd))[ImagePath] == doc[ImagePath]
  {
    PayloadBody(fd, None);
    if ImagePath in TextFields(PayloadOf(fd, None)) {
      var f :| Key(f) == ImagePath;
      FormKeyIsNotReserved(f);
    }
  }

  /** Loading a report and submitting the form untouched writes back what was stored, provided
      the report has every form field and its date is already a plain date. */
  lemma {:induction false} UntouchedEditChangesNothing(r: Report)
    requires forall f :: Key(f) in r.fields
    requires ReportDateKey in r.fields && 'T' !in r.fields[ReportDateKey]
    ensures ReportRoutes.Merge(r.fields, EditUpdate(FormFromReport(r))) == r.fields
  {
    var fd := FormFromReport(r);
    var update := EditUpdate(fd);
    assert forall k :: k in update ==> k in r.fields && update[k] == r.fields[k] by {
      PayloadBody(fd, None);
      forall k | k in update ensures k in r.fields && update[k] == r.fields[k] {
        var f :| Key(f) == k;
        assert update[k] == fd.Get(f);
        if f == ReportDate {
          assert fd.Get(f) == r.fields[ReportDateKey];
        }
      }
    }
    ReportRoutes.MergeAgreeing(r.fields, update);
  }
}
