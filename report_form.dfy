/** The create-report page: field edits, the image chosen, dropped or removed, and
    submission guarded by `validate`. */
module ReportFormPage {
  import opened Text
  import opened Domain
  import opened ReportFields
  import ReportRoutes

  class ReportForm {
    var formData: FormData
    var image: Option<FileRef>
    var previewUrl: Option<Preview>
    var errors: map<Field, string>

    /** An empty form dated `today`, given as an ISO timestamp; only its date part is kept. */
    constructor (today: string)
      ensures formData == FormData("", "", "", "", "", BeforeFirst(today, 'T'))
      ensures image.None? && previewUrl.None? && errors == map[]
    {
      formData := FormData("", "", "", "", "", BeforeFirst(today, 'T'));
      image, previewUrl, errors := None, None, map[];
    }

    /** `handleChange`: the named field takes the value and its error is cleared to "". */
    method HandleChange(f: Field, value: string)
      modifies this`formData, this`errors
      ensures formData == old(formData).With(f, value)
      ensures errors == old(errors)[f := ""]
    {
      formData := formData.With(f, value);
      errors := errors[f := ""];
    }

    /** `handleImageChange`: any chosen file becomes the image and is previewed. */
    method HandleImageChange(file: Option<FileRef>)
      modifies this`image, this`previewUrl
      ensures file.Some? ==> image == file && previewUrl == Some(DataUrl(file.value))
      ensures file.None? ==> image == old(image) && previewUrl == old(previewUrl)
    {
      if file.Some? {
        image := file;
        previewUrl := Some(DataUrl(file.value));
      }
    }

    /** `handleDrop`: a dropped file is taken only when its type starts with "image/". */
    method HandleDrop(file: Option<FileRef>)
      modifies this`image, this`previewUrl
      ensures AcceptsDrop(file) ==> image == file && previewUrl == Some(DataUrl(file.value))
      ensures !AcceptsDrop(file) ==> image == old(image) && previewUrl == old(previewUrl)
    {
      if file.Some? && StartsWith(file.value.fileType, "image/") {
        image := file;
        previewUrl := Some(DataUrl(file.value));
      }
    }

    /** `handleImageDelete`. */
    method HandleImageDelete()
      modifies this`image, this`previewUrl
      ensures image.None? && previewUrl.None?
    {
      image := None;
      previewUrl := None;
    }

    /** `validate`: the error map is rebuilt from scratch, one entry per failing field. */
    method Validate() returns (ok: bool)
      modifies this`errors
      ensures errors == RequiredFieldErrors(formData)
      ensures ok <==> errors == map[]
    {
      var fd := formData;
      var newErrors: map<Field, string> := map[];
      newErrors := AddError(newErrors, Name, IsBlank(fd.name));
      newErrors := AddError(newErrors, Building, fd.building == "");
      newErrors := AddError(newErrors, RoomNumber, IsBlank(fd.roomNumber));
      newErrors := AddError(newErrors, Details, IsBlank(fd.details));
      newErrors := AddError(newErrors, Category, fd.category == "");
      CheckedInOrderIsRequired(fd);
      errors := newErrors;
      ok := |newErrors| == 0;
      NoErrorsIffEmpty(newErrors);
    }

    /** `isFormValid`, which enables the submit button. */
    predicate IsFormValid()
      reads this
    {
      AllFilled(formData)
    }

    /** `handleSubmit`: a form that fails `validate` sends nothing; otherwise the POST carries
        the six form values and, when one is selected, the image. */
    method HandleSubmit() returns (payload: Option<seq<(string, Part)>>)
      modifies this`errors
      ensures errors == RequiredFieldErrors(formData)
      ensures errors != map[] ==> payload.None?
      ensures errors == map[] ==> payload == Some(PayloadOf(formData, image))
      ensures IsFormValid() ==> payload.Some?
    {
      if IsFormValid() {
        FilledFormPassesValidation(formData);
      }
      var ok := Validate();
      if !ok {
        return None;
      }
      var parts := ComposePayload(formData, image);
      payload := Some(parts);
    }
  }

  /** What the server stores for a submitted create form: every form field under its own key, the
      caller as creator, the uploaded image's path when one was sent, and nothing else. */
  lemma {:induction false} SubmittedFormIsStored(fd: FormData, image: Option<FileRef>,
                                                 caller: ReportRoutes.Caller, upload: Option<string>)
    requires image.Some? <==> upload.Some?
    ensures var stored := ReportRoutes.NewReportFields(TextFields(PayloadOf(fd, image)), caller, upload);
      && (forall k :: k in stored <==> (exists f :: Key(f) == k) || k == CreatedBy || (image.Some? && k == ImagePath))
      && (forall f :: Key(f) in stored && stored[Key(f)] == fd.Get(f))
      && stored[CreatedBy] == caller.userId
      && (image.Some? ==> stored[ImagePath] == upload.value)
  {
    var body := TextFields(PayloadOf(fd, image));
    var stored := ReportRoutes.NewReportFields(body, caller, upload);
    PayloadBody(fd, image);
    forall f ensures Key(f) in stored && stored[Key(f)] == fd.Get(f) {
      FormKeyIsNotReserved(f);
    }
    forall k ensures k in stored <==> (exists f :: Key(f) == k) || k == CreatedBy || (image.Some? && k == ImagePath) {
    }
  }
}
