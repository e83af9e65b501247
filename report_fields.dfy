/** What the create form and the edit form have in common: the six form fields,
    the required-field rule of `validate` with its per-field error map, the
    all-fields `isFormValid` test, the multipart payload and the image-type filter
    of drag and drop. */
module ReportFields {
  import opened Text
  import opened Domain

  datatype Field = Name | Building | RoomNumber | Details | Category | ReportDate

  /** The keys of `formData`, in the order the object literal lists them. */
  const FormKeys: seq<Field> := [Name, Building, RoomNumber, Details, Category, ReportDate]

  function Key(f: Field): string
  {
    match f
    case Name => "name"
    case Building => "building"
    case RoomNumber => "roomNumber"
    case Details => "details"
    case Category => "category"
    case ReportDate => "reportDate"
  }

  lemma EveryFieldIsAFormKey(f: Field)
    ensures f in FormKeys
  {
    match f
    case Name => assert FormKeys[0] == f;
    case Building => assert FormKeys[1] == f;
    case RoomNumber => assert FormKeys[2] == f;
    case Details => assert FormKeys[3] == f;
    case Category => assert FormKeys[4] == f;
    case ReportDate => assert FormKeys[5] == f;
  }

  datatype FormData = FormData(name: string, building: string, roomNumber: string,
                               details: string, category: string, reportDate: string)
  {
    function Get(f: Field): string
    {
      match f
      case Name => name
      case Building => building
      case RoomNumber => roomNumber
      case Details => details
      case Category => category
      case ReportDate => reportDate
    }

    /** `{ ...prevState, [name]: value }`: the named field replaced, every other kept. */
    function With(f: Field, value: string): (r: FormData)
      ensures r.Get(f) == value
      ensures forall g :: g != f ==> r.Get(g) == Get(g)
    {
      match f
      case Name => this.(name := value)
      case Building => this.(building := value)
      case RoomNumber => this.(roomNumber := value)
      case Details => this.(details := value)
      case Category => this.(category := value)
      case ReportDate => this.(reportDate := value)
    }
  }

  /** The `validate` rule for one field: name, room number and details must not be blank,
      building and category must not be empty, and the report date is not checked. */
  predicate Missing(fd: FormData, f: Field)
  {
    match f
    case Name => IsBlank(fd.name)
    case Building => fd.building == ""
    case RoomNumber => IsBlank(fd.roomNumber)
    case Details => IsBlank(fd.details)
    case Category => fd.category == ""
    case ReportDate => false
  }

  function ErrorMessage(f: Field): string
  {
    match f
    case Name => "กรุณากรอกชื่อ-สกุล"
    case Building => "กรุณาเลือกอาคาร"
    case RoomNumber => "กรุณากรอกเลขห้อง"
    case Details => "กรุณากรอกรายละเอียด"
    case Category => "กรุณาเลือกหมวดหมู่"
    case ReportDate => ""
  }

  /** The `newErrors` object `validate` builds: one entry per failing field, with its message. */
  function RequiredFieldErrors(fd: FormData): (errs: map<Field, string>)
    ensures forall f :: f in errs <==> Missing(fd, f)
    ensures forall f :: f in errs ==> errs[f] == ErrorMessage(f)
  {
    forall f ensures f in FormKeys { EveryFieldIsAFormKey(f); }
    map f | f in FormKeys && Missing(fd, f) :: ErrorMessage(f)
  }

  /** Every entry is its field's own message. */
  predicate MessagesOnly(errs: map<Field, string>)
  {
    forall g :: g in errs ==> errs[g] == ErrorMessage(g)
  }

  /** One line of `validate`: the field's message is recorded when the field fails. */
  function AddError(errs: map<Field, string>, f: Field, failing: bool): (r: map<Field, string>)
    ensures forall g :: g in r <==> g in errs || (failing && g == f)
    ensures MessagesOnly(errs) ==> MessagesOnly(r)
  {
    if failing then errs[f := ErrorMessage(f)] else errs
  }

  /** The five checks of `validate`, in the order they are written. */
  function CheckedInOrder(fd: FormData): map<Field, string>
  {
    var e1 := AddError(map[], Name, IsBlank(fd.name));
    var e2 := AddError(e1, Building, fd.building == "");
    var e3 := AddError(e2, RoomNumber, IsBlank(fd.roomNumber));
    var e4 := AddError(e3, Details, IsBlank(fd.details));
    AddError(e4, Category, fd.category == "")
  }

  /** Running the checks one after another builds exactly the required-field error map. */
  lemma CheckedInOrderIsRequired(fd: FormData)
    ensures CheckedInOrder(fd) == RequiredFieldErrors(fd)
  {
    var errs, req := CheckedInOrder(fd), RequiredFieldErrors(fd);
    assert MessagesOnly(errs);
    assert errs.Keys == req.Keys by {
      forall f ensures f in errs <==> Missing(fd, f) {
      }
    }
  }

  /** `Object.keys(errs).length === 0` holds exactly for the empty map. */
  lemma NoErrorsIffEmpty(errs: map<Field, string>)
    ensures |errs| == 0 <==> errs == map[]
  {
    if errs != map[] {
      var f :| f in errs;
    }
  }

  /** `validate()` succeeds exactly when the five checked fields are filled in. */
  lemma ValidateSucceedsIff(fd: FormData)
    ensures RequiredFieldErrors(fd) == map[] <==>
      && !IsBlank(fd.name) && fd.building != "" && !IsBlank(fd.roomNumber)
      && !IsBlank(fd.details) && fd.category != ""
  {
    if RequiredFieldErrors(fd) != map[] {
      var f :| f in RequiredFieldErrors(fd);
      assert Missing(fd, f);
    } else {
      forall f ensures !Missing(fd, f) {
        assert f !in RequiredFieldErrors(fd);
      }
      assert !Missing(fd, Name) && !Missing(fd, Building) && !Missing(fd, RoomNumber);
      assert !Missing(fd, Details) && !Missing(fd, Category);
    }
  }

  /** `Object.values(formData).every(value => value.trim() !== '')`, which enables the create
      form's submit button. */
  predicate AllFilled(fd: FormData)
  {
    forall i :: 0 <= i < |FormKeys| ==> !IsBlank(fd.Get(FormKeys[i]))
  }

  /** A form whose button is enabled always passes `validate`. */
  lemma {:induction false} FilledFormPassesValidation(fd: FormData)
    requires AllFilled(fd)
    ensures RequiredFieldErrors(fd) == map[]
  {
    assert !IsBlank(fd.Get(FormKeys[1])) && !IsBlank(fd.Get(FormKeys[4]));
    assert !IsBlank(fd.Get(FormKeys[0])) && !IsBlank(fd.Get(FormKeys[2])) && !IsBlank(fd.Get(FormKeys[3]));
    ValidateSucceedsIff(fd);
  }

  /** The converse fails twice over: `validate` ignores the report date and accepts a building
      or category of spaces, which `isFormValid` rejects. */
  lemma ValidationIsLaxer()
    ensures var fd := FormData("a", "b", "c", "d", "e", "");
      RequiredFieldErrors(fd) == map[] && !AllFilled(fd)
    ensures var fd := FormData("a", " ", "c", "d", "e", "f");
      RequiredFieldErrors(fd) == map[] && !AllFilled(fd)
  {
    var fd1 := FormData("a", "b", "c", "d", "e", "");
    ValidateSucceedsIff(fd1);
    assert IsBlank(fd1.Get(FormKeys[5]));
    var fd2 := FormData("a", " ", "c", "d", "e", "f");
    assert !IsBlank("a") by { assert !IsWhitespace("a"[0]); }
    assert !IsBlank("c") by { assert !IsWhitespace("c"[0]); }
    assert !IsBlank("d") by { assert !IsWhitespace("d"[0]); }
    ValidateSucceedsIff(fd2);
    assert IsBlank(fd2.Get(FormKeys[1]));
  }

  /** A file as the browser hands it over. */
  datatype FileRef = FileRef(name: string, fileType: string, size: nat)

  /** What the preview shows: a data URL read from a chosen file, or the stored image's URL. */
  datatype Preview = DataUrl(file: FileRef) | ServerUrl(url: string)

  /** One part of the multipart body. */
  datatype Part = TextPart(value: string) | FilePart(file: FileRef)

  /** The payload of `handleSubmit`: the six form values under their keys, in order, then the
      image under "image" when one is selected. */
  function PayloadOf(fd: FormData, image: Option<FileRef>): (parts: seq<(string, Part)>)
    ensures |parts| == |FormKeys| + (if image.Some? then 1 else 0)
    ensures forall i :: 0 <= i < |FormKeys| ==> parts[i] == (Key(FormKeys[i]), TextPart(fd.Get(FormKeys[i])))
    ensures image.Some? ==> parts[|FormKeys|] == ("image", FilePart(image.value))
  {
    var values := seq(|FormKeys|, i requires 0 <= i < |FormKeys| => (Key(FormKeys[i]), TextPart(fd.Get(FormKeys[i]))));
    if image.Some? then values + [("image", FilePart(image.value))] else values
  }

  /** The `for (const key in formData)` loop plus the optional image. */
  method ComposePayload(fd: FormData, image: Option<FileRef>) returns (parts: seq<(string, Part)>)
    ensures parts == PayloadOf(fd, image)
  {
    parts := [];
    var i := 0;
    while i < |FormKeys|
      invariant 0 <= i <= |FormKeys|
      invariant parts == PayloadOf(fd, None)[..i]
    {
      var key := FormKeys[i];
      parts := parts + [(Key(key), TextPart(fd.Get(key)))];
      i := i + 1;
    }
    if image.Some? {
      parts := parts + [("image", FilePart(image.value))];
    }
  }

  /** Every key the payload carries: the six form keys and, with an image, "image". */
  lemma PayloadKeys(fd: FormData, image: Option<FileRef>, k: string)
    ensures (exists i :: 0 <= i < |PayloadOf(fd, image)| && PayloadOf(fd, image)[i].0 == k)
      <==> (exists f :: Key(f) == k) || (image.Some? && k == "image")
  {
    var parts := PayloadOf(fd, image);
    if exists f :: Key(f) == k {
      var f :| Key(f) == k;
      EveryFieldIsAFormKey(f);
      var i :| 0 <= i < |FormKeys| && FormKeys[i] == f;
      assert parts[i].0 == k;
    }
    if image.Some? && k == "image" {
      assert parts[|FormKeys|].0 == k;
    }
  }

  /** The text parts of a multipart body, as the server's `req.body` sees them. */
  function TextFields(parts: seq<(string, Part)>): (body: map<string, string>)
    ensures forall k :: k in body <==> exists i :: 0 <= i < |parts| && parts[i].0 == k && parts[i].1.TextPart?
  {
    if parts == [] then map[]
    else
      var rest := TextFields(parts[1..]);
      assert forall i :: 0 <= i < |parts| - 1 ==> parts[1..][i] == parts[i + 1];
      match parts[0].1
      case TextPart(v) => rest[parts[0].0 := v]
      case FilePart(_) => rest
  }

  /** No key occurs twice among the parts. */
  predicate DistinctKeys(parts: seq<(string, Part)>)
  {
    forall i, j :: 0 <= i < j < |parts| ==> parts[i].0 != parts[j].0
  }

  /** With distinct keys, every text part's value is what the server reads under its key. */
  lemma {:induction false} TextFieldsValue(parts: seq<(string, Part)>, i: nat)
    requires DistinctKeys(parts)
    requires i < |parts| && parts[i].1.TextPart?
    ensures parts[i].0 in TextFields(parts)
    ensures TextFields(parts)[parts[i].0] == parts[i].1.value
  {
    if i > 0 {
      var rest := parts[1..];
      assert rest[i - 1] == parts[i];
      assert DistinctKeys(rest) by {
        forall a, b | 0 <= a < b < |rest| ensures rest[a].0 != rest[b].0 {
          assert rest[a] == parts[a + 1] && rest[b] == parts[b + 1];
        }
      }
      TextFieldsValue(rest, i - 1);
      assert parts[0].0 != parts[i].0;
    }
  }

  /** No form key is "image", nor one of the keys the server sets itself. */
  lemma FormKeyIsNotReserved(f: Field)
    ensures Key(f) != "image" && Key(f) != ImagePath && Key(f) != CreatedBy
  {
    assert |Key(f)| != 5 && |Key(f)| != 9;
  }

  /** Distinct fields have distinct keys, and none of them is "image". */
  lemma KeyInjective(f: Field, g: Field)
    ensures Key(f) == Key(g) ==> f == g
    ensures Key(f) != "image"
  {
    FormKeyIsNotReserved(f);
    assert Key(f)[0] != Key(g)[0] || Key(f)[1] != Key(g)[1] || f == g by {
      match f
      case Name => assert Key(f)[0] == 'n';
      case Building => assert Key(f)[0] == 'b';
      case RoomNumber => assert Key(f)[1] == 'o';
      case Details => assert Key(f)[0] == 'd';
      case Category => assert Key(f)[0] == 'c';
      case ReportDate => assert Key(f)[1] == 'e';
    }
  }

  /** The server reads the submitted form back field by field: each form key carries its field's
      value, and no other key is present. */
  lemma {:induction false} PayloadBody(fd: FormData, image: Option<FileRef>)
    ensures forall f :: Key(f) in TextFields(PayloadOf(fd, image))
    ensures forall f :: TextFields(PayloadOf(fd, image))[Key(f)] == fd.Get(f)
    ensures forall k :: k in TextFields(PayloadOf(fd, image)) <==> exists f :: Key(f) == k
  {
    var parts := PayloadOf(fd, image);
    assert DistinctKeys(parts) by {
      forall i, j | 0 <= i < j < |parts| ensures parts[i].0 != parts[j].0 {
        KeyInjective(FormKeys[i], if j < |FormKeys| then FormKeys[j] else FormKeys[i]);
      }
    }
    forall f ensures Key(f) in TextFields(parts) && TextFields(parts)[Key(f)] == fd.Get(f) {
      EveryFieldIsAFormKey(f);
      var i :| 0 <= i < |FormKeys| && FormKeys[i] == f;
      TextFieldsValue(parts, i);
    }
    forall k ensures k in TextFields(parts) ==> exists f :: Key(f) == k {
      if k in TextFields(parts) {
        var i :| 0 <= i < |parts| && parts[i].0 == k && parts[i].1.TextPart?;
        assert Key(FormKeys[i]) == k;
      }
    }
  }

  /** `handleDrop` takes a file only if its MIME type starts with "image/". */
  predicate AcceptsDrop(file: Option<FileRef>)
  {
    file.Some? && StartsWith(file.value.fileType, "image/")
  }
}
