/** The report document as the server stores it and the pages receive it, and the
    names and values that the server and the pages agree on. */
module Domain {

  type ReportId = nat

  datatype Option<T> = None | Some(value: T)

  /** A stored report. `fields` holds every named field of the document
      (name, building, roomNumber, category, details, reportDate, createdBy,
      imagePath, status, note and whatever else a request body carried);
      `createdAt` is the creation timestamp the listing is ordered by. */
  datatype Report = Report(id: ReportId, fields: map<string, string>, createdAt: int)

  const CreatedBy := "createdBy"
  const ImagePath := "imagePath"
  const Status := "status"
  const Note := "note"

  /** The three workflow states, spelled as the pages spell them. */
  const Pending := "รอดำเนินการ"
  const InProgress := "กำลังดำเนินการ"
  const Completed := "เสร็จสิ้น"

  /** `report[key]` read the way `report[key] || ''` reads it: an absent or empty field gives "". */
  function FieldOr(r: Report, key: string): (v: string)
    ensures key !in r.fields ==> v == ""
    ensures key in r.fields ==> v == r.fields[key]
  {
    if key in r.fields then r.fields[key] else ""
  }

  /** JavaScript truthiness of an optional string field: present and not empty. */
  predicate HasTruthy(r: Report, key: string)
  {
    key in r.fields && r.fields[key] != ""
  }

  /** No two reports of the list share an id. */
  predicate DistinctIds(rs: seq<Report>)
  {
    forall i, j :: 0 <= i < j < |rs| ==> rs[i].id != rs[j].id
  }

  /** The answer of `GET /reports`, which the dashboard and the admin page both fetch. */
  datatype ListAnswer = Listed(data: seq<Report>) | ListFailed
}
