/** The report router: the handlers that Express actually reaches for
    GET /:id, PATCH /:id, POST /, GET / and DELETE /:id, as operations on
    the report collection. The collection is a map from id to document and
    the socket broadcasts are an append-only event log.

    Express dispatches to the first matching route, and the first PATCH /:id
    and the first POST / always answer. The admin-only PATCH /:id further down
    (status and note only) and the second POST / are therefore never run: the
    generic merge of Patch also serves every status and note change. */
module ReportRoutes {
  import opened Domain

  /** The identity the authentication middleware attaches to the request. */
  datatype Caller = Caller(userId: string, role: string)

  /** Socket broadcasts: 'newReport', 'updateReport' (with the document), 'deleteReport' (with the id). */
  datatype Event = NewReport(report: Report) | UpdateReport(report: Report) | DeleteReport(id: ReportId)

  datatype Body = ReportBody(report: Report) | ReportList(reports: seq<Report>) | Message(text: string)

  datatype Response = Response(status: nat, body: Body)

  const NotFoundMessage := "Report not found"
  const EditForbiddenMessage := "You do not have permission to edit this report"
  const DeleteForbiddenMessage := "You do not have permission to delete this report"
  const UpdateFailedMessage := "Error updating report"
  const CreateFailedMessage := "Error creating report"
  const DeletedMessage := "Report deleted successfully"

  /** The owner-or-admin rule of PATCH and DELETE. */
  predicate MayModify(r: Report, caller: Caller)
    requires CreatedBy in r.fields
  {
    r.fields[CreatedBy] == caller.userId || caller.role == "admin"
  }

  /** `{ ...req.body }` with `imagePath` set to the upload's path when a file came with the request. */
  function UpdateData(body: map<string, string>, file: Option<string>): (u: map<string, string>)
    ensures u.Keys == if file.Some? then body.Keys + {ImagePath} else body.Keys
    ensures file.Some? ==> u[ImagePath] == file.value
    ensures forall k :: k in body && !(file.Some? && k == ImagePath) ==> u[k] == body[k]
  {
    if file.Some? then body[ImagePath := file.value] else body
  }

  /** `findByIdAndUpdate(id, update)`: every key of `update` overwrites (or adds) that field,
      every other field of the document keeps its value. */
  function Merge(doc: map<string, string>, update: map<string, string>): (r: map<string, string>)
    ensures r.Keys == doc.Keys + update.Keys
    ensures forall k :: k in update ==> r[k] == update[k]
    ensures forall k :: k in doc && k !in update ==> r[k] == doc[k]
  {
    doc + update
  }

  /** The document POST builds: the body, then `createdBy` from the caller (overriding the body's),
      then `imagePath` from the upload when there is one. */
  function NewReportFields(body: map<string, string>, caller: Caller, file: Option<string>): (f: map<string, string>)
    ensures f.Keys == body.Keys + {CreatedBy} + (if file.Some? then {ImagePath} else {})
    ensures f[CreatedBy] == caller.userId
    ensures file.Some? ==> f[ImagePath] == file.value
    ensures forall k :: k in body && k != CreatedBy && !(file.Some? && k == ImagePath) ==> f[k] == body[k]
  {
    var data := body[CreatedBy := caller.userId];
    if file.Some? then data[ImagePath := file.value] else data
  }

  /** An update that only repeats values the document already holds leaves it unchanged. */
  lemma MergeAgreeing(doc: map<string, string>, update: map<string, string>)
    requires forall k :: k in update ==> k in doc && update[k] == doc[k]
    ensures Merge(doc, update) == doc
  {
    assert Merge(doc, update).Keys == doc.Keys;
  }

  /** The listing order, `sort({ createdAt: -1 })`: newest first. */
  predicate NewestFirst(rs: seq<Report>)
  {
    forall i, j :: 0 <= i < j < |rs| ==> rs[i].createdAt >= rs[j].createdAt
  }

  /** Puts `r` into a newest-first list in front of the first report that is not newer. */
  function InsertByDate(rs: seq<Report>, r: Report): (out: seq<Report>)
    ensures |out| == |rs| + 1
    ensures forall x :: x in out <==> x in rs || x == r
    ensures NewestFirst(rs) ==> NewestFirst(out)
  {
    if rs == [] || rs[0].createdAt <= r.createdAt then [r] + rs
    else
      var rest := InsertByDate(rs[1..], r);
      assert forall x :: x in rs[1..] ==> x in rs;
      var out := [rs[0]] + rest;
      assert NewestFirst(rs) ==> NewestFirst(out) by {
        if NewestFirst(rs) {
          forall j | 0 < j < |out| ensures out[0].createdAt >= out[j].createdAt {
            assert out[j] in rest;
          }
        }
      }
      out
  }

  /** Inserting adds exactly one copy of `r` and loses no report, duplicates included. */
  lemma {:induction false} InsertByDatePermutes(rs: seq<Report>, r: Report)
    ensures multiset(InsertByDate(rs, r)) == multiset(rs) + multiset{r}
  {
    if rs == [] || rs[0].createdAt <= r.createdAt {
    } else {
      InsertByDatePermutes(rs[1..], r);
      assert rs == [rs[0]] + rs[1..];
    }
  }

  lemma {:induction false} InsertKeepsDistinct(rs: seq<Report>, r: Report)
    requires DistinctIds(rs) && forall x :: x in rs ==> x.id != r.id
    ensures DistinctIds(InsertByDate(rs, r))
  {
    if rs == [] || rs[0].createdAt <= r.createdAt {
    } else {
      InsertKeepsDistinct(rs[1..], r);
      var rest := InsertByDate(rs[1..], r);
      var out := InsertByDate(rs, r);
      assert out == [rs[0]] + rest;
      forall j | 0 < j < |out| ensures out[0].id != out[j].id {
        assert out[j] in rest;
        if out[j] != r {
          var i :| 0 <= i < |rs[1..]| && rs[1..][i] == out[j];
          assert rs[i + 1] == out[j];
        }
      }
    }
  }

  class ReportStore {
    var reports: map<ReportId, Report>
    var events: seq<Event>
    /** Source of fresh document ids (the database's id generator). */
    var nextId: nat

    /** Each document is filed under its own id, ids come from the generator,
        and every document has a creator (POST always stamps one). */
    ghost predicate Valid()
      reads this
    {
      forall k :: k in reports ==> reports[k].id == k && k < nextId && CreatedBy in reports[k].fields
    }

    constructor ()
      ensures Valid() && reports == map[] && events == []
    {
      reports := map[];
      events := [];
      nextId := 0;
    }

    /** GET /:id */
    method Get(id: ReportId) returns (res: Response)
      ensures id !in reports ==> res == Response(404, Message(NotFoundMessage))
      ensures id in reports ==> res == Response(200, ReportBody(reports[id]))
    {
      if id !in reports {
        return Response(404, Message(NotFoundMessage));
      }
      res := Response(200, ReportBody(reports[id]));
    }

    /** PATCH /:id, the handler that serves every PATCH. 404 comes before 403. When a file is
        uploaded onto a report that already has an image, the handler reaches `fs.unlink` with
        `fs` never required: the ReferenceError lands in the catch and the answer is 400. */
    method Patch(caller: Caller, id: ReportId, body: map<string, string>, file: Option<string>) returns (res: Response)
      requires Valid()
      modifies this
      ensures Valid() && nextId == old(nextId)
      ensures id !in old(reports) ==>
        res == Response(404, Message(NotFoundMessage)) && reports == old(reports) && events == old(events)
      ensures id in old(reports) && !MayModify(old(reports)[id], caller) ==>
        res == Response(403, Message(EditForbiddenMessage)) && reports == old(reports) && events == old(events)
      ensures id in old(reports) && MayModify(old(reports)[id], caller)
              && file.Some? && HasTruthy(old(reports)[id], ImagePath) ==>
        res == Response(400, Message(UpdateFailedMessage)) && reports == old(reports) && events == old(events)
      ensures id in old(reports) && MayModify(old(reports)[id], caller)
              && !(file.Some? && HasTruthy(old(reports)[id], ImagePath)) ==>
        var updated := old(reports)[id].(fields := Merge(old(reports)[id].fields, UpdateData(body, file)));
        && reports == old(reports)[id := updated]
        && events == old(events) + [UpdateReport(updated)]
        && res == Response(200, ReportBody(updated))
    {
      if id !in reports {
        return Response(404, Message(NotFoundMessage));
      }
      var report := reports[id];
      if report.fields[CreatedBy] != caller.userId && caller.role != "admin" {
        return Response(403, Message(EditForbiddenMessage));
      }
      var updateData := body;
      if file.Some? {
        if HasTruthy(report, ImagePath) {
          return Response(400, Message(UpdateFailedMessage));
        }
        updateData := updateData[ImagePath := file.value];
      }
      var updated := report.(fields := Merge(report.fields, updateData));
      reports := reports[id := updated];
      events := events + [UpdateReport(updated)];
      res := Response(200, ReportBody(updated));
    }

    /** POST /, the handler with the upload. `saved` is the outcome of the schema validation
        that `save()` performs; `now` is the creation timestamp. */
    method Create(caller: Caller, body: map<string, string>, file: Option<string>, now: int, saved: bool)
      returns (res: Response)
      requires Valid()
      modifies this
      ensures Valid()
      ensures !saved ==>
        && res == Response(400, Message(CreateFailedMessage))
        && reports == old(reports) && events == old(events) && nextId == old(nextId)
      ensures saved ==>
        var created := Report(old(nextId), NewReportFields(body, caller, file), now);
        && old(nextId) !in old(reports)
        && reports == old(reports)[old(nextId) := created]
        && events == old(events) + [NewReport(created)]
        && res == Response(201, ReportBody(created))
        && nextId == old(nextId) + 1
    {
      var reportData := body[CreatedBy := caller.userId];
      if file.Some? {
        reportData := reportData[ImagePath := file.value];
      }
      if !saved {
        return Response(400, Message(CreateFailedMessage));
      }
      var created := Report(nextId, reportData, now);
      reports := reports[nextId := created];
      nextId := nextId + 1;
      events := events + [NewReport(created)];
      res := Response(201, ReportBody(created));
    }

    /** GET /: no caller identity; every stored report once, newest first. */
    method List() returns (res: Response)
      requires Valid()
      ensures res.status == 200 && res.body.ReportList?
      ensures NewestFirst(res.body.reports) && DistinctIds(res.body.reports)
      ensures forall r :: r in res.body.reports <==> r.id in reports && reports[r.id] == r
      ensures |res.body.reports| == |reports|
    {
      var pending := reports.Keys;
      ghost var done: set<ReportId> := {};
      var list: seq<Report> := [];
      while pending != {}
        invariant pending <= reports.Keys && done == reports.Keys - pending
        invariant NewestFirst(list) && DistinctIds(list)
        invariant Lists(list, reports, done)
        invariant |list| == |done|
        decreases pending
      {
        var k :| k in pending;
        InsertKeepsListing(list, reports, done, k);
        list := InsertByDate(list, reports[k]);
        pending := pending - {k};
        done := done + {k};
      }
      res := Response(200, ReportList(list));
    }

    /** DELETE /:id: 404 before 403; on success the document is gone and its id is broadcast. */
    method Delete(caller: Caller, id: ReportId) returns (res: Response)
      requires Valid()
      modifies this
      ensures Valid() && nextId == old(nextId)
      ensures id !in old(reports) ==>
        res == Response(404, Message(NotFoundMessage)) && reports == old(reports) && events == old(events)
      ensures id in old(reports) && !MayModify(old(reports)[id], caller) ==>
        res == Response(403, Message(DeleteForbiddenMessage)) && reports == old(reports) && events == old(events)
      ensures id in old(reports) && MayModify(old(reports)[id], caller) ==>
        && reports == old(reports) - {id}
        && events == old(events) + [DeleteReport(id)]
        && res == Response(200, Message(DeletedMessage))
    {
      if id !in reports {
        return Response(404, Message(NotFoundMessage));
      }
      var report := reports[id];
      if report.fields[CreatedBy] != caller.userId && caller.role != "admin" {
        return Response(403, Message(DeleteForbiddenMessage));
      }
      reports := reports - {id};
      events := events + [DeleteReport(id)];
      res := Response(200, Message(DeletedMessage));
    }
  }

  /** `list` holds exactly the documents of `store` filed under `keys`. */
  ghost predicate Lists(list: seq<Report>, store: map<ReportId, Report>, keys: set<ReportId>)
  {
    forall r :: r in list <==> r.id in keys && r.id in store && store[r.id] == r
  }

  lemma InsertKeepsListing(list: seq<Report>, store: map<ReportId, Report>, keys: set<ReportId>, k: ReportId)
    requires Lists(list, store, keys) && DistinctIds(list)
    requires k in store && store[k].id == k && k !in keys
    ensures Lists(InsertByDate(list, store[k]), store, keys + {k})
    ensures DistinctIds(InsertByDate(list, store[k]))
  {
    InsertKeepsDistinct(list, store[k]);
  }

  /** The generic merge does not protect the creator: a permitted PATCH whose body names
      `createdBy` hands the report to someone else. */
  lemma PatchBodyReassignsCreator(doc: map<string, string>, newOwner: string)
    requires CreatedBy in doc && doc[CreatedBy] != newOwner
    ensures Merge(doc, UpdateData(map[CreatedBy := newOwner], None))[CreatedBy] == newOwner
    ensures Merge(doc, UpdateData(map[CreatedBy := newOwner], None))[CreatedBy] != doc[CreatedBy]
  {
  }
}
