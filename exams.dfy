/** routes/exams.js: announced exams, one per class and date. */
module Exams {
  import opened Common
  import opened Query
  import opened Models

  /** The body of `POST /` and `PUT /:id`; a field that is missing or empty is None. */
  datatype ExamRequest = ExamRequest(
    date: Option<Date>, content: Option<string>, classId: Option<int>, classKey: Option<ClassId>)

  /** The four `notEmpty` checks of `POST /`; a period number 0 passes them. */
  predicate Complete(req: ExamRequest) {
    req.date.Some? && TruthyText(req.content) && req.classId.Some? && req.classKey.Some?
  }

  function OnDate(date: Date): Exam -> bool {
    (e: Exam) => e.date == date
  }

  function HasId(id: DocId): Exam -> bool {
    (e: Exam) => e.id == id
  }

  /** `GET /:date`, and the answer of every write: the exams dated `date`,
      in store order. */
  function ExamsOn(es: seq<Exam>, date: Date): (r: seq<Exam>)
    ensures forall e :: e in r <==> e in es && e.date == date
    ensures forall e :: multiset(r)[e] == if e.date == date then multiset(es)[e] else 0
  {
    Filter(es, OnDate(date))
  }

  /** Where the exam with that `_id` is stored. */
  function IndexOfId(es: seq<Exam>, id: DocId): (r: Option<nat>)
    ensures r.None? <==> forall e :: e in es ==> e.id != id
    ensures r.Some? ==> r.value < |es| && es[r.value].id == id
  {
    IndexWhere(es, HasId(id))
  }

  /** Every `_id` is below the next one to hand out. */
  ghost predicate IdsBelow(es: seq<Exam>, next: DocId) {
    forall i :: 0 <= i < |es| ==> es[i].id < next
  }

  /** No two exams share an `_id`. */
  ghost predicate UniqueIds(es: seq<Exam>) {
    forall i, j :: 0 <= i < j < |es| ==> es[i].id != es[j].id
  }

  /** The update document of `PUT /:id` as evidently intended: a truthy
      content, date, class reference and period number replace the stored ones. */
  function Patch(e: Exam, req: ExamRequest): (r: Exam)
    ensures r.id == e.id
    ensures r.content == (if TruthyText(req.content) then req.content.value else e.content)
    ensures r.date == (if req.date.Some? then req.date.value else e.date)
    ensures r.classKey == (if req.classKey.Some? then req.classKey.value else e.classKey)
    ensures r.classId == (if TruthyNumber(req.classId) then req.classId.value else e.classId)
  {
    e.(content := if TruthyText(req.content) then req.content.value else e.content,
       date := if req.date.Some? then req.date.value else e.date,
       classKey := if req.classKey.Some? then req.classKey.value else e.classKey,
       classId := if TruthyNumber(req.classId) then req.classId.value else e.classId)
  }

  /** The update document of `PUT /:id` as written: a truthy content makes the
      handler read the undefined name `note`, so it throws (None) before it
      looks the exam up; otherwise the content is never part of the update. */
  function PatchAsWritten(e: Exam, req: ExamRequest): (r: Option<Exam>)
    ensures r.None? <==> TruthyText(req.content)
    ensures r.Some? ==> r.value == Patch(e, req) && r.value.content == e.content
  {
    if TruthyText(req.content) then None
    else
      Some(e.(date := if req.date.Some? then req.date.value else e.date,
              classKey := if req.classKey.Some? then req.classKey.value else e.classKey,
              classId := if TruthyNumber(req.classId) then req.classId.value else e.classId))
  }

  /** The handler as written can never change an exam's text: a body that
      carries a new text fails, while the corrected update stores it. */
  lemma ContentIsNeverUpdated(e: Exam, req: ExamRequest)
    ensures PatchAsWritten(e, req).None? || PatchAsWritten(e, req).value.content == e.content
    ensures TruthyText(req.content) && req.content.value != e.content ==>
      PatchAsWritten(e, req).None? && Patch(e, req).content != e.content
  {
  }

  /** A concrete body that shows it: only a new text, for an exam dated 3. */
  lemma ContentUpdateFails()
    ensures var e := Exam(0, 3, 2, 5, "Test");
      var req := ExamRequest(None, Some("Kontrolni"), None, None);
      PatchAsWritten(e, req).None? && Patch(e, req) == Exam(0, 3, 2, 5, "Kontrolni")
  {
  }

  /** A new exam joins the end of its own date's list and no other. */
  lemma PostTouchesOneDay(es: seq<Exam>, e: Exam, date: Date)
    ensures ExamsOn(es + [e], date) == ExamsOn(es, date) + (if e.date == date then [e] else [])
  {
    FilterAppend(es, e, OnDate(date));
  }

  /** An update leaves alone the lists of every date other than the exam's
      old and new one. */
  lemma PutTouchesTwoDays(es: seq<Exam>, i: nat, req: ExamRequest, date: Date)
    requires i < |es| && es[i].date != date && Patch(es[i], req).date != date
    ensures ExamsOn(es[i := Patch(es[i], req)], date) == ExamsOn(es, date)
  {
    FilterUpdateUnmatched(es, i, Patch(es[i], req), OnDate(date));
  }

  /** A deletion leaves the lists of every other date alone. */
  lemma DeleteTouchesOneDay(es: seq<Exam>, i: nat, date: Date)
    requires i < |es| && es[i].date != date
    ensures ExamsOn(RemoveAt(es, i), date) == ExamsOn(es, date)
  {
    FilterRemoveUnmatched(es, i, OnDate(date));
  }

  /** An exam stored under the next `_id` keeps every `_id` its own. */
  lemma FreshIdKeepsIdsUnique(es: seq<Exam>, e: Exam, next: DocId)
    requires IdsBelow(es, next) && UniqueIds(es) && e.id == next
    ensures IdsBelow(es + [e], next + 1) && UniqueIds(es + [e])
  {
  }

  /** Replacing an exam by one with the same `_id` keeps every `_id` its own. */
  lemma SameIdKeepsIdsUnique(es: seq<Exam>, i: nat, e: Exam, next: DocId)
    requires i < |es| && e.id == es[i].id
    requires IdsBelow(es, next) && UniqueIds(es)
    ensures IdsBelow(es[i := e], next) && UniqueIds(es[i := e])
  {
    assert forall k :: 0 <= k < |es| ==> es[i := e][k].id == es[k].id;
  }

  /** After a deletion no exam has that `_id` any more, and the remaining
      ones still have their own. */
  lemma DeleteRemovesTheId(es: seq<Exam>, id: DocId)
    requires UniqueIds(es) && IndexOfId(es, id).Some?
    ensures var after := RemoveAt(es, IndexOfId(es, id).value);
      IndexOfId(after, id).None? && UniqueIds(after)
  {
    var i := IndexOfId(es, id).value;
    var after := RemoveAt(es, i);
    forall k | 0 <= k < |after|
      ensures after[k].id != id
    {
      if k >= i {
        assert after[k] == es[k + 1];
      }
    }
  }

  datatype PostAnswer = Rejected | Listed(day: seq<Exam>)

  /** `NoAnswer`: the handler threw outside its `try`, so no response is sent. */
  datatype PutAnswer = PutNotFound | Updated(day: seq<Exam>) | NoAnswer

  datatype DeleteAnswer = DeleteNotFound | Remaining(day: seq<Exam>)

  /** The `exams` collection. */
  class ExamTable {
    var exams: seq<Exam>
    var nextId: DocId

    /** Every exam has its own `_id`, below the next one to hand out. */
    ghost predicate Valid()
      reads this
    {
      IdsBelow(exams, nextId) && UniqueIds(exams)
    }

    constructor ()
      ensures Valid() && exams == []
    {
      exams, nextId := [], 0;
    }

    /** `POST /`: checks the required fields, stores one new exam and answers
        with the exams of its date, the new one last. */
    method Post(req: ExamRequest) returns (answer: PostAnswer)
      requires Valid()
      modifies this
      ensures Valid()
      ensures answer.Rejected? <==> !Complete(req)
      ensures answer.Rejected? ==> exams == old(exams)
      ensures answer.Listed? ==>
        && |exams| == |old(exams)| + 1
        && exams[..|old(exams)|] == old(exams)
        && Last(exams) == Exam(Last(exams).id, req.date.value, req.classId.value,
             req.classKey.value, req.content.value)
        && (forall e :: e in old(exams) ==> e.id != Last(exams).id)
        && answer.day == ExamsOn(exams, req.date.value)
        && answer.day == ExamsOn(old(exams), req.date.value) + [Last(exams)]
    {
      if !Complete(req) {
        return Rejected;
      }
      var e := Exam(nextId, req.date.value, req.classId.value, req.classKey.value, req.content.value);
      PostTouchesOneDay(exams, e, e.date);
      FreshIdKeepsIdsUnique(exams, e, nextId);
      ghost var before := exams;
      exams := exams + [e];
      assert exams[..|before|] == before && Last(exams) == e;
      nextId := nextId + 1;
      return Listed(ExamsOn(exams, e.date));
    }

    /** `PUT /:id` as evidently intended: applies the update document to the
        exam with that `_id` and answers with the exams of its (possibly new)
        date, or answers 404. */
    method Put(id: DocId, req: ExamRequest) returns (answer: PutAnswer)
      requires Valid()
      modifies this
      ensures Valid()
      ensures !answer.NoAnswer?
      ensures answer.PutNotFound? <==> IndexOfId(old(exams), id).None?
      ensures answer.PutNotFound? ==> exams == old(exams)
      ensures answer.Updated? ==>
        var i := IndexOfId(old(exams), id).value;
        var e := Patch(old(exams)[i], req);
        && exams == old(exams)[i := e]
        && answer.day == ExamsOn(exams, e.date)
        && forall d :: d != old(exams)[i].date && d != e.date ==> ExamsOn(exams, d) == ExamsOn(old(exams), d)
    {
      var i := IndexOfId(exams, id);
      if i.None? {
        return PutNotFound;
      }
      var e := Patch(exams[i.value], req);
      forall d | d != exams[i.value].date && d != e.date
        ensures ExamsOn(exams[i.value := e], d) == ExamsOn(exams, d)
      {
        PutTouchesTwoDays(exams, i.value, req, d);
      }
      SameIdKeepsIdsUnique(exams, i.value, e, nextId);
      exams := exams[i.value := e];
      return Updated(ExamsOn(exams, e.date));
    }

    /** `PUT /:id` as written: a body with a truthy content throws before
        anything is looked up or stored; any other body updates everything but
        the content. */
    method PutAsWritten(id: DocId, req: ExamRequest) returns (answer: PutAnswer)
      requires Valid()
      modifies this
      ensures Valid()
      ensures answer.NoAnswer? <==> TruthyText(req.content)
      ensures answer.NoAnswer? ==> exams == old(exams)
      ensures !TruthyText(req.content) ==>
        (answer.PutNotFound? <==> IndexOfId(old(exams), id).None?)
      ensures answer.PutNotFound? ==> exams == old(exams)
      ensures answer.Updated? ==>
        var i := IndexOfId(old(exams), id).value;
        && PatchAsWritten(old(exams)[i], req).Some?
        && exams == old(exams)[i := PatchAsWritten(old(exams)[i], req).value]
        && exams[i].content == old(exams)[i].content
        && answer.day == ExamsOn(exams, exams[i].date)
    {
      if TruthyText(req.content) {
        return NoAnswer;
      }
      var i := IndexOfId(exams, id);
      if i.None? {
        return PutNotFound;
      }
      var e := PatchAsWritten(exams[i.value], req).value;
      SameIdKeepsIdsUnique(exams, i.value, e, nextId);
      exams := exams[i.value := e];
      return Updated(ExamsOn(exams, e.date));
    }

    /** `DELETE /:id`: removes the exam with that `_id` and answers with the
        remaining exams of its date, or with a message when there is none. */
    method Delete(id: DocId) returns (answer: DeleteAnswer)
      requires Valid()
      modifies this
      ensures Valid()
      ensures answer.DeleteNotFound? <==> IndexOfId(old(exams), id).None?
      ensures answer.DeleteNotFound? ==> exams == old(exams)
      ensures answer.Remaining? ==>
        var i := IndexOfId(old(exams), id).value;
        && exams == RemoveAt(old(exams), i)
        && answer.day == ExamsOn(exams, old(exams)[i].date)
        && forall d :: d != old(exams)[i].date ==> ExamsOn(exams, d) == ExamsOn(old(exams), d)
      ensures IndexOfId(exams, id).None?
    {
      var i := IndexOfId(exams, id);
      if i.None? {
        return DeleteNotFound;
      }
      var date := exams[i.value].date;
      forall d | d != date
        ensures ExamsOn(RemoveAt(exams, i.value), d) == ExamsOn(exams, d)
      {
        DeleteTouchesOneDay(exams, i.value, d);
      }
      DeleteRemovesTheId(exams, id);
      exams := RemoveAt(exams, i.value);
      return Remaining(ExamsOn(exams, date));
    }
  }
}
