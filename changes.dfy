/** routes/changes.js: changes to single periods of the timetable on a date. */
module Changes {
  import opened Common
  import opened Query
  import opened Models

  /** The body of `POST /` and `PUT /:id`; a field that is missing or empty is None. */
  datatype ChangeRequest = ChangeRequest(
    date: Option<Date>, classId: Option<int>,
    changed: Option<ClassId>, substitution: Option<ClassId>, location: Option<string>)

  /** The two `notEmpty` checks of `POST /`; a period number 0 passes them. */
  predicate Complete(req: ChangeRequest) {
    req.date.Some? && req.classId.Some?
  }

  function OnDate(date: Date): Change -> bool {
    (c: Change) => c.date == date
  }

  function HasId(id: DocId): Change -> bool {
    (c: Change) => c.id == id
  }

  /** `GET /:date`, and the answer of every write: the changes dated `date`,
      in store order. */
  function ChangesOn(cs: seq<Change>, date: Date): (r: seq<Change>)
    ensures forall c :: c in r <==> c in cs && c.date == date
    ensures forall c :: multiset(r)[c] == if c.date == date then multiset(cs)[c] else 0
  {
    Filter(cs, OnDate(date))
  }

  /** Where the change with that `_id` is stored. */
  function IndexOfId(cs: seq<Change>, id: DocId): (r: Option<nat>)
    ensures r.None? <==> forall c :: c in cs ==> c.id != id
    ensures r.Some? ==> r.value < |cs| && cs[r.value].id == id
  {
    IndexWhere(cs, HasId(id))
  }

  /** Every `_id` is below the next one to hand out. */
  ghost predicate IdsBelow(cs: seq<Change>, next: DocId) {
    forall i :: 0 <= i < |cs| ==> cs[i].id < next
  }

  /** No two changes share an `_id`. */
  ghost predicate UniqueIds(cs: seq<Change>) {
    forall i, j :: 0 <= i < j < |cs| ==> cs[i].id != cs[j].id
  }

  /** The update document of `PUT /:id`: a truthy period number, class
      references and rooms replace the stored ones; the date is never
      updated. */
  function Patch(c: Change, req: ChangeRequest): (r: Change)
    ensures r.id == c.id && r.date == c.date
    ensures r.classId == (if TruthyNumber(req.classId) then req.classId.value else c.classId)
    ensures r.changed == (if req.changed.Some? then req.changed else c.changed)
    ensures r.substitution == (if req.substitution.Some? then req.substitution else c.substitution)
    ensures r.location == (if TruthyText(req.location) then req.location else c.location)
  {
    c.(classId := if TruthyNumber(req.classId) then req.classId.value else c.classId,
       changed := if req.changed.Some? then req.changed else c.changed,
       substitution := if req.substitution.Some? then req.substitution else c.substitution,
       location := if TruthyText(req.location) then req.location else c.location)
  }

  /** A new change joins the end of its own date's list and no other. */
  lemma PostTouchesOneDay(cs: seq<Change>, c: Change, date: Date)
    ensures ChangesOn(cs + [c], date) == ChangesOn(cs, date) + (if c.date == date then [c] else [])
  {
    FilterAppend(cs, c, OnDate(date));
  }

  /** An update leaves the lists of every other date alone. */
  lemma PutTouchesOneDay(cs: seq<Change>, i: nat, req: ChangeRequest, date: Date)
    requires i < |cs| && cs[i].date != date
    ensures ChangesOn(cs[i := Patch(cs[i], req)], date) == ChangesOn(cs, date)
  {
    FilterUpdateUnmatched(cs, i, Patch(cs[i], req), OnDate(date));
  }

  /** A deletion leaves the lists of every other date alone. */
  lemma DeleteTouchesOneDay(cs: seq<Change>, i: nat, date: Date)
    requires i < |cs| && cs[i].date != date
    ensures ChangesOn(RemoveAt(cs, i), date) == ChangesOn(cs, date)
  {
    FilterRemoveUnmatched(cs, i, OnDate(date));
  }

  /** After a deletion no change has that `_id` any more, and the remaining
      ones still have their own. */
  lemma DeleteRemovesTheId(cs: seq<Change>, id: DocId)
    requires UniqueIds(cs) && IndexOfId(cs, id).Some?
    ensures var after := RemoveAt(cs, IndexOfId(cs, id).value);
      IndexOfId(after, id).None? && UniqueIds(after)
  {
    var i := IndexOfId(cs, id).value;
    var after := RemoveAt(cs, i);
    forall k | 0 <= k < |after|
      ensures after[k].id != id
    {
      if k >= i {
        assert after[k] == cs[k + 1];
      }
    }
  }

  /** A change stored under the next `_id` keeps every `_id` its own. */
  lemma FreshIdKeepsIdsUnique(cs: seq<Change>, c: Change, next: DocId)
    requires IdsBelow(cs, next) && UniqueIds(cs) && c.id == next
    ensures IdsBelow(cs + [c], next + 1) && UniqueIds(cs + [c])
  {
  }

  datatype PostAnswer = Rejected | Listed(day: seq<Change>)

  datatype PutAnswer = PutNotFound | Updated(day: seq<Change>)

  datatype DeleteAnswer = DeleteNotFound | Remaining(day: seq<Change>)

  /** The `changes` collection. */
  class ChangeTable {
    var changes: seq<Change>
    var nextId: DocId

    /** Every change has its own `_id`, below the next one to hand out. */
    ghost predicate Valid()
      reads this
    {
      IdsBelow(changes, nextId) && UniqueIds(changes)
    }

    constructor ()
      ensures Valid() && changes == []
    {
      changes, nextId := [], 0;
    }

    /** `POST /`: checks the required fields, stores one new change and
        answers with the changes of its date, the new one last. */
    method Post(req: ChangeRequest) returns (answer: PostAnswer)
      requires Valid()
      modifies this
      ensures Valid()
      ensures answer.Rejected? <==> !Complete(req)
      ensures answer.Rejected? ==> changes == old(changes)
      ensures answer.Listed? ==>
        && |changes| == |old(changes)| + 1
        && changes[..|old(changes)|] == old(changes)
        && Last(changes) == Change(Last(changes).id, req.date.value, req.classId.value,
             req.changed, req.substitution, req.location)
        && (forall c :: c in old(changes) ==> c.id != Last(changes).id)
        && answer.day == ChangesOn(changes, req.date.value)
        && answer.day == ChangesOn(old(changes), req.date.value) + [Last(changes)]
    {
      if !Complete(req) {
        return Rejected;
      }
      var c := Change(nextId, req.date.value, req.classId.value, req.changed, req.substitution, req.location);
      PostTouchesOneDay(changes, c, c.date);
      FreshIdKeepsIdsUnique(changes, c, nextId);
      ghost var before := changes;
      changes := changes + [c];
      assert changes[..|before|] == before && Last(changes) == c;
      nextId := nextId + 1;
      return Listed(ChangesOn(changes, c.date));
    }

    /** `PUT /:id`: applies the update document built from the truthy fields
        to the change with that `_id` and answers with the changes of its
        date, or answers 404. */
    method Put(id: DocId, req: ChangeRequest) returns (answer: PutAnswer)
      requires Valid()
      modifies this
      ensures Valid()
      ensures answer.PutNotFound? <==> IndexOfId(old(changes), id).None?
      ensures answer.PutNotFound? ==> changes == old(changes)
      ensures answer.Updated? ==>
        var i := IndexOfId(old(changes), id).value;
        && changes == old(changes)[i := Patch(old(changes)[i], req)]
        && answer.day == ChangesOn(changes, old(changes)[i].date)
        && forall d :: d != old(changes)[i].date ==> ChangesOn(changes, d) == ChangesOn(old(changes), d)
    {
      var i := IndexOfId(changes, id);
      if i.None? {
        return PutNotFound;
      }
      var c := changes[i.value];
      forall d | d != c.date
        ensures ChangesOn(changes[i.value := Patch(c, req)], d) == ChangesOn(changes, d)
      {
        PutTouchesOneDay(changes, i.value, req, d);
      }
      changes := changes[i.value := Patch(c, req)];
      return Updated(ChangesOn(changes, c.date));
    }

    /** `DELETE /:id`: removes the change with that `_id` and answers with the
        remaining changes of its date, or with a message when there is none. */
    method Delete(id: DocId) returns (answer: DeleteAnswer)
      requires Valid()
      modifies this
      ensures Valid()
      ensures answer.DeleteNotFound? <==> IndexOfId(old(changes), id).None?
      ensures answer.DeleteNotFound? ==> changes == old(changes)
      ensures answer.Remaining? ==>
        var i := IndexOfId(old(changes), id).value;
        && changes == RemoveAt(old(changes), i)
        && answer.day == ChangesOn(changes, old(changes)[i].date)
        && forall d :: d != old(changes)[i].date ==> ChangesOn(changes, d) == ChangesOn(old(changes), d)
      ensures IndexOfId(changes, id).None?
    {
      var i := IndexOfId(changes, id);
      if i.None? {
        return DeleteNotFound;
      }
      var date := changes[i.value].date;
      forall d | d != date
        ensures ChangesOn(RemoveAt(changes, i.value), d) == ChangesOn(changes, d)
      {
        DeleteTouchesOneDay(changes, i.value, d);
      }
      DeleteRemovesTheId(changes, id);
      changes := RemoveAt(changes, i.value);
      return Remaining(ChangesOn(changes, date));
    }
  }
}
