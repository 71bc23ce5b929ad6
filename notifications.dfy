/** routes/notifications.js: notices shown over a range of dates. */
module Notifications {
  import opened Common
  import opened Query
  import opened Models

  /** The body of `POST /` and `PUT /:id`; a field that is missing or empty is None. */
  datatype NotificationRequest = NotificationRequest(
    fromDate: Option<Date>, toDate: Option<Date>, title: Option<string>, content: Option<string>)

  /** The three `notEmpty` checks of `POST /`. */
  predicate Complete(req: NotificationRequest) {
    req.fromDate.Some? && req.toDate.Some? && TruthyText(req.title)
  }

  predicate Covers(n: Notification, date: Date) {
    n.fromDate <= date <= n.toDate
  }

  function CoversDate(date: Date): Notification -> bool {
    (n: Notification) => Covers(n, date)
  }

  function HasId(id: DocId): Notification -> bool {
    (n: Notification) => n.id == id
  }

  /** `getNotifications` behind `GET /day/:date`: the first notification in
      store order whose range contains the date; None answers `{}`. */
  function NotificationOn(ns: seq<Notification>, date: Date): (r: Option<Notification>)
    ensures r.None? <==> forall n :: n in ns ==> !Covers(n, date)
    ensures r.Some? ==> r.value in ns && Covers(r.value, date)
  {
    First(ns, CoversDate(date))
  }

  /** Where the notification with that `_id` is stored. */
  function IndexOfId(ns: seq<Notification>, id: DocId): (r: Option<nat>)
    ensures r.None? <==> forall n :: n in ns ==> n.id != id
    ensures r.Some? ==> r.value < |ns| && ns[r.value].id == id
  {
    IndexWhere(ns, HasId(id))
  }

  /** `GET /id/:id`: the notification with that `_id`; None answers `{}`. */
  function NotificationById(ns: seq<Notification>, id: DocId): (r: Option<Notification>)
    ensures r.None? <==> forall n :: n in ns ==> n.id != id
    ensures r.Some? ==> r.value in ns && r.value.id == id
  {
    First(ns, HasId(id))
  }

  /** The update document of `PUT /:id`: each truthy field of the body
      replaces the stored one; the others stay. */
  function Patch(n: Notification, req: NotificationRequest): (r: Notification)
    ensures r.id == n.id
    ensures r.fromDate == (if req.fromDate.Some? then req.fromDate.value else n.fromDate)
    ensures r.toDate == (if req.toDate.Some? then req.toDate.value else n.toDate)
    ensures r.title == (if TruthyText(req.title) then req.title.value else n.title)
    ensures r.content == (if TruthyText(req.content) then req.content else n.content)
  {
    n.(fromDate := if req.fromDate.Some? then req.fromDate.value else n.fromDate,
       toDate := if req.toDate.Some? then req.toDate.value else n.toDate,
       title := if TruthyText(req.title) then req.title.value else n.title,
       content := if TruthyText(req.content) then req.content else n.content)
  }

  /** Sending the same update twice stores what sending it once does. */
  lemma PatchIsIdempotent(n: Notification, req: NotificationRequest)
    ensures Patch(Patch(n, req), req) == Patch(n, req)
  {
  }

  /** A body without a truthy field changes nothing. */
  lemma EmptyPatchChangesNothing(n: Notification, req: NotificationRequest)
    requires req.fromDate.None? && req.toDate.None?
    requires !TruthyText(req.title) && !TruthyText(req.content)
    ensures Patch(n, req) == n
  {
  }

  /** Every `_id` is below the next one to hand out. */
  ghost predicate IdsBelow(ns: seq<Notification>, next: DocId) {
    forall i :: 0 <= i < |ns| ==> ns[i].id < next
  }

  /** No two notifications share an `_id`. */
  ghost predicate UniqueIds(ns: seq<Notification>) {
    forall i, j :: 0 <= i < j < |ns| ==> ns[i].id != ns[j].id
  }

  /** After an update, `GET /id/:id` answers with the updated notification. */
  lemma UpdateIsVisible(ns: seq<Notification>, id: DocId, req: NotificationRequest)
    requires IndexOfId(ns, id).Some?
    ensures var i := IndexOfId(ns, id).value;
      NotificationById(ns[i := Patch(ns[i], req)], id) == Some(Patch(ns[i], req))
  {
    var i := IndexOfId(ns, id).value;
    var after := ns[i := Patch(ns[i], req)];
    var j := IndexWhere(after, HasId(id));
    assert HasId(id)(after[i]);
    assert j.Some? && j.value <= i;
  }

  /** After a deletion no notification has that `_id` any more, and the
      remaining ones still have their own. */
  lemma DeleteRemovesTheId(ns: seq<Notification>, id: DocId)
    requires UniqueIds(ns) && IndexOfId(ns, id).Some?
    ensures var after := RemoveAt(ns, IndexOfId(ns, id).value);
      NotificationById(after, id).None? && UniqueIds(after)
  {
    var i := IndexOfId(ns, id).value;
    var after := RemoveAt(ns, i);
    forall k | 0 <= k < |after|
      ensures after[k].id != id
    {
      if k >= i {
        assert after[k] == ns[k + 1];
      }
    }
  }

  datatype PostAnswer = Rejected | Listed(all: seq<Notification>)

  datatype PutAnswer = PutNotFound | Updated(n: Notification)

  datatype DeleteAnswer = DeleteNotFound | Deleted

  /** The `notifications` collection. */
  class NotificationTable {
    var notifications: seq<Notification>
    var nextId: DocId

    /** Every notification has its own `_id`, below the next one to hand out. */
    ghost predicate Valid()
      reads this
    {
      IdsBelow(notifications, nextId) && UniqueIds(notifications)
    }

    constructor ()
      ensures Valid() && notifications == []
    {
      notifications, nextId := [], 0;
    }

    /** `POST /`: checks the required fields, stores one new notification and
        answers with the whole collection. */
    method Post(req: NotificationRequest) returns (answer: PostAnswer)
      requires Valid()
      modifies this
      ensures Valid()
      ensures answer.Rejected? <==> !Complete(req)
      ensures answer.Rejected? ==> notifications == old(notifications)
      ensures answer.Listed? ==>
        && |notifications| == |old(notifications)| + 1
        && notifications[..|old(notifications)|] == old(notifications)
        && Last(notifications) == Notification(Last(notifications).id,
             req.fromDate.value, req.toDate.value, req.title.value, req.content)
        && (forall m :: m in old(notifications) ==> m.id != Last(notifications).id)
        && answer.all == notifications
    {
      if !Complete(req) {
        return Rejected;
      }
      var n := Notification(nextId, req.fromDate.value, req.toDate.value, req.title.value, req.content);
      notifications := notifications + [n];
      nextId := nextId + 1;
      return Listed(notifications);
    }

    /** `GET /all`: the whole collection, in store order. */
    method All() returns (all: seq<Notification>)
      ensures all == notifications
    {
      all := notifications;
    }

    /** `PUT /:id`: applies the update document built from the truthy fields
        to the notification with that `_id`, or answers 404. */
    method Put(id: DocId, req: NotificationRequest) returns (answer: PutAnswer)
      requires Valid()
      modifies this
      ensures Valid()
      ensures answer.PutNotFound? <==> IndexOfId(old(notifications), id).None?
      ensures answer.PutNotFound? ==> notifications == old(notifications)
      ensures answer.Updated? ==>
        var i := IndexOfId(old(notifications), id).value;
        && answer.n == Patch(old(notifications)[i], req)
        && notifications == old(notifications)[i := answer.n]
        && NotificationById(notifications, id) == Some(answer.n)
    {
      var i := IndexOfId(notifications, id);
      if i.None? {
        return PutNotFound;
      }
      var n := Patch(notifications[i.value], req);
      UpdateIsVisible(notifications, id, req);
      notifications := notifications[i.value := n];
      return Updated(n);
    }

    /** `DELETE /:id`: removes the notification with that `_id`, or answers
        with a message when there is none. */
    method Delete(id: DocId) returns (answer: DeleteAnswer)
      requires Valid()
      modifies this
      ensures Valid()
      ensures answer.DeleteNotFound? <==> IndexOfId(old(notifications), id).None?
      ensures answer.DeleteNotFound? ==> notifications == old(notifications)
      ensures answer.Deleted? ==>
        notifications == RemoveAt(old(notifications), IndexOfId(old(notifications), id).value)
      ensures NotificationById(notifications, id).None?
    {
      var i := IndexOfId(notifications, id);
      if i.None? {
        return DeleteNotFound;
      }
      DeleteRemovesTheId(notifications, id);
      notifications := RemoveAt(notifications, i.value);
      return Deleted;
    }
  }
}
