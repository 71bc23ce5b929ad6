/** routes/subscribers.js: mail subscribers, who manage their subscription
    with an access key that changes on every save. */
module Subscribers {
  import opened Common
  import opened Query
  import opened Models

  /** The request checks and sanitizers the handlers use, which are not part
      of this model: express-validator's `isEmail` and `isUUID` (any
      8-4-4-4-12 hex string), the uuid library's `validate` (which also
      demands a version and the RFC variant), and `trim().escape()` on the
      name. */
  datatype Validators = Validators(
    isEmail: string -> bool,
    isUUID: string -> bool,
    validate: string -> bool,
    clean: string -> string)

  /** The body of `POST /`; a missing field is None, and `subscription` is
      None unless it is an array. */
  datatype RegisterRequest = RegisterRequest(
    name: Option<string>, email: Option<string>, subscription: Option<seq<string>>)

  /** The body of `PUT /`. */
  datatype UpdateRequest = UpdateRequest(
    email: Option<string>, subscription: Option<seq<string>>, accessKey: Option<string>, name: Option<string>)

  /** A subscriber as `GET /:accessKey` shows it, without the access key. */
  datatype Profile = Profile(id: DocId, name: string, email: string, subscription: seq<string>)

  function EmailIs(email: string): Subscriber -> bool {
    (s: Subscriber) => s.email == email
  }

  function KeyIs(key: string): Subscriber -> bool {
    (s: Subscriber) => s.accessKey == key
  }

  /** `findOne({ email })`, as an index into the collection. */
  function IndexOfEmail(ss: seq<Subscriber>, email: string): (r: Option<nat>)
    ensures r.None? <==> forall s :: s in ss ==> s.email != email
    ensures r.Some? ==> r.value < |ss| && ss[r.value].email == email
  {
    IndexWhere(ss, EmailIs(email))
  }

  /** `findOne({ accessKey })`, as an index into the collection. */
  function IndexOfKey(ss: seq<Subscriber>, key: string): (r: Option<nat>)
    ensures r.None? <==> forall s :: s in ss ==> s.accessKey != key
    ensures r.Some? ==> r.value < |ss| && ss[r.value].accessKey == key
  {
    IndexWhere(ss, KeyIs(key))
  }

  /** Every `_id` is below the next one to hand out. */
  ghost predicate IdsBelow(ss: seq<Subscriber>, next: DocId) {
    forall i :: 0 <= i < |ss| ==> ss[i].id < next
  }

  /** What the `_id` and the two unique indexes of the schema keep: no two
      subscribers share an `_id`, an e-mail address or an access key. */
  ghost predicate Distinct(ss: seq<Subscriber>) {
    forall i, j :: 0 <= i < j < |ss| ==>
      ss[i].id != ss[j].id && ss[i].email != ss[j].email && ss[i].accessKey != ss[j].accessKey
  }

  /** Whether storing `s` at index `i` (or appending it, when `i` is `|ss|`)
      would break one of the unique indexes: another subscriber already has its
      e-mail address or its access key. */
  predicate Clashes(ss: seq<Subscriber>, i: nat, s: Subscriber) {
    exists j :: 0 <= j < |ss| && j != i && (ss[j].email == s.email || ss[j].accessKey == s.accessKey)
  }

  // ----- GET /:accessKey

  datatype ProfileAnswer = BadKey | Found(profile: Profile) | NotFound

  /** `GET /:accessKey`: a key that the uuid library's `validate` refuses is
      answered with a message and no lookup; otherwise the subscriber with
      that key, without it. */
  function ProfileOf(ss: seq<Subscriber>, key: string, v: Validators): (r: ProfileAnswer)
    ensures r.BadKey? <==> !v.validate(key)
    ensures r.NotFound? <==> v.validate(key) && forall s :: s in ss ==> s.accessKey != key
    ensures r.Found? ==> exists s :: (s in ss && s.accessKey == key &&
      r.profile == Profile(s.id, s.name, s.email, s.subscription))
  {
    if !v.validate(key) then BadKey
    else
      match IndexOfKey(ss, key)
      case None => NotFound
      case Some(i) =>
        var s := ss[i];
        assert s in ss;
        Found(Profile(s.id, s.name, s.email, s.subscription))
  }

  /** With distinct keys, the key finds exactly the subscriber stored under it. */
  lemma {:induction false} KeyFindsItsSubscriber(ss: seq<Subscriber>, i: nat)
    requires Distinct(ss) && i < |ss|
    ensures IndexOfKey(ss, ss[i].accessKey) == Some(i)
  {
    var j := IndexOfKey(ss, ss[i].accessKey);
    assert KeyIs(ss[i].accessKey)(ss[i]);
    assert j.Some? && j.value <= i;
  }

  // ----- POST /request

  datatype RequestAnswer = RequestInvalid | RequestUnknown | KeySent | KeyNotSent

  /** `POST /request`: mails a known subscriber the link with its access key.
      `sent` is what the mail transport reports. */
  function RequestKey(ss: seq<Subscriber>, email: Option<string>, v: Validators, sent: bool): (r: RequestAnswer)
    ensures r.RequestInvalid? <==> !(email.Some? && v.isEmail(email.value))
    ensures r.RequestUnknown? <==> (email.Some? && v.isEmail(email.value) &&
      forall s :: s in ss ==> s.email != email.value)
    ensures r.KeySent? ==> sent
    ensures r.KeyNotSent? ==> !sent
  {
    if !(email.Some? && v.isEmail(email.value)) then RequestInvalid
    else if IndexOfEmail(ss, email.value).None? then RequestUnknown
    else if sent then KeySent
    else KeyNotSent
  }

  // ----- writes

  datatype RegisterAnswer = RegisterInvalid | AlreadySubscribed | RegisterFailed | Registered

  datatype UpdateAnswer = UpdateInvalid | UpdateUnknown | UpdateFailed | Saved

  datatype RemoveAnswer = RemoveInvalid | RemoveUnknown | Removed | NotRemoved

  /** The new state of a subscriber after `PUT /`: the address and the tags of
      the body, the new key, and the body's name only when it is truthy (it is
      not sanitized on this path). */
  function Updated(s: Subscriber, req: UpdateRequest, newKey: string): (r: Subscriber)
    requires req.email.Some? && req.subscription.Some?
    ensures r.id == s.id && r.email == req.email.value && r.subscription == req.subscription.value
    ensures r.accessKey == newKey
    ensures r.name == (if TruthyText(req.name) then req.name.value else s.name)
  {
    Subscriber(s.id, if TruthyText(req.name) then req.name.value else s.name,
      req.email.value, req.subscription.value, newKey)
  }

  predicate RegisterChecks(req: RegisterRequest, v: Validators) {
    TruthyText(req.name) && req.email.Some? && v.isEmail(req.email.value) && req.subscription.Some?
  }

  predicate UpdateChecks(req: UpdateRequest, v: Validators) {
    && req.email.Some? && v.isEmail(req.email.value)
    && req.subscription.Some?
    && req.accessKey.Some? && v.isUUID(req.accessKey.value)
  }

  /** Appending a subscriber that clashes with no one keeps the indexes. */
  lemma AppendKeepsDistinct(ss: seq<Subscriber>, s: Subscriber, next: DocId)
    requires IdsBelow(ss, next) && Distinct(ss) && s.id == next && !Clashes(ss, |ss|, s)
    ensures IdsBelow(ss + [s], next + 1) && Distinct(ss + [s])
  {
    forall j | 0 <= j < |ss|
      ensures ss[j].email != s.email && ss[j].accessKey != s.accessKey
    {
      assert j != |ss|;
    }
  }

  /** Replacing a subscriber by one with its `_id` that clashes with no other
      keeps the indexes. */
  lemma ReplaceKeepsDistinct(ss: seq<Subscriber>, i: nat, s: Subscriber, next: DocId)
    requires i < |ss| && s.id == ss[i].id
    requires IdsBelow(ss, next) && Distinct(ss) && !Clashes(ss, i, s)
    ensures IdsBelow(ss[i := s], next) && Distinct(ss[i := s])
  {
    var after := ss[i := s];
    forall j, k | 0 <= j < k < |after|
      ensures after[j].id != after[k].id && after[j].email != after[k].email && after[j].accessKey != after[k].accessKey
    {
      if j == i {
        assert !(ss[k].email == s.email || ss[k].accessKey == s.accessKey);
      } else if k == i {
        assert !(ss[j].email == s.email || ss[j].accessKey == s.accessKey);
      }
    }
  }

  /** Removing a subscriber keeps the indexes and leaves its key unused. */
  lemma RemoveKeepsDistinct(ss: seq<Subscriber>, i: nat, next: DocId)
    requires i < |ss| && IdsBelow(ss, next) && Distinct(ss)
    ensures IdsBelow(RemoveAt(ss, i), next) && Distinct(RemoveAt(ss, i))
    ensures IndexOfKey(RemoveAt(ss, i), ss[i].accessKey).None?
  {
    var after := RemoveAt(ss, i);
    forall j, k | 0 <= j < k < |after|
      ensures after[j].id != after[k].id && after[j].email != after[k].email && after[j].accessKey != after[k].accessKey
    {
      var j' := if j < i then j else j + 1;
      var k' := if k < i then k else k + 1;
      assert after[j] == ss[j'] && after[k] == ss[k'] && j' < k';
    }
    forall k | 0 <= k < |after|
      ensures after[k].accessKey != ss[i].accessKey
    {
      if k < i {
        assert after[k] == ss[k];
      } else {
        assert after[k] == ss[k + 1];
      }
    }
  }

  /** The `subscribers` collection. */
  class SubscriberTable {
    var subscribers: seq<Subscriber>
    var nextId: DocId

    ghost predicate Valid()
      reads this
    {
      IdsBelow(subscribers, nextId) && Distinct(subscribers)
    }

    constructor ()
      ensures Valid() && subscribers == []
    {
      subscribers, nextId := [], 0;
    }

    /** `POST /`: validates the body, refuses a known address, and stores the
        subscriber under the fresh key `newKey` (what `uuid()` returns). The
        welcome mail reports failures only to the log, so it never changes the
        answer. A key that another subscriber already holds breaks the unique
        index: the server error leaves the collection alone. */
    method Register(req: RegisterRequest, newKey: string, v: Validators) returns (answer: RegisterAnswer)
      requires Valid()
      modifies this
      ensures Valid()
      ensures answer.RegisterInvalid? <==> !RegisterChecks(req, v)
      ensures RegisterChecks(req, v) ==>
        (answer.AlreadySubscribed? <==> IndexOfEmail(old(subscribers), req.email.value).Some?)
      ensures answer.Registered? ==>
        subscribers == old(subscribers) + [Subscriber(old(nextId), v.clean(req.name.value),
          req.email.value, req.subscription.value, newKey)]
      ensures answer.Registered? ==>
        ProfileOf(subscribers, newKey, v) == (if v.validate(newKey) then
          Found(Profile(old(nextId), v.clean(req.name.value), req.email.value, req.subscription.value))
          else BadKey)
      ensures answer.RegisterFailed? ==> IndexOfKey(old(subscribers), newKey).Some?
      ensures !answer.Registered? ==> subscribers == old(subscribers)
    {
      if !RegisterChecks(req, v) {
        return RegisterInvalid;
      }
      if IndexOfEmail(subscribers, req.email.value).Some? {
        return AlreadySubscribed;
      }
      var s := Subscriber(nextId, v.clean(req.name.value), req.email.value, req.subscription.value, newKey);
      if IndexOfKey(subscribers, newKey).Some? {
        return RegisterFailed;
      }
      assert !Clashes(subscribers, |subscribers|, s);
      AppendKeepsDistinct(subscribers, s, nextId);
      subscribers := subscribers + [s];
      nextId := nextId + 1;
      KeyFindsItsSubscriber(subscribers, |subscribers| - 1);
      return Registered;
    }

    /** `PUT /`: validates the body, finds the subscriber by its key, and saves
        the new address, tags and name under the fresh key `newKey`. An address
        or key that another subscriber holds breaks a unique index: the server
        error leaves the collection alone. */
    method Update(req: UpdateRequest, newKey: string, v: Validators) returns (answer: UpdateAnswer)
      requires Valid()
      modifies this
      ensures Valid()
      ensures answer.UpdateInvalid? <==> !UpdateChecks(req, v)
      ensures UpdateChecks(req, v) ==>
        (answer.UpdateUnknown? <==> IndexOfKey(old(subscribers), req.accessKey.value).None?)
      ensures answer.Saved? ==>
        var i := IndexOfKey(old(subscribers), req.accessKey.value).value;
        && subscribers == old(subscribers)[i := Updated(old(subscribers)[i], req, newKey)]
        && IndexOfKey(subscribers, newKey) == Some(i)
        && (newKey != req.accessKey.value ==> IndexOfKey(subscribers, req.accessKey.value).None?)
      ensures answer.UpdateFailed? ==>
        var i := IndexOfKey(old(subscribers), req.accessKey.value).value;
        Clashes(old(subscribers), i, Updated(old(subscribers)[i], req, newKey))
      ensures !answer.Saved? ==> subscribers == old(subscribers)
    {
      if !UpdateChecks(req, v) {
        return UpdateInvalid;
      }
      var found := IndexOfKey(subscribers, req.accessKey.value);
      if found.None? {
        return UpdateUnknown;
      }
      var i := found.value;
      var s := Updated(subscribers[i], req, newKey);
      if Clashes(subscribers, i, s) {
        return UpdateFailed;
      }
      ghost var before := subscribers;
      ReplaceKeepsDistinct(subscribers, i, s, nextId);
      subscribers := subscribers[i := s];
      KeyFindsItsSubscriber(subscribers, i);
      if newKey != req.accessKey.value {
        forall k | 0 <= k < |subscribers|
          ensures subscribers[k].accessKey != req.accessKey.value
        {
          if k != i {
            assert subscribers[k] == before[k];
            assert before[i].accessKey == req.accessKey.value;
          }
        }
      }
      return Saved;
    }

    /** `DELETE /`: finds the subscriber by its key and removes it only when
        the farewell mail went out (`sent`, what the mail transport reports). */
    method Remove(key: Option<string>, v: Validators, sent: bool) returns (answer: RemoveAnswer)
      requires Valid()
      modifies this
      ensures Valid()
      ensures answer.RemoveInvalid? <==> !(key.Some? && v.isUUID(key.value))
      ensures key.Some? && v.isUUID(key.value) ==>
        (answer.RemoveUnknown? <==> IndexOfKey(old(subscribers), key.value).None?)
      ensures answer.Removed? ==> sent
      ensures answer.NotRemoved? ==> !sent
      ensures answer.Removed? ==>
        && subscribers == RemoveAt(old(subscribers), IndexOfKey(old(subscribers), key.value).value)
        && IndexOfKey(subscribers, key.value).None?
      ensures !answer.Removed? ==> subscribers == old(subscribers)
    {
      if !(key.Some? && v.isUUID(key.value)) {
        return RemoveInvalid;
      }
      var found := IndexOfKey(subscribers, key.value);
      if found.None? {
        return RemoveUnknown;
      }
      if !sent {
        return NotRemoved;
      }
      RemoveKeepsDistinct(subscribers, found.value, nextId);
      subscribers := RemoveAt(subscribers, found.value);
      return Removed;
    }
  }
}
