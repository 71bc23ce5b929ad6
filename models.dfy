/** The stored documents (the schemas under models/), as the handlers write them. Fields the
    schemas leave optional, or that the handlers store without checking, are
    `Option`s; every document carries its `_id`. */
module Models {
  import opened Common
  import opened Query

  /** One period of a day's timetable: its number within the day, the classes
      taught in parallel, and the rooms (models/Schedule.js:13-35). */
  datatype Slot = Slot(id: int, classes: seq<ClassId>, timeStart: string, timeEnd: string, location: Option<string>)

  /** A day's timetable for one week parity. The schema declares no validity
      dates, yet the mail job filters on them; a timetable created through the
      API has neither. */
  datatype Schedule = Schedule(
    id: DocId, week: string, day: string, classes: seq<Slot>,
    validFrom: Option<Date>, validUntil: Option<Date>)

  datatype Break = Break(id: DocId, validFrom: Date, validUntil: Date, status: string, options: Option<string>)

  datatype Notification = Notification(id: DocId, fromDate: Date, toDate: Date, title: string, content: Option<string>)

  /** A change to one period on one date; `substitution` is the class taught
      instead, `location` the rooms separated by " / ". */
  datatype Change = Change(
    id: DocId, date: Date, classId: int,
    changed: Option<ClassId>, substitution: Option<ClassId>, location: Option<string>)

  datatype Exam = Exam(id: DocId, date: Date, classId: int, classKey: ClassId, content: string)

  /** A note; the schema has no `reminder`, yet the weekly digest filters on it. */
  datatype Note = Note(id: DocId, date: Date, classId: int, classKey: ClassId, note: string, reminder: Option<Date>)

  datatype Subscriber = Subscriber(id: DocId, name: string, email: string, subscription: seq<string>, accessKey: string)

  /** The `classes` collection, as the name of each class by its reference. */
  type ClassNames = map<ClassId, string>

  /** What `populate` puts in place of an optional class reference: the class's
      name, or null when the reference is absent or dangling. */
  function PopulateRef(r: Option<ClassId>, classes: ClassNames): (name: Option<string>)
    ensures name.Some? <==> r.Some? && r.value in classes
    ensures name.Some? ==> name.value == classes[r.value]
  {
    if r.Some? && r.value in classes then Some(classes[r.value]) else None
  }

  function Resolves(classes: ClassNames): ClassId -> bool {
    (c: ClassId) => c in classes
  }

  /** The names of references that all resolve, one per reference, in order. */
  function Names(refs: seq<ClassId>, classes: ClassNames): (names: seq<string>)
    requires forall k :: 0 <= k < |refs| ==> refs[k] in classes
    ensures |names| == |refs|
    ensures forall k :: 0 <= k < |refs| ==> names[k] == classes[refs[k]]
  {
    seq(|refs|, k requires 0 <= k < |refs| => classes[refs[k]])
  }

  /** What `populate` makes of an array of class references: the names of the
      referenced classes, in order, with dangling references dropped. */
  function PopulateRefs(refs: seq<ClassId>, classes: ClassNames): (names: seq<string>)
    ensures |names| <= |refs|
    ensures (forall k :: 0 <= k < |refs| ==> refs[k] in classes) ==>
      |names| == |refs| && forall k :: 0 <= k < |refs| ==> names[k] == classes[refs[k]]
    ensures (forall k :: 0 <= k < |refs| ==> refs[k] !in classes) ==> names == []
  {
    if refs == [] then []
    else (if refs[0] in classes then [classes[refs[0]]] else []) + PopulateRefs(refs[1..], classes)
  }

  /** With references that dangle and references that resolve mixed, the
      populated names are those of the resolving references, one each, in
      order. */
  lemma {:induction false} PopulateRefsKeepsResolving(refs: seq<ClassId>, classes: ClassNames)
    ensures PopulateRefs(refs, classes) == Names(Filter(refs, Resolves(classes)), classes)
  {
    var p := Resolves(classes);
    if refs != [] {
      PopulateRefsKeepsResolving(refs[1..], classes);
      assert Filter(refs, p) == Select(refs, p);
      assert Filter(refs[1..], p) == Select(refs[1..], p);
      var tail := Filter(refs[1..], p);
      if refs[0] in classes {
        assert Filter(refs, p) == [refs[0]] + tail;
      } else {
        assert Filter(refs, p) == tail;
      }
    }
  }
}
