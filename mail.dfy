/** The scheduled mail jobs of mail/index.js: the queries they run, the
    timetable that is in effect on a date, and the description of the regular
    classes that the change digest adds to each cancelled period. Sending is
    left out: each job returns what it would send and to whom. */
module Mail {
  import opened Common
  import opened Query
  import opened Text
  import opened Models

  /** Separates the rooms in a change's `location` and the fragments of the
      regular-class description. */
  const Separator := " / "

  /** The collections the mail jobs read, at the moment they run. */
  datatype Db = Db(
    notes: seq<Note>, exams: seq<Exam>, changes: seq<Change>,
    schedules: seq<Schedule>, subscribers: seq<Subscriber>, classes: ClassNames)

  // ----- getNotes, getExams, getChanges, getSubsrcibers

  function Email(s: Subscriber): string { s.email }

  /** `find({ subscription: tag })`: the subscription array contains the tag. */
  function Lists(tag: string): Subscriber -> bool {
    (s: Subscriber) => tag in s.subscription
  }

  predicate ReminderIn(n: Note, from: Date, to: Date) {
    n.reminder.Some? && from <= n.reminder.value <= to
  }

  function ReminderKey(n: Note): int {
    if n.reminder.Some? then n.reminder.value else 0
  }

  /** The notes whose reminder falls in `[from, to]`, by ascending reminder. */
  function GetNotes(notes: seq<Note>, from: Date, to: Date): (r: seq<Note>)
    ensures forall n :: n in r <==> n in notes && ReminderIn(n, from, to)
    ensures forall n :: multiset(r)[n] == if ReminderIn(n, from, to) then multiset(notes)[n] else 0
    ensures forall i, j :: 0 <= i < j < |r| ==> ReminderKey(r[i]) <= ReminderKey(r[j])
  {
    FindSorted(notes, (n: Note) => ReminderIn(n, from, to), ReminderKey)
  }

  function ExamDate(e: Exam): int { e.date }

  /** The exams dated in `[from, to]`, by ascending date. */
  function GetExams(exams: seq<Exam>, from: Date, to: Date): (r: seq<Exam>)
    ensures forall e :: e in r <==> e in exams && from <= e.date <= to
    ensures forall e :: multiset(r)[e] == if from <= e.date <= to then multiset(exams)[e] else 0
    ensures forall i, j :: 0 <= i < j < |r| ==> r[i].date <= r[j].date
  {
    FindSorted(exams, (e: Exam) => from <= e.date <= to, ExamDate)
  }

  function ChangeClassId(c: Change): int { c.classId }

  /** The changes dated `date`, by ascending period number. */
  function GetChanges(changes: seq<Change>, date: Date): (r: seq<Change>)
    ensures forall c :: c in r <==> c in changes && c.date == date
    ensures forall c :: multiset(r)[c] == if c.date == date then multiset(changes)[c] else 0
    ensures forall i, j :: 0 <= i < j < |r| ==> r[i].classId <= r[j].classId
  {
    FindSorted(changes, (c: Change) => c.date == date, ChangeClassId)
  }

  /** The e-mail addresses of the subscribers whose subscription lists `tag`,
      in store order. */
  function GetSubscribers(subscribers: seq<Subscriber>, tag: string): (emails: seq<string>)
    ensures |emails| == |Filter(subscribers, Lists(tag))| <= |subscribers|
    ensures forall k :: 0 <= k < |emails| ==> emails[k] == Filter(subscribers, Lists(tag))[k].email
    ensures forall e :: e in emails <==>
      exists s :: s in subscribers && tag in s.subscription && s.email == e
  {
    Map(Filter(subscribers, Lists(tag)), Email)
  }

  // ----- getSchedule

  /** The parity label of a week number, as the timetables store it. */
  function WeekLabel(week: nat): (parity: string)
    ensures parity == "parni" <==> week % 2 == 0
    ensures parity == "parni" || parity == "neparni"
  {
    if week % 2 == 0 then "parni" else "neparni"
  }

  /** `s` is a timetable for `week` and `day` whose validity contains `date`;
      a timetable without validity dates is never in effect. */
  predicate InEffect(s: Schedule, week: string, day: string, date: Date) {
    && s.week == week && s.day == day
    && s.validFrom.Some? && s.validFrom.value <= date
    && s.validUntil.Some? && date <= s.validUntil.value
  }

  function InEffectOn(week: string, day: string, date: Date): Schedule -> bool {
    (s: Schedule) => InEffect(s, week, day, date)
  }

  function UntilKey(s: Schedule): int {
    if s.validUntil.Some? then s.validUntil.value else 0
  }

  /** The timetable `getSchedule` picks for `date`: one for the date's week
      parity and day name whose validity contains the date, expiring no later
      than any other such timetable. */
  function ScheduleFor(schedules: seq<Schedule>, cal: Calendar, date: Date): (r: Option<Schedule>)
    ensures var week, day := WeekLabel(cal.getWeek(date)), cal.dayName(date);
      && (r.None? <==> forall s :: s in schedules ==> !InEffect(s, week, day, date))
      && (r.Some? ==> r.value in schedules && InEffect(r.value, week, day, date))
      && (r.Some? ==> forall s :: s in schedules && InEffect(s, week, day, date) ==>
            r.value.validUntil.value <= s.validUntil.value)
  {
    var week, day := WeekLabel(cal.getWeek(date)), cal.dayName(date);
    Earliest(schedules, InEffectOn(week, day, date), UntilKey)
  }

  /** A period of the looked-up timetable, with its classes populated to names. */
  datatype SlotView = SlotView(id: int, classNames: seq<string>, timeStart: string, timeEnd: string, location: Option<string>)

  function PopulateSlot(slot: Slot, classes: ClassNames): SlotView {
    SlotView(slot.id, PopulateRefs(slot.classes, classes), slot.timeStart, slot.timeEnd, slot.location)
  }

  /** `getSchedule(date)`: the periods of the timetable in effect, or None for
      the TypeError of reading `.classes` of null when no timetable is. */
  function GetSchedule(db: Db, cal: Calendar, date: Date): (r: Option<seq<SlotView>>)
    ensures r.None? <==> ScheduleFor(db.schedules, cal, date).None?
    ensures r.Some? ==> var s := ScheduleFor(db.schedules, cal, date).value;
      && |r.value| == |s.classes|
      && forall k :: 0 <= k < |r.value| ==>
           r.value[k].id == s.classes[k].id && r.value[k].classNames == PopulateRefs(s.classes[k].classes, db.classes)
  {
    match ScheduleFor(db.schedules, cal, date)
    case None => None
    case Some(s) => Some(seq(|s.classes|, k requires 0 <= k < |s.classes| => PopulateSlot(s.classes[k], db.classes)))
  }

  // ----- the regular-class description of a cancelled period

  /** A change as the digest holds it: class references populated to names,
      and `regular` added by the job. */
  datatype ChangeView = ChangeView(
    id: DocId, date: Date, classId: int,
    changed: Option<string>, substitution: Option<string>, location: Option<string>,
    regular: Option<string>)

  function PopulateChange(c: Change, classes: ClassNames): ChangeView {
    ChangeView(c.id, c.date, c.classId,
      PopulateRef(c.changed, classes), PopulateRef(c.substitution, classes), c.location, None)
  }

  function PopulateChanges(cs: seq<Change>, classes: ClassNames): (r: seq<ChangeView>)
    ensures |r| == |cs|
    ensures forall k :: 0 <= k < |cs| ==>
      r[k].id == cs[k].id && r[k].date == cs[k].date && r[k].classId == cs[k].classId && r[k].regular.None?
    ensures forall k :: 0 <= k < |cs| ==>
      && r[k].changed == PopulateRef(cs[k].changed, classes)
      && r[k].substitution == PopulateRef(cs[k].substitution, classes)
      && r[k].location == cs[k].location
  {
    seq(|cs|, k requires 0 <= k < |cs| => PopulateChange(cs[k], classes))
  }

  /** `locations[n]` as a template literal renders it. */
  function Segment(locations: seq<string>, n: nat): string {
    if n < |locations| then locations[n] else "undefined"
  }

  function Fragment(name: string, location: string): string {
    name + " (" + location + ")"
  }

  /** The strings the `forEach` pushes: one per class of the period, in order. */
  function Fragments(names: seq<string>, locations: seq<string>): (r: seq<string>)
    ensures |r| == |names|
    ensures forall n :: 0 <= n < |names| && n < |locations| ==> r[n] == Fragment(names[n], locations[n])
    ensures forall n :: |locations| <= n < |names| ==> r[n] == Fragment(names[n], "undefined")
  {
    seq(|names|, n requires 0 <= n < |names| => Fragment(names[n], Segment(locations, n)))
  }

  /** The description of the regular classes of a period: their fragments,
      reduced with the separator; None for the TypeError of reducing an empty
      array. */
  function RegularText(names: seq<string>, location: string): (r: Option<string>)
    ensures r.None? <==> names == []
  {
    Reduce(Fragments(names, Split(location, Separator)), Separator)
  }

  /** Why the change digest fails and sends nothing. */
  datatype DigestError =
    | NoTimetable           // no timetable in effect on the date
    | NoSlot(classId: int)  // no period of the timetable has the change's number
    | NoLocation(classId: int)  // the change has no location to split
    | EmptySlot(classId: int)   // the period has no classes to describe

  /** The first period of the timetable whose number is `classId`. */
  function SlotFor(slots: seq<SlotView>, classId: int): (r: Option<SlotView>)
    ensures r.None? <==> forall s :: s in slots ==> s.id != classId
    ensures r.Some? ==> r.value in slots && r.value.id == classId
    ensures r.Some? ==> exists i :: (0 <= i < |slots| && slots[i] == r.value &&
      forall j :: 0 <= j < i ==> slots[j].id != classId)
  {
    First(slots, (s: SlotView) => s.id == classId)
  }

  /** One pass of the loop body for change `c`. */
  function AnnotateOne(c: ChangeView, slots: seq<SlotView>): (r: Result<ChangeView, DigestError>)
    ensures c.substitution.Some? ==> r == Ok(c)
    ensures r.Ok? ==> r.value.(regular := c.regular) == c
  {
    if c.substitution.Some? then Ok(c)
    else
      match SlotFor(slots, c.classId)
      case None => Err(NoSlot(c.classId))
      case Some(slot) =>
        if c.location.None? then Err(NoLocation(c.classId))
        else
          match RegularText(slot.classNames, c.location.value)
          case None => Err(EmptySlot(c.classId))
          case Some(text) => Ok(c.(regular := Some(text)))
  }

  /** What one pass makes of a change without a substitution: the description
      of the period's classes in the change's rooms, or the error naming the
      first thing missing (the period, then the location, then the classes). */
  lemma AnnotateOneOutcomes(c: ChangeView, slots: seq<SlotView>)
    ensures var r := AnnotateOne(c, slots);
      && (r.Ok? && c.substitution.None? ==>
            && SlotFor(slots, c.classId).Some? && c.location.Some?
            && r.value.regular == RegularText(SlotFor(slots, c.classId).value.classNames, c.location.value))
      && (r == Err(NoSlot(c.classId)) <==> c.substitution.None? && SlotFor(slots, c.classId).None?)
      && (r == Err(NoLocation(c.classId)) <==>
            c.substitution.None? && SlotFor(slots, c.classId).Some? && c.location.None?)
      && (r == Err(EmptySlot(c.classId)) <==>
            && c.substitution.None? && SlotFor(slots, c.classId).Some? && c.location.Some?
            && SlotFor(slots, c.classId).value.classNames == [])
  {
  }

  /** A loop over `xs` that applies `f` to each element in order and stops at
      the first failure: every result, or the first error. */
  function TryEach<T, U, E>(xs: seq<T>, f: T -> Result<U, E>): (r: Result<seq<U>, E>)
    ensures r.Ok? <==> forall k :: 0 <= k < |xs| ==> f(xs[k]).Ok?
    ensures r.Ok? ==> |r.value| == |xs|
    ensures r.Ok? ==> forall k :: 0 <= k < |xs| ==> f(xs[k]) == Ok(r.value[k])
    decreases |xs|
  {
    if xs == [] then Ok([])
    else
      var last := |xs| - 1;
      match TryEach(xs[..last], f)
      case Err(e) => Err(e)
      case Ok(done) =>
        match f(xs[last])
        case Err(e) => Err(e)
        case Ok(y) => Ok(done + [y])
  }

  /** A failing loop fails with the error of the first element that fails. */
  lemma {:induction false} TryEachStopsAtFirstFailure<T, U, E>(xs: seq<T>, f: T -> Result<U, E>)
    requires TryEach(xs, f).Err?
    ensures exists k :: (0 <= k < |xs| && f(xs[k]) == Err(TryEach(xs, f).error)
      && forall j :: 0 <= j < k ==> f(xs[j]).Ok?)
    decreases |xs|
  {
    var last := |xs| - 1;
    var front := xs[..last];
    if TryEach(front, f).Err? {
      TryEachStopsAtFirstFailure(front, f);
      var k :| 0 <= k < |front| && f(front[k]) == Err(TryEach(front, f).error)
        && forall j :: 0 <= j < k ==> f(front[j]).Ok?;
      assert xs[k] == front[k];
      assert forall j :: 0 <= j < k ==> xs[j] == front[j];
    } else {
      assert forall j :: 0 <= j < last ==> xs[j] == front[j];
    }
  }

  /** Once the loop has failed on some element, later elements do not matter. */
  lemma {:induction false} TryEachKeepsFirstError<T, U, E>(xs: seq<T>, f: T -> Result<U, E>, i: nat)
    requires i <= |xs| && TryEach(xs[..i], f).Err?
    ensures TryEach(xs, f) == TryEach(xs[..i], f)
    decreases |xs|
  {
    if i < |xs| {
      var last := |xs| - 1;
      assert xs[..last][..i] == xs[..i];
      TryEachKeepsFirstError(xs[..last], f, i);
    } else {
      assert xs[..i] == xs;
    }
  }

  function AnnotateWith(slots: seq<SlotView>): ChangeView -> Result<ChangeView, DigestError> {
    (c: ChangeView) => AnnotateOne(c, slots)
  }

  /** The merge loop over the day's changes: every change annotated in order,
      or the error of the first change that fails. */
  function Annotated(cs: seq<ChangeView>, slots: seq<SlotView>): (r: Result<seq<ChangeView>, DigestError>)
    ensures r.Ok? <==> forall k :: 0 <= k < |cs| ==> AnnotateOne(cs[k], slots).Ok?
    ensures r.Ok? ==> |r.value| == |cs|
    ensures r.Ok? ==> forall k :: 0 <= k < |cs| ==> AnnotateOne(cs[k], slots) == Ok(r.value[k])
  {
    TryEach(cs, AnnotateWith(slots))
  }

  /** When the merge loop fails, it fails with the error of the first change
      it cannot describe; every change before it could be described. */
  lemma AnnotatedStopsAtFirstFailure(cs: seq<ChangeView>, slots: seq<SlotView>)
    requires Annotated(cs, slots).Err?
    ensures exists k :: (0 <= k < |cs| && AnnotateOne(cs[k], slots) == Err(Annotated(cs, slots).error)
      && forall j :: 0 <= j < k ==> AnnotateOne(cs[j], slots).Ok?)
  {
    TryEachStopsAtFirstFailure(cs, AnnotateWith(slots));
  }

  /** A string without '/' does not let the separator start inside it. */
  lemma NoSlashEndsCleanly(x: string)
    requires '/' !in x
    ensures EndsCleanly(x, Separator)
  {
    forall k | 0 <= k < |x|
      ensures !(Separator <= (x + Separator)[k..])
    {
      var t := (x + Separator)[k..];
      assert t[1] == (x + Separator)[k + 1];
      if k + 1 < |x| {
        assert t[1] == x[k + 1];
      } else {
        assert t[1] == ' ';
      }
    }
  }

  /** When neither the class names nor the rooms contain '/', the description
      splits back into exactly one fragment per class of the period, in
      period order, however many rooms the change lists. */
  lemma RegularTextSplitsIntoFragments(names: seq<string>, location: string)
    requires names != []
    requires forall n :: 0 <= n < |names| ==> '/' !in names[n]
    requires forall room :: room in Split(location, Separator) ==> '/' !in room
    ensures RegularText(names, location).Some?
    ensures Split(RegularText(names, location).value, Separator) == Fragments(names, Split(location, Separator))
    ensures |Split(RegularText(names, location).value, Separator)| == |names|
  {
    var rooms := Split(location, Separator);
    var frags := Fragments(names, rooms);
    forall k | 0 <= k < |frags|
      ensures EndsCleanly(frags[k], Separator)
    {
      var room := Segment(rooms, k);
      assert '/' !in room by {
        if k < |rooms| {
          assert rooms[k] in rooms;
        } else {
          assert room == "undefined";
        }
      }
      assert frags[k] == names[k] + " (" + room + ")";
      NoSlashEndsCleanly(frags[k]);
    }
    SplitReduce(frags, Separator);
  }

  /** A period with one class and a change with one room is described as
      "name (room)". */
  lemma OneClassOneRoom(name: string, location: string)
    requires forall k :: 0 <= k < |location| ==> !(Separator <= location[k..])
    ensures RegularText([name], location) == Some(name + " (" + location + ")")
  {
    SplitWithoutSeparator(location, Separator);
  }

  /** Once the loop has failed on some change, later changes do not matter. */
  lemma AnnotatedKeepsFirstError(cs: seq<ChangeView>, slots: seq<SlotView>, i: nat)
    requires i <= |cs| && Annotated(cs[..i], slots).Err?
    ensures Annotated(cs, slots) == Annotated(cs[..i], slots)
  {
    TryEachKeepsFirstError(cs, AnnotateWith(slots), i);
  }

  /** Lines 199-206: split the location, push one fragment per class, reduce. */
  method RegularOf(names: seq<string>, location: string) returns (r: Option<string>)
    ensures r == RegularText(names, location)
  {
    var locations := Split(location, Separator);
    var strings: seq<string> := [];
    for n := 0 to |names|
      invariant strings == Fragments(names[..n], locations)
    {
      strings := strings + [Fragment(names[n], Segment(locations, n))];
      assert strings == Fragments(names[..n + 1], locations);
    }
    assert names[..|names|] == names;
    if strings == [] {
      return None;
    }
    var acc := strings[0];
    for k := 1 to |strings|
      invariant JoinFrom(acc, strings[k..], Separator) == JoinFrom(strings[0], strings[1..], Separator)
    {
      assert strings[k..][1..] == strings[k + 1..];
      acc := acc + Separator + strings[k];
    }
    return Some(acc);
  }

  /** Lines 195-208: the loop that adds `regular` to every change without a
      substitution, in place. It stops at the first change it cannot
      describe. */
  method AnnotateRegular(changes: array<ChangeView>, slots: seq<SlotView>) returns (err: Option<DigestError>)
    modifies changes
    ensures err.None? ==> Annotated(old(changes[..]), slots) == Ok(changes[..])
    ensures err.Some? ==> Annotated(old(changes[..]), slots) == Err(err.value)
  {
    ghost var before := changes[..];
    for i := 0 to changes.Length
      invariant changes[i..] == before[i..]
      invariant Annotated(before[..i], slots) == Ok(changes[..i])
    {
      var c := changes[i];
      assert c == before[i];
      assert before[..i + 1][..i] == before[..i];
      if c.substitution.None? {
        var slot := SlotFor(slots, c.classId);
        if slot.None? {
          AnnotatedKeepsFirstError(before, slots, i + 1);
          return Some(NoSlot(c.classId));
        }
        if c.location.None? {
          AnnotatedKeepsFirstError(before, slots, i + 1);
          return Some(NoLocation(c.classId));
        }
        var text := RegularOf(slot.value.classNames, c.location.value);
        if text.None? {
          AnnotatedKeepsFirstError(before, slots, i + 1);
          return Some(EmptySlot(c.classId));
        }
        changes[i] := c.(regular := text);
      }
      assert changes[..i + 1] == changes[..i] + [changes[i]];
    }
    assert before[..changes.Length] == before;
    assert changes[..changes.Length] == changes[..];
    return None;
  }

  // ----- the three jobs

  /** What `changesUpdate` does with the next business day's changes. */
  datatype ChangesDigest =
    | ChangesFailed(error: DigestError)
    | NoChanges
    | ChangesSent(date: Date, recipients: seq<string>, changes: seq<ChangeView>)

  /** The day's changes as `getChanges` hands them to the job: dated `date`,
      by ascending period number, with class references populated. */
  function ChangesOfDay(db: Db, date: Date): (r: seq<ChangeView>)
    ensures |r| == |GetChanges(db.changes, date)|
    ensures r == [] <==> forall c :: c in db.changes ==> c.date != date
    ensures forall k :: 0 <= k < |r| ==> r[k].date == date && r[k].regular.None?
    ensures forall i, j :: 0 <= i < j < |r| ==> r[i].classId <= r[j].classId
    ensures forall k :: 0 <= k < |r| ==>
      && r[k].id == GetChanges(db.changes, date)[k].id
      && r[k].classId == GetChanges(db.changes, date)[k].classId
      && r[k].changed == PopulateRef(GetChanges(db.changes, date)[k].changed, db.classes)
      && r[k].substitution == PopulateRef(GetChanges(db.changes, date)[k].substitution, db.classes)
      && r[k].location == GetChanges(db.changes, date)[k].location
  {
    GetChangesAreDated(db.changes, date);
    PopulateChanges(GetChanges(db.changes, date), db.classes)
  }

  /** Every change `getChanges` returns is dated `date`, and it returns none
      exactly when no change is. */
  lemma GetChangesAreDated(changes: seq<Change>, date: Date)
    ensures forall k :: 0 <= k < |GetChanges(changes, date)| ==> GetChanges(changes, date)[k].date == date
    ensures GetChanges(changes, date) == [] <==> forall c :: c in changes ==> c.date != date
  {
    var found := GetChanges(changes, date);
    forall k | 0 <= k < |found|
      ensures found[k].date == date
    {
      assert found[k] in found;
    }
    if found != [] {
      assert found[0] in found;
    }
  }

  /** The merge loop changes nothing of a change but its `regular` field: in
      particular it keeps every change's `_id`, date and period number. */
  lemma AnnotatedKeepsKeys(cs: seq<ChangeView>, slots: seq<SlotView>)
    requires Annotated(cs, slots).Ok?
    ensures var done := Annotated(cs, slots).value;
      forall k :: 0 <= k < |cs| ==>
        && done[k].(regular := cs[k].regular) == cs[k]
        && done[k].id == cs[k].id && done[k].date == cs[k].date && done[k].classId == cs[k].classId
  {
    var done := Annotated(cs, slots).value;
    forall k | 0 <= k < |cs|
      ensures done[k].(regular := cs[k].regular) == cs[k]
    {
      assert AnnotateOne(cs[k], slots) == Ok(done[k]);
    }
  }

  /** The merge loop over populated changes leaves each one as populated,
      with only `regular` added. */
  lemma AnnotatedKeepsPopulated(found: seq<Change>, classes: ClassNames, slots: seq<SlotView>)
    requires Annotated(PopulateChanges(found, classes), slots).Ok?
    ensures var done := Annotated(PopulateChanges(found, classes), slots).value;
      && |done| == |found|
      && forall k :: 0 <= k < |done| ==>
           && done[k].id == found[k].id && done[k].date == found[k].date
           && done[k].classId == found[k].classId
           && done[k].(regular := None) == PopulateChange(found[k], classes)
  {
    var cs := PopulateChanges(found, classes);
    var done := Annotated(cs, slots).value;
    AnnotatedKeepsKeys(cs, slots);
    forall k | 0 <= k < |done|
      ensures done[k].(regular := None) == PopulateChange(found[k], classes)
    {
      assert cs[k] == PopulateChange(found[k], classes);
      assert done[k].(regular := cs[k].regular) == cs[k];
    }
  }

  /** The merge loop over changes dated `date` and sorted by period number
      leaves them dated `date` and sorted. */
  lemma AnnotatedKeepsOrder(found: seq<Change>, classes: ClassNames, slots: seq<SlotView>, date: Date)
    requires Annotated(PopulateChanges(found, classes), slots).Ok?
    requires forall k :: 0 <= k < |found| ==> found[k].date == date
    requires forall i, j :: 0 <= i < j < |found| ==> found[i].classId <= found[j].classId
    ensures var done := Annotated(PopulateChanges(found, classes), slots).value;
      && |done| == |found|
      && (forall k :: 0 <= k < |done| ==> done[k].date == date)
      && (forall i, j :: 0 <= i < j < |done| ==> done[i].classId <= done[j].classId)
      && (forall k :: 0 <= k < |done| ==>
            done[k].id == found[k].id && done[k].(regular := None) == PopulateChange(found[k], classes))
  {
    AnnotatedKeepsPopulated(found, classes, slots);
  }

  /** A digest that is sent lists the day's changes, all of them, in order of
      period number: the k-th sent change is the k-th change `getChanges`
      returns, populated, with `regular` added. */
  lemma SentChangesAreTheDays(db: Db, slots: seq<SlotView>, date: Date)
    requires Annotated(ChangesOfDay(db, date), slots).Ok?
    ensures var sent := Annotated(ChangesOfDay(db, date), slots).value;
      && |sent| == |GetChanges(db.changes, date)|
      && (forall k :: 0 <= k < |sent| ==> sent[k].date == date)
      && (forall i, j :: 0 <= i < j < |sent| ==> sent[i].classId <= sent[j].classId)
      && (forall k :: 0 <= k < |sent| ==>
            && sent[k].id == GetChanges(db.changes, date)[k].id
            && sent[k].(regular := None) == PopulateChange(GetChanges(db.changes, date)[k], db.classes))
  {
    var found := GetChanges(db.changes, date);
    GetChangesAreDated(db.changes, date);
    assert ChangesOfDay(db, date) == PopulateChanges(found, db.classes);
    AnnotatedKeepsOrder(found, db.classes, slots, date);
  }

  /** What `changesUpdate` decides: it looks the timetable up before it checks
      for changes, so a day without a timetable fails even when it has no
      changes. */
  function ChangesOutcome(db: Db, cal: Calendar, today: Date): (r: ChangesDigest)
    ensures var date := cal.addBusinessDays(today, 1);
      GetSchedule(db, cal, date).None? ==> r == ChangesFailed(NoTimetable)
    ensures var date := cal.addBusinessDays(today, 1);
      r == NoChanges <==> GetSchedule(db, cal, date).Some? && ChangesOfDay(db, date) == []
    ensures var date := cal.addBusinessDays(today, 1);
      r.ChangesSent? ==>
        && r.date == date
        && r.recipients == GetSubscribers(db.subscribers, "changes")
        && GetSchedule(db, cal, date).Some?
        && Annotated(ChangesOfDay(db, date), GetSchedule(db, cal, date).value) == Ok(r.changes)
    ensures var date := cal.addBusinessDays(today, 1);
      r.ChangesFailed? && GetSchedule(db, cal, date).Some? ==>
        Annotated(ChangesOfDay(db, date), GetSchedule(db, cal, date).value) == Err(r.error)
  {
    var date := cal.addBusinessDays(today, 1);
    match GetSchedule(db, cal, date)
    case None => ChangesFailed(NoTimetable)
    case Some(slots) =>
      var changes := ChangesOfDay(db, date);
      if changes == [] then NoChanges
      else
        match Annotated(changes, slots)
        case Ok(done) => ChangesSent(date, GetSubscribers(db.subscribers, "changes"), done)
        case Err(e) => ChangesFailed(e)
  }

  /** `changesUpdate`: fetches the day's changes and timetable, then runs the
      merge loop over the changes in place. */
  method ChangesUpdate(db: Db, cal: Calendar, today: Date) returns (r: ChangesDigest)
    ensures r == ChangesOutcome(db, cal, today)
  {
    var date := cal.addBusinessDays(today, 1);
    var changes := ChangesOfDay(db, date);
    var schedule := GetSchedule(db, cal, date);
    if schedule.None? {
      return ChangesFailed(NoTimetable);
    }
    if |changes| < 1 {
      return NoChanges;
    }
    var receivers := GetSubscribers(db.subscribers, "changes");
    var merged := MergeRegular(changes, schedule.value);
    match merged
    case Err(e) => return ChangesFailed(e);
    case Ok(done) => return ChangesSent(date, receivers, done);
  }

  /** The fetched changes copied into an array and run through the merge loop. */
  method MergeRegular(changes: seq<ChangeView>, slots: seq<SlotView>) returns (r: Result<seq<ChangeView>, DigestError>)
    ensures r == Annotated(changes, slots)
  {
    var arr := new ChangeView[|changes|](k requires 0 <= k < |changes| => changes[k]);
    assert arr[..] == changes;
    var err := AnnotateRegular(arr, slots);
    if err.Some? {
      return Err(err.value);
    }
    return Ok(arr[..]);
  }

  /** What `weeklyUpdate` sends: it has no emptiness check. */
  datatype WeeklyDigest = WeeklyDigest(fromDate: Date, toDate: Date, notes: seq<Note>, exams: seq<Exam>, recipients: seq<string>)

  /** `weeklyUpdate`: the notes and exams from the next business day to four
      business days after it, for every weekly subscriber, even when both
      lists are empty. */
  function WeeklyUpdate(db: Db, cal: Calendar, today: Date): (r: WeeklyDigest)
    ensures r.fromDate == cal.addBusinessDays(today, 1) && r.toDate == cal.addBusinessDays(r.fromDate, 4)
    ensures forall n :: n in r.notes <==> n in db.notes && ReminderIn(n, r.fromDate, r.toDate)
    ensures forall e :: e in r.exams <==> e in db.exams && r.fromDate <= e.date <= r.toDate
    ensures forall e :: e in r.recipients <==>
      exists s :: s in db.subscribers && "weekly" in s.subscription && s.email == e
    ensures r.notes == GetNotes(db.notes, r.fromDate, r.toDate)
    ensures r.exams == GetExams(db.exams, r.fromDate, r.toDate)
    ensures r.recipients == GetSubscribers(db.subscribers, "weekly")
  {
    var from := cal.addBusinessDays(today, 1);
    var to := cal.addBusinessDays(from, 4);
    WeeklyDigest(from, to, GetNotes(db.notes, from, to), GetExams(db.exams, from, to), GetSubscribers(db.subscribers, "weekly"))
  }

  /** What `dailyExams` does with the next business day's exams. */
  datatype ExamsDigest = NoExams | ExamsSent(date: Date, recipients: seq<string>, exams: seq<Exam>)

  /** `dailyExams`: the exams of the next business day only, or nothing (and no
      recipient lookup) when there are none. */
  function DailyExams(db: Db, cal: Calendar, today: Date): (r: ExamsDigest)
    ensures var date := cal.addBusinessDays(today, 1);
      r.NoExams? <==> forall e :: e in db.exams ==> e.date != date
    ensures r.ExamsSent? ==> r.date == cal.addBusinessDays(today, 1)
    ensures r.ExamsSent? ==> forall e :: e in r.exams <==> e in db.exams && e.date == r.date
    ensures r.ExamsSent? ==> forall e :: e in r.recipients <==>
      exists s :: s in db.subscribers && "exams" in s.subscription && s.email == e
    ensures r.ExamsSent? ==>
      r.exams == GetExams(db.exams, r.date, r.date) && r.recipients == GetSubscribers(db.subscribers, "exams")
  {
    var date := cal.addBusinessDays(today, 1);
    var exams := GetExams(db.exams, date, date);
    if |exams| < 1 then NoExams
    else
      assert exams[0] in exams;
      ExamsSent(date, GetSubscribers(db.subscribers, "exams"), exams)
  }
}
