/** routes/schedule.js: the timetables, one per week parity and day name. */
module Schedules {
  import opened Common
  import opened Query
  import opened Models
  import Mail

  /** The body of `POST /`; a missing `classes` array is stored empty. */
  datatype ScheduleRequest = ScheduleRequest(day: Option<string>, week: Option<string>, classes: seq<Slot>)

  /** The day names the `isIn` check of `POST /` accepts, as written: the
      list leaves out Friday ("petak"). */
  const PostedDaysAsWritten: seq<string> := ["ponedjeljak", "utorak", "srijeda", "četvrtak", "subota", "nedjelja"]

  /** The day names evidently intended: every day of the week. */
  const PostedDays: seq<string> := ["ponedjeljak", "utorak", "srijeda", "četvrtak", "petak", "subota", "nedjelja"]

  /** The school days, Monday to Friday, as the calendar names them. */
  const SchoolDays: seq<string> := ["ponedjeljak", "utorak", "srijeda", "četvrtak", "petak"]

  /** The week parities the `isIn` check of `POST /` accepts. */
  const Parities: seq<string> := ["parni", "neparni"]

  predicate AcceptsAsWritten(req: ScheduleRequest) {
    req.day.Some? && req.day.value in PostedDaysAsWritten && req.week.Some? && req.week.value in Parities
  }

  predicate Accepts(req: ScheduleRequest) {
    req.day.Some? && req.day.value in PostedDays && req.week.Some? && req.week.value in Parities
  }

  /** As written, no timetable for Friday can be created. */
  lemma FridayIsRejected(req: ScheduleRequest)
    requires req.day == Some("petak")
    ensures !AcceptsAsWritten(req)
  {
    assert "petak" != "ponedjeljak" && "petak" != "utorak" && "petak" != "srijeda";
    assert "petak" != "četvrtak" && "petak" != "subota" && "petak" != "nedjelja";
  }

  /** With the corrected list, a timetable can be created for every school day
      and both parities, and whatever the list as written accepts stays accepted. */
  lemma EverySchoolDayIsAccepted(req: ScheduleRequest)
    ensures req.day.Some? && req.day.value in SchoolDays && req.week.Some? && req.week.value in Parities ==>
      Accepts(req)
    ensures AcceptsAsWritten(req) ==> Accepts(req)
  {
  }

  /** The parity labels `Mail.WeekLabel` looks timetables up by are the ones
      `POST /` accepts. */
  lemma ParitiesMatchTheMailJob(week: nat)
    ensures Mail.WeekLabel(week) in Parities
  {
  }

  function WeekDay(week: string, day: string): Schedule -> bool {
    (s: Schedule) => s.week == week && s.day == day
  }

  /** `GET /:week/:day`: the periods of the first timetable in store order for
      that parity and day name, whatever its validity dates; None answers with
      a message. */
  function DaySchedule(schedules: seq<Schedule>, week: string, day: string): (r: Option<seq<Slot>>)
    ensures r.None? <==> forall s :: s in schedules ==> !(s.week == week && s.day == day)
    ensures r.Some? ==> exists s :: s in schedules && s.week == week && s.day == day && s.classes == r.value
  {
    match First(schedules, WeekDay(week, day))
    case None => None
    case Some(s) => Some(s.classes)
  }

  /** A new timetable is only served by `GET /:week/:day` when no earlier one
      has its parity and day name. */
  lemma EarlierTimetableWins(schedules: seq<Schedule>, s: Schedule, week: string, day: string)
    ensures DaySchedule(schedules + [s], week, day) ==
      if DaySchedule(schedules, week, day).Some? then DaySchedule(schedules, week, day)
      else if s.week == week && s.day == day then Some(s.classes)
      else None
  {
    FirstAppend(schedules, s, WeekDay(week, day));
  }

  /** A timetable created through `POST /` has no validity dates, so the mail
      job's lookup never picks it: adding it changes no date's timetable. */
  lemma PostedTimetableIsNeverInEffect(schedules: seq<Schedule>, s: Schedule, cal: Calendar, date: Date)
    requires s.validFrom.None?
    ensures Mail.ScheduleFor(schedules + [s], cal, date) == Mail.ScheduleFor(schedules, cal, date)
  {
    var week, day := Mail.WeekLabel(cal.getWeek(date)), cal.dayName(date);
    EarliestIgnoresNonMatching(schedules, s, Mail.InEffectOn(week, day, date), Mail.UntilKey);
  }

  datatype PostAnswer = Rejected | Created(schedule: Schedule)

  /** The `schedules` collection. */
  class ScheduleTable {
    var schedules: seq<Schedule>
    var nextId: DocId

    /** Every timetable has its own `_id`, below the next one to hand out. */
    ghost predicate Valid()
      reads this
    {
      && (forall i :: 0 <= i < |schedules| ==> schedules[i].id < nextId)
      && (forall i, j :: 0 <= i < j < |schedules| ==> schedules[i].id != schedules[j].id)
    }

    constructor ()
      ensures Valid() && schedules == []
    {
      schedules, nextId := [], 0;
    }

    /** `POST /` as evidently intended: checks the day name and the parity,
        then stores a timetable without validity dates. */
    method Post(req: ScheduleRequest) returns (answer: PostAnswer)
      requires Valid()
      modifies this
      ensures Valid()
      ensures answer.Rejected? <==> !Accepts(req)
      ensures answer.Rejected? ==> schedules == old(schedules)
      ensures answer.Created? ==>
        && answer.schedule == Schedule(answer.schedule.id, req.week.value, req.day.value, req.classes, None, None)
        && schedules == old(schedules) + [answer.schedule]
        && forall s :: s in old(schedules) ==> s.id != answer.schedule.id
    {
      if !Accepts(req) {
        return Rejected;
      }
      var s := Schedule(nextId, req.week.value, req.day.value, req.classes, None, None);
      schedules := schedules + [s];
      nextId := nextId + 1;
      return Created(s);
    }

    /** `POST /` as written: the same, with Friday missing from the day names. */
    method PostAsWritten(req: ScheduleRequest) returns (answer: PostAnswer)
      requires Valid()
      modifies this
      ensures Valid()
      ensures answer.Rejected? <==> !AcceptsAsWritten(req)
      ensures answer.Rejected? ==> schedules == old(schedules)
      ensures answer.Created? ==>
        && answer.schedule == Schedule(answer.schedule.id, req.week.value, req.day.value, req.classes, None, None)
        && schedules == old(schedules) + [answer.schedule]
        && answer.schedule.day != "petak"
    {
      if !AcceptsAsWritten(req) {
        return Rejected;
      }
      var s := Schedule(nextId, req.week.value, req.day.value, req.classes, None, None);
      schedules := schedules + [s];
      nextId := nextId + 1;
      return Created(s);
    }
  }
}
