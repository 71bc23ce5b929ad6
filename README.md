# raspored_api, modelled in Dafny

raspored_api is the back end of a school timetable service. It has two parts:

- **Route handlers** that keep collections of breaks, notifications, timetable changes, exams, subscribers and timetables.
- **Scheduled mail jobs** that send digests to subscribers:
  - the week's notes and exams;
  - the next business day's timetable changes;
  - the next business day's exams.

This project models the mail jobs of `mail/index.js` and the handlers of `routes/breaks.js`, `notifications.js`, `changes.js`, `exams.js`, `subscribers.js` and `schedule.js`.

The Dafny modules:

- `Common` and `Query` (`common.dfy`):
  - dates as day numbers;
  - JavaScript truthiness of request fields;
  - the calendar library as a value of function fields (`getWeek`, the Croatian day name, `addBusinessDays`);
  - the store queries the code relies on: filter, stable sort by a key, `findOne` with and without a sort, removal.
- `Text` (`text.dfy`): `String.split` and `Array.reduce` on strings, with the round-trip lemmas between them.
- `Models` (`models.dfy`):
  - the stored documents;
  - what `populate` makes of class references.
- `Mail` (`mail.dfy`):
  - the digest queries;
  - the timetable in effect on a date;
  - the loop that describes the regular classes of a cancelled period;
  - the three jobs, each returning what it would send and to whom.
- `Breaks`, `Notifications`, `Changes`, `Exams`, `Subscribers`, `Schedules`: one module per route file.
  - Each collection is a class with a `seq` field and the next `_id` to hand out.
  - Each handler that writes is a method on that class.
  - Each handler that only reads is a function on the sequence.

The clock ("today"), the mail transport's outcome, `uuid()` and the request validators are parameters.

## Model

| member | source | states |
|---|---|---|
| Mail.GetNotes | mail/index.js:15-39 | exactly the notes whose reminder lies in `[from, to]`, each as often as stored, in ascending reminder order |
| Mail.GetExams | mail/index.js:41-65 | exactly the exams dated in `[from, to]`, each as often as stored, in ascending date order |
| Mail.GetChanges | mail/index.js:67-80 | exactly the changes dated `date`, each as often as stored, in ascending period number |
| Mail.GetSubscribers | mail/index.js:82-90 | one address per subscriber whose subscription lists the tag, in store order (the `map` over the `find`); an address is returned iff some subscriber with that address lists the tag |
| Mail.WeekLabel | mail/index.js:93 | the label is "parni" exactly when the week number is even, otherwise "neparni" |
| Mail.ScheduleFor | mail/index.js:92-106 | none iff no timetable of the date's parity and day name has a validity containing the date; otherwise such a timetable whose `validUntil` is no later than any other's |
| Mail.GetSchedule | mail/index.js:92-115 | fails (the null `.classes` read) exactly when no timetable is in effect; otherwise one populated period per period of that timetable, same numbers, same order |
| Mail.Fragments | mail/index.js:202-204 | one fragment per class of the period, in order; a class beyond the last room gets "undefined"; extra rooms are ignored |
| Mail.RegularText | mail/index.js:199-206 | the reduce fails exactly when the period has no classes |
| Mail.SlotFor | mail/index.js:197 | none iff no period has the change's number; otherwise the first period with that number |
| Mail.AnnotateOne | mail/index.js:196-207 | a change with a substitution is left as it is; a success changes nothing but `regular` |
| Mail.AnnotateOneOutcomes | mail/index.js:196-206 | on success `regular` is the description of the matched period's classes in the change's rooms; the missing period, the missing location and the empty class list each fail exactly in their case |
| Mail.TryEach | mail/index.js:195-208 | a loop that stops at the first failure: succeeds iff every element succeeds, and then yields each element's result in order |
| Mail.TryEachStopsAtFirstFailure | mail/index.js:195-208 | a failing loop fails with the error of the first failing element, and every earlier element succeeds |
| Mail.TryEachKeepsFirstError | mail/index.js:195-208 | once a prefix has failed, later elements do not change the outcome |
| Mail.Annotated | mail/index.js:195-208 | the merge loop succeeds iff every change can be described; the result keeps the number and order of changes, each one as one pass makes it |
| Mail.AnnotatedStopsAtFirstFailure | mail/index.js:195-208 | the merge loop fails with the error of the first change it cannot describe |
| Mail.AnnotatedKeepsFirstError | mail/index.js:195-208 | after a failure, the remaining changes do not matter |
| Mail.AnnotatedKeepsKeys | mail/index.js:195-208 | the loop changes nothing of a change but `regular`: each change keeps its `_id`, date, period number, populated names and rooms |
| Mail.AnnotatedKeepsPopulated | mail/index.js:195-208 | over populated changes, the loop keeps each one's `_id`, date and period number and adds only `regular` to what populating made of it |
| Mail.AnnotatedKeepsOrder | mail/index.js:188-208 | changes that are all dated one day and sorted by period number stay so through the loop, one for one |
| Mail.RegularOf | mail/index.js:199-206 | the split, push and reduce steps compute `RegularText` |
| Mail.AnnotateRegular | mail/index.js:195-208 | the in-place loop over the array leaves exactly the result of `Annotated`, or returns the error it reports |
| Mail.MergeRegular | mail/index.js:195-208 | copying the changes into an array and running the loop yields `Annotated` |
| Mail.RegularTextSplitsIntoFragments | mail/index.js:199-206 | without '/' in names and rooms, the description splits back into exactly one fragment per class, in period order |
| Mail.OneClassOneRoom | mail/index.js:199-206 | one class and one room give "name (room)" |
| Mail.PopulateChanges | mail/index.js:67-77 | populating keeps the number, order, `_id`, date, period number and rooms of the changes, and replaces `changed` and `substitution` by the class name, or null when the reference is absent or dangling |
| Mail.ChangesOfDay | mail/index.js:188 | the fetched changes are those of `getChanges`, one for one and in its order: the same `_id`, period number and rooms, with `changed` and `substitution` populated; all are dated `date`, sorted by period number; there are none exactly when no stored change has that date |
| Mail.GetChangesAreDated | mail/index.js:67-80 | every change `getChanges` returns has the date; it returns none exactly when no change does |
| Mail.SentChangesAreTheDays | mail/index.js:188-219 | the k-th sent change is the k-th change `getChanges` returns for the day (same `_id`), populated and with only `regular` added; so the digest holds each of the day's changes as often as stored, dated that day, by period number |
| Mail.ChangesOutcome | mail/index.js:184-229 | no timetable fails the job even with no changes; "no changes" exactly when a timetable exists and the day has none; a sent digest goes to the "changes" subscribers with the merged changes of the next business day; a failure carries the loop's first error |
| Mail.ChangesUpdate | mail/index.js:184-229 | the job as the code runs it (lookups, early returns, the loop over an array) decides `ChangesOutcome` |
| Mail.WeeklyUpdate | mail/index.js:148-182 | the window runs from one business day after today to four business days after that; the notes, exams and "weekly" recipients are exactly those of the window, sent even when both lists are empty; the notes and exams are those of `GetNotes` and `GetExams`, so each is in ascending order with its multiplicity |
| Mail.DailyExams | mail/index.js:231-260 | nothing is sent iff no exam is dated the next business day; otherwise exactly that day's exams, as `GetExams` orders them, go to the "exams" subscribers |
| Text.Split | mail/index.js:199 | the split of a string is never empty; its meaning is carried by `Text.JoinSplit`, `Text.SplitReduce` and `Text.SplitWithoutSeparator` |
| Text.SplitWithoutSeparator | mail/index.js:199 | a string without the separator splits into itself alone |
| Query.Filter | routes/changes.js:67-69 | `find(p)`: exactly the elements that match, each as often as stored, every one matching |
| Query.SortBy | routes/breaks.js:97 | `.sort({key: 1})`: the same elements with the same multiplicity, in ascending key order |
| Query.FindSorted | mail/index.js:42-61 | `find(p).sort({key: 1})`: exactly the matches, each as often as stored, in ascending key order |
| Query.Earliest | routes/breaks.js:64-71 | `findOne(p).sort({key: 1})`: none iff nothing matches; otherwise a match whose key no other match undercuts |
| Query.First | routes/notifications.js:13-20 | `findOne(p)`: none iff nothing matches; otherwise the first match in store order |
| Query.Map | mail/index.js:87 | `map(f)`: one image per element, in order |
| Text.Reduce | mail/index.js:206 | reducing without an initial value fails exactly on an empty array; one element is returned as it is |
| Text.JoinSplit | mail/index.js:199 | reducing the pieces of a split with the same separator gives back the string |
| Text.SplitReduce | mail/index.js:199-206 | splitting a reduce of pieces that contain no separator gives back the pieces |
| Models.PopulateRef | mail/index.js:71-75 | a populated reference is the referenced class's name, or null when the reference is absent or dangling |
| Models.PopulateRefs | mail/index.js:107-111 | with no dangling reference there is one name per reference, in order; with only dangling ones there is none |
| Models.PopulateRefsKeepsResolving | mail/index.js:107-111 | in general, the populated names are those of the resolving references, one each, in order, and dangling references are dropped |
| Breaks.BreakOn | routes/breaks.js:54-83 | the message answer iff no break contains the date; otherwise a stored break containing it, ending no later than any other that does |
| Breaks.AllBreaks | routes/breaks.js:89-109 | every break, as often as stored, in ascending `validUntil` order |
| Breaks.InvertedBreakIsNeverFound | routes/breaks.js:19-21 | a break stored with its end before its start, which POST accepts, never changes a date's answer |
| Breaks.BreakTable.Post | routes/breaks.js:14-48 | rejected iff a required field is empty, and then nothing is stored; otherwise exactly one break with the given fields and a new `_id` is appended and returned |
| Notifications.NotificationOn | routes/notifications.js:12-23 | none (the `{}` answer) iff no notification's range contains the date; otherwise a stored one whose range does |
| Notifications.IndexOfId | routes/notifications.js:175 | none iff no notification has the `_id`; otherwise where it is stored |
| Notifications.NotificationById | routes/notifications.js:112-128 | none iff no notification has the `_id`; otherwise the stored one with it |
| Notifications.Patch | routes/notifications.js:164-172 | each truthy field of the body replaces the stored one; the others and the `_id` stay |
| Notifications.PatchIsIdempotent | routes/notifications.js:164-183 | sending the same update twice stores what sending it once does |
| Notifications.EmptyPatchChangesNothing | routes/notifications.js:168-172 | a body without a truthy field changes nothing |
| Notifications.UpdateIsVisible | routes/notifications.js:181-185 | after an update, looking up the `_id` yields the updated notification |
| Notifications.DeleteRemovesTheId | routes/notifications.js:142-151 | after a deletion no notification has the `_id`, and `_id`s stay unique |
| Notifications.NotificationTable.Post | routes/notifications.js:25-62 | rejected iff a required field is empty, and then nothing changes; otherwise one notification with the given fields is appended and the whole collection is answered |
| Notifications.NotificationTable.All | routes/notifications.js:90-106 | the whole collection in store order |
| Notifications.NotificationTable.Put | routes/notifications.js:164-190 | 404 and no change iff the `_id` is unknown; otherwise only that notification is replaced by its patch, which is returned and found by `_id` |
| Notifications.NotificationTable.Delete | routes/notifications.js:134-158 | the message and no change iff the `_id` is unknown; otherwise exactly that notification is removed |
| Changes.ChangesOn | routes/changes.js:59-83 | exactly the changes dated `date`, each as often as stored |
| Changes.IndexOfId | routes/changes.js:139 | none iff no change has the `_id`; otherwise where it is stored |
| Changes.Patch | routes/changes.js:129-136 | a truthy period number, class references and rooms replace the stored ones; the date and `_id` never change |
| Changes.PostTouchesOneDay | routes/changes.js:32-46 | a new change joins the end of its own date's list and no other |
| Changes.PutTouchesOneDay | routes/changes.js:145-147 | an update leaves every other date's list alone |
| Changes.DeleteTouchesOneDay | routes/changes.js:103-105 | a deletion leaves every other date's list alone |
| Changes.DeleteRemovesTheId | routes/changes.js:103-105 | after a deletion no change has the `_id`, and `_id`s stay unique |
| Changes.FreshIdKeepsIdsUnique | routes/changes.js:24-32 | a change saved under the next `_id` keeps every `_id` unique |
| Changes.ChangeTable.Post | routes/changes.js:12-53 | rejected iff date or period number is missing, and then nothing changes; otherwise one change is appended and the answer is its date's earlier changes followed by it |
| Changes.ChangeTable.Put | routes/changes.js:129-165 | 404 and no change iff the `_id` is unknown; otherwise only that change is patched, the answer lists its date's changes and every other date is unchanged |
| Changes.ChangeTable.Delete | routes/changes.js:89-123 | the message and no change iff the `_id` is unknown; otherwise exactly that change is removed, the answer lists its date's remaining changes and every other date is unchanged |
| Exams.ExamsOn | routes/exams.js:61-80 | exactly the exams dated `date`, each as often as stored |
| Exams.IndexOfId | routes/exams.js:134 | none iff no exam has the `_id`; otherwise where it is stored |
| Exams.Patch | routes/exams.js:127-131 | the corrected update: a truthy text, date, class reference and period number replace the stored ones |
| Exams.PatchAsWritten | routes/exams.js:127-131 | the update as written throws iff the text is truthy; otherwise it never changes the text |
| Exams.ContentIsNeverUpdated | routes/exams.js:128 | as written, an exam's text can never change, while the corrected update changes it |
| Exams.ContentUpdateFails | routes/exams.js:128 | a body carrying only a new text throws as written and is stored when corrected |
| Exams.PostTouchesOneDay | routes/exams.js:39-48 | a new exam joins the end of its own date's list and no other |
| Exams.PutTouchesTwoDays | routes/exams.js:140-146 | an update leaves every date other than the exam's old and new one alone |
| Exams.DeleteTouchesOneDay | routes/exams.js:102-108 | a deletion leaves every other date's list alone |
| Exams.FreshIdKeepsIdsUnique | routes/exams.js:32-39 | an exam saved under the next `_id` keeps every `_id` unique |
| Exams.SameIdKeepsIdsUnique | routes/exams.js:140-142 | replacing an exam by one with its `_id` keeps every `_id` unique |
| Exams.DeleteRemovesTheId | routes/exams.js:102-104 | after a deletion no exam has the `_id`, and `_id`s stay unique |
| Exams.ExamTable.Post | routes/exams.js:12-55 | rejected iff a required field is empty, and then nothing changes; otherwise one exam is appended and the answer is its date's earlier exams followed by it |
| Exams.ExamTable.Put | routes/exams.js:123-155 | the corrected handler: 404 and no change iff the `_id` is unknown; otherwise only that exam is patched and the answer lists its new date's exams |
| Exams.ExamTable.PutAsWritten | routes/exams.js:123-155 | no answer and no change iff the text is truthy; otherwise 404 iff the `_id` is unknown, and an update keeps the text |
| Exams.ExamTable.Delete | routes/exams.js:86-117 | the message and no change iff the `_id` is unknown; otherwise exactly that exam is removed and the answer lists its date's remaining exams |
| Subscribers.IndexOfEmail | routes/subscribers.js:32 | none iff no subscriber has the address; otherwise where it is stored |
| Subscribers.IndexOfKey | routes/subscribers.js:100 | none iff no subscriber has the key; otherwise where it is stored |
| Subscribers.ProfileOf | routes/subscribers.js:60-82 | a key the uuid library's `validate` refuses is refused without a lookup; not found iff no subscriber has the key; otherwise that subscriber without its key |
| Subscribers.KeyFindsItsSubscriber | routes/subscribers.js:100 | with unique keys, a key finds exactly the subscriber stored under it |
| Subscribers.RequestKey | routes/subscribers.js:126-152 | invalid iff the address is not an e-mail; unknown iff no subscriber has it; otherwise the answer follows the transport's report |
| Subscribers.Updated | routes/subscribers.js:106-112 | the body's address and tags and the new key replace the stored ones; the name changes only when a truthy one is given |
| Subscribers.AppendKeepsDistinct | routes/subscribers.js:38-45 | appending a subscriber that clashes with no one keeps `_id`s, addresses and keys unique |
| Subscribers.ReplaceKeepsDistinct | routes/subscribers.js:114-116 | replacing a subscriber without a clash keeps them unique |
| Subscribers.RemoveKeepsDistinct | routes/subscribers.js:214 | removing a subscriber keeps them unique and frees its key |
| Subscribers.SubscriberTable.Register | routes/subscribers.js:16-54 | invalid iff a check fails; refused iff the address is known; otherwise exactly one subscriber is appended with the cleaned name, the address, the tags and the new key, which then finds it |
| Subscribers.SubscriberTable.Update | routes/subscribers.js:84-124 | invalid iff a check fails; unknown iff no subscriber has the key; on save only that subscriber changes, the new key finds it and the old key finds no one |
| Subscribers.SubscriberTable.Remove | routes/subscribers.js:196-224 | invalid iff the key is not a UUID; unknown iff no one has it; removed only when the farewell mail went out, after which the key finds no one |
| Schedules.FridayIsRejected | routes/schedule.js:17-24 | as written, a Friday timetable is always rejected |
| Schedules.EverySchoolDayIsAccepted | routes/schedule.js:17-25 | with Friday added, every school day with either parity is accepted, and whatever was accepted before still is |
| Schedules.ParitiesMatchTheMailJob | routes/schedule.js:25 | the parity labels the mail job looks up are ones POST accepts |
| Schedules.DaySchedule | routes/schedule.js:59-84 | the message iff no timetable has the parity and day name; otherwise the periods of one that does, whatever its validity |
| Schedules.EarlierTimetableWins | routes/schedule.js:67-69 | a new timetable is served only when no earlier one has its parity and day name |
| Schedules.PostedTimetableIsNeverInEffect | routes/schedule.js:39-45 | a timetable created through POST has no validity dates, so it never changes which timetable the mail job finds |
| Schedules.ScheduleTable.Post | routes/schedule.js:12-53 | the corrected handler: rejected iff the day or parity is not listed; otherwise exactly one timetable with the given week, day and periods and no validity dates is appended |
| Schedules.ScheduleTable.PostAsWritten | routes/schedule.js:12-53 | as written: rejected iff the day is not among the six listed names or the parity is wrong; a created timetable is never for Friday |

## Left out

- Mail transport, templates and markdown setup (mail/index.js:117-146), `sendMail`, message ids and logging. Each job returns what it would send.
- The un-awaited `forEach(async …)` fan-out over recipients. It only adds concurrency; the model keeps the recipient list.
- The clock. "Today" is a parameter, and the next business day comes from the calendar parameter.
- All `format(...)` strings: subjects, dates in templates, and the message of `GET /:date` in routes/breaks.js:75. That format uses `mm`, which date-fns reads as minutes where the month was evidently meant.
- date-fns internals: `getWeek`, the Croatian day name and `addBusinessDays` are abstract functions of `Common.Calendar`.
  - `getWeek` is the library's locale week numbering, not ISO 8601; the model follows the code.
  - `weekStartsOn` only reaches `format`, not `getWeek`.
- Combining a break with the timetable of a date, and scanning future days, exist in no source function. They are not modelled.
- Mongoose:
  - `populate` in the route answers (class and teacher names) is not modelled; the routes answer with the stored documents. In the mail jobs, the timetable's classes (`Mail.GetSchedule`) and the changes' `changed` and `substitution` (`Mail.PopulateChanges`) are populated.
  - The schemas' `required` checks are not modelled.
  - `lean`, the connection and a malformed `_id` (a cast error answered with 500) are not modelled.
  - Server errors of the store (500) are modelled only where a unique index is broken.
- Mail.ScheduleFor: assumes the store applies the `validFrom` and `validUntil` filters as written (mail/index.js:99-104). models/Schedule.js declares neither field, and under Mongoose's `strictQuery` such filters are dropped, so the lookup would match any timetable of the week and day; the Mongoose version is not part of this model.
- Mail.GetNotes: the `classKey` populate (mail/index.js:30-34) is not modelled; the notes keep the class reference unresolved. It changes no selection or order.
- Mail.GetExams: the `classKey` populate (mail/index.js:56-60) is not modelled; the exams keep the class reference unresolved. It changes no selection or order.
- Query order:
  - A `findOne` without a sort returns the first match in store order.
  - A sort with equal keys keeps store order.
  - Both are one of the outcomes the store allows.
- Express, express-validator and the `auth` middleware: a request either passes the field checks or is rejected. `isEmail`, `isUUID`, uuid's `validate` and `trim().escape()` are the parameters of `Subscribers.Validators`; `isUUID` (PUT and DELETE) and `validate` (GET `/:accessKey`) are kept apart, since `validate` also demands a UUID version and variant.
- server.js (routing and CORS), routes/teacher.js, routes/classes.js and routes/notes.js: create-and-list handlers with no logic beyond required fields.
- The second `PUT /` handler in routes/subscribers.js:154-194. It is identical to the first, which answers every request.
- The internals of `subscriptionHello`, `subscriptionAdmin` and `subscriptionBye`. Their outcome is the parameter `sent` where the handler reads it. The welcome mail's outcome does not change the registration answer.
- Subscribers.SubscriberTable.Register: `uuid()` is the parameter `newKey`. A key that is already held is answered as the unique-index failure (`RegisterFailed`), which `uuid()` makes practically impossible.
- Subscribers.SubscriberTable.Update: same treatment of `newKey`. A clash with another subscriber's address or key is the failure `UpdateFailed`.

Where the evident intent and the code disagree, the model follows the code:

- the week parity uses the library's locale week number;
- the timetable lookup requires validity dates that the schema and the creating handler never set;
- no mail job consults the breaks: a date inside a break is handled like any other.

## Findings

| source | as written | input that shows it | evidently intended | confidence | as-written member | corrected member |
|---|---|---|---|---|---|---|
| routes/exams.js:128 | a truthy `content` is copied from the undefined name `note`, a ReferenceError outside the `try`: no response, nothing stored | `PUT /:id` with body `{content: "Kontrolni"}` for a stored exam with text "Test" | the new text is stored, as for the other fields | not executed | Exams.ContentUpdateFails | Exams.Patch |
| routes/schedule.js:17-24 | the accepted day names leave out "petak" (Friday), so a Friday timetable is rejected with 400 | `POST /` with `{day: "petak", week: "parni"}` | every day of the school week is accepted | not executed | Schedules.FridayIsRejected | Schedules.EverySchoolDayIsAccepted |
