/** routes/breaks.js: school breaks, the periods without regular classes. */
module Breaks {
  import opened Common
  import opened Query
  import opened Models

  /** The body of `POST /`; a field that is missing or empty is None. */
  datatype BreakRequest = BreakRequest(
    validFrom: Option<Date>, validUntil: Option<Date>, status: Option<string>, options: Option<string>)

  /** The three `notEmpty` checks of `POST /`. Nothing compares the dates. */
  predicate Complete(req: BreakRequest) {
    req.validFrom.Some? && req.validUntil.Some? && TruthyText(req.status)
  }

  predicate Covers(b: Break, date: Date) {
    b.validFrom <= date <= b.validUntil
  }

  function CoversDate(date: Date): Break -> bool {
    (b: Break) => Covers(b, date)
  }

  function Until(b: Break): int {
    b.validUntil
  }

  /** The answer of `GET /:date`: the break, or the informational message
      (status 200) that the date is not in a break. */
  datatype DayAnswer = OnBreak(b: Break) | NotOnBreak

  /** `GET /:date`: a break containing the date that ends no later than any
      other break containing it. */
  function BreakOn(breaks: seq<Break>, date: Date): (r: DayAnswer)
    ensures r.NotOnBreak? <==> forall b :: b in breaks ==> !Covers(b, date)
    ensures r.OnBreak? ==> r.b in breaks && Covers(r.b, date)
    ensures r.OnBreak? ==> forall b :: b in breaks && Covers(b, date) ==> r.b.validUntil <= b.validUntil
  {
    match Earliest(breaks, CoversDate(date), Until)
    case None => NotOnBreak
    case Some(b) => OnBreak(b)
  }

  /** `GET /`: every break, by ascending end date. */
  function AllBreaks(breaks: seq<Break>): (r: seq<Break>)
    ensures multiset(r) == multiset(breaks)
    ensures forall i, j :: 0 <= i < j < |r| ==> r[i].validUntil <= r[j].validUntil
  {
    SortBy(breaks, Until)
  }

  /** A break stored with its end before its start contains no date, so it
      never changes what `GET /:date` answers. */
  lemma InvertedBreakIsNeverFound(breaks: seq<Break>, b: Break, date: Date)
    requires b.validUntil < b.validFrom
    ensures BreakOn(breaks + [b], date) == BreakOn(breaks, date)
  {
    EarliestIgnoresNonMatching(breaks, b, CoversDate(date), Until);
  }

  /** The answer of `POST /`: 400 with the validation errors, or the saved break. */
  datatype PostAnswer = Rejected | Created(b: Break)

  /** The `breaks` collection. */
  class BreakTable {
    var breaks: seq<Break>
    var nextId: DocId

    /** Every break has its own `_id`, below the next one to hand out. */
    ghost predicate Valid()
      reads this
    {
      && (forall i :: 0 <= i < |breaks| ==> breaks[i].id < nextId)
      && (forall i, j :: 0 <= i < j < |breaks| ==> breaks[i].id != breaks[j].id)
    }

    constructor ()
      ensures Valid() && breaks == []
    {
      breaks, nextId := [], 0;
    }

    /** `POST /`: checks the required fields, then stores one new break. */
    method Post(req: BreakRequest) returns (answer: PostAnswer)
      requires Valid()
      modifies this
      ensures Valid()
      ensures answer.Rejected? <==> !Complete(req)
      ensures answer.Rejected? ==> breaks == old(breaks)
      ensures answer.Created? ==>
        && answer.b == Break(answer.b.id, req.validFrom.value, req.validUntil.value, req.status.value, req.options)
        && breaks == old(breaks) + [answer.b]
        && forall b :: b in old(breaks) ==> b.id != answer.b.id
    {
      if !Complete(req) {
        return Rejected;
      }
      var b := Break(nextId, req.validFrom.value, req.validUntil.value, req.status.value, req.options);
      breaks := breaks + [b];
      nextId := nextId + 1;
      return Created(b);
    }
  }
}
