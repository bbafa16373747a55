/** `validate_get_parking`: turns the two date-time strings of a price query
    into a pair of date-times, or raises. The string-to-fields step of
    `datetime.fromisoformat` is a parameter `lex` (it belongs to Python's
    library); the range checks that the `datetime` constructor then applies
    to the fields are modelled in `ParseIsoFormat`. */
module Validator {
  import opened Wrappers
  import opened DateTimes

  /** Why a query is refused. The first three are the `ValueError`s of the
      source; `Incomparable` is the `TypeError` Python raises when comparing a
      naive date-time with an aware one. */
  datatype QueryError = Malformed | Incomparable | NotBefore | DatesDiffer

  /** `datetime.fromisoformat(text)`: `lex` gives the fields the text spells
      out (or `None` when the text is not ISO 8601 at all, say "2015-xx-01"),
      and the fields must then be in range. */
  function ParseIsoFormat(lex: string -> Option<DateTime>, text: string): (r: Option<DateTime>)
    ensures r.Some? <==> lex(text).Some? && Valid(lex(text).value)
    ensures r.Some? ==> r == lex(text)
  {
    match lex(text)
    case None => None
    case Some(fields) => if Valid(fields) then Some(fields) else None
  }

  /** The two decision rules over parsed values: `start` must precede `end`,
      and both must carry the same local calendar date. */
  function CheckInterval(start: DateTime, end: DateTime): (r: Result<(DateTime, DateTime), QueryError>)
    requires Valid(start) && Valid(end)
    ensures r.Ok? <==> Before(start, end) == Some(true) && start.date == end.date
    ensures r.Ok? ==> r.value == (start, end)
    ensures r == Err(Incomparable) <==> Aware(start) != Aware(end)
    ensures r == Err(NotBefore) <==> Before(start, end) == Some(false)
    ensures r == Err(DatesDiffer) <==> Before(start, end) == Some(true) && start.date != end.date
  {
    match Before(start, end)
    case None => Err(Incomparable)
    case Some(before) =>
      if !before then Err(NotBefore)
      else if start.date != end.date then Err(DatesDiffer)
      else Ok((start, end))
  }

  /** `validate_get_parking(start, end)`. */
  function ValidateGetParking(lex: string -> Option<DateTime>, start: string, end: string): (r: Result<(DateTime, DateTime), QueryError>)
    ensures r == Err(Malformed) <==> ParseIsoFormat(lex, start).None? || ParseIsoFormat(lex, end).None?
    ensures ParseIsoFormat(lex, start).Some? && ParseIsoFormat(lex, end).Some? ==>
      r == CheckInterval(ParseIsoFormat(lex, start).value, ParseIsoFormat(lex, end).value)
    ensures r.Ok? ==> ParseIsoFormat(lex, start) == Some(r.value.0) && ParseIsoFormat(lex, end) == Some(r.value.1)
    ensures r.Ok? ==> Valid(r.value.0) && Valid(r.value.1)
    ensures r.Ok? ==> Before(r.value.0, r.value.1) == Some(true) && r.value.0.date == r.value.1.date
  {
    match ParseIsoFormat(lex, start)
    case None => Err(Malformed)
    case Some(s) =>
      match ParseIsoFormat(lex, end)
      case None => Err(Malformed)
      case Some(e) => CheckInterval(s, e)
  }

  /** Accepted aware values are strictly ordered as instants; accepted naive
      values are strictly ordered on the wall clock. */
  lemma AcceptedIsStrictlyOrdered(lex: string -> Option<DateTime>, start: string, end: string)
    requires ValidateGetParking(lex, start, end).Ok?
    ensures var (s, e) := ValidateGetParking(lex, start, end).value;
      Valid(s) && Valid(e) && Aware(s) == Aware(e)
      && (Aware(s) ==> Instant(s) < Instant(e))
      && (!Aware(s) ==> LocalSeconds(s) < LocalSeconds(e))
  {
    var (s, e) := ValidateGetParking(lex, start, end).value;
    if !Aware(s) {
      LocalOrder(s, e);
    }
  }

  /** With one offset on both sides (or none on either), the check reduces to
      the familiar rule: same calendar day and an earlier wall-clock time. */
  lemma SameOffsetDecision(start: DateTime, end: DateTime)
    requires Valid(start) && Valid(end) && start.offset == end.offset
    ensures CheckInterval(start, end).Ok? <==>
      start.date == end.date && SecondOfDay(start) < SecondOfDay(end)
  {
    if Aware(start) {
      SameOffsetOrder(start, end);
    }
  }

  /** With one offset on both sides, an accepted query lasts under a day: the
      check never lets a multi-day interval through. */
  lemma AcceptedSameOffsetWithinDay(start: DateTime, end: DateTime)
    requires Valid(start) && Valid(end) && Aware(start) && start.offset == end.offset
    requires CheckInterval(start, end).Ok?
    ensures 0 < Instant(end) - Instant(start) < SecondsPerDay
  {
  }
}
