/** The query vectors of the validator's unit tests, stated over the fields
    that `fromisoformat` reads from each string (offsets in seconds). The
    tests use 2015-07-01; the lemmas hold on every valid date. */
module ValidatorExamples {
  import opened Wrappers
  import opened DateTimes
  import opened Validator

  function At(d: Date, hour: int, minute: int, second: int, offset: Option<int>): DateTime
  {
    DateTime(d, hour, minute, second, offset)
  }

  function Hours(h: int): Option<int>
  {
    Some(h * 3600)
  }

  lemma {:induction false} SameDayInstants(a: DateTime, b: DateTime)
    requires Valid(a) && Valid(b) && Aware(a) && Aware(b) && a.date == b.date
    ensures Instant(b) - Instant(a) == (SecondOfDay(b) - b.offset.value) - (SecondOfDay(a) - a.offset.value)
  {
  }

  /** The date the tests use is a valid one. */
  lemma TestDateValid()
    ensures ValidDate(Date(2015, 7, 1)) && ValidDate(Date(2015, 7, 2))
  {
  }

  /** 07:00 to 12:00 at -05:00 is accepted, and the parsed pair comes back unchanged. */
  lemma {:induction false} AcceptedFiveHours(d: Date)
    requires ValidDate(d)
    ensures CheckInterval(At(d, 7, 0, 0, Hours(-5)), At(d, 12, 0, 0, Hours(-5))) == Ok((At(d, 7, 0, 0, Hours(-5)), At(d, 12, 0, 0, Hours(-5))))
  {
    SameOffsetDecision(At(d, 7, 0, 0, Hours(-5)), At(d, 12, 0, 0, Hours(-5)));
  }

  /** The same wall-clock interval at +05:00 is accepted too. */
  lemma {:induction false} AcceptedEastOfUtc(d: Date)
    requires ValidDate(d)
    ensures CheckInterval(At(d, 7, 0, 0, Hours(5)), At(d, 12, 0, 0, Hours(5))).Ok?
  {
    SameOffsetDecision(At(d, 7, 0, 0, Hours(5)), At(d, 12, 0, 0, Hours(5)));
  }

  /** A full local day, 00:00:00 to 23:59:59, is accepted. */
  lemma {:induction false} AcceptedFullDay(d: Date)
    requires ValidDate(d)
    ensures CheckInterval(At(d, 0, 0, 0, Hours(-5)), At(d, 23, 59, 59, Hours(-5))).Ok?
  {
    SameOffsetDecision(At(d, 0, 0, 0, Hours(-5)), At(d, 23, 59, 59, Hours(-5)));
  }

  /** Queries whose ends carry different offsets are ordered as instants:
      07:00+02:00 is 05:00Z before 12:00+03:00 at 09:00Z, and 07:00-05:00 is
      12:00Z before 06:00-08:00 at 14:00Z, though its wall clock is later. */
  lemma {:induction false} AcceptedAcrossOffsets(d: Date)
    requires ValidDate(d)
    ensures CheckInterval(At(d, 7, 0, 0, Hours(2)), At(d, 12, 0, 0, Hours(3))).Ok?
    ensures CheckInterval(At(d, 7, 0, 0, Hours(-5)), At(d, 6, 0, 0, Hours(-8))).Ok?
  {
    SameDayInstants(At(d, 7, 0, 0, Hours(2)), At(d, 12, 0, 0, Hours(3)));
    SameDayInstants(At(d, 7, 0, 0, Hours(-5)), At(d, 6, 0, 0, Hours(-8)));
  }

  /** Two naive values are compared on the wall clock. */
  lemma {:induction false} AcceptedNaive(d: Date)
    requires ValidDate(d)
    ensures CheckInterval(At(d, 7, 0, 0, None), At(d, 12, 0, 0, None)).Ok?
  {
  }

  /** Queries the code refuses once parsed: end before start, and an end
      instant (13:00Z) before a start instant (14:00Z) although the end's
      wall clock is later. */
  lemma {:induction false} RejectedNotBefore(d: Date)
    requires ValidDate(d)
    ensures CheckInterval(At(d, 12, 0, 0, Hours(-5)), At(d, 7, 0, 0, Hours(-5))) == Err(NotBefore)
    ensures CheckInterval(At(d, 7, 0, 0, Hours(-7)), At(d, 8, 0, 0, Hours(-5))) == Err(NotBefore)
  {
    SameDayInstants(At(d, 12, 0, 0, Hours(-5)), At(d, 7, 0, 0, Hours(-5)));
    SameDayInstants(At(d, 7, 0, 0, Hours(-7)), At(d, 8, 0, 0, Hours(-5)));
  }

  /** 07:00 on one day to 12:00 on a later day is refused: the local dates
      differ. The unit tests expect this query to pass; the code refuses it. */
  lemma {:induction false} RejectedMultiDay(d1: Date, d2: Date)
    requires ValidDate(d1) && ValidDate(d2) && DateBefore(d1, d2)
    ensures CheckInterval(At(d1, 7, 0, 0, Hours(-5)), At(d2, 12, 0, 0, Hours(-5))) == Err(DatesDiffer)
  {
    SameOffsetOrder(At(d1, 7, 0, 0, Hours(-5)), At(d2, 12, 0, 0, Hours(-5)));
  }

  /** A naive value against an aware one is refused (Python's `TypeError`). */
  lemma {:induction false} RejectedMixedKinds(d: Date)
    requires ValidDate(d)
    ensures CheckInterval(At(d, 7, 0, 0, None), At(d, 12, 0, 0, Hours(-5))) == Err(Incomparable)
  {
  }

  /** What each accepting test asserts: when both strings read as in-range
      fields that pass the interval check, `validate_get_parking` returns
      exactly what `fromisoformat` gives for each string, in order. */
  lemma {:induction false} AcceptedReturnsParsedPair(lex: string -> Option<DateTime>, start: string, end: string, s: DateTime, e: DateTime)
    requires lex(start) == Some(s) && lex(end) == Some(e) && Valid(s) && Valid(e)
    requires CheckInterval(s, e).Ok?
    ensures ValidateGetParking(lex, start, end) == Ok((ParseIsoFormat(lex, start).value, ParseIsoFormat(lex, end).value))
    ensures ValidateGetParking(lex, start, end) == Ok((s, e))
  {
  }

  /** Out-of-range fields are refused before either rule runs: month 13,
      hour 25 and minute 61 fail the constructor's range checks. */
  lemma {:induction false} OutOfRangeFieldsRejected(lex: string -> Option<DateTime>, start: string, end: string)
    requires lex(start) in {Some(At(Date(2015, 13, 1), 7, 0, 0, Hours(-5))), Some(At(Date(2015, 7, 1), 25, 0, 0, Hours(-5))), Some(At(Date(2015, 7, 1), 7, 61, 0, Hours(-5)))}
    ensures ValidateGetParking(lex, start, end) == Err(Malformed)
  {
  }

  /** Text that is not a date-time at all ("2015-xx-01T07:00:00-05:00") is refused. */
  lemma {:induction false} UnreadableTextRejected(lex: string -> Option<DateTime>, start: string, end: string)
    requires lex(start).None?
    ensures ValidateGetParking(lex, start, end) == Err(Malformed)
  {
  }
}
