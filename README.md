# Parking rates: rate store and query validation

A Dafny model of the two pieces of the parking-price service that hold logic:

- `ParkingRates` (`parking_app/lib/rates.py`), the process-wide rate store. It has two
  states, not loaded and loaded. `load_rates` replaces the stored payload wholesale.
  `get_rate_price` answers `None` while nothing is loaded. Once loaded, it answers the
  `price` of the first entry of the payload's `"rates"` list, whatever interval is asked
  about. Module `Rates` (rates.dfy) models it as a class `ParkingRates` with one field
  `rates: Option<Payload>`. The lookup's crash paths (no `"rates"` key, empty list, no
  `price`) are explicit `Lookup.Crash` results.
- `validate_get_parking` (`parking_app/lib/validator.py`), which turns the two date-time
  strings of a price query into a pair of date-times. It rejects the pair unless start
  precedes end and both carry the same local calendar date. Module `Validator`
  (validator.dfy) models it as functions returning a `Result`.

Module `DateTimes` (datetimes.dfy) gives the value model of Python's `datetime` that
the validator relies on. A value is a local date, a wall-clock time and an optional fixed
UTC offset. `toordinal()` follows CPython's day count from 0001-01-01. Python compares two
aware values as UTC instants (local time minus offset), compares two naive values field by
field, and raises `TypeError` when one side is naive and the other is aware. The lemmas
prove that the day count is strictly monotone. It follows that, for one shared offset,
comparing instants and comparing fields agree. Module `ValidatorExamples`
(validator_examples.dfy) states the validator's unit-test vectors. They are proved for
every valid date, and the tests' date 2015-07-01 is one of them.

Where the tests and the code disagree, the model follows the code:

- The "multiple days" case that `test_validator.py` expects to pass is rejected by the
  date check, and `RejectedMultiDay` proves it.
- `test_get_rate_price` expects `None` for several intervals, but the code returns the
  first rule's price for every interval.
- The tests import `Rate` and `TimeSpan` from `rates.py`, which defines neither.

`validate_get_parking` returns a two-element list; the model returns a pair.

## Model

| member | source | states |
|---|---|---|
| `DateTimes.Before` | parking_project/parking_app/lib/validator.py:24 | Python's `<` on datetimes: instants when both are aware, fields when both are naive, and no answer (TypeError) for a mixed pair |
| `DateTimes.DaysBeforeYearStep` | parking_project/parking_app/lib/validator.py:24 | each year adds exactly its own length, 366 in leap years and 365 otherwise, to the day count behind the instant comparison |
| `DateTimes.DaysBeforeYearMonotone` | parking_project/parking_app/lib/validator.py:24 | every day of an earlier year counts before the first day of any later year |
| `DateTimes.DaysBeforeMonthMonotone` | parking_project/parking_app/lib/validator.py:24 | every day of an earlier month counts before the first day of a later month of the same year |
| `DateTimes.MonthWithinYear` | parking_project/parking_app/lib/validator.py:24 | every month ends within its year |
| `DateTimes.OrdinalMonotone` | parking_project/parking_app/lib/validator.py:24-27 | a strictly earlier valid date has a strictly smaller `toordinal()` |
| `DateTimes.OrdinalInjective` | parking_project/parking_app/lib/validator.py:27 | two valid dates have the same day number exactly when they are the same date |
| `DateTimes.LocalOrder` | parking_project/parking_app/lib/validator.py:24 | comparing local fields agrees with comparing local second counts, in both directions |
| `DateTimes.SameOffsetOrder` | parking_project/parking_app/lib/validator.py:24 | for two aware values with the same offset, the instant order equals the field order |
| `Validator.ParseIsoFormat` | parking_project/parking_app/lib/validator.py:21-22 | parsing succeeds exactly when the text is read into fields and every field is in range; on success it yields those fields |
| `Validator.CheckInterval` | parking_project/parking_app/lib/validator.py:24-30 | accepts exactly when start precedes end and the local dates are equal, returning (start, end) unchanged; otherwise it names the failing rule: TypeError for a mixed pair, not-before, or dates differ |
| `Validator.ValidateGetParking` | parking_project/parking_app/lib/validator.py:5-30 | malformed exactly when either string fails to parse; when both parse, the answer is the interval check on the parsed pair, so a pair that passes both rules comes back as exactly (parsed start, parsed end), and any other pair gets the rule it fails |
| `Validator.AcceptedIsStrictlyOrdered` | parking_project/parking_app/lib/validator.py:24-30 | an accepted pair is of one kind and strictly increasing: as instants when aware, on the local clock when naive |
| `Validator.SameOffsetDecision` | parking_project/parking_app/lib/validator.py:24-28 | with one offset on both sides, the check accepts exactly when the dates match and the start's time of day is earlier |
| `Validator.AcceptedSameOffsetWithinDay` | parking_project/parking_app/lib/validator.py:24-28 | with one offset on both sides, an accepted interval is positive and shorter than a day |
| `ValidatorExamples.AcceptedFiveHours` | parking_project/tests/parking_app/lib/test_validator.py:13 | 07:00 to 12:00 at -05:00 on any valid date is accepted and returned unchanged |
| `ValidatorExamples.AcceptedEastOfUtc` | parking_project/tests/parking_app/lib/test_validator.py:14 | the same interval at +05:00 is accepted |
| `ValidatorExamples.AcceptedFullDay` | parking_project/tests/parking_app/lib/test_validator.py:18 | 00:00:00 to 23:59:59 in one offset is accepted |
| `ValidatorExamples.AcceptedAcrossOffsets` | parking_project/tests/parking_app/lib/test_validator.py:15-16 | intervals with different offsets are ordered as instants and accepted, even when the end's wall clock is earlier |
| `ValidatorExamples.AcceptedNaive` | parking_project/tests/parking_app/lib/test_validator.py:17 | two naive values are compared on the wall clock and accepted |
| `ValidatorExamples.RejectedNotBefore` | parking_project/tests/parking_app/lib/test_validator.py:32-33 | a reversed interval, and one whose end instant (13:00Z) precedes its start (14:00Z), are rejected as not-before |
| `ValidatorExamples.RejectedMultiDay` | parking_project/tests/parking_app/lib/test_validator.py:19 | 07:00 on one date to 12:00 on a later date is rejected because the dates differ, although the test expects it to pass |
| `ValidatorExamples.RejectedMixedKinds` | parking_project/parking_app/lib/validator.py:24 | a naive start against an aware end is rejected with Python's TypeError |
| `ValidatorExamples.AcceptedReturnsParsedPair` | parking_project/tests/parking_app/lib/test_validator.py:21-24 | when both strings read as valid fields that pass the interval check, the validator returns exactly the two `fromisoformat` results, start first |
| `ValidatorExamples.OutOfRangeFieldsRejected` | parking_project/tests/parking_app/lib/test_validator.py:28-31 | month 13, hour 25 and minute 61 are rejected as malformed before either rule runs |
| `ValidatorExamples.UnreadableTextRejected` | parking_project/tests/parking_app/lib/test_validator.py:29 | text that does not read as a date-time is rejected as malformed |
| `Rates.FirstPrice` | parking_project/parking_app/lib/rates.py:38 | on a loaded payload, the lookup gives the price of element 0 exactly when the list exists, is non-empty and that entry has a price; otherwise it gives the KeyError or IndexError Python raises |
| `Rates.LookupIn` | parking_project/parking_app/lib/rates.py:37-40 | the lookup answers `None` exactly when nothing is loaded; a loaded store answers the first-rule lookup of its payload |
| `Rates.OnlyFirstPriceObservable` | parking_project/parking_app/lib/rates.py:38 | two payloads whose first rules share a price answer every lookup alike |
| `Rates.ParkingRates.constructor` | parking_project/parking_app/lib/rates.py:10 | the store starts not loaded |
| `Rates.ParkingRates.LoadRates` | parking_project/parking_app/lib/rates.py:13-20 | after a load, the stored value is exactly the new payload |
| `Rates.ParkingRates.GetRatePrice` | parking_project/parking_app/lib/rates.py:24-40 | the result is the lookup of the stored state, for any interval; the store is not modified |
| `Rates.LastLoadWins` | parking_project/parking_app/lib/rates.py:20-38 | after loading a and then b, the store holds b, and lookups on any two intervals both give b's first price |
| `Rates.FreshStoreUnavailable` | parking_project/parking_app/lib/rates.py:10-40 | a store that was never loaded answers `None` |

## Left out

- The text layer of `datetime.fromisoformat` (digits, separators, the accepted ISO 8601
  variants) is library code. It is the parameter `lex` of `ParseIsoFormat`. Only the
  constructor's range checks on the fields are modelled.
- Microseconds, and named (IANA) time zones, are not modelled. Offsets are fixed seconds.
- `validate_put_parking` (`validator.py:33-38`) is not modelled. It is a bare `json.loads`
  call, and JSON decoding is library code.
- The rate payload is modelled as a "rates" list of rules whose `days`, `times`, `tz` and
  `price` keys may be absent. A payload of another shape (a non-list "rates", a non-integer
  price) is not modelled.
- ParkingRates.LoadRates: the payload is stored as a value, not as a reference to the
  caller's dict, so later changes the caller makes to that dict are not seen by lookups.
- `load_rates(None)` is not modelled. The argument is typed as a dict, and the model's
  `LoadRates` takes a payload.
- The logging call in `load_rates` (`rates.py:21`) is I/O and is not modelled.
- The class-level `rates` field is shared by the whole process and has no lock. The model
  is one sequential object, so concurrency and aliasing through the class are not modelled.
- `Rate`, `TimeSpan`, day-code and time-zone validation, and rate matching appear only in
  the tests. No source file defines them, so they are not part of this model.
- `views.py` and `urls.py` are Django HTTP transport, and are not part of this model.
