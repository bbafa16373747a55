/** `ParkingRates`: the process-wide store of the last rate set loaded, and
    the price lookup over it. The store has two states, not loaded (`None`)
    and loaded (the payload given to the last `load_rates`). */
module Rates {
  import opened Wrappers
  import opened DateTimes

  /** One entry of the payload's "rates" list. Each key may be absent from
      the decoded JSON object; only `price` is ever read. */
  datatype Rule = Rule(days: Option<string>, times: Option<string>, tz: Option<string>, price: Option<int>)

  /** The decoded rate-set payload: its "rates" list, or `None` when the key
      is absent. */
  datatype Payload = Payload(rates: Option<seq<Rule>>)

  /** The exception `get_rate_price` raises on a loaded payload it cannot read. */
  datatype LookupError =
    | MissingRatesKey  // KeyError: no "rates" key
    | EmptyRates       // IndexError: the list has no element 0
    | MissingPrice     // KeyError: element 0 has no "price"

  /** What `get_rate_price` gives back: `None` (not loaded), a price, or a raise. */
  datatype Lookup = Unavailable | Price(amount: int) | Crash(error: LookupError)

  /** The lookup on a loaded payload: the price of the first rule. */
  function FirstPrice(p: Payload): (r: Lookup)
    ensures r != Unavailable
    ensures r.Price? <==> p.rates.Some? && |p.rates.value| > 0 && p.rates.value[0].price.Some?
    ensures r.Price? ==> r.amount == p.rates.value[0].price.value
    ensures r == Crash(MissingRatesKey) <==> p.rates.None?
    ensures r == Crash(EmptyRates) <==> p.rates == Some([])
  {
    match p.rates
    case None => Crash(MissingRatesKey)
    case Some(rules) =>
      if |rules| == 0 then Crash(EmptyRates)
      else if rules[0].price.None? then Crash(MissingPrice)
      else Price(rules[0].price.value)
  }

  /** The lookup in either state of the store. */
  function LookupIn(stored: Option<Payload>): (r: Lookup)
    ensures r == Unavailable <==> stored.None?
    ensures stored.Some? ==> r == FirstPrice(stored.value)
  {
    match stored
    case None => Unavailable
    case Some(p) => FirstPrice(p)
  }

  /** Only the price of the first rule is observable: two payloads whose first
      rules carry the same price answer every lookup alike, whatever else the
      rules or the rest of the lists hold. */
  lemma OnlyFirstPriceObservable(p: Payload, q: Payload)
    requires p.rates.Some? && q.rates.Some? && |p.rates.value| > 0 && |q.rates.value| > 0
    requires p.rates.value[0].price == q.rates.value[0].price
    ensures LookupIn(Some(p)) == LookupIn(Some(q))
  {
  }

  class ParkingRates {
    /** `ParkingRates.rates`: `None` until the first load. */
    var rates: Option<Payload>

    constructor ()
      ensures rates == None
    {
      rates := None;
    }

    /** `load_rates`: the new payload replaces the stored one wholesale, with
        no merging and no validation. */
    method LoadRates(newRates: Payload)
      modifies this
      ensures rates == Some(newRates)
    {
      rates := Some(newRates);
    }

    /** `get_rate_price`: `Unavailable` while nothing is loaded; otherwise the
        first rule's price, or the error Python raises reading it. The interval
        is not consulted, and the store is only read (no `modifies`). */
    method GetRatePrice(start: DateTime, end: DateTime) returns (r: Lookup)
      ensures r == LookupIn(rates)
    {
      if rates != None {
        var payload := rates.value;
        if payload.rates.None? {
          r := Crash(MissingRatesKey);
        } else if |payload.rates.value| == 0 {
          r := Crash(EmptyRates);
        } else if payload.rates.value[0].price.None? {
          r := Crash(MissingPrice);
        } else {
          r := Price(payload.rates.value[0].price.value);
        }
      } else {
        r := Unavailable;
      }
    }
  }

  /** A client run over one store: the last load wins, nothing of the earlier
      payload survives, lookups leave the store as it was, and two different
      intervals get the same answer. */
  method LastLoadWins(store: ParkingRates, a: Payload, b: Payload, s1: DateTime, e1: DateTime, s2: DateTime, e2: DateTime)
    returns (r1: Lookup, r2: Lookup)
    modifies store
    ensures store.rates == Some(b)
    ensures r1 == r2 == FirstPrice(b)
  {
    store.LoadRates(a);
    store.LoadRates(b);
    r1 := store.GetRatePrice(s1, e1);
    r2 := store.GetRatePrice(s2, e2);
  }

  /** A fresh store answers `Unavailable` to every query. */
  method FreshStoreUnavailable(start: DateTime, end: DateTime) returns (r: Lookup)
    ensures r == Unavailable
  {
    var store := new ParkingRates();
    r := store.GetRatePrice(start, end);
  }
}
