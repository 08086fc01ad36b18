/**
 * Currency normalisation to Indian rupees.  A process-wide cache holds the
 * last table fetched from the exchange-rate provider and when it was
 * fetched; a table younger than an hour is reused, an older or missing one
 * is refreshed, and a failed refresh falls back to a fixed table without
 * touching the cache.  The clock is an integer number of seconds and the
 * provider's answer is a parameter.
 */
module ForexService {
  import opened Common

  const BaseCurrency: string := "INR"

  /** The currencies the refresh asks the provider about, in that order. */
  const ForeignCurrencies: seq<string> := ["USD", "GBP", "THB"]

  const SupportedCurrencies: set<string> := {"INR", "USD", "GBP", "THB"}

  /** One hour, in seconds. */
  const CacheDuration: int := 3600

  /**
   * The provider's answer: on success the `rates` object of its JSON reply
   * (an absent one read as empty), each value saying how many units of a
   * currency one rupee buys; on any error, nothing.
   */
  datatype ProviderResult = Quoted(rates: map<string, real>) | Unavailable

  /** A rate table: rupees per unit of each currency it lists. */
  ghost predicate WellFormedTable(t: map<string, real>)
  {
    && t.Keys <= SupportedCurrencies
    && BaseCurrency in t && t[BaseCurrency] == 1.0
    && forall c :: c in t ==> t[c] > 0.0
  }

  /** `get_fallback_rates`: fixed approximate rates. */
  function FallbackRates(): (t: map<string, real>)
    ensures t.Keys == SupportedCurrencies
    ensures WellFormedTable(t)
  {
    map["INR" := 1.0, "USD" := 83.0, "GBP" := 105.0, "THB" := 2.4]
  }

  /**
   * The table a successful refresh builds: rupees at 1.0 and, for each
   * foreign currency the provider quotes at a positive rate, the inverse of
   * that rate.
   */
  function InvertRates(api: map<string, real>): (t: map<string, real>)
    ensures WellFormedTable(t)
    ensures forall c :: c in ForeignCurrencies ==> (c in t <==> c in api && api[c] > 0.0)
    ensures forall c :: c in t && c != BaseCurrency ==> c in api && api[c] > 0.0 && t[c] == Inverse(api[c])
  {
    map c | c in SupportedCurrencies && (c == BaseCurrency || (c in api && api[c] > 0.0))
      :: if c == BaseCurrency then 1.0 else Inverse(api[c])
  }

  /** How many rupees one unit buys, given how many units one rupee buys. */
  function Inverse(q: real): (r: real)
    requires q > 0.0
    ensures r > 0.0 && r * q == 1.0
  {
    1.0 / q
  }

  /** A table with INR at 1 and exactly the inverted positive quotes is the refreshed table. */
  lemma InvertRatesUnique(api: map<string, real>, t: map<string, real>)
    requires BaseCurrency in t && t[BaseCurrency] == 1.0
    requires forall c :: c in t <==> c == BaseCurrency || (c in ForeignCurrencies && c in api && api[c] > 0.0)
    requires forall c :: c in t && c != BaseCurrency ==> c in api && t[c] == Inverse(api[c])
    ensures t == InvertRates(api)
  {
    var r := InvertRates(api);
    assert forall c :: c in t <==> c in r;
    assert forall c :: c in t ==> t[c] == r[c];
  }

  /** The two fields of the cache. */
  datatype CacheState = CacheState(rates: Option<map<string, real>>, lastUpdated: Option<int>)

  /** A cached table exists and is strictly younger than an hour at `now`. */
  predicate IsFresh(s: CacheState, now: int)
  {
    s.rates.Some? && s.lastUpdated.Some? && now - s.lastUpdated.value < CacheDuration
  }

  /** What the cache can hold: nothing yet, or a refreshed table stamped with its time. */
  ghost predicate CacheInvariant(s: CacheState)
  {
    (s.rates.Some? <==> s.lastUpdated.Some?) && (s.rates.Some? ==> WellFormedTable(s.rates.value))
  }

  /** The table `get_exchange_rates` returns and the cache it leaves behind. */
  datatype Lookup = Lookup(table: map<string, real>, next: CacheState)

  /** `get_exchange_rates` as a transition of the cache at time `now`. */
  function ExchangeRates(s: CacheState, now: int, provider: ProviderResult): Lookup
  {
    if IsFresh(s, now) then Lookup(s.rates.value, s)
    else match provider
      case Quoted(api) =>
        var t := InvertRates(api);
        Lookup(t, CacheState(Some(t), Some(now)))
      case Unavailable => Lookup(FallbackRates(), s)
  }

  /**
   * The three outcomes: a hit returns the cached table and changes nothing;
   * a successful refresh returns the inverted rates and caches them stamped
   * `now`; a failed refresh returns the fallback table and changes nothing.
   * Every table returned is well formed and the cache stays well formed.
   */
  lemma ExchangeRatesOutcomes(s: CacheState, now: int, provider: ProviderResult)
    requires CacheInvariant(s)
    ensures var r := ExchangeRates(s, now, provider);
      && WellFormedTable(r.table)
      && CacheInvariant(r.next)
      && (IsFresh(s, now) ==> r.table == s.rates.value && r.next == s)
      && (!IsFresh(s, now) && provider.Quoted? ==>
            r.table == InvertRates(provider.rates) && r.next == CacheState(Some(r.table), Some(now)))
      && (!IsFresh(s, now) && provider.Unavailable? ==> r.table == FallbackRates() && r.next == s)
  {
  }

  /**
   * Within an hour of a lookup that left a table in the cache, a later
   * lookup returns the same table and leaves the cache as it is, whatever
   * the provider would answer.
   */
  lemma SameTableWithinWindow(s: CacheState, t1: int, p1: ProviderResult, t2: int, p2: ProviderResult)
    requires t1 <= t2
    requires var n := ExchangeRates(s, t1, p1).next;
             n.rates.Some? && n.lastUpdated.Some? && t2 - n.lastUpdated.value < CacheDuration
    ensures var first := ExchangeRates(s, t1, p1);
            ExchangeRates(first.next, t2, p2) == Lookup(first.table, first.next)
  {
  }

  /**
   * A failed refresh caches nothing, so a later lookup goes to the
   * provider again and, if that succeeds, gets fresh rates.
   */
  lemma FailedRefreshRetries(s: CacheState, t1: int, t2: int, api: map<string, real>)
    requires !IsFresh(s, t1) && t1 <= t2
    ensures ExchangeRates(s, t1, Unavailable).next == s
    ensures ExchangeRates(ExchangeRates(s, t1, Unavailable).next, t2, Quoted(api))
            == Lookup(InvertRates(api), CacheState(Some(InvertRates(api)), Some(t2)))
  {
  }

  /** `rates.get(currency, get_fallback_rates().get(currency, 1.0))`. */
  function RateFor(table: map<string, real>, currency: string): (rate: real)
    ensures currency in table ==> rate == table[currency]
    ensures currency !in table && currency in SupportedCurrencies ==> rate == FallbackRates()[currency]
    ensures currency !in table && currency !in SupportedCurrencies ==> rate == 1.0
    ensures (forall c :: c in table ==> table[c] > 0.0) ==> rate > 0.0
  {
    if currency in table then table[currency]
    else if currency in FallbackRates() then FallbackRates()[currency]
    else 1.0
  }

  /** An amount in rupees and the rate used to get it. */
  datatype Conversion = Conversion(inr: real, rate: real)

  /** `convert_to_inr` once the rate table is known (the rounding to paise is not modelled). */
  function Convert(table: map<string, real>, amount: real, currency: string): (r: Conversion)
    ensures currency == BaseCurrency ==> r == Conversion(amount, 1.0)
    ensures r.inr == amount * r.rate
    ensures currency != BaseCurrency ==> r.rate == RateFor(table, currency)
    ensures WellFormedTable(table) ==> r.rate > 0.0
  {
    if currency == BaseCurrency then Conversion(amount, 1.0)
    else
      var rate := RateFor(table, currency);
      Conversion(amount * rate, rate)
  }

  /**
   * A refreshed table may lack a currency the provider did not quote; that
   * currency is then converted at its fallback rate, mixing live and fixed
   * rates in one table's use.
   */
  lemma UnquotedCurrencyUsesFallback(s: CacheState, now: int, api: map<string, real>)
    requires !IsFresh(s, now) && "USD" !in api
    ensures Convert(ExchangeRates(s, now, Quoted(api)).table, 100.0, "USD") == Conversion(8300.0, 83.0)
  {
  }

  /** With the provider unreachable and no usable cache, 100 dollars become 8300 rupees at the fallback rate. */
  lemma UnreachableProviderUsesFallback(s: CacheState, now: int)
    requires !IsFresh(s, now)
    ensures Convert(ExchangeRates(s, now, Unavailable).table, 100.0, "USD") == Conversion(8300.0, 83.0)
  {
  }

  /** `_rates_cache`: the process-wide exchange-rate cache. */
  class RateCache {
    var rates: Option<map<string, real>>
    var lastUpdated: Option<int>

    function State(): CacheState
      reads this
    {
      CacheState(rates, lastUpdated)
    }

    /** The cache holds nothing yet, or a well-formed table stamped with its refresh time. */
    ghost predicate Valid()
      reads this
    {
      CacheInvariant(State())
    }

    constructor ()
      ensures State() == CacheState(None, None)
      ensures Valid()
    {
      rates, lastUpdated := None, None;
    }

    /** `get_exchange_rates` at time `now`, the provider answering `provider` if it is asked. */
    method GetExchangeRates(now: int, provider: ProviderResult) returns (table: map<string, real>)
      requires Valid()
      modifies this
      ensures Lookup(table, State()) == ExchangeRates(old(State()), now, provider)
      ensures Valid() && WellFormedTable(table)
    {
      if rates.Some? && lastUpdated.Some? && now - lastUpdated.value < CacheDuration {
        return rates.value;
      }
      match provider {
        case Unavailable =>
          return FallbackRates();
        case Quoted(api) =>
          var built := map[BaseCurrency := 1.0];
          for i := 0 to |ForeignCurrencies|
            invariant BaseCurrency in built && built[BaseCurrency] == 1.0
            invariant forall c :: c in built <==>
                        c == BaseCurrency || (c in ForeignCurrencies[..i] && c in api && api[c] > 0.0)
            invariant forall c :: c in built && c != BaseCurrency ==> c in api && built[c] == Inverse(api[c])
          {
            var currency := ForeignCurrencies[i];
            assert ForeignCurrencies[..i + 1] == ForeignCurrencies[..i] + [currency];
            if currency in api && api[currency] > 0.0 {
              built := built[currency := Inverse(api[currency])];
            }
          }
          assert ForeignCurrencies[..3] == ForeignCurrencies;
          InvertRatesUnique(api, built);
          rates, lastUpdated := Some(built), Some(now);
          return built;
      }
    }

    /** `convert_to_inr`: rupees are returned as they are, without consulting the cache. */
    method ConvertToInr(amount: real, currency: string, now: int, provider: ProviderResult)
      returns (inr: real, rate: real)
      requires Valid()
      modifies this
      ensures Valid() && rate > 0.0
      ensures currency == BaseCurrency ==> inr == amount && rate == 1.0 && State() == old(State())
      ensures currency != BaseCurrency ==>
                var l := ExchangeRates(old(State()), now, provider);
                State() == l.next && Conversion(inr, rate) == Convert(l.table, amount, currency)
    {
      if currency == BaseCurrency {
        return amount, 1.0;
      }
      var table := GetExchangeRates(now, provider);
      var c := Convert(table, amount, currency);
      inr, rate := c.inr, c.rate;
    }
  }

  /** The symbols `get_currency_symbol` knows. */
  const Symbols: map<string, string> :=
    map["INR" := "\U{20B9}", "USD" := "$", "GBP" := "\U{00A3}", "THB" := "\U{0E3F}"]

  /** `get_currency_symbol`: the symbol of a known code, any other code as it is. */
  function CurrencySymbol(code: string): (symbol: string)
    ensures code in SupportedCurrencies ==> symbol == Symbols[code] && |symbol| == 1
    ensures code !in SupportedCurrencies ==> symbol == code
  {
    if code in Symbols then Symbols[code] else code
  }
}
