/**
 What vendors' price objects mean, entry by entry as they are sent: which keys feed which rates, which entries are
 errors, which are passed over, and which one decides a price. The direct rates that compiled costs are proved against
 are shown to be just these.
 */
module PriceMeaning {
  import opened Results
  import opened Json
  import opened ModelCost
  import OpenRouterPricing
  import GatewayPricing

  type Fields = map<string, Value>

  function At(fields: Fields, key: string): Option<Value> {
    if key in fields then Some(fields[key]) else None
  }

  // ---- OpenRouter ----

  /** An override that depends on the request's size alone; the others are passed over. */
  predicate Counts(v: Value) {
    v.Record? && "min_prompt_tokens" in v.fields
    && forall k | k in ["utc_start", "utc_end", "utc_days", "max_prompt_tokens"] :: k !in v.fields
  }

  predicate IsThreshold(v: Value, threshold: nat) {
    v == Number(threshold as real) && threshold <= MAX_SAFE_INTEGER
  }

  ghost predicate GoodOverride(v: Value) {
    v.Record? && (Counts(v) ==> exists t: nat :: IsThreshold(v.fields["min_prompt_tokens"], t))
  }

  /** Entry `i` overrides the price at `key` of a request of `tokens` input tokens. */
  ghost predicate Overrides(values: seq<Value>, tokens: int, key: string, i: nat) {
    && i < |values| && Counts(values[i]) && key in values[i].fields
    && exists t: nat :: IsThreshold(values[i].fields["min_prompt_tokens"], t) && t < tokens
  }

  /** The price at `key`: the last entry that overrides it decides, and else the base. */
  ghost predicate PriceIs(values: seq<Value>, base: Option<Value>, tokens: int, key: string, price: Option<Value>) {
    if exists i: nat :: Overrides(values, tokens, key, i) then
      exists i: nat :: Overrides(values, tokens, key, i) && price == Some(values[i].fields[key])
                       && forall j: nat | j > i :: !Overrides(values, tokens, key, j)
    else price == base
  }

  /** An absent price is zero, and so is a negative one. */
  predicate RateOf(scale: Scale, price: Option<Value>, rate: real) {
    if price.None? || price.value == Null then rate == 0.0
    else
      && (price.value.Number? || price.value.Text?) && scale(price.value).Some?
      && rate == if scale(price.value).value < 0.0 then 0.0 else scale(price.value).value
  }

  function Entries(pricing: Fields): seq<Value> {
    if "overrides" in pricing && pricing["overrides"].List? then pricing["overrides"].items else []
  }

  ghost predicate GoodEntries(pricing: Fields) {
    && (Missing(pricing, "overrides") || pricing["overrides"].List?)
    && forall v | v in Entries(pricing) :: GoodOverride(v)
  }

  ghost predicate RateAt(scale: Scale, pricing: Fields, tokens: int, key: string, rate: real) {
    exists price :: PriceIs(Entries(pricing), At(pricing, key), tokens, key, price) && RateOf(scale, price, rate)
  }

  lemma ThresholdIs(v: Value)
    ensures (v.Number? && IsSafeInteger(v.n) && v.n.Floor >= 0) <==> exists t: nat :: IsThreshold(v, t)
    ensures forall t: nat | IsThreshold(v, t) :: v.Number? && v.n.Floor == t
  {
    if v.Number? && IsSafeInteger(v.n) && v.n.Floor >= 0 {
      assert IsThreshold(v, v.n.Floor);
    }
  }

  lemma OverrideIs(v: Value)
    ensures OpenRouterPricing.ParseOverride(v).Ok? <==> GoodOverride(v)
    ensures GoodOverride(v) ==> var o := OpenRouterPricing.ParseOverride(v).value;
      && (o.Some? <==> Counts(v))
      && (o.Some? ==> IsThreshold(v.fields["min_prompt_tokens"], o.value.threshold) && o.value.pricing == v.fields)
  {
    if Counts(v) {
      ThresholdIs(v.fields["min_prompt_tokens"]);
    }
  }

  lemma {:induction false} OverridesParse(values: seq<Value>)
    ensures OpenRouterPricing.ParseOverrides(values).Ok? <==> forall v | v in values :: GoodOverride(v)
  {
    hide GoodOverride, OpenRouterPricing.ParseOverride;
    if values != [] {
      var before, last := values[..|values| - 1], values[|values| - 1];
      OverridesParse(before);
      OverrideIs(last);
      assert values == before + [last];
    }
  }

  /** The price of `key` once the overrides among these entries are applied. */
  ghost function PriceAfter(values: seq<Value>, pricing: Fields, tokens: int, key: string): Option<Value>
    requires OpenRouterPricing.ParseOverrides(values).Ok?
  {
    At(OpenRouterPricing.Applied(pricing, OpenRouterPricing.ParseOverrides(values).value, tokens), key)
  }

  lemma PriceNext(before: seq<Value>, last: Value, pricing: Fields, tokens: int, key: string)
    requires OpenRouterPricing.ParseOverrides(before + [last]).Ok?
    ensures OpenRouterPricing.ParseOverrides(before).Ok? && OpenRouterPricing.ParseOverride(last).Ok?
    ensures var o := OpenRouterPricing.ParseOverride(last).value;
      PriceAfter(before + [last], pricing, tokens, key) ==
        if o.Some? && o.value.threshold < tokens && key in o.value.pricing then At(o.value.pricing, key)
        else PriceAfter(before, pricing, tokens, key)
  {
    hide OpenRouterPricing.ParseOverride;
    assert (before + [last])[..|before|] == before;
    var o := OpenRouterPricing.ParseOverride(last).value;
    var overrides := OpenRouterPricing.ParseOverrides(before).value;
    if o.Some? {
      assert (overrides + [o.value])[..|overrides|] == overrides;
    } else {
      assert overrides + [] == overrides;
    }
  }

  lemma {:induction false} AppliedPrice(values: seq<Value>, pricing: Fields, tokens: int, key: string)
    requires OpenRouterPricing.ParseOverrides(values).Ok?
    ensures PriceIs(values, At(pricing, key), tokens, key, PriceAfter(values, pricing, tokens, key))
  {
    hide OpenRouterPricing.ParseOverride, OpenRouterPricing.ParseOverrides, PriceAfter, Counts, IsThreshold, PriceIs,
      Overrides;
    if values == [] {
      NothingAfter(pricing, tokens, key);
      NoPrice(At(pricing, key), tokens, key);
    } else {
      var before, last := values[..|values| - 1], values[|values| - 1];
      assert values == before + [last];
      PriceNext(before, last, pricing, tokens, key);
      AppliedPrice(before, pricing, tokens, key);
      OverridesParse(values);
      OverrideIs(last);
      LastOverrides(before, last, tokens, key, OpenRouterPricing.ParseOverride(last).value);
      OneMorePrice(before, last, At(pricing, key), tokens, key, PriceAfter(before, pricing, tokens, key));
    }
  }

  lemma NothingAfter(pricing: Fields, tokens: int, key: string)
    requires OpenRouterPricing.ParseOverrides([]).Ok?
    ensures PriceAfter([], pricing, tokens, key) == At(pricing, key)
  {}

  lemma NoPrice(base: Option<Value>, tokens: int, key: string)
    ensures PriceIs([], base, tokens, key, base)
  {}

  lemma LastOverrides(before: seq<Value>, last: Value, tokens: int, key: string,
                      o: Option<OpenRouterPricing.Override>)
    requires GoodOverride(last) && (o.Some? <==> Counts(last))
    requires o.Some? ==> IsThreshold(last.fields["min_prompt_tokens"], o.value.threshold)
    ensures Overrides(before + [last], tokens, key, |before|)
       <==> o.Some? && o.value.threshold < tokens && key in last.fields
  {
    if o.Some? {
      ThresholdIs(last.fields["min_prompt_tokens"]);
    }
  }

  lemma OneMorePrice(before: seq<Value>, last: Value, base: Option<Value>, tokens: int, key: string,
                     price: Option<Value>)
    requires last.Record? && PriceIs(before, base, tokens, key, price)
    ensures var values, n := before + [last], |before|;
      PriceIs(values, base, tokens, key,
              if Overrides(values, tokens, key, n) then At(last.fields, key) else price)
  {
    hide IsThreshold;
    var values, n := before + [last], |before|;
    forall i: nat | i < n
      ensures Overrides(values, tokens, key, i) <==> Overrides(before, tokens, key, i)
    {
      assert values[i] == before[i];
    }
    if !Overrides(values, tokens, key, n) && exists i: nat :: Overrides(before, tokens, key, i) {
      var i: nat :| Overrides(before, tokens, key, i) && price == Some(before[i].fields[key])
                    && forall j: nat | j > i :: !Overrides(before, tokens, key, j);
      assert Overrides(values, tokens, key, i) && price == Some(values[i].fields[key]);
    }
  }

  lemma RatesAre(scale: Scale, pricing: Fields, rates: Rates)
    ensures OpenRouterPricing.ParseRates(scale, pricing) == Ok(rates) <==>
      && RateOf(scale, At(pricing, "prompt"), rates.input) && RateOf(scale, At(pricing, "completion"), rates.output)
      && RateOf(scale, At(pricing, "input_cache_read"), rates.cacheRead)
      && RateOf(scale, At(pricing, "input_cache_write"), rates.cacheWrite)
  {}

  lemma PriceOnce(values: seq<Value>, base: Option<Value>, tokens: int, key: string, a: Option<Value>, b: Option<Value>)
    requires PriceIs(values, base, tokens, key, a) && PriceIs(values, base, tokens, key, b)
    ensures a == b
  {
    hide Overrides;
  }

  /** The direct rates of a request are those of the four keys, each decided by its last applicable override. */
  lemma DirectIs(scale: Scale, pricing: Fields, tokens: int, rates: Rates)
    ensures OpenRouterPricing.DirectRates(scale, pricing, tokens) == Ok(rates) <==>
      && GoodEntries(pricing)
      && RateAt(scale, pricing, tokens, "prompt", rates.input)
      && RateAt(scale, pricing, tokens, "completion", rates.output)
      && RateAt(scale, pricing, tokens, "input_cache_read", rates.cacheRead)
      && RateAt(scale, pricing, tokens, "input_cache_write", rates.cacheWrite)
  {
    hide OpenRouterPricing.ParseRates, OpenRouterPricing.ParseOverrides, OpenRouterPricing.Applied, PriceIs, RateOf,
      GoodOverride, RateAt;
    var values := Entries(pricing);
    OverridesParse(values);
    NothingParsed();
    if GoodEntries(pricing) {
      var applied := OpenRouterPricing.Applied(pricing, OpenRouterPricing.ParseOverrides(values).value, tokens);
      RatesAre(scale, applied, rates);
      RateApplied(scale, pricing, tokens, "prompt", rates.input);
      RateApplied(scale, pricing, tokens, "completion", rates.output);
      RateApplied(scale, pricing, tokens, "input_cache_read", rates.cacheRead);
      RateApplied(scale, pricing, tokens, "input_cache_write", rates.cacheWrite);
    }
  }

  lemma NothingParsed()
    ensures OpenRouterPricing.ParseOverrides([]) == Ok([])
  {}

  lemma RateApplied(scale: Scale, pricing: Fields, tokens: int, key: string, rate: real)
    requires OpenRouterPricing.ParseOverrides(Entries(pricing)).Ok?
    ensures var applied :=
        OpenRouterPricing.Applied(pricing, OpenRouterPricing.ParseOverrides(Entries(pricing)).value, tokens);
      RateAt(scale, pricing, tokens, key, rate) <==> RateOf(scale, At(applied, key), rate)
  {
    hide OpenRouterPricing.ParseOverrides, OpenRouterPricing.Applied, PriceIs, RateOf;
    var values := Entries(pricing);
    var price := PriceAfter(values, pricing, tokens, key);
    AppliedPrice(values, pricing, tokens, key);
    forall other | PriceIs(values, At(pricing, key), tokens, key, other)
      ensures other == price
    {
      PriceOnce(values, At(pricing, key), tokens, key, price, other);
    }
  }

  // ---- The gateway ----

  /** A price that is present must be one, and not negative; an absent one is zero. */
  predicate GatewayRateOf(scale: Scale, price: Option<Value>, rate: real) {
    if price.None? || price.value == Null then rate == 0.0
    else (price.value.Number? || price.value.Text?) && scale(price.value) == Some(rate) && rate >= 0.0
  }

  /** Entry: from `min` tokens on, zero if absent, the rate is `rate`; its price must be there. */
  predicate EntryIs(scale: Scale, e: GatewayPricing.Entry, min: nat, rate: real) {
    && (if e.min.None? || e.min.value == Null then min == 0 else IsThreshold(e.min.value, min))
    && e.cost.Some? && e.cost.value != Null && GatewayRateOf(scale, e.cost, rate)
  }

  ghost predicate IsEntry(scale: Scale, e: GatewayPricing.Entry) {
    exists min: nat, rate :: EntryIs(scale, e, min, rate)
  }

  /** Entry `i` sets the rate from not more than `tokens` on; later entries reach less far, and none reaches further. */
  ghost predicate SetsRate(scale: Scale, entries: seq<GatewayPricing.Entry>, tokens: nat, i: nat, rate: real) {
    && i < |entries|
    && exists min: nat ::
      && EntryIs(scale, entries[i], min, rate) && min <= tokens
      && forall j: nat, m: nat, r | j < |entries| && EntryIs(scale, entries[j], m, r) && m <= tokens ::
           m < min || (m == min && j <= i)
  }

  /** The rate of a request: that of the entry that reaches furthest, the last of equals, and else the base rate. */
  ghost predicate GatewayRateIs(scale: Scale, base: Option<Value>, entries: seq<GatewayPricing.Entry>, tokens: nat,
                                rate: real) {
    if exists i: nat, r :: SetsRate(scale, entries, tokens, i, r)
    then exists i: nat :: SetsRate(scale, entries, tokens, i, rate)
    else GatewayRateOf(scale, base, rate)
  }

  lemma EntryParsed(scale: Scale, e: GatewayPricing.Entry, min: nat, rate: real)
    ensures GatewayPricing.ParseEntry(scale, e) == Ok(GatewayPricing.Parsed(min, rate))
       <==> EntryIs(scale, e, min, rate)
  {
    if e.min.Some? && e.min.value != Null {
      ThresholdIs(e.min.value);
    }
    assert IsSafeInteger(0.0);
  }

  lemma {:induction false} EntriesParsed(scale: Scale, entries: seq<GatewayPricing.Entry>)
    ensures GatewayPricing.ParseEntries(scale, entries).Ok? <==> forall e | e in entries :: IsEntry(scale, e)
    ensures GatewayPricing.ParseEntries(scale, entries).Ok? ==>
      var parsed := GatewayPricing.ParseEntries(scale, entries).value;
      |parsed| == |entries|
      && forall i | 0 <= i < |entries| :: EntryIs(scale, entries[i], parsed[i].min, parsed[i].rate)
  {
    hide EntryIs, GatewayPricing.ParseEntry;
    if entries != [] {
      var before, last := entries[..|entries| - 1], entries[|entries| - 1];
      EntriesParsed(scale, before);
      assert entries == before + [last];
      var parsed := GatewayPricing.ParseEntry(scale, last);
      if parsed.Ok? {
        EntryParsed(scale, last, parsed.value.min, parsed.value.rate);
        assert IsEntry(scale, last);
      }
      assert last in entries && forall e | e in before :: e in entries;
      forall min: nat, rate | EntryIs(scale, last, min, rate)
        ensures parsed.Ok?
      {
        EntryParsed(scale, last, min, rate);
      }
    }
  }

  lemma EntryOnce(scale: Scale, e: GatewayPricing.Entry, m: nat, r: real, n: nat, s: real)
    requires EntryIs(scale, e, m, r) && EntryIs(scale, e, n, s)
    ensures m == n && r == s
  {
    if e.min.Some? && e.min.value != Null {
      ThresholdIs(e.min.value);
    }
  }

  /** The best of the parsed entries is the one that sets the rate. */
  lemma BestSets(scale: Scale, entries: seq<GatewayPricing.Entry>, tokens: nat, i: nat, rate: real)
    requires GatewayPricing.ParseEntries(scale, entries).Ok?
    ensures var parsed := GatewayPricing.ParseEntries(scale, entries).value;
      SetsRate(scale, entries, tokens, i, rate)
      <==> GatewayPricing.BestAt(parsed, tokens, i) && parsed[i].rate == rate
  {
    hide EntryIs, GatewayPricing.ParseEntries;
    EntriesParsed(scale, entries);
    var parsed := GatewayPricing.ParseEntries(scale, entries).value;
    forall j: nat, m: nat, r | j < |entries| && EntryIs(scale, entries[j], m, r)
      ensures m == parsed[j].min && r == parsed[j].rate
    {
      EntryOnce(scale, entries[j], m, r, parsed[j].min, parsed[j].rate);
    }
    if GatewayPricing.BestAt(parsed, tokens, i) && parsed[i].rate == rate {
      assert EntryIs(scale, entries[i], parsed[i].min, rate);
    }
    if SetsRate(scale, entries, tokens, i, rate) {
      forall j | 0 <= j < |parsed| && parsed[j].min <= tokens
        ensures parsed[j].min < parsed[i].min || (parsed[j].min == parsed[i].min && j <= i)
      {
        assert EntryIs(scale, entries[j], parsed[j].min, parsed[j].rate);
      }
    }
  }

  lemma BestOnce(entries: seq<GatewayPricing.Parsed>, tokens: nat, i: nat, j: nat)
    requires GatewayPricing.BestAt(entries, tokens, i) && GatewayPricing.BestAt(entries, tokens, j)
    ensures i == j
  {}

  /** Merging succeeds on a pricing exactly when every base price and every entry is good. */
  lemma PricedIs(scale: Scale, pricing: GatewayPricing.Pricing)
    ensures GatewayPricing.Priced(scale, pricing) <==> forall f ::
      && (exists rate :: GatewayRateOf(scale, pricing.base(f), rate))
      && forall e | e in pricing.tiers(f) :: IsEntry(scale, e)
  {
    hide IsEntry, GatewayPricing.ParseEntries;
    forall f
      ensures GatewayPricing.PerMillionRate(scale, pricing.base(f)).Ok? <==>
        exists rate :: GatewayRateOf(scale, pricing.base(f), rate)
      ensures GatewayPricing.ParseEntries(scale, pricing.tiers(f)).Ok? <==>
        forall e | e in pricing.tiers(f) :: IsEntry(scale, e)
    {
      BaseIs(scale, pricing.base(f));
      EntriesParsed(scale, pricing.tiers(f));
    }
  }

  lemma BaseIs(scale: Scale, base: Option<Value>)
    ensures forall rate :: GatewayPricing.PerMillionRate(scale, base) == Ok(rate) <==> GatewayRateOf(scale, base, rate)
    ensures GatewayPricing.PerMillionRate(scale, base).Ok? <==> exists rate :: GatewayRateOf(scale, base, rate)
  {
    var parsed := GatewayPricing.PerMillionRate(scale, base);
    if parsed.Ok? {
      assert GatewayRateOf(scale, base, parsed.value);
    }
  }

  /** The rate that a merged pricing resolves to is the one its entries say. */
  lemma GatewayIs(scale: Scale, pricing: GatewayPricing.Pricing, f: Field, tokens: nat, rate: real)
    requires GatewayPricing.Priced(scale, pricing)
    ensures GatewayPricing.GatewayRate(scale, pricing, f, tokens) == rate
       <==> GatewayRateIs(scale, pricing.base(f), pricing.tiers(f), tokens, rate)
  {
    hide SetsRate, GatewayPricing.BestAt, GatewayPricing.ParseEntries, GatewayPricing.Best, GatewayRateOf,
      GatewayPricing.PerMillionRate;
    var entries := pricing.tiers(f);
    var parsed := GatewayPricing.ParseEntries(scale, entries).value;
    BaseIs(scale, pricing.base(f));
    GatewayPricing.BestIsGreatest(parsed, tokens);
    forall i: nat, r
      ensures SetsRate(scale, entries, tokens, i, r) <==>
        GatewayPricing.BestAt(parsed, tokens, i) && i < |parsed| && parsed[i].rate == r
    {
      BestSets(scale, entries, tokens, i, r);
      BestInside(parsed, tokens, i);
    }
    if GatewayPricing.Best(parsed, tokens).Some? {
      var k: nat :| k < |parsed| && GatewayPricing.BestAt(parsed, tokens, k)
                    && parsed[k] == GatewayPricing.Best(parsed, tokens).value;
      assert SetsRate(scale, entries, tokens, k, parsed[k].rate);
      forall i: nat, r | SetsRate(scale, entries, tokens, i, r)
        ensures i == k && r == parsed[k].rate
      {
        BestOnce(parsed, tokens, i, k);
      }
    } else {
      forall i: nat, r
        ensures !SetsRate(scale, entries, tokens, i, r)
      {
        BestInside(parsed, tokens, i);
      }
    }
  }

  lemma BestInside(entries: seq<GatewayPricing.Parsed>, tokens: nat, i: nat)
    ensures GatewayPricing.BestAt(entries, tokens, i) ==> i < |entries| && entries[i].min <= tokens
  {}
}
