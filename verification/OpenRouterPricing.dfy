/**
 Compiling OpenRouter price overrides to tiers. An override with a prompt-token threshold changes price keys of requests
 above it; later overrides win per key, whatever their thresholds. The compiled tiers give every request the rates that
 applying its overrides in listed order gives.
 */
module OpenRouterPricing {
  import opened Results
  import opened Json
  import opened ModelCost

  type Pricing = map<string, Value>

  function MaxZero(x: real): real {
    if x < 0.0 then 0.0 else x
  }

  function ParseRate(scale: Scale, pricing: Pricing, field: string): Result<real> {
    if Missing(pricing, field) then Ok(0.0)
    else if !(pricing[field].Number? || pricing[field].Text?) || scale(pricing[field]).None?
      then Err("Invalid OpenRouter price")
    else Ok(MaxZero(scale(pricing[field]).value))
  }

  function ParseRates(scale: Scale, pricing: Pricing): Result<Rates> {
    var input := ParseRate(scale, pricing, "prompt");
    var output := ParseRate(scale, pricing, "completion");
    var cacheRead := ParseRate(scale, pricing, "input_cache_read");
    var cacheWrite := ParseRate(scale, pricing, "input_cache_write");
    if input.Ok? && output.Ok? && cacheRead.Ok? && cacheWrite.Ok?
    then Ok(Rates(input.value, output.value, cacheRead.value, cacheWrite.value))
    else Err("Invalid OpenRouter price")
  }

  datatype Override = Override(threshold: nat, pricing: Pricing)

  /** Overrides that depend on the time of day or have an upper bound are left out; a bad threshold is an error. */
  function ParseOverride(value: Value): Result<Option<Override>> {
    if !value.Record? then Err("Invalid OpenRouter price override")
    else
      var o := value.fields;
      if "min_prompt_tokens" !in o || "utc_start" in o || "utc_end" in o || "utc_days" in o || "max_prompt_tokens" in o
      then Ok(None)
      else
        var min := o["min_prompt_tokens"];
        if min.Number? && IsSafeInteger(min.n) && min.n.Floor >= 0 then Ok(Some(Override(min.n.Floor, o)))
        else Err("Invalid OpenRouter prompt-token price threshold")
  }

  function ParseOverrides(values: seq<Value>): Result<seq<Override>> {
    if values == [] then Ok([])
    else
      var before := ParseOverrides(values[..|values| - 1]);
      var last := ParseOverride(values[|values| - 1]);
      if before.Err? then Err(before.message)
      else if last.Err? then Err(last.message)
      else Ok(before.value + if last.value.Some? then [last.value.value] else [])
  }

  /** The prices of a request of `tokens` input tokens: every override below its size applied, in listed order. */
  function Applied(pricing: Pricing, overrides: seq<Override>, tokens: int): Pricing {
    if overrides == [] then pricing
    else
      var last := overrides[|overrides| - 1];
      var before := Applied(pricing, overrides[..|overrides| - 1], tokens);
      if last.threshold < tokens then before + last.pricing else before
  }

  /** The overrides of a price object, when it has a list of them. */
  function OverridesOf(pricing: Pricing): Result<seq<Override>> {
    if Missing(pricing, "overrides") then Ok([])
    else if !pricing["overrides"].List? then Err("Invalid OpenRouter price overrides")
    else ParseOverrides(pricing["overrides"].items)
  }

  /** What the vendor's prices say about a request of `tokens` input tokens. */
  function DirectRates(scale: Scale, pricing: Pricing, tokens: int): Result<Rates> {
    var overrides := OverridesOf(pricing);
    if overrides.Err? then Err(overrides.message) else ParseRates(scale, Applied(pricing, overrides.value, tokens))
  }

  /** The same overrides apply to two requests, so they have the same prices. */
  lemma {:induction false} AppliedSame(pricing: Pricing, overrides: seq<Override>, a: int, b: int)
    requires forall i | 0 <= i < |overrides| :: overrides[i].threshold < a <==> overrides[i].threshold < b
    ensures Applied(pricing, overrides, a) == Applied(pricing, overrides, b)
  {
    if overrides != [] {
      AppliedSame(pricing, overrides[..|overrides| - 1], a, b);
    }
  }

  /** The distinct thresholds in ascending order. */
  function Thresholds(overrides: seq<Override>): seq<nat> {
    if overrides == [] then []
    else Insert(overrides[|overrides| - 1].threshold, Thresholds(overrides[..|overrides| - 1]))
  }

  lemma {:induction false} ThresholdsSorted(overrides: seq<Override>)
    ensures Ascending(Thresholds(overrides))
    ensures forall i | 0 <= i < |overrides| :: overrides[i].threshold in Thresholds(overrides)
    ensures forall t :: t in Thresholds(overrides) ==> exists i | 0 <= i < |overrides| :: overrides[i].threshold == t
  {
    if overrides != [] {
      var before := overrides[..|overrides| - 1];
      ThresholdsSorted(before);
      InsertSorted(overrides[|overrides| - 1].threshold, Thresholds(before));
      forall t | t in Thresholds(overrides)
        ensures exists i | 0 <= i < |overrides| :: overrides[i].threshold == t
      {
        if t in Thresholds(before) {
          var i :| 0 <= i < |before| && before[i].threshold == t;
          assert overrides[i].threshold == t;
        } else {
          assert overrides[|overrides| - 1].threshold == t;
        }
      }
    }
  }

  /** Tier `k` holds the rates of the requests just above its threshold. */
  ghost predicate TiersMatch(scale: Scale, pricing: Pricing, overrides: seq<Override>, thresholds: seq<nat>,
                             tiers: seq<Tier>) {
    |tiers| <= |thresholds| && forall k | 0 <= k < |tiers| ::
      var rates := ParseRates(scale, Applied(pricing, overrides, thresholds[k] + 1));
      rates.Ok? && tiers[k] == FullTier(thresholds[k], rates.value)
  }

  /** With a tier for every threshold, resolving gives every request its direct rates. */
  lemma TiersResolve(scale: Scale, pricing: Pricing, overrides: seq<Override>, cost: Cost, tokens: int)
    requires var base := ParseRates(scale, pricing); base.Ok? && cost.rates == base.value
    requires TiersMatch(scale, pricing, overrides, Thresholds(overrides), cost.tiers)
    requires |cost.tiers| == |Thresholds(overrides)|
    ensures var direct := ParseRates(scale, Applied(pricing, overrides, tokens));
      direct.Ok? && forall f :: Resolves(cost, tokens, f, direct.value.At(f))
  {
    hide ParseRates, Resolves, IsActive, ActiveAt;
    var thresholds := Thresholds(overrides);
    ThresholdsSorted(overrides);
    var direct := ParseRates(scale, Applied(pricing, overrides, tokens));
    if exists k | 0 <= k < |thresholds| :: thresholds[k] < tokens {
      var k := LastBelow(thresholds, tokens);
      SameAbove(pricing, overrides, tokens, k);
      forall f
        ensures Resolves(cost, tokens, f, direct.value.At(f))
      {
        ActiveTier(cost, thresholds, tokens, k, f, direct.value.At(f));
      }
    } else {
      NoneAbove(pricing, overrides, tokens);
      forall f
        ensures Resolves(cost, tokens, f, direct.value.At(f))
      {
        NoActiveTier(cost, tokens, f);
      }
    }
  }

  lemma SameAbove(pricing: Pricing, overrides: seq<Override>, tokens: int, k: nat)
    requires var ts := Thresholds(overrides);
      k < |ts| && forall i | 0 <= i < |ts| :: ts[i] < tokens <==> i <= k
    ensures Applied(pricing, overrides, Thresholds(overrides)[k] + 1) == Applied(pricing, overrides, tokens)
  {
    var thresholds := Thresholds(overrides);
    ThresholdsSorted(overrides);
    forall i | 0 <= i < |overrides|
      ensures overrides[i].threshold < thresholds[k] + 1 <==> overrides[i].threshold < tokens
    {
      var j :| 0 <= j < |thresholds| && thresholds[j] == overrides[i].threshold;
    }
    AppliedSame(pricing, overrides, thresholds[k] + 1, tokens);
  }

  lemma NoneAbove(pricing: Pricing, overrides: seq<Override>, tokens: int)
    requires forall k | 0 <= k < |Thresholds(overrides)| :: tokens <= Thresholds(overrides)[k]
    ensures Applied(pricing, overrides, tokens) == pricing
  {
    var thresholds := Thresholds(overrides);
    ThresholdsSorted(overrides);
    forall i | 0 <= i < |overrides|
      ensures tokens <= overrides[i].threshold
    {
      var j :| 0 <= j < |thresholds| && thresholds[j] == overrides[i].threshold;
    }
    NoneApplied(pricing, overrides, tokens);
  }

  lemma {:induction false} NoneApplied(pricing: Pricing, overrides: seq<Override>, tokens: int)
    requires forall i | 0 <= i < |overrides| :: tokens <= overrides[i].threshold
    ensures Applied(pricing, overrides, tokens) == pricing
  {
    if overrides != [] {
      NoneApplied(pricing, overrides[..|overrides| - 1], tokens);
    }
  }

  /**
   Compiling a price object. It succeeds exactly when the direct meaning is defined for requests of every size, and then
   resolving the compiled cost gives every request its direct rates.
   */
  method ParseOpenRouterCatalogCost(scale: Scale, value: Option<Value>) returns (result: Result<Cost>)
    ensures var pricing := if value.Some? && value.value.Record? then value.value.fields else map[];
      if value.Some? && value.value != Null && !value.value.Record? then result.Err?
      else
        && (result.Ok? <==> forall tokens :: DirectRates(scale, pricing, tokens).Ok?)
        && (result.Ok? ==> forall tokens, f ::
              Resolves(result.value, tokens, f, DirectRates(scale, pricing, tokens).value.At(f)))
  {
    if value.Some? && value.value != Null && !value.value.Record? {
      return Err("Invalid OpenRouter price object");
    }
    hide ParseRates, Resolves, ParseOverrides;
    var pricing := if value.Some? && value.value.Record? then value.value.fields else map[];
    BaseDirect(scale, pricing);
    var cost := ParseRates(scale, pricing);
    if cost.Err? {
      assert !DirectRates(scale, pricing, 0).Ok?;
      return Err(cost.message);
    }
    if Missing(pricing, "overrides") {
      var tiers := CompileTiers(scale, pricing, [], cost.value);
      return Ok(Cost(cost.value, tiers.value));
    }
    if !pricing["overrides"].List? {
      assert !DirectRates(scale, pricing, 0).Ok?;
      return Err("Invalid OpenRouter price overrides");
    }
    var overrides := ParseOverrides(pricing["overrides"].items);
    if overrides.Err? {
      assert !DirectRates(scale, pricing, 0).Ok?;
      return Err(overrides.message);
    }
    assert forall tokens ::
      DirectRates(scale, pricing, tokens) == ParseRates(scale, Applied(pricing, overrides.value, tokens));
    var tiers := CompileTiers(scale, pricing, overrides.value, cost.value);
    if tiers.Err? {
      ghost var tokens :| ParseRates(scale, Applied(pricing, overrides.value, tokens)).Err?;
      assert !DirectRates(scale, pricing, tokens).Ok?;
      return Err(tiers.message);
    }
    forall tokens
      ensures DirectRates(scale, pricing, tokens).Ok?
    {
      assert ParseRates(scale, Applied(pricing, overrides.value, tokens)).Ok?;
    }
    return Ok(Cost(cost.value, tiers.value));
  }

  /** No override applies to an empty request. */
  lemma BaseDirect(scale: Scale, pricing: Pricing)
    ensures OverridesOf(pricing).Ok? ==> DirectRates(scale, pricing, 0) == ParseRates(scale, pricing)
  {
    if OverridesOf(pricing).Ok? {
      NoneApplied(pricing, OverridesOf(pricing).value, 0);
    }
  }

  /** One tier for each distinct threshold. */
  method CompileTiers(scale: Scale, pricing: Pricing, overrides: seq<Override>, base: Rates)
    returns (tiers: Result<seq<Tier>>)
    requires ParseRates(scale, pricing) == Ok(base)
    ensures tiers.Ok? <==> forall tokens :: ParseRates(scale, Applied(pricing, overrides, tokens)).Ok?
    ensures tiers.Ok? ==> forall tokens, f ::
      Resolves(Cost(base, tiers.value), tokens, f, ParseRates(scale, Applied(pricing, overrides, tokens)).value.At(f))
    ensures overrides == [] ==> tiers.Ok?
  {
    hide ParseRates, Resolves;
    var thresholds := Thresholds(overrides);
    var found: seq<Tier> := [];
    for k := 0 to |thresholds|
      invariant |found| == k && TiersMatch(scale, pricing, overrides, thresholds, found)
    {
      var effective := Effective(pricing, overrides, thresholds[k]);
      var rates := ParseRates(scale, effective);
      if rates.Err? {
        assert !ParseRates(scale, Applied(pricing, overrides, thresholds[k] + 1)).Ok?;
        return Err(rates.message);
      }
      found := found + [FullTier(thresholds[k], rates.value)];
    }
    forall tokens
      ensures var direct := ParseRates(scale, Applied(pricing, overrides, tokens));
        direct.Ok? && forall f :: Resolves(Cost(base, found), tokens, f, direct.value.At(f))
    {
      TiersResolve(scale, pricing, overrides, Cost(base, found), tokens);
    }
    return Ok(found);
  }

  /** Later applicable overrides win per price key. */
  method Effective(pricing: Pricing, overrides: seq<Override>, threshold: nat) returns (effective: Pricing)
    ensures effective == Applied(pricing, overrides, threshold + 1)
  {
    effective := pricing;
    for i := 0 to |overrides|
      invariant effective == Applied(pricing, overrides[..i], threshold + 1)
    {
      assert overrides[..i + 1][..i] == overrides[..i];
      if overrides[i].threshold <= threshold {
        effective := effective + overrides[i].pricing;
      }
    }
    assert overrides[..|overrides|] == overrides;
  }
}
