/** Model prices: four rates, perhaps tiers by the size of the request, and the evaluator that picks the rates. */
module ModelCost {
  import opened Results
  import opened Json

  /** A price scaled to a million tokens, if it is a finite number: opaque, rounding included. */
  type Scale = Value -> Option<real>

  datatype Field = Input | Output | CacheRead | CacheWrite

  datatype Rates = Rates(input: real, output: real, cacheRead: real, cacheWrite: real) {
    function At(f: Field): real {
      match f
      case Input => input
      case Output => output
      case CacheRead => cacheRead
      case CacheWrite => cacheWrite
    }

    function With(f: Field, rate: real): (r: Rates)
      ensures forall g :: r.At(g) == if g == f then rate else At(g)
    {
      match f
      case Input => this.(input := rate)
      case Output => this.(output := rate)
      case CacheRead => this.(cacheRead := rate)
      case CacheWrite => this.(cacheWrite := rate)
    }
  }

  /** Rates with the long-context multipliers. */
  function Scaled(rates: Rates, long: LongContext): Rates {
    Rates(rates.input * long.inputMultiplier, rates.output * long.outputMultiplier,
          rates.cacheRead * long.inputMultiplier, rates.cacheWrite * long.inputMultiplier)
  }

  /** A tier may leave rates out. */
  datatype Tier = Tier(inputTokensAbove: int, input: Option<real>, output: Option<real>,
                       cacheRead: Option<real>, cacheWrite: Option<real>) {
    function At(f: Field): Option<real> {
      match f
      case Input => input
      case Output => output
      case CacheRead => cacheRead
      case CacheWrite => cacheWrite
    }

    function With(f: Field, rate: real): (r: Tier)
      ensures r.inputTokensAbove == inputTokensAbove
      ensures forall g :: r.At(g) == if g == f then Some(rate) else At(g)
    {
      match f
      case Input => this.(input := Some(rate))
      case Output => this.(output := Some(rate))
      case CacheRead => this.(cacheRead := Some(rate))
      case CacheWrite => this.(cacheWrite := Some(rate))
    }
  }

  function FullTier(above: int, rates: Rates): (r: Tier)
    ensures r.inputTokensAbove == above && forall f :: r.At(f) == Some(rates.At(f))
  {
    Tier(above, Some(rates.input), Some(rates.output), Some(rates.cacheRead), Some(rates.cacheWrite))
  }

  datatype Cost = Cost(rates: Rates, tiers: seq<Tier>)

  datatype LongContext = LongContext(thresholdTokens: int, inputMultiplier: real, outputMultiplier: real)

  /** Tier `k` has the greatest threshold below `tokens`, and is the first listed of those that have it. */
  ghost predicate ActiveAt(tiers: seq<Tier>, tokens: int, k: nat) {
    && k < |tiers| && tiers[k].inputTokensAbove < tokens
    && (forall i | 0 <= i < k && tiers[i].inputTokensAbove < tokens ::
          tiers[i].inputTokensAbove < tiers[k].inputTokensAbove)
    && (forall i | k < i < |tiers| && tiers[i].inputTokensAbove < tokens ::
          tiers[i].inputTokensAbove <= tiers[k].inputTokensAbove)
  }

  /** The tier that applies to a request of `tokens` input tokens, if there is one. */
  ghost predicate IsActive(tiers: seq<Tier>, tokens: int, active: Option<Tier>) {
    match active
    case None => forall i | 0 <= i < |tiers| :: tokens <= tiers[i].inputTokensAbove
    case Some(tier) => exists k: nat | k < |tiers| :: ActiveAt(tiers, tokens, k) && tiers[k] == tier
  }

  function RateIn(active: Option<Tier>, base: Rates, f: Field): real {
    if active.Some? && active.value.At(f).Some? then active.value.At(f).value else base.At(f)
  }

  predicate UsesLegacy(cost: Cost, long: Option<LongContext>, tokens: int) {
    cost.tiers == [] && long.Some? && tokens > long.value.thresholdTokens
  }

  /** The rates of a request: those of its active tier, else the base rates with the long-context multipliers. */
  method ResolveModelCost(cost: Cost, long: Option<LongContext>, tokens: int)
    returns (rates: Rates, active: Option<Tier>)
    ensures IsActive(cost.tiers, tokens, active)
    ensures !UsesLegacy(cost, long, tokens) ==> forall f :: rates.At(f) == RateIn(active, cost.rates, f)
    ensures UsesLegacy(cost, long, tokens) ==>
      && rates.output == cost.rates.output * long.value.outputMultiplier
      && forall f | f != Output :: rates.At(f) == cost.rates.At(f) * long.value.inputMultiplier
    ensures forall direct: Rates | ResolvesTo(cost, tokens, direct) ::
      rates == if UsesLegacy(cost, long, tokens) then Scaled(direct, long.value) else direct
  {
    active := None;
    if |cost.tiers| > 0 {
      ghost var at := 0;
      for i := 0 to |cost.tiers|
        invariant active.None? ==> IsActive(cost.tiers[..i], tokens, None)
        invariant active.Some? ==> ActiveAt(cost.tiers[..i], tokens, at) && cost.tiers[at] == active.value
      {
        var tier := cost.tiers[i];
        if tokens > tier.inputTokensAbove
           && (active.None? || tier.inputTokensAbove > active.value.inputTokensAbove)
        {
          active := Some(tier);
          at := i;
        }
      }
      assert cost.tiers[..|cost.tiers|] == cost.tiers;
    }
    var useLegacy := |cost.tiers| == 0 && long.Some? && tokens > long.value.thresholdTokens;
    var inputMultiplier := if useLegacy then long.value.inputMultiplier else 1.0;
    var outputMultiplier := if useLegacy then long.value.outputMultiplier else 1.0;
    rates := Rates(RateIn(active, cost.rates, Input) * inputMultiplier,
                   RateIn(active, cost.rates, Output) * outputMultiplier,
                   RateIn(active, cost.rates, CacheRead) * inputMultiplier,
                   RateIn(active, cost.rates, CacheWrite) * inputMultiplier);
    forall direct: Rates | ResolvesTo(cost, tokens, direct)
      ensures rates == if useLegacy then Scaled(direct, long.value) else direct
    {
      ResolvedIs(cost, tokens, active, direct);
    }
  }

  lemma ActiveOnce(tiers: seq<Tier>, tokens: int, i: nat, j: nat)
    requires ActiveAt(tiers, tokens, i) && ActiveAt(tiers, tokens, j)
    ensures i == j
  {}

  lemma ActiveUnique(tiers: seq<Tier>, tokens: int, a: Option<Tier>, b: Option<Tier>)
    requires IsActive(tiers, tokens, a) && IsActive(tiers, tokens, b)
    ensures a == b
  {
    if a.Some? && b.Some? {
      var i: nat :| i < |tiers| && ActiveAt(tiers, tokens, i) && tiers[i] == a.value;
      var j: nat :| j < |tiers| && ActiveAt(tiers, tokens, j) && tiers[j] == b.value;
      ActiveOnce(tiers, tokens, i, j);
    }
  }

  /** The cost gives `rate` for a field of a request of `tokens` input tokens, whatever tier resolving picks. */
  ghost predicate Resolves(cost: Cost, tokens: int, f: Field, rate: real) {
    forall active :: IsActive(cost.tiers, tokens, active) ==> RateIn(active, cost.rates, f) == rate
  }

  /** The cost gives these rates to a request of `tokens` input tokens. */
  ghost predicate ResolvesTo(cost: Cost, tokens: int, rates: Rates) {
    forall f :: Resolves(cost, tokens, f, rates.At(f))
  }

  /** The rates of the active tier are those that the cost resolves to. */
  lemma ResolvedIs(cost: Cost, tokens: int, active: Option<Tier>, direct: Rates)
    requires IsActive(cost.tiers, tokens, active) && ResolvesTo(cost, tokens, direct)
    ensures direct == Rates(RateIn(active, cost.rates, Input), RateIn(active, cost.rates, Output),
                            RateIn(active, cost.rates, CacheRead), RateIn(active, cost.rates, CacheWrite))
  {
    hide IsActive, RateIn;
    assert forall f :: Resolves(cost, tokens, f, direct.At(f));
    assert RateIn(active, cost.rates, Input) == direct.At(Input);
    assert RateIn(active, cost.rates, Output) == direct.At(Output);
    assert RateIn(active, cost.rates, CacheRead) == direct.At(CacheRead);
    assert RateIn(active, cost.rates, CacheWrite) == direct.At(CacheWrite);
  }

  // ---- Thresholds in ascending order ----

  predicate Ascending(s: seq<nat>) {
    forall i, j | 0 <= i < j < |s| :: s[i] < s[j]
  }

  function Insert(x: nat, sorted: seq<nat>): seq<nat> {
    if sorted == [] || x < sorted[0] then [x] + sorted
    else if x == sorted[0] then sorted
    else [sorted[0]] + Insert(x, sorted[1..])
  }

  lemma {:induction false} InsertSorted(x: nat, sorted: seq<nat>)
    requires Ascending(sorted)
    ensures Ascending(Insert(x, sorted))
    ensures forall y :: y in Insert(x, sorted) <==> y == x || y in sorted
  {
    if sorted != [] && x > sorted[0] {
      InsertSorted(x, sorted[1..]);
      ConsAscending(sorted[0], x, sorted[1..], Insert(x, sorted[1..]));
      assert sorted == [sorted[0]] + sorted[1..];
    } else if sorted == [] || x < sorted[0] {
      assert forall y :: y in [x] + sorted <==> y == x || y in sorted;
    }
  }

  lemma ConsAscending(head: nat, x: nat, tail: seq<nat>, more: seq<nat>)
    requires Ascending([head] + tail) && Ascending(more) && head < x
    requires forall y :: y in more <==> y == x || y in tail
    ensures Ascending([head] + more)
    ensures forall y :: y in [head] + more <==> y == x || y in [head] + tail
  {
    forall k | 0 <= k < |more|
      ensures head < more[k]
    {
      assert more[k] in more;
      if more[k] in tail {
        var i :| 0 <= i < |tail| && tail[i] == more[k];
        assert ([head] + tail)[0] == head && ([head] + tail)[i + 1] == tail[i];
      }
    }
  }

  lemma LastBelow(sorted: seq<nat>, tokens: int) returns (k: nat)
    requires Ascending(sorted) && exists i | 0 <= i < |sorted| :: sorted[i] < tokens
    ensures k < |sorted| && forall i | 0 <= i < |sorted| :: sorted[i] < tokens <==> i <= k
  {
    k := |sorted| - 1;
    while sorted[k] >= tokens
      invariant k < |sorted|
      invariant forall i | k < i < |sorted| :: sorted[i] >= tokens
    {
      var i :| 0 <= i < |sorted| && sorted[i] < tokens;
      k := k - 1;
    }
  }

  lemma ActiveTier(cost: Cost, thresholds: seq<nat>, tokens: int, k: nat, f: Field, rate: real)
    requires Ascending(thresholds) && |cost.tiers| == |thresholds| && k < |thresholds|
    requires forall i | 0 <= i < |thresholds| :: cost.tiers[i].inputTokensAbove == thresholds[i]
    requires forall i | 0 <= i < |thresholds| :: thresholds[i] < tokens <==> i <= k
    requires cost.tiers[k].At(f) == Some(rate)
    ensures Resolves(cost, tokens, f, rate)
  {
    assert ActiveAt(cost.tiers, tokens, k);
    forall active | IsActive(cost.tiers, tokens, active)
      ensures RateIn(active, cost.rates, f) == rate
    {
      ActiveUnique(cost.tiers, tokens, active, Some(cost.tiers[k]));
    }
  }

  lemma NoActiveTier(cost: Cost, tokens: int, f: Field)
    requires forall i | 0 <= i < |cost.tiers| :: tokens <= cost.tiers[i].inputTokensAbove
    ensures Resolves(cost, tokens, f, cost.rates.At(f))
  {
    forall active | IsActive(cost.tiers, tokens, active)
      ensures active == None
    {
      ActiveUnique(cost.tiers, tokens, active, None);
    }
  }
}
