/**
 Merging the gateway's four per-field tier lists into one list of tiers with all four rates: every tier takes the rates
 it lacks from the tier below it. Resolving the merged tiers gives, for each field, the rate of that field's own entry.
 */
module GatewayPricing {
  import opened Results
  import opened Json
  import opened ModelCost

  /** One entry of a field's tier list, as the gateway sends it. */
  datatype Entry = Entry(min: Option<Value>, cost: Option<Value>)

  /** What the gateway says about a model's prices: for each field a base price and a list of tiers. */
  datatype Pricing = Pricing(base: Field -> Option<Value>, tiers: Field -> seq<Entry>)

  function PerMillionRate(scale: Scale, value: Option<Value>): Result<real> {
    if value.None? || value.value == Null then Ok(0.0)
    else if !(value.value.Number? || value.value.Text?) || scale(value.value).None? || scale(value.value).value < 0.0
    then Err("Invalid Vercel AI Gateway price")
    else Ok(scale(value.value).value)
  }

  datatype Parsed = Parsed(min: nat, rate: real)

  function ParseEntry(scale: Scale, e: Entry): Result<Parsed> {
    var minimum := if e.min.None? || e.min.value == Null then Number(0.0) else e.min.value;
    if !minimum.Number? || !IsSafeInteger(minimum.n) || minimum.n < 0.0 then Err("Invalid Vercel AI Gateway threshold")
    else if e.cost.None? || e.cost.value == Null then Err("Missing Vercel AI Gateway price")
    else
      var rate := PerMillionRate(scale, e.cost);
      if rate.Err? then Err(rate.message) else Ok(Parsed(minimum.n.Floor, rate.value))
  }

  function ParseEntries(scale: Scale, entries: seq<Entry>): Result<seq<Parsed>> {
    if entries == [] then Ok([])
    else
      var before := ParseEntries(scale, entries[..|entries| - 1]);
      var last := ParseEntry(scale, entries[|entries| - 1]);
      if before.Err? then Err(before.message)
      else if last.Err? then Err(last.message)
      else Ok(before.value + [last.value])
  }

  /** The entry with the greatest minimum not above `tokens`; of several, the last listed. */
  function Best(entries: seq<Parsed>, tokens: nat): Option<Parsed> {
    if entries == [] then None
    else
      var last := entries[|entries| - 1];
      var best := Best(entries[..|entries| - 1], tokens);
      if last.min <= tokens && (best.None? || best.value.min <= last.min) then Some(last) else best
  }

  ghost predicate BestAt(entries: seq<Parsed>, tokens: nat, k: nat) {
    && k < |entries| && entries[k].min <= tokens
    && (forall i | 0 <= i < |entries| && entries[i].min <= tokens :: entries[i].min <= entries[k].min)
    && (forall i | k < i < |entries| && entries[i].min <= tokens :: entries[i].min < entries[k].min)
  }

  lemma {:induction false} BestIsGreatest(entries: seq<Parsed>, tokens: nat)
    ensures Best(entries, tokens).None? <==> forall i | 0 <= i < |entries| :: tokens < entries[i].min
    ensures Best(entries, tokens).Some? ==>
      exists k: nat | k < |entries| :: BestAt(entries, tokens, k) && entries[k] == Best(entries, tokens).value
  {
    if entries != [] {
      var n := |entries| - 1;
      var before := entries[..n];
      BestIsGreatest(before, tokens);
      if Best(before, tokens).Some? {
        var k: nat :| k < n && BestAt(before, tokens, k) && before[k] == Best(before, tokens).value;
        BestExtends(entries, tokens, k);
      } else if entries[n].min <= tokens {
        assert BestAt(entries, tokens, n);
      }
    }
  }

  lemma BestExtends(entries: seq<Parsed>, tokens: nat, k: nat)
    requires entries != [] && BestAt(entries[..|entries| - 1], tokens, k)
    ensures var n := |entries| - 1;
      if entries[n].min <= tokens && entries[k].min <= entries[n].min then BestAt(entries, tokens, n)
      else BestAt(entries, tokens, k)
  {
    var n := |entries| - 1;
    assert forall i | 0 <= i < n :: entries[i] == entries[..n][i];
  }

  function DirectRate(base: real, entries: seq<Parsed>, tokens: nat): real {
    if Best(entries, tokens).Some? then Best(entries, tokens).value.rate else base
  }

  /** The last entry whose minimum is exactly `min`. */
  function LastAt(entries: seq<Parsed>, min: nat): Option<Parsed> {
    if entries == [] then None
    else if entries[|entries| - 1].min == min then Some(entries[|entries| - 1])
    else LastAt(entries[..|entries| - 1], min)
  }

  lemma {:induction false} LastAtMin(entries: seq<Parsed>, min: nat)
    ensures LastAt(entries, min).Some? ==> LastAt(entries, min).value.min == min
    ensures LastAt(entries, min).None? ==> forall i | 0 <= i < |entries| :: entries[i].min != min
  {
    if entries != [] {
      LastAtMin(entries[..|entries| - 1], min);
    }
  }

  /** Going up to the next minimum, its own last entry takes over if there is one. */
  lemma {:induction false} BestStep(entries: seq<Parsed>, a: nat, b: nat)
    requires a < b && forall i | 0 <= i < |entries| :: entries[i].min <= a || entries[i].min >= b
    ensures Best(entries, b) == if LastAt(entries, b).Some? then LastAt(entries, b) else Best(entries, a)
    ensures Best(entries, a).Some? ==> Best(entries, a).value.min <= a
  {
    if entries != [] {
      BestStep(entries[..|entries| - 1], a, b);
      LastAtMin(entries[..|entries| - 1], b);
    }
  }

  /** No entry starts between two sizes, so they have the same best entry. */
  lemma {:induction false} BestSame(entries: seq<Parsed>, a: nat, b: nat)
    requires a <= b && forall i | 0 <= i < |entries| :: entries[i].min <= a || entries[i].min > b
    ensures Best(entries, b) == Best(entries, a)
  {
    if entries != [] {
      BestSame(entries[..|entries| - 1], a, b);
    }
  }

  function RateAt(entries: seq<Parsed>, min: nat): Option<real> {
    if LastAt(entries, min).Some? then Some(LastAt(entries, min).value.rate) else None
  }

  /** The entries of each field processed so far. */
  datatype PerField = PerField(input: seq<Parsed>, output: seq<Parsed>,
                               cacheRead: seq<Parsed>, cacheWrite: seq<Parsed>) {
    function At(f: Field): seq<Parsed> {
      match f
      case Input => input
      case Output => output
      case CacheRead => cacheRead
      case CacheWrite => cacheWrite
    }

    function With(f: Field, entries: seq<Parsed>): (r: PerField)
      ensures forall g :: r.At(g) == if g == f then entries else At(g)
    {
      match f
      case Input => this.(input := entries)
      case Output => this.(output := entries)
      case CacheRead => this.(cacheRead := entries)
      case CacheWrite => this.(cacheWrite := entries)
    }
  }

  /** The base rate and the partial tiers of one field after its `entries`. */
  ghost predicate FieldCollected(base: real, entries: seq<Parsed>, rate: real, tiers: map<nat, Tier>, f: Field) {
    && rate == DirectRate(base, entries, 0)
    && (forall t | t in tiers :: tiers[t].At(f) == RateAt(entries, t + 1))
    && (forall i | 0 <= i < |entries| && entries[i].min > 0 :: entries[i].min - 1 in tiers)
  }

  ghost predicate Collected(base: Rates, done: PerField, cost: Rates, tiers: map<nat, Tier>) {
    && (forall t | t in tiers :: tiers[t].inputTokensAbove == t)
    && (forall f :: FieldCollected(base.At(f), done.At(f), cost.At(f), tiers, f))
  }

  lemma CollectNothing(base: Rates)
    ensures Collected(base, PerField([], [], [], []), base, map[])
  {}

  lemma BaseEntry(base: real, entries: seq<Parsed>, rate: real, tiers: map<nat, Tier>, f: Field, p: Parsed)
    requires FieldCollected(base, entries, rate, tiers, f) && p.min == 0
    ensures FieldCollected(base, entries + [p], p.rate, tiers, f)
  {
    var more := entries + [p];
    assert more[..|more| - 1] == entries;
    BestIsGreatest(entries, 0);
  }

  lemma CollectBase(base: Rates, done: PerField, cost: Rates, tiers: map<nat, Tier>, f: Field, p: Parsed)
    requires Collected(base, done, cost, tiers) && p.min == 0
    ensures Collected(base, done.With(f, done.At(f) + [p]), cost.With(f, p.rate), tiers)
  {
    hide FieldCollected;
    assert FieldCollected(base.At(f), done.At(f), cost.At(f), tiers, f);
    BaseEntry(base.At(f), done.At(f), cost.At(f), tiers, f, p);
  }

  function TierAt(tiers: map<nat, Tier>, t: nat): Tier {
    if t in tiers then tiers[t] else Tier(t, None, None, None, None)
  }

  /** Entries that start above zero say nothing about an empty request. */
  lemma DirectKeeps(base: real, entries: seq<Parsed>, p: Parsed)
    requires p.min > 0
    ensures DirectRate(base, entries + [p], 0) == DirectRate(base, entries, 0)
  {
    assert (entries + [p])[..|entries|] == entries;
  }

  lemma RateAtAppend(entries: seq<Parsed>, p: Parsed, min: nat)
    ensures RateAt(entries + [p], min) == if p.min == min then Some(p.rate) else RateAt(entries, min)
  {
    assert (entries + [p])[..|entries|] == entries;
  }

  lemma TierBefore(base: real, entries: seq<Parsed>, rate: real, tiers: map<nat, Tier>, f: Field, min: nat)
    requires FieldCollected(base, entries, rate, tiers, f) && min > 0
    ensures TierAt(tiers, min - 1).At(f) == RateAt(entries, min)
  {
    if min - 1 !in tiers && LastAt(entries, min).Some? {
      LastAtMember(entries, min);
    }
  }

  lemma TierEntry(base: real, entries: seq<Parsed>, rate: real, tiers: map<nat, Tier>, f: Field, g: Field, p: Parsed)
    requires FieldCollected(base, entries, rate, tiers, g) && p.min > 0
    ensures FieldCollected(base, if f == g then entries + [p] else entries, rate,
                           tiers[p.min - 1 := TierAt(tiers, p.min - 1).With(f, p.rate)], g)
  {
    hide RateAt, DirectRate, TierAt;
    TierBefore(base, entries, rate, tiers, g, p.min);
    DirectKeeps(base, entries, p);
    forall min: nat
      ensures RateAt(entries + [p], min) == if p.min == min then Some(p.rate) else RateAt(entries, min)
    {
      RateAtAppend(entries, p, min);
    }
  }

  lemma CollectTier(base: Rates, done: PerField, cost: Rates, tiers: map<nat, Tier>, f: Field, p: Parsed)
    requires Collected(base, done, cost, tiers) && p.min > 0
    ensures Collected(base, done.With(f, done.At(f) + [p]), cost,
                      tiers[p.min - 1 := TierAt(tiers, p.min - 1).With(f, p.rate)])
  {
    hide FieldCollected;
    var done' := done.With(f, done.At(f) + [p]);
    var tiers' := tiers[p.min - 1 := TierAt(tiers, p.min - 1).With(f, p.rate)];
    forall g
      ensures FieldCollected(base.At(g), done'.At(g), cost.At(g), tiers', g)
    {
      TierEntry(base.At(g), done.At(g), cost.At(g), tiers, f, g, p);
    }
  }

  lemma {:induction false} LastAtMember(entries: seq<Parsed>, min: nat)
    requires LastAt(entries, min).Some?
    ensures exists i | 0 <= i < |entries| :: entries[i].min == min
  {
    if entries[|entries| - 1].min == min {
    } else {
      LastAtMember(entries[..|entries| - 1], min);
      var i :| 0 <= i < |entries| - 1 && entries[..|entries| - 1][i].min == min;
      assert entries[i].min == min;
    }
  }

  function Overlay(rates: Rates, tier: Tier): Rates {
    Rates(if tier.input.Some? then tier.input.value else rates.input,
          if tier.output.Some? then tier.output.value else rates.output,
          if tier.cacheRead.Some? then tier.cacheRead.value else rates.cacheRead,
          if tier.cacheWrite.Some? then tier.cacheWrite.value else rates.cacheWrite)
  }

  lemma OverlayAt(rates: Rates, tier: Tier, f: Field)
    ensures Overlay(rates, tier).At(f) == if tier.At(f).Some? then tier.At(f).value else rates.At(f)
  {}

  /** The thresholds of the tiers in ascending order. */
  method SortedThresholds(tiers: map<nat, Tier>) returns (sorted: seq<nat>)
    ensures Ascending(sorted) && forall t :: t in sorted <==> t in tiers
  {
    sorted := [];
    var left := tiers.Keys;
    while left != {}
      invariant Ascending(sorted) && left <= tiers.Keys
      invariant forall t :: t in sorted <==> t in tiers && t !in left
    {
      var t :| t in left;
      InsertSorted(t, sorted);
      sorted := Insert(t, sorted);
      left := left - {t};
    }
  }

  /** The rates of a field just above threshold `k`, or of small requests when there is none below. */
  function Bound(thresholds: seq<nat>, k: nat): nat
    requires k <= |thresholds|
  {
    if k == 0 then 0 else thresholds[k - 1] + 1
  }

  lemma Gap(base: real, entries: seq<Parsed>, rate: real, tiers: map<nat, Tier>, thresholds: seq<nat>, k: nat, f: Field)
    requires FieldCollected(base, entries, rate, tiers, f) && Ascending(thresholds) && k < |thresholds|
    requires forall t :: t in thresholds <==> t in tiers
    ensures Bound(thresholds, k) < thresholds[k] + 1
    ensures forall i | 0 <= i < |entries| ::
      entries[i].min <= Bound(thresholds, k) || entries[i].min >= thresholds[k] + 1
  {
    forall i | 0 <= i < |entries|
      ensures entries[i].min <= Bound(thresholds, k) || entries[i].min >= thresholds[k] + 1
    {
      if entries[i].min > 0 {
        assert entries[i].min - 1 in thresholds;
        var j :| 0 <= j < |thresholds| && thresholds[j] == entries[i].min - 1;
      }
    }
  }

  /** Laying the next tier over the inherited rates gives the direct rate just above its threshold. */
  lemma Inherit(base: real, entries: seq<Parsed>, rate: real, tiers: map<nat, Tier>, thresholds: seq<nat>, k: nat,
                f: Field, inherited: Rates)
    requires FieldCollected(base, entries, rate, tiers, f) && Ascending(thresholds) && k < |thresholds|
    requires forall t :: t in thresholds <==> t in tiers
    requires inherited.At(f) == DirectRate(base, entries, Bound(thresholds, k))
    ensures thresholds[k] in tiers
    ensures Overlay(inherited, tiers[thresholds[k]]).At(f) == DirectRate(base, entries, thresholds[k] + 1)
  {
    assert thresholds[k] in tiers;
    OverlayAt(inherited, tiers[thresholds[k]], f);
    Gap(base, entries, rate, tiers, thresholds, k, f);
    BestStep(entries, Bound(thresholds, k), thresholds[k] + 1);
  }

  /** Each tier inherits the rates it lacks from the one below. */
  method FillTiers(thresholds: seq<nat>, tiers: map<nat, Tier>, cost: Rates, ghost base: Rates, ghost done: PerField)
    returns (filled: seq<Tier>)
    requires Collected(base, done, cost, tiers) && Ascending(thresholds)
    requires forall t :: t in thresholds <==> t in tiers
    ensures |filled| == |thresholds|
    ensures forall k | 0 <= k < |filled| :: filled[k].inputTokensAbove == thresholds[k]
    ensures forall k, f | 0 <= k < |filled| ::
      filled[k].At(f) == Some(DirectRate(base.At(f), done.At(f), thresholds[k] + 1))
  {
    hide FieldCollected, DirectRate;
    filled := [];
    var inheritedRates := cost;
    BaseDirect(base, done, cost, tiers);
    for k := 0 to |thresholds|
      invariant |filled| == k
      invariant forall f :: inheritedRates.At(f) == DirectRate(base.At(f), done.At(f), Bound(thresholds, k))
      invariant forall i | 0 <= i < k :: filled[i].inputTokensAbove == thresholds[i]
      invariant forall i, f | 0 <= i < k ::
        filled[i].At(f) == Some(DirectRate(base.At(f), done.At(f), thresholds[i] + 1))
    {
      assert thresholds[k] in thresholds;
      var next := Overlay(inheritedRates, tiers[thresholds[k]]);
      forall f
        ensures next.At(f) == DirectRate(base.At(f), done.At(f), thresholds[k] + 1)
      {
        Inherit(base.At(f), done.At(f), cost.At(f), tiers, thresholds, k, f, inheritedRates);
      }
      inheritedRates := next;
      filled := filled + [FullTier(thresholds[k], inheritedRates)];
    }
  }

  lemma BaseDirect(base: Rates, done: PerField, cost: Rates, tiers: map<nat, Tier>)
    requires Collected(base, done, cost, tiers)
    ensures forall f :: cost.At(f) == DirectRate(base.At(f), done.At(f), 0)
  {
    forall f
      ensures cost.At(f) == DirectRate(base.At(f), done.At(f), 0)
    {
      assert FieldCollected(base.At(f), done.At(f), cost.At(f), tiers, f);
    }
  }

  lemma FilledResolves(base: Rates, done: PerField, cost: Cost, tiers: map<nat, Tier>, thresholds: seq<nat>,
                       f: Field, tokens: nat)
    requires Collected(base, done, cost.rates, tiers) && Ascending(thresholds)
    requires forall t :: t in thresholds <==> t in tiers
    requires |cost.tiers| == |thresholds|
    requires forall k | 0 <= k < |thresholds| :: cost.tiers[k].inputTokensAbove == thresholds[k]
    requires forall k | 0 <= k < |thresholds| ::
      cost.tiers[k].At(f) == Some(DirectRate(base.At(f), done.At(f), thresholds[k] + 1))
    ensures Resolves(cost, tokens, f, DirectRate(base.At(f), done.At(f), tokens))
  {
    hide DirectRate, Resolves, Best;
    assert FieldCollected(base.At(f), done.At(f), cost.rates.At(f), tiers, f);
    var low := 0;
    if exists k | 0 <= k < |thresholds| :: thresholds[k] < tokens {
      var k := LastBelow(thresholds, tokens);
      low := thresholds[k] + 1;
      ActiveTier(cost, thresholds, tokens, k, f, DirectRate(base.At(f), done.At(f), low));
    } else {
      NoActiveTier(cost, tokens, f);
    }
    var entries := done.At(f);
    forall i | 0 <= i < |entries|
      ensures entries[i].min <= low || entries[i].min > tokens
    {
      if entries[i].min > 0 {
        assert entries[i].min - 1 in thresholds;
        var j :| 0 <= j < |thresholds| && thresholds[j] == entries[i].min - 1;
      }
    }
    DirectSame(base.At(f), entries, low, tokens);
  }

  lemma DirectSame(base: real, entries: seq<Parsed>, a: nat, b: nat)
    requires a <= b && forall i | 0 <= i < |entries| :: entries[i].min <= a || entries[i].min > b
    ensures DirectRate(base, entries, a) == DirectRate(base, entries, b)
  {
    BestSame(entries, a, b);
  }

  const FIELDS: seq<Field> := [Input, Output, CacheRead, CacheWrite]

  predicate Priced(scale: Scale, pricing: Pricing) {
    forall f :: PerMillionRate(scale, pricing.base(f)).Ok? && ParseEntries(scale, pricing.tiers(f)).Ok?
  }

  /** The direct meaning of the gateway's prices: the field's own entries decide, and nothing else. */
  function GatewayRate(scale: Scale, pricing: Pricing, f: Field, tokens: nat): real
    requires Priced(scale, pricing)
  {
    DirectRate(PerMillionRate(scale, pricing.base(f)).value, ParseEntries(scale, pricing.tiers(f)).value, tokens)
  }

  method BaseRates(scale: Scale, pricing: Pricing) returns (rates: Result<Rates>)
    ensures rates.Ok? <==> forall f :: PerMillionRate(scale, pricing.base(f)).Ok?
    ensures rates.Ok? ==> forall f :: Ok(rates.value.At(f)) == PerMillionRate(scale, pricing.base(f))
  {
    hide PerMillionRate;
    var input := PerMillionRate(scale, pricing.base(Input));
    if input.Err? { return Err(input.message); }
    var output := PerMillionRate(scale, pricing.base(Output));
    if output.Err? { return Err(output.message); }
    var cacheRead := PerMillionRate(scale, pricing.base(CacheRead));
    if cacheRead.Err? { return Err(cacheRead.message); }
    var cacheWrite := PerMillionRate(scale, pricing.base(CacheWrite));
    if cacheWrite.Err? { return Err(cacheWrite.message); }
    rates := Ok(Rates(input.value, output.value, cacheRead.value, cacheWrite.value));
    forall f
      ensures Ok(rates.value.At(f)) == PerMillionRate(scale, pricing.base(f))
    {
      match f
      case Input =>
      case Output =>
      case CacheRead =>
      case CacheWrite =>
    }
  }

  lemma ParseStep(scale: Scale, entries: seq<Entry>, i: nat)
    requires i < |entries| && ParseEntries(scale, entries[..i]).Ok?
    ensures var last := ParseEntry(scale, entries[i]);
      ParseEntries(scale, entries[..i + 1]) ==
      if last.Ok? then Ok(ParseEntries(scale, entries[..i]).value + [last.value]) else Err(last.message)
  {
    assert entries[..i + 1][..i] == entries[..i];
  }

  lemma {:induction false} ParseFails(scale: Scale, entries: seq<Entry>, i: nat)
    requires i <= |entries| && ParseEntries(scale, entries[..i]).Err?
    ensures ParseEntries(scale, entries).Err?
    decreases |entries| - i
  {
    if i == |entries| {
      assert entries[..i] == entries;
    } else {
      assert entries[..i + 1][..i] == entries[..i];
      ParseFails(scale, entries, i + 1);
    }
  }

  /** Entries that start at zero replace the base rate, the others set a rate of the tier at their threshold. */
  method CollectField(scale: Scale, entries: seq<Entry>, f: Field, start: Rates, before: map<nat, Tier>,
                      ghost base: Rates, ghost done: PerField)
    returns (ok: bool, cost: Rates, tiers: map<nat, Tier>)
    requires Collected(base, done, start, before) && done.At(f) == []
    ensures ok <==> ParseEntries(scale, entries).Ok?
    ensures ok ==> Collected(base, done.With(f, ParseEntries(scale, entries).value), cost, tiers)
  {
    hide Collected, ParseEntries, ParseEntry, TierAt;
    ghost var parsed: seq<Parsed> := [];
    ok, cost, tiers := true, start, before;
    NothingParsed(scale, entries);
    assert done.With(f, []) == done;
    for i := 0 to |entries|
      invariant ok && ParseEntries(scale, entries[..i]) == Ok(parsed)
      invariant Collected(base, done.With(f, parsed), cost, tiers)
    {
      ParseStep(scale, entries, i);
      var entry := ParseEntry(scale, entries[i]);
      if entry.Err? {
        ParseFails(scale, entries, i + 1);
        return false, cost, tiers;
      }
      assert done.With(f, parsed).With(f, parsed + [entry.value]) == done.With(f, parsed + [entry.value]);
      if entry.value.min == 0 {
        CollectBase(base, done.With(f, parsed), cost, tiers, f, entry.value);
        cost := cost.With(f, entry.value.rate);
      } else {
        CollectTier(base, done.With(f, parsed), cost, tiers, f, entry.value);
        var threshold := entry.value.min - 1;
        tiers := tiers[threshold := TierAt(tiers, threshold).With(f, entry.value.rate)];
      }
      parsed := parsed + [entry.value];
    }
    assert entries[..|entries|] == entries;
  }

  lemma NothingParsed(scale: Scale, entries: seq<Entry>)
    ensures ParseEntries(scale, entries[..0]) == Ok([])
  {}

  /**
   Merging a model's gateway prices. It succeeds exactly when every price and threshold is valid, and then the merged,
   inheritance-filled tiers resolve to the direct rate of each field for a request of every size.
   */
  method MergeGatewayPrices(scale: Scale, pricing: Pricing) returns (result: Result<Cost>)
    ensures result.Ok? <==> Priced(scale, pricing)
    ensures result.Ok? ==> forall f, tokens: nat ::
      Resolves(result.value, tokens, f, GatewayRate(scale, pricing, f, tokens))
  {
    hide Collected, ParseEntries, PerMillionRate, Resolves, DirectRate;
    var rates := BaseRates(scale, pricing);
    if rates.Err? { return Err(rates.message); }
    var cost, tiers := rates.value, map[];
    ghost var done := PerField([], [], [], []);
    CollectNothing(rates.value);
    for k := 0 to |FIELDS|
      invariant Collected(rates.value, done, cost, tiers)
      invariant forall j | 0 <= j < k :: ParseEntries(scale, pricing.tiers(FIELDS[j])) == Ok(done.At(FIELDS[j]))
      invariant forall j | k <= j < |FIELDS| :: done.At(FIELDS[j]) == []
    {
      var ok;
      ok, cost, tiers := CollectField(scale, pricing.tiers(FIELDS[k]), FIELDS[k], cost, tiers, rates.value, done);
      if !ok { return Err("Invalid Vercel AI Gateway tier"); }
      done := done.With(FIELDS[k], ParseEntries(scale, pricing.tiers(FIELDS[k])).value);
    }
    assert FIELDS[0] == Input && FIELDS[1] == Output && FIELDS[2] == CacheRead && FIELDS[3] == CacheWrite;
    assert forall f :: ParseEntries(scale, pricing.tiers(f)) == Ok(done.At(f));
    var thresholds := SortedThresholds(tiers);
    var filled := FillTiers(thresholds, tiers, cost, rates.value, done);
    result := Ok(Cost(cost, filled));
    forall f, tokens: nat
      ensures Resolves(result.value, tokens, f, GatewayRate(scale, pricing, f, tokens))
    {
      FilledResolves(rates.value, done, result.value, tiers, thresholds, f, tokens);
    }
  }
}
