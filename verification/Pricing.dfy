/** Billing of one request: exact summation over the price table, the multiplier chain, and
    one rounding at the end. */
module Pricing {
  import opened Outcomes
  import opened Amounts
  import opened MapSums
  import opened PriceTables

  /** One request's usage. The first four are disjoint; the audio, image and TTL counts are
      parts of them. */
  datatype Tokens = Tokens(
    input: int, output: int, cachedRead: int, cacheWrite: int,
    audioIn: int, audioOut: int, imageIn: int, imageOut: int,
    cacheWrite5m: int, cacheWrite1h: int,
    serviceTier: Tier, toolCalls: map<string, int>)
  {
    /** The whole prompt, which selects the context-length band. */
    function ContextTokens(): int {
      input + cachedRead + cacheWrite
    }

    /** An unreported or unknown tier bills as standard. */
    function BillingTier(): Tier {
      if serviceTier.Priority? || serviceTier.Batch? then serviceTier else Standard
    }
  }

  function PlainTokens(input: int, output: int): Tokens {
    Tokens(input, output, 0, 0, 0, 0, 0, 0, 0, 0, Standard, map[])
  }

  /** The outcome of reading the exchange-rate text. */
  datatype Fx = NotConfigured | Malformed | Parsed(value: real)

  datatype Rates = Rates(modelBps: int, planBps: int, procurementBps: int, fx: Fx)

  datatype Quote = Quote(upstreamNano: int, chargedNano: int, modelBps: int, planBps: int, procurementBps: int, fx: Fx)

  datatype Refusal = BadTokens | BadRates | BadFx | NegativeFee | ToolPriceMissing | CostOverflow | ChargeOverflow

  const NO_DISCOUNT_BPS: int := 10000
  const MAX_MULTIPLIER_BPS: int := 100000
  const TOKENS_PER_MTOK: int := 1_000_000
  const MAX_SANE_TOKENS: int := 0x7fff_ffff

  /*********************** Validation ***********************/

  predicate SaneCount(n: int) {
    0 <= n <= MAX_SANE_TOKENS
  }

  /** What the code validates. Note what it does not: imageOut, and audioIn + imageIn together. */
  predicate ValidTokens(t: Tokens) {
    && SaneCount(t.input) && SaneCount(t.output) && SaneCount(t.cachedRead) && SaneCount(t.cacheWrite)
    && SaneCount(t.audioIn) && SaneCount(t.audioOut) && SaneCount(t.imageIn)
    && SaneCount(t.cacheWrite5m) && SaneCount(t.cacheWrite1h)
    && t.audioIn <= t.input && t.audioOut <= t.output && t.imageIn <= t.input
    && t.cacheWrite5m + t.cacheWrite1h <= t.cacheWrite
    && forall tool | tool in t.toolCalls :: SaneCount(t.toolCalls[tool])
  }

  function OrOne(bps: int): int {
    if bps == 0 then NO_DISCOUNT_BPS else bps
  }

  function Normalize(r: Rates): (res: Result<Rates, Refusal>)
    ensures res.Ok? ==> 1 <= res.value.modelBps <= MAX_MULTIPLIER_BPS && 1 <= res.value.planBps <= MAX_MULTIPLIER_BPS
    ensures res.Ok? ==> 1 <= res.value.procurementBps <= MAX_MULTIPLIER_BPS && !res.value.fx.NotConfigured?
  {
    var n := Rates(OrOne(r.modelBps), OrOne(r.planBps), OrOne(r.procurementBps), r.fx);
    if !(1 <= n.modelBps <= MAX_MULTIPLIER_BPS) then Err(BadRates)
    else if !(1 <= n.planBps <= MAX_MULTIPLIER_BPS) then Err(BadRates)
    else if !(1 <= n.procurementBps <= MAX_MULTIPLIER_BPS) then Err(BadRates)
    else if n.fx.NotConfigured? then Err(BadRates)
    else Ok(n)
  }

  predicate Admitted(bps: int) {
    bps == 0 || 1 <= bps <= MAX_MULTIPLIER_BPS
  }

  /** Which rates are admitted, and what they stand for: a zero multiplier is 1x, everything else
      stays, and normalizing again changes nothing. */
  lemma NormalizeMeans(r: Rates)
    ensures Normalize(r).Ok? <==> Admitted(r.modelBps) && Admitted(r.planBps) && Admitted(r.procurementBps) && !r.fx.NotConfigured?
    ensures Normalize(r).Ok? ==>
              var n := Normalize(r).value;
              && n.fx == r.fx && Normalize(n) == Normalize(r)
              && (r.modelBps != 0 ==> n.modelBps == r.modelBps) && Bps(Normalize(r.(modelBps := 0)).value.modelBps) == 1.0
              && (r.planBps != 0 ==> n.planBps == r.planBps) && Bps(Normalize(r.(planBps := 0)).value.planBps) == 1.0
              && (r.procurementBps != 0 ==> n.procurementBps == r.procurementBps)
              && Bps(Normalize(r.(procurementBps := 0)).value.procurementBps) == 1.0
  {
  }

  predicate UsableFx(fx: Fx) {
    fx.Parsed? && fx.value > 0.0
  }

  function Bps(n: int): real {
    n as real / 10000.0
  }

  /*********************** Exact contributions ***********************/

  datatype ExactBuckets = ExactBuckets(input: real, output: real, cacheRead: real, cacheWrite: real, tools: real)
  {
    function Total(): real {
      input + output + cacheRead + cacheWrite + tools
    }

    function Scale(factor: real): ExactBuckets {
      ExactBuckets(Times(input, factor), Times(output, factor), Times(cacheRead, factor),
                   Times(cacheWrite, factor), Times(tools, factor))
    }
  }

  function NonNeg(v: int): int {
    if v < 0 then 0 else v
  }

  /** So many tokens at a rate per million. */
  function Amount(tokens: int, rate: int): real {
    (tokens * rate) as real / 1000000.0
  }

  /** Go's int64 subtraction wraps around. */
  function Wrapped(n: int): int {
    (n - INT64_MIN) % 0x1_0000_0000_0000_0000 + INT64_MIN
  }

  /** What is left of the answer for the text rate. The image count is not validated, so this is the
      one subtraction that can leave the int64 range. */
  function TextOutput(t: Tokens): int {
    NonNeg(Wrapped(t.output - t.audioOut - t.imageOut))
  }

  /** So many tokens at the rate their bucket has for this request. */
  function At(pt: PriceTable, t: Tokens, tokens: int, bucket: Bucket, variant: Variant): real {
    Amount(tokens, Lookup(pt, bucket, t.BillingTier(), variant, t.ContextTokens()))
  }

  /** A called tool has a price, in the customer's view if the table is free. */
  predicate ToolsPriced(pt: PriceTable, calls: map<string, int>) {
    forall tool | tool in calls && calls[tool] > 0 :: LookupTool(pt, tool).Some?
  }

  function CallCost(calls: int, per: int): real {
    (calls * per) as real
  }

  /** Each called tool's cost, in a table that prices it. */
  function ToolCosts(pt: PriceTable, calls: map<string, int>): map<string, real> {
    map tool | tool in calls && calls[tool] > 0 && LookupTool(pt, tool).Some? ::
      CallCost(calls[tool], LookupTool(pt, tool).value)
  }

  /** The exact cost of a request, by contribution. */
  ghost function CostBuckets(pt: PriceTable, t: Tokens): ExactBuckets {
    ExactBuckets(
      At(pt, t, NonNeg(t.input - t.audioIn - t.imageIn), In, Plain)
      + At(pt, t, t.audioIn, AudioIn, Plain) + At(pt, t, t.imageIn, ImageIn, Plain),
      At(pt, t, TextOutput(t), Out, Plain)
      + At(pt, t, t.audioOut, AudioOut, Plain) + At(pt, t, t.imageOut, ImageOut, Plain),
      At(pt, t, t.cachedRead, CacheRead, Plain),
      if t.cacheWrite5m > 0 || t.cacheWrite1h > 0 then
        At(pt, t, t.cacheWrite5m, CacheWrite, Cache5m) + At(pt, t, t.cacheWrite1h, CacheWrite, Cache1h)
        + At(pt, t, NonNeg(t.cacheWrite - t.cacheWrite5m - t.cacheWrite1h), CacheWrite, Plain)
      else
        At(pt, t, t.cacheWrite, CacheWrite, Plain),
      SumOf(ToolCosts(pt, t.toolCalls)))
  }

  /** The accumulating computation of the code, contribution by contribution. */
  method UpstreamCostBuckets(pt: PriceTable, t: Tokens) returns (res: Result<ExactBuckets, Refusal>)
    ensures res == if ToolsPriced(pt, t.toolCalls) then Ok(CostBuckets(pt, t)) else Err(ToolPriceMissing)
  {
    var input, output, cacheRead, cacheWrite := 0.0, 0.0, 0.0, 0.0;
    input := input + Contribution(pt, t, NonNeg(t.input - t.audioIn - t.imageIn), In, Plain);
    output := output + Contribution(pt, t, TextOutput(t), Out, Plain);
    input := input + Contribution(pt, t, t.audioIn, AudioIn, Plain);
    input := input + Contribution(pt, t, t.imageIn, ImageIn, Plain);
    output := output + Contribution(pt, t, t.audioOut, AudioOut, Plain);
    output := output + Contribution(pt, t, t.imageOut, ImageOut, Plain);
    cacheRead := cacheRead + Contribution(pt, t, t.cachedRead, CacheRead, Plain);
    if t.cacheWrite5m > 0 || t.cacheWrite1h > 0 {
      cacheWrite := cacheWrite + Contribution(pt, t, t.cacheWrite5m, CacheWrite, Cache5m);
      cacheWrite := cacheWrite + Contribution(pt, t, t.cacheWrite1h, CacheWrite, Cache1h);
      cacheWrite := cacheWrite + Contribution(pt, t, NonNeg(t.cacheWrite - t.cacheWrite5m - t.cacheWrite1h), CacheWrite, Plain);
    } else {
      cacheWrite := cacheWrite + Contribution(pt, t, t.cacheWrite, CacheWrite, Plain);
    }
    var tools := ToolTotal(pt, t.toolCalls);
    if tools.Err? {
      return Err(tools.error);
    }
    return Ok(ExactBuckets(input, output, cacheRead, cacheWrite, tools.value));
  }

  /** Tool calls are met in any order; a called tool without a price stops the billing. */
  method ToolTotal(pt: PriceTable, calls: map<string, int>) returns (res: Result<real, Refusal>)
    ensures res == if ToolsPriced(pt, calls) then Ok(SumOf(ToolCosts(pt, calls))) else Err(ToolPriceMissing)
  {
    var tools := 0.0;
    var todo := calls.Keys;
    ghost var terms: map<string, real> := map[];
    while todo != {}
      invariant todo <= calls.Keys
      invariant forall tool :: tool in terms <==> tool in calls && tool !in todo && calls[tool] > 0
      invariant forall tool | tool in terms ::
                  LookupTool(pt, tool).Some? && terms[tool] == CallCost(calls[tool], LookupTool(pt, tool).value)
      invariant tools == SumOf(terms)
      decreases |todo|
    {
      var tool :| tool in todo;
      if calls[tool] > 0 {
        var per := LookupTool(pt, tool);
        if per.None? {
          return Err(ToolPriceMissing);
        }
        tools := tools + CallCost(calls[tool], per.value);
        SumInsert(terms, tool, CallCost(calls[tool], per.value));
        terms := terms[tool := CallCost(calls[tool], per.value)];
      }
      todo := todo - {tool};
    }
    assert terms == ToolCosts(pt, calls);
    return Ok(tools);
  }

  /** A zero count adds nothing and looks nothing up. */
  function Contribution(pt: PriceTable, t: Tokens, tokens: int, bucket: Bucket, variant: Variant): (r: real)
    ensures r == At(pt, t, tokens, bucket, variant)
  {
    if tokens == 0 then 0.0 else At(pt, t, tokens, bucket, variant)
  }

  /*********************** Quotes ***********************/

  /** The cost side: the official rates times the procurement multiplier. */
  function ProcuredAmount(total: real, r: Rates): real {
    Times(total, Bps(r.procurementBps))
  }

  /** The customer's side: the model and plan multipliers, then the exchange rate. */
  function ChargedAmount(total: real, r: Rates): real
    requires r.fx.Parsed?
  {
    Times(Times(Times(total, Bps(r.modelBps)), Bps(r.planBps)), r.fx.value)
  }

  function QuoteFrom(upstream: real, charged: real, r: Rates): Result<Quote, Refusal>
    requires r.fx.Parsed?
  {
    match CeilToInt64(upstream)
    case Err(_) => Err(CostOverflow)
    case Ok(upstreamNano) =>
      match CeilToInt64(ChargedAmount(charged, r))
      case Err(_) => Err(ChargeOverflow)
      case Ok(chargedNano) =>
        Ok(Quote(upstreamNano, chargedNano, r.modelBps, r.planBps, r.procurementBps, r.fx))
  }

  /** What billing a request answers, as one value. */
  ghost function Bill(list: PriceTable, cost: PriceTable, t: Tokens, r: Rates): Result<Quote, Refusal> {
    if !ValidTokens(t) then Err(BadTokens)
    else if Normalize(r).Err? then Err(Normalize(r).error)
    else if !UsableFx(r.fx) then Err(BadFx)
    else if !ToolsPriced(cost, t.toolCalls) || !ToolsPriced(list, t.toolCalls) then Err(ToolPriceMissing)
    else
      var n := Normalize(r).value;
      QuoteFrom(ProcuredAmount(CostBuckets(cost, t).Total(), n), CostBuckets(list, t).Total(), n)
  }

  method Compute(list: PriceTable, cost: PriceTable, t: Tokens, r: Rates) returns (res: Result<Quote, Refusal>)
    ensures res == Bill(list, cost, t, r)
  {
    if !ValidTokens(t) {
      return Err(BadTokens);
    }
    if Normalize(r).Err? {
      return Err(Normalize(r).error);
    }
    var n := Normalize(r).value;
    if !UsableFx(n.fx) {
      return Err(BadFx);
    }
    var costs := UpstreamCostBuckets(cost, t);
    if costs.Err? {
      return Err(costs.error);
    }
    var lists := UpstreamCostBuckets(list, t);
    if lists.Err? {
      return Err(lists.error);
    }
    return QuoteFrom(ProcuredAmount(costs.value.Total(), n), lists.value.Total(), n);
  }

  /** The exact, unrounded record of a quote. */
  datatype Contributions = Contributions(upstream: ExactBuckets, charged: ExactBuckets)

  method ComputeExactContributions(list: PriceTable, cost: PriceTable, t: Tokens, r: Rates)
    returns (res: Result<Contributions, Refusal>)
    ensures Bill(list, cost, t, r).Ok? ==> res.Ok?
    ensures res.Err? ==> Bill(list, cost, t, r) == Err(res.error)
    ensures res.Ok? ==>
              && ValidTokens(t) && Normalize(r).Ok? && UsableFx(r.fx)
              && ToolsPriced(cost, t.toolCalls) && ToolsPriced(list, t.toolCalls)
              && res.value == ExactRecord(list, cost, t, Normalize(r).value)
  {
    if !ValidTokens(t) {
      return Err(BadTokens);
    }
    if Normalize(r).Err? {
      return Err(Normalize(r).error);
    }
    var n := Normalize(r).value;
    if !UsableFx(n.fx) {
      return Err(BadFx);
    }
    var costs := UpstreamCostBuckets(cost, t);
    if costs.Err? {
      return Err(costs.error);
    }
    var lists := UpstreamCostBuckets(list, t);
    if lists.Err? {
      return Err(lists.error);
    }
    var procurement := costs.value.Scale(Bps(n.procurementBps));
    var charged := lists.value.Scale(Bps(n.modelBps)).Scale(Bps(n.planBps)).Scale(n.fx.value);
    return Ok(Contributions(procurement, charged));
  }

  ghost function ExactRecord(list: PriceTable, cost: PriceTable, t: Tokens, n: Rates): Contributions
    requires n.fx.Parsed?
  {
    Contributions(
      CostBuckets(cost, t).Scale(Bps(n.procurementBps)),
      CostBuckets(list, t).Scale(Bps(n.modelBps)).Scale(Bps(n.planBps)).Scale(n.fx.value))
  }

  lemma ScaleTotal(b: ExactBuckets, factor: real)
    ensures b.Scale(factor).Total() == Times(b.Total(), factor)
  {
  }

  /** Each amount of a quote is one ceiling, taken of the sum of the exact contributions. */
  lemma SingleRounding(list: PriceTable, cost: PriceTable, t: Tokens, r: Rates)
    ensures var bill := Bill(list, cost, t, r);
            bill.Ok? ==>
              var exact := ExactRecord(list, cost, t, Normalize(r).value);
              bill.value.chargedNano == Ceil(exact.charged.Total()) && bill.value.upstreamNano == Ceil(exact.upstream.Total())
  {
    if Bill(list, cost, t, r).Ok? {
      var n := Normalize(r).value;
      var b := CostBuckets(list, t);
      ScaleTotal(CostBuckets(cost, t), Bps(n.procurementBps));
      ScaleTotal(b, Bps(n.modelBps));
      ScaleTotal(b.Scale(Bps(n.modelBps)), Bps(n.planBps));
      ScaleTotal(b.Scale(Bps(n.modelBps)).Scale(Bps(n.planBps)), n.fx.value);
    }
  }

  /** Which route serves a request, and at what cost, does not move the customer's bill. */
  lemma ChargeIgnoresCost(list: PriceTable, cost: PriceTable, other: PriceTable, t: Tokens, r: Rates, procurementBps: int)
    ensures var a, b := Bill(list, cost, t, r), Bill(list, other, t, r.(procurementBps := procurementBps));
            a.Ok? && b.Ok? ==> a.value.chargedNano == b.value.chargedNano
  {
    var m := r.(procurementBps := procurementBps);
    if Normalize(r).Ok? && Normalize(m).Ok? {
      assert Normalize(r).value.modelBps == Normalize(m).value.modelBps;
      assert Normalize(r).value.planBps == Normalize(m).value.planBps;
    }
  }

  /*********************** What a quote is, in whole numbers ***********************/

  /** Which usages and rates are refused, and with what, in the order of the checks: counts outside
      0 to 2^31 - 1 or parts above their whole; multipliers outside 1 to 100000, zero standing for
      10000, or no exchange rate; an exchange rate that is malformed or not positive; a called tool
      that either table does not price. */
  lemma RefusedIff(list: PriceTable, cost: PriceTable, t: Tokens, r: Rates)
    ensures var bill := Bill(list, cost, t, r);
            var counts := [t.input, t.output, t.cachedRead, t.cacheWrite, t.audioIn, t.audioOut, t.imageIn, t.cacheWrite5m, t.cacheWrite1h];
            var badTokens :=
              || (exists n :: n in counts && (n < 0 || n > 2147483647))
              || t.audioIn > t.input || t.audioOut > t.output || t.imageIn > t.input
              || t.cacheWrite5m + t.cacheWrite1h > t.cacheWrite
              || exists tool :: tool in t.toolCalls && (t.toolCalls[tool] < 0 || t.toolCalls[tool] > 2147483647);
            var badRates :=
              r.modelBps < 0 || r.modelBps > 100000 || r.planBps < 0 || r.planBps > 100000
              || r.procurementBps < 0 || r.procurementBps > 100000 || r.fx == NotConfigured;
            var badFx := r.fx == Malformed || (r.fx.Parsed? && r.fx.value <= 0.0);
            var unpriced :=
              exists tool :: tool in t.toolCalls && t.toolCalls[tool] > 0
                             && ((!list.billingFree && tool !in list.tools) || (!cost.billingFree && tool !in cost.tools));
            && (bill == Err(BadTokens) <==> badTokens)
            && (bill == Err(BadRates) <==> !badTokens && badRates)
            && (bill == Err(BadFx) <==> !badTokens && !badRates && badFx)
            && (bill == Err(ToolPriceMissing) <==> !badTokens && !badRates && !badFx && unpriced)
            && bill != Err(NegativeFee)
  {
    ValidTokensIff(t);
    UnpricedIff(list, t.toolCalls);
    UnpricedIff(cost, t.toolCalls);
  }

  lemma ValidTokensIff(t: Tokens)
    ensures var counts := [t.input, t.output, t.cachedRead, t.cacheWrite, t.audioIn, t.audioOut, t.imageIn, t.cacheWrite5m, t.cacheWrite1h];
            !ValidTokens(t) <==>
              || (exists n :: n in counts && (n < 0 || n > 2147483647))
              || t.audioIn > t.input || t.audioOut > t.output || t.imageIn > t.input
              || t.cacheWrite5m + t.cacheWrite1h > t.cacheWrite
              || exists tool :: tool in t.toolCalls && (t.toolCalls[tool] < 0 || t.toolCalls[tool] > 2147483647)
  {
    var counts := [t.input, t.output, t.cachedRead, t.cacheWrite, t.audioIn, t.audioOut, t.imageIn, t.cacheWrite5m, t.cacheWrite1h];
    assert counts[0] in counts && counts[1] in counts && counts[2] in counts && counts[3] in counts && counts[4] in counts;
    assert counts[5] in counts && counts[6] in counts && counts[7] in counts && counts[8] in counts;
  }

  lemma UnpricedIff(pt: PriceTable, calls: map<string, int>)
    ensures !ToolsPriced(pt, calls) <==> !pt.billingFree && exists tool :: tool in calls && calls[tool] > 0 && tool !in pt.tools
  {
  }

  /** The amount an exact total is charged, as one fraction. */
  lemma ChargedFraction(total: real, n: Rates)
    requires n.fx.Parsed?
    ensures ChargedAmount(total, n) * 100000000.0 == total * n.modelBps as real * n.planBps as real * n.fx.value
  {
    var m, p := n.modelBps as real, n.planBps as real;
    var x := Times(total, Bps(n.modelBps));
    var y := Times(x, Bps(n.planBps));
    TenThousandths(total, n.modelBps);
    TenThousandths(x, n.planBps);
    Regroup(x, p, 10000.0, total * m);
    assert y * 100000000.0 == total * m * p;
    Regroup(y, n.fx.value, 100000000.0, total * m * p);
  }

  lemma TenThousandths(x: real, bps: int)
    ensures Times(x, Bps(bps)) * 10000.0 == x * bps as real
  {
    assert Bps(bps) * 10000.0 == bps as real;
    Regroup(x, Bps(bps), 10000.0, x * 10000.0);
    assert x * (Bps(bps) * 10000.0) == x * Bps(bps) * 10000.0;
  }

  /** A factor moves past a scale. */
  lemma Regroup(x: real, factor: real, scale: real, scaled: real)
    requires x * scale == scaled
    ensures (x * factor) * scale == scaled * factor
  {
    assert (x * factor) * scale == (x * scale) * factor;
  }

  /** An amount is the least integer not below the exact total times the two customer factors, in
      ten-thousandths, and the exchange rate. */
  ghost predicate ChargedAs(nano: int, total: real, modelBps: int, planBps: int, fx: real) {
    (nano - 1) as real * 100000000.0 < total * modelBps as real * planBps as real * fx <= nano as real * 100000000.0
  }

  /** The same for the cost side's one factor. */
  ghost predicate ProcuredAs(nano: int, total: real, procurementBps: int) {
    (nano - 1) as real * 10000.0 < total * procurementBps as real <= nano as real * 10000.0
  }

  /** The amounts of a quote, and the factors it records, where a zero multiplier stands for 10000. */
  lemma QuoteAmounts(list: PriceTable, cost: PriceTable, t: Tokens, r: Rates)
    requires Bill(list, cost, t, r).Ok?
    ensures var q := Bill(list, cost, t, r).value;
            && q.fx == r.fx && q.fx.Parsed?
            && ChargedAs(q.chargedNano, CostBuckets(list, t).Total(), q.modelBps, q.planBps, q.fx.value)
            && ProcuredAs(q.upstreamNano, CostBuckets(cost, t).Total(), q.procurementBps)
            && q.modelBps == (if r.modelBps == 0 then 10000 else r.modelBps)
            && q.planBps == (if r.planBps == 0 then 10000 else r.planBps)
            && q.procurementBps == (if r.procurementBps == 0 then 10000 else r.procurementBps)
  {
    FactorsInForce(r);
    BillIsQuoted(list, cost, t, r);
    QuoteFromAmounts(CostBuckets(cost, t).Total(), CostBuckets(list, t).Total(), Normalize(r).value);
  }

  lemma FactorsInForce(r: Rates)
    requires Normalize(r).Ok?
    ensures var n := Normalize(r).value;
            && n.modelBps == (if r.modelBps == 0 then 10000 else r.modelBps)
            && n.planBps == (if r.planBps == 0 then 10000 else r.planBps)
            && n.procurementBps == (if r.procurementBps == 0 then 10000 else r.procurementBps)
            && n.fx == r.fx
  {
  }

  lemma BillIsQuoted(list: PriceTable, cost: PriceTable, t: Tokens, r: Rates)
    requires Bill(list, cost, t, r).Ok?
    ensures Normalize(r).Ok? && UsableFx(r.fx) && UsableFx(Normalize(r).value.fx)
    ensures Bill(list, cost, t, r)
            == QuoteFrom(ProcuredAmount(CostBuckets(cost, t).Total(), Normalize(r).value), CostBuckets(list, t).Total(), Normalize(r).value)
  {
  }

  lemma QuoteFromAmounts(cost: real, list: real, n: Rates)
    requires n.fx.Parsed?
    ensures var res := QuoteFrom(ProcuredAmount(cost, n), list, n);
            res.Ok? ==>
              var q := res.value;
              && ChargedAs(q.chargedNano, list, n.modelBps, n.planBps, n.fx.value)
              && ProcuredAs(q.upstreamNano, cost, n.procurementBps)
              && q.modelBps == n.modelBps && q.planBps == n.planBps && q.procurementBps == n.procurementBps && q.fx == n.fx
  {
    CeilOfCharge(list, n);
    CeilOfCost(cost, n);
  }

  lemma CeilOfCharge(total: real, n: Rates)
    requires n.fx.Parsed?
    ensures ChargedAs(Ceil(ChargedAmount(total, n)), total, n.modelBps, n.planBps, n.fx.value)
  {
    ChargedFraction(total, n);
    CeilScaled(ChargedAmount(total, n), 100000000.0);
  }

  lemma CeilOfCost(total: real, n: Rates)
    ensures ProcuredAs(Ceil(ProcuredAmount(total, n)), total, n.procurementBps)
  {
    TenThousandths(total, n.procurementBps);
    CeilScaled(ProcuredAmount(total, n), 10000.0);
  }

  lemma CeilScaled(x: real, scale: real)
    requires scale > 0.0
    ensures (Ceil(x) - 1) as real * scale < x * scale <= Ceil(x) as real * scale
  {
    MulStrict((Ceil(x) - 1) as real, x, scale);
    MulMono(x, Ceil(x) as real, scale);
  }

  /** Each contribution of the exact record is its own bucket of the list or the cost side, scaled by
      the same factors. */
  lemma ExactRecordScales(list: PriceTable, cost: PriceTable, t: Tokens, n: Rates)
    requires n.fx.Parsed?
    ensures var rec, l, c := ExactRecord(list, cost, t, n), CostBuckets(list, t), CostBuckets(cost, t);
            && ScalesTo(l.input, rec.charged.input, n) && ScalesTo(l.output, rec.charged.output, n)
            && ScalesTo(l.cacheRead, rec.charged.cacheRead, n) && ScalesTo(l.cacheWrite, rec.charged.cacheWrite, n)
            && ScalesTo(l.tools, rec.charged.tools, n)
            && CostsAs(c.input, rec.upstream.input, n) && CostsAs(c.output, rec.upstream.output, n)
            && CostsAs(c.cacheRead, rec.upstream.cacheRead, n) && CostsAs(c.cacheWrite, rec.upstream.cacheWrite, n)
            && CostsAs(c.tools, rec.upstream.tools, n)
  {
    BucketsScale(CostBuckets(list, t), CostBuckets(cost, t), n);
  }

  ghost predicate ScalesTo(exact: real, charged: real, n: Rates)
    requires n.fx.Parsed?
  {
    charged * 100000000.0 == exact * n.modelBps as real * n.planBps as real * n.fx.value
  }

  ghost predicate CostsAs(exact: real, cost: real, n: Rates) {
    cost * 10000.0 == exact * n.procurementBps as real
  }

  lemma BucketsScale(l: ExactBuckets, c: ExactBuckets, n: Rates)
    requires n.fx.Parsed?
    ensures var charged := l.Scale(Bps(n.modelBps)).Scale(Bps(n.planBps)).Scale(n.fx.value);
            && ScalesTo(l.input, charged.input, n) && ScalesTo(l.output, charged.output, n)
            && ScalesTo(l.cacheRead, charged.cacheRead, n) && ScalesTo(l.cacheWrite, charged.cacheWrite, n)
            && ScalesTo(l.tools, charged.tools, n)
    ensures var cost := c.Scale(Bps(n.procurementBps));
            && CostsAs(c.input, cost.input, n) && CostsAs(c.output, cost.output, n)
            && CostsAs(c.cacheRead, cost.cacheRead, n) && CostsAs(c.cacheWrite, cost.cacheWrite, n) && CostsAs(c.tools, cost.tools, n)
  {
    forall x
      ensures ScalesTo(x, ChargedAmount(x, n), n)
    {
      ChargedFraction(x, n);
    }
    forall x
      ensures CostsAs(x, Times(x, Bps(n.procurementBps)), n)
    {
      TenThousandths(x, n.procurementBps);
    }
    assert ScalesTo(l.input, ChargedAmount(l.input, n), n) && ScalesTo(l.output, ChargedAmount(l.output, n), n);
    assert ScalesTo(l.cacheRead, ChargedAmount(l.cacheRead, n), n) && ScalesTo(l.cacheWrite, ChargedAmount(l.cacheWrite, n), n);
    assert ScalesTo(l.tools, ChargedAmount(l.tools, n), n);
  }

  /** Two's complement: the one int64 congruent to the number. */
  lemma WrapsAround(n: int, w: int)
    ensures Wrapped(n) == w <==> -9223372036854775808 <= w <= 9223372036854775807 && (w - n) % 18446744073709551616 == 0
  {
  }

  /** The exact cost of a valid usage's text and media, in millionths of a nano: every count at the
      rate of its own bucket, tier and prompt length. The text of the prompt is what its audio and image
      counts leave, if anything; that of the answer likewise, after wrapping around. */
  lemma TextAndMediaCost(pt: PriceTable, t: Tokens)
    requires ValidTokens(t)
    ensures var tier := if t.serviceTier == Priority || t.serviceTier == Batch then t.serviceTier else Standard;
            var n := t.input + t.cachedRead + t.cacheWrite;
            var text, rest := t.input - t.audioIn - t.imageIn, Wrapped(t.output - t.audioOut - t.imageOut);
            && CostBuckets(pt, t).input * 1000000.0
               == ((if text > 0 then text * Lookup(pt, In, tier, Plain, n) else 0)
                   + t.audioIn * Lookup(pt, AudioIn, tier, Plain, n) + t.imageIn * Lookup(pt, ImageIn, tier, Plain, n)) as real
            && CostBuckets(pt, t).output * 1000000.0
               == ((if rest > 0 then rest * Lookup(pt, Out, tier, Plain, n) else 0)
                   + t.audioOut * Lookup(pt, AudioOut, tier, Plain, n) + t.imageOut * Lookup(pt, ImageOut, tier, Plain, n)) as real
  {
  }

  /** And of its cached tokens: the writes with a lifetime at that variant's rate, the others at the
      plain one. */
  lemma CacheCost(pt: PriceTable, t: Tokens)
    requires ValidTokens(t)
    ensures var tier := if t.serviceTier == Priority || t.serviceTier == Batch then t.serviceTier else Standard;
            var n := t.input + t.cachedRead + t.cacheWrite;
            && CostBuckets(pt, t).cacheRead * 1000000.0 == (t.cachedRead * Lookup(pt, CacheRead, tier, Plain, n)) as real
            && CostBuckets(pt, t).cacheWrite * 1000000.0
               == (t.cacheWrite5m * Lookup(pt, CacheWrite, tier, Cache5m, n) + t.cacheWrite1h * Lookup(pt, CacheWrite, tier, Cache1h, n)
                   + (t.cacheWrite - t.cacheWrite5m - t.cacheWrite1h) * Lookup(pt, CacheWrite, tier, Plain, n)) as real
  {
    var tier, n, rest := t.BillingTier(), t.ContextTokens(), t.cacheWrite - t.cacheWrite5m - t.cacheWrite1h;
    var short, long := Lookup(pt, CacheWrite, tier, Cache5m, n), Lookup(pt, CacheWrite, tier, Cache1h, n);
    var plain := Lookup(pt, CacheWrite, tier, Plain, n);
    ThreeAmounts(t.cacheWrite5m, short, t.cacheWrite1h, long, rest, plain);
    assert CostBuckets(pt, t).cacheRead == Amount(t.cachedRead, Lookup(pt, CacheRead, tier, Plain, n));
    assert CostBuckets(pt, t).cacheWrite == Amount(t.cacheWrite5m, short) + Amount(t.cacheWrite1h, long) + Amount(rest, plain);
  }

  lemma ThreeAmounts(a: int, ra: int, b: int, rb: int, c: int, rc: int)
    ensures (Amount(a, ra) + Amount(b, rb) + Amount(c, rc)) * 1000000.0 == (a * ra + b * rb + c * rc) as real
  {
  }

  /** What the tool calls cost is decided call by call: nothing without calls, and one more tool adds
      its calls times its price. */
  lemma ToolsAddUp(pt: PriceTable, calls: map<string, int>, tool: string, n: int)
    requires tool !in calls && n >= 0 && (pt.billingFree || tool in pt.tools)
    ensures SumOf(ToolCosts(pt, map[])) == 0.0
    ensures SumOf(ToolCosts(pt, calls[tool := n]))
            == SumOf(ToolCosts(pt, calls)) + (if pt.billingFree then 0 else n * pt.tools[tool]) as real
  {
    assert ToolCosts(pt, map[]) == map[];
    var per := LookupTool(pt, tool).value;
    if n > 0 {
      SumInsert(ToolCosts(pt, calls), tool, (n * per) as real);
      assert ToolCosts(pt, calls[tool := n]) == ToolCosts(pt, calls)[tool := (n * per) as real];
    } else {
      assert ToolCosts(pt, calls[tool := n]) == ToolCosts(pt, calls);
    }
  }

  /** At par rates a tool called n more times moves the charge and the cost by n times its prices. */
  lemma ToolCallsBilled(list: PriceTable, cost: PriceTable, t: Tokens, tool: string, n: int)
    requires tool !in t.toolCalls && n >= 0 && !list.billingFree && !cost.billingFree && tool in list.tools && tool in cost.tools
    ensures var r := Rates(10000, 10000, 10000, Parsed(1.0));
            var a, b := Bill(list, cost, t, r), Bill(list, cost, t.(toolCalls := t.toolCalls[tool := n]), r);
            a.Ok? && b.Ok? ==>
              b.value.chargedNano == a.value.chargedNano + n * list.tools[tool]
              && b.value.upstreamNano == a.value.upstreamNano + n * cost.tools[tool]
  {
    var r, u := Rates(10000, 10000, 10000, Parsed(1.0)), t.(toolCalls := t.toolCalls[tool := n]);
    ToolsAddUp(list, t.toolCalls, tool, n);
    ToolsAddUp(cost, t.toolCalls, tool, n);
    ToolsApart(list, t, u);
    ToolsApart(cost, t, u);
    if Bill(list, cost, t, r).Ok? && Bill(list, cost, u, r).Ok? {
      ParQuote(list, cost, t);
      ParQuote(list, cost, u);
      CeilShift(CostBuckets(list, t).Total(), n * list.tools[tool]);
      CeilShift(CostBuckets(cost, t).Total(), n * cost.tools[tool]);
    }
  }

  lemma ToolsApart(pt: PriceTable, t: Tokens, u: Tokens)
    requires u == t.(toolCalls := u.toolCalls)
    ensures CostBuckets(pt, u) == CostBuckets(pt, t).(tools := SumOf(ToolCosts(pt, u.toolCalls)))
    ensures CostBuckets(pt, t).tools == SumOf(ToolCosts(pt, t.toolCalls))
  {
    assert u.BillingTier() == t.BillingTier() && u.ContextTokens() == t.ContextTokens() && TextOutput(u) == TextOutput(t);
  }

  lemma CeilShift(x: real, k: int)
    ensures Ceil(x + k as real) == Ceil(x) + k
  {
  }

  lemma ParQuote(list: PriceTable, cost: PriceTable, t: Tokens)
    ensures var bill := Bill(list, cost, t, Rates(10000, 10000, 10000, Parsed(1.0)));
            bill.Ok? ==> bill.value.chargedNano == Ceil(CostBuckets(list, t).Total()) && bill.value.upstreamNano == Ceil(CostBuckets(cost, t).Total())
  {
    var r := Rates(10000, 10000, 10000, Parsed(1.0));
    if Bill(list, cost, t, r).Ok? {
      BillIsQuoted(list, cost, t, r);
      AtPar(CostBuckets(list, t).Total());
      AtPar(CostBuckets(cost, t).Total());
    }
  }

  /** Free means the customer pays nothing, tools included, while the cost side is billed as if it were
      not, and a called tool it does not price still stops the billing. */
  lemma FreeFailsClosed(list: PriceTable, cost: PriceTable, t: Tokens, r: Rates)
    requires !cost.billingFree
    ensures var bill := Bill(ForBilling(list, true), cost, t, r);
            && (bill.Ok? ==>
                  && bill.value.chargedNano == 0
                  && ProcuredAs(bill.value.upstreamNano, CostBuckets(cost, t).Total(), bill.value.procurementBps))
            && ((exists tool :: tool in t.toolCalls && t.toolCalls[tool] > 0 && tool !in cost.tools) ==> bill.Err?)
  {
    var free := ForBilling(list, true);
    UnpricedIff(cost, t.toolCalls);
    if Bill(free, cost, t, r).Ok? {
      QuoteAmounts(free, cost, t, r);
      FreeCosts(free, t);
      NothingCharged(Bill(free, cost, t, r).value);
    }
  }

  lemma NothingCharged(q: Quote)
    requires q.fx.Parsed? && ChargedAs(q.chargedNano, 0.0, q.modelBps, q.planBps, q.fx.value)
    ensures q.chargedNano == 0
  {
    assert 0.0 * q.modelBps as real * q.planBps as real * q.fx.value == 0.0;
  }

  lemma FreeCosts(pt: PriceTable, t: Tokens)
    requires pt.billingFree
    ensures CostBuckets(pt, t).Total() == 0.0
  {
    FreeTools(pt, t.toolCalls);
    assert forall tokens :: Amount(tokens, 0) == 0.0;
  }

  lemma FreeTools(pt: PriceTable, calls: map<string, int>)
    requires pt.billingFree
    ensures SumOf(ToolCosts(pt, calls)) == 0.0
  {
    SumOfZeros(ToolCosts(pt, calls));
  }

  /*********************** Conservation of tokens ***********************/

  /** The split of the input count fits: half of what validation leaves unchecked. */
  predicate InputFits(t: Tokens) {
    t.audioIn + t.imageIn <= t.input
  }

  /** The split of the output count fits, and taking it apart stays in the int64 range: the other
      half. */
  predicate OutputFits(t: Tokens) {
    t.audioOut + t.imageOut <= t.output && IsInt64(t.output - t.audioOut - t.imageOut)
  }

  predicate SplitFits(t: Tokens) {
    InputFits(t) && OutputFits(t)
  }

  /** What the output split adds up to again, for any image count an int64 can hold. */
  lemma OutputSum(t: Tokens)
    requires ValidTokens(t) && IsInt64(t.imageOut)
    ensures TextOutput(t) + t.audioOut + t.imageOut == t.output <==> OutputFits(t)
    ensures OutputFits(t) ==> TextOutput(t) == t.output - t.audioOut - t.imageOut
  {
    var rest := t.output - t.audioOut - t.imageOut;
    assert -INT64_MAX <= rest <= INT64_MAX - INT64_MIN;
    assert Wrapped(rest) == if rest <= INT64_MAX then rest else rest - 0x1_0000_0000_0000_0000;
  }

  /** The plain formula: four counts at four rates. */
  function FourRates(p: Price, t: Tokens): ExactBuckets {
    ExactBuckets(Amount(t.input, p.input), Amount(t.output, p.output),
                 Amount(t.cachedRead, p.cacheRead), Amount(t.cacheWrite, p.cacheWrite), 0.0)
  }

  /** With no overrides the split is invisible exactly when it fits its parent bucket, or the
      parent's rate is zero. */
  lemma ConservationIff(p: Price, t: Tokens)
    requires ValidTokens(t) && IsInt64(t.imageOut) && t.toolCalls == map[]
    ensures CostBuckets(Flat(p), t) == FourRates(p, t)
            <==> (InputFits(t) || p.input == 0) && (OutputFits(t) || p.output == 0)
  {
    var c := CostBuckets(Flat(p), t);
    assert ToolCosts(Flat(p), t.toolCalls) == map[];
    var inside, outside := NonNeg(t.input - t.audioIn - t.imageIn), TextOutput(t);
    OutputSum(t);
    SplitAmount(inside, t.audioIn, t.imageIn, p.input);
    SplitAmount(outside, t.audioOut, t.imageOut, p.output);
    SplitAmount(NonNeg(t.cacheWrite - t.cacheWrite5m - t.cacheWrite1h), t.cacheWrite5m, t.cacheWrite1h, p.cacheWrite);
    assert c.input == Amount(inside + t.audioIn + t.imageIn, p.input);
    assert c.output == Amount(outside + t.audioOut + t.imageOut, p.output);
    EqualAmounts(inside + t.audioIn + t.imageIn, t.input, p.input);
    EqualAmounts(outside + t.audioOut + t.imageOut, t.output, p.output);
  }

  lemma SplitAmount(a: int, b: int, c: int, rate: int)
    ensures Amount(a, rate) + Amount(b, rate) + Amount(c, rate) == Amount(a + b + c, rate)
  {
    assert (a + b + c) * rate == a * rate + b * rate + c * rate;
  }

  lemma EqualAmounts(a: int, b: int, rate: int)
    ensures Amount(a, rate) == Amount(b, rate) <==> a == b || rate == 0
  {
    assert a * rate - b * rate == (a - b) * rate;
    if a * rate == b * rate && rate != 0 {
      assert (a - b) * rate == 0;
    }
  }

  /** The quote of a table without overrides does not see how the counts were split. */
  lemma SplitInvisible(p: Price, cost: PriceTable, t: Tokens, u: Tokens, r: Rates)
    requires SplitFits(t) && SplitFits(u) && IsInt64(t.imageOut) && IsInt64(u.imageOut)
    requires t.toolCalls == u.toolCalls == map[]
    requires t.input == u.input && t.output == u.output && t.cachedRead == u.cachedRead && t.cacheWrite == u.cacheWrite
    ensures var a, b := Bill(Flat(p), cost, t, r), Bill(Flat(p), cost, u, r);
            a.Ok? && b.Ok? ==> a.value.chargedNano == b.value.chargedNano
  {
    if ValidTokens(t) && ValidTokens(u) {
      ConservationIff(p, t);
      ConservationIff(p, u);
    }
  }

  /** At par rates a request with a whole-number exact cost is billed that number. */
  lemma BillAtPar(t: PriceTable, u: Tokens, total: int)
    requires ValidTokens(u) && u.toolCalls == map[]
    requires CostBuckets(t, u).Total() == total as real && IsInt64(total)
    ensures Bill(t, t, u, Rates(0, 0, 0, Parsed(1.0))) == Ok(Quote(total, total, 10000, 10000, 10000, Parsed(1.0)))
  {
    var r, n := Rates(0, 0, 0, Parsed(1.0)), Rates(10000, 10000, 10000, Parsed(1.0));
    AtPar(total as real);
    BillIsQuote(t, u, r, n, total as real);
    QuoteAtPar(total, total, n);
  }

  lemma BillIsQuote(t: PriceTable, u: Tokens, r: Rates, n: Rates, total: real)
    requires ValidTokens(u) && u.toolCalls == map[] && CostBuckets(t, u).Total() == total
    requires Normalize(r) == Ok(n) && UsableFx(r.fx) && n.fx == r.fx
    ensures Bill(t, t, u, r) == QuoteFrom(ProcuredAmount(total, n), total, n)
  {
  }

  lemma QuoteAtPar(cost: int, list: int, n: Rates)
    requires IsInt64(cost) && IsInt64(list) && n.fx.Parsed? && ChargedAmount(list as real, n) == list as real
    ensures QuoteFrom(cost as real, list as real, n) == Ok(Quote(cost, list, n.modelBps, n.planBps, n.procurementBps, n.fx))
  {
    assert Ceil(cost as real) == cost && Ceil(list as real) == list;
  }

  lemma AtPar(total: real)
    ensures var n := Rates(10000, 10000, 10000, Parsed(1.0));
            Normalize(Rates(0, 0, 0, Parsed(1.0))) == Ok(n) && ChargedAmount(total, n) == total == ProcuredAmount(total, n)
  {
  }

  /** One nano for every token. */
  function NanoEach(): PriceTable {
    Flat(Price(1000000, 1000000, 0, 0))
  }

  lemma NanoEachBill(u: Tokens, total: int)
    requires ValidTokens(u) && u.toolCalls == map[] && u.cachedRead == u.cacheWrite == u.cacheWrite5m == u.cacheWrite1h == 0
    requires total == NonNeg(u.input - u.audioIn - u.imageIn) + u.audioIn + u.imageIn + TextOutput(u) + u.audioOut + u.imageOut
    requires IsInt64(total)
    ensures Bill(NanoEach(), NanoEach(), u, Rates(0, 0, 0, Parsed(1.0))) == Ok(Quote(total, total, 10000, 10000, 10000, Parsed(1.0)))
  {
    FlatTotal(Price(1000000, 1000000, 0, 0), u);
    BillAtPar(NanoEach(), u, total);
  }

  /** The checks validation lacks are real gaps. At one nano a token, ten tokens in and ten out are
      billed 20. The usages below report the same ten and ten and validate, but are billed
      otherwise: */
  lemma PlainTenAndTen()
    ensures Bill(NanoEach(), NanoEach(), PlainTokens(10, 10), Rates(0, 0, 0, Parsed(1.0)))
            == Ok(Quote(20, 20, 10000, 10000, 10000, Parsed(1.0)))
  {
    NanoEachBill(PlainTokens(10, 10), 20);
  }

  /** 30 when the audio and the image count each take the whole input, */
  lemma OverlappingInputOvercharges()
    ensures Bill(NanoEach(), NanoEach(), PlainTokens(10, 10).(audioIn := 10, imageIn := 10), Rates(0, 0, 0, Parsed(1.0)))
            == Ok(Quote(30, 30, 10000, 10000, 10000, Parsed(1.0)))
  {
    NanoEachBill(PlainTokens(10, 10).(audioIn := 10, imageIn := 10), 30);
  }

  /** 35 when the image count exceeds the output, */
  lemma ExcessImageOvercharges()
    ensures Bill(NanoEach(), NanoEach(), PlainTokens(10, 10).(imageOut := 25), Rates(0, 0, 0, Parsed(1.0)))
            == Ok(Quote(35, 35, 10000, 10000, 10000, Parsed(1.0)))
  {
    NanoEachBill(PlainTokens(10, 10).(imageOut := 25), 35);
  }

  /** and, when the image count is the least int64, a credit of nearly all an int64 can hold. */
  lemma WrappedImageCredits()
    ensures Bill(NanoEach(), NanoEach(), PlainTokens(10, 10).(imageOut := INT64_MIN), Rates(0, 0, 0, Parsed(1.0)))
            == Ok(Quote(INT64_MIN + 10, INT64_MIN + 10, 10000, 10000, 10000, Parsed(1.0)))
  {
    NanoEachBill(PlainTokens(10, 10).(imageOut := INT64_MIN), INT64_MIN + 10);
  }

  lemma FlatTotal(p: Price, t: Tokens)
    requires t.toolCalls == map[] && t.cachedRead == t.cacheWrite == t.cacheWrite5m == t.cacheWrite1h == 0
    ensures CostBuckets(Flat(p), t).Total()
            == Amount(NonNeg(t.input - t.audioIn - t.imageIn) + t.audioIn + t.imageIn, p.input)
             + Amount(TextOutput(t) + t.audioOut + t.imageOut, p.output)
  {
    assert ToolCosts(Flat(p), t.toolCalls) == map[];
    SplitAmount(NonNeg(t.input - t.audioIn - t.imageIn), t.audioIn, t.imageIn, p.input);
    SplitAmount(TextOutput(t), t.audioOut, t.imageOut, p.output);
  }

  /*********************** Snapshots suffice to re-bill ***********************/

  ghost predicate SameAnswers(t: PriceTable, u: PriceTable) {
    && (forall bucket, tier, variant, context ::
          Lookup(t, bucket, tier, variant, context) == Lookup(u, bucket, tier, variant, context))
    && forall tool :: LookupTool(t, tool) == LookupTool(u, tool)
  }

  lemma SameAnswersSameCost(t: PriceTable, u: PriceTable, usage: Tokens)
    requires SameAnswers(t, u)
    ensures CostBuckets(t, usage) == CostBuckets(u, usage)
    ensures ToolsPriced(t, usage.toolCalls) <==> ToolsPriced(u, usage.toolCalls)
  {
    assert ToolCosts(t, usage.toolCalls) == ToolCosts(u, usage.toolCalls);
  }

  /** A table rebuilt from the snapshot of another bills every usage at every rate alike, on
      either side of the quote. */
  lemma SnapshotRebills(t: PriceTable, rows: seq<Row>, s: Snapshot, rebuilt: PriceTable,
                        cost: PriceTable, usage: Tokens, r: Rates)
    requires Represents(t.over, rows) && OneRowPerBand(rows) && !t.billingFree
    requires s.base == t.base && s.tools == t.tools && Holds(t.over, s.rows)
    requires rebuilt.base == s.base && Represents(rebuilt.over, s.rows) && rebuilt.tools == s.tools && !rebuilt.billingFree
    ensures Bill(rebuilt, cost, usage, r) == Bill(t, cost, usage, r)
    ensures Bill(cost, rebuilt, usage, r) == Bill(cost, t, usage, r)
  {
    forall x: Row ensures x in rows <==> x in s.rows {
      assert x == Row(x.key, x.band);
      assert x.band in BandsAt(t.over, x.key) <==> x in rows;
    }
    forall bucket, tier, variant, context
      ensures Lookup(t, bucket, tier, variant, context) == Lookup(rebuilt, bucket, tier, variant, context)
    {
      SameRowsSameLookup(t, rebuilt, rows, s.rows, bucket, tier, variant, context);
    }
    SameAnswersSameCost(t, rebuilt, usage);
  }

  /*********************** The organization's own credential ***********************/

  /** A request on the organization's own upstream credential pays a service fee and records
      no cost. */
  ghost function BillByok(p: PriceTable, t: Tokens, feeBps: int, r: Rates): Result<Quote, Refusal> {
    var m := r.(modelBps := NO_DISCOUNT_BPS);
    if !ValidTokens(t) then Err(BadTokens)
    else if feeBps < 0 then Err(NegativeFee)
    else if Normalize(m).Err? then Err(Normalize(m).error)
    else if !UsableFx(r.fx) then Err(BadFx)
    else if !ToolsPriced(p, t.toolCalls) then Err(ToolPriceMissing)
    else
      var n := Normalize(m).value;
      match CeilToInt64(ChargedAmount(CostBuckets(p, t).Total(), n.(modelBps := feeBps)))
      case Err(_) => Err(ChargeOverflow)
      case Ok(c) => Ok(Quote(0, c, NO_DISCOUNT_BPS, n.planBps, NO_DISCOUNT_BPS, n.fx))
  }

  method ComputeByok(p: PriceTable, t: Tokens, feeBps: int, r: Rates) returns (res: Result<Quote, Refusal>)
    ensures res == BillByok(p, t, feeBps, r)
  {
    if !ValidTokens(t) {
      return Err(BadTokens);
    }
    if feeBps < 0 {
      return Err(NegativeFee);
    }
    var n := Normalize(r.(modelBps := NO_DISCOUNT_BPS));
    if n.Err? {
      return Err(n.error);
    }
    if !UsableFx(n.value.fx) {
      return Err(BadFx);
    }
    var costs := UpstreamCostBuckets(p, t);
    if costs.Err? {
      return Err(costs.error);
    }
    var charged := costs.value.Total();
    charged := Times(charged, Bps(feeBps));
    charged := Times(charged, Bps(n.value.planBps));
    charged := Times(charged, n.value.fx.value);
    match CeilToInt64(charged)
    case Err(_) => return Err(ChargeOverflow);
    case Ok(c) => return Ok(Quote(0, c, NO_DISCOUNT_BPS, n.value.planBps, NO_DISCOUNT_BPS, n.value.fx));
  }

  /** The service fee: the exact list total times the fee, the plan multiplier and the exchange rate,
      rounded up once; no cost, and no model or procurement multiplier on record. A fee of zero
      charges nothing. */
  lemma ByokAmounts(p: PriceTable, t: Tokens, feeBps: int, r: Rates)
    requires BillByok(p, t, feeBps, r).Ok?
    ensures var q := BillByok(p, t, feeBps, r).value;
            && q.fx == r.fx && q.fx.Parsed? && feeBps >= 0
            && ChargedAs(q.chargedNano, CostBuckets(p, t).Total(), feeBps, q.planBps, q.fx.value)
            && (feeBps == 0 ==> q.chargedNano == 0)
            && q.upstreamNano == 0 && q.modelBps == 10000 && q.procurementBps == 10000
            && q.planBps == (if r.planBps == 0 then 10000 else r.planBps)
  {
    var m := r.(modelBps := NO_DISCOUNT_BPS);
    FactorsInForce(m);
    FeeAmounts(CostBuckets(p, t).Total(), feeBps, Normalize(m).value);
  }

  lemma FeeAmounts(total: real, feeBps: int, n: Rates)
    requires n.fx.Parsed?
    ensures var fee := Ceil(ChargedAmount(total, n.(modelBps := feeBps)));
            ChargedAs(fee, total, feeBps, n.planBps, n.fx.value) && (feeBps == 0 ==> fee == 0)
  {
    CeilOfCharge(total, n.(modelBps := feeBps));
    if feeBps == 0 {
      assert total * 0.0 * n.planBps as real * n.fx.value == 0.0;
    }
  }

  /** What a service fee is refused for: a negative fee, once the counts are sound; otherwise just what
      the same request on the platform's credential is refused for, whatever its model multiplier. */
  lemma ByokRefusedIff(p: PriceTable, t: Tokens, feeBps: int, r: Rates)
    ensures var byok, bill := BillByok(p, t, feeBps, r), Bill(p, p, t, r.(modelBps := 0));
            && (byok == Err(BadTokens) <==> bill == Err(BadTokens))
            && (byok == Err(NegativeFee) <==> bill != Err(BadTokens) && feeBps < 0)
            && (feeBps >= 0 ==> (byok == Err(BadRates) <==> bill == Err(BadRates)) && (byok == Err(BadFx) <==> bill == Err(BadFx)))
            && (feeBps >= 0 ==> (byok == Err(ToolPriceMissing) <==> bill == Err(ToolPriceMissing)))
            && byok != Err(CostOverflow)
  {
  }

  /** A fee of the model multiplier charges what the platform credential would: the two paths
      share one multiplier chain and one rounding. */
  lemma ByokMatchesPlatform(p: PriceTable, cost: PriceTable, t: Tokens, r: Rates)
    ensures Bill(p, cost, t, r).Ok? ==>
              var byok := BillByok(p, t, Normalize(r).value.modelBps, r);
              byok.Ok? && byok.value.chargedNano == Bill(p, cost, t, r).value.chargedNano && byok.value.upstreamNano == 0
  {
  }
}
