/** The price list an organization sees, and its relation to what it is billed. */
module PublishedPrices {
  import opened Amounts
  import opened PriceTables
  import opened Pricing
  import opened Holds

  /** The multipliers in force for one model and one organization: configured ones win. */
  function RatesForOrgModel(modelBps: int, planBps: int, base: Rates): Rates {
    var r := if modelBps > 0 then base.(modelBps := modelBps) else base;
    if planBps > 0 then r.(planBps := planBps) else r
  }

  /** The rate, taken through the multipliers at an exchange rate of one. */
  function Multiplied(rate: int, n: Rates): real {
    ChargedAmount(rate as real, n.(fx := Parsed(1.0)))
  }

  /** Neither of the two amounts publishing computes leaves the int64 range. */
  predicate Publishable(rate: int, n: Rates) {
    ProcuredAmount(rate as real, n) <= INT64_MAX as real && Multiplied(rate, n) <= INT64_MAX as real
  }

  lemma MillionAt(rate: int)
    requires rate > 0
    ensures CostBuckets(Flat(Price(rate, 0, 0, 0)), PlainTokens(TOKENS_PER_MTOK, 0)).Total() == rate as real
  {
    PlainTotal(Price(rate, 0, 0, 0), TOKENS_PER_MTOK, 0);
    assert Amount(TOKENS_PER_MTOK, rate) == rate as real;
    assert Amount(0, 0) == 0.0;
  }

  lemma PositiveProducts(rate: int, n: Rates)
    requires rate > 0 && n.modelBps >= 1 && n.planBps >= 1 && n.procurementBps >= 1
    ensures Multiplied(rate, n) > 0.0 && ProcuredAmount(rate as real, n) > 0.0
  {
    MulStrict(0.0, rate as real, Bps(n.modelBps));
    MulStrict(0.0, Times(rate as real, Bps(n.modelBps)), Bps(n.planBps));
    MulStrict(0.0, rate as real, Bps(n.procurementBps));
  }

  /** A rate as published: multiplied and rounded up on its own, and zero when the rate is not
      positive, the multipliers are refused or an amount overflows. */
  function Published(rate: int, r: Rates): int {
    var n := Normalize(r.(fx := Parsed(1.0)));
    if rate > 0 && n.Ok? && Publishable(rate, n.value) then Ceil(Multiplied(rate, n.value)) else 0
  }

  /** The code publishes a rate by billing a million tokens at it. */
  method ApplyOrgMultipliers(rate: int, r: Rates) returns (published: int)
    ensures published == Published(rate, r)
  {
    if rate <= 0 {
      return 0;
    }
    var listed := Flat(Price(rate, 0, 0, 0));
    var q := Compute(listed, listed, PlainTokens(TOKENS_PER_MTOK, 0), r.(fx := Parsed(1.0)));
    BillOfMillion(rate, r);
    return if q.Ok? then q.value.chargedNano else 0;
  }

  /** Billing a million tokens at a rate gives the rounded multiplied rate, or an overflow. */
  lemma BillOfMillion(rate: int, r: Rates)
    requires rate > 0
    ensures var listed := Flat(Price(rate, 0, 0, 0));
            var bill := Bill(listed, listed, PlainTokens(TOKENS_PER_MTOK, 0), r.(fx := Parsed(1.0)));
            Published(rate, r) == if bill.Ok? then bill.value.chargedNano else 0
  {
    var m := Normalize(r.(fx := Parsed(1.0)));
    if m.Ok? {
      var n := m.value;
      MillionAt(rate);
      PositiveProducts(rate, n);
      CeilIsLeast(ProcuredAmount(rate as real, n), INT64_MAX);
      CeilIsLeast(Multiplied(rate, n), INT64_MAX);
      assert n.(fx := Parsed(1.0)) == n;
    }
  }

  /** A published rate is never below the rate it stands for, exactly when publishing it does not
      overflow. */
  lemma PublishedCoversIff(rate: int, r: Rates)
    requires Normalize(r.(fx := Parsed(1.0))).Ok?
    ensures var n := Normalize(r.(fx := Parsed(1.0))).value;
            Multiplied(rate, n) <= Published(rate, r) as real <==> rate <= 0 || Publishable(rate, n)
  {
    var n := Normalize(r.(fx := Parsed(1.0))).value;
    if rate > 0 {
      PositiveProducts(rate, n);
    } else {
      MulMono(rate as real, 0.0, Bps(n.modelBps));
      MulMono(Times(rate as real, Bps(n.modelBps)), 0.0, Bps(n.planBps));
    }
  }

  /** A published rate is the least integer not below the rate times both multipliers. */
  lemma PublishedAmount(rate: int, r: Rates)
    requires rate > 0 && Normalize(r.(fx := Parsed(1.0))).Ok? && Publishable(rate, Normalize(r.(fx := Parsed(1.0))).value)
    ensures ChargedAs(Published(rate, r), rate as real,
                      if r.modelBps == 0 then 10000 else r.modelBps, if r.planBps == 0 then 10000 else r.planBps, 1.0)
  {
    var n := Normalize(r.(fx := Parsed(1.0))).value;
    FactorsInForce(r.(fx := Parsed(1.0)));
    CeilOfCharge(rate as real, n.(fx := Parsed(1.0)));
  }

  /** Every rate the schema admits is publishable at every multiplier the code admits. */
  lemma StoredRatesArePublishable(rate: int, n: Rates)
    requires Storable(rate)
    requires 1 <= n.modelBps <= MAX_MULTIPLIER_BPS && 1 <= n.planBps <= MAX_MULTIPLIER_BPS && 1 <= n.procurementBps <= MAX_MULTIPLIER_BPS
    ensures Publishable(rate, n)
  {
    var x := rate as real;
    TenfoldAtMost(x, Bps(n.procurementBps), 92233720368547758.0);
    TenfoldAtMost(x, Bps(n.modelBps), 92233720368547758.0);
    TenfoldAtMost(Times(x, Bps(n.modelBps)), Bps(n.planBps), 922337203685477580.0);
  }

  /** The schema's bound is exact: a rate is stored if and only if it can be published at tenfold
      multipliers. */
  lemma StorableIff(rate: int)
    ensures Storable(rate) <==> rate >= 0 && Publishable(rate, Rates(100000, 100000, 100000, Parsed(1.0)))
  {
    var n := Rates(100000, 100000, 100000, Parsed(1.0));
    ChargedFraction(rate as real, n);
    TenThousandths(rate as real, 100000);
    assert rate as real * 100000.0 * 100000.0 * 1.0 == rate as real * 10000000000.0;
  }

  lemma TenfoldAtMost(a: real, factor: real, bound: real)
    requires 0.0 <= a <= bound && 0.0 <= factor <= 10.0
    ensures 0.0 <= Times(a, factor) <= bound * 10.0
  {
    MulMono(0.0, a, factor);
    MulMono(a, bound, factor);
    MulMono(factor, 10.0, bound);
    assert factor * bound == bound * factor;
  }

  /** Usage in the four base buckets only. */
  predicate FourBuckets(t: Tokens) {
    && t.audioIn == t.audioOut == t.imageIn == t.imageOut == t.cacheWrite5m == t.cacheWrite1h == 0
    && t.toolCalls == map[]
  }

  /** The list price of a usage: tokens times the published rate of their bucket, over a million. */
  function ListTotal(p: Price, t: Tokens, r: Rates): real {
    Amount(t.input, Published(p.input, r)) + Amount(t.output, Published(p.output, r))
    + Amount(t.cachedRead, Published(p.cacheRead, r)) + Amount(t.cacheWrite, Published(p.cacheWrite, r))
  }

  ghost predicate ListCovers(tokens: int, rate: int, n: Rates) {
    tokens == 0 || rate <= 0 || Publishable(rate, n)
  }

  lemma BucketWithinList(tokens: int, rate: int, r: Rates)
    requires Normalize(r).Ok? && r.fx == Parsed(1.0) && tokens >= 0
    requires ListCovers(tokens, rate, Normalize(r).value)
    ensures ChargedAmount(Amount(tokens, rate), Normalize(r).value) <= Amount(tokens, Published(rate, r))
  {
    var n := Normalize(r).value;
    assert r.(fx := Parsed(1.0)) == r && n.(fx := Parsed(1.0)) == n;
    if tokens == 0 {
      ZeroAmount(rate, n);
      ZeroAmount(Published(rate, r), n);
    } else {
      PublishedCoversIff(rate, r);
      ScaledAmount(tokens, rate, n);
      var share := tokens as real / 1000000.0;
      MulMono(Multiplied(rate, n), Published(rate, r) as real, share);
      assert Amount(tokens, Published(rate, r)) == Published(rate, r) as real * share;
    }
  }

  lemma ZeroAmount(rate: int, n: Rates)
    requires n.fx.Parsed?
    ensures Amount(0, rate) == 0.0 && ChargedAmount(Amount(0, rate), n) == 0.0
  {
  }

  lemma ScaledAmount(tokens: int, rate: int, n: Rates)
    requires n.fx == Parsed(1.0)
    ensures ChargedAmount(Amount(tokens, rate), n) == Multiplied(rate, n) * (tokens as real / 1000000.0)
  {
    var share := tokens as real / 1000000.0;
    assert Amount(tokens, rate) == rate as real * share;
    ChargedLinear(rate as real, share, n);
  }

  lemma ChargedLinear(a: real, share: real, n: Rates)
    requires n.fx.Parsed?
    ensures ChargedAmount(a * share, n) == ChargedAmount(a, n) * share
  {
    var m, p, f := Bps(n.modelBps), Bps(n.planBps), n.fx.value;
    calc {
      a * share * m * p * f;
      (a * m) * share * p * f;
      (a * m * p) * share * f;
      (a * m * p * f) * share;
    }
  }

  lemma ChargedAdditive(a: real, b: real, n: Rates)
    requires n.fx.Parsed?
    ensures ChargedAmount(a + b, n) == ChargedAmount(a, n) + ChargedAmount(b, n)
  {
    var m, p, f := Bps(n.modelBps), Bps(n.planBps), n.fx.value;
    assert (a + b) * m == a * m + b * m;
    assert (a * m + b * m) * p == a * m * p + b * m * p;
  }

  /** The bill of a flat-rate model in USD is at most the ceiling of the same usage at the
      published list, although every listed rate was rounded on its own. */
  lemma BillWithinPublishedList(p: Price, cost: PriceTable, t: Tokens, r: Rates)
    requires r.fx == Parsed(1.0) && FourBuckets(t) && Normalize(r).Ok?
    requires var n := Normalize(r).value;
             && ListCovers(t.input, p.input, n) && ListCovers(t.output, p.output, n)
             && ListCovers(t.cachedRead, p.cacheRead, n) && ListCovers(t.cacheWrite, p.cacheWrite, n)
    ensures Bill(Flat(p), cost, t, r).Ok? ==> Bill(Flat(p), cost, t, r).value.chargedNano <= Ceil(ListTotal(p, t, r))
  {
    if Bill(Flat(p), cost, t, r).Ok? {
      var total := FlatCharge(p, cost, t, r);
      RoundedWithinList(p, t, r, total);
    }
  }

  /** A rate the schema admits. */
  predicate Storable(rate: int) {
    0 <= rate <= 92233720368547758
  }

  predicate StorablePrice(p: Price) {
    Storable(p.input) && Storable(p.output) && Storable(p.cacheRead) && Storable(p.cacheWrite)
  }

  /** For every price the schema admits and every organization: what the organization is billed under
      its multipliers is less than one nano above its own published list, in millionths of a nano, and
      a configured multiplier is the one in force. */
  lemma OrgBillWithinOrgList(p: Price, cost: PriceTable, t: Tokens, modelBps: int, planBps: int, base: Rates)
    requires StorablePrice(p) && FourBuckets(t) && base.fx == Parsed(1.0)
    ensures var r := RatesForOrgModel(modelBps, planBps, base);
            && (Bill(Flat(p), cost, t, r).Ok? ==>
                  (Bill(Flat(p), cost, t, r).value.chargedNano - 1) * 1000000
                  < t.input * Published(p.input, r) + t.output * Published(p.output, r)
                    + t.cachedRead * Published(p.cacheRead, r) + t.cacheWrite * Published(p.cacheWrite, r))
            && r == base.(modelBps := if modelBps <= 0 then base.modelBps else modelBps, planBps := if planBps <= 0 then base.planBps else planBps)
  {
    var r := RatesForOrgModel(modelBps, planBps, base);
    NormalizeMeans(r);
    if Normalize(r).Ok? {
      var n := Normalize(r).value;
      StoredRatesArePublishable(p.input, n);
      StoredRatesArePublishable(p.output, n);
      StoredRatesArePublishable(p.cacheRead, n);
      StoredRatesArePublishable(p.cacheWrite, n);
      BillWithinPublishedList(p, cost, t, r);
      if Bill(Flat(p), cost, t, r).Ok? {
        BelowTheList(p, t, r, Bill(Flat(p), cost, t, r).value.chargedNano);
      }
    }
  }

  /** The ceiling of the list total, in whole numbers. */
  lemma BelowTheList(p: Price, t: Tokens, r: Rates, nano: int)
    requires nano <= Ceil(ListTotal(p, t, r))
    ensures (nano - 1) * 1000000
            < t.input * Published(p.input, r) + t.output * Published(p.output, r)
              + t.cachedRead * Published(p.cacheRead, r) + t.cacheWrite * Published(p.cacheWrite, r)
  {
    var a, b := t.input * Published(p.input, r), t.output * Published(p.output, r);
    var c, d := t.cachedRead * Published(p.cacheRead, r), t.cacheWrite * Published(p.cacheWrite, r);
    assert ListTotal(p, t, r) * 1000000.0 == (a + b + c + d) as real;
    CeilIsLeast(ListTotal(p, t, r), nano - 1);
  }

  lemma FlatCharge(p: Price, cost: PriceTable, t: Tokens, r: Rates) returns (total: real)
    requires r.fx == Parsed(1.0) && FourBuckets(t) && Bill(Flat(p), cost, t, r).Ok?
    ensures total == Amount(t.input, p.input) + Amount(t.output, p.output)
                   + Amount(t.cachedRead, p.cacheRead) + Amount(t.cacheWrite, p.cacheWrite)
    ensures Bill(Flat(p), cost, t, r).value.chargedNano == Ceil(ChargedAmount(total, Normalize(r).value))
  {
    ChargeIsCeil(Flat(p), cost, t, r);
    FlatFourBuckets(p, t);
    total := CostBuckets(Flat(p), t).Total();
  }

  lemma RoundedWithinList(p: Price, t: Tokens, r: Rates, total: real)
    requires Normalize(r).Ok? && r.fx == Parsed(1.0)
    requires t.input >= 0 && t.output >= 0 && t.cachedRead >= 0 && t.cacheWrite >= 0
    requires var n := Normalize(r).value;
             && ListCovers(t.input, p.input, n) && ListCovers(t.output, p.output, n)
             && ListCovers(t.cachedRead, p.cacheRead, n) && ListCovers(t.cacheWrite, p.cacheWrite, n)
    requires total == Amount(t.input, p.input) + Amount(t.output, p.output)
                    + Amount(t.cachedRead, p.cacheRead) + Amount(t.cacheWrite, p.cacheWrite)
    ensures Ceil(ChargedAmount(total, Normalize(r).value)) <= Ceil(ListTotal(p, t, r))
  {
    ExactChargeWithinList(p, t, r);
    CeilMonotone(ChargedAmount(total, Normalize(r).value), ListTotal(p, t, r));
  }

  lemma ExactChargeWithinList(p: Price, t: Tokens, r: Rates)
    requires Normalize(r).Ok? && r.fx == Parsed(1.0)
    requires t.input >= 0 && t.output >= 0 && t.cachedRead >= 0 && t.cacheWrite >= 0
    requires var n := Normalize(r).value;
             && ListCovers(t.input, p.input, n) && ListCovers(t.output, p.output, n)
             && ListCovers(t.cachedRead, p.cacheRead, n) && ListCovers(t.cacheWrite, p.cacheWrite, n)
    ensures var total := Amount(t.input, p.input) + Amount(t.output, p.output)
                       + Amount(t.cachedRead, p.cacheRead) + Amount(t.cacheWrite, p.cacheWrite);
            ChargedAmount(total, Normalize(r).value) <= ListTotal(p, t, r)
  {
    ChargedSum(Amount(t.input, p.input), Amount(t.output, p.output),
               Amount(t.cachedRead, p.cacheRead), Amount(t.cacheWrite, p.cacheWrite), Normalize(r).value);
    BucketWithinList(t.input, p.input, r);
    BucketWithinList(t.output, p.output, r);
    BucketWithinList(t.cachedRead, p.cacheRead, r);
    BucketWithinList(t.cacheWrite, p.cacheWrite, r);
  }

  lemma ChargedSum(a: real, b: real, c: real, d: real, n: Rates)
    requires n.fx.Parsed?
    ensures ChargedAmount(a + b + c + d, n)
            == ChargedAmount(a, n) + ChargedAmount(b, n) + ChargedAmount(c, n) + ChargedAmount(d, n)
  {
    ChargedAdditive(a + b + c, d, n);
    ChargedAdditive(a + b, c, n);
    ChargedAdditive(a, b, n);
  }

  lemma FlatFourBuckets(p: Price, t: Tokens)
    requires ValidTokens(t) && FourBuckets(t)
    ensures CostBuckets(Flat(p), t).Total()
            == Amount(t.input, p.input) + Amount(t.output, p.output)
             + Amount(t.cachedRead, p.cacheRead) + Amount(t.cacheWrite, p.cacheWrite)
  {
    ConservationIff(p, t);
  }
}
