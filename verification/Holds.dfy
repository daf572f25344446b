/** The pre-authorization hold: what is reserved before a request runs, and why it covers
    what the request is later charged. */
module Holds {
  import opened Outcomes
  import opened Amounts
  import opened PriceTables
  import opened Pricing

  /*********************** The long-context ceiling ***********************/

  /** The dearest rate a bucket reaches through a positive lower bound, or zero. */
  ghost predicate BucketCeiling(over: map<PriceKey, seq<Band>>, bucket: Bucket, v: int) {
    && v >= 0
    && (forall key, band | key in over && band in over[key] && key.bucket == bucket && band.min > 0 :: band.rate <= v)
    && (v == 0 || exists key, band :: key in over && band in over[key] && key.bucket == bucket && band.min > 0 && band.rate == v)
  }

  ghost predicate IsCeiling(t: PriceTable, p: Price) {
    if t.billingFree then p == Price(0, 0, 0, 0)
    else
      && BucketCeiling(t.over, In, p.input) && BucketCeiling(t.over, Out, p.output)
      && BucketCeiling(t.over, CacheRead, p.cacheRead) && BucketCeiling(t.over, CacheWrite, p.cacheWrite)
  }

  function Raise(current: int, v: int): int {
    if v > current then v else current
  }

  /** One band's effect on the ceiling. */
  function RaiseBy(p: Price, bucket: Bucket, band: Band): Price {
    if band.min <= 0 then p
    else
      match bucket
      case In => p.(input := Raise(p.input, band.rate))
      case Out => p.(output := Raise(p.output, band.rate))
      case CacheRead => p.(cacheRead := Raise(p.cacheRead, band.rate))
      case CacheWrite => p.(cacheWrite := Raise(p.cacheWrite, band.rate))
      case _ => p
  }

  ghost predicate SeenCeiling(seen: set<Row>, bucket: Bucket, v: int) {
    && v >= 0
    && (forall r | r in seen && r.key.bucket == bucket && r.band.min > 0 :: r.band.rate <= v)
    && (v == 0 || exists r :: r in seen && r.key.bucket == bucket && r.band.min > 0 && r.band.rate == v)
  }

  ghost predicate SeenCeilings(seen: set<Row>, p: Price) {
    && SeenCeiling(seen, In, p.input) && SeenCeiling(seen, Out, p.output)
    && SeenCeiling(seen, CacheRead, p.cacheRead) && SeenCeiling(seen, CacheWrite, p.cacheWrite)
  }

  lemma RaiseKeepsCeilings(seen: set<Row>, p: Price, r: Row)
    requires SeenCeilings(seen, p)
    ensures SeenCeilings(seen + {r}, RaiseBy(p, r.key.bucket, r.band))
  {
    var q := RaiseBy(p, r.key.bucket, r.band);
    SeenOne(seen, r, In, p.input, q.input);
    SeenOne(seen, r, Out, p.output, q.output);
    SeenOne(seen, r, CacheRead, p.cacheRead, q.cacheRead);
    SeenOne(seen, r, CacheWrite, p.cacheWrite, q.cacheWrite);
  }

  lemma SeenOne(seen: set<Row>, r: Row, bucket: Bucket, v: int, w: int)
    requires SeenCeiling(seen, bucket, v)
    requires w == if r.key.bucket == bucket && r.band.min > 0 then Raise(v, r.band.rate) else v
    ensures SeenCeiling(seen + {r}, bucket, w)
  {
    if w == v && v != 0 {
      var s :| s in seen && s.key.bucket == bucket && s.band.min > 0 && s.band.rate == v;
      assert s in seen + {r};
    } else if w != v {
      assert r in seen + {r};
    }
  }

  /** Every row has been looked at, except those of the keys still to do. */
  ghost predicate SeenBut(seen: set<Row>, over: map<PriceKey, seq<Band>>, todo: set<PriceKey>) {
    forall r :: r in seen <==> r.key in over && r.key !in todo && r.band in over[r.key]
  }

  ghost predicate SeenBands(seen: set<Row>, before: set<Row>, key: PriceKey, bands: seq<Band>) {
    forall r :: r in seen <==> r in before || (r.key == key && r.band in bands)
  }

  lemma KeyIsDone(seen: set<Row>, before: set<Row>, over: map<PriceKey, seq<Band>>, todo: set<PriceKey>, key: PriceKey)
    requires SeenBut(before, over, todo) && key in todo && key in over && SeenBands(seen, before, key, over[key])
    ensures SeenBut(seen, over, todo - {key})
  {
  }

  /** The inner walk: one key's bands. */
  method RaiseOverBands(start: Price, key: PriceKey, bands: seq<Band>, ghost before: set<Row>) returns (p: Price, ghost seen: set<Row>)
    requires SeenCeilings(before, start)
    ensures SeenCeilings(seen, p) && SeenBands(seen, before, key, bands)
  {
    p, seen := start, before;
    for i := 0 to |bands|
      invariant SeenBands(seen, before, key, bands[..i])
      invariant SeenCeilings(seen, p)
    {
      RaiseKeepsCeilings(seen, p, Row(key, bands[i]));
      p := RaiseBy(p, key.bucket, bands[i]);
      seen := seen + {Row(key, bands[i])};
      assert bands[..i + 1] == bands[..i] + [bands[i]];
    }
    assert bands[..|bands|] == bands;
  }

  /** Walks every band of every key, in any order. */
  method LongContextCeiling(t: PriceTable) returns (p: Price)
    ensures IsCeiling(t, p)
  {
    p := Price(0, 0, 0, 0);
    if t.billingFree {
      return;
    }
    var todo := t.over.Keys;
    ghost var seen: set<Row> := {};
    while todo != {}
      invariant todo <= t.over.Keys
      invariant SeenBut(seen, t.over, todo)
      invariant SeenCeilings(seen, p)
      decreases |todo|
    {
      var key :| key in todo;
      var bands := t.over[key];
      ghost var before := seen;
      p, seen := RaiseOverBands(p, key, bands, before);
      KeyIsDone(seen, before, t.over, todo, key);
      todo := todo - {key};
    }
    SeenAll(t.over, seen, In, p.input);
    SeenAll(t.over, seen, Out, p.output);
    SeenAll(t.over, seen, CacheRead, p.cacheRead);
    SeenAll(t.over, seen, CacheWrite, p.cacheWrite);
  }

  lemma SeenAll(over: map<PriceKey, seq<Band>>, seen: set<Row>, bucket: Bucket, v: int)
    requires SeenBut(seen, over, {}) && SeenCeiling(seen, bucket, v)
    ensures BucketCeiling(over, bucket, v)
  {
    forall key, band | key in over && band in over[key] && key.bucket == bucket && band.min > 0 ensures band.rate <= v {
      assert Row(key, band) in seen;
    }
    if v != 0 {
      var r :| r in seen && r.key.bucket == bucket && r.band.min > 0 && r.band.rate == v;
      assert r.key in over && r.band in over[r.key];
    }
  }

  function DearerOf(base: Price, ceiling: Price): Price {
    Price(Raise(base.input, ceiling.input), Raise(base.output, ceiling.output),
          Raise(base.cacheRead, ceiling.cacheRead), Raise(base.cacheWrite, ceiling.cacheWrite))
  }

  /*********************** The output cap ***********************/

  /** A candidate upstream: its own output limit (zero for none) and whether it ignores the
      limit a request states. */
  datatype Route = Route(maxOutputTokens: int, ignoresMaxOutput: bool)

  /** The most conservative candidate decides both answers. */
  method HoldCap(modelMax: int, routes: seq<Route>) returns (cap: int, ignoreRequestCap: bool)
    ensures IsHoldCap(modelMax, routes, cap, ignoreRequestCap)
  {
    cap, ignoreRequestCap := modelMax, false;
    for i := 0 to |routes|
      invariant IsHoldCap(modelMax, routes[..i], cap, ignoreRequestCap)
    {
      assert routes[..i + 1] == routes[..i] + [routes[i]];
      if routes[i].maxOutputTokens > cap {
        cap := routes[i].maxOutputTokens;
      }
      if routes[i].ignoresMaxOutput {
        ignoreRequestCap := true;
      }
    }
    assert routes[..|routes|] == routes;
  }

  ghost predicate IsHoldCap(modelMax: int, routes: seq<Route>, cap: int, ignoreRequestCap: bool) {
    && modelMax <= cap && (forall r | r in routes :: r.maxOutputTokens <= cap)
    && (cap == modelMax || exists r :: r in routes && r.maxOutputTokens == cap)
    && (ignoreRequestCap <==> exists r :: r in routes && r.ignoresMaxOutput)
  }

  /** What a route lets a request produce: its own limit, or the model's when it states none;
      the request's limit binds only if the route honours it. */
  function AllowedOutput(modelMax: int, r: Route, requested: int): int {
    var limit := if r.maxOutputTokens > 0 then r.maxOutputTokens else modelMax;
    if requested <= 0 || r.ignoresMaxOutput || limit < requested then limit else requested
  }

  /*********************** The estimate ***********************/

  datatype EstimateInput = EstimateInput(
    price: Price, longContext: Price, inputTokens: int, maxOutput: int,
    defaultMaxCap: int, ignoreRequestCap: bool, rates: Rates)

  function HeldOutput(e: EstimateInput): int {
    var asked := if e.ignoreRequestCap then 0 else e.maxOutput;
    var out := if asked <= 0 then e.defaultMaxCap else asked;
    if e.defaultMaxCap > 0 && out > e.defaultMaxCap then e.defaultMaxCap else out
  }

  /** The amount to hold, as one value. */
  ghost function Hold(e: EstimateInput): Result<int, Refusal> {
    var out := HeldOutput(e);
    if e.inputTokens < 0 || out < 0 then Err(BadTokens)
    else
      var price := Flat(DearerOf(e.price, e.longContext));
      match Bill(price, price, PlainTokens(e.inputTokens, out), e.rates)
      case Err(refusal) => Err(refusal)
      case Ok(q) => Ok(if q.chargedNano <= 0 then 1 else q.chargedNano)
  }

  method Estimate(e: EstimateInput) returns (res: Result<int, Refusal>)
    ensures res == Hold(e)
  {
    var out := e.maxOutput;
    if e.ignoreRequestCap {
      out := 0;
    }
    if out <= 0 {
      out := e.defaultMaxCap;
    }
    if e.defaultMaxCap > 0 && out > e.defaultMaxCap {
      out := e.defaultMaxCap;
    }
    if e.inputTokens < 0 || out < 0 {
      return Err(BadTokens);
    }
    var price := Flat(DearerOf(e.price, e.longContext));
    var q := Compute(price, price, PlainTokens(e.inputTokens, out), e.rates);
    if q.Err? {
      return Err(q.error);
    }
    return Ok(if q.value.chargedNano <= 0 then 1 else q.value.chargedNano);
  }

  /** Whatever candidate ends up serving, the hold reserved at least the output it allows. */
  lemma HeldOutputCovers(modelMax: int, routes: seq<Route>, r: Route, e: EstimateInput)
    requires IsHoldCap(modelMax, routes, e.defaultMaxCap, e.ignoreRequestCap) && e.defaultMaxCap > 0
    requires r in routes
    ensures AllowedOutput(modelMax, r, e.maxOutput) <= HeldOutput(e)
  {
  }

  /** The output held: the request's own limit where it states one and every candidate honours it, but
      never above a positive cap; the cap otherwise. */
  lemma HeldOutputIsLeast(e: EstimateInput)
    ensures var held, honoured := HeldOutput(e), e.maxOutput > 0 && !e.ignoreRequestCap;
            && (honoured ==> held <= e.maxOutput) && (e.defaultMaxCap > 0 ==> held <= e.defaultMaxCap)
            && (held == e.defaultMaxCap || (honoured && held == e.maxOutput))
            && (honoured && e.defaultMaxCap <= 0 ==> held == e.maxOutput)
  {
  }

  /** What a route allows: its own limit, or the model's when it states none, and less only where the
      request's limit is less and honoured. */
  lemma AllowedOutputIsLeast(modelMax: int, r: Route, requested: int)
    ensures var allowed, own := AllowedOutput(modelMax, r, requested), if r.maxOutputTokens <= 0 then modelMax else r.maxOutputTokens;
            && allowed <= own && (allowed < own ==> allowed == requested > 0 && !r.ignoresMaxOutput)
            && (requested > 0 && !r.ignoresMaxOutput ==> allowed <= requested)
  {
  }

  /** The hold reserves no more than need be: a candidate whose own limit is the cap is allowed all of
      it, unless it honours the request and another one does not. */
  lemma HeldOutputIsAllowed(modelMax: int, routes: seq<Route>, r: Route, e: EstimateInput)
    requires IsHoldCap(modelMax, routes, e.defaultMaxCap, e.ignoreRequestCap) && e.defaultMaxCap > 0
    requires r in routes && r.maxOutputTokens == e.defaultMaxCap && (e.ignoreRequestCap ==> r.ignoresMaxOutput)
    ensures HeldOutput(e) == AllowedOutput(modelMax, r, e.maxOutput)
  {
  }

  /*********************** Rates at every length ***********************/

  lemma {:induction false} FirstReachedFrom(bands: seq<Band>, m: int, n: int, v: int)
    requires 0 <= m <= n && forall b | b in bands && b.min > 0 :: b.rate <= v
    ensures var at := FirstReached(bands, n);
            at == FirstReached(bands, m) || (at.Some? && at.value <= v)
  {
    if bands != [] && bands[0].min > n {
      FirstReachedFrom(bands[1..], m, n, v);
    } else if bands != [] {
      assert bands[0] in bands;
    }
  }

  lemma WithinTierFrom(over: map<PriceKey, seq<Band>>, bucket: Bucket, tier: Tier, variant: Variant, m: int, n: int, v: int)
    requires 0 <= m <= n && BucketCeiling(over, bucket, v)
    ensures var at := WithinTier(over, bucket, tier, variant, n).rate;
            at == WithinTier(over, bucket, tier, variant, m).rate || (at.Some? && at.value <= v)
    ensures WithinTier(over, bucket, tier, variant, n).rate.None? ==>
              WithinTier(over, bucket, tier, variant, n) == WithinTier(over, bucket, tier, variant, m)
  {
    FirstReachedFrom(BandsAt(over, PriceKey(bucket, tier, variant)), m, n, v);
    FirstReachedFrom(BandsAt(over, PriceKey(bucket, tier, Plain)), m, n, v);
  }

  /** The raised rate covers a base bucket from some prompt length on exactly when it covers it at
      that length. What a caller has to check is one lookup per tier. */
  lemma RaisedCoversIff(t: PriceTable, ceiling: Price, bucket: Bucket, tier: Tier, variant: Variant, m: int)
    requires IsCeiling(t, ceiling) && !t.billingFree && m >= 0
    requires bucket.In? || bucket.Out? || bucket.CacheRead? || bucket.CacheWrite?
    ensures var raised := BaseOf(DearerOf(t.base, ceiling), bucket);
            Lookup(t, bucket, tier, variant, m) <= raised
            <==> forall n | n >= m :: Lookup(t, bucket, tier, variant, n) <= raised
  {
    var raised := BaseOf(DearerOf(t.base, ceiling), bucket);
    if Lookup(t, bucket, tier, variant, m) <= raised {
      forall n | n >= m ensures Lookup(t, bucket, tier, variant, n) <= raised {
        WithinTierFrom(t.over, bucket, tier, variant, m, n, BaseOf(ceiling, bucket));
        WithinTierFrom(t.over, bucket, Standard, variant, m, n, BaseOf(ceiling, bucket));
      }
    }
  }

  /*********************** What a hold has to cover ***********************/

  /** The price a hold is computed from: the table's base rates, or zero for a free model. */
  function BillablePrice(t: PriceTable): Price {
    if t.billingFree then Price(0, 0, 0, 0) else t.base
  }

  function Raised(t: PriceTable, ceiling: Price): Price {
    DearerOf(BillablePrice(t), ceiling)
  }

  /** The ways in which a token of the prompt, or of the answer, can be billed. */
  datatype InputKind = TextIn | AudioPart | ImagePart | ReadPart | WritePart | Write5m | Write1h

  datatype OutputKind = TextOut | AudioOutPart | ImageOutPart

  function InRate(t: PriceTable, tier: Tier, n: int, k: InputKind): int {
    match k
    case TextIn => Lookup(t, In, tier, Plain, n)
    case AudioPart => Lookup(t, AudioIn, tier, Plain, n)
    case ImagePart => Lookup(t, ImageIn, tier, Plain, n)
    case ReadPart => Lookup(t, CacheRead, tier, Plain, n)
    case WritePart => Lookup(t, CacheWrite, tier, Plain, n)
    case Write5m => Lookup(t, CacheWrite, tier, Cache5m, n)
    case Write1h => Lookup(t, CacheWrite, tier, Cache1h, n)
  }

  function OutRate(t: PriceTable, tier: Tier, n: int, o: OutputKind): int {
    match o
    case TextOut => Lookup(t, Out, tier, Plain, n)
    case AudioOutPart => Lookup(t, AudioOut, tier, Plain, n)
    case ImageOutPart => Lookup(t, ImageOut, tier, Plain, n)
  }

  /** A usage that contradicts none of its own counts and called no tools. */
  predicate SoundUsage(u: Tokens) {
    SplitFits(u) && u.imageOut >= 0 && forall tool | tool in u.toolCalls :: u.toolCalls[tool] <= 0
  }

  /** A usage whose whole prompt and whole output an estimate allows for. */
  predicate WithinEstimate(u: Tokens, inputTokens: int, out: int) {
    && ValidTokens(u) && SoundUsage(u)
    && u.ContextTokens() <= inputTokens <= MAX_SANE_TOKENS && u.output <= out <= MAX_SANE_TOKENS
  }

  /** No usage within an estimate costs more, exactly, than the estimate. */
  ghost predicate NeverExceeds(t: PriceTable, ceiling: Price) {
    forall u, inputTokens, out | WithinEstimate(u, inputTokens, out) ::
      CostBuckets(t, u).Total() <= CostBuckets(Flat(Raised(t, ceiling)), PlainTokens(inputTokens, out)).Total()
  }

  predicate BilledTier(tier: Tier) {
    tier.Standard? || tier.Priority? || tier.Batch?
  }

  /** The condition at one prompt length: no way to bill the prompt exceeds the raised input rate,
      and the most that any way to bill the answer exceeds the raised output rate by is made up for
      by what the prompt leaves of its share. */
  ghost predicate LengthSafe(t: PriceTable, p: Price, tier: Tier, n: int) {
    && (n >= 1 ==> forall k :: InRate(t, tier, n, k) <= p.input)
    && forall k, o :: MAX_SANE_TOKENS * (OutRate(t, tier, n, o) - p.output) <= n * (p.input - InRate(t, tier, n, k))
  }

  ghost predicate HoldSafe(t: PriceTable, ceiling: Price) {
    forall tier, n | BilledTier(tier) && 0 <= n <= MAX_SANE_TOKENS :: LengthSafe(t, Raised(t, ceiling), tier, n)
  }

  /*********************** The condition is needed ***********************/

  /** A usage of one kind of prompt tokens and one kind of answer tokens. */
  function Corner(tier: Tier, k: InputKind, n: int, o: OutputKind, m: int): Tokens {
    Tokens(
      if k.TextIn? || k.AudioPart? || k.ImagePart? then n else 0, m,
      if k.ReadPart? then n else 0, if k.WritePart? || k.Write5m? || k.Write1h? then n else 0,
      if k.AudioPart? then n else 0, if o.AudioOutPart? then m else 0,
      if k.ImagePart? then n else 0, if o.ImageOutPart? then m else 0,
      if k.Write5m? then n else 0, if k.Write1h? then n else 0,
      tier, map[])
  }

  lemma NoTokens(rate: int)
    ensures Amount(0, rate) == 0.0
  {
  }

  lemma CornerInput(t: PriceTable, tier: Tier, k: InputKind, n: int, o: OutputKind, m: int)
    requires BilledTier(tier) && n >= 0 && m >= 0
    ensures CostBuckets(t, Corner(tier, k, n, o, m)).input
            == if k.TextIn? || k.AudioPart? || k.ImagePart? then Amount(n, InRate(t, tier, n, k)) else 0.0
  {
    var u := Corner(tier, k, n, o, m);
    assert u.ContextTokens() == n && u.BillingTier() == tier;
    forall rate {
      NoTokens(rate);
    }
  }

  lemma CornerCache(t: PriceTable, tier: Tier, k: InputKind, n: int, o: OutputKind, m: int)
    requires BilledTier(tier) && n >= 0 && m >= 0
    ensures var c := CostBuckets(t, Corner(tier, k, n, o, m));
            && c.cacheRead == (if k.ReadPart? then Amount(n, InRate(t, tier, n, k)) else 0.0)
            && c.cacheWrite == (if k.WritePart? || k.Write5m? || k.Write1h? then Amount(n, InRate(t, tier, n, k)) else 0.0)
  {
    var u := Corner(tier, k, n, o, m);
    assert u.ContextTokens() == n && u.BillingTier() == tier;
    forall rate {
      NoTokens(rate);
    }
  }

  lemma CornerAnswer(t: PriceTable, tier: Tier, k: InputKind, n: int, o: OutputKind, m: int)
    requires BilledTier(tier) && n >= 0 && 0 <= m <= MAX_SANE_TOKENS
    ensures CostBuckets(t, Corner(tier, k, n, o, m)).output == Amount(m, OutRate(t, tier, n, o))
  {
    var u := Corner(tier, k, n, o, m);
    assert u.ContextTokens() == n && u.BillingTier() == tier;
    forall rate {
      NoTokens(rate);
    }
  }

  lemma CornerIsWithin(tier: Tier, k: InputKind, n: int, o: OutputKind, m: int)
    requires 0 <= n <= MAX_SANE_TOKENS && 0 <= m <= MAX_SANE_TOKENS
    ensures WithinEstimate(Corner(tier, k, n, o, m), n, m)
  {
  }

  lemma CornerCost(t: PriceTable, tier: Tier, k: InputKind, n: int, o: OutputKind, m: int)
    requires BilledTier(tier) && 0 <= n <= MAX_SANE_TOKENS && 0 <= m <= MAX_SANE_TOKENS
    ensures CostBuckets(t, Corner(tier, k, n, o, m)).Total() == Amount(n, InRate(t, tier, n, k)) + Amount(m, OutRate(t, tier, n, o))
  {
    CornerInput(t, tier, k, n, o, m);
    CornerCache(t, tier, k, n, o, m);
    CornerAnswer(t, tier, k, n, o, m);
    NoToolCost(t, Corner(tier, k, n, o, m));
  }

  lemma AmountsCompare(n: int, a: int, m: int, b: int, c: int, d: int)
    ensures Amount(n, a) + Amount(m, b) <= Amount(n, c) + Amount(m, d) <==> n * a + m * b <= n * c + m * d
  {
    AddAmounts(n, a, m, b);
    AddAmounts(n, c, m, d);
  }

  lemma AddAmounts(n: int, a: int, m: int, b: int)
    ensures Amount(n, a) + Amount(m, b) == (n * a + m * b) as real / 1000000.0
  {
  }

  lemma CornersNeeded(t: PriceTable, ceiling: Price, tier: Tier, n: int, k: InputKind, o: OutputKind)
    requires NeverExceeds(t, ceiling) && BilledTier(tier) && 0 <= n <= MAX_SANE_TOKENS
    ensures var p := Raised(t, ceiling);
            && n * InRate(t, tier, n, k) <= n * p.input
            && n * InRate(t, tier, n, k) + MAX_SANE_TOKENS * OutRate(t, tier, n, o) <= n * p.input + MAX_SANE_TOKENS * p.output
  {
    var p := Raised(t, ceiling);
    CornerWithin(t, ceiling, tier, n, k, o, 0);
    CornerWithin(t, ceiling, tier, n, k, o, MAX_SANE_TOKENS);
    assert 0 * OutRate(t, tier, n, o) == 0 == 0 * p.output;
  }

  lemma CornerWithin(t: PriceTable, ceiling: Price, tier: Tier, n: int, k: InputKind, o: OutputKind, m: int)
    requires NeverExceeds(t, ceiling) && BilledTier(tier) && 0 <= n <= MAX_SANE_TOKENS && 0 <= m <= MAX_SANE_TOKENS
    ensures var p := Raised(t, ceiling);
            n * InRate(t, tier, n, k) + m * OutRate(t, tier, n, o) <= n * p.input + m * p.output
  {
    var p := Raised(t, ceiling);
    CornerIsWithin(tier, k, n, o, m);
    CornerCost(t, tier, k, n, o, m);
    PlainTotal(p, n, m);
    AmountsCompare(n, InRate(t, tier, n, k), m, OutRate(t, tier, n, o), p.input, p.output);
  }

  lemma Cancel(n: int, a: int, b: int)
    requires n >= 1 && n * a <= n * b
    ensures a <= b
  {
    assert n * (b - a) == n * b - n * a;
    assert b - a < 0 ==> n * (b - a) <= b - a;
  }

  lemma Transpose(n: int, r: int, o: int, p: Price)
    requires n * r + MAX_SANE_TOKENS * o <= n * p.input + MAX_SANE_TOKENS * p.output
    ensures MAX_SANE_TOKENS * (o - p.output) <= n * (p.input - r)
  {
  }

  lemma LengthIsNeeded(t: PriceTable, ceiling: Price, tier: Tier, n: int)
    requires NeverExceeds(t, ceiling) && BilledTier(tier) && 0 <= n <= MAX_SANE_TOKENS
    ensures LengthSafe(t, Raised(t, ceiling), tier, n)
  {
    var p := Raised(t, ceiling);
    forall k, o
      ensures MAX_SANE_TOKENS * (OutRate(t, tier, n, o) - p.output) <= n * (p.input - InRate(t, tier, n, k))
    {
      CornersNeeded(t, ceiling, tier, n, k, o);
      Transpose(n, InRate(t, tier, n, k), OutRate(t, tier, n, o), p);
    }
    forall k | n >= 1
      ensures InRate(t, tier, n, k) <= p.input
    {
      CornersNeeded(t, ceiling, tier, n, k, TextOut);
      Cancel(n, InRate(t, tier, n, k), p.input);
    }
  }

  lemma SafeIsNeeded(t: PriceTable, ceiling: Price)
    requires NeverExceeds(t, ceiling)
    ensures HoldSafe(t, ceiling)
  {
    forall tier, n | BilledTier(tier) && 0 <= n <= MAX_SANE_TOKENS
      ensures LengthSafe(t, Raised(t, ceiling), tier, n)
    {
      LengthIsNeeded(t, ceiling, tier, n);
    }
  }

  /*********************** The condition is enough ***********************/

  lemma DearestKind(t: PriceTable, tier: Tier, n: int) returns (k: InputKind)
    ensures forall other :: InRate(t, tier, n, other) <= InRate(t, tier, n, k)
  {
    k := TextIn;
    k := if InRate(t, tier, n, AudioPart) > InRate(t, tier, n, k) then AudioPart else k;
    k := if InRate(t, tier, n, ImagePart) > InRate(t, tier, n, k) then ImagePart else k;
    k := if InRate(t, tier, n, ReadPart) > InRate(t, tier, n, k) then ReadPart else k;
    k := if InRate(t, tier, n, WritePart) > InRate(t, tier, n, k) then WritePart else k;
    k := if InRate(t, tier, n, Write5m) > InRate(t, tier, n, k) then Write5m else k;
    k := if InRate(t, tier, n, Write1h) > InRate(t, tier, n, k) then Write1h else k;
    forall other
      ensures InRate(t, tier, n, other) <= InRate(t, tier, n, k)
    {
      match other {
        case TextIn =>
        case AudioPart =>
        case ImagePart =>
        case ReadPart =>
        case WritePart =>
        case Write5m =>
        case Write1h =>
      }
    }
  }

  lemma DearestAnswer(t: PriceTable, tier: Tier, n: int) returns (o: OutputKind)
    ensures forall other :: OutRate(t, tier, n, other) <= OutRate(t, tier, n, o)
  {
    o := TextOut;
    o := if OutRate(t, tier, n, AudioOutPart) > OutRate(t, tier, n, o) then AudioOutPart else o;
    o := if OutRate(t, tier, n, ImageOutPart) > OutRate(t, tier, n, o) then ImageOutPart else o;
    forall other
      ensures OutRate(t, tier, n, other) <= OutRate(t, tier, n, o)
    {
      match other {
        case TextOut =>
        case AudioOutPart =>
        case ImageOutPart =>
      }
    }
  }

  lemma AtDearer(tokens: int, rate: int, dearer: int)
    requires tokens >= 0 && rate <= dearer
    ensures Amount(tokens, rate) <= Amount(tokens, dearer)
  {
    assert tokens * rate <= tokens * dearer;
  }

  /** The text part of a sound answer: the wrap-around of its subtraction does not matter. */
  lemma TextRest(u: Tokens)
    requires ValidTokens(u) && SoundUsage(u)
    ensures TextOutput(u) == u.output - u.audioOut - u.imageOut >= 0
  {
  }

  lemma InputAtMost(t: PriceTable, u: Tokens, rate: int)
    requires ValidTokens(u) && InputFits(u)
    requires forall k :: InRate(t, u.BillingTier(), u.ContextTokens(), k) <= rate
    ensures CostBuckets(t, u).input <= Amount(u.input, rate)
  {
    var tier, n := u.BillingTier(), u.ContextTokens();
    var text := u.input - u.audioIn - u.imageIn;
    AtDearer(text, InRate(t, tier, n, TextIn), rate);
    AtDearer(u.audioIn, InRate(t, tier, n, AudioPart), rate);
    AtDearer(u.imageIn, InRate(t, tier, n, ImagePart), rate);
    SplitAmount(text, u.audioIn, u.imageIn, rate);
  }

  lemma CacheAtMost(t: PriceTable, u: Tokens, rate: int)
    requires ValidTokens(u)
    requires forall k :: InRate(t, u.BillingTier(), u.ContextTokens(), k) <= rate
    ensures CostBuckets(t, u).cacheRead <= Amount(u.cachedRead, rate) && CostBuckets(t, u).cacheWrite <= Amount(u.cacheWrite, rate)
  {
    var tier, n := u.BillingTier(), u.ContextTokens();
    var rest := u.cacheWrite - u.cacheWrite5m - u.cacheWrite1h;
    AtDearer(u.cachedRead, InRate(t, tier, n, ReadPart), rate);
    AtDearer(u.cacheWrite, InRate(t, tier, n, WritePart), rate);
    AtDearer(rest, InRate(t, tier, n, WritePart), rate);
    AtDearer(u.cacheWrite5m, InRate(t, tier, n, Write5m), rate);
    AtDearer(u.cacheWrite1h, InRate(t, tier, n, Write1h), rate);
    SplitAmount(rest, u.cacheWrite5m, u.cacheWrite1h, rate);
  }

  lemma AnswerAtMost(t: PriceTable, u: Tokens, rate: int)
    requires ValidTokens(u) && SoundUsage(u)
    requires forall o :: OutRate(t, u.BillingTier(), u.ContextTokens(), o) <= rate
    ensures CostBuckets(t, u).output <= Amount(u.output, rate)
  {
    var tier, n := u.BillingTier(), u.ContextTokens();
    TextRest(u);
    AtDearer(TextOutput(u), OutRate(t, tier, n, TextOut), rate);
    AtDearer(u.audioOut, OutRate(t, tier, n, AudioOutPart), rate);
    AtDearer(u.imageOut, OutRate(t, tier, n, ImageOutPart), rate);
    SplitAmount(TextOutput(u), u.audioOut, u.imageOut, rate);
  }

  /** What the prompt and the answer can cost together at their dearest. */
  lemma DearestFits(n: int, r: int, m: int, o: int, p: Price)
    requires n >= 0 && 0 <= m <= MAX_SANE_TOKENS && (n >= 1 ==> r <= p.input)
    requires MAX_SANE_TOKENS * (o - p.output) <= n * (p.input - r)
    ensures n * r + m * o <= n * p.input + m * p.output
  {
    NotNegative(n, p.input - r);
    ExcessWithin(m, o - p.output, n * (p.input - r));
    Spread(n, p.input, r);
    Spread(m, o, p.output);
  }

  /** What some answer tokens exceed by is within what the most of them may. */
  lemma ExcessWithin(m: int, excess: int, slack: int)
    requires 0 <= m <= MAX_SANE_TOKENS && MAX_SANE_TOKENS * excess <= slack && slack >= 0
    ensures m * excess <= slack
  {
    if excess > 0 {
      NotNegative(MAX_SANE_TOKENS - m, excess);
      Spread(excess, MAX_SANE_TOKENS, m);
    } else {
      NotNegative(m, -excess);
    }
  }

  lemma Spread(n: int, a: int, b: int)
    ensures n * (a - b) == n * a - n * b
  {
  }

  lemma MoreTokens(tokens: int, more: int, rate: int)
    requires tokens <= more && rate >= 0
    ensures Amount(tokens, rate) <= Amount(more, rate)
  {
    assert tokens * rate <= more * rate;
  }

  lemma RaisedIsNotNegative(t: PriceTable, ceiling: Price)
    requires IsCeiling(t, ceiling)
    ensures Raised(t, ceiling).input >= 0 && Raised(t, ceiling).output >= 0
  {
  }

  /** The exact cost of any usage within the estimate, in any tier and at any length, is at most
      the estimate's own exact cost. */
  lemma ExactCostCovered(t: PriceTable, ceiling: Price, u: Tokens, inputTokens: int, out: int)
    requires IsCeiling(t, ceiling) && HoldSafe(t, ceiling) && WithinEstimate(u, inputTokens, out)
    ensures CostBuckets(t, u).Total() <= CostBuckets(Flat(Raised(t, ceiling)), PlainTokens(inputTokens, out)).Total()
  {
    var p := Raised(t, ceiling);
    assert LengthSafe(t, p, u.BillingTier(), u.ContextTokens());
    UsageWithinRaised(t, u, p);
    RaisedIsNotNegative(t, ceiling);
    MoreTokens(u.ContextTokens(), inputTokens, p.input);
    MoreTokens(u.output, out, p.output);
    PlainTotal(p, inputTokens, out);
  }

  lemma UsageWithinRaised(t: PriceTable, u: Tokens, p: Price)
    requires ValidTokens(u) && SoundUsage(u) && LengthSafe(t, p, u.BillingTier(), u.ContextTokens())
    ensures CostBuckets(t, u).Total() <= Amount(u.ContextTokens(), p.input) + Amount(u.output, p.output)
  {
    var tier, n := u.BillingTier(), u.ContextTokens();
    var k := DearestKind(t, tier, n);
    var o := DearestAnswer(t, tier, n);
    var r, s := InRate(t, tier, n, k), OutRate(t, tier, n, o);
    DearestFits(n, r, u.output, s, p);
    UsageAtMost(t, u, r, s);
    AmountsCompare(n, r, u.output, s, p.input, p.output);
  }

  lemma UsageAtMost(t: PriceTable, u: Tokens, r: int, s: int)
    requires ValidTokens(u) && SoundUsage(u)
    requires forall k :: InRate(t, u.BillingTier(), u.ContextTokens(), k) <= r
    requires forall o :: OutRate(t, u.BillingTier(), u.ContextTokens(), o) <= s
    ensures CostBuckets(t, u).Total() <= Amount(u.ContextTokens(), r) + Amount(u.output, s)
  {
    InputAtMost(t, u, r);
    CacheAtMost(t, u, r);
    AnswerAtMost(t, u, s);
    NoToolCost(t, u);
    SplitAmount(u.input, u.cachedRead, u.cacheWrite, r);
  }

  /** A hold covers, at exact cost, every usage it was estimated for if and only if its table is
      safe: a condition on look-ups alone, for every table. */
  lemma HoldSafeIff(t: PriceTable, ceiling: Price)
    requires IsCeiling(t, ceiling)
    ensures NeverExceeds(t, ceiling) <==> HoldSafe(t, ceiling)
  {
    if NeverExceeds(t, ceiling) {
      SafeIsNeeded(t, ceiling);
    }
    if HoldSafe(t, ceiling) {
      forall u, inputTokens, out | WithinEstimate(u, inputTokens, out)
        ensures CostBuckets(t, u).Total() <= CostBuckets(Flat(Raised(t, ceiling)), PlainTokens(inputTokens, out)).Total()
      {
        ExactCostCovered(t, ceiling, u, inputTokens, out);
      }
    }
  }

  /*********************** What a caller has to look at ***********************/

  /** The lengths at which a rate can change. */
  ghost predicate AtBound(t: PriceTable, n: int) {
    n <= 1 || exists key, band :: key in t.over && band in t.over[key] && band.min == n
  }

  lemma {:induction false} FirstReachedSame(bands: seq<Band>, n: int)
    requires forall b | b in bands :: b.min != n
    ensures FirstReached(bands, n) == FirstReached(bands, n - 1)
  {
    if bands != [] {
      assert bands[0] in bands;
      FirstReachedSame(bands[1..], n);
    }
  }

  /** Between bounds no look-up changes. */
  lemma SameUntilBound(t: PriceTable, bucket: Bucket, tier: Tier, variant: Variant, n: int)
    requires !AtBound(t, n)
    ensures Lookup(t, bucket, tier, variant, n) == Lookup(t, bucket, tier, variant, n - 1)
  {
    FirstReachedSame(BandsAt(t.over, PriceKey(bucket, tier, variant)), n);
    FirstReachedSame(BandsAt(t.over, PriceKey(bucket, tier, Plain)), n);
    FirstReachedSame(BandsAt(t.over, PriceKey(bucket, Standard, variant)), n);
    FirstReachedSame(BandsAt(t.over, PriceKey(bucket, Standard, Plain)), n);
  }

  lemma InRateSame(t: PriceTable, tier: Tier, n: int, k: InputKind)
    requires !AtBound(t, n)
    ensures InRate(t, tier, n, k) == InRate(t, tier, n - 1, k)
  {
    match k
    case TextIn => SameUntilBound(t, In, tier, Plain, n);
    case AudioPart => SameUntilBound(t, AudioIn, tier, Plain, n);
    case ImagePart => SameUntilBound(t, ImageIn, tier, Plain, n);
    case ReadPart => SameUntilBound(t, CacheRead, tier, Plain, n);
    case WritePart => SameUntilBound(t, CacheWrite, tier, Plain, n);
    case Write5m => SameUntilBound(t, CacheWrite, tier, Cache5m, n);
    case Write1h => SameUntilBound(t, CacheWrite, tier, Cache1h, n);
  }

  lemma OutRateSame(t: PriceTable, tier: Tier, n: int, o: OutputKind)
    requires !AtBound(t, n)
    ensures OutRate(t, tier, n, o) == OutRate(t, tier, n - 1, o)
  {
    match o
    case TextOut => SameUntilBound(t, Out, tier, Plain, n);
    case AudioOutPart => SameUntilBound(t, AudioOut, tier, Plain, n);
    case ImageOutPart => SameUntilBound(t, ImageOut, tier, Plain, n);
  }

  lemma SlackGrows(n: int, slack: int)
    requires slack >= 0
    ensures (n - 1) * slack <= n * slack
  {
    assert n * slack == (n - 1) * slack + slack;
  }

  /** A longer prompt at the same rates only leaves more slack. */
  lemma SafeUntilBound(t: PriceTable, p: Price, tier: Tier, n: int)
    requires n >= 2 && !AtBound(t, n) && LengthSafe(t, p, tier, n - 1)
    ensures LengthSafe(t, p, tier, n)
  {
    forall k
      ensures InRate(t, tier, n, k) <= p.input
    {
      InRateSame(t, tier, n, k);
    }
    forall k, o
      ensures MAX_SANE_TOKENS * (OutRate(t, tier, n, o) - p.output) <= n * (p.input - InRate(t, tier, n, k))
    {
      InRateSame(t, tier, n, k);
      OutRateSame(t, tier, n, o);
      SlackGrows(n, p.input - InRate(t, tier, n, k));
    }
  }

  ghost predicate SafeAtBounds(t: PriceTable, p: Price, tier: Tier) {
    forall m | 0 <= m <= MAX_SANE_TOKENS && AtBound(t, m) :: LengthSafe(t, p, tier, m)
  }

  lemma {:induction false} SafeEverywhere(t: PriceTable, p: Price, tier: Tier, n: int)
    requires SafeAtBounds(t, p, tier) && 0 <= n <= MAX_SANE_TOKENS
    ensures LengthSafe(t, p, tier, n)
    decreases n
  {
    if !AtBound(t, n) {
      SafeEverywhere(t, p, tier, n - 1);
      SafeUntilBound(t, p, tier, n);
    }
  }

  /** Safety is decided at finitely many lengths: zero, one, and the lower bounds of the table. */
  lemma SafeAtBoundsIff(t: PriceTable, ceiling: Price)
    ensures HoldSafe(t, ceiling) <==> forall tier | BilledTier(tier) :: SafeAtBounds(t, Raised(t, ceiling), tier)
  {
    var p := Raised(t, ceiling);
    if forall tier | BilledTier(tier) :: SafeAtBounds(t, p, tier) {
      forall tier, n | BilledTier(tier) && 0 <= n <= MAX_SANE_TOKENS
        ensures LengthSafe(t, p, tier, n)
      {
        SafeEverywhere(t, p, tier, n);
      }
    }
  }

  /*********************** Without audio and image rows ***********************/

  ghost predicate NoMediaRows(t: PriceTable) {
    forall key | key in t.over && t.over[key] != [] ::
      !key.bucket.AudioIn? && !key.bucket.AudioOut? && !key.bucket.ImageIn? && !key.bucket.ImageOut?
  }

  lemma MediaAtBase(t: PriceTable, bucket: Bucket, tier: Tier, n: int)
    requires NoMediaRows(t) && !t.billingFree && (bucket.AudioIn? || bucket.AudioOut? || bucket.ImageIn? || bucket.ImageOut?)
    ensures Lookup(t, bucket, tier, Plain, n) == BaseOf(t.base, bucket)
  {
    assert BandsAt(t.over, PriceKey(bucket, tier, Plain)) == [];
    assert BandsAt(t.over, PriceKey(bucket, Standard, Plain)) == [];
  }

  /** Then a handful of look-ups decides: text input at length one, text output at length zero, and
      the cache rates at length one and at the bounds. */
  ghost predicate TextSafe(t: PriceTable, p: Price, tier: Tier) {
    && Lookup(t, In, tier, Plain, 1) <= p.input && Lookup(t, Out, tier, Plain, 0) <= p.output
    && forall n | 1 <= n <= MAX_SANE_TOKENS && AtBound(t, n) :: CachesAt(t, p.input, tier, n)
  }

  predicate CachesAt(t: PriceTable, v: int, tier: Tier, n: int) {
    && InRate(t, tier, n, ReadPart) <= v && InRate(t, tier, n, WritePart) <= v
    && InRate(t, tier, n, Write5m) <= v && InRate(t, tier, n, Write1h) <= v
  }

  lemma CachesSameUntilBound(t: PriceTable, v: int, tier: Tier, n: int)
    requires !AtBound(t, n) && CachesAt(t, v, tier, n - 1)
    ensures CachesAt(t, v, tier, n)
  {
    SameUntilBound(t, CacheRead, tier, Plain, n);
    SameUntilBound(t, CacheWrite, tier, Plain, n);
    SameUntilBound(t, CacheWrite, tier, Cache5m, n);
    SameUntilBound(t, CacheWrite, tier, Cache1h, n);
  }

  lemma {:induction false} CachesEverywhere(t: PriceTable, p: Price, tier: Tier, n: int)
    requires TextSafe(t, p, tier) && 1 <= n <= MAX_SANE_TOKENS
    ensures CachesAt(t, p.input, tier, n)
    decreases n
  {
    if !AtBound(t, n) {
      CachesEverywhere(t, p, tier, n - 1);
      CachesSameUntilBound(t, p.input, tier, n);
    }
  }

  lemma AnswerAtLengthZero(t: PriceTable, p: Price, tier: Tier)
    requires LengthSafe(t, p, tier, 0)
    ensures Lookup(t, Out, tier, Plain, 0) <= p.output
  {
    var o := OutRate(t, tier, 0, TextOut);
    assert MAX_SANE_TOKENS * (o - p.output) <= 0 * (p.input - InRate(t, tier, 0, TextIn));
    assert o == Lookup(t, Out, tier, Plain, 0);
  }

  lemma PromptRatesWithin(t: PriceTable, ceiling: Price, tier: Tier, n: int, k: InputKind)
    requires IsCeiling(t, ceiling) && NoMediaRows(t) && !t.billingFree && 1 <= n <= MAX_SANE_TOKENS
    requires TextSafe(t, Raised(t, ceiling), tier)
    ensures InRate(t, tier, n, k) <= Raised(t, ceiling).input
  {
    RaisedCoversIff(t, ceiling, In, tier, Plain, 1);
    MediaAtBase(t, AudioIn, tier, n);
    MediaAtBase(t, ImageIn, tier, n);
    CachesEverywhere(t, Raised(t, ceiling), tier, n);
    match k {
      case TextIn =>
      case AudioPart =>
      case ImagePart =>
      case ReadPart =>
      case WritePart =>
      case Write5m =>
      case Write1h =>
    }
  }

  lemma AnswerRatesWithin(t: PriceTable, ceiling: Price, tier: Tier, n: int, o: OutputKind)
    requires IsCeiling(t, ceiling) && NoMediaRows(t) && !t.billingFree && n >= 0
    requires Lookup(t, Out, tier, Plain, 0) <= Raised(t, ceiling).output
    ensures OutRate(t, tier, n, o) <= Raised(t, ceiling).output
  {
    RaisedCoversIff(t, ceiling, Out, tier, Plain, 0);
    MediaAtBase(t, AudioOut, tier, n);
    MediaAtBase(t, ImageOut, tier, n);
    match o {
      case TextOut =>
      case AudioOutPart =>
      case ImageOutPart =>
    }
  }

  lemma TextLengthSafe(t: PriceTable, ceiling: Price, tier: Tier, n: int)
    requires IsCeiling(t, ceiling) && NoMediaRows(t) && !t.billingFree && 0 <= n <= MAX_SANE_TOKENS
    requires TextSafe(t, Raised(t, ceiling), tier)
    ensures LengthSafe(t, Raised(t, ceiling), tier, n)
  {
    var p := Raised(t, ceiling);
    forall k | n >= 1
      ensures InRate(t, tier, n, k) <= p.input
    {
      PromptRatesWithin(t, ceiling, tier, n, k);
    }
    forall o
      ensures OutRate(t, tier, n, o) <= p.output
    {
      AnswerRatesWithin(t, ceiling, tier, n, o);
    }
    WithinIsSafe(t, p, tier, n);
  }

  lemma WithinIsSafe(t: PriceTable, p: Price, tier: Tier, n: int)
    requires n >= 0 && (n >= 1 ==> forall k :: InRate(t, tier, n, k) <= p.input) && forall o :: OutRate(t, tier, n, o) <= p.output
    ensures LengthSafe(t, p, tier, n)
  {
    forall k, o
      ensures MAX_SANE_TOKENS * (OutRate(t, tier, n, o) - p.output) <= n * (p.input - InRate(t, tier, n, k))
    {
      NotNegative(n, p.input - InRate(t, tier, n, k));
    }
  }

  lemma NotNegative(n: int, slack: int)
    requires n >= 0 && (n >= 1 ==> slack >= 0)
    ensures n * slack >= 0
  {
  }

  lemma TextSafeIff(t: PriceTable, ceiling: Price)
    requires IsCeiling(t, ceiling) && NoMediaRows(t)
    ensures HoldSafe(t, ceiling) <==> t.billingFree || forall tier | BilledTier(tier) :: TextSafe(t, Raised(t, ceiling), tier)
  {
    var p := Raised(t, ceiling);
    if t.billingFree {
      FreeIsSafe(t, ceiling);
    } else {
      if HoldSafe(t, ceiling) {
        forall tier | BilledTier(tier)
          ensures TextSafe(t, p, tier)
        {
          assert LengthSafe(t, p, tier, 0) && LengthSafe(t, p, tier, 1);
          AnswerAtLengthZero(t, p, tier);
          assert InRate(t, tier, 1, TextIn) <= p.input;
          forall n | 1 <= n <= MAX_SANE_TOKENS
            ensures CachesAt(t, p.input, tier, n)
          {
            assert LengthSafe(t, p, tier, n);
          }
        }
      }
      if forall tier | BilledTier(tier) :: TextSafe(t, p, tier) {
        forall tier, n | BilledTier(tier) && 0 <= n <= MAX_SANE_TOKENS
          ensures LengthSafe(t, p, tier, n)
        {
          TextLengthSafe(t, ceiling, tier, n);
        }
      }
    }
  }

  lemma FreeIsSafe(t: PriceTable, ceiling: Price)
    requires IsCeiling(t, ceiling) && t.billingFree
    ensures HoldSafe(t, ceiling)
  {
    assert Raised(t, ceiling) == Price(0, 0, 0, 0);
    forall tier, n, k, o
      ensures InRate(t, tier, n, k) == 0 == OutRate(t, tier, n, o)
    {
    }
  }

  /*********************** The configuration the design has in mind ***********************/

  ghost predicate RatesAtMost(t: PriceTable, bucket: Bucket, v: int) {
    && BaseOf(t.base, bucket) <= v
    && forall key, band | key in t.over && band in t.over[key] && key.bucket == bucket :: band.rate <= v
  }

  lemma {:induction false} FirstReachedBounded(bands: seq<Band>, n: int, v: int)
    requires forall b | b in bands :: b.rate <= v
    ensures FirstReached(bands, n).Some? ==> FirstReached(bands, n).value <= v
  {
    if bands != [] {
      assert bands[0] in bands;
      FirstReachedBounded(bands[1..], n, v);
    }
  }

  lemma LookupBounded(t: PriceTable, bucket: Bucket, tier: Tier, variant: Variant, n: int, v: int)
    requires RatesAtMost(t, bucket, v) && v >= 0
    ensures Lookup(t, bucket, tier, variant, n) <= v
  {
    FirstReachedBounded(BandsAt(t.over, PriceKey(bucket, tier, variant)), n, v);
    FirstReachedBounded(BandsAt(t.over, PriceKey(bucket, tier, Plain)), n, v);
    FirstReachedBounded(BandsAt(t.over, PriceKey(bucket, Standard, variant)), n, v);
    FirstReachedBounded(BandsAt(t.over, PriceKey(bucket, Standard, Plain)), n, v);
  }

  /** Every text override has a positive lower bound, there are no audio or image overrides, and
      caching never costs more than reading. */
  ghost predicate LongContextOnly(t: PriceTable, ceiling: Price) {
    && (forall key, band | key in t.over && band in t.over[key] && (key.bucket.In? || key.bucket.Out?) :: band.min > 0)
    && NoMediaRows(t)
    && RatesAtMost(t, CacheRead, Raised(t, ceiling).input) && RatesAtMost(t, CacheWrite, Raised(t, ceiling).input)
  }

  lemma {:induction false} NothingAtZero(bands: seq<Band>)
    requires forall b | b in bands :: b.min > 0
    ensures FirstReached(bands, 0).None?
  {
    if bands != [] {
      assert bands[0] in bands;
      NothingAtZero(bands[1..]);
    }
  }

  lemma BaseAtZero(t: PriceTable, bucket: Bucket, tier: Tier)
    requires !t.billingFree
    requires forall key, band | key in t.over && band in t.over[key] && key.bucket == bucket :: band.min > 0
    ensures Lookup(t, bucket, tier, Plain, 0) == BaseOf(t.base, bucket)
  {
    NothingAtZero(BandsAt(t.over, PriceKey(bucket, tier, Plain)));
    NothingAtZero(BandsAt(t.over, PriceKey(bucket, Standard, Plain)));
  }

  lemma LongContextOnlyIsSafe(t: PriceTable, ceiling: Price)
    requires IsCeiling(t, ceiling) && LongContextOnly(t, ceiling)
    ensures HoldSafe(t, ceiling)
  {
    var p := Raised(t, ceiling);
    TextSafeIff(t, ceiling);
    RaisedIsNotNegative(t, ceiling);
    if !t.billingFree {
      forall tier | BilledTier(tier)
        ensures TextSafe(t, p, tier)
      {
        LongContextTierIsSafe(t, ceiling, tier);
      }
    }
  }

  lemma CachesWithin(t: PriceTable, tier: Tier, n: int, v: int)
    requires RatesAtMost(t, CacheRead, v) && RatesAtMost(t, CacheWrite, v) && v >= 0
    ensures CachesAt(t, v, tier, n)
  {
    LookupBounded(t, CacheRead, tier, Plain, n, v);
    LookupBounded(t, CacheWrite, tier, Plain, n, v);
    LookupBounded(t, CacheWrite, tier, Cache5m, n, v);
    LookupBounded(t, CacheWrite, tier, Cache1h, n, v);
  }

  lemma LongContextTierIsSafe(t: PriceTable, ceiling: Price, tier: Tier)
    requires IsCeiling(t, ceiling) && LongContextOnly(t, ceiling) && !t.billingFree && Raised(t, ceiling).input >= 0
    ensures TextSafe(t, Raised(t, ceiling), tier)
  {
    var p := Raised(t, ceiling);
    BaseAtZero(t, In, tier);
    BaseAtZero(t, Out, tier);
    RaisedCoversIff(t, ceiling, In, tier, Plain, 0);
    forall n | 1 <= n <= MAX_SANE_TOKENS
      ensures CachesAt(t, p.input, tier, n)
    {
      CachesWithin(t, tier, n, p.input);
    }
  }

  /*********************** The hold covers the charge ***********************/

  lemma NoToolCost(t: PriceTable, u: Tokens)
    requires forall tool | tool in u.toolCalls :: u.toolCalls[tool] <= 0
    ensures CostBuckets(t, u).tools == 0.0
  {
    assert ToolCosts(t, u.toolCalls) == map[];
  }

  lemma PlainOutput(inputTokens: int, out: int)
    requires 0 <= out <= MAX_SANE_TOKENS
    ensures TextOutput(PlainTokens(inputTokens, out)) == out
  {
    assert Wrapped(out) == out;
  }

  lemma PlainTotal(p: Price, inputTokens: int, out: int)
    requires inputTokens >= 0 && 0 <= out <= MAX_SANE_TOKENS
    ensures CostBuckets(Flat(p), PlainTokens(inputTokens, out)).Total() == Amount(inputTokens, p.input) + Amount(out, p.output)
  {
    PlainOutput(inputTokens, out);
    FlatTotal(p, PlainTokens(inputTokens, out));
  }

  /** What is held, exactly: for the estimated prompt at the dearer of the base and the long-context
      input rate and the held output at the dearer of the output rates, the least integer not below the
      charge, and never less than one nano. */
  lemma HoldAmount(e: EstimateInput) returns (nano: int)
    requires Hold(e).Ok?
    ensures var input := if e.longContext.input > e.price.input then e.longContext.input else e.price.input;
            var output := if e.longContext.output > e.price.output then e.longContext.output else e.price.output;
            var m, p := if e.rates.modelBps == 0 then 10000 else e.rates.modelBps, if e.rates.planBps == 0 then 10000 else e.rates.planBps;
            e.rates.fx.Parsed? && ChargedAs(nano, Amount(e.inputTokens, input) + Amount(HeldOutput(e), output), m, p, e.rates.fx.value)
    ensures Hold(e).value == if nano < 1 then 1 else nano
  {
    var price, out := DearerOf(e.price, e.longContext), HeldOutput(e);
    HeldTotal(price, e.inputTokens, out, e.rates);
    var q := Bill(Flat(price), Flat(price), PlainTokens(e.inputTokens, out), e.rates).value;
    nano := q.chargedNano;
  }

  lemma HeldTotal(p: Price, inputTokens: int, out: int, r: Rates)
    requires Bill(Flat(p), Flat(p), PlainTokens(inputTokens, out), r).Ok?
    ensures var q := Bill(Flat(p), Flat(p), PlainTokens(inputTokens, out), r).value;
            && r.fx.Parsed?
            && ChargedAs(q.chargedNano, Amount(inputTokens, p.input) + Amount(out, p.output),
                         if r.modelBps == 0 then 10000 else r.modelBps, if r.planBps == 0 then 10000 else r.planBps, r.fx.value)
  {
    var u := PlainTokens(inputTokens, out);
    QuoteAmounts(Flat(p), Flat(p), u, r);
    assert ValidTokens(u);
    PlainTotal(p, inputTokens, out);
  }

  /** Which estimates are refused, and with what, in the order of the checks. */
  lemma HoldRefusedIff(e: EstimateInput)
    ensures var hold, out, r := Hold(e), HeldOutput(e), e.rates;
            var badTokens := e.inputTokens < 0 || e.inputTokens > 2147483647 || out < 0 || out > 2147483647;
            var badRates :=
              r.modelBps < 0 || r.modelBps > 100000 || r.planBps < 0 || r.planBps > 100000
              || r.procurementBps < 0 || r.procurementBps > 100000 || r.fx == NotConfigured;
            && (hold == Err(BadTokens) <==> badTokens)
            && (hold == Err(BadRates) <==> !badTokens && badRates)
            && (hold == Err(BadFx) <==> !badTokens && !badRates && (r.fx == Malformed || (r.fx.Parsed? && r.fx.value <= 0.0)))
            && hold != Err(ToolPriceMissing)
  {
  }

  lemma ChargedMonotone(a: real, b: real, r: Rates)
    requires a <= b && UsableFx(r.fx) && r.modelBps >= 0 && r.planBps >= 0
    ensures ChargedAmount(a, r) <= ChargedAmount(b, r)
  {
    MulMono(a, b, Bps(r.modelBps));
    MulMono(Times(a, Bps(r.modelBps)), Times(b, Bps(r.modelBps)), Bps(r.planBps));
    MulMono(Times(Times(a, Bps(r.modelBps)), Bps(r.planBps)), Times(Times(b, Bps(r.modelBps)), Bps(r.planBps)), r.fx.value);
  }

  lemma ChargeIsCeil(list: PriceTable, cost: PriceTable, t: Tokens, r: Rates)
    ensures Bill(list, cost, t, r).Ok? ==>
              && Normalize(r).Ok? && UsableFx(Normalize(r).value.fx) && ValidTokens(t)
              && Bill(list, cost, t, r).value.chargedNano == Ceil(ChargedAmount(CostBuckets(list, t).Total(), Normalize(r).value))
  {
  }

  /** The hold is at least the charge: for every usage whose prompt is within the estimate and
      whose output is within what the serving candidate allows, in every tier and at every
      length, whatever route and procurement multiplier settle it. */
  lemma HoldDominatesSettlement(t: PriceTable, ceiling: Price, cost: PriceTable, u: Tokens,
                                modelMax: int, routes: seq<Route>, served: Route,
                                e: EstimateInput, procurementBps: int)
    requires IsCeiling(t, ceiling) && HoldSafe(t, ceiling)
    requires e.price == BillablePrice(t) && e.longContext == ceiling
    requires IsHoldCap(modelMax, routes, e.defaultMaxCap, e.ignoreRequestCap) && e.defaultMaxCap > 0
    requires served in routes && u.output <= AllowedOutput(modelMax, served, e.maxOutput)
    requires SoundUsage(u) && u.ContextTokens() <= e.inputTokens
    ensures var bill := Bill(t, cost, u, e.rates.(procurementBps := procurementBps));
            bill.Ok? && Hold(e).Ok? ==> bill.value.chargedNano <= Hold(e).value
  {
    var out, settled := HeldOutput(e), e.rates.(procurementBps := procurementBps);
    var price := Flat(Raised(t, ceiling));
    HeldOutputCovers(modelMax, routes, served, e);
    ChargeIsCeil(t, cost, u, settled);
    ChargeIsCeil(price, price, PlainTokens(e.inputTokens, out), e.rates);
    if Bill(t, cost, u, settled).Ok? && Hold(e).Ok? {
      ExactCostCovered(t, ceiling, u, e.inputTokens, out);
      var n, m := Normalize(e.rates).value, Normalize(settled).value;
      assert n.modelBps == m.modelBps && n.planBps == m.planBps && n.fx == m.fx;
      ChargedMonotone(CostBuckets(t, u).Total(), CostBuckets(price, PlainTokens(e.inputTokens, out)).Total(), n);
      CeilMonotone(ChargedAmount(CostBuckets(t, u).Total(), n),
                   ChargedAmount(CostBuckets(price, PlainTokens(e.inputTokens, out)).Total(), n));
    }
  }

  /** A table whose only override starts at length zero. */
  function EarlyTable(): PriceTable {
    PriceTable(Price(1000000, 0, 0, 0), map[PriceKey(In, Standard, Plain) := [Band(0, 2000000)]], map[], false)
  }

  lemma EarlyCost()
    ensures CostBuckets(EarlyTable(), PlainTokens(10, 0)).Total() == 20.0
  {
    var u := PlainTokens(10, 0);
    NoToolCost(EarlyTable(), u);
    assert Lookup(EarlyTable(), In, Standard, Plain, 10) == 2000000;
  }

  lemma EarlyHold(e: EstimateInput)
    requires e == EstimateInput(EarlyTable().base, Price(0, 0, 0, 0), 10, 1, 1, false, Rates(0, 0, 0, Parsed(1.0)))
    ensures Hold(e) == Ok(10)
  {
    var base := Price(1000000, 0, 0, 0);
    PlainTotal(base, 10, 1);
    assert Amount(10, 1000000) + Amount(1, 0) == 10.0;
    BillAtPar(Flat(base), PlainTokens(10, 1), 10);
    assert DearerOf(e.price, e.longContext) == base && HeldOutput(e) == 1;
  }

  /** A table whose override at length zero gives way to its base rate from length one on. */
  function HarmlessTable(): PriceTable {
    PriceTable(Price(5, 0, 0, 0), map[PriceKey(In, Standard, Plain) := [Band(1, 5), Band(0, 1000000)]], map[], false)
  }

  lemma HarmlessCeiling()
    ensures IsCeiling(HarmlessTable(), Price(5, 0, 0, 0))
  {
    var t := HarmlessTable();
    assert Band(1, 5) in t.over[PriceKey(In, Standard, Plain)];
  }

  lemma HarmlessCaches(tier: Tier, n: int)
    ensures CachesAt(HarmlessTable(), 5, tier, n)
  {
    var t := HarmlessTable();
    assert forall k | k in t.over :: k.bucket == In;
    NoRowsAtBase(t, CacheRead, tier, Plain, n);
    NoRowsAtBase(t, CacheWrite, tier, Plain, n);
    NoRowsAtBase(t, CacheWrite, tier, Cache5m, n);
    NoRowsAtBase(t, CacheWrite, tier, Cache1h, n);
  }

  lemma NoRowsAtBase(t: PriceTable, bucket: Bucket, tier: Tier, variant: Variant, n: int)
    requires !t.billingFree && forall key | key in t.over :: key.bucket != bucket
    ensures Lookup(t, bucket, tier, variant, n) == BaseOf(t.base, bucket)
  {
  }

  lemma HarmlessText(tier: Tier)
    requires BilledTier(tier)
    ensures Lookup(HarmlessTable(), In, tier, Plain, 1) == 5 && Lookup(HarmlessTable(), Out, tier, Plain, 0) == 0
  {
    var t := HarmlessTable();
    assert forall k | k in t.over :: k.bucket == In;
    NoRowsAtBase(t, Out, tier, Plain, 0);
  }

  lemma HarmlessTier(tier: Tier)
    requires BilledTier(tier)
    ensures TextSafe(HarmlessTable(), Price(5, 0, 0, 0), tier)
  {
    HarmlessText(tier);
    forall n
      ensures CachesAt(HarmlessTable(), 5, tier, n)
    {
      HarmlessCaches(tier, n);
    }
  }

  /** An override that starts at zero does no harm where a later band takes over at length one: no
      prompt is billed at it. */
  lemma HarmlessEarlyOverride()
    ensures IsCeiling(HarmlessTable(), Price(5, 0, 0, 0)) && HoldSafe(HarmlessTable(), Price(5, 0, 0, 0))
    ensures Lookup(HarmlessTable(), In, Standard, Plain, 0) > 5
  {
    HarmlessCeiling();
    TextSafeIff(HarmlessTable(), Price(5, 0, 0, 0));
    forall tier | BilledTier(tier)
      ensures TextSafe(HarmlessTable(), Price(5, 0, 0, 0), tier)
    {
      HarmlessTier(tier);
    }
  }

  /** Otherwise the hold fails: an override that starts at zero raises the charge but not the
      ceiling. Here ten tokens hold 10 nano and settle at 20. */
  lemma ZeroBoundOverrideEscapesHold(e: EstimateInput)
    requires e == EstimateInput(EarlyTable().base, Price(0, 0, 0, 0), 10, 1, 1, false, Rates(0, 0, 0, Parsed(1.0)))
    ensures IsCeiling(EarlyTable(), e.longContext) && Hold(e) == Ok(10)
    ensures Bill(EarlyTable(), EarlyTable(), PlainTokens(10, 0), e.rates) == Ok(Quote(20, 20, 10000, 10000, 10000, Parsed(1.0)))
  {
    EarlyHold(e);
    EarlyBill();
  }

  lemma EarlyBill()
    ensures Bill(EarlyTable(), EarlyTable(), PlainTokens(10, 0), Rates(0, 0, 0, Parsed(1.0)))
            == Ok(Quote(20, 20, 10000, 10000, 10000, Parsed(1.0)))
  {
    EarlyCost();
    BillAtPar(EarlyTable(), PlainTokens(10, 0), 20);
  }
}
