/** The token price table: a rate is addressed by (bucket, tier, variant) and, within
    that, by the length of the prompt. */
module PriceTables {
  import opened Outcomes

  // The names the source compares as strings. The Other constructors stand for every
  // string that is none of the named ones.
  datatype Bucket =
    | In | Out | CacheRead | CacheWrite
    | AudioIn | AudioOut | ImageIn | ImageOut
    | OtherBucket(name: string)

  datatype Tier = Standard | Priority | Batch | OtherTier(name: string)

  datatype Variant = Plain | Cache5m | Cache1h | OtherVariant(name: string)

  /** The four base rates, in nano per million tokens. */
  datatype Price = Price(input: int, output: int, cacheRead: int, cacheWrite: int)

  datatype PriceKey = PriceKey(bucket: Bucket, tier: Tier, variant: Variant)

  /** One rate of a key, valid from `min` prompt tokens upwards. */
  datatype Band = Band(min: int, rate: int)

  /** One override row, as configured or as recorded in a snapshot. */
  datatype Row = Row(key: PriceKey, band: Band)

  datatype PriceTable = PriceTable(
    base: Price, over: map<PriceKey, seq<Band>>, tools: map<string, int>, billingFree: bool)

  datatype Snapshot = Snapshot(base: Price, rows: seq<Row>, tools: map<string, int>)

  function Flat(p: Price): PriceTable {
    PriceTable(p, map[], map[], false)
  }

  function ForBilling(t: PriceTable, free: bool): PriceTable {
    if free then t.(billingFree := true) else t
  }

  /*********************** Resolution ***********************/

  function BandsAt(over: map<PriceKey, seq<Band>>, key: PriceKey): seq<Band> {
    if key in over then over[key] else []
  }

  /** The first band the prompt reaches. */
  function FirstReached(bands: seq<Band>, context: int): Option<int> {
    if bands == [] then None
    else if bands[0].min <= context then Some(bands[0].rate)
    else FirstReached(bands[1..], context)
  }

  /** Resolution within one tier. `priced` tells a tier that has no rate at this length
      from a tier with no rate at all. */
  datatype TierAnswer = TierAnswer(rate: Option<int>, priced: bool)

  function WithinTier(over: map<PriceKey, seq<Band>>, bucket: Bucket, tier: Tier,
                      variant: Variant, context: int): TierAnswer
  {
    var exact := BandsAt(over, PriceKey(bucket, tier, variant));
    var plain := BandsAt(over, PriceKey(bucket, tier, Plain));
    if FirstReached(exact, context).Some? then
      TierAnswer(FirstReached(exact, context), true)
    else if variant != Plain then
      if FirstReached(plain, context).Some? then
        TierAnswer(FirstReached(plain, context), true)
      else
        TierAnswer(None, |exact| > 0 || |plain| > 0)
    else
      TierAnswer(None, |exact| > 0)
  }

  function LookupDimensionRate(over: map<PriceKey, seq<Band>>, bucket: Bucket, tier: Tier,
                               variant: Variant, context: int): Option<int>
  {
    var answer := WithinTier(over, bucket, tier, variant, context);
    if answer.rate.Some? then answer.rate
    else if tier == Standard || answer.priced then None
    else WithinTier(over, bucket, Standard, variant, context).rate
  }

  function BaseOf(base: Price, bucket: Bucket): int {
    match bucket
    case In | AudioIn | ImageIn => base.input
    case Out | AudioOut | ImageOut => base.output
    case CacheRead => base.cacheRead
    case CacheWrite => base.cacheWrite
    case OtherBucket(_) => 0
  }

  function Lookup(t: PriceTable, bucket: Bucket, tier: Tier, variant: Variant, context: int): int {
    if t.billingFree then 0
    else
      match LookupDimensionRate(t.over, bucket, tier, variant, context)
      case Some(rate) => rate
      case None => BaseOf(t.base, bucket)
  }

  function LookupTool(t: PriceTable, tool: string): Option<int> {
    if t.billingFree then Some(0)
    else if tool in t.tools then Some(t.tools[tool])
    else None
  }

  /*********************** Construction ***********************/

  ghost predicate Descending(bands: seq<Band>) {
    forall i, j | 0 <= i < j < |bands| :: bands[i].min >= bands[j].min
  }

  /** No two rows share a key and a lower bound: the primary key of the rate table. */
  ghost predicate OneRowPerBand(rows: seq<Row>) {
    forall i, j | 0 <= i < j < |rows| && rows[i].key == rows[j].key ::
      rows[i].band.min != rows[j].band.min
  }

  ghost predicate DistinctBounds(bands: seq<Band>) {
    forall i, j | 0 <= i < j < |bands| :: bands[i].min != bands[j].min
  }

  /** The table's bands are exactly these rows. */
  ghost predicate Holds(over: map<PriceKey, seq<Band>>, rows: seq<Row>) {
    forall key, band :: band in BandsAt(over, key) <==> Row(key, band) in rows
  }

  /** The table holds these rows, each key's bands greatest lower bound first. */
  ghost predicate Represents(over: map<PriceKey, seq<Band>>, rows: seq<Row>) {
    Holds(over, rows) && forall key :: Descending(BandsAt(over, key))
  }

  function Insert(bands: seq<Band>, b: Band): (r: seq<Band>)
    ensures multiset(r) == multiset(bands) + multiset{b}
  {
    if bands == [] then [b]
    else if b.min >= bands[0].min then [b] + bands
    else
      assert bands == [bands[0]] + bands[1..];
      [bands[0]] + Insert(bands[1..], b)
  }

  /** The bands of one key, greatest lower bound first. */
  function SortDescending(bands: seq<Band>): (r: seq<Band>)
    ensures multiset(r) == multiset(bands)
  {
    if bands == [] then []
    else
      assert bands == [bands[0]] + bands[1..];
      Insert(SortDescending(bands[1..]), bands[0])
  }

  lemma {:induction false} InsertDescends(bands: seq<Band>, b: Band)
    requires Descending(bands)
    ensures Descending(Insert(bands, b))
  {
    if bands != [] && b.min < bands[0].min {
      InsertDescends(bands[1..], b);
      var rest := Insert(bands[1..], b);
      forall x | x in rest ensures x.min <= bands[0].min {
        assert x in multiset(rest);
        assert x in bands[1..] || x == b;
      }
    }
  }

  lemma {:induction false} SortDescends(bands: seq<Band>)
    ensures Descending(SortDescending(bands))
  {
    if bands != [] {
      SortDescends(bands[1..]);
      InsertDescends(SortDescending(bands[1..]), bands[0]);
    }
  }

  /** Files every row under its key, in the order of the rows. */
  method FileRows(rows: seq<Row>) returns (over: map<PriceKey, seq<Band>>)
    ensures Holds(over, rows)
  {
    over := map[];
    for i := 0 to |rows|
      invariant Holds(over, rows[..i])
    {
      var r := rows[i];
      ghost var before := over;
      over := over[r.key := BandsAt(over, r.key) + [r.band]];
      assert rows[..i + 1] == rows[..i] + [r];
      forall key, band
        ensures band in BandsAt(over, key) <==> Row(key, band) in rows[..i + 1]
      {
        assert band in BandsAt(before, key) <==> Row(key, band) in rows[..i];
      }
    }
    assert rows[..|rows|] == rows;
  }

  /** Sorts the bands of every key. */
  method SortBands(filed: map<PriceKey, seq<Band>>) returns (over: map<PriceKey, seq<Band>>)
    ensures over.Keys == filed.Keys
    ensures forall key | key in over :: multiset(over[key]) == multiset(filed[key]) && Descending(over[key])
  {
    over := filed;
    var todo := over.Keys;
    while todo != {}
      invariant todo <= over.Keys == filed.Keys
      invariant forall key | key in over :: multiset(over[key]) == multiset(filed[key])
      invariant forall key | key in over && key !in todo :: Descending(over[key])
      decreases |todo|
    {
      var key :| key in todo;
      SortDescends(over[key]);
      over := over[key := SortDescending(over[key])];
      todo := todo - {key};
    }
  }

  lemma SortedHolds(filed: map<PriceKey, seq<Band>>, over: map<PriceKey, seq<Band>>, rows: seq<Row>)
    requires Holds(filed, rows) && over.Keys == filed.Keys
    requires forall key | key in over :: multiset(over[key]) == multiset(filed[key]) && Descending(over[key])
    ensures Represents(over, rows)
  {
    forall key, band
      ensures band in BandsAt(over, key) <==> Row(key, band) in rows
    {
      if key in over {
        assert band in over[key] <==> band in multiset(over[key]);
        assert band in filed[key] <==> band in multiset(filed[key]);
      }
      assert band in BandsAt(filed, key) <==> Row(key, band) in rows;
    }
  }

  /** Builds a table from the base rates and the override rows, in whatever order they come. */
  method NewPriceTable(base: Price, rows: seq<Row>) returns (t: PriceTable)
    ensures t.base == base && t.tools == map[] && !t.billingFree
    ensures Represents(t.over, rows)
  {
    var filed := FileRows(rows);
    var over := SortBands(filed);
    SortedHolds(filed, over, rows);
    t := PriceTable(base, over, map[], false);
  }

  /** The rows of a table, for the usage log: every band of every key, none invented, and
      none twice when no key has two bands with one bound. */
  method TakeSnapshot(t: PriceTable) returns (s: Snapshot)
    ensures s.base == t.base && s.tools == t.tools
    ensures Holds(t.over, s.rows)
    ensures (forall key | key in t.over :: DistinctBounds(t.over[key])) ==> OneRowPerBand(s.rows)
  {
    var rows: seq<Row> := [];
    var todo := t.over.Keys;
    while todo != {}
      invariant todo <= t.over.Keys
      invariant forall key, band :: Row(key, band) in rows <==> key !in todo && band in BandsAt(t.over, key)
      invariant (forall key | key in t.over :: DistinctBounds(t.over[key])) ==> OneRowPerBand(rows)
      decreases |todo|
    {
      var key :| key in todo;
      var bands := t.over[key];
      ghost var before := rows;
      assert forall band :: Row(key, band) !in before;
      for i := 0 to |bands|
        invariant forall k, band :: Row(k, band) in rows <==> Row(k, band) in before || (k == key && band in bands[..i])
        invariant (forall k | k in t.over :: DistinctBounds(t.over[k])) ==> OneRowPerBand(rows)
      {
        assert bands[..i + 1] == bands[..i] + [bands[i]];
        forall j | 0 <= j < |rows| && rows[j].key == key && DistinctBounds(bands)
          ensures rows[j].band.min != bands[i].min
        {
          assert rows[j] == Row(key, rows[j].band) && rows[j] in rows;
        }
        rows := rows + [Row(key, bands[i])];
      }
      todo := todo - {key};
    }
    s := Snapshot(t.base, rows, t.tools);
  }

  /*********************** What resolution means ***********************/

  ghost predicate Reached(rows: seq<Row>, key: PriceKey, context: int, band: Band) {
    Row(key, band) in rows && band.min <= context
  }

  ghost predicate NoneReached(rows: seq<Row>, key: PriceKey, context: int) {
    forall band :: !Reached(rows, key, context, band)
  }

  /** The rate of the greatest lower bound this prompt reaches under one key. */
  ghost predicate Selected(rows: seq<Row>, key: PriceKey, context: int, rate: int) {
    exists band ::
      && Reached(rows, key, context, band)
      && band.rate == rate
      && forall other | Reached(rows, key, context, other) :: other.min <= band.min
  }

  /** A tier's own answer: the exact variant, else the undifferentiated one. */
  ghost predicate TierRate(rows: seq<Row>, bucket: Bucket, tier: Tier, variant: Variant,
                           context: int, rate: int)
  {
    || Selected(rows, PriceKey(bucket, tier, variant), context, rate)
    || (NoneReached(rows, PriceKey(bucket, tier, variant), context)
        && Selected(rows, PriceKey(bucket, tier, Plain), context, rate))
  }

  ghost predicate TierSilent(rows: seq<Row>, bucket: Bucket, tier: Tier, variant: Variant, context: int) {
    && NoneReached(rows, PriceKey(bucket, tier, variant), context)
    && NoneReached(rows, PriceKey(bucket, tier, Plain), context)
  }

  /** The tier has some rate for the bucket, at some length. */
  ghost predicate TierPriced(rows: seq<Row>, bucket: Bucket, tier: Tier, variant: Variant) {
    exists r :: r in rows && r.key.bucket == bucket && r.key.tier == tier
                && (r.key.variant == variant || r.key.variant == Plain)
  }

  /** The declarative meaning of a lookup, in terms of the configured rows alone. */
  ghost predicate RateSpec(base: Price, rows: seq<Row>, bucket: Bucket, tier: Tier,
                           variant: Variant, context: int, rate: int)
  {
    || TierRate(rows, bucket, tier, variant, context, rate)
    || (&& TierSilent(rows, bucket, tier, variant, context)
        && if tier == Standard || TierPriced(rows, bucket, tier, variant) then
             rate == BaseOf(base, bucket)
           else
             || TierRate(rows, bucket, Standard, variant, context, rate)
             || (TierSilent(rows, bucket, Standard, variant, context) && rate == BaseOf(base, bucket)))
  }

  lemma {:induction false} FirstReachedSelects(bands: seq<Band>, context: int)
    requires Descending(bands)
    ensures FirstReached(bands, context).None? <==> forall b | b in bands :: b.min > context
    ensures FirstReached(bands, context).Some? ==>
              exists b :: b in bands && b.min <= context && b.rate == FirstReached(bands, context).value
                          && forall other | other in bands && other.min <= context :: other.min <= b.min
  {
    if bands != [] {
      if bands[0].min <= context {
        assert bands[0] in bands;
      } else {
        FirstReachedSelects(bands[1..], context);
        assert forall b :: b in bands <==> b == bands[0] || b in bands[1..];
      }
    }
  }

  /** The band a length falls in is the dearest it reaches. */
  ghost predicate ReachesDearest(bands: seq<Band>, context: int) {
    var found := FirstReached(bands, context);
    found.Some? ==> forall b | b in bands && b.min <= context :: b.rate <= found.value
  }

  /** A higher lower bound never has a lower rate. */
  ghost predicate RatesRise(bands: seq<Band>) {
    forall a, b | a in bands && b in bands && a.min > b.min :: a.rate >= b.rate
  }

  lemma {:induction false} FirstReachedAtBound(bands: seq<Band>, b: Band)
    requires Descending(bands) && DistinctBounds(bands) && b in bands
    ensures FirstReached(bands, b.min) == Some(b.rate)
  {
    if bands[0] != b {
      assert b in bands[1..];
      var i :| 0 <= i < |bands| && bands[i] == b;
      assert bands[0].min > b.min;
      FirstReachedAtBound(bands[1..], b);
    }
  }

  /** The band that applies is the dearest applicable one at every length if and only if a higher
      lower bound never has a lower rate. */
  lemma DearestIff(bands: seq<Band>)
    requires Descending(bands) && DistinctBounds(bands)
    ensures (forall context :: ReachesDearest(bands, context)) <==> RatesRise(bands)
  {
    if forall context :: ReachesDearest(bands, context) {
      forall a, b | a in bands && b in bands && a.min > b.min
        ensures a.rate >= b.rate
      {
        FirstReachedAtBound(bands, a);
        assert ReachesDearest(bands, a.min);
      }
    }
    if RatesRise(bands) {
      forall context
        ensures ReachesDearest(bands, context)
      {
        RisingReachesDearest(bands, context);
      }
    }
  }

  lemma RisingReachesDearest(bands: seq<Band>, context: int)
    requires Descending(bands) && DistinctBounds(bands) && RatesRise(bands)
    ensures ReachesDearest(bands, context)
  {
    FirstReachedSelects(bands, context);
    var found := FirstReached(bands, context);
    if found.Some? {
      var b :| b in bands && b.min <= context && b.rate == found.value
               && forall other | other in bands && other.min <= context :: other.min <= b.min;
      forall other | other in bands && other.min <= context
        ensures other.rate <= found.value
      {
        if other.min == b.min {
          SameBoundSameBand(bands, other, b);
        }
      }
    }
  }

  lemma SameBoundSameBand(bands: seq<Band>, a: Band, b: Band)
    requires DistinctBounds(bands) && a in bands && b in bands && a.min == b.min
    ensures a == b
  {
    var i, j :| 0 <= i < |bands| && 0 <= j < |bands| && bands[i] == a && bands[j] == b;
    assert i == j;
  }

  /** A discount for long prompts breaks it: at 200001 tokens the band in force costs 5, the one below
      it, reached as well, 10. */
  lemma LongDiscountIsNotDearest()
    ensures var bands := [Band(200001, 5), Band(0, 10)];
            && Descending(bands) && DistinctBounds(bands) && !RatesRise(bands)
            && FirstReached(bands, 200001) == Some(5) && !ReachesDearest(bands, 200001)
  {
    var bands := [Band(200001, 5), Band(0, 10)];
    assert bands[0] in bands && bands[1] in bands;
  }

  /** One key: the walk down the sorted bands finds the greatest reached bound, or reports
      that none is reached. */
  lemma KeyResolution(over: map<PriceKey, seq<Band>>, rows: seq<Row>, key: PriceKey, context: int)
    requires Represents(over, rows)
    ensures var found := FirstReached(BandsAt(over, key), context);
            if found.Some? then Selected(rows, key, context, found.value) else NoneReached(rows, key, context)
    ensures |BandsAt(over, key)| > 0 <==> exists r :: r in rows && r.key == key
  {
    var bands := BandsAt(over, key);
    FirstReachedSelects(bands, context);
    assert forall b :: b in bands <==> Row(key, b) in rows;
    if |bands| > 0 {
      assert bands[0] in bands;
      assert Row(key, bands[0]) in rows;
    }
    forall r | r in rows && r.key == key ensures r.band in bands {
      assert r == Row(key, r.band);
    }
    var found := FirstReached(bands, context);
    if found.Some? {
      var b :| b in bands && b.min <= context && b.rate == found.value
               && forall other | other in bands && other.min <= context :: other.min <= b.min;
      assert Reached(rows, key, context, b);
    }
  }

  lemma TierResolution(over: map<PriceKey, seq<Band>>, rows: seq<Row>, bucket: Bucket, tier: Tier,
                       variant: Variant, context: int)
    requires Represents(over, rows)
    ensures var a := WithinTier(over, bucket, tier, variant, context);
            && (a.rate.Some? ==> TierRate(rows, bucket, tier, variant, context, a.rate.value))
            && (a.rate.None? ==> TierSilent(rows, bucket, tier, variant, context)
                                 && (a.priced <==> TierPriced(rows, bucket, tier, variant)))
  {
    KeyResolution(over, rows, PriceKey(bucket, tier, variant), context);
    KeyResolution(over, rows, PriceKey(bucket, tier, Plain), context);
  }

  /** The nested fallbacks of the code are the declarative rule, for any table holding the rows. */
  lemma LookupMeetsSpec(t: PriceTable, rows: seq<Row>, bucket: Bucket, tier: Tier,
                        variant: Variant, context: int)
    requires Represents(t.over, rows) && !t.billingFree
    ensures RateSpec(t.base, rows, bucket, tier, variant, context, Lookup(t, bucket, tier, variant, context))
  {
    TierResolution(t.over, rows, bucket, tier, variant, context);
    TierResolution(t.over, rows, bucket, Standard, variant, context);
  }

  /** Rows that share a key and a bound share a rate. */
  ghost predicate Consistent(rows: seq<Row>) {
    forall r, s | r in rows && s in rows && r.key == s.key && r.band.min == s.band.min :: r.band.rate == s.band.rate
  }

  lemma SelectedUnique(rows: seq<Row>, key: PriceKey, context: int, a: int, b: int)
    requires Consistent(rows)
    requires Selected(rows, key, context, a) && Selected(rows, key, context, b)
    ensures a == b
  {
    var x :| Reached(rows, key, context, x) && x.rate == a
             && forall other | Reached(rows, key, context, other) :: other.min <= x.min;
    var y :| Reached(rows, key, context, y) && y.rate == b
             && forall other | Reached(rows, key, context, other) :: other.min <= y.min;
    assert Row(key, x).band.min == Row(key, y).band.min;
  }

  lemma TierRateUnique(rows: seq<Row>, bucket: Bucket, tier: Tier, variant: Variant, context: int, a: int, b: int)
    requires Consistent(rows)
    requires TierRate(rows, bucket, tier, variant, context, a)
    requires TierRate(rows, bucket, tier, variant, context, b)
    ensures a == b
  {
    var exact, plain := PriceKey(bucket, tier, variant), PriceKey(bucket, tier, Plain);
    if Selected(rows, exact, context, a) && Selected(rows, exact, context, b) {
      SelectedUnique(rows, exact, context, a, b);
    } else {
      SelectedUnique(rows, plain, context, a, b);
    }
  }

  /** The rule has one answer. */
  lemma RateSpecUnique(base: Price, rows: seq<Row>, bucket: Bucket, tier: Tier, variant: Variant,
                       context: int, a: int, b: int)
    requires Consistent(rows)
    requires RateSpec(base, rows, bucket, tier, variant, context, a)
    requires RateSpec(base, rows, bucket, tier, variant, context, b)
    ensures a == b
  {
    if TierRate(rows, bucket, tier, variant, context, a) && TierRate(rows, bucket, tier, variant, context, b) {
      TierRateUnique(rows, bucket, tier, variant, context, a, b);
    } else if TierRate(rows, bucket, Standard, variant, context, a) && TierRate(rows, bucket, Standard, variant, context, b) {
      TierRateUnique(rows, bucket, Standard, variant, context, a, b);
    }
  }

  /** Tables holding the same rows, read in any order or rebuilt from a snapshot, answer
      every lookup alike. */
  lemma SameRowsSameLookup(t: PriceTable, u: PriceTable, rows: seq<Row>, reordered: seq<Row>,
                           bucket: Bucket, tier: Tier, variant: Variant, context: int)
    requires OneRowPerBand(rows) && forall r :: r in rows <==> r in reordered
    requires Represents(t.over, rows) && Represents(u.over, reordered)
    requires t.base == u.base && t.billingFree == u.billingFree
    ensures Lookup(t, bucket, tier, variant, context) == Lookup(u, bucket, tier, variant, context)
  {
    if !t.billingFree {
      assert Consistent(rows);
      assert Represents(u.over, rows);
      LookupMeetsSpec(t, rows, bucket, tier, variant, context);
      LookupMeetsSpec(u, rows, bucket, tier, variant, context);
      RateSpecUnique(t.base, rows, bucket, tier, variant, context,
                     Lookup(t, bucket, tier, variant, context), Lookup(u, bucket, tier, variant, context));
    }
  }

  /** A bucket the base price does not name costs nothing unless a row prices it. */
  lemma UnnamedBucketIsFree(t: PriceTable, name: string, tier: Tier, variant: Variant, context: int)
    requires forall key | key in t.over :: key.bucket != OtherBucket(name)
    ensures Lookup(t, OtherBucket(name), tier, variant, context) == 0
  {
  }

  /** A tier that prices the bucket keeps the request: the answer is one of that tier's own
      rows or the base rate, never a rate of another tier. */
  lemma PricedTierNeverLeaves(t: PriceTable, rows: seq<Row>, bucket: Bucket, tier: Tier,
                              variant: Variant, context: int)
    requires Represents(t.over, rows) && !t.billingFree
    requires TierPriced(rows, bucket, tier, variant)
    ensures var rate := Lookup(t, bucket, tier, variant, context);
            || (rate == BaseOf(t.base, bucket) && TierSilent(rows, bucket, tier, variant, context))
            || exists r :: r in rows && r.key.bucket == bucket && r.key.tier == tier
                           && r.band.min <= context && r.band.rate == rate
  {
    LookupMeetsSpec(t, rows, bucket, tier, variant, context);
    var rate := Lookup(t, bucket, tier, variant, context);
    if TierRate(rows, bucket, tier, variant, context, rate) {
      var key := if Selected(rows, PriceKey(bucket, tier, variant), context, rate)
                 then PriceKey(bucket, tier, variant) else PriceKey(bucket, tier, Plain);
      var band :| Reached(rows, key, context, band) && band.rate == rate;
      assert Row(key, band) in rows;
    }
  }
}
