/** The per-unit price family: rates for seconds, calls and images, which widen toward the
    least specific row and fail closed. */
module UnitPrices {
  import opened Outcomes
  import opened Amounts
  import opened MapSums
  import opened Pricing

  /** An empty resolution, audio or variant means "does not vary on that axis". */
  datatype UnitKey = UnitKey(unit: string, resolution: string, audio: string, variant: string, tier: string)
  {
    function Normalized(): UnitKey {
      if tier == "" then this.(tier := "standard") else this
    }
  }

  datatype UnitRow = UnitRow(key: UnitKey, rate: int)

  datatype UnitPriceTable = UnitPriceTable(rates: map<UnitKey, int>, billingFree: bool)

  datatype UnitRefusal = BadUnits | Billing(refusal: Refusal) | UnitPriceMissing | UnitAmbiguous

  function KnownUnits(): seq<string> {
    ["second", "call", "image"]
  }

  function ForBilling(t: UnitPriceTable, free: bool): UnitPriceTable {
    t.(billingFree := free)
  }

  /*********************** Construction and snapshots ***********************/

  /** The keys are those of the rows, and each has the rate of the last row with its key. */
  ghost predicate LastRowWins(rates: map<UnitKey, int>, rows: seq<UnitRow>) {
    && (forall i | 0 <= i < |rows| :: rows[i].key.Normalized() in rates)
    && (forall key | key in rates :: exists i :: IsLastOf(rows, i, key) && rows[i].rate == rates[key])
  }

  ghost predicate IsLastOf(rows: seq<UnitRow>, i: int, key: UnitKey) {
    0 <= i < |rows| && rows[i].key.Normalized() == key && forall j | i < j < |rows| :: rows[j].key.Normalized() != key
  }

  lemma RowIsLast(rates: map<UnitKey, int>, rows: seq<UnitRow>, row: UnitRow)
    requires LastRowWins(rates, rows)
    ensures LastRowWins(rates[row.key.Normalized() := row.rate], rows + [row])
  {
    var now, all := rates[row.key.Normalized() := row.rate], rows + [row];
    forall key | key in now
      ensures exists i :: IsLastOf(all, i, key) && all[i].rate == now[key]
    {
      if key == row.key.Normalized() {
        assert IsLastOf(all, |rows|, key);
      } else {
        var i :| IsLastOf(rows, i, key) && rows[i].rate == rates[key];
        assert IsLastOf(all, i, key);
      }
    }
  }

  /** Builds a table from its rows; a later row replaces an earlier one with its key. */
  method NewUnitPriceTable(rows: seq<UnitRow>) returns (t: UnitPriceTable)
    ensures !t.billingFree
    ensures LastRowWins(t.rates, rows) && AllNormalized(t)
  {
    var rates: map<UnitKey, int> := map[];
    for i := 0 to |rows|
      invariant LastRowWins(rates, rows[..i]) && forall key | key in rates :: key.Normalized() == key
    {
      RowIsLast(rates, rows[..i], rows[i]);
      assert rows[..i + 1] == rows[..i] + [rows[i]];
      rates := rates[rows[i].key.Normalized() := rows[i].rate];
    }
    assert rows[..|rows|] == rows;
    t := UnitPriceTable(rates, false);
  }

  /** The rows are exactly the table's entries, each once. */
  ghost predicate Lists(rows: seq<UnitRow>, rates: map<UnitKey, int>) {
    && (forall r | r in rows :: r.key in rates && rates[r.key] == r.rate)
    && (forall key | key in rates :: exists r :: r in rows && r.key == key)
    && (forall i, j | 0 <= i < j < |rows| :: rows[i].key != rows[j].key)
  }

  method TakeSnapshot(t: UnitPriceTable) returns (rows: seq<UnitRow>)
    ensures Lists(rows, t.rates)
  {
    rows := [];
    var todo := t.rates.Keys;
    while todo != {}
      invariant todo <= t.rates.Keys
      invariant forall r | r in rows :: r.key in t.rates && r.key !in todo && t.rates[r.key] == r.rate
      invariant forall key | key in t.rates && key !in todo :: exists r :: r in rows && r.key == key
      invariant forall i, j | 0 <= i < j < |rows| :: rows[i].key != rows[j].key
      decreases |todo|
    {
      var key :| key in todo;
      var row := UnitRow(key, t.rates[key]);
      forall k | k in t.rates && k !in todo - {key} ensures exists r :: r in rows + [row] && r.key == k {
        if k == key {
          assert row in rows + [row];
        } else {
          var r :| r in rows && r.key == k;
          assert r in rows + [row];
        }
      }
      forall i | 0 <= i < |rows| ensures rows[i].key != key {
        assert rows[i] in rows;
      }
      rows := rows + [row];
      todo := todo - {key};
    }
  }

  ghost predicate AllNormalized(t: UnitPriceTable) {
    forall key | key in t.rates :: key.Normalized() == key
  }

  /** Taking a snapshot and rebuilding gives back the same rates, key for key, so every job is
      re-billed alike. */
  method RebuildFromSnapshot(t: UnitPriceTable) returns (u: UnitPriceTable)
    requires AllNormalized(t)
    ensures u.rates == t.rates && !u.billingFree
  {
    var rows := TakeSnapshot(t);
    u := NewUnitPriceTable(rows);
    ListedRatesReturn(t, rows, u.rates);
  }

  /** So a table rebuilt from the snapshot of another bills every job at every rate alike, on either
      side of the quote. */
  lemma SnapshotRebills(t: UnitPriceTable, rows: seq<UnitRow>, rebuilt: UnitPriceTable, other: UnitPriceTable,
                        q: map<UnitKey, int>, feeBps: int, r: Rates)
    requires AllNormalized(t) && !t.billingFree && Lists(rows, t.rates)
    requires LastRowWins(rebuilt.rates, rows) && !rebuilt.billingFree
    ensures BillUnits(rebuilt, other, q, r) == BillUnits(t, other, q, r)
    ensures BillUnits(other, rebuilt, q, r) == BillUnits(other, t, q, r)
    ensures BillUnitsByok(rebuilt, q, feeBps, r) == BillUnitsByok(t, q, feeBps, r)
  {
    ListedRatesReturn(t, rows, rebuilt.rates);
  }

  lemma ListedRateIsTheTables(t: UnitPriceTable, rows: seq<UnitRow>, rates: map<UnitKey, int>, key: UnitKey)
    requires AllNormalized(t) && Lists(rows, t.rates) && LastRowWins(rates, rows) && key in rates
    ensures key in t.rates && rates[key] == t.rates[key]
  {
    var i :| IsLastOf(rows, i, key) && rows[i].rate == rates[key];
    assert rows[i] in rows;
  }

  lemma TableRateIsListed(t: UnitPriceTable, rows: seq<UnitRow>, rates: map<UnitKey, int>, key: UnitKey)
    requires AllNormalized(t) && Lists(rows, t.rates) && LastRowWins(rates, rows) && key in t.rates
    ensures key in rates
  {
    var r :| r in rows && r.key == key;
    var i :| 0 <= i < |rows| && rows[i] == r;
    assert rows[i].key.Normalized() in rates;
  }

  lemma ListedRatesReturn(t: UnitPriceTable, rows: seq<UnitRow>, rates: map<UnitKey, int>)
    requires AllNormalized(t) && Lists(rows, t.rates) && LastRowWins(rates, rows)
    ensures rates == t.rates
  {
    forall key | key in rates
      ensures key in t.rates && rates[key] == t.rates[key]
    {
      ListedRateIsTheTables(t, rows, rates, key);
    }
    forall key | key in t.rates
      ensures key in rates
    {
      TableRateIsListed(t, rows, rates, key);
    }
  }

  /** The one unit a model is billed in. A row without a unit, which the schema does not admit, counts
      for nothing or clashes with the others, as the order of iteration has it. */
  method BillingUnit(t: UnitPriceTable) returns (res: Result<string, UnitRefusal>)
    ensures match res
            case Ok(unit) => unit != "" && (exists key :: key in t.rates && key.unit == unit)
                             && forall key | key in t.rates :: key.unit == unit || key.unit == ""
            case Err(UnitPriceMissing) => forall key | key in t.rates :: key.unit == ""
            case Err(UnitAmbiguous) => exists a, b :: a in t.rates && b in t.rates && a.unit != b.unit
            case Err(_) => false
  {
    var found := "";
    var todo := t.rates.Keys;
    while todo != {}
      invariant todo <= t.rates.Keys
      invariant found != "" ==> exists key :: key in t.rates && key.unit == found
      invariant forall key | key in t.rates && key !in todo :: key.unit == found || key.unit == ""
      decreases |todo|
    {
      var key :| key in todo;
      if found == "" {
        found := key.unit;
      } else if key.unit != found {
        return Err(UnitAmbiguous);
      }
      todo := todo - {key};
    }
    if found == "" {
      return Err(UnitPriceMissing);
    }
    return Ok(found);
  }

  /*********************** Lookup ***********************/

  /** The keys tried, most specific first. */
  function Chain(k: UnitKey): seq<UnitKey> {
    var n := k.Normalized();
    [n, n.(variant := ""), n.(variant := "", audio := ""), n.(variant := "", audio := "", resolution := "")]
  }

  function FirstOf(rates: map<UnitKey, int>, keys: seq<UnitKey>): Option<int> {
    if keys == [] then None
    else if keys[0] in rates then Some(rates[keys[0]])
    else FirstOf(rates, keys[1..])
  }

  function Lookup(t: UnitPriceTable, k: UnitKey): Option<int> {
    if t.billingFree then Some(0) else FirstOf(t.rates, Chain(k))
  }

  /** A row applies to a request: same unit and tier, and every axis it names agrees. */
  predicate Applies(row: UnitKey, k: UnitKey) {
    && row.unit == k.unit && row.tier == k.Normalized().tier
    && (row.resolution == "" || row.resolution == k.resolution)
    && (row.audio == "" || row.audio == k.audio)
    && (row.variant == "" || row.variant == k.variant)
  }

  /** The axes a row leaves open are dropped in the one order the lookup drops them. */
  predicate Nested(row: UnitKey, k: UnitKey) {
    && (row.resolution == k.resolution || (row.audio == "" && row.variant == ""))
    && (row.audio == k.audio || row.variant == "")
  }

  /** Which rows a request can reach: those that apply to it and are nested in it. */
  lemma ReachableIff(row: UnitKey, k: UnitKey)
    ensures row in Chain(k) <==> Applies(row, k) && Nested(row, k)
  {
    var n := k.Normalized();
    if Applies(row, k) && Nested(row, k) {
      if row.resolution != k.resolution {
        assert row == Chain(k)[3];
      } else if row.audio != k.audio {
        assert row == Chain(k)[2];
      } else if row.variant != k.variant {
        assert row == Chain(k)[1];
      } else {
        assert row == Chain(k)[0];
      }
    }
  }

  /** A row that names an axis but no resolution applies to a request with a resolution, and is
      not found: applying is not enough. */
  lemma OpenResolutionIsMissed()
    ensures var row := UnitKey("second", "", "on", "", "standard");
            var request := UnitKey("second", "1080p", "on", "", "");
            Applies(row, request) && Lookup(UnitPriceTable(map[row := 5], false), request).None?
  {
    var row := UnitKey("second", "", "on", "", "standard");
    var request := UnitKey("second", "1080p", "on", "", "");
    ReachableIff(row, request);
    FirstOfMisses(map[row := 5], Chain(request));
  }

  lemma {:induction false} FirstOfMisses(rates: map<UnitKey, int>, keys: seq<UnitKey>)
    ensures FirstOf(rates, keys).None? <==> forall key | key in keys :: key !in rates
    ensures FirstOf(rates, keys).Some? ==>
              exists i :: 0 <= i < |keys| && keys[i] in rates && FirstOf(rates, keys).value == rates[keys[i]]
                          && forall j | 0 <= j < i :: keys[j] !in rates
  {
    if keys != [] && keys[0] !in rates {
      FirstOfMisses(rates, keys[1..]);
      assert forall key :: key in keys <==> key == keys[0] || key in keys[1..];
      if FirstOf(rates, keys).Some? {
        var i :| 0 <= i < |keys[1..]| && keys[1..][i] in rates && FirstOf(rates, keys).value == rates[keys[1..][i]]
                 && forall j | 0 <= j < i :: keys[1..][j] !in rates;
        assert keys[i + 1] == keys[1..][i];
        assert forall j | 1 <= j < i + 1 :: keys[j] == keys[1..][j - 1];
      }
    }
  }

  /** A hit is the rate of a row that applies to the request, and no more specific row of the
      chain exists; a miss means no row that applies and is nested exists. */
  lemma LookupMeetsSpec(t: UnitPriceTable, k: UnitKey)
    requires !t.billingFree
    ensures Lookup(t, k).None? <==> forall row | row in t.rates :: !(Applies(row, k) && Nested(row, k))
    ensures Lookup(t, k).Some? ==>
              exists row :: row in t.rates && Applies(row, k) && t.rates[row] == Lookup(t, k).value
                            && forall other | other in t.rates && Applies(other, k) && Nested(other, k) :: Applies(other, row)
  {
    FirstOfMisses(t.rates, Chain(k));
    forall row | row in t.rates ensures row in Chain(k) <==> Applies(row, k) && Nested(row, k) {
      ReachableIff(row, k);
    }
    if Lookup(t, k).Some? {
      var keys := Chain(k);
      var i :| 0 <= i < |keys| && keys[i] in t.rates && Lookup(t, k).value == t.rates[keys[i]]
               && forall j | 0 <= j < i :: keys[j] !in t.rates;
      ReachableIff(keys[i], k);
      forall other | other in t.rates && Applies(other, k) && Nested(other, k) ensures Applies(other, keys[i]) {
        assert other in keys;
        var j :| 0 <= j < |keys| && keys[j] == other;
        assert j >= i;
      }
    }
  }

  /*********************** Cost and quote ***********************/

  predicate ValidUnits(q: map<UnitKey, int>) {
    forall k | k in q :: q[k] >= 0 && k.unit in KnownUnits()
  }

  /** Every nonzero quantity has a rate. */
  predicate AllPriced(t: UnitPriceTable, q: map<UnitKey, int>) {
    forall k | k in q && q[k] != 0 :: Lookup(t, k).Some?
  }

  function Terms(t: UnitPriceTable, q: map<UnitKey, int>): map<UnitKey, real> {
    map k | k in q && q[k] != 0 && Lookup(t, k).Some? :: CallCost(q[k], Lookup(t, k).value)
  }

  /** The exact cost of a job. */
  ghost function UnitTotal(t: UnitPriceTable, q: map<UnitKey, int>): real {
    SumOf(Terms(t, q))
  }

  /** Sums in whatever order the map yields its keys: one value, or a refusal exactly when some
      nonzero quantity has no rate. */
  method UnitCost(t: UnitPriceTable, q: map<UnitKey, int>) returns (res: Result<real, UnitRefusal>)
    ensures res == if AllPriced(t, q) then Ok(UnitTotal(t, q)) else Err(UnitPriceMissing)
  {
    var total := 0.0;
    var todo := q.Keys;
    ghost var terms: map<UnitKey, real> := map[];
    while todo != {}
      invariant todo <= q.Keys
      invariant forall k :: k in terms <==> k in q && k !in todo && q[k] != 0
      invariant forall k | k in terms :: Lookup(t, k).Some? && terms[k] == CallCost(q[k], Lookup(t, k).value)
      invariant total == SumOf(terms)
      decreases |todo|
    {
      var k :| k in todo;
      if q[k] != 0 {
        var rate := Lookup(t, k);
        if rate.None? {
          return Err(UnitPriceMissing);
        }
        total := total + CallCost(q[k], rate.value);
        SumInsert(terms, k, CallCost(q[k], rate.value));
        terms := terms[k := CallCost(q[k], rate.value)];
      }
      todo := todo - {k};
    }
    assert terms == Terms(t, q);
    return Ok(total);
  }

  ghost function BillUnits(list: UnitPriceTable, cost: UnitPriceTable, q: map<UnitKey, int>, r: Rates): Result<Quote, UnitRefusal> {
    if !ValidUnits(q) then Err(BadUnits)
    else if Normalize(r).Err? then Err(Billing(Normalize(r).error))
    else if !UsableFx(r.fx) then Err(Billing(BadFx))
    else if !AllPriced(cost, q) || !AllPriced(list, q) then Err(UnitPriceMissing)
    else
      var n := Normalize(r).value;
      match QuoteFrom(ProcuredAmount(UnitTotal(cost, q), n), UnitTotal(list, q), n)
      case Ok(quote) => Ok(quote)
      case Err(refusal) => Err(Billing(refusal))
  }

  method ComputeUnits(list: UnitPriceTable, cost: UnitPriceTable, q: map<UnitKey, int>, r: Rates)
    returns (res: Result<Quote, UnitRefusal>)
    ensures res == BillUnits(list, cost, q, r)
  {
    if !ValidUnits(q) {
      return Err(BadUnits);
    }
    var n := Normalize(r);
    if n.Err? {
      return Err(Billing(n.error));
    }
    if !UsableFx(n.value.fx) {
      return Err(Billing(BadFx));
    }
    var upstream := UnitCost(cost, q);
    if upstream.Err? {
      return Err(upstream.error);
    }
    var charged := UnitCost(list, q);
    if charged.Err? {
      return Err(charged.error);
    }
    match QuoteFrom(ProcuredAmount(upstream.value, n.value), charged.value, n.value)
    case Ok(quote) => return Ok(quote);
    case Err(refusal) => return Err(Billing(refusal));
  }

  /** Free means the customer pays nothing while the cost side is billed as if it were not: the
      quote exists only when every nonzero quantity is priced in the cost table, and its cost is
      that table's. */
  lemma FreeFailsClosed(list: UnitPriceTable, cost: UnitPriceTable, q: map<UnitKey, int>, r: Rates)
    requires !cost.billingFree
    ensures var bill := BillUnits(ForBilling(list, true), cost, q, r);
            && (bill.Ok? ==> bill.value.chargedNano == 0 && AllPriced(cost, q)
                             && bill.value.upstreamNano == Ceil(ProcuredAmount(UnitTotal(cost, q), Normalize(r).value)))
            && ((exists k :: k in q && q[k] != 0 && forall row | row in cost.rates :: !(Applies(row, k) && Nested(row, k)))
                ==> bill.Err?)
  {
    var free := ForBilling(list, true);
    assert forall k :: Lookup(free, k) == Some(0);
    SumOfZeros(Terms(free, q));
    if BillUnits(free, cost, q, r).Ok? {
      ZeroCharge(Normalize(r).value);
    }
    forall k | k in q && q[k] != 0 && forall row | row in cost.rates :: !(Applies(row, k) && Nested(row, k))
      ensures Lookup(cost, k).None?
    {
      LookupMeetsSpec(cost, k);
    }
  }

  lemma ZeroCharge(n: Rates)
    requires n.fx.Parsed?
    ensures ChargedAmount(0.0, n) == 0.0
  {
  }

  /*********************** The organization's own credential ***********************/

  /** A job on the organization's own upstream account pays a service fee and records no cost. */
  ghost function BillUnitsByok(list: UnitPriceTable, q: map<UnitKey, int>, feeBps: int, r: Rates): Result<Quote, UnitRefusal> {
    var m := r.(modelBps := NO_DISCOUNT_BPS);
    if !ValidUnits(q) then Err(BadUnits)
    else if feeBps < 0 then Err(Billing(NegativeFee))
    else if Normalize(m).Err? then Err(Billing(Normalize(m).error))
    else if !UsableFx(r.fx) then Err(Billing(BadFx))
    else if !AllPriced(list, q) then Err(UnitPriceMissing)
    else
      var n := Normalize(m).value;
      match CeilToInt64(ChargedAmount(UnitTotal(list, q), n.(modelBps := feeBps)))
      case Err(_) => Err(Billing(ChargeOverflow))
      case Ok(c) => Ok(Quote(0, c, NO_DISCOUNT_BPS, n.planBps, NO_DISCOUNT_BPS, n.fx))
  }

  method ComputeUnitsByok(list: UnitPriceTable, q: map<UnitKey, int>, feeBps: int, r: Rates)
    returns (res: Result<Quote, UnitRefusal>)
    ensures res == BillUnitsByok(list, q, feeBps, r)
  {
    if !ValidUnits(q) {
      return Err(BadUnits);
    }
    if feeBps < 0 {
      return Err(Billing(NegativeFee));
    }
    var n := Normalize(r.(modelBps := NO_DISCOUNT_BPS));
    if n.Err? {
      return Err(Billing(n.error));
    }
    if !UsableFx(n.value.fx) {
      return Err(Billing(BadFx));
    }
    var total := UnitCost(list, q);
    if total.Err? {
      return Err(total.error);
    }
    var charged := Times(total.value, Bps(feeBps));
    charged := Times(charged, Bps(n.value.planBps));
    charged := Times(charged, n.value.fx.value);
    match CeilToInt64(charged)
    case Err(_) => return Err(Billing(ChargeOverflow));
    case Ok(c) => return Ok(Quote(0, c, NO_DISCOUNT_BPS, n.value.planBps, NO_DISCOUNT_BPS, n.value.fx));
  }

  /** At a fee equal to the model multiplier both credentials pay the same, and only the platform's
      records a cost. */
  lemma UnitsByokMatchesPlatform(list: UnitPriceTable, cost: UnitPriceTable, q: map<UnitKey, int>, r: Rates)
    requires BillUnits(list, cost, q, r).Ok?
    ensures var fee := Normalize(r).value.modelBps;
            && BillUnitsByok(list, q, fee, r).Ok?
            && BillUnitsByok(list, q, fee, r).value.chargedNano == BillUnits(list, cost, q, r).value.chargedNano
            && BillUnitsByok(list, q, fee, r).value.upstreamNano == 0
  {
    var n, m := Normalize(r).value, Normalize(r.(modelBps := NO_DISCOUNT_BPS)).value;
    assert m.(modelBps := n.modelBps) == n.(procurementBps := m.procurementBps);
  }

  /*********************** What a job costs ***********************/

  /** A job's cost is decided entry by entry: nothing without entries, and one more entry adds its
      quantity times its rate. */
  lemma UnitsAddUp(t: UnitPriceTable, q: map<UnitKey, int>, k: UnitKey, n: int, rate: int)
    requires k !in q && Lookup(t, k) == Some(rate)
    ensures UnitTotal(t, map[]) == 0.0
    ensures UnitTotal(t, q[k := n]) == UnitTotal(t, q) + (n * rate) as real
  {
    assert Terms(t, map[]) == map[];
    if n != 0 {
      SumInsert(Terms(t, q), k, (n * rate) as real);
      assert Terms(t, q[k := n]) == Terms(t, q)[k := (n * rate) as real];
    } else {
      assert Terms(t, q[k := n]) == Terms(t, q);
    }
  }

  /** Which jobs are refused, and with what, in the order of the checks. */
  lemma RefusedIff(list: UnitPriceTable, cost: UnitPriceTable, q: map<UnitKey, int>, r: Rates)
    ensures var bill := BillUnits(list, cost, q, r);
            var badUnits := exists k :: k in q && (q[k] < 0 || (k.unit != "second" && k.unit != "call" && k.unit != "image"));
            var badRates :=
              r.modelBps < 0 || r.modelBps > 100000 || r.planBps < 0 || r.planBps > 100000
              || r.procurementBps < 0 || r.procurementBps > 100000 || r.fx == NotConfigured;
            var badFx := r.fx == Malformed || (r.fx.Parsed? && r.fx.value <= 0.0);
            var unpriced := exists k :: k in q && q[k] != 0 && (Lookup(list, k).None? || Lookup(cost, k).None?);
            && (bill == Err(BadUnits) <==> badUnits)
            && (bill == Err(Billing(BadRates)) <==> !badUnits && badRates)
            && (bill == Err(Billing(BadFx)) <==> !badUnits && !badRates && badFx)
            && (bill == Err(UnitPriceMissing) <==> !badUnits && !badRates && !badFx && unpriced)
  {
    assert forall unit: string :: unit in KnownUnits() <==> unit == "second" || unit == "call" || unit == "image";
  }

  /** What the service fee of a job is refused for: a negative fee, once the quantities are sound;
      otherwise just what the same job on the platform's credential is refused for, whatever its model
      multiplier. */
  lemma ByokRefusedIff(list: UnitPriceTable, q: map<UnitKey, int>, feeBps: int, r: Rates)
    ensures var byok, bill := BillUnitsByok(list, q, feeBps, r), BillUnits(list, list, q, r.(modelBps := 0));
            && (byok == Err(BadUnits) <==> bill == Err(BadUnits))
            && (byok == Err(Billing(NegativeFee)) <==> bill != Err(BadUnits) && feeBps < 0)
            && (feeBps >= 0 ==> (byok == Err(Billing(BadRates)) <==> bill == Err(Billing(BadRates))))
            && (feeBps >= 0 ==> (byok == Err(Billing(BadFx)) <==> bill == Err(Billing(BadFx))))
            && (feeBps >= 0 ==> (byok == Err(UnitPriceMissing) <==> bill == Err(UnitPriceMissing)))
  {
  }

  /** The amounts of a job's quote, and the factors it records, where a zero multiplier stands for
      10000. */
  lemma QuoteAmounts(list: UnitPriceTable, cost: UnitPriceTable, q: map<UnitKey, int>, r: Rates)
    requires BillUnits(list, cost, q, r).Ok?
    ensures var quote := BillUnits(list, cost, q, r).value;
            && quote.fx == r.fx && quote.fx.Parsed?
            && ChargedAs(quote.chargedNano, UnitTotal(list, q), quote.modelBps, quote.planBps, quote.fx.value)
            && ProcuredAs(quote.upstreamNano, UnitTotal(cost, q), quote.procurementBps)
            && quote.modelBps == (if r.modelBps == 0 then 10000 else r.modelBps)
            && quote.planBps == (if r.planBps == 0 then 10000 else r.planBps)
            && quote.procurementBps == (if r.procurementBps == 0 then 10000 else r.procurementBps)
  {
    FactorsInForce(r);
    QuoteFromAmounts(UnitTotal(cost, q), UnitTotal(list, q), Normalize(r).value);
  }

  /** The amounts of a job's service fee: a fee of zero charges nothing. */
  lemma ByokAmounts(list: UnitPriceTable, q: map<UnitKey, int>, feeBps: int, r: Rates)
    requires BillUnitsByok(list, q, feeBps, r).Ok?
    ensures var quote := BillUnitsByok(list, q, feeBps, r).value;
            && quote.fx == r.fx && quote.fx.Parsed? && feeBps >= 0
            && ChargedAs(quote.chargedNano, UnitTotal(list, q), feeBps, quote.planBps, quote.fx.value)
            && (feeBps == 0 ==> quote.chargedNano == 0)
            && quote.upstreamNano == 0 && quote.modelBps == 10000 && quote.procurementBps == 10000
            && quote.planBps == (if r.planBps == 0 then 10000 else r.planBps)
  {
    var m := r.(modelBps := NO_DISCOUNT_BPS);
    FactorsInForce(m);
    FeeAmounts(UnitTotal(list, q), feeBps, Normalize(m).value);
  }

  lemma ParQuote(list: UnitPriceTable, cost: UnitPriceTable, q: map<UnitKey, int>)
    ensures var bill := BillUnits(list, cost, q, Rates(10000, 10000, 10000, Parsed(1.0)));
            bill.Ok? ==> bill.value.chargedNano == Ceil(UnitTotal(list, q)) && bill.value.upstreamNano == Ceil(UnitTotal(cost, q))
  {
    AtPar(UnitTotal(list, q));
    AtPar(UnitTotal(cost, q));
  }

  /** At par rates an empty job costs nothing, and one more entry moves the charge and the cost by its
      quantity times its rates. */
  lemma EntriesBilled(list: UnitPriceTable, cost: UnitPriceTable, q: map<UnitKey, int>, k: UnitKey, n: int, c: int, d: int)
    requires k !in q && Lookup(list, k) == Some(c) && Lookup(cost, k) == Some(d)
    ensures var r := Rates(10000, 10000, 10000, Parsed(1.0));
            var none, a, b := BillUnits(list, cost, map[], r), BillUnits(list, cost, q, r), BillUnits(list, cost, q[k := n], r);
            && (none.Ok? ==> none.value.chargedNano == 0 == none.value.upstreamNano)
            && (a.Ok? && b.Ok? ==> b.value.chargedNano == a.value.chargedNano + n * c && b.value.upstreamNano == a.value.upstreamNano + n * d)
  {
    UnitsAddUp(list, q, k, n, c);
    UnitsAddUp(cost, q, k, n, d);
    ParQuote(list, cost, map[]);
    ParQuote(list, cost, q);
    ParQuote(list, cost, q[k := n]);
    CeilShift(UnitTotal(list, q), n * c);
    CeilShift(UnitTotal(cost, q), n * d);
  }

  /** A job of one entry is billed its quantity times its rate: ten seconds at a rate, ten times it. */
  lemma OneEntryBilled(list: UnitPriceTable, cost: UnitPriceTable, k: UnitKey, n: int, c: int, d: int)
    requires Lookup(list, k) == Some(c) && Lookup(cost, k) == Some(d)
    requires n >= 0 && k.unit in {"second", "call", "image"} && IsInt64(n * c) && IsInt64(n * d)
    ensures BillUnits(list, cost, map[k := n], Rates(0, 0, 0, Parsed(1.0))) == Ok(Quote(n * d, n * c, 10000, 10000, 10000, Parsed(1.0)))
  {
    OneEntryCosts(list, k, n, c);
    OneEntryCosts(cost, k, n, d);
    OneEntryIsQuoted(list, cost, k, n, n * c, n * d);
  }

  lemma OneEntryCosts(t: UnitPriceTable, k: UnitKey, n: int, rate: int)
    requires Lookup(t, k) == Some(rate)
    ensures AllPriced(t, map[k := n]) && UnitTotal(t, map[k := n]) == (n * rate) as real
  {
    UnitsAddUp(t, map[], k, n, rate);
  }

  lemma OneEntryIsQuoted(list: UnitPriceTable, cost: UnitPriceTable, k: UnitKey, n: int, charged: int, procured: int)
    requires n >= 0 && k.unit in {"second", "call", "image"} && IsInt64(charged) && IsInt64(procured)
    requires AllPriced(list, map[k := n]) && UnitTotal(list, map[k := n]) == charged as real
    requires AllPriced(cost, map[k := n]) && UnitTotal(cost, map[k := n]) == procured as real
    ensures BillUnits(list, cost, map[k := n], Rates(0, 0, 0, Parsed(1.0)))
            == Ok(Quote(procured, charged, 10000, 10000, 10000, Parsed(1.0)))
  {
    AtPar(charged as real);
    AtPar(procured as real);
    QuoteAtPar(procured, charged, Rates(10000, 10000, 10000, Parsed(1.0)));
  }
}
