/**
 * The bid arithmetic of sem_analysis.py: the global target CPC (`calculate_target_cpc`), the
 * competition tiers of the search campaign, the per-keyword shopping bid, and the in-place
 * sort of the shopping list. Amounts are exact reals.
 */
module Bids {
  import opened Wrappers
  import opened Numbers
  import opened Keywords
  import opened Segmentation

  /** `keywords_data['search_volume'].sum()` */
  function TotalVolume(rows: seq<KeywordRow>): int {
    if rows == [] then 0 else TotalVolume(rows[..|rows| - 1]) + rows[|rows| - 1].searchVolume
  }

  /** `config.get('assumptions') or {}`: a missing or null entry reads as an empty mapping. */
  function AssumptionsOrEmpty(entry: AssumptionsEntry): Assumptions {
    match entry
    case Given(a) => a
    case _ => Assumptions(Unset, Unset, Unset)
  }

  /** The required keys that are absent, in the order `ctr`, `conversion_rate`. */
  function MissingKeys(a: Assumptions): (keys: seq<string>)
    ensures "ctr" in keys <==> a.ctr.Unset?
    ensures "conversion_rate" in keys <==> a.conversionRate.Unset?
    ensures |keys| <= 2 && (|keys| == 2 ==> keys[0] == "ctr")
  {
    (if a.ctr.Unset? then ["ctr"] else []) + (if a.conversionRate.Unset? then ["conversion_rate"] else [])
  }

  /**
   * The entries `calculate_target_cpc` converts with `float` whose value is null, in the order
   * it converts them; the first one raises.
   */
  function NullKeys(config: Config): (keys: seq<string>)
    ensures var a := AssumptionsOrEmpty(config.assumptions);
      ("search_ads_budget" in keys <==> config.searchAdsBudget.Null?)
      && ("ctr" in keys <==> a.ctr.Null?)
      && ("conversion_rate" in keys <==> a.conversionRate.Null?)
      && ("max_cpc_cap" in keys <==> a.maxCpcCap.Null?)
    ensures config.searchAdsBudget.Null? ==> keys[0] == "search_ads_budget"
  {
    var a := AssumptionsOrEmpty(config.assumptions);
    (if config.searchAdsBudget.Null? then ["search_ads_budget"] else [])
    + (if a.ctr.Null? then ["ctr"] else [])
    + (if a.conversionRate.Null? then ["conversion_rate"] else [])
    + (if a.maxCpcCap.Null? then ["max_cpc_cap"] else [])
  }

  /** Python's `min(x, y)`: `x` unless `y` is smaller. */
  function Min(x: real, y: real): (m: real)
    ensures m <= x && m <= y && (m == x || m == y)
  {
    if y < x then y else x
  }

  /**
   * `min(target_cpc, cap_cpc)` where the cap may be NaN (`None`): a NaN is never smaller,
   * so `min` keeps the target.
   */
  function Capped(x: real, cap: Option<real>): (m: real)
    ensures cap.Some? ==> m == Min(x, cap.value)
    ensures cap.None? ==> m == x
  {
    if cap.Some? && cap.value < x then cap.value else x
  }

  lemma CappedMonotone(x: real, y: real, cap: Option<real>)
    requires x <= y
    ensures Capped(x, cap) <= Capped(y, cap)
  {
  }

  /**
   * `float(assumptions.get('max_cpc_cap', avg_bid_series.median()))`: the configured cap, or
   * the median average bid (NaN, here `None`, for an empty table); a null cap raises.
   */
  function CapCpc(a: Assumptions, rows: seq<KeywordRow>): (r: Result<Option<real>, Error>)
    ensures r.Err? <==> a.maxCpcCap.Null?
    ensures a.maxCpcCap.Number? ==> r == Ok(Some(a.maxCpcCap.value))
    ensures a.maxCpcCap.Unset? ==> (r.value.None? <==> rows == [])
    ensures a.maxCpcCap.Unset? && r.value.Some? ==>
      (exists i | 0 <= i < |rows| :: AvgBid(rows[i]) <= r.value.value)
      && (exists j | 0 <= j < |rows| :: r.value.value <= AvgBid(rows[j]))
  {
    match a.maxCpcCap
    case Number(v) => Ok(Some(v))
    case Null => Err(NotANumber("max_cpc_cap"))
    case Unset => Ok(Quantile(AvgBids(rows), 0.5))
  }

  /** `float(config.get('search_ads_budget', 0))`: an absent budget is 0 and a null one raises. */
  function SearchBudget(config: Config): (r: Result<real, Error>)
    ensures r.Err? <==> config.searchAdsBudget.Null?
    ensures config.searchAdsBudget.Unset? ==> r == Ok(0.0)
    ensures config.searchAdsBudget.Number? ==> r == Ok(config.searchAdsBudget.value)
  {
    match config.searchAdsBudget
    case Unset => Ok(0.0)
    case Null => Err(NotANumber("search_ads_budget"))
    case Number(v) => Ok(v)
  }

  /** `total_volume * ctr` */
  function ExpectedClicks(a: Assumptions, rows: seq<KeywordRow>): real
    requires a.ctr.Number?
  {
    TotalVolume(rows) as real * a.ctr.value
  }

  lemma DivMulCancel(b: real, x: real, r: real)
    requires x * r != 0.0
    ensures (b / (x * r)) * r == b / x
  {
    assert x != 0.0 && r != 0.0;
    assert (b / (x * r)) * r * x == b;
  }

  /**
   * `calculate_target_cpc`: the missing keys are reported first; then the first null value
   * raises; then a non-positive budget or non-positive expected conversions are an error;
   * otherwise the result is `min(budget / (total_volume * ctr), cap)`.
   */
  function TargetCpc(config: Config, rows: seq<KeywordRow>): (r: Result<real, Error>)
    ensures var a := AssumptionsOrEmpty(config.assumptions);
      MissingKeys(a) != [] ==> r == Err(MissingAssumptions(MissingKeys(a)))
    ensures MissingKeys(AssumptionsOrEmpty(config.assumptions)) == [] && NullKeys(config) != [] ==>
      r == Err(NotANumber(NullKeys(config)[0]))
    ensures var a := AssumptionsOrEmpty(config.assumptions);
      MissingKeys(a) == [] && NullKeys(config) == [] ==>
        (r.Ok? <==> SearchBudget(config).value > 0.0
                    && ExpectedClicks(a, rows) * a.conversionRate.value > 0.0)
    ensures r.Err? && MissingKeys(AssumptionsOrEmpty(config.assumptions)) == [] && NullKeys(config) == [] ==>
      r == Err(InsufficientData)
    ensures var a := AssumptionsOrEmpty(config.assumptions);
      r.Ok? ==>
        MissingKeys(a) == [] && NullKeys(config) == []
        && r.value == Capped(SearchBudget(config).value / ExpectedClicks(a, rows), CapCpc(a, rows).value)
  {
    var a := AssumptionsOrEmpty(config.assumptions);
    var missing := MissingKeys(a);
    if missing != [] then Err(MissingAssumptions(missing))
    else
      var nulls := NullKeys(config);
      if nulls != [] then Err(NotANumber(nulls[0]))
      else
      var budget := SearchBudget(config).value;
      var conversionRate := a.conversionRate.value;
      var cap := CapCpc(a, rows).value;
      var expectedClicks := ExpectedClicks(a, rows);
      var expectedConversions := expectedClicks * conversionRate;
      if expectedConversions <= 0.0 || budget <= 0.0 then Err(InsufficientData)
      else
        var targetCpa := budget / expectedConversions;
        DivMulCancel(budget, expectedClicks, conversionRate);
        assert targetCpa * conversionRate == budget / expectedClicks;
        var target := Capped(targetCpa * conversionRate, cap);
        assert target == Capped(budget / expectedClicks, cap);
        Ok(target)
  }

  lemma DivMonotone(x: real, y: real, c: real)
    requires x <= y && c > 0.0
    ensures x / c <= y / c
  {
    assert y / c - x / c == (y - x) / c;
    assert (y - x) / c * c == y - x;
  }

  lemma NonZeroFactor(v: real, x: real, y: real)
    requires v * x * y > 0.0
    ensures v != 0.0
  {
  }

  /** Whenever a target is computed, the cap exists and the target does not exceed it. */
  lemma TargetCpcBelowCap(config: Config, rows: seq<KeywordRow>)
    requires TargetCpc(config, rows).Ok?
    ensures CapCpc(AssumptionsOrEmpty(config.assumptions), rows).Ok?
    ensures CapCpc(AssumptionsOrEmpty(config.assumptions), rows).value.Some?
    ensures TargetCpc(config, rows).value <= CapCpc(AssumptionsOrEmpty(config.assumptions), rows).value.value
  {
    var a := AssumptionsOrEmpty(config.assumptions);
    NonZeroFactor(TotalVolume(rows) as real, a.ctr.value, a.conversionRate.value);
    assert rows != [] by {
      assert TotalVolume(rows) != 0;
    }
  }

  /** With the same table and assumptions, a larger search budget never lowers the target. */
  lemma TargetCpcMonotone(c1: Config, c2: Config, rows: seq<KeywordRow>)
    requires c1.assumptions == c2.assumptions
    requires TargetCpc(c1, rows).Ok?
    requires SearchBudget(c1).Ok? && SearchBudget(c2).Ok? && SearchBudget(c1).value <= SearchBudget(c2).value
    requires ExpectedClicks(AssumptionsOrEmpty(c1.assumptions), rows) > 0.0
    ensures TargetCpc(c2, rows).Ok?
    ensures TargetCpc(c1, rows).value <= TargetCpc(c2, rows).value
  {
    var a := AssumptionsOrEmpty(c1.assumptions);
    var clicks := ExpectedClicks(a, rows);
    var b1, b2 := SearchBudget(c1).value, SearchBudget(c2).value;
    assert NullKeys(c2) == [];
    assert TargetCpc(c2, rows).Ok?;
    DivMonotone(b1, b2, clicks);
    CappedMonotone(b1 / clicks, b2 / clicks, CapCpc(a, rows).value);
  }

  /**
   * `search_suggested_cpc`: the competition tier applied to the average bid and the target.
   * Each tier stays within both of its caps, and equals one of them.
   */
  function SearchCpc(competition: string, avgBid: real, target: real): (c: real)
    ensures var (fa, ft) := if competition == "High" then (1.2, 1.5) else if competition == "Medium" then (1.0, 1.0) else (0.8, 0.8);
      c <= avgBid * fa && c <= target * ft && (c == avgBid * fa || c == target * ft)
  {
    if competition == "High" then Min(avgBid * 1.2, target * 1.5)
    else if competition == "Medium" then Min(avgBid * 1.0, target)
    else Min(avgBid * 0.8, target * 0.8)
  }

  /** Every tier other than High and Medium is the Medium bid scaled by 0.8. */
  lemma LowIsScaledMedium(competition: string, avgBid: real, target: real)
    requires competition != "High" && competition != "Medium"
    ensures SearchCpc(competition, avgBid, target) == 0.8 * SearchCpc("Medium", avgBid, target)
  {
  }

  /** For non-negative amounts the tiers are ordered: High, then Medium, then the rest. */
  lemma SearchTiersOrdered(avgBid: real, target: real, other: string)
    requires avgBid >= 0.0 && target >= 0.0
    requires other != "High" && other != "Medium"
    ensures SearchCpc(other, avgBid, target) <= SearchCpc("Medium", avgBid, target) <= SearchCpc("High", avgBid, target)
  {
  }

  /** A higher target never lowers a search bid. */
  lemma SearchCpcMonotone(competition: string, avgBid: real, t1: real, t2: real)
    requires t1 <= t2
    ensures SearchCpc(competition, avgBid, t1) <= SearchCpc(competition, avgBid, t2)
  {
  }

  /** The example of one Medium keyword of volume 1000 and bids 1.0 to 3.0: target 2.0, bid 2.0. */
  lemma TargetCpcExample(keyword: string, source: string)
    ensures var row := KeywordRow(keyword, 1000, 1.0, 3.0, "Medium", source, None);
      var config := Config(Number(100.0), Unset, Given(Assumptions(Number(0.05), Number(0.02), Unset)));
      TargetCpc(config, [row]) == Ok(2.0) && SearchCpc("Medium", AvgBid(row), 2.0) == 2.0
  {
    var row := KeywordRow(keyword, 1000, 1.0, 3.0, "Medium", source, None);
    var a := Assumptions(Number(0.05), Number(0.02), Unset);
    var config := Config(Number(100.0), Unset, Given(a));
    assert AssumptionsOrEmpty(config.assumptions) == a;
    assert MissingKeys(a) == [] && NullKeys(config) == [];
    assert [row][..0] == [];
    assert TotalVolume([row]) == 1000;
    assert ExpectedClicks(a, [row]) == 50.0;
    assert AvgBids([row]) == [2.0];
    QuantileSingleton(2.0, 0.5);
    assert CapCpc(a, [row]) == Ok(Some(2.0));
    assert TargetCpc(config, [row]).Ok?;
  }

  /**
   * Without `conversion_rate` the target is an error naming exactly that key, whatever the
   * other entries hold, null values included.
   */
  lemma MissingConversionRate(config: Config, rows: seq<KeywordRow>, ctr: Setting, cap: Setting)
    requires !ctr.Unset? && config.assumptions == Given(Assumptions(ctr, Unset, cap))
    ensures TargetCpc(config, rows) == Err(MissingAssumptions(["conversion_rate"]))
  {
    var a := Assumptions(ctr, Unset, cap);
    assert AssumptionsOrEmpty(config.assumptions) == a;
    assert [] + ["conversion_rate"] == ["conversion_rate"];
    assert MissingKeys(a) == ["conversion_rate"];
  }

  /**
   * A null `max_cpc_cap` is passed to `float` rather than replaced by the median: the target
   * is an error naming that key, even though the other entries are usable numbers.
   */
  lemma NullCapRaises(config: Config, rows: seq<KeywordRow>, ctr: real, conversionRate: real)
    requires !config.searchAdsBudget.Null?
    requires config.assumptions == Given(Assumptions(Number(ctr), Number(conversionRate), Null))
    ensures TargetCpc(config, rows) == Err(NotANumber("max_cpc_cap"))
  {
    assert NullKeys(config) == ["max_cpc_cap"];
  }

  /** One entry of the shopping list. */
  datatype ShoppingBid = ShoppingBid(
    keyword: string,
    searchVolume: int,
    avgBid: real,
    suggestedCpc: real,
    competition: string,
    targetCpa: real)

  /**
   * The shopping tiers: High `min(1.3 t, 1.5 avg)`, Medium `min(1.1 t, 1.2 avg)`, else
   * `min(0.9 t, 0.8 avg)`. Each tier stays within both of its caps, and equals one of them.
   */
  function ShoppingCpc(competition: string, target: real, avgBid: real): (c: real)
    ensures var (ft, fa) := if competition == "High" then (1.3, 1.5) else if competition == "Medium" then (1.1, 1.2) else (0.9, 0.8);
      c <= target * ft && c <= avgBid * fa && (c == target * ft || c == avgBid * fa)
  {
    if competition == "High" then Min(target * 1.3, avgBid * 1.5)
    else if competition == "Medium" then Min(target * 1.1, avgBid * 1.2)
    else Min(target * 0.9, avgBid * 0.8)
  }

  /** `search_volume * 0.01 * conversion_rate` */
  function ExpectedConversions(row: KeywordRow, conversionRate: real): real {
    row.searchVolume as real * 0.01 * conversionRate
  }

  /** The shopping `target_cpc`: from the keyword's share of the budget, or the average bid. */
  function ShoppingTarget(row: KeywordRow, budgetPerKeyword: real, conversionRate: real): real {
    var expectedConversions := ExpectedConversions(row, conversionRate);
    if expectedConversions > 0.0 then (budgetPerKeyword / expectedConversions) * conversionRate
    else AvgBid(row)
  }

  /** Python's `max(x, y)`: `x` unless `y` is larger. */
  function Max(x: real, y: real): (m: real)
    ensures m >= x && m >= y && (m == x || m == y)
  {
    if y > x then y else x
  }

  /**
   * The dictionary appended for one keyword: its keyword, volume and competition, and the
   * average bid, suggested CPC and target CPA each rounded to the cent. The target CPA is the
   * keyword's budget over its expected conversions, counted as at least one, so it never
   * exceeds the keyword's budget by more than the rounding.
   */
  function ShoppingBidFor(row: KeywordRow, budgetPerKeyword: real, conversionRate: real): (b: ShoppingBid)
    ensures b.keyword == row.keyword && b.searchVolume == row.searchVolume && b.competition == row.competition
    ensures -0.005 <= b.avgBid - AvgBid(row) <= 0.005
    ensures var c := ShoppingCpc(row.competition, ShoppingTarget(row, budgetPerKeyword, conversionRate), AvgBid(row));
      -0.005 <= b.suggestedCpc - c <= 0.005
    ensures -0.005 <= b.targetCpa - budgetPerKeyword / Max(ExpectedConversions(row, conversionRate), 1.0) <= 0.005
    ensures budgetPerKeyword >= 0.0 ==> -0.005 <= b.targetCpa <= budgetPerKeyword + 0.005
  {
    DivAtLeastOne(budgetPerKeyword, Max(ExpectedConversions(row, conversionRate), 1.0));
    var avg := AvgBid(row);
    var target := ShoppingTarget(row, budgetPerKeyword, conversionRate);
    ShoppingBid(
      row.keyword,
      row.searchVolume,
      Round2(avg),
      Round2(ShoppingCpc(row.competition, target, avg)),
      row.competition,
      Round2(budgetPerKeyword / Max(ExpectedConversions(row, conversionRate), 1.0)))
  }

  /**
   * When conversions are expected, the conversion rate cancels: the target is the keyword's
   * budget over its expected clicks. Otherwise it is the average bid.
   */
  lemma ShoppingTargetValue(row: KeywordRow, budgetPerKeyword: real, conversionRate: real)
    ensures var clicks := row.searchVolume as real * 0.01;
      ShoppingTarget(row, budgetPerKeyword, conversionRate)
      == if ExpectedConversions(row, conversionRate) > 0.0 then budgetPerKeyword / clicks else AvgBid(row)
  {
    var clicks := row.searchVolume as real * 0.01;
    if ExpectedConversions(row, conversionRate) > 0.0 {
      DivMulCancel(budgetPerKeyword, clicks, conversionRate);
    }
  }

  /** Dividing a non-negative amount by at least one gives at most the amount. */
  lemma DivAtLeastOne(x: real, d: real)
    requires d >= 1.0
    ensures x >= 0.0 ==> 0.0 <= x / d <= x
  {
    if x >= 0.0 {
      assert x / d * d == x;
    }
  }

  /** `shopping_budget / max(len(product_keywords), 1)` */
  function BudgetPerKeyword(budget: real, count: nat): real {
    budget / (if count > 1 then count else 1) as real
  }

  /** The shopping list before sorting: one entry per row, in table order. */
  function ShoppingBidsOf(rows: seq<KeywordRow>, budget: real, conversionRate: real): (bids: seq<ShoppingBid>)
    ensures |bids| == |rows|
    ensures forall i :: 0 <= i < |rows| ==>
      bids[i] == ShoppingBidFor(rows[i], BudgetPerKeyword(budget, |rows|), conversionRate)
  {
    seq(|rows|, i requires 0 <= i < |rows| => ShoppingBidFor(rows[i], BudgetPerKeyword(budget, |rows|), conversionRate))
  }

  /** Non-increasing by suggested CPC. */
  predicate SortedByCpc(bids: seq<ShoppingBid>) {
    forall i, j :: 0 <= i < j < |bids| ==> bids[i].suggestedCpc >= bids[j].suggestedCpc
  }

  /**
   * `shopping_bids.sort(key=lambda x: x['suggested_cpc'], reverse=True)`, in place: an
   * insertion sort that moves an entry left past entries of strictly smaller CPC only.
   */
  method SortByCpcDescending(a: array<ShoppingBid>)
    modifies a
    ensures SortedByCpc(a[..])
    ensures multiset(a[..]) == multiset(old(a[..]))
  {
    var i := 0;
    while i < a.Length
      invariant i <= a.Length
      invariant SortedByCpc(a[..i])
      invariant multiset(a[..]) == multiset(old(a[..]))
    {
      InsertLeft(a, i);
      i := i + 1;
    }
    assert a[..a.Length] == a[..];
  }

  /** One pass of the insertion sort: entry `i` moves left into the sorted prefix before it. */
  method InsertLeft(a: array<ShoppingBid>, i: nat)
    requires i < a.Length && SortedByCpc(a[..i])
    modifies a
    ensures SortedByCpc(a[..i + 1])
    ensures multiset(a[..]) == multiset(old(a[..]))
  {
    var j := i;
    while j > 0 && a[j - 1].suggestedCpc < a[j].suggestedCpc
      invariant 0 <= j <= i
      invariant forall p, q :: 0 <= p < q <= i && p != j && q != j ==> a[p].suggestedCpc >= a[q].suggestedCpc
      invariant forall q :: j < q <= i ==> a[j].suggestedCpc > a[q].suggestedCpc
      invariant multiset(a[..]) == multiset(old(a[..]))
    {
      Swap(a, j);
      j := j - 1;
    }
  }

  /** Exchanges entries `j - 1` and `j`. */
  method Swap(a: array<ShoppingBid>, j: nat)
    requires 0 < j < a.Length
    modifies a
    ensures a[..] == old(a[..])[j - 1 := old(a[j])][j := old(a[j - 1])]
    ensures multiset(a[..]) == multiset(old(a[..]))
  {
    a[j - 1], a[j] := a[j], a[j - 1];
  }
}
