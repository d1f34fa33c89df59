/**
 * The data the analysis works on: the keyword table, the configuration, and the
 * exceptions the analysis can raise.
 */
module Keywords {
  import opened Wrappers

  /**
   * One row of the keyword table: the columns the scraper writes, plus the `avg_bid`
   * column that `analyze_performance_indicators` adds (`None` until then).
   */
  datatype KeywordRow = KeywordRow(
    keyword: string,
    searchVolume: int,
    bidLow: real,
    bidHigh: real,
    competition: string,
    source: string,
    avgBid: Option<real>)

  /** `(top_of_page_bid_low + top_of_page_bid_high) / 2` */
  function AvgBid(row: KeywordRow): (avg: real)
    ensures row.bidLow <= row.bidHigh ==> row.bidLow <= avg <= row.bidHigh
    ensures avg - row.bidLow == row.bidHigh - avg
  {
    (row.bidLow + row.bidHigh) / 2.0
  }

  /** One numeric entry of the configuration: absent, present with a null value, or a number. */
  datatype Setting = Unset | Null | Number(value: real)

  /** The `assumptions` mapping of the configuration. */
  datatype Assumptions = Assumptions(ctr: Setting, conversionRate: Setting, maxCpcCap: Setting)

  /** The `assumptions` entry: missing, present with a null value, or a mapping. */
  datatype AssumptionsEntry = Absent | NullValue | Given(assumptions: Assumptions)

  /** The parts of the YAML configuration the analysis reads. */
  datatype Config = Config(
    searchAdsBudget: Setting,
    shoppingAdsBudget: Setting,
    assumptions: AssumptionsEntry)

  /** The exceptions the analysis raises. */
  datatype Error =
    | LlmFailed(message: string)         // the last error re-raised by the retry loop
    | NotIterable                        // iterating a JSON number, boolean or null
    | BadId                              // `int(item.get('id'))` raised
    | UnknownId(id: int)                 // `.loc[item_id]` found no such row
    | Unhashable                         // a non-empty list or object used as a group key
    | MissingAssumptions(keys: seq<string>)
    | InsufficientData
    | MissingConfigKey(key: string)      // `config['shopping_ads_budget']` raised KeyError
    | NullAssumptions                    // `.get` called on a null `assumptions` value
    | NotANumber(key: string)            // arithmetic or `float()` on the null value of `key`
}
