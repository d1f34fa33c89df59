/**
 * The `SEMAnalysis` class of sem_analysis.py: the keyword table it holds and updates, the
 * configuration it reads, and the four analysis steps, with the text-generation service
 * replaced by scripted replies.
 */
module Analysis {
  import opened Wrappers
  import opened Numbers
  import opened Keywords
  import opened Segmentation
  import opened Batching
  import opened JsonExtraction
  import opened LlmRetry
  import opened Classification
  import opened Bids

  /** The table after `keywords_data['avg_bid'] = (low + high) / 2`. */
  function WithAvgBid(rows: seq<KeywordRow>): (r: seq<KeywordRow>)
    ensures |r| == |rows|
    ensures forall i :: 0 <= i < |rows| ==> r[i] == rows[i].(avgBid := Some(AvgBid(rows[i])))
  {
    seq(|rows|, i requires 0 <= i < |rows| => rows[i].(avgBid := Some(AvgBid(rows[i]))))
  }

  /** The records of the table, `id` being the row's position. */
  function RecordsOf(rows: seq<KeywordRow>): (r: seq<Record>)
    ensures |r| == |rows| && forall i :: 0 <= i < |rows| ==> r[i] == RecordOf(i, rows[i])
  {
    seq(|rows|, i requires 0 <= i < |rows| => RecordOf(i, rows[i]))
  }

  /** The number of classification requests for a table of `n` rows. */
  function ChunkCount(rows: seq<KeywordRow>): nat {
    |Batch(RecordsOf(rows), ChunkSize)|
  }

  /** The retry count `_call_llm_json_array` is called with. */
  const Retries: nat := 2

  /** A script holds the replies to every attempt of every request. */
  predicate Scripted(replies: seq<seq<Reply>>, n: nat) {
    n <= |replies| && forall c :: 0 <= c < |replies| ==> |replies[c]| > Retries
  }

  /** What each of the first `n` array calls returns, request `c` being answered by `replies[c]`. */
  function Answers(outcome: Outcome, replies: seq<seq<Reply>>, n: nat): (r: seq<Result<Json, string>>)
    requires Scripted(replies, n)
    ensures |r| == n && forall c :: 0 <= c < n ==> r[c] == Retried(outcome, replies[c], Retries)
  {
    seq(n, c requires 0 <= c < n && Scripted(replies, n) => Retried(outcome, replies[c], Retries))
  }

  /**
   * The result of `create_ad_groups_with_llm` for the given answers: groups exactly when
   * every chunk succeeds, each named once and none empty.
   */
  function GroupsFor(data: seq<KeywordRow>, answers: seq<Result<Json, string>>): (r: Result<seq<Group>, Error>)
    ensures r.Ok? <==> forall c :: 0 <= c < |answers| ==> ChunkSucceeds(data, answers[c])
    ensures r.Ok? ==> DistinctNames(r.value) && forall i :: 0 <= i < |r.value| ==> r.value[i].rows != []
  {
    GroupsOf(ClassifyAll(data, answers))
  }

  /** The groups of some entries, or the error that stopped them. */
  function GroupsOf(entries: Result<seq<Entry>, Error>): Result<seq<Group>, Error> {
    match entries
    case Err(e) => Err(e)
    case Ok(es) => Ok(Grouped(es))
  }

  /** One keyword of the search campaign. */
  datatype SearchKeyword = SearchKeyword(
    keyword: string,
    searchVolume: int,
    matchType: string,
    suggestedCpc: real,
    competition: string,
    source: string,
    adGroup: Json,
    intent: Json,
    reasoning: Json)

  /**
   * The dictionary built for one grouped row. The rows are pandas Series, not dicts, so the
   * match type is always `''`; `.get` on the `llm_*` labels returns what was stored there.
   */
  function SearchKeywordOf(a: AnnotatedRow, target: real): (kw: SearchKeyword)
    ensures kw.keyword == a.row.keyword && kw.searchVolume == a.row.searchVolume
    ensures kw.competition == a.row.competition && kw.source == a.row.source
    ensures kw.matchType == ""
    ensures kw.adGroup == a.adGroup && kw.intent == a.intent && kw.reasoning == a.reasoning
    ensures -0.005 <= kw.suggestedCpc - SearchCpc(a.row.competition, AvgBid(a.row), target) <= 0.005
  {
    SearchKeyword(
      a.row.keyword,
      a.row.searchVolume,
      "",
      Round2(SearchCpc(a.row.competition, AvgBid(a.row), target)),
      a.row.competition,
      a.row.source,
      a.adGroup,
      a.intent,
      a.reasoning)
  }

  function KeywordsOf(rows: seq<AnnotatedRow>, target: real): (r: seq<SearchKeyword>)
    ensures |r| == |rows| && forall i :: 0 <= i < |rows| ==> r[i] == SearchKeywordOf(rows[i], target)
  {
    seq(|rows|, i requires 0 <= i < |rows| => SearchKeywordOf(rows[i], target))
  }

  /** One entry of `search_campaign`. */
  datatype CampaignGroup = CampaignGroup(name: Json, keywords: seq<SearchKeyword>)

  /** The campaign of the groups: empty groups are skipped, the others keep their order. */
  function CampaignOf(groups: seq<Group>, target: real): (r: seq<CampaignGroup>)
    ensures |r| <= |groups|
    ensures forall j :: 0 <= j < |r| ==> r[j].keywords != []
  {
    if groups == [] then []
    else
      var g := groups[|groups| - 1];
      CampaignOf(groups[..|groups| - 1], target)
        + (if g.rows == [] then [] else [CampaignGroup(g.name, KeywordsOf(g.rows, target))])
  }

  /** The result of `create_search_campaign_keywords`: ad groups first, then the target CPC. */
  function CampaignFor(data: seq<KeywordRow>, config: Config, answers: seq<Result<Json, string>>): (r: Result<seq<CampaignGroup>, Error>)
    ensures GroupsFor(data, answers).Err? ==> r == Err(GroupsFor(data, answers).error)
    ensures GroupsFor(data, answers).Ok? && TargetCpc(config, data).Err? ==> r == Err(TargetCpc(config, data).error)
    ensures r.Ok? <==> GroupsFor(data, answers).Ok? && TargetCpc(config, data).Ok?
    ensures r.Ok? ==> |r.value| == |GroupsFor(data, answers).value|
    ensures r.Ok? ==> forall g :: 0 <= g < |r.value| ==> r.value[g].name == GroupsFor(data, answers).value[g].name
  {
    match GroupsFor(data, answers)
    case Err(e) => Err(e)
    case Ok(groups) =>
      match TargetCpc(config, data)
      case Err(e) => Err(e)
      case Ok(t) =>
        CampaignKeepsGroups(groups, t);
        Ok(CampaignOf(groups, t))
  }

  /**
   * `float(self.config.get('assumptions', {}).get('conversion_rate', 0.02))`: a null
   * `assumptions` value has no `.get`, and a null rate cannot be converted.
   */
  function ShoppingConversionRate(config: Config): (r: Result<real, Error>)
    ensures config.assumptions.NullValue? ==> r == Err(NullAssumptions)
    ensures config.assumptions.Given? && config.assumptions.assumptions.conversionRate.Null? ==>
      r == Err(NotANumber("conversion_rate"))
    ensures config.assumptions.Given? && config.assumptions.assumptions.conversionRate.Number? ==>
      r == Ok(config.assumptions.assumptions.conversionRate.value)
    ensures config.assumptions.Absent? || (config.assumptions.Given? && config.assumptions.assumptions.conversionRate.Unset?) ==>
      r == Ok(0.02)
  {
    match config.assumptions
    case Absent => Ok(0.02)
    case NullValue => Err(NullAssumptions)
    case Given(a) =>
      match a.conversionRate
      case Unset => Ok(0.02)
      case Null => Err(NotANumber("conversion_rate"))
      case Number(v) => Ok(v)
  }

  /** Every campaign group comes from a non-empty group, with one keyword per row. */
  lemma {:induction false} CampaignKeepsGroups(groups: seq<Group>, target: real)
    requires forall i :: 0 <= i < |groups| ==> groups[i].rows != []
    ensures |CampaignOf(groups, target)| == |groups|
    ensures forall i :: 0 <= i < |groups| ==>
      CampaignOf(groups, target)[i] == CampaignGroup(groups[i].name, KeywordsOf(groups[i].rows, target))
  {
    if groups != [] {
      CampaignKeepsGroups(groups[..|groups| - 1], target);
    }
  }

  /** Empty groups contribute nothing to the campaign. */
  lemma {:induction false} CampaignSkipsEmpty(groups: seq<Group>, target: real)
    requires forall i :: 0 <= i < |groups| ==> groups[i].rows == []
    ensures CampaignOf(groups, target) == []
  {
    if groups != [] {
      CampaignSkipsEmpty(groups[..|groups| - 1], target);
    }
  }

  /**
   * The `ad_group` of a campaign keyword is the name of its group, except in the
   * `'Uncategorized'` group, whose rows keep their falsy value.
   */
  lemma AdGroupColumn(a: AnnotatedRow, k: Json, target: real)
    requires GroupKey(a) == Ok(k)
    ensures var kw := SearchKeywordOf(a, target);
      kw.adGroup == k || (k == Uncategorized && !Truthy(kw.adGroup))
    ensures SearchKeywordOf(a, target).matchType == ""
  {
  }

  /** A search keyword's bid is the rounded tier, within the rounded caps of its tier. */
  lemma SearchKeywordCaps(a: AnnotatedRow, target: real)
    ensures var kw := SearchKeywordOf(a, target);
      var avg := AvgBid(a.row);
      var (fa, ft) := if kw.competition == "High" then (1.2, 1.5) else if kw.competition == "Medium" then (1.0, 1.0) else (0.8, 0.8);
      kw.suggestedCpc <= Round2(avg * fa) && kw.suggestedCpc <= Round2(target * ft)
  {
    var avg := AvgBid(a.row);
    var comp := a.row.competition;
    var c := SearchCpc(comp, avg, target);
    var (fa, ft) := if comp == "High" then (1.2, 1.5) else if comp == "Medium" then (1.0, 1.0) else (0.8, 0.8);
    Round2Monotone(c, avg * fa);
    Round2Monotone(c, target * ft);
  }

  /** Every keyword of a campaign group has the group name as its group key. */
  lemma {:induction false} CampaignAdGroups(data: seq<KeywordRow>, config: Config, answers: seq<Result<Json, string>>, g: nat, i: nat)
    requires CampaignFor(data, config, answers).Ok?
    requires g < |CampaignFor(data, config, answers).value|
    requires i < |CampaignFor(data, config, answers).value[g].keywords|
    ensures var cg := CampaignFor(data, config, answers).value[g];
      cg.keywords[i].adGroup == cg.name || (cg.name == Uncategorized && !Truthy(cg.keywords[i].adGroup))
  {
    var es := ClassifyAll(data, answers).value;
    var groups := Grouped(es);
    var t := TargetCpc(config, data).value;
    CampaignKeepsGroups(groups, t);
    var k := groups[g].name;
    GroupedRows(es, g);
    ClassifyAllKeys(data, answers);
    RowsWithKeyHaveKey(es, k);
    AdGroupColumn(groups[g].rows[i], k, t);
  }

  /** The `rows` list of `create_ad_groups_with_llm`: one record per table row, in order. */
  method BuildRecords(data: seq<KeywordRow>) returns (records: seq<Record>)
    ensures records == RecordsOf(data)
  {
    records := [];
    var n := 0;
    while n < |data|
      invariant n <= |data|
      invariant |records| == n
      invariant forall i :: 0 <= i < n ==> records[i] == RecordOf(i, data[i])
    {
      records := records + [RecordOf(n, data[n])];
      n := n + 1;
    }
    assert forall i :: 0 <= i < |data| ==> records[i] == RecordsOf(data)[i];
  }

  /** The groups after filing one more chunk's entries, or that chunk's error. */
  function Filed(es: seq<Entry>, more: Result<seq<Entry>, Error>): Result<seq<Group>, Error> {
    match more
    case Err(e) => Err(e)
    case Ok(m) => Ok(Grouped(es + m))
  }

  /**
   * The body of the chunk loop of `create_ad_groups_with_llm` after the array call: index the
   * response by id, then file the indexed rows.
   */
  method FileChunk(data: seq<KeywordRow>, results: Json, groups: seq<Group>, ghost es: seq<Entry>)
    returns (r: Result<seq<Group>, Error>)
    requires groups == Grouped(es)
    ensures r == Filed(es, ChunkEntries(data, results))
  {
    var items := Elements(results);
    if items.Err? {
      return Err(items.error);
    }
    var index := IndexById(items.value);
    if index.Err? {
      return Err(index.error);
    }
    r := FileEntries(data, index.value, groups, es);
  }

  /** One pass of the chunk loop after the array call: a failed call is re-raised, a result filed. */
  method FileAnswer(data: seq<KeywordRow>, answer: Result<Json, string>, groups: seq<Group>, ghost es: seq<Entry>)
    returns (r: Result<seq<Group>, Error>)
    requires groups == Grouped(es)
    ensures r == GroupsOf(WithChunk(data, Ok(es), answer))
  {
    if answer.Err? {
      return Err(LlmFailed(answer.error));
    }
    r := FileChunk(data, answer.value, groups, es);
  }

  /** The keyword list of one group, one entry per row. */
  method GroupKeywords(rows: seq<AnnotatedRow>, t: real) returns (groupData: seq<SearchKeyword>)
    ensures groupData == KeywordsOf(rows, t)
  {
    groupData := [];
    var k := 0;
    while k < |rows|
      invariant k <= |rows|
      invariant groupData == KeywordsOf(rows[..k], t)
    {
      groupData := groupData + [SearchKeywordOf(rows[k], t)];
      k := k + 1;
    }
    assert rows[..k] == rows;
  }

  /** The `for group_name, keywords in ad_groups.items()` loop: one entry per non-empty group. */
  method BuildCampaign(groups: seq<Group>, t: real) returns (campaign: seq<CampaignGroup>)
    ensures campaign == CampaignOf(groups, t)
  {
    campaign := [];
    var g := 0;
    while g < |groups|
      invariant g <= |groups|
      invariant campaign == CampaignOf(groups[..g], t)
    {
      assert groups[..g + 1][..g] == groups[..g];
      var keywords := groups[g].rows;
      if keywords == [] {
        g := g + 1;
        continue;
      }
      var groupData := GroupKeywords(keywords, t);
      campaign := campaign + [CampaignGroup(groups[g].name, groupData)];
      g := g + 1;
    }
    assert groups[..g] == groups;
  }

  /** Filing item `j` extends both the entries and the groups by its entry. */
  lemma FileStep(data: seq<KeywordRow>, index: seq<IdItem>, j: nat, es: seq<Entry>, chunkEs: seq<Entry>, e: Entry)
    requires j < |index| && EntriesOf(data, index[..j]) == Ok(chunkEs) && EntryOf(data, index[j]) == Ok(e)
    ensures EntriesOf(data, index[..j + 1]) == Ok(chunkEs + [e])
    ensures Grouped(es + (chunkEs + [e])) == AddRow(Grouped(es + chunkEs), e)
  {
    EntriesOfStep(data, index, j);
    GroupedSnoc(es + chunkEs, e);
    assert (es + chunkEs) + [e] == es + (chunkEs + [e]);
  }

  /** An item that does not resolve makes the whole index fail with its error. */
  lemma EntriesOfFails(data: seq<KeywordRow>, index: seq<IdItem>, j: nat)
    requires j < |index| && EntriesOf(data, index[..j]).Ok? && EntryOf(data, index[j]).Err?
    ensures EntriesOf(data, index) == Err(EntryOf(data, index[j]).error)
  {
    EntriesOfStep(data, index, j);
    EntriesOfPrefixErr(data, index, j + 1);
  }

  /** `for item_id, item in result_by_id.items()`: annotate a copy of each row and file it. */
  method FileEntries(data: seq<KeywordRow>, index: seq<IdItem>, groups: seq<Group>, ghost es: seq<Entry>)
    returns (r: Result<seq<Group>, Error>)
    requires groups == Grouped(es)
    ensures r == Filed(es, EntriesOf(data, index))
  {
    var current := groups;
    assert es + [] == es;
    ghost var chunkEs: seq<Entry> := [];
    var j := 0;
    while j < |index|
      invariant j <= |index|
      invariant EntriesOf(data, index[..j]) == Ok(chunkEs)
      invariant current == Grouped(es + chunkEs)
    {
      var item := index[j];
      if !(0 <= item.id < |data|) {
        EntriesOfFails(data, index, j);
        return Err(UnknownId(item.id));
      }
      var rowCopy := Annotate(data[item.id], item.fields);
      var key := GroupKey(rowCopy);
      if key.Err? {
        EntriesOfFails(data, index, j);
        return Err(key.error);
      }
      var e := Entry(key.value, rowCopy);
      FileStep(data, index, j, es, chunkEs, e);
      current := AddRow(current, e);
      chunkEs := chunkEs + [e];
      j := j + 1;
    }
    assert index[..j] == index;
    r := Ok(current);
  }

  class SemAnalysis {
    /** `self.keywords_data`: the keyword table, one row per keyword. */
    var keywordsData: seq<KeywordRow>
    /** `self.config`: the parsed configuration. */
    const config: Config

    /** The table and configuration as loaded; reading the files is not part of this model. */
    constructor (data: seq<KeywordRow>, config: Config)
      ensures keywordsData == data && this.config == config
    {
      keywordsData := data;
      this.config := config;
    }

    /**
     * `analyze_performance_indicators`: writes the `avg_bid` column, then returns the three
     * subsets of the updated table.
     */
    method AnalyzePerformanceIndicators() returns (r: Segments)
      modifies this
      ensures keywordsData == WithAvgBid(old(keywordsData))
      ensures r == Segment(keywordsData)
    {
      keywordsData := WithAvgBid(keywordsData);
      r := Segment(keywordsData);
    }

    /**
     * `create_ad_groups_with_llm`: builds the records, asks for the classification of each
     * chunk of 15 through the array retry loop (request `c` is answered by `replies[c]`, its
     * prompt being `render(chunk)`), and files each annotated row under its group key.
     */
    method CreateAdGroupsWithLlm(replies: seq<seq<Reply>>, parse: Parser, render: seq<Record> -> string)
      returns (r: Result<seq<Group>, Error>)
      requires Scripted(replies, ChunkCount(keywordsData))
      ensures r == GroupsFor(keywordsData, Answers(AttemptOf(Array, parse), replies, ChunkCount(keywordsData)))
    {
      var records := BuildRecords(keywordsData);
      var chunks := Batch(records, ChunkSize);
      ghost var answers := Answers(AttemptOf(Array, parse), replies, |chunks|);
      var groups: seq<Group> := [];
      ghost var es: seq<Entry> := [];
      var c := 0;
      while c < |chunks|
        invariant c <= |chunks|
        invariant ClassifyAll(keywordsData, answers[..c]) == Ok(es)
        invariant groups == Grouped(es)
      {
        var results := CallLlmJsonArray(render(chunks[c]), Retries, replies[c], parse);
        assert results == answers[c];
        ClassifyAllStep(keywordsData, answers, c);
        var filed := FileAnswer(keywordsData, results, groups, es);
        if filed.Err? {
          ClassifyAllPrefixErr(keywordsData, answers, c + 1);
          return Err(filed.error);
        }
        groups := filed.value;
        es := WithChunk(keywordsData, Ok(es), results).value;
        c := c + 1;
      }
      assert answers[..c] == answers;
      r := Ok(groups);
    }

    /**
     * `create_search_campaign_keywords`: the ad groups, then the target CPC, then one list of
     * keywords per non-empty group.
     */
    method CreateSearchCampaignKeywords(replies: seq<seq<Reply>>, parse: Parser, render: seq<Record> -> string)
      returns (r: Result<seq<CampaignGroup>, Error>)
      requires Scripted(replies, ChunkCount(keywordsData))
      ensures r == CampaignFor(keywordsData, config, Answers(AttemptOf(Array, parse), replies, ChunkCount(keywordsData)))
    {
      var adGroups := CreateAdGroupsWithLlm(replies, parse, render);
      if adGroups.Err? {
        return Err(adGroups.error);
      }
      var targetCpc := TargetCpc(config, keywordsData);
      if targetCpc.Err? {
        return Err(targetCpc.error);
      }
      var campaign := BuildCampaign(adGroups.value, targetCpc.value);
      r := Ok(campaign);
    }

    /**
     * `calculate_shopping_cpc_bids`: one bid per row of the table, sorted in place by
     * suggested CPC, highest first. A null budget fails at the first division, so only
     * an empty table survives it.
     */
    method CalculateShoppingCpcBids() returns (r: Result<seq<ShoppingBid>, Error>)
      ensures config.shoppingAdsBudget.Unset? ==> r == Err(MissingConfigKey("shopping_ads_budget"))
      ensures !config.shoppingAdsBudget.Unset? && ShoppingConversionRate(config).Err? ==>
        r == Err(ShoppingConversionRate(config).error)
      ensures config.shoppingAdsBudget.Null? && ShoppingConversionRate(config).Ok? ==>
        r == if keywordsData == [] then Ok([]) else Err(NotANumber("shopping_ads_budget"))
      ensures config.shoppingAdsBudget.Number? && ShoppingConversionRate(config).Ok? ==> r.Ok?
      ensures r.Ok? ==> SortedByCpc(r.value)
      ensures r.Ok? && config.shoppingAdsBudget.Number? ==>
        multiset(r.value) == multiset(ShoppingBidsOf(keywordsData, config.shoppingAdsBudget.value, ShoppingConversionRate(config).value))
    {
      if config.shoppingAdsBudget.Unset? {
        return Err(MissingConfigKey("shopping_ads_budget"));
      }
      var rate := ShoppingConversionRate(config);
      if rate.Err? {
        return Err(rate.error);
      }
      var conversionRate := rate.value;
      var productKeywords := keywordsData;
      if |productKeywords| == 0 {
        productKeywords := keywordsData[..Batching.Min(10, |keywordsData|)];
      }
      if config.shoppingAdsBudget.Null? {
        if |productKeywords| == 0 {
          return Ok([]);
        }
        return Err(NotANumber("shopping_ads_budget"));
      }
      var shoppingBudget := config.shoppingAdsBudget.value;
      var bids: seq<ShoppingBid> := [];
      var i := 0;
      while i < |productKeywords|
        invariant i <= |productKeywords|
        invariant bids == ShoppingBidsOf(keywordsData, shoppingBudget, conversionRate)[..i]
      {
        var budgetPerKeyword := BudgetPerKeyword(shoppingBudget, |productKeywords|);
        bids := bids + [ShoppingBidFor(productKeywords[i], budgetPerKeyword, conversionRate)];
        i := i + 1;
      }
      var a := new ShoppingBid[|bids|](k requires 0 <= k < |bids| => bids[k]);
      assert a[..] == ShoppingBidsOf(keywordsData, shoppingBudget, conversionRate);
      SortByCpcDescending(a);
      r := Ok(a[..]);
    }
  }
}
