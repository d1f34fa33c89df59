# SEM keyword analysis — a Dafny model

This project models the core of a small search-engine-marketing (SEM) tool written in Python.
The tool scrapes keyword suggestions from a keyword-research site. It segments the keywords by
volume, bid and competition, and asks a large language model (LLM) to sort them into ad
groups. It then prices a search campaign and a shopping campaign from a budget and a few
assumptions read from a YAML configuration.

The model covers two source files:

- `sem_analysis.py`, the class `SEMAnalysis`, is modelled as the Dafny class
  `Analysis.SemAnalysis`.
  - The class holds the keyword table (`keywordsData`, a sequence of `KeywordRow`s) and the
    configuration (`config`).
  - `analyze_performance_indicators` adds the `avg_bid` column in place and returns three
    subsets of the table.
  - `create_ad_groups_with_llm` and `create_search_campaign_keywords` are methods whose
    loops follow the source and are proved equal to specification functions (`GroupsFor`,
    `CampaignFor`). Lemmas are then proved about those functions.
  - `calculate_shopping_cpc_bids` builds the bids and sorts them in place in an array.
  - The module-level helpers are pure functions, each in its own module:
    - `_extract_json_object` and the extraction inside `_call_llm_json_array`: `JsonExtraction`
    - `_call_llm_json` and `_call_llm_json_array`: `LlmRetry`, as a retry method
    - `_batch`: `Batching`
    - `calculate_target_cpc` and the bid tiers: `Bids`
    - `extract_brand_name` and `suggest_match_types`: `Brand`
- `wordstream_scraper.py` is modelled as the `Scraper` module. It covers:
  - `extract_number`;
  - the row rule of `extract_table_data` (a method over the table's rows);
  - the tagging loops of `scrape_both_websites` (methods over arrays, in place);
  - the rows that `save_to_csv` writes: a sort by source then volume, followed by a per-source head.

How the outside world enters the model:

- Every call to the LLM is a *reply* from a script: a response text or the message of a
  raised exception. `create_ad_groups_with_llm` receives one script per chunk of 15 records.
- `json.loads` is a parameter `parse` that returns a JSON value or an error message.
- The prompt text is a parameter `render` applied to each chunk.
- `time.sleep` is recorded as a list of durations in seconds.
- Python's text operations (`strip`, `split`, `title`, `lower`, `replace`, `find`) and the
  subset of `float()` that the scraper's cells need are written out in `Strings` and `Numbers`.
- Money and volumes are exact reals. `round(x, 2)` is round-half-even on reals (`Round2`).

Where the code does something one might not expect, the model follows the code:

- For an empty table with numeric columns every quantile is NaN, and no row passes a comparison
  with NaN: all three subsets are empty. The model treats every table this way (see Left out for
  a table read from a header-only CSV file).
- In `_extract_json_object`, once a fence matches, a `json.loads` failure is raised. The
  extraction does not fall back to the next pattern.
- A classification item whose `ad_group` is falsy is filed under `'Uncategorized'`. The
  row's own `ad_group` column keeps the falsy value.
- An `id` that names no row of the table fails the whole call. The model reports it as
  `UnknownId`, for the `KeyError` raised by `.loc`.
- `extract_number` truncates: `"$2.75"` reads as 2. `"1.5K"` becomes `"1.5000"` and reads
  as 1, because the suffix is expanded as text.
- `extract_brand_name("awww.com")` is `"Acom"`: `replace('www.', '')` removes `www.` wherever it
  occurs, not only at the start.
- The `head(10)` fallback of `calculate_shopping_cpc_bids` only runs on an empty table, so
  it changes nothing.
- A JSON decode error whose message contains `429` (a column number, say) counts as a rate
  limit and triggers a sleep.
- `save_to_csv` drops rows without a `source` when any row has one. This is because pandas'
  `groupby(...).head` skips missing keys.

## Model

| member | source | states |
|---|---|---|
| Strings.ToLower | sem_analysis.py:66 | lower-casing keeps letters as letters and leaves no upper-case letter |
| Strings.ToUpper | sem_analysis.py:284 | upper-casing keeps letters as letters, leaves no lower-case letter and agrees with lower-casing up to case |
| Strings.Lower | sem_analysis.py:66 | `str.lower` maps every character and keeps the length |
| Strings.Title | sem_analysis.py:283-284 | `str.title` keeps the length and every non-letter and changes only case; a letter is upper-case exactly when it does not follow a letter |
| Strings.TitleIdempotent | sem_analysis.py:280-284 | title-casing twice equals title-casing once |
| Strings.Find | sem_analysis.py:22 | `str.find` gives the first index of the character, and none exactly when it does not occur |
| Strings.RFind | sem_analysis.py:23 | `str.rfind` gives the last index of the character, and none exactly when it does not occur |
| Strings.Before | sem_analysis.py:280-282 | `split(c)[0]` is a prefix free of `c`, followed by `c` when shorter than the text |
| Strings.ReplaceAbsent | sem_analysis.py:279 | `str.replace` of a pattern that does not occur returns the text unchanged |
| Strings.Replace | sem_analysis.py:279 | replacing a pattern by itself changes nothing; a shorter replacement never lengthens the text and a longer one never shortens it |
| Strings.ReplaceCharFree | wordstream_scraper.py:187 | replacing a character by text without `c` leaves no `c` when `c` was that character or absent |
| Strings.ReplaceCharAppend | wordstream_scraper.py:187 | replacing a character works piece by piece across a concatenation |
| Strings.ReplaceCharRemoves | wordstream_scraper.py:187 | after replacing a character with text that lacks it, the character is gone |
| Strings.Word | sem_analysis.py:187 | the first word is a prefix without whitespace, ended by whitespace or the end |
| Strings.Split | sem_analysis.py:187 | `str.split()` yields only non-empty words without whitespace |
| Strings.SplitSkipsSpace | sem_analysis.py:187 | leading whitespace does not change `split()` |
| Strings.SplitAround | sem_analysis.py:187 | a whitespace run between two texts splits them apart |
| Strings.SplitJoin | sem_analysis.py:187 | splitting words joined by single spaces gives the words back |
| Strings.LeadingSpaces | wordstream_scraper.py:153 | the count of leading characters `strip` removes: all whitespace, and the next one is not |
| Strings.TrailingSpaces | wordstream_scraper.py:153 | the count of trailing characters `strip` removes: all whitespace, and the one before is not |
| Strings.TrimStart | wordstream_scraper.py:153 | the left strip removes a whitespace prefix and stops at a non-space |
| Strings.TrimEnd | wordstream_scraper.py:153 | the right strip removes a whitespace suffix and stops at a non-space |
| Strings.Strip | wordstream_scraper.py:153 | `str.strip` returns the text between a whitespace prefix and a whitespace suffix, with no whitespace at either end of the result |
| Numbers.NatToDigits | wordstream_scraper.py:188 | a count's decimal form is a non-empty string of digits |
| Numbers.DigitsOfNat | wordstream_scraper.py:188 | the decimal form of a count reads back as the count |
| Numbers.DigitsValueAppend | wordstream_scraper.py:187-188 | appending digits multiplies the value by a power of ten and adds theirs |
| Numbers.DigitsParse | wordstream_scraper.py:188 | `float` of a digit string is its decimal value |
| Numbers.ParseFloatUnsigned | wordstream_scraper.py:188 | text without a sign or surrounding whitespace parses as an unsigned literal |
| Numbers.SignedParse | wordstream_scraper.py:188 | a `-` before an unsigned literal negates its value and a `+` keeps it |
| Numbers.TwoPointsRejected | wordstream_scraper.py:188 | digits with two decimal points, such as `1.2.3`, are not a float literal |
| Numbers.ParseIntDigits | sem_analysis.py:173 | `int` accepts a non-empty run of digits, with its decimal value |
| Numbers.ParseIntSigned | sem_analysis.py:173 | `int` accepts a signed run of digits, negated after a `-` |
| Strings.StripPlain | sem_analysis.py:173 | text with no whitespace at either end is its own strip |
| Strings.FindAt | sem_analysis.py:280-282 | `find` reports the first occurrence of the character |
| Numbers.DecimalParse | wordstream_scraper.py:188 | `float("w.f")` is the whole part plus the fraction over a power of ten |
| Numbers.ParseFloat | wordstream_scraper.py:188 | `float` rejects a blank text |
| Numbers.ParseInt | sem_analysis.py:173 | `int` rejects a blank text |
| Numbers.IntIsFloat | sem_analysis.py:173 | every text `int` accepts, `float` accepts with the same value |
| Numbers.Truncate | wordstream_scraper.py:188 | `int(x)` rounds toward zero, within one of `x` |
| Numbers.RoundHalfEven | sem_analysis.py:234 | `round` to an integer lands within one half of its argument |
| Numbers.Round2 | sem_analysis.py:234 | `round(x, 2)` is within half a cent of `x` and a whole number of cents |
| Numbers.Round2Monotone | sem_analysis.py:234 | `round(x, 2)` never reverses an order |
| Numbers.DigitsBelowPow10 | wordstream_scraper.py:188 | `k` digits are worth less than ten to the `k` |
| Numbers.DecimalTruncates | wordstream_scraper.py:188 | `int(float("w.f"))` is the whole part `w` |
| Numbers.FractionTruncated | wordstream_scraper.py:188 | a whole number plus a proper fraction truncates to the whole number |
| Keywords.AvgBid | sem_analysis.py:112 | `avg_bid` lies midway between the low and high bids, hence between them |
| Segmentation.Insert | sem_analysis.py:115 | inserting into a sorted list keeps it sorted and adds exactly that value |
| Segmentation.Sort | sem_analysis.py:115 | the sorted volumes are ordered and a permutation of the input |
| Segmentation.Interpolate | sem_analysis.py:115 | linear interpolation lies between the two neighbouring sorted values |
| Segmentation.Position | sem_analysis.py:115 | the quantile position `(n-1)q` stays within the table |
| Segmentation.Quantile | sem_analysis.py:115 | `quantile(q)` is NaN exactly for an empty column, and otherwise lies between the column's values |
| Segmentation.InterpolateMonotone | sem_analysis.py:115 | interpolation grows with the position |
| Segmentation.QuantileSingleton | sem_analysis.py:115 | every quantile of a one-value column is that value |
| Segmentation.QuantileMonotone | sem_analysis.py:115-118 | a higher `q` never gives a lower quantile, so the 0.8 threshold is at least the median |
| Segmentation.Where | sem_analysis.py:116-118 | a boolean mask keeps exactly the rows that pass it, with their multiplicities |
| Segmentation.Segment | sem_analysis.py:115-118 | each of the three subsets holds exactly the rows that pass its test |
| Segmentation.ThresholdsOf | sem_analysis.py:113-118 | the thresholds are NaN exactly for an empty table, and otherwise the 80th-percentile volume is at least the median |
| Segmentation.IsHighVolume | sem_analysis.py:116 | a row is high-volume exactly when its volume reaches the threshold; a NaN threshold admits none |
| Segmentation.IsCostEffective | sem_analysis.py:117 | a row is cost-effective exactly when both medians are numbers, its average bid is at most the median bid and its volume at least the median volume; NaN medians admit none |
| Segmentation.IsLowCompHighVol | sem_analysis.py:118 | a row qualifies exactly when its competition is Low or Medium, the median volume is a number and its volume is at least that median; a NaN median admits none |
| Segmentation.EmptyTableEmptySegments | sem_analysis.py:115-118 | an empty table gives three empty subsets |
| Segmentation.HighVolumeNonEmpty | sem_analysis.py:115-116 | a non-empty table always has at least one high-volume keyword |
| Segmentation.HighVolumeComplement | sem_analysis.py:115-116 | a row left out of the high-volume subset lies below the 80th percentile |
| Segmentation.HighVolumeAboveMedian | sem_analysis.py:115-118 | every high-volume keyword is at least the median volume |
| Batching.Batch | sem_analysis.py:93-95 | `_batch` yields non-empty chunks of at most `size`, all full but the last |
| Batching.BatchChunk | sem_analysis.py:93-95 | chunk `k` is the slice `items[k*size : (k+1)*size]` |
| Batching.BatchCovers | sem_analysis.py:93-95 | the chunks have room for every item |
| Batching.BatchFlatten | sem_analysis.py:93-95 | concatenating the chunks gives the items back, in order |
| Batching.FlattenSnoc | sem_analysis.py:160 | flattening one more chunk appends its items |
| JsonExtraction.SkipSpace | sem_analysis.py:16 | `\s*` consumes whitespace up to the first non-space |
| JsonExtraction.SkipLetters | sem_analysis.py:19 | `[a-zA-Z]*` consumes letters up to the first non-letter |
| JsonExtraction.OpenAt | sem_analysis.py:16-21 | a fence's opening bracket sits after the fence marker, at the bracket |
| JsonExtraction.FirstClose | sem_analysis.py:16-21 | the lazy `[\s\S]*?` stops at the first closing bracket that ends the fence, and none is missed |
| JsonExtraction.FirstStop | sem_analysis.py:16-21 | the search finds the first start position that matches, and misses none before it |
| JsonExtraction.FindFence | sem_analysis.py:16-21 | a found fence lies inside the text, from a bracket to its closing bracket |
| JsonExtraction.FindFenceSound | sem_analysis.py:16-21 | a found fence is a match of the pattern, closed at the first possible bracket |
| JsonExtraction.FindFenceLeftmost | sem_analysis.py:16-21 | `re.search` finds the leftmost match: no match starts earlier |
| JsonExtraction.FindFenceIs | sem_analysis.py:16-21 | the leftmost match with the first closing bracket is the one found |
| JsonExtraction.Slice | sem_analysis.py:22-26 | `text[find(open):rfind(close)+1]` exists exactly when an opening bracket precedes a closing one, and runs between them |
| JsonExtraction.ObjectCandidate | sem_analysis.py:16-26 | the candidate `_extract_json_object` parses runs from `{` to `}` |
| JsonExtraction.FencedGroup | sem_analysis.py:16-21 | a fence's captured group exists exactly when the fence matches, and is bracketed |
| JsonExtraction.ArrayCandidate | sem_analysis.py:75-83 | the candidate the array call parses runs from `[` to `]` |
| JsonExtraction.ObjectNotFoundIff | sem_analysis.py:22-27 | no object candidate exactly when no `{` precedes a `}` |
| JsonExtraction.ArrayNotFoundIff | sem_analysis.py:80-84 | no array candidate exactly when no `[` precedes a `]` |
| JsonExtraction.TaggedFenceFirst | sem_analysis.py:16-18 | the first "```json" fence wins over everything else |
| JsonExtraction.AnyFenceSecond | sem_analysis.py:19-21 | with no "```json" fence, the first fence with any tag is used |
| JsonExtraction.BraceSliceLast | sem_analysis.py:22-26 | with no fence, the slice runs from the first `{` to the last `}` |
| JsonExtraction.FencedObjectAlone | sem_analysis.py:14-18 | an answer that is just a "```json" fence around an object parses as that object |
| JsonExtraction.FencedObjectRoundTrip | sem_analysis.py:14-18 | an object wrapped in a "```json" fence, with any text around it, parses back as that object |
| JsonExtraction.ExtractJsonObject | sem_analysis.py:12-27 | an empty text raises "Empty LLM response"; with no `{` before a `}` "No JSON object found" is raised; otherwise the candidate is parsed |
| JsonExtraction.ExtractJsonArray | sem_analysis.py:74-84 | with no `[` before a `]` "No JSON array found" is raised; otherwise the candidate is parsed |
| LlmRetry.SleepsSpec | sem_analysis.py:64-65 | sleeps strictly grow, at most one per failed attempt; a duration is slept exactly for a rate-limited attempt |
| LlmRetry.Backoff | sem_analysis.py:65 | a backoff is a positive whole number of ten-second steps |
| LlmRetry.Sleeps | sem_analysis.py:63-65 | no more sleeps than failed attempts |
| LlmRetry.Retried | sem_analysis.py:57-67 | the loop returns one attempt's outcome, and succeeds exactly when some attempt succeeds |
| LlmRetry.RateLimitMarkers | sem_analysis.py:64 | `429`, or `quota` in any case, anywhere in a message makes it a rate limit |
| LlmRetry.RetriedFrom | sem_analysis.py:57-67 | the loop returns one attempt's outcome; it succeeds exactly when some attempt succeeds |
| LlmRetry.RetriedAt | sem_analysis.py:57-67 | the loop returns the first success, or the last attempt's failure |
| LlmRetry.CallLlmJson | sem_analysis.py:55-67 | the retry loop: at most `retries + 1` calls, a reminder appended after each failure, the backoff sleeps, and the outcome of the first successful call or the last error |
| LlmRetry.CallLlmJsonArray | sem_analysis.py:69-91 | the array call is the shared retry loop with array extraction |
| LlmRetry.DecodeErrorCanLookRateLimited | sem_analysis.py:64 | a decode error naming column 429 counts as a rate limit |
| LlmRetry.FencedReply | sem_analysis.py:59-60 | a fenced object reply makes the attempt succeed with the parsed object |
| LlmRetry.TwoBackoffs | sem_analysis.py:64-65 | two rate-limited attempts sleep 10 and then 20 seconds |
| LlmRetry.RateLimitScriptOutcomes | sem_analysis.py:57-66 | two "429" errors then a fenced object: two failures, then the object, with sleeps 10 and 20 |
| LlmRetry.TwoRateLimitsThenSuccess | sem_analysis.py:55-67 | the retry loop returns the object after sleeping 10 and 20 seconds, having sent the prompt, then the prompt with one reminder, then with two |
| Classification.IdsOf | sem_analysis.py:173 | the keys of `result_by_id`, one per entry, in order |
| Classification.Put | sem_analysis.py:173 | a dict assignment replaces an existing key in place or appends a new one, keeping keys distinct |
| Classification.IndexById | sem_analysis.py:173 | `result_by_id` has distinct keys |
| Classification.IndexByIdFails | sem_analysis.py:173 | building `result_by_id` fails exactly when some kept item's `id` does not convert with `int` |
| Classification.IndexByIdKeys | sem_analysis.py:173 | a key is in `result_by_id` exactly when some dict item with an `id` converts to it |
| Classification.IndexByIdLast | sem_analysis.py:173 | each key maps to the last item carrying that `id` |
| Classification.Truthy | sem_analysis.py:181 | a value is falsy exactly when it is null, false, zero, an empty string, an empty list or an empty dict |
| Classification.IntOf | sem_analysis.py:173 | `int()` fails only with the bad-id error |
| Classification.IntOfCases | sem_analysis.py:173 | numbers truncate to within one, booleans give 1 and 0, strings convert exactly when they hold an integer, null and containers fail |
| Classification.Get | sem_analysis.py:176-179 | `item.get(key)` is the value, or None when the key is absent |
| Classification.GroupKey | sem_analysis.py:181 | the group is the `ad_group` when truthy and `'Uncategorized'` otherwise; a non-empty list or dict raises as unhashable |
| Classification.AddRow | sem_analysis.py:182 | `ad_groups[group].append(row)` extends an existing group or adds a new one at the end |
| Classification.Grouped | sem_analysis.py:149-183 | the `defaultdict` has distinct group names and no empty group |
| Classification.GroupedKeys | sem_analysis.py:181-183 | a group exists exactly when some row was filed under its name |
| Classification.GroupedRows | sem_analysis.py:181-183 | each group holds exactly the rows filed under its name, in order |
| Classification.NoKeyNoRows | sem_analysis.py:181-182 | no row is filed under a name no entry carries |
| Classification.EntriesOfSpec | sem_analysis.py:174-182 | a chunk is filed exactly when every id names a row; each entry is that row annotated with its item's fields, filed under its group key |
| Classification.EntryOf | sem_analysis.py:175-181 | one item is filed exactly when its id names a row and its group is hashable; an out-of-range id raises |
| Classification.ClassifyAll | sem_analysis.py:160-182 | a run succeeds exactly when every chunk's call and filing succeed |
| Classification.ChunkEntries | sem_analysis.py:172-182 | a number, boolean or null response cannot be iterated; an object or string response files nothing |
| Classification.ChunkEntriesKeys | sem_analysis.py:174-182 | each entry of a chunk carries its row's group key |
| Classification.ChunkValues | sem_analysis.py:160-182 | one list of entries per chunk, that chunk's filing |
| Classification.ClassifyAllFlatten | sem_analysis.py:160-182 | a successful run's entries are the chunks' entries concatenated in order |
| Classification.EntriesOfPrefixErr | sem_analysis.py:174-182 | the first failing item decides the error of the whole chunk |
| Classification.ClassifyAllPrefixErr | sem_analysis.py:160-182 | the first failing chunk decides the error of the whole run |
| Classification.RowsWithKeyHaveKey | sem_analysis.py:181-182 | every row filed under a name has that name as its group key |
| Classification.ClassifyAllKeys | sem_analysis.py:160-182 | every classified row's group key is the key it was filed under |
| Classification.ClassifyAllStep | sem_analysis.py:160-182 | one more chunk extends the run by that chunk's entries |
| Bids.MissingKeys | sem_analysis.py:195-196 | the missing assumptions are exactly those absent, `ctr` first |
| Bids.NullKeys | sem_analysis.py:199-204 | the null settings are exactly the budget, `ctr`, `conversion_rate` and `max_cpc_cap` whose value is null, the budget first |
| Bids.SearchBudget | sem_analysis.py:199 | the budget defaults to 0 when absent, is its value when a number, and a null value raises |
| Bids.CapCpc | sem_analysis.py:203-204 | the cap is `max_cpc_cap` when given, a null one raises, and otherwise the median bid, which lies between two bids and is NaN only for an empty table |
| Bids.Min | sem_analysis.py:211 | `min` is the smaller of its arguments |
| Bids.Capped | sem_analysis.py:204-211 | the CPC is capped by `max_cpc_cap` (or the median bid) when there is one |
| Bids.CappedMonotone | sem_analysis.py:211 | capping never reverses an order |
| Bids.TargetCpc | sem_analysis.py:194-211 | missing assumptions raise and name exactly the missing keys; a null value then raises for the first null key; otherwise it succeeds exactly when budget and expected conversions are positive, with budget over expected clicks, capped |
| Bids.TargetCpcBelowCap | sem_analysis.py:204-211 | the target CPC never exceeds the cap |
| Bids.TargetCpcMonotone | sem_analysis.py:199-211 | a larger budget never lowers the target CPC |
| Bids.TargetCpcExample | sem_analysis.py:194-229 | budget 100, CTR 5%, conversion 2%, 1000 searches: target CPC 2, and a Medium keyword bids 2 |
| Bids.MissingConversionRate | sem_analysis.py:195-198 | an assumptions block without `conversion_rate` raises naming exactly it |
| Bids.NullCapRaises | sem_analysis.py:204 | a null `max_cpc_cap` raises when the CPC is computed |
| Bids.SearchCpc | sem_analysis.py:224-229 | each search tier is the smaller of its bid cap and its target cap |
| Bids.LowIsScaledMedium | sem_analysis.py:226-229 | any competition other than High and Medium bids 0.8 times the Medium bid |
| Bids.SearchTiersOrdered | sem_analysis.py:224-229 | for non-negative values, Low ≤ Medium ≤ High |
| Bids.SearchCpcMonotone | sem_analysis.py:224-229 | a higher target never lowers a search bid |
| Bids.Max | sem_analysis.py:315 | `max` is the larger of its arguments |
| Bids.ShoppingTargetValue | sem_analysis.py:296-302 | the shopping target is the per-keyword budget over expected clicks, or the average bid when no conversions are expected |
| Bids.ShoppingBidFor | sem_analysis.py:294-316 | a bid copies the keyword, volume and competition, has the average bid and the tier CPC each within half a cent, a target CPA within half a cent of the keyword's budget over `max(expected conversions, 1)`, and so, for a non-negative budget, within half a cent of the range from 0 to the keyword's budget |
| Bids.ShoppingCpc | sem_analysis.py:303-308 | each shopping tier is the smaller of its target cap and its bid cap |
| Bids.ShoppingBidsOf | sem_analysis.py:292-316 | one bid per keyword, in table order, each with the budget split evenly |
| Bids.SortByCpcDescending | sem_analysis.py:317 | the sort leaves the bids in descending suggested CPC and is a permutation |
| Bids.InsertLeft | sem_analysis.py:317 | one insertion step extends the sorted prefix by one, keeping the multiset |
| Bids.Swap | sem_analysis.py:317 | a swap exchanges two neighbours and keeps the multiset |
| Brand.ExtractBrandName | sem_analysis.py:276-284 | an empty address gives "Unknown"; otherwise the name holds no `.` or `/` and is title-cased |
| Brand.TitleKeeps | sem_analysis.py:281-284 | title-casing neither adds nor removes a non-letter |
| Brand.HttpsPrefixIgnored | sem_analysis.py:279 | a leading `https://` does not change the brand |
| Brand.HttpPrefixIgnored | sem_analysis.py:279 | a leading `http://` does not change the brand |
| Brand.WwwPrefixIgnored | sem_analysis.py:279 | a leading `www.` does not change the brand |
| Brand.BareNameBrand | sem_analysis.py:276-284 | a bare name of letters is its own brand, title-cased |
| Brand.FullAddressBrand | sem_analysis.py:276-284 | `https://www.name` and `http://www.name` give the title-cased name |
| Strings.ReplaceNoEarly | sem_analysis.py:279 | a prefix with no match starting in it is kept by `replace` |
| Strings.BeforeSeparator | sem_analysis.py:280-282 | `split(c)[0]` of a text whose first `c` follows `a` is `a` |
| Brand.BrandBeforeSeparator | sem_analysis.py:276-284 | a name of letters followed by `.` or `/` and any text gives the title-cased name |
| Brand.FullHostBrand | sem_analysis.py:276-284 | `https://www.name.rest` and `http://www.name.rest` give the title-cased name |
| Brand.WwwInsideName | sem_analysis.py:279-283 | `awww.com` gives `Acom`, because `www.` is removed inside the name |
| Brand.SuggestMatchType | sem_analysis.py:185-192 | one word gives Broad Match Modifier, two give Phrase Match, any other count Exact Match |
| Brand.MatchTypeOfWords | sem_analysis.py:185-192 | one word is Broad Match Modifier, two are Phrase Match, any other count is Exact Match |
| Brand.MatchTypeIgnoresPadding | sem_analysis.py:187 | whitespace around a keyword does not change its match type |
| Brand.BlankKeywordExact | sem_analysis.py:187-192 | a blank keyword has no words and is an exact match |
| Scraper.ExtractNumberOfDigits | wordstream_scraper.py:185-190 | round trip: a count's decimal digits read back as the count |
| Scraper.CommaIgnored | wordstream_scraper.py:187 | a comma anywhere is ignored |
| Scraper.DollarIgnored | wordstream_scraper.py:187 | a dollar sign anywhere is ignored |
| Scraper.ThousandsSuffix | wordstream_scraper.py:187-188 | a `K` after a whole number multiplies it by 1000 |
| Scraper.MillionsSuffix | wordstream_scraper.py:187-188 | an `M` after a whole number multiplies it by 1000000 |
| Scraper.SuffixExpands | wordstream_scraper.py:187-188 | a suffix that cleans to zeros multiplies the whole number by a power of ten |
| Scraper.FractionSuffixNotScaled | wordstream_scraper.py:187-188 | `"w.fK"` reads as `w`: the suffix does not scale a fraction |
| Scraper.DecimalTruncated | wordstream_scraper.py:185-190 | a plain decimal reads as its whole part |
| Scraper.Cleaned | wordstream_scraper.py:187 | the cleaned text holds no `,`, `$`, `K` or `M` |
| Scraper.ExtractNumber | wordstream_scraper.py:185-190 | 0 when `float` rejects the cleaned text, otherwise its value truncated toward zero |
| Scraper.RecordAt | wordstream_scraper.py:156-164 | a record exists exactly when the volume is at least 500; its fields are the stripped, converted cells |
| Scraper.RowRecord | wordstream_scraper.py:152-178 | a row with a `th` needs four `td`s and the `th` is the keyword; otherwise five cells with the first as keyword; the volume must be at least 500 |
| Scraper.Records | wordstream_scraper.py:150-178 | at most one record per row, each with volume at least 500 and no source yet; `RecordsKeepAccepted` and `RecordsAppend` place each accepted row's record in row order |
| Scraper.RecordsFromRows | wordstream_scraper.py:150-178 | every record comes from one of the rows |
| Scraper.RecordsAppend | wordstream_scraper.py:150-178 | the records of two runs of rows are the records of each, in order |
| Scraper.RecordsKeepAccepted | wordstream_scraper.py:150-178 | an accepted row's record appears between the records of the rows before and after it |
| Scraper.ExtractTableData | wordstream_scraper.py:145-183 | the records of all rows after the header, in order |
| Scraper.Tagged | wordstream_scraper.py:196-201 | tagging sets only the `source` field of every record |
| Scraper.TagSource | wordstream_scraper.py:196-197 | the loop tags every record in place |
| Scraper.ScrapeBothWebsites | wordstream_scraper.py:192-203 | brand records tagged `brand_website`, then competitor records tagged `competitor_website`; the caller's lists are tagged too |
| Scraper.TaggedSources | wordstream_scraper.py:192-203 | every record carries its website, and nothing else about it changed |
| Scraper.SourceLessOrder | wordstream_scraper.py:221 | the source order is a strict total order that puts missing sources last |
| Scraper.SourceLess | wordstream_scraper.py:221 | a missing source never goes first and a present one goes before a missing one; present sources compare as strings |
| Scraper.Precedes | wordstream_scraper.py:221 | rows of one source go by volume descending, rows of different sources by source |
| Scraper.PrecedesAsymmetric | wordstream_scraper.py:221 | no two rows go before each other |
| Scraper.NotPrecedesTransitive | wordstream_scraper.py:221 | not going before is transitive, so the order is a strict weak order |
| Scraper.InsertRow | wordstream_scraper.py:221 | inserting keeps the rows ordered and adds exactly that row |
| Scraper.SortRows | wordstream_scraper.py:221 | `sort_values` orders by source ascending, then volume descending, as a permutation |
| Scraper.HeadPerSource | wordstream_scraper.py:222-223 | the per-source head keeps a sub-multiset of the rows, all with a source |
| Scraper.SelectTopN | wordstream_scraper.py:213-229 | nothing is written exactly for no rows; otherwise a sub-multiset of the rows |
| Scraper.HeadCounts | wordstream_scraper.py:222-223 | each source keeps `min(count, n)` rows |
| Scraper.HeadOrdered | wordstream_scraper.py:222-223 | the head keeps the order |
| Scraper.KeptBeatsDropped | wordstream_scraper.py:219-224 | within a source, every kept row has at least the volume of every dropped row |
| Scraper.TopNPerSource | wordstream_scraper.py:219-224 | the rows written are ordered, each source keeps `min(count, n)` rows, and untagged rows are dropped |
| Scraper.InsertCount | wordstream_scraper.py:221 | an insertion adds one to its source's count |
| Scraper.SortCount | wordstream_scraper.py:221 | sorting keeps every source's count |
| Scraper.TopNWithoutSource | wordstream_scraper.py:225-226 | without a `source` column, the first `n` rows are written |
| Analysis.WithAvgBid | sem_analysis.py:112 | the `avg_bid` column is set on every row and nothing else changes |
| Analysis.RecordsOf | sem_analysis.py:150-157 | one record per row, with its position as `id` |
| Analysis.Answers | sem_analysis.py:160-172 | each chunk's answer is what the retry loop returns for its script |
| Analysis.GroupsFor | sem_analysis.py:147-183 | ad groups exist exactly when every chunk succeeds; their names are distinct and none is empty |
| Analysis.KeywordsOf | sem_analysis.py:220-240 | one search keyword per row of the group, in order |
| Analysis.SearchKeywordOf | sem_analysis.py:222-240 | a search keyword copies the row's fields and the LLM's answers, has an empty match type, and its bid is within half a cent of the tier CPC |
| Analysis.CampaignOf | sem_analysis.py:216-241 | no more campaign groups than ad groups, and none without keywords |
| Analysis.CampaignFor | sem_analysis.py:213-242 | the ad-group error comes first, then the CPC error; otherwise one campaign group per ad group, under the same name |
| Analysis.ShoppingConversionRate | sem_analysis.py:288 | `conversion_rate` defaults to 0.02 when the key or the block is absent; a null block or a null rate raises |
| Analysis.CampaignKeepsGroups | sem_analysis.py:216-241 | with no empty group, the campaign has one entry per ad group, in order |
| Analysis.CampaignSkipsEmpty | sem_analysis.py:217-219 | empty groups are skipped |
| Analysis.AdGroupColumn | sem_analysis.py:222-237 | a keyword's `ad_group` is its group name, or falsy under 'Uncategorized'; its match type is empty |
| Analysis.SearchKeywordCaps | sem_analysis.py:224-234 | a keyword's rounded bid is within the rounded caps of its tier |
| Analysis.CampaignAdGroups | sem_analysis.py:213-242 | every keyword of a campaign group carries that group's name, or a falsy one under 'Uncategorized' |
| Analysis.BuildRecords | sem_analysis.py:150-157 | the loop builds the records of all rows |
| Analysis.FileChunk | sem_analysis.py:172-182 | filing one chunk's parsed answer gives the groups of all entries so far |
| Analysis.FileAnswer | sem_analysis.py:172-182 | filing one chunk's answer, failed or parsed, extends the groups or raises |
| Analysis.GroupKeywords | sem_analysis.py:220-240 | the inner loop builds the group's search keywords |
| Analysis.BuildCampaign | sem_analysis.py:216-241 | the outer loop builds the campaign of all groups |
| Analysis.FileStep | sem_analysis.py:174-182 | filing one more item appends it to its group |
| Analysis.EntriesOfFails | sem_analysis.py:175 | the first item with an unknown id raises for the whole chunk |
| Analysis.FileEntries | sem_analysis.py:174-182 | the loop over `result_by_id` files every item or raises the first error |
| Analysis.SemAnalysis.constructor | sem_analysis.py:29-31 | the analysis holds the given keyword table and configuration |
| Analysis.SemAnalysis.AnalyzePerformanceIndicators | sem_analysis.py:111-123 | adds `avg_bid` to every row in place and returns the three subsets of the updated table |
| Analysis.SemAnalysis.CreateAdGroupsWithLlm | sem_analysis.py:147-183 | the ad groups are those of all chunks' classified rows, or the first error |
| Analysis.SemAnalysis.CreateSearchCampaignKeywords | sem_analysis.py:213-242 | the campaign of the ad groups at the target CPC, or the first error |
| Analysis.SemAnalysis.CalculateShoppingCpcBids | sem_analysis.py:286-318 | a missing budget or a null assumptions block or rate raises; a null budget raises once a keyword is priced; otherwise one bid per keyword, sorted by descending CPC |

## Left out

- The Gemini client setup, the API key, the model fallbacks and the prompt wording are not modelled. Prompts come from the `render` parameter; the model itself is the script of replies.
- `load_keywords`, `load_config`, YAML parsing, environment variables and CSV writing (file I/O) are not modelled. `SEM_TOP_N` becomes the parameter `n`; a negative or non-integer value is not modelled.
- The Selenium browsing (`scrape_keywords`, page loading, country selection) is not modelled. `extract_table_data` works on the table's rows, each given as its `th` text and `td` texts.
- `time.sleep` is not performed; the durations are recorded as a list.
- `run_sem_analysis.py` (the command-line driver) is not part of this model.
- `analyze_keyword_intent_with_llm`, `create_pmax_themes`, `generate_pmax_themes_with_llm` and `export_results` are not part of this model. They are prompt wrappers and output formatting outside the analysed core.
- Whitespace and letters are ASCII. Unicode case mapping and Unicode whitespace are not modelled.
- `float()` is modelled for signed decimal literals only. Exponents, `inf`, `nan` and underscores parse as failures.
- Floating-point rounding is not modelled: all arithmetic is on exact reals.
- A negative `retries` (for which the source raises `None`) is not modelled: `retries` is a natural number.
- Python's key equality across types (`1 == 1.0 == True` as dict keys) is not modelled. Group names compare as JSON values.
- Iterating a JSON object or string response visits keys or characters. These are never dicts and are dropped, so they are modelled as no items.
- A `None` response text is not a separate reply. Both loops treat it exactly like an empty text.
- `json.loads` is the `parse` parameter; its grammar is not modelled.
- Bids.SortByCpcDescending: proves the order and the permutation, not that ties keep their original order as Python's stable sort does.
- Scraper.ScrapeBothWebsites: the two scraped lists are distinct arrays; aliasing between them is not modelled.
- A setting whose YAML value is null is modelled as present with a null value; arithmetic or `float()` on it raises, as `NotANumber`.
- A table read from a CSV file with a header and no rows has untyped columns. Their `describe()` has no `'50%'` entry, so `analyze_performance_indicators` raises `KeyError`. This is not modelled: the model's columns are always numeric, and an empty table gives NaN thresholds and three empty subsets.
- Bids.TargetCpcMonotone: also requires positive expected clicks. The source only checks the product of clicks and conversion rate. When both are negative, that product is positive and a larger budget lowers the CPC.
- Bids.SortByCpcDescending: the sort is an insertion sort. Its result is the same ordered permutation, but the particular algorithm of `list.sort` is not modelled.
