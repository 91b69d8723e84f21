# ULTRA DEEP RESEARCH — a verified model of the research pipeline core

ULTRA DEEP RESEARCH turns a topic into a research report. It asks a query model for a list of
search queries, runs one chat-completion search per query, aggregates the answers and has a
fast model name the report and pull out insights. This project models, in Dafny, the
deterministic core of that pipeline and proves what it promises:

- **Result utilities** (`Utils`, src/utils.py):
  - the `SearchResult` record;
  - the `ResearchStats` counters and their two rate getters;
  - the rate-limit counter rule;
  - deduplication by the first 200 characters of content;
  - ranking by score after a length bonus.
- **Aggregation engine** (`Aggregation`, src/result_aggregator.py), a five-stage pipeline:
  - dedup;
  - a quality filter with a +0.3 boost for substantive content;
  - ranking;
  - theme extraction over the top 20 results;
  - statistics.

  It also records the run's counters on its `ResearchStats`.
- **Search executor** (`SearchExecution`, src/search_executor.py):
  - a class holding the rate-limit counter and the statistics;
  - `execute_search` turns a backend outcome into a document and updates the counters;
  - `execute_batch_searches` runs the searches in query order.
- **Query generation** (`QueryGeneration`, src/query_generator.py):
  - the line parser for the query model's reply;
  - the prefix stripping and length filter;
  - the truncation to `num_queries`;
  - the 20 template fallback queries.
- **Topic cleaning** (`ResearchCli`, main.py): `clean_topic`.
- **Fast helpers** (`FastAI`, src/fast_ai.py):
  - the fallback filename;
  - the cleanup of a model-proposed filename;
  - the insight-list parser;
  - the summary truncation.
- **Configuration** (`Configuration`, config.py): `validate`, over already-loaded values.

Two modules hold the Python built-ins the core relies on:

- `Text`: `str.isspace`, `lower`, `strip`, `split`, `join`, `in`, `startswith`, slicing and `str(int)`, on ASCII.
- `Collections`: list comprehensions as filters, `collections.Counter` and `most_common`, and Python's stable `sorted(..., reverse=True)`.

`Backend` gives every HTTP exchange's outcome as a value:

- an answered request with status and body;
- a timeout;
- another exception with its message.

The model uses the code's object shapes:

- `ResearchStats`, `SearchExecutor` and `ResultAggregator` are classes whose methods update their fields.
- The documents are values (`SearchResult` datatypes), and each stage returns updated copies.
- Loops in the source are methods with loop invariants, proved against specification functions:
  - `DeduplicateResults`, `RankResults`, `FilterQuality`, `ExecuteBatch`, `ParseQueries`, `GenerateFallbackQueries`, `ParseInsights`.

Facts about the code that the model keeps:

- `_is_substantive` counts how many of the 14 phrases occur, each at most once. It does not count occurrences.
- `validate` does not check `api_rate_limit`, so 0 is accepted; the limiter then suspends on every call.
- `asyncio.gather` returns the documents in query order, not in completion order.
- `execute_batch_searches` does not reset the completed and failed counters. So `completed + failed == total_queries` holds after one batch on a fresh executor, but not after a second (`SecondBatchCounts`).
- Nothing requires the batch to be non-empty.

## Model

| member | source | states |
|---|---|---|
| Configuration.Validate | config.py:27-38 | false when the API key is empty, when `num_queries < 1` or when `max_concurrent_searches < 1`; true when all three checks pass |
| Configuration.ValidateIgnoresLimitsAndModels | config.py:27-38 | the rate limit, the search timeout and the model names never change the verdict |
| Configuration.DefaultsNeedOnlyAKey | config.py:16-25 | the default settings validate exactly when a non-empty API key is supplied |
| Configuration.ZeroRateLimitSuspendsEveryCall | config.py:27-38 | a validated configuration may have `api_rate_limit = 0`; the counter then stays 0 and every limiter call suspends |
| Utils.SuccessAndErrorCounts | src/result_aggregator.py:25-27 | every result is counted once: successes plus errors equal the number of results |
| Utils.CountsAreFilters | src/result_aggregator.py:26-27 | the two counts are the lengths of the `source != "Error"` and `source == "Error"` comprehensions |
| Utils.ResearchStats.constructor | src/utils.py:19-27 | all counters and both timing fields start at 0 |
| Utils.ResearchStats.StartTiming | src/utils.py:29-31 | `start_time` becomes the clock reading; no other field changes |
| Utils.ResearchStats.EndTiming | src/utils.py:33-35 | `processing_time` becomes the clock reading minus `start_time`; no other field changes |
| Utils.ResearchStats.SetCounts | src/result_aggregator.py:25-27 | the four counters take the given values; the timing fields are kept |
| Utils.ResearchStats.RecordCompleted | src/search_executor.py:102 | `completed_searches` rises by one; no other field changes |
| Utils.ResearchStats.RecordFailed | src/search_executor.py:117 | `failed_searches` rises by one; no other field changes |
| Utils.ResearchStats.SetTotal | src/search_executor.py:146 | `total_queries` takes the batch size; no other field changes |
| Utils.ResearchStats.CompletionRate | src/utils.py:37-41 | 0 when there are no queries, otherwise the rate times the query count is 100 times the completed count |
| Utils.ResearchStats.SuccessRate | src/utils.py:43-48 | 0 when there are no attempts, otherwise completed as a share of completed plus failed, times 100; between 0 and 100 for non-negative counters |
| Utils.NextCounter | src/utils.py:52-56 | below the limit the counter advances by one, otherwise it resets to 0; a counter in [0, L] stays in [0, L] |
| Utils.FloatMod | src/utils.py:53 | Python's float `%` by a positive window lies in [0, window) |
| Utils.RateLimitDelay | src/utils.py:50-56 | suspends exactly when `calls_made >= rate_limit`; then returns 0 after a sleep in (0, window], otherwise returns `calls_made + 1` at once |
| Utils.CounterAfterClosedForm | src/utils.py:50-56 | from a fresh counter, after n calls the counter is n mod (L + 1), so it never leaves [0, L] |
| Utils.LimitThenSuspend | src/utils.py:52-56 | from a fresh counter with limit L, the first L calls do not suspend and the next one does |
| Utils.Fingerprint | src/utils.py:64 | the key is the content's first 200 characters: a prefix of the content, of length 200 when the content has that many |
| Utils.DeduplicateResults | src/utils.py:58-70 | the output keeps the first result per 200-character content prefix. It is a subsequence of the input with pairwise distinct prefixes. Every input prefix is represented, each kept result is the first with its prefix, and deduplicating again changes nothing |
| Utils.LengthBonus | src/utils.py:77 | the bonus lies in [0, 1]; it is 1 from 1000 characters on and the length over 1000 below that |
| Utils.WithLengthBonus | src/utils.py:75-78 | each result's score rises by its own length bonus and nothing else changes |
| Utils.RankResults | src/utils.py:72-80 | the loop adds every bonus, then the results are sorted by score with Python's stable descending sort |
| Utils.RankedFacts | src/utils.py:80 | the ranking is a permutation of the boosted results, sorted non-increasing by score, and results with equal scores keep their input order |
| Collections.KeepFirstPerKey | src/utils.py:61-70 | the loop with the set of seen keys keeps exactly the first element per key, in input order |
| Collections.FirstPerKeySubsequence | src/utils.py:58-70 | keeping the first element per key gives a subsequence of the input |
| Collections.FirstPerKeyKeys | src/utils.py:58-70 | the kept elements carry exactly the keys of the input |
| Collections.FirstPerKeyDistinct | src/utils.py:58-70 | no two kept elements share a key |
| Collections.FirstPerKeyFirst | src/utils.py:58-70 | every kept element is the first of the input with its key |
| Collections.FirstPerKeyIdempotent | src/utils.py:58-70 | applying the first-per-key walk twice is applying it once |
| Collections.SortDesc | src/utils.py:80 | the sort keeps the length and the multiset of elements |
| Collections.SortDescFacts | src/utils.py:80 | the sorted list is non-increasing by key, and the elements sharing a key keep their relative order (stability) |
| Collections.Count | src/result_aggregator.py:98 | an element's count is at most the length and is positive exactly when the element occurs |
| Collections.TallyKeysFirst | src/result_aggregator.py:98 | `Counter`'s keys are the distinct elements in order of first occurrence |
| Collections.TallyDistinct | src/result_aggregator.py:153 | `Counter`'s keys are distinct and its counts add up to the input length |
| Collections.TallyCounts | src/result_aggregator.py:98 | each `Counter` entry holds the exact number of occurrences of its key |
| Collections.MostCommonEntries | src/result_aggregator.py:145 | `most_common(n)` has distinct keys, non-increasing exact positive counts and min(n, number of distinct elements) entries |
| Collections.MostCommonPrefix | src/result_aggregator.py:145 | `most_common(n)` is a prefix of the whole counter sorted by count |
| Collections.MostCommonTop | src/result_aggregator.py:145 | an element `most_common(n)` leaves out occurs no more often than any entry it keeps |
| Text.Lower | src/result_aggregator.py:60 | lower-casing keeps the length and maps each character through the ASCII lower-case map |
| Text.Strip | src/query_generator.py:124 | the result has no leading or trailing whitespace and is no longer than the input |
| Text.StripIsSlice | src/query_generator.py:124 | the stripped text is a contiguous slice of the input, and everything cut off on either side is whitespace |
| Text.Words | src/result_aggregator.py:93 | every piece of `str.split()` is non-empty and holds no whitespace, and the pieces concatenated are the input's non-whitespace characters in order |
| Text.SplitOn | src/query_generator.py:123 | `split('\n')` gives at least one piece and no piece holds the separator |
| Text.JoinSplitOn | src/query_generator.py:123 | joining the pieces with the separator gives the text back |
| Text.Take | src/query_generator.py:142 | the slice `[:n]` is a prefix of length min(n, len) for n >= 0, and drops -n elements from the end for n < 0 |
| Text.WordsOfJoin | main.py:25 | splitting a single-space join of words gives the non-empty words back |
| Text.DigitsValueOfNatDigits | src/search_executor.py:121 | the decimal text of a status code reads back as that code |
| Aggregation.IndicatorCount | src/result_aggregator.py:117 | the number of phrases found is at most the number of phrases |
| Aggregation.IndicatorCountIff | src/result_aggregator.py:76 | `any(...)` holds exactly when the count is positive, exactly when some phrase occurs in the content |
| Aggregation.RatioAbove | src/result_aggregator.py:102 | `count / total > 0.3` is the exact integer test `10 * count > 3 * total` |
| Aggregation.TopEntry | src/result_aggregator.py:98-99 | `most_common(1)` of a non-empty word list is one entry, a word of the list with its exact count |
| Aggregation.TopIsMost | src/result_aggregator.py:99 | no word occurs more often than the one `most_common(1)` returns |
| Aggregation.IsRepetitive | src/result_aggregator.py:91-105 | content with fewer than 20 words is never repetitive |
| Aggregation.IsRepetitiveIff | src/result_aggregator.py:91-105 | content is repetitive exactly when it has at least 20 words and one word takes more than three tenths of the positions |
| Aggregation.IsSubstantiveIff | src/result_aggregator.py:107-125 | content is substantive exactly when it has 1000 characters or more, or 200 times the number of phrases found plus the length exceeds 600; at most 14 phrases count |
| Aggregation.IsSubstantive | src/result_aggregator.py:107-125 | content of 1000 characters or more is always substantive |
| Aggregation.Passes | src/result_aggregator.py:59-81 | a result that passes the quality tests is no error result and has at least 100 characters |
| Aggregation.QualityBoost | src/result_aggregator.py:83-85 | only the score changes, and it either stays or rises by exactly 0.3 |
| Aggregation.QualityFiltered | src/result_aggregator.py:55-89 | the filter never adds results |
| Aggregation.CheckQuality | src/result_aggregator.py:60-87 | a result is kept exactly when it passes the four tests, and a kept result carries the substantive boost |
| Aggregation.FilterQuality | src/result_aggregator.py:55-89 | the output is the passing inputs in order, each with its boost |
| Aggregation.QualityFilteredFacts | src/result_aggregator.py:59-87 | the output is no longer than the input. Every passing input appears boosted and nothing else appears. No output is an error result, shorter than 100 characters, holding an error phrase or repetitive |
| Aggregation.RunLength | src/result_aggregator.py:132 | the run at the front is made of word characters and stops at a non-word character |
| Aggregation.WordRuns | src/result_aggregator.py:132 | the `\b`-delimited runs are non-empty, made of word characters and drawn from the text |
| Aggregation.ExtractThemes | src/result_aggregator.py:145 | at most ten themes |
| Aggregation.ThemeWordShape | src/result_aggregator.py:132-141 | every theme word is at least four lower-case letters long and not a stop word |
| Aggregation.ExtractThemesFacts | src/result_aggregator.py:127-145 | the themes have distinct keys, non-increasing counts and exact positive counts; only the first 20 results are read |
| Aggregation.ExtractThemesTop | src/result_aggregator.py:142-145 | a theme word left out occurs no more often than any theme kept |
| Aggregation.Average | src/result_aggregator.py:150 | 0 when there are no results, otherwise the average times the count is the total |
| Aggregation.GenerateStatistics | src/result_aggregator.py:147-168 | the result count, the total content length and both averages are right. The source histogram has distinct keys and sums to the result count. The threshold is 0.7, and the number above it is at most the result count |
| Aggregation.SourceDistributionCounts | src/result_aggregator.py:153 | each source's histogram entry counts exactly the results from that source |
| Aggregation.Aggregated | src/result_aggregator.py:29-39 | the pipeline never outputs more results than it receives |
| Aggregation.AggregatedSorted | src/result_aggregator.py:29-39 | the ranked output is sorted non-increasing by score and no longer than the input |
| Aggregation.AggregatedSound | src/result_aggregator.py:29-39 | every output is a passing input after both boosts, so it is no error result and its score is at least its incoming score |
| Aggregation.AggregatedComplete | src/result_aggregator.py:29-39 | every input that is first with its content prefix and passes the filter reaches the output |
| Aggregation.RunStages | src/result_aggregator.py:29-47 | the stages produce the ranked pipeline output, and the statistics are those of the ranked list and its themes |
| Aggregation.ResultAggregator.constructor | src/result_aggregator.py:17-18 | a fresh statistics object with zero counters |
| Aggregation.ResultAggregator.AggregateResults | src/result_aggregator.py:20-53 | total, completed and failed are the input counts and add up; `high_quality_results` is the output length; the timing fields are kept |
| SearchExecution.SearchOutcome | src/search_executor.py:72-141 | a delivered reply gives its content, source "<model> via OpenRouter" and score 0.5. A timeout, a non-200 status, an exception or an unreadable body gives an "Error" document with score 0 and content "Search failed: " plus the reason |
| SearchExecution.HttpStatusReadBack | src/search_executor.py:119-125 | the content of an HTTP failure ends with the status code in decimal, which reads back as the code |
| SearchExecution.Outcomes | src/search_executor.py:158-167 | one document per query |
| SearchExecution.OutcomesInOrder | src/search_executor.py:158-167 | the i-th document answers the i-th query |
| SearchExecution.OutcomeCounts | src/search_executor.py:93-141 | the successes of a batch are exactly its delivered replies, and the errors are the rest |
| SearchExecution.SearchExecutor.constructor | src/search_executor.py:32-33 | the counter starts at 0 with fresh statistics; model and limit come from the configuration |
| SearchExecution.SearchExecutor.ExecuteSearch | src/search_executor.py:35-141 | the limiter rule is applied once to `calls_made`. The document is the outcome of the reply. Exactly one of completed and failed rises by one, and the other fields are kept |
| SearchExecution.SearchExecutor.ExecuteBatch | src/search_executor.py:143-173 | sets `total_queries` to the batch size and returns the outcomes in query order. The counters go on from where they were, and the limiter is applied once per query. `completed + failed == total_queries` when they started at 0. The timing covers the batch |
| SearchExecution.SecondBatchCounts | src/search_executor.py:146-147 | two one-query batches on one executor leave `total_queries` at 1 while completed plus failed is 2 |
| QueryGeneration.RemoveFirstPrefix | src/query_generator.py:128-133 | removing a prefix never makes the line longer |
| QueryGeneration.RemoveFirstPrefixStripped | src/query_generator.py:128-133 | removing a prefix from a stripped line leaves it stripped and no longer |
| QueryGeneration.CleanLine | src/query_generator.py:128-133 | the prefix loop with `break` removes the first matching prefix of the list and strips the rest |
| QueryGeneration.ParseLine | src/query_generator.py:124-136 | one line gives its cleaned query, or nothing when it is blank, a `#` line or 10 characters or shorter once cleaned |
| QueryGeneration.CollectQueries | src/query_generator.py:122-136 | the loop collects the queries of all lines in line order |
| QueryGeneration.ParseQueries | src/query_generator.py:122-142 | the parsed queries cut to `num_queries` |
| QueryGeneration.TruncationIsTake | src/query_generator.py:139-142 | a list of at most `num_queries` queries is returned whole, as the untruncated branch does |
| QueryGeneration.QueriesOfShape | src/query_generator.py:123-136 | every query is longer than 10 characters, stripped, and the cleaned form of one of the lines |
| QueryGeneration.SkippedLine | src/query_generator.py:126 | a blank or `#` line can be removed without changing the queries |
| QueryGeneration.ParsedQueriesFacts | src/query_generator.py:122-142 | the parsed queries are a prefix of the line-order list, at most `num_queries` of them. A shorter list is returned whole, not padded |
| QueryGeneration.FirstMatchAt | src/query_generator.py:129-133 | the first prefix in list order that matches decides the line |
| QueryGeneration.NumberedLine | src/query_generator.py:129-133 | a line numbered 1 to 10 loses its whole number, since "10." does not start with "1." |
| QueryGeneration.SafeTopic | src/query_generator.py:159 | the topic itself up to 100 characters, otherwise its first 100 characters and "..." |
| QueryGeneration.FallbackQuery | src/query_generator.py:186-192 | every fallback query is longer than the safe topic it is built around |
| QueryGeneration.FallbackQueryMentionsTopic | src/query_generator.py:161-192 | every fallback query contains the safe topic |
| QueryGeneration.FallbackQueryPeriodic | src/query_generator.py:186-192 | from index 20 on the list repeats with period 20, each entry being the template with " - Advanced perspective" |
| QueryGeneration.GenerateFallbackQueries | src/query_generator.py:156-194 | exactly `num_queries` queries (none for a count below 1), the i-th being template i mod 20 around the safe topic, each containing the safe topic |
| QueryGeneration.FallbackQueriesMentionTopic | src/query_generator.py:161-192 | a list of fallback queries mentions the safe topic in every entry |
| QueryGeneration.GenerateDiverseQueries | src/query_generator.py:117-154 | a delivered reply is parsed; any other outcome gives exactly `num_queries` fallback queries |
| ResearchCli.CleanTopic | main.py:20-30 | the cleaned topic has no leading or trailing whitespace |
| ResearchCli.UnquoteJoin | main.py:27 | the quote substitution commutes with the single-space join |
| ResearchCli.CleanTopicClosedForm | main.py:20-30 | the cleaned topic joins with single spaces the input's words after the substitution, leaving out the words that became empty |
| ResearchCli.CleanTopicIsClean | main.py:23-30 | the cleaned topic has no line break, tab, `"` or backtick, no leading or trailing whitespace and no two consecutive spaces |
| ResearchCli.CleanTopicFixedPoints | main.py:20-30 | `clean_topic(s) == s` exactly when `s` is already clean |
| ResearchCli.CleanTopicIdempotent | main.py:20-30 | cleaning twice is cleaning once |
| ResearchCli.CleanTopicKeepsWords | main.py:25-29 | the words of the cleaned topic are the input's words after the substitution, minus those made only of backticks |
| ResearchCli.CleanTopicBlank | main.py:25-30 | whitespace-only input cleans to the empty string |
| FastAI.TopicStem | src/fast_ai.py:94 | the lower-cased topic with underscores for spaces, cut to 30 characters |
| FastAI.FallbackFilename | src/fast_ai.py:91-96 | at most 30 characters, all in `[a-z0-9_]`, a subsequence of the topic stem (truncation before filtering) |
| FastAI.FallbackFilenameIgnoresTail | src/fast_ai.py:94 | characters after the 30th never matter |
| FastAI.CollapseUnderscores | src/fast_ai.py:76 | no "__" is left, the result is not longer and keeps the input's last character |
| FastAI.CollapseKeepsOthers | src/fast_ai.py:76 | every character other than `_` is kept, in order |
| FastAI.CollapseDrawsFrom | src/fast_ai.py:76 | collapsing introduces no character |
| FastAI.CleanName | src/fast_ai.py:72-76 | the cleanup never makes the reply longer; `CleanNameKeeps` states what it keeps and `CleanNameShape` its shape |
| FastAI.CleanNameKeeps | src/fast_ai.py:72-76 | the cleanup loses no letter or digit: with its underscores removed, the cleaned name is exactly the letters and digits of the lower-cased reply, in order |
| FastAI.CleanNameShape | src/fast_ai.py:72-76 | the cleaned reply uses only `[a-z0-9_]`, has no "__" and, when not empty, neither starts nor ends with `_` |
| FastAI.CleanNameEmpty | src/fast_ai.py:75 | a reply with no letter, digit or underscore cleans to nothing |
| FastAI.EmptyCleanupUsesStem | src/fast_ai.py:79-80 | when the cleanup leaves nothing the topic stem becomes the name |
| FastAI.ReportNameKeepsTopic | src/fast_ai.py:79-80 | then a short lower-case topic without spaces is the name exactly as it is, whatever characters it holds |
| FastAI.TopicStemOfPlainTopic | src/fast_ai.py:94 | a short topic with no capital letter and no space is its own stem |
| FastAI.UnsanitisedReportName | src/fast_ai.py:79-80 | the topic "/tmp/x" with the reply "!!!" yields the name "/tmp/x", which is not a `[a-z0-9_]` name |
| FastAI.GenerateReportName | src/fast_ai.py:70-89 | as written: a failed request gives a `[a-z0-9_]` name of at most 30 characters; a cleaned reply gives a `[a-z0-9_]` name without "__"; an empty cleanup gives the topic stem, at most 30 characters but not sanitised |
| FastAI.GenerateReportNameSanitised | src/fast_ai.py:70-89 | the corrected name always uses only `[a-z0-9_]` and agrees with the written code whenever the cleanup leaves something |
| FastAI.DropDashesRemovesAll | src/fast_ai.py:136 | the unanchored `-\s*` alternative leaves no hyphen anywhere |
| FastAI.DropLeadingNumber | src/fast_ai.py:136 | removing the leading number leaves a suffix of the line |
| FastAI.InsightText | src/fast_ai.py:136 | the insight text of the pattern as written is stripped and holds no hyphen |
| FastAI.DropDashesPast | src/fast_ai.py:136 | text without hyphens passes the hyphen removal unchanged |
| FastAI.HyphenatedInsight | src/fast_ai.py:136 | as written, the bullet "- a-b" gives "ab" |
| FastAI.LineInsights | src/fast_ai.py:133-138 | a line contributes at most one insight |
| FastAI.ReplyInsights | src/fast_ai.py:131-140 | at most `max_insights` insights |
| FastAI.ParseInsightLine | src/fast_ai.py:133-138 | the loop body gives a stripped entry line's insight text when it is not empty, and nothing otherwise |
| FastAI.CollectInsights | src/fast_ai.py:131-138 | the loop collects the insights of all lines in line order |
| FastAI.ParseInsights | src/fast_ai.py:131-140 | the loop returns the insights of the lines in order, cut to `max_insights`; each is non-empty, stripped and, as the pattern is written, free of hyphens |
| FastAI.ExtractKeyInsights | src/fast_ai.py:126-146 | a delivered reply is stripped and parsed; any other outcome gives no insights; no insight holds a hyphen |
| FastAI.LineInsightsShape | src/fast_ai.py:133-138 | with the pattern as written, a line's insight is non-empty, stripped and free of hyphens, and only a line starting with a digit or `-` has one |
| FastAI.ReplyInsightsShape | src/fast_ai.py:131-140 | with the pattern as written, every insight is non-empty, stripped, free of hyphens and the insight of one of the reply's lines |
| FastAI.ReplyInsightsCount | src/fast_ai.py:140 | with the pattern as written, at most `max_insights` insights, the first ones in line order |
| FastAI.UnmarkedLineIgnored | src/fast_ai.py:134 | with the pattern as written, a line starting with neither a digit nor `-` gives nothing |
| FastAI.HyphenatedReplyLosesHyphen | src/fast_ai.py:131-140 | as written, a one-line reply "- a-b" gives the single insight "ab" |
| FastAI.AnchoredBulletKeepsText | src/fast_ai.py:136 | corrected, with the pattern anchored, a bullet "- t" gives back `t` unchanged |
| FastAI.AnchoredNumberKeepsText | src/fast_ai.py:136 | corrected, with the pattern anchored, "<digits>. t" gives back `t` unchanged |
| FastAI.AnchoredKeepsHyphen | src/fast_ai.py:136 | corrected, with the pattern anchored, the bullet "- a-b" gives "a-b" |
| FastAI.LineInsightsAnchored | src/fast_ai.py:133-138 | corrected parser: a line contributes at most one insight |
| FastAI.ReplyInsightsAnchored | src/fast_ai.py:131-140 | corrected parser: at most `max_insights` insights |
| FastAI.HyphenatedBulletInsight | src/fast_ai.py:131-140 | corrected, a one-line reply "- a-b" gives the single insight "a-b" |
| FastAI.AnchoredAgreesWithoutHyphens | src/fast_ai.py:131-140 | on a reply without hyphens the corrected parser and the written one give the same insights |
| FastAI.GenerateSummary | src/fast_ai.py:176-185 | a delivered reply gives the prefix of its stripped text of exactly min(`max_length`, length) characters (the whole text when it fits); a negative `max_length` drops that many characters from the end, leaving nothing when there are fewer; any other outcome gives the failure notice |

## Left out

- HTTP requests are inputs: each request's outcome is a `Backend.Reply`. `TimedOut` stands for `asyncio.TimeoutError` only; an `httpx` timeout takes the generic handler and is a `Raised`. This covers `httpx` clients, headers, prompts, temperatures, the per-call timeout and `close()`.
- `generate_initial_search_query` (src/query_generator.py:28-61) is left out: one request whose reply is returned stripped, with no logic beyond the request.
- `time.time()` readings are parameters: `StartTiming`/`EndTiming` take `now`, and each `Attempt` carries the limiter and stamping readings.
- `asyncio.sleep` is not performed: its duration is returned in `Pacing.sleepSeconds`.
- SearchExecution.SearchExecutor.ExecuteBatch: the semaphore and `asyncio.gather` are modelled as a sequential loop in query order. This is exact for the documents, which `gather` returns in submission order, and for the completed and failed counters, which are updated without an `await` between read and write. It is not exact for the rate limiter once it suspends: `execute_search` reads `calls_made` and awaits `rate_limit_delay` (src/search_executor.py:44-47), which sleeps when `calls_made >= rate_limit` (src/utils.py:52-55). With `max_concurrent_searches` above 1 (10 by default), every search that starts during that sleep also reads the limit, sleeps and writes 0. So `callsMade == CounterAfter(...)` and one sleep per L + 1 calls describe a concurrency of 1 only.
- SearchExecution.SearchExecutor.ExecuteBatch: the branch for exceptions returned by `gather` (src/search_executor.py:168-170) is left out. `execute_search` catches every `Exception`, so only a cancellation could reach it.
- Console output, the search preview (src/search_executor.py:39-41) and the `search_num`/`total_searches` arguments, which only affect printing, are left out.
- The `get_stats` accessors (src/search_executor.py:179-181, src/result_aggregator.py:170-172) return the statistics object; the model reads the `stats` field directly.
- Utils.DeduplicateResults: compares the 200-character prefix itself rather than its `hash()`, so hash collisions, which would drop more results, are not modelled.
- Scores are reals, so float rounding is not modelled. Exactly at a threshold CPython may disagree with the model: for example, 2 phrases at 200 characters give `0.2 + 0.1 = 0.30000000000000004 > 0.3`. The repetitive test is exact, as `10 * count > 3 * total`.
- Text is ASCII:
  - `isspace`, `lower`, `split` and the `\b` of the theme regular expression are Unicode-aware in Python;
  - the model treats non-ASCII characters as neither whitespace, upper-case nor word characters.
- Aliasing of document objects is not modelled: `rank_results` and `_filter_quality` raise `relevance_score` on shared objects in place, and the caller's list sees the new scores. The model returns updated copies. Within `aggregate_results` dedup keeps one occurrence of each object, so no document is boosted twice.
- The `content_preview` truncations (src/fast_ai.py:32, 101, 151) only shape request prompts.
- src/report_generator.py, src/cli_formatter.py and convert_reports.py are not part of this model: they cover report templating, files, PDF conversion and console output.
- Only `clean_topic` is modelled from main.py; `run_research_pipeline`, `save_queries_to_file` and the CLI are not.
- Loading the configuration from the environment and `.env`, with `int()` parsing, is not modelled; `Config` holds the parsed values.

## Findings

| source | as written | input that shows it | evidently intended | confidence | as-written member | corrected member |
|---|---|---|---|---|---|---|
| src/fast_ai.py:136 | the `-\s*` alternative of the marker pattern is not anchored, so every hyphen in an insight is deleted with the whitespace after it | the line "- state-of-the-art design" gives "stateoftheart design" | only the leading number or bullet is removed (`^(?:\d+\.?\s*\|-\s*)`), keeping hyphens inside the text | high; not executed | FastAI.HyphenatedReplyLosesHyphen | FastAI.HyphenatedBulletInsight |
| src/fast_ai.py:79-80 | when the cleanup of the model's reply leaves nothing, the topic stem is used without removing characters outside `[a-z0-9_]` | topic "/tmp/x" with the reply "!!!" gives the name "/tmp/x", which `os.path.join` at src/report_generator.py:214 treats as an absolute path | the empty-cleanup name sanitised like `_generate_fallback_filename` | medium; not executed | FastAI.UnsanitisedReportName | FastAI.GenerateReportNameSanitised |
