/** The aggregation engine (src/result_aggregator.py): deduplication, the quality filter with its
    boost, ranking, theme extraction and statistics, run as one fixed pipeline. */
module Aggregation {
  import opened Text
  import opened Collections
  import opened Utils

  // ---------------------------------------------------------------- content tests

  /** Phrases whose presence marks content as an error message. */
  const ErrorIndicators: seq<String> := [
    "search failed", "error", "not found", "unable to", "cannot", "failed", "timeout", "exception"]

  /** Phrases that mark content as substantive; each counts at most once. */
  const SubstantiveIndicators: seq<String> := [
    "research", "study", "analysis", "data", "evidence",
    "according to", "research shows", "study found",
    "experts believe", "results indicate", "conclusion",
    "methodology", "findings", "investigation"]

  /** `any(indicator in content for indicator in indicators)`. */
  predicate ContainsAny(content: String, indicators: seq<String>) {
    indicators != [] && (Contains(content, indicators[0]) || ContainsAny(content, indicators[1..]))
  }

  /** `sum(1 for indicator in indicators if indicator in content)`: how many of the phrases occur,
      not how often. */
  function IndicatorCount(content: String, indicators: seq<String>): (n: nat)
    ensures n <= |indicators|
  {
    if indicators == [] then 0
    else (if Contains(content, indicators[0]) then 1 else 0) + IndicatorCount(content, indicators[1..])
  }

  /** Some phrase occurs exactly when at least one is counted, and the count is the number of
      phrase positions whose phrase occurs. */
  lemma {:induction false} IndicatorCountIff(content: String, indicators: seq<String>)
    ensures ContainsAny(content, indicators) <==> IndicatorCount(content, indicators) > 0
    ensures ContainsAny(content, indicators) <==>
      exists i :: 0 <= i < |indicators| && Contains(content, indicators[i])
  {
    if indicators != [] {
      IndicatorCountIff(content, indicators[1..]);
      if exists i :: 0 <= i < |indicators| && Contains(content, indicators[i]) {
        var i :| 0 <= i < |indicators| && Contains(content, indicators[i]);
        if i > 0 {
          assert indicators[1..][i - 1] == indicators[i];
        }
      }
      if exists i :: 0 <= i < |indicators[1..]| && Contains(content, indicators[1..][i]) {
        var i :| 0 <= i < |indicators[1..]| && Contains(content, indicators[1..][i]);
        assert indicators[i + 1] == indicators[1..][i];
      }
    }
  }

  /** `_is_repetitive`: with at least 20 whitespace-separated words, the most frequent word makes
      up more than 30% of them. */
  function IsRepetitive(content: String): (repetitive: bool)
    ensures repetitive ==> |Words(content)| >= 20
  {
    var words := Words(content);
    if |words| < 20 then false
    else
      var top := MostCommon(words, 1);
      assert |top| == 1 by {
        TopEntry(words);
      }
      top[0].count as real / |words| as real > 0.3
  }

  /** Dividing by a positive number and comparing is comparing with the product. */
  lemma DivAbove(a: real, b: real, c: real)
    requires b > 0.0
    ensures a / b > c <==> a > c * b
  {
    var q := a / b;
    assert q * b == a;
    if q > c {
      assert (q - c) * b > 0.0;
    } else {
      assert (c - q) * b >= 0.0;
    }
  }

  /** The float test `count / total > 0.3` is the integer test `10 * count > 3 * total`. */
  lemma RatioAbove(count: nat, total: nat)
    requires total > 0
    ensures count as real / total as real > 0.3 <==> 10 * count > 3 * total
  {
    DivAbove(count as real, total as real, 0.3);
  }

  /** Repetitive content is content with 20 or more words one of which occurs in more than
      three tenths of the positions. */
  lemma IsRepetitiveIff(content: String)
    ensures IsRepetitive(content) <==>
      |Words(content)| >= 20 &&
      exists w :: w in Words(content) && 10 * Count(Words(content), w) > 3 * |Words(content)|
  {
    var words := Words(content);
    if |words| >= 20 {
      var top := MostCommon(words, 1);
      TopEntry(words);
      RatioAbove(top[0].count, |words|);
      if exists w :: w in words && 10 * Count(words, w) > 3 * |words| {
        var w :| w in words && 10 * Count(words, w) > 3 * |words|;
        TopIsMost(words, w);
      }
    }
  }

  /** `most_common(1)` of a non-empty list is one entry: an element with its exact count. */
  lemma TopEntry(words: seq<String>)
    requires words != []
    ensures |MostCommon(words, 1)| == 1
    ensures MostCommon(words, 1)[0].key in words
    ensures MostCommon(words, 1)[0].count == Count(words, MostCommon(words, 1)[0].key)
  {
    MostCommonEntries(words, 1);
    TallyKeysFirst(words);
    assert words[0] in words;
  }

  /** No element occurs more often than the one `most_common(1)` returns. */
  lemma TopIsMost(words: seq<String>, w: String)
    requires w in words
    ensures Count(words, w) <= MostCommon(words, 1)[0].count
  {
    TopEntry(words);
    var top := MostCommon(words, 1);
    if w !in TallyKeys(top) {
      MostCommonTop(words, 1, w);
    } else {
      assert TallyKeys(top)[0] == top[0].key;
    }
  }

  /** `_is_substantive`: a tenth per phrase found plus half the length bonus must exceed 0.3. */
  function IsSubstantive(content: String): (substantive: bool)
    ensures |content| >= 1000 ==> substantive
  {
    var count := IndicatorCount(Lower(content), SubstantiveIndicators);
    count as real * 0.1 + LengthBonus(content) * 0.5 > 0.3
  }

  /** In integers: content of 1000 characters or more is always substantive; shorter content
      needs `200 * phrases + length > 600` (so four phrases always suffice, and without any
      phrase more than 600 characters are needed). */
  lemma IsSubstantiveIff(content: String)
    ensures IsSubstantive(content) <==>
      |content| >= 1000 || 200 * IndicatorCount(Lower(content), SubstantiveIndicators) + |content| > 600
    ensures IndicatorCount(Lower(content), SubstantiveIndicators) <= 14
  {
  }

  // ---------------------------------------------------------------- quality filter

  /** The tests `_filter_quality` applies to one result, on its lower-cased content. */
  predicate Passes(r: SearchResult): (ok: bool)
    ensures ok ==> r.source != ErrorSource && |r.content| >= 100
  {
    var content := Lower(r.content);
    r.source != ErrorSource
    && |content| >= 100
    && !ContainsAny(content, ErrorIndicators)
    && !IsRepetitive(content)
  }

  /** The +0.3 boost for substantive content; nothing but the score changes. */
  function QualityBoost(r: SearchResult): (b: SearchResult)
    ensures b.query == r.query && b.content == r.content && b.source == r.source && b.timestamp == r.timestamp
    ensures b.relevanceScore == r.relevanceScore || b.relevanceScore == r.relevanceScore + 0.3
  {
    if IsSubstantive(Lower(r.content)) then r.(relevanceScore := r.relevanceScore + 0.3) else r
  }

  function BoostAll(rs: seq<SearchResult>): (b: seq<SearchResult>)
    ensures |b| == |rs|
    ensures forall i :: 0 <= i < |rs| ==> b[i] == QualityBoost(rs[i])
  {
    seq(|rs|, i requires 0 <= i < |rs| => QualityBoost(rs[i]))
  }

  lemma BoostAllAppend(rs: seq<SearchResult>, x: SearchResult)
    ensures BoostAll(rs + [x]) == BoostAll(rs) + [QualityBoost(x)]
  {
    assert forall i :: 0 <= i < |rs| ==> (rs + [x])[i] == rs[i];
  }

  /** What `_filter_quality` returns: the passing results in order, each boosted. */
  function QualityFiltered(rs: seq<SearchResult>): (q: seq<SearchResult>)
    ensures |q| <= |rs|
  {
    BoostAll(Filter(Passes, rs))
  }

  /** One pass of `_filter_quality`'s loop: whether the result is kept (each `continue` is a
      `false`), and the result with the substantive boost applied. */
  method CheckQuality(result: SearchResult) returns (keep: bool, boosted: SearchResult)
    ensures keep == Passes(result)
    ensures keep ==> boosted == QualityBoost(result)
  {
    boosted := result;
    var content := Lower(result.content);
    if result.source == ErrorSource {
      return false, boosted;
    }
    if |content| < 100 {
      return false, boosted;
    }
    if ContainsAny(content, ErrorIndicators) {
      return false, boosted;
    }
    if IsRepetitive(content) {
      return false, boosted;
    }
    if IsSubstantive(content) {
      boosted := result.(relevanceScore := result.relevanceScore + 0.3);
    }
    keep := true;
  }

  /** `_filter_quality`: skips error results, content shorter than 100 characters, content with
      an error phrase and repetitive content; boosts the substantive rest by 0.3. */
  method FilterQuality(results: seq<SearchResult>) returns (filtered: seq<SearchResult>)
    ensures filtered == QualityFiltered(results)
  {
    filtered := [];
    for i := 0 to |results|
      invariant filtered == BoostAll(Filter(Passes, results[..i]))
    {
      FilterStep(Passes, results, i);
      BoostAllAppend(Filter(Passes, results[..i]), results[i]);
      var keep, result := CheckQuality(results[i]);
      if keep {
        filtered := filtered + [result];
      }
    }
    assert results[..|results|] == results;
  }

  /** The filter's output keeps every passing input, boosted, and nothing else. */
  lemma QualityFilteredFacts(results: seq<SearchResult>)
    ensures |QualityFiltered(results)| <= |results|
    ensures forall x :: x in results && Passes(x) ==> QualityBoost(x) in QualityFiltered(results)
    ensures forall y :: y in QualityFiltered(results) ==>
      exists x :: x in results && Passes(x) && y == QualityBoost(x)
    ensures forall i :: 0 <= i < |QualityFiltered(results)| ==>
      var y := QualityFiltered(results)[i];
      y.source != ErrorSource && |y.content| >= 100
      && !ContainsAny(Lower(y.content), ErrorIndicators) && !IsRepetitive(Lower(y.content))
  {
    var kept := Filter(Passes, results);
    var filtered := QualityFiltered(results);
    FilterMembers(Passes, results);
    forall x | x in results && Passes(x) ensures QualityBoost(x) in filtered {
      FilterKeeps(Passes, results, x);
      var j :| 0 <= j < |kept| && kept[j] == x;
      assert filtered[j] == QualityBoost(x);
    }
    forall y | y in filtered ensures exists x :: x in results && Passes(x) && y == QualityBoost(x) {
      var j :| 0 <= j < |filtered| && filtered[j] == y;
      assert kept[j] in kept;
    }
    forall i | 0 <= i < |filtered|
      ensures filtered[i].source != ErrorSource && |filtered[i].content| >= 100
      && !ContainsAny(Lower(filtered[i].content), ErrorIndicators)
      && !IsRepetitive(Lower(filtered[i].content))
    {
      assert kept[i] in kept;
    }
  }

  // ---------------------------------------------------------------- themes

  /** Stop words removed before counting themes. */
  const StopWords: set<String> := {
    "that", "this", "with", "from", "they", "have", "been",
    "their", "what", "when", "where", "will", "would", "could",
    "should", "about", "which", "there", "were", "said", "each"}

  /** A regular-expression word character (`\w`), restricted to ASCII. */
  predicate IsWordChar(c: char) { IsUpper(c) || IsLowerLetter(c) || IsDigit(c) || c == '_' }

  predicate IsLetter(c: char) { IsUpper(c) || IsLowerLetter(c) }

  /** Length of the run of word characters at the front of `s`. */
  function RunLength(s: String): (n: nat)
    ensures n <= |s|
    ensures forall i :: 0 <= i < n ==> IsWordChar(s[i])
    ensures n < |s| ==> !IsWordChar(s[n])
  {
    if s == [] || !IsWordChar(s[0]) then 0 else 1 + RunLength(s[1..])
  }

  /** The maximal runs of word characters of `s`, in order: the stretches between `\b`s. */
  function WordRuns(s: String): (ws: seq<String>)
    ensures forall k :: 0 <= k < |ws| ==> ws[k] != [] && forall i :: 0 <= i < |ws[k]| ==> IsWordChar(ws[k][i])
    ensures forall k, i :: 0 <= k < |ws| && 0 <= i < |ws[k]| ==> ws[k][i] in s
    decreases |s|
  {
    if s == [] then []
    else if !IsWordChar(s[0]) then
      var rest := WordRuns(s[1..]);
      assert forall k, i :: 0 <= k < |rest| && 0 <= i < |rest[k]| ==> rest[k][i] in s[1..];
      rest
    else
      var n := RunLength(s);
      var rest := WordRuns(s[n..]);
      assert forall k, i :: 0 <= k < |rest| && 0 <= i < |rest[k]| ==> rest[k][i] in s[n..];
      assert forall i :: 0 <= i < n ==> s[..n][i] in s;
      [s[..n]] + rest
  }

  /** A match of `\b[a-zA-Z]{4,}\b`: a whole word-character run made of at least four letters. */
  predicate IsLongLetterRun(w: String) {
    |w| >= 4 && forall i :: 0 <= i < |w| ==> IsLetter(w[i])
  }

  predicate IsNotStopWord(w: String) { w !in StopWords }

  function Contents(rs: seq<SearchResult>): (cs: seq<String>)
    ensures |cs| == |rs|
    ensures forall i :: 0 <= i < |rs| ==> cs[i] == rs[i].content
  {
    seq(|rs|, i requires 0 <= i < |rs| => rs[i].content)
  }

  /** The lower-cased, space-joined content of the first 20 results. */
  function ThemeText(results: seq<SearchResult>): String {
    Lower(Join(" ", Contents(Take(results, 20))))
  }

  /** `re.findall(r'\b[a-zA-Z]{4,}\b', text)` followed by the stop-word filter. */
  function ThemeWords(results: seq<SearchResult>): seq<String> {
    Filter(IsNotStopWord, Filter(IsLongLetterRun, WordRuns(ThemeText(results))))
  }

  /** `_extract_themes`: the ten most common theme words with their counts. */
  function ExtractThemes(results: seq<SearchResult>): (themes: seq<Tallied<String>>)
    ensures |themes| <= 10
  {
    MostCommon(ThemeWords(results), 10)
  }

  /** Every theme word is at least four lower-case letters long and not a stop word. */
  lemma ThemeWordShape(results: seq<SearchResult>, w: String)
    requires w in ThemeWords(results)
    ensures |w| >= 4 && w !in StopWords
    ensures forall i :: 0 <= i < |w| ==> IsLowerLetter(w[i])
  {
    var text := ThemeText(results);
    var runs := WordRuns(text);
    FilterMembers(IsNotStopWord, Filter(IsLongLetterRun, runs));
    FilterMembers(IsLongLetterRun, runs);
    var k :| 0 <= k < |runs| && runs[k] == w;
    forall i | 0 <= i < |w| ensures IsLowerLetter(w[i]) {
      assert w[i] in text;
      var j :| 0 <= j < |text| && text[j] == w[i];
      assert !IsUpper(text[j]);
    }
  }

  /** The themes: at most ten, distinct, each a theme word with its exact positive count, counts
      non-increasing; only the first 20 results are read. */
  lemma ExtractThemesFacts(results: seq<SearchResult>)
    ensures KeysDistinct(ExtractThemes(results))
    ensures SortedDesc(ExtractThemes(results), CountOf)
    ensures forall i :: 0 <= i < |ExtractThemes(results)| ==>
      var e := ExtractThemes(results)[i];
      |e.key| >= 4 && e.key !in StopWords && (forall j :: 0 <= j < |e.key| ==> IsLowerLetter(e.key[j]))
      && e.count == Count(ThemeWords(results), e.key) && e.count >= 1
    ensures ExtractThemes(Take(results, 20)) == ExtractThemes(results)
  {
    var words := ThemeWords(results);
    MostCommonEntries(words, 10);
    var themes := ExtractThemes(results);
    forall i | 0 <= i < |themes|
      ensures |themes[i].key| >= 4 && themes[i].key !in StopWords
      && forall j :: 0 <= j < |themes[i].key| ==> IsLowerLetter(themes[i].key[j])
    {
      ThemeWordShape(results, themes[i].key);
    }
    assert Take(Take(results, 20), 20) == Take(results, 20);
  }

  /** A theme word that did not make the list occurs no more often than any that did. */
  lemma ExtractThemesTop(results: seq<SearchResult>, w: String)
    requires w in ThemeWords(results) && w !in TallyKeys(ExtractThemes(results))
    ensures forall i :: 0 <= i < |ExtractThemes(results)| ==>
      Count(ThemeWords(results), w) <= ExtractThemes(results)[i].count
  {
    MostCommonTop(ThemeWords(results), 10, w);
  }

  // ---------------------------------------------------------------- statistics

  const HighQualityThreshold: real := 0.7

  /** The dictionary `_generate_statistics` returns. */
  datatype Statistics = Statistics(
    totalResults: nat,
    totalContentLength: nat,
    averageContentLength: real,
    averageRelevanceScore: real,
    topThemes: seq<Tallied<String>>,
    sourceDistribution: seq<Tallied<String>>,
    highQualityThreshold: real,
    resultsAboveThreshold: nat)

  function TotalContentLength(rs: seq<SearchResult>): nat {
    if rs == [] then 0 else TotalContentLength(rs[..|rs| - 1]) + |rs[|rs| - 1].content|
  }

  function TotalScore(rs: seq<SearchResult>): real {
    if rs == [] then 0.0 else TotalScore(rs[..|rs| - 1]) + rs[|rs| - 1].relevanceScore
  }

  function Sources(rs: seq<SearchResult>): (ss: seq<String>)
    ensures |ss| == |rs|
    ensures forall i :: 0 <= i < |rs| ==> ss[i] == rs[i].source
  {
    seq(|rs|, i requires 0 <= i < |rs| => rs[i].source)
  }

  /** `total / n if n else 0`. */
  function Average(total: real, n: nat): (avg: real)
    ensures n == 0 ==> avg == 0.0
    ensures n > 0 ==> avg * n as real == total
  {
    if n > 0 then total / n as real else 0.0
  }

  predicate IsAboveThreshold(r: SearchResult) { r.relevanceScore > HighQualityThreshold }

  /** `_generate_statistics`. */
  function GenerateStatistics(results: seq<SearchResult>, themes: seq<Tallied<String>>): (st: Statistics)
    ensures st.totalResults == |results| && st.topThemes == themes
    ensures st.totalContentLength == TotalContentLength(results)
    ensures st.averageContentLength == Average(st.totalContentLength as real, st.totalResults)
    ensures st.averageRelevanceScore == Average(TotalScore(results), st.totalResults)
    ensures TotalCount(st.sourceDistribution) == st.totalResults && KeysDistinct(st.sourceDistribution)
    ensures st.highQualityThreshold == 0.7
    ensures st.resultsAboveThreshold == |Filter(IsAboveThreshold, results)| <= st.totalResults
  {
    var total := TotalContentLength(results);
    var n := |results|;
    var averageLength := Average(total as real, n);
    var averageScore := Average(TotalScore(results), n);
    TallyDistinct(Sources(results));
    Statistics(
      n,
      total,
      averageLength,
      averageScore,
      themes,
      Tally(Sources(results)),
      HighQualityThreshold,
      |Filter(IsAboveThreshold, results)|)
  }

  /** Each source's entry in the histogram counts exactly the results from that source. */
  lemma SourceDistributionCounts(results: seq<SearchResult>, themes: seq<Tallied<String>>)
    ensures forall e :: e in GenerateStatistics(results, themes).sourceDistribution ==>
      e.count == Count(Sources(results), e.key) && e.count >= 1 && e.key in Sources(results)
  {
    forall e | e in GenerateStatistics(results, themes).sourceDistribution
      ensures e.count == Count(Sources(results), e.key) && e.count >= 1 && e.key in Sources(results)
    {
      TallyEntry(Sources(results), e);
    }
  }

  // ---------------------------------------------------------------- the pipeline

  /** A result after both boosts: the quality boost, then the length bonus. */
  function Finished(r: SearchResult): SearchResult {
    AddLengthBonus(QualityBoost(r))
  }

  /** The ranked output of `aggregate_results`: dedup, quality filter, rank. */
  function Aggregated(results: seq<SearchResult>): (ranked: seq<SearchResult>)
    ensures |ranked| <= |results|
  {
    SortDesc(WithLengthBonus(QualityFiltered(FirstPerKey(results, Fingerprint))), Score)
  }

  /** The ranked output is sorted by score and no longer than the input. */
  lemma AggregatedSorted(results: seq<SearchResult>)
    ensures SortedDesc(Aggregated(results), Score)
    ensures |Aggregated(results)| <= |results|
  {
    var unique := FirstPerKey(results, Fingerprint);
    SortDescFacts(WithLengthBonus(QualityFiltered(unique)), Score, 0.0);
    QualityFilteredFacts(unique);
  }

  /** Each output element is a passing input after both boosts, so it is no error result and
      its score is at least the incoming one. */
  lemma AggregatedSound(results: seq<SearchResult>, y: SearchResult)
    requires y in Aggregated(results)
    ensures y.source != ErrorSource
    ensures exists x :: x in results && Passes(x) && y == Finished(x) && y.relevanceScore >= x.relevanceScore
  {
    var unique := FirstPerKey(results, Fingerprint);
    var kept := Filter(Passes, unique);
    var boosted := WithLengthBonus(QualityFiltered(unique));
    FilterMembers(Passes, unique);
    assert y in multiset(boosted);
    var j :| 0 <= j < |boosted| && boosted[j] == y;
    var x := kept[j];
    assert x in kept;
    assert y == Finished(x);
    FirstPerKeySubsequence(results, Fingerprint);
    SubsequenceMembers(unique, results);
  }

  /** Every input that is the first with its content prefix and passes the filter reaches the
      output, after both boosts. */
  lemma AggregatedComplete(results: seq<SearchResult>, x: SearchResult)
    requires x in FirstPerKey(results, Fingerprint) && Passes(x)
    ensures Finished(x) in Aggregated(results)
  {
    var unique := FirstPerKey(results, Fingerprint);
    var kept := Filter(Passes, unique);
    var boosted := WithLengthBonus(QualityFiltered(unique));
    FilterKeeps(Passes, unique, x);
    var j :| 0 <= j < |kept| && kept[j] == x;
    assert boosted[j] == Finished(x);
    assert boosted[j] in multiset(Aggregated(results));
  }

  /** Steps 1 to 5 of `aggregate_results`: dedup, quality filter, ranking, themes from the
      ranked list, statistics. */
  method RunStages(results: seq<SearchResult>) returns (ranked: seq<SearchResult>, statistics: Statistics)
    ensures ranked == Aggregated(results)
    ensures statistics == GenerateStatistics(ranked, ExtractThemes(ranked))
  {
    var unique := DeduplicateResults(results);
    var filtered := FilterQuality(unique);
    ranked := RankResults(filtered);
    var themes := ExtractThemes(ranked);
    statistics := GenerateStatistics(ranked, themes);
  }

  /** `ResultAggregator`: the pipeline, with the counters it records. */
  class ResultAggregator {
    const stats: ResearchStats

    constructor ()
      ensures fresh(stats)
      ensures stats.totalQueries == 0 && stats.completedSearches == 0 && stats.failedSearches == 0
      ensures stats.highQualityResults == 0
    {
      stats := new ResearchStats();
    }

    /** `aggregate_results`: records the input counts, runs dedup, quality filter and ranking,
        extracts themes from the ranked list and builds the statistics. */
    method AggregateResults(results: seq<SearchResult>) returns (ranked: seq<SearchResult>, statistics: Statistics)
      modifies stats
      ensures ranked == Aggregated(results)
      ensures statistics == GenerateStatistics(ranked, ExtractThemes(ranked))
      ensures stats.totalQueries == |results|
      ensures stats.completedSearches == SuccessCount(results)
      ensures stats.failedSearches == ErrorCount(results)
      ensures stats.completedSearches + stats.failedSearches == stats.totalQueries
      ensures stats.highQualityResults == |ranked|
      ensures stats.startTime == old(stats.startTime) && stats.processingTime == old(stats.processingTime)
    {
      // The stages read nothing from `stats`, so they run before the counters are written.
      ranked, statistics := RunStages(results);
      SuccessAndErrorCounts(results);
      stats.SetCounts(|results|, SuccessCount(results), ErrorCount(results), |ranked|);
    }
  }
}
