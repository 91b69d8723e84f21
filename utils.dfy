/** The shared records and result utilities (src/utils.py): the document record, the run
    statistics, the rate-limit counter rule, deduplication and ranking. */
module Utils {
  import opened Text
  import opened Collections

  /** `SearchResult`: one fetched document. A `source` equal to "Error" marks a failed fetch. */
  datatype SearchResult = SearchResult(
    query: String,
    content: String,
    source: String,
    timestamp: real,
    relevanceScore: real)

  const ErrorSource: String := "Error"

  predicate IsError(r: SearchResult) { r.source == ErrorSource }

  predicate IsNotError(r: SearchResult) { r.source != ErrorSource }

  function Score(r: SearchResult): real { r.relevanceScore }

  /** `len([r for r in results if r.source != "Error"])`. */
  function SuccessCount(results: seq<SearchResult>): (n: nat)
    ensures n <= |results|
  {
    if results == [] then 0
    else SuccessCount(results[..|results| - 1]) + (if IsError(results[|results| - 1]) then 0 else 1)
  }

  /** `len([r for r in results if r.source == "Error"])`. */
  function ErrorCount(results: seq<SearchResult>): (n: nat)
    ensures n <= |results|
  {
    if results == [] then 0
    else ErrorCount(results[..|results| - 1]) + (if IsError(results[|results| - 1]) then 1 else 0)
  }

  /** Every input is counted exactly once, as a success or as an error. */
  lemma {:induction false} SuccessAndErrorCounts(results: seq<SearchResult>)
    ensures SuccessCount(results) + ErrorCount(results) == |results|
  {
    if results != [] {
      SuccessAndErrorCounts(results[..|results| - 1]);
    }
  }

  /** One more result raises exactly one of the two counts. */
  lemma CountsAppend(results: seq<SearchResult>, r: SearchResult)
    ensures SuccessCount(results + [r]) == SuccessCount(results) + (if IsError(r) then 0 else 1)
    ensures ErrorCount(results + [r]) == ErrorCount(results) + (if IsError(r) then 1 else 0)
  {
    assert (results + [r])[..|results|] == results;
  }

  /** The two counters are the lengths of the two list comprehensions, read as filters. */
  lemma {:induction false} CountsAreFilters(results: seq<SearchResult>)
    ensures SuccessCount(results) == |Filter(IsNotError, results)|
    ensures ErrorCount(results) == |Filter(IsError, results)|
  {
    if results != [] {
      CountsAreFilters(results[..|results| - 1]);
    }
  }

  /** `(part / whole) * 100`, or 0 when `whole` is 0. */
  function Percentage(part: int, whole: int): real {
    if whole == 0 then 0.0 else (part as real / whole as real) * 100.0
  }

  lemma PercentageBounds(part: int, whole: int)
    ensures 0 <= part <= whole ==> 0.0 <= Percentage(part, whole) <= 100.0
  {
    if 0 <= part <= whole && whole != 0 {
      var q := part as real / whole as real;
      assert q * whole as real == part as real;
      assert q <= 1.0 by {
        if q > 1.0 {
          assert q * whole as real > 1.0 * whole as real;
        }
      }
    }
  }

  /** `ResearchStats`: the counters of one pipeline run. */
  class ResearchStats {
    var totalQueries: int
    var completedSearches: int
    var failedSearches: int
    var highQualityResults: int
    var processingTime: real
    var startTime: real

    constructor ()
      ensures totalQueries == 0 && completedSearches == 0 && failedSearches == 0
      ensures highQualityResults == 0 && processingTime == 0.0 && startTime == 0.0
    {
      totalQueries, completedSearches, failedSearches, highQualityResults := 0, 0, 0, 0;
      processingTime, startTime := 0.0, 0.0;
    }

    /** `start_timing`, with the clock reading passed in. */
    method StartTiming(now: real)
      modifies this
      ensures startTime == now
      ensures totalQueries == old(totalQueries) && completedSearches == old(completedSearches)
      ensures failedSearches == old(failedSearches) && highQualityResults == old(highQualityResults)
      ensures processingTime == old(processingTime)
    {
      startTime := now;
    }

    /** `end_timing`: the processing time is the clock reading minus the start time. */
    method EndTiming(now: real)
      modifies this
      ensures processingTime == now - old(startTime)
      ensures totalQueries == old(totalQueries) && completedSearches == old(completedSearches)
      ensures failedSearches == old(failedSearches) && highQualityResults == old(highQualityResults)
      ensures startTime == old(startTime)
    {
      processingTime := now - startTime;
    }

    /** Writes the four result counters at once; the timing fields are kept. */
    method SetCounts(total: int, completed: int, failed: int, highQuality: int)
      modifies this
      ensures totalQueries == total && completedSearches == completed
      ensures failedSearches == failed && highQualityResults == highQuality
      ensures processingTime == old(processingTime) && startTime == old(startTime)
    {
      totalQueries, completedSearches, failedSearches := total, completed, failed;
      highQualityResults := highQuality;
    }

    /** `completed_searches += 1`. */
    method RecordCompleted()
      modifies this
      ensures completedSearches == old(completedSearches) + 1
      ensures totalQueries == old(totalQueries) && failedSearches == old(failedSearches)
      ensures highQualityResults == old(highQualityResults)
      ensures processingTime == old(processingTime) && startTime == old(startTime)
    {
      completedSearches := completedSearches + 1;
    }

    /** `failed_searches += 1`. */
    method RecordFailed()
      modifies this
      ensures failedSearches == old(failedSearches) + 1
      ensures totalQueries == old(totalQueries) && completedSearches == old(completedSearches)
      ensures highQualityResults == old(highQualityResults)
      ensures processingTime == old(processingTime) && startTime == old(startTime)
    {
      failedSearches := failedSearches + 1;
    }

    /** `total_queries = total`, leaving the other counters and the timing alone. */
    method SetTotal(total: int)
      modifies this
      ensures totalQueries == total
      ensures completedSearches == old(completedSearches) && failedSearches == old(failedSearches)
      ensures highQualityResults == old(highQualityResults)
      ensures processingTime == old(processingTime) && startTime == old(startTime)
    {
      totalQueries := total;
    }

    /** `get_completion_rate`: completed searches as a percentage of the queries. */
    function CompletionRate(): (rate: real)
      reads this
      ensures totalQueries == 0 ==> rate == 0.0
      ensures totalQueries != 0 ==> rate * totalQueries as real == 100.0 * completedSearches as real
    {
      Percentage(completedSearches, totalQueries)
    }

    /** `get_success_rate`: completed searches as a percentage of all attempts; a percentage
        between 0 and 100 whenever the counters are not negative. */
    function SuccessRate(): (rate: real)
      reads this
      ensures completedSearches + failedSearches == 0 ==> rate == 0.0
      ensures completedSearches + failedSearches != 0 ==>
        rate * (completedSearches + failedSearches) as real == 100.0 * completedSearches as real
      ensures completedSearches >= 0 && failedSearches >= 0 ==> 0.0 <= rate <= 100.0
    {
      PercentageBounds(completedSearches, completedSearches + failedSearches);
      Percentage(completedSearches, completedSearches + failedSearches)
    }
  }

  // ---------------------------------------------------------------- rate limiting

  /** Python's `x % m` for a positive float modulus (floored, so never negative). */
  function FloatMod(x: real, m: real): (r: real)
    requires m > 0.0
    ensures 0.0 <= r < m
  {
    var q := x / m;
    var f := q.Floor as real;
    var t := q - f;
    assert 0.0 <= t < 1.0;
    var r := m * t;
    assert r == x - m * f by {
      assert m * q == x;
    }
    assert 0.0 <= r < m by {
      assert m * (1.0 - t) > 0.0;
    }
    x - m * f
  }

  /** The counter rule: below the limit the counter advances, at or above it resets to 0. */
  function NextCounter(callsMade: int, rateLimit: int): (next: int)
    ensures 0 <= callsMade <= rateLimit ==> 0 <= next <= rateLimit
    ensures next == 0 || next == callsMade + 1
  {
    if callsMade >= rateLimit then 0 else callsMade + 1
  }

  /** The outcome of one pacing decision: the new counter and how long the caller slept. */
  datatype Pacing = Pacing(counter: int, suspended: bool, sleepSeconds: real)

  /** `rate_limit_delay(calls_made, rate_limit, delay_window)` at clock reading `now`: below the
      limit it returns `calls_made + 1` at once; otherwise it sleeps until the next multiple of
      the window and returns 0. */
  function RateLimitDelay(callsMade: int, rateLimit: int, now: real, window: real): (p: Pacing)
    requires window > 0.0
    ensures p.suspended <==> callsMade >= rateLimit
    ensures p.counter == if p.suspended then 0 else callsMade + 1
    ensures p.suspended ==> 0.0 < p.sleepSeconds <= window
    ensures !p.suspended ==> p.sleepSeconds == 0.0
  {
    if callsMade >= rateLimit then Pacing(0, true, window - FloatMod(now, window))
    else Pacing(callsMade + 1, false, 0.0)
  }

  /** The counter after `calls` pacing decisions starting from `start`. */
  function CounterAfter(start: int, rateLimit: int, calls: nat): int {
    if calls == 0 then start else NextCounter(CounterAfter(start, rateLimit, calls - 1), rateLimit)
  }

  /** From a fresh counter the value after `n` decisions is `n mod (L + 1)`: it climbs to the
      limit and wraps to 0, and so never leaves [0, L]. */
  lemma {:induction false} CounterAfterClosedForm(rateLimit: nat, n: nat)
    ensures CounterAfter(0, rateLimit, n) == n % (rateLimit + 1)
    ensures 0 <= CounterAfter(0, rateLimit, n) <= rateLimit
  {
    if n > 0 {
      CounterAfterClosedForm(rateLimit, n - 1);
      var m := rateLimit + 1;
      var c := (n - 1) % m;
      var q := (n - 1) / m;
      assert CounterAfter(0, rateLimit, n) == NextCounter(c, rateLimit);
      assert n - 1 == q * m + c;
      if c < rateLimit {
        assert NextCounter(c, rateLimit) == c + 1;
        ModUnique(n, m, q, c + 1);
      } else {
        assert NextCounter(c, rateLimit) == 0;
        assert (q + 1) * m == q * m + m;
        ModUnique(n, m, q + 1, 0);
      }
    }
  }

  /** The remainder is the unique `r` in [0, m) with `n == q * m + r`. */
  lemma ModUnique(n: int, m: int, q: int, r: int)
    requires m > 0 && 0 <= r < m && n == q * m + r
    ensures n % m == r
  {
    var d := q - n / m;
    assert n == (n / m) * m + n % m;
    assert d * m == n % m - r;
    assert -m < d * m < m;
  }

  /** From a fresh counter with limit L, the first L calls go through without sleeping and the
      call after them sleeps. */
  lemma LimitThenSuspend(rateLimit: nat, now: real, window: real)
    requires window > 0.0
    ensures forall k :: 0 <= k < rateLimit ==>
      !RateLimitDelay(CounterAfter(0, rateLimit, k), rateLimit, now, window).suspended
    ensures RateLimitDelay(CounterAfter(0, rateLimit, rateLimit), rateLimit, now, window).suspended
  {
    forall k | 0 <= k < rateLimit
      ensures !RateLimitDelay(CounterAfter(0, rateLimit, k), rateLimit, now, window).suspended
    {
      CounterAfterClosedForm(rateLimit, k);
      ModUnique(k, rateLimit + 1, 0, k);
    }
    CounterAfterClosedForm(rateLimit, rateLimit);
    ModUnique(rateLimit, rateLimit + 1, 0, rateLimit);
  }

  // ---------------------------------------------------------------- deduplication

  /** The deduplication fingerprint: the first 200 characters of the content (the source hashes
      this prefix; the model compares the prefix itself). */
  function Fingerprint(r: SearchResult): (f: String)
    ensures |f| <= 200 && |f| <= |r.content| && f == r.content[..|f|]
    ensures |r.content| >= 200 ==> |f| == 200
  {
    Take(r.content, 200)
  }

  /** `deduplicate_results`: keeps the first result for each content prefix, in input order. */
  method DeduplicateResults(results: seq<SearchResult>) returns (unique: seq<SearchResult>)
    ensures unique == FirstPerKey(results, Fingerprint)
    ensures IsSubsequence(unique, results)
    ensures DistinctKeys(unique, Fingerprint)
    ensures KeysOf(unique, Fingerprint) == KeysOf(results, Fingerprint)
    ensures forall x :: x in unique ==> IsFirstWithKey(results, Fingerprint, x)
    ensures FirstPerKey(unique, Fingerprint) == unique
  {
    unique := KeepFirstPerKey(results, Fingerprint);
    FirstPerKeySubsequence(results, Fingerprint);
    FirstPerKeyDistinct(results, Fingerprint);
    FirstPerKeyKeys(results, Fingerprint);
    FirstPerKeyFirst(results, Fingerprint);
    FirstPerKeyOfDistinct(unique, Fingerprint);
  }

  // ---------------------------------------------------------------- ranking

  /** `min(len(content) / 1000, 1.0)`: a bonus in [0, 1] that grows with the content length. */
  function LengthBonus(content: String): (bonus: real)
    ensures 0.0 <= bonus <= 1.0
    ensures |content| >= 1000 ==> bonus == 1.0
    ensures |content| < 1000 ==> bonus * 1000.0 == |content| as real
  {
    var ratio := |content| as real / 1000.0;
    if ratio < 1.0 then ratio else 1.0
  }

  /** The document with its length bonus added to the score; nothing else changes. */
  function AddLengthBonus(r: SearchResult): SearchResult {
    r.(relevanceScore := r.relevanceScore + LengthBonus(r.content))
  }

  function WithLengthBonus(results: seq<SearchResult>): (boosted: seq<SearchResult>)
    ensures |boosted| == |results|
    ensures forall i :: 0 <= i < |results| ==> boosted[i] == AddLengthBonus(results[i])
  {
    seq(|results|, i requires 0 <= i < |results| => AddLengthBonus(results[i]))
  }

  /** `rank_results`: adds each document's length bonus to its score, then sorts by score,
      highest first, keeping documents with equal scores in input order. */
  method RankResults(results: seq<SearchResult>) returns (ranked: seq<SearchResult>)
    ensures ranked == SortDesc(WithLengthBonus(results), Score)
  {
    var boosted := results;
    for i := 0 to |results|
      invariant |boosted| == |results|
      invariant forall k :: 0 <= k < i ==> boosted[k] == AddLengthBonus(results[k])
      invariant forall k :: i <= k < |results| ==> boosted[k] == results[k]
    {
      var bonus := LengthBonus(boosted[i].content);
      boosted := boosted[i := boosted[i].(relevanceScore := boosted[i].relevanceScore + bonus)];
    }
    assert boosted == WithLengthBonus(results);
    ranked := SortDesc(boosted, Score);
  }

  /** The ranking is a permutation of the boosted input, sorted by score, highest first, and
      the documents sharing any one score keep their input order. */
  lemma RankedFacts(results: seq<SearchResult>)
    ensures |SortDesc(WithLengthBonus(results), Score)| == |results|
    ensures multiset(SortDesc(WithLengthBonus(results), Score)) == multiset(WithLengthBonus(results))
    ensures SortedDesc(SortDesc(WithLengthBonus(results), Score), Score)
    ensures forall v :: WithKey(SortDesc(WithLengthBonus(results), Score), Score, v)
                     == WithKey(WithLengthBonus(results), Score, v)
  {
    var boosted := WithLengthBonus(results);
    forall v ensures WithKey(SortDesc(boosted, Score), Score, v) == WithKey(boosted, Score, v) {
      SortDescFacts(boosted, Score, v);
    }
    SortDescFacts(boosted, Score, 0.0);
  }
}
