/** The search layer (src/search_executor.py): one chat-completion request per query, paced by
    the rate-limit counter, each turned into a `SearchResult` and counted in the run statistics.
    The HTTP exchange is an input: each request's outcome is a `Backend.Reply`. */
module SearchExecution {
  import opened Text
  import opened Collections
  import opened Utils
  import opened Backend
  import Configuration

  /** The `delay_window` the executor paces with (the limiter's default). */
  const DelayWindow: real := 60.0

  const FailurePrefix: String := "Search failed: "

  const ViaOpenRouter: String := " via OpenRouter"

  /** An error document: "Search failed: " and the reason, source "Error", score 0. */
  function Failure(query: String, reason: String, timestamp: real): SearchResult {
    SearchResult(query, FailurePrefix + reason, ErrorSource, timestamp, 0.0)
  }

  /** The document `execute_search` returns for `query` when the request ends with `reply`,
      stamped with the clock reading `timestamp`. */
  function SearchOutcome(query: String, reply: Reply, model: String, timestamp: real): (r: SearchResult)
    ensures r.query == query && r.timestamp == timestamp
    ensures IsError(r) <==> !Delivered(reply)
    ensures Delivered(reply) ==>
      r.content == Content(reply) && r.source == model + ViaOpenRouter && r.relevanceScore == 0.5
    ensures !Delivered(reply) ==> r.relevanceScore == 0.0 && StartsWith(r.content, FailurePrefix)
    ensures reply.Answered? && reply.status != 200 ==>
      r.content == FailurePrefix + "HTTP " + DecimalString(reply.status)
    ensures reply.TimedOut? ==> r.content == FailurePrefix + "Connection timeout"
    ensures reply.Raised? ==> r.content == FailurePrefix + reply.error
    ensures reply.Answered? && reply.status == 200 && reply.body.Malformed? ==>
      r.content == FailurePrefix + reply.body.error
  {
    match reply
    case TimedOut => Failure(query, "Connection timeout", timestamp)
    case Raised(e) => Failure(query, e, timestamp)
    case Answered(status, body) =>
      if status != 200 then Failure(query, "HTTP " + DecimalString(status), timestamp)
      else match body
        case Malformed(e) => Failure(query, e, timestamp)
        case Completion(content) =>
          assert |model + ViaOpenRouter| != |ErrorSource|;
          SearchResult(query, content, model + ViaOpenRouter, timestamp, 0.5)
  }

  /** An HTTP failure can be read back from the document: its content ends with the status code,
      written in decimal. */
  lemma HttpStatusReadBack(query: String, status: nat, body: Body, model: String, timestamp: real)
    requires status != 200
    ensures var r := SearchOutcome(query, Answered(status, body), model, timestamp);
      var prefix := FailurePrefix + "HTTP ";
      |prefix| <= |r.content| && r.content[..|prefix|] == prefix &&
      (forall i :: |prefix| <= i < |r.content| ==> IsDigit(r.content[i])) &&
      DigitsValue(r.content[|prefix|..]) == status
  {
    var prefix := FailurePrefix + "HTTP ";
    var r := SearchOutcome(query, Answered(status, body), model, timestamp);
    assert r.content == prefix + NatDigits(status);
    assert r.content[|prefix|..] == NatDigits(status);
    DigitsValueOfNatDigits(status);
  }

  /** What happens around one request of a batch: the backend's reply, the clock reading when the
      limiter is consulted and the clock reading when the document is stamped. */
  datatype Attempt = Attempt(reply: Reply, pacedAt: real, finishedAt: real)

  /** The documents of a batch run in query order. */
  function Outcomes(queries: seq<String>, attempts: seq<Attempt>, model: String): (rs: seq<SearchResult>)
    requires |attempts| == |queries|
    ensures |rs| == |queries|
  {
    if queries == [] then []
    else
      var n := |queries| - 1;
      Outcomes(queries[..n], attempts[..n], model)
        + [SearchOutcome(queries[n], attempts[n].reply, model, attempts[n].finishedAt)]
  }

  /** One more query extends the documents by its outcome. */
  lemma OutcomesStep(queries: seq<String>, attempts: seq<Attempt>, model: String, i: nat)
    requires |attempts| == |queries| && i < |queries|
    ensures Outcomes(queries[..i + 1], attempts[..i + 1], model) ==
      Outcomes(queries[..i], attempts[..i], model) + [SearchOutcome(queries[i], attempts[i].reply, model, attempts[i].finishedAt)]
  {
    assert queries[..i + 1][..i] == queries[..i] && attempts[..i + 1][..i] == attempts[..i];
  }

  /** One document per query, in query order: the i-th is the outcome of the i-th query. */
  lemma {:induction false} OutcomesInOrder(queries: seq<String>, attempts: seq<Attempt>, model: String)
    requires |attempts| == |queries|
    ensures forall i :: 0 <= i < |queries| ==> Outcomes(queries, attempts, model)[i].query == queries[i]
    ensures forall i :: 0 <= i < |queries| ==>
      Outcomes(queries, attempts, model)[i] == SearchOutcome(queries[i], attempts[i].reply, model, attempts[i].finishedAt)
  {
    if queries != [] {
      var n := |queries| - 1;
      OutcomesInOrder(queries[..n], attempts[..n], model);
    }
  }

  /** The batch's successes are exactly its delivered replies. */
  lemma {:induction false} OutcomeCounts(queries: seq<String>, attempts: seq<Attempt>, model: String)
    requires |attempts| == |queries|
    ensures SuccessCount(Outcomes(queries, attempts, model)) == |Filter(IsDelivered, attempts)|
    ensures ErrorCount(Outcomes(queries, attempts, model)) == |queries| - |Filter(IsDelivered, attempts)|
  {
    var rs := Outcomes(queries, attempts, model);
    SuccessAndErrorCounts(rs);
    if queries != [] {
      var n := |queries| - 1;
      OutcomeCounts(queries[..n], attempts[..n], model);
      assert rs[..n] == Outcomes(queries[..n], attempts[..n], model);
    }
  }

  predicate IsDelivered(a: Attempt) { Delivered(a.reply) }

  /** `SearchExecutor`: the rate-limit counter and the statistics of the searches run so far. The
      model and the limit are the values read from the configuration. */
  class SearchExecutor {
    var callsMade: int
    const stats: ResearchStats
    const searchModel: String
    const rateLimit: int

    constructor (config: Configuration.Config)
      ensures callsMade == 0 && fresh(stats)
      ensures stats.totalQueries == 0 && stats.completedSearches == 0 && stats.failedSearches == 0
      ensures stats.highQualityResults == 0
      ensures searchModel == config.searchModel && rateLimit == config.apiRateLimit
    {
      callsMade := 0;
      stats := new ResearchStats();
      searchModel := config.searchModel;
      rateLimit := config.apiRateLimit;
    }

    /** `execute_search`: first consults the limiter (at clock reading `now`), then issues the
        request, whose outcome is `reply`, and stamps the document with `clock`. Exactly one of
        the completed and failed counters rises by one. */
    method ExecuteSearch(query: String, reply: Reply, now: real, clock: real)
      returns (result: SearchResult, pacing: Pacing)
      modifies this, stats
      ensures pacing == RateLimitDelay(old(callsMade), rateLimit, now, DelayWindow)
      ensures callsMade == NextCounter(old(callsMade), rateLimit)
      ensures result == SearchOutcome(query, reply, searchModel, clock)
      ensures stats.completedSearches == old(stats.completedSearches) + (if Delivered(reply) then 1 else 0)
      ensures stats.failedSearches == old(stats.failedSearches) + (if Delivered(reply) then 0 else 1)
      ensures stats.totalQueries == old(stats.totalQueries)
      ensures stats.highQualityResults == old(stats.highQualityResults)
      ensures stats.startTime == old(stats.startTime) && stats.processingTime == old(stats.processingTime)
    {
      pacing := RateLimitDelay(callsMade, rateLimit, now, DelayWindow);
      callsMade := pacing.counter;
      match reply {
        case TimedOut =>
          stats.RecordFailed();
          result := Failure(query, "Connection timeout", clock);
        case Raised(e) =>
          stats.RecordFailed();
          result := Failure(query, e, clock);
        case Answered(status, body) =>
          if status == 200 {
            match body {
              case Completion(content) =>
                stats.RecordCompleted();
                result := SearchResult(query, content, searchModel + ViaOpenRouter, clock, 0.5);
              case Malformed(e) =>
                // the outer handler: reading the body raised
                stats.RecordFailed();
                result := Failure(query, e, clock);
            }
          } else {
            stats.RecordFailed();
            result := Failure(query, "HTTP " + DecimalString(status), clock);
          }
      }
    }

    /** `execute_batch_searches`, with the searches run one after another in query order:
        `total_queries` is set to the batch size, the completed and failed counters go on from
        where they were, the limiter is consulted once per query, and the timing covers the batch
        from `startClock` to `endClock`. */
    method ExecuteBatch(queries: seq<String>, attempts: seq<Attempt>, startClock: real, endClock: real)
      returns (results: seq<SearchResult>)
      requires |attempts| == |queries|
      modifies this, stats
      ensures results == Outcomes(queries, attempts, searchModel)
      ensures callsMade == CounterAfter(old(callsMade), rateLimit, |queries|)
      ensures stats.totalQueries == |queries|
      ensures stats.completedSearches == old(stats.completedSearches) + SuccessCount(results)
      ensures stats.failedSearches == old(stats.failedSearches) + ErrorCount(results)
      ensures stats.startTime == startClock && stats.processingTime == endClock - startClock
      ensures stats.highQualityResults == old(stats.highQualityResults)
      ensures old(stats.completedSearches) == 0 && old(stats.failedSearches) == 0 ==>
        stats.completedSearches + stats.failedSearches == stats.totalQueries
    {
      ghost var completed0, failed0 := stats.completedSearches, stats.failedSearches;
      ghost var highQuality0, calls0 := stats.highQualityResults, callsMade;
      stats.SetTotal(|queries|);
      stats.StartTiming(startClock);
      results := [];
      for i := 0 to |queries|
        invariant results == Outcomes(queries[..i], attempts[..i], searchModel)
        invariant callsMade == CounterAfter(calls0, rateLimit, i)
        invariant stats.totalQueries == |queries| && stats.startTime == startClock
        invariant stats.completedSearches == completed0 + SuccessCount(results)
        invariant stats.failedSearches == failed0 + ErrorCount(results)
        invariant stats.highQualityResults == highQuality0
      {
        var result, _ := ExecuteSearch(queries[i], attempts[i].reply, attempts[i].pacedAt, attempts[i].finishedAt);
        OutcomesStep(queries, attempts, searchModel, i);
        CountsAppend(results, result);
        results := results + [result];
      }
      assert queries[..|queries|] == queries && attempts[..|queries|] == attempts;
      stats.EndTiming(endClock);
      SuccessAndErrorCounts(results);
    }
  }

  /** The counters are not reset between batches: on a fresh executor, two one-query batches
      leave `total_queries` at 1 while the completed and failed counters add up to 2, so the
      completion rate then reads 200 percent when both searches succeed. */
  method SecondBatchCounts(config: Configuration.Config, query: String, reply: Reply)
    returns (total: int, counted: int, rate: real)
    ensures total == 1 && counted == 2
    ensures Delivered(reply) ==> rate == 200.0
  {
    var executor := new SearchExecutor(config);
    var attempt := Attempt(reply, 0.0, 0.0);
    var first := executor.ExecuteBatch([query], [attempt], 0.0, 0.0);
    var second := executor.ExecuteBatch([query], [attempt], 0.0, 0.0);
    total := executor.stats.totalQueries;
    counted := executor.stats.completedSearches + executor.stats.failedSearches;
    rate := executor.stats.CompletionRate();
  }
}
