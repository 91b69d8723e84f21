/** The configuration record and its validation (config.py). Loading the values from the
    environment is not modelled: a `Config` holds the already-parsed values. */
module Configuration {
  import opened Text
  import Utils

  datatype Config = Config(
    openrouterApiKey: String,
    initSearchModel: String,
    queryModel: String,
    searchModel: String,
    summarizerModel: String,
    fastModel: String,
    numQueries: int,
    maxConcurrentSearches: int,
    searchTimeout: int,
    apiRateLimit: int)

  /** The values used when no environment variable is set (with no API key). */
  const Defaults: Config := Config("", "claude-3-haiku", "claude-3-haiku-4.5", "perplexity/sonar-pro",
    "claude-3-sonnet-4.5", "anthropic/claude-haiku", 100, 10, 30, 60)

  /** `Config.validate`: the API key must be non-empty and both the query count and the
      concurrency must be at least 1, checked in that order. */
  function Validate(c: Config): (ok: bool)
    ensures c.openrouterApiKey == "" ==> !ok
    ensures c.numQueries < 1 ==> !ok
    ensures c.maxConcurrentSearches < 1 ==> !ok
    ensures ok <== c.openrouterApiKey != "" && c.numQueries >= 1 && c.maxConcurrentSearches >= 1
  {
    if c.openrouterApiKey == "" then false
    else if c.numQueries < 1 then false
    else if c.maxConcurrentSearches < 1 then false
    else true
  }

  /** The rate limit, the timeout and the model names play no part in validation. */
  lemma ValidateIgnoresLimitsAndModels(c: Config, rateLimit: int, timeout: int, model: String)
    ensures Validate(c.(apiRateLimit := rateLimit, searchTimeout := timeout, searchModel := model))
         == Validate(c)
  {
  }

  /** The defaults pass once a key is supplied, and nothing else is needed. */
  lemma DefaultsNeedOnlyAKey(key: String)
    ensures Validate(Defaults.(openrouterApiKey := key)) <==> key != ""
  {
  }

  /** A validated configuration may have `api_rate_limit = 0`; the limiter then suspends on every
      call, since the counter never leaves 0. */
  lemma {:induction false} ZeroRateLimitSuspendsEveryCall(c: Config, n: nat, now: real)
    requires Validate(c) && c.apiRateLimit == 0
    ensures Utils.CounterAfter(0, c.apiRateLimit, n) == 0
    ensures Utils.RateLimitDelay(Utils.CounterAfter(0, c.apiRateLimit, n), c.apiRateLimit, now, 60.0).suspended
  {
    if n > 0 {
      ZeroRateLimitSuspendsEveryCall(c, n - 1, now);
    }
  }
}
