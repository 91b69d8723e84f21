/** Query generation (src/query_generator.py): turning the query model's reply into a list of
    search queries, and the template queries used when no usable reply arrives. The request
    itself is not modelled: the reply is an input. */
module QueryGeneration {
  import opened Text
  import opened Collections
  import opened Backend

  // ---------------------------------------------------------------- parsing a reply

  /** The numbering and bullet prefixes, in the order they are tried. */
  const Prefixes: seq<String> :=
    ["1.", "2.", "3.", "4.", "5.", "6.", "7.", "8.", "9.", "10.", "\U{2022}", "-", "*", "Query:", "Search:"]

  /** Removes the first prefix of `prefixes` (in list order) that `line` starts with, then strips
      what is left; a line with no such prefix is returned unchanged. */
  function RemoveFirstPrefix(line: String, prefixes: seq<String>): (r: String)
    ensures |r| <= |line|
    decreases |prefixes|
  {
    if prefixes == [] then line
    else if StartsWith(line, prefixes[0]) then Strip(line[|prefixes[0]|..])
    else RemoveFirstPrefix(line, prefixes[1..])
  }

  /** A stripped line stays stripped when a prefix is removed, and never grows. */
  lemma {:induction false} RemoveFirstPrefixStripped(line: String, prefixes: seq<String>)
    requires IsStripped(line)
    ensures IsStripped(RemoveFirstPrefix(line, prefixes))
    ensures |RemoveFirstPrefix(line, prefixes)| <= |line|
    decreases |prefixes|
  {
    if prefixes != [] && !StartsWith(line, prefixes[0]) {
      RemoveFirstPrefixStripped(line, prefixes[1..]);
    }
  }

  /** `cleaned_line` for a stripped line: the first matching prefix of the list removed. */
  method CleanLine(line: String) returns (cleaned: String)
    ensures cleaned == RemoveFirstPrefix(line, Prefixes)
  {
    cleaned := line;
    var j := 0;
    while j < |Prefixes|
      invariant 0 <= j <= |Prefixes|
      invariant cleaned == line
      invariant RemoveFirstPrefix(line, Prefixes) == RemoveFirstPrefix(line, Prefixes[j..])
    {
      assert Prefixes[j..][1..] == Prefixes[j + 1..];
      var prefix := Prefixes[j];
      if StartsWith(cleaned, prefix) {
        cleaned := Strip(cleaned[|prefix|..]);
        break;
      }
      j := j + 1;
    }
  }

  /** The line after stripping and prefix removal. */
  function LineQuery(raw: String): String {
    RemoveFirstPrefix(Strip(raw), Prefixes)
  }

  /** A line yields a query when, stripped, it is neither empty nor a `#` heading, and what is
      left after prefix removal is longer than 10 characters. */
  predicate IsQueryLine(raw: String) {
    var line := Strip(raw);
    line != [] && !StartsWith(line, "#") && |LineQuery(raw)| > 10
  }

  /** What one line contributes: its query, or nothing. */
  function LineQueries(raw: String): seq<String> {
    if IsQueryLine(raw) then [LineQuery(raw)] else []
  }

  /** The queries of a list of lines, in line order. */
  function QueriesOf(lines: seq<String>): seq<String> {
    FlatMap(LineQueries, lines)
  }

  /** The reply's queries before truncation: its stripped text, split at newlines. */
  function ReplyQueries(content: String): seq<String> {
    QueriesOf(SplitOn(Strip(content), '\n'))
  }

  /** The parsed list, cut to `numQueries` (a Python slice, so a negative count counts from the
      end) when it is longer, and otherwise returned as it is. */
  function ParsedQueries(content: String, numQueries: int): seq<String> {
    Take(ReplyQueries(content), numQueries)
  }

  /** One pass of the parsing loop: the line's query, or nothing when it is blank, a heading or
      too short once cleaned. */
  method ParseLine(raw: String) returns (found: seq<String>)
    ensures found == LineQueries(raw)
  {
    found := [];
    var line := Strip(raw);
    if line != [] && !StartsWith(line, "#") {
      var cleaned := CleanLine(line);
      assert cleaned == LineQuery(raw);
      if cleaned != [] && |cleaned| > 10 {
        found := [cleaned];
      }
    }
  }

  /** The parsing loop of `generate_diverse_queries` (lines after a 200 reply). */
  method ParseQueries(content: String, numQueries: int) returns (queries: seq<String>)
    ensures queries == ParsedQueries(content, numQueries)
  {
    var lines := SplitOn(Strip(content), '\n');
    queries := CollectQueries(lines);
    ghost var parsed := queries;
    if |queries| < numQueries {
      // fewer than asked for: returned as they are
    } else if |queries| > numQueries {
      queries := Take(queries, numQueries);
    }
    TruncationIsTake(parsed, numQueries);
  }

  /** The loop over the reply's lines, keeping each line's query in line order. */
  method CollectQueries(lines: seq<String>) returns (queries: seq<String>)
    ensures queries == QueriesOf(lines)
  {
    queries := [];
    for i := 0 to |lines|
      invariant queries == QueriesOf(lines[..i])
    {
      FlatMapStep(LineQueries, lines, i);
      var found := ParseLine(lines[i]);
      queries := queries + found;
    }
    assert lines[..|lines|] == lines;
  }

  /** The `if`/`elif` truncation is the slice `[:numQueries]`. */
  lemma TruncationIsTake(qs: seq<String>, numQueries: int)
    ensures |qs| <= numQueries ==> Take(qs, numQueries) == qs
  {
  }

  /** Every query is longer than 10 characters, has no surrounding whitespace, and is the cleaned
      form of one of the lines. */
  lemma QueriesOfShape(lines: seq<String>)
    ensures forall q :: q in QueriesOf(lines) ==> |q| > 10 && IsStripped(q)
    ensures forall q :: q in QueriesOf(lines) ==> exists i :: 0 <= i < |lines| && IsQueryLine(lines[i]) && q == LineQuery(lines[i])
  {
    forall q | q in QueriesOf(lines)
      ensures |q| > 10 && IsStripped(q)
      ensures exists i :: 0 <= i < |lines| && IsQueryLine(lines[i]) && q == LineQuery(lines[i])
    {
      FlatMapMembers(LineQueries, lines, q);
      var i :| 0 <= i < |lines| && q in LineQueries(lines[i]);
      RemoveFirstPrefixStripped(Strip(lines[i]), Prefixes);
    }
  }

  /** A blank line or a `#` line can be taken out without changing the queries. */
  lemma SkippedLine(before: seq<String>, line: String, after: seq<String>)
    requires Strip(line) == [] || StartsWith(Strip(line), "#")
    ensures QueriesOf(before + [line] + after) == QueriesOf(before + after)
  {
    assert LineQueries(line) == [];
    var withLine := before + [line];
    assert withLine[..|withLine| - 1] == before;
    assert FlatMap(LineQueries, withLine) == FlatMap(LineQueries, before);
    FlatMapAppend(LineQueries, withLine, after);
    FlatMapAppend(LineQueries, before, after);
  }

  /** The parsed queries: each is longer than 10 characters and stripped; for a non-negative
      count there are at most `numQueries` of them, in line order (a prefix of the untruncated
      list), and a list no longer than the count is returned whole, without padding. */
  lemma ParsedQueriesFacts(content: String, numQueries: int)
    ensures forall q :: q in ParsedQueries(content, numQueries) ==> |q| > 10 && IsStripped(q)
    ensures ParsedQueries(content, numQueries) == ReplyQueries(content)[..|ParsedQueries(content, numQueries)|]
    ensures numQueries >= 0 ==> |ParsedQueries(content, numQueries)| <= numQueries
    ensures |ReplyQueries(content)| <= numQueries ==> ParsedQueries(content, numQueries) == ReplyQueries(content)
  {
    QueriesOfShape(SplitOn(Strip(content), '\n'));
  }

  /** The entry at `j` decides the line when it is the first entry the line starts with. */
  lemma {:induction false} FirstMatchAt(line: String, prefixes: seq<String>, j: nat)
    requires j < |prefixes| && StartsWith(line, prefixes[j])
    requires forall i :: 0 <= i < j ==> !StartsWith(line, prefixes[i])
    ensures RemoveFirstPrefix(line, prefixes) == Strip(line[|prefixes[j]|..])
    decreases j
  {
    if j > 0 {
      assert !StartsWith(line, prefixes[0]);
      FirstMatchAt(line, prefixes[1..], j - 1);
    }
  }

  /** A line numbered 1 to 10 ("k." followed by text) loses its whole number: for 1 to 9 the
      entry "k." is the first that matches, and "10." does not start with "1.". */
  lemma NumberedLine(k: nat, rest: String)
    requires 1 <= k <= 10
    ensures RemoveFirstPrefix(NatDigits(k) + "." + rest, Prefixes) == Strip(rest)
  {
    var line := NatDigits(k) + "." + rest;
    var p := |NatDigits(k)| + 1;
    assert line[p..] == rest;
    forall i | 0 <= i < k - 1
      ensures !StartsWith(line, Prefixes[i])
    {
      assert Prefixes[i] == [DigitChar(i + 1), '.'];
      if k == 10 && i == 0 {
        assert line[1] == '0';
      } else {
        assert line[0] == DigitChar(if k == 10 then 1 else k);
      }
    }
    assert Prefixes[k - 1] == NatDigits(k) + ".";
    assert StartsWith(line, Prefixes[k - 1]) by {
      assert line[..p] == NatDigits(k) + ".";
    }
    FirstMatchAt(line, Prefixes, k - 1);
  }
  // ---------------------------------------------------------------- fallback queries

  /** `safe_topic`: the topic, or its first 100 characters and "..." when it is longer. */
  function SafeTopic(topic: String): (safe: String)
    ensures |topic| <= 100 ==> safe == topic
    ensures |topic| > 100 ==> |safe| == 103 && safe[..100] == topic[..100] && safe[100..] == "..."
  {
    if |topic| > 100 then topic[..100] + "..." else topic
  }

  /** The 20 fallback templates, each the text before and the text after the topic. */
  const Templates: seq<(String, String)> := [
    ("What is ", " and how does it work"),
    ("History and evolution of ", ""),
    ("Current trends in ", ""),
    ("Future of ", ""),
    ("Benefits and advantages of ", ""),
    ("Challenges and limitations of ", ""),
    ("Best practices for ", ""),
    ("Use cases and applications of ", ""),
    ("Comparison of ", " alternatives"),
    ("Implementation strategies for ", ""),
    ("Industry impact of ", ""),
    ("Economic aspects of ", ""),
    ("Technical details of ", ""),
    ("Research and development in ", ""),
    ("Expert opinions on ", ""),
    ("Case studies involving ", ""),
    ("Recent news about ", ""),
    ("Market analysis of ", ""),
    ("Regulatory aspects of ", ""),
    ("Environmental impact of ", "")]

  const AdvancedSuffix: String := " - Advanced perspective"

  /** Fallback query `i`: template `i mod 20` around the safe topic, with " - Advanced
      perspective" appended once the 20 templates have all been used. */
  function FallbackQuery(safeTopic: String, i: nat): (q: String)
    ensures |q| > |safeTopic|
  {
    var template := Templates[i % |Templates|];
    var base := template.0 + safeTopic + template.1;
    if i >= |Templates| then base + AdvancedSuffix else base
  }

  /** Every fallback query contains the safe topic. */
  lemma FallbackQueryMentionsTopic(safeTopic: String, i: nat)
    ensures Contains(FallbackQuery(safeTopic, i), safeTopic)
  {
    var template := Templates[i % |Templates|];
    if i >= |Templates| {
      assert FallbackQuery(safeTopic, i) == template.0 + safeTopic + (template.1 + AdvancedSuffix);
      ContainsInfix(template.0, safeTopic, template.1 + AdvancedSuffix);
    } else {
      ContainsInfix(template.0, safeTopic, template.1);
    }
  }

  /** From index 20 on the list repeats with period 20; the first 20 are the bare templates. */
  lemma FallbackQueryPeriodic(safeTopic: String, i: nat, j: nat)
    ensures i >= 20 && j >= 20 && i % 20 == j % 20 ==> FallbackQuery(safeTopic, i) == FallbackQuery(safeTopic, j)
    ensures i < 20 ==> FallbackQuery(safeTopic, i + 20) == FallbackQuery(safeTopic, i) + AdvancedSuffix
  {
    assert |Templates| == 20;
    if i < 20 {
      assert (i + 20) % 20 == i;
    }
  }

  /** `_generate_fallback_queries` with `config.num_queries = numQueries`. */
  method GenerateFallbackQueries(topic: String, numQueries: int) returns (queries: seq<String>)
    ensures |queries| == if numQueries > 0 then numQueries else 0
    ensures forall i :: 0 <= i < |queries| ==> queries[i] == FallbackQuery(SafeTopic(topic), i)
    ensures forall i :: 0 <= i < |queries| ==> Contains(queries[i], SafeTopic(topic))
  {
    var safeTopic := if |topic| > 100 then topic[..100] + "..." else topic;
    assert safeTopic == SafeTopic(topic);
    queries := [];
    var i := 0;
    while i < numQueries
      invariant 0 <= i && (numQueries > 0 ==> i <= numQueries) && (numQueries <= 0 ==> i == 0)
      invariant |queries| == i
      invariant forall k :: 0 <= k < i ==> queries[k] == FallbackQuery(safeTopic, k)
    {
      ghost var previous := queries;
      var template := Templates[i % |Templates|];
      var baseQuery := template.0 + safeTopic + template.1;
      if i >= |Templates| {
        queries := queries + [baseQuery + AdvancedSuffix];
      } else {
        queries := queries + [baseQuery];
      }
      assert queries == previous + [FallbackQuery(safeTopic, i)];
      i := i + 1;
    }
    queries := Take(queries, numQueries);
    FallbackQueriesMentionTopic(queries, safeTopic);
  }

  /** A list of fallback queries mentions the safe topic in every entry. */
  lemma FallbackQueriesMentionTopic(queries: seq<String>, safeTopic: String)
    requires forall i :: 0 <= i < |queries| ==> queries[i] == FallbackQuery(safeTopic, i)
    ensures forall i :: 0 <= i < |queries| ==> Contains(queries[i], safeTopic)
  {
    forall i | 0 <= i < |queries| ensures Contains(queries[i], safeTopic) {
      FallbackQueryMentionsTopic(safeTopic, i);
    }
  }

  // ---------------------------------------------------------------- the whole step

  /** `generate_diverse_queries` once the reply is in: a delivered reply is parsed, and anything
      else (another status, an unreadable body, an exception) falls back to the templates. */
  method GenerateDiverseQueries(topic: String, reply: Reply, numQueries: int) returns (queries: seq<String>)
    ensures Delivered(reply) ==> queries == ParsedQueries(Content(reply), numQueries)
    ensures !Delivered(reply) ==> |queries| == (if numQueries > 0 then numQueries else 0)
    ensures !Delivered(reply) ==> forall i :: 0 <= i < |queries| ==> queries[i] == FallbackQuery(SafeTopic(topic), i)
  {
    if Delivered(reply) {
      queries := ParseQueries(Content(reply), numQueries);
    } else {
      queries := GenerateFallbackQueries(topic, numQueries);
    }
  }
}
